/**
 * The interactive export's clean-up of the phase bodies: setting attributes
 * escaped `&` once more, turning an XML entity reference such as `&lt;`
 * (section 4.1 of XML 1.0) into `&amp;lt;`. The fix replaces `&amp;` by `&`
 * wherever one to six characters of `[1-9a-zA-Z]` and a `;` follow it; a
 * character reference `&#60;` has a `#` there and is left escaped.
 */
module Entities {

  /** The character class `[1-9]|[a-zA-Z]` of the lookahead. */
  predicate RefChar(c: char) {
    ('1' <= c <= '9') || ('a' <= c <= 'z') || ('A' <= c <= 'Z')
  }

  /** The lookahead `(?=([1-9]|[a-zA-Z]){1,6};)` matches at the start of `s`. */
  predicate RefFollows(s: seq<char>) {
    exists k :: 1 <= k <= 6 && k < |s| && (forall j :: 0 <= j < k ==> RefChar(s[j])) && s[k] == ';'
  }

  /** An occurrence of `&amp;` at index `i` that the regular expression replaces. */
  predicate DecodableAt(s: seq<char>, i: nat) {
    i + 5 <= |s| && s[i..i + 5] == "&amp;" && RefFollows(s[i + 5..])
  }

  /**
   * A global left-to-right replacement: at each position either the pattern
   * matches (five characters become `&`) or one character is copied.
   */
  function DecodeAmp(s: seq<char>): seq<char>
    decreases |s|
  {
    if s == [] then []
    else if DecodableAt(s, 0) then "&" + DecodeAmp(s[5..])
    else [s[0]] + DecodeAmp(s[1..])
  }

  /**
   * The over-encoding the fix undoes: every `&` that starts a reference-looking
   * run is written `&amp;`.
   */
  function EncodeAmp(t: seq<char>): seq<char>
    decreases |t|
  {
    if t == [] then []
    else if t[0] == '&' && RefFollows(t[1..]) then "&amp;" + EncodeAmp(t[1..])
    else [t[0]] + EncodeAmp(t[1..])
  }

  /** A stretch of text without `&` comes through the encoding unchanged. */
  lemma {:induction false} EncodeKeepsPlainPrefix(u: seq<char>, m: nat)
    requires m <= |u| && forall j :: 0 <= j < m ==> u[j] != '&'
    ensures m <= |EncodeAmp(u)| && EncodeAmp(u)[..m] == u[..m]
    decreases m
  {
    if m > 0 {
      EncodeKeepsPlainPrefix(u[1..], m - 1);
      assert EncodeAmp(u) == [u[0]] + EncodeAmp(u[1..]);
    }
  }

  /** Conversely, an encoded stretch without `&` is a copy of the text it came from. */
  lemma {:induction false} PlainPrefixOfEncoding(u: seq<char>, m: nat)
    requires m <= |EncodeAmp(u)| && forall j :: 0 <= j < m ==> EncodeAmp(u)[j] != '&'
    ensures m <= |u| && u[..m] == EncodeAmp(u)[..m]
    decreases m
  {
    if m > 0 {
      assert u != [];
      EncodeFirst(u);
      assert EncodeAmp(u) == [u[0]] + EncodeAmp(u[1..]);
      assert forall j :: 0 <= j < m - 1 ==> EncodeAmp(u[1..])[j] == EncodeAmp(u)[j + 1];
      PlainPrefixOfEncoding(u[1..], m - 1);
    }
  }

  /** Encoding never changes the first character. */
  lemma EncodeFirst(u: seq<char>)
    requires u != []
    ensures EncodeAmp(u) != [] && EncodeAmp(u)[0] == u[0]
  {
  }

  /** Encoding keeps the lookahead true wherever it was true. */
  lemma EncodeKeepsLookahead(u: seq<char>)
    requires RefFollows(u)
    ensures RefFollows(EncodeAmp(u))
  {
    var k :| 1 <= k <= 6 && k < |u| && (forall j :: 0 <= j < k ==> RefChar(u[j])) && u[k] == ';';
    EncodeKeepsPlainPrefix(u, k + 1);
    var e := EncodeAmp(u);
    assert forall j :: 0 <= j <= k ==> e[j] == e[..k + 1][j] == u[..k + 1][j] == u[j];
    assert (forall j :: 0 <= j < k ==> RefChar(e[j])) && e[k] == ';';
  }

  /**
   * If what follows an `&` encodes to `amp;...`, it already was `amp;...`, which
   * is itself a reference-looking run.
   */
  lemma AmpPrefixIsLookahead(u: seq<char>)
    requires 4 <= |EncodeAmp(u)| && EncodeAmp(u)[..4] == "amp;"
    ensures RefFollows(u)
  {
    var e := EncodeAmp(u);
    assert forall j :: 0 <= j < 4 ==> e[j] == e[..4][j];
    PlainPrefixOfEncoding(u, 4);
    assert forall j :: 0 <= j < 4 ==> u[j] == u[..4][j] == e[..4][j];
    assert (forall j :: 0 <= j < 3 ==> RefChar(u[j])) && u[3] == ';';
  }

  /** One replacement step of the decoder. */
  lemma DecodeAtAmp(r: seq<char>)
    requires RefFollows(r)
    ensures DecodeAmp("&amp;" + r) == "&" + DecodeAmp(r)
  {
    var s := "&amp;" + r;
    assert s[5..] == r && s[0..5] == "&amp;";
    assert DecodableAt(s, 0);
  }

  /** One copying step of the decoder. */
  lemma DecodeAtPlain(c: char, r: seq<char>)
    requires !DecodableAt([c] + r, 0)
    ensures DecodeAmp([c] + r) == [c] + DecodeAmp(r)
  {
    assert ([c] + r)[1..] == r;
  }

  /** The decoder exactly undoes the over-encoding. */
  lemma {:induction false} DecodeEncode(t: seq<char>)
    ensures DecodeAmp(EncodeAmp(t)) == t
    decreases |t|
  {
    if t != [] {
      var rest := EncodeAmp(t[1..]);
      DecodeEncode(t[1..]);
      if t[0] == '&' && RefFollows(t[1..]) {
        assert EncodeAmp(t) == "&amp;" + rest;
        EncodeKeepsLookahead(t[1..]);
        DecodeAtAmp(rest);
      } else {
        var s := [t[0]] + rest;
        assert EncodeAmp(t) == s;
        assert !DecodableAt(s, 0) by {
          if t[0] == '&' && DecodableAt(s, 0) {
            // an `&` left alone cannot be read back as `&amp;` plus a reference
            assert rest[..4] == s[1..5];
            AmpPrefixIsLookahead(t[1..]);
            assert false;
          }
        }
        DecodeAtPlain(t[0], rest);
      }
      assert t == [t[0]] + t[1..];
    }
  }

  /** Shifting a position by one character of context. */
  lemma DecodableShift(s: seq<char>, i: nat)
    requires s != []
    ensures DecodableAt(s[1..], i) <==> DecodableAt(s, i + 1)
  {
    if i + 6 <= |s| {
      assert s[1..][i..i + 5] == s[i + 1..i + 6];
      assert s[1..][i + 5..] == s[i + 6..];
    }
  }

  /** Text with no replaceable occurrence is left exactly as it is. */
  lemma {:induction false} DecodeNoMatch(s: seq<char>)
    requires forall i: nat :: !DecodableAt(s, i)
    ensures DecodeAmp(s) == s
    decreases |s|
  {
    if s != [] {
      assert !DecodableAt(s, 0);
      forall i: nat ensures !DecodableAt(s[1..], i) {
        DecodableShift(s, i);
      }
      DecodeNoMatch(s[1..]);
      assert s == [s[0]] + s[1..];
    }
  }

  /** The decoder only ever shortens the text. */
  lemma {:induction false} DecodeShortens(s: seq<char>)
    ensures |DecodeAmp(s)| <= |s|
    decreases |s|
  {
    if s != [] {
      if DecodableAt(s, 0) {
        DecodeShortens(s[5..]);
      } else {
        DecodeShortens(s[1..]);
      }
    }
  }

  /** A position where the text holds no `&` is not a match. */
  lemma NoAmpNoMatch(s: seq<char>, i: nat)
    requires i < |s| ==> s[i] != '&'
    ensures !DecodableAt(s, i)
  {
    if i + 5 <= |s| {
      assert s[i..i + 5][0] == s[i];
    }
  }

  /** A named entity reference is repaired. */
  lemma DecodeEntityExample()
    ensures DecodeAmp("&amp;lt;") == "&lt;"
  {
    var lt := "lt;";
    assert RefChar(lt[0]) && RefChar(lt[1]) && lt[2] == ';';
    assert RefFollows(lt);
    DecodeAtAmp(lt);
    forall i: nat ensures !DecodableAt(lt, i) {
      NoAmpNoMatch(lt, i);
    }
    DecodeNoMatch(lt);
  }

  /** A character reference `&#60;` is left escaped: `#` is not in the class. */
  lemma DecodeCharRefExample()
    ensures DecodeAmp("&amp;#60;") == "&amp;#60;"
  {
    var num := "&amp;#60;";
    forall i: nat ensures !DecodableAt(num, i) {
      if i == 0 {
        assert num[5..][0] == '#';
      } else {
        NoAmpNoMatch(num, i);
      }
    }
    DecodeNoMatch(num);
  }

  /** A bare `&amp;` between words stays. */
  lemma DecodeBareAmpExample()
    ensures DecodeAmp("a &amp; b") == "a &amp; b"
  {
    var bare := "a &amp; b";
    forall i: nat ensures !DecodableAt(bare, i) {
      if i == 2 {
        assert bare[7..][0] == ' ';
      } else {
        NoAmpNoMatch(bare, i);
      }
    }
    DecodeNoMatch(bare);
  }
}
