/**
 * The handful of JavaScript string operations the exporter relies on
 * (startsWith, endsWith, substring, split, template interpolation, truthiness),
 * stated over Dafny strings.
 */
module JsText {

  /** `s.startsWith(p)` */
  predicate StartsWith(s: string, p: string) {
    |p| <= |s| && s[..|p|] == p
  }

  /** `s.endsWith(p)` */
  predicate EndsWith(s: string, p: string) {
    |p| <= |s| && s[|s| - |p|..] == p
  }

  /** `s.substring(n)` for n >= 0: everything from index n on (empty when n is past the end). */
  function Substring(s: string, n: nat): (r: string)
    ensures n <= |s| ==> s == s[..n] + r
    ensures n >= |s| ==> r == ""
  {
    if n <= |s| then s[n..] else ""
  }

  /** A string with prefix p agrees with p at every index of p. */
  lemma PrefixAt(s: string, p: string, k: nat)
    requires StartsWith(s, p) && k < |p|
    ensures s[k] == p[k]
  {
    assert s[..|p|][k] == s[k];
  }

  /** One mismatching character rules a prefix out. */
  lemma NotPrefixAt(s: string, p: string, k: nat)
    requires k < |p| && k < |s| && s[k] != p[k]
    ensures !StartsWith(s, p)
  {
    if StartsWith(s, p) { PrefixAt(s, p, k); }
  }

  /** An `http` string does not start with `./` or `//`. */
  lemma HttpIsNotRelative(s: string)
    requires StartsWith(s, "http")
    ensures !StartsWith(s, "./") && !StartsWith(s, "//")
  {
    PrefixAt(s, "http", 0);
    NotPrefixAt(s, "./", 0);
    NotPrefixAt(s, "//", 0);
  }

  /** A `//` string does not start with `http`. */
  lemma HttpIsNotRelativeContra(s: string)
    requires StartsWith(s, "//")
    ensures !StartsWith(s, "http")
  {
    if StartsWith(s, "http") { HttpIsNotRelative(s); }
  }

  lemma StartsWithAppend(p: string, s: string, q: string)
    requires StartsWith(p, q)
    ensures StartsWith(p + s, q)
  {
    assert (p + s)[..|q|] == p[..|q|];
  }

  lemma StartsWithTrans(s: string, p: string, q: string)
    requires StartsWith(s, p) && StartsWith(p, q)
    ensures StartsWith(s, q)
  {
    assert s[..|q|] == s[..|p|][..|q|];
  }

  /** `s.split(c)[0]`: the part of s before the first occurrence of c (all of s when absent). */
  function BeforeFirst(s: string, c: char): (r: string)
    ensures c !in r
    ensures StartsWith(s, r)
    ensures |r| < |s| ==> s[|r|] == c
  {
    if s == [] then []
    else if s[0] == c then []
    else [s[0]] + BeforeFirst(s[1..], c)
  }

  /** The decimal digits of a natural number, as `${n}` prints it. */
  function NatToString(n: nat): (r: string)
    ensures |r| > 0
    ensures forall i :: 0 <= i < |r| ==> '0' <= r[i] <= '9'
    ensures n > 0 ==> r[0] != '0'
  {
    if n < 10 then [Digit(n)] else NatToString(n / 10) + [Digit(n % 10)]
  }

  function Digit(d: nat): (c: char)
    requires d < 10
    ensures '0' <= c <= '9'
  {
    ('0' as int + d) as char
  }

  /** Reads a string of decimal digits back as a number. */
  function ParseDigits(s: string): nat
    requires forall i :: 0 <= i < |s| ==> '0' <= s[i] <= '9'
  {
    if s == [] then 0
    else ParseDigits(s[..|s| - 1]) * 10 + (s[|s| - 1] - '0') as nat
  }

  /** Printing a number and reading it back gives the number. */
  lemma {:induction false} NatToStringRoundTrip(n: nat)
    ensures ParseDigits(NatToString(n)) == n
  {
    if n >= 10 {
      var s := NatToString(n);
      assert s[..|s| - 1] == NatToString(n / 10);
      assert s[|s| - 1] == Digit(n % 10);
      NatToStringRoundTrip(n / 10);
    }
  }

  /** ParseDigits inverts NatToString, so different numbers print differently. */
  lemma NatToStringInjective(m: nat, n: nat)
    requires NatToString(m) == NatToString(n)
    ensures m == n
  {
    NatToStringRoundTrip(m);
    NatToStringRoundTrip(n);
  }

  /** `${i}` for an integer. */
  function IntToString(i: int): (r: string)
    ensures i >= 0 ==> r == NatToString(i)
    ensures i < 0 ==> r == "-" + NatToString(-i)
  {
    if i >= 0 then NatToString(i) else "-" + NatToString(-i)
  }

  /**
   * The JSON values the handlers read from request and message bodies.
   * Numbers are integers; objects and arrays are not looked into.
   */
  datatype JsValue =
    | Undefined
    | Null
    | Bool(b: bool)
    | Num(n: int)
    | Str(s: string)
    | Obj

  /** JavaScript truthiness: false, 0, "", null and undefined are falsy. */
  predicate Truthy(v: JsValue) {
    match v
    case Undefined => false
    case Null => false
    case Bool(b) => b
    case Num(n) => n != 0
    case Str(s) => s != ""
    case Obj => true
  }

  /** What a template literal `${v}` produces for v. */
  function Interpolate(v: JsValue): (r: string)
    ensures v.Str? ==> r == v.s
  {
    match v
    case Undefined => "undefined"
    case Null => "null"
    case Bool(b) => if b then "true" else "false"
    case Num(n) => IntToString(n)
    case Str(s) => s
    case Obj => "[object Object]"
  }

  /** A destructuring default `{ x = d } = obj`: d replaces only an undefined value. */
  function WithDefault(v: JsValue, d: JsValue): (r: JsValue)
    ensures v != Undefined ==> r == v
    ensures v == Undefined ==> r == d
  {
    if v.Undefined? then d else v
  }

  /** Reading a field of a parsed JSON object: absent fields read as undefined. */
  function Field(o: map<string, JsValue>, k: string): JsValue {
    if k in o then o[k] else Undefined
  }
}
