/**
 * Blobs and the local temporary directory. `rimraf` is a removal attempt whose
 * error, if any, is only reported through its callback.
 */
module Files {

  /** The paths of a list, as the set of files they name. */
  function SetOf(ps: seq<string>): set<string> {
    set p | p in ps
  }

  lemma SetOfConcat(a: seq<string>, b: seq<string>)
    ensures SetOf(a + b) == SetOf(a) + SetOf(b)
  {
  }

  /** What rendering produces and the job store holds: text or raw bytes. */
  datatype Blob = Text(text: string) | Binary(bytes: seq<bv8>)

  class FileSystem {
    /** The files present on local disk. */
    var files: set<string>
    /** Every removal attempted, in order. */
    var removals: seq<string>

    constructor (files: set<string>)
      ensures this.files == files && removals == []
    {
      this.files := files;
      removals := [];
    }

    /** Writing a file. */
    method Write(path: string)
      modifies this`files
      ensures files == old(files) + {path}
    {
      files := files + {path};
    }

    /**
     * `rimraf(path, callback)`: the removal is attempted; when it fails the error
     * goes to the callback, which logs it, and the file stays.
     */
    method Remove(path: string, fails: bool)
      modifies this`files, this`removals
      ensures removals == old(removals) + [path]
      ensures files == if fails then old(files) else old(files) - {path}
    {
      removals := removals + [path];
      if !fails {
        files := files - {path};
      }
    }

    /** `paths.forEach(path => rimraf(path, ...))`: one independent attempt per path. */
    method RemoveAll(paths: seq<string>, failing: set<string>)
      modifies this`files, this`removals
      ensures removals == old(removals) + paths
      ensures files == old(files) - (set p | p in paths && p !in failing)
    {
      var i := 0;
      while i < |paths|
        invariant 0 <= i <= |paths|
        invariant removals == old(removals) + paths[..i]
        invariant files == old(files) - (set p | p in paths[..i] && p !in failing)
      {
        assert paths[..i + 1] == paths[..i] + [paths[i]];
        Remove(paths[i], paths[i] in failing);
        i := i + 1;
      }
      assert paths[..i] == paths;
    }
  }
}
