/**
 * Path helpers of `mylogger::File` (include/MyLogger/File.hpp) and the
 * duplicate `fileName` of the legacy `tool::log::Logger` (include/MyLogger/Logger.hpp).
 * Both separators, '/' and '\\', are recognised, as `find_last_of("\\/")` does.
 */
module Paths {
  import opened Wrappers

  predicate IsSeparator(c: char) { c == '/' || c == '\\' }

  predicate NoSeparator(s: string) { forall i :: 0 <= i < |s| ==> !IsSeparator(s[i]) }

  /** `find_last_of("\\/")`: the index of the last separator, or None for `npos`. */
  function FindLastSeparator(path: string): (pos: Option<nat>)
    ensures pos.Some? ==> pos.value < |path| && IsSeparator(path[pos.value]) && NoSeparator(path[pos.value + 1..])
    ensures pos.None? ==> NoSeparator(path)
  {
    if |path| == 0 then None
    else if IsSeparator(path[|path| - 1]) then Some(|path| - 1)
    else
      var pos := FindLastSeparator(path[..|path| - 1]);
      assert pos.Some? ==> path[pos.value + 1..] == path[..|path| - 1][pos.value + 1..] + [path[|path| - 1]];
      assert path == path[..|path| - 1] + [path[|path| - 1]];
      pos
  }

  /** File::fileName: the part after the last separator, the whole path when there is none. */
  function FileName(path: string): (r: string)
    ensures NoSeparator(r)
    ensures |r| <= |path| && r == path[|path| - |r|..]
    ensures |r| < |path| ==> IsSeparator(path[|path| - |r| - 1])
  {
    var pos := FindLastSeparator(path);
    if pos.Some? then path[pos.value + 1..] else path
  }

  /**
   * File::dirName. The first test compares `pos` with `path.length() - 1` as
   * `size_t` values: on an empty path `length() - 1` wraps around to `npos`,
   * which is also what `find_last_of` returns, so the empty path is returned.
   */
  function DirName(path: string): (r: string)
    ensures (|path| == 0 || IsSeparator(path[|path| - 1])) ==> r == path
    ensures |r| <= |path| && r == path[..|r|]
    ensures r == [] || IsSeparator(r[|r| - 1])
    ensures NoSeparator(path[|r|..])
  {
    var pos := FindLastSeparator(path);
    var lastIndex: Option<nat> := if |path| == 0 then None else Some(|path| - 1);
    if pos == lastIndex then path
    else if pos.Some? then path[..pos.value + 1]
    else ""
  }

  /** Every path splits into its directory part followed by its file part. */
  lemma DirNameThenFileName(path: string)
    ensures DirName(path) + FileName(path) == path
  {
  }

  /** The directory part is a fixed point of DirName and has an empty file part. */
  lemma DirNameIdempotent(path: string)
    ensures DirName(DirName(path)) == DirName(path)
    ensures FileName(DirName(path)) == ""
  {
  }

  /** The last separator at index k fixes both parts of the path. */
  lemma SplitAtLastSeparator(path: string, k: nat)
    requires k < |path| && IsSeparator(path[k])
    requires forall i :: k < i < |path| ==> !IsSeparator(path[i])
    ensures FindLastSeparator(path) == Some(k)
    ensures FileName(path) == path[k + 1..]
    ensures k < |path| - 1 ==> DirName(path) == path[..k + 1]
  {
    LastSeparatorAt(path, k);
  }

  /** find_last_of finds the separator after which no separator follows. */
  lemma {:induction false} LastSeparatorAt(path: string, k: nat)
    requires k < |path| && IsSeparator(path[k])
    requires forall i :: k < i < |path| ==> !IsSeparator(path[i])
    ensures FindLastSeparator(path) == Some(k)
  {
    if k < |path| - 1 {
      var init := path[..|path| - 1];
      assert !IsSeparator(path[|path| - 1]);
      assert forall i :: k < i < |init| ==> !IsSeparator(init[i]);
      LastSeparatorAt(init, k);
    }
  }

  /** A path without separator is all file name and no directory. */
  lemma NoSeparatorPath(path: string)
    requires NoSeparator(path) && |path| > 0
    ensures FileName(path) == path && DirName(path) == ""
  {
  }

  /** The dirName cases of the repository's PathManipulation test. */
  lemma DirNameTestCases()
    ensures DirName("/tmp/foo/bar") == "/tmp/foo/"
    ensures DirName("/tmp/foo/") == "/tmp/foo/"
    ensures DirName("/tmp/foo") == "/tmp/"
    ensures DirName("/tmp/") == "/tmp/"
    ensures DirName("/tmp") == "/"
    ensures DirName("tmp/foo") == "tmp/"
    ensures DirName("tmp/foo/") == "tmp/foo/"
    ensures DirName("tmp") == ""
  {
    DirNameCase1();
    DirNameCase2();
    DirNameCase3();
    DirNameCase4();
    DirNameCase5();
    DirNameCase6();
    DirNameCase7();
    DirNameCase8();
  }

  lemma DirNameCase1()
    ensures DirName("/tmp/foo/bar") == "/tmp/foo/"
  {
    SplitAtLastSeparator("/tmp/foo/bar", 8);
  }

  lemma DirNameCase2()
    ensures DirName("/tmp/foo/") == "/tmp/foo/"
  {
    assert IsSeparator("/tmp/foo/"[8]);
  }

  lemma DirNameCase3()
    ensures DirName("/tmp/foo") == "/tmp/"
  {
    SplitAtLastSeparator("/tmp/foo", 4);
  }

  lemma DirNameCase4()
    ensures DirName("/tmp/") == "/tmp/"
  {
    assert IsSeparator("/tmp/"[4]);
  }

  lemma DirNameCase5()
    ensures DirName("/tmp") == "/"
  {
    SplitAtLastSeparator("/tmp", 0);
  }

  lemma DirNameCase6()
    ensures DirName("tmp/foo") == "tmp/"
  {
    SplitAtLastSeparator("tmp/foo", 3);
  }

  lemma DirNameCase7()
    ensures DirName("tmp/foo/") == "tmp/foo/"
  {
    assert IsSeparator("tmp/foo/"[7]);
  }

  lemma DirNameCase8()
    ensures DirName("tmp") == ""
  {
    NoSeparatorPath("tmp");
  }

  /** The fileName cases of the repository's PathManipulation test. */
  lemma FileNameTestCases()
    ensures FileName("/home/qq/MyLogger/tests/common/FileTests.cpp") == "FileTests.cpp"
    ensures FileName("/home/qq/MyLogger/tests/common") == "common"
    ensures FileName("common") == "common"
  {
    FileNameCase1();
    FileNameCase2();
    FileNameCase3();
  }

  lemma FileNameCase1()
    ensures FileName("/home/qq/MyLogger/tests/common/FileTests.cpp") == "FileTests.cpp"
  {
    SplitAtLastSeparator("/home/qq/MyLogger/tests/common/FileTests.cpp", 30);
  }

  lemma FileNameCase2()
    ensures FileName("/home/qq/MyLogger/tests/common") == "common"
  {
    SplitAtLastSeparator("/home/qq/MyLogger/tests/common", 23);
  }

  lemma FileNameCase3()
    ensures FileName("common") == "common"
  {
    NoSeparatorPath("common");
  }
}

/** The legacy `tool::log::Logger` keeps its own copy of `fileName`. */
module LegacyLogger {
  import Paths

  /** Logger::fileName: the same computation as File::fileName. */
  function FileName(path: string): (r: string)
    ensures r == Paths.FileName(path)
    ensures Paths.NoSeparator(r)
  {
    var pos := Paths.FindLastSeparator(path);
    if pos.Some? then path[pos.value + 1..] else path
  }
}
