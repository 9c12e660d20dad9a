/** Reading a key from a version. */
module VersionGet {
  import opened Options
  import opened Files
  import opened Levels
  import opened Lsm

  /** Binary search for the first file that does not end before the key. */
  method FindInFiles(fs: seq<File>, k: Key) returns (r: Option<File>)
    requires FilesOk(fs) && Sorted(fs)
    ensures r.Some? ==> exists i: nat :: i < |fs| && r.value == fs[i] && k <= fs[i].sup && forall j: nat :: j < i ==> fs[j].sup < k
    ensures r.None? ==> forall j: nat :: j < |fs| ==> fs[j].sup < k
  {
    var count, first := |fs|, 0;
    while count > 0
      invariant 0 <= first <= first + count <= |fs|
      invariant forall j: nat :: j < first ==> fs[j].sup < k
      invariant first + count < |fs| ==> k <= fs[first + count].sup
    {
      var step := count / 2;
      var mid := fs[first + step];
      if mid.sup < k {
        forall j: nat | j < first + step ensures fs[j].sup < k {
          SortedAt(fs, j, first + step);
          assert fs[first + step] in fs;
        }
        first := first + step + 1;
        count := count - (step + 1);
      } else {
        count := step;
      }
    }
    if first >= |fs| { return None; }
    return Some(fs[first]);
  }

  /** The file found by the search decides for its level. */
  lemma FoundDecides(fs: seq<File>, k: Key, i: nat)
    requires FilesOk(fs) && Sorted(fs) && DistinctRefs(fs)
    requires i < |fs| && k <= fs[i].sup && forall j: nat :: j < i ==> fs[j].sup < k
    ensures Hit(fs, k) == Find(fs[i].run, k)
  {
    assert fs[i] in fs && LevelOk(1, fs);
    if fs[i].inf <= k {
      HitSorted(fs, k, fs[i]);
    } else {
      forall f | f in fs ensures Find(f.run, k).None? {
        var j: nat :| j < |fs| && fs[j] == f;
        if j > i { SortedAt(fs, i, j); }
        FindIn(f.run, k);
      }
      HitNone(fs, k);
      assert Find(fs[i].run, k).None?;
    }
  }

  lemma NotFound(fs: seq<File>, k: Key)
    requires FilesOk(fs) && forall j: nat :: j < |fs| ==> fs[j].sup < k
    ensures Hit(fs, k) == None
  {
    forall f | f in fs ensures Find(f.run, k).None? { FindIn(f.run, k); }
    HitNone(fs, k);
  }

  lemma OutOfRange(f: File, k: Key)
    requires FileOk(f) && (k < f.inf || k > f.sup)
    ensures Find(f.run, k) == None
  {
    FindIn(f.run, k);
  }

  /** Level 0: every file whose range admits the key, newest first. */
  method GetLevel0(fs: seq<File>, k: Key) returns (v: Option<Value>)
    requires FilesOk(fs)
    ensures v == Hit(fs, k)
  {
    for i := 0 to |fs|
      invariant Hit(fs, k) == Hit(fs[i..], k)
    {
      var f := fs[i];
      assert f in fs && fs[i..][1..] == fs[i + 1..];
      if k < f.inf || k > f.sup {
        OutOfRange(f, k);
        continue;
      }
      v := Find(f.run, k);
      if v.Some? { return; }
    }
    v := None;
  }

  /** A lookup sees, whatever the files, the first value on the way down the levels. */
  method Get(files: seq<seq<File>>, k: Key) returns (v: Option<Value>)
    requires LevelsOk(files)
    ensures v == Lookup(files, k)
  {
    for level := 0 to |files|
      invariant Lookup(files, k) == Lookup(files[level..], k)
    {
      var fs := files[level];
      assert LevelOk(level, fs) && files[level..][1..] == files[level + 1..];
      if level == 0 {
        v := GetLevel0(fs, k);
        if v.Some? { return; }
      } else {
        var f := FindInFiles(fs, k);
        if f.Some? {
          var i: nat :| i < |fs| && f.value == fs[i] && k <= fs[i].sup && forall j: nat :: j < i ==> fs[j].sup < k;
          FoundDecides(fs, k, i);
          v := Find(f.value.run, k);
          if v.Some? { return; }
        } else {
          NotFound(fs, k);
        }
      }
    }
    v := None;
  }
}
