/** Choosing the inputs of a compaction. */
module VersionPick {
  import opened Options
  import opened Files
  import opened Levels
  import opened Lsm

  lemma {:induction false} SortedHull(fs: seq<File>)
    requires fs != [] && FilesOk(fs) && Sorted(fs)
    ensures Lo(fs) == fs[0].inf && Hi(fs) == fs[|fs| - 1].sup
  {
    assert fs[0] in fs;
    if |fs| > 1 {
      assert forall f :: f in fs[1..] ==> f in fs;
      SortedHull(fs[1..]);
      assert fs[1] in fs && fs[1] in fs[1..] && fs[|fs| - 1] in fs[1..];
    }
  }

  lemma {:induction false} HullAppend(fs: seq<File>, f: File)
    requires fs != []
    ensures Lo(fs + [f]) == (if f.inf < Lo(fs) then f.inf else Lo(fs))
    ensures Hi(fs + [f]) == (if f.sup > Hi(fs) then f.sup else Hi(fs))
  {
    if |fs| > 1 {
      assert (fs + [f])[1..] == fs[1..] + [f];
      HullAppend(fs[1..], f);
    } else {
      assert (fs + [f])[1..] == [f];
    }
  }

  /** The range that the files span. */
  method GetRange(level: nat, fs: seq<File>) returns (lo: Key, hi: Key)
    requires fs != [] && FilesOk(fs) && (level > 0 ==> Sorted(fs))
    ensures lo == Lo(fs) && hi == Hi(fs)
  {
    if level > 0 {
      SortedHull(fs);
      return fs[0].inf, fs[|fs| - 1].sup;
    }
    var infimum: Option<Key>, supremum: Option<Key> := None, None;
    for i := 0 to |fs|
      invariant infimum == (if i == 0 then None else Some(Lo(fs[..i])))
      invariant supremum == (if i == 0 then None else Some(Hi(fs[..i])))
    {
      var f := fs[i];
      assert fs[..i + 1] == fs[..i] + [f];
      if i > 0 { HullAppend(fs[..i], f); }
      if infimum.Some? {
        if f.inf < infimum.value { infimum := Some(f.inf); }
      } else {
        infimum := Some(f.inf);
      }
      if supremum.Some? {
        if supremum.value < f.sup { supremum := Some(f.sup); }
      } else {
        supremum := Some(f.sup);
      }
    }
    assert fs[..|fs|] == fs;
    return infimum.value, supremum.value;
  }

  // ----- selecting more files -----

  function MaxXip(fs: seq<File>): nat
    requires fs != []
  {
    if |fs| == 1 then fs[0].minXip
    else if fs[0].minXip > MaxXip(fs[1..]) then fs[0].minXip else MaxXip(fs[1..])
  }

  /** Level 0 takes a file that is older than the selection, or one that overlaps it and is free. */
  predicate Takes(f: File, maxXip: nat, lo: Key, hi: Key) {
    f.minXip <= maxXip || (Overlaps(f, lo, hi) && !f.busy)
  }

  /** From the oldest file up, until one is not taken. */
  function Oldest(fs: seq<File>, maxXip: nat, lo: Key, hi: Key): seq<File> {
    if fs == [] then []
    else
      var n := |fs| - 1;
      if Takes(fs[n], maxXip, lo, hi) then Oldest(fs[..n], maxXip, lo, hi) + [fs[n]] else []
  }

  function OverlappingInputs(level: nat, fs: seq<File>, prev: seq<File>, lo: Key, hi: Key): seq<File>
    requires level == 0 ==> prev != []
  {
    if level == 0 then Oldest(fs, MaxXip(prev), lo, hi) else Overlapping(fs, lo, hi)
  }

  /** The selection is the part of level 0 below the newest file that is not taken. */
  lemma {:induction false} OldestIs(fs: seq<File>, maxXip: nat, lo: Key, hi: Key)
    ensures
      var n := |fs| - |Oldest(fs, maxXip, lo, hi)|;
      && 0 <= n && Oldest(fs, maxXip, lo, hi) == fs[n..]
      && (forall i :: n <= i < |fs| ==> Takes(fs[i], maxXip, lo, hi))
      && (n > 0 ==> !Takes(fs[n - 1], maxXip, lo, hi))
  {
    if fs != [] && Takes(fs[|fs| - 1], maxXip, lo, hi) {
      OldestIs(fs[..|fs| - 1], maxXip, lo, hi);
    }
  }

  lemma {:induction false} OverlappingShorter(fs: seq<File>, lo: Key, hi: Key)
    ensures |Overlapping(fs, lo, hi)| <= |fs|
    ensures |Overlapping(fs, lo, hi)| == |fs| ==> Overlapping(fs, lo, hi) == fs
  {
    if fs != [] { OverlappingShorter(fs[1..], lo, hi); }
  }

  // ----- growing a selection -----

  predicate AnyBusy(fs: seq<File>) {
    exists f :: f in fs && f.busy
  }

  /** A selection of level 0 that cannot grow: the next newer file does not overlap it, or is busy. */
  ghost predicate Closed(fs: seq<File>, n: nat)
    requires n < |fs|
  {
    n == 0 || fs[n - 1].busy || !Overlaps(fs[n - 1], Lo(fs[n..]), Hi(fs[n..]))
  }

  /** How far a selection from the oldest files up to file `i` grows: to the first that is closed. */
  ghost function GrowTo(fs: seq<File>, i: nat): (n: nat)
    requires i < |fs|
    ensures n <= i && Closed(fs, n)
    ensures forall m :: n < m <= i ==> !Closed(fs, m)
  {
    if Closed(fs, i) then i else GrowTo(fs, i - 1)
  }

  /** Only closed selections on the way count. */
  lemma {:induction false} GrowToSame(fs: seq<File>, i: nat, n: nat)
    requires n <= i < |fs| && forall m :: n < m <= i ==> !Closed(fs, m)
    ensures GrowTo(fs, n) == GrowTo(fs, i)
    decreases i
  {
    if n < i { GrowToSame(fs, i - 1, n); }
  }

  /** A selection of a deeper level that is all that overlaps its own range. */
  ghost predicate Whole(fs: seq<File>, ins: seq<File>) {
    ins != [] ==> ins == Overlapping(fs, Lo(ins), Hi(ins))
  }

  /** Selecting by a file that is among the oldest `|fs| - i` takes all of these. */
  lemma OldestGrows(fs: seq<File>, i: nat, maxXip: nat, lo: Key, hi: Key)
    requires NewestFirst(fs) && i < |fs| && fs[i].minXip <= maxXip
    ensures |fs| - i <= |Oldest(fs, maxXip, lo, hi)| <= |fs|
    ensures Oldest(fs, maxXip, lo, hi) == fs[|fs| - |Oldest(fs, maxXip, lo, hi)|..]
  {
    OldestIs(fs, maxXip, lo, hi);
    forall j | i <= j < |fs| ensures Takes(fs[j], maxXip, lo, hi) {
      if j > i { NewestAt(fs, i, j); }
    }
  }

  /** When selecting again gives the same part, the part is closed. */
  lemma NotTaken(fs: seq<File>, n: nat)
    requires n < |fs| && Oldest(fs, MaxXip(fs[n..]), Lo(fs[n..]), Hi(fs[n..])) == fs[n..]
    ensures Closed(fs, n)
  {
    OldestIs(fs, MaxXip(fs[n..]), Lo(fs[n..]), Hi(fs[n..]));
  }

  /** The newest of the oldest files is the first. */
  lemma MaxIsFirst(fs: seq<File>, n: nat, files: seq<File>)
    requires NewestFirst(fs) && n < |fs| && (files == [fs[n]] || files == fs[n..])
    ensures MaxXip(files) == fs[n].minXip
  {
    if files != [fs[n]] { MaxOfRest(fs, n); }
  }

  lemma {:induction false} MaxOfRest(fs: seq<File>, n: nat)
    requires NewestFirst(fs) && n < |fs|
    ensures MaxXip(fs[n..]) == fs[n].minXip
    decreases |fs| - n
  {
    if n + 1 < |fs| {
      assert fs[n..][1..] == fs[n + 1..];
      MaxOfRest(fs, n + 1);
      NewestAt(fs, n, n + 1);
    }
  }

  /** Fewer files span no more. */
  lemma HullShrinks(all: seq<File>, part: seq<File>, fs: seq<File>, m: nat, n: nat)
    requires m <= n < |fs| && all == fs[m..] && (part == [fs[n]] || part == fs[n..])
    ensures Lo(all) <= Lo(part) && Hi(part) <= Hi(all)
  {
    HullBounds(all);
    HullBounds(part);
    forall f | f in part ensures f in all {
      if part == [fs[n]] { assert all[n - m] == f; } else {
        var i :| 0 <= i < |part| && part[i] == f;
        assert all[n - m + i] == f;
      }
    }
  }

  /** One round of growth in level 0. */
  lemma Grow(fs: seq<File>, n: nat, files: seq<File>)
    requires NewestFirst(fs) && n < |fs| && (files == [fs[n]] || files == fs[n..])
    ensures
      var more := Oldest(fs, MaxXip(files), Lo(files), Hi(files));
      && |fs| - n <= |more| <= |fs| && more == fs[|fs| - |more|..]
      && (|more| <= |files| ==> more == files && Closed(fs, |fs| - |more|))
  {
    var more := Oldest(fs, MaxXip(files), Lo(files), Hi(files));
    assert fs[n] == files[0];
    assert files[0].minXip <= MaxXip(files);
    OldestGrows(fs, n, MaxXip(files), Lo(files), Hi(files));
    if |more| <= |files| {
      if files == [fs[n]] { assert |fs| - n == 1 && fs[n..] == [fs[n]]; }
      NotTaken(fs, n);
    }
  }

  /** What a round adds was open: every file that it takes is free and overlaps the selection it joins. */
  lemma GrowOpen(fs: seq<File>, n: nat, files: seq<File>, m: nat)
    requires NewestFirst(fs) && n < |fs| && (files == [fs[n]] || files == fs[n..])
    requires |fs| - |Oldest(fs, MaxXip(files), Lo(files), Hi(files))| < m <= n
    ensures !Closed(fs, m)
  {
    hide Oldest, MaxXip, Lo, Hi, NewestFirst;
    OldestIs(fs, MaxXip(files), Lo(files), Hi(files));
    MaxIsFirst(fs, n, files);
    NewestAt(fs, m - 1, n);
    HullShrinks(fs[m..], files, fs, m, n);
    assert Takes(fs[m - 1], MaxXip(files), Lo(files), Hi(files));
  }

  lemma {:induction false} OverlappingSame(fs: seq<File>, lo: Key, hi: Key, lo': Key, hi': Key)
    requires forall g :: g in fs ==> (Overlaps(g, lo, hi) <==> Overlaps(g, lo', hi'))
    ensures Overlapping(fs, lo, hi) == Overlapping(fs, lo', hi')
  {
    if fs != [] {
      assert fs[0] in fs;
      OverlappingSame(fs[1..], lo, hi, lo', hi');
    }
  }

  /** What overlaps a range is all that overlaps its own hull. */
  lemma OverlappingWhole(level: nat, fs: seq<File>, lo: Key, hi: Key)
    requires level > 0 && LevelOk(level, fs) && lo <= hi
    ensures Whole(fs, Overlapping(fs, lo, hi))
  {
    var ins := Overlapping(fs, lo, hi);
    if ins != [] {
      HullBounds(ins);
      forall f ensures f in ins <==> f in fs && Overlaps(f, lo, hi) { OverlappingIn(fs, lo, hi, f); }
      var x :| x in ins && Lo(ins) == x.inf;
      var y :| y in ins && Hi(ins) == y.sup;
      forall g | g in fs ensures Overlaps(g, lo, hi) <==> Overlaps(g, Lo(ins), Hi(ins)) {
        assert FileOk(g);
        if g !in ins {
          SortedApart(fs, g, x);
          SortedApart(fs, g, y);
        }
      }
      OverlappingSame(fs, lo, hi, Lo(ins), Hi(ins));
    }
  }

  /** In a sorted level a file overlaps no other. */
  lemma {:induction false} SingleWhole(level: nat, fs: seq<File>, f: File)
    requires level > 0 && LevelOk(level, fs) && f in fs
    ensures Overlapping(fs, f.inf, f.sup) == [f]
  {
    assert FileOk(fs[0]) by { assert fs[0] in fs; }
    assert forall g :: g in fs[1..] ==> g in fs;
    if f == fs[0] {
      forall g | g in fs[1..] ensures !Overlaps(g, f.inf, f.sup) { assert fs[0].sup < g.inf; }
      NoneOverlap(fs[1..], f.inf, f.sup);
    } else {
      assert fs == [fs[0]] + fs[1..];
      SingleWhole(level, fs[1..], f);
    }
  }

  lemma {:induction false} NoneOverlap(fs: seq<File>, lo: Key, hi: Key)
    requires forall g :: g in fs ==> !Overlaps(g, lo, hi)
    ensures Overlapping(fs, lo, hi) == []
  {
    if fs != [] {
      assert fs[0] in fs;
      NoneOverlap(fs[1..], lo, hi);
    }
  }

  /** A selection on its way: in level 0 one file or an oldest part, in deeper levels already complete. */
  ghost predicate Selected(level: nat, fs: seq<File>, ins: seq<File>, n: nat) {
    && (forall f :: f in ins ==> f in fs)
    && if level == 0 then n < |fs| && (ins == [fs[n]] || ins == fs[n..]) else Sorted(ins) && Whole(fs, ins)
  }

  /** Selects by the range of the files selected so far. */
  method Reselect(level: nat, fs: seq<File>, files: seq<File>, ghost n: nat) returns (more: seq<File>)
    requires LevelOk(level, fs) && files != [] && Selected(level, fs, files, n)
    ensures level > 0 ==> more == files
    ensures level == 0 ==> |fs| - n <= |more| <= |fs| && more == fs[|fs| - |more|..]
    ensures level == 0 && |more| <= |files| ==> more == files && Closed(fs, |fs| - |more|)
    ensures level == 0 ==> GrowTo(fs, |fs| - |more|) == GrowTo(fs, n)
  {
    var lo, hi := GetRange(level, files);
    more := OverlappingInputs(level, fs, files, lo, hi);
    if level == 0 {
      Grow(fs, n, files);
      forall m | |fs| - |more| < m <= n ensures !Closed(fs, m) { GrowOpen(fs, n, files, m); }
      GrowToSame(fs, n, |fs| - |more|);
    }
  }

  /** What a selection becomes: in level 0 the oldest files as far as these have to grow, in deeper levels
      it is complete from the start. */
  ghost function Expanded(level: nat, fs: seq<File>, start: seq<File>, i: nat): seq<File>
    requires level == 0 ==> i < |fs|
  {
    if level == 0 then fs[GrowTo(fs, i)..] else start
  }

  /** Grows a selection until it grows no more; refuses it when it has a busy file. */
  method ExpandInputs(level: nat, fs: seq<File>, start: seq<File>, ghost i: nat) returns (r: Option<seq<File>>)
    requires LevelOk(level, fs) && Selected(level, fs, start, i)
    ensures r == if AnyBusy(Expanded(level, fs, start, i)) then None else Some(Expanded(level, fs, start, i))
  {
    var files := start;
    ghost var n: nat := i;
    while true
      invariant level > 0 ==> files == start
      invariant level == 0 ==> n <= i && GrowTo(fs, n) == GrowTo(fs, i)
      invariant Selected(level, fs, files, n)
      decreases |fs| - |files|
    {
      var oldLen := |files|;
      if oldLen == 0 { break; }
      files := Reselect(level, fs, files, n);
      if level == 0 { n := |fs| - |files|; }
      if |files| <= oldLen { break; }
    }
    if exists f :: f in files && f.busy { return None; }
    return Some(files);
  }

  // ----- trying the candidates in order -----

  function Free(fs: seq<File>): seq<File> {
    if fs == [] then [] else if fs[0].busy then Free(fs[1..]) else [fs[0]] + Free(fs[1..])
  }

  lemma {:induction false} FreeIn(fs: seq<File>, f: File)
    ensures f in Free(fs) <==> f in fs && !f.busy
  {
    if fs != [] { FreeIn(fs[1..], f); }
  }

  /** Level 0 starts from the oldest file, deeper levels from the largest. */
  predicate Goes(level: nat, a: File, b: File) {
    if level == 0 then a.minXip < b.minXip else a.size > b.size
  }

  function Insert(level: nat, f: File, fs: seq<File>): seq<File> {
    if fs == [] || !Goes(level, fs[0], f) then [f] + fs else [fs[0]] + Insert(level, f, fs[1..])
  }

  /** A stable sort. */
  function SortFiles(level: nat, fs: seq<File>): seq<File> {
    if fs == [] then [] else Insert(level, fs[0], SortFiles(level, fs[1..]))
  }

  ghost predicate InTurn(level: nat, fs: seq<File>) {
    fs != [] ==> (forall g :: g in fs[1..] ==> !Goes(level, g, fs[0])) && InTurn(level, fs[1..])
  }

  lemma {:induction false} InsertIn(level: nat, f: File, fs: seq<File>, g: File)
    ensures g in Insert(level, f, fs) <==> g == f || g in fs
  {
    if fs != [] && Goes(level, fs[0], f) { InsertIn(level, f, fs[1..], g); }
  }

  lemma {:induction false} InsertTurn(level: nat, f: File, fs: seq<File>)
    requires InTurn(level, fs)
    ensures InTurn(level, Insert(level, f, fs))
  {
    if fs != [] && Goes(level, fs[0], f) {
      InsertTurn(level, f, fs[1..]);
      forall g | g in Insert(level, f, fs[1..]) ensures !Goes(level, g, fs[0]) { InsertIn(level, f, fs[1..], g); }
      assert Insert(level, f, fs)[1..] == Insert(level, f, fs[1..]);
    } else {
      assert ([f] + fs)[1..] == fs;
      if fs != [] {
        forall g | g in fs ensures !Goes(level, g, f) { assert g == fs[0] || g in fs[1..]; }
      }
    }
  }

  lemma {:induction false} SortedTurn(level: nat, fs: seq<File>)
    ensures InTurn(level, SortFiles(level, fs))
    ensures forall g :: g in SortFiles(level, fs) <==> g in fs
  {
    if fs != [] {
      SortedTurn(level, fs[1..]);
      InsertTurn(level, fs[0], SortFiles(level, fs[1..]));
      forall g ensures g in SortFiles(level, fs) <==> g in fs {
        InsertIn(level, fs[0], SortFiles(level, fs[1..]), g);
        assert g in fs <==> g == fs[0] || g in fs[1..];
      }
    }
  }

  /** A free file of a deeper level cannot be compacted: a file it overlaps one level down is busy. */
  ghost predicate Blocked(files: seq<seq<File>>, level: nat, f: File)
    requires level + 1 < |files|
  {
    AnyBusy(Overlapping(files[level + 1], f.inf, f.sup))
  }

  /** The inputs that a candidate brings are free, and so is all that they overlap one level down. */
  ghost predicate Fits(files: seq<seq<File>>, level: nat, ins: seq<File>)
    requires level + 1 < |files| && ins != []
  {
    !AnyBusy(ins) && !AnyBusy(Overlapping(files[level + 1], Lo(ins), Hi(ins)))
  }

  /** The oldest file of level 0 and what it has to take along. */
  ghost function OldestPart(fs: seq<File>): (r: seq<File>)
    requires fs != []
    ensures r != []
  {
    fs[GrowTo(fs, |fs| - 1)..]
  }

  /** Growing takes no busy file along. */
  lemma OldestPartFree(fs: seq<File>)
    requires fs != [] && !fs[|fs| - 1].busy
    ensures !AnyBusy(OldestPart(fs))
  {
    var n := GrowTo(fs, |fs| - 1);
    forall j | n <= j < |fs| - 1 ensures !fs[j].busy { assert !Closed(fs, j + 1); }
  }

  /** A level has something to compact: in level 0 the oldest file and what it takes along, further down any
      free file; what that overlaps one level down has to be free. */
  ghost predicate Possible(files: seq<seq<File>>, level: nat)
    requires level + 1 < |files|
  {
    if level == 0 then files[0] != [] && !files[0][|files[0]| - 1].busy
      && !AnyBusy(Overlapping(files[1], Lo(OldestPart(files[0])), Hi(OldestPart(files[0]))))
    else exists f :: f in files[level] && !f.busy && !Blocked(files, level, f)
  }

  lemma FileSelected(level: nat, fs: seq<File>, f: File, i: nat)
    requires LevelOk(level, fs) && i < |fs| && fs[i] == f
    ensures Selected(level, fs, [f], i)
  {
    if level > 0 { SingleWhole(level, fs, f); }
  }

  lemma LowerSelected(level: nat, fs: seq<File>, lo: Key, hi: Key)
    requires level > 0 && LevelOk(level, fs) && lo <= hi
    ensures Selected(level, fs, Overlapping(fs, lo, hi), 0)
  {
    OverlappingOk(level, fs, lo, hi);
    OverlappingWhole(level, fs, lo, hi);
    forall f | f in Overlapping(fs, lo, hi) ensures f in fs { OverlappingIn(fs, lo, hi, f); }
  }

  /** One candidate: its expanded inputs, and all the files these overlap one level down. */
  method TryFile(files: seq<seq<File>>, level: nat, f: File, ghost i: nat) returns (r: Option<Compaction>, stop: bool)
    requires LevelsOk(files) && level + 1 < |files| && i < |files[level]| && files[level][i] == f && !f.busy
    ensures r.Some? ==> Chosen(files, r.value) && r.value.level == level
    ensures var ins := Expanded(level, files[level], [f], i);
      ins != [] && (r.Some? <==> Fits(files, level, ins)) && (r.Some? ==> r.value.inputs0 == ins)
    ensures stop == (level == 0)
  {
    stop := level == 0;
    var fs, lower := files[level], files[level + 1];
    assert LevelOk(level, fs) && LevelOk(level + 1, lower);
    FileSelected(level, fs, f, i);
    var ins := ExpandInputs(level, fs, [f], i);
    if ins.None? {
      return None, stop;
    }
    forall g | g in ins.value ensures g in fs && FileOk(g) && !g.busy {}
    HullBounds(ins.value);
    var lo, hi := GetRange(level, ins.value);
    LowerSelected(level + 1, lower, lo, hi);
    var outs := ExpandInputs(level + 1, lower, OverlappingInputs(level + 1, lower, [], lo, hi), 0);
    if outs.Some? {
      r := Some(Compaction(level, ins.value, outs.value));
    } else {
      r := None;
    }
  }

  lemma {:induction false} TurnAt(level: nat, fs: seq<File>, i: nat, j: nat)
    requires InTurn(level, fs) && i < j < |fs|
    ensures !Goes(level, fs[j], fs[i])
  {
    if i == 0 { assert fs[j] == fs[1..][j - 1]; } else { TurnAt(level, fs[1..], i - 1, j - 1); }
  }

  /** Candidates larger than one in turn have been tried before it. */
  lemma EarlierBlocked(files: seq<seq<File>>, level: nat, tried: seq<File>, i: nat)
    requires 0 < level && level + 1 < |files| && i < |tried| && InTurn(level, tried)
    requires forall j :: 0 <= j < i ==> Blocked(files, level, tried[j])
    ensures forall f :: f in tried && f.size > tried[i].size ==> Blocked(files, level, f)
  {
    forall f | f in tried && f.size > tried[i].size ensures Blocked(files, level, f) {
      var j :| 0 <= j < |tried| && tried[j] == f;
      if i < j { TurnAt(level, tried, i, j); }
    }
  }

  /** A free file of a deeper level fits unless it is blocked. */
  lemma FitsAlone(files: seq<seq<File>>, level: nat, f: File)
    requires level + 1 < |files| && !f.busy
    ensures Fits(files, level, [f]) <==> !Blocked(files, level, f)
  {
  }

  /** The first candidate of level 0 is its oldest free file; one that is not the oldest takes a busy one along. */
  lemma FirstTried(files: seq<seq<File>>, tried: seq<File>, i: nat)
    requires LevelsOk(files) && 1 < |files| && tried != [] && InTurn(0, tried)
    requires forall f :: f in tried <==> f in files[0] && !f.busy
    requires i < |files[0]| && files[0][i] == tried[0]
    ensures Fits(files, 0, Expanded(0, files[0], [tried[0]], i)) <==> Possible(files, 0)
    ensures Possible(files, 0) ==> i == |files[0]| - 1
  {
    hide Lo, Hi, Overlapping, Closed, NewestFirst, Sorted, DistinctRefs;
    var fs := files[0];
    var last := |fs| - 1;
    assert LevelOk(0, fs);
    var ins := Expanded(0, fs, [tried[0]], i);
    if i < last {
      NewestAt(fs, i, last);
      assert ins[last - GrowTo(fs, i)] == fs[last];
      if !fs[last].busy {
        var j :| 0 <= j < |tried| && tried[j] == fs[last];
        TurnAt(0, tried, 0, j);
        assert false;
      }
    } else {
      OldestPartFree(fs);
    }
  }

  /** Exactly when a level has something to compact, it is found: in level 0 the oldest file and what it takes
      along, further down the largest file that is free and not blocked. */
  method TryPick(files: seq<seq<File>>, level: nat) returns (r: Option<Compaction>)
    requires LevelsOk(files) && level + 1 < |files|
    ensures r.Some? <==> Possible(files, level)
    ensures r.Some? ==> Chosen(files, r.value) && r.value.level == level
    ensures r.Some? && level == 0 ==> files[0] != [] && r.value.inputs0 == OldestPart(files[0])
    ensures r.Some? && level > 0 ==> exists f ::
      && f in files[level] && !f.busy && !Blocked(files, level, f) && r.value.inputs0 == [f]
      && forall g :: g in files[level] && !g.busy && g.size > f.size ==> Blocked(files, level, g)
  {
    hide InTurn, SortFiles, Free, Overlapping, Blocked, Fits, Chosen, NewestFirst, Sorted, DistinctRefs, Lo, Hi, GrowTo;
    var levelFiles := SortFiles(level, Free(files[level]));
    SortedTurn(level, Free(files[level]));
    forall f ensures f in levelFiles <==> f in files[level] && !f.busy { FreeIn(files[level], f); }
    for i := 0 to |levelFiles|
      invariant level == 0 ==> i == 0
      invariant level > 0 ==> forall j :: 0 <= j < i ==> Blocked(files, level, levelFiles[j])
    {
      var stop;
      var f := levelFiles[i];
      assert f in levelFiles;
      ghost var at: nat :| at < |files[level]| && files[level][at] == f;
      r, stop := TryFile(files, level, f, at);
      if level == 0 { FirstTried(files, levelFiles, at); } else { FitsAlone(files, level, f); }
      if r.Some? {
        if level > 0 { EarlierBlocked(files, level, levelFiles, i); }
        return;
      }
      if stop { return; }
    }
    r := None;
  }

  /** A level that is to be compacted and can be; compactions of level 0 run one at a time. */
  ghost predicate Eligible(files: seq<seq<File>>, due: seq<bool>, level0InProgress: bool, level: nat) {
    && level < |due| && due[level] && !(level0InProgress && level == 0)
    && level + 1 < |files| && Possible(files, level)
  }

  /** Levels are tried from the top; `due` are those whose score asks for a compaction. The first that can be
      compacted is. */
  method PickFrom(files: seq<seq<File>>, due: seq<bool>, level0InProgress: bool) returns (r: Option<Compaction>)
    requires LevelsOk(files) && |files| > 0 && |due| == |files| && !due[|files| - 1]
    ensures r.Some? ==> Chosen(files, r.value) && Eligible(files, due, level0InProgress, r.value.level)
    ensures forall l: nat :: Eligible(files, due, level0InProgress, l) ==> r.Some? && r.value.level <= l
  {
    hide Possible, Chosen;
    for level := 0 to |files|
      invariant forall l: nat :: l < level ==> !Eligible(files, due, level0InProgress, l)
    {
      if level0InProgress && level == 0 { continue; }
      if !due[level] { continue; }
      r := TryPick(files, level);
      if r.Some? { return; }
    }
    r := None;
  }
}
