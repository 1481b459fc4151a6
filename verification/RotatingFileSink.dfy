// The size-based rotating log: which file a message goes to, how the files are renamed, and what can be read
// back from them.

module RotatingFileSink {
  import opened Words
  import opened Seqs
  import opened Digits

  type Filename = seq<char>
  type Bytes = seq<nat>

  /** The directory; nothing goes wrong in it. */
  type Files = map<Filename, Bytes>

  // ---------------------------------------------------------------- file names

  /** rfind: the last place of `c`, or -1. */
  function LastIndex(s: Filename, c: char): (i: int)
    ensures -1 <= i < |s| && (i >= 0 ==> s[i] == c) && forall k :: i < k < |s| ==> s[k] != c
  {
    if s == [] then -1 else if s[|s| - 1] == c then |s| - 1 else LastIndex(s[..|s| - 1], c)
  }

  /** Where the extension begins; a leading dot of a name and a trailing dot begin none. */
  function ExtensionAt(name: Filename): (i: nat)
    ensures i <= |name|
  {
    var dot, folder := LastIndex(name, '.'), LastIndex(name, '/');
    if dot == -1 || dot == 0 || dot == |name| - 1 then |name|
    else if folder != -1 && folder >= dot - 1 then |name|
    else dot
  }

  function CalcFilename(name: Filename, index: nat): Filename {
    if index == 0 then name
    else name[..ExtensionAt(name)] + "." + Numeral(index) + name[ExtensionAt(name)..]
  }

  /** Different indices have different files. */
  lemma CalcFilenameInjective(name: Filename, i: nat, j: nat)
    requires CalcFilename(name, i) == CalcFilename(name, j)
    ensures i == j
  {
    hide ExtensionAt, Numeral;
    var e := ExtensionAt(name);
    if i != 0 && j != 0 {
      var a, b := CalcFilename(name, i), CalcFilename(name, j);
      assert |a| == |name| + 1 + |Numeral(i)| && |b| == |name| + 1 + |Numeral(j)|;
      assert a[e + 1..e + 1 + |Numeral(i)|] == Numeral(i) && b[e + 1..e + 1 + |Numeral(j)|] == Numeral(j);
      NumeralInjective(i, j);
    } else {
      assert |CalcFilename(name, 0)| == |name|;
    }
  }

  /** A name with an extension: behind the folder comes a base that is not empty, and the extension is its last dot with
      a text. */
  predicate IsSplit(name: Filename, folder: Filename, base: Filename, ext: Filename) {
    && name == folder + base + ext
    && (folder == [] || folder[|folder| - 1] == '/')
    && base != [] && '/' !in base
    && |ext| >= 2 && ext[0] == '.' && '.' !in ext[1..] && '/' !in ext[1..]
  }

  /** What is put into the name of a file: nothing for the newest one. */
  function Mark(i: nat): Filename { if i == 0 then [] else "." + Numeral(i) }

  /** The index goes between the base and the extension, and behind the whole name if it has no extension. */
  lemma IndexBeforeExtension(folder: Filename, base: Filename, ext: Filename, i: nat)
    requires IsSplit(folder + base + ext, folder, base, ext)
    ensures CalcFilename(folder + base + ext, i) == folder + base + Mark(i) + ext
  {
    hide Numeral;
    assert folder + base + [] + ext == folder + base + ext;
    assert folder + base + "." + Numeral(i) + ext == folder + base + ("." + Numeral(i)) + ext;
    var name, dot, last := folder + base + ext, |folder| + |base|, LastIndex(folder + base + ext, '/');
    assert name[dot] == '.' && forall k :: dot < k < |name| ==> name[k] == ext[1..][k - dot - 1];
    assert LastIndex(name, '.') == dot;
    assert forall k :: |folder| <= k < dot ==> name[k] == base[k - |folder|];
    assert last < |folder|;
    assert name[..dot] == folder + base && name[dot..] == ext;
  }

  lemma SplitAtDot(name: Filename, dot: nat, last: int)
    requires 0 < dot < |name| - 1 && -1 <= last < dot - 1
    requires name[dot] == '.' && forall k :: dot < k < |name| ==> name[k] != '.' && name[k] != '/'
    requires (last >= 0 ==> name[last] == '/') && forall k :: last < k < dot ==> name[k] != '/'
    ensures IsSplit(name, name[..last + 1], name[last + 1..dot], name[dot..])
  {
    var folder, base, ext := name[..last + 1], name[last + 1..dot], name[dot..];
    assert forall k :: 0 <= k < |base| ==> base[k] == name[last + 1 + k];
    assert forall k :: 0 <= k < |ext[1..]| ==> ext[1..][k] == name[dot + 1 + k];
    assert name == folder + base + ext;
  }

  lemma IndexBehindName(name: Filename, i: nat)
    requires forall folder, base, ext :: !IsSplit(name, folder, base, ext)
    ensures CalcFilename(name, i) == name + Mark(i)
  {
    hide Numeral, IsSplit, ExtensionAt;
    NoExtension(name);
    assert name[..|name|] == name && name[|name|..] == [];
    assert name + [] == name && name + "." + Numeral(i) + [] == name + ("." + Numeral(i));
  }

  lemma NoExtension(name: Filename)
    requires forall folder, base, ext :: !IsSplit(name, folder, base, ext)
    ensures ExtensionAt(name) == |name|
  {
    hide IsSplit, ExtensionAt;
    if ExtensionAt(name) != |name| { var folder, base, ext := SomeSplit(name); }
  }

  lemma SomeSplit(name: Filename) returns (folder: Filename, base: Filename, ext: Filename)
    requires ExtensionAt(name) != |name|
    ensures IsSplit(name, folder, base, ext)
  {
    hide IsSplit, LastIndex;
    var dot, last := LastIndex(name, '.'), LastIndex(name, '/');
    assert 0 < dot < |name| - 1 && last < dot - 1;
    folder, base, ext := name[..last + 1], name[last + 1..dot], name[dot..];
    SplitAtDot(name, dot, last);
  }

  // ---------------------------------------------------------------- renaming

  function At(fs: Files, base: Filename, i: nat): Option<Bytes> {
    if CalcFilename(base, i) in fs then Some(fs[CalcFilename(base, i)]) else None
  }

  /** One turn of the loop of rotate_: the target goes, and the source takes its place. */
  function RenameTo(fs: Files, base: Filename, i: nat): Files
    requires i >= 1
  {
    var src, target := CalcFilename(base, i - 1), CalcFilename(base, i);
    var left := fs - {target};
    if src in left then (left - {src})[target := left[src]] else left
  }

  /** The effect on the file with index j, whichever. */
  lemma RenameToAt(fs: Files, base: Filename, i: nat, j: nat)
    requires i >= 1
    ensures At(RenameTo(fs, base, i), base, j) ==
            if j == i then At(fs, base, i - 1) else if j == i - 1 then None else At(fs, base, j)
  {
    hide CalcFilename;
    if CalcFilename(base, i) == CalcFilename(base, i - 1) { CalcFilenameInjective(base, i, i - 1); }
    if CalcFilename(base, j) == CalcFilename(base, i) { CalcFilenameInjective(base, j, i); }
    if CalcFilename(base, j) == CalcFilename(base, i - 1) { CalcFilenameInjective(base, j, i - 1); }
  }

  predicate IsLogFile(base: Filename, maxFiles: nat, name: Filename) {
    exists i: nat :: i <= maxFiles && name == CalcFilename(base, i)
  }

  /** Files that are none of the log's keep their contents. */
  ghost predicate OthersKept(fs: Files, gs: Files, base: Filename, maxFiles: nat) {
    forall n :: !IsLogFile(base, maxFiles, n) ==> (n in fs <==> n in gs) && (n in fs ==> fs[n] == gs[n])
  }

  /** The loop of rotate_, from index i down. */
  function Renamed(fs: Files, base: Filename, i: nat): Files
    decreases i
  {
    if i == 0 then fs else Renamed(RenameTo(fs, base, i), base, i - 1)
  }

  /** Every file moves up by one index, and the one at the top goes. */
  lemma {:induction false} RenamedAt(fs: Files, base: Filename, i: nat, j: nat)
    ensures At(Renamed(fs, base, i), base, j) ==
            if j > i || i == 0 then At(fs, base, j) else if j == 0 then None else At(fs, base, j - 1)
    decreases i
  {
    if i > 0 {
      hide At, RenameTo;
      RenamedAt(RenameTo(fs, base, i), base, i - 1, j);
      RenameToAt(fs, base, i, j);
      if j > 0 { RenameToAt(fs, base, i, j - 1); }
    }
  }

  lemma {:induction false} RenamedKeepsOthers(fs: Files, base: Filename, maxFiles: nat, i: nat)
    requires i <= maxFiles
    ensures OthersKept(fs, Renamed(fs, base, i), base, maxFiles)
    decreases i
  {
    hide OthersKept, RenameTo;
    if i > 0 {
      RenameToKeepsOthers(fs, base, maxFiles, i);
      RenamedKeepsOthers(RenameTo(fs, base, i), base, maxFiles, i - 1);
      OthersKeptTwice(fs, RenameTo(fs, base, i), Renamed(fs, base, i), base, maxFiles);
    } else {
      OthersKeptSame(fs, base, maxFiles);
    }
  }

  lemma OthersKeptSame(fs: Files, base: Filename, maxFiles: nat)
    ensures OthersKept(fs, fs, base, maxFiles)
  {
    hide IsLogFile;
  }

  lemma RenameToKeepsOthers(fs: Files, base: Filename, maxFiles: nat, i: nat)
    requires 1 <= i <= maxFiles
    ensures OthersKept(fs, RenameTo(fs, base, i), base, maxFiles)
  {
    assert IsLogFile(base, maxFiles, CalcFilename(base, i)) && IsLogFile(base, maxFiles, CalcFilename(base, i - 1));
    hide IsLogFile, CalcFilename;
  }

  // ---------------------------------------------------------------- what can be read back

  function Content(fs: Files, base: Filename, i: nat): Bytes {
    match At(fs, base, i) case Some(b) => b case None => []
  }

  /** The files from index i down to 0, one behind the other. */
  function ReadDown(fs: Files, base: Filename, i: nat): Bytes {
    Content(fs, base, i) + if i == 0 then [] else ReadDown(fs, base, i - 1)
  }

  lemma {:induction false} ReadShifted(fs: Files, gs: Files, base: Filename, i: nat)
    requires forall j :: 1 <= j <= i ==> At(gs, base, j) == At(fs, base, j - 1)
    requires At(gs, base, 0) == Some([])
    ensures ReadDown(gs, base, i) == if i == 0 then [] else ReadDown(fs, base, i - 1)
    decreases i
  {
    if i > 0 {
      ReadShifted(fs, gs, base, i - 1);
      if i == 1 { assert ReadDown(fs, base, 0) == Content(fs, base, 0); }
    }
  }

  lemma {:induction false} ReadAppended(fs: Files, gs: Files, base: Filename, i: nat, m: Bytes)
    requires forall j :: 1 <= j <= i ==> Content(gs, base, j) == Content(fs, base, j)
    requires Content(gs, base, 0) == Content(fs, base, 0) + m
    ensures ReadDown(gs, base, i) == ReadDown(fs, base, i) + m
    decreases i
  {
    hide At, Content;
    if i > 0 {
      ReadAppended(fs, gs, base, i - 1, m);
      assert Content(gs, base, i) + (ReadDown(fs, base, i - 1) + m) == ReadDown(fs, base, i) + m;
    }
  }

  /** A rotation as a whole; the file at the top is what can no longer be read. */
  lemma AfterRotation(fs: Files, gs: Files, base: Filename, maxFiles: nat)
    requires gs == Renamed(fs, base, maxFiles)[CalcFilename(base, 0) := []]
    ensures forall j :: 1 <= j <= maxFiles ==> At(gs, base, j) == At(fs, base, j - 1)
    ensures At(gs, base, 0) == Some([]) && OthersKept(fs, gs, base, maxFiles)
    ensures Content(fs, base, maxFiles) + ReadDown(gs, base, maxFiles) == ReadDown(fs, base, maxFiles)
  {
    var rs := Renamed(fs, base, maxFiles);
    RenamedKeepsOthers(fs, base, maxFiles, maxFiles);
    assert IsLogFile(base, maxFiles, CalcFilename(base, 0));
    forall j | 1 <= j <= maxFiles ensures At(gs, base, j) == At(fs, base, j - 1) {
      RenamedAt(fs, base, maxFiles, j);
      SetFirst(rs, base, [], j);
    }
    SetFirst(rs, base, [], 0);
    hide At, Renamed;
    ReadShifted(fs, gs, base, maxFiles);
  }

  lemma SetFirst(fs: Files, base: Filename, b: Bytes, j: nat)
    ensures At(fs[CalcFilename(base, 0) := b], base, j) == if j == 0 then Some(b) else At(fs, base, j)
  {
    hide CalcFilename;
    if CalcFilename(base, j) == CalcFilename(base, 0) { CalcFilenameInjective(base, j, 0); }
  }

  /** Writing behind the first file. */
  lemma AfterWrite(fs: Files, gs: Files, base: Filename, maxFiles: nat, m: Bytes)
    requires gs == fs[CalcFilename(base, 0) := Content(fs, base, 0) + m]
    ensures forall j :: 1 <= j <= maxFiles ==> At(gs, base, j) == At(fs, base, j)
    ensures At(gs, base, 0) == Some(Content(fs, base, 0) + m) && OthersKept(fs, gs, base, maxFiles)
    ensures ReadDown(gs, base, maxFiles) == ReadDown(fs, base, maxFiles) + m
  {
    assert IsLogFile(base, maxFiles, CalcFilename(base, 0));
    forall j: nat ensures At(gs, base, j) == if j == 0 then Some(Content(fs, base, 0) + m) else At(fs, base, j) {
      SetFirst(fs, base, Content(fs, base, 0) + m, j);
    }
    hide At, CalcFilename;
    ReadAppended(fs, gs, base, maxFiles, m);
  }

  // ---------------------------------------------------------------- batches

  /** Where a message goes: behind the last batch, or into a new one. A batch is what goes into one file. */
  function Place(batches: seq<seq<Bytes>>, size: nat, maxSize: nat, m: Bytes): seq<seq<Bytes>>
    requires batches != []
  {
    var last := |batches| - 1;
    if size + |m| > maxSize then batches + [[m]] else batches[last := batches[last] + [m]]
  }

  /** A file the sink has started is not over the limit, unless by a single message. */
  predicate Bounded(batch: seq<Bytes>, maxSize: nat) {
    batch != [] && (|Flatten(batch)| <= maxSize || |batch| == 1)
  }

  /** No message is lost or doubled in the batches. */
  lemma PlaceFlattens(batches: seq<seq<Bytes>>, size: nat, maxSize: nat, m: Bytes)
    requires batches != []
    ensures Flatten(Place(batches, size, maxSize, m)) == Flatten(batches) + [m]
  {
    var last, after := |batches| - 1, Place(batches, size, maxSize, m);
    if size + |m| > maxSize {
      assert after[..|after| - 1] == batches;
    } else {
      assert after[..last] == batches[..last];
    }
  }

  /** The file with index i, after the batches: a whole batch, the first batch behind what was in the file at the
      start, or a file of the start that has been renamed. */
  function Expected(start: Files, base: Filename, batches: seq<seq<Bytes>>, i: nat): Option<Bytes>
    requires batches != []
  {
    var rotations := |batches| - 1;
    if i < rotations then Some(Flatten(batches[rotations - i]))
    else if i == rotations then Some(Content(start, base, 0) + Flatten(batches[0]))
    else At(start, base, i - rotations)
  }

  /** Every file holds what the batches say. */
  predicate Placed(start: Files, fs: Files, base: Filename, batches: seq<seq<Bytes>>, maxFiles: nat) {
    batches != [] && forall i: nat :: i <= maxFiles ==> At(fs, base, i) == Expected(start, base, batches, i)
  }

  /** The bytes in the file of batch `k`, if the file of the first one began with `first` bytes. */
  function Filled(batches: seq<seq<Bytes>>, first: nat, k: nat): nat
    requires k < |batches|
  {
    |Flatten(batches[k])| + if k == 0 then first else 0
  }

  /** The file before batch `k` has no room for its first message. */
  predicate Full(batches: seq<seq<Bytes>>, first: nat, k: nat, maxSize: nat)
    requires 1 <= k < |batches|
  {
    batches[k] != [] && Filled(batches, first, k - 1) + |batches[k][0]| > maxSize
  }

  /** The batches keep the limit, and none is begun while the one before it still has room. */
  predicate Limited(batches: seq<seq<Bytes>>, first: nat, maxSize: nat) {
    forall k :: 1 <= k < |batches| ==> Bounded(batches[k], maxSize) && Full(batches, first, k, maxSize)
  }

  /** What was deleted and what can be read make up all that was ever written. */
  predicate Balanced(deleted: Bytes, read: Bytes, atStart: Bytes, batches: seq<seq<Bytes>>) {
    deleted + read == atStart + Flatten(Flatten(batches))
  }

  /** The sink as a value: the directory and the size of the first file, with the messages since the start by the
      files they went to, and what the rotations have deleted. */
  datatype Log = Log(files: Files, size: nat, batches: seq<seq<Bytes>>, deleted: Bytes)

  function OpenLog(start: Files, base: Filename): Log {
    var text := Content(start, base, 0);
    Log(start[CalcFilename(base, 0) := text], |text|, [[]], [])
  }

  /** One message. */
  function LogOne(l: Log, base: Filename, maxSize: nat, maxFiles: nat, m: Bytes): Log
    requires l.batches != []
  {
    var rotates := l.size + |m| > maxSize;
    var fs := if rotates then Renamed(l.files, base, maxFiles)[CalcFilename(base, 0) := []] else l.files;
    Log(fs[CalcFilename(base, 0) := Content(fs, base, 0) + m],
        if rotates then |m| else l.size + |m|,
        Place(l.batches, l.size, maxSize, m),
        if rotates then l.deleted + Content(l.files, base, maxFiles) else l.deleted)
  }

  function LogAll(l: Log, base: Filename, maxSize: nat, maxFiles: nat, ms: seq<Bytes>): (r: Log)
    requires l.batches != []
    ensures r.batches != []
    decreases |ms|
  {
    if ms == [] then l
    else LogOne(LogAll(l, base, maxSize, maxFiles, ms[..|ms| - 1]), base, maxSize, maxFiles, ms[|ms| - 1])
  }

  /** The sink's invariant: every file holds its batch, the size is tracked, the limits are kept, other files are
      untouched, and nothing written is missing but what was deleted. */
  ghost predicate Consistent(start: Files, l: Log, base: Filename, maxSize: nat, maxFiles: nat) {
    && Placed(start, l.files, base, l.batches, maxFiles)
    && At(l.files, base, 0) == Some(Content(l.files, base, 0)) && l.size == |Content(l.files, base, 0)|
    && Limited(l.batches, |Content(start, base, 0)|, maxSize)
    && OthersKept(start, l.files, base, maxFiles)
    && Balanced(l.deleted, ReadDown(l.files, base, maxFiles), ReadDown(start, base, maxFiles), l.batches)
  }

  lemma PlacedInNew(
    start: Files, fs: Files, gs: Files, base: Filename, batches: seq<seq<Bytes>>, maxFiles: nat, m: Bytes)
    requires Placed(start, fs, base, batches, maxFiles)
    requires forall j :: 1 <= j <= maxFiles ==> At(gs, base, j) == At(fs, base, j - 1)
    requires At(gs, base, 0) == Some(m)
    ensures Placed(start, gs, base, batches + [[m]], maxFiles)
  {
    hide At, Content, Flatten;
    assert [m][..0] == [];
    FlattenSingle(m);
    forall i: nat | i <= maxFiles ensures At(gs, base, i) == Expected(start, base, batches + [[m]], i) {
      if i > 0 { assert At(fs, base, i - 1) == Expected(start, base, batches, i - 1); }
    }
  }

  lemma ExpectedInLast(start: Files, base: Filename, batches: seq<seq<Bytes>>, m: Bytes, i: nat)
    requires batches != []
    ensures var last := |batches| - 1;
            var after := batches[last := batches[last] + [m]];
            var was, now := Expected(start, base, batches, i), Expected(start, base, after, i);
            if i == 0 then was.Some? && now == Some(was.value + m) else now == was
  {
    var last := |batches| - 1;
    if i == 0 {
      FlattenOne(batches[last], m);
      if last == 0 {
        assert Content(start, base, 0) + (Flatten(batches[0]) + m) == Content(start, base, 0) + Flatten(batches[0]) + m;
      }
    }
  }

  lemma PlacedInLast(
    start: Files, fs: Files, gs: Files, base: Filename, batches: seq<seq<Bytes>>, maxFiles: nat, m: Bytes)
    requires Placed(start, fs, base, batches, maxFiles)
    requires forall j :: 1 <= j <= maxFiles ==> At(gs, base, j) == At(fs, base, j)
    requires At(gs, base, 0) == Some(Content(fs, base, 0) + m)
    ensures Placed(start, gs, base, batches[|batches| - 1 := batches[|batches| - 1] + [m]], maxFiles)
  {
    assert Some(Content(fs, base, 0)) == At(fs, base, 0) by {
      assert At(fs, base, 0) == Expected(start, base, batches, 0);
    }
    hide At, Content, Expected;
    var last := |batches| - 1;
    forall i: nat | i <= maxFiles
      ensures At(gs, base, i) == Expected(start, base, batches[last := batches[last] + [m]], i)
    {
      ExpectedInLast(start, base, batches, m, i);
    }
  }

  lemma OthersKeptTwice(fs: Files, gs: Files, hs: Files, base: Filename, maxFiles: nat)
    requires OthersKept(fs, gs, base, maxFiles) && OthersKept(gs, hs, base, maxFiles)
    ensures OthersKept(fs, hs, base, maxFiles)
  {
    hide IsLogFile;
  }

  lemma PlaceBalances(
    deleted: Bytes, top: Bytes, read: Bytes, rest: Bytes, atStart: Bytes, batches: seq<seq<Bytes>>, size: nat,
    maxSize: nat, m: Bytes)
    requires batches != [] && Balanced(deleted, read, atStart, batches) && top + rest == read
    ensures Balanced(deleted + top, rest + m, atStart, Place(batches, size, maxSize, m))
  {
    PlaceFlattens(batches, size, maxSize, m);
    FlattenOne(Flatten(batches), m);
    hide *;
    var all := Flatten(Flatten(batches));
    assert Flatten(Flatten(Place(batches, size, maxSize, m))) == all + m;
    FourParts(deleted, top, rest, m);
    FourParts(atStart, all, [], m);
    Rebalanced(deleted, top, rest, read, atStart, batches, Place(batches, size, maxSize, m), m);
  }

  lemma FourParts(a: Bytes, b: Bytes, c: Bytes, d: Bytes)
    ensures a + b + (c + d) == a + (b + c) + d
    ensures a + (b + d) == a + b + d
  {
  }

  lemma Rebalanced(
    deleted: Bytes, top: Bytes, rest: Bytes, read: Bytes, atStart: Bytes, batches: seq<seq<Bytes>>,
    after: seq<seq<Bytes>>, m: Bytes)
    requires Balanced(deleted, read, atStart, batches) && top + rest == read
    requires Flatten(Flatten(after)) == Flatten(Flatten(batches)) + m
    requires deleted + top + (rest + m) == deleted + (top + rest) + m
    requires atStart + (Flatten(Flatten(batches)) + m) == atStart + Flatten(Flatten(batches)) + m
    ensures Balanced(deleted + top, rest + m, atStart, after)
  {
    hide Flatten;
  }

  lemma PlaceLimits(batches: seq<seq<Bytes>>, first: nat, size: nat, maxSize: nat, m: Bytes)
    requires batches != [] && Limited(batches, first, maxSize)
    requires size == Filled(batches, first, |batches| - 1)
    ensures Limited(Place(batches, size, maxSize, m), first, maxSize)
  {
    var last, after := |batches| - 1, Place(batches, size, maxSize, m);
    hide Bounded, Filled, Flatten;
    forall k | 1 <= k < |after| ensures Bounded(after[k], maxSize) && Full(after, first, k, maxSize) {
      if k < last {
        assert Bounded(batches[k], maxSize) && Full(batches, first, k, maxSize);
        FullStays(batches, after, first, k, maxSize);
      } else if k > last {
        NewBatch(batches, first, size, maxSize, m);
      } else {
        assert Bounded(batches[k], maxSize) && Full(batches, first, k, maxSize);
        LongerBatch(batches, first, size, maxSize, m);
      }
    }
  }

  lemma FullStays(batches: seq<seq<Bytes>>, after: seq<seq<Bytes>>, first: nat, k: nat, maxSize: nat)
    requires 1 <= k < |batches| && k < |after| && after[k - 1] == batches[k - 1]
    requires batches[k] != [] && after[k] != [] && after[k][0] == batches[k][0]
    ensures Full(after, first, k, maxSize) == Full(batches, first, k, maxSize)
  {
    hide Flatten;
  }

  lemma NewBatch(batches: seq<seq<Bytes>>, first: nat, size: nat, maxSize: nat, m: Bytes)
    requires batches != [] && size == Filled(batches, first, |batches| - 1) && size + |m| > maxSize
    ensures Bounded([m], maxSize) && Full(batches + [[m]], first, |batches|, maxSize)
  {
    hide Flatten;
  }

  lemma LongerBatch(batches: seq<seq<Bytes>>, first: nat, size: nat, maxSize: nat, m: Bytes)
    requires |batches| > 1 && size == Filled(batches, first, |batches| - 1)
    requires Bounded(batches[|batches| - 1], maxSize) && Full(batches, first, |batches| - 1, maxSize)
    ensures var after := Place(batches, size, maxSize, m);
            Bounded(after[|batches| - 1], maxSize) && Full(after, first, |batches| - 1, maxSize)
  {
    FlattenOne(batches[|batches| - 1], m);
    hide Flatten;
    FullStays(batches, Place(batches, size, maxSize, m), first, |batches| - 1, maxSize);
  }

  lemma SizeOfLast(start: Files, fs: Files, base: Filename, batches: seq<seq<Bytes>>, maxFiles: nat)
    requires Placed(start, fs, base, batches, maxFiles)
    ensures |Content(fs, base, 0)| == Filled(batches, |Content(start, base, 0)|, |batches| - 1)
  {
    assert At(fs, base, 0) == Expected(start, base, batches, 0);
  }

  /** A message that fits goes behind the first file. */
  lemma KeepsAppending(start: Files, l: Log, base: Filename, maxSize: nat, maxFiles: nat, m: Bytes)
    requires Consistent(start, l, base, maxSize, maxFiles) && l.size + |m| <= maxSize
    ensures Consistent(start, LogOne(l, base, maxSize, maxFiles, m), base, maxSize, maxFiles)
  {
    hide At, Content, CalcFilename, OthersKept, ReadDown, Limited, Balanced, Filled, Expected, Flatten, Renamed;
    var fs, gs := l.files, LogOne(l, base, maxSize, maxFiles, m).files;
    AfterWrite(fs, gs, base, maxFiles, m);
    ContentOf(gs, base, Content(fs, base, 0) + m);
    PlacedInLast(start, fs, gs, base, l.batches, maxFiles, m);
    OthersKeptTwice(start, fs, gs, base, maxFiles);
    var read := ReadDown(fs, base, maxFiles);
    PlaceBalances(l.deleted, [], read, read, ReadDown(start, base, maxFiles), l.batches, l.size, maxSize, m);
    assert l.deleted + [] == l.deleted;
    SizeOfLast(start, fs, base, l.batches, maxFiles);
    PlaceLimits(l.batches, |Content(start, base, 0)|, l.size, maxSize, m);
  }

  lemma ContentOf(fs: Files, base: Filename, b: Bytes)
    requires At(fs, base, 0) == Some(b)
    ensures Content(fs, base, 0) == b
  {
  }

  /** Any other message rotates the files and begins a new one. */
  lemma KeepsRotating(start: Files, l: Log, base: Filename, maxSize: nat, maxFiles: nat, m: Bytes)
    requires Consistent(start, l, base, maxSize, maxFiles) && l.size + |m| > maxSize
    ensures Consistent(start, LogOne(l, base, maxSize, maxFiles, m), base, maxSize, maxFiles)
  {
    hide At, Content, CalcFilename, OthersKept, ReadDown, Limited, Balanced, Filled, Expected, Flatten, Renamed;
    var fs, gs := l.files, LogOne(l, base, maxSize, maxFiles, m).files;
    var rs := Renamed(fs, base, maxFiles)[CalcFilename(base, 0) := []];
    AfterRotation(fs, rs, base, maxFiles);
    ContentOf(rs, base, []);
    AfterWrite(rs, gs, base, maxFiles, m);
    assert [] + m == m;
    ContentOf(gs, base, m);
    PlacedInNew(start, fs, gs, base, l.batches, maxFiles, m);
    OthersKeptTwice(start, fs, rs, base, maxFiles);
    OthersKeptTwice(start, rs, gs, base, maxFiles);
    PlaceBalances(l.deleted, Content(fs, base, maxFiles), ReadDown(fs, base, maxFiles), ReadDown(rs, base, maxFiles),
                  ReadDown(start, base, maxFiles), l.batches, l.size, maxSize, m);
    SizeOfLast(start, fs, base, l.batches, maxFiles);
    PlaceLimits(l.batches, |Content(start, base, 0)|, l.size, maxSize, m);
  }

  lemma LogOneKeeps(start: Files, l: Log, base: Filename, maxSize: nat, maxFiles: nat, m: Bytes)
    requires Consistent(start, l, base, maxSize, maxFiles)
    ensures Consistent(start, LogOne(l, base, maxSize, maxFiles, m), base, maxSize, maxFiles)
  {
    hide *;
    if l.size + |m| > maxSize {
      KeepsRotating(start, l, base, maxSize, maxFiles, m);
    } else {
      KeepsAppending(start, l, base, maxSize, maxFiles, m);
    }
  }

  /** The fields of the log after one message. */
  lemma LogOneIs(l: Log, base: Filename, maxSize: nat, maxFiles: nat, m: Bytes)
    requires l.batches != []
    ensures var r, name := LogOne(l, base, maxSize, maxFiles, m), CalcFilename(base, 0);
            && r.batches == Place(l.batches, l.size, maxSize, m)
            && if l.size + |m| > maxSize then
                 var fs := Renamed(l.files, base, maxFiles)[name := []];
                 && r.files == fs[name := Content(fs, base, 0) + m] && r.size == |m|
                 && r.deleted == l.deleted + Content(l.files, base, maxFiles)
               else
                 && r.files == l.files[name := Content(l.files, base, 0) + m] && r.size == l.size + |m|
                 && r.deleted == l.deleted
  {
    hide Renamed, Place, CalcFilename, Content;
  }

  lemma Opened(start: Files, base: Filename, maxSize: nat, maxFiles: nat)
    ensures Consistent(start, OpenLog(start, base), base, maxSize, maxFiles)
  {
    var text := Content(start, base, 0);
    assert text + [] == text;
    AfterWrite(start, start[CalcFilename(base, 0) := text], base, maxFiles, []);
    var none: seq<seq<Bytes>> := [[]];
    assert none[..0] == [] && Flatten(none) == [];
    assert ReadDown(start, base, maxFiles) + [] == ReadDown(start, base, maxFiles);
  }

  class Sink {
    const base: Filename
    const maxSize: nat
    const maxFiles: nat
    var currentSize: nat
    var files: Files
    ghost const start: Files
    /** The messages since the start, by the files they went to. */
    ghost var batches: seq<seq<Bytes>>
    /** What the rotations have deleted. */
    ghost var deleted: Bytes

    ghost function Now(): Log
      reads this
    {
      Log(files, currentSize, batches, deleted)
    }

    ghost predicate Valid()
      reads this
    {
      Consistent(start, Now(), base, maxSize, maxFiles)
    }

    /** Opens the file for appending. */
    constructor (base: Filename, maxSize: nat, maxFiles: nat, files: Files)
      ensures Valid() && this.base == base && this.maxSize == maxSize && this.maxFiles == maxFiles
      ensures start == files && Now() == OpenLog(files, base)
    {
      this.base, this.maxSize, this.maxFiles := base, maxSize, maxFiles;
      var name := CalcFilename(base, 0);
      var text := if name in files then files[name] else [];
      this.files := files[name := text];
      currentSize := |text|;
      start, batches, deleted := files, [[]], [];
      new;
      Opened(start, base, maxSize, maxFiles);
    }

    /** rotate_: every file moves up by one index, the last one goes, and the first one begins anew. */
    method Rotate()
      modifies this`files
      ensures files == Renamed(old(files), base, maxFiles)[CalcFilename(base, 0) := []]
    {
      var i := maxFiles;
      while i > 0
        invariant Renamed(files, base, i) == Renamed(old(files), base, maxFiles)
      {
        ghost var next := RenameTo(files, base, i);
        var src, target := CalcFilename(base, i - 1), CalcFilename(base, i);
        if target in files { files := files - {target}; }
        if src in files { files := (files - {src})[target := files[src]]; }
        assert files == next;
        i := i - 1;
      }
      files := files[CalcFilename(base, 0) := []];
    }

    /** sink_it_ for a formatted message. */
    method SinkIt(formatted: Bytes)
      requires Valid()
      modifies this
      ensures Valid() && old(batches) != [] && Now() == LogOne(old(Now()), base, maxSize, maxFiles, formatted)
    {
      hide *;
      NowIs();
      LogOneKeeps(start, Now(), base, maxSize, maxFiles, formatted);
      LogOneIs(Now(), base, maxSize, maxFiles, formatted);
      ghost var next := LogOne(Now(), base, maxSize, maxFiles, formatted);
      batches := Place(batches, currentSize, maxSize, formatted);
      currentSize := currentSize + |formatted|;
      if currentSize > maxSize {
        deleted := deleted + Content(files, base, maxFiles);
        Rotate();
        currentSize := |formatted|;
      }
      var name := CalcFilename(base, 0);
      files := files[name := Content(files, base, 0) + formatted];
      StillValid(next);
    }

    lemma NowIs()
      requires Valid()
      ensures Now() == Log(files, currentSize, batches, deleted)
      ensures batches != [] && Consistent(start, Now(), base, maxSize, maxFiles)
    {
    }

    lemma StillValid(l: Log)
      requires Consistent(start, l, base, maxSize, maxFiles)
      requires l == Log(files, currentSize, batches, deleted)
      ensures Valid() && Now() == l
    {
      hide Consistent;
    }
  }

  // ---------------------------------------------------------------- any messages

  lemma {:induction false} LogAllKeeps(
    start: Files, l: Log, base: Filename, maxSize: nat, maxFiles: nat, ms: seq<Bytes>)
    requires l.batches != [] && Consistent(start, l, base, maxSize, maxFiles)
    ensures var r := LogAll(l, base, maxSize, maxFiles, ms);
            && Consistent(start, r, base, maxSize, maxFiles)
            && Flatten(r.batches) == Flatten(l.batches) + ms
    decreases |ms|
  {
    hide Consistent, Flatten, Place, Content;
    if ms != [] {
      var init, m := ms[..|ms| - 1], ms[|ms| - 1];
      var r := LogAll(l, base, maxSize, maxFiles, init);
      LogAllKeeps(start, l, base, maxSize, maxFiles, init);
      LogOneKeeps(start, r, base, maxSize, maxFiles, m);
      PlaceFlattens(r.batches, r.size, maxSize, m);
      assert Flatten(l.batches) + init + [m] == Flatten(l.batches) + ms;
    } else {
      assert Flatten(l.batches) + [] == Flatten(l.batches);
    }
  }

  /** What a new sink has made of the messages `ms`. */
  function Logged(start: Files, base: Filename, maxSize: nat, maxFiles: nat, ms: seq<Bytes>): (r: Log)
    ensures r.batches != []
  {
    LogAll(OpenLog(start, base), base, maxSize, maxFiles, ms)
  }

  lemma LoggedKeeps(start: Files, base: Filename, maxSize: nat, maxFiles: nat, ms: seq<Bytes>)
    ensures var r := Logged(start, base, maxSize, maxFiles, ms);
            Consistent(start, r, base, maxSize, maxFiles) && Flatten(r.batches) == ms
  {
    hide Consistent, Content, LogAll;
    Opened(start, base, maxSize, maxFiles);
    LogAllKeeps(start, OpenLog(start, base), base, maxSize, maxFiles, ms);
    var none: seq<seq<Bytes>> := [[]];
    assert none[..0] == [] && Flatten(none) + ms == ms;
  }

  /** The sink over any messages. */
  method WriteAll(base: Filename, maxSize: nat, maxFiles: nat, files: Files, ms: seq<Bytes>) returns (sink: Sink)
    ensures fresh(sink) && sink.Valid() && sink.Now() == Logged(files, base, maxSize, maxFiles, ms)
  {
    hide Consistent, LogOne, OpenLog;
    sink := new Sink(base, maxSize, maxFiles, files);
    for i := 0 to |ms|
      invariant sink.Valid() && sink.base == base && sink.maxSize == maxSize && sink.maxFiles == maxFiles
      invariant sink.Now() == Logged(files, base, maxSize, maxFiles, ms[..i])
    {
      assert ms[..i + 1][..i] == ms[..i] && ms[..i + 1][i] == ms[i];
      sink.SinkIt(ms[i]);
    }
    assert ms[..|ms|] == ms;
  }

  /** What can be read back is the tail of everything: what the files held at the start, then every message. Only
      what the rotations deleted is missing. */
  lemma ReadsASuffix(start: Files, base: Filename, maxSize: nat, maxFiles: nat, ms: seq<Bytes>)
    ensures var r := Logged(start, base, maxSize, maxFiles, ms);
            var all := ReadDown(start, base, maxFiles) + Flatten(ms);
            |r.deleted| <= |all| && ReadDown(r.files, base, maxFiles) == all[|r.deleted|..]
  {
    hide Logged, Flatten, ReadDown, Placed, Limited, OthersKept;
    LoggedKeeps(start, base, maxSize, maxFiles, ms);
    var r := Logged(start, base, maxSize, maxFiles, ms);
    assert (r.deleted + ReadDown(r.files, base, maxFiles))[|r.deleted|..] == ReadDown(r.files, base, maxFiles);
  }

  /** The number of messages in the batches before batch `k`. */
  function Cut(batches: seq<seq<Bytes>>, k: nat): nat
    requires k <= |batches|
  {
    |Flatten(batches[..k])|
  }

  lemma {:induction false} CutsOut(batches: seq<seq<Bytes>>, k: nat)
    requires k < |batches|
    ensures Cut(batches, k) + |batches[k]| == Cut(batches, k + 1) <= |Flatten(batches)|
    ensures batches[k] == Flatten(batches)[Cut(batches, k)..Cut(batches, k + 1)]
    decreases |batches|
  {
    assert batches[..k + 1][..k] == batches[..k];
    var last := |batches| - 1;
    if k < last {
      assert batches[..last][..k] == batches[..k] && batches[..last][..k + 1] == batches[..k + 1];
      CutsOut(batches[..last], k);
    } else {
      assert batches[..k + 1] == batches;
    }
  }

  /** No message is split and none is out of order: the file with index `i`, if the sink has started it, holds
      exactly the messages from `a` up to `b`, where the file started before it ends at `a` and the newest one ends
      with the last message. It is over the limit only if it holds a single message, and it was not begun
      while the file before it had room for its first message. */
  lemma StartedFiles(start: Files, base: Filename, maxSize: nat, maxFiles: nat, ms: seq<Bytes>, i: nat)
    requires i <= maxFiles && i + 1 < |Logged(start, base, maxSize, maxFiles, ms).batches|
    ensures var r := Logged(start, base, maxSize, maxFiles, ms);
            var k := |r.batches| - 1 - i;
            var before, a, b := Cut(r.batches, k - 1), Cut(r.batches, k), Cut(r.batches, k + 1);
            && before <= a < b <= |ms| && (i == 0 ==> b == |ms|)
            && At(r.files, base, i) == Some(Flatten(ms[a..b]))
            && (|Flatten(ms[a..b])| <= maxSize || b == a + 1)
            && |Flatten(ms[before..a])| + |ms[a]| + (if k == 1 then |Content(start, base, 0)| else 0) > maxSize
  {
    hide Logged, ReadDown, OthersKept, Balanced, Flatten, At, Content;
    LoggedKeeps(start, base, maxSize, maxFiles, ms);
    var r := Logged(start, base, maxSize, maxFiles, ms);
    var k := |r.batches| - 1 - i;
    CutsOut(r.batches, k - 1);
    CutsOut(r.batches, k);
    assert At(r.files, base, i) == Expected(start, base, r.batches, i);
    assert Bounded(r.batches[k], maxSize);
    assert Full(r.batches, |Content(start, base, 0)|, k, maxSize);
    if i == 0 { assert r.batches[..k + 1] == r.batches; }
  }
}
