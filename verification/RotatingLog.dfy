/** internal/logging/rotate.go: a log file that is renamed down a row of numbered files when it would grow too big.
    The files are a map from slot to content; slot 0 is the live file. Errors of the file system are left out. */
module RotatingLog {

  type Bytes = seq<bv8>

  /** A file as the records written to it, one after another. */
  type Slot = seq<Bytes>

  function Concat(records: seq<Bytes>): Bytes {
    if records == [] then [] else Concat(records[..|records| - 1]) + records[|records| - 1]
  }

  function Size(slot: Slot): nat {
    |Concat(slot)|
  }

  // ---------------------------------------------------------------- one write, as a function

  /** The slots after writing `p`, newest first: appended to the newest file if it fits there, otherwise every file
      moves down one slot, the one in slot `maxFiles` is lost, and `p` starts a new file. */
  function Wrote(slots: seq<Slot>, p: Bytes, maxBytes: int, maxFiles: nat): seq<Slot> {
    if slots == [] then [[p]]
    else if Size(slots[0]) + |p| <= maxBytes then slots[0 := slots[0] + [p]]
    else [[p]] + Kept(slots, maxFiles)
  }

  /** The slots that survive a rotation. */
  function Kept(slots: seq<Slot>, maxFiles: nat): seq<Slot> {
    if |slots| > maxFiles then slots[..maxFiles] else slots
  }

  function WroteAll(ps: seq<Bytes>, maxBytes: int, maxFiles: nat): seq<Slot> {
    if ps == [] then []
    else Wrote(WroteAll(ps[..|ps| - 1], maxBytes, maxFiles), ps[|ps| - 1], maxBytes, maxFiles)
  }

  /** All records still on disk, oldest first. */
  function Stream(slots: seq<Slot>): seq<Bytes> {
    if slots == [] then [] else Stream(slots[1..]) + slots[0]
  }

  predicate IsSuffix<T(==)>(s: seq<T>, whole: seq<T>) {
    |s| <= |whole| && whole[|whole| - |s|..] == s
  }

  // ---------------------------------------------------------------- what every sequence of writes keeps

  /** The bounds on slots: none empty, none over the limit unless it holds a single record, and a file was closed
      only because the next record did not fit. */
  predicate Tight(slots: seq<Slot>, maxBytes: int) {
    && (forall i | 0 <= i < |slots| :: TightSlot(slots[i], maxBytes))
    && (forall i | 0 < i < |slots| :: TightPair(slots[i - 1], slots[i], maxBytes))
  }

  predicate TightSlot(slot: Slot, maxBytes: int) {
    slot != [] && (Size(slot) <= maxBytes || |slot| == 1)
  }

  /** The record that starts the newer file did not fit into the older one. */
  predicate TightPair(newer: Slot, older: Slot, maxBytes: int) {
    newer != [] ==> Size(older) + |newer[0]| > maxBytes
  }

  lemma SizeAppend(slot: Slot, p: Bytes)
    ensures Size(slot + [p]) == Size(slot) + |p|
  {
    assert (slot + [p])[..|slot|] == slot;
  }

  lemma AppendTight(slots: seq<Slot>, p: Bytes, maxBytes: int)
    requires Tight(slots, maxBytes) && slots != [] && Size(slots[0]) + |p| <= maxBytes
    ensures Tight(slots[0 := slots[0] + [p]], maxBytes)
  {
    SizeAppend(slots[0], p);
    assert (slots[0] + [p])[0] == slots[0][0];
  }

  lemma RotateTight(slots: seq<Slot>, p: Bytes, maxBytes: int, maxFiles: nat)
    requires Tight(slots, maxBytes) && slots != [] && Size(slots[0]) + |p| > maxBytes
    ensures Tight([[p]] + Kept(slots, maxFiles), maxBytes)
  {
    var after := [[p]] + Kept(slots, maxFiles);
    assert forall i | 0 < i < |after| :: after[i] == slots[i - 1];
    forall i | 0 < i < |after| ensures TightPair(after[i - 1], after[i], maxBytes) {
      assert i > 1 ==> TightPair(slots[i - 2], slots[i - 1], maxBytes);
    }
  }

  lemma WroteTight(slots: seq<Slot>, p: Bytes, maxBytes: int, maxFiles: nat)
    requires Tight(slots, maxBytes)
    ensures Tight(Wrote(slots, p, maxBytes, maxFiles), maxBytes)
  {
    if slots != [] {
      if Size(slots[0]) + |p| <= maxBytes {
        AppendTight(slots, p, maxBytes);
      } else {
        RotateTight(slots, p, maxBytes, maxFiles);
      }
    }
  }

  lemma {:induction false} StreamKept(slots: seq<Slot>, n: nat)
    requires n <= |slots|
    ensures IsSuffix(Stream(slots[..n]), Stream(slots))
  {
    if n > 0 {
      assert slots[..n][1..] == slots[1..][..n - 1];
      StreamKept(slots[1..], n - 1);
      SuffixAppend(Stream(slots[1..][..n - 1]), Stream(slots[1..]), slots[0]);
    } else {
      assert slots[..0] == [];
    }
  }

  lemma SuffixAppend<T>(s: seq<T>, whole: seq<T>, tail: seq<T>)
    requires IsSuffix(s, whole)
    ensures IsSuffix(s + tail, whole + tail)
  {
    var k := |whole| - |s|;
    assert (whole + tail)[k..] == whole[k..] + tail;
  }

  lemma SuffixTransitive<T>(a: seq<T>, b: seq<T>, c: seq<T>)
    requires IsSuffix(a, b) && IsSuffix(b, c)
    ensures IsSuffix(a, c)
  {
    assert c[|c| - |a|..] == c[|c| - |b|..][|b| - |a|..];
  }

  lemma StreamAppend(slots: seq<Slot>, p: Bytes)
    requires slots != []
    ensures Stream(slots[0 := slots[0] + [p]]) == Stream(slots) + [p]
  {
    var after := slots[0 := slots[0] + [p]];
    assert after[1..] == slots[1..];
    assert Stream(slots[1..]) + (slots[0] + [p]) == Stream(slots[1..]) + slots[0] + [p];
  }

  lemma StreamNew(slots: seq<Slot>, p: Bytes)
    ensures Stream([[p]] + slots) == Stream(slots) + [p]
  {
    assert ([[p]] + slots)[1..] == slots;
  }

  lemma KeptStream(slots: seq<Slot>, p: Bytes, maxFiles: nat)
    ensures IsSuffix(Stream([[p]] + Kept(slots, maxFiles)), Stream(slots) + [p])
    ensures |slots| <= maxFiles ==> Stream([[p]] + Kept(slots, maxFiles)) == Stream(slots) + [p]
  {
    StreamNew(Kept(slots, maxFiles), p);
    if |slots| > maxFiles {
      StreamKept(slots, maxFiles);
      SuffixAppend(Stream(slots[..maxFiles]), Stream(slots), [p]);
    }
  }

  /** One write appends one record to the stream and forgets at most a front of it. */
  lemma WroteStream(slots: seq<Slot>, p: Bytes, maxBytes: int, maxFiles: nat)
    ensures IsSuffix(Stream(Wrote(slots, p, maxBytes, maxFiles)), Stream(slots) + [p])
    ensures |slots| <= maxFiles ==> Stream(Wrote(slots, p, maxBytes, maxFiles)) == Stream(slots) + [p]
  {
    if slots == [] {
      StreamNew([], p);
      assert [[p]] + [] == [[p]];
    } else if Size(slots[0]) + |p| <= maxBytes {
      StreamAppend(slots, p);
    } else {
      KeptStream(slots, p, maxFiles);
    }
  }

  lemma WroteCount(slots: seq<Slot>, p: Bytes, maxBytes: int, maxFiles: nat)
    requires maxFiles > 0 && |slots| <= maxFiles + 1
    ensures |slots| <= |Wrote(slots, p, maxBytes, maxFiles)| <= maxFiles + 1
  {
  }

  /** What holds of a directory after the records `ps`, however large they were. */
  predicate HoldsEndOf(slots: seq<Slot>, ps: seq<Bytes>, maxBytes: int, maxFiles: nat) {
    && |slots| <= maxFiles + 1
    && Tight(slots, maxBytes)
    && IsSuffix(Stream(slots), ps)
    && (|slots| <= maxFiles ==> Stream(slots) == ps)
  }

  lemma WroteHoldsEnd(before: seq<Slot>, front: seq<Bytes>, p: Bytes, maxBytes: int, maxFiles: nat)
    requires maxFiles > 0 && HoldsEndOf(before, front, maxBytes, maxFiles)
    ensures HoldsEndOf(Wrote(before, p, maxBytes, maxFiles), front + [p], maxBytes, maxFiles)
  {
    WroteTight(before, p, maxBytes, maxFiles);
    WroteCount(before, p, maxBytes, maxFiles);
    WroteStream(before, p, maxBytes, maxFiles);
    SuffixAppend(Stream(before), front, [p]);
    SuffixTransitive(Stream(Wrote(before, p, maxBytes, maxFiles)), Stream(before) + [p], front + [p]);
  }

  /** Over every sequence of writes from an empty directory: at most `maxFiles` rotated files beside the live one,
      the files read oldest to newest are a suffix of everything written with no record split, the size bounds hold,
      and nothing at all is lost before every slot is in use. */
  lemma {:induction false} AnyWritesKeepSuffix(ps: seq<Bytes>, maxBytes: int, maxFiles: nat)
    requires maxFiles > 0
    ensures HoldsEndOf(WroteAll(ps, maxBytes, maxFiles), ps, maxBytes, maxFiles)
  {
    if ps != [] {
      var front, p := ps[..|ps| - 1], ps[|ps| - 1];
      assert ps == front + [p];
      AnyWritesKeepSuffix(front, maxBytes, maxFiles);
      WroteHoldsEnd(WroteAll(front, maxBytes, maxFiles), front, p, maxBytes, maxFiles);
    }
  }

  lemma {:induction false} StreamStartsOldest(slots: seq<Slot>)
    requires slots != []
    ensures Stream(slots) == slots[|slots| - 1] + Stream(slots[..|slots| - 1])
  {
    if |slots| > 1 {
      var last := |slots| - 1;
      StreamStartsOldest(slots[1..]);
      assert slots[1..][..last - 1] == slots[..last][1..];
      assert slots[last] + Stream(slots[..last][1..]) + slots[0] == slots[last] + (Stream(slots[..last][1..]) + slots[0]);
    } else {
      assert Stream(slots[1..]) == [] && slots[..0] == [];
    }
  }

  /** A rotation with every slot in use forgets exactly the records of slot `maxFiles`, whole files at a time. */
  lemma RotationLosesOldest(slots: seq<Slot>, p: Bytes, maxBytes: int, maxFiles: nat)
    requires maxFiles > 0 && |slots| == maxFiles + 1 && Size(slots[0]) + |p| > maxBytes
    ensures Stream(slots) + [p] == slots[maxFiles] + Stream(Wrote(slots, p, maxBytes, maxFiles))
  {
    StreamStartsOldest(slots);
    StreamNew(slots[..maxFiles], p);
    assert slots[maxFiles] + Stream(slots[..maxFiles]) + [p] == slots[maxFiles] + (Stream(slots[..maxFiles]) + [p]);
  }

  /** The bytes of neighbouring files together always exceed the limit, so a full directory retains more than
      `maxBytes` for every two files. */
  lemma {:induction false} FullDirectoryRetains(slots: seq<Slot>, maxBytes: int)
    requires Tight(slots, maxBytes) && slots != []
    ensures 2 * TotalSize(slots) >= maxBytes * (|slots| - 1)
    ensures forall i | 0 < i < |slots| :: Size(slots[i]) + Size(slots[i - 1]) > maxBytes
  {
    forall i | 0 < i < |slots| ensures Size(slots[i]) + Size(slots[i - 1]) > maxBytes {
      assert TightSlot(slots[i - 1], maxBytes) && TightPair(slots[i - 1], slots[i], maxBytes);
      FirstFits(slots[i - 1]);
    }
    PairSum(slots, maxBytes);
  }

  function TotalSize(slots: seq<Slot>): nat {
    if slots == [] then 0 else Size(slots[0]) + TotalSize(slots[1..])
  }

  lemma {:induction false} FirstFits(slot: Slot)
    requires slot != []
    ensures |slot[0]| <= Size(slot)
  {
    if |slot| > 1 {
      FirstFits(slot[..|slot| - 1]);
    } else {
      assert slot[..0] == [] && slot == [slot[0]];
      SizeAppend([], slot[0]);
      assert [] + [slot[0]] == slot;
    }
  }

  lemma {:induction false} PairSum(slots: seq<Slot>, maxBytes: int)
    requires forall i | 0 < i < |slots| :: Size(slots[i]) + Size(slots[i - 1]) > maxBytes
    ensures slots != [] ==> 2 * TotalSize(slots) >= maxBytes * (|slots| - 1) + Size(slots[0])
    ensures slots == [] ==> TotalSize(slots) == 0
  {
    if |slots| > 1 {
      forall i | 0 < i < |slots| - 1 ensures Size(slots[1..][i]) + Size(slots[1..][i - 1]) > maxBytes {
        assert slots[1..][i] == slots[i + 1] && slots[1..][i - 1] == slots[i];
      }
      PairSum(slots[1..], maxBytes);
      assert Size(slots[1]) + Size(slots[0]) > maxBytes;
      assert maxBytes * (|slots| - 1) == maxBytes * (|slots| - 2) + maxBytes;
    }
  }

  // ---------------------------------------------------------------- the writer

  function Contents(slots: seq<Slot>): (row: seq<Bytes>)
    ensures |row| == |slots| && forall i | 0 <= i < |slots| :: row[i] == Concat(slots[i])
  {
    seq(|slots|, i requires 0 <= i < |slots| => Concat(slots[i]))
  }

  /** The directory holds `row`, first element in slot 0, with slot `hole` left free and the rest moved up past it. */
  ghost predicate Holed<T>(files: map<nat, T>, row: seq<T>, hole: nat) {
    && (forall k: nat :: k in files <==> (k < hole && k < |row|) || hole < k <= |row|)
    && (forall k: nat | k in files :: files[k] == row[if k < hole then k else k - 1])
  }

  /** The same state as files: slot `k` exists exactly for the first slots, and holds its records end to end. */
  ghost predicate Represents(files: map<nat, Bytes>, slots: seq<Slot>) {
    Holed(files, Contents(slots), |slots|)
  }

  /** Every kept slot has moved up by one and the live slot is free. */
  ghost predicate Shifted(files: map<nat, Bytes>, slots: seq<Slot>) {
    Holed(files, Contents(slots), 0)
  }

  /** os.Rename that ignores a missing source. */
  function Renamed<T>(files: map<nat, T>, from: nat, to: nat): map<nat, T> {
    if from in files then (files - {from})[to := files[from]] else files
  }

  /** One rename moves the free slot down by one; the name it renames to is never in use. */
  lemma HoleMovesDown<T>(files: map<nat, T>, row: seq<T>, hole: nat)
    requires hole > 0 && Holed(files, row, hole)
    ensures hole !in files && Holed(Renamed(files, hole - 1, hole), row, hole - 1)
  {
  }

  /** Removing slot `maxFiles` drops the oldest slot when all are in use, and nothing otherwise. */
  lemma OldestDropped(files: map<nat, Bytes>, slots: seq<Slot>, maxFiles: nat)
    requires |slots| <= maxFiles + 1 && Represents(files, slots)
    ensures Holed(files - {maxFiles}, Contents(Kept(slots, maxFiles)), maxFiles)
  {
  }

  lemma LiveAppended(files: map<nat, Bytes>, slots: seq<Slot>, p: Bytes)
    requires slots != [] && Represents(files, slots)
    ensures 0 in files && Represents(files[0 := files[0] + p], slots[0 := slots[0] + [p]])
  {
    assert (slots[0] + [p])[..|slots[0]|] == slots[0];
  }

  lemma LiveCreated(files: map<nat, Bytes>, slots: seq<Slot>, p: Bytes)
    requires Shifted(files, slots)
    ensures Represents(files[0 := p], [[p]] + slots)
  {
    assert Concat([p]) == p by {
      assert [p][..0] == [];
    }
  }

  class RotatingWriter {
    const maxBytes: int
    const maxFiles: nat
    var files: map<nat, Bytes>
    /** The records of each file, newest file first. */
    ghost var slots: seq<Slot>

    ghost predicate Valid()
      reads this
    {
      maxBytes > 0 && maxFiles > 0 && |slots| <= maxFiles + 1 && Represents(files, slots)
    }

    constructor (maxBytes: int, maxFiles: nat)
      requires maxBytes > 0 && maxFiles > 0
      ensures Valid() && slots == [] && this.maxBytes == maxBytes && this.maxFiles == maxFiles
    {
      this.maxBytes := maxBytes;
      this.maxFiles := maxFiles;
      files := map[];
      slots := [];
    }

    /** Write. The directory afterwards is exactly the one the specification function describes. */
    method Write(p: Bytes)
      requires Valid()
      modifies this
      ensures Valid() && slots == Wrote(old(slots), p, maxBytes, maxFiles)
    {
      RotateIfNeeded(|p|);
      AppendLive(p);
    }

    /** O_CREATE|O_APPEND on the live file. */
    method AppendLive(p: Bytes)
      requires maxBytes > 0 && maxFiles > 0
      requires 0 in files ==> |slots| <= maxFiles + 1 && Represents(files, slots)
      requires 0 !in files ==> |slots| <= maxFiles && Shifted(files, slots)
      modifies this
      ensures Valid()
      ensures 0 in old(files) ==> old(slots) != [] && slots == old(slots)[0 := old(slots)[0] + [p]]
      ensures 0 !in old(files) ==> slots == [[p]] + old(slots)
    {
      if 0 in files {
        LiveAppended(files, slots, p);
        files := files[0 := files[0] + p];
        slots := slots[0 := slots[0] + [p]];
      } else {
        LiveCreated(files, slots, p);
        files := files[0 := p];
        slots := [[p]] + slots;
      }
    }

    /** rotateIfNeeded: nothing to do while there is no live file or the record fits. */
    method RotateIfNeeded(incoming: nat)
      requires Valid()
      modifies this
      ensures (old(slots) == [] || Size(old(slots)[0]) + incoming <= maxBytes) ==> files == old(files) && slots == old(slots)
      ensures (old(slots) != [] && Size(old(slots)[0]) + incoming > maxBytes) ==>
        0 !in files && slots == Kept(old(slots), maxFiles) && Shifted(files, slots)
    {
      if 0 !in files {
        return;
      }
      if |files[0]| + incoming <= maxBytes {
        return;
      }
      Rotate();
    }

    /** rotate: drop slot `maxFiles`, then rename from the back so that no rename meets a file. */
    method Rotate()
      requires Valid()
      modifies this
      ensures 0 !in files && slots == Kept(old(slots), maxFiles) && Shifted(files, slots)
    {
      OldestDropped(files, slots, maxFiles);
      files := files - {maxFiles};
      slots := Kept(slots, maxFiles);
      var index := maxFiles - 1;
      while index >= 1
        invariant 0 <= index < maxFiles
        invariant slots == Kept(old(slots), maxFiles)
        invariant Holed(files, Contents(slots), index + 1)
      {
        HoleMovesDown(files, Contents(slots), index + 1);
        RenameIfExists(index, index + 1);
        index := index - 1;
      }
      HoleMovesDown(files, Contents(slots), 1);
      RenameIfExists(0, 1);
    }

    /** Every caller renames onto a free slot, so no rename destroys a file. */
    method RenameIfExists(from: nat, to: nat)
      requires to !in files
      modifies this`files
      ensures files == Renamed(old(files), from, to)
    {
      if from in files {
        files := (files - {from})[to := files[from]];
      }
    }
  }
}
