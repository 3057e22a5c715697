/**
 Chunks of variable-length blocks: `reorder_vl_blocks_output` puts the blocks that the workers
 wrote in finish order back into index order (blosc/blosc2.c), so that the output is the one
 of the serial compressor and the decoder accepts its block starts.
 */
module VlReorder {
  import opened Bytes
  import opened Seqs
  import opened Sorting
  import opened ParallelJob

  // ---- the serial layout

  /** Where block `b` starts when the blocks follow each other in index order. */
  function Offset(j: Job, b: nat): nat {
    if b == 0 then j.initial else Offset(j, b - 1) + Size(j, b - 1)
  }

  function BlockBytes(j: Job, b: nat): (r: seq<Byte>)
    ensures |r| == Size(j, b)
  {
    if b < |j.outcomes| && j.outcomes[b].Data? then j.outcomes[b].bytes else []
  }

  /** The first `n` blocks, one after the other. */
  function Flatten(j: Job, n: nat): (r: seq<Byte>)
    ensures |r| == Offset(j, n) - j.initial
  {
    if n == 0 then [] else Flatten(j, n - 1) + BlockBytes(j, n - 1)
  }

  lemma {:induction false} OffsetGrows(j: Job, a: nat, b: nat)
    requires a <= b
    ensures Offset(j, a) <= Offset(j, b)
    decreases b
  {
    if a < b { OffsetGrows(j, a, b - 1); }
  }

  /** The output is in index order: block starts and bytes of the serial layout. */
  ghost predicate InIndexOrder(j: Job, bstarts: seq<int>, dest: seq<Byte>, end: nat) {
    && |bstarts| == j.Blocks()
    && (forall b {:trigger bstarts[b]} :: 0 <= b < |bstarts| ==> bstarts[b] == Offset(j, b))
    && end == Offset(j, j.Blocks()) && end <= |dest|
    && j.initial <= end && dest[j.initial..end] == Flatten(j, j.Blocks())
  }

  // ---- the log is the sorted list of block starts

  function LogEntries(log: seq<Span>): (r: seq<Entry>) {
    seq(|log|, i requires 0 <= i < |log| => Entry(log[i].start, log[i].block))
  }

  function StartEntries(bstarts: seq<int>): (r: seq<Entry>) {
    seq(|bstarts|, i requires 0 <= i < |bstarts| => Entry(bstarts[i], i))
  }

  lemma {:induction false} OnceEach(s: seq<Entry>, e: Entry)
    requires forall i, k :: 0 <= i < k < |s| ==> s[i].index != s[k].index
    ensures multiset(s)[e] == if e in s then 1 else 0
  {
    if s != [] {
      OnceEach(s[1..], e);
      assert s == [s[0]] + s[1..];
    }
  }

  lemma SameEntries(j: Job, s: State, log: seq<Span>)
    requires Complete(j, s, log)
    ensures multiset(LogEntries(log)) == multiset(StartEntries(s.bstarts))
  {
    hide Tiles, Written;
    var a, b := LogEntries(log), StartEntries(s.bstarts);
    forall e: Entry
      ensures multiset(a)[e] == multiset(b)[e]
    {
      OnceEach(a, e);
      OnceEach(b, e);
      if e in b {
        assert InLog(log, e.index);
        var i :| 0 <= i < |log| && log[i].block == e.index;
        assert a[i] == e;
      }
      if e in a {
        var i :| 0 <= i < |a| && a[i] == e;
        assert b[e.index] == e;
      }
    }
  }

  lemma LogSorted(j: Job, s: State, log: seq<Span>)
    requires Complete(j, s, log)
    ensures Sorted(LogEntries(log))
  {
  }

  /** Sorting the block starts recovers the order in which the spans were reserved. */
  lemma SortRecoversLog(j: Job, s: State, log: seq<Span>)
    requires Complete(j, s, log)
    ensures Sort(StartEntries(s.bstarts)) == LogEntries(log)
  {
    hide Complete;
    SameEntries(j, s, log);
    LogSorted(j, s, log);
    SortCorrect(StartEntries(s.bstarts));
    SortedUnique(Sort(StartEntries(s.bstarts)), LogEntries(log));
  }

  // ---- the blocks fill the region whatever their order

  function Total(j: Job, es: seq<Entry>): nat {
    if es == [] then 0 else Size(j, es[0].index) + Total(j, es[1..])
  }

  lemma {:induction false} TotalSplit(j: Job, a: seq<Entry>, b: seq<Entry>)
    ensures Total(j, a + b) == Total(j, a) + Total(j, b)
    decreases |a|
  {
    if a == [] {
      assert a + b == b;
    } else {
      assert (a + b)[1..] == a[1..] + b;
      TotalSplit(j, a[1..], b);
    }
  }

  lemma RemoveAt(b: seq<Entry>, i: nat)
    requires i < |b|
    ensures multiset(b[..i] + b[i + 1..]) == multiset(b) - multiset{b[i]}
  {
    assert b == b[..i] + ([b[i]] + b[i + 1..]);
  }

  lemma TotalWithout(j: Job, b: seq<Entry>, i: nat)
    requires i < |b|
    ensures Total(j, b) == Size(j, b[i].index) + Total(j, b[..i] + b[i + 1..])
  {
    assert b == b[..i] + ([b[i]] + b[i + 1..]);
    TotalSplit(j, b[..i], b[i + 1..]);
    TotalSplit(j, b[..i], [b[i]] + b[i + 1..]);
    assert ([b[i]] + b[i + 1..])[1..] == b[i + 1..];
  }

  lemma {:induction false} TotalPermuted(j: Job, a: seq<Entry>, b: seq<Entry>)
    requires multiset(a) == multiset(b)
    ensures Total(j, a) == Total(j, b)
    decreases |a|
  {
    assert |multiset(a)| == |a| && |multiset(b)| == |b|;
    if a != [] {
      assert a[0] in multiset(b);
      var i :| 0 <= i < |b| && b[i] == a[0];
      RemoveAt(b, i);
      TailMultiset(a);
      TotalPermuted(j, a[1..], b[..i] + b[i + 1..]);
      TotalWithout(j, b, i);
    }
  }

  lemma {:induction false} TotalOfLog(j: Job, log: seq<Span>, lo: nat, hi: nat, n: nat)
    requires Tiles(j, log, lo, hi) && n <= |log| && lo <= hi
    ensures lo + Total(j, LogEntries(log)[..n]) == if n < |log| then log[n].start else hi
    decreases n
  {
    if n == 0 {
      TilesEnds(j, log, lo, hi);
    } else {
      hide *;
      var m := n - 1;
      TotalOfLog(j, log, lo, hi, m);
      TotalOneMore(j, LogEntries(log), m);
      TilesNext(j, log, lo, hi, m);
    }
  }

  lemma {:induction false} TilesEnds(j: Job, log: seq<Span>, lo: nat, hi: nat)
    requires Tiles(j, log, lo, hi)
    ensures lo == if 0 < |log| then log[0].start else hi
  {
  }

  lemma {:induction false} TilesNext(j: Job, log: seq<Span>, lo: nat, hi: nat, m: nat)
    requires Tiles(j, log, lo, hi) && m < |log|
    ensures log[m].start + Size(j, LogEntries(log)[m].index) == if m + 1 < |log| then log[m + 1].start else hi
  {
    assert End(j, log[m]) == NextStart(log, m, hi);
  }

  lemma {:induction false} TotalOneMore(j: Job, es: seq<Entry>, m: nat)
    requires m < |es|
    ensures Total(j, es[..m + 1]) == Total(j, es[..m]) + Size(j, es[m].index)
  {
    assert es[..m + 1] == es[..m] + [es[m]];
    TotalSplit(j, es[..m], [es[m]]);
    assert Total(j, [es[m]]) == Size(j, es[m].index) + Total(j, []);
  }

  lemma {:induction false} TotalOfStarts(j: Job, bstarts: seq<int>, n: nat)
    requires n <= |bstarts|
    ensures j.initial + Total(j, StartEntries(bstarts)[..n]) == Offset(j, n)
    decreases n
  {
    var es := StartEntries(bstarts);
    if n > 0 {
      TotalOfStarts(j, bstarts, n - 1);
      assert es[..n] == es[..n - 1] + [es[n - 1]];
      TotalSplit(j, es[..n - 1], [es[n - 1]]);
      assert Total(j, [es[n - 1]]) == Size(j, n - 1);
    }
  }

  /** The serial layout ends where the parallel one does. */
  lemma SameEnd(j: Job, s: State, log: seq<Span>)
    requires Complete(j, s, log)
    ensures Offset(j, j.Blocks()) == s.outputBytes
  {
    var a, b := LogEntries(log), StartEntries(s.bstarts);
    SameEntries(j, s, log);
    TotalPermuted(j, a, b);
    TotalOfLog(j, log, j.initial, s.outputBytes, |log|);
    TotalOfStarts(j, s.bstarts, j.Blocks());
    assert a[..|log|] == a && b[..j.Blocks()] == b;
  }

  // ---- the operation

  lemma {:induction false} FlattenFromBlocks(j: Job, dest: seq<Byte>, n: nat)
    requires j.initial <= Offset(j, n) <= |dest|
    requires forall b :: 0 <= b < n ==> BlockInPlace(j, dest, b)
    ensures dest[j.initial..Offset(j, n)] == Flatten(j, n)
    decreases n
  {
    if n > 0 {
      OffsetGrows(j, 0, n - 1);
      assert BlockInPlace(j, dest, n - 1);
      FlattenFromBlocks(j, dest, n - 1);
      assert Offset(j, n) == Offset(j, n - 1) + Size(j, n - 1);
      assert Flatten(j, n) == Flatten(j, n - 1) + BlockBytes(j, n - 1);
      hide Flatten, Offset, BlockBytes, Size;
      SplitSlice(dest, j.initial, Offset(j, n - 1), Offset(j, n));
    }
  }

  ghost predicate BlockAt(j: Job, dest: seq<Byte>, at: int, b: nat) {
    0 <= at && at + Size(j, b) <= |dest| && dest[at..at + Size(j, b)] == BlockBytes(j, b)
  }

  ghost predicate BlockInPlace(j: Job, dest: seq<Byte>, b: nat) {
    BlockAt(j, dest, Offset(j, b), b)
  }

  lemma CompleteBlock(j: Job, s: State, log: seq<Span>, b: nat)
    requires Complete(j, s, log) && b < j.Blocks()
    ensures j.initial <= s.bstarts[b] && s.bstarts[b] + Size(j, b) <= s.outputBytes
    ensures BlockAt(j, s.dest, s.bstarts[b], b)
  {
    assert InLog(log, b) && Written(j, s, b);
    WrittenAt(j, s, b);
    hide Written, BlockAt;
    var i :| 0 <= i < |log| && log[i].block == b;
    LastEnds(j, log, j.initial, s.outputBytes, i);
  }

  lemma WrittenAt(j: Job, s: State, b: nat)
    requires b < j.Blocks() && b < |s.bstarts| && j.outcomes[b].Data? && Written(j, s, b)
    ensures BlockAt(j, s.dest, s.bstarts[b], b)
  {
  }

  /** Block starts that already increase are those of the serial layout. */
  lemma OrderedIsDone(j: Job, s: State, log: seq<Span>)
    requires Complete(j, s, log)
    requires forall i, k :: 0 <= i < k < |s.bstarts| ==> s.bstarts[i] <= s.bstarts[k]
    ensures InIndexOrder(j, s.bstarts, s.dest, s.outputBytes)
  {
    SameEnd(j, s, log);
    OrderedStarts(j, s, log);
    forall b | 0 <= b < j.Blocks()
      ensures BlockInPlace(j, s.dest, b)
    {
      CompleteBlock(j, s, log, b);
    }
    OffsetGrows(j, 0, j.Blocks());
    hide Complete;
    FlattenFromBlocks(j, s.dest, j.Blocks());
  }

  lemma OrderedStarts(j: Job, s: State, log: seq<Span>)
    requires Complete(j, s, log)
    requires forall i, k :: 0 <= i < k < |s.bstarts| ==> s.bstarts[i] <= s.bstarts[k]
    ensures forall b :: 0 <= b < |s.bstarts| ==> s.bstarts[b] == Offset(j, b)
  {
    var a, e := LogEntries(log), StartEntries(s.bstarts);
    SameEntries(j, s, log);
    LogSorted(j, s, log);
    SortedUnique(a, e);
    forall b | 0 <= b < |s.bstarts|
      ensures s.bstarts[b] == Offset(j, b)
    {
      TotalOfLog(j, log, j.initial, s.outputBytes, b);
      TotalOfStarts(j, s.bstarts, b);
      assert a[b] == e[b];
    }
  }

  /** The smallest block start: where the block data begin. */
  method DataStart(bstarts: array<int>) returns (start: int)
    requires bstarts.Length > 0
    ensures forall i :: 0 <= i < bstarts.Length ==> start <= bstarts[i]
    ensures exists i :: 0 <= i < bstarts.Length && start == bstarts[i]
  {
    start := bstarts[0];
    for i := 1 to bstarts.Length
      invariant forall k :: 0 <= k < i ==> start <= bstarts[k]
      invariant exists k :: 0 <= k < i && start == bstarts[k]
    {
      if bstarts[i] < start {
        start := bstarts[i];
      }
    }
  }

  /** The compressed size of each block: the distance to the next start in physical order. */
  method BlockSizes(entries: seq<Entry>, outputBytes: int) returns (sizes: array<int>)
    requires forall i :: 0 <= i < |entries| ==> entries[i].index < |entries|
    requires forall i, k :: 0 <= i < k < |entries| ==> entries[i].index != entries[k].index
    ensures fresh(sizes) && sizes.Length == |entries|
    ensures forall i ::
            0 <= i < |entries| ==> sizes[entries[i].index] == NextKey(entries, i, outputBytes) - entries[i].key
  {
    sizes := new int[|entries|](_ => 0);
    for i := 0 to |entries|
      invariant forall k :: 0 <= k < i ==> sizes[entries[k].index] == NextKey(entries, k, outputBytes) - entries[k].key
    {
      sizes[entries[i].index] := NextKey(entries, i, outputBytes) - entries[i].key;
    }
  }

  function NextKey(entries: seq<Entry>, i: nat, end: int): int {
    if i + 1 < |entries| then entries[i + 1].key else end
  }

  lemma SizeOfSpan(j: Job, log: seq<Span>, lo: nat, hi: nat, i: nat)
    requires Tiles(j, log, lo, hi) && i < |log|
    ensures NextKey(LogEntries(log), i, hi) - log[i].start == Size(j, log[i].block)
  {
    assert End(j, log[i]) == NextStart(log, i, hi);
    hide Tiles, Size;
  }

  lemma SizesAreSizes(j: Job, s: State, log: seq<Span>, b: nat) returns (i: nat)
    requires Complete(j, s, log) && b < j.Blocks()
    ensures i < |log| == |LogEntries(log)| && LogEntries(log)[i].index == b
    ensures NextKey(LogEntries(log), i, s.outputBytes) - LogEntries(log)[i].key == Size(j, b)
  {
    hide Written, Tiles, Size, NextKey;
    assert InLog(log, b);
    i :| 0 <= i < |log| && log[i].block == b;
    SizeOfSpan(j, log, j.initial, s.outputBytes, i);
  }

  /** The fast path: are the blocks already in index order? */
  method IsOrdered(bstarts: array<int>) returns (ordered: bool)
    requires bstarts.Length > 0
    ensures ordered == forall i, k :: 0 <= i < k < bstarts.Length ==> bstarts[i] <= bstarts[k]
  {
    for i := 1 to bstarts.Length
      invariant forall m, k :: 0 <= m < k < i && k < bstarts.Length ==> bstarts[m] <= bstarts[k]
    {
      if bstarts[i] < bstarts[i - 1] {
        return false;
      }
    }
    ordered := true;
  }

  /** `n` blocks stand in the serial layout. */
  ghost predicate Laid(j: Job, bstarts: seq<int>, dest: seq<Byte>, n: nat) {
    && n <= j.Blocks() == |bstarts|
    && (forall b {:trigger bstarts[b]} :: 0 <= b < n ==> bstarts[b] == Offset(j, b))
    && j.initial <= Offset(j, n) <= |dest|
    && dest[j.initial..Offset(j, n)] == Flatten(j, n)
  }

  lemma LayNext(j: Job, bstarts: seq<int>, dest: seq<Byte>, dest': seq<Byte>, n: nat)
    requires Laid(j, bstarts, dest, n) && n < j.Blocks() && Offset(j, n + 1) <= |dest|
    requires dest' == dest[..Offset(j, n)] + BlockBytes(j, n) + dest[Offset(j, n + 1)..]
    ensures Laid(j, bstarts[n := Offset(j, n)], dest', n + 1)
  {
  }

  lemma LaidIsInOrder(j: Job, bstarts: seq<int>, dest: seq<Byte>)
    requires Laid(j, bstarts, dest, j.Blocks())
    ensures InIndexOrder(j, bstarts, dest, Offset(j, j.Blocks()))
  {
  }

  /** The blocks written so far: `n` of them in the serial layout, the other starts as they were. */
  ghost predicate Rewritten(j: Job, s: State, bstarts: seq<int>, dest: seq<Byte>, n: nat) {
    && Laid(j, bstarts, dest, n) && |bstarts| == |s.bstarts|
    && (forall b :: n <= b < |bstarts| ==> bstarts[b] == s.bstarts[b])
    && |dest| == |s.dest| && Offset(j, n) <= s.outputBytes <= |dest|
    && (forall i :: 0 <= i < |dest| && (i < j.initial || s.outputBytes <= i) ==> dest[i] == s.dest[i])
  }

  lemma RewriteNext(j: Job, s: State, bstarts: seq<int>, dest: seq<Byte>, dest': seq<Byte>, n: nat)
    requires Rewritten(j, s, bstarts, dest, n) && n < j.Blocks()
    requires Offset(j, n + 1) <= s.outputBytes
    requires dest' == dest[..Offset(j, n)] + BlockBytes(j, n) + dest[Offset(j, n + 1)..]
    ensures Rewritten(j, s, bstarts[n := Offset(j, n)], dest', n + 1)
  {
    LayNext(j, bstarts, dest, dest', n);
    var a, b := Offset(j, n), Offset(j, n + 1);
    hide Flatten;
    assert forall i :: 0 <= i < |dest| && (i < a || b <= i) ==> dest'[i] == dest[i];
  }

  /** Write the blocks to the output in index order, from a snapshot of the block data. */
  method WriteBlocks(dest: array<Byte>, bstarts: array<int>, dataStart: nat, temp: seq<Byte>, sizes: array<int>,
                     ghost j: Job, ghost s: State, ghost log: seq<Span>)
    requires Complete(j, s, log) && Offset(j, j.Blocks()) == s.outputBytes
    requires s.bstarts == bstarts[..] && s.dest == dest[..] && dataStart == j.initial
    requires temp == s.dest[dataStart..s.outputBytes]
    requires sizes != bstarts && sizes.Length == j.Blocks()
    requires forall b :: 0 <= b < j.Blocks() ==> sizes[b] == Size(j, b)
    modifies dest, bstarts
    ensures Rewritten(j, s, bstarts[..], dest[..], j.Blocks())
  {
    var pos := dataStart;
    hide Rewritten, Complete, Flatten, BlockBytes, Size;
    RewriteStart(j, s, log);
    for i := 0 to bstarts.Length
      invariant 0 <= pos == Offset(j, i)
      invariant Rewritten(j, s, bstarts[..], dest[..], i)
      invariant forall b :: 0 <= b < j.Blocks() ==> sizes[b] == Size(j, b)
    {
      WriteBlock(dest, bstarts, dataStart, temp, sizes[i], i, pos, j, s, log);
      pos := pos + sizes[i];
    }
  }

  /** One block goes to its place in index order. */
  method WriteBlock(dest: array<Byte>, bstarts: array<int>, dataStart: nat, temp: seq<Byte>, size: int, i: nat,
                    pos: nat, ghost j: Job, ghost s: State, ghost log: seq<Span>)
    requires Complete(j, s, log) && Offset(j, j.Blocks()) == s.outputBytes && dataStart == j.initial
    requires i < bstarts.Length == j.Blocks() && pos == Offset(j, i) && size == Size(j, i)
    requires |s.dest| == dest.Length && dataStart <= s.outputBytes <= |s.dest|
             && temp == s.dest[dataStart..s.outputBytes]
    requires Rewritten(j, s, bstarts[..], dest[..], i)
    modifies dest, bstarts
    ensures Rewritten(j, s, bstarts[..], dest[..], i + 1) && Offset(j, i + 1) == pos + size
  {
    hide Rewritten, Complete, Flatten, BlockBytes, Size;
    CompleteBlock(j, s, log, i);
    OffsetGrows(j, i + 1, j.Blocks());
    RewrittenStart(j, s, bstarts[..], dest[..], i);
    var old_pos := bstarts[i];
    ghost var starts, before := bstarts[..], dest[..];
    bstarts[i] := pos;
    assert bstarts[..] == starts[i := pos];
    var bytes := temp[old_pos - dataStart..old_pos - dataStart + size];
    SliceOfSlice(s.dest, dataStart, s.outputBytes, old_pos - dataStart, old_pos - dataStart + size);
    assert bytes == BlockBytes(j, i);
    assert Offset(j, i + 1) == pos + size;
    Overwrite(dest, pos, bytes);
    RewriteNext(j, s, starts, before, dest[..], i);
  }

  lemma RewriteStart(j: Job, s: State, log: seq<Span>)
    requires Complete(j, s, log)
    ensures Rewritten(j, s, s.bstarts, s.dest, 0) && |s.bstarts| == j.Blocks()
  {
  }

  lemma RewrittenStart(j: Job, s: State, bstarts: seq<int>, dest: seq<Byte>, n: nat)
    requires Rewritten(j, s, bstarts, dest, n) && n < j.Blocks()
    ensures bstarts[n] == s.bstarts[n] && |dest| == |s.dest| && s.outputBytes <= |dest|
  {
  }

  /**
   `reorder_vl_blocks_output`.  From any order in which the workers' spans tile the output, the
   blocks end up in index order with their bytes, and everything before and after them is untouched.
   */
  method Reorder(dest: array<Byte>, bstarts: array<int>, outputBytes: nat, ghost j: Job, ghost s: State,
                 ghost log: seq<Span>)
    requires Complete(j, s, log)
    requires s.bstarts == bstarts[..] && s.dest == dest[..] && s.outputBytes == outputBytes
    modifies dest, bstarts
    ensures InIndexOrder(j, bstarts[..], dest[..], outputBytes)
    ensures forall i :: 0 <= i < dest.Length && (i < j.initial || outputBytes <= i) ==> dest[i] == old(dest[i])
  {
    hide Complete, InIndexOrder, Rewritten, Sort, LogEntries, StartEntries;
    EntryIndices(j, s, log);
    var ordered := true;
    if bstarts.Length > 1 {
      ordered := IsOrdered(bstarts);
    }
    if ordered {
      OrderedIsDone(j, s, log);
      return;
    }
    var dataStart := DataStart(bstarts);
    StartIsInitial(j, s, log, dataStart);
    SortRecoversLog(j, s, log);
    SameEnd(j, s, log);
    var entries := Sort(StartEntries(bstarts[..]));
    var sizes := BlockSizes(entries, outputBytes);
    forall b | 0 <= b < j.Blocks()
      ensures sizes[b] == Size(j, b)
    {
      var i := SizesAreSizes(j, s, log, b);
    }
    var temp := dest[dataStart..outputBytes];
    WriteBlocks(dest, bstarts, dataStart, temp, sizes, j, s, log);
    AllRewritten(j, s, bstarts[..], dest[..]);
  }

  lemma AllRewritten(j: Job, s: State, bstarts: seq<int>, dest: seq<Byte>)
    requires Rewritten(j, s, bstarts, dest, j.Blocks()) && Offset(j, j.Blocks()) == s.outputBytes
    ensures InIndexOrder(j, bstarts, dest, s.outputBytes) && |dest| == |s.dest|
    ensures forall i :: 0 <= i < |dest| && (i < j.initial || s.outputBytes <= i) ==> dest[i] == s.dest[i]
  {
  }

  lemma StartIsInitial(j: Job, s: State, log: seq<Span>, start: int)
    requires Complete(j, s, log) && |s.bstarts| > 0
    requires forall i :: 0 <= i < |s.bstarts| ==> start <= s.bstarts[i]
    requires exists i :: 0 <= i < |s.bstarts| && start == s.bstarts[i]
    ensures start == j.initial <= s.outputBytes <= |s.dest|
  {
    var i :| 0 <= i < |s.bstarts| && start == s.bstarts[i];
    CompleteBlock(j, s, log, i);
    assert s.bstarts[log[0].block] == log[0].start == j.initial;
  }

  lemma EntryIndices(j: Job, s: State, log: seq<Span>)
    requires Complete(j, s, log)
    ensures var es := LogEntries(log);
            && |es| == j.Blocks() == |s.bstarts|
            && (forall i :: 0 <= i < |es| ==> es[i].index < |es|)
            && (forall i, k :: 0 <= i < k < |es| ==> es[i].index != es[k].index)
  {
  }

  // ---- the serial compressor, and the decoder's view

  /** Every block was compressed to some bytes, and all of them fit the destination. */
  ghost predicate Compressible(j: Job) {
    (forall b :: 0 <= b < j.Blocks() ==> j.outcomes[b].Data? && j.outcomes[b].bytes != [])
      && Offset(j, j.Blocks()) <= j.destsize
  }

  /**
   `serial_blosc` on a chunk of variable-length blocks: each block is written where the previous one
   ended, and the first one that fails, is not compressible or does not fit in what is left stops the
   job.
   */
  method SerialBlosc(j: Job, dest: array<Byte>, bstarts: array<int>) returns (r: int)
    requires j.Valid() && bstarts.Length == j.Blocks() && j.destsize <= dest.Length
    modifies dest, bstarts
    ensures Compressible(j) ==> r == Offset(j, j.Blocks()) && InIndexOrder(j, bstarts[..], dest[..], r)
    ensures !Compressible(j) ==> r <= 0
  {
    r := j.initial;
    assert dest[..][j.initial..j.initial] == [];
    assert Laid(j, bstarts[..], dest[..], 0);
    hide Laid, Flatten, InIndexOrder;
    for i := 0 to j.Blocks()
      invariant r == Offset(j, i) && j.initial <= r <= j.destsize
      invariant forall b :: 0 <= b < i ==> j.outcomes[b].Data? && j.outcomes[b].bytes != []
      invariant Laid(j, bstarts[..], dest[..], i)
    {
      ghost var starts, before := bstarts[..], dest[..];
      bstarts[i] := r;
      assert bstarts[..] == starts[i := r];
      match j.outcomes[i]
      case Error(code) =>
        return code;
      case Data(bytes) =>
        OffsetGrows(j, i + 1, j.Blocks());
        if |bytes| == 0 || r + |bytes| > j.destsize {
          return 0;
        }
        Overwrite(dest, r, bytes);
        LayNext(j, starts, before, dest[..], i);
        r := r + |bytes|;
    }
    LaidIsInOrder(j, bstarts[..], dest[..]);
  }

  lemma CompleteOutcomes(j: Job, s: State, log: seq<Span>)
    requires Complete(j, s, log)
    ensures forall b :: 0 <= b < j.Blocks() ==> j.outcomes[b].Data? && j.outcomes[b].bytes != []
  {
    forall b | 0 <= b < j.Blocks()
      ensures j.outcomes[b].Data? && j.outcomes[b].bytes != []
    {
      assert InLog(log, b);
      var i :| 0 <= i < |log| && log[i].block == b;
      assert 0 < Size(j, log[i].block);
    }
  }

  /** For every schedule: reordering what the workers wrote gives what the serial compressor writes. */
  method ParallelEqualsSerial(j: Job, ghost run: seq<State>, dest: array<Byte>, bstarts: array<int>, outputBytes: nat)
    returns (serialDest: array<Byte>, serialStarts: array<int>, r: int)
    requires Run(j, run) && AllDone(run[|run| - 1]) && run[|run| - 1].giveup > 0
    requires dest[..] == run[|run| - 1].dest && bstarts[..] == run[|run| - 1].bstarts
    requires outputBytes == run[|run| - 1].outputBytes
    modifies dest, bstarts
    ensures r == outputBytes
    ensures serialStarts[..] == bstarts[..]
    ensures j.initial <= outputBytes <= dest.Length == serialDest.Length
    ensures serialDest[j.initial..outputBytes] == dest[j.initial..outputBytes]
  {
    ghost var s := run[|run| - 1];
    ghost var log := ParallelCompression(j, run);
    assert j.Valid();
    hide Run, AllDone;
    CompleteOutcomes(j, s, log);
    hide Complete;
    Reorder(dest, bstarts, outputBytes, j, s, log);
    serialDest := new Byte[dest.Length](_ => 0);
    serialStarts := new int[|j.outcomes|](_ => 0);
    r := SerialBlosc(j, serialDest, serialStarts);
    assert forall b :: 0 <= b < |serialStarts[..]| ==> serialStarts[..][b] == bstarts[..][b];
  }

  // ---- what the decoder demands of the block starts

  /** The uncompressed size that a block announces in its first four bytes. */
  function Announced(src: seq<Byte>, start: int): int {
    if 0 <= start && start + 4 <= |src| then ReadI32(src, start) else 0
  }

  function TotalAnnounced(src: seq<Byte>, bstarts: seq<int>, n: nat): int
    requires n <= |bstarts|
  {
    if n == 0 then 0 else TotalAnnounced(src, bstarts, n - 1) + Announced(src, bstarts[n - 1])
  }

  function StartAfter(bstarts: seq<int>, i: nat, cbytes: int): int {
    if i + 1 < |bstarts| then bstarts[i + 1] else cbytes
  }

  /** Block `i` starts after the block starts and the previous block, ends later, and announces some bytes. */
  ghost predicate StartOk(src: seq<Byte>, bstarts: seq<int>, cbytes: int, startsEnd: nat, i: nat)
    requires i < |bstarts|
  {
    && startsEnd <= bstarts[i] && (if i == 0 then 0 else bstarts[i - 1]) < bstarts[i]
    && bstarts[i] < StartAfter(bstarts, i, cbytes) <= cbytes
    && bstarts[i] <= |src| - 4
    && 0 < Announced(src, bstarts[i])
  }

  ghost predicate Acceptable(src: seq<Byte>, bstarts: seq<int>, cbytes: int, sourcesize: int, startsEnd: nat) {
    && (forall i :: 0 <= i < |bstarts| ==> StartOk(src, bstarts, cbytes, startsEnd, i))
    && (forall i :: 0 <= i <= |bstarts| ==> TotalAnnounced(src, bstarts, i) <= sourcesize)
    && TotalAnnounced(src, bstarts, |bstarts|) == sourcesize
  }

  method CheckStart(src: seq<Byte>, bstarts: seq<int>, cbytes: int, startsEnd: nat, i: nat, prev: int)
    returns (ok: bool, n: int)
    requires i < |bstarts| && prev == if i == 0 then 0 else bstarts[i - 1]
    ensures ok <==> StartOk(src, bstarts, cbytes, startsEnd, i)
    ensures ok ==> n == Announced(src, bstarts[i])
  {
    var bstart, next := bstarts[i], StartAfter(bstarts, i, cbytes);
    if bstart < startsEnd || bstart <= prev || next <= bstart || next > cbytes || bstart > |src| - 4 {
      return false, 0;
    }
    n := ReadI32(src, bstart);
    ok := n > 0;
  }

  /** The first `n` block starts are good and the tables say what they announce. */
  ghost predicate Checked(src: seq<Byte>, bstarts: seq<int>, cbytes: int, sourcesize: int, startsEnd: nat, n: nat,
                          nbytes: seq<int>, offsets: seq<int>, sizes: seq<int>)
  {
    && n <= |bstarts| && |nbytes| == |offsets| == |sizes| == n
    && (forall i :: 0 <= i < n ==> StartOk(src, bstarts, cbytes, startsEnd, i))
    && (forall i :: 0 <= i <= n ==> TotalAnnounced(src, bstarts, i) <= sourcesize)
    && (forall i :: 0 <= i < n ==>
          nbytes[i] == Announced(src, bstarts[i]) && offsets[i] == TotalAnnounced(src, bstarts, i) &&
          sizes[i] == StartAfter(bstarts, i, cbytes) - bstarts[i])
  }

  lemma CheckNext(src: seq<Byte>, bstarts: seq<int>, cbytes: int, sourcesize: int, startsEnd: nat, n: nat,
                  nbytes: seq<int>, offsets: seq<int>, sizes: seq<int>)
    requires Checked(src, bstarts, cbytes, sourcesize, startsEnd, n, nbytes, offsets, sizes) && n < |bstarts|
    requires StartOk(src, bstarts, cbytes, startsEnd, n) && TotalAnnounced(src, bstarts, n + 1) <= sourcesize
    ensures Checked(src, bstarts, cbytes, sourcesize, startsEnd, n + 1, nbytes + [Announced(src, bstarts[n])],
                    offsets + [TotalAnnounced(src, bstarts, n)], sizes + [StartAfter(bstarts, n, cbytes) - bstarts[n]])
  {
    hide StartOk, Announced, StartAfter, TotalAnnounced;
  }

  lemma CheckedIsAcceptable(src: seq<Byte>, bstarts: seq<int>, cbytes: int, sourcesize: int, startsEnd: nat,
                            nbytes: seq<int>, offsets: seq<int>, sizes: seq<int>)
    requires Checked(src, bstarts, cbytes, sourcesize, startsEnd, |bstarts|, nbytes, offsets, sizes)
    ensures TotalAnnounced(src, bstarts, |bstarts|) == sourcesize <==>
            Acceptable(src, bstarts, cbytes, sourcesize, startsEnd)
  {
  }

  /** One bad block start, or too large a total, and the chunk is not acceptable. */
  lemma Rejected(src: seq<Byte>, bstarts: seq<int>, cbytes: int, sourcesize: int, startsEnd: nat, i: nat)
    requires i < |bstarts|
    requires !StartOk(src, bstarts, cbytes, startsEnd, i) || TotalAnnounced(src, bstarts, i + 1) > sourcesize
    ensures !Acceptable(src, bstarts, cbytes, sourcesize, startsEnd)
  {
  }

  /** The checks on the block starts of a chunk that is not lazy, and the tables they fill. */
  method ReadStarts(src: seq<Byte>, bstarts: seq<int>, cbytes: int, sourcesize: int, startsEnd: nat)
    returns (ok: bool, nbytes: seq<int>, offsets: seq<int>, sizes: seq<int>)
    requires 0 <= sourcesize < 0x8000_0000
    ensures ok <==> Acceptable(src, bstarts, cbytes, sourcesize, startsEnd)
    ensures ok ==> Checked(src, bstarts, cbytes, sourcesize, startsEnd, |bstarts|, nbytes, offsets, sizes)
  {
    nbytes, offsets, sizes := [], [], [];
    var total, prev := 0, 0;
    assert Checked(src, bstarts, cbytes, sourcesize, startsEnd, 0, [], [], []);
    hide StartOk, Announced, StartAfter, Checked, Acceptable;
    for i := 0 to |bstarts|
      invariant prev == (if i == 0 then 0 else bstarts[i - 1])
      invariant total == TotalAnnounced(src, bstarts, i)
      invariant Checked(src, bstarts, cbytes, sourcesize, startsEnd, i, nbytes, offsets, sizes)
    {
      var good, n := CheckStart(src, bstarts, cbytes, startsEnd, i, prev);
      if !good {
        Rejected(src, bstarts, cbytes, sourcesize, startsEnd, i);
        return false, [], [], [];
      }
      assert TotalAnnounced(src, bstarts, i + 1) == total + n;
      if total + n > sourcesize {
        Rejected(src, bstarts, cbytes, sourcesize, startsEnd, i);
        return false, [], [], [];
      }
      CheckNext(src, bstarts, cbytes, sourcesize, startsEnd, i, nbytes, offsets, sizes);
      nbytes, offsets, sizes := nbytes + [n], offsets + [total], sizes + [StartAfter(bstarts, i, cbytes) - bstarts[i]];
      total := total + n;
      prev := bstarts[i];
    }
    CheckedIsAcceptable(src, bstarts, cbytes, sourcesize, startsEnd, nbytes, offsets, sizes);
    ok := total == sourcesize;
  }

  /** A block as `blosc_c` writes it in this mode: its uncompressed size, then at least one byte. */
  ghost predicate VlBlock(bytes: seq<Byte>) {
    4 < |bytes| && 0 < ReadI32(bytes, 0)
  }

  function TotalBlocks(j: Job, n: nat): int {
    if n == 0 then 0 else TotalBlocks(j, n - 1) + Announced(BlockBytes(j, n - 1), 0)
  }

  lemma BlockInside(j: Job, src: seq<Byte>, end: nat, b: nat)
    requires b < j.Blocks() && j.initial <= end <= |src| && end == Offset(j, j.Blocks())
    requires src[j.initial..end] == Flatten(j, j.Blocks())
    ensures Offset(j, b) + Size(j, b) <= end
    ensures src[Offset(j, b)..Offset(j, b) + Size(j, b)] == BlockBytes(j, b)
  {
    hide Flatten, BlockBytes, Size;
    FlattenBlock(j, j.Blocks(), b);
    assert Offset(j, b + 1) == Offset(j, b) + Size(j, b);
    hide Offset;
    PartOfSlice(src, j.initial, end, Flatten(j, j.Blocks()), Offset(j, b), Size(j, b), BlockBytes(j, b));
  }

  lemma BlockAnnounces(j: Job, src: seq<Byte>, bstarts: seq<int>, end: nat, b: nat)
    requires InIndexOrder(j, bstarts, src, end) && b < j.Blocks() && VlBlock(BlockBytes(j, b))
    ensures Offset(j, b) + Size(j, b) <= end
    ensures Announced(src, bstarts[b]) == Announced(BlockBytes(j, b), 0)
  {
    hide Offset, BlockBytes, ReadI32, Flatten;
    assert bstarts[b] == Offset(j, b);
    hide InIndexOrder;
    BlockInside(j, src, end, b);
    ReadSlice(src, Offset(j, b), Offset(j, b) + Size(j, b));
  }

  lemma ReadSlice(s: seq<Byte>, p: nat, q: nat)
    requires p + 4 <= q <= |s|
    ensures ReadI32(s[p..q], 0) == ReadI32(s, p)
  {
  }

  lemma {:induction false} FlattenBlock(j: Job, n: nat, b: nat)
    requires b < n
    ensures j.initial <= Offset(j, b) && Offset(j, b + 1) <= Offset(j, n)
    ensures Flatten(j, n)[Offset(j, b) - j.initial..Offset(j, b) - j.initial + Size(j, b)] == BlockBytes(j, b)
    decreases n
  {
    OffsetGrows(j, 0, b);
    OffsetGrows(j, b + 1, n);
    var lo, last := j.initial, BlockBytes(j, n - 1);
    if b < n - 1 {
      FlattenBlock(j, n - 1, b);
      SliceOfLeft(Flatten(j, n - 1), last, Offset(j, b) - lo, Offset(j, b) - lo + Size(j, b));
    } else {
      SliceOfRight(Flatten(j, n - 1), last);
    }
  }

  /** The reordered chunk passes every check of the decoder. */
  lemma ReorderedIsAcceptable(j: Job, src: seq<Byte>, bstarts: seq<int>, end: nat, startsEnd: nat)
    requires InIndexOrder(j, bstarts, src, end) && 0 < startsEnd <= j.initial
    requires forall b :: 0 <= b < j.Blocks() ==> VlBlock(BlockBytes(j, b))
    ensures Acceptable(src, bstarts, end, TotalBlocks(j, j.Blocks()), startsEnd)
  {
    forall b | 0 <= b < |bstarts|
      ensures StartOk(src, bstarts, end, startsEnd, b)
    {
      BlockAnnounces(j, src, bstarts, end, b);
      OffsetGrows(j, 0, b);
      assert VlBlock(BlockBytes(j, b));
      if b > 0 { assert VlBlock(BlockBytes(j, b - 1)); }
    }
    forall i | 0 <= i <= |bstarts|
      ensures TotalAnnounced(src, bstarts, i) == TotalBlocks(j, i) <= TotalBlocks(j, j.Blocks())
    {
      TotalsAgree(j, src, bstarts, end, i);
      TotalsGrow(j, i, j.Blocks());
    }
  }

  lemma {:induction false} TotalsAgree(j: Job, src: seq<Byte>, bstarts: seq<int>, end: nat, n: nat)
    requires InIndexOrder(j, bstarts, src, end) && n <= j.Blocks()
    requires forall b :: 0 <= b < j.Blocks() ==> VlBlock(BlockBytes(j, b))
    ensures TotalAnnounced(src, bstarts, n) == TotalBlocks(j, n)
  {
    if n > 0 {
      TotalsAgree(j, src, bstarts, end, n - 1);
      BlockAnnounces(j, src, bstarts, end, n - 1);
    }
  }

  lemma {:induction false} TotalsGrow(j: Job, a: nat, b: nat)
    requires a <= b <= j.Blocks()
    requires forall i :: 0 <= i < j.Blocks() ==> VlBlock(BlockBytes(j, i))
    ensures TotalBlocks(j, a) <= TotalBlocks(j, b)
    decreases b
  {
    if a < b {
      TotalsGrow(j, a, b - 1);
      assert VlBlock(BlockBytes(j, b - 1));
    }
  }
}
