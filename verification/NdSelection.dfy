/**
 Orthogonal selection (`orthogonal_selection` and its `iter_*` helpers, blosc/b2nd.c): a read of
 the Cartesian product of one list of coordinates per axis.  The lists are sorted, the product is
 walked chunk by chunk, block by block and run by run.
 */
module NdSelection {
  import opened Arith
  import opened NdIndex
  import opened NdGeometry
  import opened NdBlocks
  import opened NdCopy
  import opened NdSlice
  import opened Sorting

  // ---- one axis

  /** Where the entry with index `j` stands in the list; the length of the list if it is not there. */
  function Find(s: seq<Entry>, j: nat): (p: nat)
    ensures p <= |s|
    ensures p < |s| ==> s[p].index == j
  {
    if s == [] then 0 else if s[0].index == j then 0 else 1 + Find(s[1..], j)
  }

  lemma {:induction false} FindAt(s: seq<Entry>, p: nat)
    requires p < |s| && forall i, k :: 0 <= i < k < |s| ==> s[i].index != s[k].index
    ensures Find(s, s[p].index) == p
  {
    if p > 0 {
      assert s[0].index != s[p].index;
      FindAt(s[1..], p - 1);
    }
  }

  /** The entries of an axis, for a buffer of length `m` along it. */
  ghost predicate AxisValid(s: seq<Entry>, m: nat) {
    && (forall p :: 0 <= p < |s| ==> 0 <= s[p].key && s[p].index < m)
    && (forall p, r :: 0 <= p < r < |s| ==> s[p].index != s[r].index)
  }

  // ---- all axes

  datatype Selection = Selection(g: Geometry, sel: seq<seq<Entry>>, bufshape: Index) {
    ghost predicate Valid() {
      && g.Valid() && |sel| == |g.shape| == |bufshape| > 0
      && forall i :: 0 <= i < |sel| ==> AxisValid(sel[i], bufshape[i])
    }

    /** The array index that a tuple of positions in the lists selects. */
    function Keys(p: Index): (r: Index)
      requires |p| == |sel|
      ensures |r| == |p|
    {
      seq(|p|, i requires 0 <= i < |p| => if p[i] < |sel[i]| && sel[i][p[i]].key >= 0 then sel[i][p[i]].key else 0)
    }

    /** The buffer index that it is meant for. */
    function Slots(p: Index): (r: Index)
      requires |p| == |sel|
      ensures |r| == |p|
    {
      seq(|p|, i requires 0 <= i < |p| => if p[i] < |sel[i]| then sel[i][p[i]].index else 0)
    }

    /** The tuple of positions meant for a buffer index. */
    function Where(q: Index): (r: Index)
      requires |q| == |sel|
      ensures |r| == |q|
    {
      seq(|q|, i requires 0 <= i < |q| => Find(sel[i], q[i]))
    }

    function Sizes(): (r: Index)
      ensures |r| == |sel|
    {
      seq(|sel|, i requires 0 <= i < |sel| => |sel[i]|)
    }
  }

  /** A box of tuples of positions. */
  ghost predicate BoxOf(o: Selection, lo: Index, hi: Index) {
    |lo| == |hi| == |o.sel| && forall i :: 0 <= i < |lo| ==> lo[i] <= hi[i] <= |o.sel[i]|
  }

  /** A tuple within the lists and the buffer index it is meant for determine each other. */
  lemma WhereSlots(o: Selection, p: Index, q: Index)
    requires o.Valid() && |q| == |o.sel| && InBox(p, o.Sizes())
    ensures o.Where(q) == p <==> o.Slots(p) == q
    ensures InBox(o.Slots(p), o.bufshape)
  {
    forall i | 0 <= i < |p|
      ensures o.Where(q)[i] == p[i] <==> o.Slots(p)[i] == q[i]
      ensures o.Slots(p)[i] < o.bufshape[i]
    {
      assert p[i] < o.Sizes()[i];
      assert AxisValid(o.sel[i], o.bufshape[i]);
      FindAt(o.sel[i], p[i]);
    }
    if o.Where(q) == p {
      assert forall i :: 0 <= i < |p| ==> o.Slots(p)[i] == q[i];
    }
    if o.Slots(p) == q {
      assert forall i :: 0 <= i < |p| ==> o.Where(q)[i] == p[i];
    }
  }

  lemma SelectionLengths(o: Selection)
    requires o.Valid()
    ensures o.g.Valid() && |o.sel| == |o.g.shape| == |o.bufshape| > 0
  {
  }

  lemma BoxInLists(o: Selection, lo: Index, hi: Index, p: Index)
    requires BoxOf(o, lo, hi) && InSlice(p, lo, hi)
    ensures InBox(p, o.Sizes())
  {
  }

  /**
   The buffer after the tuples of a box were copied: each buffer index that is meant for one of them
   holds the selected element, all others are as they were.
   */
  ghost predicate Copied(o: Selection, chunks: seq<seq<Item>>, buf: seq<Item>, was: seq<Item>, lo: Index, hi: Index)
    requires o.Valid() && |lo| == |hi| == |o.sel|
  {
    |buf| == |was| && forall q: Index :: InBox(q, o.bufshape) ==>
      At(buf, Ravel(q, o.bufshape)) == Chosen(o, chunks, was, lo, hi, q)
  }

  function Chosen(o: Selection, chunks: seq<seq<Item>>, was: seq<Item>, lo: Index, hi: Index, q: Index): Item
    requires o.g.Valid() && |q| == |lo| == |hi| == |o.sel| == |o.g.shape| == |o.bufshape|
  {
    if InSlice(o.Where(q), lo, hi) then Value(o.g, chunks, o.Keys(o.Where(q))) else At(was, Ravel(q, o.bufshape))
  }

  /** Two boxes side by side along one axis. */
  lemma Join(o: Selection, chunks: seq<seq<Item>>, buf: seq<Item>, mid: seq<Item>, was: seq<Item>,
             lo: Index, hi: Index, k: nat, a: nat)
    requires o.Valid() && |lo| == |hi| == |o.sel| && k < |lo| && lo[k] <= a <= hi[k]
    requires Copied(o, chunks, mid, was, lo, hi[k := a]) && Copied(o, chunks, buf, mid, lo[k := a], hi)
    ensures Copied(o, chunks, buf, was, lo, hi)
  {
    var left, right := hi[k := a], lo[k := a];
    hide Value, Ravel;
    forall q: Index | InBox(q, o.bufshape)
      ensures At(buf, Ravel(q, o.bufshape)) == Chosen(o, chunks, was, lo, hi, q)
    {
      var p := o.Where(q);
      BoxSplit(p, lo, hi, k, a);
      hide InSlice;
      assert At(buf, Ravel(q, o.bufshape)) == Chosen(o, chunks, mid, right, hi, q);
      assert At(mid, Ravel(q, o.bufshape)) == Chosen(o, chunks, was, lo, left, q);
    }
  }

  lemma BoxSplit(p: Index, lo: Index, hi: Index, k: nat, a: nat)
    requires |p| == |lo| == |hi| && k < |lo| && lo[k] <= a <= hi[k]
    ensures InSlice(p, lo, hi) <==> InSlice(p, lo, hi[k := a]) || InSlice(p, lo[k := a], hi)
  {
  }

  lemma CopiedNone(o: Selection, chunks: seq<seq<Item>>, buf: seq<Item>, lo: Index, hi: Index, k: nat)
    requires o.Valid() && |lo| == |hi| == |o.sel| && k < |lo| && lo[k] >= hi[k]
    ensures Copied(o, chunks, buf, buf, lo, hi)
  {
  }

  // ---- the cursors of the recursion: the axes before some axis are set, the others have their full range

  function From(pre: Index, full: Index): (r: Index)
    requires |pre| <= |full|
    ensures |r| == |full|
  {
    seq(|full|, i requires 0 <= i < |full| => if i < |pre| then pre[i] else full[i])
  }

  function Tuple(pre: Index, a: nat): (r: Index)
    ensures |r| == |pre| + 1
  {
    pre + [a]
  }

  lemma FromLast(pre: Index, x: nat, full: Index, a: nat)
    requires |pre| < |full|
    ensures From(Tuple(pre, x), full) == From(pre, full)[|pre| := x]
    ensures From(Tuple(pre, x), full)[|pre| := a] == From(Tuple(pre, a), full)
    ensures From(Tuple(pre, full[|pre|]), full) == From(pre, full)
  {
  }

  /** One turn of a loop over an axis extends what was done by the range from `a` to `b`. */
  lemma Extend(o: Selection, chunks: seq<seq<Item>>, buf: seq<Item>, mid: seq<Item>, was: seq<Item>,
               base: Index, top: Index, pre0: Index, pre1: Index, a: nat, b: nat)
    requires o.Valid() && |base| == |top| == |o.sel| && |pre0| == |pre1| < |base| && base[|pre0|] <= a <= b
    requires Copied(o, chunks, mid, was, From(pre0, base), From(Tuple(pre1, a), top))
    requires Copied(o, chunks, buf, mid, From(Tuple(pre0, a), base), From(Tuple(pre1, b), top))
    ensures Copied(o, chunks, buf, was, From(pre0, base), From(Tuple(pre1, b), top))
  {
    var k := |pre0|;
    var lo, hi := From(pre0, base), From(Tuple(pre1, b), top);
    FromLast(pre0, a, base, a);
    FromLast(pre1, b, top, a);
    hide Copied, From;
    Join(o, chunks, buf, mid, was, lo, hi, k, a);
  }

  // ---- how many tuples a box has

  function Tuples(lo: Index, hi: Index): nat
    requires |lo| == |hi|
  {
    Volume(Minus(hi, lo))
  }

  lemma {:induction false} VolumeAdd(shape: Index, k: nat, u: nat, v: nat)
    requires k < |shape|
    ensures Volume(shape[k := u + v]) == Volume(shape[k := u]) + Volume(shape[k := v])
  {
    var a, b, c := shape[k := u + v], shape[k := u], shape[k := v];
    if k == 0 {
      assert a[1..] == b[1..] == c[1..];
      MulDistrib(u, v, Volume(a[1..]));
    } else {
      VolumeAdd(shape[1..], k - 1, u, v);
      assert a[1..] == shape[1..][k - 1 := u + v] && b[1..] == shape[1..][k - 1 := u]
             && c[1..] == shape[1..][k - 1 := v];
      MulDistribLeft(shape[0], Volume(b[1..]), Volume(c[1..]));
    }
  }

  lemma MulDistribLeft(a: nat, b: nat, c: nat)
    ensures a * (b + c) == a * b + a * c
  {
  }

  /** One turn of a loop over an axis adds the tuples of the range from `a` to `b`. */
  lemma MoreTuples(base: Index, top: Index, pre0: Index, pre1: Index, a: nat, b: nat)
    requires |base| == |top| && |pre0| == |pre1| < |base| && base[|pre0|] <= a <= b
    ensures Tuples(From(pre0, base), From(Tuple(pre1, a), top))
            + Tuples(From(Tuple(pre0, a), base), From(Tuple(pre1, b), top)) ==
            Tuples(From(pre0, base), From(Tuple(pre1, b), top))
  {
    var k := |pre0|;
    var all := Minus(From(Tuple(pre1, b), top), From(pre0, base));
    var left := Minus(From(Tuple(pre1, a), top), From(pre0, base));
    var right := Minus(From(Tuple(pre1, b), top), From(Tuple(pre0, a), base));
    assert all == all[k := (a - base[k]) + (b - a)];
    assert left == all[k := a - base[k]];
    assert right == all[k := b - a];
    hide Volume, From, Tuple;
    VolumeAdd(all, k, a - base[k], b - a);
  }

  lemma {:induction false} VolumeOfFlat(shape: Index, k: nat)
    requires k < |shape| && shape[k] == 0
    ensures Volume(shape) == 0
  {
    if k > 0 {
      VolumeOfFlat(shape[1..], k - 1);
    }
  }

  lemma NoTuples(base: Index, top: Index, pre0: Index, pre1: Index)
    requires |base| == |top| && |pre0| == |pre1| < |base|
    ensures Tuples(From(pre0, base), From(Tuple(pre1, base[|pre0|]), top)) == 0
  {
    VolumeOfFlat(Minus(From(Tuple(pre1, base[|pre0|]), top), From(pre0, base)), |pre0|);
  }

  /** When a cursor has reached the end of its axis, the tuples of the whole axis are counted. */
  lemma AllTuples(base: Index, top: Index, pre0: Index, pre1: Index, a: nat)
    requires |base| == |top| && |pre0| == |pre1| < |base| && a == top[|pre0|]
    ensures Tuples(From(pre0, base), From(Tuple(pre1, a), top)) == Tuples(From(pre0, base), From(pre1, top))
  {
    FromLast(pre1, a, top, a);
  }

  lemma BatchTuples(pre: Index, a: nat, n: nat)
    ensures Tuples(Tuple(pre, a), Tuple(Next(pre), a + n)) == n
    decreases |pre|
  {
    var lo, hi := Tuple(pre, a), Tuple(Next(pre), a + n);
    var d := Minus(hi, lo);
    OnesThen(d, |pre|, n);
  }

  lemma {:induction false} OnesThen(d: Index, k: nat, n: nat)
    requires |d| == k + 1 && d[k] == n && forall i :: 0 <= i < k ==> d[i] == 1
    ensures Volume(d) == n
  {
    if k > 0 {
      OnesThen(d[1..], k - 1, n);
    } else {
      assert Volume(d[1..]) == 1;
    }
  }

  // ---- a batch: entries of the last axis that are next to each other in the block and in the buffer

  ghost predicate Batch(s: seq<Entry>, a: nat, n: nat) {
    a + n <= |s| && forall j :: a <= j < a + n ==> s[j].key == s[a].key + (j - a) && s[j].index == s[a].index + (j - a)
  }

  lemma {:induction false} RavelLast(x: Index, y: Index, shape: Index, j: nat)
    requires |x| == |y| == |shape| > 0 && y[..|y| - 1] == x[..|x| - 1] && y[|y| - 1] == x[|x| - 1] + j
    ensures Ravel(y, shape) == Ravel(x, shape) + j
  {
    if |x| == 1 {
      assert Volume(shape[1..]) == 1;
      assert Ravel(x[1..], shape[1..]) == Ravel(y[1..], shape[1..]) == 0;
    } else {
      var x', y' := x[1..], y[1..];
      assert y[..|y| - 1][0] == x[..|x| - 1][0];
      assert y'[..|y'| - 1] == y[..|y| - 1][1..] && x'[..|x'| - 1] == x[..|x| - 1][1..];
      RavelLast(x', y', shape[1..], j);
    }
  }

  lemma ItemAxis(a: nat, j: nat, c: nat, k: nat, x: nat, y: nat)
    requires c > 0 && k > 0 && a / c == x && (a + j) / c == x && a % c / k == y && (a + j) % c / k == y
    ensures (a + j) % c % k == a % c % k + j
  {
  }

  /** All tuples of a box lie in block `y` of chunk `x`. */
  ghost predicate InOneBlock(o: Selection, lo: Index, hi: Index, x: Index, y: Index)
    requires o.Valid() && |lo| == |hi| == |o.sel|
  {
    forall p: Index :: InSlice(p, lo, hi) ==> o.g.ChunkOf(o.Keys(p)) == x && o.g.BlockOf(o.Keys(p)) == y
  }

  /** The tuple number `j` of a batch, seen from the buffer. */
  lemma BatchSlot(o: Selection, pre: Index, a: nat, n: nat, j: nat)
    requires o.Valid() && |pre| + 1 == |o.sel| && Batch(o.sel[|pre|], a, n) && j < n
             && InBox(Tuple(pre, a + j), o.Sizes())
    ensures Ravel(o.Slots(Tuple(pre, a + j)), o.bufshape) == Ravel(o.Slots(Tuple(pre, a)), o.bufshape) + j
  {
    var k := |pre|;
    var p, r := Tuple(pre, a), Tuple(pre, a + j);
    assert r[k] == a + j && p[k] == a;
    assert o.sel[k][a + j].index == o.sel[k][a].index + j;
    var x, y := o.Slots(p), o.Slots(r);
    forall i | 0 <= i < k
      ensures x[i] == y[i]
    {
      assert p[i] == r[i] && r[i] < o.Sizes()[i];
    }
    assert x[..k] == y[..k];
    hide Ravel;
    RavelLast(x, y, o.bufshape, j);
  }

  /** The tuple number `j` of a batch, seen from the block. */
  lemma BatchItem(o: Selection, pre: Index, a: nat, n: nat, j: nat)
    requires o.Valid() && |pre| + 1 == |o.sel| && Batch(o.sel[|pre|], a, n) && j < n
    requires InBox(Tuple(pre, a), o.Sizes()) && InBox(Tuple(pre, a + j), o.Sizes())
    requires o.g.ChunkOf(o.Keys(Tuple(pre, a))) == o.g.ChunkOf(o.Keys(Tuple(pre, a + j)))
    requires o.g.BlockOf(o.Keys(Tuple(pre, a))) == o.g.BlockOf(o.Keys(Tuple(pre, a + j)))
    ensures Ravel(o.g.ItemOf(o.Keys(Tuple(pre, a + j))), o.g.blockshape)
            == Ravel(o.g.ItemOf(o.Keys(Tuple(pre, a))), o.g.blockshape) + j
  {
    var k, p, r := |pre|, Tuple(pre, a), Tuple(pre, a + j);
    assert r[k] == a + j && p[k] == a;
    var kp, kr := o.Keys(p), o.Keys(r);
    KeysNear(o, pre, a, n, j);
    var x, y := o.g.ItemOf(kp), o.g.ItemOf(kr);
    forall i | 0 <= i < k
      ensures x[i] == y[i]
    {
    }
    assert x[..k] == y[..k];
    assert o.g.ChunkOf(kp)[k] == o.g.ChunkOf(kr)[k] && o.g.BlockOf(kp)[k] == o.g.BlockOf(kr)[k];
    ItemAxis(kp[k], j, o.g.chunkshape[k], o.g.blockshape[k], o.g.ChunkOf(kp)[k], o.g.BlockOf(kp)[k]);
    hide Ravel;
    RavelLast(x, y, o.g.blockshape, j);
  }

  lemma KeysNear(o: Selection, pre: Index, a: nat, n: nat, j: nat)
    requires o.Valid() && |pre| + 1 == |o.sel| && Batch(o.sel[|pre|], a, n) && j < n
    requires InBox(Tuple(pre, a), o.Sizes()) && InBox(Tuple(pre, a + j), o.Sizes())
    ensures var kp, kr := o.Keys(Tuple(pre, a)), o.Keys(Tuple(pre, a + j));
            kr[|pre|] == kp[|pre|] + j && forall i :: 0 <= i < |pre| ==> kp[i] == kr[i]
  {
  }

  /** The tuples of a box lie in one block, and that block has been read to offset `off` of `data`. */
  ghost predicate BlockReady(o: Selection, chunks: seq<seq<Item>>, data: seq<Item>, off: nat, base: Index, top: Index,
                             x: Index, y: Index)
    requires o.Valid()
  {
    && BoxOf(o, base, top) && InOneBlock(o, base, top, x, y)
    && |x| == |y| == |o.sel| && Ravel(x, o.g.Grid()) < |chunks|
    && BlockFrom(data, off, chunks[Ravel(x, o.g.Grid())], Ravel(y, o.g.BlockGrid()), o.g.BlockItems())
  }

  /** Where the element of a tuple lies in the block. */
  lemma TupleValue(o: Selection, chunks: seq<seq<Item>>, data: seq<Item>, off: nat, base: Index, top: Index, x: Index,
                   y: Index, p: Index)
    requires o.Valid() && BlockReady(o, chunks, data, off, base, top, x, y) && InSlice(p, base, top)
    ensures InBox(p, o.Sizes())
    ensures off + Ravel(o.g.ItemOf(o.Keys(p)), o.g.blockshape) < |data|
    ensures At(data, off + Ravel(o.g.ItemOf(o.Keys(p)), o.g.blockshape)) == Value(o.g, chunks, o.Keys(p))
  {
    BoxInLists(o, base, top, p);
    WhereSlots(o, p, o.Slots(p));
    InnerBound(o.g, o.Keys(p));
    var c, v := Ravel(x, o.g.Grid()), Ravel(y, o.g.BlockGrid());
    hide Ravel, Volume, Value, BlockFrom, Geometry.ItemOf;
    assert BlockFrom(data, off, chunks[c], v, o.g.BlockItems());
    BlockBound(data, off, chunks[c], v, o.g.BlockItems());
    BlockPlace(o.g, chunks, o.Keys(p), c, data, off, v);
  }

  lemma BlockBound(data: seq<Item>, off: nat, chunk: seq<Item>, v: nat, items: nat)
    requires BlockFrom(data, off, chunk, v, items)
    ensures off + items <= |data|
  {
  }

  function Next(p: Index): (r: Index)
    ensures |r| == |p|
  {
    seq(|p|, i requires 0 <= i < |p| => p[i] + 1)
  }

  /** The tuples of a batch are those that agree with `pre` and whose last position is in the batch. */
  lemma BatchIndex(p: Index, pre: Index, a: nat, n: nat) returns (j: nat)
    requires |p| == |pre| + 1 && InSlice(p, Tuple(pre, a), Tuple(Next(pre), a + n))
    ensures j < n && p == Tuple(pre, a + j)
  {
    var k, lo, hi := |pre|, Tuple(pre, a), Tuple(Next(pre), a + n);
    assert lo[k] <= p[k] < hi[k];
    j := p[k] - a;
    forall i | 0 <= i < k ensures p[i] == pre[i] {
      assert lo[i] <= p[i] < hi[i];
    }
  }

  lemma InBatch(pre: Index, a: nat, n: nat, j: nat)
    requires j < n
    ensures InSlice(Tuple(pre, a + j), Tuple(pre, a), Tuple(Next(pre), a + n))
  {
  }

  /** The batch lies in the box. */
  ghost predicate BatchWithin(pre: Index, a: nat, n: nat, base: Index, top: Index) {
    && |base| == |top| == |pre| + 1 && base[|pre|] <= a && a + n <= top[|pre|]
    && forall i :: 0 <= i < |pre| ==> base[i] <= pre[i] < top[i]
  }

  lemma BatchTuple(pre: Index, a: nat, n: nat, base: Index, top: Index, j: nat)
    requires BatchWithin(pre, a, n, base, top) && j < n
    ensures InSlice(Tuple(pre, a + j), base, top)
  {
  }

  /** A tuple of a batch, seen from the block that the batch lies in. */
  lemma Member(o: Selection, chunks: seq<seq<Item>>, data: seq<Item>, off: nat, base: Index, top: Index, x: Index,
               y: Index, pre: Index, a: nat, n: nat, j: nat)
    requires o.Valid() && BlockReady(o, chunks, data, off, base, top, x, y) && |pre| + 1 == |o.sel|
    requires BatchWithin(pre, a, n, base, top) && j < n
    ensures var r := Tuple(pre, a + j);
            && InBox(r, o.Sizes()) && o.g.ChunkOf(o.Keys(r)) == x && o.g.BlockOf(o.Keys(r)) == y
            && off + Ravel(o.g.ItemOf(o.Keys(r)), o.g.blockshape) < |data|
            && At(data, off + Ravel(o.g.ItemOf(o.Keys(r)), o.g.blockshape)) == Value(o.g, chunks, o.Keys(r))
  {
    BatchTuple(pre, a, n, base, top, j);
    hide BatchWithin, Ravel, Value, Geometry.ItemOf;
    TupleValue(o, chunks, data, off, base, top, x, y, Tuple(pre, a + j));
  }

  /** Consecutive tuples of a batch are consecutive in the block. */
  lemma BatchPlace(o: Selection, chunks: seq<seq<Item>>, data: seq<Item>, off: nat, base: Index, top: Index, x: Index,
                   y: Index, pre: Index, a: nat, n: nat, j: nat)
    requires o.Valid() && BlockReady(o, chunks, data, off, base, top, x, y) && |pre| + 1 == |o.sel|
    requires Batch(o.sel[|pre|], a, n) && BatchWithin(pre, a, n, base, top) && j < n
    ensures Ravel(o.g.ItemOf(o.Keys(Tuple(pre, a + j))), o.g.blockshape)
            == Ravel(o.g.ItemOf(o.Keys(Tuple(pre, a))), o.g.blockshape) + j
  {
    hide *;
    assert a + 0 == a;
    Member(o, chunks, data, off, base, top, x, y, pre, a, n, 0);
    Member(o, chunks, data, off, base, top, x, y, pre, a, n, j);
    BatchItem(o, pre, a, n, j);
  }

  /** `n` items of `data` were copied over the buffer. */
  ghost predicate Pasted(buf: seq<Item>, was: seq<Item>, data: seq<Item>, to: nat, from: nat, n: nat) {
    |buf| == |was| && forall i ::
      0 <= i < |buf| ==> buf[i] == if to <= i < to + n then At(data, from + (i - to)) else was[i]
  }

  lemma PastedAt(buf: seq<Item>, was: seq<Item>, data: seq<Item>, to: nat, from: nat, n: nat, at: nat)
    requires Pasted(buf, was, data, to, from, n) && at < |buf|
    ensures At(buf, at) == if to <= at < to + n then At(data, from + (at - to)) else At(was, at)
  {
  }

  /** What a batch leaves in the buffer, position by position. */
  lemma BatchLeaves(o: Selection, chunks: seq<seq<Item>>, data: seq<Item>, off: nat, base: Index, top: Index,
                    x: Index, y: Index,
                    pre: Index, a: nat, n: nat, to: nat, from: nat, was: seq<Item>, buf: seq<Item>, q: Index)
    requires o.Valid() && BlockReady(o, chunks, data, off, base, top, x, y) && |pre| + 1 == |o.sel|
    requires Batch(o.sel[|pre|], a, n) && BatchWithin(pre, a, n, base, top) && n > 0
    requires |buf| == |was| && |q| == |o.sel| && InBox(q, o.bufshape) && Volume(o.bufshape) <= |was|
    requires to == Ravel(o.Slots(Tuple(pre, a)), o.bufshape)
             && from == off + Ravel(o.g.ItemOf(o.Keys(Tuple(pre, a))), o.g.blockshape)
    requires Pasted(buf, was, data, to, from, n)
    ensures At(buf, Ravel(q, o.bufshape)) == Chosen(o, chunks, was, Tuple(pre, a), Tuple(Next(pre), a + n), q)
  {
    hide *;
    SelectionLengths(o);
    BlockLengths(o, chunks, data, off, base, top, x, y);
    var at := Ravel(q, o.bufshape);
    RavelBound(q, o.bufshape);
    PastedAt(buf, was, data, to, from, n, at);
    if to <= at < to + n {
      LeavesHit(o, chunks, data, off, base, top, x, y, pre, a, n, at - to, q, was);
    } else {
      LeavesMiss(o, chunks, base, top, pre, a, n, q, was);
    }
  }

  lemma LeavesHit(o: Selection, chunks: seq<seq<Item>>, data: seq<Item>, off: nat, base: Index, top: Index, x: Index,
                  y: Index, pre: Index, a: nat, n: nat, j: nat, q: Index, was: seq<Item>)
    requires o.Valid() && BlockReady(o, chunks, data, off, base, top, x, y) && |pre| + 1 == |o.sel|
    requires Batch(o.sel[|pre|], a, n) && BatchWithin(pre, a, n, base, top) && j < n && InBox(q, o.bufshape)
    requires Ravel(q, o.bufshape) == Ravel(o.Slots(Tuple(pre, a)), o.bufshape) + j
    ensures Chosen(o, chunks, was, Tuple(pre, a), Tuple(Next(pre), a + n), q) ==
            At(data, off + Ravel(o.g.ItemOf(o.Keys(Tuple(pre, a))), o.g.blockshape) + j)
  {
    InBatch(pre, a, n, j);
    BatchHit(o, chunks, data, off, base, top, x, y, pre, a, n, j, q);
    hide *;
    ChosenIs(o, chunks, was, Tuple(pre, a), Tuple(Next(pre), a + n), q);
  }

  lemma LeavesMiss(o: Selection, chunks: seq<seq<Item>>, base: Index, top: Index, pre: Index, a: nat, n: nat,
                   q: Index, was: seq<Item>)
    requires o.Valid() && BoxOf(o, base, top) && |pre| + 1 == |o.sel| && |q| == |o.sel|
    requires Batch(o.sel[|pre|], a, n) && BatchWithin(pre, a, n, base, top)
    requires var to := Ravel(o.Slots(Tuple(pre, a)), o.bufshape); !(to <= Ravel(q, o.bufshape) < to + n)
    ensures Chosen(o, chunks, was, Tuple(pre, a), Tuple(Next(pre), a + n), q) == At(was, Ravel(q, o.bufshape))
  {
    assert o.g.Valid() && |o.sel| == |o.g.shape| == |o.bufshape|;
    hide *;
    if InSlice(o.Where(q), Tuple(pre, a), Tuple(Next(pre), a + n)) {
      BatchHits(o, base, top, pre, a, n, q);
    }
    ChosenIs(o, chunks, was, Tuple(pre, a), Tuple(Next(pre), a + n), q);
  }

  lemma ChosenIs(o: Selection, chunks: seq<seq<Item>>, was: seq<Item>, lo: Index, hi: Index, q: Index)
    requires o.g.Valid() && |q| == |lo| == |hi| == |o.sel| == |o.g.shape| == |o.bufshape|
    ensures InSlice(o.Where(q), lo, hi) ==> Chosen(o, chunks, was, lo, hi, q) == Value(o.g, chunks, o.Keys(o.Where(q)))
    ensures !InSlice(o.Where(q), lo, hi) ==> Chosen(o, chunks, was, lo, hi, q) == At(was, Ravel(q, o.bufshape))
  {
  }

  lemma BatchHit(o: Selection, chunks: seq<seq<Item>>, data: seq<Item>, off: nat, base: Index, top: Index, x: Index,
                 y: Index, pre: Index, a: nat, n: nat, j: nat, q: Index)
    requires o.Valid() && BlockReady(o, chunks, data, off, base, top, x, y) && |pre| + 1 == |o.sel|
    requires Batch(o.sel[|pre|], a, n) && BatchWithin(pre, a, n, base, top) && j < n && InBox(q, o.bufshape)
    requires Ravel(q, o.bufshape) == Ravel(o.Slots(Tuple(pre, a)), o.bufshape) + j
    ensures o.Where(q) == Tuple(pre, a + j)
    ensures At(data, off + Ravel(o.g.ItemOf(o.Keys(Tuple(pre, a))), o.g.blockshape) + j)
            == Value(o.g, chunks, o.Keys(o.Where(q)))
  {
    hide *;
    Member(o, chunks, data, off, base, top, x, y, pre, a, n, j);
    BatchPlace(o, chunks, data, off, base, top, x, y, pre, a, n, j);
    SlotOf(o, pre, a, n, j, q);
  }

  lemma SlotOf(o: Selection, pre: Index, a: nat, n: nat, j: nat, q: Index)
    requires o.Valid() && |pre| + 1 == |o.sel| && Batch(o.sel[|pre|], a, n) && j < n && InBox(q, o.bufshape)
    requires InBox(Tuple(pre, a + j), o.Sizes())
    requires Ravel(q, o.bufshape) == Ravel(o.Slots(Tuple(pre, a)), o.bufshape) + j
    ensures o.Where(q) == Tuple(pre, a + j)
  {
    var r := Tuple(pre, a + j);
    hide Ravel, Batch;
    BatchSlot(o, pre, a, n, j);
    WhereSlots(o, r, q);
    RavelInjective(q, o.Slots(r), o.bufshape);
  }

  lemma BatchHits(o: Selection, base: Index, top: Index, pre: Index, a: nat, n: nat, q: Index)
    requires o.Valid() && BoxOf(o, base, top) && |pre| + 1 == |o.sel|
    requires Batch(o.sel[|pre|], a, n) && BatchWithin(pre, a, n, base, top) && |q| == |o.sel|
    requires InSlice(o.Where(q), Tuple(pre, a), Tuple(Next(pre), a + n))
    ensures var to := Ravel(o.Slots(Tuple(pre, a)), o.bufshape); to <= Ravel(q, o.bufshape) < to + n
  {
    var w := o.Where(q);
    hide Ravel, BatchWithin, Batch, InSlice, Selection.Valid;
    var j := BatchIndex(w, pre, a, n);
    BatchTuple(pre, a, n, base, top, j);
    BoxInLists(o, base, top, w);
    WhereSlots(o, w, q);
    BatchSlot(o, pre, a, n, j);
  }

  /** Both ends of a batch are within the buffer and the block. */
  lemma BatchFits(o: Selection, chunks: seq<seq<Item>>, data: seq<Item>, off: nat, base: Index, top: Index, x: Index,
                  y: Index, pre: Index, a: nat, n: nat)
    requires o.Valid() && BlockReady(o, chunks, data, off, base, top, x, y) && |pre| + 1 == |o.sel|
    requires Batch(o.sel[|pre|], a, n) && BatchWithin(pre, a, n, base, top) && n > 0
    ensures Ravel(o.Slots(Tuple(pre, a)), o.bufshape) + n <= Volume(o.bufshape)
    ensures off + Ravel(o.g.ItemOf(o.Keys(Tuple(pre, a))), o.g.blockshape) + n <= |data|
  {
    var j := n - 1;
    var r := Tuple(pre, a + j);
    hide BatchWithin, BlockReady, Batch, Ravel, Value, Volume, Geometry.ItemOf;
    Member(o, chunks, data, off, base, top, x, y, pre, a, n, j);
    BatchPlace(o, chunks, data, off, base, top, x, y, pre, a, n, j);
    BatchSlot(o, pre, a, n, j);
    WhereSlots(o, r, o.Slots(r));
    RavelBound(o.Slots(r), o.bufshape);
  }

  /** Copy one batch with a single `memcpy`. */
  method Flush(o: Selection, ghost chunks: seq<seq<Item>>, data: seq<Item>, off: nat, ghost base: Index,
               ghost top: Index,
               ghost x: Index, ghost y: Index, pre: Index, a: nat, n: nat, buffer: array<Item>)
                 returns (ghost copies: nat)
    requires o.Valid() && BlockReady(o, chunks, data, off, base, top, x, y) && |pre| + 1 == |o.sel|
    requires Batch(o.sel[|pre|], a, n) && BatchWithin(pre, a, n, base, top) && n > 0
    requires Volume(o.bufshape) <= buffer.Length
    modifies buffer
    ensures Copied(o, chunks, buffer[..], old(buffer[..]), Tuple(pre, a), Tuple(Next(pre), a + n))
    ensures copies == n
  {
    hide *;
    SelectionLengths(o);
    BatchFits(o, chunks, data, off, base, top, x, y, pre, a, n);
    var from := off + Ravel(o.g.ItemOf(o.Keys(Tuple(pre, a))), o.g.blockshape);
    var to := Ravel(o.Slots(Tuple(pre, a)), o.bufshape);
    ghost var was := buffer[..];
    CopyItems(buffer, to, data, from, n);
    copies := n;
    PastedBy(buffer[..], was, data, to, from, n);
    FlushDone(o, chunks, data, off, base, top, x, y, pre, a, n, to, from, was, buffer[..]);
  }

  lemma PastedBy(buf: seq<Item>, was: seq<Item>, data: seq<Item>, to: nat, from: nat, n: nat)
    requires |buf| == |was| && from + n <= |data|
    requires forall i :: 0 <= i < |buf| ==> buf[i] == if to <= i < to + n then data[from + (i - to)] else was[i]
    ensures Pasted(buf, was, data, to, from, n)
  {
  }

  lemma FlushDone(o: Selection, chunks: seq<seq<Item>>, data: seq<Item>, off: nat, base: Index, top: Index, x: Index,
                  y: Index, pre: Index, a: nat, n: nat, to: nat, from: nat, was: seq<Item>, buf: seq<Item>)
    requires o.Valid() && BlockReady(o, chunks, data, off, base, top, x, y) && |pre| + 1 == |o.sel|
    requires Batch(o.sel[|pre|], a, n) && BatchWithin(pre, a, n, base, top) && n > 0
    requires |buf| == |was| && Volume(o.bufshape) <= |was|
    requires to == Ravel(o.Slots(Tuple(pre, a)), o.bufshape)
             && from == off + Ravel(o.g.ItemOf(o.Keys(Tuple(pre, a))), o.g.blockshape)
    requires Pasted(buf, was, data, to, from, n)
    ensures Copied(o, chunks, buf, was, Tuple(pre, a), Tuple(Next(pre), a + n))
  {
    hide Ravel, Volume, Batch, BatchWithin, BlockReady, Chosen;
    var hi := Tuple(Next(pre), a + n);
    forall q: Index | InBox(q, o.bufshape)
      ensures At(buf, Ravel(q, o.bufshape)) == Chosen(o, chunks, was, Tuple(pre, a), hi, q)
    {
      BatchLeaves(o, chunks, data, off, base, top, x, y, pre, a, n, to, from, was, buf, q);
    }
  }

  // ---- one block

  lemma FromFull(pre: Index, a: nat, full: Index)
    requires |pre| + 1 == |full|
    ensures From(Tuple(pre, a), full) == Tuple(pre, a)
  {
  }

  /** The end of a batch: copy it and go on. */
  method FlushRow(o: Selection, ghost chunks: seq<seq<Item>>, data: seq<Item>, off: nat, ghost base: Index,
                  ghost top: Index,
                  ghost x: Index, ghost y: Index, pre: Index, a: nat, n: nat, buffer: array<Item>,
                    ghost orig: seq<Item>)
    returns (ghost copies: nat)
    requires o.Valid() && BlockReady(o, chunks, data, off, base, top, x, y) && |pre| + 1 == |o.sel|
    requires Batch(o.sel[|pre|], a, n) && BatchWithin(pre, a, n, base, top) && n > 0
    requires Volume(o.bufshape) <= buffer.Length
    requires |base| == |top| == |o.sel| && Copied(o, chunks, buffer[..], orig, From(pre, base),
             From(Tuple(Next(pre), a), top))
    modifies buffer
    ensures Copied(o, chunks, buffer[..], orig, From(pre, base), From(Tuple(Next(pre), a + n), top))
    ensures Tuples(From(pre, base), From(Tuple(Next(pre), a), top))
            + copies == Tuples(From(pre, base), From(Tuple(Next(pre), a + n), top))
  {
    assert base[|pre|] <= a;
    hide *;
    ghost var mid := buffer[..];
    copies := Flush(o, chunks, data, off, base, top, x, y, pre, a, n, buffer);
    RowTuples(base, top, pre, a, n);
    FlushExtends(o, chunks, buffer[..], mid, orig, base, top, pre, a, n);
  }

  lemma RowTuples(base: Index, top: Index, pre: Index, a: nat, n: nat)
    requires |base| == |top| == |pre| + 1 && base[|pre|] <= a
    ensures Tuples(From(pre, base), From(Tuple(Next(pre), a), top))
            + n == Tuples(From(pre, base), From(Tuple(Next(pre), a + n), top))
  {
    hide *;
    BatchTuples(pre, a, n);
    FromFull(pre, a, base);
    FromFull(Next(pre), a + n, top);
    MoreTuples(base, top, pre, Next(pre), a, a + n);
  }

  lemma FlushExtends(o: Selection, chunks: seq<seq<Item>>, buf: seq<Item>, mid: seq<Item>, was: seq<Item>,
                     base: Index, top: Index, pre: Index, a: nat, n: nat)
    requires o.Valid() && |base| == |top| == |o.sel| == |pre| + 1 && base[|pre|] <= a
    requires Copied(o, chunks, mid, was, From(pre, base), From(Tuple(Next(pre), a), top))
    requires Copied(o, chunks, buf, mid, Tuple(pre, a), Tuple(Next(pre), a + n))
    ensures Copied(o, chunks, buf, was, From(pre, base), From(Tuple(Next(pre), a + n), top))
  {
    hide *;
    FromFull(pre, a, base);
    FromFull(Next(pre), a + n, top);
    Extend(o, chunks, buf, mid, was, base, top, pre, Next(pre), a, a + n);
  }

  /** The innermost loop of `copy_block_buffer_data`: runs of neighbours are copied together. */
  method CopyRow(o: Selection, ghost chunks: seq<seq<Item>>, data: seq<Item>, off: nat, base: Index, top: Index,
                 ghost x: Index, ghost y: Index, pre: Index, buffer: array<Item>) returns (ghost copies: nat)
    requires o.Valid() && BlockReady(o, chunks, data, off, base, top, x, y) && |pre| + 1 == |o.sel| == |base| == |top|
    requires base[|pre|] < top[|pre|] && BatchWithin(pre, base[|pre|], top[|pre|] - base[|pre|], base, top)
    requires Volume(o.bufshape) <= buffer.Length
    modifies buffer
    ensures Copied(o, chunks, buffer[..], old(buffer[..]), From(pre, base), From(Next(pre), top))
    ensures copies == Tuples(From(pre, base), From(Next(pre), top))
  {
    hide *;
    copies := 0;
    NoTuples(base, top, pre, Next(pre));
    var k := |pre|;
    var s := o.sel[k];
    var a: nat, n: nat := base[k], 1;
    var j: nat := a + 1;
    ghost var orig := buffer[..];
    RowStart(o, chunks, orig, base, top, pre);
    BlockLengths(o, chunks, data, off, base, top, x, y);
    OneEntry(s, a);
    while j < top[k]
      invariant base[k] <= a && n > 0 && j == a + n <= top[k] && Batch(s, a, n)
      invariant Copied(o, chunks, buffer[..], orig, From(pre, base), From(Tuple(Next(pre), a), top))
      invariant copies == Tuples(From(pre, base), From(Tuple(Next(pre), a), top))
    {
      if s[j].key == s[j - 1].key + 1 && s[j].index == s[j - 1].index + 1 {
        LongerBatch(s, a, n);
        n := n + 1;
      } else {
        PartOfRow(pre, a, n, base, top);
        ghost var c := FlushRow(o, chunks, data, off, base, top, x, y, pre, a, n, buffer, orig);
        copies := copies + c;
        OneEntry(s, j);
        a, n := j, 1;
      }
      j := j + 1;
    }
    PartOfRow(pre, a, n, base, top);
    ghost var c := FlushRow(o, chunks, data, off, base, top, x, y, pre, a, n, buffer, orig);
    copies := copies + c;
    RowEnd(o, chunks, buffer[..], orig, base, top, pre, j);
    AllTuples(base, top, pre, Next(pre), j);
  }

  lemma RowStart(o: Selection, chunks: seq<seq<Item>>, buf: seq<Item>, base: Index, top: Index, pre: Index)
    requires o.Valid() && |base| == |top| == |o.sel| && |pre| < |o.sel|
    ensures Copied(o, chunks, buf, buf, From(pre, base), From(Tuple(Next(pre), base[|pre|]), top))
  {
    CopiedNone(o, chunks, buf, From(pre, base), From(Tuple(Next(pre), base[|pre|]), top), |pre|);
  }

  lemma BlockLengths(o: Selection, chunks: seq<seq<Item>>, data: seq<Item>, off: nat, base: Index, top: Index,
                     x: Index, y: Index)
    requires o.Valid() && BlockReady(o, chunks, data, off, base, top, x, y)
    ensures BoxOf(o, base, top) && |base| == |top| == |o.sel| && forall i ::
            0 <= i < |o.sel| ==> base[i] <= top[i] <= |o.sel[i]|
  {
  }

  lemma OneEntry(s: seq<Entry>, a: nat)
    requires a < |s|
    ensures Batch(s, a, 1)
  {
  }

  lemma LongerBatch(s: seq<Entry>, a: nat, n: nat)
    requires Batch(s, a, n) && n > 0 && a + n < |s|
    requires s[a + n].key == s[a + n - 1].key + 1 && s[a + n].index == s[a + n - 1].index + 1
    ensures Batch(s, a, n + 1)
  {
  }

  lemma PartOfRow(pre: Index, a: nat, n: nat, base: Index, top: Index)
    requires |pre| + 1 == |base| == |top| && base[|pre|] <= a && a + n <= top[|pre|]
    requires BatchWithin(pre, base[|pre|], top[|pre|] - base[|pre|], base, top)
    ensures BatchWithin(pre, a, n, base, top)
  {
  }

  /** The cursors before some axis stay inside the box. */
  ghost predicate Inside(pre: Index, base: Index, top: Index) {
    |pre| <= |base| == |top| && forall i :: 0 <= i < |pre| ==> base[i] <= pre[i] < top[i]
  }

  /** `copy_block_buffer_data`: the recursion over the entries of one block. */
  method CopyBlock(o: Selection, ghost chunks: seq<seq<Item>>, data: seq<Item>, off: nat, base: Index, top: Index,
                   ghost x: Index, ghost y: Index, pre: Index, buffer: array<Item>) returns (ghost copies: nat)
    requires o.Valid() && BlockReady(o, chunks, data, off, base, top, x, y) && |pre| < |o.sel| == |base| == |top|
    requires Inside(pre, base, top) && Volume(o.bufshape) <= buffer.Length
    modifies buffer
    ensures Copied(o, chunks, buffer[..], old(buffer[..]), From(pre, base), From(Next(pre), top))
    ensures copies == Tuples(From(pre, base), From(Next(pre), top))
    decreases |o.sel| - |pre|
  {
    hide *;
    copies := 0;
    NoTuples(base, top, pre, Next(pre));
    var k := |pre|;
    ghost var orig := buffer[..];
    BlockLengths(o, chunks, data, off, base, top, x, y);
    RowStart(o, chunks, orig, base, top, pre);
    var a: nat := base[k];
    NextTuple(pre, a);
    if k == |o.sel| - 1 {
      if a < top[k] {
        WholeRow(pre, base, top);
        copies := CopyRow(o, chunks, data, off, base, top, x, y, pre, buffer);
      } else {
        RowEnd(o, chunks, buffer[..], orig, base, top, pre, a);
        AllTuples(base, top, pre, Next(pre), a);
      }
      return;
    }
    while a < top[k]
      invariant base[k] <= a <= top[k]
      invariant Copied(o, chunks, buffer[..], orig, From(pre, base), From(Tuple(Next(pre), a), top))
      invariant copies == Tuples(From(pre, base), From(Tuple(Next(pre), a), top))
    {
      ghost var mid := buffer[..];
      Deeper(pre, base, top, a);
      ghost var c := CopyBlock(o, chunks, data, off, base, top, x, y, Tuple(pre, a), buffer);
      StepDown(o, chunks, buffer[..], mid, orig, base, top, pre, a);
      NextTuple(pre, a);
      MoreTuples(base, top, pre, Next(pre), a, a + 1);
      copies := copies + c;
      a := a + 1;
    }
    RowEnd(o, chunks, buffer[..], orig, base, top, pre, a);
    AllTuples(base, top, pre, Next(pre), a);
  }

  lemma NextTuple(pre: Index, a: nat)
    ensures Next(Tuple(pre, a)) == Tuple(Next(pre), a + 1)
  {
  }

  lemma WholeRow(pre: Index, base: Index, top: Index)
    requires Inside(pre, base, top) && |pre| + 1 == |base| == |top| && base[|pre|] < top[|pre|]
    ensures BatchWithin(pre, base[|pre|], top[|pre|] - base[|pre|], base, top)
  {
  }

  lemma Deeper(pre: Index, base: Index, top: Index, a: nat)
    requires Inside(pre, base, top) && |pre| < |base| == |top| && base[|pre|] <= a < top[|pre|]
    ensures Inside(Tuple(pre, a), base, top)
  {
  }

  lemma StepDown(o: Selection, chunks: seq<seq<Item>>, buf: seq<Item>, mid: seq<Item>, was: seq<Item>,
                 base: Index, top: Index, pre: Index, a: nat)
    requires o.Valid() && |base| == |top| == |o.sel| && |pre| < |base| && base[|pre|] <= a
    requires Copied(o, chunks, mid, was, From(pre, base), From(Tuple(Next(pre), a), top))
    requires Copied(o, chunks, buf, mid, From(Tuple(pre, a), base), From(Next(Tuple(pre, a)), top))
    ensures Copied(o, chunks, buf, was, From(pre, base), From(Tuple(Next(pre), a + 1), top))
  {
    hide *;
    NextTuple(pre, a);
    Extend(o, chunks, buf, mid, was, base, top, pre, Next(pre), a, a + 1);
  }

  /** When a cursor has reached the end of its axis, the whole axis is done. */
  lemma RowEnd(o: Selection, chunks: seq<seq<Item>>, buf: seq<Item>, was: seq<Item>, base: Index, top: Index,
               pre: Index, a: nat)
    requires o.Valid() && |base| == |top| == |o.sel| && |pre| < |base| && a == top[|pre|]
    requires Copied(o, chunks, buf, was, From(pre, base), From(Tuple(Next(pre), a), top))
    ensures Copied(o, chunks, buf, was, From(pre, base), From(Next(pre), top))
  {
    AxisEnd(o, chunks, buf, was, base, top, pre, Next(pre), a);
  }

  lemma AxisEnd(o: Selection, chunks: seq<seq<Item>>, buf: seq<Item>, was: seq<Item>, base: Index, top: Index,
                pre0: Index, pre1: Index, a: nat)
    requires o.Valid() && |base| == |top| == |o.sel| && |pre0| == |pre1| < |base| && a == top[|pre0|]
    requires Copied(o, chunks, buf, was, From(pre0, base), From(Tuple(pre1, a), top))
    ensures Copied(o, chunks, buf, was, From(pre0, base), From(pre1, top))
  {
    FromLast(pre1, a, top, a);
  }
}
