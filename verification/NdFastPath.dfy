/**
 `nchunk_fastpath` (blosc/b2nd.c): when a slice is exactly one chunk and the blocks are laid
 out so that block-major order is row-major order, the chunk is exchanged with the buffer as it is.
 */
module NdFastPath {
  import opened Arith
  import opened NdIndex
  import opened NdGeometry

  /**
   The condition on the block shape: leading blocks of 1, then one axis that the blocks divide,
   then blocks as large as the chunk.
   */
  predicate RowMajorBlocks(chunk: Index, block: Index)
    requires |chunk| == |block|
  {
    chunk == [] || (block[0] > 0 && chunk[0] % block[0] == 0 &&
                    if block[0] == 1 then RowMajorBlocks(chunk[1..], block[1..]) else chunk[1..] == block[1..])
  }

  /** The position in block-major order of an item of the chunk. */
  function BlockMajor(item: Index, chunk: Index, block: Index): nat
    requires |item| == |chunk| == |block| && Positive(block)
  {
    Times(Ravel(Div(item, block), AllParts(chunk, block)), Volume(block)) + Ravel(Mod(item, block), block)
  }

  lemma {:induction false} OneBlock(item: Index, chunk: Index)
    requires InBox(item, chunk) && Positive(chunk)
    ensures Ravel(Div(item, chunk), AllParts(chunk, chunk)) == 0 && Mod(item, chunk) == item
    ensures Volume(AllParts(chunk, chunk)) == 1
  {
    var q, p := Div(item, chunk), AllParts(chunk, chunk);
    if chunk != [] {
      BoxCons(item, chunk);
      OneBlock(item[1..], chunk[1..]);
      assert q[1..] == Div(item[1..], chunk[1..]) && p[1..] == AllParts(chunk[1..], chunk[1..]);
      assert Mod(item, chunk)[1..] == Mod(item[1..], chunk[1..]);
      DivIsUnique(item[0], chunk[0], 0, item[0]);
      DivIsUnique(chunk[0], chunk[0], 1, 0);
      assert Mod(item, chunk) == [item[0]] + item[1..];
      assert item == [item[0]] + item[1..];
    }
  }

  /** The blocks of a chunk that they divide hold as many items as the chunk. */
  lemma {:induction false} WholeBlocks(chunk: Index, block: Index)
    requires |chunk| == |block| && Positive(block) && RowMajorBlocks(chunk, block) && Positive(chunk)
    ensures Times(Volume(AllParts(chunk, block)), Volume(block)) == Volume(chunk)
  {
    if chunk != [] {
      var p := AllParts(chunk, block);
      var c, k, cs, ks := chunk[0], block[0], chunk[1..], block[1..];
      assert p[0] == c / k && p[1..] == AllParts(cs, ks);
      assert c == c / k * k;
      if k == 1 {
        WholeBlocks(cs, ks);
        Regroup(c, 1, Volume(AllParts(cs, ks)), Volume(ks));
      } else {
        assert InBox(Zero(|cs|), cs);
        OneBlock(Zero(|cs|), cs);
        Regroup(c / k, k, 1, Volume(ks));
      }
    }
  }

  lemma Regroup(a: nat, b: nat, c: nat, d: nat)
    ensures (a * c) * (b * d) == (a * b) * (c * d)
  {
  }

  /** Under the condition, block-major order inside a chunk is row-major order. */
  lemma {:induction false} BlockMajorIsRowMajor(item: Index, chunk: Index, block: Index)
    requires |chunk| == |block| && Positive(block) && Positive(chunk) && RowMajorBlocks(chunk, block)
             && InBox(item, chunk)
    ensures BlockMajor(item, chunk, block) == Ravel(item, chunk)
  {
    if chunk != [] {
      BoxCons(item, chunk);
      var i, c, k, rest, cs, ks := item[0], chunk[0], block[0], item[1..], chunk[1..], block[1..];
      var q, p, m := Div(item, block), AllParts(chunk, block), Mod(item, block);
      assert q[0] == i / k && q[1..] == Div(rest, ks) && p[1..] == AllParts(cs, ks);
      assert m[0] == i % k && m[1..] == Mod(rest, ks);
      var vp, vk := Volume(p[1..]), Volume(ks);
      if k == 1 {
        BlockMajorIsRowMajor(rest, cs, ks);
        WholeBlocks(cs, ks);
        UnitAxis(i, vp, vk, Ravel(q[1..], p[1..]), Ravel(m[1..], ks));
      } else {
        OneBlock(rest, cs);
        SplitAxis(i, k, vk, Ravel(rest, cs));
      }
    }
  }

  lemma UnitAxis(i: nat, vp: nat, vk: nat, a: nat, b: nat)
    ensures (i * vp + a) * (1 * vk) + (0 * vk + b) == i * (vp * vk) + (a * vk + b)
  {
  }

  lemma SplitAxis(i: nat, k: nat, v: nat, r: nat)
    requires k > 0
    ensures (i / k * 1 + 0) * (k * v) + (i % k * v + r) == i * v + r
  {
  }

  /** The loop of `nchunk_fastpath` over the axes, with its counter `k`. */
  method CheckBlocks(chunk: Index, block: Index) returns (ok: bool)
    requires |chunk| == |block| && Positive(block)
    ensures ok == RowMajorBlocks(chunk, block)
  {
    var k := 0;
    for i := 0 to |chunk|
      invariant 0 <= k <= i
      invariant k == i ==> RowMajorBlocks(chunk, block) == RowMajorBlocks(chunk[i..], block[i..])
      invariant k < i ==> RowMajorBlocks(chunk, block) == (chunk[i..] == block[i..])
    {
      ghost var cs, ks := chunk[i..], block[i..];
      assert cs[1..] == chunk[i + 1..] && ks[1..] == block[i + 1..];
      assert cs == [chunk[i]] + cs[1..] && ks == [block[i]] + ks[1..];
      if chunk[i] % block[i] != 0 {
        assert k < i ==> chunk[i] != block[i];
        return false;
      }
      if i > k && chunk[i] != block[i] {
        return false;
      }
      if i == k && block[i] == 1 {
        k := k + 1;
      }
    }
    ok := true;
  }
}
