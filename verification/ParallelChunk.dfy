/**
 A regular chunk compressed by several workers (`t_blosc_do_job` with `blosc_c`, blosc/blosc2.c):
 whatever the schedule, it decompresses to the source, and it collapses to a chunk of zeros when the
 serial one does.
 */
module ParallelChunk {
  import opened Bytes
  import Streams = BlockStream
  import Chunks = ChunkStream
  import Jobs = ParallelJob
  import Order = VlReorder

  /** The job whose blocks are the streams of this chunk. */
  ghost predicate JobOf(p: Chunks.Plan, c: Streams.Codec, f: Chunks.Filters, src: seq<Byte>,
                        all: seq<seq<Streams.Stream>>, j: Jobs.Job) {
    && p.Valid() && f.Sound() && |src| == p.nbytes && 0 < j.initial
    && |all| == p.Blocks() == |j.outcomes| && Chunks.BlocksOf(p, c, f, src, all)
    && forall b :: 0 <= b < |all| ==> Streams.Fit(all[b]) && j.outcomes[b] == Jobs.Data(Streams.Flat(all[b]))
  }

  /** A block of the job lies in the output where its block start says. */
  lemma BlockFound(j: Jobs.Job, s: Jobs.State, log: seq<Jobs.Span>, b: nat, sts: seq<Streams.Stream>)
    requires Jobs.Complete(j, s, log) && b < j.Blocks() && 0 < j.initial
    requires Streams.Fit(sts) && j.outcomes[b] == Jobs.Data(Streams.Flat(sts))
    ensures |s.bstarts| == j.Blocks() && s.outputBytes <= |s.dest|
    ensures Chunks.BlockAt(sts, s.dest[..s.outputBytes], s.bstarts[b], s.outputBytes)
  {
    Order.CompleteBlock(j, s, log, b);
    assert |s.bstarts| == j.Blocks() && s.outputBytes <= |s.dest|;
    hide Jobs.Complete, Streams.Flat, Streams.Fit;
    Chunks.BlockAtCut(sts, s.dest, s.bstarts[b], s.outputBytes);
  }

  /** Every interleaving: a chunk whose workers all finish without giving up decompresses to the source. */
  lemma EveryScheduleDecodes(p: Chunks.Plan, c: Streams.Codec, f: Chunks.Filters, src: seq<Byte>,
                             all: seq<seq<Streams.Stream>>, j: Jobs.Job, run: seq<Jobs.State>, overhead: nat)
    requires JobOf(p, c, f, src, all, j) && Jobs.Run(j, run)
    requires Jobs.AllDone(run[|run| - 1]) && run[|run| - 1].giveup > 0
    ensures var s := run[|run| - 1];
            s.outputBytes <= |s.dest| && Chunks.Decodes(p, c, f, Chunks.Regular, overhead, s.dest[..s.outputBytes],
              s.bstarts, src)
  {
    var s := run[|run| - 1];
    var log := Jobs.ParallelCompression(j, run);
    assert |s.bstarts| == j.Blocks() && s.outputBytes <= |s.dest|;
    hide Jobs.Complete, Jobs.Run, Jobs.AllDone, Streams.Flat, Streams.Fit, Chunks.BlockStreams, Chunks.BlockDecodes,
         Chunks.BlockAt;
    forall b | 0 <= b < p.Blocks()
      ensures Chunks.BlockDecodes(p, c, f, Chunks.Regular, overhead, s.dest[..s.outputBytes], s.bstarts, src, b)
    {
      assert Chunks.BlockStreams(p, c, f, src, b, all[b]);
      BlockFound(j, s, log, b, all[b]);
      Chunks.RegularBlock(p, c, f, src, b, all[b], s.dest[..s.outputBytes], s.bstarts, overhead);
    }
  }

  lemma {:induction false} OffsetIsTotal(j: Jobs.Job, all: seq<seq<Streams.Stream>>, n: nat)
    requires n <= |all| == |j.outcomes| && forall b :: 0 <= b < |all| ==> Streams.Fit(all[b])
    requires forall b :: 0 <= b < |all| ==> j.outcomes[b] == Jobs.Data(Streams.Flat(all[b]))
    ensures Order.Offset(j, n) == j.initial + Chunks.TotalSize(all[..n])
  {
    if n == 0 {
      assert all[..0] == [];
    } else {
      OffsetIsTotal(j, all, n - 1);
      assert all[..n][..n - 1] == all[..n - 1];
      hide Streams.Flat, Streams.Fit;
    }
  }

  /** The size does not depend on the schedule, so the test for a chunk of zeros is exact for every schedule. */
  lemma EveryScheduleCollapses(p: Chunks.Plan, c: Streams.Codec, f: Chunks.Filters, src: seq<Byte>,
                               all: seq<seq<Streams.Stream>>, j: Jobs.Job, run: seq<Jobs.State>)
    requires JobOf(p, c, f, src, all, j) && Jobs.Run(j, run)
    requires Jobs.AllDone(run[|run| - 1]) && run[|run| - 1].giveup > 0
    ensures run[|run| - 1].outputBytes == j.initial + 4 * p.AllStreams() <==> Chunks.AllZero(p, f, src)
  {
    var s := run[|run| - 1];
    var log := Jobs.ParallelCompression(j, run);
    hide Jobs.Complete, Jobs.Run, Jobs.AllDone, Streams.Flat, Streams.Fit, Chunks.BlocksOf, Chunks.AllZero,
         Chunks.TotalSize;
    Order.SameEnd(j, s, log);
    OffsetIsTotal(j, all, |all|);
    assert all[..|all|] == all;
    Chunks.CollapseExact(p, c, f, src, all);
  }
}
