/**
 Parallel compression of one chunk: `t_blosc_do_job`, `claim_job_block` and `job_group_init`
 (blosc/blosc2.c, shared-pool backend).

 Workers claim blocks, compress them into a private buffer, reserve a span of the output
 under the job mutex and copy into it outside the mutex.  A state is what holds between two
 atomic actions; a section under the mutex is one action, and the unprotected copy is one
 action per byte, so every interleaving is a run.
 */
module ParallelJob {
  import opened Bytes
  import opened Counting

  /** What `blosc_c` returns for a block: its compressed bytes (none: not compressible) or an error. */
  datatype Outcome = Data(bytes: seq<Byte>) | Error(code: int)

  /**
   The job: the outcome of each block (each is compressed at most once in a run), the output
   position after header and block starts, and the size of the output.
   */
  datatype Job = Job(outcomes: seq<Outcome>, initial: nat, destsize: nat) {
    function Blocks(): nat { |outcomes| }

    predicate Valid() {
      && initial <= destsize
      && forall i :: 0 <= i < |outcomes| ==> outcomes[i].Error? ==> outcomes[i].code < 0
    }
  }

  const ERROR_MEMORY_ALLOC: int := -4

  /** Where a worker stands in `t_blosc_do_job`. */
  datatype Worker =
    | Starting
    | Claiming
    | Claimed(block: nat)
    | Compressing(block: nat)
    | Compressed(block: nat)
    | Copying(block: nat, start: nat, done: nat)
    | Leaving
    | Done
  {
    /** The block the worker is responsible for. */
    predicate Holds(b: nat) {
      (Claimed? || Compressing? || Compressed? || Copying?) && block == b
    }
  }

  datatype State = State(nextBlock: int, outputBytes: nat, giveup: int,
                         bstarts: seq<int>, dest: seq<Byte>, workers: seq<Worker>)

  ghost predicate Init(j: Job, s: State) {
    && j.Valid()
    && s.nextBlock == -1 && s.outputBytes == j.initial && s.giveup == 1
    && |s.bstarts| == j.Blocks() && |s.dest| == j.destsize
    && forall w :: 0 <= w < |s.workers| ==> s.workers[w] == Starting
  }

  // ---- the actions of worker w

  ghost predicate Start(s: State, t: State, w: nat)
    requires w < |s.workers|
  {
    && s.workers[w].Starting?
    && ((t == s.(workers := s.workers[w := Claiming]))
        // no memory for the temporaries
        || t == s.(giveup := ERROR_MEMORY_ALLOC, workers := s.workers[w := Leaving]))
  }

  ghost predicate Claim(s: State, t: State, w: nat)
    requires w < |s.workers|
  {
    && s.workers[w].Claiming?
    && 0 <= s.nextBlock + 1
    && t == s.(nextBlock := s.nextBlock + 1, workers := s.workers[w := Claimed(s.nextBlock + 1)])
  }

  ghost predicate Check(j: Job, s: State, t: State, w: nat)
    requires w < |s.workers|
  {
    && s.workers[w].Claimed?
    && var b := s.workers[w].block;
       t == s.(workers := s.workers[w := if b < j.Blocks() && s.giveup > 0 then Compressing(b) else Leaving])
  }

  ghost predicate Compress(s: State, t: State, w: nat)
    requires w < |s.workers|
  {
    && s.workers[w].Compressing?
    && t == s.(workers := s.workers[w := Compressed(s.workers[w].block)])
  }

  ghost predicate Reserve(j: Job, s: State, t: State, w: nat)
    requires w < |s.workers|
  {
    && s.workers[w].Compressed?
    && var b := s.workers[w].block;
       b < |j.outcomes| && b < |s.bstarts| &&
       match j.outcomes[b]
       case Error(code) =>
         t == s.(giveup := if s.giveup > 0 then code else s.giveup, workers := s.workers[w := Leaving])
       case Data(bytes) =>
         var marked := s.(bstarts := s.bstarts[b := s.outputBytes]);
         if |bytes| == 0 || s.outputBytes + |bytes| > j.destsize then
           t == marked.(giveup := 0, workers := s.workers[w := Leaving])
         else
           t == marked.(outputBytes := s.outputBytes + |bytes|,
                        workers := s.workers[w := Copying(b, s.outputBytes, 0)])
  }

  ghost predicate Copy(j: Job, s: State, t: State, w: nat)
    requires w < |s.workers|
  {
    && s.workers[w].Copying?
    && var (b, start, done) := (s.workers[w].block, s.workers[w].start, s.workers[w].done);
       b < |j.outcomes| && j.outcomes[b].Data? && done < |j.outcomes[b].bytes| && start + done < |s.dest| &&
       t == s.(dest := s.dest[start + done := j.outcomes[b].bytes[done]],
               workers := s.workers[w := Copying(b, start, done + 1)])
  }

  ghost predicate Finish(j: Job, s: State, t: State, w: nat)
    requires w < |s.workers|
  {
    && s.workers[w].Copying?
    && var b := s.workers[w].block;
       b < |j.outcomes| && j.outcomes[b].Data? && s.workers[w].done == |j.outcomes[b].bytes| &&
       t == s.(workers := s.workers[w := Claiming])
  }

  ghost predicate Leave(s: State, t: State, w: nat)
    requires w < |s.workers|
  {
    s.workers[w].Leaving? && t == s.(workers := s.workers[w := Done])
  }

  ghost predicate Step(j: Job, s: State, t: State, w: nat) {
    w < |s.workers| &&
    (Start(s, t, w) || Claim(s, t, w) || Check(j, s, t, w) || Compress(s, t, w) || Reserve(j, s, t, w)
     || Copy(j, s, t, w) || Finish(j, s, t, w) || Leave(s, t, w))
  }

  ghost predicate Next(j: Job, s: State, t: State) {
    exists w: nat :: Step(j, s, t, w)
  }

  ghost predicate Run(j: Job, run: seq<State>) {
    && run != [] && Init(j, run[0])
    && forall i :: 0 <= i < |run| - 1 ==> Next(j, run[i], run[i + 1])
  }

  // ---- bookkeeping for the proof

  /** A reserved span. */
  datatype Span = Span(block: nat, start: nat)

  /**
   `log` lists the spans in the order of reservation; for each claimed block, `owner` is the
   worker that claimed it and `slot` its place in the log, or -1.
   */
  datatype Book = Book(log: seq<Span>, owner: seq<nat>, slot: seq<int>)

  function Size(j: Job, b: nat): nat {
    if b < |j.outcomes| && j.outcomes[b].Data? then |j.outcomes[b].bytes| else 0
  }

  /** The spans of `log` lie one after the other, from `lo` up to `hi`. */
  ghost predicate Tiles(j: Job, log: seq<Span>, lo: nat, hi: nat) {
    && (if log == [] then lo == hi else log[0].start == lo)
    && (forall i :: 0 <= i < |log| ==> lo <= log[i].start && 0 < Size(j, log[i].block))
    && (forall i :: 0 <= i < |log| ==> End(j, log[i]) == NextStart(log, i, hi))
    && (forall i, k :: 0 <= i < k < |log| ==> End(j, log[i]) <= log[k].start)
  }

  function NextStart(log: seq<Span>, i: nat, hi: nat): nat {
    if i + 1 < |log| then log[i + 1].start else hi
  }

  function End(j: Job, span: Span): nat {
    span.start + Size(j, span.block)
  }

  ghost predicate Books(j: Job, s: State, k: Book) {
    && |k.owner| == |k.slot| == s.nextBlock + 1
    && (forall b :: 0 <= b < |k.owner| ==> k.owner[b] < |s.workers|)
    && (forall b :: 0 <= b < |k.slot| ==> k.slot[b] == -1 || (0 <= k.slot[b] < |k.log| && k.log[k.slot[b]].block == b))
    && (forall i :: 0 <= i < |k.log| ==> k.log[i].block < |k.slot| && k.slot[k.log[i].block] == i)
    && (forall i :: 0 <= i < |k.log| ==> k.log[i].block < |s.bstarts| && s.bstarts[k.log[i].block] == k.log[i].start)
  }

  /** A worker holds blocks that it claimed; its span, if reserved, is in the log. */
  ghost predicate WorkerInv(j: Job, s: State, k: Book, w: nat)
    requires w < |s.workers|
  {
    match s.workers[w]
    case Claimed(b) => b < |k.owner| && b < |k.slot| && k.owner[b] == w && k.slot[b] == -1
    case Compressing(b) => b < |k.owner| && b < |k.slot| && b < j.Blocks() && k.owner[b] == w && k.slot[b] == -1
    case Compressed(b) => b < |k.owner| && b < |k.slot| && b < j.Blocks() && k.owner[b] == w && k.slot[b] == -1
    case Copying(b, start, done) =>
      && b < |k.owner| && b < |k.slot| && k.owner[b] == w && 0 <= k.slot[b] < |k.log|
      && k.log[k.slot[b]] == Span(b, start) && done <= Size(j, b)
    case Leaving => s.giveup <= 0 || s.nextBlock >= j.Blocks()
    case Done => s.giveup <= 0 || s.nextBlock >= j.Blocks()
    case _ => true
  }

  /** How many bytes of a span have been copied: all of them once its worker has moved on. */
  function Copied(j: Job, s: State, k: Book, b: nat): nat
    requires b < |k.owner| && k.owner[b] < |s.workers|
  {
    var worker := s.workers[k.owner[b]];
    if worker.Copying? && worker.block == b then worker.done else Size(j, b)
  }

  ghost predicate SpanInv(j: Job, s: State, k: Book, i: nat)
    requires i < |k.log|
  {
    var span := k.log[i];
    && span.block < |j.outcomes| && j.outcomes[span.block].Data?
    && span.block < |k.owner| && k.owner[span.block] < |s.workers|
    && End(j, span) <= |s.dest|
    && var n := Copied(j, s, k, span.block);
       n <= Size(j, span.block) &&
       s.dest[span.start..span.start + n] == j.outcomes[span.block].bytes[..n]
  }

  /** No claimed block is lost while the job has not given up. */
  ghost predicate Covered(j: Job, s: State, k: Book, b: nat)
    requires b < |k.owner| && b < |k.slot|
  {
    k.slot[b] != -1 || (k.owner[b] < |s.workers| && s.workers[k.owner[b]].Holds(b))
  }

  ghost predicate Inv(j: Job, s: State, k: Book) {
    && j.Valid()
    && -1 <= s.nextBlock
    && |s.bstarts| == j.Blocks() && |s.dest| == j.destsize
    && j.initial <= s.outputBytes <= j.destsize
    && Tiles(j, k.log, j.initial, s.outputBytes)
    && Books(j, s, k)
    && (forall w :: 0 <= w < |s.workers| ==> WorkerInv(j, s, k, w))
    && (forall i :: 0 <= i < |k.log| ==> SpanInv(j, s, k, i))
    && (s.giveup > 0 ==> forall b :: 0 <= b < |k.owner| && b < j.Blocks() ==> Covered(j, s, k, b))
  }

  lemma InitInv(j: Job, s: State)
    requires Init(j, s)
    ensures Inv(j, s, Book([], [], []))
  {
  }

  // ---- every action keeps the invariant

  /** An action that only moves worker `w`, without touching what the others rely on. */
  lemma MoveKeeps(j: Job, s: State, t: State, k: Book, w: nat)
    requires Inv(j, s, k) && w < |s.workers|
    requires t == s.(workers := t.workers, giveup := t.giveup) && |t.workers| == |s.workers|
    requires forall v :: 0 <= v < |s.workers| && v != w ==> t.workers[v] == s.workers[v]
    requires s.giveup <= 0 ==> t.giveup <= 0
    requires WorkerInv(j, t, k, w)
    requires forall b: nat :: s.workers[w].Copying? && s.workers[w].block == b ==> s.workers[w].done == Size(j, b)
    requires !t.workers[w].Copying?
    requires t.giveup > 0 ==> forall b: nat ::
             s.workers[w].Holds(b) && b < j.Blocks() && b < |k.slot| && k.slot[b] == -1 ==> t.workers[w].Holds(b)
    ensures Inv(j, t, k)
  {
    hide WorkerInv, SpanInv, Covered, Tiles, Worker.Holds, Size;
    forall v | 0 <= v < |t.workers|
      ensures WorkerInv(j, t, k, v)
    {
      if v != w {
        assert WorkerInv(j, s, k, v);
        MoveOther(j, s, t, k, v);
      }
    }
    forall i | 0 <= i < |k.log|
      ensures SpanInv(j, t, k, i)
    {
      assert SpanInv(j, s, k, i);
      MoveSpan(j, s, t, k, w, i);
    }
    if t.giveup > 0 {
      forall b | 0 <= b < |k.owner| && b < j.Blocks()
        ensures Covered(j, t, k, b)
      {
        assert Covered(j, s, k, b);
        MoveCovers(j, s, t, k, w, b);
      }
    }
  }

  lemma MoveOther(j: Job, s: State, t: State, k: Book, v: nat)
    requires v < |s.workers| == |t.workers| && t.workers[v] == s.workers[v] && t.nextBlock == s.nextBlock
    requires (s.giveup <= 0 ==> t.giveup <= 0) && WorkerInv(j, s, k, v)
    ensures WorkerInv(j, t, k, v)
  {
  }

  lemma MoveSpan(j: Job, s: State, t: State, k: Book, w: nat, i: nat)
    requires i < |k.log| && SpanInv(j, s, k, i) && w < |s.workers| == |t.workers| && t.dest == s.dest
    requires forall v :: 0 <= v < |s.workers| && v != w ==> t.workers[v] == s.workers[v]
    requires forall b: nat :: s.workers[w].Copying? && s.workers[w].block == b ==> s.workers[w].done == Size(j, b)
    requires !t.workers[w].Copying?
    ensures SpanInv(j, t, k, i)
  {
    assert Copied(j, s, k, k.log[i].block) == Copied(j, t, k, k.log[i].block);
  }

  lemma MoveCovers(j: Job, s: State, t: State, k: Book, w: nat, b: nat)
    requires b < |k.owner| && b < |k.slot| && b < j.Blocks() && Covered(j, s, k, b) && w < |s.workers| == |t.workers|
    requires forall v :: 0 <= v < |s.workers| && v != w ==> t.workers[v] == s.workers[v]
    requires forall b: nat ::
             s.workers[w].Holds(b) && b < j.Blocks() && b < |k.slot| && k.slot[b] == -1 ==> t.workers[w].Holds(b)
    ensures Covered(j, t, k, b)
  {
  }

  lemma StartKeeps(j: Job, s: State, t: State, k: Book, w: nat)
    requires Inv(j, s, k) && w < |s.workers| && Start(s, t, w)
    ensures Inv(j, t, k)
  {
    MoveKeeps(j, s, t, k, w);
  }

  lemma CheckKeeps(j: Job, s: State, t: State, k: Book, w: nat)
    requires Inv(j, s, k) && w < |s.workers| && Check(j, s, t, w)
    ensures Inv(j, t, k)
  {
    assert WorkerInv(j, s, k, w);
    MoveKeeps(j, s, t, k, w);
  }

  lemma CompressKeeps(j: Job, s: State, t: State, k: Book, w: nat)
    requires Inv(j, s, k) && w < |s.workers| && Compress(s, t, w)
    ensures Inv(j, t, k)
  {
    assert WorkerInv(j, s, k, w);
    MoveKeeps(j, s, t, k, w);
  }

  lemma FinishKeeps(j: Job, s: State, t: State, k: Book, w: nat)
    requires Inv(j, s, k) && w < |s.workers| && Finish(j, s, t, w)
    ensures Inv(j, t, k)
  {
    assert WorkerInv(j, s, k, w);
    MoveKeeps(j, s, t, k, w);
  }

  lemma LeaveKeeps(j: Job, s: State, t: State, k: Book, w: nat)
    requires Inv(j, s, k) && w < |s.workers| && Leave(s, t, w)
    ensures Inv(j, t, k)
  {
    assert WorkerInv(j, s, k, w);
    MoveKeeps(j, s, t, k, w);
  }

  function Claimed'(k: Book, w: nat): Book {
    Book(k.log, k.owner + [w], k.slot + [-1])
  }

  lemma ClaimBooks(j: Job, s: State, t: State, k: Book, w: nat)
    requires w < |s.workers| && Claim(s, t, w) && Books(j, s, k)
    ensures Books(j, t, Claimed'(k, w))
  {
  }

  lemma ClaimWorker(j: Job, s: State, t: State, k: Book, w: nat, v: nat)
    requires w < |s.workers| && Claim(s, t, w) && v < |t.workers|
    requires |k.owner| == |k.slot| == s.nextBlock + 1 && WorkerInv(j, s, k, v)
    ensures WorkerInv(j, t, Claimed'(k, w), v)
  {
  }

  lemma ClaimSpan(j: Job, s: State, t: State, k: Book, w: nat, i: nat)
    requires w < |s.workers| && Claim(s, t, w) && i < |k.log|
    requires SpanInv(j, s, k, i)
    ensures SpanInv(j, t, Claimed'(k, w), i)
  {
  }

  /** A claim adds a block to the books, owned by the claimer. */
  lemma ClaimKeeps(j: Job, s: State, t: State, k: Book, w: nat)
    requires Inv(j, s, k) && w < |s.workers| && Claim(s, t, w)
    ensures Inv(j, t, Claimed'(k, w))
  {
    var k' := Claimed'(k, w);
    ClaimBooks(j, s, t, k, w);
    hide Tiles, WorkerInv, SpanInv;
    forall v | 0 <= v < |t.workers|
      ensures WorkerInv(j, t, k', v)
    {
      ClaimWorker(j, s, t, k, w, v);
    }
    forall i | 0 <= i < |k'.log|
      ensures SpanInv(j, t, k', i)
    {
      ClaimSpan(j, s, t, k, w, i);
    }
    if t.giveup > 0 {
      forall b | 0 <= b < |k'.owner| && b < j.Blocks()
        ensures Covered(j, t, k', b)
      {
        hide Books;
        assert b < |k.owner| ==> Covered(j, s, k, b);
      }
    }
  }

  /** A failed reservation gives up; only the start of a block that is not in the log may change. */
  lemma RefuseKeeps(j: Job, s: State, t: State, k: Book, w: nat)
    requires Inv(j, s, k) && w < |s.workers| && Reserve(j, s, t, w) && t.workers[w].Leaving?
    ensures Inv(j, t, k)
  {
    assert WorkerInv(j, s, k, w);
    RefuseBooks(j, s, t, k, w);
    assert t.giveup <= 0;
    hide Tiles, Books, SpanInv;
    forall v | 0 <= v < |t.workers|
      ensures WorkerInv(j, t, k, v)
    {
      assert WorkerInv(j, s, k, v);
    }
    forall i | 0 <= i < |k.log|
      ensures SpanInv(j, t, k, i)
    {
      SpanSame(j, s, t, k, w, i);
    }
  }

  lemma RefuseBooks(j: Job, s: State, t: State, k: Book, w: nat)
    requires Inv(j, s, k) && w < |s.workers| && Reserve(j, s, t, w) && t.workers[w].Leaving?
    ensures Books(j, t, k)
  {
    hide Tiles, SpanInv, Covered;
    assert WorkerInv(j, s, k, w);
    assert forall i :: 0 <= i < |k.log| ==> k.log[i].block != s.workers[w].block;
  }

  lemma SpanSame(j: Job, s: State, t: State, k: Book, w: nat, i: nat)
    requires i < |k.log| && SpanInv(j, s, k, i) && w < |s.workers|
    requires t.dest == s.dest && |t.workers| == |s.workers|
    requires forall v :: 0 <= v < |s.workers| && v != w ==> t.workers[v] == s.workers[v]
    requires !s.workers[w].Copying? && !t.workers[w].Copying?
    ensures SpanInv(j, t, k, i)
  {
  }

  function Reserved(k: Book, b: nat, start: nat): Book
    requires b < |k.slot|
  {
    Book(k.log + [Span(b, start)], k.owner, k.slot[b := |k.log|])
  }

  lemma TilesAppend(j: Job, log: seq<Span>, lo: nat, hi: nat, b: nat)
    requires Tiles(j, log, lo, hi) && lo <= hi && 0 < Size(j, b)
    ensures Tiles(j, log + [Span(b, hi)], lo, hi + Size(j, b))
  {
    var more := log + [Span(b, hi)];
    forall i | 0 <= i < |more|
      ensures End(j, more[i]) == NextStart(more, i, hi + Size(j, b))
    {
      if i < |log| {
        assert End(j, log[i]) == NextStart(log, i, hi);
      }
    }
    forall i, m | 0 <= i < m < |more|
      ensures End(j, more[i]) <= more[m].start
    {
      if m == |log| {
        LastEnds(j, log, lo, hi, i);
      }
    }
  }

  lemma {:induction false} LastEnds(j: Job, log: seq<Span>, lo: nat, hi: nat, i: nat)
    requires Tiles(j, log, lo, hi) && i < |log|
    ensures End(j, log[i]) <= hi
  {
    assert End(j, log[|log| - 1]) == NextStart(log, |log| - 1, hi);
    if i + 1 < |log| {
      assert End(j, log[i]) <= log[|log| - 1].start;
    }
  }

  lemma ReserveBooks(j: Job, s: State, t: State, k: Book, w: nat)
    requires w < |s.workers| && Reserve(j, s, t, w) && t.workers[w].Copying?
    requires Books(j, s, k) && WorkerInv(j, s, k, w)
    ensures s.workers[w].block < |k.slot| && Books(j, t, Reserved(k, s.workers[w].block, s.outputBytes))
  {
    assert forall i :: 0 <= i < |k.log| ==> k.log[i].block != s.workers[w].block;
  }

  lemma ReserveWorker(j: Job, s: State, t: State, k: Book, w: nat, v: nat)
    requires w < |s.workers| && Reserve(j, s, t, w) && t.workers[w].Copying?
    requires v < |t.workers| && s.workers[w].block < |k.slot|
    requires WorkerInv(j, s, k, w) && WorkerInv(j, s, k, v)
    ensures WorkerInv(j, t, Reserved(k, s.workers[w].block, s.outputBytes), v)
  {
  }

  lemma ReserveSpan(j: Job, s: State, t: State, k: Book, w: nat, i: nat)
    requires w < |s.workers| && Reserve(j, s, t, w) && t.workers[w].Copying?
    requires i <= |k.log| && s.workers[w].block < |k.slot| && |s.dest| == j.destsize
    requires Books(j, s, k) && WorkerInv(j, s, k, w)
    requires i < |k.log| ==> SpanInv(j, s, k, i)
    ensures SpanInv(j, t, Reserved(k, s.workers[w].block, s.outputBytes), i)
  {
    if i < |k.log| {
      assert k.log[i].block != s.workers[w].block;
      hide Books;
    } else {
      hide Books;
      assert t.dest[s.outputBytes..s.outputBytes] == [];
    }
  }

  lemma ReserveCovers(j: Job, s: State, t: State, k: Book, w: nat, c: nat)
    requires w < |s.workers| && Reserve(j, s, t, w) && t.workers[w].Copying?
    requires c < |k.owner| && c < |k.slot| && s.workers[w].block < |k.slot|
    requires Covered(j, s, k, c)
    ensures Covered(j, t, Reserved(k, s.workers[w].block, s.outputBytes), c)
  {
  }

  lemma ReserveShape(j: Job, s: State, t: State, k: Book, w: nat)
    requires w < |s.workers| && Reserve(j, s, t, w) && t.workers[w].Copying?
    requires Tiles(j, k.log, j.initial, s.outputBytes) && Books(j, s, k) && WorkerInv(j, s, k, w)
    requires j.initial <= s.outputBytes
    ensures t.nextBlock == s.nextBlock && |t.workers| == |s.workers| && |t.bstarts| == |s.bstarts| && t.dest == s.dest
    ensures t.giveup == s.giveup && j.initial <= t.outputBytes <= j.destsize
    ensures s.workers[w].block < |k.slot| == |k.owner|
    ensures var k' := Reserved(k, s.workers[w].block, s.outputBytes);
            Books(j, t, k') && Tiles(j, k'.log, j.initial, t.outputBytes)
  {
    TilesAppend(j, k.log, j.initial, s.outputBytes, s.workers[w].block);
    ReserveBooks(j, s, t, k, w);
    hide Tiles, Books;
  }

  /** A reservation appends a span to the log, right after the last one. */
  lemma ReserveFrom(j: Job, s: State, t: State, w: nat)
    requires w < |s.workers| && Reserve(j, s, t, w)
    ensures s.workers[w].Compressed?
  {
  }

  lemma ReserveKeeps(j: Job, s: State, t: State, k: Book, w: nat)
    requires Inv(j, s, k) && w < |s.workers| && Reserve(j, s, t, w) && t.workers[w].Copying?
    ensures s.workers[w].block < |k.slot| && Inv(j, t, Reserved(k, s.workers[w].block, s.outputBytes))
  {
    hide Tiles, Books, WorkerInv, SpanInv, Covered, Reserve, Job.Valid;
    ReserveFrom(j, s, t, w);
    ReserveShape(j, s, t, k, w);
    var k' := Reserved(k, s.workers[w].block, s.outputBytes);
    forall v | 0 <= v < |t.workers|
      ensures WorkerInv(j, t, k', v)
    {
      ReserveWorker(j, s, t, k, w, v);
    }
    forall i | 0 <= i < |k'.log|
      ensures SpanInv(j, t, k', i)
    {
      ReserveSpan(j, s, t, k, w, i);
    }
    if t.giveup > 0 {
      forall c | 0 <= c < |k'.owner| && c < j.Blocks()
        ensures Covered(j, t, k', c)
      {
        ReserveCovers(j, s, t, k, w, c);
      }
    }
  }

  /** A byte copied outside the mutex lands in the copier's own span and in no other. */
  lemma CopyKeeps(j: Job, s: State, t: State, k: Book, w: nat)
    requires Inv(j, s, k) && w < |s.workers| && Copy(j, s, t, w)
    ensures Inv(j, t, k)
  {
    assert WorkerInv(j, s, k, w);
    var (b, start, done) := (s.workers[w].block, s.workers[w].start, s.workers[w].done);
    var at := k.slot[b];
    forall v | 0 <= v < |t.workers|
      ensures WorkerInv(j, t, k, v)
    {
      assert WorkerInv(j, s, k, v);
    }
    forall i | 0 <= i < |k.log|
      ensures SpanInv(j, t, k, i)
    {
      CopySpan(j, s, t, k, w, i);
    }
    if t.giveup > 0 {
      forall c | 0 <= c < |k.owner| && c < j.Blocks()
        ensures Covered(j, t, k, c)
      {
        assert Covered(j, s, k, c);
      }
    }
  }

  lemma CopySpan(j: Job, s: State, t: State, k: Book, w: nat, i: nat)
    requires w < |s.workers| && Copy(j, s, t, w) && i < |k.log|
    requires Tiles(j, k.log, j.initial, s.outputBytes) && Books(j, s, k)
    requires WorkerInv(j, s, k, w) && SpanInv(j, s, k, i)
    ensures SpanInv(j, t, k, i)
  {
    hide SpanInv;
    var b := s.workers[w].block;
    if i == k.slot[b] {
      CopyOwnSpan(j, s, t, k, w, i);
    } else {
      Apart(j, k.log, j.initial, s.outputBytes, i, k.slot[b]);
      CopyOtherSpan(j, s, t, k, w, i);
    }
  }

  lemma CopyOwnSpan(j: Job, s: State, t: State, k: Book, w: nat, i: nat)
    requires w < |s.workers| && Copy(j, s, t, w) && i < |k.log| && SpanInv(j, s, k, i)
    requires k.log[i] == Span(s.workers[w].block, s.workers[w].start) && k.owner[k.log[i].block] == w
    ensures SpanInv(j, t, k, i)
  {
    CopyInside(s.dest, k.log[i].start, s.workers[w].done, j.outcomes[k.log[i].block].bytes);
  }

  lemma CopyOtherSpan(j: Job, s: State, t: State, k: Book, w: nat, i: nat)
    requires w < |s.workers| && Copy(j, s, t, w) && i < |k.log| && SpanInv(j, s, k, i)
    requires k.log[i].block != s.workers[w].block
    requires End(j, k.log[i]) <= s.workers[w].start
             || End(j, Span(s.workers[w].block, s.workers[w].start)) <= k.log[i].start
    ensures SpanInv(j, t, k, i)
  {
    var at, n := s.workers[w].start + s.workers[w].done, Copied(j, s, k, k.log[i].block);
    CopyOutside(s.dest, at, t.dest[at], k.log[i].start, n);
  }

  lemma CopyInside(dest: seq<Byte>, start: nat, done: nat, bytes: seq<Byte>)
    requires start + done < |dest| && done < |bytes| && dest[start..start + done] == bytes[..done]
    ensures dest[start + done := bytes[done]][start..start + done + 1] == bytes[..done + 1]
  {
    assert bytes[..done + 1] == bytes[..done] + [bytes[done]];
  }

  lemma CopyOutside(dest: seq<Byte>, at: nat, value: Byte, start: nat, n: nat)
    requires at < |dest| && start + n <= |dest| && !(start <= at < start + n)
    ensures dest[at := value][start..start + n] == dest[start..start + n]
  {
  }

  lemma Apart(j: Job, log: seq<Span>, lo: nat, hi: nat, i: nat, m: nat)
    requires Tiles(j, log, lo, hi) && i < |log| && m < |log| && i != m
    ensures End(j, log[i]) <= log[m].start || End(j, log[m]) <= log[i].start
  {
  }

  /** Every action of every worker keeps the invariant. */
  lemma StepKeeps(j: Job, s: State, t: State, k: Book, w: nat) returns (k': Book)
    requires Inv(j, s, k) && Step(j, s, t, w)
    ensures Inv(j, t, k')
  {
    hide Inv;
    k' := k;
    if Start(s, t, w) {
      StartKeeps(j, s, t, k, w);
    } else if Claim(s, t, w) {
      ClaimKeeps(j, s, t, k, w);
      k' := Claimed'(k, w);
    } else if Check(j, s, t, w) {
      CheckKeeps(j, s, t, k, w);
    } else if Compress(s, t, w) {
      CompressKeeps(j, s, t, k, w);
    } else if Reserve(j, s, t, w) {
      if t.workers[w].Copying? {
        ReserveKeeps(j, s, t, k, w);
        k' := Reserved(k, s.workers[w].block, s.outputBytes);
      } else {
        RefuseKeeps(j, s, t, k, w);
      }
    } else if Copy(j, s, t, w) {
      CopyKeeps(j, s, t, k, w);
    } else if Finish(j, s, t, w) {
      FinishKeeps(j, s, t, k, w);
    } else {
      LeaveKeeps(j, s, t, k, w);
    }
  }

  lemma {:induction false} RunInv(j: Job, run: seq<State>) returns (k: Book)
    requires Run(j, run)
    ensures Inv(j, run[|run| - 1], k)
    decreases |run|
  {
    if |run| == 1 {
      InitInv(j, run[0]);
      k := Book([], [], []);
    } else {
      var last := |run| - 1;
      var prefix := run[..last];
      assert forall i :: 0 <= i < |prefix| ==> prefix[i] == run[i];
      var before := RunInv(j, prefix);
      assert Next(j, run[last - 1], run[last - 1 + 1]);
      var w: nat :| Step(j, run[last - 1], run[last], w);
      k := StepKeeps(j, run[last - 1], run[last], before, w);
    }
  }

  /** Once the job has given up it stays so. */
  lemma {:induction false} GiveupStays(j: Job, run: seq<State>, i: nat, m: nat)
    requires Run(j, run) && i <= m < |run| && run[i].giveup <= 0
    ensures run[m].giveup <= 0
    decreases m
  {
    if i < m {
      GiveupStays(j, run, i, m - 1);
      assert Next(j, run[m - 1], run[m - 1 + 1]);
    }
  }

  ghost predicate AllDone(s: State) {
    |s.workers| > 0 && forall w :: 0 <= w < |s.workers| ==> s.workers[w] == Done
  }

  /** What a finished job leaves: one span for each block, tiling the output, with the block's bytes. */
  ghost predicate Complete(j: Job, s: State, log: seq<Span>) {
    && |s.bstarts| == |log| == j.Blocks() && |s.dest| == j.destsize
    && j.initial <= s.outputBytes <= j.destsize
    && Tiles(j, log, j.initial, s.outputBytes)
    && (forall b :: 0 <= b < j.Blocks() ==> j.outcomes[b].Data?)
    && (forall i :: 0 <= i < |log| ==> log[i].block < j.Blocks() && s.bstarts[log[i].block] == log[i].start)
    && (forall i, m :: 0 <= i < m < |log| ==> log[i].block != log[m].block)
    && (forall b :: 0 <= b < j.Blocks() ==> InLog(log, b))
    && (forall b :: 0 <= b < j.Blocks() ==> Written(j, s, b))
  }

  ghost predicate InLog(log: seq<Span>, b: nat) {
    exists i :: 0 <= i < |log| && log[i].block == b
  }

  ghost predicate Written(j: Job, s: State, b: nat)
    requires b < j.Blocks() && b < |s.bstarts| && j.outcomes[b].Data?
  {
    var bytes := j.outcomes[b].bytes;
    0 <= s.bstarts[b] && s.bstarts[b] + |bytes| <= |s.dest| &&
    s.dest[s.bstarts[b]..s.bstarts[b] + |bytes|] == bytes
  }

  /** Spans and blocks correspond one to one. */
  lemma OneSpanEach(log: seq<Span>, slot: seq<int>, n: nat)
    requires n <= |slot|
    requires forall i :: 0 <= i < |log| ==> log[i].block < n && slot[log[i].block] == i
    requires forall b :: 0 <= b < n ==> 0 <= slot[b] < |log| && log[slot[b]].block == b
    ensures |log| == n
  {
    var blocks := seq(|log|, i requires 0 <= i < |log| => log[i].block);
    assert Distinct(blocks) by {
      forall i, m | 0 <= i < m < |blocks| ensures blocks[i] != blocks[m] {
        assert slot[log[i].block] == i && slot[log[m].block] == m;
      }
    }
    DistinctBelow(blocks, n);
    var slots: seq<nat> := seq(n, b requires 0 <= b < n => slot[b]);
    assert Distinct(slots) by {
      forall b, c | 0 <= b < c < |slots| ensures slots[b] != slots[c] {
        assert log[slot[b]].block == b && log[slot[c]].block == c;
      }
    }
    DistinctBelow(slots, |log|);
  }

  /** With nothing left to do, the invariant says that the job is complete. */
  lemma DoneIsComplete(j: Job, s: State, k: Book)
    requires Inv(j, s, k) && AllDone(s) && s.giveup > 0
    ensures Complete(j, s, k.log)
  {
    assert WorkerInv(j, s, k, 0);
    forall b | 0 <= b < j.Blocks()
      ensures k.slot[b] != -1
    {
      assert Covered(j, s, k, b);
    }
    hide Tiles, Covered;
    forall i | 0 <= i < |k.log|
      ensures k.log[i].block < j.Blocks()
    {
      hide Books;
      assert SpanInv(j, s, k, i);
    }
    OneSpanEach(k.log, k.slot, j.Blocks());
    forall b | 0 <= b < j.Blocks()
      ensures j.outcomes[b].Data? && Written(j, s, b) && InLog(k.log, b)
    {
      SpanWritten(j, s, k, b);
      assert k.log[k.slot[b]].block == b;
    }
  }

  lemma SpanWritten(j: Job, s: State, k: Book, b: nat)
    requires Books(j, s, k) && AllDone(s) && |s.bstarts| == j.Blocks()
    requires b < j.Blocks() && b < |k.slot| && k.slot[b] != -1 && SpanInv(j, s, k, k.slot[b])
    ensures j.outcomes[b].Data? && Written(j, s, b)
  {
    var bytes := j.outcomes[b].bytes;
    assert bytes[..|bytes|] == bytes;
  }

  /** Every interleaving: a job whose workers all finish without giving up is complete. */
  lemma ParallelCompression(j: Job, run: seq<State>) returns (log: seq<Span>)
    requires Run(j, run)
    requires AllDone(run[|run| - 1]) && run[|run| - 1].giveup > 0
    ensures Complete(j, run[|run| - 1], log)
  {
    hide Inv, Complete;
    var k := RunInv(j, run);
    DoneIsComplete(j, run[|run| - 1], k);
    log := k.log;
  }

  /** Header, block starts and dictionary: what precedes the first span is never written by a copy. */
  lemma {:induction false} PrefixUntouched(j: Job, run: seq<State>, m: nat)
    requires Run(j, run) && m < |run|
    ensures |run[m].dest| == j.destsize && run[m].dest[..j.initial] == run[0].dest[..j.initial]
    decreases m
  {
    hide Inv, Step;
    if m > 0 {
      PrefixUntouched(j, run, m - 1);
      var prefix := run[..m];
      assert forall i :: 0 <= i < |prefix| ==> prefix[i] == run[i];
      var k := RunInv(j, prefix);
      assert Next(j, run[m - 1], run[m - 1 + 1]);
      var w: nat :| Step(j, run[m - 1], run[m], w);
      PrefixStep(j, run[m - 1], run[m], k, w);
    }
  }

  lemma PrefixStep(j: Job, s: State, t: State, k: Book, w: nat)
    requires Inv(j, s, k) && Step(j, s, t, w)
    ensures |t.dest| == |s.dest| && t.dest[..j.initial] == s.dest[..j.initial]
  {
    if Copy(j, s, t, w) {
      assert WorkerInv(j, s, k, w);
      hide Books, SpanInv, Covered;
      assert j.initial <= k.log[k.slot[s.workers[w].block]].start;
    }
  }
}
