/**
 The lifetime of jobs and of the shared thread pools: `attach_shared_pool`,
 `release_thread_backend`, `shared_pool_worker`, `parallel_blosc`, `destroy_shared_pool` and
 `blosc2_destroy` (blosc/blosc2.c).  Each step is one section under a lock, or one action of a
 thread on its own data; the steps of all threads may come in any order.
 */
module SharedPool {
  import opened Bytes

  // ---- the state

  /** A worker thread, at its lock boundaries: waiting, running a job, done with the job but not yet counted, gone. */
  datatype Worker = Idle | Holding(job: nat) | Accounting | Exited

  /** A pool is found by attaching contexts; is about to be destroyed; has been told so; is freed. */
  datatype Phase = Listed | Unlisted | ShuttingDown | Freed

  datatype Pool = Pool(nthreads: nat, refs: int, activeJobs: int, queue: seq<nat>, workers: seq<Worker>, phase: Phase)

  /** A job on the stack of `parallel_blosc`, as long as `live`. */
  datatype Job = Job(live: bool, pending: int, completed: bool, pool: nat, ctx: nat)

  datatype Context = Context(nthreads: nat, pool: Option<nat>, epoch: int, busy: Option<nat>)

  datatype State = State(epoch: int, pools: seq<Pool>, jobs: seq<Job>, ctxs: seq<Context>)

  // ---- counting

  /** Workers between taking an entry from the queue and the accounting. */
  function Busy(workers: seq<Worker>): int {
    |workers| - multiset(workers)[Idle] - multiset(workers)[Exited]
  }

  /** Queue entries of a job and workers that hold it. */
  function Holders(p: Pool, job: nat): nat {
    multiset(p.queue)[job] + multiset(p.workers)[Holding(job)]
  }

  datatype Key = Key(pool: Option<nat>, epoch: int)

  function Keys(ctxs: seq<Context>): (r: seq<Key>)
    ensures |r| == |ctxs|
  {
    seq(|ctxs|, i requires 0 <= i < |ctxs| => Key(ctxs[i].pool, ctxs[i].epoch))
  }

  /** Contexts that use a pool of this epoch. */
  function Attached(ctxs: seq<Context>, pool: nat, epoch: int): nat {
    multiset(Keys(ctxs))[Key(Some(pool), epoch)]
  }

  // ---- the steps

  datatype Step =
    | NewContext(nthreads: nat)
    | Attach(ctx: nat)
    | Submit(ctx: nat)
    | SubmitFails(ctx: nat, entries: nat)
    | Dequeue(pool: nat, worker: nat)
    | Finish(pool: nat, worker: nat)
    | Account(pool: nat, worker: nat)
    | Return(ctx: nat)
    | Release(ctx: nat)
    | DropStale(ctx: nat)
    | DestroyAll
    | TellWorkers(pool: nat)
    | Exit(pool: nat, worker: nat)
    | Free(pool: nat)

  /** The context may use its pool: it has one, and no `blosc2_destroy` came since it was attached. */
  predicate Current(s: State, c: nat) {
    c < |s.ctxs| && s.ctxs[c].pool.Some? && s.ctxs[c].epoch == s.epoch
  }

  predicate Has(s: State, p: nat, w: nat) {
    p < |s.pools| && w < |s.pools[p].workers|
  }

  predicate Enabled(s: State, step: Step) {
    match step
    case NewContext(n) => n > 0
    case Attach(c) => c < |s.ctxs| && s.ctxs[c].pool.None? && s.ctxs[c].busy.None?
    case Submit(c) => Current(s, c) && s.ctxs[c].busy.None? && s.ctxs[c].pool.value < |s.pools|
    case SubmitFails(c, _) => Current(s, c) && s.ctxs[c].busy.None? && s.ctxs[c].pool.value < |s.pools|
    case Dequeue(p, w) => Has(s, p, w) && s.pools[p].workers[w] == Idle && s.pools[p].queue != [] &&
                          (s.pools[p].phase == Listed || s.pools[p].phase == Unlisted)
    case Finish(p, w) => Has(s, p, w) && s.pools[p].workers[w].Holding? && s.pools[p].workers[w].job < |s.jobs|
    case Account(p, w) => Has(s, p, w) && s.pools[p].workers[w] == Accounting
    case Return(c) =>
      c < |s.ctxs| && s.ctxs[c].busy.Some? && s.ctxs[c].busy.value < |s.jobs| && s.jobs[s.ctxs[c].busy.value].completed
    case Release(c) => Current(s, c) && s.ctxs[c].busy.None? && s.ctxs[c].pool.value < |s.pools|
    case DropStale(c) => c < |s.ctxs| && s.ctxs[c].pool.Some? && s.ctxs[c].epoch != s.epoch && s.ctxs[c].busy.None?
    case DestroyAll => forall c :: 0 <= c < |s.ctxs| ==> s.ctxs[c].busy.None?
    case TellWorkers(p) => p < |s.pools| && s.pools[p].phase == Unlisted
    case Exit(p, w) => Has(s, p, w) && s.pools[p].workers[w] == Idle && s.pools[p].phase == ShuttingDown
    case Free(p) => p < |s.pools| && s.pools[p].phase == ShuttingDown &&
                    forall w :: 0 <= w < |s.pools[p].workers| ==> s.pools[p].workers[w] == Exited
  }

  /** `find_shared_pool_locked`: a listed pool with this number of threads, or the length of the list. */
  function Find(pools: seq<Pool>, nthreads: nat): (p: nat)
    ensures p <= |pools| && (p < |pools| ==> pools[p].phase == Listed && pools[p].nthreads == nthreads)
  {
    if pools == [] then 0
    else if pools[|pools| - 1].phase == Listed && pools[|pools| - 1].nthreads == nthreads then |pools| - 1
    else
      var p := Find(pools[..|pools| - 1], nthreads);
      if p < |pools| - 1 then p else |pools|
  }

  /** `create_shared_pool`. */
  function NewPool(nthreads: nat): Pool {
    Pool(nthreads, 0, 0, [], seq(nthreads, _ => Idle), Listed)
  }

  /** `n` entries for a job. */
  function Entries(job: nat, n: nat): (r: seq<nat>)
    ensures |r| == n && forall i :: 0 <= i < n ==> r[i] == job
  {
    seq(n, _ => job)
  }

  /** The queue without the entries of a job. */
  function Drain(queue: seq<nat>, job: nat): seq<nat> {
    if queue == [] then []
    else if queue[0] == job then Drain(queue[1..], job) else [queue[0]] + Drain(queue[1..], job)
  }

  function SetPool(s: State, p: nat, pool: Pool): State
    requires p < |s.pools|
  {
    s.(pools := s.pools[p := pool])
  }

  function SetWorker(s: State, p: nat, w: nat, x: Worker): State
    requires Has(s, p, w)
  {
    SetPool(s, p, s.pools[p].(workers := s.pools[p].workers[w := x]))
  }

  function AttachTo(s: State, c: nat, p: nat): State
    requires c < |s.ctxs| && p < |s.pools|
  {
    var t := SetPool(s, p, s.pools[p].(refs := s.pools[p].refs + 1));
    t.(ctxs := s.ctxs[c := s.ctxs[c].(pool := Some(p), epoch := s.epoch)])
  }

  function Detached(s: State, c: nat): State
    requires c < |s.ctxs|
  {
    s.(ctxs := s.ctxs[c := s.ctxs[c].(pool := None)])
  }

  function Apply(s: State, step: Step): State
    requires Enabled(s, step)
  {
    match step
    case NewContext(n) => s.(ctxs := s.ctxs + [Context(n, None, 0, None)])
    case Attach(c) =>
      var p := Find(s.pools, s.ctxs[c].nthreads);
      if p < |s.pools| then AttachTo(s, c, p)
      else AttachTo(s.(pools := s.pools + [NewPool(s.ctxs[c].nthreads)]), c, p)
    case Submit(c) =>
      var p, j := s.ctxs[c].pool.value, |s.jobs|;
      var pool, n := s.pools[p], s.ctxs[c].nthreads;
      var t := SetPool(s, p, pool.(queue := pool.queue + Entries(j, n), activeJobs := pool.activeJobs + n));
      t.(jobs := s.jobs + [Job(true, n, false, p, c)], ctxs := s.ctxs[c := s.ctxs[c].(busy := Some(j))])
    case SubmitFails(c, k) =>
      var p, j := s.ctxs[c].pool.value, |s.jobs|;
      var pool := s.pools[p];
      var queue := Drain(pool.queue + Entries(j, k), j);
      SetPool(s, p, pool.(queue := queue, activeJobs := pool.activeJobs + k - (|pool.queue| + k - |queue|)))
    case Dequeue(p, w) =>
      var pool := s.pools[p];
      SetPool(s, p, pool.(queue := pool.queue[1..], workers := pool.workers[w := Holding(pool.queue[0])]))
    case Finish(p, w) =>
      var j := s.pools[p].workers[w].job;
      var n := s.jobs[j].pending - 1;
      var t := SetWorker(s, p, w, Accounting);
      t.(jobs := s.jobs[j := s.jobs[j].(pending := n, completed := s.jobs[j].completed || n == 0)])
    case Account(p, w) =>
      var pool := s.pools[p];
      SetPool(s, p, pool.(workers := pool.workers[w := Idle], activeJobs := pool.activeJobs - 1))
    case Return(c) =>
      var j := s.ctxs[c].busy.value;
      s.(jobs := s.jobs[j := s.jobs[j].(live := false)], ctxs := s.ctxs[c := s.ctxs[c].(busy := None)])
    case Release(c) =>
      var p := s.ctxs[c].pool.value;
      var pool := s.pools[p].(refs := s.pools[p].refs - 1);
      var idle := pool.refs == 0 && pool.activeJobs == 0 && pool.queue == [];
      SetPool(Detached(s, c), p, if idle then pool.(phase := Unlisted) else pool)
    case DropStale(c) => Detached(s, c)
    case DestroyAll => s.(epoch := s.epoch + 1, pools := Closed(s.pools))
    case TellWorkers(p) => SetPool(s, p, s.pools[p].(phase := ShuttingDown))
    case Exit(p, w) => SetWorker(s, p, w, Exited)
    case Free(p) => SetPool(s, p, s.pools[p].(phase := Freed))
  }

  /** `blosc2_destroy` takes all pools off the list. */
  function Closed(pools: seq<Pool>): (r: seq<Pool>)
    ensures |r| == |pools|
    ensures forall p ::
            0 <= p < |pools| ==> r[p] == if pools[p].phase == Listed then pools[p].(phase := Unlisted) else pools[p]
  {
    seq(|pools|, p requires 0 <= p < |pools| => if pools[p].phase == Listed then pools[p].(phase := Unlisted)
      else pools[p])
  }

  // ---- the invariant

  /** The accounting of one pool. */
  ghost predicate PoolOk(p: Pool) {
    && p.nthreads > 0
    && p.activeJobs == |p.queue| + Busy(p.workers)
    && (p.phase != Listed ==> p.queue == [] && forall w :: 0 <= w < |p.workers| ==> !p.workers[w].Holding?)
    && (p.phase == Listed || p.phase == Unlisted ==> forall w :: 0 <= w < |p.workers| ==> p.workers[w] != Exited)
    && (p.phase == Freed ==> forall w :: 0 <= w < |p.workers| ==> p.workers[w] == Exited)
  }

  /** The entries and workers of pool `p` refer to live jobs of that pool. */
  ghost predicate EntriesOk(jobs: seq<Job>, pool: Pool, p: nat) {
    && (forall k :: 0 <= k < |pool.queue| ==> LiveIn(jobs, pool.queue[k], p))
    && (forall w :: 0 <= w < |pool.workers| && pool.workers[w].Holding? ==> LiveIn(jobs, pool.workers[w].job, p))
  }

  ghost predicate LiveIn(jobs: seq<Job>, j: nat, p: nat) {
    j < |jobs| && jobs[j].live && jobs[j].pool == p
  }

  /** The accounting of one job. */
  ghost predicate JobOk(s: State, j: nat)
    requires j < |s.jobs|
  {
    var job := s.jobs[j];
    job.live ==>
      && job.pool < |s.pools| && job.pending == Holders(s.pools[job.pool], j) && (job.completed <==> job.pending == 0)
      && job.ctx < |s.ctxs| && s.ctxs[job.ctx].busy == Some(j)
  }

  ghost predicate CtxOk(s: State, c: nat)
    requires c < |s.ctxs|
  {
    var x := s.ctxs[c];
    && x.nthreads > 0 && x.epoch <= s.epoch
    && (x.pool.Some? && x.epoch == s.epoch ==>
          x.pool.value < |s.pools| && s.pools[x.pool.value].phase == Listed
            && s.pools[x.pool.value].nthreads == x.nthreads)
    && (x.busy.Some? ==>
          x.busy.value < |s.jobs| && s.jobs[x.busy.value].live && s.jobs[x.busy.value].ctx == c &&
          x.pool == Some(s.jobs[x.busy.value].pool) && x.epoch == s.epoch)
  }

  /** The reference count of a listed pool is the number of contexts that use it. */
  ghost predicate RefsOk(s: State, p: nat)
    requires p < |s.pools|
  {
    s.pools[p].phase == Listed ==> s.pools[p].refs == Attached(s.ctxs, p, s.epoch)
  }

  ghost predicate Inv(s: State) {
    && 0 <= s.epoch
    && (forall p :: 0 <= p < |s.pools| ==> PoolOk(s.pools[p]))
    && (forall p :: 0 <= p < |s.pools| ==> EntriesOk(s.jobs, s.pools[p], p))
    && (forall p :: 0 <= p < |s.pools| ==> RefsOk(s, p))
    && (forall j :: 0 <= j < |s.jobs| ==> JobOk(s, j))
    && (forall c :: 0 <= c < |s.ctxs| ==> CtxOk(s, c))
  }

  // ---- counting lemmas

  lemma {:induction false} TwoKinds(workers: seq<Worker>)
    ensures multiset(workers)[Idle] + multiset(workers)[Exited] <= |workers|
    ensures multiset(workers)[Idle] + multiset(workers)[Exited] == |workers| ==>
              forall w :: 0 <= w < |workers| ==> workers[w] == Idle || workers[w] == Exited
  {
    if workers != [] {
      var k := |workers| - 1;
      assert workers == workers[..k] + [workers[k]];
      TwoKinds(workers[..k]);
    }
  }

  /** No busy worker: all wait or are gone. */
  lemma NoneBusy(workers: seq<Worker>)
    requires Busy(workers) == 0
    ensures forall w :: 0 <= w < |workers| ==> workers[w] == Idle || workers[w] == Exited
  {
    TwoKinds(workers);
  }

  /** When one worker changes, the numbers change accordingly. */
  lemma OneWorker(workers: seq<Worker>, w: nat, x: Worker)
    requires w < |workers|
    ensures multiset(workers[w := x]) == multiset(workers) - multiset{workers[w]} + multiset{x}
    ensures workers[w] in multiset(workers)
  {
  }

  lemma FreshWorkers(n: nat)
    ensures Busy(seq(n, _ => Idle)) == 0
  {
    var ws: seq<Worker> := seq(n, _ => Idle);
    AllSame(ws, Idle);
    AllSame(ws, Idle);
  }

  lemma {:induction false} AllSame(ws: seq<Worker>, x: Worker)
    requires forall i :: 0 <= i < |ws| ==> ws[i] == x
    ensures multiset(ws)[x] == |ws| && forall y :: y != x ==> multiset(ws)[y] == 0
  {
    if ws != [] {
      var k := |ws| - 1;
      assert ws == ws[..k] + [ws[k]];
      AllSame(ws[..k], x);
    }
  }

  lemma {:induction false} CountEntries(job: nat, n: nat)
    ensures multiset(Entries(job, n))[job] == n && forall k :: k != job ==> multiset(Entries(job, n))[k] == 0
  {
    if n > 0 {
      CountEntries(job, n - 1);
      assert Entries(job, n) == Entries(job, n - 1) + [job];
    }
  }

  /** Draining the entries of a job that is not in the queue otherwise gives the queue back. */
  lemma {:induction false} DrainRestores(queue: seq<nat>, job: nat, k: nat)
    requires forall i :: 0 <= i < |queue| ==> queue[i] != job
    ensures Drain(queue + Entries(job, k), job) == queue
    decreases |queue|, k
  {
    var all := queue + Entries(job, k);
    if queue == [] {
      if k > 0 {
        assert all[1..] == [] + Entries(job, k - 1);
        DrainRestores([], job, k - 1);
      }
    } else {
      assert all[1..] == queue[1..] + Entries(job, k);
      DrainRestores(queue[1..], job, k);
      assert queue == [queue[0]] + queue[1..];
    }
  }

  lemma KeysUpdate(ctxs: seq<Context>, c: nat, x: Context)
    requires c < |ctxs|
    ensures Keys(ctxs[c := x]) == Keys(ctxs)[c := Key(x.pool, x.epoch)]
    ensures Keys(ctxs)[c] == Key(ctxs[c].pool, ctxs[c].epoch)
  {
  }

  /** When one context changes its pool or epoch, the numbers change accordingly. */
  lemma AttachedUpdate(ctxs: seq<Context>, c: nat, x: Context, p: nat, e: int)
    requires c < |ctxs|
    ensures Attached(ctxs[c := x], p, e) ==
            Attached(ctxs, p, e) - (if ctxs[c].pool == Some(p) && ctxs[c].epoch == e then 1 else 0)
                                 + (if x.pool == Some(p) && x.epoch == e then 1 else 0)
  {
    KeysUpdate(ctxs, c, x);
    var keys := Keys(ctxs);
    hide Keys;
    assert multiset(keys[c := Key(x.pool, x.epoch)]) == multiset(keys) - multiset{keys[c]}
           + multiset{Key(x.pool, x.epoch)};
    assert keys[c] in multiset(keys);
  }

  lemma AttachedOne(ctxs: seq<Context>, c: nat)
    requires c < |ctxs| && ctxs[c].pool.Some?
    ensures Attached(ctxs, ctxs[c].pool.value, ctxs[c].epoch) >= 1
  {
    var keys := Keys(ctxs);
    assert keys[c] == Key(ctxs[c].pool, ctxs[c].epoch);
    assert keys[c] in multiset(keys);
  }

  lemma AttachedMore(ctxs: seq<Context>, x: Context, p: nat, e: int)
    requires x.pool.None?
    ensures Attached(ctxs + [x], p, e) == Attached(ctxs, p, e)
  {
    assert Keys(ctxs + [x]) == Keys(ctxs) + [Key(x.pool, x.epoch)];
  }

  /** No context uses a pool that does not exist yet. */
  lemma {:induction false} AttachedNone(ctxs: seq<Context>, p: nat, e: int)
    requires forall c :: 0 <= c < |ctxs| ==> ctxs[c].pool != Some(p) || ctxs[c].epoch != e
    ensures Attached(ctxs, p, e) == 0
  {
    var keys := Keys(ctxs);
    forall c | 0 <= c < |keys|
      ensures keys[c] != Key(Some(p), e)
    {
      assert keys[c] == Key(ctxs[c].pool, ctxs[c].epoch);
    }
    assert Key(Some(p), e) !in keys;
  }

  // ---- every step keeps the invariant: workers

  /** A step that changes one pool and nothing that contexts see of it. */
  lemma PoolChanges(s: State, p: nat, pool: Pool)
    requires Inv(s) && p < |s.pools| && PoolOk(pool) && EntriesOk(s.jobs, pool, p)
    requires pool.phase == s.pools[p].phase || (s.pools[p].phase != Listed && pool.phase != Listed)
    requires pool.refs == s.pools[p].refs && pool.nthreads == s.pools[p].nthreads
    requires forall j ::
             0 <= j < |s.jobs| && s.jobs[j].live && s.jobs[j].pool == p ==> Holders(pool, j) == Holders(s.pools[p], j)
    ensures Inv(SetPool(s, p, pool))
  {
    var t := SetPool(s, p, pool);
    hide PoolOk, EntriesOk, Holders, Attached;
    forall j | 0 <= j < |t.jobs|
      ensures JobOk(t, j)
    {
      assert JobOk(s, j);
    }
    forall c | 0 <= c < |t.ctxs|
      ensures CtxOk(t, c)
    {
      assert CtxOk(s, c);
    }
    forall q | 0 <= q < |t.pools|
      ensures RefsOk(t, q)
    {
      assert RefsOk(s, q);
    }
  }

  /** Taking an entry from the queue, seen from the pool. */
  lemma Taken(jobs: seq<Job>, pool: Pool, p: nat, w: nat)
    requires PoolOk(pool) && EntriesOk(jobs, pool, p) && w < |pool.workers| && pool.workers[w] == Idle
             && pool.queue != []
    ensures var t := pool.(queue := pool.queue[1..], workers := pool.workers[w := Holding(pool.queue[0])]);
            PoolOk(t) && EntriesOk(jobs, t, p) && forall k: nat :: Holders(t, k) == Holders(pool, k)
  {
    var j := pool.queue[0];
    OneWorker(pool.workers, w, Holding(j));
    assert pool.queue == [j] + pool.queue[1..];
    assert multiset(pool.queue) == multiset{j} + multiset(pool.queue[1..]);
  }

  lemma KeepDequeue(s: State, p: nat, w: nat)
    requires Inv(s) && Enabled(s, Dequeue(p, w))
    ensures Inv(Apply(s, Dequeue(p, w)))
  {
    var pool := s.pools[p];
    hide PoolOk, EntriesOk, Holders, RefsOk, JobOk, CtxOk;
    Taken(s.jobs, pool, p, w);
    PoolChanges(s, p, pool.(queue := pool.queue[1..], workers := pool.workers[w := Holding(pool.queue[0])]));
  }

  /** The accounting, seen from the pool. */
  lemma Accounted(jobs: seq<Job>, pool: Pool, p: nat, w: nat)
    requires PoolOk(pool) && EntriesOk(jobs, pool, p) && w < |pool.workers| && pool.workers[w] == Accounting
    ensures var t := pool.(workers := pool.workers[w := Idle], activeJobs := pool.activeJobs - 1);
            PoolOk(t) && EntriesOk(jobs, t, p) && forall k: nat :: Holders(t, k) == Holders(pool, k)
  {
    OneWorker(pool.workers, w, Idle);
  }

  lemma KeepAccount(s: State, p: nat, w: nat)
    requires Inv(s) && Enabled(s, Account(p, w))
    ensures Inv(Apply(s, Account(p, w)))
  {
    var pool := s.pools[p];
    hide PoolOk, EntriesOk, Holders, RefsOk, JobOk, CtxOk;
    Accounted(s.jobs, pool, p, w);
    PoolChanges(s, p, pool.(workers := pool.workers[w := Idle], activeJobs := pool.activeJobs - 1));
  }

  lemma KeepTell(s: State, p: nat)
    requires Inv(s) && Enabled(s, TellWorkers(p))
    ensures Inv(Apply(s, TellWorkers(p)))
  {
    var pool := s.pools[p];
    assert PoolOk(pool) && EntriesOk(s.jobs, pool, p);
    hide Inv;
    PoolChanges(s, p, pool.(phase := ShuttingDown));
  }

  lemma KeepExit(s: State, p: nat, w: nat)
    requires Inv(s) && Enabled(s, Exit(p, w))
    ensures Inv(Apply(s, Exit(p, w)))
  {
    var pool := s.pools[p];
    var pool' := pool.(workers := pool.workers[w := Exited]);
    assert PoolOk(pool) && EntriesOk(s.jobs, pool, p);
    hide Inv;
    OneWorker(pool.workers, w, Exited);
    assert forall k: nat :: Holders(pool', k) == Holders(pool, k);
    PoolChanges(s, p, pool');
  }

  lemma KeepFree(s: State, p: nat)
    requires Inv(s) && Enabled(s, Free(p))
    ensures Inv(Apply(s, Free(p)))
  {
    var pool := s.pools[p];
    assert PoolOk(pool) && EntriesOk(s.jobs, pool, p);
    hide Inv;
    PoolChanges(s, p, pool.(phase := Freed));
  }

  lemma KeepSubmitFails(s: State, c: nat, k: nat)
    requires Inv(s) && Enabled(s, SubmitFails(c, k))
    ensures Apply(s, SubmitFails(c, k)) == s
  {
    var p, j := s.ctxs[c].pool.value, |s.jobs|;
    var pool := s.pools[p];
    assert EntriesOk(s.jobs, pool, p);
    hide Inv;
    DrainRestores(pool.queue, j, k);
    assert s.pools[p := pool] == s.pools;
  }

  /** Giving up a job, seen from the pool. */
  lemma Finished(pool: Pool, w: nat)
    requires PoolOk(pool) && w < |pool.workers| && pool.workers[w].Holding?
    ensures var j, t := pool.workers[w].job, pool.(workers := pool.workers[w := Accounting]);
            && PoolOk(t) && Holders(t, j) == Holders(pool, j) - 1
            && forall k: nat :: k != j ==> Holders(t, k) == Holders(pool, k)
  {
    OneWorker(pool.workers, w, Accounting);
  }

  lemma KeepFinish(s: State, p: nat, w: nat)
    requires Inv(s) && Enabled(s, Finish(p, w))
    ensures Inv(Apply(s, Finish(p, w)))
  {
    var t := Apply(s, Finish(p, w));
    var pool, pool' := s.pools[p], t.pools[p];
    var j := pool.workers[w].job;
    assert PoolOk(pool) && EntriesOk(s.jobs, pool, p);
    Finished(pool, w);
    assert LiveIn(s.jobs, j, p) && JobOk(s, j);
    hide PoolOk, Holders, Attached, EntriesOk, RefsOk, CtxOk, JobOk, Apply, Enabled, Has;
    FinishPools(s, t, p, w, j);
    FinishRest(s, t, p, j);
  }

  lemma FinishPools(s: State, t: State, p: nat, w: nat, j: nat)
    requires Inv(s) && Has(s, p, w) && s.pools[p].workers[w] == Holding(j) && j < |s.jobs|
    requires t.epoch == s.epoch && t.ctxs == s.ctxs && |t.jobs| == |s.jobs| && |t.pools| == |s.pools|
    requires forall k :: 0 <= k < |s.jobs| ==> t.jobs[k].live == s.jobs[k].live && t.jobs[k].pool == s.jobs[k].pool
    requires t.pools == s.pools[p := s.pools[p].(workers := s.pools[p].workers[w := Accounting])] && PoolOk(t.pools[p])
    ensures forall q :: 0 <= q < |t.pools| ==> PoolOk(t.pools[q]) && RefsOk(t, q) && EntriesOk(t.jobs, t.pools[q], q)
  {
    hide PoolOk, Attached, CtxOk, JobOk;
    forall q | 0 <= q < |t.pools|
      ensures PoolOk(t.pools[q]) && RefsOk(t, q) && EntriesOk(t.jobs, t.pools[q], q)
    {
      assert PoolOk(s.pools[q]) && RefsOk(s, q) && EntriesOk(s.jobs, s.pools[q], q);
    }
  }

  lemma FinishRest(s: State, t: State, p: nat, j: nat)
    requires Inv(s) && p < |s.pools| && j < |s.jobs| && s.jobs[j].live && s.jobs[j].pool == p && JobOk(s, j)
    requires t.epoch == s.epoch && t.ctxs == s.ctxs && |t.pools| == |s.pools|
    requires var n := s.jobs[j].pending - 1;
             t.jobs == s.jobs[j := s.jobs[j].(pending := n, completed := s.jobs[j].completed || n == 0)]
    requires forall q ::
             0 <= q < |s.pools| ==> t.pools[q].phase == s.pools[q].phase && t.pools[q].nthreads == s.pools[q].nthreads
    requires forall q :: 0 <= q < |s.pools| && q != p ==> t.pools[q] == s.pools[q]
    requires Holders(t.pools[p], j) == Holders(s.pools[p], j) - 1
    requires forall k: nat :: k != j ==> Holders(t.pools[p], k) == Holders(s.pools[p], k)
    ensures (forall c :: 0 <= c < |t.ctxs| ==> CtxOk(t, c)) && (forall k :: 0 <= k < |t.jobs| ==> JobOk(t, k))
  {
    hide PoolOk, Holders, EntriesOk, RefsOk;
    forall k | 0 <= k < |t.jobs|
      ensures JobOk(t, k)
    {
      assert JobOk(s, k);
    }
    forall c | 0 <= c < |t.ctxs|
      ensures CtxOk(t, c)
    {
      assert CtxOk(s, c);
    }
  }

  // ---- contexts

  lemma KeepNewContext(s: State, n: nat)
    requires Inv(s) && Enabled(s, NewContext(n))
    ensures Inv(Apply(s, NewContext(n)))
  {
    var t := Apply(s, NewContext(n));
    hide PoolOk, EntriesOk, Holders, Attached;
    forall p | 0 <= p < |t.pools|
      ensures RefsOk(t, p)
    {
      assert RefsOk(s, p);
      AttachedMore(s.ctxs, Context(n, None, 0, None), p, s.epoch);
    }
    forall c | 0 <= c < |t.ctxs|
      ensures CtxOk(t, c)
    {
      assert c < |s.ctxs| ==> CtxOk(s, c) && t.ctxs[c] == s.ctxs[c];
    }
    forall j | 0 <= j < |t.jobs|
      ensures JobOk(t, j)
    {
      assert JobOk(s, j);
    }
  }

  /** A new pool in the list changes nothing for the others. */
  lemma KeepNewPool(s: State, n: nat)
    requires Inv(s) && n > 0
    ensures Inv(s.(pools := s.pools + [NewPool(n)]))
  {
    var t := s.(pools := s.pools + [NewPool(n)]);
    FreshWorkers(n);
    assert PoolOk(NewPool(n)) && EntriesOk(s.jobs, NewPool(n), |s.pools|);
    forall c | 0 <= c < |t.ctxs|
      ensures CtxOk(t, c) && (s.ctxs[c].pool != Some(|s.pools|) || s.ctxs[c].epoch != s.epoch)
    {
      assert CtxOk(s, c);
    }
    AttachedNone(s.ctxs, |s.pools|, s.epoch);
    hide PoolOk, EntriesOk, Holders, Attached, NewPool;
    NewPoolIs(n);
    forall p | 0 <= p < |t.pools|
      ensures RefsOk(t, p) && PoolOk(t.pools[p]) && EntriesOk(t.jobs, t.pools[p], p)
    {
      assert p < |s.pools| ==> RefsOk(s, p) && PoolOk(s.pools[p]) && EntriesOk(s.jobs, s.pools[p], p);
    }
    forall j | 0 <= j < |t.jobs|
      ensures JobOk(t, j)
    {
      assert JobOk(s, j);
    }
  }

  lemma NewPoolIs(n: nat)
    ensures NewPool(n).phase == Listed && NewPool(n).refs == 0 && NewPool(n).nthreads == n
  {
  }

  lemma KeepAttachTo(s: State, c: nat, p: nat)
    requires Inv(s) && c < |s.ctxs| && p < |s.pools| && s.ctxs[c].pool.None? && s.ctxs[c].busy.None?
    requires s.pools[p].phase == Listed && s.pools[p].nthreads == s.ctxs[c].nthreads
    ensures Inv(AttachTo(s, c, p))
  {
    var t := AttachTo(s, c, p);
    assert PoolOk(t.pools[p]) && EntriesOk(s.jobs, t.pools[p], p);
    hide PoolOk, EntriesOk, Attached;
    forall q | 0 <= q < |t.pools|
      ensures RefsOk(t, q) && PoolOk(t.pools[q]) && EntriesOk(t.jobs, t.pools[q], q)
    {
      assert RefsOk(s, q) && PoolOk(s.pools[q]) && EntriesOk(s.jobs, s.pools[q], q);
      AttachedUpdate(s.ctxs, c, t.ctxs[c], q, s.epoch);
    }
    forall d | 0 <= d < |t.ctxs|
      ensures CtxOk(t, d)
    {
      assert CtxOk(s, d);
    }
    forall j | 0 <= j < |t.jobs|
      ensures JobOk(t, j)
    {
      assert JobOk(s, j);
    }
  }

  lemma KeepAttach(s: State, c: nat)
    requires Inv(s) && Enabled(s, Attach(c))
    ensures Inv(Apply(s, Attach(c)))
  {
    var n := s.ctxs[c].nthreads;
    assert CtxOk(s, c);
    var p := Find(s.pools, n);
    hide Inv, AttachTo, CtxOk;
    if p < |s.pools| {
      KeepAttachTo(s, c, p);
    } else {
      KeepNewPool(s, n);
      NewPoolIs(n);
      KeepAttachTo(s.(pools := s.pools + [NewPool(n)]), c, p);
    }
  }

  lemma KeepDropStale(s: State, c: nat)
    requires Inv(s) && Enabled(s, DropStale(c))
    ensures Inv(Apply(s, DropStale(c)))
  {
    var t := Apply(s, DropStale(c));
    hide PoolOk, EntriesOk, Attached, Holders;
    forall q | 0 <= q < |t.pools|
      ensures RefsOk(t, q)
    {
      assert RefsOk(s, q);
      AttachedUpdate(s.ctxs, c, t.ctxs[c], q, s.epoch);
    }
    forall d | 0 <= d < |t.ctxs|
      ensures CtxOk(t, d)
    {
      assert CtxOk(s, d);
    }
    forall j | 0 <= j < |t.jobs|
      ensures JobOk(t, j)
    {
      assert JobOk(s, j);
    }
  }

  lemma KeepReturn(s: State, c: nat)
    requires Inv(s) && Enabled(s, Return(c))
    ensures Inv(Apply(s, Return(c)))
  {
    var t, j := Apply(s, Return(c)), s.ctxs[c].busy.value;
    assert CtxOk(s, c) && JobOk(s, j);
    hide PoolOk, Attached, Apply, Enabled;
    forall q | 0 <= q < |t.pools|
      ensures RefsOk(t, q) && EntriesOk(t.jobs, t.pools[q], q)
    {
      assert RefsOk(s, q) && EntriesOk(s.jobs, s.pools[q], q);
      AttachedUpdate(s.ctxs, c, t.ctxs[c], q, s.epoch);
      if q == s.jobs[j].pool {
        NotHeld(s.pools[q], j);
      }
    }
    hide EntriesOk, Holders;
    forall d | 0 <= d < |t.ctxs|
      ensures CtxOk(t, d)
    {
      assert CtxOk(s, d);
    }
    forall k | 0 <= k < |t.jobs|
      ensures JobOk(t, k)
    {
      assert JobOk(s, k);
    }
  }

  /** A job with no holders is in no entry and with no worker. */
  lemma NotHeld(pool: Pool, j: nat)
    requires Holders(pool, j) == 0
    ensures forall k :: 0 <= k < |pool.queue| ==> pool.queue[k] != j
    ensures forall w :: 0 <= w < |pool.workers| ==> pool.workers[w] != Holding(j)
  {
    forall k | 0 <= k < |pool.queue|
      ensures pool.queue[k] != j
    {
      assert pool.queue[k] in multiset(pool.queue);
    }
    forall w | 0 <= w < |pool.workers|
      ensures pool.workers[w] != Holding(j)
    {
      assert pool.workers[w] in multiset(pool.workers);
    }
  }

  /** Posting a job, seen from the pool. */
  lemma Posted(jobs: seq<Job>, pool: Pool, p: nat, n: nat, job: Job)
    requires PoolOk(pool) && EntriesOk(jobs, pool, p) && pool.phase == Listed && job.live && job.pool == p
    ensures var j := |jobs|;
            var t := pool.(queue := pool.queue + Entries(j, n), activeJobs := pool.activeJobs + n);
            && PoolOk(t) && EntriesOk(jobs + [job], t, p) && Holders(t, j) == n
            && forall k: nat :: k != j ==> Holders(t, k) == Holders(pool, k)
  {
    var j := |jobs|;
    var t := pool.(queue := pool.queue + Entries(j, n), activeJobs := pool.activeJobs + n);
    CountEntries(j, n);
    Unheld(jobs, pool, p, j);
    MoreJobs(jobs, job, pool, p);
    forall k | 0 <= k < |t.queue|
      ensures LiveIn(jobs + [job], t.queue[k], p)
    {
    }
  }

  /** A job that does not exist yet has no holders. */
  lemma Unheld(jobs: seq<Job>, pool: Pool, p: nat, j: nat)
    requires EntriesOk(jobs, pool, p) && |jobs| <= j
    ensures Holders(pool, j) == 0
  {
    forall k | 0 <= k < |pool.queue|
      ensures pool.queue[k] != j
    {
      assert LiveIn(jobs, pool.queue[k], p);
    }
    forall w | 0 <= w < |pool.workers|
      ensures pool.workers[w] != Holding(j)
    {
      assert pool.workers[w].Holding? ==> LiveIn(jobs, pool.workers[w].job, p);
    }
    assert j !in pool.queue && Holding(j) !in pool.workers;
  }

  lemma MoreJobs(jobs: seq<Job>, job: Job, pool: Pool, p: nat)
    requires EntriesOk(jobs, pool, p)
    ensures EntriesOk(jobs + [job], pool, p)
  {
    assert forall j: nat :: LiveIn(jobs, j, p) ==> LiveIn(jobs + [job], j, p);
  }

  lemma KeepSubmit(s: State, c: nat)
    requires Inv(s) && Enabled(s, Submit(c))
    ensures Inv(Apply(s, Submit(c)))
  {
    var t, p, j := Apply(s, Submit(c)), s.ctxs[c].pool.value, |s.jobs|;
    assert CtxOk(s, c);
    assert PoolOk(s.pools[p]) && EntriesOk(s.jobs, s.pools[p], p);
    Posted(s.jobs, s.pools[p], p, s.ctxs[c].nthreads, t.jobs[j]);
    hide PoolOk, EntriesOk, Holders, Attached, Apply, Enabled, RefsOk, Current;
    SubmitPools(s, t, c, p);
    SubmitRest(s, t, c, p);
  }

  lemma SubmitRest(s: State, t: State, c: nat, p: nat)
    requires Inv(s) && c < |s.ctxs| && p < |s.pools| && s.ctxs[c].busy.None? && s.ctxs[c].pool == Some(p)
             && s.ctxs[c].epoch == s.epoch
    requires t.jobs == s.jobs + [Job(true, s.ctxs[c].nthreads, false, p, c)] && t.epoch == s.epoch
    requires t.ctxs == s.ctxs[c := s.ctxs[c].(busy := Some(|s.jobs|))]
    requires |t.pools| == |s.pools| && forall q :: 0 <= q < |s.pools| && q != p ==> t.pools[q] == s.pools[q]
    requires t.pools[p].phase == s.pools[p].phase && t.pools[p].nthreads == s.pools[p].nthreads
    requires Holders(t.pools[p], |s.jobs|) == s.ctxs[c].nthreads
    requires forall k: nat :: k != |s.jobs| ==> Holders(t.pools[p], k) == Holders(s.pools[p], k)
    ensures (forall d :: 0 <= d < |t.ctxs| ==> CtxOk(t, d)) && (forall k :: 0 <= k < |t.jobs| ==> JobOk(t, k))
  {
    hide PoolOk, EntriesOk, Holders, RefsOk;
    assert CtxOk(s, c);
    forall d | 0 <= d < |t.ctxs|
      ensures CtxOk(t, d)
    {
      assert CtxOk(s, d);
    }
    forall k | 0 <= k < |t.jobs|
      ensures JobOk(t, k)
    {
      assert k < |s.jobs| ==> JobOk(s, k) && t.jobs[k] == s.jobs[k];
    }
  }

  lemma SubmitPools(s: State, t: State, c: nat, p: nat)
    requires Inv(s) && c < |s.ctxs| && p < |s.pools| && |t.pools| == |s.pools| && |t.jobs| == |s.jobs| + 1
             && t.jobs[..|s.jobs|] == s.jobs
    requires t.epoch == s.epoch && |t.ctxs| == |s.ctxs| && t.ctxs == s.ctxs[c := t.ctxs[c]]
    requires t.ctxs[c].pool == s.ctxs[c].pool && t.ctxs[c].epoch == s.ctxs[c].epoch
    requires PoolOk(t.pools[p]) && EntriesOk(t.jobs, t.pools[p], p) && t.pools[p].refs == s.pools[p].refs
             && t.pools[p].phase == s.pools[p].phase
    requires forall q :: 0 <= q < |s.pools| && q != p ==> t.pools[q] == s.pools[q]
    ensures forall q :: 0 <= q < |t.pools| ==> PoolOk(t.pools[q]) && RefsOk(t, q) && EntriesOk(t.jobs, t.pools[q], q)
  {
    hide PoolOk, EntriesOk, Holders, Attached, JobOk, CtxOk;
    forall q | 0 <= q < |t.pools|
      ensures PoolOk(t.pools[q]) && RefsOk(t, q) && EntriesOk(t.jobs, t.pools[q], q)
    {
      assert PoolOk(s.pools[q]) && RefsOk(s, q) && EntriesOk(s.jobs, s.pools[q], q);
      AttachedUpdate(s.ctxs, c, t.ctxs[c], q, s.epoch);
      assert t.jobs == s.jobs + [t.jobs[|s.jobs|]];
      MoreJobs(s.jobs, t.jobs[|s.jobs|], s.pools[q], q);
    }
  }

  /** Taking an idle pool off the list, seen from the pool. */
  lemma IdlePool(pool: Pool)
    requires PoolOk(pool) && pool.phase == Listed && pool.activeJobs == 0 && pool.queue == []
    ensures PoolOk(pool.(phase := Unlisted)) && forall w :: 0 <= w < |pool.workers| ==> pool.workers[w] == Idle
  {
    NoneBusy(pool.workers);
  }

  lemma KeepRelease(s: State, c: nat)
    requires Inv(s) && Enabled(s, Release(c))
    ensures Inv(Apply(s, Release(c)))
  {
    var t, p := Apply(s, Release(c)), s.ctxs[c].pool.value;
    assert CtxOk(s, c) && RefsOk(s, p) && PoolOk(s.pools[p]);
    if t.pools[p].phase == Unlisted {
      IdlePool(s.pools[p]);
    }
    assert PoolOk(t.pools[p]);
    hide PoolOk, Holders, Attached, EntriesOk, RefsOk, JobOk, CtxOk, Apply, Enabled, Current, Detached;
    ReleasePools(s, t, c, p);
    ReleaseContexts(s, t, c, p);
    ReleaseJobs(s, t, c, p);
  }

  lemma ReleasePools(s: State, t: State, c: nat, p: nat)
    requires Inv(s) && c < |s.ctxs| && p < |s.pools| && s.ctxs[c].pool == Some(p) && s.ctxs[c].epoch == s.epoch
    requires t.jobs == s.jobs && t.epoch == s.epoch && t.ctxs == s.ctxs[c := s.ctxs[c].(pool := None)]
    requires |t.pools| == |s.pools| && forall q :: 0 <= q < |s.pools| && q != p ==> t.pools[q] == s.pools[q]
    requires PoolOk(t.pools[p]) && s.pools[p].phase == Listed && t.pools[p].refs == s.pools[p].refs - 1
    requires t.pools[p].queue == s.pools[p].queue && t.pools[p].workers == s.pools[p].workers
    ensures forall q :: 0 <= q < |t.pools| ==> PoolOk(t.pools[q]) && RefsOk(t, q) && EntriesOk(t.jobs, t.pools[q], q)
  {
    hide PoolOk, Holders, Attached, JobOk, CtxOk, LiveIn;
    forall q | 0 <= q < |t.pools|
      ensures PoolOk(t.pools[q]) && RefsOk(t, q) && EntriesOk(t.jobs, t.pools[q], q)
    {
      assert PoolOk(s.pools[q]) && RefsOk(s, q) && EntriesOk(s.jobs, s.pools[q], q);
      AttachedUpdate(s.ctxs, c, t.ctxs[c], q, s.epoch);
    }
  }

  lemma ReleaseJobs(s: State, t: State, c: nat, p: nat)
    requires Inv(s) && c < |s.ctxs| && p < |s.pools| && s.ctxs[c].busy.None?
    requires t.jobs == s.jobs && t.ctxs == s.ctxs[c := s.ctxs[c].(pool := None)]
    requires |t.pools| == |s.pools| && forall q :: 0 <= q < |s.pools| && q != p ==> t.pools[q] == s.pools[q]
    requires t.pools[p].queue == s.pools[p].queue && t.pools[p].workers == s.pools[p].workers
    ensures forall j :: 0 <= j < |t.jobs| ==> JobOk(t, j)
  {
    hide PoolOk, Holders, Attached, EntriesOk, RefsOk, CtxOk;
    forall j | 0 <= j < |t.jobs|
      ensures JobOk(t, j)
    {
      assert JobOk(s, j);
      SameHolders(s.pools[p], t.pools[p], j);
    }
  }

  lemma SameHolders(a: Pool, b: Pool, j: nat)
    requires a.queue == b.queue && a.workers == b.workers
    ensures Holders(a, j) == Holders(b, j)
  {
  }

  /** If the pool was taken off the list, no other context was using it. */
  lemma ReleaseContexts(s: State, t: State, c: nat, p: nat)
    requires Inv(s) && c < |s.ctxs| && p < |s.pools| && s.ctxs[c].pool == Some(p) && s.ctxs[c].epoch == s.epoch
             && s.ctxs[c].busy.None?
    requires t.jobs == s.jobs && t.epoch == s.epoch && t.ctxs == s.ctxs[c := s.ctxs[c].(pool := None)]
    requires |t.pools| == |s.pools| && forall q :: 0 <= q < |s.pools| && q != p ==> t.pools[q] == s.pools[q]
    requires t.pools[p].nthreads == s.pools[p].nthreads && t.pools[p].refs == s.pools[p].refs - 1
    requires t.pools[p].phase == s.pools[p].phase || t.pools[p].refs == 0
    ensures forall d :: 0 <= d < |t.ctxs| ==> CtxOk(t, d)
  {
    hide PoolOk, Holders, Attached, EntriesOk, JobOk;
    assert CtxOk(s, c) && RefsOk(s, p);
    AttachedUpdate(s.ctxs, c, t.ctxs[c], p, s.epoch);
    forall d | 0 <= d < |t.ctxs|
      ensures CtxOk(t, d)
    {
      assert CtxOk(s, d);
      if t.ctxs[d].pool == Some(p) && t.ctxs[d].epoch == s.epoch {
        AttachedOne(t.ctxs, d);
      }
    }
  }

  lemma NoLiveJobs(s: State)
    requires Inv(s) && Enabled(s, DestroyAll)
    ensures forall j :: 0 <= j < |s.jobs| ==> !s.jobs[j].live
  {
    hide PoolOk, Holders, Attached, EntriesOk;
    forall j | 0 <= j < |s.jobs|
      ensures !s.jobs[j].live
    {
      assert JobOk(s, j);
    }
  }

  /** With no live jobs, a pool has no entries and no worker with a job. */
  lemma QuietPool(jobs: seq<Job>, pool: Pool, p: nat)
    requires PoolOk(pool) && EntriesOk(jobs, pool, p) && forall j :: 0 <= j < |jobs| ==> !jobs[j].live
    ensures pool.phase == Listed ==> PoolOk(pool.(phase := Unlisted))
    ensures EntriesOk(jobs, pool.(phase := Unlisted), p)
  {
    assert |pool.queue| == 0 || LiveIn(jobs, pool.queue[0], p);
  }

  lemma KeepDestroyAll(s: State)
    requires Inv(s) && Enabled(s, DestroyAll)
    ensures Inv(Apply(s, DestroyAll))
  {
    var t := Apply(s, DestroyAll);
    NoLiveJobs(s);
    hide PoolOk, Holders, Attached, EntriesOk;
    forall q | 0 <= q < |t.pools|
      ensures PoolOk(t.pools[q]) && EntriesOk(t.jobs, t.pools[q], q) && RefsOk(t, q)
    {
      assert PoolOk(s.pools[q]) && EntriesOk(s.jobs, s.pools[q], q);
      QuietPool(s.jobs, s.pools[q], q);
    }
    forall d | 0 <= d < |t.ctxs|
      ensures CtxOk(t, d)
    {
      assert CtxOk(s, d);
    }
  }

  // ---- all runs

  /** Every step keeps the invariant. */
  lemma StepKeeps(s: State, step: Step)
    requires Inv(s) && Enabled(s, step)
    ensures Inv(Apply(s, step))
  {
    hide Inv, Enabled, Apply;
    match step
    case NewContext(n) => KeepNewContext(s, n);
    case Attach(c) => KeepAttach(s, c);
    case Submit(c) => KeepSubmit(s, c);
    case SubmitFails(c, k) => KeepSubmitFails(s, c, k);
    case Dequeue(p, w) => KeepDequeue(s, p, w);
    case Finish(p, w) => KeepFinish(s, p, w);
    case Account(p, w) => KeepAccount(s, p, w);
    case Return(c) => KeepReturn(s, c);
    case Release(c) => KeepRelease(s, c);
    case DropStale(c) => KeepDropStale(s, c);
    case DestroyAll => KeepDestroyAll(s);
    case TellWorkers(p) => KeepTell(s, p);
    case Exit(p, w) => KeepExit(s, p, w);
    case Free(p) => KeepFree(s, p);
  }

  const Start := State(0, [], [], [])

  /** A run: each step is enabled where it is taken. */
  predicate IsRun(s: State, steps: seq<Step>)
    decreases |steps|
  {
    steps == [] || (Enabled(s, steps[0]) && IsRun(Apply(s, steps[0]), steps[1..]))
  }

  function After(s: State, steps: seq<Step>): State
    requires IsRun(s, steps)
    decreases |steps|
  {
    if steps == [] then s else After(Apply(s, steps[0]), steps[1..])
  }

  lemma {:induction false} RunKeeps(s: State, steps: seq<Step>)
    requires Inv(s) && IsRun(s, steps)
    ensures Inv(After(s, steps))
    decreases |steps|
  {
    hide Inv, Enabled, Apply;
    if steps != [] {
      StepKeeps(s, steps[0]);
      RunKeeps(Apply(s, steps[0]), steps[1..]);
    }
  }

  /** In every reachable state the counters of pools and jobs are exact. */
  lemma CountersExact(steps: seq<Step>, p: nat, j: nat)
    requires IsRun(Start, steps)
    ensures var s := After(Start, steps);
            && (p < |s.pools| ==> s.pools[p].activeJobs == |s.pools[p].queue| + Busy(s.pools[p].workers))
            && (p < |s.pools| && s.pools[p].phase == Listed ==> s.pools[p].refs == Attached(s.ctxs, p, s.epoch))
            && (j < |s.jobs| && s.jobs[j].live ==>
                  s.jobs[j].pool < |s.pools| && s.jobs[j].pending == Holders(s.pools[s.jobs[j].pool], j))
  {
    var s := After(Start, steps);
    assert Inv(Start);
    RunKeeps(Start, steps);
    hide IsRun, After, Busy, Attached, Holders;
    assert p < |s.pools| ==> PoolOk(s.pools[p]) && RefsOk(s, p);
    assert j < |s.jobs| ==> JobOk(s, j);
  }

  /** When `parallel_blosc` returns, no entry and no worker of any pool refers to its job. */
  lemma ReturnIsSafe(steps: seq<Step>, c: nat, p: nat)
    requires IsRun(Start, steps) && Enabled(After(Start, steps), Return(c)) && p < |After(Start, steps).pools|
    ensures var s := After(Start, steps);
            var j := s.ctxs[c].busy.value;
            && (forall k :: 0 <= k < |s.pools[p].queue| ==> s.pools[p].queue[k] != j)
            && (forall w :: 0 <= w < |s.pools[p].workers| ==> s.pools[p].workers[w] != Holding(j))
  {
    var s := After(Start, steps);
    assert Inv(Start);
    RunKeeps(Start, steps);
    hide IsRun, After, Attached;
    var j := s.ctxs[c].busy.value;
    assert CtxOk(s, c) && JobOk(s, j) && EntriesOk(s.jobs, s.pools[p], p);
    if p == s.jobs[j].pool {
      NotHeld(s.pools[p], j);
    } else {
      hide Inv, CtxOk, JobOk, Holders;
      assert forall k :: 0 <= k < |s.pools[p].queue| ==> LiveIn(s.jobs, s.pools[p].queue[k], p);
    }
  }

  /** A worker that is done with a job finds the job still there, so it may decrement its counter. */
  lemma FinishFindsJob(steps: seq<Step>, p: nat, w: nat)
    requires IsRun(Start, steps) && Has(After(Start, steps), p, w) && After(Start, steps).pools[p].workers[w].Holding?
    ensures var s := After(Start, steps);
            LiveIn(s.jobs, s.pools[p].workers[w].job, p) && s.jobs[s.pools[p].workers[w].job].pending > 0
  {
    var s := After(Start, steps);
    assert Inv(Start);
    RunKeeps(Start, steps);
    hide IsRun, After, Attached;
    var j := s.pools[p].workers[w].job;
    assert EntriesOk(s.jobs, s.pools[p], p);
    assert LiveIn(s.jobs, j, p) && JobOk(s, j);
    assert Holding(j) in multiset(s.pools[p].workers);
  }

  /** A pool that is being destroyed or is freed has no user, no entry and no worker with a job. */
  lemma DestroyedIsUnused(steps: seq<Step>, p: nat, c: nat)
    requires IsRun(Start, steps) && p < |After(Start, steps).pools| && After(Start, steps).pools[p].phase != Listed
    ensures var s := After(Start, steps);
            && (Current(s, c) ==> s.ctxs[c].pool != Some(p))
            && s.pools[p].queue == []
            && (forall w :: 0 <= w < |s.pools[p].workers| ==> !s.pools[p].workers[w].Holding?)
            && (s.pools[p].phase == Freed ==> forall w :: 0 <= w < |s.pools[p].workers| ==>
              s.pools[p].workers[w] == Exited)
  {
    var s := After(Start, steps);
    assert Inv(Start);
    RunKeeps(Start, steps);
    hide IsRun, After, Attached;
    assert PoolOk(s.pools[p]);
    assert c < |s.ctxs| ==> CtxOk(s, c);
  }

  /** The release that takes a pool off the list finds every worker waiting for work. */
  lemma ReleaseFindsIdle(steps: seq<Step>, c: nat)
    requires IsRun(Start, steps) && Enabled(After(Start, steps), Release(c))
    ensures var s := After(Start, steps);
            var p, t := s.ctxs[c].pool.value, Apply(s, Release(c));
            t.pools[p].phase == Unlisted ==> forall w :: 0 <= w < |t.pools[p].workers| ==> t.pools[p].workers[w] == Idle
  {
    var s := After(Start, steps);
    assert Inv(Start);
    RunKeeps(Start, steps);
    hide IsRun, After, Attached;
    var p := s.ctxs[c].pool.value;
    assert CtxOk(s, c) && PoolOk(s.pools[p]);
    if Apply(s, Release(c)).pools[p].phase == Unlisted {
      IdlePool(s.pools[p]);
    }
  }

  /** A context follows its pool pointer only when the pool is listed: a stale pointer is never followed. */
  lemma PointerIsLive(steps: seq<Step>, c: nat)
    requires IsRun(Start, steps) && Current(After(Start, steps), c)
    ensures var s := After(Start, steps);
            s.ctxs[c].pool.value < |s.pools| && s.pools[s.ctxs[c].pool.value].phase == Listed
  {
    var s := After(Start, steps);
    assert Inv(Start);
    RunKeeps(Start, steps);
    assert CtxOk(s, c);
  }
}
