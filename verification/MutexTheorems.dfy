/** What holds in every state that any number of threads can reach by any interleaving. */
module MutexTheorems {
  import opened Options
  import opened MutexQueue
  import opened CondMutex

  /** One turn of the scheduler: which thread steps, and what it calls if it is in user code. */
  datatype Turn = Turn(t: Tid, op: Op)

  ghost predicate Legal(sched: seq<Turn>, threads: nat) {
    forall i | 0 <= i < |sched| :: sched[i].t < threads
  }

  function Run(s: Sys, sched: seq<Turn>): (r: Sys)
    requires s.Valid() && Legal(sched, |s.pc|)
    ensures r.Valid() && |r.pc| == |s.pc|
  {
    if sched == [] then s
    else
      var r := Run(s, sched[..|sched| - 1]);
      Step(r, sched[|sched| - 1].t, sched[|sched| - 1].op)
  }

  // ------------------------------------------------------------------
  // Every run is a run of the abstract FIFO lock
  // ------------------------------------------------------------------

  lemma EffectKeepsSize(s: Sys, g: Ghost, t: Tid)
    requires s.Valid() && t < |s.pc| == |g.loc|
    ensures |Effect(s, g, t).loc| == |g.loc|
  {
  }

  /** The abstract lock and the threads' places after a run. */
  ghost function History(threads: nat, recursive: bool, sched: seq<Turn>): (g: Ghost)
    requires Legal(sched, threads)
    ensures |g.loc| == threads
    decreases |sched|
  {
    if sched == [] then Ghost(FREE, seq(threads, i => Active))
    else
      var n := |sched| - 1;
      var s, g := Run(Init(threads, recursive), sched[..n]), History(threads, recursive, sched[..n]);
      EffectKeepsSize(s, g, sched[n].t);
      Effect(s, g, sched[n].t)
  }

  lemma {:induction false} RunKeeps(threads: nat, recursive: bool, sched: seq<Turn>)
    requires Legal(sched, threads)
    ensures Inv(Run(Init(threads, recursive), sched), History(threads, recursive, sched))
    decreases |sched|
  {
    if sched == [] {
      InitOk(threads, recursive);
    } else {
      var n := |sched| - 1;
      RunKeeps(threads, recursive, sched[..n]);
      StepKeeps(Run(Init(threads, recursive), sched[..n]), History(threads, recursive, sched[..n]), sched[n].t, sched[n].op);
    }
  }

  /** After every prefix of every run the mutex words encode the abstract lock, which starts free and
      from prefix to prefix moves by its own rules. */
  lemma RunRefinesFifoLock(threads: nat, recursive: bool, sched: seq<Turn>)
    requires Legal(sched, threads)
    ensures History(threads, recursive, []).abs == FREE
    ensures forall i | 0 <= i <= |sched| :: Inv(Run(Init(threads, recursive), sched[..i]), History(threads, recursive, sched[..i]))
    ensures forall i | 0 <= i < |sched| :: AbsStep(History(threads, recursive, sched[..i]).abs, History(threads, recursive, sched[..i + 1]).abs)
  {
    forall i | 0 <= i <= |sched|
      ensures Inv(Run(Init(threads, recursive), sched[..i]), History(threads, recursive, sched[..i]))
    {
      RunKeeps(threads, recursive, sched[..i]);
    }
    forall i | 0 <= i < |sched|
      ensures AbsStep(History(threads, recursive, sched[..i]).abs, History(threads, recursive, sched[..i + 1]).abs)
    {
      RunKeeps(threads, recursive, sched[..i]);
      assert sched[..i + 1][..i] == sched[..i];
      StepKeeps(Run(Init(threads, recursive), sched[..i]), History(threads, recursive, sched[..i]), sched[i].t, sched[i].op);
    }
  }

  // ------------------------------------------------------------------
  // First come, first served
  // ------------------------------------------------------------------

  /** For whom thread t runs the acquire routine. */
  function Subject(s: Sys, t: Tid): Option<Tid>
    requires t < |s.pc|
  {
    match s.pc[t]
    case Acquiring => Some(t)
    case CastAcquire(cur, _, _) => Some(cur)
    case _ => None
  }

  /** The thread that joins the waiters with the next step of t: its exchange on `wait_end` finds the
      mutex taken. */
  function Joiner(s: Sys, t: Tid): seq<Tid>
    requires s.Valid() && t < |s.pc|
  {
    match Subject(s, t)
    case None => []
    case Some(x) => if x < |s.core.acq| && s.core.acq[x].Exchange? && s.core.waitEnd != Null then [x] else []
  }

  /** The waiter that the next step of t stores in `owner`. */
  function Served(s: Sys, t: Tid): seq<Tid>
    requires s.Valid() && t < |s.pc|
  {
    if (s.pc[t].Unlocking? || s.pc[t].WaitReleasing?) && s.core.rel[t].GrantOwner? && s.core.rel[t].head.Node?
    then [s.core.rel[t].head.t] else []
  }

  /** All exchanges of a run that found the mutex taken, in order. */
  function Joins(threads: nat, recursive: bool, sched: seq<Turn>): seq<Tid>
    requires Legal(sched, threads)
    decreases |sched|
  {
    if sched == [] then []
    else
      var n := |sched| - 1;
      Joins(threads, recursive, sched[..n]) + Joiner(Run(Init(threads, recursive), sched[..n]), sched[n].t)
  }

  /** All hand-overs of a run, in order. */
  function Grants(threads: nat, recursive: bool, sched: seq<Turn>): seq<Tid>
    requires Legal(sched, threads)
    decreases |sched|
  {
    if sched == [] then []
    else
      var n := |sched| - 1;
      Grants(threads, recursive, sched[..n]) + Served(Run(Init(threads, recursive), sched[..n]), sched[n].t)
  }

  /** The waiters not served yet: the one that the releaser is about to make the owner, and the queue. */
  ghost function Waiting(a: Abs): seq<Tid> {
    (if a.next.Some? then [a.next.value] else []) + a.queue
  }

  lemma AcquireServes(s: Sys, g: Ghost, t: Tid, x: Tid)
    requires s.Valid() && t < |s.pc| == |g.loc| && x < |s.pc| && Subject(s, t) == Some(x)
    ensures Served(s, t) == []
    ensures Waiting(Effect(s, g, t).abs) == Waiting(g.abs) + Joiner(s, t)
  {
    assert Effect(s, g, t).abs == AcquireEffect(s.core, g.abs, x);
  }

  lemma ReleaseServes(s: Sys, g: Ghost, t: Tid)
    requires s.Valid() && t < |s.pc| == |g.loc| && (s.pc[t].Unlocking? || s.pc[t].WaitReleasing?)
    requires ReleaseSummary(s.core, g.abs, ReleaseStep(s.core, t), ReleaseEffect(s.core, g.abs, t), t)
    requires !s.core.rel[t].NoRelease?
    ensures Joiner(s, t) == []
    ensures Served(s, t) + Waiting(Effect(s, g, t).abs) == Waiting(g.abs)
  {
    var a, b := g.abs, ReleaseEffect(s.core, g.abs, t);
    assert Effect(s, g, t).abs == b;
    if s.core.rel[t].GrantOwner? {
      assert Waiting(a) == [a.next.value] + a.queue;
    } else if b != a && b != FREE {
      assert a.queue == [a.queue[0]] + a.queue[1..];
    }
  }

  /** A step serves the waiter at the front or adds one at the end, or leaves them as they are. */
  lemma StepServes(s: Sys, g: Ghost, t: Tid)
    requires Inv(s, g) && t < |s.pc|
    ensures Served(s, t) + Waiting(Effect(s, g, t).abs) == Waiting(g.abs) + Joiner(s, t)
  {
    RoutineRuns(s, g, t);
    if Subject(s, t).Some? {
      AcquireServes(s, g, t, Subject(s, t).value);
    } else if s.pc[t].Unlocking? || s.pc[t].WaitReleasing? {
      ReleaseSummaryHolds(s.core, g.abs, t);
      ReleaseServes(s, g, t);
    }
  }

  /** In every run the waiters are made owners in exactly the order of their exchanges on `wait_end`,
      each exchange once; those not served yet are the waiters that the mutex words encode. Nobody is
      lost, duplicated or overtaken. */
  lemma {:induction false} FirstComeFirstServed(threads: nat, recursive: bool, sched: seq<Turn>)
    requires Legal(sched, threads)
    ensures Joins(threads, recursive, sched) == Grants(threads, recursive, sched) + Waiting(History(threads, recursive, sched).abs)
    ensures Encodes(Run(Init(threads, recursive), sched).core, History(threads, recursive, sched).abs)
    decreases |sched|
  {
    RunKeeps(threads, recursive, sched);
    if sched != [] {
      var n := |sched| - 1;
      FirstComeFirstServed(threads, recursive, sched[..n]);
      RunKeeps(threads, recursive, sched[..n]);
      var s, g := Run(Init(threads, recursive), sched[..n]), History(threads, recursive, sched[..n]);
      StepServes(s, g, sched[n].t);
      ServedMore(Joins(threads, recursive, sched[..n]), Grants(threads, recursive, sched[..n]), Waiting(g.abs),
                 Served(s, sched[n].t), Waiting(Effect(s, g, sched[n].t).abs), Joiner(s, sched[n].t));
    }
  }

  /** Joins were grants and waiters; then some waiters are granted and others join. */
  lemma ServedMore(joins: seq<Tid>, grants: seq<Tid>, waiting: seq<Tid>, served: seq<Tid>, waiting': seq<Tid>, joiners: seq<Tid>)
    requires joins == grants + waiting && served + waiting' == waiting + joiners
    ensures joins + joiners == (grants + served) + waiting'
  {
    assert joins + joiners == grants + (waiting + joiners);
    assert grants + (served + waiting') == (grants + served) + waiting';
  }

  // ------------------------------------------------------------------
  // Safety in every reachable state
  // ------------------------------------------------------------------

  /** Who the callers believe to hold the mutex: at most one thread, and `owner`, `wait_end` and
      `count` agree with that. */
  ghost predicate Exclusive(s: Sys)
    requires s.Valid()
  {
    && (forall t, u | 0 <= t < |s.pc| && 0 <= u < |s.pc| && s.depth[t] > 0 && s.depth[u] > 0 :: t == u)
    && (forall t | 0 <= t < |s.pc| && s.core.owner == Some(t) :: forall u | 0 <= u < |s.pc| && u != t :: s.depth[u] == 0)
    && (forall t | 0 <= t < |s.pc| && s.depth[t] > 0 ::
          && s.core.owner == Some(t)
          && s.core.waitEnd != Null
          && (if s.recursive then s.count == s.depth[t] else s.depth[t] == 1 && s.count == 0))
    && (s.core.waitEnd == Null ==> s.core.owner == None)
    && (forall t | 0 <= t < |s.pc| :: s.depth[t] >= 0 && !s.pc[t].Corrupt? && !s.core.rel[t].Unreachable?)
  }

  lemma InvIsExclusive(s: Sys, g: Ghost)
    requires Inv(s, g)
    ensures Exclusive(s)
  {
    forall t: Tid | t < |s.pc|
      ensures s.depth[t] >= 0 && !s.pc[t].Corrupt? && !s.core.rel[t].Unreachable?
      ensures s.depth[t] > 0 ==> g.abs.holder == Some(t) && Quiet(s, t)
      ensures s.depth[t] > 0 ==> OwnerTells(s, g, t)
    {
      DepthTellsHolder(s, g, t);
      if Quiet(s, t) {
        OwnerTellsHolder(s, g, t);
      }
    }
    EndTellsHolder(s.core, g.abs);
    OwnerIsHolder(s.core, g.abs);
  }

  lemma OwnerIsHolder(c: Core, a: Abs)
    requires Encodes(c, a)
    ensures c.owner.Some? ==> a.holder == c.owner
  {
  }

  lemma DepthTellsHolder(s: Sys, g: Ghost, t: Tid)
    requires Inv(s, g) && t < |s.pc|
    ensures s.depth[t] >= 0 && !s.pc[t].Corrupt? && !s.core.rel[t].Unreachable?
    ensures s.depth[t] > 0 ==> g.abs.holder == Some(t) && s.core.rel[t].NoRelease?
    ensures s.depth[t] > 0 ==> s.core.acq[t].NoAcquire?
  {
    assert ThreadOk(s, g, t);
    NeverUnreachable(s.core, g.abs, t);
  }

  lemma NeverUnreachable(c: Core, a: Abs, t: Tid)
    requires Encodes(c, a) && t < |c.acq|
    ensures !c.rel[t].Unreachable?
  {
  }

  /** Mutual exclusion, in every reachable state. */
  lemma MutualExclusion(threads: nat, recursive: bool, sched: seq<Turn>)
    requires Legal(sched, threads)
    ensures Exclusive(Run(Init(threads, recursive), sched))
  {
    RunKeeps(threads, recursive, sched);
    InvIsExclusive(Run(Init(threads, recursive), sched), History(threads, recursive, sched));
  }

  // ------------------------------------------------------------------
  // No thread is lost
  // ------------------------------------------------------------------

  /** Thread t is found at place l, told from the lists, the program counters and the queue alone. */
  ghost predicate FoundAt(s: Sys, a: Abs, t: Tid, l: Loc)
    requires s.Valid() && t < |s.pc|
  {
    match l
    case Active => !s.pc[t].Asleep? && !s.pc[t].Ready? && !s.pc[t].WaitReleasing? && !s.pc[t].Switching?
                   && !(s.pc[t].Acquiring? && s.core.acq[t].Link?)
    case InCond => t in s.cond
    case InChain(b) => b < |s.pc| && (t in Todo(s.pc[b]) || (Cur(s.pc[b], t) && !s.core.acq[t].Link?))
    case Linking(b) =>
      b < |s.pc| && s.core.acq[t].Link? && (if b == t then s.pc[t].Acquiring? else Cur(s.pc[b], t))
    case Queued => (t in a.queue || a.next == Some(t)) && !s.core.acq[t].Link?
    case InOut(b) => b < |s.pc| && t in Out(s.pc[b])
    case Granted(b) => b < |s.pc| && (s.pc[b] == Waking(t) || s.pc[b] == Switching(t))
    case InRunQueue => s.pc[t].Ready?
  }

  lemma FoundThere(s: Sys, g: Ghost, t: Tid)
    requires Placed(s, g) && t < |s.pc|
    ensures FoundAt(s, g.abs, t, g.loc[t])
  {
    assert ThreadOk(s, g, t);
  }

  lemma FoundOnlyThere(s: Sys, g: Ghost, t: Tid, l: Loc)
    requires Placed(s, g) && t < |s.pc| && FoundAt(s, g.abs, t, l)
    ensures l == g.loc[t]
  {
    assert ThreadOk(s, g, t);
    match l
    case InChain(b) => assert ThreadOk(s, g, b);
    case Linking(b) => assert ThreadOk(s, g, b);
    case InOut(b) => assert ThreadOk(s, g, b);
    case Granted(b) => assert ThreadOk(s, g, b);
    case _ =>
  }

  /** Every thread, asleep or not, is in exactly one place: the condition list, one broadcaster's
      chain, the mutex queue, the hands of the one thread that will make it schedulable, the run
      queue, or running. */
  lemma NoThreadLost(s: Sys, g: Ghost, t: Tid)
    requires Inv(s, g) && t < |s.pc|
    ensures FoundAt(s, g.abs, t, g.loc[t])
    ensures forall l :: FoundAt(s, g.abs, t, l) ==> l == g.loc[t]
  {
    FoundThere(s, g, t);
    forall l | FoundAt(s, g.abs, t, l) ensures l == g.loc[t] {
      FoundOnlyThere(s, g, t, l);
    }
  }

  /** Who is in cnd_wait is on the condition list or captured already. */
  lemma WaiterIsPlaced(s: Sys, g: Ghost, w: Tid)
    requires Placed(s, g) && w < |s.pc|
    requires (s.pc[w].Asleep? && s.pc[w].kind.InWait?) || s.pc[w].WaitReleasing? || s.pc[w].Switching?
    ensures !g.loc[w].Active? || s.pc[w] == Switching(w)
    ensures g.loc[w].InCond? <==> w in s.cond
    ensures s.pc[w] != Switching(w) ==> !g.loc[w].InRunQueue?
  {
    assert ThreadOk(s, g, w);
    assert ThreadOk(s, g, if s.pc[w].Switching? then s.pc[w].next else w);
  }

  /** A broadcast captures every thread on the condition list, in particular every thread that was
      asleep in cnd_wait and had not been captured before; nobody stays behind. */
  lemma BroadcastCaptures(s: Sys, g: Ghost, b: Tid, w: Tid, op: Op)
    requires Placed(s, g) && b < |s.pc| && w < |s.pc| && s.pc[b].CastClear?
    requires (s.pc[w].Asleep? && s.pc[w].kind.InWait?) || s.pc[w].WaitReleasing? || s.pc[w].Switching?
    ensures var s', g' := Step(s, b, op), Effect(s, g, b);
            && s'.cond == []
            && !g'.loc[w].Active? && !g'.loc[w].InCond?
            && (g.loc[w].InCond? ==> w in Todo(s'.pc[b]))
            && (!g.loc[w].InCond? ==> g'.loc[w] == g.loc[w])
  {
    WaiterIsPlaced(s, g, w);
    SwitcherIsPlaced(s, g, w);
  }

  lemma SwitcherIsPlaced(s: Sys, g: Ghost, w: Tid)
    requires Placed(s, g) && w < |s.pc|
    ensures s.pc[w] == Switching(w) ==> g.loc[w] == Granted(w)
  {
    assert ThreadOk(s, g, w);
  }

  /** A sleeper returns from mtx_lock or cnd_wait only as the owner of the mutex. */
  lemma ResumesAsOwner(s: Sys, g: Ghost, t: Tid, w: Tid, op: Op)
    requires Inv(s, g) && t < |s.pc| && w < |s.pc|
    requires s.pc[w].Asleep? || s.pc[w].Ready? || s.pc[w].WaitReleasing? || s.pc[w].Switching?
    requires Step(s, t, op).pc[w].User?
    ensures var s' := Step(s, t, op);
            s'.pc[w] == User(Success) && s'.depth[w] > 0 && s'.core.owner == Some(w) && Exclusive(s')
  {
    var s', g' := Step(s, t, op), Effect(s, g, t);
    StepKeeps(s, g, t, op);
    InvIsExclusive(s', g');
    ResumesDeep(s, g, t, w, op);
  }

  lemma ResumesDeep(s: Sys, g: Ghost, t: Tid, w: Tid, op: Op)
    requires Placed(s, g) && t < |s.pc| && w < |s.pc|
    requires s.pc[w].Asleep? || s.pc[w].Ready? || s.pc[w].WaitReleasing? || s.pc[w].Switching?
    requires Step(s, t, op).pc[w].User?
    ensures Step(s, t, op).pc[w] == User(Success) && Step(s, t, op).depth[w] > 0
  {
    assert ThreadOk(s, g, w);
    OnlyTheseResume(s, t, w, op);
    assert ThreadOk(s, g, t);
  }

  /** cnd_wait gives the mutex up if and only if the caller has locked it once; otherwise the caller goes
      to sleep owning it. */
  lemma WaitReleasesIff(s: Sys, g: Ghost, t: Tid, op: Op)
    requires Inv(s, g) && t < |s.pc| && s.pc[t].WaitAppend?
    ensures s.depth[t] >= 1 && s.core.owner == Some(t)
    ensures Step(s, t, op).pc[t] == (if s.depth[t] == 1 then WaitReleasing else Asleep(InWait(false)))
    ensures Step(s, t, op).depth[t] == if s.depth[t] == 1 then 0 else s.depth[t]
  {
    assert ThreadOk(s, g, t);
    OwnerTellsHolder(s, g, t);
  }

  /** A thread asleep in cnd_wait and still on the condition list owns the mutex if and only if it had
      locked it more than once. */
  lemma SleeperOwnsIff(threads: nat, recursive: bool, sched: seq<Turn>, t: Tid)
    requires Legal(sched, threads) && t < threads
    requires var s := Run(Init(threads, recursive), sched); t in s.cond && s.pc[t].Asleep? && s.pc[t].kind.InWait?
    ensures var s := Run(Init(threads, recursive), sched);
      && (s.core.owner == Some(t) <==> s.pc[t].kind == InWait(false))
      && (s.pc[t].kind == InWait(false) <==> s.depth[t] >= 2)
      && (s.pc[t].kind == InWait(false) ==> s.core.waitEnd != Null && forall u | 0 <= u < |s.pc| && u != t :: s.depth[u] == 0)
  {
    var s, g := Run(Init(threads, recursive), sched), History(threads, recursive, sched);
    RunKeeps(threads, recursive, sched);
    assert ThreadOk(s, g, t);
    OwnerTellsHolder(s, g, t);
    EndTellsHolder(s.core, g.abs);
    InvIsExclusive(s, g);
  }

  /** n turns of thread 0, which calls op when it is in user code. */
  function Calls(op: Op, n: nat): seq<Turn> {
    if n == 0 then [] else Calls(op, n - 1) + [Turn(0, op)]
  }

  /** One thread locks the mutex twice and waits. */
  function LockTwiceAndWait(): seq<Turn> {
    Calls(CallLock, 5) + Calls(CallLock, 3) + Calls(CallWait, 5)
  }

  function Solo(s: Sys, op: Op, n: nat): (r: Sys)
    requires s.Valid() && |s.pc| > 0
    ensures r.Valid() && |r.pc| == |s.pc|
  {
    if n == 0 then s else Step(Solo(s, op, n - 1), 0, op)
  }

  lemma RunMore(s: Sys, sched: seq<Turn>, turn: Turn)
    requires s.Valid() && Legal(sched, |s.pc|) && turn.t < |s.pc|
    ensures Legal(sched + [turn], |s.pc|) && Run(s, sched + [turn]) == Step(Run(s, sched), turn.t, turn.op)
  {
    assert (sched + [turn])[..|sched|] == sched;
  }

  lemma {:induction false} RunSolo(s: Sys, sched: seq<Turn>, op: Op, n: nat)
    requires s.Valid() && |s.pc| > 0 && Legal(sched, |s.pc|)
    ensures Legal(sched + Calls(op, n), |s.pc|) && Run(s, sched + Calls(op, n)) == Solo(Run(s, sched), op, n)
  {
    if n == 0 {
      assert sched + Calls(op, n) == sched;
    } else {
      RunSolo(s, sched, op, n - 1);
      assert sched + Calls(op, n) == (sched + Calls(op, n - 1)) + [Turn(0, op)];
      RunMore(s, sched + Calls(op, n - 1), Turn(0, op));
    }
  }

  /** Thread 0 runs alone in user code, having locked the mutex `depth` times. */
  ghost predicate Alone(s: Sys, depth: nat) {
    && s.Valid() && |s.pc| == 1 && s.recursive && s.cond == [] && s.pc[0].User? && s.depth[0] == depth
    && s.core.acq[0].NoAcquire?
    && (if depth == 0 then s.core.owner == None && s.core.waitEnd == Null && s.count == 1 else s.core.owner == Some(0) && s.count == depth)
  }

  lemma LockFree(s: Sys)
    requires Alone(s, 0)
    ensures Alone(Solo(s, CallLock, 5), 1)
  {
    var s1 := Step(s, 0, CallLock);
    var s2 := Step(s1, 0, CallLock);
    var s3 := Step(s2, 0, CallLock);
    var s4 := Step(s3, 0, CallLock);
    var s5 := Step(s4, 0, CallLock);
    assert s2.pc[0] == Acquiring && s2.core.acq[0] == FastLoad(false) && s2.core.waitEnd == Null;
    assert s4.pc[0] == Acquiring && s4.core.acq[0] == StoreOwner;
    assert Solo(s, CallLock, 1) == s1;
    assert Solo(s, CallLock, 2) == s2;
    assert Solo(s, CallLock, 3) == s3;
    assert Solo(s, CallLock, 4) == s4;
    assert Solo(s, CallLock, 5) == s5;
  }

  lemma LockAgain(s: Sys)
    requires Alone(s, 1)
    ensures Alone(Solo(s, CallLock, 3), 2)
  {
    var s1 := Step(s, 0, CallLock);
    var s2 := Step(s1, 0, CallLock);
    assert s2.pc[0] == LockCount;
    assert Solo(s, CallLock, 1) == s1;
    assert Solo(s, CallLock, 2) == s2;
    assert Solo(s, CallLock, 3) == Step(s2, 0, CallLock);
  }

  lemma WaitDeep(s: Sys)
    requires Alone(s, 2)
    ensures var r := Solo(s, CallWait, 5); r.pc[0] == Asleep(InWait(false)) && 0 in r.cond && r.core.owner == Some(0)
  {
    var s1 := Step(s, 0, CallWait);
    var s2 := Step(s1, 0, CallWait);
    var s3 := Step(s2, 0, CallWait);
    var s4 := Step(s3, 0, CallWait);
    assert s3.pc[0] == WaitCount && s3.count == 2;
    assert s4.pc[0] == WaitAppend(false);
    assert Solo(s, CallWait, 1) == s1;
    assert Solo(s, CallWait, 2) == s2;
    assert Solo(s, CallWait, 3) == s3;
    assert Solo(s, CallWait, 4) == s4;
    assert Solo(s, CallWait, 5) == Step(s4, 0, CallWait);
  }

  /** A thread that sleeps in cnd_wait and owns the mutex, as the wait of section 7.26.3.6 does not allow. */
  lemma DeepWaitKeepsMutex()
    ensures Legal(LockTwiceAndWait(), 1)
    ensures var s := Run(Init(1, true), LockTwiceAndWait());
      |s.pc| == 1 && s.pc[0] == Asleep(InWait(false)) && 0 in s.cond && s.core.owner == Some(0)
  {
    var s := Init(1, true);
    assert [] + Calls(CallLock, 5) == Calls(CallLock, 5);
    RunSolo(s, [], CallLock, 5);
    LockFree(s);
    RunSolo(s, Calls(CallLock, 5), CallLock, 3);
    LockAgain(Solo(s, CallLock, 5));
    RunSolo(s, Calls(CallLock, 5) + Calls(CallLock, 3), CallWait, 5);
    WaitDeep(Solo(Solo(s, CallLock, 5), CallLock, 3));
  }

  /** A step changes the program counter of another thread only by waking it or switching to it. */
  lemma OthersStay(s: Sys, t: Tid, w: Tid, op: Op)
    requires s.Valid() && t < |s.pc| && w < |s.pc| && w != t
    ensures || Step(s, t, op).pc[w] == s.pc[w]
            || s.pc[t] == Switching(w)
            || Step(s, t, op).pc[w] == Wake(s.pc[w])
  {
    if s.pc[t].CastWake? {
      assert Step(s, t, op).pc[w] == if w in s.pc[t].out then Wake(s.pc[w]) else s.pc[w];
    } else if s.pc[t].Casting? || s.pc[t].CastAcquire? || s.pc[t].CastClear? {
      CasterMovesItself(s, t, w, op);
    } else if s.pc[t].Acquiring? || s.pc[t].Unlocking? || s.pc[t].WaitReleasing? {
      RoutineMovesItself(s, t, w, op);
    } else if s.pc[t].LockOwner? || s.pc[t].TryOwner? || s.pc[t].LockCount? || s.pc[t].TryCount? {
      LockerMovesItself(s, t, w, op);
    }
  }

  lemma CasterMovesItself(s: Sys, t: Tid, w: Tid, op: Op)
    requires s.Valid() && t < |s.pc| && w < |s.pc| && w != t
    requires s.pc[t].Casting? || s.pc[t].CastAcquire? || s.pc[t].CastClear?
    ensures Step(s, t, op).pc[w] == s.pc[w]
  {
  }

  lemma RoutineMovesItself(s: Sys, t: Tid, w: Tid, op: Op)
    requires s.Valid() && t < |s.pc| && w < |s.pc| && w != t
    requires s.pc[t].Acquiring? || s.pc[t].Unlocking? || s.pc[t].WaitReleasing?
    ensures Step(s, t, op).pc[w] == s.pc[w]
  {
  }

  lemma LockerMovesItself(s: Sys, t: Tid, w: Tid, op: Op)
    requires s.Valid() && t < |s.pc| && w < |s.pc| && w != t
    requires s.pc[t].LockOwner? || s.pc[t].TryOwner? || s.pc[t].LockCount? || s.pc[t].TryCount?
    ensures Step(s, t, op).pc[w] == s.pc[w]
  {
  }

  /** A sleeper enters user code by its own step from the run queue, or by a switch to it. */
  lemma OnlyTheseResume(s: Sys, t: Tid, w: Tid, op: Op)
    requires s.Valid() && t < |s.pc| && w < |s.pc|
    requires s.pc[w].Asleep? || s.pc[w].Ready? || s.pc[w].WaitReleasing? || s.pc[w].Switching?
    requires Step(s, t, op).pc[w].User?
    ensures (t == w && s.pc[t].Ready?) || s.pc[t] == Switching(w)
  {
    if t != w {
      OthersStay(s, t, w, op);
    }
  }

  // ------------------------------------------------------------------
  // No thread is stranded
  // ------------------------------------------------------------------

  /** Thread b is inside one of the five operations and its next access changes the state. */
  ghost predicate Advances(s: Sys, b: Tid)
    requires s.Valid()
  {
    b < |s.pc| && !s.pc[b].User? && Step(s, b, CallLock) != s
  }

  /** The agent that owes the store x is to be linked by is running, and its next step stores it. */
  lemma LinkerAdvances(s: Sys, g: Ghost, x: Tid) returns (b: Tid)
    requires Inv(s, g) && x < |s.pc| && s.core.acq[x].Link?
    ensures Advances(s, b)
    ensures Step(s, b, CallLock).core == AcquireStep(s.core, x)
  {
    LinkIsQueued(s.core, g.abs, x);
    b := LinkerOf(s, g, x);
    var d := AcquireStep(s.core, x);
    assert d.acq[x].NoAcquire? && d != s.core;
  }

  lemma LinkerOf(s: Sys, g: Ghost, x: Tid) returns (b: Tid)
    requires Placed(s, g) && x < |s.pc| && s.core.acq[x].Link? && x in g.abs.queue
    ensures b < |s.pc| && (if b == x then s.pc[b].Acquiring? else Cur(s.pc[b], x))
  {
    assert ThreadOk(s, g, x);
    b := g.loc[x].agent;
  }

  lemma LinkIsQueued(c: Core, a: Abs, x: Tid)
    requires Encodes(c, a) && x < |c.acq| && c.acq[x].Link?
    ensures x in a.queue
  {
    var k := LinkTarget(c, a, x);
  }

  /** A spin loop waits for a running thread whose very next step fills the cell spun on. */
  lemma SpinnerIsServed(s: Sys, g: Ghost, x: Tid) returns (b: Tid)
    requires Inv(s, g) && x < |s.pc|
    requires SpunCell(s.core, x).Some? && s.core.Read(SpunCell(s.core, x).value) == Null
    ensures Advances(s, b)
    ensures Step(s, b, CallLock).core.Read(SpunCell(s.core, x).value) != Null
  {
    var y := SpinIsOwed(s.core, g.abs, x);
    b := LinkerAdvances(s, g, y);
  }

  ghost predicate SpinsOnNull(s: Sys, x: Tid)
    requires s.Valid()
  {
    x < |s.pc| && SpunCell(s.core, x).Some? && s.core.Read(SpunCell(s.core, x).value) == Null
  }

  /** A routine that does not spin on NULL moves on. */
  lemma AcquireMoves(c: Core, x: Tid)
    requires c.Valid() && x < |c.acq| && !c.acq[x].NoAcquire? && !(c.acq[x].TakeSpin? && c.temp0[x] == Null)
    ensures AcquireStep(c, x).acq[x] != c.acq[x]
  {
  }

  lemma ReleaseMoves(c: Core, t: Tid)
    requires c.Valid() && t < |c.acq| && !c.rel[t].NoRelease? && !c.rel[t].Unreachable?
    requires c.acq[t].TakeSpin? || SpunCell(c, t) == None || c.Read(SpunCell(c, t).value) != Null
    requires !c.acq[t].TakeSpin?
    ensures ReleaseStep(c, t).rel[t] != c.rel[t]
  {
  }

  lemma StepMoves(s: Sys, g: Ghost, b: Tid)
    requires Placed(s, g) && b < |s.pc| && !s.pc[b].User? && !s.pc[b].Asleep?
    requires s.pc[b].Acquiring? ==> AcquireStep(s.core, b).acq[b] != s.core.acq[b]
    requires s.pc[b].CastAcquire? ==> s.pc[b].cur < |s.pc|
    requires s.pc[b].CastAcquire? ==> AcquireStep(s.core, s.pc[b].cur).acq[s.pc[b].cur] != s.core.acq[s.pc[b].cur]
    requires s.pc[b].Unlocking? || s.pc[b].WaitReleasing? ==> ReleaseStep(s.core, b).rel[b] != s.core.rel[b]
    ensures Advances(s, b)
  {
    assert ThreadOk(s, g, b);
    var s' := Step(s, b, CallLock);
    if s.pc[b].Acquiring? {
      assert s'.core.acq[b] != s.core.acq[b];
    } else if s.pc[b].CastAcquire? {
      assert s'.core.acq[s.pc[b].cur] != s.core.acq[s.pc[b].cur];
    } else if s.pc[b].Unlocking? || s.pc[b].WaitReleasing? {
      assert s'.core.rel[b] != s.core.rel[b];
    } else {
      assert s'.pc[b] != s.pc[b];
    }
  }

  /** Whom the holder's progress depends on: itself, or whoever is about to wake it. */
  lemma AgentOf(s: Sys, g: Ghost, h: Tid) returns (b: Tid)
    requires Placed(s, g) && h < |s.pc| && g.abs.holder == Some(h)
    ensures b < |s.pc|
    ensures s.pc[b].User? || s.pc[b].Asleep? ==> b == h
    ensures s.pc[b].User? ==> s.depth[b] > 0
    ensures s.pc[b].Asleep? ==> s.pc[b] == Asleep(InWait(false))
  {
    assert ThreadOk(s, g, h);
    b := if s.pc[h].Asleep? && s.pc[h] != Asleep(InWait(false)) then g.loc[h].agent else h;
    assert ThreadOk(s, g, b);
  }

  lemma RoutineRuns(s: Sys, g: Ghost, b: Tid)
    requires Placed(s, g) && b < |s.pc|
    ensures s.pc[b].Acquiring? ==> !s.core.acq[b].NoAcquire? && s.core.rel[b].NoRelease?
    ensures s.pc[b].CastAcquire? ==> s.pc[b].cur < |s.pc| && !s.core.acq[s.pc[b].cur].NoAcquire?
    ensures s.pc[b].Unlocking? || s.pc[b].WaitReleasing? ==> !s.core.rel[b].NoRelease?
  {
    assert ThreadOk(s, g, b);
    assert s.pc[b].CastAcquire? ==> ThreadOk(s, g, s.pc[b].cur);
  }

  lemma TakerReleasesNothing(c: Core, a: Abs, x: Tid)
    requires Encodes(c, a) && x < |c.acq| && !c.rel[x].NoRelease?
    ensures !c.acq[x].TakeSpin? && !c.rel[x].Unreachable?
  {
  }

  /** While the mutex is held, some access can always move on, unless it is the caller's turn: the
      holder is in its critical section, or sleeps in cnd_wait on a mutex it locked twice. */
  lemma HeldLockMoves(s: Sys, g: Ghost) returns (b: Tid)
    requires Inv(s, g) && g.abs.holder.Some?
    ensures b < |s.pc|
    ensures || Advances(s, b)
            || (Some(b) == g.abs.holder && s.pc[b].User? && s.depth[b] > 0)
            || (Some(b) == g.abs.holder && s.pc[b] == Asleep(InWait(false)))
  {
    if x: Tid :| SpinsOnNull(s, x) {
      b := SpinnerIsServed(s, g, x);
    } else {
      var h := g.abs.holder.value;
      b := AgentOf(s, g, h);
      RoutineRuns(s, g, b);
      if !s.pc[b].User? && !s.pc[b].Asleep? {
        NobodySpins(s, g, b);
        StepMoves(s, g, b);
      }
    }
  }

  lemma NobodySpins(s: Sys, g: Ghost, b: Tid)
    requires Inv(s, g) && b < |s.pc| && forall x: Tid :: !SpinsOnNull(s, x)
    ensures s.pc[b].Acquiring? ==> AcquireStep(s.core, b).acq[b] != s.core.acq[b]
    ensures s.pc[b].CastAcquire? ==> s.pc[b].cur < |s.pc| && AcquireStep(s.core, s.pc[b].cur).acq[s.pc[b].cur] != s.core.acq[s.pc[b].cur]
    ensures s.pc[b].Unlocking? || s.pc[b].WaitReleasing? ==> ReleaseStep(s.core, b).rel[b] != s.core.rel[b]
  {
    RoutineRuns(s, g, b);
    assert !SpinsOnNull(s, b);
    if s.pc[b].Acquiring? {
      AcquireMoves(s.core, b);
    } else if s.pc[b].CastAcquire? {
      assert !SpinsOnNull(s, s.pc[b].cur);
      AcquireMoves(s.core, s.pc[b].cur);
    } else if s.pc[b].Unlocking? || s.pc[b].WaitReleasing? {
      TakerReleasesNothing(s.core, g.abs, b);
      ReleaseMoves(s.core, b);
    }
  }
}
