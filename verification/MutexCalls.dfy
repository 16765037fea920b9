/** What each call of the five operations does between call and return, in every run: its answer, its
    effect, and that it does not stop on the way. */
module MutexCalls {
  import opened Options
  import opened MutexQueue
  import opened CondMutex
  import opened MutexTheorems

  // ------------------------------------------------------------------
  // One step
  // ------------------------------------------------------------------

  /** Thread t is inside a call of op that began at nesting depth d. */
  ghost predicate Doing(op: Op, d: int, s: Sys, t: Tid)
    requires s.Valid() && t < |s.pc|
  {
    var p := s.pc[t];
    match op
    case CallLock =>
      || (p.LockOwner? && s.depth[t] == d)
      || (p.LockCount? && s.depth[t] == d > 0)
      || (p.Acquiring? && d == 0 && s.core.acq[t] != FastLoad(true) && s.core.acq[t] != FastCas(true))
      || (d == 0 && (p == Asleep(InLock) || p == Ready(InLock)))
    case CallTryLock =>
      || (p.TryOwner? && s.depth[t] == d)
      || (p.TryCount? && s.depth[t] == d > 0)
      || (p.Acquiring? && d == 0 && (s.core.acq[t] == FastLoad(true) || s.core.acq[t] == FastCas(true) || s.core.acq[t].StoreOwner?))
    case CallUnlock =>
      || (p.UnlockOwner? && s.depth[t] == d)
      || (p.UnlockCount? && s.depth[t] == d > 0)
      || (d == 1 && (p.Unlocking? || p.Waking?))
    case CallWait =>
      || ((p.WaitOwner? || p.WaitOwnerAgain?) && s.depth[t] == d)
      || ((p.WaitCount? || p.WaitAppend?) && s.depth[t] == d > 0)
      || (d == 1 && (p.WaitReleasing? || p.Switching? || p == Asleep(InWait(true)) || p == Ready(InWait(true))))
      || (d >= 2 && s.depth[t] == d && (p == Asleep(InWait(false)) || p == Ready(InWait(false))))
    case CallBroadcast =>
      (p.CastClear? || p.Casting? || p.CastAcquire? || p.CastWake?) && s.depth[t] == d
  }

  /** The call of op that thread t began at nesting depth d has returned in s', one step after s. */
  ghost predicate Answers(op: Op, d: int, s: Sys, s': Sys, t: Tid)
    requires s.Valid() && s'.Valid() && t < |s'.pc|
  {
    var p, depth := s'.pc[t], s'.depth[t];
    match op
    case CallLock =>
      if d == 0 then p == User(Success) && depth == 1
      else if s.recursive && d < SIZE_MAX then p == User(Success) && depth == d + 1
      else p == User(Error) && depth == d
    case CallTryLock =>
      if d == 0 then (p == User(Success) && depth == 1) || (p == User(Busy) && depth == 0 && s.core.waitEnd != Null)
      else if s.recursive && d < SIZE_MAX then p == User(Success) && depth == d + 1
      else p == User(Error) && depth == d
    case CallUnlock =>
      if d == 0 then p == User(Error) && depth == 0 else p == User(Success) && depth == d - 1
    case CallWait =>
      if d == 0 then p == User(Error) && depth == 0 else p == User(Success) && depth == d
    case CallBroadcast => p == User(Success) && depth == d
  }

  lemma Starts(s: Sys, g: Ghost, t: Tid, op: Op)
    requires Inv(s, g) && t < |s.pc| && s.pc[t].User?
    ensures Doing(op, s.depth[t], Step(s, t, op), t)
  {
  }

  /** In user code and at the tests of `owner`, the owner is who has locked the mutex. */
  lemma TesterKnows(s: Sys, g: Ghost, t: Tid)
    requires Inv(s, g) && t < |s.pc|
    requires s.pc[t].User? || s.pc[t].LockOwner? || s.pc[t].TryOwner? || s.pc[t].UnlockOwner? || s.pc[t].WaitOwner? || s.pc[t].WaitOwnerAgain?
    ensures s.depth[t] >= 0 && (s.core.owner == Some(t) <==> s.depth[t] > 0)
    ensures s.depth[t] == 0 && s.core.owner != None ==> s.core.waitEnd != Null
  {
    assert ThreadOk(s, g, t);
    OwnerTellsHolder(s, g, t);
    OwnerIsHolder(s.core, g.abs);
    EndTellsHolder(s.core, g.abs);
  }

  /** The recursion count as the owner sees it. */
  lemma OwnerCounts(s: Sys, g: Ghost, t: Tid)
    requires Inv(s, g) && t < |s.pc|
    requires s.pc[t].LockCount? || s.pc[t].TryCount? || s.pc[t].UnlockCount? || s.pc[t].WaitCount? || s.pc[t].WaitAppend? || (s.pc[t].User? && s.depth[t] > 0)
    ensures s.depth[t] > 0 && s.depth[t] <= SIZE_MAX && s.count == (if s.recursive then s.depth[t] else 0) && (!s.recursive ==> s.depth[t] == 1)
    ensures s.pc[t].WaitAppend? ==> (s.pc[t].release <==> s.depth[t] == 1)
  {
    assert ThreadOk(s, g, t);
  }

  /** What a thread inside a call can rely on. */
  ghost predicate Knows(s: Sys, t: Tid)
    requires s.Valid() && t < |s.pc|
  {
    var p := s.pc[t];
    && s.depth[t] >= 0
    && (p.LockOwner? || p.TryOwner? || p.UnlockOwner? || p.WaitOwner? || p.WaitOwnerAgain? ==>
          && (s.core.owner == Some(t) <==> s.depth[t] > 0)
          && (s.depth[t] == 0 && s.core.owner != None ==> s.core.waitEnd != Null))
    && (p.LockCount? || p.TryCount? || p.UnlockCount? || p.WaitCount? || p.WaitAppend? ==>
          && 0 < s.depth[t] <= SIZE_MAX
          && (if s.recursive then s.count == s.depth[t] else s.count == 0 && s.depth[t] == 1))
    && (p.WaitAppend? ==> (p.release <==> s.depth[t] == 1))
    && (p.Acquiring? ==> !s.core.acq[t].NoAcquire? && s.depth[t] == 0)
    && (p.Unlocking? || p.WaitReleasing? || p.Waking? || p.Switching? ==> s.depth[t] == 0)
    && ((p.Asleep? || p.Ready?) && p.kind != InWait(false) ==> s.depth[t] == 0)
  }

  lemma Knowing(s: Sys, g: Ghost, t: Tid)
    requires Inv(s, g) && t < |s.pc|
    ensures Knows(s, t)
  {
    assert ThreadOk(s, g, t);
    var p := s.pc[t];
    if p.LockOwner? || p.TryOwner? || p.UnlockOwner? || p.WaitOwner? || p.WaitOwnerAgain? {
      TesterKnows(s, g, t);
    } else if p.LockCount? || p.TryCount? || p.UnlockCount? || p.WaitCount? || p.WaitAppend? {
      OwnerCounts(s, g, t);
    }
  }

  lemma NeverCorrupt(s: Sys, g: Ghost, t: Tid, op: Op, u: Tid)
    requires Inv(s, g) && t < |s.pc| && u < |s.pc|
    ensures !Step(s, t, op).pc[u].Corrupt?
  {
    StepKeeps(s, g, t, op);
    assert ThreadOk(Step(s, t, op), Effect(s, g, t), u);
  }

  lemma OwnLock(s: Sys, t: Tid, op: Op, d: int)
    requires s.Valid() && t < |s.pc| && Knows(s, t) && Doing(CallLock, d, s, t)
    ensures Doing(CallLock, d, Step(s, t, op), t) || Answers(CallLock, d, s, Step(s, t, op), t)
  {
  }

  lemma OwnTry(s: Sys, t: Tid, op: Op, d: int)
    requires s.Valid() && t < |s.pc| && Knows(s, t) && Doing(CallTryLock, d, s, t)
    ensures Doing(CallTryLock, d, Step(s, t, op), t) || Answers(CallTryLock, d, s, Step(s, t, op), t)
  {
  }

  lemma OwnUnlock(s: Sys, t: Tid, op: Op, d: int)
    requires s.Valid() && t < |s.pc| && Knows(s, t) && Doing(CallUnlock, d, s, t) && !Step(s, t, op).pc[t].Corrupt?
    ensures Doing(CallUnlock, d, Step(s, t, op), t) || Answers(CallUnlock, d, s, Step(s, t, op), t)
  {
  }

  lemma OwnWait(s: Sys, t: Tid, op: Op, d: int)
    requires s.Valid() && t < |s.pc| && Knows(s, t) && Doing(CallWait, d, s, t)
    ensures Doing(CallWait, d, Step(s, t, op), t) || Answers(CallWait, d, s, Step(s, t, op), t)
  {
  }

  lemma OwnCast(s: Sys, t: Tid, op: Op, d: int)
    requires s.Valid() && t < |s.pc| && Doing(CallBroadcast, d, s, t) && !Step(s, t, op).pc[t].Corrupt?
    ensures Doing(CallBroadcast, d, Step(s, t, op), t) || Answers(CallBroadcast, d, s, Step(s, t, op), t)
  {
  }

  lemma OwnStep(s: Sys, g: Ghost, t: Tid, turn: Op, op: Op, d: int)
    requires Inv(s, g) && t < |s.pc| && Doing(op, d, s, t)
    ensures Doing(op, d, Step(s, t, turn), t) || Answers(op, d, s, Step(s, t, turn), t)
  {
    Knowing(s, g, t);
    NeverCorrupt(s, g, t, turn, t);
    match op
    case CallLock => OwnLock(s, t, turn, d);
    case CallTryLock => OwnTry(s, t, turn, d);
    case CallUnlock => OwnUnlock(s, t, turn, d);
    case CallWait => OwnWait(s, t, turn, d);
    case CallBroadcast => OwnCast(s, t, turn, d);
  }

  // ---- a step of another thread ----

  /** What another thread's step may do to t: nothing, make it schedulable, or switch to it. */
  lemma OthersLeave(s: Sys, g: Ghost, u: Tid, t: Tid, op: Op)
    requires Inv(s, g) && u < |s.pc| && t < |s.pc| && u != t
    ensures var s' := Step(s, u, op);
      || (s'.pc[t] == s.pc[t] && s'.depth[t] == s.depth[t])
      || (s.pc[t].Asleep? && s'.pc[t] == Ready(s.pc[t].kind) && s'.depth[t] == s.depth[t])
      || (s.pc[t].Asleep? && s.pc[t].kind != InWait(false) && s'.pc[t] == User(Success) && s'.depth[t] == s.depth[t] + 1)
  {
    OthersStay(s, u, t, op);
    NeverCorrupt(s, g, u, op, t);
    OthersDepth(s, u, t, op);
    if s.pc[u] == Switching(t) {
      SwitchedAsleep(s, g, u, t);
    }
  }

  lemma OthersDepth(s: Sys, u: Tid, t: Tid, op: Op)
    requires s.Valid() && u < |s.pc| && t < |s.pc| && u != t
    ensures s.pc[u] != Switching(t) ==> Step(s, u, op).depth[t] == s.depth[t]
  {
  }

  lemma SwitchedAsleep(s: Sys, g: Ghost, u: Tid, t: Tid)
    requires Inv(s, g) && u < |s.pc| && t < |s.pc| && u != t && s.pc[u] == Switching(t)
    ensures s.pc[t].Asleep? && s.pc[t].kind != InWait(false)
  {
    assert ThreadOk(s, g, u);
    assert ThreadOk(s, g, t);
  }

  /** The acquire routine of a thread that runs it for itself is nobody else's. */
  lemma AcquirerAlone(s: Sys, g: Ghost, u: Tid, t: Tid, op: Op)
    requires Inv(s, g) && u < |s.pc| && t < |s.pc| && u != t && s.pc[t].Acquiring?
    ensures Step(s, u, op).core.acq[t] == s.core.acq[t]
  {
    assert ThreadOk(s, g, t);
    assert ThreadOk(s, g, u);
    AcquireElsewhere(s, u, t, op);
  }

  lemma AcquireStays(c: Core, x: Tid, t: Tid)
    requires c.Valid() && x < |c.acq| && t < |c.acq|
    ensures x != t ==> AcquireStep(c, x).acq[t] == c.acq[t]
    ensures ReleaseStep(c, x).acq[t] == c.acq[t]
  {
  }

  lemma AcquireElsewhere(s: Sys, u: Tid, t: Tid, op: Op)
    requires s.Valid() && u < |s.pc| && t < |s.pc| && u != t
    requires s.pc[u].Casting? && s.pc[u].todo != [] ==> s.pc[u].todo[0] != t
    requires s.pc[u].CastAcquire? ==> s.pc[u].cur != t
    ensures Step(s, u, op).core.acq[t] == s.core.acq[t]
  {
    match s.pc[u]
    case CastAcquire(_, _, _) => CasterElsewhere(s, u, t, op);
    case Casting(_, _) => CasterElsewhere(s, u, t, op);
    case Unlocking => RoutineElsewhere(s, u, t, op);
    case WaitReleasing => RoutineElsewhere(s, u, t, op);
    case Acquiring => RoutineElsewhere(s, u, t, op);
    case Switching(_) => WakerElsewhere(s, u, op);
    case Waking(_) => WakerElsewhere(s, u, op);
    case Ready(_) => WakerElsewhere(s, u, op);
    case CastWake(_) => WakerElsewhere(s, u, op);
    case _ => TesterElsewhere(s, u, t, op);
  }

  lemma CasterElsewhere(s: Sys, u: Tid, t: Tid, op: Op)
    requires s.Valid() && u < |s.pc| && t < |s.pc| && u != t && (s.pc[u].Casting? || s.pc[u].CastAcquire?)
    requires s.pc[u].Casting? && s.pc[u].todo != [] ==> s.pc[u].todo[0] != t
    requires s.pc[u].CastAcquire? ==> s.pc[u].cur != t
    ensures Step(s, u, op).core.acq[t] == s.core.acq[t]
  {
    if s.pc[u].CastAcquire? && s.pc[u].cur < |s.pc| {
      AcquireStays(s.core, s.pc[u].cur, t);
    }
  }

  lemma TesterElsewhere(s: Sys, u: Tid, t: Tid, op: Op)
    requires s.Valid() && u < |s.pc| && t < |s.pc| && u != t
    requires !s.pc[u].Casting? && !s.pc[u].CastAcquire? && !s.pc[u].Unlocking? && !s.pc[u].WaitReleasing? && !s.pc[u].Acquiring?
    requires !s.pc[u].Switching? && !s.pc[u].Waking? && !s.pc[u].Ready? && !s.pc[u].CastWake?
    ensures Step(s, u, op).core.acq[t] == s.core.acq[t]
  {
  }

  lemma WakerElsewhere(s: Sys, u: Tid, op: Op)
    requires s.Valid() && u < |s.pc| && (s.pc[u].Switching? || s.pc[u].Waking? || s.pc[u].Ready? || s.pc[u].CastWake?)
    ensures Step(s, u, op).core == s.core
  {
  }

  lemma RoutineElsewhere(s: Sys, u: Tid, t: Tid, op: Op)
    requires s.Valid() && u < |s.pc| && t < |s.pc| && u != t && (s.pc[u].Unlocking? || s.pc[u].WaitReleasing? || s.pc[u].Acquiring?)
    ensures Step(s, u, op).core.acq[t] == s.core.acq[t]
  {
    AcquireStays(s.core, u, t);
  }

  lemma OtherStep(s: Sys, g: Ghost, u: Tid, t: Tid, turn: Op, op: Op, d: int)
    requires Inv(s, g) && u < |s.pc| && t < |s.pc| && u != t && Doing(op, d, s, t)
    ensures Doing(op, d, Step(s, u, turn), t) || (Answers(op, d, s, Step(s, u, turn), t) && Step(s, u, turn).pc[t] == User(Success))
  {
    Knowing(s, g, t);
    OthersLeave(s, g, u, t, turn);
    if s.pc[t].Acquiring? {
      AcquirerAlone(s, g, u, t, turn);
    }
  }

  /** Mention it to unfold what a sealed predicate says. */
  ghost predicate Look(k: nat) { true }

  /** With a step of thread u from s to s', t's call goes on or returns. Sealed. */
  ghost predicate GoesOn(op: Op, d: int, s: Sys, u: Tid, s': Sys, t: Tid) {
    forall k: nat {:trigger Look(k)} :: Look(k) ==>
      && s.Valid() && s'.Valid() && t < |s'.pc|
      && if s'.pc[t].User? then Answers(op, d, s, s', t) && (s'.pc[t] != User(Success) ==> u == t)
         else Doing(op, d, s', t)
  }

  /** t's call does not return with the step from s to s', and goes on from there. */
  lemma GoesFurther(op: Op, d: int, s: Sys, u: Tid, s': Sys, t: Tid, g: Ghost, v: Tid, turn: Op)
    requires GoesOn(op, d, s, u, s', t) && Inv(s', g) && v < |s'.pc| && t < |s'.pc| && !s'.pc[t].User?
    ensures GoesOn(op, d, s', v, Step(s', v, turn), t)
  {
    assert Look(0);
    StepGoesOn(s', g, v, t, turn, op, d);
  }

  lemma StepGoesOn(s: Sys, g: Ghost, u: Tid, t: Tid, turn: Op, op: Op, d: int)
    requires Inv(s, g) && u < |s.pc| && t < |s.pc| && Doing(op, d, s, t)
    ensures GoesOn(op, d, s, u, Step(s, u, turn), t)
  {
    var s' := Step(s, u, turn);
    if u == t {
      OwnStep(s, g, t, turn, op, d);
    } else {
      OtherStep(s, g, u, t, turn, op, d);
    }
    if Doing(op, d, s', t) {
      DoingIsInside(op, d, s', t);
    } else {
      AnswersReturn(op, d, s, s', t);
    }
  }

  lemma CallStarts(s: Sys, g: Ghost, t: Tid, op: Op)
    requires Inv(s, g) && t < |s.pc| && s.pc[t].User?
    ensures GoesOn(op, s.depth[t], s, t, Step(s, t, op), t)
  {
    Starts(s, g, t, op);
    DoingIsInside(op, s.depth[t], Step(s, t, op), t);
  }

  // ------------------------------------------------------------------
  // Runs
  // ------------------------------------------------------------------

  /** The state after the first k turns. */
  function After(threads: nat, recursive: bool, sched: seq<Turn>, k: nat): (r: Sys)
    requires Legal(sched, threads) && k <= |sched|
    ensures r.Valid() && |r.pc| == threads
  {
    Run(Init(threads, recursive), sched[..k])
  }

  ghost function Past(threads: nat, recursive: bool, sched: seq<Turn>, k: nat): Ghost
    requires Legal(sched, threads) && k <= |sched|
  {
    History(threads, recursive, sched[..k])
  }

  lemma AfterOk(threads: nat, recursive: bool, sched: seq<Turn>, k: nat)
    requires Legal(sched, threads) && k <= |sched|
    ensures Inv(After(threads, recursive, sched, k), Past(threads, recursive, sched, k))
  {
    RunKeeps(threads, recursive, sched[..k]);
  }

  lemma AfterNext(threads: nat, recursive: bool, sched: seq<Turn>, k: nat)
    requires Legal(sched, threads) && k < |sched|
    ensures After(threads, recursive, sched, k + 1) == Step(After(threads, recursive, sched, k), sched[k].t, sched[k].op)
    ensures |Past(threads, recursive, sched, k).loc| == threads
    ensures Past(threads, recursive, sched, k + 1) == Effect(After(threads, recursive, sched, k), Past(threads, recursive, sched, k), sched[k].t)
  {
    assert sched[..k + 1][..k] == sched[..k];
  }

  /** With turn i thread t calls op, and up to state k it has not been back in user code. */
  ghost predicate Called(threads: nat, recursive: bool, sched: seq<Turn>, t: Tid, op: Op, i: nat, k: nat) {
    && Legal(sched, threads) && i < k <= |sched| && sched[i] == Turn(t, op)
    && After(threads, recursive, sched, i).pc[t].User?
    && forall m | i < m < k :: !After(threads, recursive, sched, m).pc[t].User?
  }

  /** And with state k it is. */
  ghost predicate Returned(threads: nat, recursive: bool, sched: seq<Turn>, t: Tid, op: Op, i: nat, k: nat) {
    Called(threads, recursive, sched, t, op, i, k) && After(threads, recursive, sched, k).pc[t].User?
  }

  lemma DoingIsInside(op: Op, d: int, s: Sys, t: Tid)
    requires s.Valid() && t < |s.pc| && Doing(op, d, s, t)
    ensures !s.pc[t].User?
  {
  }

  lemma AnswersReturn(op: Op, d: int, s: Sys, s': Sys, t: Tid)
    requires s.Valid() && s'.Valid() && t < |s'.pc| && Answers(op, d, s, s', t)
    ensures s'.pc[t].User?
  {
  }

  lemma RecursiveStays(s: Sys, t: Tid, op: Op)
    requires s.Valid() && t < |s.pc|
    ensures Step(s, t, op).recursive == s.recursive
  {
    if s.pc[t].Acquiring? || s.pc[t].Unlocking? || s.pc[t].WaitReleasing? || s.pc[t].CastAcquire? || s.pc[t].Casting? {
      RoutineRecursive(s, t, op);
    }
  }

  lemma RoutineRecursive(s: Sys, t: Tid, op: Op)
    requires s.Valid() && t < |s.pc|
    requires s.pc[t].Acquiring? || s.pc[t].Unlocking? || s.pc[t].WaitReleasing? || s.pc[t].CastAcquire? || s.pc[t].Casting?
    ensures Step(s, t, op).recursive == s.recursive
  {
  }

  lemma {:induction false} RunRecursive(threads: nat, recursive: bool, sched: seq<Turn>, k: nat)
    requires Legal(sched, threads) && k <= |sched|
    ensures After(threads, recursive, sched, k).recursive == recursive
  {
    if k > 0 {
      RunRecursive(threads, recursive, sched, k - 1);
      AfterNext(threads, recursive, sched, k - 1);
      RecursiveStays(After(threads, recursive, sched, k - 1), sched[k - 1].t, sched[k - 1].op);
    }
  }

  /** The call that thread t began with turn i goes on, or returns, with the turn before state k. */
  ghost predicate Goes(threads: nat, recursive: bool, sched: seq<Turn>, t: Tid, op: Op, i: nat, k: nat) {
    && Legal(sched, threads) && t < threads && i < k <= |sched|
    && GoesOn(op, After(threads, recursive, sched, i).depth[t], After(threads, recursive, sched, k - 1), sched[k - 1].t,
              After(threads, recursive, sched, k), t)
  }

  lemma FirstTurn(threads: nat, recursive: bool, sched: seq<Turn>, t: Tid, op: Op, i: nat)
    requires Called(threads, recursive, sched, t, op, i, i + 1)
    ensures Goes(threads, recursive, sched, t, op, i, i + 1)
  {
    AfterOk(threads, recursive, sched, i);
    AfterNext(threads, recursive, sched, i);
    CallStarts(After(threads, recursive, sched, i), Past(threads, recursive, sched, i), t, op);
  }

  lemma NextTurn(threads: nat, recursive: bool, sched: seq<Turn>, t: Tid, op: Op, i: nat, k: nat)
    requires Goes(threads, recursive, sched, t, op, i, k) && k < |sched| && !After(threads, recursive, sched, k).pc[t].User?
    ensures Goes(threads, recursive, sched, t, op, i, k + 1)
  {
    AfterOk(threads, recursive, sched, k);
    AfterNext(threads, recursive, sched, k);
    GoesFurther(op, After(threads, recursive, sched, i).depth[t], After(threads, recursive, sched, k - 1), sched[k - 1].t,
                After(threads, recursive, sched, k), t, Past(threads, recursive, sched, k), sched[k].t, sched[k].op);
  }

  /** A call that has not returned is under way; one that has, has answered with its last step. */
  lemma {:induction false} CallGoesOn(threads: nat, recursive: bool, sched: seq<Turn>, t: Tid, op: Op, i: nat, k: nat)
    requires Called(threads, recursive, sched, t, op, i, k)
    ensures Goes(threads, recursive, sched, t, op, i, k)
    decreases k
  {
    if k == i + 1 {
      FirstTurn(threads, recursive, sched, t, op, i);
    } else {
      CallGoesOn(threads, recursive, sched, t, op, i, k - 1);
      NextTurn(threads, recursive, sched, t, op, i, k - 1);
    }
  }

  // ------------------------------------------------------------------
  // What the calls answer
  // ------------------------------------------------------------------

  lemma Outcome(threads: nat, recursive: bool, sched: seq<Turn>, t: Tid, op: Op, i: nat, j: nat)
    requires Returned(threads, recursive, sched, t, op, i, j)
    ensures Answers(op, After(threads, recursive, sched, i).depth[t], After(threads, recursive, sched, j - 1), After(threads, recursive, sched, j), t)
    ensures After(threads, recursive, sched, j).pc[t] != User(Success) ==> sched[j - 1].t == t
    ensures After(threads, recursive, sched, j - 1).recursive == recursive
  {
    CallGoesOn(threads, recursive, sched, t, op, i, j);
    RunRecursive(threads, recursive, sched, j - 1);
    assert Look(0);
  }

  lemma Inside(threads: nat, recursive: bool, sched: seq<Turn>, t: Tid, op: Op, i: nat, k: nat)
    requires Called(threads, recursive, sched, t, op, i, k) && !After(threads, recursive, sched, k).pc[t].User?
    ensures Doing(op, After(threads, recursive, sched, i).depth[t], After(threads, recursive, sched, k), t)
  {
    CallGoesOn(threads, recursive, sched, t, op, i, k);
    assert Look(0);
  }

  /** In user code a thread is the owner exactly if it has locked the mutex, and then the count tells how
      often. */
  lemma CallerKnows(threads: nat, recursive: bool, sched: seq<Turn>, t: Tid, k: nat)
    requires Legal(sched, threads) && k <= |sched| && t < threads && After(threads, recursive, sched, k).pc[t].User?
    ensures var s := After(threads, recursive, sched, k);
      && s.depth[t] >= 0 && (s.core.owner == Some(t) <==> s.depth[t] > 0)
      && (s.depth[t] > 0 ==> s.depth[t] <= SIZE_MAX && if recursive then s.count == s.depth[t] else s.count == 0 && s.depth[t] == 1)
  {
    var s, g := After(threads, recursive, sched, k), Past(threads, recursive, sched, k);
    AfterOk(threads, recursive, sched, k);
    RunRecursive(threads, recursive, sched, k);
    TesterKnows(s, g, t);
    if s.depth[t] > 0 {
      OwnerCounts(s, g, t);
    }
  }

  /** mtx_lock returns as the owner, with success; only an owner can get an error, exactly if the mutex is
      plain or the count is at its limit. */
  lemma LockAnswers(threads: nat, recursive: bool, sched: seq<Turn>, t: Tid, i: nat, j: nat)
    requires Returned(threads, recursive, sched, t, CallLock, i, j)
    ensures var s, r := After(threads, recursive, sched, i), After(threads, recursive, sched, j);
      && r.core.owner == Some(t)
      && (s.core.owner != Some(t) ==> s.depth[t] == 0 && r.pc[t] == User(Success) && r.depth[t] == 1)
      && (s.core.owner == Some(t) ==>
            if recursive && s.count < SIZE_MAX then r.pc[t] == User(Success) && r.depth[t] == s.depth[t] + 1
            else r.pc[t] == User(Error) && r.depth[t] == s.depth[t])
  {
    Outcome(threads, recursive, sched, t, CallLock, i, j);
    CallerKnows(threads, recursive, sched, t, i);
    CallerKnows(threads, recursive, sched, t, j);
  }

  /** Where a thread is that has called mtx_lock on a mutex it does not own. */
  ghost predicate Contends(s: Sys, g: Ghost, t: Tid)
    requires s.Valid() && t < |s.pc|
  {
    || s.pc[t].LockOwner?
    || (s.pc[t].Acquiring? && !s.core.acq[t].NoAcquire?)
    || (s.pc[t] == Asleep(InLock) && (t in Waiting(g.abs) || exists b: Tid :: b < |s.pc| && (s.pc[b] == Waking(t) || s.pc[b] == Switching(t))))
    || (s.pc[t] == Ready(InLock) && s.core.owner == Some(t))
  }

  /** Until it returns it is at the test of `owner`, in the acquire routine, queued, in the hands of who
      has made it the owner, or in the run queue as the owner. */
  lemma LockUnderWay(threads: nat, recursive: bool, sched: seq<Turn>, t: Tid, i: nat, k: nat)
    requires Called(threads, recursive, sched, t, CallLock, i, k) && !After(threads, recursive, sched, k).pc[t].User?
    requires After(threads, recursive, sched, i).core.owner != Some(t)
    ensures Contends(After(threads, recursive, sched, k), Past(threads, recursive, sched, k), t)
  {
    Inside(threads, recursive, sched, t, CallLock, i, k);
    CallerKnows(threads, recursive, sched, t, i);
    AfterOk(threads, recursive, sched, k);
    Contending(After(threads, recursive, sched, k), Past(threads, recursive, sched, k), t);
  }

  lemma Contending(s: Sys, g: Ghost, t: Tid)
    requires Inv(s, g) && t < |s.pc| && Doing(CallLock, 0, s, t)
    ensures Contends(s, g, t)
  {
    assert ThreadOk(s, g, t);
    if s.pc[t].Ready? {
      OwnerTellsHolder(s, g, t);
    }
  }

  /** mtx_trylock by a thread that does not own the mutex takes it, or finds `wait_end` not NULL with the
      access that decides; by the owner it answers as mtx_lock does. */
  lemma TryLockAnswers(threads: nat, recursive: bool, sched: seq<Turn>, t: Tid, i: nat, j: nat)
    requires Returned(threads, recursive, sched, t, CallTryLock, i, j)
    ensures var s, r := After(threads, recursive, sched, i), After(threads, recursive, sched, j);
      if s.core.owner != Some(t) then
        if r.core.owner == Some(t) then s.depth[t] == 0 && r.pc[t] == User(Success) && r.depth[t] == 1
        else (s.depth[t] == 0 && r.pc[t] == User(Busy) && r.depth[t] == 0
              && sched[j - 1].t == t && After(threads, recursive, sched, j - 1).core.waitEnd != Null)
      else if recursive && s.count < SIZE_MAX then r.core.owner == Some(t) && r.pc[t] == User(Success) && r.depth[t] == s.depth[t] + 1
      else r.core.owner == Some(t) && r.pc[t] == User(Error) && r.depth[t] == s.depth[t]
  {
    Outcome(threads, recursive, sched, t, CallTryLock, i, j);
    CallerKnows(threads, recursive, sched, t, i);
    CallerKnows(threads, recursive, sched, t, j);
  }

  /** It never sleeps. */
  lemma TryLockNeverSleeps(threads: nat, recursive: bool, sched: seq<Turn>, t: Tid, i: nat, k: nat)
    requires Called(threads, recursive, sched, t, CallTryLock, i, k)
    ensures !After(threads, recursive, sched, k).pc[t].Asleep? && !After(threads, recursive, sched, k).pc[t].Ready?
  {
    if !After(threads, recursive, sched, k).pc[t].User? {
      Inside(threads, recursive, sched, t, CallTryLock, i, k);
    }
  }

  /** mtx_unlock is an error exactly for who does not own the mutex; otherwise it undoes one lock, and
      after the last the caller is not the owner. */
  lemma UnlockAnswers(threads: nat, recursive: bool, sched: seq<Turn>, t: Tid, i: nat, j: nat)
    requires Returned(threads, recursive, sched, t, CallUnlock, i, j)
    ensures var s, r := After(threads, recursive, sched, i), After(threads, recursive, sched, j);
      && (s.core.owner != Some(t) ==> r.pc[t] == User(Error) && r.depth[t] == s.depth[t] == 0)
      && (s.core.owner == Some(t) ==> r.pc[t] == User(Success) && r.depth[t] == s.depth[t] - 1)
      && (r.core.owner == Some(t) <==> s.depth[t] >= 2)
  {
    Outcome(threads, recursive, sched, t, CallUnlock, i, j);
    CallerKnows(threads, recursive, sched, t, i);
    CallerKnows(threads, recursive, sched, t, j);
  }

  // ------------------------------------------------------------------
  // The condition list
  // ------------------------------------------------------------------

  lemma RoutineLeavesCond(s: Sys, u: Tid, op: Op)
    requires s.Valid() && u < |s.pc|
    requires s.pc[u].Acquiring? || s.pc[u].Unlocking? || s.pc[u].WaitReleasing? || s.pc[u].CastAcquire? || s.pc[u].Casting?
    ensures Step(s, u, op).cond == s.cond
  {
  }

  lemma OtherwiseCond(s: Sys, u: Tid, op: Op)
    requires s.Valid() && u < |s.pc|
    requires !s.pc[u].Acquiring? && !s.pc[u].Unlocking? && !s.pc[u].WaitReleasing? && !s.pc[u].CastAcquire? && !s.pc[u].Casting?
    ensures Step(s, u, op).cond == if s.pc[u].CastClear? then [] else if s.pc[u].WaitAppend? then s.cond + [u] else s.cond
  {
  }

  lemma CondMoves(s: Sys, u: Tid, op: Op)
    requires s.Valid() && u < |s.pc|
    ensures Step(s, u, op).cond == if s.pc[u].CastClear? then [] else if s.pc[u].WaitAppend? then s.cond + [u] else s.cond
  {
    if s.pc[u].Acquiring? || s.pc[u].Unlocking? || s.pc[u].WaitReleasing? || s.pc[u].CastAcquire? || s.pc[u].Casting? {
      RoutineLeavesCond(s, u, op);
    } else {
      OtherwiseCond(s, u, op);
    }
  }

  lemma CondTurn(threads: nat, recursive: bool, sched: seq<Turn>, k: nat)
    requires Legal(sched, threads) && k < |sched|
    ensures var s, u := After(threads, recursive, sched, k), sched[k].t;
      After(threads, recursive, sched, k + 1).cond == if s.pc[u].CastClear? then [] else if s.pc[u].WaitAppend? then s.cond + [u] else s.cond
  {
    AfterNext(threads, recursive, sched, k);
    CondMoves(After(threads, recursive, sched, k), sched[k].t, sched[k].op);
  }

  /** With turn c a broadcaster clears the condition list, which t is on. */
  ghost predicate Clears(threads: nat, recursive: bool, sched: seq<Turn>, t: Tid, c: nat) {
    && Legal(sched, threads) && c < |sched| && t in After(threads, recursive, sched, c).cond
    && After(threads, recursive, sched, c).pc[sched[c].t].CastClear? && After(threads, recursive, sched, c + 1).cond == []
  }

  lemma LeavingTurn(threads: nat, recursive: bool, sched: seq<Turn>, t: Tid, k: nat)
    requires Legal(sched, threads) && k < |sched|
    requires t in After(threads, recursive, sched, k).cond && t !in After(threads, recursive, sched, k + 1).cond
    ensures Clears(threads, recursive, sched, t, k)
  {
    CondTurn(threads, recursive, sched, k);
  }

  /** A thread leaves the condition list only when a broadcaster clears the list. */
  lemma {:induction false} LeavesByClear(threads: nat, recursive: bool, sched: seq<Turn>, t: Tid, m: nat, k: nat) returns (c: nat)
    requires Legal(sched, threads) && m <= k <= |sched|
    requires t in After(threads, recursive, sched, m).cond && t !in After(threads, recursive, sched, k).cond
    ensures m <= c < k && Clears(threads, recursive, sched, t, c)
    decreases k
  {
    if t in After(threads, recursive, sched, k - 1).cond {
      c := k - 1;
      LeavingTurn(threads, recursive, sched, t, c);
    } else {
      c := LeavesByClear(threads, recursive, sched, t, m, k - 1);
    }
  }

  /** A call of cnd_wait that has put the thread on the list. */
  ghost predicate Listed(p: Pc) {
    p.WaitReleasing? || p.Switching? || p.Asleep? || p.Ready?
  }

  lemma ListsItself(s: Sys, g: Ghost, u: Tid, t: Tid, turn: Op, d: int)
    requires Inv(s, g) && u < |s.pc| && t < |s.pc| && Doing(CallWait, d, s, t) && !Listed(s.pc[t])
    ensures var s' := Step(s, u, turn);
      && s'.pc[t] != User(Success)
      && (Listed(s'.pc[t]) ==> u == t && s.pc[t].WaitAppend? && s'.cond == s.cond + [t] && s'.depth[t] == if d == 1 then 0 else d)
  {
    Knowing(s, g, t);
    if u != t {
      OthersLeave(s, g, u, t, turn);
    } else {
      ListsAlone(s, t, turn, d);
    }
  }

  lemma ListsAlone(s: Sys, t: Tid, turn: Op, d: int)
    requires s.Valid() && t < |s.pc| && Knows(s, t) && Doing(CallWait, d, s, t) && !Listed(s.pc[t])
    ensures var s' := Step(s, t, turn);
      && s'.pc[t] != User(Success)
      && (Listed(s'.pc[t]) ==> s.pc[t].WaitAppend? && s'.cond == s.cond + [t] && s'.depth[t] == if d == 1 then 0 else d)
  {
  }

  /** With turn k thread t, of depth d, puts itself on the condition list, and gives up a mutex that it has
      locked once. */
  ghost predicate Appends(threads: nat, recursive: bool, sched: seq<Turn>, t: Tid, d: int, k: nat) {
    && Legal(sched, threads) && k < |sched| && t < threads && sched[k].t == t
    && After(threads, recursive, sched, k + 1).cond == After(threads, recursive, sched, k).cond + [t]
    && After(threads, recursive, sched, k + 1).depth[t] == if d == 1 then 0 else d
  }

  lemma ListTurn(threads: nat, recursive: bool, sched: seq<Turn>, t: Tid, i: nat, k: nat)
    requires Called(threads, recursive, sched, t, CallWait, i, k) && k < |sched|
    requires !After(threads, recursive, sched, k).pc[t].User? && !Listed(After(threads, recursive, sched, k).pc[t])
    requires Listed(After(threads, recursive, sched, k + 1).pc[t]) || After(threads, recursive, sched, k + 1).pc[t] == User(Success)
    ensures Appends(threads, recursive, sched, t, After(threads, recursive, sched, i).depth[t], k)
  {
    Inside(threads, recursive, sched, t, CallWait, i, k);
    AfterOk(threads, recursive, sched, k);
    AfterNext(threads, recursive, sched, k);
    ListsItself(After(threads, recursive, sched, k), Past(threads, recursive, sched, k), sched[k].t, t, sched[k].op, After(threads, recursive, sched, i).depth[t]);
  }

  /** cnd_wait has put its caller on the condition list, having given up a mutex that was locked once. */
  lemma {:induction false} WaitLists(threads: nat, recursive: bool, sched: seq<Turn>, t: Tid, i: nat, k: nat) returns (m: nat)
    requires Called(threads, recursive, sched, t, CallWait, i, k)
    requires Listed(After(threads, recursive, sched, k).pc[t]) || After(threads, recursive, sched, k).pc[t] == User(Success)
    ensures i < m < k && Appends(threads, recursive, sched, t, After(threads, recursive, sched, i).depth[t], m)
    decreases k
  {
    if k == i + 1 {
      CallBegins(threads, recursive, sched, t, CallWait, i);
    } else if Listed(After(threads, recursive, sched, k - 1).pc[t]) {
      m := WaitLists(threads, recursive, sched, t, i, k - 1);
    } else {
      m := k - 1;
      ListTurn(threads, recursive, sched, t, i, m);
    }
  }

  lemma UserIsUnlisted(s: Sys, g: Ghost, t: Tid)
    requires Inv(s, g) && t < |s.pc| && s.pc[t].User?
    ensures t !in s.cond
  {
    assert ThreadOk(s, g, t);
  }

  /** cnd_wait is an error exactly for who does not own the mutex; otherwise it returns with success, as
      the owner, at the same nesting depth. */
  lemma WaitAnswers(threads: nat, recursive: bool, sched: seq<Turn>, t: Tid, i: nat, j: nat)
    requires Returned(threads, recursive, sched, t, CallWait, i, j)
    ensures var s, r := After(threads, recursive, sched, i), After(threads, recursive, sched, j);
      && r.depth[t] == s.depth[t] && (r.core.owner == Some(t) <==> s.core.owner == Some(t))
      && r.pc[t] == User(if s.core.owner == Some(t) then Success else Error)
  {
    Outcome(threads, recursive, sched, t, CallWait, i, j);
    CallerKnows(threads, recursive, sched, t, i);
    CallerKnows(threads, recursive, sched, t, j);
  }

  /** It has not returned with success before turn m put the caller on the list and a later turn c, of a
      broadcaster, took it off. */
  lemma WaitWaits(threads: nat, recursive: bool, sched: seq<Turn>, t: Tid, i: nat, j: nat) returns (m: nat, c: nat)
    requires Returned(threads, recursive, sched, t, CallWait, i, j) && After(threads, recursive, sched, j).pc[t] == User(Success)
    ensures i < m < c < j && Appends(threads, recursive, sched, t, After(threads, recursive, sched, i).depth[t], m)
    ensures Clears(threads, recursive, sched, t, c)
  {
    m := WaitLists(threads, recursive, sched, t, i, j);
    AfterOk(threads, recursive, sched, j);
    UserIsUnlisted(After(threads, recursive, sched, j), Past(threads, recursive, sched, j), t);
    c := LeavesByClear(threads, recursive, sched, t, m + 1, j);
  }

  // ------------------------------------------------------------------
  // Broadcasts
  // ------------------------------------------------------------------

  /** w is in the hands of broadcaster b. */
  ghost predicate HeldBy(s: Sys, b: Tid, w: Tid)
    requires b < |s.pc|
  {
    w in Todo(s.pc[b]) || Cur(s.pc[b], w) || w in Out(s.pc[b])
  }

  /** w is linked into the queue of the mutex, or owns it and is in the run queue. */
  ghost predicate Relayed(s: Sys, g: Ghost, w: Tid)
    requires s.Valid() && w < |s.pc|
  {
    (w in Waiting(g.abs) && s.core.acq[w].NoAcquire?) || (s.pc[w].Ready? && s.core.owner == Some(w))
  }

  lemma QueuedIsRelayed(s: Sys, g: Ghost, w: Tid)
    requires Inv(s, g) && w < |s.pc| && (g.loc[w].Queued? || g.loc[w].InRunQueue?)
    ensures Relayed(s, g, w)
  {
    assert ThreadOk(s, g, w);
    if g.loc[w].InRunQueue? {
      OwnerTellsHolder(s, g, w);
    }
  }

  lemma ClearHolds(s: Sys, b: Tid, w: Tid, op: Op)
    requires s.Valid() && b < |s.pc| && s.pc[b].CastClear? && w in s.cond
    ensures HeldBy(Step(s, b, op), b, w) && Step(s, b, op).cond == []
  {
  }

  lemma CastOneHolds(s: Sys, b: Tid, w: Tid, op: Op)
    requires s.Valid() && b < |s.pc| && s.pc[b].Casting? && HeldBy(s, b, w) && !Step(s, b, op).pc[b].Corrupt?
    ensures HeldBy(Step(s, b, op), b, w)
  {
    var Casting(todo, out) := s.pc[b];
    assert w in todo ==> w == todo[0] || w in todo[1..];
  }

  lemma CastAcquireHolds(s: Sys, g: Ghost, b: Tid, w: Tid, op: Op)
    requires Inv(s, g) && b < |s.pc| && w < |s.pc| && s.pc[b].CastAcquire? && HeldBy(s, b, w)
    ensures s.pc[b].cur < |s.pc|
    ensures HeldBy(Step(s, b, op), b, w) || Effect(s, g, b).loc[w] == Queued
  {
    RoutineRuns(s, g, b);
    CastAcquireEnds(s, g, b, w, op);
  }

  lemma CastAcquireEnds(s: Sys, g: Ghost, b: Tid, w: Tid, op: Op)
    requires s.Valid() && b < |s.pc| == |g.loc| && w < |s.pc| && s.pc[b].CastAcquire? && HeldBy(s, b, w)
    requires s.pc[b].cur < |s.pc|
    ensures HeldBy(Step(s, b, op), b, w) || Effect(s, g, b).loc[w] == Queued
  {
    var CastAcquire(cur, todo, out) := s.pc[b];
    LinkEnds(s.core, cur);
    assert w == cur ==> w in out + [cur];
  }

  lemma LinkEnds(c: Core, x: Tid)
    requires c.Valid() && x < |c.acq|
    ensures c.acq[x].Link? ==> AcquireStep(c, x).acq[x].NoAcquire?
    ensures AcquireStep(c, x).acq[x].Link? ==> c.acq[x].Exchange?
  {
  }

  lemma CastWakeHolds(s: Sys, g: Ghost, b: Tid, w: Tid, op: Op)
    requires s.Valid() && b < |s.pc| == |g.loc| && w < |s.pc| && s.pc[b].CastWake? && HeldBy(s, b, w)
    ensures Effect(s, g, b).loc[w] == InRunQueue
  {
  }

  lemma OwnCastHolds(s: Sys, g: Ghost, b: Tid, w: Tid, op: Op)
    requires Inv(s, g) && b < |s.pc| && w < |s.pc| && HeldBy(s, b, w)
    ensures HeldBy(Step(s, b, op), b, w) || Relayed(Step(s, b, op), Effect(s, g, b), w)
  {
    StepKeeps(s, g, b, op);
    NeverCorrupt(s, g, b, op, b);
    match s.pc[b] {
      case Casting(_, _) => CastOneHolds(s, b, w, op);
      case CastAcquire(_, _, _) => CastAcquireHolds(s, g, b, w, op);
      case CastWake(_) => CastWakeHolds(s, g, b, w, op);
      case _ =>
    }
    if Effect(s, g, b).loc[w].Queued? || Effect(s, g, b).loc[w].InRunQueue? {
      QueuedIsRelayed(Step(s, b, op), Effect(s, g, b), w);
    }
  }

  lemma CastHolds(s: Sys, g: Ghost, u: Tid, b: Tid, w: Tid, op: Op)
    requires Inv(s, g) && u < |s.pc| && b < |s.pc| && w < |s.pc| && HeldBy(s, b, w)
    ensures HeldBy(Step(s, u, op), b, w) || Relayed(Step(s, u, op), Effect(s, g, u), w)
  {
    if u == b {
      OwnCastHolds(s, g, b, w, op);
    } else {
      OthersLeave(s, g, u, b, op);
    }
  }

  lemma CastTurn(threads: nat, recursive: bool, sched: seq<Turn>, k: nat, b: Tid, w: Tid)
    requires Legal(sched, threads) && k < |sched| && b < threads && w < threads && HeldBy(After(threads, recursive, sched, k), b, w)
    ensures || HeldBy(After(threads, recursive, sched, k + 1), b, w)
            || Relayed(After(threads, recursive, sched, k + 1), Past(threads, recursive, sched, k + 1), w)
  {
    AfterOk(threads, recursive, sched, k);
    AfterNext(threads, recursive, sched, k);
    CastHolds(After(threads, recursive, sched, k), Past(threads, recursive, sched, k), sched[k].t, b, w, sched[k].op);
  }

  lemma ClearTurn(threads: nat, recursive: bool, sched: seq<Turn>, k: nat, w: Tid)
    requires Legal(sched, threads) && k < |sched| && w in After(threads, recursive, sched, k).cond
    requires After(threads, recursive, sched, k).pc[sched[k].t].CastClear?
    ensures w < threads && HeldBy(After(threads, recursive, sched, k + 1), sched[k].t, w)
  {
    AfterOk(threads, recursive, sched, k);
    AfterNext(threads, recursive, sched, k);
    ListIsThreads(After(threads, recursive, sched, k), Past(threads, recursive, sched, k), w);
    ClearHolds(After(threads, recursive, sched, k), sched[k].t, w, sched[k].op);
  }

  lemma OnlyOwnClear(threads: nat, recursive: bool, sched: seq<Turn>, k: nat, b: Tid)
    requires Legal(sched, threads) && k < |sched| && b < threads && After(threads, recursive, sched, k).pc[b].CastClear?
    ensures sched[k].t == b || After(threads, recursive, sched, k + 1).pc[b].CastClear?
  {
    AfterOk(threads, recursive, sched, k);
    AfterNext(threads, recursive, sched, k);
    if sched[k].t != b {
      OthersLeave(After(threads, recursive, sched, k), Past(threads, recursive, sched, k), sched[k].t, b, sched[k].op);
    }
  }

  lemma CallBegins(threads: nat, recursive: bool, sched: seq<Turn>, t: Tid, op: Op, i: nat)
    requires Called(threads, recursive, sched, t, op, i, i + 1)
    ensures After(threads, recursive, sched, i + 1).pc[t] == Call(op)
  {
    AfterNext(threads, recursive, sched, i);
  }

  /** A thread captured by b stays in b's hands until it is relayed. */
  lemma {:induction false} HeldUntilRelayed(threads: nat, recursive: bool, sched: seq<Turn>, b: Tid, c: nat, k: nat, w: Tid) returns (m: nat)
    requires Legal(sched, threads) && c < k <= |sched| && b < threads && w < threads
    requires HeldBy(After(threads, recursive, sched, c + 1), b, w) && !HeldBy(After(threads, recursive, sched, k), b, w)
    ensures c < m <= k && Relayed(After(threads, recursive, sched, m), Past(threads, recursive, sched, m), w)
    decreases k
  {
    if HeldBy(After(threads, recursive, sched, k - 1), b, w) {
      CastTurn(threads, recursive, sched, k - 1, b, w);
      m := k;
    } else {
      m := HeldUntilRelayed(threads, recursive, sched, b, c, k - 1, w);
    }
  }

  /** A call of cnd_broadcast that is past it has cleared the condition list. */
  lemma {:induction false} BroadcastClears(threads: nat, recursive: bool, sched: seq<Turn>, b: Tid, i: nat, k: nat) returns (c: nat)
    requires Called(threads, recursive, sched, b, CallBroadcast, i, k) && !After(threads, recursive, sched, k).pc[b].CastClear?
    ensures i < c < k && sched[c].t == b && After(threads, recursive, sched, c).pc[b].CastClear?
    decreases k
  {
    if k == i + 1 {
      CallBegins(threads, recursive, sched, b, CallBroadcast, i);
    } else if After(threads, recursive, sched, k - 1).pc[b].CastClear? {
      c := k - 1;
      OnlyOwnClear(threads, recursive, sched, c, b);
    } else {
      c := BroadcastClears(threads, recursive, sched, b, i, k - 1);
    }
  }

  lemma UserHoldsNobody(s: Sys, b: Tid, w: Tid)
    requires b < |s.pc| && s.pc[b].User?
    ensures !HeldBy(s, b, w)
  {
  }

  lemma ListIsThreads(s: Sys, g: Ghost, w: Tid)
    requires Placed(s, g) && w in s.cond
    ensures w < |s.pc|
  {
  }

  /** Between each call of cnd_broadcast and its return there is a turn c at which it clears the condition
      list; every thread on the list then has, before the return, been linked into the queue of the mutex
      or been put in the run queue as its owner. The call answers with success. */
  lemma BroadcastRelays(threads: nat, recursive: bool, sched: seq<Turn>, b: Tid, i: nat, j: nat) returns (c: nat)
    requires Returned(threads, recursive, sched, b, CallBroadcast, i, j)
    ensures After(threads, recursive, sched, j).pc[b] == User(Success)
    ensures After(threads, recursive, sched, j).depth[b] == After(threads, recursive, sched, i).depth[b]
    ensures i < c < j && sched[c].t == b && After(threads, recursive, sched, c + 1).cond == []
    ensures forall w | w in After(threads, recursive, sched, c).cond :: w < threads
    ensures forall w | w in After(threads, recursive, sched, c).cond ::
              exists m: nat :: c < m <= j && Relayed(After(threads, recursive, sched, m), Past(threads, recursive, sched, m), w)
  {
    Outcome(threads, recursive, sched, b, CallBroadcast, i, j);
    c := BroadcastClears(threads, recursive, sched, b, i, j);
    CondTurn(threads, recursive, sched, c);
    forall w | w in After(threads, recursive, sched, c).cond
      ensures w < threads && exists m: nat :: c < m <= j && Relayed(After(threads, recursive, sched, m), Past(threads, recursive, sched, m), w)
    {
      ClearTurn(threads, recursive, sched, c, w);
      UserHoldsNobody(After(threads, recursive, sched, j), b, w);
      var m := HeldUntilRelayed(threads, recursive, sched, b, c, j, w);
    }
  }

  /** Who was on the condition list when cnd_broadcast was called is off it by a clear, its own or that of
      another broadcaster, before the call returns. */
  lemma BroadcastEmpties(threads: nat, recursive: bool, sched: seq<Turn>, b: Tid, i: nat, j: nat, w: Tid) returns (c: nat)
    requires Returned(threads, recursive, sched, b, CallBroadcast, i, j) && w in After(threads, recursive, sched, i).cond
    ensures i <= c < j && Clears(threads, recursive, sched, w, c)
  {
    var own := BroadcastRelays(threads, recursive, sched, b, i, j);
    c := LeavesByClear(threads, recursive, sched, w, i, own + 1);
  }

  // ------------------------------------------------------------------
  // Calls do not stop on the way
  // ------------------------------------------------------------------

  /** How many accesses the acquire routine still makes at most, spins apart. */
  function AcquireRank(p: Acquire): nat {
    match p
    case NoAcquire => 0
    case StoreOwner => 1
    case Link(_) => 1
    case TakeStore(_) => 1
    case TakeSpin => 2
    case TakeOwner => 3
    case TakeCas => 4
    case Exchange => 5
    case LateReset => 6
    case Cas(_) => 7
    case Load(_) => 8
    case Reset => 9
    case FastCas(_) => 10
    case FastLoad(_) => 11
  }

  function ReleaseRank(p: Release): nat {
    match p
    case NoRelease => 0
    case Unreachable => 0
    case GrantOwner(_) => 1
    case StoreWaiters(_, _) => 2
    case SpinNext(_) => 3
    case CasLast(_) => 4
    case ClearWaiters(_) => 5
    case LoadEndAgain(_) => 6
    case SpinWaiters(_) => 6
    case LoadNext(_) => 7
    case CasFree => 7
    case ClearOwner => 8
    case LoadEnd => 9
    case LoadWaiters => 10
  }

  /** A bound on the turns that t still takes in its call, spins and sleep apart. */
  function Rank(s: Sys, t: Tid): nat
    requires s.Valid() && t < |s.pc|
  {
    match s.pc[t]
    case User(_) => 0
    case Asleep(_) => 0
    case Corrupt => 0
    case Ready(_) => 1
    case LockOwner => 13
    case TryOwner => 13
    case LockCount => 1
    case TryCount => 1
    case Acquiring => 1 + AcquireRank(s.core.acq[t])
    case UnlockOwner => 14
    case UnlockCount => 13
    case Unlocking => 2 + ReleaseRank(s.core.rel[t])
    case Waking(_) => 1
    case WaitOwner => 16
    case WaitOwnerAgain => 15
    case WaitCount => 14
    case WaitAppend(_) => 13
    case WaitReleasing => 2 + ReleaseRank(s.core.rel[t])
    case Switching(_) => 1
    case CastClear => 3 + 20 * |s.cond|
    case Casting(todo, _) => 2 + 20 * |todo|
    case CastAcquire(cur, todo, _) => 3 + 20 * |todo| + if cur < |s.core.acq| then AcquireRank(s.core.acq[cur]) else 0
    case CastWake(_) => 1
  }

  lemma AcquireCounts(c: Core, x: Tid)
    requires c.Valid() && x < |c.acq| && AcquireStep(c, x).acq[x] != c.acq[x]
    ensures AcquireRank(AcquireStep(c, x).acq[x]) < AcquireRank(c.acq[x])
  {
  }

  lemma ReleaseCounts(c: Core, t: Tid)
    requires c.Valid() && t < |c.acq| && ReleaseStep(c, t).rel[t] != c.rel[t]
    ensures ReleaseRank(ReleaseStep(c, t).rel[t]) < ReleaseRank(c.rel[t])
  {
  }

  lemma RoutineCounts(s: Sys, t: Tid, op: Op)
    requires s.Valid() && t < |s.pc| && (s.pc[t].Acquiring? || s.pc[t].Unlocking? || s.pc[t].WaitReleasing?)
    requires s.pc[t].Acquiring? ==> AcquireStep(s.core, t).acq[t] != s.core.acq[t]
    requires !s.pc[t].Acquiring? ==> ReleaseStep(s.core, t).rel[t] != s.core.rel[t]
    ensures Rank(Step(s, t, op), t) < Rank(s, t)
  {
    if s.pc[t].Acquiring? {
      AcquireCounts(s.core, t);
    } else {
      ReleaseCounts(s.core, t);
    }
  }

  lemma CasterCounts(s: Sys, t: Tid, op: Op)
    requires s.Valid() && t < |s.pc| && (s.pc[t].CastClear? || s.pc[t].Casting? || s.pc[t].CastAcquire? || s.pc[t].CastWake?)
    requires s.pc[t].CastAcquire? ==> s.pc[t].cur < |s.pc| && AcquireStep(s.core, s.pc[t].cur).acq[s.pc[t].cur] != s.core.acq[s.pc[t].cur]
    ensures Rank(Step(s, t, op), t) < Rank(s, t)
  {
    if s.pc[t].CastAcquire? {
      SubjectCounts(s, t, op);
    } else if s.pc[t].Casting? {
      ChainCounts(s, t, op);
    }
  }

  lemma SubjectCounts(s: Sys, t: Tid, op: Op)
    requires s.Valid() && t < |s.pc| && s.pc[t].CastAcquire? && s.pc[t].cur < |s.pc|
    requires AcquireStep(s.core, s.pc[t].cur).acq[s.pc[t].cur] != s.core.acq[s.pc[t].cur]
    ensures Rank(Step(s, t, op), t) < Rank(s, t)
  {
    AcquireCounts(s.core, s.pc[t].cur);
  }

  lemma ChainCounts(s: Sys, t: Tid, op: Op)
    requires s.Valid() && t < |s.pc| && s.pc[t].Casting?
    ensures Rank(Step(s, t, op), t) < Rank(s, t)
  {
  }

  lemma TesterCounts(s: Sys, t: Tid, op: Op)
    requires s.Valid() && t < |s.pc| && !s.pc[t].User? && !s.pc[t].Asleep? && !s.pc[t].Corrupt?
    requires !s.pc[t].Acquiring? && !s.pc[t].Unlocking? && !s.pc[t].WaitReleasing?
    requires !s.pc[t].CastClear? && !s.pc[t].Casting? && !s.pc[t].CastAcquire? && !s.pc[t].CastWake?
    requires !Step(s, t, op).pc[t].Corrupt?
    ensures Rank(Step(s, t, op), t) < Rank(s, t)
  {
    if s.pc[t].LockOwner? || s.pc[t].TryOwner? || s.pc[t].LockCount? || s.pc[t].TryCount? {
      LockerCounts(s, t, op);
    } else if s.pc[t].Waking? || s.pc[t].Switching? || s.pc[t].Ready? {
      WakerCounts(s, t, op);
    }
  }

  lemma LockerCounts(s: Sys, t: Tid, op: Op)
    requires s.Valid() && t < |s.pc| && (s.pc[t].LockOwner? || s.pc[t].TryOwner? || s.pc[t].LockCount? || s.pc[t].TryCount?)
    ensures Rank(Step(s, t, op), t) < Rank(s, t)
  {
  }

  lemma WakerCounts(s: Sys, t: Tid, op: Op)
    requires s.Valid() && t < |s.pc| && (s.pc[t].Waking? || s.pc[t].Switching? || s.pc[t].Ready?)
    requires !Step(s, t, op).pc[t].Corrupt?
    ensures Rank(Step(s, t, op), t) < Rank(s, t)
  {
  }

  /** The cell on which t spins in its call is NULL. */
  ghost predicate Stuck(s: Sys, t: Tid)
    requires s.Valid() && t < |s.pc|
  {
    || ((s.pc[t].Acquiring? || s.pc[t].Unlocking? || s.pc[t].WaitReleasing?) && SpinsOnNull(s, t))
    || (s.pc[t].CastAcquire? && SpinsOnNull(s, s.pc[t].cur))
  }

  /** With each turn of its own a thread comes nearer to the end of its call, unless it sleeps or spins on a
      cell that is NULL. */
  lemma OwnTurnsEnd(s: Sys, g: Ghost, t: Tid, op: Op)
    requires Inv(s, g) && t < |s.pc| && !s.pc[t].User? && !s.pc[t].Asleep? && !Stuck(s, t)
    ensures Rank(Step(s, t, op), t) < Rank(s, t)
  {
    RoutineRuns(s, g, t);
    NeverCorrupt(s, g, t, op, t);
    if s.pc[t].Acquiring? {
      AcquireMoves(s.core, t);
      RoutineCounts(s, t, op);
    } else if s.pc[t].Unlocking? || s.pc[t].WaitReleasing? {
      TakerReleasesNothing(s.core, g.abs, t);
      ReleaseMoves(s.core, t);
      RoutineCounts(s, t, op);
    } else if s.pc[t].CastClear? || s.pc[t].Casting? || s.pc[t].CastAcquire? || s.pc[t].CastWake? {
      if s.pc[t].CastAcquire? {
        AcquireMoves(s.core, s.pc[t].cur);
      }
      CasterCounts(s, t, op);
    } else {
      PcNotCorrupt(s, g, t);
      TesterCounts(s, t, op);
    }
  }

  lemma PcNotCorrupt(s: Sys, g: Ghost, t: Tid)
    requires Inv(s, g) && t < |s.pc|
    ensures !s.pc[t].Corrupt?
  {
    assert ThreadOk(s, g, t);
  }

  /** The turns of others do not take it further away, once it is past the clear of a broadcast. */
  lemma OthersDoNotHinder(s: Sys, g: Ghost, u: Tid, t: Tid, op: Op)
    requires Inv(s, g) && u < |s.pc| && t < |s.pc| && u != t && !s.pc[t].Asleep? && !s.pc[t].CastClear?
    ensures Rank(Step(s, u, op), t) == Rank(s, t)
  {
    OthersLeave(s, g, u, t, op);
    ReleaseElsewhere(s, u, t, op);
    if s.pc[t].Acquiring? {
      AcquirerAlone(s, g, u, t, op);
    } else if s.pc[t].CastAcquire? {
      SubjectAlone(s, g, u, t, op);
    }
  }

  lemma ReleaseStays(c: Core, x: Tid, t: Tid)
    requires c.Valid() && x < |c.acq| && t < |c.acq|
    ensures x != t ==> ReleaseStep(c, x).rel[t] == c.rel[t]
    ensures AcquireStep(c, x).rel[t] == c.rel[t]
  {
  }

  lemma ReleaseElsewhere(s: Sys, u: Tid, t: Tid, op: Op)
    requires s.Valid() && u < |s.pc| && t < |s.pc| && u != t
    ensures Step(s, u, op).core.rel[t] == s.core.rel[t]
  {
    match s.pc[u]
    case CastAcquire(cur, _, _) => if cur < |s.pc| { ReleaseStays(s.core, cur, t); }
    case Unlocking => RoutineReleases(s, u, t, op);
    case WaitReleasing => RoutineReleases(s, u, t, op);
    case Acquiring => RoutineReleases(s, u, t, op);
    case Switching(_) => WakerElsewhere(s, u, op);
    case Waking(_) => WakerElsewhere(s, u, op);
    case Ready(_) => WakerElsewhere(s, u, op);
    case CastWake(_) => WakerElsewhere(s, u, op);
    case _ => TesterReleases(s, u, t, op);
  }

  lemma RoutineReleases(s: Sys, u: Tid, t: Tid, op: Op)
    requires s.Valid() && u < |s.pc| && t < |s.pc| && u != t && (s.pc[u].Unlocking? || s.pc[u].WaitReleasing? || s.pc[u].Acquiring?)
    ensures Step(s, u, op).core.rel[t] == s.core.rel[t]
  {
    ReleaseStays(s.core, u, t);
  }

  lemma TesterReleases(s: Sys, u: Tid, t: Tid, op: Op)
    requires s.Valid() && u < |s.pc| && t < |s.pc| && u != t
    requires !s.pc[u].CastAcquire? && !s.pc[u].Unlocking? && !s.pc[u].WaitReleasing? && !s.pc[u].Acquiring?
    requires !s.pc[u].Switching? && !s.pc[u].Waking? && !s.pc[u].Ready? && !s.pc[u].CastWake?
    ensures Step(s, u, op).core.rel[t] == s.core.rel[t]
  {
  }

  /** Nor is the routine that a broadcaster runs for a sleeper anybody else's. */
  lemma SubjectAlone(s: Sys, g: Ghost, u: Tid, b: Tid, op: Op)
    requires Inv(s, g) && u < |s.pc| && b < |s.pc| && u != b && s.pc[b].CastAcquire?
    ensures s.pc[b].cur < |s.pc| && Step(s, u, op).core.acq[s.pc[b].cur] == s.core.acq[s.pc[b].cur]
  {
    var x := s.pc[b].cur;
    assert ThreadOk(s, g, b);
    assert ThreadOk(s, g, x);
    assert ThreadOk(s, g, u);
    if x == u {
      SleeperStays(s, g, u, b, op);
    } else {
      AcquireElsewhere(s, u, x, op);
    }
  }

  /** A thread in a broadcaster's hands does not touch its own acquire phase. */
  lemma SleeperStays(s: Sys, g: Ghost, u: Tid, b: Tid, op: Op)
    requires Inv(s, g) && u < |s.pc| && b < |s.pc| && u != b && s.pc[b].CastAcquire? && s.pc[b].cur == u
    ensures Step(s, u, op).core.acq[u] == s.core.acq[u]
  {
    SleeperPc(s, g, u, b);
    if s.pc[u].WaitReleasing? {
      ReleaserElsewhere(s, u, op);
    } else if s.pc[u].Switching? {
      WakerElsewhere(s, u, op);
    }
  }

  lemma SleeperPc(s: Sys, g: Ghost, u: Tid, b: Tid)
    requires Inv(s, g) && u < |s.pc| && b < |s.pc| && u != b && s.pc[b].CastAcquire? && s.pc[b].cur == u
    ensures s.pc[u].Asleep? || s.pc[u].WaitReleasing? || s.pc[u].Switching?
  {
    assert ThreadOk(s, g, b);
    assert ThreadOk(s, g, u);
  }

  lemma ReleaserElsewhere(s: Sys, u: Tid, op: Op)
    requires s.Valid() && u < |s.pc| && s.pc[u].WaitReleasing?
    ensures Step(s, u, op).core.acq[u] == s.core.acq[u]
  {
    AcquireStays(s.core, u, u);
  }
}
