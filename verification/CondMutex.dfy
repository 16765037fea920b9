/** Threads that lock, try-lock, unlock, wait and broadcast on one mutex and one condition variable.

    Any number of threads run; one step of one thread is one atomic access of the mutex words, one
    append to or clear of the condition list, or one hand-over to the scheduler. */
module CondMutex {
  import opened Options
  import opened MutexQueue

  const SIZE_MAX: nat := 0xffff_ffff_ffff_ffff

  datatype Result = Success | Busy | Error

  /** Why a thread sleeps. `InWait(false)` is cnd_wait on a mutex locked more than once, which it
      keeps. */
  datatype Kind = InLock | InWait(released: bool)

  /** The operation a thread in user code calls next. */
  datatype Op = CallLock | CallTryLock | CallUnlock | CallWait | CallBroadcast

  datatype Pc =
    | User(last: Result)
    | LockOwner | LockCount
    | TryOwner | TryCount
    | Acquiring
    | UnlockOwner | UnlockCount | Unlocking | Waking(next: Tid)
    | WaitOwner | WaitOwnerAgain | WaitCount | WaitAppend(release: bool) | WaitReleasing | Switching(next: Tid)
    | CastClear | Casting(todo: seq<Tid>, out: seq<Tid>)
    | CastAcquire(cur: Tid, todo: seq<Tid>, out: seq<Tid>) | CastWake(out: seq<Tid>)
    | Asleep(kind: Kind)
    | Ready(kind: Kind)   // in the run queue
    | Corrupt             // made schedulable while not asleep, or a wild pointer followed

  /** `depth[t]` is what the caller knows: successful locks of t minus successful unlocks. */
  datatype Sys = Sys(core: Core, count: nat, recursive: bool, pc: seq<Pc>, depth: seq<int>, cond: seq<Tid>)
  {
    ghost predicate Valid() {
      core.Valid() && |pc| == |depth| == |core.acq|
    }

    function At(t: Tid, p: Pc): (r: Sys)
      requires t < |pc|
      ensures Valid() ==> r.Valid() && |r.pc| == |pc|
    {
      this.(pc := pc[t := p])
    }

    function Deepen(t: Tid, delta: int): (r: Sys)
      requires t < |depth|
      ensures Valid() ==> r.Valid() && |r.pc| == |pc|
    {
      this.(depth := depth[t := depth[t] + delta])
    }

    function StartAcquire(x: Tid, p: Acquire): (r: Sys)
      requires Valid()
      ensures r.Valid() && |r.pc| == |pc|
    {
      if x < |core.acq| then this.(core := core.AtAcquire(x, p)) else this
    }

    function StartRelease(t: Tid): (r: Sys)
      requires Valid() && t < |pc|
      ensures r.Valid() && |r.pc| == |pc|
    {
      this.(core := core.AtRelease(t, LoadWaiters)).Deepen(t, -1)
    }
  }

  function Wake(p: Pc): Pc {
    if p.Asleep? then Ready(p.kind) else Corrupt
  }

  /** A sleeping thread resumes: its mtx_lock or cnd_wait returns success. */
  function Resume(s: Sys, w: Tid): (r: Sys)
    requires s.Valid()
    ensures r.Valid() && |r.pc| == |s.pc|
  {
    if w >= |s.pc| then s
    else match s.pc[w]
      case Asleep(kind) => s.At(w, User(Success)).Deepen(w, if kind == InWait(false) then 0 else 1)
      case Ready(kind) => s.At(w, User(Success)).Deepen(w, if kind == InWait(false) then 0 else 1)
      case Switching(_) => s.At(w, User(Success)).Deepen(w, 1)
      case _ => s.At(w, Corrupt)
  }

  /** The broadcaster goes on with its private chain, then wakes what it collected. */
  function CastNext(todo: seq<Tid>, out: seq<Tid>): Pc {
    if todo != [] then Casting(todo, out)
    else if out != [] then CastWake(out)
    else User(Success)
  }

  function Call(op: Op): Pc {
    match op
    case CallLock => LockOwner
    case CallTryLock => TryOwner
    case CallUnlock => UnlockOwner
    case CallWait => WaitOwner
    case CallBroadcast => CastClear
  }

  /** Where thread t stands after an access of its acquire routine that started in phase `before`. */
  function AfterAcquire(s: Sys, t: Tid, before: Acquire): (r: Sys)
    requires s.Valid() && t < |s.pc|
    ensures r.Valid() && |r.pc| == |s.pc|
  {
    if !s.core.acq[t].NoAcquire? then s
    else if before.Link? then s.At(t, Asleep(InLock))
    else if before.FastLoad? || before.FastCas? then s.At(t, User(Busy))
    else s.At(t, User(Success)).Deepen(t, 1)
  }

  /** The same for a broadcaster b that acquires for thread `cur`. */
  function AfterCastAcquire(s: Sys, b: Tid, before: Acquire): (r: Sys)
    requires s.Valid() && b < |s.pc| && s.pc[b].CastAcquire? && s.pc[b].cur < |s.pc|
    ensures r.Valid() && |r.pc| == |s.pc|
  {
    var CastAcquire(cur, todo, out) := s.pc[b];
    if !s.core.acq[cur].NoAcquire? then s
    else s.At(b, CastNext(todo, if before.Link? then out else out + [cur]))
  }

  function AfterRelease(s: Sys, t: Tid, before: Release): (r: Sys)
    requires s.Valid() && t < |s.pc|
    ensures r.Valid() && |r.pc| == |s.pc|
  {
    if !s.core.rel[t].NoRelease? then s
    else if before.GrantOwner? && before.head.Node? then
      s.At(t, if s.pc[t].WaitReleasing? then Switching(before.head.t) else Waking(before.head.t))
    else s.At(t, if s.pc[t].WaitReleasing? then Asleep(InWait(true)) else User(Success))
  }

  /** The broadcaster looks at the next thread x of its chain. */
  function CastOne(s: Sys, b: Tid, x: Tid, todo: seq<Tid>, out: seq<Tid>): (r: Sys)
    requires s.Valid() && b < |s.pc|
    ensures r.Valid() && |r.pc| == |s.pc|
  {
    if x >= |s.pc| then s.At(b, Corrupt)
    else if s.core.temp0[x] == Null then s.At(b, CastNext(todo, out + [x]))
    else if s.core.temp0[x] == MutexAddr then s.StartAcquire(x, Load(false)).At(b, CastAcquire(x, todo, out))
    else s.At(b, Corrupt)
  }

  function WakeAll(s: Sys, out: seq<Tid>): (r: Sys)
    requires s.Valid()
    ensures r.Valid() && |r.pc| == |s.pc|
  {
    s.(pc := seq(|s.pc|, u requires 0 <= u < |s.pc| => if u in out then Wake(s.pc[u]) else s.pc[u]))
  }

  /** One step of thread t; `op` matters only when it is in user code. */
  function Step(s: Sys, t: Tid, op: Op): (r: Sys)
    requires s.Valid() && t < |s.pc|
    ensures r.Valid() && |r.pc| == |s.pc|
  {
    match s.pc[t]
    case User(_) => s.At(t, Call(op))
    case LockOwner =>
      if s.core.owner == None then s.StartAcquire(t, FastLoad(false)).At(t, Acquiring)
      else if s.core.owner == Some(t) then s.At(t, LockCount)
      else s.StartAcquire(t, Reset).At(t, Acquiring)
    case TryOwner =>
      if s.core.owner == None then s.StartAcquire(t, FastLoad(true)).At(t, Acquiring)
      else if s.core.owner == Some(t) then s.At(t, TryCount)
      else s.At(t, User(Busy))
    case LockCount => Recount(s, t)
    case TryCount => Recount(s, t)
    case Acquiring =>
      AfterAcquire(s.(core := AcquireStep(s.core, t)), t, s.core.acq[t])
    case UnlockOwner => s.At(t, if s.core.owner == Some(t) then UnlockCount else User(Error))
    case UnlockCount =>
      if s.count > 1 then s.(count := s.count - 1).At(t, User(Success)).Deepen(t, -1)
      else s.StartRelease(t).At(t, Unlocking)
    case Unlocking => AfterRelease(s.(core := ReleaseStep(s.core, t)), t, s.core.rel[t])
    case Waking(w) =>
      if w < |s.pc| then s.At(w, Wake(s.pc[w])).At(t, User(Success)) else s.At(t, Corrupt)
    case WaitOwner => s.At(t, if s.core.owner == None then User(Error) else WaitOwnerAgain)
    case WaitOwnerAgain => s.At(t, if s.core.owner == Some(t) then WaitCount else User(Error))
    case WaitCount =>
      var keep := s.count > 1;
      s.(core := s.core.Write(Node(t), if keep then Null else MutexAddr)).At(t, WaitAppend(!keep))
    case WaitAppend(release) =>
      var s' := s.(cond := s.cond + [t]);
      if release then s'.StartRelease(t).At(t, WaitReleasing) else s'.At(t, Asleep(InWait(false)))
    case WaitReleasing => AfterRelease(s.(core := ReleaseStep(s.core, t)), t, s.core.rel[t])
    case Switching(w) =>
      if w == t then Resume(s, t) else Resume(s.At(t, Asleep(InWait(true))), w)
    case CastClear => s.(cond := []).At(t, CastNext(s.cond, []))
    case Casting(todo, out) => if todo == [] then s.At(t, Corrupt) else CastOne(s, t, todo[0], todo[1..], out)
    case CastAcquire(cur, todo, out) =>
      if cur >= |s.pc| then s.At(t, Corrupt)
      else AfterCastAcquire(s.(core := AcquireStep(s.core, cur)), t, s.core.acq[cur])
    case CastWake(out) => WakeAll(s, out).At(t, User(Success))
    case Asleep(_) => s
    case Ready(_) => Resume(s, t)
    case Corrupt => s
  }

  /** The recursive path of mtx_lock and mtx_trylock. */
  function Recount(s: Sys, t: Tid): (r: Sys)
    requires s.Valid() && t < |s.pc|
    ensures r.Valid() && |r.pc| == |s.pc|
  {
    if s.count == 0 || s.count == SIZE_MAX then s.At(t, User(Error))
    else s.(count := s.count + 1).At(t, User(Success)).Deepen(t, 1)
  }

  function Init(threads: nat, recursive: bool): Sys {
    Sys(Core(None, Null, Null, seq(threads, i => Null), seq(threads, i => NoAcquire), seq(threads, i => NoRelease)),
        if recursive then 1 else 0, recursive, seq(threads, i => User(Success)), seq(threads, i => 0), [])
  }

  // ------------------------------------------------------------------
  // Where every thread is
  // ------------------------------------------------------------------

  datatype Loc =
    | Active              // runs, or waits for nothing
    | InCond              // on the condition list
    | InChain(agent: Tid)    // in a broadcaster's private chain, possibly being enqueued
    | Linking(agent: Tid)    // in the mutex queue, with the store that links it still owed
    | Queued              // in the mutex queue, or picked from it
    | InOut(agent: Tid)      // owns the mutex, in a broadcaster's list of threads to wake
    | Granted(agent: Tid)    // owns the mutex, about to be made schedulable
    | InRunQueue

  datatype Ghost = Ghost(abs: Abs, loc: seq<Loc>)

  ghost function Effect(s: Sys, g: Ghost, t: Tid): Ghost
    requires s.Valid() && t < |s.pc| == |g.loc|
  {
    var loc := g.loc;
    match s.pc[t]
    case Acquiring =>
      Ghost(AcquireEffect(s.core, g.abs, t),
            loc[t := AcquireLoc(s.core.acq[t], AcquireStep(s.core, t).acq[t], loc[t], t, t)])
    case Unlocking => Ghost(ReleaseEffect(s.core, g.abs, t), GrantLoc(s.core.rel[t], loc, t))
    case WaitReleasing => Ghost(ReleaseEffect(s.core, g.abs, t), GrantLoc(s.core.rel[t], loc, t))
    case Waking(w) => if w < |loc| then g.(loc := loc[w := InRunQueue]) else g
    case WaitAppend(_) => g.(loc := loc[t := InCond])
    case Switching(w) => if w < |loc| then g.(loc := loc[w := Active]) else g
    case CastClear =>
      g.(loc := seq(|loc|, u requires 0 <= u < |loc| => if u in s.cond then InChain(t) else loc[u]))
    case Casting(todo, out) =>
      if todo != [] && todo[0] < |loc| && s.core.temp0[todo[0]] == Null then g.(loc := loc[todo[0] := InOut(t)]) else g
    case CastAcquire(cur, todo, out) =>
      if cur >= |loc| then g
      else Ghost(AcquireEffect(s.core, g.abs, cur),
                 loc[cur := AcquireLoc(s.core.acq[cur], AcquireStep(s.core, cur).acq[cur], loc[cur], t, cur)])
    case CastWake(out) =>
      g.(loc := seq(|loc|, u requires 0 <= u < |loc| => if u in out then InRunQueue else loc[u]))
    case Ready(_) => g.(loc := loc[t := Active])
    case _ => g
  }

  /** The new location of x after an access of the acquire routine run by agent t. */
  ghost function AcquireLoc(p: Acquire, p': Acquire, l: Loc, t: Tid, x: Tid): Loc {
    if p'.Link? then Linking(t)
    else if p.Link? then Queued
    else if p'.NoAcquire? && t != x then InOut(t)
    else l
  }

  /** The store to `owner` puts the new owner into the hands of t. */
  ghost function GrantLoc(r: Release, loc: seq<Loc>, t: Tid): seq<Loc> {
    if r.GrantOwner? && r.head.Node? && r.head.t < |loc| then loc[r.head.t := Granted(t)] else loc
  }

  // ------------------------------------------------------------------
  // The invariant
  // ------------------------------------------------------------------

  ghost function Todo(p: Pc): seq<Tid> {
    match p
    case Casting(todo, _) => todo
    case CastAcquire(_, todo, _) => todo
    case _ => []
  }

  ghost function Out(p: Pc): seq<Tid> {
    match p
    case Casting(_, out) => out
    case CastAcquire(_, _, out) => out
    case CastWake(out) => out
    case _ => []
  }

  ghost predicate Cur(p: Pc, x: Tid) {
    p.CastAcquire? && p.cur == x
  }

  /** Neither routine runs for t. */
  ghost predicate Quiet(s: Sys, t: Tid)
    requires s.Valid() && t < |s.pc|
  {
    s.core.acq[t].NoAcquire? && s.core.rel[t].NoRelease?
  }

  ghost predicate Waits(l: Loc) {
    l.InCond? || l.InChain? || l.Linking? || l.Queued?
  }

  /** What the program counter of t says. */
  ghost predicate PcOk(s: Sys, g: Ghost, t: Tid)
    requires s.Valid() && t < |s.pc| == |g.loc|
  {
    var holds := g.abs.holder == Some(t);
    var loc := g.loc[t];
    match s.pc[t]
    case Acquiring =>
      && s.core.rel[t].NoRelease? && !s.core.acq[t].NoAcquire? && s.depth[t] == 0
      && loc == (if s.core.acq[t].Link? then Linking(t) else Active)
      && (holds ==> HoldsInAcquire(s.core.acq[t]))
    case Unlocking => loc.Active? && s.core.acq[t].NoAcquire? && !s.core.rel[t].NoRelease? && s.depth[t] == 0
    case Waking(w) =>
      loc.Active? && Quiet(s, t) && s.depth[t] == 0 && !holds && w < |s.pc| && g.loc[w] == Granted(t)
    case WaitReleasing => !s.core.rel[t].NoRelease? && s.depth[t] == 0 && Waits(loc)
    case Switching(w) =>
      && s.core.rel[t].NoRelease? && s.depth[t] == 0 && w < |s.pc| && g.loc[w] == Granted(t)
      && (w != t ==> Waits(loc) && !holds)
    case Asleep(kind) =>
      && s.core.rel[t].NoRelease?
      && (if kind == InWait(false) then holds && s.depth[t] >= 2 && (loc.InCond? || loc.InChain? || loc.InOut?)
          else
            && s.depth[t] == 0
            && (if kind.InLock? then loc.Queued? || loc.Granted? else Waits(loc) || loc.InOut? || loc.Granted?)
            && (holds ==> HoldsInAcquire(s.core.acq[t]) || loc.InOut? || loc.Granted?))
    case Ready(kind) =>
      Quiet(s, t) && loc.InRunQueue? && holds && (if kind == InWait(false) then s.depth[t] >= 2 else s.depth[t] == 0)
    case Corrupt => false
    case p =>
      && loc.Active? && Quiet(s, t) && s.depth[t] >= 0 && (holds <==> s.depth[t] > 0)
      && (p.LockCount? || p.TryCount? || p.UnlockCount? || p.WaitCount? || p.WaitAppend? ==> holds)
      && (p.WaitAppend? ==> (p.release <==> s.count <= 1) && s.core.temp0[t] == (if p.release then MutexAddr else Null))
  }

  /** What temp0 holds while t is on the condition list or in a chain. */
  ghost predicate Parked(s: Sys, t: Tid)
    requires s.Valid() && t < |s.pc|
  {
    s.core.acq[t].NoAcquire? && s.core.temp0[t] == (if s.pc[t] == Asleep(InWait(false)) then Null else MutexAddr)
  }

  /** What the location of t says, and what puts t there. */
  ghost predicate LocOk(s: Sys, g: Ghost, t: Tid)
    requires s.Valid() && t < |s.pc| == |g.loc|
  {
    var holds := g.abs.holder == Some(t);
    && (t in s.cond <==> g.loc[t].InCond?)
    && (t in g.abs.queue ==> g.loc[t].Linking? || g.loc[t].Queued?)
    && (g.abs.next == Some(t) ==> g.loc[t].Queued?)
    && match g.loc[t]
       case Active => true
       case InCond => Parked(s, t)
       case InChain(b) =>
         && b < |s.pc|
         && (if Cur(s.pc[b], t) then
               && s.pc[t] != Asleep(InWait(false))
               && !s.core.acq[t].NoAcquire? && !s.core.acq[t].Link? && !s.core.acq[t].FastLoad? && !s.core.acq[t].FastCas?
               && (holds ==> HoldsInAcquire(s.core.acq[t]) || !s.core.rel[t].NoRelease?)
             else t in Todo(s.pc[b]) && Parked(s, t))
       case Linking(b) =>
         && b < |s.pc| && s.core.acq[t].Link? && t in g.abs.queue
         && (if b == t then s.pc[t].Acquiring? else Cur(s.pc[b], t))
       case Queued => s.core.acq[t].NoAcquire? && (t in g.abs.queue || g.abs.next == Some(t))
       case InOut(b) => b < |s.pc| && t in Out(s.pc[b]) && Quiet(s, t) && holds && s.pc[t].Asleep?
       case Granted(b) =>
         && b < |s.pc| && (s.pc[b] == Waking(t) || s.pc[b] == Switching(t)) && Quiet(s, t) && holds
         && (s.pc[t].Asleep? || b == t)
       case InRunQueue => s.pc[t].Ready?
  }

  ghost predicate Distinct(q: seq<Tid>) {
    forall i, j | 0 <= i < j < |q| :: q[i] != q[j]
  }

  /** What a broadcaster's private lists hold. */
  ghost predicate ListsOk(s: Sys, g: Ghost, b: Tid)
    requires s.Valid() && b < |s.pc| == |g.loc|
  {
    && Distinct(Todo(s.pc[b]))
    && (forall x | x in Todo(s.pc[b]) :: x < |s.pc| && g.loc[x] == InChain(b) && !Cur(s.pc[b], x))
    && (forall x | x in Out(s.pc[b]) :: x < |s.pc| && g.loc[x] == InOut(b))
    && (s.pc[b].Casting? ==> s.pc[b].todo != [])
    && (s.pc[b].CastAcquire? ==> s.pc[b].cur < |s.pc| && (g.loc[s.pc[b].cur] == InChain(b) || (g.loc[s.pc[b].cur] == Linking(b) && s.pc[b].cur != b)))
  }

  ghost predicate ThreadOk(s: Sys, g: Ghost, t: Tid)
    requires s.Valid() && |g.loc| == |s.pc|
  {
    t < |s.pc| ==> PcOk(s, g, t) && LocOk(s, g, t) && ListsOk(s, g, t)
  }

  /** The recursion count is the holder's nesting depth. */
  ghost predicate CountOk(s: Sys, g: Ghost)
    requires s.Valid()
  {
    && s.count <= SIZE_MAX
    && match g.abs.holder
       case None => s.count == (if s.recursive then 1 else 0)
       case Some(h) =>
         && h < |s.pc|
         && (if s.recursive then s.count == (if s.depth[h] <= 1 then 1 else s.depth[h]) else s.count == 0 && s.depth[h] <= 1)
  }

  /** Every thread is where its program counter, the lists and the abstract lock say. */
  ghost predicate Placed(s: Sys, g: Ghost)
  {
    && s.Valid() && |g.loc| == |s.pc|
    && CountOk(s, g)
    && Distinct(s.cond)
    && (forall x | x in s.cond :: x < |s.pc|)
    && (forall t: Tid :: ThreadOk(s, g, t))
  }

  ghost predicate Inv(s: Sys, g: Ghost)
  {
    Placed(s, g) && Encodes(s.core, g.abs)
  }

  lemma InitOk(threads: nat, recursive: bool)
    ensures Inv(Init(threads, recursive), Ghost(FREE, seq(threads, i => Active)))
  {
  }

  // ------------------------------------------------------------------
  // One step of thread t leaves the other threads alone
  // ------------------------------------------------------------------

  /** A program counter no location refers to. */
  ghost predicate Plain(p: Pc) {
    Todo(p) == [] && Out(p) == [] && !p.CastAcquire? && !p.Waking? && !p.Switching?
  }

  /** The location is nobody's, or t's own doing. */
  ghost predicate Mine(l: Loc, t: Tid) {
    match l
    case InChain(b) => b == t
    case Linking(b) => b == t
    case InOut(b) => b == t
    case Granted(b) => b == t
    case _ => true
  }

  /** Nothing about thread u itself changed. */
  ghost predicate Same(s: Sys, g: Ghost, s': Sys, g': Ghost, u: Tid)
    requires s.Valid() && s'.Valid() && |s'.pc| == |s.pc| == |g.loc| == |g'.loc| && u < |s.pc|
  {
    && s'.pc[u] == s.pc[u] && s'.depth[u] == s.depth[u]
    && s'.core.acq[u] == s.core.acq[u] && s'.core.rel[u] == s.core.rel[u]
    && (g.loc[u].InCond? || (g.loc[u].InChain? && s.core.acq[u].NoAcquire?) || s.pc[u].WaitAppend? ==> s'.core.temp0[u] == s.core.temp0[u])
    && g'.loc[u] == g.loc[u]
    && (g'.abs.holder == Some(u) <==> g.abs.holder == Some(u))
    && (g.abs.holder == Some(u) ==> s'.count == s.count)
    && (u in g'.abs.queue <==> u in g.abs.queue)
    && (g'.abs.next == Some(u) <==> g.abs.next == Some(u))
    && (u in s'.cond <==> u in s.cond)
  }

  /** The new program counter p' of t still accounts for u where the old one, p, did. */
  ghost predicate StillCovers(p: Pc, p': Pc, l: Loc, t: Tid, u: Tid) {
    && (l == InChain(t) ==> (Cur(p', u) <==> Cur(p, u)) && (u in Todo(p) ==> u in Todo(p')))
    && (l == Linking(t) ==> Cur(p', u))
    && (l == InOut(t) ==> u in Out(p'))
    && (l == Granted(t) ==> p' == Waking(u) || p' == Switching(u))
  }

  /** What the step of t may have changed elsewhere. */
  ghost predicate Local(s: Sys, g: Ghost, s': Sys, g': Ghost, t: Tid)
    requires s.Valid() && s'.Valid() && |s'.pc| == |s.pc| == |g.loc| == |g'.loc| && t < |s.pc|
  {
    && (forall b | 0 <= b < |s.pc| && b != t :: s'.pc[b] == s.pc[b] || (Plain(s.pc[b]) && Plain(s'.pc[b])))
    && (forall x | 0 <= x < |s.pc| && g'.loc[x] != g.loc[x] :: Mine(g.loc[x], t))
  }

  lemma FramePc(s: Sys, g: Ghost, s': Sys, g': Ghost, t: Tid, u: Tid)
    requires s.Valid() && s'.Valid() && |s'.pc| == |s.pc| == |g.loc| == |g'.loc| && t < |s.pc| && u < |s.pc| && u != t
    requires ThreadOk(s, g, u)
    requires Same(s, g, s', g', u) && Local(s, g, s', g', t)
    requires StillCovers(s.pc[t], s'.pc[t], g.loc[u], t, u)
    ensures PcOk(s', g', u)
  {
  }

  lemma FrameLoc(s: Sys, g: Ghost, s': Sys, g': Ghost, t: Tid, u: Tid)
    requires s.Valid() && s'.Valid() && |s'.pc| == |s.pc| == |g.loc| == |g'.loc| && t < |s.pc| && u < |s.pc| && u != t
    requires ThreadOk(s, g, u)
    requires Same(s, g, s', g', u) && Local(s, g, s', g', t)
    requires StillCovers(s.pc[t], s'.pc[t], g.loc[u], t, u)
    ensures LocOk(s', g', u)
  {
  }

  lemma FrameLists(s: Sys, g: Ghost, s': Sys, g': Ghost, t: Tid, u: Tid)
    requires s.Valid() && s'.Valid() && |s'.pc| == |s.pc| == |g.loc| == |g'.loc| && t < |s.pc| && u < |s.pc| && u != t
    requires ThreadOk(s, g, u)
    requires Same(s, g, s', g', u) && Local(s, g, s', g', t)
    requires StillCovers(s.pc[t], s'.pc[t], g.loc[u], t, u)
    ensures ListsOk(s', g', u)
  {
  }

  lemma Frame(s: Sys, g: Ghost, s': Sys, g': Ghost, t: Tid, u: Tid)
    requires s.Valid() && s'.Valid() && |s'.pc| == |s.pc| == |g.loc| == |g'.loc| && t < |s.pc| && u < |s.pc| && u != t
    requires ThreadOk(s, g, u)
    requires Same(s, g, s', g', u) && Local(s, g, s', g', t)
    requires StillCovers(s.pc[t], s'.pc[t], g.loc[u], t, u)
    ensures ThreadOk(s', g', u)
  {
    FramePc(s, g, s', g', t, u);
    FrameLoc(s, g, s', g', t, u);
    FrameLists(s, g, s', g', t, u);
  }

  /** Everything but the threads in `touched`, which the step of t is about. */
  lemma OthersOk(s: Sys, g: Ghost, s': Sys, g': Ghost, t: Tid, touched: set<Tid>)
    requires s.Valid() && s'.Valid() && |s'.pc| == |s.pc| == |g.loc| == |g'.loc| && t < |s.pc| && t in touched
    requires forall u: Tid :: ThreadOk(s, g, u)
    requires Local(s, g, s', g', t)
    requires forall u: Tid | u < |s.pc| && u !in touched ::
               Same(s, g, s', g', u) && StillCovers(s.pc[t], s'.pc[t], g.loc[u], t, u)
    requires forall u: Tid | u in touched :: ThreadOk(s', g', u)
    ensures forall u: Tid :: ThreadOk(s', g', u)
  {
    forall u: Tid ensures ThreadOk(s', g', u) {
      if u < |s.pc| && u !in touched {
        assert ThreadOk(s, g, u);
        Frame(s, g, s', g', t, u);
      }
    }
  }

  /** What a thread that runs neither routine may conclude from `owner`. */
  ghost predicate OwnerTells(s: Sys, g: Ghost, t: Tid)
    requires s.Valid() && t < |s.pc|
  {
    s.core.owner == Some(t) <==> g.abs.holder == Some(t)
  }

  lemma UserKeeps(s: Sys, g: Ghost, t: Tid, op: Op)
    requires Placed(s, g) && t < |s.pc| && s.pc[t].User?
    ensures Placed(Step(s, t, op), Effect(s, g, t))
  {
    var s', g' := Step(s, t, op), Effect(s, g, t);
    assert ThreadOk(s, g, t);
    forall u: Tid | u < |s.pc| && u !in {t}
      ensures Same(s, g, s', g', u) && StillCovers(s.pc[t], s'.pc[t], g.loc[u], t, u)
    {
      assert ThreadOk(s, g, u);
    }
    OthersOk(s, g, s', g', t, {t});
  }

  lemma LockOwnerSelf(s: Sys, g: Ghost, t: Tid, op: Op)
    requires Placed(s, g) && t < |s.pc| && s.pc[t].LockOwner?
    requires OwnerTells(s, g, t)
    ensures ThreadOk(Step(s, t, op), Effect(s, g, t), t)
  {
    assert ThreadOk(s, g, t);
  }

  lemma LockOwnerKeeps(s: Sys, g: Ghost, t: Tid, op: Op)
    requires Placed(s, g) && t < |s.pc| && s.pc[t].LockOwner?
    requires OwnerTells(s, g, t)
    ensures Placed(Step(s, t, op), Effect(s, g, t))
  {
    var s', g' := Step(s, t, op), Effect(s, g, t);
    assert ThreadOk(s, g, t);
    LockOwnerSelf(s, g, t, op);
    forall u: Tid | u < |s.pc| && u !in {t}
      ensures Same(s, g, s', g', u) && StillCovers(s.pc[t], s'.pc[t], g.loc[u], t, u)
    {
      assert ThreadOk(s, g, u);
    }
    OthersOk(s, g, s', g', t, {t});
  }

  lemma TryOwnerSelf(s: Sys, g: Ghost, t: Tid, op: Op)
    requires Placed(s, g) && t < |s.pc| && s.pc[t].TryOwner?
    requires OwnerTells(s, g, t)
    ensures ThreadOk(Step(s, t, op), Effect(s, g, t), t)
  {
    assert ThreadOk(s, g, t);
  }

  lemma TryOwnerKeeps(s: Sys, g: Ghost, t: Tid, op: Op)
    requires Placed(s, g) && t < |s.pc| && s.pc[t].TryOwner?
    requires OwnerTells(s, g, t)
    ensures Placed(Step(s, t, op), Effect(s, g, t))
  {
    var s', g' := Step(s, t, op), Effect(s, g, t);
    assert ThreadOk(s, g, t);
    TryOwnerSelf(s, g, t, op);
    forall u: Tid | u < |s.pc| && u !in {t}
      ensures Same(s, g, s', g', u) && StillCovers(s.pc[t], s'.pc[t], g.loc[u], t, u)
    {
      assert ThreadOk(s, g, u);
    }
    OthersOk(s, g, s', g', t, {t});
  }

  lemma LockCountKeeps(s: Sys, g: Ghost, t: Tid, op: Op)
    requires Placed(s, g) && t < |s.pc| && s.pc[t].LockCount?
    ensures Placed(Step(s, t, op), Effect(s, g, t))
  {
    var s', g' := Step(s, t, op), Effect(s, g, t);
    assert ThreadOk(s, g, t);
    forall u: Tid | u < |s.pc| && u !in {t}
      ensures Same(s, g, s', g', u) && StillCovers(s.pc[t], s'.pc[t], g.loc[u], t, u)
    {
      assert ThreadOk(s, g, u);
    }
    OthersOk(s, g, s', g', t, {t});
  }

  lemma TryCountKeeps(s: Sys, g: Ghost, t: Tid, op: Op)
    requires Placed(s, g) && t < |s.pc| && s.pc[t].TryCount?
    ensures Placed(Step(s, t, op), Effect(s, g, t))
  {
    var s', g' := Step(s, t, op), Effect(s, g, t);
    assert ThreadOk(s, g, t);
    forall u: Tid | u < |s.pc| && u !in {t}
      ensures Same(s, g, s', g', u) && StillCovers(s.pc[t], s'.pc[t], g.loc[u], t, u)
    {
      assert ThreadOk(s, g, u);
    }
    OthersOk(s, g, s', g', t, {t});
  }

  lemma UnlockOwnerKeeps(s: Sys, g: Ghost, t: Tid, op: Op)
    requires Placed(s, g) && t < |s.pc| && s.pc[t].UnlockOwner?
    requires OwnerTells(s, g, t)
    ensures Placed(Step(s, t, op), Effect(s, g, t))
  {
    var s', g' := Step(s, t, op), Effect(s, g, t);
    assert ThreadOk(s, g, t);
    forall u: Tid | u < |s.pc| && u !in {t}
      ensures Same(s, g, s', g', u) && StillCovers(s.pc[t], s'.pc[t], g.loc[u], t, u)
    {
      assert ThreadOk(s, g, u);
    }
    OthersOk(s, g, s', g', t, {t});
  }

  lemma UnlockCountSelf(s: Sys, g: Ghost, t: Tid, op: Op)
    requires Placed(s, g) && t < |s.pc| && s.pc[t].UnlockCount?
    ensures ThreadOk(Step(s, t, op), Effect(s, g, t), t)
  {
    assert ThreadOk(s, g, t);
  }

  lemma UnlockCountKeeps(s: Sys, g: Ghost, t: Tid, op: Op)
    requires Placed(s, g) && t < |s.pc| && s.pc[t].UnlockCount?
    ensures Placed(Step(s, t, op), Effect(s, g, t))
  {
    var s', g' := Step(s, t, op), Effect(s, g, t);
    assert ThreadOk(s, g, t);
    UnlockCountSelf(s, g, t, op);
    forall u: Tid | u < |s.pc| && u !in {t}
      ensures Same(s, g, s', g', u) && StillCovers(s.pc[t], s'.pc[t], g.loc[u], t, u)
    {
      assert ThreadOk(s, g, u);
    }
    OthersOk(s, g, s', g', t, {t});
  }

  lemma WaitOwnerSelf(s: Sys, g: Ghost, t: Tid, op: Op)
    requires Placed(s, g) && t < |s.pc| && s.pc[t].WaitOwner?
    ensures ThreadOk(Step(s, t, op), Effect(s, g, t), t)
  {
    assert ThreadOk(s, g, t);
  }

  lemma WaitOwnerKeeps(s: Sys, g: Ghost, t: Tid, op: Op)
    requires Placed(s, g) && t < |s.pc| && s.pc[t].WaitOwner?
    ensures Placed(Step(s, t, op), Effect(s, g, t))
  {
    var s', g' := Step(s, t, op), Effect(s, g, t);
    assert ThreadOk(s, g, t);
    WaitOwnerSelf(s, g, t, op);
    forall u: Tid | u < |s.pc| && u !in {t}
      ensures Same(s, g, s', g', u) && StillCovers(s.pc[t], s'.pc[t], g.loc[u], t, u)
    {
      assert ThreadOk(s, g, u);
    }
    OthersOk(s, g, s', g', t, {t});
  }

  lemma WaitOwnerAgainSelf(s: Sys, g: Ghost, t: Tid, op: Op)
    requires Placed(s, g) && t < |s.pc| && s.pc[t].WaitOwnerAgain?
    requires OwnerTells(s, g, t)
    ensures ThreadOk(Step(s, t, op), Effect(s, g, t), t)
  {
    assert ThreadOk(s, g, t);
  }

  lemma WaitOwnerAgainKeeps(s: Sys, g: Ghost, t: Tid, op: Op)
    requires Placed(s, g) && t < |s.pc| && s.pc[t].WaitOwnerAgain?
    requires OwnerTells(s, g, t)
    ensures Placed(Step(s, t, op), Effect(s, g, t))
  {
    var s', g' := Step(s, t, op), Effect(s, g, t);
    assert ThreadOk(s, g, t);
    WaitOwnerAgainSelf(s, g, t, op);
    forall u: Tid | u < |s.pc| && u !in {t}
      ensures Same(s, g, s', g', u) && StillCovers(s.pc[t], s'.pc[t], g.loc[u], t, u)
    {
      assert ThreadOk(s, g, u);
    }
    OthersOk(s, g, s', g', t, {t});
  }

  lemma WaitCountSelf(s: Sys, g: Ghost, t: Tid, op: Op)
    requires Placed(s, g) && t < |s.pc| && s.pc[t].WaitCount?
    ensures ThreadOk(Step(s, t, op), Effect(s, g, t), t)
  {
    assert ThreadOk(s, g, t);
  }

  lemma WaitCountKeeps(s: Sys, g: Ghost, t: Tid, op: Op)
    requires Placed(s, g) && t < |s.pc| && s.pc[t].WaitCount?
    ensures Placed(Step(s, t, op), Effect(s, g, t))
  {
    var s', g' := Step(s, t, op), Effect(s, g, t);
    assert ThreadOk(s, g, t);
    WaitCountSelf(s, g, t, op);
    forall u: Tid | u < |s.pc| && u !in {t}
      ensures Same(s, g, s', g', u) && StillCovers(s.pc[t], s'.pc[t], g.loc[u], t, u)
    {
      assert ThreadOk(s, g, u);
    }
    OthersOk(s, g, s', g', t, {t});
  }

  lemma WaitAppendSelf(s: Sys, g: Ghost, t: Tid, op: Op)
    requires Placed(s, g) && t < |s.pc| && s.pc[t].WaitAppend?
    ensures ThreadOk(Step(s, t, op), Effect(s, g, t), t)
  {
    assert ThreadOk(s, g, t);
  }

  lemma WaitAppendKeeps(s: Sys, g: Ghost, t: Tid, op: Op)
    requires Placed(s, g) && t < |s.pc| && s.pc[t].WaitAppend?
    ensures Placed(Step(s, t, op), Effect(s, g, t))
  {
    var s', g' := Step(s, t, op), Effect(s, g, t);
    assert ThreadOk(s, g, t);
    WaitAppendSelf(s, g, t, op);
    forall u: Tid | u < |s.pc| && u !in {t}
      ensures Same(s, g, s', g', u) && StillCovers(s.pc[t], s'.pc[t], g.loc[u], t, u)
    {
      assert ThreadOk(s, g, u);
    }
    OthersOk(s, g, s', g', t, {t});
  }

  lemma WakingSelf(s: Sys, g: Ghost, t: Tid, op: Op)
    requires Placed(s, g) && t < |s.pc| && s.pc[t].Waking?
    ensures ThreadOk(Step(s, t, op), Effect(s, g, t), t)
    ensures ThreadOk(Step(s, t, op), Effect(s, g, t), s.pc[t].next)
  {
    var w := s.pc[t].next;
    assert ThreadOk(s, g, t);
    assert ThreadOk(s, g, w);
  }

  lemma WakingKeeps(s: Sys, g: Ghost, t: Tid, op: Op)
    requires Placed(s, g) && t < |s.pc| && s.pc[t].Waking?
    ensures Placed(Step(s, t, op), Effect(s, g, t))
  {
    var s', g' := Step(s, t, op), Effect(s, g, t);
    var w := s.pc[t].next;
    assert ThreadOk(s, g, t);
    assert ThreadOk(s, g, w);
    WakingSelf(s, g, t, op);
    forall u: Tid | u < |s.pc| && u !in {t, w}
      ensures Same(s, g, s', g', u) && StillCovers(s.pc[t], s'.pc[t], g.loc[u], t, u)
    {
      assert ThreadOk(s, g, u);
    }
    OthersOk(s, g, s', g', t, {t, w});
  }

  lemma SwitchingSelfPc(s: Sys, g: Ghost, t: Tid, op: Op)
    requires Placed(s, g) && t < |s.pc| && s.pc[t].Switching?
    ensures PcOk(Step(s, t, op), Effect(s, g, t), t)
  {
    var w := s.pc[t].next;
    assert ThreadOk(s, g, t);
    assert ThreadOk(s, g, w);
  }

  lemma SwitchingSelfLoc(s: Sys, g: Ghost, t: Tid, op: Op)
    requires Placed(s, g) && t < |s.pc| && s.pc[t].Switching?
    ensures LocOk(Step(s, t, op), Effect(s, g, t), t)
  {
    var w := s.pc[t].next;
    assert ThreadOk(s, g, t);
    assert ThreadOk(s, g, w);
  }

  lemma SwitchingSelfLists(s: Sys, g: Ghost, t: Tid, op: Op)
    requires Placed(s, g) && t < |s.pc| && s.pc[t].Switching?
    ensures ListsOk(Step(s, t, op), Effect(s, g, t), t)
  {
    var w := s.pc[t].next;
    assert ThreadOk(s, g, t);
    assert ThreadOk(s, g, w);
  }

  lemma SwitchingSelfNext(s: Sys, g: Ghost, t: Tid, op: Op)
    requires Placed(s, g) && t < |s.pc| && s.pc[t].Switching?
    ensures var s', g' := Step(s, t, op), Effect(s, g, t);
            ThreadOk(s', g', s.pc[t].next)
  {
    var w := s.pc[t].next;
    assert ThreadOk(s, g, t);
    assert ThreadOk(s, g, w);
  }

  lemma SwitchingSelf(s: Sys, g: Ghost, t: Tid, op: Op)
    requires Placed(s, g) && t < |s.pc| && s.pc[t].Switching?
    ensures ThreadOk(Step(s, t, op), Effect(s, g, t), t)
    ensures ThreadOk(Step(s, t, op), Effect(s, g, t), s.pc[t].next)
  {
    SwitchingSelfPc(s, g, t, op);
    SwitchingSelfLoc(s, g, t, op);
    SwitchingSelfLists(s, g, t, op);
    SwitchingSelfNext(s, g, t, op);
  }

  lemma SwitchingOther(s: Sys, g: Ghost, t: Tid, op: Op, u: Tid)
    requires Placed(s, g) && t < |s.pc| && s.pc[t].Switching? && u < |s.pc| && u != t && u != s.pc[t].next
    ensures var s', g' := Step(s, t, op), Effect(s, g, t);
            Same(s, g, s', g', u) && StillCovers(s.pc[t], s'.pc[t], g.loc[u], t, u)
  {
    assert ThreadOk(s, g, t);
    assert ThreadOk(s, g, u);
    assert ThreadOk(s, g, s.pc[t].next);
  }

  lemma SwitchingKeeps(s: Sys, g: Ghost, t: Tid, op: Op)
    requires Placed(s, g) && t < |s.pc| && s.pc[t].Switching?
    ensures Placed(Step(s, t, op), Effect(s, g, t))
  {
    var s', g' := Step(s, t, op), Effect(s, g, t);
    var w := s.pc[t].next;
    SwitchingSelf(s, g, t, op);
    forall u: Tid | u < |s.pc| && u !in {t, w}
      ensures Same(s, g, s', g', u) && StillCovers(s.pc[t], s'.pc[t], g.loc[u], t, u)
    {
      SwitchingOther(s, g, t, op, u);
    }
    SwitchingRest(s, g, t, op);
    OthersOk(s, g, s', g', t, {t, w});
  }

  lemma SwitchingRest(s: Sys, g: Ghost, t: Tid, op: Op)
    requires Placed(s, g) && t < |s.pc| && s.pc[t].Switching?
    ensures var s', g' := Step(s, t, op), Effect(s, g, t);
            Local(s, g, s', g', t) && CountOk(s', g') && s'.cond == s.cond && s'.Valid() && |g'.loc| == |s'.pc|
  {
    assert ThreadOk(s, g, t);
    assert ThreadOk(s, g, s.pc[t].next);
  }

  lemma ReadyKeeps(s: Sys, g: Ghost, t: Tid, op: Op)
    requires Placed(s, g) && t < |s.pc| && s.pc[t].Ready?
    ensures Placed(Step(s, t, op), Effect(s, g, t))
  {
    var s', g' := Step(s, t, op), Effect(s, g, t);
    assert ThreadOk(s, g, t);
    forall u: Tid | u < |s.pc| && u !in {t}
      ensures Same(s, g, s', g', u) && StillCovers(s.pc[t], s'.pc[t], g.loc[u], t, u)
    {
      assert ThreadOk(s, g, u);
    }
    OthersOk(s, g, s', g', t, {t});
  }

  /** What one access of the acquire routine for x may do to the threads' states. */
  ghost predicate AcquireSummary(c: Core, a: Abs, d: Core, b: Abs, x: Tid)
    requires c.Valid() && x < |c.acq|
  {
    && d.Valid() && |d.acq| == |c.acq|
    && d.rel == c.rel && b.next == a.next
    && (forall u | 0 <= u < |c.acq| && u != x ::
          && d.acq[u] == c.acq[u]
          && (d.temp0[u] == c.temp0[u] || u in a.queue || Taking(c.acq[u])))
    && (b.holder == a.holder || (a == FREE && b.holder == Some(x)))
    && (a.holder == Some(x) || !c.rel[x].NoRelease? ==> b.holder == Some(x))
    && (HoldsInAcquire(c.acq[x]) ==> a.holder == Some(x))
    && (b.queue == a.queue || (b.queue == a.queue + [x] && d.acq[x].Link? && x !in a.queue))
    && (d.acq[x].Link? ==> x in b.queue && !c.acq[x].Link?)
    && (HoldsInAcquire(d.acq[x]) ==> b.holder == Some(x) && c.rel[x].NoRelease?)
    && (b.holder == Some(x) && a.holder != Some(x) ==> HoldsInAcquire(d.acq[x]))
    && (d.acq[x].NoAcquire? ==>
          if c.acq[x].FastLoad? || c.acq[x].FastCas? || c.acq[x].Link? then b == a
          else b.holder == Some(x) && c.rel[x].NoRelease?)
    && (c.acq[x].Link? ==> d.acq[x].NoAcquire? && x in a.queue)
    && (HoldsInAcquire(c.acq[x]) && !d.acq[x].NoAcquire? ==> HoldsInAcquire(d.acq[x]))
    && (c.acq[x].FastLoad? || c.acq[x].FastCas? ==> x !in a.queue)
    && (d.acq[x].FastLoad? || d.acq[x].FastCas? ==> c.acq[x].FastLoad? || c.acq[x].FastCas?)
  }

  lemma AcquireSummaryHolds(c: Core, a: Abs, x: Tid)
    requires Encodes(c, a) && x < |c.acq| && !c.acq[x].NoAcquire?
    ensures AcquireSummary(c, a, AcquireStep(c, x), AcquireEffect(c, a, x), x)
  {
    EndTellsHolder(c, a);
    if c.acq[x].Link? {
      var k := LinkTarget(c, a, x);
    }
    FactsGiveSummary(c, a, x);
  }

  lemma FactsGiveSummary(c: Core, a: Abs, x: Tid)
    requires c.Valid() && x < |c.acq| && !c.acq[x].NoAcquire?
    requires c.waitEnd == Null <==> a.holder == None
    requires a.holder == None ==> a == FREE
    requires HoldsInAcquire(c.acq[x]) ==> a.holder == Some(x)
    requires HoldsInAcquire(c.acq[x]) ==> c.rel[x].NoRelease?
    requires !c.rel[x].NoRelease? ==> a.holder == Some(x)
    requires x in a.queue <==> c.acq[x].Link?
    requires c.acq[x].Link? && c.acq[x].last.Node? ==>
               c.acq[x].last.t in a.queue || (c.acq[x].last.t < |c.acq| && Taking(c.acq[c.acq[x].last.t]))
    ensures AcquireSummary(c, a, AcquireStep(c, x), AcquireEffect(c, a, x), x)
  {
  }

  /** What one access of the release routine of t may do to the threads' states. */
  ghost predicate ReleaseSummary(c: Core, a: Abs, d: Core, b: Abs, t: Tid)
    requires c.Valid() && t < |c.acq|
  {
    && d.Valid() && |d.acq| == |c.acq|
    && d.acq == c.acq && d.temp0 == c.temp0
    && a.holder == Some(t)
    && (forall u | 0 <= u < |c.acq| && u != t :: d.rel[u].NoRelease? && c.rel[u].NoRelease?)
    && Distinct(a.queue) && (forall u | u in b.queue :: u in a.queue)
    && (a.next.Some? ==> a.next.value !in a.queue)
    && (c.rel[t].GrantOwner? ==> d.rel[t].NoRelease?)
    && (if d.rel[t].NoRelease? then
          if c.rel[t].GrantOwner? then
            && a.next.Some? && a.next.value < |c.acq| && c.rel[t].head == Node(a.next.value)
            && b == a.(holder := a.next, next := None)
          else a == Abs(Some(t), None, []) && b == FREE
        else
          || b == a
          || (a.queue != [] && a.queue[0] < |c.acq| && c.acq[a.queue[0]].NoAcquire? && a.next == None && b == Pick(a)))
  }

  lemma ReleaseSummaryHolds(c: Core, a: Abs, t: Tid)
    requires Encodes(c, a) && t < |c.acq| && !c.rel[t].NoRelease?
    ensures ReleaseSummary(c, a, ReleaseStep(c, t), ReleaseEffect(c, a, t), t)
  {
  }

  // The moves below speak of any new core d and abstract lock b that the summaries allow.

  lemma AcquiringSelf(s: Sys, g: Ghost, t: Tid, d: Core, b: Abs)
    requires Placed(s, g) && t < |s.pc| && s.pc[t].Acquiring?
    requires AcquireSummary(s.core, g.abs, d, b, t)
    ensures ThreadOk(AfterAcquire(s.(core := d), t, s.core.acq[t]),
                     Ghost(b, g.loc[t := AcquireLoc(s.core.acq[t], d.acq[t], g.loc[t], t, t)]), t)
  {
    assert ThreadOk(s, g, t);
  }

  lemma AcquireOther(s: Sys, g: Ghost, s': Sys, g': Ghost, x: Tid, u: Tid)
    requires s.Valid() && s'.Valid() && |s'.pc| == |s.pc| == |g.loc| == |g'.loc| && u < |s.pc| && x < |s.pc| && u != x
    requires ThreadOk(s, g, u) && AcquireSummary(s.core, g.abs, s'.core, g'.abs, x)
    requires s'.count == s.count && s'.cond == s.cond
    requires s'.pc[u] == s.pc[u] && s'.depth[u] == s.depth[u] && g'.loc[u] == g.loc[u]
    ensures Same(s, g, s', g', u)
  {
  }

  lemma AcquiringOther(s: Sys, g: Ghost, t: Tid, d: Core, b: Abs, u: Tid)
    requires Placed(s, g) && t < |s.pc| && s.pc[t].Acquiring? && u < |s.pc| && u != t
    requires AcquireSummary(s.core, g.abs, d, b, t)
    ensures var s' := AfterAcquire(s.(core := d), t, s.core.acq[t]);
            var g' := Ghost(b, g.loc[t := AcquireLoc(s.core.acq[t], d.acq[t], g.loc[t], t, t)]);
            Same(s, g, s', g', u) && StillCovers(s.pc[t], s'.pc[t], g.loc[u], t, u)
  {
    var s' := AfterAcquire(s.(core := d), t, s.core.acq[t]);
    var g' := Ghost(b, g.loc[t := AcquireLoc(s.core.acq[t], d.acq[t], g.loc[t], t, t)]);
    assert ThreadOk(s, g, u);
    AcquireOther(s, g, s', g', t, u);
    assert !(g.loc[u] == InChain(t) || g.loc[u] == Linking(t) || g.loc[u] == InOut(t) || g.loc[u] == Granted(t));
  }

  lemma AcquiringRest(s: Sys, g: Ghost, t: Tid, d: Core, b: Abs)
    requires Placed(s, g) && t < |s.pc| && s.pc[t].Acquiring?
    requires AcquireSummary(s.core, g.abs, d, b, t)
    ensures var s' := AfterAcquire(s.(core := d), t, s.core.acq[t]);
            var g' := Ghost(b, g.loc[t := AcquireLoc(s.core.acq[t], d.acq[t], g.loc[t], t, t)]);
            Local(s, g, s', g', t) && CountOk(s', g') && s'.cond == s.cond && s'.Valid() && |g'.loc| == |s'.pc|
  {
    assert ThreadOk(s, g, t);
  }

  lemma AcquiringMove(s: Sys, g: Ghost, t: Tid, d: Core, b: Abs)
    requires Placed(s, g) && t < |s.pc| && s.pc[t].Acquiring?
    requires AcquireSummary(s.core, g.abs, d, b, t)
    ensures Placed(AfterAcquire(s.(core := d), t, s.core.acq[t]),
                   Ghost(b, g.loc[t := AcquireLoc(s.core.acq[t], d.acq[t], g.loc[t], t, t)]))
  {
    var s' := AfterAcquire(s.(core := d), t, s.core.acq[t]);
    var g' := Ghost(b, g.loc[t := AcquireLoc(s.core.acq[t], d.acq[t], g.loc[t], t, t)]);
    AcquiringSelf(s, g, t, d, b);
    forall u: Tid | u < |s.pc| && u !in {t}
      ensures Same(s, g, s', g', u) && StillCovers(s.pc[t], s'.pc[t], g.loc[u], t, u)
    {
      AcquiringOther(s, g, t, d, b, u);
    }
    AcquiringRest(s, g, t, d, b);
    OthersOk(s, g, s', g', t, {t});
  }

  lemma CastAcquireSelf(s: Sys, g: Ghost, t: Tid, d: Core, b: Abs)
    requires Placed(s, g) && t < |s.pc| && s.pc[t].CastAcquire?
    requires s.pc[t].cur < |s.pc| && AcquireSummary(s.core, g.abs, d, b, s.pc[t].cur)
    ensures var x := s.pc[t].cur;
            var s' := AfterCastAcquire(s.(core := d), t, s.core.acq[x]);
            var g' := Ghost(b, g.loc[x := AcquireLoc(s.core.acq[x], d.acq[x], g.loc[x], t, x)]);
            PcOk(s', g', t) && LocOk(s', g', t)
  {
    var x := s.pc[t].cur;
    assert ThreadOk(s, g, t);
    assert ThreadOk(s, g, x);
  }

  /** Going on with the chain keeps the broadcaster's lists in order, whatever became of x. */
  lemma NextLists(s: Sys, g: Ghost, s': Sys, g': Ghost, t: Tid, x: Tid)
    requires s.Valid() && s'.Valid() && |s'.pc| == |s.pc| == |g.loc| == |g'.loc| && t < |s.pc| && x < |s.pc|
    requires s.pc[t].CastAcquire? && s.pc[t].cur == x && ListsOk(s, g, t)
    requires forall y | 0 <= y < |s.pc| && y != x :: g'.loc[y] == g.loc[y]
    requires || s'.pc[t] == CastNext(s.pc[t].todo, s.pc[t].out)
             || (s'.pc[t] == CastNext(s.pc[t].todo, s.pc[t].out + [x]) && g'.loc[x] == InOut(t))
    ensures ListsOk(s', g', t)
  {
  }

  lemma CastAcquireLists(s: Sys, g: Ghost, t: Tid, d: Core, b: Abs)
    requires Placed(s, g) && t < |s.pc| && s.pc[t].CastAcquire?
    requires s.pc[t].cur < |s.pc| && AcquireSummary(s.core, g.abs, d, b, s.pc[t].cur)
    ensures var x := s.pc[t].cur;
            var s' := AfterCastAcquire(s.(core := d), t, s.core.acq[x]);
            var g' := Ghost(b, g.loc[x := AcquireLoc(s.core.acq[x], d.acq[x], g.loc[x], t, x)]);
            ListsOk(s', g', t)
  {
    var x := s.pc[t].cur;
    assert ThreadOk(s, g, t);
    assert ThreadOk(s, g, x);
    if d.acq[x].NoAcquire? {
      NextLists(s, g, AfterCastAcquire(s.(core := d), t, s.core.acq[x]),
                Ghost(b, g.loc[x := AcquireLoc(s.core.acq[x], d.acq[x], g.loc[x], t, x)]), t, x);
    }
  }

  lemma CastAcquireCurPc(s: Sys, g: Ghost, t: Tid, d: Core, b: Abs)
    requires Placed(s, g) && t < |s.pc| && s.pc[t].CastAcquire?
    requires s.pc[t].cur < |s.pc| && AcquireSummary(s.core, g.abs, d, b, s.pc[t].cur)
    ensures var x := s.pc[t].cur;
            var s' := AfterCastAcquire(s.(core := d), t, s.core.acq[x]);
            var g' := Ghost(b, g.loc[x := AcquireLoc(s.core.acq[x], d.acq[x], g.loc[x], t, x)]);
            PcOk(s', g', x)
  {
    var x := s.pc[t].cur;
    assert ThreadOk(s, g, t);
    assert ThreadOk(s, g, x);
    assert ThreadOk(s, g, if s.pc[x].Switching? then s.pc[x].next else t);
  }

  lemma CastLinkedLoc(s: Sys, g: Ghost, t: Tid, d: Core, b: Abs)
    requires Placed(s, g) && t < |s.pc| && s.pc[t].CastAcquire?
    requires s.pc[t].cur < |s.pc| && AcquireSummary(s.core, g.abs, d, b, s.pc[t].cur)
    requires d.acq[s.pc[t].cur].NoAcquire?
    requires s.core.acq[s.pc[t].cur].Link?
    ensures var x := s.pc[t].cur;
            var s' := AfterCastAcquire(s.(core := d), t, s.core.acq[x]);
            var g' := Ghost(b, g.loc[x := AcquireLoc(s.core.acq[x], d.acq[x], g.loc[x], t, x)]);
            LocOk(s', g', x)
  {
    var x := s.pc[t].cur;
    assert ThreadOk(s, g, t);
    assert ThreadOk(s, g, x);
    assert ThreadOk(s, g, if s.pc[x].Switching? then s.pc[x].next else t);
  }

  lemma CastOwnedLoc(s: Sys, g: Ghost, t: Tid, d: Core, b: Abs)
    requires Placed(s, g) && t < |s.pc| && s.pc[t].CastAcquire?
    requires s.pc[t].cur < |s.pc| && AcquireSummary(s.core, g.abs, d, b, s.pc[t].cur)
    requires d.acq[s.pc[t].cur].NoAcquire?
    requires !s.core.acq[s.pc[t].cur].Link?
    ensures var x := s.pc[t].cur;
            var s' := AfterCastAcquire(s.(core := d), t, s.core.acq[x]);
            var g' := Ghost(b, g.loc[x := AcquireLoc(s.core.acq[x], d.acq[x], g.loc[x], t, x)]);
            LocOk(s', g', x)
  {
    var x := s.pc[t].cur;
    assert ThreadOk(s, g, t);
    assert ThreadOk(s, g, x);
    var s' := AfterCastAcquire(s.(core := d), t, s.core.acq[x]);
    assert g.loc[x] == InChain(t);
    assert s'.pc[t] == CastNext(s.pc[t].todo, s.pc[t].out + [x]) && (s.pc[t].out + [x])[|s.pc[t].out|] == x;
    assert x in Out(s'.pc[t]) && s'.pc[x].Asleep?;
  }

  lemma CastAcquiringLoc(s: Sys, g: Ghost, t: Tid, d: Core, b: Abs)
    requires Placed(s, g) && t < |s.pc| && s.pc[t].CastAcquire?
    requires s.pc[t].cur < |s.pc| && AcquireSummary(s.core, g.abs, d, b, s.pc[t].cur)
    requires !d.acq[s.pc[t].cur].NoAcquire?
    ensures var x := s.pc[t].cur;
            var s' := AfterCastAcquire(s.(core := d), t, s.core.acq[x]);
            var g' := Ghost(b, g.loc[x := AcquireLoc(s.core.acq[x], d.acq[x], g.loc[x], t, x)]);
            LocOk(s', g', x)
  {
    var x := s.pc[t].cur;
    assert ThreadOk(s, g, t);
    assert ThreadOk(s, g, x);
    assert ThreadOk(s, g, if s.pc[x].Switching? then s.pc[x].next else t);
  }

  lemma CastAcquireCurLoc(s: Sys, g: Ghost, t: Tid, d: Core, b: Abs)
    requires Placed(s, g) && t < |s.pc| && s.pc[t].CastAcquire?
    requires s.pc[t].cur < |s.pc| && AcquireSummary(s.core, g.abs, d, b, s.pc[t].cur)
    ensures var x := s.pc[t].cur;
            var s' := AfterCastAcquire(s.(core := d), t, s.core.acq[x]);
            var g' := Ghost(b, g.loc[x := AcquireLoc(s.core.acq[x], d.acq[x], g.loc[x], t, x)]);
            LocOk(s', g', x)
  {
    if s.core.acq[s.pc[t].cur].Link? {
      CastLinkedLoc(s, g, t, d, b);
    } else if d.acq[s.pc[t].cur].NoAcquire? {
      CastOwnedLoc(s, g, t, d, b);
    } else {
      CastAcquiringLoc(s, g, t, d, b);
    }
  }

  lemma CastAcquireCurLists(s: Sys, g: Ghost, t: Tid, d: Core, b: Abs)
    requires Placed(s, g) && t < |s.pc| && s.pc[t].CastAcquire?
    requires s.pc[t].cur < |s.pc| && AcquireSummary(s.core, g.abs, d, b, s.pc[t].cur)
    ensures var x := s.pc[t].cur;
            var s' := AfterCastAcquire(s.(core := d), t, s.core.acq[x]);
            var g' := Ghost(b, g.loc[x := AcquireLoc(s.core.acq[x], d.acq[x], g.loc[x], t, x)]);
            ListsOk(s', g', x)
  {
    var x := s.pc[t].cur;
    assert ThreadOk(s, g, t);
    assert ThreadOk(s, g, x);
    assert ThreadOk(s, g, if s.pc[x].Switching? then s.pc[x].next else t);
  }

  lemma CastAcquireOther(s: Sys, g: Ghost, t: Tid, d: Core, b: Abs, u: Tid)
    requires Placed(s, g) && t < |s.pc| && s.pc[t].CastAcquire?
    requires s.pc[t].cur < |s.pc| && AcquireSummary(s.core, g.abs, d, b, s.pc[t].cur)
    requires u < |s.pc| && u != t && u != s.pc[t].cur
    ensures var x := s.pc[t].cur;
            var s' := AfterCastAcquire(s.(core := d), t, s.core.acq[x]);
            var g' := Ghost(b, g.loc[x := AcquireLoc(s.core.acq[x], d.acq[x], g.loc[x], t, x)]);
            Same(s, g, s', g', u) && StillCovers(s.pc[t], s'.pc[t], g.loc[u], t, u)
  {
    var x := s.pc[t].cur;
    var s' := AfterCastAcquire(s.(core := d), t, s.core.acq[x]);
    var g' := Ghost(b, g.loc[x := AcquireLoc(s.core.acq[x], d.acq[x], g.loc[x], t, x)]);
    assert ThreadOk(s, g, u);
    AcquireOther(s, g, s', g', x, u);
  }

  lemma CastAcquireMove(s: Sys, g: Ghost, t: Tid, d: Core, b: Abs)
    requires Placed(s, g) && t < |s.pc| && s.pc[t].CastAcquire?
    requires s.pc[t].cur < |s.pc| && AcquireSummary(s.core, g.abs, d, b, s.pc[t].cur)
    ensures var x := s.pc[t].cur;
            Placed(AfterCastAcquire(s.(core := d), t, s.core.acq[x]),
                   Ghost(b, g.loc[x := AcquireLoc(s.core.acq[x], d.acq[x], g.loc[x], t, x)]))
  {
    var x := s.pc[t].cur;
    var s' := AfterCastAcquire(s.(core := d), t, s.core.acq[x]);
    var g' := Ghost(b, g.loc[x := AcquireLoc(s.core.acq[x], d.acq[x], g.loc[x], t, x)]);
    CastAcquireSelf(s, g, t, d, b);
    CastAcquireLists(s, g, t, d, b);
    CastAcquireCurPc(s, g, t, d, b);
    CastAcquireCurLoc(s, g, t, d, b);
    CastAcquireCurLists(s, g, t, d, b);
    forall u: Tid | u < |s.pc| && u != t && u != x
      ensures Same(s, g, s', g', u) && StillCovers(s.pc[t], s'.pc[t], g.loc[u], t, u)
    {
      CastAcquireOther(s, g, t, d, b, u);
    }
    CastAcquireRest(s, g, t, d, b);
    OthersOk(s, g, s', g', t, {t, x});
  }

  lemma CastAcquireRest(s: Sys, g: Ghost, t: Tid, d: Core, b: Abs)
    requires Placed(s, g) && t < |s.pc| && s.pc[t].CastAcquire?
    requires s.pc[t].cur < |s.pc| && AcquireSummary(s.core, g.abs, d, b, s.pc[t].cur)
    ensures var x := s.pc[t].cur;
            var s' := AfterCastAcquire(s.(core := d), t, s.core.acq[x]);
            var g' := Ghost(b, g.loc[x := AcquireLoc(s.core.acq[x], d.acq[x], g.loc[x], t, x)]);
            Local(s, g, s', g', t) && CountOk(s', g') && s'.cond == s.cond && s'.Valid() && |g'.loc| == |s'.pc|
  {
    assert ThreadOk(s, g, t);
    assert ThreadOk(s, g, s.pc[t].cur);
  }

  // ---- the release routine, in mtx_unlock and in cnd_wait ----

  /** Threads whose state a release access may change: t, a picked waiter, the new owner. */
  ghost function ReleaseTouched(a: Abs, t: Tid): set<Tid> {
    {t} + (if a.queue != [] then {a.queue[0]} else {}) + (if a.next.Some? then {a.next.value} else {})
  }

  lemma ReleaseOther(s: Sys, g: Ghost, s': Sys, g': Ghost, t: Tid, u: Tid)
    requires s.Valid() && s'.Valid() && |s'.pc| == |s.pc| == |g.loc| == |g'.loc| && u < |s.pc| && t < |s.pc|
    requires ThreadOk(s, g, u) && ReleaseSummary(s.core, g.abs, s'.core, g'.abs, t) && u !in ReleaseTouched(g.abs, t)
    requires s'.count == s.count && s'.cond == s.cond
    requires s'.pc[u] == s.pc[u] && s'.depth[u] == s.depth[u] && g'.loc[u] == g.loc[u]
    ensures Same(s, g, s', g', u)
  {
  }

  /** The picked waiter and the new owner are still asleep, or t itself. */
  lemma WaiterSleeps(s: Sys, g: Ghost, t: Tid, w: Tid)
    requires Placed(s, g) && t < |s.pc| && (s.pc[t].Unlocking? || s.pc[t].WaitReleasing?) && g.abs.holder == Some(t)
    requires forall u | 0 <= u < |s.pc| && u != t :: s.core.rel[u].NoRelease?
    requires w < |s.pc| && w != t && g.loc[w].Queued?
    ensures s.pc[w].Asleep? && s.pc[w] != Asleep(InWait(false)) && s.depth[w] == 0
  {
    assert ThreadOk(s, g, w);
    assert ThreadOk(s, g, t);
    assert ThreadOk(s, g, if s.pc[w].Switching? then s.pc[w].next else t);
  }

  lemma ReleaseSelfPc(s: Sys, g: Ghost, t: Tid, d: Core, b: Abs)
    requires Placed(s, g) && t < |s.pc| && (s.pc[t].Unlocking? || s.pc[t].WaitReleasing?)
    requires ReleaseSummary(s.core, g.abs, d, b, t)
    ensures var s' := AfterRelease(s.(core := d), t, s.core.rel[t]);
            var g' := Ghost(b, GrantLoc(s.core.rel[t], g.loc, t));
            PcOk(s', g', t)
  {
    assert ThreadOk(s, g, t);
    if g.abs.next.Some? {
      assert ThreadOk(s, g, g.abs.next.value);
    }
  }

  lemma ReleaseSelfLoc(s: Sys, g: Ghost, t: Tid, d: Core, b: Abs)
    requires Placed(s, g) && t < |s.pc| && (s.pc[t].Unlocking? || s.pc[t].WaitReleasing?)
    requires ReleaseSummary(s.core, g.abs, d, b, t)
    ensures var s' := AfterRelease(s.(core := d), t, s.core.rel[t]);
            var g' := Ghost(b, GrantLoc(s.core.rel[t], g.loc, t));
            LocOk(s', g', t) && ListsOk(s', g', t)
  {
    assert ThreadOk(s, g, t);
    if g.abs.next.Some? {
      assert ThreadOk(s, g, g.abs.next.value);
    }
  }

  lemma ReleaseSelf(s: Sys, g: Ghost, t: Tid, d: Core, b: Abs)
    requires Placed(s, g) && t < |s.pc| && (s.pc[t].Unlocking? || s.pc[t].WaitReleasing?)
    requires ReleaseSummary(s.core, g.abs, d, b, t)
    ensures var s' := AfterRelease(s.(core := d), t, s.core.rel[t]);
            var g' := Ghost(b, GrantLoc(s.core.rel[t], g.loc, t));
            ThreadOk(s', g', t)
  {
    ReleaseSelfPc(s, g, t, d, b);
    ReleaseSelfLoc(s, g, t, d, b);
  }

  lemma PickedPc(s: Sys, g: Ghost, t: Tid, d: Core, b: Abs, w: Tid)
    requires Placed(s, g) && t < |s.pc| && (s.pc[t].Unlocking? || s.pc[t].WaitReleasing?) && !s.core.rel[t].GrantOwner?
    requires ReleaseSummary(s.core, g.abs, d, b, t)
    requires w in ReleaseTouched(g.abs, t) && w != t && w < |s.pc|
    ensures var s' := AfterRelease(s.(core := d), t, s.core.rel[t]);
            PcOk(s', Ghost(b, g.loc), w)
  {
    assert ThreadOk(s, g, t);
    assert ThreadOk(s, g, w);
    assert ThreadOk(s, g, if s.pc[w].Switching? then s.pc[w].next else t);
    if g.loc[w].Queued? {
      WaiterSleeps(s, g, t, w);
    }
  }

  lemma GrantedPc(s: Sys, g: Ghost, t: Tid, d: Core, b: Abs, w: Tid)
    requires Placed(s, g) && t < |s.pc| && (s.pc[t].Unlocking? || s.pc[t].WaitReleasing?) && s.core.rel[t].GrantOwner?
    requires ReleaseSummary(s.core, g.abs, d, b, t)
    requires w in ReleaseTouched(g.abs, t) && w != t && w < |s.pc|
    ensures var s' := AfterRelease(s.(core := d), t, s.core.rel[t]);
            var g' := Ghost(b, GrantLoc(s.core.rel[t], g.loc, t));
            PcOk(s', g', w)
  {
    assert ThreadOk(s, g, t);
    assert ThreadOk(s, g, w);
    assert ThreadOk(s, g, if s.pc[w].Switching? then s.pc[w].next else t);
    if g.loc[w].Queued? {
      WaiterSleeps(s, g, t, w);
    }
  }

  lemma ReleaseWaiterPc(s: Sys, g: Ghost, t: Tid, d: Core, b: Abs, w: Tid)
    requires Placed(s, g) && t < |s.pc| && (s.pc[t].Unlocking? || s.pc[t].WaitReleasing?)
    requires ReleaseSummary(s.core, g.abs, d, b, t)
    requires w in ReleaseTouched(g.abs, t) && w != t && w < |s.pc|
    ensures var s' := AfterRelease(s.(core := d), t, s.core.rel[t]);
            var g' := Ghost(b, GrantLoc(s.core.rel[t], g.loc, t));
            PcOk(s', g', w)
  {
    if s.core.rel[t].GrantOwner? {
      GrantedPc(s, g, t, d, b, w);
    } else {
      PickedPc(s, g, t, d, b, w);
    }
  }

  lemma PickedLoc(s: Sys, g: Ghost, t: Tid, d: Core, b: Abs, w: Tid)
    requires Placed(s, g) && t < |s.pc| && (s.pc[t].Unlocking? || s.pc[t].WaitReleasing?) && !s.core.rel[t].GrantOwner?
    requires ReleaseSummary(s.core, g.abs, d, b, t)
    requires w in ReleaseTouched(g.abs, t) && w != t && w < |s.pc|
    ensures var s' := AfterRelease(s.(core := d), t, s.core.rel[t]);
            LocOk(s', Ghost(b, g.loc), w)
  {
    assert ThreadOk(s, g, t);
    assert ThreadOk(s, g, w);
    assert ThreadOk(s, g, if s.pc[w].Switching? then s.pc[w].next else t);
    if g.loc[w].Queued? {
      WaiterSleeps(s, g, t, w);
    }
  }

  lemma GrantedLoc(s: Sys, g: Ghost, t: Tid, d: Core, b: Abs, w: Tid)
    requires Placed(s, g) && t < |s.pc| && (s.pc[t].Unlocking? || s.pc[t].WaitReleasing?) && s.core.rel[t].GrantOwner?
    requires ReleaseSummary(s.core, g.abs, d, b, t)
    requires w in ReleaseTouched(g.abs, t) && w != t && w < |s.pc|
    ensures var s' := AfterRelease(s.(core := d), t, s.core.rel[t]);
            var g' := Ghost(b, GrantLoc(s.core.rel[t], g.loc, t));
            LocOk(s', g', w)
  {
    assert ThreadOk(s, g, t);
    assert ThreadOk(s, g, w);
    assert ThreadOk(s, g, if s.pc[w].Switching? then s.pc[w].next else t);
    if g.loc[w].Queued? {
      WaiterSleeps(s, g, t, w);
    }
  }

  lemma ReleaseWaiterLoc(s: Sys, g: Ghost, t: Tid, d: Core, b: Abs, w: Tid)
    requires Placed(s, g) && t < |s.pc| && (s.pc[t].Unlocking? || s.pc[t].WaitReleasing?)
    requires ReleaseSummary(s.core, g.abs, d, b, t)
    requires w in ReleaseTouched(g.abs, t) && w != t && w < |s.pc|
    ensures var s' := AfterRelease(s.(core := d), t, s.core.rel[t]);
            var g' := Ghost(b, GrantLoc(s.core.rel[t], g.loc, t));
            LocOk(s', g', w)
  {
    if s.core.rel[t].GrantOwner? {
      GrantedLoc(s, g, t, d, b, w);
    } else {
      PickedLoc(s, g, t, d, b, w);
    }
  }

  lemma ReleaseWaiterLists(s: Sys, g: Ghost, t: Tid, d: Core, b: Abs, w: Tid)
    requires Placed(s, g) && t < |s.pc| && (s.pc[t].Unlocking? || s.pc[t].WaitReleasing?)
    requires ReleaseSummary(s.core, g.abs, d, b, t)
    requires w in ReleaseTouched(g.abs, t) && w != t && w < |s.pc|
    ensures var s' := AfterRelease(s.(core := d), t, s.core.rel[t]);
            var g' := Ghost(b, GrantLoc(s.core.rel[t], g.loc, t));
            ListsOk(s', g', w)
  {
    assert ThreadOk(s, g, t);
    assert ThreadOk(s, g, w);
    assert ThreadOk(s, g, if s.pc[w].Switching? then s.pc[w].next else t);
    if g.loc[w].Queued? {
      WaiterSleeps(s, g, t, w);
    }
  }

  lemma ReleaseWaiter(s: Sys, g: Ghost, t: Tid, d: Core, b: Abs, w: Tid)
    requires Placed(s, g) && t < |s.pc| && (s.pc[t].Unlocking? || s.pc[t].WaitReleasing?)
    requires ReleaseSummary(s.core, g.abs, d, b, t)
    requires w in ReleaseTouched(g.abs, t) && w != t && w < |s.pc|
    ensures var s' := AfterRelease(s.(core := d), t, s.core.rel[t]);
            var g' := Ghost(b, GrantLoc(s.core.rel[t], g.loc, t));
            ThreadOk(s', g', w)
  {
    ReleaseWaiterPc(s, g, t, d, b, w);
    ReleaseWaiterLoc(s, g, t, d, b, w);
    ReleaseWaiterLists(s, g, t, d, b, w);
  }

  lemma ReleaseMove(s: Sys, g: Ghost, t: Tid, d: Core, b: Abs)
    requires Placed(s, g) && t < |s.pc| && (s.pc[t].Unlocking? || s.pc[t].WaitReleasing?)
    requires ReleaseSummary(s.core, g.abs, d, b, t)
    ensures Placed(AfterRelease(s.(core := d), t, s.core.rel[t]), Ghost(b, GrantLoc(s.core.rel[t], g.loc, t)))
  {
    var s' := AfterRelease(s.(core := d), t, s.core.rel[t]);
    var g' := Ghost(b, GrantLoc(s.core.rel[t], g.loc, t));
    var touched := ReleaseTouched(g.abs, t);
    forall w: Tid | w in touched ensures ThreadOk(s', g', w) {
      if w == t {
        ReleaseSelf(s, g, t, d, b);
      } else if w < |s.pc| {
        ReleaseWaiter(s, g, t, d, b, w);
      }
    }
    forall u: Tid | u < |s.pc| && u !in touched
      ensures Same(s, g, s', g', u) && StillCovers(s.pc[t], s'.pc[t], g.loc[u], t, u)
    {
      ReleaseOne(s, g, t, d, b, u);
    }
    ReleaseCount(s, g, t, d, b);
    ReleaseLocal(s, g, t, d, b);
    OthersOk(s, g, s', g', t, touched);
  }

  lemma ReleaseOne(s: Sys, g: Ghost, t: Tid, d: Core, b: Abs, u: Tid)
    requires Placed(s, g) && t < |s.pc| && (s.pc[t].Unlocking? || s.pc[t].WaitReleasing?)
    requires ReleaseSummary(s.core, g.abs, d, b, t) && u < |s.pc| && u !in ReleaseTouched(g.abs, t)
    ensures var s' := AfterRelease(s.(core := d), t, s.core.rel[t]);
            var g' := Ghost(b, GrantLoc(s.core.rel[t], g.loc, t));
            Same(s, g, s', g', u) && StillCovers(s.pc[t], s'.pc[t], g.loc[u], t, u)
  {
    var s' := AfterRelease(s.(core := d), t, s.core.rel[t]);
    var g' := Ghost(b, GrantLoc(s.core.rel[t], g.loc, t));
    assert ThreadOk(s, g, u);
    ReleaseOther(s, g, s', g', t, u);
  }

  lemma ReleaseLocal(s: Sys, g: Ghost, t: Tid, d: Core, b: Abs)
    requires Placed(s, g) && t < |s.pc| && (s.pc[t].Unlocking? || s.pc[t].WaitReleasing?)
    requires ReleaseSummary(s.core, g.abs, d, b, t)
    ensures var s' := AfterRelease(s.(core := d), t, s.core.rel[t]);
            Local(s, g, s', Ghost(b, GrantLoc(s.core.rel[t], g.loc, t)), t)
  {
    if s.core.rel[t].GrantOwner? {
      assert ThreadOk(s, g, g.abs.next.value);
    }
  }

  lemma ReleaseCount(s: Sys, g: Ghost, t: Tid, d: Core, b: Abs)
    requires Placed(s, g) && t < |s.pc| && (s.pc[t].Unlocking? || s.pc[t].WaitReleasing?)
    requires ReleaseSummary(s.core, g.abs, d, b, t)
    ensures var s' := AfterRelease(s.(core := d), t, s.core.rel[t]);
            CountOk(s', Ghost(b, GrantLoc(s.core.rel[t], g.loc, t)))
  {
    assert ThreadOk(s, g, t);
    if s.core.rel[t].GrantOwner? {
      var w := g.abs.next.value;
      assert ThreadOk(s, g, w);
      if w != t {
        WaiterSleeps(s, g, t, w);
      }
    }
  }

  // ---- the broadcaster's own steps ----

  lemma CastOneSelfPc(s: Sys, g: Ghost, t: Tid, op: Op)
    requires Placed(s, g) && t < |s.pc| && s.pc[t].Casting?
    ensures var s', g' := Step(s, t, op), Effect(s, g, t);
            PcOk(s', g', t)
  {
    assert ThreadOk(s, g, t);
    CastOnePc(s, g, t, op);
    CastOneKeepsSelf(s, g, t, op);
  }

  /** The broadcaster is not in its own chain, so its own fields stay. */
  lemma CastOneKeepsSelf(s: Sys, g: Ghost, t: Tid, op: Op)
    requires Placed(s, g) && t < |s.pc| && s.pc[t].Casting? && s.pc[t].todo != [] && s.pc[t].todo[0] < |s.pc|
    ensures var s', g' := Step(s, t, op), Effect(s, g, t);
            && g'.abs == g.abs && g'.loc[t] == g.loc[t] && s'.depth == s.depth
            && s'.core.acq[t] == s.core.acq[t] && s'.core.rel[t] == s.core.rel[t]
  {
    assert ThreadOk(s, g, t);
    assert s.pc[t].todo[0] in s.pc[t].todo;
  }

  lemma CastOneSelfLoc(s: Sys, g: Ghost, t: Tid, op: Op)
    requires Placed(s, g) && t < |s.pc| && s.pc[t].Casting?
    ensures var s', g' := Step(s, t, op), Effect(s, g, t);
            LocOk(s', g', t)
  {
    assert ThreadOk(s, g, t);
    var todo := s.pc[t].todo;
    assert todo[0] in todo && forall y | y in todo[1..] :: y in todo && y != todo[0];
    assert ThreadOk(s, g, todo[0]);
  }

  /** Taking x off the chain leaves the broadcaster's lists in order, whether x needs no mutex ... */
  lemma ShiftToOut(s: Sys, g: Ghost, s': Sys, g': Ghost, t: Tid)
    requires s.Valid() && s'.Valid() && |s'.pc| == |s.pc| == |g.loc| == |g'.loc| && t < |s.pc|
    requires s.pc[t].Casting? && ListsOk(s, g, t)
    requires s'.pc[t] == CastNext(s.pc[t].todo[1..], s.pc[t].out + [s.pc[t].todo[0]])
    requires s.pc[t].todo[0] < |s.pc| && g'.loc == g.loc[s.pc[t].todo[0] := InOut(t)]
    ensures ListsOk(s', g', t)
  {
    var todo := s.pc[t].todo;
    assert todo[0] in todo && forall y | y in todo[1..] :: y in todo && y != todo[0];
  }

  /** ... or is to be enqueued on it. */
  lemma ShiftToCur(s: Sys, g: Ghost, s': Sys, g': Ghost, t: Tid)
    requires s.Valid() && s'.Valid() && |s'.pc| == |s.pc| == |g.loc| == |g'.loc| && t < |s.pc|
    requires s.pc[t].Casting? && ListsOk(s, g, t)
    requires s'.pc[t] == CastAcquire(s.pc[t].todo[0], s.pc[t].todo[1..], s.pc[t].out)
    requires g'.loc == g.loc
    ensures ListsOk(s', g', t)
  {
    var todo := s.pc[t].todo;
    assert todo[0] in todo && forall y | y in todo[1..] :: y in todo && y != todo[0];
  }

  lemma CastOneSelfLists(s: Sys, g: Ghost, t: Tid, op: Op)
    requires Placed(s, g) && t < |s.pc| && s.pc[t].Casting?
    ensures var s', g' := Step(s, t, op), Effect(s, g, t);
            ListsOk(s', g', t)
  {
    assert ThreadOk(s, g, t);
    var s', g' := Step(s, t, op), Effect(s, g, t);
    CastOnePc(s, g, t, op);
    if s.core.temp0[s.pc[t].todo[0]] == Null {
      ShiftToOut(s, g, s', g', t);
    } else {
      ShiftToCur(s, g, s', g', t);
    }
  }

  lemma CastOneSelf(s: Sys, g: Ghost, t: Tid, op: Op)
    requires Placed(s, g) && t < |s.pc| && s.pc[t].Casting?
    ensures ThreadOk(Step(s, t, op), Effect(s, g, t), t)
  {
    CastOneSelfPc(s, g, t, op);
    CastOneSelfLoc(s, g, t, op);
    CastOneSelfLists(s, g, t, op);
  }

  lemma CastOneCur(s: Sys, g: Ghost, t: Tid, op: Op)
    requires Placed(s, g) && t < |s.pc| && s.pc[t].Casting?
    ensures s.pc[t].todo != [] && ThreadOk(Step(s, t, op), Effect(s, g, t), s.pc[t].todo[0])
  {
    assert ThreadOk(s, g, t);
    assert s.pc[t].todo[0] in s.pc[t].todo;
    assert ThreadOk(s, g, s.pc[t].todo[0]);
  }

  lemma CastOneOtherSame(s: Sys, g: Ghost, t: Tid, op: Op, u: Tid)
    requires Placed(s, g) && t < |s.pc| && s.pc[t].Casting? && s.pc[t].todo != []
    requires u < |s.pc| && u != t && u != s.pc[t].todo[0]
    ensures var s', g' := Step(s, t, op), Effect(s, g, t);
            Same(s, g, s', g', u)
  {
    assert ThreadOk(s, g, u);
    assert ThreadOk(s, g, t);
    var todo := s.pc[t].todo;
    assert todo[0] in todo && (u in todo ==> u in todo[1..]);
    assert ThreadOk(s, g, todo[0]);
  }

  lemma CastOneOtherCovers(s: Sys, g: Ghost, t: Tid, op: Op, u: Tid)
    requires Placed(s, g) && t < |s.pc| && s.pc[t].Casting? && s.pc[t].todo != []
    requires u < |s.pc| && u != t && u != s.pc[t].todo[0]
    ensures StillCovers(s.pc[t], Step(s, t, op).pc[t], g.loc[u], t, u)
  {
    CastOneNoLink(s, g, t, u);
    CastNextCovers(s.pc[t].todo, s.pc[t].out, u);
    assert ThreadOk(s, g, t);
    assert s.pc[t].todo[0] in s.pc[t].todo;
    CastOnePc(s, g, t, op);
  }

  lemma CastOneNoLink(s: Sys, g: Ghost, t: Tid, u: Tid)
    requires Placed(s, g) && t < |s.pc| && s.pc[t].Casting? && u < |s.pc| && u != t
    ensures g.loc[u] != Linking(t) && g.loc[u] != Granted(t) && (g.loc[u] == InOut(t) ==> u in s.pc[t].out)
  {
    assert ThreadOk(s, g, u);
  }

  lemma CastNextCovers(todo: seq<Tid>, out: seq<Tid>, u: Tid)
    requires todo != [] && u != todo[0]
    ensures u in todo ==> u in todo[1..] && todo[1..] != []
    ensures u in out ==> u in Out(CastNext(todo[1..], out + [todo[0]]))
  {
  }

  lemma CastOnePc(s: Sys, g: Ghost, t: Tid, op: Op)
    requires Placed(s, g) && t < |s.pc| && s.pc[t].Casting? && s.pc[t].todo != []
    ensures s.pc[t].todo[0] < |s.pc|
    ensures var p', x := Step(s, t, op).pc[t], s.pc[t].todo[0];
            if s.core.temp0[x] == Null then
              && p' == CastNext(s.pc[t].todo[1..], s.pc[t].out + [x])
              && Effect(s, g, t).loc == g.loc[x := InOut(t)]
            else
              && p' == CastAcquire(x, s.pc[t].todo[1..], s.pc[t].out)
              && Effect(s, g, t).loc == g.loc
  {
    assert ThreadOk(s, g, t);
    assert s.pc[t].todo[0] in s.pc[t].todo;
    assert ThreadOk(s, g, s.pc[t].todo[0]);
  }

  lemma CastOneOther(s: Sys, g: Ghost, t: Tid, op: Op, u: Tid)
    requires Placed(s, g) && t < |s.pc| && s.pc[t].Casting? && s.pc[t].todo != []
    requires u < |s.pc| && u != t && u != s.pc[t].todo[0]
    ensures var s', g' := Step(s, t, op), Effect(s, g, t);
            Same(s, g, s', g', u) && StillCovers(s.pc[t], s'.pc[t], g.loc[u], t, u)
  {
    CastOneOtherSame(s, g, t, op, u);
    CastOneOtherCovers(s, g, t, op, u);
  }

  lemma CastingKeeps(s: Sys, g: Ghost, t: Tid, op: Op)
    requires Placed(s, g) && t < |s.pc| && s.pc[t].Casting?
    ensures Placed(Step(s, t, op), Effect(s, g, t))
  {
    var s', g' := Step(s, t, op), Effect(s, g, t);
    CastOneSelf(s, g, t, op);
    CastOneCur(s, g, t, op);
    var x := s.pc[t].todo[0];
    forall u: Tid | u < |s.pc| && u !in {t, x}
      ensures Same(s, g, s', g', u) && StillCovers(s.pc[t], s'.pc[t], g.loc[u], t, u)
    {
      CastOneOther(s, g, t, op, u);
    }
    CastOneRest(s, g, t, op);
    OthersOk(s, g, s', g', t, {t, x});
  }

  lemma CastOneRest(s: Sys, g: Ghost, t: Tid, op: Op)
    requires Placed(s, g) && t < |s.pc| && s.pc[t].Casting?
    ensures var s', g' := Step(s, t, op), Effect(s, g, t);
            Local(s, g, s', g', t) && CountOk(s', g') && s'.cond == s.cond && s'.Valid() && |g'.loc| == |s'.pc|
  {
    assert ThreadOk(s, g, t);
    assert s.pc[t].todo[0] in s.pc[t].todo;
    assert ThreadOk(s, g, s.pc[t].todo[0]);
  }

  lemma CastClearSelf(s: Sys, g: Ghost, t: Tid, op: Op)
    requires Placed(s, g) && t < |s.pc| && s.pc[t].CastClear?
    ensures ThreadOk(Step(s, t, op), Effect(s, g, t), t)
  {
    assert ThreadOk(s, g, t);
    forall x | x in s.cond ensures g.loc[x].InCond? {
      assert ThreadOk(s, g, x);
    }
  }

  lemma CastClearInPc(s: Sys, g: Ghost, t: Tid, op: Op, u: Tid)
    requires Placed(s, g) && t < |s.pc| && s.pc[t].CastClear? && u < |s.pc| && u != t && u in s.cond
    ensures PcOk(Step(s, t, op), Effect(s, g, t), u)
  {
    assert ThreadOk(s, g, t);
    assert ThreadOk(s, g, u);
    assert ThreadOk(s, g, if s.pc[u].Switching? then s.pc[u].next else t);
  }

  lemma CastClearInLoc(s: Sys, g: Ghost, t: Tid, op: Op, u: Tid)
    requires Placed(s, g) && t < |s.pc| && s.pc[t].CastClear? && u < |s.pc| && u != t && u in s.cond
    ensures LocOk(Step(s, t, op), Effect(s, g, t), u)
  {
    assert ThreadOk(s, g, u);
    assert g.loc[u].InCond? && Parked(s, u);
    assert CastNext(s.cond, []) == Casting(s.cond, []);
  }

  lemma CastClearInLists(s: Sys, g: Ghost, t: Tid, op: Op, u: Tid)
    requires Placed(s, g) && t < |s.pc| && s.pc[t].CastClear? && u < |s.pc| && u != t && u in s.cond
    ensures ListsOk(Step(s, t, op), Effect(s, g, t), u)
  {
    assert ThreadOk(s, g, t);
    assert ThreadOk(s, g, u);
    assert ThreadOk(s, g, if s.pc[u].Switching? then s.pc[u].next else t);
  }

  lemma CastClearOneIn(s: Sys, g: Ghost, t: Tid, op: Op, u: Tid)
    requires Placed(s, g) && t < |s.pc| && s.pc[t].CastClear? && u < |s.pc| && u != t && u in s.cond
    ensures ThreadOk(Step(s, t, op), Effect(s, g, t), u)
  {
    CastClearInPc(s, g, t, op, u);
    CastClearInLoc(s, g, t, op, u);
    CastClearInLists(s, g, t, op, u);
  }

  lemma CastClearOneOut(s: Sys, g: Ghost, t: Tid, op: Op, u: Tid)
    requires Placed(s, g) && t < |s.pc| && s.pc[t].CastClear? && u < |s.pc| && u != t
    ensures var s', g' := Step(s, t, op), Effect(s, g, t);
            u !in s.cond ==> Same(s, g, s', g', u) && StillCovers(s.pc[t], s'.pc[t], g.loc[u], t, u)
  {
    assert ThreadOk(s, g, t);
    assert ThreadOk(s, g, u);
    assert ThreadOk(s, g, if s.pc[u].Switching? then s.pc[u].next else t);
  }

  lemma CastClearOne(s: Sys, g: Ghost, t: Tid, op: Op, u: Tid)
    requires Placed(s, g) && t < |s.pc| && s.pc[t].CastClear? && u < |s.pc| && u != t
    ensures var s', g' := Step(s, t, op), Effect(s, g, t);
            && (u in s.cond ==> ThreadOk(s', g', u))
            && (u !in s.cond ==> Same(s, g, s', g', u) && StillCovers(s.pc[t], s'.pc[t], g.loc[u], t, u))
  {
    if u in s.cond {
      CastClearOneIn(s, g, t, op, u);
    }
    CastClearOneOut(s, g, t, op, u);
  }

  lemma CastClearKeeps(s: Sys, g: Ghost, t: Tid, op: Op)
    requires Placed(s, g) && t < |s.pc| && s.pc[t].CastClear?
    ensures Placed(Step(s, t, op), Effect(s, g, t))
  {
    var s', g' := Step(s, t, op), Effect(s, g, t);
    var touched := {t} + (set x | x in s.cond);
    CastClearSelf(s, g, t, op);
    forall u: Tid | u < |s.pc| && u != t
      ensures u in touched ==> ThreadOk(s', g', u)
      ensures u !in touched ==> Same(s, g, s', g', u) && StillCovers(s.pc[t], s'.pc[t], g.loc[u], t, u)
    {
      CastClearOne(s, g, t, op, u);
    }
    assert Local(s, g, s', g', t) by {
      forall x: Tid | x < |s.pc| && x in s.cond ensures Mine(g.loc[x], t) {
        assert ThreadOk(s, g, x);
      }
    }
    OthersOk(s, g, s', g', t, touched);
  }

  lemma CastWakeSelf(s: Sys, g: Ghost, t: Tid, op: Op)
    requires Placed(s, g) && t < |s.pc| && s.pc[t].CastWake?
    ensures ThreadOk(Step(s, t, op), Effect(s, g, t), t)
  {
    assert ThreadOk(s, g, t);
  }

  lemma CastWakeIn(s: Sys, g: Ghost, t: Tid, op: Op, u: Tid)
    requires Placed(s, g) && t < |s.pc| && s.pc[t].CastWake? && u < |s.pc| && u != t && u in s.pc[t].out
    ensures ThreadOk(Step(s, t, op), Effect(s, g, t), u)
  {
    assert ThreadOk(s, g, t);
    assert ThreadOk(s, g, u);
  }

  lemma CastWakeOut(s: Sys, g: Ghost, t: Tid, op: Op, u: Tid)
    requires Placed(s, g) && t < |s.pc| && s.pc[t].CastWake? && u < |s.pc| && u != t && u !in s.pc[t].out
    ensures var s', g' := Step(s, t, op), Effect(s, g, t);
            Same(s, g, s', g', u) && StillCovers(s.pc[t], s'.pc[t], g.loc[u], t, u)
  {
    assert ThreadOk(s, g, t);
    assert ThreadOk(s, g, u);
  }

  lemma CastWakeOne(s: Sys, g: Ghost, t: Tid, op: Op, u: Tid)
    requires Placed(s, g) && t < |s.pc| && s.pc[t].CastWake? && u < |s.pc| && u != t
    ensures var s', g' := Step(s, t, op), Effect(s, g, t);
            && (u in s.pc[t].out ==> ThreadOk(s', g', u))
            && (u !in s.pc[t].out ==> Same(s, g, s', g', u) && StillCovers(s.pc[t], s'.pc[t], g.loc[u], t, u))
  {
    if u in s.pc[t].out {
      CastWakeIn(s, g, t, op, u);
    } else {
      CastWakeOut(s, g, t, op, u);
    }
  }

  lemma CastWakeKeeps(s: Sys, g: Ghost, t: Tid, op: Op)
    requires Placed(s, g) && t < |s.pc| && s.pc[t].CastWake?
    ensures Placed(Step(s, t, op), Effect(s, g, t))
  {
    var s', g' := Step(s, t, op), Effect(s, g, t);
    var out := s.pc[t].out;
    var touched := {t} + (set x | x in out);
    CastWakeSelf(s, g, t, op);
    forall u: Tid | u < |s.pc| && u != t
      ensures u in touched ==> ThreadOk(s', g', u)
      ensures u !in touched ==> Same(s, g, s', g', u) && StillCovers(s.pc[t], s'.pc[t], g.loc[u], t, u)
    {
      CastWakeOne(s, g, t, op, u);
    }
    CastWakeRest(s, g, t, op);
    OthersOk(s, g, s', g', t, touched);
  }

  lemma CastWakeRest(s: Sys, g: Ghost, t: Tid, op: Op)
    requires Placed(s, g) && t < |s.pc| && s.pc[t].CastWake?
    ensures var s', g' := Step(s, t, op), Effect(s, g, t);
            Local(s, g, s', g', t) && CountOk(s', g') && s'.cond == s.cond && s'.Valid() && |g'.loc| == |s'.pc|
  {
    var out := s.pc[t].out;
    assert ThreadOk(s, g, t);
    forall x: Tid | x < |s.pc| && x in out ensures Plain(s.pc[x]) && Mine(g.loc[x], t) {
      assert ThreadOk(s, g, x);
    }
  }

  // ------------------------------------------------------------------
  // Every step keeps the invariant
  // ------------------------------------------------------------------

  lemma OwnerTellsHolder(s: Sys, g: Ghost, t: Tid)
    requires Inv(s, g) && t < |s.pc| && Quiet(s, t)
    ensures OwnerTells(s, g, t)
  {
  }

  lemma LockOwnerCore(s: Sys, g: Ghost, t: Tid, op: Op)
    requires Inv(s, g) && t < |s.pc| && s.pc[t].LockOwner?
    ensures Encodes(Step(s, t, op).core, Effect(s, g, t).abs)
    ensures AbsNext(g.abs, Effect(s, g, t).abs, t)
  {
    assert ThreadOk(s, g, t);
    if s.core.owner == None {
      BeginAcquire(s.core, g.abs, t, FastLoad(false));
    } else if s.core.owner != Some(t) {
      BeginAcquire(s.core, g.abs, t, Reset);
    }
  }

  lemma TryOwnerCore(s: Sys, g: Ghost, t: Tid, op: Op)
    requires Inv(s, g) && t < |s.pc| && s.pc[t].TryOwner?
    ensures Encodes(Step(s, t, op).core, Effect(s, g, t).abs)
    ensures AbsNext(g.abs, Effect(s, g, t).abs, t)
  {
    assert ThreadOk(s, g, t);
    if s.core.owner == None {
      BeginAcquire(s.core, g.abs, t, FastLoad(true));
    }
  }

  lemma AcquiringCore(s: Sys, g: Ghost, t: Tid, op: Op)
    requires Inv(s, g) && t < |s.pc| && s.pc[t].Acquiring?
    ensures Encodes(Step(s, t, op).core, Effect(s, g, t).abs)
    ensures AbsNext(g.abs, Effect(s, g, t).abs, t)
  {
    assert ThreadOk(s, g, t);
    AcquireKeeps(s.core, g.abs, t);
  }

  lemma UnlockCountCore(s: Sys, g: Ghost, t: Tid, op: Op)
    requires Inv(s, g) && t < |s.pc| && s.pc[t].UnlockCount?
    ensures Encodes(Step(s, t, op).core, Effect(s, g, t).abs)
    ensures AbsNext(g.abs, Effect(s, g, t).abs, t)
  {
    assert ThreadOk(s, g, t);
    if s.count <= 1 {
      BeginRelease(s.core, g.abs, t);
    }
  }

  lemma UnlockingCore(s: Sys, g: Ghost, t: Tid, op: Op)
    requires Inv(s, g) && t < |s.pc| && s.pc[t].Unlocking?
    ensures Encodes(Step(s, t, op).core, Effect(s, g, t).abs)
    ensures AbsNext(g.abs, Effect(s, g, t).abs, t)
  {
    assert ThreadOk(s, g, t);
    ReleaseKeeps(s.core, g.abs, t);
  }

  lemma WaitCountCore(s: Sys, g: Ghost, t: Tid, op: Op)
    requires Inv(s, g) && t < |s.pc| && s.pc[t].WaitCount?
    ensures Encodes(Step(s, t, op).core, Effect(s, g, t).abs)
    ensures AbsNext(g.abs, Effect(s, g, t).abs, t)
  {
    assert ThreadOk(s, g, t);
    BorrowCell(s.core, g.abs, t, if s.count > 1 then Null else MutexAddr);
  }

  lemma WaitAppendCore(s: Sys, g: Ghost, t: Tid, op: Op)
    requires Inv(s, g) && t < |s.pc| && s.pc[t].WaitAppend?
    ensures Encodes(Step(s, t, op).core, Effect(s, g, t).abs)
    ensures AbsNext(g.abs, Effect(s, g, t).abs, t)
  {
    assert ThreadOk(s, g, t);
    if s.pc[t].release {
      BeginRelease(s.core, g.abs, t);
    }
  }

  lemma WaitReleasingCore(s: Sys, g: Ghost, t: Tid, op: Op)
    requires Inv(s, g) && t < |s.pc| && s.pc[t].WaitReleasing?
    ensures Encodes(Step(s, t, op).core, Effect(s, g, t).abs)
    ensures AbsNext(g.abs, Effect(s, g, t).abs, t)
  {
    assert ThreadOk(s, g, t);
    ReleaseKeeps(s.core, g.abs, t);
  }

  lemma CastingCore(s: Sys, g: Ghost, t: Tid, op: Op)
    requires Inv(s, g) && t < |s.pc| && s.pc[t].Casting?
    ensures Encodes(Step(s, t, op).core, Effect(s, g, t).abs)
    ensures AbsNext(g.abs, Effect(s, g, t).abs, t)
  {
    assert ThreadOk(s, g, t);
    var x := s.pc[t].todo[0];
    assert x in s.pc[t].todo;
    assert ThreadOk(s, g, x);
    if s.core.temp0[x] != Null {
      BeginAcquire(s.core, g.abs, x, Load(false));
    }
  }

  lemma CastAcquireCore(s: Sys, g: Ghost, t: Tid, op: Op)
    requires Inv(s, g) && t < |s.pc| && s.pc[t].CastAcquire?
    ensures Encodes(Step(s, t, op).core, Effect(s, g, t).abs)
    ensures AbsNext(g.abs, Effect(s, g, t).abs, s.pc[t].cur)
  {
    assert ThreadOk(s, g, t);
    AcquireKeeps(s.core, g.abs, s.pc[t].cur);
  }

  lemma LockStep(s: Sys, g: Ghost, t: Tid, op: Op)
    requires Inv(s, g) && t < |s.pc|
    requires s.pc[t].LockOwner? || s.pc[t].LockCount? || s.pc[t].TryOwner? || s.pc[t].TryCount? || s.pc[t].Acquiring?
    ensures Inv(Step(s, t, op), Effect(s, g, t))
    ensures AbsStep(g.abs, Effect(s, g, t).abs)
  {
    assert AbsNext(g.abs, g.abs, t);
    assert ThreadOk(s, g, t);
    match s.pc[t]
    case LockOwner => OwnerTellsHolder(s, g, t); LockOwnerKeeps(s, g, t, op); LockOwnerCore(s, g, t, op);
    case LockCount => LockCountKeeps(s, g, t, op);
    case TryOwner => OwnerTellsHolder(s, g, t); TryOwnerKeeps(s, g, t, op); TryOwnerCore(s, g, t, op);
    case TryCount => TryCountKeeps(s, g, t, op);
    case Acquiring =>
      AcquireSummaryHolds(s.core, g.abs, t);
      AcquiringMove(s, g, t, AcquireStep(s.core, t), AcquireEffect(s.core, g.abs, t));
      AcquiringCore(s, g, t, op);
  }

  lemma UnlockStep(s: Sys, g: Ghost, t: Tid, op: Op)
    requires Inv(s, g) && t < |s.pc|
    requires s.pc[t].UnlockOwner? || s.pc[t].UnlockCount? || s.pc[t].Unlocking? || s.pc[t].Waking?
    ensures Inv(Step(s, t, op), Effect(s, g, t))
    ensures AbsStep(g.abs, Effect(s, g, t).abs)
  {
    assert AbsNext(g.abs, g.abs, t);
    assert ThreadOk(s, g, t);
    match s.pc[t]
    case UnlockOwner => OwnerTellsHolder(s, g, t); UnlockOwnerKeeps(s, g, t, op);
    case UnlockCount => UnlockCountKeeps(s, g, t, op); UnlockCountCore(s, g, t, op);
    case Unlocking =>
      ReleaseSummaryHolds(s.core, g.abs, t);
      ReleaseMove(s, g, t, ReleaseStep(s.core, t), ReleaseEffect(s.core, g.abs, t));
      UnlockingCore(s, g, t, op);
    case Waking(_) => WakingKeeps(s, g, t, op);
  }

  lemma WaitStep(s: Sys, g: Ghost, t: Tid, op: Op)
    requires Inv(s, g) && t < |s.pc|
    requires s.pc[t].WaitOwner? || s.pc[t].WaitOwnerAgain? || s.pc[t].WaitCount? || s.pc[t].WaitAppend?
    ensures Inv(Step(s, t, op), Effect(s, g, t))
    ensures AbsStep(g.abs, Effect(s, g, t).abs)
  {
    assert AbsNext(g.abs, g.abs, t);
    assert ThreadOk(s, g, t);
    match s.pc[t]
    case WaitOwner => WaitOwnerKeeps(s, g, t, op);
    case WaitOwnerAgain => OwnerTellsHolder(s, g, t); WaitOwnerAgainKeeps(s, g, t, op);
    case WaitCount => WaitCountKeeps(s, g, t, op); WaitCountCore(s, g, t, op);
    case WaitAppend(_) => WaitAppendKeeps(s, g, t, op); WaitAppendCore(s, g, t, op);
  }

  lemma SwitchStep(s: Sys, g: Ghost, t: Tid, op: Op)
    requires Inv(s, g) && t < |s.pc| && s.pc[t].Switching?
    ensures Inv(Step(s, t, op), Effect(s, g, t))
    ensures AbsStep(g.abs, Effect(s, g, t).abs)
  {
    assert AbsNext(g.abs, g.abs, t);
    assert ThreadOk(s, g, t);
    SwitchingKeeps(s, g, t, op);
  }

  lemma WaitReleaseStep(s: Sys, g: Ghost, t: Tid, op: Op)
    requires Inv(s, g) && t < |s.pc| && s.pc[t].WaitReleasing?
    ensures Inv(Step(s, t, op), Effect(s, g, t))
    ensures AbsStep(g.abs, Effect(s, g, t).abs)
  {
    assert AbsNext(g.abs, g.abs, t);
    assert ThreadOk(s, g, t);
    ReleaseSummaryHolds(s.core, g.abs, t);
    ReleaseMove(s, g, t, ReleaseStep(s.core, t), ReleaseEffect(s.core, g.abs, t));
    WaitReleasingCore(s, g, t, op);
  }

  lemma CastAcquirePlaced(s: Sys, g: Ghost, t: Tid, op: Op)
    requires Inv(s, g) && t < |s.pc| && s.pc[t].CastAcquire?
    ensures Placed(Step(s, t, op), Effect(s, g, t))
  {
    var cur := s.pc[t].cur;
    assert ThreadOk(s, g, t);
    assert ThreadOk(s, g, cur);
    AcquireSummaryHolds(s.core, g.abs, cur);
    CastAcquireMove(s, g, t, AcquireStep(s.core, cur), AcquireEffect(s.core, g.abs, cur));
  }

  lemma CastAcquireStep(s: Sys, g: Ghost, t: Tid, op: Op)
    requires Inv(s, g) && t < |s.pc| && s.pc[t].CastAcquire?
    ensures Inv(Step(s, t, op), Effect(s, g, t))
    ensures AbsStep(g.abs, Effect(s, g, t).abs)
  {
    CastAcquirePlaced(s, g, t, op);
    CastAcquireCore(s, g, t, op);
  }

  lemma CastStep(s: Sys, g: Ghost, t: Tid, op: Op)
    requires Inv(s, g) && t < |s.pc|
    requires s.pc[t].CastClear? || s.pc[t].Casting? || s.pc[t].CastAcquire? || s.pc[t].CastWake?
    ensures Inv(Step(s, t, op), Effect(s, g, t))
    ensures AbsStep(g.abs, Effect(s, g, t).abs)
  {
    assert AbsNext(g.abs, g.abs, t);
    assert ThreadOk(s, g, t);
    match s.pc[t]
    case CastClear => CastClearKeeps(s, g, t, op);
    case Casting(_, _) => CastingKeeps(s, g, t, op); CastingCore(s, g, t, op);
    case CastAcquire(_, _, _) => CastAcquireStep(s, g, t, op);
    case CastWake(_) => CastWakeKeeps(s, g, t, op);
  }

  /** Any step of any thread keeps the invariant, and the abstract lock moves by its own rules. */
  lemma StepKeeps(s: Sys, g: Ghost, t: Tid, op: Op)
    requires Inv(s, g) && t < |s.pc|
    ensures Inv(Step(s, t, op), Effect(s, g, t))
    ensures AbsStep(g.abs, Effect(s, g, t).abs)
  {
    assert AbsNext(g.abs, g.abs, t);
    assert ThreadOk(s, g, t);
    match s.pc[t]
    case User(_) => UserKeeps(s, g, t, op);
    case LockOwner => LockStep(s, g, t, op);
    case LockCount => LockStep(s, g, t, op);
    case TryOwner => LockStep(s, g, t, op);
    case TryCount => LockStep(s, g, t, op);
    case Acquiring => LockStep(s, g, t, op);
    case UnlockOwner => UnlockStep(s, g, t, op);
    case UnlockCount => UnlockStep(s, g, t, op);
    case Unlocking => UnlockStep(s, g, t, op);
    case Waking(_) => UnlockStep(s, g, t, op);
    case Asleep(_) =>
    case Ready(_) => ReadyKeeps(s, g, t, op);
    case CastClear => CastStep(s, g, t, op);
    case Casting(_, _) => CastStep(s, g, t, op);
    case CastAcquire(_, _, _) => CastStep(s, g, t, op);
    case CastWake(_) => CastStep(s, g, t, op);
    case WaitReleasing => WaitReleaseStep(s, g, t, op);
    case Switching(_) => SwitchStep(s, g, t, op);
    case _ => WaitStep(s, g, t, op);
  }
}
