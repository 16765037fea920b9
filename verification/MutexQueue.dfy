/** The lock-free waiter queue of one `struct Mutex`, at the grain of single atomic accesses.

    The address of the `waiters` field serves as a dummy queue cell (`Dummy`), `wait_end` is the
    tail, and every waiting thread contributes its `temp0` field as a cell (`Node(t)`).

    Two routines run over this state, each possibly for many threads at once:
      - the acquire routine, run by a thread for itself (mtx_lock, mtx_trylock) or by a
        broadcaster on behalf of a sleeping thread (cnd_broadcast);
      - the release routine, run by mtx_unlock and, inlined, by cnd_wait.
    The state records, per subject thread, where each routine stands. */
module MutexQueue {
  import opened Options

  type Tid = nat

  /** Contents of a queue pointer. `MutexAddr` is the address cnd_wait parks in `temp0`. */
  datatype Ptr = Null | Dummy | Node(t: Tid) | MutexAddr

  /** Next access of the acquire routine. `clean` records that `temp0` is already NULL. */
  datatype Acquire =
    | NoAcquire
    | FastLoad(try: bool) | FastCas(try: bool)
    | Reset
    | Load(clean: bool) | Cas(clean: bool)
    | LateReset
    | Exchange
    | TakeCas | TakeOwner | TakeSpin | TakeStore(next: Ptr)
    | Link(last: Ptr)
    | StoreOwner

  /** Next access of the release routine. */
  datatype Release =
    | NoRelease
    | LoadWaiters | LoadEnd | ClearOwner | CasFree
    | SpinWaiters(end: Ptr)
    | LoadNext(head: Ptr) | LoadEndAgain(head: Ptr)
    | ClearWaiters(head: Ptr) | CasLast(head: Ptr)
    | SpinNext(head: Ptr)
    | StoreWaiters(head: Ptr, next: Ptr)
    | GrantOwner(head: Ptr)
    | Unreachable

  datatype Core = Core(owner: Option<Tid>, waiters: Ptr, waitEnd: Ptr,
                       temp0: seq<Ptr>, acq: seq<Acquire>, rel: seq<Release>)
  {
    ghost predicate Valid() {
      |temp0| == |acq| == |rel|
    }

    /** The word a queue pointer points to. */
    function Read(p: Ptr): Ptr
      requires Valid()
    {
      match p
      case Dummy => waiters
      case Node(t) => if t < |temp0| then temp0[t] else Null
      case _ => Null
    }

    function Write(p: Ptr, v: Ptr): Core
      requires Valid()
    {
      match p
      case Dummy => this.(waiters := v)
      case Node(t) => if t < |temp0| then this.(temp0 := temp0[t := v]) else this
      case _ => this
    }

    function AtAcquire(x: Tid, p: Acquire): Core
      requires Valid() && x < |acq|
    {
      this.(acq := acq[x := p])
    }

    function AtRelease(t: Tid, p: Release): Core
      requires Valid() && t < |rel|
    {
      this.(rel := rel[t := p])
    }
  }

  /** One access of the acquire routine for thread `x`. A spin loop that reads NULL stutters. */
  function AcquireStep(c: Core, x: Tid): (r: Core)
    requires c.Valid() && x < |c.acq|
    ensures r.Valid() && |r.acq| == |c.acq|
  {
    match c.acq[x]
    case NoAcquire => c
    case FastLoad(try) =>
      if c.waitEnd == Null then c.AtAcquire(x, FastCas(try))
      else c.AtAcquire(x, if try then NoAcquire else Reset)
    case FastCas(try) =>
      if c.waitEnd == Null then c.(waitEnd := Dummy).AtAcquire(x, StoreOwner)
      else c.AtAcquire(x, if try then NoAcquire else Reset)
    case Reset => c.Write(Node(x), Null).AtAcquire(x, Load(true))
    case Load(clean) =>
      if c.waitEnd == Null then c.AtAcquire(x, Cas(clean))
      else c.AtAcquire(x, if clean then Exchange else LateReset)
    case Cas(clean) =>
      if c.waitEnd == Null then c.(waitEnd := Dummy).AtAcquire(x, StoreOwner)
      else c.AtAcquire(x, if clean then Exchange else LateReset)
    case LateReset => c.Write(Node(x), Null).AtAcquire(x, Exchange)
    case Exchange =>
      c.(waitEnd := Node(x)).AtAcquire(x, if c.waitEnd == Null then TakeCas else Link(c.waitEnd))
    case TakeCas =>
      if c.waitEnd == Node(x) then c.(waitEnd := Dummy).AtAcquire(x, StoreOwner)
      else c.AtAcquire(x, TakeOwner)
    case TakeOwner => c.(owner := Some(x)).AtAcquire(x, TakeSpin)
    case TakeSpin =>
      if c.temp0[x] == Null then c else c.AtAcquire(x, TakeStore(c.temp0[x]))
    case TakeStore(next) => c.(waiters := next).AtAcquire(x, NoAcquire)
    case Link(last) => c.Write(last, Node(x)).AtAcquire(x, NoAcquire)
    case StoreOwner => c.(owner := Some(x)).AtAcquire(x, NoAcquire)
  }

  /** One access of the release routine for thread `t`. */
  function ReleaseStep(c: Core, t: Tid): (r: Core)
    requires c.Valid() && t < |c.rel|
    ensures r.Valid() && |r.acq| == |c.acq|
  {
    match c.rel[t]
    case NoRelease => c
    case Unreachable => c
    case LoadWaiters =>
      c.AtRelease(t, if c.waiters == Null then LoadEnd else LoadNext(c.waiters))
    case LoadEnd =>
      c.AtRelease(t, if c.waitEnd == Null then Unreachable
                     else if c.waitEnd == Dummy then ClearOwner
                     else SpinWaiters(c.waitEnd))
    case ClearOwner => c.(owner := None).AtRelease(t, CasFree)
    case CasFree =>
      if c.waitEnd == Dummy then c.(waitEnd := Null).AtRelease(t, NoRelease)
      else c.AtRelease(t, SpinWaiters(c.waitEnd))
    case SpinWaiters(end) =>
      if c.waiters == Null then c
      else c.AtRelease(t, if end == c.waiters then ClearWaiters(c.waiters) else SpinNext(c.waiters))
    case LoadNext(head) =>
      var next := c.Read(head);
      c.AtRelease(t, if next == Null then LoadEndAgain(head) else StoreWaiters(head, next))
    case LoadEndAgain(head) =>
      c.AtRelease(t, if c.waitEnd == head then ClearWaiters(head) else SpinNext(head))
    case ClearWaiters(head) => c.(waiters := Null).AtRelease(t, CasLast(head))
    case CasLast(head) =>
      if c.waitEnd == head then c.(waitEnd := Dummy).AtRelease(t, GrantOwner(head))
      else c.AtRelease(t, SpinNext(head))
    case SpinNext(head) =>
      var next := c.Read(head);
      if next == Null then c else c.AtRelease(t, StoreWaiters(head, next))
    case StoreWaiters(head, next) => c.(waiters := next).AtRelease(t, GrantOwner(head))
    case GrantOwner(head) =>
      c.(owner := if head.Node? then Some(head.t) else None).AtRelease(t, NoRelease)
  }

  // ------------------------------------------------------------------
  // The abstract lock: a holder, the thread it is about to name as its successor, a FIFO queue
  // ------------------------------------------------------------------

  datatype Abs = Abs(holder: Option<Tid>, next: Option<Tid>, queue: seq<Tid>)

  const FREE := Abs(None, None, [])

  /** What the lock may do in one step of thread `x`, seen from outside. */
  ghost predicate AbsNext(a: Abs, b: Abs, x: Tid)
  {
    || b == a
    || (a == FREE && b == Abs(Some(x), None, []))                                   // takes a free lock
    || (a.holder.Some? && x !in a.queue && b == a.(queue := a.queue + [x]))          // queues up, last
    || (a == Abs(Some(x), None, []) && b == FREE)                                   // frees the lock
    || (a.holder == Some(x) && a.next == None && a.queue != []                      // picks the oldest waiter
        && b == Abs(Some(x), Some(a.queue[0]), a.queue[1..]))
    || (a.holder == Some(x) && a.next.Some? && b == a.(holder := a.next, next := None)) // hands over
  }

  ghost predicate AbsStep(a: Abs, b: Abs) {
    exists x: Tid :: AbsNext(a, b, x)
  }

  ghost predicate Taking(p: Acquire) {
    p.TakeCas? || p.TakeOwner? || p.TakeSpin? || p.TakeStore?
  }

  /** The acquire routine has the lock already, though its bookkeeping is unfinished. */
  ghost predicate HoldsInAcquire(p: Acquire) {
    Taking(p) || p.StoreOwner?
  }

  /** The acquire routine has not reached its decisive access: the thread is no cell of the queue. */
  ghost predicate Outside(p: Acquire) {
    !HoldsInAcquire(p) && !p.Link?
  }

  /** The release routine carries the queue head in a local variable. */
  ghost predicate KeepsHead(r: Release) {
    r.LoadNext? || r.LoadEndAgain? || r.ClearWaiters? || r.CasLast? || r.SpinNext? || r.StoreWaiters?
  }

  /** `cell`, which holds `v`, links to `x`: either it does, or x still owes exactly that store. */
  ghost predicate Linked(c: Core, cell: Ptr, v: Ptr, x: Tid)
    requires c.Valid() && x < |c.acq|
  {
    if c.acq[x].Link? then v == Null && c.acq[x].last == cell
    else v == Node(x)
  }

  ghost predicate QueueOk(c: Core, a: Abs)
    requires c.Valid()
  {
    && (forall i | 0 <= i < |a.queue| :: a.queue[i] < |c.acq| && (c.acq[a.queue[i]].NoAcquire? || c.acq[a.queue[i]].Link?))
    && (forall i, j | 0 <= i < j < |a.queue| :: a.queue[i] != a.queue[j])
    && (forall x {:trigger x in a.queue} | 0 <= x < |c.acq| && c.acq[x].Link? :: x in a.queue)
    && (a.next.Some? ==> a.next.value < |c.acq| && c.acq[a.next.value].NoAcquire? && a.next.value !in a.queue)
  }

  /** Which thread may stand where. */
  ghost predicate PhasesOk(c: Core, a: Abs)
    requires c.Valid()
  {
    && (forall x | 0 <= x < |c.acq| && HoldsInAcquire(c.acq[x]) :: a.holder == Some(x) && c.rel[x].NoRelease?)
    && (forall x | 0 <= x < |c.acq| && !c.rel[x].NoRelease? :: a.holder == Some(x))
    && (forall x | 0 <= x < |c.acq| && (c.acq[x].Exchange? || c.acq[x] == Load(true) || c.acq[x] == Cas(true)) ::
          c.temp0[x] == Null)
  }

  /** The cell at which the encoded queue starts when no local variable holds its head. */
  ghost function HeadCell(c: Core, h: Tid): Ptr
    requires c.Valid() && h < |c.acq|
  {
    if Taking(c.acq[h]) then Node(h) else Dummy
  }

  /** The cells encode the queue of holder `h`. */
  ghost predicate CellsOk(c: Core, q: seq<Tid>, h: Tid)
    requires c.Valid() && h < |c.acq|
    requires forall i | 0 <= i < |q| :: q[i] < |c.acq|
  {
    // the tail
    && c.waitEnd == (if q == [] then HeadCell(c, h) else Node(q[|q| - 1]))
    && (q != [] ==> c.temp0[q[|q| - 1]] == Null)
    // cell to cell
    && (forall i, j | 0 <= i < j < |q| && j == i + 1 :: Linked(c, Node(q[i]), c.temp0[q[i]], q[j]))
    // the first link
    && (if Taking(c.acq[h]) then
          && c.waiters == Null
          && (q == [] ==> c.temp0[h] == Null && c.acq[h].TakeCas?)
          && (q != [] ==> if c.acq[h].TakeStore? then c.acq[h].next == Node(q[0]) && c.acq[q[0]].NoAcquire?
                              else Linked(c, Node(h), c.temp0[h], q[0]))
        else if KeepsHead(c.rel[h]) then
          && q != []
          && c.rel[h].head == Node(q[0])
          && c.acq[q[0]].NoAcquire?
          && (c.rel[h].SpinNext? || c.rel[h].StoreWaiters? ==> |q| >= 2)
          && (c.rel[h].StoreWaiters? ==> c.rel[h].next == Node(q[1]) && c.acq[q[1]].NoAcquire?)
          && (c.rel[h].CasLast? ==> c.waiters == Null)
        else
          if q == [] then c.waiters == Null else Linked(c, Dummy, c.waiters, q[0]))
  }

  /** What `owner` holds while thread `h` has the lock. */
  ghost predicate OwnerOk(c: Core, h: Tid)
    requires c.Valid() && h < |c.acq|
  {
    && (c.owner == None || c.owner == Some(h))
    && (c.acq[h].StoreOwner? || c.acq[h].TakeCas? || c.acq[h].TakeOwner? ==> c.owner == None)
    && (c.acq[h].TakeSpin? || c.acq[h].TakeStore? ==> c.owner == Some(h))
    && (!HoldsInAcquire(c.acq[h]) && (c.rel[h].NoRelease? || c.rel[h].LoadWaiters? || c.rel[h].LoadEnd? || c.rel[h].ClearOwner?) ==>
          c.owner == Some(h))
    && (c.rel[h].CasFree? ==> c.owner == None)
  }

  ghost predicate ReleaseOk(c: Core, a: Abs, h: Tid)
    requires c.Valid() && h < |c.acq|
  {
    && !c.rel[h].Unreachable?
    && (c.rel[h].SpinWaiters? ==> c.rel[h].end.Node? && c.rel[h].end.t in a.queue)
    && (c.rel[h].GrantOwner? <==> a.next.Some?)
    && (c.rel[h].GrantOwner? ==> c.rel[h].head == Node(a.next.value))
  }

  /** The shared words, the link cells and the local variables encode the abstract lock `a`. */
  ghost predicate Encodes(c: Core, a: Abs)
  {
    && c.Valid()
    && QueueOk(c, a)
    && PhasesOk(c, a)
    && match a.holder
       case None =>
         a == FREE && c.waitEnd == Null && c.waiters == Null && c.owner == None
       case Some(h) =>
         && h < |c.acq|
         && OwnerOk(c, h)
         && ReleaseOk(c, a, h)
         && CellsOk(c, a.queue, h)
  }

  /** The abstract effect of an acquire step: the two successful CAS and the exchange decide. */
  ghost function AcquireEffect(c: Core, a: Abs, x: Tid): Abs
    requires c.Valid() && x < |c.acq|
  {
    match c.acq[x]
    case FastCas(_) => if c.waitEnd == Null then a.(holder := Some(x)) else a
    case Cas(_) => if c.waitEnd == Null then a.(holder := Some(x)) else a
    case Exchange => if c.waitEnd == Null then a.(holder := Some(x)) else a.(queue := a.queue + [x])
    case _ => a
  }

  /** The abstract effect of a release step: the freeing CAS, the two accesses that take the oldest
      waiter out of the queue, and the store that makes it the owner. */
  ghost function ReleaseEffect(c: Core, a: Abs, t: Tid): Abs
    requires c.Valid() && t < |c.acq|
  {
    match c.rel[t]
    case CasFree => if c.waitEnd == Dummy then FREE else a
    case CasLast(head) => if c.waitEnd == head then Pick(a) else a
    case StoreWaiters(_, _) => Pick(a)
    case GrantOwner(_) => a.(holder := a.next, next := None)
    case _ => a
  }

  ghost function Pick(a: Abs): Abs {
    if a.queue == [] then a else a.(next := Some(a.queue[0]), queue := a.queue[1..])
  }

  // ------------------------------------------------------------------
  // Every access keeps the encoding
  // ------------------------------------------------------------------

  /** Cells outside the encoded queue do not matter. */
  lemma CellsFrame(c: Core, d: Core, q: seq<Tid>, h: Tid)
    requires c.Valid() && d.Valid() && |c.acq| == |d.acq| && h < |c.acq|
    requires forall i | 0 <= i < |q| :: q[i] < |c.acq|
    requires CellsOk(c, q, h)
    requires d.waiters == c.waiters && d.waitEnd == c.waitEnd && d.rel[h] == c.rel[h]
    requires forall i | 0 <= i < |q| :: d.temp0[q[i]] == c.temp0[q[i]] && d.acq[q[i]] == c.acq[q[i]]
    requires if Taking(c.acq[h]) then d.acq[h] == c.acq[h] && d.temp0[h] == c.temp0[h] else !Taking(d.acq[h])
    ensures CellsOk(d, q, h)
  {
  }

  lemma OutsideMove(c: Core, a: Abs, x: Tid, v: Ptr, p: Acquire)
    requires Encodes(c, a) && x < |c.acq|
    requires x !in a.queue && a.next != Some(x) && Outside(c.acq[x]) && Outside(p)
    requires p.Exchange? || p == Load(true) || p == Cas(true) ==> v == Null
    ensures Encodes(c.(temp0 := c.temp0[x := v], acq := c.acq[x := p]), a)
  {
    var d := c.(temp0 := c.temp0[x := v], acq := c.acq[x := p]);
    if a.holder.Some? {
      CellsFrame(c, d, a.queue, a.holder.value);
    }
  }

  /** The same, with `temp0` untouched. */
  lemma OutsideStep(c: Core, a: Abs, x: Tid, p: Acquire)
    requires Encodes(c, a) && x < |c.acq|
    requires !c.acq[x].NoAcquire? && Outside(c.acq[x]) && Outside(p)
    requires p.Exchange? || p == Load(true) || p == Cas(true) ==> c.temp0[x] == Null
    ensures Encodes(c.AtAcquire(x, p), a)
  {
    assert x !in a.queue;
    assert c.temp0[x := c.temp0[x]] == c.temp0;
    OutsideMove(c, a, x, c.temp0[x], p);
  }

  /** `wait_end` is NULL exactly when nobody has the lock, and then nobody is queued or picked. */
  lemma EndTellsHolder(c: Core, a: Abs)
    requires Encodes(c, a)
    ensures c.waitEnd == Null <==> a.holder == None
    ensures c.waitEnd == Null ==> a == FREE
  {
  }

  /** A successful CAS from NULL, or the exchange that returned NULL. */
  lemma TakeFree(c: Core, a: Abs, x: Tid, end: Ptr, p: Acquire)
    requires Encodes(c, a) && x < |c.acq| && c.waitEnd == Null
    requires !c.acq[x].NoAcquire? && Outside(c.acq[x])
    requires (p == StoreOwner && end == Dummy) || (p == TakeCas && end == Node(x) && c.temp0[x] == Null)
    ensures Encodes(c.(waitEnd := end).AtAcquire(x, p), Abs(Some(x), None, []))
    ensures a == FREE
  {
    EndTellsHolder(c, a);
  }

  lemma CellsAppend(c: Core, q: seq<Tid>, h: Tid, x: Tid)
    requires c.Valid() && h < |c.acq| && x < |c.acq|
    requires forall i | 0 <= i < |q| :: q[i] < |c.acq| && q[i] != x
    requires CellsOk(c, q, h) && Outside(c.acq[x]) && c.temp0[x] == Null
    ensures CellsOk(c.(waitEnd := Node(x)).AtAcquire(x, Link(c.waitEnd)), q + [x], h)
  {
  }

  /** The exchange that returned a cell: its thread is last in the queue from here on. */
  lemma Append(c: Core, a: Abs, x: Tid)
    requires Encodes(c, a) && x < |c.acq| && c.waitEnd != Null && c.acq[x].Exchange?
    ensures x !in a.queue
    ensures Encodes(c.(waitEnd := Node(x)).AtAcquire(x, Link(c.waitEnd)), a.(queue := a.queue + [x]))
  {
    var d := c.(waitEnd := Node(x)).AtAcquire(x, Link(c.waitEnd));
    var b := a.(queue := a.queue + [x]);
    EndTellsHolder(c, a);
    var h := a.holder.value;
    assert x !in a.queue;
    CellsAppend(c, a.queue, h, x);
    AppendQueueOk(c, a, x);
  }

  lemma AppendQueueOk(c: Core, a: Abs, x: Tid)
    requires c.Valid() && QueueOk(c, a) && x < |c.acq| && x !in a.queue && c.acq[x].Exchange?
    ensures QueueOk(c.(waitEnd := Node(x)).AtAcquire(x, Link(c.waitEnd)), a.(queue := a.queue + [x]))
  {
    forall y {:trigger y in a.queue + [x]} | 0 <= y < |c.acq| && (y == x || c.acq[y].Link?) ensures y in a.queue + [x] {
      assert y == x || y in a.queue;
    }
  }

  lemma CellsLink(c: Core, q: seq<Tid>, h: Tid, k: nat)
    requires c.Valid() && h < |c.acq| && k < |q|
    requires forall i | 0 <= i < |q| :: q[i] < |c.acq|
    requires forall i, j | 0 <= i < j < |q| :: q[i] != q[j]
    requires Taking(c.acq[h]) ==> h !in q
    requires CellsOk(c, q, h) && c.acq[q[k]].Link?
    ensures CellsOk(c.Write(c.acq[q[k]].last, Node(q[k])).AtAcquire(q[k], NoAcquire), q, h)
    ensures c.acq[q[k]].last == (if k == 0 then HeadCell(c, h) else Node(q[k - 1]))
  {
    if k > 0 {
      assert Linked(c, Node(q[k - 1]), c.temp0[q[k - 1]], q[k]);
    }
  }

  /** The store a queued thread owes goes to the cell of its predecessor. */
  lemma LinkTarget(c: Core, a: Abs, x: Tid) returns (k: nat)
    requires Encodes(c, a) && x < |c.acq| && c.acq[x].Link?
    ensures a.holder.Some? && a.holder.value < |c.acq|
    ensures k < |a.queue| && a.queue[k] == x
    ensures c.acq[x].last == (if k == 0 then HeadCell(c, a.holder.value) else Node(a.queue[k - 1]))
    ensures CellsOk(AcquireStep(c, x), a.queue, a.holder.value)
  {
    assert x in a.queue;
    k :| 0 <= k < |a.queue| && a.queue[k] == x;
    CellsLink(c, a.queue, a.holder.value, k);
  }

  /** A thread outside the queue starts the acquire routine. */
  lemma BeginAcquire(c: Core, a: Abs, x: Tid, p: Acquire)
    requires Encodes(c, a) && x < |c.acq| && c.acq[x].NoAcquire? && x !in a.queue && a.next != Some(x)
    requires p.FastLoad? || p.Reset? || p == Load(false)
    ensures Encodes(c.AtAcquire(x, p), a)
  {
    assert c.temp0[x := c.temp0[x]] == c.temp0;
    OutsideMove(c, a, x, c.temp0[x], p);
  }

  /** A thread outside the queue may use its `temp0` for something else. */
  lemma BorrowCell(c: Core, a: Abs, x: Tid, v: Ptr)
    requires Encodes(c, a) && x < |c.acq| && c.acq[x].NoAcquire? && x !in a.queue && a.next != Some(x)
    ensures Encodes(c.Write(Node(x), v), a)
  {
    assert c.acq[x := c.acq[x]] == c.acq;
    OutsideMove(c, a, x, v, c.acq[x]);
  }

  /** The holder starts the release routine. */
  lemma BeginRelease(c: Core, a: Abs, t: Tid)
    requires Encodes(c, a) && t < |c.acq| && a.holder == Some(t)
    requires c.acq[t].NoAcquire? && c.rel[t].NoRelease?
    ensures Encodes(c.AtRelease(t, LoadWaiters), a)
  {
    var d := c.AtRelease(t, LoadWaiters);
    assert CellsOk(d, a.queue, t);
  }

  lemma FastLoadKeeps(c: Core, a: Abs, x: Tid)
    requires Encodes(c, a) && x < |c.acq| && c.acq[x].FastLoad?
    ensures Encodes(AcquireStep(c, x), AcquireEffect(c, a, x))
    ensures AbsNext(a, AcquireEffect(c, a, x), x)
  {
    if c.waitEnd == Null {
      OutsideStep(c, a, x, FastCas(c.acq[x].try));
    } else {
      OutsideStep(c, a, x, if c.acq[x].try then NoAcquire else Reset);
    }
  }

  lemma FastCasKeeps(c: Core, a: Abs, x: Tid)
    requires Encodes(c, a) && x < |c.acq| && c.acq[x].FastCas?
    ensures Encodes(AcquireStep(c, x), AcquireEffect(c, a, x))
    ensures AbsNext(a, AcquireEffect(c, a, x), x)
  {
    if c.waitEnd == Null {
      TakeFree(c, a, x, Dummy, StoreOwner);
    } else {
      OutsideStep(c, a, x, if c.acq[x].try then NoAcquire else Reset);
    }
  }

  lemma ResetKeeps(c: Core, a: Abs, x: Tid)
    requires Encodes(c, a) && x < |c.acq| && c.acq[x].Reset?
    ensures Encodes(AcquireStep(c, x), AcquireEffect(c, a, x))
    ensures AbsNext(a, AcquireEffect(c, a, x), x)
  {
    assert x !in a.queue;
    OutsideMove(c, a, x, Null, Load(true));
  }

  lemma LoadKeeps(c: Core, a: Abs, x: Tid)
    requires Encodes(c, a) && x < |c.acq| && c.acq[x].Load?
    ensures Encodes(AcquireStep(c, x), AcquireEffect(c, a, x))
    ensures AbsNext(a, AcquireEffect(c, a, x), x)
  {
    if c.waitEnd == Null {
      OutsideStep(c, a, x, Cas(c.acq[x].clean));
    } else {
      OutsideStep(c, a, x, if c.acq[x].clean then Exchange else LateReset);
    }
  }

  lemma CasKeeps(c: Core, a: Abs, x: Tid)
    requires Encodes(c, a) && x < |c.acq| && c.acq[x].Cas?
    ensures Encodes(AcquireStep(c, x), AcquireEffect(c, a, x))
    ensures AbsNext(a, AcquireEffect(c, a, x), x)
  {
    if c.waitEnd == Null {
      TakeFree(c, a, x, Dummy, StoreOwner);
    } else {
      OutsideStep(c, a, x, if c.acq[x].clean then Exchange else LateReset);
    }
  }

  lemma LateResetKeeps(c: Core, a: Abs, x: Tid)
    requires Encodes(c, a) && x < |c.acq| && c.acq[x].LateReset?
    ensures Encodes(AcquireStep(c, x), AcquireEffect(c, a, x))
    ensures AbsNext(a, AcquireEffect(c, a, x), x)
  {
    assert x !in a.queue;
    OutsideMove(c, a, x, Null, Exchange);
  }

  lemma ExchangeKeeps(c: Core, a: Abs, x: Tid)
    requires Encodes(c, a) && x < |c.acq| && c.acq[x].Exchange?
    ensures Encodes(AcquireStep(c, x), AcquireEffect(c, a, x))
    ensures AbsNext(a, AcquireEffect(c, a, x), x)
  {
    if c.waitEnd == Null {
      TakeFree(c, a, x, Node(x), TakeCas);
    } else {
      EndTellsHolder(c, a);
      Append(c, a, x);
    }
  }

  lemma CellsTakeCas(c: Core, q: seq<Tid>, x: Tid)
    requires c.Valid() && x < |c.acq| && c.acq[x].TakeCas? && c.rel[x].NoRelease?
    requires forall i | 0 <= i < |q| :: q[i] < |c.acq| && q[i] != x
    requires CellsOk(c, q, x)
    ensures CellsOk(AcquireStep(c, x), q, x)
  {
  }

  lemma TakeCasKeeps(c: Core, a: Abs, x: Tid)
    requires Encodes(c, a) && x < |c.acq| && c.acq[x].TakeCas?
    ensures Encodes(AcquireStep(c, x), AcquireEffect(c, a, x))
    ensures AbsNext(a, AcquireEffect(c, a, x), x)
  {
    CellsTakeCas(c, a.queue, x);
  }

  lemma TakeOwnerKeeps(c: Core, a: Abs, x: Tid)
    requires Encodes(c, a) && x < |c.acq| && c.acq[x].TakeOwner?
    ensures Encodes(AcquireStep(c, x), AcquireEffect(c, a, x))
    ensures AbsNext(a, AcquireEffect(c, a, x), x)
  {
    TakeOwnerCells(c, a, x);
  }

  lemma TakeOwnerCells(c: Core, a: Abs, x: Tid)
    requires Encodes(c, a) && x < |c.acq| && c.acq[x].TakeOwner?
    ensures a.holder == Some(x) && x !in a.queue
    ensures forall i | 0 <= i < |a.queue| :: a.queue[i] < |c.acq|
    ensures CellsOk(AcquireStep(c, x), a.queue, x)
  {
  }

  lemma TakeSpinKeeps(c: Core, a: Abs, x: Tid)
    requires Encodes(c, a) && x < |c.acq| && c.acq[x].TakeSpin?
    ensures Encodes(AcquireStep(c, x), AcquireEffect(c, a, x))
    ensures AbsNext(a, AcquireEffect(c, a, x), x)
  {
  }

  lemma TakeStoreKeeps(c: Core, a: Abs, x: Tid)
    requires Encodes(c, a) && x < |c.acq| && c.acq[x].TakeStore?
    ensures Encodes(AcquireStep(c, x), AcquireEffect(c, a, x))
    ensures AbsNext(a, AcquireEffect(c, a, x), x)
  {
  }

  /** The store writes `waiters`, or the link of a thread that waits or takes the lock over. */
  lemma LinkFrame(c: Core, a: Abs, x: Tid, k: nat)
    requires c.Valid() && QueueOk(c, a) && PhasesOk(c, a) && a.holder.Some? && a.holder.value < |c.acq|
    requires x < |c.acq| && k < |a.queue| && a.queue[k] == x && c.acq[x].Link?
    requires c.acq[x].last == (if k == 0 then HeadCell(c, a.holder.value) else Node(a.queue[k - 1]))
    ensures QueueOk(AcquireStep(c, x), a) && PhasesOk(AcquireStep(c, x), a)
  {
  }

  /** The store touches neither `owner` nor what the holder's routine has read. */
  lemma LinkOwner(c: Core, a: Abs, x: Tid)
    requires c.Valid() && a.holder.Some? && a.holder.value < |c.acq| && x < |c.acq| && c.acq[x].Link?
    requires OwnerOk(c, a.holder.value) && ReleaseOk(c, a, a.holder.value)
    requires x != a.holder.value || !HoldsInAcquire(c.acq[x])
    ensures OwnerOk(AcquireStep(c, x), a.holder.value) && ReleaseOk(AcquireStep(c, x), a, a.holder.value)
  {
  }

  lemma LinkKeeps(c: Core, a: Abs, x: Tid)
    requires Encodes(c, a) && x < |c.acq| && c.acq[x].Link?
    ensures Encodes(AcquireStep(c, x), AcquireEffect(c, a, x))
    ensures AbsNext(a, AcquireEffect(c, a, x), x)
  {
    var k := LinkTarget(c, a, x);
    LinkFrame(c, a, x, k);
    LinkOwner(c, a, x);
  }

  lemma StoreOwnerKeeps(c: Core, a: Abs, x: Tid)
    requires Encodes(c, a) && x < |c.acq| && c.acq[x].StoreOwner?
    ensures Encodes(AcquireStep(c, x), AcquireEffect(c, a, x))
    ensures AbsNext(a, AcquireEffect(c, a, x), x)
  {
    StoreOwnerHolds(c, a, x);
    CellsFrame(c, AcquireStep(c, x), a.queue, x);
  }

  lemma StoreOwnerHolds(c: Core, a: Abs, x: Tid)
    requires Encodes(c, a) && x < |c.acq| && c.acq[x].StoreOwner?
    ensures a.holder == Some(x) && x !in a.queue && CellsOk(c, a.queue, x)
    ensures forall i | 0 <= i < |a.queue| :: a.queue[i] < |c.acq| && a.queue[i] != x
  {
  }

  lemma LoadWaitersKeeps(c: Core, a: Abs, t: Tid)
    requires Encodes(c, a) && t < |c.acq| && c.rel[t].LoadWaiters?
    ensures Encodes(ReleaseStep(c, t), ReleaseEffect(c, a, t))
    ensures AbsNext(a, ReleaseEffect(c, a, t), t)
  {
  }

  lemma LoadEndKeeps(c: Core, a: Abs, t: Tid)
    requires Encodes(c, a) && t < |c.acq| && c.rel[t].LoadEnd?
    ensures Encodes(ReleaseStep(c, t), ReleaseEffect(c, a, t))
    ensures AbsNext(a, ReleaseEffect(c, a, t), t)
  {
  }

  lemma ClearOwnerKeeps(c: Core, a: Abs, t: Tid)
    requires Encodes(c, a) && t < |c.acq| && c.rel[t].ClearOwner?
    ensures Encodes(ReleaseStep(c, t), ReleaseEffect(c, a, t))
    ensures AbsNext(a, ReleaseEffect(c, a, t), t)
  {
  }

  lemma CasFreeKeeps(c: Core, a: Abs, t: Tid)
    requires Encodes(c, a) && t < |c.acq| && c.rel[t].CasFree?
    ensures Encodes(ReleaseStep(c, t), ReleaseEffect(c, a, t))
    ensures AbsNext(a, ReleaseEffect(c, a, t), t)
  {
  }

  lemma SpinWaitersKeeps(c: Core, a: Abs, t: Tid)
    requires Encodes(c, a) && t < |c.acq| && c.rel[t].SpinWaiters?
    ensures Encodes(ReleaseStep(c, t), ReleaseEffect(c, a, t))
    ensures AbsNext(a, ReleaseEffect(c, a, t), t)
  {
  }

  lemma LoadNextKeeps(c: Core, a: Abs, t: Tid)
    requires Encodes(c, a) && t < |c.acq| && c.rel[t].LoadNext?
    ensures Encodes(ReleaseStep(c, t), ReleaseEffect(c, a, t))
    ensures AbsNext(a, ReleaseEffect(c, a, t), t)
  {
  }

  lemma LoadEndAgainKeeps(c: Core, a: Abs, t: Tid)
    requires Encodes(c, a) && t < |c.acq| && c.rel[t].LoadEndAgain?
    ensures Encodes(ReleaseStep(c, t), ReleaseEffect(c, a, t))
    ensures AbsNext(a, ReleaseEffect(c, a, t), t)
  {
  }

  lemma ClearWaitersKeeps(c: Core, a: Abs, t: Tid)
    requires Encodes(c, a) && t < |c.acq| && c.rel[t].ClearWaiters?
    ensures Encodes(ReleaseStep(c, t), ReleaseEffect(c, a, t))
    ensures AbsNext(a, ReleaseEffect(c, a, t), t)
  {
  }

  /** Taking the oldest waiter out leaves the rest of the cells as they are. */
  lemma PickQueueOk(c: Core, a: Abs)
    requires c.Valid() && QueueOk(c, a) && a.queue != [] && c.acq[a.queue[0]].NoAcquire?
    ensures QueueOk(c, Pick(a))
  {
    forall y {:trigger y in a.queue[1..]} | 0 <= y < |c.acq| && c.acq[y].Link? ensures y in a.queue[1..] {
      assert y in a.queue && y != a.queue[0];
    }
  }

  lemma CasLastIsOnly(c: Core, a: Abs, t: Tid)
    requires Encodes(c, a) && t < |c.acq| && c.rel[t].CasLast? && c.waitEnd == c.rel[t].head
    ensures |a.queue| == 1 && a.holder == Some(t) && c.acq[a.queue[0]].NoAcquire? && a.next == None
  {
  }

  lemma CasLastTaken(c: Core, a: Abs, t: Tid)
    requires Encodes(c, a) && t < |c.acq| && c.rel[t].CasLast? && c.waitEnd == c.rel[t].head
    ensures Encodes(ReleaseStep(c, t), ReleaseEffect(c, a, t))
    ensures AbsNext(a, ReleaseEffect(c, a, t), t)
  {
    CasLastIsOnly(c, a, t);
    PickQueueOk(c, a);
  }

  lemma CasLastKeeps(c: Core, a: Abs, t: Tid)
    requires Encodes(c, a) && t < |c.acq| && c.rel[t].CasLast?
    ensures Encodes(ReleaseStep(c, t), ReleaseEffect(c, a, t))
    ensures AbsNext(a, ReleaseEffect(c, a, t), t)
  {
    if c.waitEnd == c.rel[t].head {
      CasLastTaken(c, a, t);
    }
  }

  lemma SpinNextKeeps(c: Core, a: Abs, t: Tid)
    requires Encodes(c, a) && t < |c.acq| && c.rel[t].SpinNext?
    ensures Encodes(ReleaseStep(c, t), ReleaseEffect(c, a, t))
    ensures AbsNext(a, ReleaseEffect(c, a, t), t)
  {
  }

  lemma StoreWaitersKeeps(c: Core, a: Abs, t: Tid)
    requires Encodes(c, a) && t < |c.acq| && c.rel[t].StoreWaiters?
    ensures Encodes(ReleaseStep(c, t), ReleaseEffect(c, a, t))
    ensures AbsNext(a, ReleaseEffect(c, a, t), t)
  {
    PickQueueOk(c, a);
  }

  lemma GrantOwnerKeeps(c: Core, a: Abs, t: Tid)
    requires Encodes(c, a) && t < |c.acq| && c.rel[t].GrantOwner?
    ensures Encodes(ReleaseStep(c, t), ReleaseEffect(c, a, t))
    ensures AbsNext(a, ReleaseEffect(c, a, t), t)
  {
    assert a.next.value != t ==> c.rel[a.next.value].NoRelease?;
  }

  lemma AcquireKeeps(c: Core, a: Abs, x: Tid)
    requires Encodes(c, a) && x < |c.acq|
    ensures Encodes(AcquireStep(c, x), AcquireEffect(c, a, x))
    ensures AbsNext(a, AcquireEffect(c, a, x), x)
  {
    match c.acq[x]
    case NoAcquire =>
    case FastLoad(_) => FastLoadKeeps(c, a, x);
    case FastCas(_) => FastCasKeeps(c, a, x);
    case Reset => ResetKeeps(c, a, x);
    case Load(_) => LoadKeeps(c, a, x);
    case Cas(_) => CasKeeps(c, a, x);
    case LateReset => LateResetKeeps(c, a, x);
    case Exchange => ExchangeKeeps(c, a, x);
    case TakeCas => TakeCasKeeps(c, a, x);
    case TakeOwner => TakeOwnerKeeps(c, a, x);
    case TakeSpin => TakeSpinKeeps(c, a, x);
    case TakeStore(_) => TakeStoreKeeps(c, a, x);
    case Link(_) => LinkKeeps(c, a, x);
    case StoreOwner => StoreOwnerKeeps(c, a, x);
  }

  lemma ReleaseKeeps(c: Core, a: Abs, t: Tid)
    requires Encodes(c, a) && t < |c.acq|
    ensures Encodes(ReleaseStep(c, t), ReleaseEffect(c, a, t))
    ensures AbsNext(a, ReleaseEffect(c, a, t), t)
  {
    match c.rel[t]
    case NoRelease =>
    case LoadWaiters => LoadWaitersKeeps(c, a, t);
    case LoadEnd => LoadEndKeeps(c, a, t);
    case ClearOwner => ClearOwnerKeeps(c, a, t);
    case CasFree => CasFreeKeeps(c, a, t);
    case SpinWaiters(_) => SpinWaitersKeeps(c, a, t);
    case LoadNext(_) => LoadNextKeeps(c, a, t);
    case LoadEndAgain(_) => LoadEndAgainKeeps(c, a, t);
    case ClearWaiters(_) => ClearWaitersKeeps(c, a, t);
    case CasLast(_) => CasLastKeeps(c, a, t);
    case SpinNext(_) => SpinNextKeeps(c, a, t);
    case StoreWaiters(_, _) => StoreWaitersKeeps(c, a, t);
    case GrantOwner(_) => GrantOwnerKeeps(c, a, t);
    case Unreachable =>
  }

  // ------------------------------------------------------------------
  // Spin loops
  // ------------------------------------------------------------------

  /** The cell the next access of thread `t` spins on, if it is a spin loop. */
  function SpunCell(c: Core, t: Tid): Option<Ptr>
    requires c.Valid() && t < |c.acq|
  {
    if c.acq[t].TakeSpin? then Some(Node(t))
    else match c.rel[t]
      case SpinWaiters(_) => Some(Dummy)
      case SpinNext(head) => Some(head)
      case _ => None
  }

  /** A spin loop that reads NULL waits for a store that one identified thread owes: the oldest
      waiter whose predecessor cell is the one spun on. That thread needs one more step of its own,
      and the step fills the cell. */
  lemma SpinIsOwed(c: Core, a: Abs, t: Tid) returns (x: Tid)
    requires Encodes(c, a) && t < |c.acq|
    requires SpunCell(c, t).Some? && c.Read(SpunCell(c, t).value) == Null
    ensures x in a.queue && x < |c.acq| && c.acq[x] == Link(SpunCell(c, t).value)
    ensures forall y | 0 <= y < |c.acq| && c.acq[y] == c.acq[x] :: y == x
    ensures AcquireStep(c, x).Read(SpunCell(c, t).value) == Node(x)
  {
    x := if c.rel[t].SpinNext? then a.queue[1] else a.queue[0];
    forall y | 0 <= y < |c.acq| && c.acq[y] == c.acq[x] ensures y == x {
      var k := LinkTarget(c, a, x);
      var l := LinkTarget(c, a, y);
    }
  }
}
