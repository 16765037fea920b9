/** The MCS queue lock of include/spinlock.h, at the grain of single atomic accesses.

    Each core that wants the lock brings a member with two fields, `is_locked` and `next`. The lock
    word points to the last member that joined. Any number of cores run. */
module SpinLock {
  import opened Options

  type Cid = nat

  /** Next access of a core. */
  datatype Pc =
    | Outside
    | Exchange                 // the member is freshly initialised
    | StoreNext(prev: Cid)
    | Spin
    | Inside                   // the critical section
    | LoadTail | CasTail
    | CheckNext                // released without a successor
    | WaitNext
    | Grant(succ: Cid)
    | Unreachable

  datatype Lock = Lock(tail: Option<Cid>, locked: seq<bool>, next: seq<Option<Cid>>, pc: seq<Pc>)
  {
    ghost predicate Valid() {
      |locked| == |next| == |pc|
    }

    function At(c: Cid, p: Pc): Lock
      requires c < |pc|
    {
      this.(pc := pc[c := p])
    }
  }

  /** One access of core c. A spin loop whose condition holds stutters. */
  function Step(s: Lock, c: Cid): (r: Lock)
    requires s.Valid() && c < |s.pc|
    ensures r.Valid() && |r.pc| == |s.pc|
  {
    match s.pc[c]
    case Outside => s.(locked := s.locked[c := false], next := s.next[c := None]).At(c, Exchange)
    case Exchange => s.(tail := Some(c)).At(c, if s.tail == None then Inside else StoreNext(s.tail.value))
    case StoreNext(prev) =>
      if prev < |s.pc| then s.(next := s.next[prev := Some(c)]).At(c, Spin) else s.At(c, Unreachable)
    case Spin => if s.locked[c] then s.At(c, Inside) else s
    case Inside => s.At(c, LoadTail)
    case LoadTail => s.At(c, if s.tail == Some(c) then CasTail else WaitNext)
    case CasTail => if s.tail == Some(c) then s.(tail := None).At(c, CheckNext) else s.At(c, WaitNext)
    case CheckNext => s.At(c, if s.next[c] == None then Outside else Unreachable)
    case WaitNext => if s.next[c] == None then s else s.At(c, Grant(s.next[c].value))
    case Grant(succ) =>
      if succ < |s.pc| then s.(locked := s.locked[succ := true]).At(c, Outside) else s.At(c, Unreachable)
    case Unreachable => s
  }

  function Init(cores: nat): Lock {
    Lock(None, seq(cores, i => false), seq(cores, i => None), seq(cores, i => Outside))
  }

  /** The members in exchange order, those that joined so far, and those that entered so far. */
  datatype Ghost = Ghost(queue: seq<Cid>, joined: seq<Cid>, entered: seq<Cid>)

  ghost function Effect(s: Lock, g: Ghost, c: Cid): Ghost
    requires s.Valid() && c < |s.pc|
  {
    match s.pc[c]
    case Exchange =>
      Ghost(g.queue + [c], g.joined + [c], if s.tail == None then g.entered + [c] else g.entered)
    case Spin => if s.locked[c] then g.(entered := g.entered + [c]) else g
    case CasTail => if s.tail == Some(c) then g.(queue := []) else g
    case Grant(_) => if g.queue == [] then g else g.(queue := g.queue[1..])
    case _ => g
  }

  /** The core has passed its wait and not yet given the lock away. */
  ghost predicate Holds(p: Pc) {
    p.Inside? || p.LoadTail? || p.CasTail? || p.WaitNext? || p.Grant?
  }

  ghost predicate Waits(p: Pc) {
    p.StoreNext? || p.Spin?
  }

  /** What the member at position i of the queue looks like. */
  ghost predicate MemberOk(s: Lock, q: seq<Cid>, i: nat)
    requires s.Valid() && i < |q|
  {
    var c := q[i];
    && c < |s.pc|
    && (if i == 0 then Holds(s.pc[c]) || (s.pc[c].Spin? && s.locked[c]) else Waits(s.pc[c]) && !s.locked[c])
    && (s.pc[c].StoreNext? ==> i > 0 && s.pc[c].prev == q[i - 1])
    && (if i + 1 < |q| then q[i + 1] < |s.pc| && s.next[c] == (if s.pc[q[i + 1]].StoreNext? then None else Some(q[i + 1]))
        else s.next[c] == None)
    && (s.pc[c].WaitNext? || s.pc[c].Grant? ==> |q| >= 2)
    && (s.pc[c].Grant? ==> s.pc[c].succ == q[1] && s.pc[q[1]].Spin?)
  }

  ghost predicate OutsiderOk(s: Lock, c: Cid)
    requires s.Valid() && c < |s.pc|
  {
    match s.pc[c]
    case Outside => true
    case Exchange => !s.locked[c] && s.next[c] == None
    case CheckNext => s.next[c] == None
    case _ => false
  }

  ghost predicate Inv(s: Lock, g: Ghost)
  {
    var q := g.queue;
    && s.Valid()
    && s.tail == (if q == [] then None else Some(q[|q| - 1]))
    && (forall i | 0 <= i < |q| :: MemberOk(s, q, i))
    && (forall i, j | 0 <= i < j < |q| :: q[i] != q[j])
    && (forall c | 0 <= c < |s.pc| && c !in q :: OutsiderOk(s, c))
    && (if q != [] && q[0] < |s.pc| && Holds(s.pc[q[0]]) then g.joined == g.entered + q[1..] else g.joined == g.entered + q)
  }

  lemma InitOk(cores: nat)
    ensures Inv(Init(cores), Ghost([], [], []))
  {
  }

  lemma GrantKeepsMember(s: Lock, g: Ghost, c: Cid, i: nat)
    requires Inv(s, g) && c < |s.pc| && s.pc[c].Grant? && i < |Effect(s, g, c).queue|
    ensures MemberOk(Step(s, c), Effect(s, g, c).queue, i)
  {
    var q := g.queue;
    HolderIsFirst(s, g, c);
    assert MemberOk(s, q, 0);
    assert MemberOk(s, q, i + 1);
    assert i + 2 < |q| ==> MemberOk(s, q, i + 2);
  }

  lemma HolderIsFirst(s: Lock, g: Ghost, c: Cid)
    requires Inv(s, g) && c < |s.pc| && Holds(s.pc[c])
    ensures g.queue != [] && g.queue[0] == c
  {
    assert c !in g.queue ==> OutsiderOk(s, c);
    var k :| 0 <= k < |g.queue| && g.queue[k] == c;
    assert MemberOk(s, g.queue, k);
  }

  lemma JoinKeepsMember(s: Lock, g: Ghost, c: Cid, i: nat)
    requires Inv(s, g) && c < |s.pc| && s.pc[c].Exchange? && i <= |g.queue|
    ensures MemberOk(Step(s, c), Effect(s, g, c).queue, i)
  {
    var q := g.queue;
    forall k | 0 <= k < |q| ensures q[k] != c {
      assert MemberOk(s, q, k);
    }
    assert OutsiderOk(s, c);
    assert i < |q| ==> MemberOk(s, q, i);
    assert i + 1 < |q| ==> MemberOk(s, q, i + 1);
  }

  /** A member other than c, in a step that neither joins nor leaves. */
  lemma OtherMemberKeeps(s: Lock, g: Ghost, c: Cid, i: nat)
    requires Inv(s, g) && c < |s.pc| && !s.pc[c].Grant? && !s.pc[c].Exchange? && i < |Effect(s, g, c).queue| && g.queue[i] != c
    ensures MemberOk(Step(s, c), Effect(s, g, c).queue, i)
  {
    if s.pc[c].StoreNext? {
      StoreKeepsMember(s, g, c, i);
    } else {
      assert Effect(s, g, c).queue == g.queue;
      BystanderKeeps(s, g, c, i);
    }
  }

  /** Any other step changes nothing but c's own fields. */
  lemma BystanderKeeps(s: Lock, g: Ghost, c: Cid, i: nat)
    requires Inv(s, g) && c < |s.pc| && !s.pc[c].Grant? && !s.pc[c].Exchange? && !s.pc[c].StoreNext?
    requires i < |g.queue| && g.queue[i] != c
    ensures MemberOk(Step(s, c), g.queue, i)
  {
    var s' := Step(s, c);
    assert MemberOk(s, g.queue, i);
    if i + 1 < |g.queue| {
      assert MemberOk(s, g.queue, i + 1);
      assert s'.pc[g.queue[i + 1]].StoreNext? <==> s.pc[g.queue[i + 1]].StoreNext?;
    }
  }

  lemma StoreKeepsMember(s: Lock, g: Ghost, c: Cid, i: nat)
    requires Inv(s, g) && c < |s.pc| && s.pc[c].StoreNext? && i < |g.queue| && g.queue[i] != c
    ensures Effect(s, g, c) == g && MemberOk(Step(s, c), g.queue, i)
  {
    StorerIsMember(s, g, c);
    var k :| 0 < k < |g.queue| && g.queue[k] == c && s.pc[c].prev == g.queue[k - 1];
    assert MemberOk(s, g.queue, i);
    if i + 1 < |g.queue| {
      assert MemberOk(s, g.queue, i + 1);
    }
  }

  lemma StorerIsMember(s: Lock, g: Ghost, c: Cid)
    requires Inv(s, g) && c < |s.pc| && s.pc[c].StoreNext?
    ensures exists k :: 0 < k < |g.queue| && g.queue[k] == c && s.pc[c].prev == g.queue[k - 1]
  {
    assert c !in g.queue ==> OutsiderOk(s, c);
    var k :| 0 <= k < |g.queue| && g.queue[k] == c;
    assert MemberOk(s, g.queue, k);
  }

  /** c itself. */
  lemma OwnMemberKeeps(s: Lock, g: Ghost, c: Cid, i: nat)
    requires Inv(s, g) && c < |s.pc| && !s.pc[c].Grant? && !s.pc[c].Exchange? && i < |Effect(s, g, c).queue| && g.queue[i] == c
    ensures MemberOk(Step(s, c), Effect(s, g, c).queue, i)
  {
    var q := g.queue;
    assert MemberOk(s, q, 0);
    assert MemberOk(s, q, i);
    assert i > 0 ==> MemberOk(s, q, i - 1);
    assert i + 1 < |q| ==> MemberOk(s, q, i + 1);
  }

  lemma MemberKeeps(s: Lock, g: Ghost, c: Cid, i: nat)
    requires Inv(s, g) && c < |s.pc| && !s.pc[c].Grant? && !s.pc[c].Exchange? && i < |Effect(s, g, c).queue|
    ensures MemberOk(Step(s, c), Effect(s, g, c).queue, i)
  {
    if g.queue[i] == c {
      OwnMemberKeeps(s, g, c, i);
    } else {
      OtherMemberKeeps(s, g, c, i);
    }
  }

  lemma OutsidersKeep(s: Lock, g: Ghost, c: Cid)
    requires Inv(s, g) && c < |s.pc|
    ensures forall d | 0 <= d < |s.pc| && d !in Effect(s, g, c).queue :: OutsiderOk(Step(s, c), d)
  {
    var s', g' := Step(s, c), Effect(s, g, c);
    if g.queue != [] {
      assert MemberOk(s, g.queue, 0);
    }
    if c in g.queue {
      var k :| 0 <= k < |g.queue| && g.queue[k] == c;
      assert MemberOk(s, g.queue, k);
    }
    forall d | 0 <= d < |s.pc| && d !in g'.queue ensures OutsiderOk(s', d) {
      assert d in g.queue ==> d == c;
    }
  }

  lemma DistinctKeep(s: Lock, g: Ghost, c: Cid)
    requires Inv(s, g) && c < |s.pc|
    ensures var q := Effect(s, g, c).queue; forall i, j | 0 <= i < j < |q| :: q[i] != q[j]
  {
    var q := Effect(s, g, c).queue;
    if s.pc[c].Exchange? {
      forall k | 0 <= k < |g.queue| ensures g.queue[k] != c {
        assert MemberOk(s, g.queue, k);
      }
    }
    forall i, j | 0 <= i < j < |q| ensures q[i] != q[j] {
      if s.pc[c].Exchange? {
        assert q[i] == g.queue[i];
      } else if s.pc[c].Grant? && g.queue != [] {
        assert q[i] == g.queue[i + 1] && q[j] == g.queue[j + 1];
      } else {
        assert q == g.queue || q == [];
      }
    }
  }

  lemma TailKeeps(s: Lock, g: Ghost, c: Cid)
    requires Inv(s, g) && c < |s.pc|
    ensures var s', q := Step(s, c), Effect(s, g, c).queue; s'.Valid() && |s'.pc| == |s.pc| && s'.tail == if q == [] then None else Some(q[|q| - 1])
  {
    if g.queue != [] {
      assert MemberOk(s, g.queue, 0);
    }
    if c in g.queue {
      var k :| 0 <= k < |g.queue| && g.queue[k] == c;
      assert MemberOk(s, g.queue, k);
    }
  }

  lemma OrderKeeps(s: Lock, g: Ghost, c: Cid)
    requires Inv(s, g) && c < |s.pc|
    ensures var s', g' := Step(s, c), Effect(s, g, c);
      var q := g'.queue;
      if q != [] && q[0] < |s'.pc| && Holds(s'.pc[q[0]]) then g'.joined == g'.entered + q[1..] else g'.joined == g'.entered + q
  {
    if g.queue != [] {
      assert MemberOk(s, g.queue, 0);
    }
    if c in g.queue {
      var k :| 0 <= k < |g.queue| && g.queue[k] == c;
      assert MemberOk(s, g.queue, k);
    }
  }

  lemma MembersKeep(s: Lock, g: Ghost, c: Cid)
    requires Inv(s, g) && c < |s.pc|
    ensures forall i | 0 <= i < |Effect(s, g, c).queue| :: MemberOk(Step(s, c), Effect(s, g, c).queue, i)
  {
    forall i | 0 <= i < |Effect(s, g, c).queue| ensures MemberOk(Step(s, c), Effect(s, g, c).queue, i) {
      if s.pc[c].Grant? {
        GrantKeepsMember(s, g, c, i);
      } else if s.pc[c].Exchange? {
        JoinKeepsMember(s, g, c, i);
      } else {
        MemberKeeps(s, g, c, i);
      }
    }
  }

  /** Every access of every core keeps the invariant. */
  lemma StepKeeps(s: Lock, g: Ghost, c: Cid)
    requires Inv(s, g) && c < |s.pc|
    ensures Inv(Step(s, c), Effect(s, g, c))
  {
    MembersKeep(s, g, c);
    OutsidersKeep(s, g, c);
    DistinctKeep(s, g, c);
    TailKeeps(s, g, c);
    OrderKeeps(s, g, c);
  }

  // ------------------------------------------------------------------
  // Every reachable state, any number of cores
  // ------------------------------------------------------------------

  function Run(s: Lock, turns: seq<Cid>): (r: Lock)
    requires s.Valid() && forall i | 0 <= i < |turns| :: turns[i] < |s.pc|
    ensures r.Valid() && |r.pc| == |s.pc|
  {
    if turns == [] then s else Step(Run(s, turns[..|turns| - 1]), turns[|turns| - 1])
  }

  /** Who joined, entered and is still queued, computed along the run. */
  ghost function History(cores: nat, turns: seq<Cid>): Ghost
    requires forall i | 0 <= i < |turns| :: turns[i] < cores
  {
    if turns == [] then Ghost([], [], [])
    else
      var n := |turns| - 1;
      Effect(Run(Init(cores), turns[..n]), History(cores, turns[..n]), turns[n])
  }

  lemma {:induction false} RunKeeps(cores: nat, turns: seq<Cid>)
    requires forall i | 0 <= i < |turns| :: turns[i] < cores
    ensures Inv(Run(Init(cores), turns), History(cores, turns))
  {
    if turns == [] {
      InitOk(cores);
    } else {
      var n := |turns| - 1;
      RunKeeps(cores, turns[..n]);
      StepKeeps(Run(Init(cores), turns[..n]), History(cores, turns[..n]), turns[n]);
    }
  }

  /** At most one core has passed its wait and not given the lock away, and no core ever meets the
      `__builtin_unreachable` of the unlock routine. */
  lemma MutualExclusion(cores: nat, turns: seq<Cid>)
    requires forall i | 0 <= i < |turns| :: turns[i] < cores
    ensures var s := Run(Init(cores), turns);
            && (forall c, d | 0 <= c < cores && 0 <= d < cores && Holds(s.pc[c]) && Holds(s.pc[d]) :: c == d)
            && (forall c | 0 <= c < cores :: !s.pc[c].Unreachable?)
  {
    RunKeeps(cores, turns);
    var s, g := Run(Init(cores), turns), History(cores, turns);
    forall c | 0 <= c < cores ensures !s.pc[c].Unreachable? && (Holds(s.pc[c]) ==> g.queue != [] && c == g.queue[0]) {
      if Holds(s.pc[c]) {
        HolderIsFirst(s, g, c);
      } else if c in g.queue {
        var k :| 0 <= k < |g.queue| && g.queue[k] == c;
        assert MemberOk(s, g.queue, k);
      } else {
        assert OutsiderOk(s, c);
      }
    }
  }

  /** The lock is granted in the order of the exchanges on the lock word: the cores that entered are
      exactly the first ones that joined, in that order; the others wait, in that order too. */
  lemma GrantsInOrder(cores: nat, turns: seq<Cid>)
    requires forall i | 0 <= i < |turns| :: turns[i] < cores
    ensures var s, g := Run(Init(cores), turns), History(cores, turns);
            && g.entered <= g.joined
            && g.joined == g.entered + (if g.queue != [] && g.queue[0] < cores && Holds(s.pc[g.queue[0]]) then g.queue[1..] else g.queue)
  {
    RunKeeps(cores, turns);
  }

  /** Both spin loops wait for one identified core: unlock for the store of its immediate successor,
      lock for a predecessor that holds the lock or waits before it. */
  lemma SpinIsOwed(s: Lock, g: Ghost, c: Cid)
    requires Inv(s, g) && c < |s.pc|
    ensures s.pc[c].WaitNext? && s.next[c] == None ==>
              |g.queue| >= 2 && g.queue[0] == c && g.queue[1] < |s.pc| && s.pc[g.queue[1]] == StoreNext(c)
              && Step(s, g.queue[1]).next[c] == Some(g.queue[1])
    ensures s.pc[c].Spin? && !s.locked[c] ==>
              g.queue != [] && g.queue[0] != c && g.queue[0] < |s.pc|
              && (Holds(s.pc[g.queue[0]]) || s.locked[g.queue[0]])
  {
    if c in g.queue {
      var k :| 0 <= k < |g.queue| && g.queue[k] == c;
      assert MemberOk(s, g.queue, k);
      assert MemberOk(s, g.queue, 0);
      if k + 1 < |g.queue| {
        assert MemberOk(s, g.queue, k + 1);
      }
    } else {
      assert OutsiderOk(s, c);
    }
  }

  /** How far a core is from the end of its next critical section. */
  function Rank(p: Pc): nat {
    match p
    case Outside => 9
    case Exchange => 8
    case StoreNext(_) => 7
    case Spin => 6
    case Inside => 5
    case LoadTail => 4
    case CasTail => 3
    case WaitNext => 2
    case Grant(_) => 1
    case CheckNext => 1
    case Unreachable => 0
  }

  /** Each turn of a core brings it nearer to the critical section, and from there to the end of the release,
      unless it spins on a flag or link that is not set; the section is not passed by, and the release ends
      outside. */
  lemma MovesOn(s: Lock, g: Ghost, c: Cid)
    requires Inv(s, g) && c < |s.pc|
    requires !(s.pc[c].Spin? && !s.locked[c]) && !(s.pc[c].WaitNext? && s.next[c] == None)
    ensures var p, p' := s.pc[c], Step(s, c).pc[c];
      && (Rank(p) > 1 ==> 0 < Rank(p') < Rank(p)) && (Rank(p) > 5 ==> Rank(p') >= 5)
      && (Rank(p) <= 1 ==> p'.Outside?)
  {
    StepKeeps(s, g, c);
    NotUnreachable(s, g, c);
    NotUnreachable(Step(s, c), Effect(s, g, c), c);
  }

  lemma NotUnreachable(s: Lock, g: Ghost, c: Cid)
    requires Inv(s, g) && c < |s.pc|
    ensures !s.pc[c].Unreachable?
  {
    if c in g.queue {
      var k :| 0 <= k < |g.queue| && g.queue[k] == c;
      assert MemberOk(s, g.queue, k);
    } else {
      assert OutsiderOk(s, c);
    }
  }

  /** Only its own turns move a core. */
  lemma OthersLeave(s: Lock, c: Cid, d: Cid)
    requires s.Valid() && c < |s.pc| && d < |s.pc| && c != d
    ensures Step(s, c).pc[d] == s.pc[d]
  {
  }
}
