/** The run queue: the list of schedulable threads and the counter a core decrements to reserve one
    entry before it dequeues (switch_to_empty), the timer interrupt that appends the preempted
    thread and dequeues another without touching the counter, the publishers that append first and
    count afterwards, and the direct switches to a blocked thread that pass the list by. The list itself is the FIFO queue that module AtomicList implements; one
    step is one atomic access of the counter or one append or dequeue. Any number of cores run. */
module RunQueue {

  type Tid = nat

  /** The thread whose context a core carries; a core that has saved a blocking thread's context carries
      nobody while it finishes the release for it. */
  datatype Carried = Nobody | Carrying(t: Tid)

  /** What a core does next. */
  datatype Core =
    | Empty                              // the empty loop
    | LoadNum
    | CasNum(seen: nat)
    | Dequeue                            // holds a reservation
    | Running(w: Carried)
    | Counting(w: Carried, k: nat)       // has appended k threads, not yet counted them
    | TimerDequeue                       // has appended the preempted thread

  datatype Sys = Sys(queue: seq<Tid>, num: nat, cores: seq<Core>, blocked: multiset<Tid>)

  /** What a running core does: publish blocked threads, be preempted, save the context of its blocking
      thread, or, carrying nobody, look for the next thread or switch to a blocked one: to the new owner at
      the end of cnd_wait, or out of the empty loop to the keyboard thread. */
  datatype Act = Publish(xs: seq<Tid>) | Preempt | Block | Continue | SwitchTo(t: Tid)

  ghost predicate Allowed(s: Sys, c: nat, act: Act) {
    && c < |s.cores|
    && (act.Publish? && s.cores[c].Running? ==> multiset(act.xs) <= s.blocked)
    && (act.SwitchTo? && (s.cores[c].Empty? || s.cores[c].Running?) ==> act.t in s.blocked)
  }

  function Step(s: Sys, c: nat, act: Act): Sys
    requires c < |s.cores|
  {
    match s.cores[c]
    case Empty => if act.SwitchTo? then Switched(s, c, act.t) else s.(cores := s.cores[c := LoadNum])
    case LoadNum => s.(cores := s.cores[c := if s.num == 0 then Empty else CasNum(s.num)])
    case CasNum(seen) =>
      // a failed CAS reloads the counter
      if s.num == seen && seen > 0 then s.(num := s.num - 1, cores := s.cores[c := Dequeue])
      else s.(cores := s.cores[c := if s.num == 0 then Empty else CasNum(s.num)])
    case Dequeue =>
      if s.queue == [] then s   // al_delete_front_force would spin
      else s.(queue := s.queue[1..], cores := s.cores[c := Running(Carrying(s.queue[0]))])
    case TimerDequeue =>
      if s.queue == [] then s
      else s.(queue := s.queue[1..], cores := s.cores[c := Running(Carrying(s.queue[0]))])
    case Counting(w, k) => s.(num := s.num + k, cores := s.cores[c := Running(w)])
    case Running(w) =>
      match act
      case Publish(xs) =>
        s.(queue := s.queue + xs, blocked := s.blocked - multiset(xs), cores := s.cores[c := Counting(w, |xs|)])
      case Preempt =>
        if w.Nobody? then s   // interrupts are off
        else s.(queue := s.queue + [w.t], cores := s.cores[c := TimerDequeue])
      case Block =>
        if w.Nobody? then s
        else s.(blocked := s.blocked + multiset{w.t}, cores := s.cores[c := Running(Nobody)])
      case Continue =>
        if w.Nobody? then s.(cores := s.cores[c := LoadNum]) else s
      case SwitchTo(t) =>
        if w.Nobody? then Switched(s, c, t) else s
  }

  /** Core c goes on with the blocked thread t. */
  function Switched(s: Sys, c: nat, t: Tid): Sys
    requires c < |s.cores|
  {
    s.(blocked := s.blocked - multiset{t}, cores := s.cores[c := Running(Carrying(t))])
  }

  /** Queue entries core c still has to dequeue or to count. */
  ghost function Owes(p: Core): nat {
    match p
    case Dequeue => 1
    case TimerDequeue => 1
    case Counting(_, k) => k
    case _ => 0
  }

  ghost function Owed(cores: seq<Core>): nat {
    if cores == [] then 0 else Owed(cores[..|cores| - 1]) + Owes(cores[|cores| - 1])
  }

  ghost function Runs(p: Core, t: Tid): nat {
    if (p.Running? || p.Counting?) && p.w == Carrying(t) then 1 else 0
  }

  ghost function CarriedBy(cores: seq<Core>, t: Tid): nat {
    if cores == [] then 0 else CarriedBy(cores[..|cores| - 1], t) + Runs(cores[|cores| - 1], t)
  }

  /** In how many places thread t is. */
  ghost function Places(s: Sys, t: Tid): nat {
    multiset(s.queue)[t] + CarriedBy(s.cores, t) + s.blocked[t]
  }

  /** Queued nodes are the counted ones, the reserved ones, the timer's, and those not counted yet. */
  ghost predicate Balanced(s: Sys) {
    |s.queue| == s.num + Owed(s.cores)
  }

  lemma {:induction false} OwedUpdate(cores: seq<Core>, c: nat, p: Core)
    requires c < |cores|
    ensures Owed(cores[c := p]) == Owed(cores) - Owes(cores[c]) + Owes(p)
    ensures Owed(cores) >= Owes(cores[c])
  {
    var n := |cores| - 1;
    if c == n {
      assert cores[c := p][..n] == cores[..n];
    } else {
      assert cores[c := p][..n] == cores[..n][c := p];
      OwedUpdate(cores[..n], c, p);
    }
  }

  lemma {:induction false} CarriedUpdate(cores: seq<Core>, c: nat, p: Core, t: Tid)
    requires c < |cores|
    ensures CarriedBy(cores[c := p], t) + Runs(cores[c], t) == CarriedBy(cores, t) + Runs(p, t)
  {
    var n := |cores| - 1;
    if c == n {
      assert cores[c := p][..n] == cores[..n];
    } else {
      assert cores[c := p][..n] == cores[..n][c := p];
      CarriedUpdate(cores[..n], c, p, t);
    }
  }

  lemma StepOwes(s: Sys, c: nat, act: Act)
    requires c < |s.cores|
    ensures var s' := Step(s, c, act);
      |s'.queue| - s'.num - Owes(s'.cores[c]) == |s.queue| - s.num - Owes(s.cores[c])
  {
  }

  lemma StepBalances(s: Sys, c: nat, act: Act)
    requires Balanced(s) && Allowed(s, c, act)
    ensures Balanced(Step(s, c, act)) && |Step(s, c, act).cores| == |s.cores|
  {
    StepOwes(s, c, act);
    ChangesTheCore(s, c, act);
    OwedUpdate(s.cores, c, Step(s, c, act).cores[c]);
  }

  lemma Queued(q: seq<Tid>, xs: seq<Tid>, t: Tid)
    ensures multiset(q + xs)[t] == multiset(q)[t] + multiset(xs)[t]
    ensures q != [] ==> multiset(q)[t] == multiset(q[1..])[t] + if q[0] == t then 1 else 0
  {
    assert multiset(q + xs) == multiset(q) + multiset(xs);
    if q != [] {
      assert q == [q[0]] + q[1..];
      assert multiset([q[0]] + q[1..]) == multiset([q[0]]) + multiset(q[1..]);
    }
  }

  lemma StepKeepsThread(s: Sys, c: nat, act: Act, t: Tid)
    requires Allowed(s, c, act)
    ensures Places(Step(s, c, act), t) == Places(s, t)
  {
    var s' := Step(s, c, act);
    ChangesTheCore(s, c, act);
    CarriedUpdate(s.cores, c, s'.cores[c], t);
    StepMovesThread(s, c, act, t);
  }

  lemma ChangesTheCore(s: Sys, c: nat, act: Act)
    requires c < |s.cores|
    ensures Step(s, c, act).cores == s.cores[c := Step(s, c, act).cores[c]]
  {
  }

  ghost function PlacesAt(q: seq<Tid>, p: Core, b: multiset<Tid>, t: Tid): nat {
    multiset(q)[t] + Runs(p, t) + b[t]
  }

  lemma PublishMoves(q: seq<Tid>, w: Carried, b: multiset<Tid>, xs: seq<Tid>, t: Tid)
    requires multiset(xs) <= b
    ensures PlacesAt(q + xs, Counting(w, |xs|), b - multiset(xs), t) == PlacesAt(q, Running(w), b, t)
  {
    Queued(q, xs, t);
  }

  lemma PreemptMoves(q: seq<Tid>, u: Tid, b: multiset<Tid>, t: Tid)
    ensures PlacesAt(q + [u], TimerDequeue, b, t) == PlacesAt(q, Running(Carrying(u)), b, t)
  {
    Queued(q, [u], t);
  }

  lemma DequeueMoves(q: seq<Tid>, p: Core, b: multiset<Tid>, t: Tid)
    requires q != [] && (p.Dequeue? || p.TimerDequeue?)
    ensures PlacesAt(q[1..], Running(Carrying(q[0])), b, t) == PlacesAt(q, p, b, t)
  {
    Queued(q, [], t);
  }

  lemma SwitchMoves(q: seq<Tid>, p: Core, b: multiset<Tid>, u: Tid, t: Tid)
    requires u in b && (p.Empty? || p == Running(Nobody))
    ensures PlacesAt(q, Running(Carrying(u)), b - multiset{u}, t) == PlacesAt(q, p, b, t)
  {
  }

  lemma StepMovesThread(s: Sys, c: nat, act: Act, t: Tid)
    requires Allowed(s, c, act)
    ensures var s' := Step(s, c, act);
      PlacesAt(s'.queue, s'.cores[c], s'.blocked, t) == PlacesAt(s.queue, s.cores[c], s.blocked, t)
  {
    var p := s.cores[c];
    if p.Running? && act.Publish? {
      PublishMoves(s.queue, p.w, s.blocked, act.xs, t);
    } else if p.Running? && act.Preempt? && p.w.Carrying? {
      PreemptMoves(s.queue, p.w.t, s.blocked, t);
    } else if (p.Empty? || p == Running(Nobody)) && act.SwitchTo? {
      SwitchMoves(s.queue, p, s.blocked, act.t, t);
    } else if (p.Dequeue? || p.TimerDequeue?) && s.queue != [] {
      DequeueMoves(s.queue, p, s.blocked, t);
    }
  }

  datatype Turn = Turn(c: nat, act: Act)

  /** s' is reached from s by the given turns. */
  ghost predicate Reaches(s: Sys, turns: seq<Turn>, s': Sys)
    decreases |turns|
  {
    if turns == [] then s' == s
    else Allowed(s, turns[0].c, turns[0].act) && Reaches(Step(s, turns[0].c, turns[0].act), turns[1..], s')
  }

  lemma {:induction false} RunConserves(s: Sys, turns: seq<Turn>, s': Sys)
    requires Balanced(s) && Reaches(s, turns, s')
    ensures Balanced(s') && (forall t: Tid :: Places(s', t) == Places(s, t)) && |s'.cores| == |s.cores|
    decreases |turns|
  {
    if turns != [] {
      StepBalances(s, turns[0].c, turns[0].act);
      RunConserves(Step(s, turns[0].c, turns[0].act), turns[1..], s');
      forall t: Tid ensures Places(s', t) == Places(s, t) {
        StepKeepsThread(s, turns[0].c, turns[0].act, t);
      }
    }
  }

  /** A core that has reserved an entry, or has appended the preempted thread, never finds the queue
      empty: al_delete_front_force never spins for want of a node. */
  lemma NeverDequeuesEmpty(s: Sys, turns: seq<Turn>, s': Sys, c: nat)
    requires Balanced(s) && Reaches(s, turns, s')
    requires c < |s'.cores| && (s'.cores[c].Dequeue? || s'.cores[c].TimerDequeue?)
    ensures s'.queue != []
  {
    RunConserves(s, turns, s');
    OwedUpdate(s'.cores, c, s'.cores[c]);
  }

  /** The cores that have a reservation, or have appended the preempted thread. */
  function Dequeuing(cores: seq<Core>): set<nat> {
    set c: nat | c < |cores| && (cores[c].Dequeue? || cores[c].TimerDequeue?)
  }

  lemma {:induction false} DequeuersOwe(cores: seq<Core>)
    ensures Owed(cores) >= |Dequeuing(cores)|
  {
    var all := Dequeuing(cores);
    if cores == [] {
      assert all == {};
    } else {
      var n := |cores| - 1;
      DequeuersOwe(cores[..n]);
      assert all == Dequeuing(cores[..n]) + (if cores[n].Dequeue? || cores[n].TimerDequeue? then {n} else {});
    }
  }

  /** In every reachable state the queue has an entry for each core that is about to dequeue, besides all
      those the counter still offers. */
  lemma ReservationsAreBacked(s: Sys, turns: seq<Turn>, s': Sys)
    requires Balanced(s) && Reaches(s, turns, s')
    ensures s'.num + |Dequeuing(s'.cores)| <= |s'.queue|
  {
    RunConserves(s, turns, s');
    DequeuersOwe(s'.cores);
  }

  // ------------------------------------------------------------------
  // The order of the threads, and who goes idle
  // ------------------------------------------------------------------

  /** The threads that a turn puts into the queue: those published, or the preempted one. */
  function Entering(s: Sys, turn: Turn): seq<Tid>
    requires turn.c < |s.cores|
  {
    match s.cores[turn.c]
    case Running(w) =>
      if turn.act.Publish? then turn.act.xs
      else if turn.act.Preempt? && w.Carrying? then [w.t]
      else []
    case _ => []
  }

  /** The thread that a core which had to dequeue carries after its turn. */
  function Picking(s: Sys, turn: Turn): seq<Tid>
    requires turn.c < |s.cores|
  {
    var p, p' := s.cores[turn.c], Step(s, turn.c, turn.act).cores[turn.c];
    if (p.Dequeue? || p.TimerDequeue?) && p'.Running? && p'.w.Carrying? then [p'.w.t] else []
  }

  ghost function Entered(s: Sys, turns: seq<Turn>): seq<Tid>
    decreases |turns|
  {
    if turns == [] || turns[0].c >= |s.cores| then []
    else Entering(s, turns[0]) + Entered(Step(s, turns[0].c, turns[0].act), turns[1..])
  }

  ghost function Picked(s: Sys, turns: seq<Turn>): seq<Tid>
    decreases |turns|
  {
    if turns == [] || turns[0].c >= |s.cores| then []
    else Picking(s, turns[0]) + Picked(Step(s, turns[0].c, turns[0].act), turns[1..])
  }

  lemma StepInOrder(s: Sys, turn: Turn)
    requires turn.c < |s.cores|
    ensures Picking(s, turn) + Step(s, turn.c, turn.act).queue == s.queue + Entering(s, turn)
  {
    var p, q, q' := s.cores[turn.c], s.queue, Step(s, turn.c, turn.act).queue;
    if p.Dequeue? || p.TimerDequeue? {
      assert Entering(s, turn) == [] && q + [] == q;
      if q == [] {
        assert Picking(s, turn) == [] && [] + q' == q';
      } else {
        assert Picking(s, turn) == [q[0]] && q' == q[1..] && [q[0]] + q[1..] == q;
      }
    } else {
      assert Picking(s, turn) == [] && [] + q' == q';
      EnterInOrder(s, turn);
    }
  }

  lemma EnterInOrder(s: Sys, turn: Turn)
    requires turn.c < |s.cores| && !s.cores[turn.c].Dequeue? && !s.cores[turn.c].TimerDequeue?
    ensures Step(s, turn.c, turn.act).queue == s.queue + Entering(s, turn)
  {
    assert s.queue + [] == s.queue;
  }

  lemma OrderMore(q: seq<Tid>, enter: seq<Tid>, pick: seq<Tid>, q': seq<Tid>, enters: seq<Tid>, picks: seq<Tid>, q'': seq<Tid>)
    requires pick + q' == q + enter && picks + q'' == q' + enters
    ensures (pick + picks) + q'' == q + (enter + enters)
  {
    assert (pick + picks) + q'' == pick + (picks + q'');
    assert pick + (q' + enters) == (pick + q') + enters;
    assert (q + enter) + enters == q + (enter + enters);
  }

  /** In every run the threads are dequeued in the order in which they were queued, each once: those of the
      queue at the beginning, then those published or preempted; the rest is the queue at the end. */
  lemma {:induction false} RunsInOrder(s: Sys, turns: seq<Turn>, s': Sys)
    requires Reaches(s, turns, s')
    ensures s.queue + Entered(s, turns) == Picked(s, turns) + s'.queue
    decreases |turns|
  {
    if turns != [] {
      var next := Step(s, turns[0].c, turns[0].act);
      RunsInOrder(next, turns[1..], s');
      StepInOrder(s, turns[0]);
      OrderMore(s.queue, Entering(s, turns[0]), Picking(s, turns[0]), next.queue, Entered(next, turns[1..]), Picked(next, turns[1..]), s'.queue);
    }
  }

  /** A core goes idle exactly if the access that decides finds the counter 0; then every thread in the queue
      is spoken for: reserved, owed to a timer interrupt, or about to be counted. */
  lemma IdlesOnlyThen(s: Sys, turns: seq<Turn>, s': Sys, c: nat, act: Act)
    requires Balanced(s) && Reaches(s, turns, s') && Allowed(s', c, act) && !s'.cores[c].Empty?
    ensures Step(s', c, act).cores[c].Empty? <==> (s'.cores[c].LoadNum? || s'.cores[c].CasNum?) && s'.num == 0
    ensures Step(s', c, act).cores[c].Empty? ==> |s'.queue| == Owed(s'.cores)
  {
    RunConserves(s, turns, s');
  }

  function Rank(p: Core): nat {
    match p
    case LoadNum => 3
    case CasNum(_) => 2
    case Dequeue => 1
    case TimerDequeue => 1
    case Counting(_, _) => 1
    case _ => 0
  }

  /** Each turn brings a core that looks for a thread, or has one to count, nearer to running or idling, but
      for a CAS that fails because another core or a publisher has changed the counter. */
  lemma CoreMovesOn(s: Sys, turns: seq<Turn>, s': Sys, c: nat, act: Act)
    requires Balanced(s) && Reaches(s, turns, s') && Allowed(s', c, act) && Rank(s'.cores[c]) > 0
    ensures || Rank(Step(s', c, act).cores[c]) < Rank(s'.cores[c])
            || (s'.cores[c].CasNum? && s'.num != s'.cores[c].seen && s'.num > 0)
  {
    if s'.cores[c].Dequeue? || s'.cores[c].TimerDequeue? {
      NeverDequeuesEmpty(s, turns, s', c);
    }
  }

  /** n turns of core c alone. */
  function Alone(s: Sys, c: nat, n: nat): (r: Sys)
    requires c < |s.cores|
    ensures |r.cores| == |s.cores|
  {
    if n == 0 then s else Step(Alone(s, c, n - 1), c, Continue)
  }

  /** An idle core that finds the counter above 0, and is not disturbed, carries the thread at the front after
      four turns, and has counted it down; so does one that has finished the release for a blocked thread. */
  lemma IdleCorePicksUp(s: Sys, turns: seq<Turn>, s': Sys, c: nat)
    requires Balanced(s) && Reaches(s, turns, s') && s'.num > 0
    requires c < |s'.cores| && (s'.cores[c].Empty? || s'.cores[c] == Running(Nobody))
    ensures s'.queue != []
    ensures var r := Alone(s', c, 4);
      r.cores[c] == Running(Carrying(s'.queue[0])) && r.queue == s'.queue[1..] && r.num == s'.num - 1 && r.blocked == s'.blocked
  {
    RunConserves(s, turns, s');
    var s1 := Step(s', c, Continue);
    var s2 := Step(s1, c, Continue);
    var s3 := Step(s2, c, Continue);
    assert Alone(s', c, 0) == s' && Alone(s', c, 1) == s1;
    assert Alone(s', c, 2) == s2 && s2.cores[c] == CasNum(s'.num);
    assert Alone(s', c, 3) == s3 && s3.cores[c] == Dequeue;
    assert Alone(s', c, 4) == Step(s3, c, Continue);
  }
}
