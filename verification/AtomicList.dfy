/** The lock-free list of include/al_list.h, at the grain of single atomic accesses.

    Any number of producers append at once; deletions and clears run one at a time (their callers
    hold the list's spin lock). The caller of a clear walks the detached chain afterwards, while
    producers may still owe links inside it, and any number of such walks may be under way. */
module AtomicList {
  import opened Options

  type Nid = nat

  /** Next access of the producer that appends node x. */
  datatype Produce =
    | Still
    | ExchangeEnd
    | LoadEmpty | CasEmpty          // al_append_empty
    | Store(prev: Option<Nid>)       // to the old end's link, or to `head` when there was none

  /** Next access of the consumer. */
  datatype Consume =
    | Rest
    | FrontLoadEnd | FrontSpinHead(end: Nid)            // al_delete_front
    | ForceSpinHead | ForceLoadEnd(head: Nid)           // al_delete_front_force
    | ClearHead(head: Nid) | CasEnd(head: Nid) | CheckLink(head: Nid)
    | SpinLink(head: Nid) | StoreHead(head: Nid, next: Nid)
    | ResetLink(head: Nid)                              // the caller clears the link it got
    | WipeLoadEnd | WipeSpinHead | WipeHead(head: Nid) | WipeEnd(head: Nid)   // al_clear
    | Unreachable

  /** A walk over a detached chain that stands before `node`. */
  datatype Walk = Over | At(node: Nid, end: Nid) | Passing(node: Nid, end: Nid, next: Option<Nid>)

  datatype List = List(head: Option<Nid>, end: Option<Nid>, link: seq<Option<Nid>>,
                       prod: seq<Produce>, cons: Consume, walks: seq<Walk>)
  {
    ghost predicate Valid() {
      |link| == |prod|
    }

    function Link(x: Nid): Option<Nid> {
      if x < |link| then link[x] else None
    }

    function SetLink(x: Nid, v: Option<Nid>): (r: List)
      ensures Valid() ==> r.Valid()
    {
      if x < |link| then this.(link := link[x := v]) else this
    }
  }

  datatype Act =
    | Append(x: Nid) | AppendEmpty(x: Nid) | Produce(x: Nid)
    | DeleteFront | DeleteFrontForce | Clear | Consume
    | WalkOn(w: nat)

  function ProduceStep(s: List, x: Nid): (r: List)
    requires s.Valid() && x < |s.prod|
    ensures r.Valid() && |r.prod| == |s.prod|
  {
    match s.prod[x]
    case Still => s
    case ExchangeEnd => s.(end := Some(x), prod := s.prod[x := Store(s.end)])
    case LoadEmpty => s.(prod := s.prod[x := if s.end == None then CasEmpty else Still])
    case CasEmpty =>
      if s.end == None then s.(end := Some(x), prod := s.prod[x := Store(None)]) else s.(prod := s.prod[x := Still])
    case Store(prev) =>
      (if prev == None then s.(head := Some(x)) else s.SetLink(prev.value, Some(x))).(prod := s.prod[x := Still])
  }

  function ConsumeStep(s: List): (r: List)
    requires s.Valid()
    ensures r.Valid() && |r.prod| == |s.prod|
  {
    match s.cons
    case Rest => s
    case FrontLoadEnd => if s.end == None then s.(cons := Rest) else s.(cons := FrontSpinHead(s.end.value))
    case FrontSpinHead(end) =>
      if s.head == None then s
      else s.(cons := if s.head == Some(end) then ClearHead(end) else SpinLink(s.head.value))
    case ForceSpinHead => if s.head == None then s else s.(cons := ForceLoadEnd(s.head.value))
    case ForceLoadEnd(head) => s.(cons := if s.end == Some(head) then ClearHead(head) else SpinLink(head))
    case ClearHead(head) => s.(head := None, cons := CasEnd(head))
    case CasEnd(head) => if s.end == Some(head) then s.(end := None, cons := CheckLink(head)) else s.(cons := SpinLink(head))
    case CheckLink(head) => s.(cons := if s.Link(head) == None then Rest else Unreachable)
    case SpinLink(head) => if s.Link(head) == None then s else s.(cons := StoreHead(head, s.Link(head).value))
    case StoreHead(head, next) => s.(head := Some(next), cons := ResetLink(head))
    case ResetLink(head) => s.SetLink(head, None).(cons := Rest)
    case WipeLoadEnd => s.(cons := if s.end == None then Rest else WipeSpinHead)
    case WipeSpinHead => if s.head == None then s else s.(cons := WipeHead(s.head.value))
    case WipeHead(head) => s.(head := None, cons := WipeEnd(head))
    case WipeEnd(head) =>
      if s.end == None then s.(cons := Unreachable)
      else s.(end := None, cons := Rest, walks := s.walks + [At(head, s.end.value)])
    case Unreachable => s
  }

  function WalkStep(s: List, w: nat): (r: List)
    requires s.Valid() && w < |s.walks|
    ensures r.Valid() && |r.prod| == |s.prod|
  {
    match s.walks[w]
    case Over => s
    case At(node, end) =>
      if node == end then s.(walks := s.walks[w := Passing(node, end, None)])
      else if s.Link(node) == None then s
      else s.(walks := s.walks[w := Passing(node, end, s.Link(node))])
    case Passing(node, end, next) =>
      s.SetLink(node, None).(walks := s.walks[w := if next == None then Over else At(next.value, end)])
  }

  // ------------------------------------------------------------------
  // The abstract queue
  // ------------------------------------------------------------------

  datatype Place = Loose | Queued | InFlight | Chained(w: nat)

  /** `queue` in append order; `given[w]` what the clear of walk w detached, of which the walk has
      returned `done[w]` and still has to visit `chains[w]`. */
  datatype Ghost = Ghost(queue: seq<Nid>, chains: seq<seq<Nid>>, place: seq<Place>, given: seq<seq<Nid>>, done: seq<seq<Nid>>)

  /** Producers bring nodes that are in no list; consumers come one at a time. */
  ghost predicate Enabled(s: List, g: Ghost, act: Act)
    requires s.Valid() && |g.place| == |s.prod|
  {
    match act
    case Append(x) => x < |s.prod| && g.place[x].Loose? && s.prod[x].Still?
    case AppendEmpty(x) => x < |s.prod| && g.place[x].Loose? && s.prod[x].Still?
    case Produce(x) => x < |s.prod|
    case Consume => true
    case WalkOn(w) => w < |s.walks|
    case _ => s.cons.Rest?
  }

  ghost function Step(s: List, g: Ghost, act: Act): (r: List)
    requires s.Valid() && |g.place| == |s.prod| && Enabled(s, g, act)
    ensures r.Valid() && |r.prod| == |s.prod|
  {
    match act
    case Append(x) => s.(prod := s.prod[x := ExchangeEnd])
    case AppendEmpty(x) => s.(prod := s.prod[x := LoadEmpty])
    case Produce(x) => ProduceStep(s, x)
    case DeleteFront => s.(cons := FrontLoadEnd)
    case DeleteFrontForce => s.(cons := ForceSpinHead)
    case Clear => s.(cons := WipeLoadEnd)
    case Consume => ConsumeStep(s)
    case WalkOn(w) => WalkStep(s, w)
  }

  /** The exchange on `end` appends; the CAS that empties the list, the store of the new head and the
      exchange of a clear remove. */
  ghost function Effect(s: List, g: Ghost, act: Act): Ghost
    requires s.Valid() && |g.place| == |s.prod| && Enabled(s, g, act)
  {
    match act
    case Produce(x) =>
      if s.prod[x].ExchangeEnd? || (s.prod[x].CasEmpty? && s.end == None) then
        g.(queue := g.queue + [x], place := g.place[x := Queued])
      else g
    case Consume => ConsumeEffect(s, g)
    case WalkOn(w) =>
      if s.walks[w].Passing? && w < |g.chains| == |g.done| && g.chains[w] != [] && s.walks[w].node < |g.place| then
        g.(chains := g.chains[w := g.chains[w][1..]], done := g.done[w := g.done[w] + [s.walks[w].node]],
           place := g.place[s.walks[w].node := Loose])
      else g
    case _ => g
  }

  ghost function ConsumeEffect(s: List, g: Ghost): Ghost
    requires s.Valid() && |g.place| == |s.prod|
  {
    match s.cons
    case CasEnd(head) => if s.end == Some(head) then Take(g) else g
    case StoreHead(_, _) => Take(g)
    case CheckLink(head) => if head < |g.place| then g.(place := g.place[head := Loose]) else g
    case ResetLink(head) => if head < |g.place| then g.(place := g.place[head := Loose]) else g
    case WipeEnd(_) =>
      g.(queue := [], chains := g.chains + [g.queue], given := g.given + [g.queue],
         done := g.done + [[]],
         place := seq(|g.place|, x requires 0 <= x < |g.place| => if x in g.queue then Chained(|g.chains|) else g.place[x]))
    case _ => g
  }

  ghost function Take(g: Ghost): Ghost {
    if g.queue == [] || g.queue[0] >= |g.place| then g
    else g.(queue := g.queue[1..], place := g.place[g.queue[0] := InFlight])
  }

  // ------------------------------------------------------------------
  // The invariant
  // ------------------------------------------------------------------

  /** y follows x: either x links to it, or y's producer still owes exactly that store. */
  ghost predicate Joined(s: List, x: Nid, y: Nid)
    requires s.Valid() && x < |s.link| && y < |s.link|
  {
    if s.prod[y].Store? then s.prod[y].prev == Some(x) && s.link[x] == None
    else s.link[x] == Some(y)
  }

  ghost predicate Distinct(c: seq<Nid>) {
    forall i, j | 0 <= i < j < |c| :: c[i] != c[j]
  }

  /** The links encode the sequence c. */
  ghost predicate ChainOk(s: List, c: seq<Nid>)
    requires s.Valid()
  {
    && (forall i | 0 <= i < |c| :: c[i] < |s.link| && (s.prod[c[i]].Still? || s.prod[c[i]].Store?))
    && (forall i, j | 0 <= i < j < |c| && j == i + 1 :: Joined(s, c[i], c[j]))
    && (c != [] ==> s.link[c[|c| - 1]] == None)
    && Distinct(c)
  }

  /** The consumer has taken the front of the queue into a local variable. */
  ghost predicate CarriesHead(c: Consume) {
    c.CasEnd? || c.WipeEnd? || c.SpinLink? || c.StoreHead?
  }

  /** `head`, or the consumer's local copy of it, is the front of the queue. */
  ghost predicate HeadOk(s: List, q: seq<Nid>)
    requires s.Valid() && ChainOk(s, q)
  {
    var cons := s.cons;
    && (if CarriesHead(cons) then
          && q != [] && q[0] == cons.head && s.prod[q[0]].Still?
          && (cons.CasEnd? || cons.WipeEnd? ==> s.head == None)
          && (cons.SpinLink? || cons.StoreHead? ==> |q| >= 2)
          && (cons.StoreHead? ==> q[1] == cons.next && s.prod[q[1]].Still?)
        else if q == [] then s.head == None
        else if s.prod[q[0]].Store? then s.prod[q[0]].prev == None && s.head == None
        else s.head == Some(q[0]))
    && (cons.FrontSpinHead? ==> cons.end in q)
    && (cons.WipeSpinHead? ==> q != [])
    && (cons.ClearHead? || cons.WipeHead? || cons.ForceLoadEnd? ==> q != [] && q[0] == cons.head && s.prod[q[0]].Still?)
    && (cons.CheckLink? ==> s.Link(cons.head) == None)
    && !cons.Unreachable?
  }

  ghost predicate WalkOk(s: List, walk: Walk, c: seq<Nid>)
    requires s.Valid() && ChainOk(s, c)
  {
    match walk
    case Over => c == []
    case At(node, end) => c != [] && node == c[0] && end == c[|c| - 1] && s.prod[node].Still?
    case Passing(node, end, next) =>
      && c != [] && node == c[0] && end == c[|c| - 1] && s.prod[node].Still?
      && (if |c| == 1 then next == None else next == Some(c[1]) && s.prod[c[1]].Still?)
  }

  ghost predicate PlaceOk(s: List, g: Ghost, x: Nid)
    requires s.Valid() && x < |s.prod| == |g.place|
  {
    && (x in g.queue <==> g.place[x].Queued?)
    && (g.place[x].InFlight? <==> (s.cons.CheckLink? || s.cons.ResetLink?) && s.cons.head == x)
    && (g.place[x].Chained? ==> g.place[x].w < |g.chains| && x in g.chains[g.place[x].w])
    && (g.place[x].Loose? ==> s.link[x] == None && !s.prod[x].Store?)
    && (!s.prod[x].Still? && !s.prod[x].Store? ==> g.place[x].Loose?)
    && (g.place[x].InFlight? ==> s.prod[x].Still?)
  }

  ghost predicate QueueOk(s: List, g: Ghost)
    requires s.Valid()
  {
    && ChainOk(s, g.queue) && HeadOk(s, g.queue)
    && s.end == (if g.queue == [] then None else Some(g.queue[|g.queue| - 1]))
  }

  ghost predicate WalkerOk(s: List, g: Ghost, w: nat)
    requires s.Valid() && w < |g.chains| == |s.walks| == |g.given| == |g.done|
  {
    && ChainOk(s, g.chains[w]) && WalkOk(s, s.walks[w], g.chains[w])
    && g.given[w] == g.done[w] + g.chains[w]
    && (forall i | 0 <= i < |g.chains[w]| :: g.chains[w][i] < |g.place| && g.place[g.chains[w][i]] == Chained(w))
  }

  ghost predicate Inv(s: List, g: Ghost)
  {
    && s.Valid() && |g.place| == |s.prod|
    && |g.chains| == |s.walks| == |g.given| == |g.done|
    && QueueOk(s, g)
    && (forall w: nat | w < |g.chains| :: WalkerOk(s, g, w))
    && (forall x: Nid | x < |s.prod| :: PlaceOk(s, g, x))
  }

  function Init(nodes: nat): List {
    List(None, None, seq(nodes, i => None), seq(nodes, i => Still), Rest, [])
  }

  lemma InitOk(nodes: nat)
    ensures Inv(Init(nodes), Ghost([], [], seq(nodes, i => Loose), [], []))
  {
  }

  /** A chain none of whose nodes changed is still encoded. */
  lemma ChainFrame(s: List, s': List, c: seq<Nid>)
    requires s.Valid() && s'.Valid() && |s.prod| == |s'.prod| && ChainOk(s, c)
    requires forall i | 0 <= i < |c| :: s'.link[c[i]] == s.link[c[i]] && s'.prod[c[i]] == s.prod[c[i]]
    ensures ChainOk(s', c)
  {
  }

  // ---- producers ----

  /** What any step leaves alone: the chain of walk w, none of whose nodes it touches. */
  lemma WalkerFrame(s: List, g: Ghost, s': List, g': Ghost, w: nat)
    requires s.Valid() && s'.Valid() && |s.prod| == |s'.prod| == |g.place| == |g'.place|
    requires w < |g.chains| == |s.walks| == |g.given| == |g.done|
    requires w < |g'.chains| == |s'.walks| == |g'.given| == |g'.done|
    requires WalkerOk(s, g, w)
    requires s'.walks[w] == s.walks[w] && g'.chains[w] == g.chains[w] && g'.given[w] == g.given[w] && g'.done[w] == g.done[w]
    requires forall x: Nid | x < |s.prod| && g.place[x] == Chained(w) ::
               s'.link[x] == s.link[x] && s'.prod[x] == s.prod[x] && g'.place[x] == g.place[x]
    ensures WalkerOk(s', g', w)
  {
    ChainFrame(s, s', g.chains[w]);
  }

  /** A node that is not in the chain and owes the link after it may be added. */
  lemma ChainGrows(s: List, c: seq<Nid>, x: Nid)
    requires s.Valid() && ChainOk(s, c) && x < |s.prod| && x !in c && s.link[x] == None
    requires s.prod[x].Store? && s.prod[x].prev == if c == [] then None else Some(c[|c| - 1])
    ensures ChainOk(s, c + [x])
  {
    var d := c + [x];
    forall i, j | 0 <= i < j < |d| && j == i + 1 ensures Joined(s, d[i], d[j]) {
      if j < |c| {
        assert Joined(s, c[i], c[j]);
      }
    }
  }

  lemma JoinChain(s: List, g: Ghost, x: Nid)
    requires s.Valid() && |g.place| == |s.prod| && QueueOk(s, g) && x < |s.prod| && PlaceOk(s, g, x)
    requires s.prod[x].ExchangeEnd? || (s.prod[x].CasEmpty? && s.end == None)
    ensures x !in g.queue && ChainOk(ProduceStep(s, x), g.queue) && ChainOk(ProduceStep(s, x), g.queue + [x])
  {
    assert x !in g.queue;
    ChainFrame(s, ProduceStep(s, x), g.queue);
    ChainGrows(ProduceStep(s, x), g.queue, x);
  }

  /** `head`, or the consumer's copy of it, is still the front after an append. */
  lemma JoinHead(s: List, g: Ghost, x: Nid)
    requires s.Valid() && |g.place| == |s.prod| && QueueOk(s, g) && x < |s.prod| && x !in g.queue && PlaceOk(s, g, x)
    requires s.prod[x].ExchangeEnd? || (s.prod[x].CasEmpty? && s.end == None)
    requires ChainOk(ProduceStep(s, x), g.queue + [x])
    ensures HeadOk(ProduceStep(s, x), g.queue + [x])
  {
  }

  /** The append point: the exchange on `end`, or the successful CAS of al_append_empty. */
  lemma JoinQueue(s: List, g: Ghost, x: Nid)
    requires s.Valid() && |g.place| == |s.prod| && QueueOk(s, g) && x < |s.prod| && PlaceOk(s, g, x)
    requires s.prod[x].ExchangeEnd? || (s.prod[x].CasEmpty? && s.end == None)
    ensures QueueOk(ProduceStep(s, x), Effect(s, g, Produce(x)))
  {
    JoinChain(s, g, x);
    JoinHead(s, g, x);
  }

  lemma JoinKeeps(s: List, g: Ghost, x: Nid)
    requires Inv(s, g) && x < |s.prod| && (s.prod[x].ExchangeEnd? || (s.prod[x].CasEmpty? && s.end == None))
    ensures Inv(ProduceStep(s, x), Effect(s, g, Produce(x)))
  {
    var s', g' := ProduceStep(s, x), Effect(s, g, Produce(x));
    assert PlaceOk(s, g, x);
    JoinQueue(s, g, x);
    forall w: nat | w < |g.chains| ensures WalkerOk(s', g', w) {
      WalkerFrame(s, g, s', g', w);
    }
    forall y: Nid | y < |s.prod| ensures PlaceOk(s', g', y) {
      assert PlaceOk(s, g, y);
    }
  }

  /** The store a producer owes goes to its predecessor in the same chain. */
  lemma ChainStore(s: List, c: seq<Nid>, i: nat)
    requires s.Valid() && ChainOk(s, c) && 0 < i < |c| && s.prod[c[i]].Store?
    ensures s.prod[c[i]].prev == Some(c[i - 1])
    ensures ChainOk(ProduceStep(s, c[i]), c)
  {
    assert Joined(s, c[i - 1], c[i]);
  }

  lemma StoreInner(s: List, g: Ghost, i: nat)
    requires s.Valid() && |g.place| == |s.prod| && QueueOk(s, g) && 0 < i < |g.queue| && s.prod[g.queue[i]].Store?
    requires s.cons.CheckLink? ==> s.cons.head !in g.queue
    ensures QueueOk(ProduceStep(s, g.queue[i]), g) && s.prod[g.queue[i]].prev == Some(g.queue[i - 1])
  {
    ChainStore(s, g.queue, i);
  }

  lemma StoreFront(s: List, g: Ghost)
    requires s.Valid() && |g.place| == |s.prod| && QueueOk(s, g) && g.queue != [] && s.prod[g.queue[0]].Store?
    ensures QueueOk(ProduceStep(s, g.queue[0]), g) && s.prod[g.queue[0]].prev == None
  {
    ChainFrame(s, ProduceStep(s, g.queue[0]).(prod := s.prod), g.queue);
  }

  lemma StoreInQueue(s: List, g: Ghost, x: Nid)
    requires s.Valid() && |g.place| == |s.prod| && QueueOk(s, g) && x < |s.prod| && x in g.queue && s.prod[x].Store?
    requires s.cons.CheckLink? ==> s.cons.head !in g.queue
    ensures QueueOk(ProduceStep(s, x), g)
    ensures s.prod[x].prev.Some? ==> s.prod[x].prev.value in g.queue
  {
    var i :| 0 <= i < |g.queue| && g.queue[i] == x;
    if i > 0 {
      StoreInner(s, g, i);
    } else {
      StoreFront(s, g);
    }
  }

  lemma StoreInChain(s: List, g: Ghost, x: Nid, w: nat)
    requires s.Valid() && |g.place| == |s.prod| && w < |g.chains| == |s.walks| == |g.given| == |g.done|
    requires WalkerOk(s, g, w) && x < |s.prod| && x in g.chains[w] && s.prod[x].Store?
    ensures WalkerOk(ProduceStep(s, x), g, w)
    ensures s.prod[x].prev.Some? && s.prod[x].prev.value in g.chains[w]
  {
    var i :| 0 <= i < |g.chains[w]| && g.chains[w][i] == x;
    ChainStore(s, g.chains[w], i);
  }

  /** The node the consumer has removed and not yet handed over is in no list. */
  lemma FlightNotQueued(s: List, g: Ghost)
    requires Inv(s, g)
    ensures s.cons.CheckLink? || s.cons.ResetLink? ==> s.cons.head !in g.queue
    ensures (s.cons.CheckLink? || s.cons.ResetLink?) && s.cons.head < |s.prod| ==>
              g.place[s.cons.head].InFlight? && s.prod[s.cons.head].Still?
  {
    if (s.cons.CheckLink? || s.cons.ResetLink?) && s.cons.head < |s.prod| {
      assert PlaceOk(s, g, s.cons.head);
    }
  }

  lemma StoreKeeps(s: List, g: Ghost, x: Nid)
    requires Inv(s, g) && x < |s.prod| && s.prod[x].Store?
    ensures Inv(ProduceStep(s, x), g)
  {
    var s' := ProduceStep(s, x);
    assert PlaceOk(s, g, x);
    FlightNotQueued(s, g);
    if g.place[x].Queued? {
      StoreInQueue(s, g, x);
      forall w: nat | w < |g.chains| ensures WalkerOk(s', g, w) {
        StoreLeavesPlace(s, g, x, Chained(w));
        WalkerFrame(s, g, s', g, w);
      }
    } else {
      var v := g.place[x].w;
      StoreInChain(s, g, x, v);
      StoreLeavesQueue(s, g, x, v);
      forall w: nat | w < |g.chains| ensures WalkerOk(s', g, w) {
        if w != v {
          StoreLeavesPlace(s, g, x, Chained(w));
          WalkerFrame(s, g, s', g, w);
        }
      }
    }
    forall y: Nid | y < |s.prod| ensures PlaceOk(s', g, y) {
      assert PlaceOk(s, g, y);
      StorePlace(s, g, x, y);
    }
  }

  /** The node x links to is where x is. */
  lemma PrevPlace(s: List, g: Ghost, x: Nid)
    requires Inv(s, g) && x < |s.prod| && s.prod[x].Store? && s.prod[x].prev.Some?
    ensures s.prod[x].prev.value < |s.prod| && g.place[s.prod[x].prev.value] == g.place[x]
    ensures g.place[x].Queued? || g.place[x].Chained?
  {
    assert PlaceOk(s, g, x);
    FlightNotQueued(s, g);
    if g.place[x].Queued? {
      StoreInQueue(s, g, x);
      assert PlaceOk(s, g, s.prod[x].prev.value);
    } else {
      StoreInChain(s, g, x, g.place[x].w);
      assert WalkerOk(s, g, g.place[x].w);
    }
  }

  lemma StoreLeavesPlace(s: List, g: Ghost, x: Nid, p: Place)
    requires Inv(s, g) && x < |s.prod| && s.prod[x].Store? && g.place[x] != p
    ensures var s' := ProduceStep(s, x);
            forall y: Nid | y < |s.prod| && g.place[y] == p :: s'.link[y] == s.link[y] && s'.prod[y] == s.prod[y]
  {
    if s.prod[x].prev.Some? {
      PrevPlace(s, g, x);
    }
  }

  lemma StoreLeavesQueue(s: List, g: Ghost, x: Nid, v: nat)
    requires Inv(s, g) && x < |s.prod| && s.prod[x].Store? && g.place[x] == Chained(v)
    requires s.prod[x].prev.Some?
    ensures QueueOk(ProduceStep(s, x), g)
  {
    var s' := ProduceStep(s, x);
    StoreLeavesPlace(s, g, x, Queued);
    forall i | 0 <= i < |g.queue| ensures g.place[g.queue[i]] == Queued {
      assert PlaceOk(s, g, g.queue[i]);
    }
    ChainFrame(s, s', g.queue);
    PrevPlace(s, g, x);
    FlightNotQueued(s, g);
  }

  lemma StorePlace(s: List, g: Ghost, x: Nid, y: Nid)
    requires Inv(s, g) && x < |s.prod| && s.prod[x].Store? && y < |s.prod| && PlaceOk(s, g, x) && PlaceOk(s, g, y)
    ensures PlaceOk(ProduceStep(s, x), g, y)
  {
    if s.prod[x].prev.Some? {
      PrevPlace(s, g, x);
    }
  }

  // ---- the consumer ----

  /** Accesses that only move the consumer along, or hide `head`. */
  ghost predicate Quiet(c: Consume) {
    !c.ResetLink? && !c.CasEnd? && !c.StoreHead? && !c.WipeEnd? && !c.SpinLink?
  }

  lemma ConsumeQueue(s: List, g: Ghost)
    requires s.Valid() && |g.place| == |s.prod| && QueueOk(s, g) && Quiet(s.cons)
    ensures QueueOk(ConsumeStep(s), ConsumeEffect(s, g))
    ensures ConsumeEffect(s, g).queue == g.queue
  {
    ConsumeFrame(s, g.queue);
    ConsumeHead(s, g);
  }

  lemma ConsumeFrame(s: List, q: seq<Nid>)
    requires s.Valid() && ChainOk(s, q) && Quiet(s.cons)
    ensures ConsumeStep(s).link == s.link && ConsumeStep(s).prod == s.prod && ConsumeStep(s).end == s.end
    ensures ChainOk(ConsumeStep(s), q)
  {
    ChainFrame(s, ConsumeStep(s), q);
  }

  lemma ConsumeHead(s: List, g: Ghost)
    requires s.Valid() && |g.place| == |s.prod| && QueueOk(s, g) && Quiet(s.cons)
    requires ChainOk(ConsumeStep(s), g.queue)
    ensures HeadOk(ConsumeStep(s), g.queue)
  {
  }

  lemma SpinQueue(s: List, g: Ghost)
    requires s.Valid() && |g.place| == |s.prod| && QueueOk(s, g) && s.cons.SpinLink?
    ensures QueueOk(ConsumeStep(s), ConsumeEffect(s, g))
    ensures ConsumeEffect(s, g).queue == g.queue
  {
    assert Joined(s, g.queue[0], g.queue[1]);
    assert ChainOk(ConsumeStep(s), g.queue);
  }

  /** The removal of the front node: the CAS that empties the list, or the store of the new head. */
  lemma TakeQueue(s: List, g: Ghost)
    requires s.Valid() && |g.place| == |s.prod| && QueueOk(s, g)
    requires s.cons.CasEnd? || s.cons.StoreHead?
    ensures QueueOk(ConsumeStep(s), ConsumeEffect(s, g))
    ensures Take(g).queue == g.queue[1..] && g.queue != [] && s.cons.head == g.queue[0]
    ensures s.cons.StoreHead? ==> s.link[g.queue[0]] == Some(g.queue[1])
  {
    TakeFacts(s, g);
    TakeChain(s, g.queue);
    TakeHead(s, g);
  }

  lemma TakeFacts(s: List, g: Ghost)
    requires s.Valid() && |g.place| == |s.prod| && QueueOk(s, g)
    requires s.cons.CasEnd? || s.cons.StoreHead?
    ensures Take(g).queue == g.queue[1..] && g.queue != [] && s.cons.head == g.queue[0]
    ensures s.cons.StoreHead? ==> |g.queue| >= 2 && s.link[g.queue[0]] == Some(g.queue[1])
    ensures s.cons.CasEnd? && s.end == Some(s.cons.head) ==> |g.queue| == 1
  {
    if s.cons.StoreHead? {
      assert Joined(s, g.queue[0], g.queue[1]);
    }
  }

  lemma TakeChain(s: List, q: seq<Nid>)
    requires s.Valid() && ChainOk(s, q) && q != [] && (s.cons.CasEnd? || s.cons.StoreHead?)
    ensures ChainOk(ConsumeStep(s), q) && ChainOk(ConsumeStep(s), q[1..])
  {
    ChainFrame(s, ConsumeStep(s), q);
  }

  lemma TakeHead(s: List, g: Ghost)
    requires s.Valid() && |g.place| == |s.prod| && QueueOk(s, g)
    requires s.cons.CasEnd? || s.cons.StoreHead?
    requires ChainOk(ConsumeStep(s), ConsumeEffect(s, g).queue)
    ensures QueueOk(ConsumeStep(s), ConsumeEffect(s, g))
  {
  }

  lemma ResetQueue(s: List, g: Ghost)
    requires s.Valid() && |g.place| == |s.prod| && QueueOk(s, g)
    requires s.cons.ResetLink? && s.cons.head !in g.queue
    ensures QueueOk(ConsumeStep(s), ConsumeEffect(s, g))
  {
    ChainFrame(s, ConsumeStep(s), g.queue);
  }

  lemma WipeQueue(s: List, g: Ghost)
    requires s.Valid() && |g.place| == |s.prod| && QueueOk(s, g) && s.cons.WipeEnd?
    ensures QueueOk(ConsumeStep(s), ConsumeEffect(s, g))
    ensures g.queue != [] && s.end == Some(g.queue[|g.queue| - 1]) && s.cons.head == g.queue[0] && s.prod[g.queue[0]].Still?
  {
  }

  lemma TakePlaces(s: List, g: Ghost, x: Nid)
    requires Inv(s, g) && x < |s.prod| && (s.cons.CasEnd? || s.cons.StoreHead?)
    ensures |ConsumeEffect(s, g).place| == |s.prod| && PlaceOk(ConsumeStep(s), ConsumeEffect(s, g), x)
  {
    assert PlaceOk(s, g, x);
    TakeQueue(s, g);
    assert x in g.queue <==> x == g.queue[0] || x in g.queue[1..];
  }

  lemma ConsumePlaces(s: List, g: Ghost, x: Nid)
    requires Inv(s, g) && x < |s.prod|
    ensures |ConsumeEffect(s, g).place| == |s.prod| && PlaceOk(ConsumeStep(s), ConsumeEffect(s, g), x)
  {
    assert PlaceOk(s, g, x);
    if s.cons.CasEnd? || s.cons.StoreHead? {
      TakePlaces(s, g, x);
    }
  }

  lemma ConsumeSizes(s: List, g: Ghost, w: nat)
    requires Inv(s, g) && w < |g.chains|
    ensures var s', g' := ConsumeStep(s), ConsumeEffect(s, g);
      && s'.Valid() && |s'.prod| == |s.prod| == |g'.place|
      && |g'.chains| == |s'.walks| == |g'.given| == |g'.done| >= |g.chains|
      && s'.walks[w] == s.walks[w] && g'.chains[w] == g.chains[w] && g'.given[w] == g.given[w] && g'.done[w] == g.done[w]
  {
  }

  /** The consumer touches no node of a detached chain. */
  lemma ConsumeLeavesChains(s: List, g: Ghost, w: nat, x: Nid)
    requires Inv(s, g) && x < |s.prod| && g.place[x] == Chained(w)
    ensures var s', g' := ConsumeStep(s), ConsumeEffect(s, g);
      |g'.place| == |s.prod| && s'.link[x] == s.link[x] && s'.prod[x] == s.prod[x] && g'.place[x] == g.place[x]
  {
    assert PlaceOk(s, g, x);
    FlightNotQueued(s, g);
    if s.cons.WipeEnd? {
      WipeQueue(s, g);
    }
    if s.cons.CasEnd? || s.cons.StoreHead? {
      TakeQueue(s, g);
    }
  }

  lemma ConsumeWalkers(s: List, g: Ghost, w: nat)
    requires Inv(s, g) && w < |g.chains|
    ensures var s', g' := ConsumeStep(s), ConsumeEffect(s, g);
            |g'.chains| == |s'.walks| == |g'.given| == |g'.done| >= |g.chains| && |g'.place| == |s.prod| && WalkerOk(s', g', w)
  {
    var s', g' := ConsumeStep(s), ConsumeEffect(s, g);
    ConsumeSizes(s, g, w);
    assert WalkerOk(s, g, w);
    forall x: Nid | x < |s.prod| && g.place[x] == Chained(w)
      ensures s'.link[x] == s.link[x] && s'.prod[x] == s.prod[x] && g'.place[x] == g.place[x]
    {
      ConsumeLeavesChains(s, g, w, x);
    }
    WalkerFrame(s, g, s', g', w);
  }

  lemma ConsumeKeeps(s: List, g: Ghost)
    requires Inv(s, g)
    ensures Inv(ConsumeStep(s), ConsumeEffect(s, g))
  {
    var s', g' := ConsumeStep(s), ConsumeEffect(s, g);
    FlightNotQueued(s, g);
    forall x: Nid | x < |s.prod| ensures |g'.place| == |s.prod| && PlaceOk(s', g', x) {
      ConsumePlaces(s, g, x);
    }
    forall w: nat | w < |g.chains|
      ensures |g'.chains| == |s'.walks| == |g'.given| == |g'.done| >= |g.chains| && |g'.place| == |s.prod| && WalkerOk(s', g', w)
    {
      ConsumeWalkers(s, g, w);
    }
    match s.cons
    case CasEnd(_) => TakeQueue(s, g);
    case StoreHead(_, _) => TakeQueue(s, g);
    case ResetLink(_) => ResetQueue(s, g);
    case SpinLink(_) => SpinQueue(s, g);
    case WipeEnd(_) =>
      WipeQueue(s, g);
      WipeKeeps(s, g);
    case _ => ConsumeQueue(s, g);
  }

  lemma WipeSizes(s: List, g: Ghost)
    requires Inv(s, g) && s.cons.WipeEnd?
    ensures var s', g' := ConsumeStep(s), ConsumeEffect(s, g);
      && s'.Valid() && s'.link == s.link && s'.prod == s.prod && |g'.place| == |s'.prod|
      && |g'.chains| == |s'.walks| == |g'.given| == |g'.done| == |g.chains| + 1
      && g'.chains[|g.chains|] == g'.given[|g.chains|] == g.queue && g'.done[|g.chains|] == []
      && g.queue != [] && s'.walks[|g.chains|] == At(g.queue[0], g.queue[|g.queue| - 1]) && s.prod[g.queue[0]].Still?
      && (forall i | 0 <= i < |g.queue| :: g.queue[i] < |g'.place| && g'.place[g.queue[i]] == Chained(|g.chains|))
  {
    WipeQueue(s, g);
  }

  lemma WipeWalker(s: List, g: Ghost)
    requires Inv(s, g) && s.cons.WipeEnd?
    ensures var s', g' := ConsumeStep(s), ConsumeEffect(s, g);
      && s'.Valid() && |g'.place| == |s'.prod|
      && |g'.chains| == |s'.walks| == |g'.given| == |g'.done| == |g.chains| + 1
      && WalkerOk(s', g', |g.chains|)
  {
    WipeSizes(s, g);
    ChainFrame(s, ConsumeStep(s), g.queue);
  }

  lemma WipeRest(s: List, g: Ghost)
    requires Inv(s, g) && s.cons.WipeEnd?
    ensures var s', g' := ConsumeStep(s), ConsumeEffect(s, g);
      s'.Valid() && |g'.place| == |s'.prod| == |s.prod| && QueueOk(s', g')
  {
    WipeQueue(s, g);
  }

  lemma WipePlaces(s: List, g: Ghost)
    requires Inv(s, g) && s.cons.WipeEnd?
    ensures var s', g' := ConsumeStep(s), ConsumeEffect(s, g);
      && s'.Valid() && |s'.prod| == |s.prod| == |g'.place|
      && forall x: Nid | x < |s.prod| :: PlaceOk(s', g', x)
  {
    var s', g' := ConsumeStep(s), ConsumeEffect(s, g);
    forall x: Nid | x < |s.prod| ensures |s'.prod| == |s.prod| == |g'.place| && PlaceOk(s', g', x) {
      ConsumePlaces(s, g, x);
    }
  }

  lemma WipeOne(s: List, g: Ghost, w: nat)
    requires Inv(s, g) && s.cons.WipeEnd? && w <= |g.chains|
    ensures var s', g' := ConsumeStep(s), ConsumeEffect(s, g);
      |g'.chains| == |s'.walks| == |g'.given| == |g'.done| == |g.chains| + 1 && WalkerOk(s', g', w)
  {
    if w < |g.chains| {
      WipeSizes(s, g);
      ConsumeWalkers(s, g, w);
    } else {
      WipeWalker(s, g);
    }
  }

  lemma WipeWalkers(s: List, g: Ghost)
    requires Inv(s, g) && s.cons.WipeEnd?
    ensures var s', g' := ConsumeStep(s), ConsumeEffect(s, g);
      && |g'.chains| == |s'.walks| == |g'.given| == |g'.done| == |g.chains| + 1
      && forall w: nat | w < |g'.chains| :: WalkerOk(s', g', w)
  {
    WipeOne(s, g, 0);
    forall w: nat | w <= |g.chains| ensures WalkerOk(ConsumeStep(s), ConsumeEffect(s, g), w) {
      WipeOne(s, g, w);
    }
  }

  /** The detached queue becomes a new walk's chain. */
  lemma WipeKeeps(s: List, g: Ghost)
    requires Inv(s, g) && s.cons.WipeEnd?
    ensures Inv(ConsumeStep(s), ConsumeEffect(s, g))
  {
    WipeRest(s, g);
    WipePlaces(s, g);
    WipeWalkers(s, g);
  }

  // ---- the walks ----

  lemma PassChain(s: List, g: Ghost, w: nat)
    requires s.Valid() && |g.place| == |s.prod| && w < |g.chains| == |s.walks| == |g.given| == |g.done| && WalkerOk(s, g, w)
    requires s.walks[w].Passing?
    ensures WalkerOk(WalkStep(s, w), Effect(s, g, WalkOn(w)), w)
    ensures s.walks[w].node < |s.prod| && g.place[s.walks[w].node] == Chained(w)
  {
    var s', c := WalkStep(s, w), g.chains[w];
    assert g.done[w] + c == (g.done[w] + [c[0]]) + c[1..];
    assert ChainOk(s', c[1..]);
  }

  lemma WalkChain(s: List, g: Ghost, w: nat)
    requires s.Valid() && |g.place| == |s.prod| && w < |g.chains| == |s.walks| == |g.given| == |g.done| && WalkerOk(s, g, w)
    ensures WalkerOk(WalkStep(s, w), Effect(s, g, WalkOn(w)), w)
    ensures s.walks[w].Passing? ==> s.walks[w].node < |s.prod| && g.place[s.walks[w].node] == Chained(w)
  {
    var c := g.chains[w];
    if s.walks[w].Passing? {
      PassChain(s, g, w);
    } else if s.walks[w].At? && |c| > 1 {
      assert Joined(s, c[0], c[1]);
    }
  }

  /** Of a detached chain only the node passed changes its place, and no link but its own. */
  lemma PassPlace(s: List, g: Ghost, w: nat, x: Nid)
    requires Inv(s, g) && w < |s.walks| && x < |s.prod| && s.walks[w].Passing?
    ensures |Effect(s, g, WalkOn(w)).place| == |s.prod| && PlaceOk(WalkStep(s, w), Effect(s, g, WalkOn(w)), x)
  {
    assert PlaceOk(s, g, x);
    assert WalkerOk(s, g, w);
    var c := g.chains[w];
    assert x in c <==> x == c[0] || x in c[1..];
    FlightNotQueued(s, g);
  }

  lemma WalkPlace(s: List, g: Ghost, w: nat, x: Nid)
    requires Inv(s, g) && w < |s.walks| && x < |s.prod|
    ensures |Effect(s, g, WalkOn(w)).place| == |s.prod| && PlaceOk(WalkStep(s, w), Effect(s, g, WalkOn(w)), x)
  {
    assert PlaceOk(s, g, x);
    if s.walks[w].Passing? {
      PassPlace(s, g, w, x);
    }
  }

  lemma WalkQueue(s: List, g: Ghost, w: nat)
    requires Inv(s, g) && w < |s.walks|
    ensures QueueOk(WalkStep(s, w), g)
  {
    assert WalkerOk(s, g, w);
    WalkChain(s, g, w);
    forall i | 0 <= i < |g.queue| ensures g.place[g.queue[i]] == Queued {
      assert PlaceOk(s, g, g.queue[i]);
    }
    ChainFrame(s, WalkStep(s, w), g.queue);
    FlightNotQueued(s, g);
  }

  lemma WalkLeavesOthers(s: List, g: Ghost, w: nat, v: nat)
    requires Inv(s, g) && w < |s.walks| && v < |g.chains| && v != w
    ensures var s', g' := WalkStep(s, w), Effect(s, g, WalkOn(w));
      |g'.chains| == |s'.walks| == |g'.given| == |g'.done| == |g.chains| && WalkerOk(s', g', v)
  {
    assert WalkerOk(s, g, w) && WalkerOk(s, g, v);
    WalkChain(s, g, w);
    WalkerFrame(s, g, WalkStep(s, w), Effect(s, g, WalkOn(w)), v);
  }

  lemma WalkKeeps(s: List, g: Ghost, w: nat)
    requires Inv(s, g) && w < |s.walks|
    ensures Inv(WalkStep(s, w), Effect(s, g, WalkOn(w)))
  {
    var s', g' := WalkStep(s, w), Effect(s, g, WalkOn(w));
    assert WalkerOk(s, g, w);
    WalkChain(s, g, w);
    WalkQueue(s, g, w);
    forall x: Nid | x < |s.prod| ensures |g'.place| == |s.prod| && PlaceOk(s', g', x) {
      WalkPlace(s, g, w, x);
    }
    forall v: nat | v < |g.chains| ensures WalkerOk(s', g', v) {
      if v != w {
        WalkLeavesOthers(s, g, w, v);
      }
    }
  }

  // ------------------------------------------------------------------
  // Every step, every run
  // ------------------------------------------------------------------

  lemma BeginKeeps(s: List, g: Ghost, act: Act)
    requires Inv(s, g) && Enabled(s, g, act) && !act.Produce? && !act.Consume? && !act.WalkOn?
    ensures Inv(Step(s, g, act), g)
  {
    var s' := Step(s, g, act);
    forall x: Nid | x < |s.prod| ensures PlaceOk(s', g, x) {
      assert PlaceOk(s, g, x);
    }
    forall i | 0 <= i < |g.queue| ensures g.place[g.queue[i]] == Queued {
      assert PlaceOk(s, g, g.queue[i]);
    }
    ChainFrame(s, s', g.queue);
    forall w: nat | w < |g.chains| ensures WalkerOk(s', g, w) {
      WalkerFrame(s, g, s', g, w);
    }
  }

  lemma StayKeeps(s: List, g: Ghost, x: Nid)
    requires Inv(s, g) && x < |s.prod| && (s.prod[x].LoadEmpty? || (s.prod[x].CasEmpty? && s.end != None))
    ensures Inv(ProduceStep(s, x), g)
  {
    var s' := ProduceStep(s, x);
    assert PlaceOk(s, g, x);
    forall y: Nid | y < |s.prod| ensures PlaceOk(s', g, y) {
      assert PlaceOk(s, g, y);
    }
    assert x !in g.queue;
    ChainFrame(s, s', g.queue);
    forall w: nat | w < |g.chains| ensures WalkerOk(s', g, w) {
      WalkerFrame(s, g, s', g, w);
    }
  }

  lemma StepKeeps(s: List, g: Ghost, act: Act)
    requires Inv(s, g) && Enabled(s, g, act)
    ensures Inv(Step(s, g, act), Effect(s, g, act))
  {
    match act
    case Produce(x) =>
      match s.prod[x] {
        case Still =>
        case ExchangeEnd => JoinKeeps(s, g, x);
        case LoadEmpty => StayKeeps(s, g, x);
        case CasEmpty => if s.end == None { JoinKeeps(s, g, x); } else { StayKeeps(s, g, x); }
        case Store(_) => StoreKeeps(s, g, x);
      }
    case Consume => ConsumeKeeps(s, g);
    case WalkOn(w) => WalkKeeps(s, g, w);
    case _ => BeginKeeps(s, g, act);
  }

  /** A run: states and ghosts in lockstep, every act allowed to its caller. */
  ghost predicate IsRun(states: seq<List>, ghosts: seq<Ghost>, acts: seq<Act>, nodes: nat)
  {
    && |states| == |ghosts| == |acts| + 1
    && states[0] == Init(nodes) && ghosts[0] == Ghost([], [], seq(nodes, i => Loose), [], [])
    && (forall i | 0 <= i < |acts| ::
          && states[i].Valid() && |ghosts[i].place| == |states[i].prod| && Enabled(states[i], ghosts[i], acts[i])
          && states[i + 1] == Step(states[i], ghosts[i], acts[i])
          && ghosts[i + 1] == Effect(states[i], ghosts[i], acts[i]))
  }

  lemma {:induction false} RunKeeps(states: seq<List>, ghosts: seq<Ghost>, acts: seq<Act>, nodes: nat, i: nat)
    requires IsRun(states, ghosts, acts, nodes) && i <= |acts|
    ensures Inv(states[i], ghosts[i])
  {
    if i == 0 {
      InitOk(nodes);
    } else {
      RunKeeps(states, ghosts, acts, nodes, i - 1);
      StepKeeps(states[i - 1], ghosts[i - 1], acts[i - 1]);
    }
  }

  /** What the consumer has removed: a single node, or the chain that walk w goes over. */
  datatype Removal = One(x: Nid) | Chain(w: nat)

  /** The node appended by an act: the exchange on `end`, or the CAS on an empty list. */
  function Appending(s: List, act: Act): seq<Nid> {
    if act.Produce? && act.x < |s.prod| && (s.prod[act.x].ExchangeEnd? || (s.prod[act.x].CasEmpty? && s.end == None))
    then [act.x] else []
  }

  /** What an act removes, as the consumer's own variables tell: the node it returns, or the chain from
      the head it has read to the end it has exchanged. */
  function Removing(s: List, act: Act): seq<Removal> {
    if !act.Consume? then []
    else match s.cons
      case CasEnd(head) => if s.end == Some(head) then [One(head)] else []
      case StoreHead(head, _) => [One(head)]
      case WipeEnd(_) => if s.end == None then [] else [Chain(|s.walks|)]
      case _ => []
  }

  /** The node that walk w returns with an act. */
  function Visiting(s: List, act: Act, w: nat): seq<Nid> {
    if act == WalkOn(w) && w < |s.walks| && s.walks[w].Passing? then [s.walks[w].node] else []
  }

  /** The same over the first i acts of a run. */
  function Appended(states: seq<List>, acts: seq<Act>, i: nat): seq<Nid>
    requires i <= |acts| < |states|
  {
    if i == 0 then [] else Appended(states, acts, i - 1) + Appending(states[i - 1], acts[i - 1])
  }

  function Removed(states: seq<List>, acts: seq<Act>, i: nat): seq<Removal>
    requires i <= |acts| < |states|
  {
    if i == 0 then [] else Removed(states, acts, i - 1) + Removing(states[i - 1], acts[i - 1])
  }

  function Visited(states: seq<List>, acts: seq<Act>, i: nat, w: nat): seq<Nid>
    requires i <= |acts| < |states|
  {
    if i == 0 then [] else Visited(states, acts, i - 1, w) + Visiting(states[i - 1], acts[i - 1], w)
  }

  ghost function NodesOf(r: Removal, given: seq<seq<Nid>>): seq<Nid> {
    match r
    case One(x) => [x]
    case Chain(w) => if w < |given| then given[w] else []
  }

  /** The nodes removed, chain w being the nodes given[w]. */
  ghost function Nodes(removed: seq<Removal>, given: seq<seq<Nid>>): seq<Nid> {
    if removed == [] then [] else Nodes(removed[..|removed| - 1], given) + NodesOf(removed[|removed| - 1], given)
  }

  ghost predicate Detached(removed: seq<Removal>, n: nat) {
    forall i | 0 <= i < |removed| && removed[i].Chain? :: removed[i].w < n
  }

  lemma NodesMore(removed: seq<Removal>, r: Removal, given: seq<seq<Nid>>)
    ensures Nodes(removed + [r], given) == Nodes(removed, given) + NodesOf(r, given)
  {
    assert (removed + [r])[..|removed|] == removed;
  }

  lemma NodesSingle(r: Removal, given: seq<seq<Nid>>)
    ensures Nodes([r], given) == NodesOf(r, given)
  {
    assert [r][..0] == [];
  }

  lemma Regroup<T>(a: seq<T>, b: seq<T>, c: seq<T>)
    ensures a + (b + c) == (a + b) + c
  {
  }

  lemma {:induction false} NodesJoin(removed: seq<Removal>, more: seq<Removal>, given: seq<seq<Nid>>)
    ensures Nodes(removed + more, given) == Nodes(removed, given) + Nodes(more, given)
  {
    if more == [] {
      assert removed + more == removed;
    } else {
      var front, last := more[..|more| - 1], more[|more| - 1];
      assert more == front + [last];
      NodesJoin(removed, front, given);
      JoinLast(removed, front, last, given);
    }
  }

  lemma JoinLast(removed: seq<Removal>, front: seq<Removal>, last: Removal, given: seq<seq<Nid>>)
    requires Nodes(removed + front, given) == Nodes(removed, given) + Nodes(front, given)
    ensures Nodes(removed + (front + [last]), given) == Nodes(removed, given) + Nodes(front + [last], given)
  {
    Regroup(removed, front, [last]);
    NodesMore(removed + front, last, given);
    NodesMore(front, last, given);
    Regroup(Nodes(removed, given), Nodes(front, given), NodesOf(last, given));
  }

  /** Chains detached later do not matter. */
  lemma {:induction false} NodesFrame(removed: seq<Removal>, given: seq<seq<Nid>>, given': seq<seq<Nid>>)
    requires Detached(removed, |given|) && given <= given'
    ensures Nodes(removed, given') == Nodes(removed, given)
  {
    if removed != [] {
      NodesFrame(removed[..|removed| - 1], given, given');
    }
  }

  lemma TakeOut(r: seq<Removal>, x: Nid, q: seq<Nid>, q': seq<Nid>, given: seq<seq<Nid>>)
    requires q != [] && x == q[0] && ((r == [One(x)] && q' == q[1..]) || (r == [] && q' == q))
    ensures Nodes(r, given) + q' == q
  {
    NodesSingle(One(x), given);
    assert [x] + q[1..] == q;
  }

  lemma TakeMoves(s: List, g: Ghost)
    requires Inv(s, g) && (s.cons.CasEnd? || s.cons.StoreHead?)
    ensures Nodes(Removing(s, Consume), g.given) + ConsumeEffect(s, g).queue == g.queue
  {
    var x := TakenNode(s, g);
    TakeOut(Removing(s, Consume), x, g.queue, ConsumeEffect(s, g).queue, g.given);
  }

  lemma TakenNode(s: List, g: Ghost) returns (x: Nid)
    requires Inv(s, g) && (s.cons.CasEnd? || s.cons.StoreHead?)
    ensures g.queue != [] && x == g.queue[0]
    ensures (Removing(s, Consume) == [One(x)] && ConsumeEffect(s, g).queue == g.queue[1..])
            || (Removing(s, Consume) == [] && ConsumeEffect(s, g).queue == g.queue)
  {
    TakeQueue(s, g);
    x := g.queue[0];
  }

  lemma WipeOut(n: nat, q: seq<Nid>, given: seq<seq<Nid>>)
    requires n == |given|
    ensures Nodes([Chain(n)], given + [q]) + [] == q
  {
    NodesSingle(Chain(n), given + [q]);
  }

  lemma WipeMoves(s: List, g: Ghost)
    requires Inv(s, g) && s.cons.WipeEnd?
    ensures var g' := ConsumeEffect(s, g);
      && g'.given == g.given + [g.queue] && g'.done == g.done + [[]] && |s.walks| == |g.given|
      && Removing(s, Consume) == [Chain(|s.walks|)]
      && Nodes(Removing(s, Consume), g'.given) + g'.queue == g.queue
  {
    WipeQueue(s, g);
    WipeOut(|s.walks|, g.queue, g.given);
    assert ConsumeEffect(s, g).queue == [];
  }

  /** What a step removes leaves the front of the queue, and what it appends goes to the end. */
  lemma ConsumeMoves(s: List, g: Ghost)
    requires Inv(s, g)
    ensures var g' := ConsumeEffect(s, g);
      && g.given <= g'.given && Detached(Removing(s, Consume), |g'.given|)
      && Nodes(Removing(s, Consume), g'.given) + g'.queue == g.queue
      && |g'.done| == |g'.given| && forall w: nat | w < |g'.done| :: g'.done[w] == if w < |g.done| then g.done[w] else []
  {
    if s.cons.CasEnd? || s.cons.StoreHead? {
      TakeMoves(s, g);
    } else if s.cons.WipeEnd? {
      WipeMoves(s, g);
    }
  }

  lemma ProduceMoves(s: List, g: Ghost, act: Act)
    requires Inv(s, g) && Enabled(s, g, act) && !act.Consume? && !act.WalkOn?
    ensures var g' := Effect(s, g, act);
      g'.given == g.given && g'.done == g.done && Removing(s, act) == [] && g'.queue == g.queue + Appending(s, act)
  {
  }

  lemma WalkMoves(s: List, g: Ghost, w: nat)
    requires Inv(s, g) && w < |s.walks|
    ensures var g' := Effect(s, g, WalkOn(w));
      && g'.given == g.given && g'.queue == g.queue && |g'.done| == |g.done|
      && forall v: nat | v < |g.done| :: g'.done[v] == g.done[v] + Visiting(s, WalkOn(w), v)
  {
    assert WalkerOk(s, g, w);
    WalkChain(s, g, w);
  }

  lemma OutOrIn(q: seq<Nid>, q': seq<Nid>, given: seq<seq<Nid>>, r: seq<Removal>, a: seq<Nid>)
    requires (a == [] && Nodes(r, given) + q' == q) || (r == [] && q' == q + a)
    ensures Nodes(r, given) + q' == q + a
  {
    assert q + [] == q && [] + q' == q';
  }

  lemma StepVisits(s: List, g: Ghost, act: Act)
    requires Inv(s, g) && Enabled(s, g, act)
    ensures var g' := Effect(s, g, act);
      && |g'.done| == |g'.given|
      && forall w: nat | w < |g'.done| :: g'.done[w] == (if w < |g.done| then g.done[w] else []) + Visiting(s, act, w)
  {
    match act
    case Consume => ConsumeMoves(s, g);
    case WalkOn(w) => WalkMoves(s, g, w);
    case _ => ProduceMoves(s, g, act);
  }

  lemma StepMoves(s: List, g: Ghost, act: Act)
    requires Inv(s, g) && Enabled(s, g, act)
    ensures var g' := Effect(s, g, act);
      && g.given <= g'.given && Detached(Removing(s, act), |g'.given|)
      && Nodes(Removing(s, act), g'.given) + g'.queue == g.queue + Appending(s, act)
  {
    match act {
      case Consume => ConsumeMoves(s, g);
      case WalkOn(w) => WalkMoves(s, g, w);
      case _ => ProduceMoves(s, g, act);
    }
    var g' := Effect(s, g, act);
    OutOrIn(g.queue, g'.queue, g'.given, Removing(s, act), Appending(s, act));
  }

  /** The histories of a run and the queue it has left. */
  ghost predicate Recorded(appended: seq<Nid>, removed: seq<Removal>, g: Ghost) {
    appended == Nodes(removed, g.given) + g.queue && Detached(removed, |g.given|)
  }

  lemma RecordedMore(appended: seq<Nid>, removed: seq<Removal>, g: Ghost, a: seq<Nid>, r: seq<Removal>, g': Ghost)
    requires Recorded(appended, removed, g) && g.given <= g'.given && Detached(r, |g'.given|)
    requires Nodes(r, g'.given) + g'.queue == g.queue + a
    ensures Recorded(appended + a, removed + r, g')
  {
    NodesFrame(removed, g.given, g'.given);
    NodesJoin(removed, r, g'.given);
    assert appended + a == Nodes(removed, g'.given) + (g.queue + a);
    assert Nodes(removed, g'.given) + (Nodes(r, g'.given) + g'.queue) == Nodes(removed + r, g'.given) + g'.queue;
  }

  /** Linearizability to a FIFO queue: in every run the nodes the consumer has returned or detached, in
      that order, and then the queue, are the nodes in the order of the exchanges on `end`, each append
      once. Of each detached chain the walk has returned the first nodes, and all of them when it is over. */
  lemma LinearizesToFifo(states: seq<List>, ghosts: seq<Ghost>, acts: seq<Act>, nodes: nat, i: nat)
    requires IsRun(states, ghosts, acts, nodes) && i <= |acts|
    ensures Appended(states, acts, i) == Nodes(Removed(states, acts, i), ghosts[i].given) + ghosts[i].queue
    ensures Detached(Removed(states, acts, i), |states[i].walks|) && |ghosts[i].given| == |ghosts[i].chains| == |states[i].walks|
    ensures forall w: nat | w < |states[i].walks| ::
              && ghosts[i].given[w] == Visited(states, acts, i, w) + ghosts[i].chains[w]
              && (states[i].walks[w].Over? ==> ghosts[i].chains[w] == [])
    ensures !states[i].cons.Unreachable?
  {
    HistoriesAgree(states, ghosts, acts, nodes, i);
    RunKeeps(states, ghosts, acts, nodes, i);
    forall w: nat | w < |states[i].walks|
      ensures ghosts[i].given[w] == Visited(states, acts, i, w) + ghosts[i].chains[w]
      ensures states[i].walks[w].Over? ==> ghosts[i].chains[w] == []
    {
      assert WalkerOk(states[i], ghosts[i], w);
    }
  }

  lemma {:induction false} HistoriesAgree(states: seq<List>, ghosts: seq<Ghost>, acts: seq<Act>, nodes: nat, i: nat)
    requires IsRun(states, ghosts, acts, nodes) && i <= |acts|
    ensures Recorded(Appended(states, acts, i), Removed(states, acts, i), ghosts[i])
    ensures forall w: nat :: (if w < |ghosts[i].done| then ghosts[i].done[w] else []) == Visited(states, acts, i, w)
  {
    if i > 0 {
      var s, g, act := states[i - 1], ghosts[i - 1], acts[i - 1];
      HistoriesAgree(states, ghosts, acts, nodes, i - 1);
      RunKeeps(states, ghosts, acts, nodes, i - 1);
      StepMoves(s, g, act);
      StepVisits(s, g, act);
      RecordedMore(Appended(states, acts, i - 1), Removed(states, acts, i - 1), g, Appending(s, act), Removing(s, act), ghosts[i]);
    }
  }

  /** Each clear detached a contiguous piece of the appends, which begins after everything removed
      before it. */
  lemma ClearIsContiguous(states: seq<List>, ghosts: seq<Ghost>, acts: seq<Act>, nodes: nat, i: nat, j: nat)
    requires IsRun(states, ghosts, acts, nodes) && i <= |acts|
    requires j < |Removed(states, acts, i)| && Removed(states, acts, i)[j].Chain?
    ensures var w, k := Removed(states, acts, i)[j].w, |Nodes(Removed(states, acts, i)[..j], ghosts[i].given)|;
      && w < |ghosts[i].given| && k + |ghosts[i].given[w]| <= |Appended(states, acts, i)|
      && Appended(states, acts, i)[k..k + |ghosts[i].given[w]|] == ghosts[i].given[w]
  {
    LinearizesToFifo(states, ghosts, acts, nodes, i);
    PieceOf(Removed(states, acts, i), ghosts[i].given, ghosts[i].queue, j);
  }

  lemma PieceOf(removed: seq<Removal>, given: seq<seq<Nid>>, queue: seq<Nid>, j: nat)
    requires j < |removed|
    ensures var (before, piece, all) := (Nodes(removed[..j], given), NodesOf(removed[j], given), Nodes(removed, given) + queue);
      |before| + |piece| <= |all| && all[|before|..|before| + |piece|] == piece
  {
    var (front, back) := (removed[..j], removed[j + 1..]);
    assert removed == (front + [removed[j]]) + back;
    NodesJoin(front + [removed[j]], back, given);
    NodesMore(front, removed[j], given);
    Middle(Nodes(front, given), NodesOf(removed[j], given), Nodes(back, given), queue);
  }

  lemma Middle<T>(a: seq<T>, b: seq<T>, c: seq<T>, d: seq<T>)
    ensures |a| + |b| <= |((a + b) + c) + d| && (((a + b) + c) + d)[|a|..|a| + |b|] == b
  {
  }

  /** A node that is in no list has a NULL link: a thread that has been dequeued runs with a NULL
      `al_node`. */
  lemma LooseLinkIsNull(states: seq<List>, ghosts: seq<Ghost>, acts: seq<Act>, nodes: nat, i: nat, x: Nid)
    requires IsRun(states, ghosts, acts, nodes) && i <= |acts|
    requires x < |states[i].link| && x < |ghosts[i].place| && ghosts[i].place[x].Loose?
    ensures states[i].link[x] == None
  {
    RunKeeps(states, ghosts, acts, nodes, i);
    assert PlaceOk(states[i], ghosts[i], x);
  }

  /** What the operations report: append returns 0, al_append_empty succeeds and a deletion or a
      clear returns NULL exactly when the queue is empty at the deciding access; a removal returns
      the front of the queue, and as `next` the node that becomes the new front. */
  lemma ReportsAreExact(s: List, g: Ghost, x: Nid)
    requires Inv(s, g) && x < |s.prod|
    ensures s.prod[x].ExchangeEnd? ==> (ProduceStep(s, x).prod[x] == Store(None) <==> g.queue == [])
    ensures s.prod[x].CasEmpty? ==> (ProduceStep(s, x).prod[x] == Store(None) <==> g.queue == [])
    ensures s.cons.FrontLoadEnd? || s.cons.WipeLoadEnd? ==> (ConsumeStep(s).cons.Rest? <==> g.queue == [])
    ensures s.cons.CasEnd? || s.cons.StoreHead? ==> g.queue != [] && s.cons.head == g.queue[0]
    ensures s.cons.StoreHead? ==> ConsumeEffect(s, g).queue != [] && s.cons.next == ConsumeEffect(s, g).queue[0]
    ensures s.cons.WipeEnd? ==> g.queue != [] && ConsumeStep(s).walks == s.walks + [At(g.queue[0], g.queue[|g.queue| - 1])]
  {
    if s.cons.CasEnd? || s.cons.StoreHead? {
      TakeQueue(s, g);
    }
    if s.cons.WipeEnd? {
      WipeQueue(s, g);
    }
  }

  // ------------------------------------------------------------------
  // Spin loops
  // ------------------------------------------------------------------

  /** A NULL `head` under a non-empty queue, seen by a consumer that spins on it, is owed by the
      producer of the front node; a NULL link seen by the consumer or by a walk is owed by the
      producer of the next node. That producer's next step stores it. */
  lemma SpinIsOwed(s: List, g: Ghost)
    requires Inv(s, g)
    ensures (s.cons.FrontSpinHead? || s.cons.WipeSpinHead? || (s.cons.ForceSpinHead? && g.queue != [])) && s.head == None ==>
              g.queue[0] < |s.prod| && s.prod[g.queue[0]] == Store(None) && ProduceStep(s, g.queue[0]).head == Some(g.queue[0])
    ensures s.cons.SpinLink? && s.Link(s.cons.head) == None ==>
              |g.queue| >= 2 && g.queue[1] < |s.prod| && s.prod[g.queue[1]] == Store(Some(s.cons.head))
              && ProduceStep(s, g.queue[1]).Link(s.cons.head) == Some(g.queue[1])
  {
    if s.cons.SpinLink? {
      assert Joined(s, g.queue[0], g.queue[1]);
    }
  }

  lemma WalkSpinIsOwed(s: List, g: Ghost, w: nat)
    requires Inv(s, g) && w < |s.walks| && s.walks[w].At? && s.walks[w].node != s.walks[w].end
    requires s.Link(s.walks[w].node) == None
    ensures |g.chains[w]| >= 2
    ensures var y := g.chains[w][1];
            y < |s.prod| && s.prod[y] == Store(Some(s.walks[w].node)) && ProduceStep(s, y).Link(s.walks[w].node) == Some(y)
  {
    assert WalkerOk(s, g, w);
    assert Joined(s, g.chains[w][0], g.chains[w][1]);
  }

  // ------------------------------------------------------------------
  // What each call does between call and return
  // ------------------------------------------------------------------

  /** With act i a producer brings node x; up to state k its append has not ended. */
  ghost predicate Appends(states: seq<List>, ghosts: seq<Ghost>, acts: seq<Act>, nodes: nat, x: Nid, i: nat, k: nat) {
    && IsRun(states, ghosts, acts, nodes) && i < k <= |acts| && (acts[i] == Append(x) || acts[i] == AppendEmpty(x)) && x < nodes
    && (forall m | 0 <= m <= |acts| :: states[m].Valid() && |states[m].prod| == nodes)
    && forall m | i < m < k :: !states[m].prod[x].Still?
  }

  /** How often acts i to k - 1 append x. */
  function Times(states: seq<List>, acts: seq<Act>, x: Nid, i: nat, k: nat): nat
    requires i <= k <= |acts| <= |states|
  {
    if i == k then 0 else Times(states, acts, x, i, k - 1) + if Appending(states[k - 1], acts[k - 1]) == [x] then 1 else 0
  }

  /** Where an append of x is that has appended it n times. */
  ghost predicate AppendGoes(p: Produce, only: bool, n: nat) {
    match p
    case Still => n == 1 || only
    case ExchangeEnd => n == 0 && !only
    case LoadEmpty => n == 0 && only
    case CasEmpty => n == 0 && only
    case Store(_) => n == 1
  }

  lemma AppendTurn(s: List, g: Ghost, act: Act, x: Nid, only: bool, n: nat)
    requires s.Valid() && |g.place| == |s.prod| && Enabled(s, g, act) && x < |s.prod| && !s.prod[x].Still?
    requires AppendGoes(s.prod[x], only, n)
    ensures AppendGoes(Step(s, g, act).prod[x], only, n + if Appending(s, act) == [x] then 1 else 0)
    ensures Step(s, g, act).prod[x].Still? && n == 0 ==> s.end != None && Appending(s, act) == []
  {
  }

  lemma {:induction false} AppendGoesOn(states: seq<List>, ghosts: seq<Ghost>, acts: seq<Act>, nodes: nat, x: Nid, i: nat, k: nat)
    requires Appends(states, ghosts, acts, nodes, x, i, k)
    ensures AppendGoes(states[k].prod[x], acts[i].AppendEmpty?, Times(states, acts, x, i, k))
    ensures states[k].prod[x].Still? && Times(states, acts, x, i, k) == 0 ==> states[k - 1].end != None
    decreases k
  {
    if k == i + 1 {
      assert Appending(states[i], acts[i]) == [];
      assert Times(states, acts, x, i, i) == 0;
    } else {
      AppendGoesOn(states, ghosts, acts, nodes, x, i, k - 1);
      AppendTurn(states[k - 1], ghosts[k - 1], acts[k - 1], x, acts[i].AppendEmpty?, Times(states, acts, x, i, k - 1));
    }
  }

  /** An append puts its node into the queue exactly once before it ends; al_append_empty does so, or ends
      because it has found the list not empty. */
  lemma AppendAnswers(states: seq<List>, ghosts: seq<Ghost>, acts: seq<Act>, nodes: nat, x: Nid, i: nat, j: nat)
    requires Appends(states, ghosts, acts, nodes, x, i, j) && states[j].prod[x].Still?
    ensures acts[i].Append? ==> Times(states, acts, x, i, j) == 1
    ensures acts[i].AppendEmpty? ==> Times(states, acts, x, i, j) == 1 || (Times(states, acts, x, i, j) == 0 && ghosts[j - 1].queue != [])
  {
    AppendGoesOn(states, ghosts, acts, nodes, x, i, j);
    RunKeeps(states, ghosts, acts, nodes, j - 1);
    if Times(states, acts, x, i, j) > 1 {
      AtMostOnce(states, ghosts, acts, nodes, x, i, j);
    }
  }

  lemma AtMostOnce(states: seq<List>, ghosts: seq<Ghost>, acts: seq<Act>, nodes: nat, x: Nid, i: nat, j: nat)
    requires Appends(states, ghosts, acts, nodes, x, i, j)
    ensures Times(states, acts, x, i, j) <= 1
  {
    AppendGoesOn(states, ghosts, acts, nodes, x, i, j);
    if j > i + 1 {
      AppendGoesOn(states, ghosts, acts, nodes, x, i, j - 1);
    }
  }

  /** With act i the consumer begins a deletion or a clear that up to state k has not ended. */
  ghost predicate Removes(states: seq<List>, ghosts: seq<Ghost>, acts: seq<Act>, nodes: nat, i: nat, k: nat) {
    && IsRun(states, ghosts, acts, nodes) && i < k <= |acts| && (acts[i].DeleteFront? || acts[i].DeleteFrontForce? || acts[i].Clear?)
    && forall m | i < m < k :: !states[m].cons.Rest?
  }

  /** What acts i to k - 1 remove. */
  function Taken(states: seq<List>, acts: seq<Act>, i: nat, k: nat): seq<Removal>
    requires i <= k <= |acts| <= |states|
  {
    if i == k then [] else Taken(states, acts, i, k - 1) + Removing(states[k - 1], acts[k - 1])
  }

  ghost predicate Deleting(c: Consume, force: bool) {
    || c.ClearHead? || c.CasEnd? || c.SpinLink? || c.StoreHead?
    || (!force && (c.FrontLoadEnd? || c.FrontSpinHead?)) || (force && (c.ForceSpinHead? || c.ForceLoadEnd?))
  }

  ghost predicate Wiping(c: Consume) {
    c.WipeLoadEnd? || c.WipeSpinHead? || c.WipeHead? || c.WipeEnd?
  }

  /** Where the consumer is that was called with `act` and has removed `taken`. */
  ghost predicate RemovalGoes(c: Consume, act: Act, taken: seq<Removal>) {
    if taken == [] then
      match act
      case DeleteFront => Deleting(c, false) || c.Rest?
      case DeleteFrontForce => Deleting(c, true)
      case _ => Wiping(c) || c.Rest?
    else
      && |taken| == 1 && (taken[0].One? <==> !act.Clear?)
      && (c.Rest? || (!act.Clear? && (c.CheckLink? || c.ResetLink?)))
  }

  lemma RemovalTurn(s: List, g: Ghost, act: Act, call: Act, taken: seq<Removal>)
    requires s.Valid() && |g.place| == |s.prod| && Enabled(s, g, act) && !s.cons.Rest? && RemovalGoes(s.cons, call, taken)
    requires !Step(s, g, act).cons.Unreachable? && (call.DeleteFront? || call.DeleteFrontForce? || call.Clear?)
    ensures RemovalGoes(Step(s, g, act).cons, call, taken + Removing(s, act))
    ensures Step(s, g, act).cons.Rest? && taken + Removing(s, act) == [] ==> s.end == None
  {
    assert taken + [] == taken && [] + Removing(s, act) == Removing(s, act);
  }

  lemma {:induction false} RemovalGoesOn(states: seq<List>, ghosts: seq<Ghost>, acts: seq<Act>, nodes: nat, i: nat, k: nat)
    requires Removes(states, ghosts, acts, nodes, i, k)
    ensures RemovalGoes(states[k].cons, acts[i], Taken(states, acts, i, k))
    ensures states[k].cons.Rest? && Taken(states, acts, i, k) == [] ==> states[k - 1].end == None
    decreases k
  {
    if k == i + 1 {
      RemovalStarts(states[i], ghosts[i], acts[i]);
      assert Taken(states, acts, i, i) == [];
      assert Taken(states, acts, i, k) == [];
    } else {
      RemovalGoesOn(states, ghosts, acts, nodes, i, k - 1);
      NeverUnreachable(states, ghosts, acts, nodes, k);
      RemovalTurn(states[k - 1], ghosts[k - 1], acts[k - 1], acts[i], Taken(states, acts, i, k - 1));
    }
  }

  lemma RemovalStarts(s: List, g: Ghost, act: Act)
    requires s.Valid() && |g.place| == |s.prod| && Enabled(s, g, act) && (act.DeleteFront? || act.DeleteFrontForce? || act.Clear?)
    ensures Removing(s, act) == [] && RemovalGoes(Step(s, g, act).cons, act, []) && !Step(s, g, act).cons.Rest?
  {
  }

  lemma NeverUnreachable(states: seq<List>, ghosts: seq<Ghost>, acts: seq<Act>, nodes: nat, k: nat)
    requires IsRun(states, ghosts, acts, nodes) && k <= |acts|
    ensures !states[k].cons.Unreachable?
  {
    RunKeeps(states, ghosts, acts, nodes, k);
  }

  /** A deletion removes one node and a clear one chain before it ends, or they end because they have found
      the queue empty; a forced deletion always removes one. */
  lemma RemovalAnswers(states: seq<List>, ghosts: seq<Ghost>, acts: seq<Act>, nodes: nat, i: nat, j: nat)
    requires Removes(states, ghosts, acts, nodes, i, j) && states[j].cons.Rest?
    ensures var taken := Taken(states, acts, i, j);
      if taken == [] then !acts[i].DeleteFrontForce? && ghosts[j - 1].queue == []
      else |taken| == 1 && (taken[0].Chain? <==> acts[i].Clear?)
  {
    RemovalGoesOn(states, ghosts, acts, nodes, i, j);
    RunKeeps(states, ghosts, acts, nodes, j - 1);
  }

  // ---- neither stops on the way ----

  function ProduceRank(p: Produce): nat {
    match p
    case Still => 0
    case Store(_) => 1
    case ExchangeEnd => 2
    case CasEmpty => 2
    case LoadEmpty => 3
  }

  function ConsumeRank(c: Consume): nat {
    match c
    case Rest => 0
    case Unreachable => 0
    case ResetLink(_) => 1
    case CheckLink(_) => 1
    case StoreHead(_, _) => 2
    case SpinLink(_) => 3
    case CasEnd(_) => 4
    case ClearHead(_) => 5
    case FrontSpinHead(_) => 6
    case FrontLoadEnd => 7
    case ForceLoadEnd(_) => 6
    case ForceSpinHead => 7
    case WipeEnd(_) => 1
    case WipeHead(_) => 2
    case WipeSpinHead => 3
    case WipeLoadEnd => 4
  }

  /** The consumer spins on a NULL word. */
  ghost predicate ConsumerSpins(s: List) {
    || ((s.cons.FrontSpinHead? || s.cons.ForceSpinHead? || s.cons.WipeSpinHead?) && s.head == None)
    || (s.cons.SpinLink? && s.Link(s.cons.head) == None)
  }

  ghost predicate WalkSpins(s: List, w: nat)
    requires w < |s.walks|
  {
    s.walks[w].At? && s.walks[w].node != s.walks[w].end && s.Link(s.walks[w].node) == None
  }

  /** An append never waits; deletion, clear and walk wait only for a `head` or link that is NULL. */
  lemma CallsEnd(s: List, g: Ghost)
    requires Inv(s, g)
    ensures forall x: Nid | x < |s.prod| && !s.prod[x].Still? :: ProduceRank(ProduceStep(s, x).prod[x]) < ProduceRank(s.prod[x])
    ensures !s.cons.Rest? && !ConsumerSpins(s) ==> ConsumeRank(ConsumeStep(s).cons) < ConsumeRank(s.cons)
    ensures forall w: nat | w < |s.walks| && !s.walks[w].Over? && !WalkSpins(s, w) :: WalkStep(s, w).walks[w] != s.walks[w]
  {
  }
}
