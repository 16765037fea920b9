/** The keyboard interrupt and the keyboard thread. The interrupt reserves a slot by counting
    `keyboard_buf_used` up, wakes the thread when it counts from 0, and stores the code; the thread takes
    codes, counts down, and sleeps when it has counted down to 0. One step is one atomic access; the
    interrupt is routed to one core, so one runs at a time. */
module Keyboard {

  const SIZE: nat := 0x20_0000        // slots
  const BATCH: nat := 0x1_0000        // codes the thread takes before it handles them
  const INDEX_WIDTH: nat := 0x1_0000  // the interrupt keeps its slot number in 16 bits

  datatype Sleeper = Nobody | Marked | Thread

  /** The interrupt. `idle` says that it hit a core without a thread, which then switches to the thread. */
  datatype Isr =
    | NoInterrupt
    | LoadUsed(code: nat, idle: bool)
    | CasUsed(code: nat, idle: bool, seen: nat)
    | CasSleeper(code: nat, idle: bool)
    | Append(code: nat)
    | TakeIndex(code: nat, switching: bool)
    | Put(code: nat, i: nat, switching: bool)
    | SwitchTo

  /** The thread; `last` is what its latest decrement of `used` found. */
  datatype Reader =
    | CasSleep | Asleep | ClearSleeper
    | Load
    | Zero(code: nat, n: nat)
    | Decrement(n: nat)
    | Peek(last: nat, n: nat)
    | ClearMark(code: nat, n: nat)
    | Handle(last: nat)

  /** `width` is the number of slots the interrupt goes round. `log` has the codes stored so far, `got`
      the codes taken. `woken` says the thread is in the run queue or switched to. */
  datatype Sys = Sys(width: nat, used: nat, ii: nat, oi: nat, buf: seq<nat>, sleeper: Sleeper, woken: bool,
                     isr: Isr, thr: Reader, log: seq<nat>, got: seq<nat>, corrupt: bool)

  /** A key event with a scan code that the tables know, or a turn of either party. */
  datatype Op = Key(code: nat, idle: bool) | IsrTurn | ReaderTurn

  function AfterLoad(s: Sys, code: nat, idle: bool, seen: nat): Sys {
    s.(isr := if seen == SIZE then NoInterrupt else CasUsed(code, idle, seen))
  }

  function IsrStep(s: Sys): Sys
    requires s.width > 0
  {
    match s.isr
    case NoInterrupt => s
    case LoadUsed(code, idle) => AfterLoad(s, code, idle, s.used)
    case CasUsed(code, idle, seen) =>
      if s.used == seen then
        s.(used := s.used + 1, isr := if seen == 0 then CasSleeper(code, idle) else TakeIndex(code, false))
      else AfterLoad(s, code, idle, s.used)
    case CasSleeper(code, idle) =>
      (match s.sleeper
       case Nobody => s.(sleeper := Marked, isr := TakeIndex(code, false))
       case Thread => s.(isr := if idle then TakeIndex(code, true) else Append(code))
       case Marked => s.(corrupt := true))
    case Append(code) =>
      // appends whatever `keyboard_sleeping_thread` holds now
      if s.sleeper.Thread? && !s.woken then s.(woken := true, isr := TakeIndex(code, false)) else s.(corrupt := true)
    case TakeIndex(code, switching) => s.(ii := s.ii + 1, isr := Put(code, s.ii % s.width, switching))
    case Put(code, i, switching) =>
      if i >= |s.buf| then s.(corrupt := true)
      else s.(buf := s.buf[i := code], log := s.log + [code], isr := if switching then SwitchTo else NoInterrupt)
    case SwitchTo => if s.woken then s.(corrupt := true) else s.(woken := true, isr := NoInterrupt)
  }

  function ReaderStep(s: Sys): Sys
    requires s.oi < |s.buf|
  {
    match s.thr
    case CasSleep =>
      (match s.sleeper
       case Nobody => s.(sleeper := Thread, thr := Asleep)
       case Marked => s.(thr := ClearSleeper)
       case Thread => s.(corrupt := true))
    case Asleep => if s.woken then s.(woken := false, thr := ClearSleeper) else s
    case ClearSleeper => s.(sleeper := Nobody, thr := Load)
    case Load => if s.buf[s.oi] == 0 then s else s.(thr := Zero(s.buf[s.oi], 1))
    case Zero(code, n) => s.(buf := s.buf[s.oi := 0], oi := (s.oi + 1) % SIZE, got := s.got + [code], thr := Decrement(n))
    case Decrement(n) =>
      if s.used == 0 then s.(corrupt := true)   // would wrap
      else s.(used := s.used - 1, thr := if n == BATCH then Handle(s.used) else Peek(s.used, n))
    case Peek(last, n) =>
      if s.buf[s.oi] == 0 then s.(thr := Handle(last))
      else if last == 1 then s.(thr := ClearMark(s.buf[s.oi], n + 1))
      else s.(thr := Zero(s.buf[s.oi], n + 1))
    case ClearMark(code, n) => s.(sleeper := Nobody, thr := Zero(code, n))
    case Handle(last) => s.(thr := if last == 1 then CasSleep else Load)
  }

  function Step(s: Sys, op: Op): Sys
    requires s.width > 0 && s.oi < |s.buf|
  {
    match op
    case Key(code, idle) => if s.isr.NoInterrupt? && code != 0 then s.(isr := LoadUsed(code, idle)) else s
    case IsrTurn => IsrStep(s)
    case ReaderTurn => ReaderStep(s)
  }

  ghost function Init(width: nat): Sys {
    Sys(width, 0, 0, 0, seq(SIZE, i => 0), Nobody, false, NoInterrupt, CasSleep, [], [], false)
  }

  // ------------------------------------------------------------------
  // The invariant
  // ------------------------------------------------------------------

  /** Counted up, code not stored yet. */
  ghost predicate Reserved(p: Isr) {
    p.CasSleeper? || p.Append? || p.TakeIndex? || p.Put?
  }

  /** Will wake the thread. */
  ghost predicate Waking(p: Isr) {
    p.CasSleeper? || p.Append? || (p.TakeIndex? && p.switching) || (p.Put? && p.switching) || p.SwitchTo?
  }

  /** The reader has counted down to 0 and not yet met the next wake-up. */
  ghost predicate Owes(p: Reader) {
    p.CasSleep? || p.Asleep? || p.ClearSleeper? || p.ClearMark? || (p.Peek? && p.last == 1) || (p.Handle? && p.last == 1)
  }

  ghost predicate Taking(p: Reader) {
    p.Zero? || p.ClearMark?
  }

  ghost function Held(p: Reader): nat {
    if p.Zero? || p.ClearMark? then p.code else 0
  }

  ghost function Coming(p: Isr): nat {
    match p
    case LoadUsed(code, _) => code
    case CasUsed(code, _, _) => code
    case CasSleeper(code, _) => code
    case Append(code) => code
    case TakeIndex(code, _) => code
    case Put(code, _, _) => code
    case _ => 1
  }

  /** What is counted, and where the indices are. */
  ghost predicate Counts(s: Sys) {
    && 0 < s.width <= SIZE && |s.buf| == SIZE && s.oi == |s.got| % SIZE && !s.corrupt
    && s.ii == |s.log| + (if s.isr.Put? then 1 else 0)
    && (s.isr.Put? ==> s.isr.i == |s.log| % s.width)
    && s.used + |s.got| == |s.log| + (if Reserved(s.isr) then 1 else 0) + (if s.thr.Decrement? then 1 else 0)
    && s.used <= SIZE && |s.got| <= |s.log|
    && (s.isr.CasUsed? ==> s.isr.seen < SIZE)
    && (Taking(s.thr) ==> |s.got| < |s.log|)
    && Coming(s.isr) != 0 && (forall k | 0 <= k < |s.log| :: s.log[k] != 0)
  }

  ghost predicate Handshake(s: Sys) {
    && (!Owes(s.thr) ==> s.used >= 1 && s.sleeper.Nobody? && !s.woken && !Waking(s.isr))
    && (Waking(s.isr) ==> s.used >= 1)
    && (s.isr.CasSleeper? || s.isr.Append? ==> |s.log| == |s.got|)
    && match s.thr
       case Asleep => s.sleeper.Thread? && (s.woken <==> s.used >= 1 && !Waking(s.isr))
       case ClearSleeper => s.used >= 1 && !s.woken && !Waking(s.isr)
       case ClearMark(_, _) => s.used >= 1 && s.sleeper.Marked? && !s.woken && !Waking(s.isr)
       case _ =>
         Owes(s.thr) ==>
           && !s.woken && (Waking(s.isr) ==> s.isr.CasSleeper?)
           && s.sleeper == (if s.used >= 1 && !s.isr.CasSleeper? then Marked else Nobody)
  }

  /** The interrupt goes round all the slots, or has not been round its own yet. */
  ghost predicate InWidth(s: Sys) {
    s.width == SIZE || |s.log| <= s.width
  }

  /** Slot k % SIZE holds code k while it is unread, and every other slot is empty. */
  ghost predicate Slots(s: Sys)
    requires |s.buf| == SIZE
  {
    && |s.got| <= |s.log| && s.got == s.log[..|s.got|]
    && (Taking(s.thr) ==> |s.got| < |s.log| && Held(s.thr) == s.log[|s.got|])
    && forall k | |s.got| <= k < |s.got| + SIZE :: s.buf[k % SIZE] == if k < |s.log| then s.log[k] else 0
  }

  /** With fewer slots than the reader goes round, the others stay empty. */
  ghost predicate Narrow(s: Sys) {
    s.width < SIZE ==>
      && (forall i | s.width <= i < |s.buf| :: s.buf[i] == 0)
      && |s.got| <= s.width && (Taking(s.thr) ==> |s.got| < s.width)
  }

  ghost predicate Inv(s: Sys) {
    && Counts(s) && Handshake(s) && Narrow(s)
    && (InWidth(s) ==> Slots(s))
  }

  lemma InitOk(width: nat)
    requires 0 < width <= SIZE
    ensures Inv(Init(width))
  {
  }

  /** Within SIZE successive codes no two share a slot. */
  lemma SlotsDiffer(c: nat, k: nat, l: nat)
    requires c <= k < c + SIZE && c <= l < c + SIZE && k != l
    ensures k % SIZE != l % SIZE
  {
  }

  /** A code in the reader's slot is one it has not taken. */
  lemma SeenIsUnread(s: Sys)
    requires Inv(s) && s.buf[s.oi] != 0
    ensures |s.got| < |s.log| && (s.width < SIZE ==> |s.got| < s.width)
    ensures InWidth(s) ==> s.buf[s.oi] == s.log[|s.got|]
  {
  }

  // ---- the interrupt ----

  lemma IsrCounts(s: Sys)
    requires Inv(s)
    ensures Counts(IsrStep(s))
  {
    match s.isr
    case TakeIndex(_, _) => IndexCounts(s);
    case Put(_, _, _) => PutCounts(s);
    case _ => CountUp(s);
  }

  lemma IndexCounts(s: Sys)
    requires Inv(s) && s.isr.TakeIndex?
    ensures Counts(IsrStep(s))
  {
  }

  lemma IndexFits(i: nat, width: nat)
    requires 0 < width <= SIZE
    ensures 0 <= i % width < SIZE
  {
  }

  lemma PutCounts(s: Sys)
    requires Inv(s) && s.isr.Put?
    ensures Counts(IsrStep(s))
  {
    IndexFits(|s.log|, s.width);
  }

  lemma CountUp(s: Sys)
    requires Inv(s) && !s.isr.TakeIndex? && !s.isr.Put?
    ensures Counts(IsrStep(s))
  {
  }

  lemma IsrHandshake(s: Sys)
    requires Inv(s)
    ensures Handshake(IsrStep(s))
  {
  }

  lemma IsrNarrow(s: Sys)
    requires Inv(s)
    ensures Narrow(IsrStep(s))
  {
  }

  lemma IsrSlots(s: Sys)
    requires Inv(s) && InWidth(IsrStep(s))
    ensures Slots(IsrStep(s))
  {
    if s.isr.Put? {
      PutSlots(s);
    }
  }

  lemma SlotOf(w: nat, width: nat)
    requires 0 < width <= SIZE && (width == SIZE || w < width)
    ensures w % width == w % SIZE
  {
    if w < width {
      Below(w, width);
      Below(w, SIZE);
    }
  }

  lemma Below(w: nat, m: nat)
    requires w < m
    ensures w % m == w
  {
  }

  lemma PutSlots(s: Sys)
    requires Inv(s) && s.isr.Put? && InWidth(IsrStep(s))
    ensures Slots(IsrStep(s))
  {
    var s' := IsrStep(s);
    var (c, w) := (|s.got|, |s.log|);
    SlotOf(w, s.width);
    forall k | c <= k < c + SIZE ensures s'.buf[k % SIZE] == if k < |s'.log| then s'.log[k] else 0 {
      if k != w {
        SlotsDiffer(c, k, w);
      }
    }
    assert s'.log[..c] == s.log[..c];
  }

  // ---- the reader ----

  lemma ReaderCounts(s: Sys)
    requires Inv(s)
    ensures Counts(ReaderStep(s))
  {
    if s.buf[s.oi] != 0 { SeenIsUnread(s); }
    if s.thr.Zero? { NextIndex(|s.got|); }
  }

  lemma NextIndex(c: nat)
    ensures (c % SIZE + 1) % SIZE == (c + 1) % SIZE
  {
  }

  lemma ReaderHandshake(s: Sys)
    requires Inv(s)
    ensures Handshake(ReaderStep(s))
  {
    if s.buf[s.oi] != 0 { SeenIsUnread(s); }
  }

  lemma ReaderNarrow(s: Sys)
    requires Inv(s)
    ensures Narrow(ReaderStep(s))
  {
    if s.buf[s.oi] != 0 { SeenIsUnread(s); }
  }

  lemma ReaderSlots(s: Sys)
    requires Inv(s) && InWidth(ReaderStep(s))
    ensures Slots(ReaderStep(s))
  {
    if s.buf[s.oi] != 0 { SeenIsUnread(s); }
    if s.thr.Zero? {
      ZeroSlots(s);
    }
  }

  lemma ZeroSlots(s: Sys)
    requires Inv(s) && s.thr.Zero? && InWidth(s)
    ensures Slots(ReaderStep(s))
  {
    var s' := ReaderStep(s);
    var c := |s.got|;
    forall k | c + 1 <= k < c + 1 + SIZE ensures s'.buf[k % SIZE] == if k < |s'.log| then s'.log[k] else 0 {
      if k < c + SIZE {
        SlotsDiffer(c, k, c);
      } else {
        assert k % SIZE == c % SIZE;
      }
    }
    assert s'.got == s.log[..c] + [s.log[c]] == s.log[..c + 1];
  }

  lemma StepKeeps(s: Sys, op: Op)
    requires Inv(s)
    ensures Inv(Step(s, op)) && Step(s, op).width == s.width
  {
    match op
    case Key(_, _) =>
    case IsrTurn =>
      IsrCounts(s);
      IsrHandshake(s);
      IsrNarrow(s);
      if InWidth(IsrStep(s)) { IsrSlots(s); }
    case ReaderTurn =>
      ReaderCounts(s);
      ReaderHandshake(s);
      ReaderNarrow(s);
      if InWidth(ReaderStep(s)) { ReaderSlots(s); }
  }

  // ------------------------------------------------------------------
  // Whole runs
  // ------------------------------------------------------------------

  ghost function Exec(s: Sys, ops: seq<Op>): (r: Sys)
    requires Inv(s)
    ensures Inv(r) && r.width == s.width
    decreases |ops|
  {
    if ops == [] then s
    else
      StepKeeps(Exec(s, ops[..|ops| - 1]), ops[|ops| - 1]);
      Step(Exec(s, ops[..|ops| - 1]), ops[|ops| - 1])
  }

  ghost predicate Reachable(s: Sys, width: nat) {
    exists ops :: 0 < width <= SIZE && Inv(Init(width)) && s == Exec(Init(width), ops)
  }

  lemma ReachableOk(s: Sys, width: nat)
    requires Reachable(s, width)
    ensures Inv(s) && s.width == width
  {
    InitOk(width);
  }

  /** The codes taken are the codes stored, in order, and each code not yet taken lies in the slot where
      the reader is going to look for it. */
  ghost predicate Delivers(s: Sys) {
    && |s.buf| == SIZE && |s.got| <= |s.log| && s.got == s.log[..|s.got|]
    && forall k | |s.got| <= k < |s.log| :: s.buf[k % SIZE] == s.log[k]
  }

  /** Codes are delivered in order and exactly once if and only if the interrupt goes round all slots or
      has stored no more codes than it has slots. */
  lemma DeliversIff(s: Sys, width: nat)
    requires Reachable(s, width)
    ensures Delivers(s) <==> width == SIZE || |s.log| <= width
  {
    ReachableOk(s, width);
    if !InWidth(s) {
      Below(width, SIZE);
      assert s.buf[width % SIZE] != s.log[width];
    }
  }

  /** With 16-bit slot numbers the reader never takes more than 65536 codes. */
  lemma NarrowStopsReader(s: Sys)
    requires Reachable(s, INDEX_WIDTH)
    ensures |s.got| <= INDEX_WIDTH && s.oi < |s.buf| && (|s.got| == INDEX_WIDTH ==> s.buf[s.oi] == 0)
  {
    ReachableOk(s, INDEX_WIDTH);
    Below(INDEX_WIDTH, SIZE);
  }

  /** The reader never sleeps over a code: one that is counted has woken it, or its interrupt is about to. */
  lemma NoLostWakeup(s: Sys, width: nat)
    requires Reachable(s, width) && s.thr.Asleep?
    ensures s.used == 0 || s.woken || Waking(s.isr)
    ensures s.woken ==> s.used >= 1
  {
    ReachableOk(s, width);
  }

  /** Past the point where it might have slept, the reader always has a code coming; and while it spins
      on an empty slot, the interrupt is about to fill that slot. */
  lemma SpinIsOwed(s: Sys, width: nat)
    requires Reachable(s, width) && s.thr.Load?
    ensures s.used >= 1
    ensures InWidth(s) && s.buf[s.oi] == 0 ==> (s.isr.TakeIndex? || s.isr.Put?) && |s.log| == |s.got|
  {
    ReachableOk(s, width);
  }

  /** The interrupt never overwrites a code, as long as its numbers have not gone round. */
  lemma NothingOverwritten(s: Sys, width: nat)
    requires Reachable(s, width) && s.isr.Put? && (width == SIZE || |s.log| < width)
    ensures s.isr.i < |s.buf| && s.buf[s.isr.i] == 0
  {
    ReachableOk(s, width);
    SlotOf(|s.log|, width);
    IndexFits(|s.log|, width);
  }

  // ------------------------------------------------------------------
  // The keys pressed
  // ------------------------------------------------------------------

  /** What has become of a key: counted, so that its code will be stored, or dropped. */
  datatype Fate = Taken(code: nat) | Lost(code: nat)

  /** The key whose event raises an interrupt with op. */
  function Pressing(s: Sys, op: Op): seq<nat> {
    if op.Key? && s.isr.NoInterrupt? && op.code != 0 then [op.code] else []
  }

  /** The keys pressed, in order, told from the key events of the run. */
  ghost function Pressed(s: Sys, ops: seq<Op>): seq<nat>
    requires Inv(s)
  {
    if ops == [] then []
    else Pressed(s, ops[..|ops| - 1]) + Pressing(Exec(s, ops[..|ops| - 1]), ops[|ops| - 1])
  }

  ghost predicate Deciding(p: Isr) {
    p.LoadUsed? || p.CasUsed?
  }

  /** What op decides for the latest key pressed: `used` is counted up for it, or its interrupt ends before
      that. */
  ghost function Decided(s: Sys, op: Op, pressed: seq<nat>): seq<Fate>
    requires s.width > 0
  {
    if pressed == [] || !op.IsrTurn? then []
    else if IsrStep(s).used > s.used then [Taken(pressed[|pressed| - 1])]
    else if Deciding(s.isr) && IsrStep(s).isr.NoInterrupt? then [Lost(pressed[|pressed| - 1])]
    else []
  }

  ghost function Fates(s: Sys, ops: seq<Op>): seq<Fate>
    requires Inv(s)
  {
    if ops == [] then []
    else
      var before := ops[..|ops| - 1];
      Fates(s, before) + Decided(Exec(s, before), ops[|ops| - 1], Pressed(s, before))
  }

  ghost function Codes(fates: seq<Fate>): seq<nat> {
    seq(|fates|, i requires 0 <= i < |fates| => fates[i].code)
  }

  ghost function Accepted(fates: seq<Fate>): seq<nat> {
    if fates == [] then []
    else
      var last := fates[|fates| - 1];
      Accepted(fates[..|fates| - 1]) + if last.Taken? then [last.code] else []
  }

  ghost predicate KeysOk(s: Sys, pressed: seq<nat>, fates: seq<Fate>) {
    && pressed == Codes(fates) + (if Deciding(s.isr) then [Coming(s.isr)] else [])
    && s.log + (if Reserved(s.isr) then [Coming(s.isr)] else []) == Accepted(fates)
    && (Deciding(s.isr) || Reserved(s.isr) ==> pressed != [] && pressed[|pressed| - 1] == Coming(s.isr))
  }

  lemma FateMore(fates: seq<Fate>, fate: Fate)
    ensures Codes(fates + [fate]) == Codes(fates) + [fate.code]
    ensures Accepted(fates + [fate]) == Accepted(fates) + if fate.Taken? then [fate.code] else []
  {
    assert (fates + [fate])[..|fates|] == fates;
  }

  /** The access lets the interrupt end, counts up for the key, or has to be made again. */
  lemma DecidedKeys(s: Sys, pressed: seq<nat>, fates: seq<Fate>)
    requires Counts(s) && KeysOk(s, pressed, fates) && Deciding(s.isr)
    ensures KeysOk(IsrStep(s), pressed, fates + Decided(s, IsrTurn, pressed))
  {
    var s' := IsrStep(s);
    assert s'.log == s.log && (s'.isr.NoInterrupt? || s'.isr.CasUsed? || s'.isr.CasSleeper? || s'.isr.TakeIndex?);
    assert !s'.isr.NoInterrupt? ==> Coming(s'.isr) == Coming(s.isr);
    if s'.used > s.used {
      FateMore(fates, Fate.Taken(Coming(s.isr)));
      assert s'.isr.CasSleeper? || s'.isr.TakeIndex?;
    } else if s'.isr.NoInterrupt? {
      FateMore(fates, Lost(Coming(s.isr)));
    } else {
      assert fates + [] == fates;
    }
  }

  /** Past that access nothing more is decided, and the code is stored in the end. */
  lemma StoredKeys(s: Sys, pressed: seq<nat>, fates: seq<Fate>)
    requires Counts(s) && Counts(IsrStep(s)) && KeysOk(s, pressed, fates) && !Deciding(s.isr)
    ensures IsrStep(s).used == s.used && KeysOk(IsrStep(s), pressed, fates)
  {
    if s.isr.Put? {
      assert (s.log + [s.isr.code]) + [] == s.log + [s.isr.code];
    }
  }

  lemma IsrKeys(s: Sys, pressed: seq<nat>, fates: seq<Fate>)
    requires Inv(s) && KeysOk(s, pressed, fates)
    ensures KeysOk(IsrStep(s), pressed, fates + Decided(s, IsrTurn, pressed))
  {
    if Deciding(s.isr) {
      DecidedKeys(s, pressed, fates);
    } else {
      IsrCounts(s);
      StoredKeys(s, pressed, fates);
      assert fates + [] == fates;
    }
  }

  lemma StepKeys(s: Sys, op: Op, pressed: seq<nat>, fates: seq<Fate>)
    requires Inv(s) && KeysOk(s, pressed, fates)
    ensures KeysOk(Step(s, op), pressed + Pressing(s, op), fates + Decided(s, op, pressed))
  {
    if op.IsrTurn? {
      IsrKeys(s, pressed, fates);
      assert pressed + [] == pressed;
    } else {
      assert fates + [] == fates;
      assert pressed + [] == pressed;
    }
  }

  lemma {:induction false} RunKeys(width: nat, ops: seq<Op>)
    requires 0 < width <= SIZE && Inv(Init(width))
    ensures KeysOk(Exec(Init(width), ops), Pressed(Init(width), ops), Fates(Init(width), ops))
  {
    if ops != [] {
      var before := ops[..|ops| - 1];
      RunKeys(width, before);
      StepKeys(Exec(Init(width), before), ops[|ops| - 1], Pressed(Init(width), before), Fates(Init(width), before));
    }
  }

  /** Each key pressed has one fate, in order, but for the one whose interrupt has not decided; the codes
      stored, and the one that is reserved and about to be stored, are those of the keys taken. */
  lemma KeysAreStored(width: nat, ops: seq<Op>)
    requires 0 < width <= SIZE && Inv(Init(width))
    ensures var s, pressed, fates := Exec(Init(width), ops), Pressed(Init(width), ops), Fates(Init(width), ops);
      && Codes(fates) <= pressed && |pressed| == |fates| + (if Deciding(s.isr) then 1 else 0)
      && s.log <= Accepted(fates) && |Accepted(fates)| == |s.log| + (if Reserved(s.isr) then 1 else 0)
  {
    RunKeys(width, ops);
  }

  /** A key is dropped exactly if the deciding access finds all slots counted. */
  lemma DroppedIff(s: Sys, width: nat)
    requires Reachable(s, width) && Deciding(s.isr)
    ensures IsrStep(s).isr.NoInterrupt? <==> s.used == SIZE
    ensures IsrStep(s).used > s.used ==> s.used < SIZE
  {
    ReachableOk(s, width);
  }

  /** The codes that the reader takes are those of the first keys taken, in order, if the interrupt goes round
      all slots or has stored no more codes than it has slots. */
  lemma ReaderGetsKeys(width: nat, ops: seq<Op>)
    requires 0 < width <= SIZE && Inv(Init(width))
    requires width == SIZE || |Accepted(Fates(Init(width), ops))| <= width
    ensures Exec(Init(width), ops).got <= Accepted(Fates(Init(width), ops))
  {
    var s := Exec(Init(width), ops);
    KeysAreStored(width, ops);
    assert Reachable(s, width);
    DeliversIff(s, width);
    assert s.got == s.log[..|s.got|] <= s.log;
  }

  // ------------------------------------------------------------------
  // Neither party stops
  // ------------------------------------------------------------------

  function IsrRank(p: Isr): nat {
    match p
    case NoInterrupt => 0
    case SwitchTo => 1
    case Put(_, _, _) => 2
    case TakeIndex(_, _) => 3
    case Append(_) => 4
    case CasSleeper(_, _) => 5
    case CasUsed(_, _, _) => 6
    case LoadUsed(_, _) => 7
  }

  /** Each access brings the interrupt nearer to its end, but for a CAS that fails because the thread has
      counted down meanwhile. */
  lemma InterruptEnds(s: Sys)
    requires Inv(s) && !s.isr.NoInterrupt?
    ensures || IsrRank(IsrStep(s).isr) < IsrRank(s.isr)
            || (s.isr.CasUsed? && s.used != s.isr.seen && IsrStep(s) == s.(isr := CasUsed(s.isr.code, s.isr.idle, s.used)))
  {
    IsrCounts(s);
  }

  /** The thread takes what lies in its slot with its next two accesses. */
  lemma ReaderTakes(s: Sys)
    requires Inv(s) && s.thr.Load? && s.buf[s.oi] != 0
    ensures var t := ReaderStep(s); t.oi < |t.buf| && ReaderStep(t).got == s.got + [s.buf[s.oi]]
  {
  }

  /** It stands still only while it sleeps and has not been woken, and while it spins on an empty slot. */
  lemma ReaderMoves(s: Sys)
    requires Inv(s) && !(s.thr.Asleep? && !s.woken) && !(s.thr.Load? && s.buf[s.oi] == 0)
    ensures ReaderStep(s).thr != s.thr
  {
    ReaderCounts(s);
  }

  // ---- a run that stores more than 65536 codes ----

  /** n key events, each handled to its end while the reader stays out. */
  ghost function Keys(n: nat): seq<Op> {
    if n == 0 then [] else (Keys(n - 1) + [Key(1, false), IsrTurn, IsrTurn]) + [IsrTurn, IsrTurn, IsrTurn]
  }

  lemma ExecMore(s: Sys, ops: seq<Op>, op: Op)
    requires Inv(s)
    ensures Exec(s, ops + [op]) == Step(Exec(s, ops), op)
  {
    assert (ops + [op])[..|ops|] == ops;
  }

  lemma KeyCounted(s: Sys, ops: seq<Op>)
    requires Inv(s) && Exec(s, ops).isr.NoInterrupt? && Exec(s, ops).used < SIZE && Exec(s, ops).thr.CasSleep?
    ensures var t, r := Exec(s, ops), Exec(s, ops + [Key(1, false), IsrTurn, IsrTurn]);
      (r.isr == CasSleeper(1, false) || r.isr == TakeIndex(1, false)) && r.used == t.used + 1 && r.thr == t.thr && r.log == t.log
  {
    ExecMore(s, ops, Key(1, false));
    ExecMore(s, ops + [Key(1, false)], IsrTurn);
    ExecMore(s, ops + [Key(1, false)] + [IsrTurn], IsrTurn);
    assert ops + [Key(1, false)] + [IsrTurn] + [IsrTurn] == ops + [Key(1, false), IsrTurn, IsrTurn];
  }

  lemma KeyStored(s: Sys, ops: seq<Op>)
    requires Inv(s) && Exec(s, ops).thr.CasSleep?
    requires Exec(s, ops).isr == CasSleeper(1, false) || Exec(s, ops).isr == TakeIndex(1, false)
    ensures var t, r := Exec(s, ops), Exec(s, ops + [IsrTurn, IsrTurn, IsrTurn]);
      r.isr.NoInterrupt? && r.used == t.used && r.thr == t.thr && |r.log| == |t.log| + 1
  {
    ExecMore(s, ops, IsrTurn);
    ExecMore(s, ops + [IsrTurn], IsrTurn);
    ExecMore(s, ops + [IsrTurn] + [IsrTurn], IsrTurn);
    assert ops + [IsrTurn] + [IsrTurn] + [IsrTurn] == ops + [IsrTurn, IsrTurn, IsrTurn];
  }

  ghost predicate Waits(s: Sys, n: nat) {
    s.isr.NoInterrupt? && s.used == n && s.thr.CasSleep? && |s.log| == n
  }

  lemma KeyStep(s: Sys, ops: seq<Op>, n: nat)
    requires Inv(s) && Waits(Exec(s, ops), n) && n < SIZE
    ensures Waits(Exec(s, (ops + [Key(1, false), IsrTurn, IsrTurn]) + [IsrTurn, IsrTurn, IsrTurn]), n + 1)
  {
    KeyCounted(s, ops);
    KeyStored(s, ops + [Key(1, false), IsrTurn, IsrTurn]);
  }

  lemma {:induction false} KeysStore(s: Sys, n: nat)
    requires Inv(s) && Waits(s, 0) && n <= SIZE
    ensures Waits(Exec(s, Keys(n)), n)
  {
    if n > 0 {
      KeysStore(s, n - 1);
      KeyStep(s, Keys(n - 1), n - 1);
    }
  }

  /** 65537 key events before the reader first runs are enough to lose one. */
  lemma SixteenBitsLose()
    ensures exists s :: Reachable(s, INDEX_WIDTH) && !Delivers(s)
  {
    InitOk(INDEX_WIDTH);
    KeysStore(Init(INDEX_WIDTH), INDEX_WIDTH + 1);
    var s := Exec(Init(INDEX_WIDTH), Keys(INDEX_WIDTH + 1));
    assert Reachable(s, INDEX_WIDTH);
    DeliversIff(s, INDEX_WIDTH);
  }
}
