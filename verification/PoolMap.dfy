/** The mapping that the pool of page tables denotes: how one entry changes it, how the pool maps its own
    growth, and the walk the hardware makes over the same tables. */
module PoolMap {
  import opened PageTables
  import opened PagePool

  /** No two PT pages share a frame, so a physical address in one of them names one table. */
  ghost predicate FramesApart(s: Pool) {
    forall p, q {:trigger s.pages[p].ph, s.pages[q].ph} | p in s.pages && q in s.pages && p != q :: s.pages[p].ph != s.pages[q].ph
  }

  /** The PT pages are the top of the window, each mapped there by the tables themselves; between `floor`
      (a byte address) and the lowest of them nothing is mapped. */
  ghost predicate Window(s: Pool, floor: nat)
    requires CoreOk(s)
  {
    && s.sp <= TOP
    && (forall p :: p in s.pages <==> s.sp <= p <= TOP)
    && (forall p: nat | s.sp <= p <= TOP :: Word(s, p) == PageEntry(s.pages[p].ph))
    && (forall v: nat | floor <= v * PAGE && v < s.sp :: Word(s, v) == 0)
  }

  /** What holds between operations: one table is always in reserve. */
  ghost predicate PoolOk(s: Pool, floor: nat) {
    CoreOk(s) && Window(s, floor) && FramesApart(s) && s.freePts >= 1
  }

  // ------------------------------------------------------------------
  // The hardware walk (section 4.5 of Intel SDM volume 3A)
  // ------------------------------------------------------------------

  datatype Walk = NotPresent | Frame(f: nat) | SmallPages | NoMemory

  /** The PT page in a physical frame. */
  ghost predicate LiesIn(s: Pool, p: nat, frame: nat) {
    p in s.pages && s.pages[p].ph == frame
  }

  /** The word at a physical address inside a PT page. */
  ghost function Physical(s: Pool, addr: nat): int {
    var frame, id, i := addr / 0x20_0000, addr % 0x20_0000 / 0x1000, addr % 0x1000 / 8;
    if !exists p: nat :: LiesIn(s, p, frame) then -1
    else
      var p: nat :| LiesIn(s, p, frame);
      if id < |s.pages[p].tables| && i < |s.pages[p].tables[id]| then s.pages[p].tables[id][i] else -1
  }

  /** Bits: 0 is present, 7 is page size, 12 and up are the address of the next table. */
  ghost function HardwareWalk(s: Pool, v: nat): Walk
    requires CoreOk(s) && v < VPAGES
  {
    var e3 := s.pt2s[v / 512];
    if e3 % 2 == 0 then NotPresent
    else
      var e2 := Physical(s, e3 / 0x1000 * 0x1000 + v % 512 * 8);
      if e2 < 0 then NoMemory
      else if e2 % 2 == 0 then NotPresent
      else if e2 / 0x80 % 2 == 0 then SmallPages
      else Frame(e2 / 0x20_0000)
  }

  lemma InPage(q: nat, r: nat)
    requires r < PAGE
    ensures (q * PAGE + r) / PAGE == q && (q * PAGE + r) % PAGE == r
  {
  }

  lemma InTable(q: nat, r: nat)
    requires r < TABLE
    ensures (q * TABLE + r) / TABLE == q && (q * TABLE + r) % TABLE == r
  {
  }

  lemma TableAddress(ph: nat, id: nat, i: nat)
    requires id < TABLES && i < ENTRIES
    ensures TableEntry(ph, id) % 2 == 1
    ensures var a := TableEntry(ph, id) / TABLE * TABLE + i * 8;
      a / PAGE == ph && a % PAGE / TABLE == id && a % TABLE / 8 == i
  {
    var w := ph * 512 + id;
    assert TableEntry(ph, id) == w * TABLE + PRESENT_WRITE;
    InTable(w, PRESENT_WRITE);
    InTable(w, i * 8);
    InTable(id, i * 8);
    InPage(ph, id * TABLE + i * 8);
    assert w * TABLE + i * 8 == ph * PAGE + (id * TABLE + i * 8);
  }

  lemma EntryBits(e: nat)
    requires e != 0 && EntryOk(e)
    ensures e % 2 == 1 && e / 0x80 % 2 == 1 && e == PageEntry(e / PAGE)
  {
    assert e == e / PAGE * PAGE + BIG_PAGE;
  }

  lemma WordOk(s: Pool, v: nat)
    requires CoreOk(s) && v < VPAGES
    ensures EntryOk(Word(s, v))
  {
    assert SlotOk(s, Slot(v));
    if s.vpt2s[Slot(v)].At? {
      var At(p, id) := s.vpt2s[Slot(v)];
      assert TableOk(s.pages[p].tables[id], s.pages[p].freeEntries[id], s.pages[p].Free(id));
    }
  }

  lemma PhysicalTable(s: Pool, p: nat, id: nat, i: nat)
    requires CoreOk(s) && FramesApart(s) && p in s.pages && id < TABLES && i < ENTRIES
    ensures |s.pages[p].tables| == TABLES && |s.pages[p].tables[id]| == ENTRIES
    ensures Physical(s, TableEntry(s.pages[p].ph, id) / TABLE * TABLE + i * 8) == s.pages[p].tables[id][i]
  {
    TableAddress(s.pages[p].ph, id, i);
    assert LiesIn(s, p, s.pages[p].ph);
  }

  /** The hardware sees exactly the mapping the software sees. */
  lemma WalkAgrees(s: Pool, v: nat)
    requires CoreOk(s) && FramesApart(s) && v < VPAGES
    ensures HardwareWalk(s, v) == if Word(s, v) == 0 then NotPresent else Frame(Word(s, v) / PAGE)
  {
    assert SlotOk(s, Slot(v));
    WordOk(s, v);
    if s.vpt2s[Slot(v)].At? {
      var At(p, id) := s.vpt2s[Slot(v)];
      TableAddress(s.pages[p].ph, id, v % ENTRIES);
      PhysicalTable(s, p, id, v % ENTRIES);
      if Word(s, v) != 0 {
        EntryBits(Word(s, v));
      }
    }
  }

  // ------------------------------------------------------------------
  // The mapping
  // ------------------------------------------------------------------

  ghost function MapOf(s: Pool): map<nat, nat>
    requires CoreOk(s)
  {
    map v: nat | v < VPAGES && Word(s, v) != 0 :: Word(s, v) / PAGE
  }

  /** An entry can be made for v: it has none, and its slot has a table or a free one is left. */
  ghost predicate CanMap(s: Pool, v: nat) {
    CoreOk(s) && v < VPAGES && Word(s, v) == 0 && (s.vpt2s[Slot(v)].Null? ==> s.freeList != [])
  }

  lemma PageEntryOk(f: nat)
    ensures EntryOk(PageEntry(f)) && PageEntry(f) != 0 && PageEntry(f) / PAGE == f
  {
  }

  ghost function MapPage(s: Pool, v: nat, f: nat): Pool
    requires CanMap(s, v)
  {
    PageEntryOk(f);
    if s.vpt2s[Slot(v)].At? then MapOld(s, v, PageEntry(f)) else MapNew(s, v, PageEntry(f))
  }

  lemma MapPageOk(s: Pool, v: nat, f: nat)
    requires CanMap(s, v)
    ensures CoreOk(MapPage(s, v, f))
    ensures MapPage(s, v, f).freePts == s.freePts - if s.vpt2s[Slot(v)].Null? then 1 else 0
    ensures MapPage(s, v, f).pages.Keys == s.pages.Keys
    ensures forall p | p in s.pages :: MapPage(s, v, f).pages[p].ph == s.pages[p].ph
  {
    PageEntryOk(f);
    assert SlotOk(s, Slot(v));
    if s.vpt2s[Slot(v)].At? {
      MapOldOk(s, v, PageEntry(f));
    } else {
      assert Listed(s.freeList, s.freeList[0]);
      MapNewOk(s, v, PageEntry(f));
    }
  }

  lemma MapPageWord(s: Pool, v: nat, f: nat, u: nat)
    requires CanMap(s, v) && u < VPAGES && CoreOk(MapPage(s, v, f))
    ensures Word(MapPage(s, v, f), u) == if u == v then PageEntry(f) else Word(s, u)
  {
    PageEntryOk(f);
    if s.vpt2s[Slot(v)].At? {
      MapOldWord(s, v, PageEntry(f), u);
    } else {
      MapNewWord(s, v, PageEntry(f), u);
    }
  }

  /** r is s with page v mapped to frame f. */
  ghost predicate Mapped(s: Pool, r: Pool, v: nat, f: nat) {
    && CoreOk(s) && CoreOk(r) && v < VPAGES && r.sp == s.sp
    && s.freePts <= r.freePts + (if s.vpt2s[Slot(v)].Null? then 1 else 0)
    && r.pages.Keys == s.pages.Keys && (forall p | p in s.pages :: r.pages[p].ph == s.pages[p].ph)
    && (forall u: nat | u < VPAGES :: Word(r, u) == if u == v then PageEntry(f) else Word(s, u))
    && (forall d | 0 <= d < SLOTS && d != Slot(v) :: r.vpt2s[d] == s.vpt2s[d])
  }

  lemma MapPageMapped(s: Pool, v: nat, f: nat)
    requires CanMap(s, v)
    ensures Mapped(s, MapPage(s, v, f), v, f)
  {
    var r := MapPage(s, v, f);
    MapPageOk(s, v, f);
    forall u: nat | u < VPAGES ensures Word(r, u) == if u == v then PageEntry(f) else Word(s, u) {
      MapPageWord(s, v, f, u);
    }
    MapPageSlots(s, v, f);
  }

  lemma MapPageSlots(s: Pool, v: nat, f: nat)
    requires CanMap(s, v)
    ensures MapPage(s, v, f).sp == s.sp && |MapPage(s, v, f).vpt2s| == |s.vpt2s|
    ensures forall d | 0 <= d < SLOTS && d != Slot(v) :: MapPage(s, v, f).vpt2s[d] == s.vpt2s[d]
  {
  }

  lemma MappedMap(s: Pool, r: Pool, v: nat, f: nat)
    requires Mapped(s, r, v, f)
    ensures MapOf(r) == MapOf(s)[v := f]
  {
    PageEntryOk(f);
  }

  /** A page outside the window and the space left for it to grow. */
  ghost predicate Outside(s: Pool, floor: nat, v: nat) {
    v < VPAGES && (v >= USER || (v * PAGE < floor && v < s.sp))
  }

  lemma MappedWindow(s: Pool, r: Pool, floor: nat, v: nat, f: nat)
    requires Mapped(s, r, v, f) && Window(s, floor) && Outside(s, floor, v)
    ensures Window(r, floor)
  {
  }

  lemma MappedFramesApart(s: Pool, r: Pool, v: nat, f: nat)
    requires Mapped(s, r, v, f) && FramesApart(s)
    ensures FramesApart(r)
  {
  }

  /** r is s with page v no longer mapped. */
  ghost predicate Unmapped(s: Pool, r: Pool, v: nat) {
    && CoreOk(s) && CoreOk(r) && v < VPAGES && r.sp == s.sp && r.freePts >= s.freePts
    && r.pages.Keys == s.pages.Keys && (forall p | p in s.pages :: r.pages[p].ph == s.pages[p].ph)
    && (forall u: nat | u < VPAGES :: Word(r, u) == if u == v then 0 else Word(s, u))
  }

  ghost predicate CanUnmap(s: Pool, v: nat) {
    CoreOk(s) && v < VPAGES && Word(s, v) != 0
  }

  lemma UnmapUnmaps(s: Pool, v: nat)
    requires CanUnmap(s, v)
    ensures Unmapped(s, Unmap(s, v), v)
  {
    assert SlotOk(s, Slot(v));
    UnmapOk(s, v);
    UnmapKeeps(s, v);
    forall u: nat | u < VPAGES ensures Word(Unmap(s, v), u) == if u == v then 0 else Word(s, u) {
      UnmapWord(s, v, u);
    }
  }

  lemma UnmapKeeps(s: Pool, v: nat)
    requires CanUnmap(s, v)
    ensures Unmap(s, v).freePts >= s.freePts && Unmap(s, v).sp == s.sp && Unmap(s, v).pages.Keys == s.pages.Keys
    ensures forall p | p in s.pages :: Unmap(s, v).pages[p].ph == s.pages[p].ph
  {
    assert SlotOk(s, Slot(v));
    var At(p, id) := s.vpt2s[Slot(v)];
    ClearOk(s.pages[p], id, v % ENTRIES);
  }

  lemma UnmappedMap(s: Pool, r: Pool, v: nat)
    requires Unmapped(s, r, v)
    ensures MapOf(r) == MapOf(s) - {v}
  {
  }

  lemma UnmappedOk(s: Pool, r: Pool, floor: nat, v: nat)
    requires Unmapped(s, r, v) && PoolOk(s, floor) && v >= USER
    ensures PoolOk(r, floor)
  {
  }

  // ------------------------------------------------------------------
  // Growing the pool
  // ------------------------------------------------------------------

  /** There is room below the lowest PT page for one more, and the frame is not one of theirs. */
  ghost predicate CanGrow(s: Pool, floor: nat, f: nat) {
    && PoolOk(s, floor) && s.sp * PAGE > floor && s.sp * PAGE - floor >= PAGE
    && forall p | p in s.pages :: s.pages[p].ph != f
  }

  lemma ReserveIsListed(s: Pool)
    requires CoreOk(s) && s.freePts >= 1
    ensures s.freeList != []
  {
  }

  lemma NextIsClear(s: Pool, floor: nat)
    requires PoolOk(s, floor) && s.sp * PAGE > floor && s.sp * PAGE - floor >= PAGE
    ensures 0 < s.sp <= TOP && Word(s, s.sp - 1) == 0
  {
    assert floor <= (s.sp - 1) * PAGE;
  }

  /** The reserve rule: the last free table is enough to map the next PT page. */
  lemma CanMapNext(s: Pool, floor: nat)
    requires PoolOk(s, floor) && s.sp * PAGE > floor && s.sp * PAGE - floor >= PAGE
    ensures s.sp > 0 && CanMap(s.(sp := s.sp - 1), s.sp - 1)
  {
    NextIsClear(s, floor);
    ReserveIsListed(s);
    MoveSp(s, s.sp - 1);
  }

  /** Nothing in the core depends on the window's pointer. */
  lemma MoveSp(s: Pool, sp: nat)
    requires CoreOk(s)
    ensures CoreOk(s.(sp := sp))
    ensures forall u: nat | u < VPAGES :: Word(s.(sp := sp), u) == Word(s, u)
  {
    var s' := s.(sp := sp);
    assert SlotsOk(s') by {
      forall d: nat | d < SLOTS ensures SlotOk(s', d) {
        assert SlotOk(s, d);
      }
      forall p, id: nat | p in s'.pages && id < TABLES ensures s'.pages[p].Free(id) || Referenced(s', p, id) {
        assert Referenced(s, p, id) ==> Referenced(s', p, id);
      }
    }
  }

  /** r is s with frame f mapped as the next PT page. */
  ghost predicate Extended(s: Pool, r: Pool, f: nat) {
    && CoreOk(s) && CoreOk(r) && 0 < s.sp <= TOP && r.sp == s.sp - 1 && r.freePts >= TABLES
    && r.pages.Keys == s.pages.Keys + {r.sp} && (forall p | p in s.pages && p != r.sp :: r.pages[p].ph == s.pages[p].ph)
    && r.pages[r.sp].ph == f
    && (forall u: nat | u < VPAGES :: Word(r, u) == if u == r.sp then PageEntry(f) else Word(s, u))
  }

  lemma AddedWord(s: Pool, m: Pool, f: nat, u: nat)
    requires CoreOk(s) && 0 < s.sp <= TOP && s.sp - 1 !in s.pages && Mapped(s.(sp := s.sp - 1), m, s.sp - 1, f)
    requires u < VPAGES && CoreOk(WithPage(m, s.sp - 1, f))
    ensures Word(WithPage(m, s.sp - 1, f), u) == if u == s.sp - 1 then PageEntry(f) else Word(s, u)
  {
    MoveSp(s, s.sp - 1);
    assert Word(s.(sp := s.sp - 1), u) == Word(s, u);
    WithPageWord(m, s.sp - 1, f, u);
  }

  lemma AddedPages(s: Pool, m: Pool, f: nat)
    requires CoreOk(s) && 0 < s.sp <= TOP && s.sp - 1 !in s.pages && Mapped(s.(sp := s.sp - 1), m, s.sp - 1, f)
    ensures var r := WithPage(m, s.sp - 1, f);
      && r.pages.Keys == s.pages.Keys + {s.sp - 1} && r.pages[s.sp - 1].ph == f
      && (forall p | p in s.pages && p != s.sp - 1 :: r.pages[p].ph == s.pages[p].ph)
  {
    assert s.(sp := s.sp - 1).pages == s.pages;
  }

  lemma AddedWords(s: Pool, m: Pool, r: Pool, f: nat)
    requires CoreOk(s) && 0 < s.sp <= TOP && s.sp - 1 !in s.pages && Mapped(s.(sp := s.sp - 1), m, s.sp - 1, f)
    requires r == WithPage(m, s.sp - 1, f) && CoreOk(r)
    ensures r.sp == s.sp - 1 && r.freePts >= TABLES
    ensures forall u: nat | u < VPAGES :: Word(r, u) == if u == r.sp then PageEntry(f) else Word(s, u)
  {
    forall u: nat | u < VPAGES ensures Word(r, u) == if u == r.sp then PageEntry(f) else Word(s, u) {
      AddedWord(s, m, f, u);
    }
  }

  lemma AddedExtends(s: Pool, m: Pool, f: nat)
    requires CoreOk(s) && 0 < s.sp <= TOP && s.sp - 1 !in s.pages && Mapped(s.(sp := s.sp - 1), m, s.sp - 1, f)
    ensures Extended(s, WithPage(m, s.sp - 1, f), f)
  {
    var r := WithPage(m, s.sp - 1, f);
    WithPageOk(m, s.sp - 1, f);
    AddedPages(s, m, f);
    AddedWords(s, m, r, f);
  }

  lemma ExtendedMap(s: Pool, r: Pool, f: nat)
    requires Extended(s, r, f)
    ensures MapOf(r) == MapOf(s)[r.sp := f]
  {
    PageEntryOk(f);
    var m := MapOf(s)[r.sp := f];
    forall v: nat ensures v in MapOf(r) <==> v in m {
      assert v < VPAGES ==> Word(r, v) == if v == r.sp then PageEntry(f) else Word(s, v);
    }
    forall v: nat | v in MapOf(r) ensures MapOf(r)[v] == m[v] {
      assert Word(r, v) == if v == r.sp then PageEntry(f) else Word(s, v);
    }
  }

  lemma ExtendedPages(s: Pool, r: Pool, f: nat, p: nat)
    requires Extended(s, r, f)
    ensures p in r.pages <==> p in s.pages || p == r.sp
  {
    assert p in r.pages <==> p in r.pages.Keys;
  }

  lemma ExtendedApart(s: Pool, r: Pool, f: nat)
    requires Extended(s, r, f) && FramesApart(s) && s.sp - 1 !in s.pages && forall p | p in s.pages :: s.pages[p].ph != f
    ensures FramesApart(r)
  {
    forall p, q | p in r.pages && q in r.pages && p != q ensures r.pages[p].ph != r.pages[q].ph {
      ExtendedPages(s, r, f, p);
      ExtendedPages(s, r, f, q);
    }
  }

  lemma ExtendedWindow(s: Pool, r: Pool, floor: nat, f: nat)
    requires Extended(s, r, f) && Window(s, floor)
    ensures Window(r, floor)
  {
    forall p: nat ensures p in r.pages <==> r.sp <= p <= TOP {
      ExtendedPages(s, r, f, p);
    }
    forall p: nat | r.sp <= p <= TOP ensures Word(r, p) == PageEntry(r.pages[p].ph) {
      ExtendedPages(s, r, f, p);
      assert p != r.sp ==> Word(s, p) == PageEntry(s.pages[p].ph);
    }
  }

  lemma ExtendedOk(s: Pool, r: Pool, floor: nat, f: nat)
    requires CanGrow(s, floor, f) && Extended(s, r, f)
    ensures PoolOk(r, floor)
  {
    ExtendedWindow(s, r, floor, f);
    ExtendedApart(s, r, f);
  }

  /** What adding a PT page at sp - 1 amounts to; no slot but the new page's own changes. */
  lemma GrowthExtends(s: Pool, m: Pool, floor: nat, f: nat)
    requires CanGrow(s, floor, f) && s.sp > 0 && Mapped(s.(sp := s.sp - 1), m, s.sp - 1, f)
    ensures Extended(s, WithPage(m, s.sp - 1, f), f)
    ensures forall d | 0 <= d < SLOTS && d != Slot(s.sp - 1) :: m.vpt2s[d] == s.vpt2s[d]
  {
    AddedExtends(s, m, f);
    var low := s.(sp := s.sp - 1);
    forall d | 0 <= d < SLOTS && d != Slot(s.sp - 1) ensures m.vpt2s[d] == s.vpt2s[d] {
      assert m.vpt2s[d] == low.vpt2s[d];
    }
  }

  /** Entering one page keeps what holds between operations, as long as a table stays in reserve. */
  lemma MappedOk(s: Pool, r: Pool, floor: nat, v: nat, f: nat)
    requires Mapped(s, r, v, f) && PoolOk(s, floor) && Outside(s, floor, v) && r.freePts >= 1
    ensures PoolOk(r, floor) && MapOf(r) == MapOf(s)[v := f]
  {
    MappedMap(s, r, v, f);
    MappedWindow(s, r, floor, v, f);
    MappedFramesApart(s, r, v, f);
  }

  /** The frames that PT pages occupy. */
  ghost function PtFrames(s: Pool): map<nat, nat> {
    map p | p in s.pages :: s.pages[p].ph
  }

  lemma MappedPtFrames(s: Pool, r: Pool, v: nat, f: nat)
    requires Mapped(s, r, v, f)
    ensures PtFrames(r) == PtFrames(s)
  {
    assert forall p :: p in r.pages <==> p in r.pages.Keys;
    assert forall p :: p in s.pages <==> p in s.pages.Keys;
  }

  lemma UnmappedPtFrames(s: Pool, r: Pool, v: nat)
    requires Unmapped(s, r, v)
    ensures PtFrames(r) == PtFrames(s)
  {
    assert forall p :: p in r.pages <==> p in r.pages.Keys;
    assert forall p :: p in s.pages <==> p in s.pages.Keys;
  }

  lemma ExtendedPtFrames(s: Pool, r: Pool, f: nat)
    requires Extended(s, r, f) && r.sp !in s.pages
    ensures PtFrames(r) == PtFrames(s)[r.sp := f]
  {
    forall p: nat ensures p in r.pages <==> p in s.pages || p == r.sp {
      ExtendedPages(s, r, f, p);
    }
  }

  ghost predicate Spell(k: nat) { true }

  /** Page v is mapped to frame f, and when the pool has grown, page p to the PT page in frame g. Sealed. */
  ghost predicate Changed(m: map<nat, nat>, pt: map<nat, nat>, m': map<nat, nat>, pt': map<nat, nat>,
                          p: nat, v: nat, f: nat, grown: bool, g: nat) {
    forall k: nat {:trigger Spell(k)} :: Spell(k) ==>
      if grown then p <= TOP && p !in pt && m' == m[p := g][v := f] && pt' == pt[p := g]
      else m' == m[v := f] && pt' == pt
  }

  lemma GrownChange(m: map<nat, nat>, pt: map<nat, nat>, p: nat, v: nat, f: nat, g: nat)
    requires p <= TOP && p !in pt
    ensures Changed(m, pt, m[p := g][v := f], pt[p := g], p, v, f, true, g)
  {
  }

  lemma PlainChange(m: map<nat, nat>, pt: map<nat, nat>, p: nat, v: nat, f: nat)
    ensures Changed(m, pt, m[v := f], pt, p, v, f, false, 0)
  {
  }

  /** Slot d has a table now; if it had none, one free table less is left, and growth, which leaves slot w
      to the new PT page, brings at least 509. */
  ghost predicate SlotsMoved(slots: seq<Ref>, slots': seq<Ref>, freePts: nat, freePts': nat, d: nat, w: nat, grown: bool) {
    && |slots| == |slots'| == SLOTS && d < SLOTS && slots'[d] != Null
    && (forall e | 0 <= e < SLOTS && e != d && !(grown && e == w) :: slots'[e] == slots[e])
    && freePts' + (if slots[d] == Null then 1 else 0) >= freePts + if grown then TABLES - 1 else 0
  }

  lemma MappedSlots(s: Pool, r: Pool, v: nat, f: nat)
    requires Mapped(s, r, v, f)
    ensures SlotsMoved(s.vpt2s, r.vpt2s, s.freePts, r.freePts, Slot(v), 0, false)
  {
    assert SlotOk(r, Slot(v));
    assert Word(r, v) != 0;
  }

  /** No slot but w has changed. */
  ghost predicate SlotsKept(slots: seq<Ref>, slots': seq<Ref>, w: nat) {
    |slots| == |slots'| == SLOTS && forall e | 0 <= e < SLOTS && e != w :: slots'[e] == slots[e]
  }

  lemma GrownSlots(slots: seq<Ref>, grown: seq<Ref>, slots': seq<Ref>, freePts: nat, more: nat, freePts': nat, d: nat, w: nat)
    requires SlotsKept(slots, grown, w) && d < SLOTS && d != w && more + 1 >= freePts + TABLES
    requires SlotsMoved(grown, slots', more, freePts', d, 0, false)
    ensures SlotsMoved(slots, slots', freePts, freePts', d, w, true)
  {
  }

  /** Mention it to unfold what a sealed predicate says. */
  ghost predicate Unseal(k: nat) { true }

  /** The pool is in order; it denotes the mapping m and has its PT pages in the frames pt. */
  ghost predicate Denotes(s: Pool, floor: nat, m: map<nat, nat>, pt: map<nat, nat>) {
    forall k: nat {:trigger Unseal(k)} :: Unseal(k) ==> PoolOk(s, floor) && m == MapOf(s) && pt == PtFrames(s)
  }

  lemma Open(s: Pool, floor: nat, m: map<nat, nat>, pt: map<nat, nat>)
    requires Denotes(s, floor, m, pt)
    ensures PoolOk(s, floor) && m == MapOf(s) && pt == PtFrames(s)
  {
    assert Unseal(0);
  }

  lemma MappedDenotes(s: Pool, r: Pool, floor: nat, m: map<nat, nat>, pt: map<nat, nat>, v: nat, f: nat)
    requires Denotes(s, floor, m, pt) && Mapped(s, r, v, f) && Outside(s, floor, v) && r.freePts >= 1
    ensures Denotes(r, floor, m[v := f], pt)
  {
    Open(s, floor, m, pt);
    MappedOk(s, r, floor, v, f);
    MappedPtFrames(s, r, v, f);
  }

  ghost predicate IsPool(s: Pool, floor: nat) {
    forall k: nat {:trigger Unseal(k)} :: Unseal(k) ==> PoolOk(s, floor)
  }

  ghost predicate HasMap(s: Pool, m: map<nat, nat>) {
    forall k: nat {:trigger Unseal(k)} :: Unseal(k) ==> CoreOk(s) && m == MapOf(s)
  }

  ghost predicate HasFrames(s: Pool, pt: map<nat, nat>) {
    forall k: nat {:trigger Unseal(k)} :: Unseal(k) ==> pt == PtFrames(s)
  }

  lemma Denoted(s: Pool, floor: nat, m: map<nat, nat>, pt: map<nat, nat>)
    requires IsPool(s, floor) && HasMap(s, m) && HasFrames(s, pt)
    ensures Denotes(s, floor, m, pt)
  {
    assert Unseal(0);
  }

  lemma ExtendedPool(s: Pool, r: Pool, floor: nat, f: nat)
    requires CanGrow(s, floor, f) && Extended(s, r, f)
    ensures IsPool(r, floor)
  {
    ExtendedOk(s, r, floor, f);
  }

  lemma ExtendedMapIs(s: Pool, r: Pool, m: map<nat, nat>, f: nat)
    requires CoreOk(s) && m == MapOf(s) && Extended(s, r, f)
    ensures HasMap(r, m[r.sp := f])
  {
    ExtendedMap(s, r, f);
  }

  lemma ExtendedFrames(s: Pool, r: Pool, pt: map<nat, nat>, f: nat)
    requires CoreOk(s) && pt == PtFrames(s) && Extended(s, r, f) && r.sp !in s.pages
    ensures HasFrames(r, pt[r.sp := f])
  {
    ExtendedPtFrames(s, r, f);
  }

  lemma ExtendedDenotes(s: Pool, r: Pool, floor: nat, m: map<nat, nat>, pt: map<nat, nat>, f: nat)
    requires CanGrow(s, floor, f) && m == MapOf(s) && pt == PtFrames(s) && Extended(s, r, f)
    ensures Denotes(r, floor, m[r.sp := f], pt[r.sp := f])
  {
    ExtendedPool(s, r, floor, f);
    ExtendedMapIs(s, r, m, f);
    ExtendedFrames(s, r, pt, f);
    Denoted(r, floor, m[r.sp := f], pt[r.sp := f]);
  }

  lemma UnmappedDenotes(s: Pool, r: Pool, floor: nat, m: map<nat, nat>, pt: map<nat, nat>, v: nat)
    requires Denotes(s, floor, m, pt) && Unmapped(s, r, v) && v >= USER
    ensures Denotes(r, floor, m - {v}, pt)
  {
    Open(s, floor, m, pt);
    UnmappedOk(s, r, floor, v);
    UnmappedMap(s, r, v);
    UnmappedPtFrames(s, r, v);
  }

  /** What the software finds for page v. */
  ghost predicate Reads(s: Pool, m: map<nat, nat>, v: nat)
    requires v < VPAGES
  {
    |s.vpt2s| == SLOTS &&
    match s.vpt2s[Slot(v)]
    case Null => v !in m
    case At(p, id) =>
      && p in s.pages && id < |s.pages[p].tables| && |s.pages[p].tables[id]| == ENTRIES
      && var e := s.pages[p].tables[id][v % ENTRIES]; if e == 0 then v !in m else v in m && m[v] == e / PAGE
  }

  lemma ReadsMap(s: Pool, floor: nat, m: map<nat, nat>, pt: map<nat, nat>, v: nat)
    requires Denotes(s, floor, m, pt) && v < VPAGES
    ensures Reads(s, m, v)
  {
    Open(s, floor, m, pt);
    assert SlotOk(s, Slot(v));
    if s.vpt2s[Slot(v)].At? {
      var At(p, id) := s.vpt2s[Slot(v)];
      assert TableOk(s.pages[p].tables[id], s.pages[p].freeEntries[id], s.pages[p].Free(id));
    }
  }

  lemma Unmappable(s: Pool, floor: nat, m: map<nat, nat>, pt: map<nat, nat>, v: nat)
    requires Denotes(s, floor, m, pt) && v in m
    ensures CanUnmap(s, v)
  {
    Open(s, floor, m, pt);
  }

  lemma Growable(s: Pool, floor: nat, m: map<nat, nat>, pt: map<nat, nat>, f: nat)
    requires Denotes(s, floor, m, pt) && s.sp * PAGE >= floor + PAGE && forall p | p in pt :: pt[p] != f
    ensures CanGrow(s, floor, f) && 0 < s.sp <= TOP && s.sp - 1 !in pt
  {
    Open(s, floor, m, pt);
    assert forall p | p in s.pages :: pt[p] == s.pages[p].ph;
  }

  lemma MapsNext(s: Pool, floor: nat, m: map<nat, nat>, pt: map<nat, nat>)
    requires Denotes(s, floor, m, pt) && s.sp * PAGE >= floor + PAGE
    ensures s.sp > 0 && CanMap(s.(sp := s.sp - 1), s.sp - 1)
  {
    Open(s, floor, m, pt);
    CanMapNext(s, floor);
  }

  lemma Fillable(s: Pool, floor: nat, m: map<nat, nat>, pt: map<nat, nat>, v: nat)
    requires Denotes(s, floor, m, pt) && v < VPAGES && |s.vpt2s| == SLOTS && s.vpt2s[Slot(v)] != Null && v !in m
    ensures HasTable(s, v) && Word(s, v) == 0
  {
    Open(s, floor, m, pt);
  }

  lemma FilledDenotes(s: Pool, floor: nat, m: map<nat, nat>, pt: map<nat, nat>, v: nat, f: nat)
    requires Denotes(s, floor, m, pt) && HasTable(s, v) && Word(s, v) == 0 && Outside(s, floor, v)
    ensures EntryOk(PageEntry(f)) && Denotes(MapOld(s, v, PageEntry(f)), floor, m[v := f], pt)
  {
    PageEntryOk(f);
    Open(s, floor, m, pt);
    MapPageMapped(s, v, f);
    MappedDenotes(s, MapOld(s, v, PageEntry(f)), floor, m, pt, v, f);
  }

  lemma Takeable(s: Pool, floor: nat, m: map<nat, nat>, pt: map<nat, nat>, v: nat)
    requires Denotes(s, floor, m, pt) && v < VPAGES && |s.vpt2s| == SLOTS && s.vpt2s[Slot(v)] == Null
    ensures NeedsTable(s, v) && Word(s, v) == 0 && v !in m
  {
    Open(s, floor, m, pt);
    ReserveIsListed(s);
  }

  lemma TakenMapped(s: Pool, v: nat, f: nat)
    requires NeedsTable(s, v) && Word(s, v) == 0
    ensures EntryOk(PageEntry(f)) && Mapped(s, MapNew(s, v, PageEntry(f)), v, f)
  {
    PageEntryOk(f);
    MapPageMapped(s, v, f);
  }

  lemma TakenDenotes(s: Pool, floor: nat, m: map<nat, nat>, pt: map<nat, nat>, v: nat, f: nat)
    requires Denotes(s, floor, m, pt) && NeedsTable(s, v) && Word(s, v) == 0 && Outside(s, floor, v) && s.freePts > 1
    ensures EntryOk(PageEntry(f)) && Denotes(MapNew(s, v, PageEntry(f)), floor, m[v := f], pt)
    ensures SlotsMoved(s.vpt2s, MapNew(s, v, PageEntry(f)).vpt2s, s.freePts, MapNew(s, v, PageEntry(f)).freePts, Slot(v), 0, false)
  {
    TakenMapped(s, v, f);
    MappedSlots(s, MapNew(s, v, PageEntry(f)), v, f);
    MappedDenotes(s, MapNew(s, v, PageEntry(f)), floor, m, pt, v, f);
  }

  /** Growth, in terms of the mapping. */
  lemma GrowthDenotes(s: Pool, next: Pool, floor: nat, m: map<nat, nat>, pt: map<nat, nat>, f: nat)
    requires Denotes(s, floor, m, pt) && s.sp * PAGE >= floor + PAGE && forall p | p in pt :: pt[p] != f
    requires s.sp > 0 && Mapped(s.(sp := s.sp - 1), next, s.sp - 1, f)
    ensures s.sp <= TOP && s.sp - 1 !in pt
    ensures Denotes(WithPage(next, s.sp - 1, f), floor, m[s.sp - 1 := f], pt[s.sp - 1 := f])
    ensures WithPage(next, s.sp - 1, f).freePts >= TABLES
    ensures SlotsKept(s.vpt2s, WithPage(next, s.sp - 1, f).vpt2s, Slot(s.sp - 1))
  {
    Growable(s, floor, m, pt, f);
    Open(s, floor, m, pt);
    GrowthExtends(s, next, floor, f);
    ExtendedDenotes(s, WithPage(next, s.sp - 1, f), floor, m, pt, f);
  }

  /** The window may grow as far down as nothing is mapped. */
  lemma FloorMoves(s: Pool, floor: nat, to: nat)
    requires PoolOk(s, floor) && forall v: nat | to <= v * PAGE && v < s.sp :: v !in MapOf(s)
    ensures PoolOk(s, to)
  {
    forall v: nat | to <= v * PAGE && v < s.sp ensures Word(s, v) == 0 {
      assert v !in MapOf(s);
    }
  }

  /** What the window is, in terms of the mapping. */
  lemma WindowMap(s: Pool, floor: nat)
    requires PoolOk(s, floor)
    ensures s.sp <= TOP
    ensures forall v | v in MapOf(s) :: v < VPAGES && s.vpt2s[Slot(v)] != Null
    ensures forall v: nat | floor <= v * PAGE && v < s.sp :: v !in MapOf(s)
    ensures forall p :: p in PtFrames(s) <==> s.sp <= p <= TOP
    ensures forall p | p in PtFrames(s) :: p in MapOf(s) && MapOf(s)[p] == PtFrames(s)[p]
  {
    forall v | v in MapOf(s) ensures v < VPAGES && s.vpt2s[Slot(v)] != Null {
      assert SlotOk(s, Slot(v));
    }
    forall p | p in PtFrames(s) ensures p in MapOf(s) && MapOf(s)[p] == PtFrames(s)[p] {
      PageEntryOk(s.pages[p].ph);
    }
  }
}
