/** The pool of page tables: the software directory of pointers to tables, the hardware directory of
    physical entries, the PT pages by the virtual page they are mapped at, and the list of PT pages with
    free tables. The directory [64][512] is taken as one array of slots. */
module PagePool {
  import opened PageTables

  const SLOTS: nat := 0x8000
  const VPAGES: nat := 0x100_0000
  const USER: nat := 0x20_0000         // 4 TiB, in pages; the PT pages lie below
  const TOP: nat := 0x1f_ffff          // where the first PT page is

  /** A pointer to a table. */
  datatype Ref = Null | At(page: nat, id: nat)

  datatype Pool = Pool(pt2s: seq<nat>, vpt2s: seq<Ref>, pages: map<nat, PtPage>, freeList: seq<nat>, freePts: nat, sp: nat)

  function Slot(v: nat): nat { v / ENTRIES }

  function TableEntry(ph: nat, id: nat): nat { id * TABLE + ph * PAGE + PRESENT_WRITE }

  function PageEntry(frame: nat): nat { frame * PAGE + BIG_PAGE }

  // ------------------------------------------------------------------
  // The invariant
  // ------------------------------------------------------------------

  ghost predicate SlotOk(s: Pool, d: nat)
    requires d < |s.vpt2s| == |s.pt2s|
  {
    match s.vpt2s[d]
    case Null => s.pt2s[d] == 0
    case At(p, id) =>
      p in s.pages && id < TABLES && PageOk(s.pages[p]) && !s.pages[p].Free(id) && s.pt2s[d] == TableEntry(s.pages[p].ph, id)
  }

  ghost predicate Shaped(s: Pool) {
    |s.pt2s| == |s.vpt2s| == SLOTS && forall p | p in s.pages :: PageOk(s.pages[p])
  }

  ghost predicate Referenced(s: Pool, p: nat, id: nat) {
    exists d :: 0 <= d < |s.vpt2s| && s.vpt2s[d] == At(p, id)
  }

  /** Every table in use belongs to exactly one slot. */
  ghost predicate SlotsOk(s: Pool)
    requires Shaped(s)
  {
    && (forall d: nat | d < SLOTS :: SlotOk(s, d))
    && (forall d, e | 0 <= d < e < SLOTS && s.vpt2s[d] != Null :: s.vpt2s[d] != s.vpt2s[e])
    && (forall p, id: nat | p in s.pages && id < TABLES :: s.pages[p].Free(id) || Referenced(s, p, id))
  }

  ghost predicate InPages(q: seq<nat>, pages: map<nat, PtPage>) {
    forall i | 0 <= i < |q| :: q[i] in pages
  }

  ghost function FreeTotal(q: seq<nat>, pages: map<nat, PtPage>): nat
    requires InPages(q, pages)
  {
    if q == [] then 0 else pages[q[0]].freeNum + FreeTotal(q[1..], pages)
  }

  ghost predicate Listed(q: seq<nat>, p: nat) {
    exists i :: 0 <= i < |q| && q[i] == p
  }

  ghost predicate Distinct(q: seq<nat>) {
    forall i, j | 0 <= i < j < |q| :: q[i] != q[j]
  }

  /** The list holds exactly the pages with a free table, each once, and the count is their sum. */
  ghost predicate ListOk(q: seq<nat>, pages: map<nat, PtPage>, total: nat) {
    && InPages(q, pages) && Distinct(q)
    && (forall p | p in pages :: pages[p].freeNum > 0 <==> Listed(q, p))
    && total == FreeTotal(q, pages)
  }

  ghost predicate CoreOk(s: Pool) {
    Shaped(s) && SlotsOk(s) && ListOk(s.freeList, s.pages, s.freePts)
  }

  /** What the software reads for virtual page v; 0 when it is not mapped. */
  ghost function Word(s: Pool, v: nat): nat
    requires CoreOk(s) && v < VPAGES
  {
    assert SlotOk(s, Slot(v));
    match s.vpt2s[Slot(v)]
    case Null => 0
    case At(p, id) =>
      assert TableOk(s.pages[p].tables[id], s.pages[p].freeEntries[id], s.pages[p].Free(id));
      s.pages[p].tables[id][v % ENTRIES]
  }

  // ------------------------------------------------------------------
  // The free list
  // ------------------------------------------------------------------

  lemma {:induction false} TotalFrame(q: seq<nat>, pages: map<nat, PtPage>, pages': map<nat, PtPage>)
    requires InPages(q, pages) && InPages(q, pages')
    requires forall i | 0 <= i < |q| :: pages'[q[i]].freeNum == pages[q[i]].freeNum
    ensures FreeTotal(q, pages') == FreeTotal(q, pages)
  {
    if q != [] {
      TotalFrame(q[1..], pages, pages');
    }
  }

  lemma {:induction false} TotalChange(q: seq<nat>, pages: map<nat, PtPage>, p: nat, pg: PtPage)
    requires InPages(q, pages) && Distinct(q) && Listed(q, p)
    ensures InPages(q, pages[p := pg])
    ensures FreeTotal(q, pages[p := pg]) + pages[p].freeNum == FreeTotal(q, pages) + pg.freeNum
    ensures FreeTotal(q, pages) >= pages[p].freeNum
  {
    var i :| 0 <= i < |q| && q[i] == p;
    if i == 0 {
      TotalFrame(q[1..], pages, pages[p := pg]);
    } else {
      assert q[1..][i - 1] == p;
      TotalChange(q[1..], pages, p, pg);
    }
  }

  lemma {:induction false} TotalAppend(q: seq<nat>, pages: map<nat, PtPage>, p: nat)
    requires InPages(q, pages) && p in pages
    ensures InPages(q + [p], pages) && FreeTotal(q + [p], pages) == FreeTotal(q, pages) + pages[p].freeNum
  {
    if q == [] {
      assert q + [p] == [p] && [p][1..] == [];
    } else {
      assert (q + [p])[1..] == q[1..] + [p];
      TotalAppend(q[1..], pages, p);
    }
  }

  /** A page keeps its number of free tables. */
  lemma ListKept(q: seq<nat>, pages: map<nat, PtPage>, total: nat, p: nat, pg: PtPage)
    requires ListOk(q, pages, total) && p in pages && pg.freeNum == pages[p].freeNum
    ensures ListOk(q, pages[p := pg], total)
  {
    TotalFrame(q, pages, pages[p := pg]);
  }

  /** The first page loses a free table, and leaves the list with its last one. */
  lemma ListHeadTaken(q: seq<nat>, pages: map<nat, PtPage>, total: nat, pg: PtPage)
    requires q != [] && ListOk(q, pages, total) && pg.freeNum + 1 == pages[q[0]].freeNum
    ensures total > 0 && ListOk(if pg.freeNum == 0 then q[1..] else q, pages[q[0] := pg], total - 1)
  {
    var pages' := pages[q[0] := pg];
    var q' := if pg.freeNum == 0 then q[1..] else q;
    TotalChange(q, pages, q[0], pg);
    forall p | p in pages' ensures pages'[p].freeNum > 0 <==> Listed(q', p) {
      assert pages[p].freeNum > 0 <==> Listed(q, p);
      if Listed(q, p) && p != q[0] && pg.freeNum == 0 {
        var i :| 0 <= i < |q| && q[i] == p;
        assert q'[i - 1] == p;
      }
      if Listed(q', p) && pg.freeNum == 0 {
        var i :| 0 <= i < |q'| && q'[i] == p;
        assert q[i + 1] == p && q[0] != q[i + 1];
      }
    }
  }

  /** A page gains a free table, and enters the list with its first one. */
  lemma ListGains(q: seq<nat>, pages: map<nat, PtPage>, total: nat, p: nat, pg: PtPage)
    requires ListOk(q, pages, total) && p in pages && pg.freeNum == pages[p].freeNum + 1
    ensures ListOk(if pages[p].freeNum == 0 then [p] + q else q, pages[p := pg], total + 1)
  {
    var pages' := pages[p := pg];
    var q' := if pages[p].freeNum == 0 then [p] + q else q;
    if pages[p].freeNum == 0 {
      assert !Listed(q, p);
      TotalFrame(q, pages, pages');
      assert q'[1..] == q;
      assert q'[0] == p;
      forall x | x in pages' ensures pages'[x].freeNum > 0 <==> Listed(q', x) {
        if Listed(q, x) {
          var i :| 0 <= i < |q| && q[i] == x;
          assert q'[i + 1] == x;
        }
      }
    } else {
      TotalChange(q, pages, p, pg);
    }
  }

  /** A new page of free tables is appended. */
  lemma ListAppended(q: seq<nat>, pages: map<nat, PtPage>, total: nat, p: nat, pg: PtPage)
    requires ListOk(q, pages, total) && p !in pages && pg.freeNum > 0
    ensures ListOk(q + [p], pages[p := pg], total + pg.freeNum)
  {
    var pages' := pages[p := pg];
    TotalFrame(q, pages, pages');
    TotalAppend(q, pages', p);
    assert (q + [p])[|q|] == p;
    forall x | x in pages' ensures pages'[x].freeNum > 0 <==> Listed(q + [p], x) {
      if x in pages && Listed(q, x) {
        var i :| 0 <= i < |q| && q[i] == x;
        assert (q + [p])[i] == x;
      }
    }
  }

  // ------------------------------------------------------------------
  // Changes of one entry
  // ------------------------------------------------------------------

  /** An unmapped page whose slot has a table. */
  ghost predicate HasTable(s: Pool, v: nat) {
    CoreOk(s) && v < VPAGES && s.vpt2s[Slot(v)].At?
  }

  ghost function MapOld(s: Pool, v: nat, e: nat): Pool
    requires HasTable(s, v) && Word(s, v) == 0 && e != 0 && EntryOk(e)
  {
    assert SlotOk(s, Slot(v));
    var At(p, id) := s.vpt2s[Slot(v)];
    EnterOk(s.pages[p], id, v % ENTRIES, e);
    s.(pages := s.pages[p := Enter(s.pages[p], id, v % ENTRIES, e)])
  }

  ghost predicate NeedsTable(s: Pool, v: nat) {
    CoreOk(s) && v < VPAGES && s.vpt2s[Slot(v)].Null? && s.freeList != []
  }

  ghost function MapNew(s: Pool, v: nat, e: nat): Pool
    requires NeedsTable(s, v) && e != 0 && EntryOk(e)
  {
    var p := s.freeList[0];
    assert Listed(s.freeList, p);
    var pg := s.pages[p];
    TakeOk(pg, v % ENTRIES, e);
    var pg' := Take(pg, v % ENTRIES, e);
    Pool(s.pt2s[Slot(v) := TableEntry(pg.ph, TopFree(pg))], s.vpt2s[Slot(v) := At(p, TopFree(pg))],
         s.pages[p := pg'], if pg'.freeNum == 0 then s.freeList[1..] else s.freeList, s.freePts - 1, s.sp)
  }

  ghost function Unmap(s: Pool, v: nat): Pool
    requires HasTable(s, v) && Word(s, v) != 0
  {
    assert SlotOk(s, Slot(v));
    var At(p, id) := s.vpt2s[Slot(v)];
    var pg := s.pages[p];
    ClearOk(pg, id, v % ENTRIES);
    var pg' := Clear(pg, id, v % ENTRIES);
    if pg'.freeNum == pg.freeNum then s.(pages := s.pages[p := pg'])
    else Pool(s.pt2s[Slot(v) := 0], s.vpt2s[Slot(v) := Null], s.pages[p := pg'],
              if pg.freeNum == 0 then [p] + s.freeList else s.freeList, s.freePts + 1, s.sp)
  }

  // ---- entering a page in a table that exists ----

  lemma MapOldSlots(s: Pool, v: nat, e: nat)
    requires HasTable(s, v) && Word(s, v) == 0 && e != 0 && EntryOk(e)
    ensures Shaped(MapOld(s, v, e)) && SlotsOk(MapOld(s, v, e))
  {
    var s' := MapOld(s, v, e);
    assert SlotOk(s, Slot(v));
    var At(p, id) := s.vpt2s[Slot(v)];
    EnterOk(s.pages[p], id, v % ENTRIES, e);
    forall d: nat | d < SLOTS ensures SlotOk(s', d) {
      assert SlotOk(s, d);
    }
    forall q, x: nat | q in s'.pages && x < TABLES ensures s'.pages[q].Free(x) || Referenced(s', q, x) {
      assert s.pages[q].Free(x) || Referenced(s, q, x);
    }
  }

  lemma MapOldOk(s: Pool, v: nat, e: nat)
    requires HasTable(s, v) && Word(s, v) == 0 && e != 0 && EntryOk(e)
    ensures CoreOk(MapOld(s, v, e))
  {
    assert SlotOk(s, Slot(v));
    var At(p, id) := s.vpt2s[Slot(v)];
    EnterOk(s.pages[p], id, v % ENTRIES, e);
    MapOldSlots(s, v, e);
    ListKept(s.freeList, s.pages, s.freePts, p, Enter(s.pages[p], id, v % ENTRIES, e));
  }

  /** Different slots have different tables. */
  lemma TablesApart(s: Pool, d: nat, e: nat)
    requires CoreOk(s) && d < SLOTS && e < SLOTS && d != e && s.vpt2s[d] != Null
    ensures s.vpt2s[d] != s.vpt2s[e]
  {
  }

  lemma MapOldWord(s: Pool, v: nat, e: nat, u: nat)
    requires HasTable(s, v) && Word(s, v) == 0 && e != 0 && EntryOk(e) && u < VPAGES
    requires CoreOk(MapOld(s, v, e))
    ensures Word(MapOld(s, v, e), u) == if u == v then e else Word(s, u)
  {
    assert SlotOk(s, Slot(v)) && SlotOk(s, Slot(u)) && SlotOk(MapOld(s, v, e), Slot(u));
    if Slot(u) != Slot(v) {
      TablesApart(s, Slot(v), Slot(u));
    }
  }

  // ---- taking a free table ----

  lemma MapNewSlots(s: Pool, v: nat, e: nat)
    requires NeedsTable(s, v) && e != 0 && EntryOk(e)
    ensures Shaped(MapNew(s, v, e)) && SlotsOk(MapNew(s, v, e))
  {
    var s' := MapNew(s, v, e);
    var p := s.freeList[0];
    assert Listed(s.freeList, p);
    TakeOk(s.pages[p], v % ENTRIES, e);
    forall d: nat | d < SLOTS ensures SlotOk(s', d) {
      assert SlotOk(s, d);
    }
    forall d, f | 0 <= d < f < SLOTS && s'.vpt2s[d] != Null ensures s'.vpt2s[d] != s'.vpt2s[f] {
      assert SlotOk(s, d) && SlotOk(s, f);
    }
    forall q, x: nat | q in s'.pages && x < TABLES ensures s'.pages[q].Free(x) || Referenced(s', q, x) {
      assert s.pages[q].Free(x) || Referenced(s, q, x);
      assert s'.vpt2s[Slot(v)] == At(p, TopFree(s.pages[p]));
      if Referenced(s, q, x) {
        var d :| 0 <= d < |s.vpt2s| && s.vpt2s[d] == At(q, x);
        assert s'.vpt2s[d] == At(q, x);
      }
    }
  }

  lemma MapNewOk(s: Pool, v: nat, e: nat)
    requires NeedsTable(s, v) && e != 0 && EntryOk(e)
    ensures CoreOk(MapNew(s, v, e)) && s.freePts > 0
  {
    var p := s.freeList[0];
    assert Listed(s.freeList, p);
    TakeOk(s.pages[p], v % ENTRIES, e);
    MapNewSlots(s, v, e);
    ListHeadTaken(s.freeList, s.pages, s.freePts, Take(s.pages[p], v % ENTRIES, e));
  }

  lemma MapNewWord(s: Pool, v: nat, e: nat, u: nat)
    requires NeedsTable(s, v) && e != 0 && EntryOk(e) && u < VPAGES
    requires CoreOk(MapNew(s, v, e))
    ensures Word(MapNew(s, v, e), u) == if u == v then e else Word(s, u)
  {
    var p := s.freeList[0];
    assert Listed(s.freeList, p);
    TakeOk(s.pages[p], v % ENTRIES, e);
    assert SlotOk(s, Slot(v)) && SlotOk(s, Slot(u)) && SlotOk(MapNew(s, v, e), Slot(u));
  }

  // ---- clearing an entry ----

  lemma UnmapSlots(s: Pool, v: nat)
    requires HasTable(s, v) && Word(s, v) != 0
    ensures Shaped(Unmap(s, v)) && SlotsOk(Unmap(s, v))
  {
    var s' := Unmap(s, v);
    assert SlotOk(s, Slot(v));
    var At(p, id) := s.vpt2s[Slot(v)];
    ClearOk(s.pages[p], id, v % ENTRIES);
    forall d: nat | d < SLOTS ensures SlotOk(s', d) {
      assert SlotOk(s, d);
      if d != Slot(v) { TablesApart(s, Slot(v), d); }
    }
    forall q, x: nat | q in s'.pages && x < TABLES ensures s'.pages[q].Free(x) || Referenced(s', q, x) {
      assert s.pages[q].Free(x) || Referenced(s, q, x);
      if Referenced(s, q, x) {
        var d :| 0 <= d < |s.vpt2s| && s.vpt2s[d] == At(q, x);
        assert d != Slot(v) ==> s'.vpt2s[d] == At(q, x);
        assert d == Slot(v) ==> s'.pages[q].Free(x) || s'.vpt2s[d] == At(q, x);
      }
    }
  }

  lemma UnmapOk(s: Pool, v: nat)
    requires HasTable(s, v) && Word(s, v) != 0
    ensures CoreOk(Unmap(s, v))
  {
    assert SlotOk(s, Slot(v));
    var At(p, id) := s.vpt2s[Slot(v)];
    var pg := s.pages[p];
    ClearOk(pg, id, v % ENTRIES);
    UnmapSlots(s, v);
    var pg' := Clear(pg, id, v % ENTRIES);
    if pg'.freeNum == pg.freeNum {
      ListKept(s.freeList, s.pages, s.freePts, p, pg');
    } else {
      ListGains(s.freeList, s.pages, s.freePts, p, pg');
    }
  }

  lemma PageOf(u: nat, v: nat)
    requires Slot(u) == Slot(v) && u % ENTRIES == v % ENTRIES
    ensures u == v
  {
  }

  lemma UnmapWordElsewhere(s: Pool, v: nat, u: nat)
    requires HasTable(s, v) && Word(s, v) != 0 && u < VPAGES && CoreOk(Unmap(s, v)) && Slot(u) != Slot(v)
    ensures Word(Unmap(s, v), u) == Word(s, u)
  {
    assert SlotOk(s, Slot(v)) && SlotOk(s, Slot(u));
    TablesApart(s, Slot(v), Slot(u));
  }

  lemma UnmapWordHere(s: Pool, v: nat, u: nat)
    requires HasTable(s, v) && Word(s, v) != 0 && u < VPAGES && CoreOk(Unmap(s, v)) && Slot(u) == Slot(v)
    ensures Word(Unmap(s, v), u) == if u == v then 0 else Word(s, u)
  {
    assert SlotOk(s, Slot(v));
    var At(p, id) := s.vpt2s[Slot(v)];
    ClearOk(s.pages[p], id, v % ENTRIES);
    if u % ENTRIES == v % ENTRIES {
      PageOf(u, v);
    }
  }

  lemma UnmapWord(s: Pool, v: nat, u: nat)
    requires HasTable(s, v) && Word(s, v) != 0 && u < VPAGES
    requires CoreOk(Unmap(s, v))
    ensures Word(Unmap(s, v), u) == if u == v then 0 else Word(s, u)
  {
    if Slot(u) == Slot(v) {
      UnmapWordHere(s, v, u);
    } else {
      UnmapWordElsewhere(s, v, u);
    }
  }

  // ---- a new page of tables ----

  ghost function WithPage(s: Pool, p: nat, ph: nat): Pool {
    s.(pages := s.pages[p := FreshPage(ph)], freeList := s.freeList + [p], freePts := s.freePts + TABLES)
  }

  lemma WithPageOk(s: Pool, p: nat, ph: nat)
    requires CoreOk(s) && p !in s.pages
    ensures CoreOk(WithPage(s, p, ph))
  {
    var s' := WithPage(s, p, ph);
    FreshPageOk(ph);
    forall d: nat | d < SLOTS ensures SlotOk(s', d) {
      assert SlotOk(s, d);
    }
    forall q, x: nat | q in s'.pages && x < TABLES ensures s'.pages[q].Free(x) || Referenced(s', q, x) {
      assert q != p ==> s.pages[q].Free(x) || Referenced(s, q, x);
      assert Referenced(s, q, x) ==> Referenced(s', q, x);
    }
    ListAppended(s.freeList, s.pages, s.freePts, p, FreshPage(ph));
  }

  lemma WithPageWord(s: Pool, p: nat, ph: nat, u: nat)
    requires CoreOk(s) && p !in s.pages && u < VPAGES && CoreOk(WithPage(s, p, ph))
    ensures Word(WithPage(s, p, ph), u) == Word(s, u)
  {
    assert SlotOk(s, Slot(u));
  }
}
