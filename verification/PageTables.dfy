/** One PT_Page: 510 page tables, the stack of its free tables and a counter of free entries for each
    table. Frames and pages are 2 MiB and are numbered; table entries are 64-bit words. */
module PageTables {
  import opened Counting

  const PAGE: nat := 0x20_0000
  const TABLE: nat := 0x1000
  const TABLES: nat := 510
  const ENTRIES: nat := 512
  const PRESENT_WRITE: nat := 0x3
  const BIG_PAGE: nat := 0x83       // present, writable, 2 MiB

  type Table = seq<nat>

  /** The struct PT_Page; `ph` is the number of the frame it occupies. */
  datatype PtPage = PtPage(tables: seq<Table>, ph: nat, freeNum: nat, freeIds: seq<nat>, freeEntries: seq<nat>)
  {
    ghost predicate Shaped() {
      && |tables| == TABLES && |freeIds| == TABLES && |freeEntries| == TABLES && freeNum <= TABLES
      && (forall id | 0 <= id < TABLES :: |tables[id]| == ENTRIES)
    }

    ghost predicate Free(id: nat)
      requires Shaped()
    {
      exists k :: 0 <= k < freeNum && freeIds[k] == id
    }
  }

  ghost function Nonzero(t: Table): nat {
    if t == [] then 0 else Nonzero(t[..|t| - 1]) + if t[|t| - 1] == 0 then 0 else 1
  }

  ghost predicate EntryOk(e: nat) {
    e == 0 || e % PAGE == BIG_PAGE
  }

  /** A free table is all zero; a table in use has an entry, and its counter is exact. */
  ghost predicate TableOk(t: Table, entries: nat, free: bool) {
    && |t| == ENTRIES
    && (forall i | 0 <= i < ENTRIES :: EntryOk(t[i]))
    && (if free then forall i | 0 <= i < ENTRIES :: t[i] == 0
        else entries == ENTRIES - Nonzero(t) && Nonzero(t) > 0)
  }

  ghost predicate FreeIdsOk(pg: PtPage) {
    && pg.Shaped()
    && (forall i | 0 <= i < pg.freeNum :: pg.freeIds[i] < TABLES)
    && (forall i, j | 0 <= i < j < pg.freeNum :: pg.freeIds[i] != pg.freeIds[j])
  }

  ghost predicate PageOk(pg: PtPage) {
    && FreeIdsOk(pg)
    && (forall id | 0 <= id < TABLES :: TableOk(pg.tables[id], pg.freeEntries[id], pg.Free(id)))
  }

  lemma {:induction false} NonzeroUpdate(t: Table, i: nat, e: nat)
    requires i < |t|
    ensures Nonzero(t[i := e]) + (if t[i] == 0 then 0 else 1) == Nonzero(t) + (if e == 0 then 0 else 1)
  {
    var n := |t| - 1;
    if i == n {
      assert t[i := e][..n] == t[..n];
    } else {
      assert t[i := e][..n] == t[..n][i := e];
      NonzeroUpdate(t[..n], i, e);
    }
  }

  lemma {:induction false} NonzeroBounds(t: Table)
    ensures Nonzero(t) <= |t|
    ensures Nonzero(t) == 0 <==> forall i | 0 <= i < |t| :: t[i] == 0
  {
    if t != [] {
      NonzeroBounds(t[..|t| - 1]);
    }
  }

  // ------------------------------------------------------------------
  // A page that changes
  // ------------------------------------------------------------------

  /** init_pt_page: every table is free, the lowest numbered on top. */
  function FreshPage(ph: nat): PtPage {
    PtPage(seq(TABLES, id => seq(ENTRIES, i => 0)), ph, TABLES,
           seq(TABLES, i requires 0 <= i < TABLES => TABLES - 1 - i), seq(TABLES, i => 0))
  }

  lemma FreshPageOk(ph: nat)
    ensures PageOk(FreshPage(ph))
    ensures forall id: nat | id < TABLES :: FreshPage(ph).Free(id)
  {
    var pg := FreshPage(ph);
    forall id: nat | id < TABLES ensures pg.Free(id) {
      assert pg.freeIds[TABLES - 1 - id] == id;
    }
  }

  /** An entry of a table in use is filled. */
  function Enter(pg: PtPage, id: nat, i: nat, e: nat): PtPage
    requires id < |pg.tables| && id < |pg.freeEntries| && i < |pg.tables[id]| && pg.freeEntries[id] > 0
  {
    var t: Table := pg.tables[id][i := e];
    pg.(tables := pg.tables[id := t], freeEntries := pg.freeEntries[id := pg.freeEntries[id] - 1])
  }

  lemma EnterOk(pg: PtPage, id: nat, i: nat, e: nat)
    requires PageOk(pg) && id < TABLES && i < ENTRIES && !pg.Free(id) && pg.tables[id][i] == 0
    requires e != 0 && EntryOk(e)
    ensures pg.freeEntries[id] > 0 && PageOk(Enter(pg, id, i, e))
    ensures forall x: nat | x < TABLES :: Enter(pg, id, i, e).Free(x) <==> pg.Free(x)
  {
    var t := pg.tables[id];
    assert TableOk(t, pg.freeEntries[id], pg.Free(id));
    NonzeroUpdate(t, i, e);
    NonzeroBounds(t[i := e]);
    var pg' := Enter(pg, id, i, e);
    SameFree(pg, pg');
    forall x: nat | x < TABLES ensures TableOk(pg'.tables[x], pg'.freeEntries[x], pg'.Free(x)) {
      assert TableOk(pg.tables[x], pg.freeEntries[x], pg.Free(x));
    }
  }

  lemma SameFree(pg: PtPage, pg': PtPage)
    requires FreeIdsOk(pg) && pg'.Shaped() && pg'.freeNum == pg.freeNum && pg'.freeIds == pg.freeIds
    ensures FreeIdsOk(pg') && forall x: nat | x < TABLES :: pg'.Free(x) <==> pg.Free(x)
  {
  }

  function TopFree(pg: PtPage): nat
    requires 0 < pg.freeNum <= |pg.freeIds|
  {
    pg.freeIds[pg.freeNum - 1]
  }

  /** The table on top of the free stack is taken and its first entry filled. */
  function Take(pg: PtPage, i: nat, e: nat): PtPage
    requires 0 < pg.freeNum <= |pg.freeIds| && TopFree(pg) < |pg.tables| && TopFree(pg) < |pg.freeEntries|
    requires i < |pg.tables[TopFree(pg)]|
  {
    var id := TopFree(pg);
    var t: Table := pg.tables[id][i := e];
    pg.(tables := pg.tables[id := t], freeNum := pg.freeNum - 1, freeEntries := pg.freeEntries[id := ENTRIES - 1])
  }

  lemma TopIsFree(pg: PtPage)
    requires FreeIdsOk(pg) && pg.freeNum > 0
    ensures TopFree(pg) < TABLES && pg.Free(TopFree(pg))
  {
  }

  lemma TakeFree(pg: PtPage, i: nat, e: nat, x: nat)
    requires FreeIdsOk(pg) && pg.freeNum > 0 && i < ENTRIES && x < TABLES
    ensures var pg' := Take(pg, i, e); FreeIdsOk(pg') && (pg'.Free(x) <==> pg.Free(x) && x != TopFree(pg))
  {
    var pg' := Take(pg, i, e);
    assert pg'.Shaped();
    if pg.Free(x) && x != TopFree(pg) {
      var k :| 0 <= k < pg.freeNum && pg.freeIds[k] == x;
      assert pg'.freeIds[k] == x;
    }
  }

  lemma TakeOk(pg: PtPage, i: nat, e: nat)
    requires PageOk(pg) && pg.freeNum > 0 && i < ENTRIES && e != 0 && EntryOk(e)
    ensures TopFree(pg) < TABLES && pg.Free(TopFree(pg))
    ensures forall x | 0 <= x < ENTRIES :: pg.tables[TopFree(pg)][x] == 0
    ensures PageOk(Take(pg, i, e))
    ensures forall x: nat | x < TABLES :: Take(pg, i, e).Free(x) <==> pg.Free(x) && x != TopFree(pg)
  {
    TopIsFree(pg);
    var id := TopFree(pg);
    var t := pg.tables[id];
    assert TableOk(t, pg.freeEntries[id], pg.Free(id));
    NonzeroUpdate(t, i, e);
    NonzeroBounds(t);
    var pg' := Take(pg, i, e);
    forall x: nat | x < TABLES
      ensures FreeIdsOk(pg') && (pg'.Free(x) <==> pg.Free(x) && x != id) && TableOk(pg'.tables[x], pg'.freeEntries[x], pg'.Free(x))
    {
      TakeFree(pg, i, e, x);
      assert TableOk(pg.tables[x], pg.freeEntries[x], pg.Free(x));
    }
    TakeFree(pg, i, e, 0);
  }

  /** An entry is cleared; the table goes back to the free stack when that was its last. */
  function Clear(pg: PtPage, id: nat, i: nat): PtPage
    requires id < |pg.tables| && id < |pg.freeEntries| && i < |pg.tables[id]| && pg.freeNum < |pg.freeIds|
  {
    var t: Table := pg.tables[id][i := 0];
    var cleared := pg.(tables := pg.tables[id := t], freeEntries := pg.freeEntries[id := pg.freeEntries[id] + 1]);
    if cleared.freeEntries[id] == ENTRIES then
      cleared.(freeIds := pg.freeIds[pg.freeNum := id], freeNum := pg.freeNum + 1)
    else cleared
  }

  /** While a table is in use, the free stack has room for it. */
  lemma FreeStackHasRoom(pg: PtPage, id: nat)
    requires FreeIdsOk(pg) && id < TABLES && !pg.Free(id)
    ensures pg.freeNum < TABLES
  {
    BelowCounts(TABLES);
    DistinctFits(pg.freeIds[..pg.freeNum], Below(TABLES) - {id});
  }

  ghost predicate LastEntry(t: Table, i: nat)
    requires i < |t|
  {
    forall x | 0 <= x < |t| && x != i :: t[x] == 0
  }

  lemma ClearCounts(pg: PtPage, id: nat, i: nat)
    requires PageOk(pg) && id < TABLES && i < ENTRIES && !pg.Free(id) && pg.tables[id][i] != 0
    ensures var t: Table := pg.tables[id][i := 0];
      && (pg.freeEntries[id] + 1 == ENTRIES <==> LastEntry(pg.tables[id], i))
      && TableOk(t, pg.freeEntries[id] + 1, LastEntry(pg.tables[id], i))
  {
    var t := pg.tables[id];
    var t': Table := t[i := 0];
    assert TableOk(t, pg.freeEntries[id], false);
    NonzeroUpdate(t, i, 0);
    NonzeroBounds(t');
    assert forall x | 0 <= x < ENTRIES :: t'[x] == if x == i then 0 else t[x];
    if Nonzero(t') == 0 {
      forall x | 0 <= x < ENTRIES && x != i ensures t[x] == 0 { assert t'[x] == 0; }
    }
  }

  lemma ClearFree(pg: PtPage, id: nat, i: nat, x: nat)
    requires FreeIdsOk(pg) && id < TABLES && i < ENTRIES && !pg.Free(id) && pg.freeNum < TABLES && x < TABLES
    ensures var pg' := Clear(pg, id, i);
      FreeIdsOk(pg') && (pg'.Free(x) <==> pg.Free(x) || (pg.freeEntries[id] + 1 == ENTRIES && x == id))
  {
    var pg' := Clear(pg, id, i);
    assert pg'.Shaped();
    if pg'.freeNum == pg.freeNum {
      SameFree(pg, pg');
    } else {
      assert pg'.freeIds[pg.freeNum] == id;
      if pg.Free(x) {
        var k :| 0 <= k < pg.freeNum && pg.freeIds[k] == x;
        assert pg'.freeIds[k] == x;
      }
    }
  }

  lemma ClearOk(pg: PtPage, id: nat, i: nat)
    requires PageOk(pg) && id < TABLES && i < ENTRIES && !pg.Free(id) && pg.tables[id][i] != 0
    ensures pg.freeNum < TABLES && PageOk(Clear(pg, id, i))
    ensures pg.freeEntries[id] + 1 == ENTRIES <==> LastEntry(pg.tables[id], i)
    ensures forall x: nat | x < TABLES :: Clear(pg, id, i).Free(x) <==> pg.Free(x) || (LastEntry(pg.tables[id], i) && x == id)
  {
    FreeStackHasRoom(pg, id);
    ClearCounts(pg, id, i);
    var pg' := Clear(pg, id, i);
    forall x: nat | x < TABLES
      ensures FreeIdsOk(pg') && (pg'.Free(x) <==> pg.Free(x) || (LastEntry(pg.tables[id], i) && x == id))
      ensures TableOk(pg'.tables[x], pg'.freeEntries[x], pg'.Free(x))
    {
      ClearFree(pg, id, i, x);
      assert TableOk(pg.tables[x], pg.freeEntries[x], pg.Free(x));
    }
    ClearFree(pg, id, i, 0);
  }
}
