/** The loop of kernel_init_part2 that turns the free frames into the stack of free frames, the storage of
    that stack, and PT pages; and the memory manager over what the loop leaves. */
module BootFrames {
  import opened Options
  import opened PageTables
  import opened PagePool
  import opened PoolMap
  import opened FreeBlocks
  import opened PtManage
  import opened MemMap

  const STACK_MAX: nat := 0x100_0000_0000   // the stack stays below this virtual address

  /** Entry n of the stack begins a page. */
  predicate StartsPage(base: nat, n: nat) {
    (base + 8 * n) % PAGE == 0
  }

  /** The pages below the end of a stack of n entries. */
  function Pages(base: nat, n: nat): nat {
    (base + 8 * n + PAGE - 1) / PAGE
  }

  lemma NextPages(base: nat, n: nat)
    requires base % 8 == 0
    ensures Pages(base, n + 1) == Pages(base, n) + if StartsPage(base, n) then 1 else 0
    ensures StartsPage(base, n) ==> Pages(base, n) * PAGE == base + 8 * n
    ensures Pages(base, n) >= Pages(base, 0)
  {
  }

  /** What has become of the frames: those that are free or hold tables have a role, in order, some are
      the storage of the stack, and some are left. */
  datatype Books = Books(role: map<nat, Role>, storage: seq<nat>, left: set<nat>)

  /** Of all frames each is in one place. */
  ghost predicate Placed(all: set<nat>, b: Books) {
    && Distinct(b.storage)
    && (forall f: nat :: f in all <==> f in b.role || f in b.storage || f in b.left)
    && (forall f | f in b.role :: f !in b.storage && f !in b.left)
    && (forall f | f in b.storage :: f !in b.left)
  }

  ghost predicate Balanced(all: set<nat>, b: Books, stack: seq<nat>, m: map<nat, nat>, pt: map<nat, nat>) {
    Placed(all, b) && Partition(b.role, stack, m, pt)
  }

  function ToStack(b: Books, stack: seq<nat>, f: nat): Books {
    b.(role := b.role[f := InStack(|stack|)], left := b.left - {f})
  }

  function ToStorage(b: Books, f: nat): Books {
    b.(storage := b.storage + [f], left := b.left - {f})
  }

  function ToTables(b: Books, p: nat, f: nat): Books {
    b.(role := b.role[f := Tables(p)], left := b.left - {f})
  }

  lemma PlaceInStack(all: set<nat>, b: Books, stack: seq<nat>, m: map<nat, nat>, pt: map<nat, nat>, f: nat)
    requires Balanced(all, b, stack, m, pt) && f in b.left
    ensures Balanced(all, ToStack(b, stack, f), stack + [f], m, pt)
  {
    PushRole(b.role, stack, f, m, pt);
  }

  lemma PlaceInStorage(all: set<nat>, b: Books, stack: seq<nat>, m: map<nat, nat>, pt: map<nat, nat>, v: nat, f: nat)
    requires Balanced(all, b, stack, m, pt) && f in b.left && v < USER
    ensures Balanced(all, ToStorage(b, f), stack, m[v := f], pt)
  {
    forall g | g in b.role ensures RoleOk(b.role[g], stack, m[v := f], pt, g) {
      assert RoleOk(b.role[g], stack, m, pt, g);
    }
    forall g: nat ensures g in b.storage + [f] <==> g in b.storage || g == f {}
  }

  lemma PlaceInTables(all: set<nat>, b: Books, stack: seq<nat>, m: map<nat, nat>, pt: map<nat, nat>, p: nat, f: nat)
    requires Balanced(all, b, stack, m, pt) && f in b.left && p !in pt && p < USER
    ensures Balanced(all, ToTables(b, p, f), stack, m[p := f], pt[p := f])
  {
    TablesRole(b.role, stack, p, f, m, pt);
  }

  /** The mapping m is m0 with the pages of storage and the PT pages from sp up to the first one. */
  ghost predicate Layout(m0: map<nat, nat>, m: map<nat, nat>, first: nat, storage: seq<nat>, sp: nat) {
    && (forall v: nat :: v in m <==> v in m0 || first <= v < first + |storage| || sp <= v < TOP)
    && (forall v | v in m0 :: v in m && m[v] == m0[v])
    && (forall j | 0 <= j < |storage| :: first + j in m && m[first + j] == storage[j])
  }

  lemma LayoutStorage(m0: map<nat, nat>, m: map<nat, nat>, first: nat, storage: seq<nat>, sp: nat, f: nat)
    requires Layout(m0, m, first, storage, sp) && first + |storage| !in m
    ensures Layout(m0, m[first + |storage| := f], first, storage + [f], sp)
  {
  }

  lemma LayoutTables(m0: map<nat, nat>, m: map<nat, nat>, first: nat, storage: seq<nat>, sp: nat, f: nat)
    requires Layout(m0, m, first, storage, sp + 1) && sp !in m && sp < TOP
    ensures Layout(m0, m[sp := f], first, storage, sp)
  {
  }

  ghost function Elems(q: seq<nat>): set<nat> { set f | f in q }

  lemma NextElem(q: seq<nat>, f: nat, rest: seq<nat>)
    requires Distinct(q) && q == [f] + rest
    ensures Distinct(rest) && f !in Elems(rest) && Elems(q) == Elems(rest) + {f} && Elems(q) - {f} == Elems(rest)
  {
    assert q[0] == f;
    assert forall i | 0 <= i < |rest| :: rest[i] == q[i + 1] && q[0] != q[i + 1];
    forall g: nat ensures g in q <==> g == f || g in rest {}
  }

  /** What a successful mapping of page v to frame f does to the books. */
  ghost function AfterMap(b: Books, p: nat, f: nat, grown: bool, g: nat): Books {
    ToStorage(if grown then ToTables(b, p, g) else b, f)
  }

  lemma PlaceAfterMap(all: set<nat>, b: Books, stack: seq<nat>, m: map<nat, nat>, pt: map<nat, nat>, m': map<nat, nat>, pt': map<nat, nat>,
                      m0: map<nat, nat>, first: nat, sp: nat, v: nat, f: nat, grown: bool, g: nat)
    requires Balanced(all, b, stack, m, pt) && f in b.left && v < USER && Changed(m, pt, m', pt', sp, v, f, grown, g)
    requires grown ==> g in b.left && g != f && sp < USER && sp !in m && sp < TOP
    requires Layout(m0, m, first, b.storage, sp + if grown then 1 else 0) && v == first + |b.storage| && v !in m && v < sp
    ensures Balanced(all, AfterMap(b, sp, f, grown, g), stack, m', pt')
    ensures Layout(m0, m', first, b.storage + [f], sp)
  {
    assert Spell(0);
    if grown {
      PlaceInTables(all, b, stack, m, pt, sp, g);
      LayoutTables(m0, m, first, b.storage, sp, g);
      PlaceInStorage(all, ToTables(b, sp, g), stack, m[sp := g], pt[sp := g], v, f);
      LayoutStorage(m0, m[sp := g], first, b.storage, sp, f);
    } else {
      PlaceInStorage(all, b, stack, m, pt, v, f);
      LayoutStorage(m0, m, first, b.storage, sp, f);
    }
  }

  ghost predicate Audit(k: nat) { true }

  /** The books balance and the mapping is laid out, sealed. */
  ghost predicate Account(all: set<nat>, b: Books, stack: seq<nat>, m: map<nat, nat>, pt: map<nat, nat>, m0: map<nat, nat>, first: nat, sp: nat) {
    forall k: nat {:trigger Audit(k)} :: Audit(k) ==> Balanced(all, b, stack, m, pt) && Layout(m0, m, first, b.storage, sp)
  }

  lemma OpenAccount(all: set<nat>, b: Books, stack: seq<nat>, m: map<nat, nat>, pt: map<nat, nat>, m0: map<nat, nat>, first: nat, sp: nat)
    requires Account(all, b, stack, m, pt, m0, first, sp)
    ensures Balanced(all, b, stack, m, pt) && Layout(m0, m, first, b.storage, sp)
  {
    assert Audit(0);
  }

  /** No frame that is left is a PT page's. */
  lemma LeftApart(all: set<nat>, b: Books, stack: seq<nat>, m: map<nat, nat>, pt: map<nat, nat>, m0: map<nat, nat>, first: nat, sp: nat)
    requires Account(all, b, stack, m, pt, m0, first, sp)
    ensures forall f, p | f in b.left && p in pt :: pt[p] != f
  {
    OpenAccount(all, b, stack, m, pt, m0, first, sp);
  }

  lemma StackAccount(all: set<nat>, b: Books, stack: seq<nat>, m: map<nat, nat>, pt: map<nat, nat>, m0: map<nat, nat>, first: nat, sp: nat, f: nat)
    requires Account(all, b, stack, m, pt, m0, first, sp) && f in b.left
    ensures Account(all, ToStack(b, stack, f), stack + [f], m, pt, m0, first, sp)
  {
    OpenAccount(all, b, stack, m, pt, m0, first, sp);
    PlaceInStack(all, b, stack, m, pt, f);
  }

  lemma TablesAccount(all: set<nat>, b: Books, stack: seq<nat>, m: map<nat, nat>, pt: map<nat, nat>, m0: map<nat, nat>, first: nat, sp: nat, f: nat)
    requires Account(all, b, stack, m, pt, m0, first, sp + 1) && f in b.left && sp !in pt && sp !in m && sp < TOP
    ensures Account(all, ToTables(b, sp, f), stack, m[sp := f], pt[sp := f], m0, first, sp)
  {
    OpenAccount(all, b, stack, m, pt, m0, first, sp + 1);
    PlaceInTables(all, b, stack, m, pt, sp, f);
    LayoutTables(m0, m, first, b.storage, sp, f);
  }

  lemma MapAccount(all: set<nat>, b: Books, stack: seq<nat>, m: map<nat, nat>, pt: map<nat, nat>, m': map<nat, nat>, pt': map<nat, nat>,
                   m0: map<nat, nat>, first: nat, sp: nat, v: nat, f: nat, grown: bool, g: nat)
    requires Account(all, b, stack, m, pt, m0, first, sp + if grown then 1 else 0)
    requires f in b.left && v < USER && Changed(m, pt, m', pt', sp, v, f, grown, g)
    requires grown ==> g in b.left && g != f && sp < USER && sp !in m && sp < TOP
    requires v == first + |b.storage| && v !in m && v < sp
    ensures Account(all, AfterMap(b, sp, f, grown, g), stack, m', pt', m0, first, sp)
  {
    OpenAccount(all, b, stack, m, pt, m0, first, sp + if grown then 1 else 0);
    PlaceAfterMap(all, b, stack, m, pt, m', pt', m0, first, sp, v, f, grown, g);
  }

  /** Where the loop stands: the storage reaches up to page `pages`, nothing is mapped from byte `floor` up to
      the PT pages, and besides the frames to come those in hand are left. */
  ghost predicate Standing(it: Iterator, tables: PageTable, all: set<nat>, m0: map<nat, nat>, stack: seq<nat>, b: Books,
                           hand: set<nat>, floor: nat, first: nat, pages: nat)
    reads it, tables, tables.pt2s, tables.vpt2s
  {
    && it.Valid() && Distinct(it.Rest()) && b.left == Elems(it.Rest()) + hand
    && tables.Ok() && tables.spMin == 0 && tables.floor == floor
    && Account(all, b, stack, tables.mapping, tables.ptFrames, m0, first, tables.sp)
    && first + |b.storage| == pages && floor <= pages * PAGE <= STACK_MAX && TOP <= tables.sp + 5
  }

  const STORAGE_SLOTS: nat := 1024   // the slots of the pages below STACK_MAX

  /** Each PT page is good for at least 509 of the tables that the storage may need, so three are enough. */
  ghost predicate Spare(s: Pool) {
    && |s.vpt2s| == SLOTS && TOP <= s.sp + 3
    && s.freePts + (TABLES - 1) * (s.sp + 3 - TOP) > NullSlots(s.vpt2s, 0, STORAGE_SLOTS)
  }

  lemma StartSpare(s: Pool)
    requires |s.vpt2s| == SLOTS && s.sp == TOP && s.freePts >= 1
    ensures Spare(s)
  {
    NullSlotsBound(s.vpt2s, 0, STORAGE_SLOTS);
  }

  lemma SpareStep(s: Pool, r: Pool, v: nat, grown: bool)
    requires Spare(s) && v * PAGE < STACK_MAX && Slot(v) < |s.vpt2s| && TablesUsed(s, r, v, grown)
    ensures Spare(r)
  {
    SlotsSpent(s.vpt2s, r.vpt2s, s.freePts, r.freePts, Slot(v), Slot(r.sp), grown, 0, STORAGE_SLOTS);
    SomeNull(s.vpt2s, Slot(v), 0, STORAGE_SLOTS);
  }

  lemma BelowWindow(tables: PageTable, pages: nat)
    requires tables.Ok() && pages * PAGE <= STACK_MAX && TOP <= tables.sp + 5
    ensures tables.vpt2s.Length == SLOTS && pages + 1 < tables.sp <= TOP && Slot(pages) != Slot(tables.sp - 1)
    ensures tables.sp * PAGE >= STACK_MAX + PAGE
  {
    tables.Shape();
  }

  /** add_pt_page(f, --pt_pages_sp), at the end of the frames. */
  method KeepAsTables(it: Iterator, tables: PageTable, f: nat, ghost all: set<nat>, ghost m0: map<nat, nat>, ghost stack: seq<nat>, ghost b: Books,
                      ghost hand: set<nat>, ghost floor: nat, ghost first: nat, ghost pages: nat) returns (ghost b': Books)
    requires Standing(it, tables, all, m0, stack, b, hand, floor, first, pages) && f in hand && f !in Elems(it.Rest())
    requires TOP <= tables.sp + 4
    modifies tables`pages, tables`freeList, tables`freePts, tables`sp, tables`mapping, tables`ptFrames, tables.pt2s, tables.vpt2s
    ensures it.Rest() == old(it.Rest()) && tables.sp + 1 == old(tables.sp)
    ensures Standing(it, tables, all, m0, stack, b', hand - {f}, floor, first, pages) && b'.storage == b.storage
  {
    tables.Shape();
    LeftApart(all, b, stack, tables.mapping, tables.ptFrames, m0, first, tables.sp);
    ghost var m, pt := tables.mapping, tables.ptFrames;
    BelowWindow(tables, pages);
    tables.AddNextPtPage(f);
    TablesAccount(all, b, stack, m, pt, m0, first, tables.sp, f);
    b' := ToTables(b, tables.sp, f);
    assert b'.left == Elems(it.Rest()) + (hand - {f});
  }

  lemma RestApart(it: Iterator, tables: PageTable, all: set<nat>, m0: map<nat, nat>, stack: seq<nat>, b: Books,
                  hand: set<nat>, floor: nat, first: nat, pages: nat)
    requires Standing(it, tables, all, m0, stack, b, hand, floor, first, pages)
    ensures forall f, p | f in it.Rest() && p in tables.ptFrames :: tables.ptFrames[p] != f
  {
    LeftApart(all, b, stack, tables.mapping, tables.ptFrames, m0, first, tables.sp);
    assert forall f | f in it.Rest() :: f in b.left;
  }

  /** pt_try_map of the page at `floor`, from which on nothing is mapped. With no lower limit set for the PT
      pages it fails only where no frame is left for tables. */
  method TryStorage(it: Iterator, tables: PageTable, f: nat, page: nat) returns (ok: bool, ghost grown: Option<nat>)
    requires it.Valid() && tables.Ok() && tables.spMin == 0 && tables.floor == page * PAGE < STACK_MAX
    requires Spare(tables.State())
    requires forall g, p | g in it.Rest() && p in tables.ptFrames :: tables.ptFrames[p] != g
    modifies it, tables`pages, tables`freeList, tables`freePts, tables`sp, tables`mapping, tables`ptFrames, tables`floor, tables.pt2s, tables.vpt2s
    ensures it.Valid() && tables.Ok() && page !in old(tables.mapping) && page < tables.sp < USER && Spare(tables.State())
    ensures tables.floor == page * PAGE + if ok then 1 else 0
    ensures !ok ==> old(it.Rest()) == [] && tables.sp == old(tables.sp) && tables.mapping == old(tables.mapping) && tables.ptFrames == old(tables.ptFrames)
    ensures ok ==> old(tables.sp) == tables.sp + if grown.Some? then 1 else 0
    ensures ok ==> Changed(old(tables.mapping), old(tables.ptFrames), tables.mapping, tables.ptFrames, tables.sp, page, f,
                           grown.Some?, if grown.Some? then grown.value else 0)
    ensures grown.Some? ==> tables.sp < TOP && tables.sp !in old(tables.mapping)
    ensures if ok && grown.Some? then old(it.Rest()) == [grown.value] + it.Rest() else it.Rest() == old(it.Rest())
  {
    tables.Shape();
    BelowWindow(tables, page);
    ghost var s := tables.State();
    tables.SetFloor(page * PAGE + 1);
    var r;
    r, grown := tables.TryMap(f, page, InInit(it), false);
    ok := r == Done;
    if ok {
      tables.Shape();
      SpareStep(s, tables.State(), page, grown.Some?);
    } else {
      tables.SetFloor(page * PAGE);
    }
  }

  /** pt_try_map of the next page of storage, in the books. */
  method MapStorage(it: Iterator, tables: PageTable, f: nat, ghost all: set<nat>, ghost m0: map<nat, nat>, ghost stack: seq<nat>, ghost b: Books,
                    ghost hand: set<nat>, ghost first: nat, page: nat) returns (ok: bool, ghost b': Books)
    requires Standing(it, tables, all, m0, stack, b, hand, page * PAGE, first, page) && Spare(tables.State())
    requires f in hand && page * PAGE < STACK_MAX && hand !! Elems(it.Rest())
    modifies it, tables`pages, tables`freeList, tables`freePts, tables`sp, tables`mapping, tables`ptFrames, tables`floor, tables.pt2s, tables.vpt2s
    ensures ok ==> Standing(it, tables, all, m0, stack, b', hand - {f}, page * PAGE + 1, first, page + 1)
    ensures b'.storage == if ok then b.storage + [f] else b.storage
    ensures Spare(tables.State())
    ensures Elems(it.Rest()) <= Elems(old(it.Rest()))
    ensures !ok ==> it.Rest() == old(it.Rest()) == [] && b' == b && tables.sp == old(tables.sp)
    ensures !ok ==> Standing(it, tables, all, m0, stack, b', hand, page * PAGE, first, page)
  {
    b' := b;
    RestApart(it, tables, all, m0, stack, b, hand, page * PAGE, first, page);
    ghost var m, pt, rest := tables.mapping, tables.ptFrames, it.Rest();
    ghost var grown;
    ok, grown := TryStorage(it, tables, f, page);
    if ok {
      ghost var g := if grown.Some? then grown.value else 0;
      if grown.Some? {
        NextElem(rest, g, it.Rest());
        assert g in Elems(rest) && g in b.left && g !in hand;
      }
      MapAccount(all, b, stack, m, pt, tables.mapping, tables.ptFrames, m0, first, tables.sp, page, f, grown.Some?, g);
      b' := AfterMap(b, tables.sp, f, grown.Some?, g);
      assert b'.left == Elems(it.Rest()) + (hand - {f});
    }
  }

  /** Storage for the entry of frame f, which begins a page. Where there is none, the frames in hand are the
      last ones, and hold tables. */
  method GetStorage(it: Iterator, tables: PageTable, base: nat, f: nat, ghost all: set<nat>, ghost m0: map<nat, nat>, stack: seq<nat>,
                    ghost b: Books, ghost first: nat) returns (ok: bool, ghost b': Books)
    requires base % 8 == 0 && StartsPage(base, |stack|) && base + 8 * |stack| < STACK_MAX
    requires Standing(it, tables, all, m0, stack, b, {f}, base + 8 * |stack|, first, Pages(base, |stack|))
    requires f !in Elems(it.Rest()) && Spare(tables.State())
    modifies it, tables`pages, tables`freeList, tables`freePts, tables`sp, tables`mapping, tables`ptFrames, tables`floor, tables.pt2s, tables.vpt2s
    ensures ok ==> Standing(it, tables, all, m0, stack, b', {f}, base + 8 * |stack| + 1, first, Pages(base, |stack| + 1))
    ensures ok ==> f !in Elems(it.Rest()) && Spare(tables.State())
    ensures !ok ==> it.Rest() == [] && Standing(it, tables, all, m0, stack, b', {}, base + 8 * |stack|, first, Pages(base, |stack|))
  {
    NextPages(base, |stack|);
    ghost var pages, rest := Pages(base, |stack|), it.Rest();
    var fa := it.Next();
    if fa == None {
      b' := KeepAsTables(it, tables, f, all, m0, stack, b, {f}, base + 8 * |stack|, first, pages);
      assert {f} - {f} == {};
      return false, b';
    }
    NextElem(rest, fa.value, it.Rest());
    assert b.left == Elems(it.Rest()) + {f, fa.value};
    ok, b' := MapStorage(it, tables, fa.value, all, m0, stack, b, {f, fa.value}, first, (base + 8 * |stack|) / PAGE);
    if ok {
      assert {f, fa.value} - {fa.value} == {f};
      return;
    }
    b' := KeepAsTables(it, tables, f, all, m0, stack, b', {f, fa.value}, base + 8 * |stack|, first, pages);
    b' := KeepAsTables(it, tables, fa.value, all, m0, stack, b', {f, fa.value} - {f}, base + 8 * |stack|, first, pages);
    assert {f, fa.value} - {f} - {fa.value} == {};
  }

  /** The entry is written. */
  ghost method Enter(it: Iterator, tables: PageTable, base: nat, f: nat, all: set<nat>, m0: map<nat, nat>, stack: seq<nat>,
                     b: Books, floor: nat, first: nat) returns (b': Books)
    requires base % 8 == 0 && base + 8 * |stack| < STACK_MAX && floor <= base + 8 * |stack| + 1
    requires Standing(it, tables, all, m0, stack, b, {f}, floor, first, Pages(base, |stack| + 1)) && f !in Elems(it.Rest())
    modifies tables`floor
    ensures Standing(it, tables, all, m0, stack + [f], b', {}, base + 8 * |stack + [f]|, first, Pages(base, |stack + [f]|))
  {
    tables.Shape();
    tables.SetFloor(base + 8 * (|stack| + 1));
    StackAccount(all, b, stack, tables.mapping, tables.ptFrames, m0, first, tables.sp, f);
    b' := ToStack(b, stack, f);
    assert |stack + [f]| == |stack| + 1;
    assert b'.left == Elems(it.Rest()) + {};
  }

  lemma StartStanding(it: Iterator, tables: PageTable, base: nat)
    requires it.Valid() && Distinct(it.Rest()) && base % 8 == 0 && base < STACK_MAX
    requires tables.Ok() && tables.spMin == 0 && tables.sp == TOP && tables.floor == base
    requires TOP in tables.ptFrames && tables.ptFrames[TOP] !in Elems(it.Rest())
    requires forall v | v in tables.mapping :: v < USER
    ensures Standing(it, tables, Elems(it.Rest()) + {tables.ptFrames[TOP]}, tables.mapping, [],
                     Books(map[tables.ptFrames[TOP] := Tables(TOP)], [], Elems(it.Rest())), {}, base, Pages(base, 0), Pages(base, 0))
  {
    tables.Shape();
    StartAccount(it.Rest(), tables.mapping, tables.ptFrames, Pages(base, 0));
    assert Elems(it.Rest()) == Elems(it.Rest()) + {};
  }

  lemma StartAccount(rest: seq<nat>, m: map<nat, nat>, pt: map<nat, nat>, first: nat)
    requires forall p :: p in pt <==> p == TOP
    requires pt[TOP] !in Elems(rest) && forall v | v in m :: v < USER
    ensures Account(Elems(rest) + {pt[TOP]}, Books(map[pt[TOP] := Tables(TOP)], [], Elems(rest)), [], m, pt, m, first, TOP)
  {
  }

  /** One turn of the loop, after frame f has been taken. */
  method PlaceOne(it: Iterator, tables: PageTable, base: nat, f: nat, ghost all: set<nat>, ghost m0: map<nat, nat>, stack: seq<nat>,
                  ghost b: Books, ghost first: nat) returns (done: bool, stack': seq<nat>, ghost b': Books)
    requires base % 8 == 0 && base + 8 * |stack| < STACK_MAX
    requires Standing(it, tables, all, m0, stack, b, {f}, base + 8 * |stack|, first, Pages(base, |stack|))
    requires f !in Elems(it.Rest()) && Spare(tables.State())
    modifies it, tables`pages, tables`freeList, tables`freePts, tables`sp, tables`mapping, tables`ptFrames, tables`floor, tables.pt2s, tables.vpt2s
    ensures Standing(it, tables, all, m0, stack', b', {}, base + 8 * |stack'|, first, Pages(base, |stack'|))
    ensures if done then stack' == stack && it.Rest() == [] else stack' == stack + [f] && Spare(tables.State())
  {
    b' := b;
    NextPages(base, |stack|);
    if StartsPage(base, |stack|) {
      var ok;
      ok, b' := GetStorage(it, tables, base, f, all, m0, stack, b, first);
      if !ok {
        return true, stack, b';
      }
    }
    b' := Enter(it, tables, base, f, all, m0, stack, b', tables.floor, first);
    done, stack' := false, stack + [f];
  }

  lemma Finished(it: Iterator, tables: PageTable, base: nat, all: set<nat>, m0: map<nat, nat>, stack: seq<nat>, b: Books, first: nat)
    requires Standing(it, tables, all, m0, stack, b, {}, base + 8 * |stack|, first, Pages(base, |stack|))
    ensures tables.Ok() && tables.floor == base + 8 * |stack| <= STACK_MAX < tables.sp * PAGE && b.left == Elems(it.Rest())
    ensures TOP <= tables.sp + 5 && Distinct(it.Rest())
    ensures Balanced(all, b, stack, tables.mapping, tables.ptFrames) && Layout(m0, tables.mapping, first, b.storage, tables.sp)
    ensures first + |b.storage| == Pages(base, |stack|)
  {
    BelowWindow(tables, Pages(base, |stack|));
    OpenAccount(all, b, stack, tables.mapping, tables.ptFrames, m0, first, tables.sp);
  }

  /** The loop of kernel_init_part2. `base` is where the stack begins, right after the kernel. It goes on until
      the frames are used up or the stack is at its limit. */
  method BuildStack(it: Iterator, tables: PageTable, base: nat) returns (stack: seq<nat>, ghost b: Books)
    requires it.Valid() && Distinct(it.Rest()) && base % 8 == 0 && base < STACK_MAX
    requires tables.Ok() && tables.spMin == 0 && tables.sp == TOP && tables.floor == base
    requires TOP in tables.ptFrames && tables.ptFrames[TOP] !in Elems(it.Rest())
    requires forall v | v in tables.mapping :: v < USER
    modifies it, tables`pages, tables`freeList, tables`freePts, tables`sp, tables`spMin, tables`mapping, tables`ptFrames, tables`floor,
             tables.pt2s, tables.vpt2s
    ensures it.Rest() == [] || base + 8 * |stack| == STACK_MAX
    ensures tables.Ok() && tables.spMin == tables.floor == base + 8 * |stack| <= STACK_MAX < tables.sp * PAGE
    ensures TOP <= tables.sp + 5 && b.left == Elems(it.Rest()) && Distinct(it.Rest())
    ensures Balanced(Elems(old(it.Rest())) + {old(tables.ptFrames)[TOP]}, b, stack, tables.mapping, tables.ptFrames)
    ensures Layout(old(tables.mapping), tables.mapping, Pages(base, 0), b.storage, tables.sp)
    ensures Pages(base, 0) + |b.storage| == Pages(base, |stack|)
  {
    ghost var m0, first, all := tables.mapping, Pages(base, 0), Elems(it.Rest()) + {tables.ptFrames[TOP]};
    StartStanding(it, tables, base);
    tables.Shape();
    StartSpare(tables.State());
    stack := [];
    b := Books(map[tables.ptFrames[TOP] := Tables(TOP)], [], Elems(it.Rest()));
    while true
      invariant Standing(it, tables, all, m0, stack, b, {}, base + 8 * |stack|, first, Pages(base, |stack|))
      invariant base + 8 * |stack| < STACK_MAX && Spare(tables.State())
      decreases STACK_MAX - 8 * |stack|
    {
      ghost var rest := it.Rest();
      var f := it.Next();
      if f == None {
        break;
      }
      NextElem(rest, f.value, it.Rest());
      var done;
      done, stack, b := PlaceOne(it, tables, base, f.value, all, m0, stack, b, first);
      if done || base + 8 * |stack| == STACK_MAX {
        break;
      }
    }
    Finished(it, tables, base, all, m0, stack, b, first);
    tables.spMin := base + 8 * |stack|;
  }

  /** Every entry of the stack lies in a page that is mapped. */
  lemma EntriesStored(m0: map<nat, nat>, m: map<nat, nat>, base: nat, storage: seq<nat>, sp: nat, count: nat, n: nat)
    requires Layout(m0, m, Pages(base, 0), storage, sp) && Pages(base, 0) + |storage| == Pages(base, count) && base % 8 == 0
    requires base % PAGE != 0 ==> base / PAGE in m0
    requires n < count
    ensures (base + 8 * n) / PAGE in m
  {
    var v := (base + 8 * n) / PAGE;
    assert v < Pages(base, count);
    if v < Pages(base, 0) {
      assert v == base / PAGE && base % PAGE != 0;
    }
  }

  lemma NoUserPages(m0: map<nat, nat>, m: map<nat, nat>, first: nat, storage: seq<nat>, sp: nat)
    requires Layout(m0, m, first, storage, sp) && first + |storage| <= USER && forall v | v in m0 :: v < USER
    ensures UserMap(m) == map[]
  {
  }

  lemma {:induction false} ElemsCount(q: seq<nat>)
    requires Distinct(q)
    ensures |Elems(q)| == |q|
  {
    if q != [] {
      var front, last := q[..|q| - 1], q[|q| - 1];
      ElemsCount(front);
      assert q == front + [last];
      assert Elems(q) == Elems(front) + {last};
    }
  }

  /** The frames are counted by their places. */
  lemma PlacedCount(all: set<nat>, b: Books)
    requires Placed(all, b)
    ensures |all| == |b.role| + |b.storage| + |b.left|
  {
    ElemsCount(b.storage);
    var placed := b.role.Keys + Elems(b.storage);
    assert all == placed + b.left && placed !! b.left && b.role.Keys !! Elems(b.storage);
    assert |b.role.Keys| == |b.role|;
  }

  lemma {:induction false} RangeCount(pt: map<nat, nat>, lo: nat, hi: nat)
    requires lo <= hi && forall p :: p in pt <==> lo <= p < hi
    ensures |pt| == hi - lo
    decreases hi - lo
  {
    if lo < hi {
      WithoutOne(pt, lo);
      RangeCount(pt - {lo}, lo + 1, hi);
    } else {
      assert pt == map[];
    }
  }

  lemma CountPlaces(all: set<nat>, rest: seq<nat>, first: nat, rest': seq<nat>, b: Books, tables: PageTable)
    requires all == Elems(rest) + {first} && first !in Elems(rest) && Distinct(rest) && Distinct(rest')
    requires Placed(all, b) && b.left == Elems(rest') && tables.Ok() && TOP <= tables.sp + 5
    ensures |rest| + 1 == |b.role| + |b.storage| + |rest'| && |tables.ptFrames| <= 6
  {
    ElemsCount(rest);
    ElemsCount(rest');
    PlacedCount(all, b);
    tables.Shape();
    RangeCount(tables.ptFrames, tables.sp, TOP + 1);
  }

  /** What the loop leaves is what mmap works on: the frames on the stack are free, those of the tables hold
      tables, and no page is mapped by mmap yet. */
  method Boot(it: Iterator, tables: PageTable, base: nat) returns (memory: Memory, ghost b: Books)
    requires it.Valid() && Distinct(it.Rest()) && base % 8 == 0 && base < STACK_MAX
    requires tables.Ok() && tables.spMin == 0 && tables.sp == TOP && tables.floor == base
    requires TOP in tables.ptFrames && tables.ptFrames[TOP] !in Elems(it.Rest())
    requires forall v | v in tables.mapping :: v < USER
    modifies it, tables`pages, tables`freeList, tables`freePts, tables`sp, tables`spMin, tables`mapping, tables`ptFrames, tables`floor,
             tables.pt2s, tables.vpt2s
    ensures memory.tables == tables && memory.Valid() && memory.user == map[]
    ensures it.Rest() == [] || base + 8 * memory.stack.num == STACK_MAX
    ensures b.left == Elems(it.Rest()) && b.role.Keys == memory.Frames()
    ensures Placed(Elems(old(it.Rest())) + {old(tables.ptFrames)[TOP]}, b)
    ensures Layout(old(tables.mapping), tables.mapping, Pages(base, 0), b.storage, tables.sp)
    ensures Pages(base, 0) + |b.storage| == Pages(base, memory.stack.num)
    ensures |old(it.Rest())| + 1 == memory.stack.num + |b.storage| + |tables.ptFrames| + |it.Rest()| && |tables.ptFrames| <= 6
  {
    ghost var m0, rest, first := tables.mapping, it.Rest(), tables.ptFrames[TOP];
    ghost var all := Elems(rest) + {first};
    var stack;
    stack, b := BuildStack(it, tables, base);
    NoUserPages(m0, tables.mapping, Pages(base, 0), b.storage, tables.sp);
    RolesCount(b.role, stack, tables.mapping, tables.ptFrames);
    CountPlaces(all, rest, first, it.Rest(), b, tables);
    var frames := new nat[|stack|](i requires 0 <= i < |stack| => stack[i]);
    var freePages := new FrameStack(frames, |stack|);
    assert freePages.Contents() == stack;
    memory := new Memory(tables, freePages, b.role);
  }
}
