/** pt_manage.c: mapping and unmapping 2 MiB pages through tables that are updated in place. */
module PtManage {
  import opened Options
  import opened PageTables
  import opened PagePool
  import opened PoolMap
  import opened FreeBlocks

  /** The stack of free frames, free_pages[0..num). */
  class FrameStack {
    const frames: array<nat>
    var num: nat

    ghost predicate Valid()
      reads this
    {
      num <= frames.Length
    }

    ghost function Contents(): seq<nat>
      requires Valid()
      reads this, frames
    {
      frames[..num]
    }

    constructor (frames: array<nat>, num: nat)
      requires num <= frames.Length
      ensures Valid() && this.frames == frames && this.num == num
    {
      this.frames, this.num := frames, num;
    }

    /** get_free_page_generic. */
    method Pop() returns (r: Option<nat>)
      requires Valid()
      modifies this
      ensures Valid()
      ensures old(Contents()) == [] ==> r == None && Contents() == []
      ensures old(Contents()) != [] ==> r.Some? && old(Contents()) == Contents() + [r.value]
    {
      if num == 0 {
        return None;
      }
      num := num - 1;
      r := Some(frames[num]);
    }

    method Push(f: nat)
      requires Valid() && num < frames.Length
      modifies this, frames
      ensures Valid() && Contents() == old(Contents()) + [f]
    {
      frames[num] := f;
      num := num + 1;
    }
  }

  /** The hook from which pt_try_map takes a frame for its tables, with the hook's parameter: the stack of
      free frames, or at boot the iterator over the free blocks. */
  datatype Hook = Generic(stack: FrameStack) | InInit(it: Iterator)
  {
    function State(): object {
      match this
      case Generic(stack) => stack
      case InInit(it) => it
    }

    function Objects(): set<object> {
      match this
      case Generic(stack) => {stack, stack.frames}
      case InInit(it) => {it}
    }

    ghost predicate Valid()
      reads Objects()
    {
      match this
      case Generic(stack) => stack.Valid()
      case InInit(it) => it.Valid()
    }

    /** The frames the hook can give. */
    ghost function Frames(): seq<nat>
      requires Valid()
      reads Objects()
    {
      match this
      case Generic(stack) => stack.Contents()
      case InInit(it) => it.Rest()
    }

    /** One call has taken frame g from `before`. */
    ghost predicate Took(before: seq<nat>, g: nat, after: seq<nat>) {
      before == if Generic? then after + [g] else [g] + after
    }

    method Call() returns (g: Option<nat>)
      requires Valid()
      modifies State()
      ensures Valid()
      ensures g == None <==> old(Frames()) == []
      ensures if g.Some? then Took(old(Frames()), g.value, Frames()) else Frames() == old(Frames())
    {
      match this
      case Generic(stack) => g := stack.Pop();
      case InInit(it) => g := it.Next();
    }
  }

  datatype Outcome = Done | AlreadyMapped | OutOfMemory | Aborted

  class PageTable {
    const pt2s: array<nat>         // physical entries, for the hardware
    const vpt2s: array<Ref>        // pointers, for the software
    var pages: map<nat, PtPage>
    var freeList: seq<nat>
    var freePts: nat
    var sp: nat
    var spMin: nat
    ghost var floor: nat                // the window may grow down to this byte address
    ghost var mapping: map<nat, nat>    // virtual pages to frames
    ghost var ptFrames: map<nat, nat>   // PT pages to their frames

    ghost function State(): Pool
      reads this, pt2s, vpt2s
    {
      Pool(pt2s[..], vpt2s[..], pages, freeList, freePts, sp)
    }

    /** The pool is in order and the two ghost maps say what it denotes. */
    ghost predicate Ok()
      reads this, pt2s, vpt2s
    {
      Denotes(State(), floor, mapping, ptFrames)
    }

    /** The tables as they stand once the pool has been set up. */
    constructor (pt2s: array<nat>, vpt2s: array<Ref>, pages: map<nat, PtPage>, freeList: seq<nat>, freePts: nat, sp: nat,
                 spMin: nat, ghost floor: nat)
      requires PoolOk(Pool(pt2s[..], vpt2s[..], pages, freeList, freePts, sp), floor)
      ensures this.pt2s == pt2s && this.vpt2s == vpt2s && this.spMin == spMin && this.floor == floor
      ensures State() == Pool(pt2s[..], vpt2s[..], pages, freeList, freePts, sp) && Ok()
    {
      this.pt2s, this.vpt2s, this.pages, this.freeList, this.freePts, this.sp, this.spMin, this.floor :=
        pt2s, vpt2s, pages, freeList, freePts, sp, spMin, floor;
      var s := Pool(pt2s[..], vpt2s[..], pages, freeList, freePts, sp);
      mapping, ptFrames := MapOf(s), PtFrames(s);
    }

    /** The test of pt_try_map for the room left below the PT pages. */
    predicate HasRoom()
      reads this
    {
      sp * PAGE > spMin && sp * PAGE - spMin >= PAGE
    }

    /** Where the test finds room, there is room. */
    ghost predicate Sound()
      reads this
    {
      HasRoom() ==> sp * PAGE >= floor + PAGE
    }

    /** A page outside the window, and not in the slot into which the window grows next. */
    ghost predicate MayMap(v: nat)
      reads this
    {
      v < VPAGES && (v >= USER || (v * PAGE < floor && v < sp && Slot(v) != Slot(sp - 1)))
    }

    /** pt_try_map of page v can get no table. */
    ghost predicate Stuck(v: nat, noFrame: bool)
      requires v < VPAGES && vpt2s.Length == SLOTS
      reads this, vpt2s
    {
      vpt2s[Slot(v)] == Null && freePts == 1 && (noFrame || !HasRoom())
    }

    /** pt3[i] = e, in table id of the PT page at p. */
    method Store(p: nat, id: nat, i: nat, e: nat)
      requires p in pages && id < |pages[p].tables| && i < |pages[p].tables[id]|
      modifies this`pages
      ensures var t: Table := old(pages)[p].tables[id][i := e];
              pages == old(pages)[p := old(pages)[p].(tables := old(pages)[p].tables[id := t])]
    {
      var t: Table := pages[p].tables[id][i := e];
      pages := pages[p := pages[p].(tables := pages[p].tables[id := t])];
    }

    method SetFreeEntries(p: nat, id: nat, n: nat)
      requires p in pages && id < |pages[p].freeEntries|
      modifies this`pages
      ensures pages == old(pages)[p := old(pages)[p].(freeEntries := old(pages)[p].freeEntries[id := n])]
    {
      pages := pages[p := pages[p].(freeEntries := pages[p].freeEntries[id := n])];
    }

    /** The page's slot has a table. */
    method EnterOld(v: nat, f: nat)
      requires HasTable(State(), v) && Word(State(), v) == 0
      modifies this`pages
      ensures EntryOk(PageEntry(f)) && State() == MapOld(old(State()), v, PageEntry(f))
    {
      ghost var s := State();
      PageEntryOk(f);
      assert SlotOk(s, Slot(v));
      var At(p, id) := vpt2s[Slot(v)];
      EnterOk(pages[p], id, v % ENTRIES, PageEntry(f));
      SetFreeEntries(p, id, pages[p].freeEntries[id] - 1);
      Store(p, id, v % ENTRIES, PageEntry(f));
    }

    /** Takes the table on top of page p's free stack, and fills its entry i. */
    method TakeTop(p: nat, i: nat, e: nat) returns (id: nat)
      requires p in pages && PageOk(pages[p]) && pages[p].freeNum > 0 && i < ENTRIES
      modifies this`pages
      ensures id == TopFree(old(pages)[p]) < TABLES
      ensures pages == old(pages)[p := Take(old(pages)[p], i, e)]
    {
      TopIsFree(pages[p]);
      pages := pages[p := pages[p].(freeNum := pages[p].freeNum - 1)];
      id := pages[p].freeIds[pages[p].freeNum];
      SetFreeEntries(p, id, ENTRIES - 1);
      Store(p, id, i, e);
    }

    method SetSlot(d: nat, r: Ref, e: nat)
      requires d < pt2s.Length && d < vpt2s.Length
      modifies pt2s, vpt2s
      ensures pt2s[..] == old(pt2s[..])[d := e] && vpt2s[..] == old(vpt2s[..])[d := r]
    {
      vpt2s[d] := r;
      pt2s[d] := e;
    }

    /** The page's slot gets the free table on top of the first PT page in the list. */
    method EnterNew(v: nat, f: nat)
      requires NeedsTable(State(), v)
      modifies this`pages, this`freeList, this`freePts, pt2s, vpt2s
      ensures EntryOk(PageEntry(f)) && State() == MapNew(old(State()), v, PageEntry(f))
    {
      PageEntryOk(f);
      var p := freeList[0];
      assert Listed(freeList, p);
      MapNewOk(State(), v, PageEntry(f));
      var id := TakeTop(p, v % ENTRIES, PageEntry(f));
      SetSlot(Slot(v), At(p, id), id * TABLE + pages[p].ph * PAGE + PRESENT_WRITE);
      if pages[p].freeNum == 0 {
        freeList := freeList[1..];
      }
      freePts := freePts - 1;
    }

    /** pt_map_always_success: false stands for abort, on a page that is mapped already. */
    method MapAlwaysSuccess(f: nat, v: nat) returns (ok: bool)
      requires CoreOk(State()) && v < VPAGES && (vpt2s[Slot(v)].Null? ==> freeList != [])
      modifies this`pages, this`freeList, this`freePts, pt2s, vpt2s
      ensures ok <==> Word(old(State()), v) == 0
      ensures if ok then CanMap(old(State()), v) && Mapped(old(State()), State(), v, f) else State() == old(State())
    {
      ghost var s := State();
      assert SlotOk(s, Slot(v));
      if vpt2s[Slot(v)] != Null {
        var At(p, id) := vpt2s[Slot(v)];
        assert TableOk(pages[p].tables[id], pages[p].freeEntries[id], pages[p].Free(id));
        if pages[p].tables[id][v % ENTRIES] != 0 {
          return false;
        }
        EnterOld(v, f);
      } else {
        EnterNew(v, f);
      }
      MapPageMapped(s, v, f);
      return true;
    }

    /** add_pt_page: maps frame f at page sp and makes it a page of free tables. */
    method AddPtPage(f: nat) returns (ghost m: Pool)
      requires CanMap(State(), sp)
      modifies this`pages, this`freeList, this`freePts, pt2s, vpt2s
      ensures Mapped(old(State()), m, sp, f) && State() == WithPage(m, sp, f)
    {
      var ok := MapAlwaysSuccess(f, sp);
      m := State();
      pages := pages[sp := FreshPage(f)];
      freeList := freeList + [sp];
      freePts := freePts + TABLES;
      assert State() == WithPage(m, sp, f);
    }

    lemma Shape()
      requires Ok()
      ensures pt2s.Length == vpt2s.Length == SLOTS && freePts >= 1 && sp <= TOP
      ensures forall v | v in mapping :: v < VPAGES && vpt2s[Slot(v)] != Null
      ensures forall v: nat | floor <= v * PAGE && v < sp :: v !in mapping
      ensures forall p :: p in ptFrames <==> sp <= p <= TOP
      ensures forall p | p in ptFrames :: p in mapping && mapping[p] == ptFrames[p]
    {
      Open(State(), floor, mapping, ptFrames);
      WindowMap(State(), floor);
    }

    /** add_pt_page(f, --pt_pages_sp). */
    method AddNextPtPage(f: nat)
      requires Ok() && sp * PAGE >= floor + PAGE
      requires forall p | p in ptFrames :: ptFrames[p] != f
      modifies this`pages, this`freeList, this`freePts, this`sp, this`mapping, this`ptFrames, pt2s, vpt2s
      ensures Ok() && old(sp) == sp + 1 && sp < TOP && sp !in old(ptFrames)
      ensures mapping == old(mapping)[sp := f] && ptFrames == old(ptFrames)[sp := f]
      ensures freePts >= TABLES
      ensures SlotsKept(old(vpt2s[..]), vpt2s[..], Slot(sp))
    {
      ghost var s := State();
      ghost var next := PushPtPage(f);
      Adopt(s, next, f);
    }

    method PushPtPage(f: nat) returns (ghost next: Pool)
      requires Ok() && sp * PAGE >= floor + PAGE
      modifies this`pages, this`freeList, this`freePts, this`sp, pt2s, vpt2s
      ensures old(sp) == sp + 1 && Mapped(old(State()).(sp := sp), next, sp, f) && State() == WithPage(next, sp, f)
    {
      ghost var s := State();
      MapsNext(s, floor, mapping, ptFrames);
      sp := sp - 1;
      assert State() == s.(sp := s.sp - 1);
      next := AddPtPage(f);
    }

    /** The new PT page enters the mapping. */
    ghost method Adopt(s: Pool, next: Pool, f: nat)
      requires Denotes(s, floor, mapping, ptFrames) && s.sp * PAGE >= floor + PAGE && s.sp == sp + 1
      requires forall p | p in ptFrames :: ptFrames[p] != f
      requires Mapped(s.(sp := sp), next, sp, f) && State() == WithPage(next, sp, f)
      modifies this`mapping, this`ptFrames
      ensures Ok() && sp < TOP && sp !in old(ptFrames) && freePts >= TABLES && SlotsKept(s.vpt2s, vpt2s[..], Slot(sp))
      ensures mapping == old(mapping)[sp := f] && ptFrames == old(ptFrames)[sp := f]
    {
      GrowthDenotes(s, next, floor, mapping, ptFrames, f);
      mapping, ptFrames := mapping[sp := f], ptFrames[sp := f];
    }

    /** The part of pt_try_map that grows the pool when one free table is left. */
    method GrowPool(hook: Hook) returns (g: Option<nat>)
      requires Ok() && Sound() && Apart(hook)
      requires forall f, p | f in hook.Frames() && p in ptFrames :: ptFrames[p] != f
      modifies this`pages, this`freeList, this`freePts, this`sp, this`mapping, this`ptFrames, pt2s, vpt2s, hook.State()
      ensures Ok() && hook.Valid()
      ensures g == None <==> !old(HasRoom()) || old(hook.Frames()) == []
      ensures g == None ==>
        State() == old(State()) && mapping == old(mapping) && ptFrames == old(ptFrames) && hook.Frames() == old(hook.Frames())
      ensures g.Some? ==> hook.Took(old(hook.Frames()), g.value, hook.Frames())
      ensures g.Some? ==> old(sp) == sp + 1 && sp < TOP && sp !in old(ptFrames) && freePts >= TABLES
      ensures g.Some? ==> mapping == old(mapping)[sp := g.value] && ptFrames == old(ptFrames)[sp := g.value]
      ensures g.Some? ==> SlotsKept(old(vpt2s[..]), vpt2s[..], Slot(sp))
    {
      if !HasRoom() {
        return None;
      }
      g := hook.Call();
      if g == None {
        return;
      }
      assert g.value in old(hook.Frames());
      AddNextPtPage(g.value);
    }

    /** Fills the entry of page v in its table. */
    method FillEntry(f: nat, v: nat)
      requires Ok() && Outside(State(), floor, v) && v !in mapping && vpt2s.Length == SLOTS && vpt2s[Slot(v)] != Null
      modifies this`pages, this`mapping
      ensures Ok() && mapping == old(mapping)[v := f]
    {
      ghost var s := State();
      Fillable(s, floor, mapping, ptFrames, v);
      EnterOld(v, f);
      FilledDenotes(s, floor, mapping, ptFrames, v, f);
      mapping := mapping[v := f];
    }

    /** pt_try_map where the page's slot has a table. */
    method TryMapOld(f: nat, v: nat, isSoft: bool) returns (r: Outcome)
      requires Ok() && Outside(State(), floor, v) && vpt2s.Length == SLOTS && vpt2s[Slot(v)] != Null
      modifies this`pages, this`mapping
      ensures Ok()
      ensures v in old(mapping) ==> r == (if isSoft then AlreadyMapped else Aborted) && State() == old(State()) && mapping == old(mapping)
      ensures v !in old(mapping) ==> r == Done && mapping == old(mapping)[v := f]
    {
      ReadsMap(State(), floor, mapping, ptFrames, v);
      var At(p, id) := vpt2s[Slot(v)];
      if pages[p].tables[id][v % ENTRIES] != 0 {
        return if isSoft then AlreadyMapped else Aborted;
      }
      FillEntry(f, v);
      return Done;
    }

    /** pt_try_map where the page's slot gets a table, with another one in reserve. */
    method TakeTable(f: nat, v: nat)
      requires Ok() && Outside(State(), floor, v) && vpt2s.Length == SLOTS && vpt2s[Slot(v)] == Null && freePts > 1
      modifies this`pages, this`freeList, this`freePts, this`mapping, pt2s, vpt2s
      ensures Ok() && v !in old(mapping) && mapping == old(mapping)[v := f]
      ensures SlotsMoved(old(vpt2s[..]), vpt2s[..], old(freePts), freePts, Slot(v), 0, false)
    {
      ghost var s := State();
      Takeable(s, floor, mapping, ptFrames, v);
      EnterNew(v, f);
      TakenDenotes(s, floor, mapping, ptFrames, v, f);
      mapping := mapping[v := f];
    }

    /** The hook's frames are not those of the tables, and its state is not part of theirs. */
    ghost predicate Apart(hook: Hook)
      reads hook.Objects()
    {
      hook.Valid() && (hook.Generic? ==> hook.stack.frames != pt2s)
    }

    /** pt_try_map where the page's slot has none. */
    method TryMapNew(f: nat, v: nat, hook: Hook) returns (r: Outcome, ghost grown: Option<nat>)
      requires Ok() && Sound() && MayMap(v) && Apart(hook) && vpt2s.Length == SLOTS && vpt2s[Slot(v)] == Null
      requires forall g, p | g in hook.Frames() && p in ptFrames :: ptFrames[p] != g
      modifies this`pages, this`freeList, this`freePts, this`sp, this`mapping, this`ptFrames, pt2s, vpt2s, hook.State()
      ensures Ok() && hook.Valid() && v !in old(mapping)
      ensures r == if old(Stuck(v, hook.Frames() == [])) then OutOfMemory else Done
      ensures r == OutOfMemory ==> grown == None && State() == old(State()) && mapping == old(mapping) && ptFrames == old(ptFrames)
      ensures r == Done ==> old(sp) == sp + if grown.Some? then 1 else 0
      ensures r == Done ==>
        Changed(old(mapping), old(ptFrames), mapping, ptFrames, sp, v, f, grown.Some?, if grown.Some? then grown.value else 0)
      ensures r == Done ==> SlotsMoved(old(vpt2s[..]), vpt2s[..], old(freePts), freePts, Slot(v), Slot(sp), grown.Some?)
      ensures grown.Some? ==> old(freePts) == 1
      ensures if grown.Some? then hook.Took(old(hook.Frames()), grown.value, hook.Frames()) else hook.Frames() == old(hook.Frames())
    {
      grown := None;
      Shape();
      ghost var before, m, pt := vpt2s[..], mapping, ptFrames;
      if freePts == 1 {
        var g := GrowPool(hook);
        if g == None {
          return OutOfMemory, None;
        }
        grown := g;
        assert vpt2s[..][Slot(v)] == before[Slot(v)];
      }
      ghost var slots, more := vpt2s[..], freePts;
      PlainChange(mapping, ptFrames, sp, v, f);
      TakeTable(f, v);
      if grown.Some? {
        GrownChange(m, pt, sp, v, f, grown.value);
        GrownSlots(before, slots, vpt2s[..], 1, more, freePts, Slot(v), Slot(sp));
      }
      return Done, grown;
    }

    /** pt_try_map, of a user page or of one below the window. */
    method TryMap(f: nat, v: nat, hook: Hook, isSoft: bool) returns (r: Outcome, ghost grown: Option<nat>)
      requires Ok() && Sound() && MayMap(v) && Apart(hook) && vpt2s.Length == SLOTS
      requires forall g, p | g in hook.Frames() && p in ptFrames :: ptFrames[p] != g
      modifies this`pages, this`freeList, this`freePts, this`sp, this`mapping, this`ptFrames, pt2s, vpt2s, hook.State()
      ensures Ok() && hook.Valid()
      ensures r == if v in old(mapping) then if isSoft then AlreadyMapped else Aborted
                   else if old(Stuck(v, hook.Frames() == [])) then OutOfMemory
                   else Done
      ensures r != Done ==> grown == None && State() == old(State()) && mapping == old(mapping) && ptFrames == old(ptFrames)
      ensures r == Done ==> old(sp) == sp + if grown.Some? then 1 else 0
      ensures r == Done ==>
        Changed(old(mapping), old(ptFrames), mapping, ptFrames, sp, v, f, grown.Some?, if grown.Some? then grown.value else 0)
      ensures r == Done ==> SlotsMoved(old(vpt2s[..]), vpt2s[..], old(freePts), freePts, Slot(v), Slot(sp), grown.Some?)
      ensures grown.Some? ==> old(freePts) == 1 && old(vpt2s[Slot(v)]) == Null
      ensures if grown.Some? then hook.Took(old(hook.Frames()), grown.value, hook.Frames()) else hook.Frames() == old(hook.Frames())
    {
      if vpt2s[Slot(v)] != Null {
        PlainChange(mapping, ptFrames, sp, v, f);
        r := TryMapOld(f, v, isSoft);
        grown := None;
      } else {
        r, grown := TryMapNew(f, v, hook);
      }
    }

    /** Where the window may grow to is a matter of what is mapped below it. */
    ghost method SetFloor(to: nat)
      requires Ok() && forall v: nat | to <= v * PAGE && v < sp :: v !in mapping
      modifies this`floor
      ensures Ok() && floor == to
    {
      Open(State(), floor, mapping, ptFrames);
      FloorMoves(State(), floor, to);
      floor := to;
    }

    /** pt_unmap: None stands for no return, on a page that is not mapped: the routine aborts, or, where the
        page's slot has no table, reads through the null pointer and faults. */
    method PtUnmap(v: nat) returns (f: Option<nat>)
      requires Ok() && USER <= v < VPAGES
      modifies this`pages, this`freeList, this`freePts, this`mapping, pt2s, vpt2s
      ensures Ok()
      ensures f == None <==> v !in old(mapping)
      ensures f == None ==> mapping == old(mapping)
      ensures f.Some? ==> f.value == old(mapping)[v] && mapping == old(mapping) - {v}
    {
      ReadsMap(State(), floor, mapping, ptFrames, v);
      if vpt2s[Slot(v)] == Null {
        return None;
      }
      var At(p, id) := vpt2s[Slot(v)];
      var e := pages[p].tables[id][v % ENTRIES];
      if e == 0 {
        return None;
      }
      ClearMapped(v, p, id);
      return Some(e / PAGE);
    }

    method ClearMapped(v: nat, p: nat, id: nat)
      requires Ok() && v in mapping && v >= USER && vpt2s.Length == SLOTS && v < VPAGES && vpt2s[Slot(v)] == At(p, id)
      modifies this`pages, this`freeList, this`freePts, this`mapping, pt2s, vpt2s
      ensures Ok() && mapping == old(mapping) - {v}
    {
      ghost var s := State();
      Unmappable(s, floor, mapping, ptFrames, v);
      ClearEntry(v, p, id);
      UnmapUnmaps(s, v);
      UnmappedDenotes(s, State(), floor, mapping, ptFrames, v);
      mapping := mapping - {v};
    }

    method ClearEntry(v: nat, p: nat, id: nat)
      requires HasTable(State(), v) && Word(State(), v) != 0 && vpt2s[Slot(v)] == At(p, id)
      modifies this`pages, this`freeList, this`freePts, pt2s, vpt2s
      ensures State() == Unmap(old(State()), v)
    {
      assert SlotOk(State(), Slot(v));
      ClearOk(pages[p], id, v % ENTRIES);
      var freed := ClearInPage(p, id, v % ENTRIES);
      if freed {
        if pages[p].freeNum == 1 {
          freeList := [p] + freeList;
        }
        freePts := freePts + 1;
        SetSlot(Slot(v), Null, 0);
      }
    }

    /** Clears an entry; pt_inc_free_entrys_num_and_free_pt says whether its table is free now. */
    method ClearInPage(p: nat, id: nat, i: nat) returns (freed: bool)
      requires p in pages && PageOk(pages[p]) && id < TABLES && i < ENTRIES && pages[p].freeNum < TABLES
      modifies this`pages
      ensures pages == old(pages)[p := Clear(old(pages)[p], id, i)]
      ensures freed <==> pages[p].freeNum != old(pages)[p].freeNum
    {
      Store(p, id, i, 0);
      SetFreeEntries(p, id, pages[p].freeEntries[id] + 1);
      freed := pages[p].freeEntries[id] == ENTRIES;
      if freed {
        pages := pages[p := pages[p].(freeIds := pages[p].freeIds[pages[p].freeNum := id], freeNum := pages[p].freeNum + 1)];
      }
    }

    /** pt_is_map. */
    method IsMap(v: nat) returns (r: bool)
      requires Ok() && v < VPAGES
      ensures r <==> v in mapping
    {
      ReadsMap(State(), floor, mapping, ptFrames, v);
      if vpt2s[Slot(v)] != Null {
        var At(p, id) := vpt2s[Slot(v)];
        return pages[p].tables[id][v % ENTRIES] != 0;
      }
      return false;
    }
  }
}
