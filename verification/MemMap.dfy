/** mm.c: mapping and unmapping ranges of pages with frames from the stack of free frames. */
module MemMap {
  import opened Options
  import opened PageTables
  import opened PagePool
  import opened PoolMap
  import opened PtManage

  // ------------------------------------------------------------------
  // Every frame has one role
  // ------------------------------------------------------------------

  datatype Role = InStack(i: nat) | UserPage(v: nat) | Tables(p: nat)

  /** The roles are exact both ways: stack entries, user pages and PT pages have different frames, and
      together they have all of them. */
  ghost predicate Partition(role: map<nat, Role>, free: seq<nat>, m: map<nat, nat>, pt: map<nat, nat>) {
    && (forall i | 0 <= i < |free| :: free[i] in role && role[free[i]] == InStack(i))
    && (forall v | v in m && v >= USER :: m[v] in role && role[m[v]] == UserPage(v))
    && (forall p | p in pt :: pt[p] in role && role[pt[p]] == Tables(p))
    && (forall f {:trigger RoleOk(role[f], free, m, pt, f)} | f in role :: RoleOk(role[f], free, m, pt, f))
  }

  ghost predicate RoleOk(r: Role, free: seq<nat>, m: map<nat, nat>, pt: map<nat, nat>, f: nat) {
    match r
    case InStack(i) => i < |free| && free[i] == f
    case UserPage(v) => v in m && v >= USER && m[v] == f
    case Tables(p) => p in pt && pt[p] == f
  }

  ghost function UserMap(m: map<nat, nat>): map<nat, nat> {
    map v | v in m && v >= USER :: m[v]
  }

  lemma PopRole(role: map<nat, Role>, free: seq<nat>, f: nat, m: map<nat, nat>, pt: map<nat, nat>)
    requires Partition(role, free + [f], m, pt)
    ensures f in role && Partition(role - {f}, free, m, pt)
  {
    assert (free + [f])[|free|] == f;
    forall g | g in role && g != f ensures RoleOk(role[g], free, m, pt, g) {
      assert RoleOk(role[g], free + [f], m, pt, g);
    }
    assert RoleOk(role[f], free + [f], m, pt, f);
    forall i | 0 <= i < |free| ensures free[i] in role - {f} && role[free[i]] == InStack(i) {
      assert (free + [f])[i] == free[i];
    }
  }

  lemma PushRole(role: map<nat, Role>, free: seq<nat>, f: nat, m: map<nat, nat>, pt: map<nat, nat>)
    requires Partition(role, free, m, pt) && f !in role
    ensures Partition(role[f := InStack(|free|)], free + [f], m, pt)
  {
    forall g | g in role ensures RoleOk(role[g], free + [f], m, pt, g) {
      assert RoleOk(role[g], free, m, pt, g);
    }
    assert (free + [f])[|free|] == f;
  }

  lemma MapRole(role: map<nat, Role>, free: seq<nat>, v: nat, f: nat, m: map<nat, nat>, pt: map<nat, nat>)
    requires Partition(role, free, m, pt) && f !in role && v !in m && v >= USER
    ensures Partition(role[f := UserPage(v)], free, m[v := f], pt)
  {
    forall g | g in role ensures RoleOk(role[g], free, m[v := f], pt, g) {
      assert RoleOk(role[g], free, m, pt, g);
    }
  }

  lemma UnmapRole(role: map<nat, Role>, free: seq<nat>, v: nat, m: map<nat, nat>, pt: map<nat, nat>)
    requires Partition(role, free, m, pt) && v in m && v >= USER
    ensures m[v] in role && Partition(role - {m[v]}, free, m - {v}, pt)
  {
    forall g | g in role && g != m[v] ensures RoleOk(role[g], free, m - {v}, pt, g) {
      assert RoleOk(role[g], free, m, pt, g);
    }
  }

  lemma TablesRole(role: map<nat, Role>, free: seq<nat>, p: nat, f: nat, m: map<nat, nat>, pt: map<nat, nat>)
    requires Partition(role, free, m, pt) && f !in role && p !in pt && p < USER
    ensures Partition(role[f := Tables(p)], free, m[p := f], pt[p := f])
  {
    forall g | g in role ensures RoleOk(role[g], free, m[p := f], pt[p := f], g) {
      assert RoleOk(role[g], free, m, pt, g);
    }
  }

  lemma WithoutOne<K, V>(m: map<K, V>, k: K)
    requires k in m
    ensures |m - {k}| == |m| - 1
  {
    assert (m - {k}).Keys == m.Keys - {k};
    assert |m - {k}| == |(m - {k}).Keys| && |m| == |m.Keys|;
  }

  lemma {:induction false} TablesCount(role: map<nat, Role>, m: map<nat, nat>, pt: map<nat, nat>)
    requires Partition(role, [], m, pt) && forall v | v in m :: v < USER
    ensures |role| == |pt|
    decreases |pt|
  {
    if f :| f in role {
      assert RoleOk(role[f], [], m, pt, f);
      var p := role[f].p;
      WithoutOne(pt, p);
      WithoutOne(role, f);
      forall g | g in role && g != f ensures RoleOk(role[g], [], m, pt - {p}, g) {
        assert RoleOk(role[g], [], m, pt, g);
      }
      TablesCount(role - {f}, m, pt - {p});
    } else {
      assert pt == map[];
    }
  }

  lemma {:induction false} UserCount(role: map<nat, Role>, m: map<nat, nat>, pt: map<nat, nat>)
    requires Partition(role, [], m, pt)
    ensures |role| == |UserMap(m)| + |pt|
    decreases |UserMap(m)|
  {
    if v :| v in UserMap(m) {
      UnmapRole(role, [], v, m, pt);
      assert UserMap(m - {v}) == UserMap(m) - {v};
      WithoutOne(UserMap(m), v);
      WithoutOne(role, m[v]);
      UserCount(role - {m[v]}, m - {v}, pt);
    } else {
      forall v | v in m ensures v < USER {
        assert v !in UserMap(m);
      }
      TablesCount(role, m, pt);
    }
  }

  /** The frames are counted by their roles. */
  lemma {:induction false} RolesCount(role: map<nat, Role>, free: seq<nat>, m: map<nat, nat>, pt: map<nat, nat>)
    requires Partition(role, free, m, pt)
    ensures |role| == |free| + |UserMap(m)| + |pt|
    decreases |free|
  {
    if free != [] {
      var n := |free| - 1;
      assert free == free[..n] + [free[n]];
      PopRole(role, free[..n], free[n], m, pt);
      WithoutOne(role, free[n]);
      RolesCount(role - {free[n]}, free[..n], m, pt);
    } else {
      UserCount(role, m, pt);
    }
  }

  // ------------------------------------------------------------------
  // Frames on their way
  // ------------------------------------------------------------------

  /** What is known of the frames between two page operations, `hand` of them being on their way. The
      stack was allocated for as many as there are outside the PT pages. */
  ghost predicate FramesOk(role: map<nat, Role>, free: seq<nat>, m: map<nat, nat>, pt: map<nat, nat>, capacity: nat, hand: nat) {
    Partition(role, free, m, pt) && |role| + hand <= capacity + |pt|
  }

  ghost function RoleAfterMap(role: map<nat, Role>, p: nat, v: nat, f: nat, grown: bool, g: nat): map<nat, Role> {
    (if grown then role[g := Tables(p)] else role)[f := UserPage(v)]
  }

  lemma WithOne<K, V>(m: map<K, V>, k: K, v: V)
    ensures |m[k := v]| == |m| + if k in m then 0 else 1
  {
    assert m[k := v].Keys == m.Keys + {k};
    assert |m[k := v]| == |m[k := v].Keys| && |m| == |m.Keys|;
  }

  /** u is the part of the mapping m that belongs to callers of mmap. */
  ghost predicate UserIs(u: map<nat, nat>, m: map<nat, nat>) {
    u == UserMap(m)
  }

  lemma UserMapGrows(m: map<nat, nat>, p: nat, v: nat, f: nat, g: nat)
    requires v >= USER && p < USER
    ensures UserMap(m[v := f]) == UserMap(m)[v := f]
    ensures UserMap(m[p := g][v := f]) == UserMap(m)[v := f]
  {
  }

  lemma MapKeepsPartition(role: map<nat, Role>, free: seq<nat>, m: map<nat, nat>, pt: map<nat, nat>, p: nat, v: nat, f: nat, g: nat)
    requires Partition(role, free + [g], m, pt)
    requires f !in role && v !in m && v >= USER && p < USER && p !in pt
    ensures g in role && Partition(RoleAfterMap(role, p, v, f, true, g), free, m[p := g][v := f], pt[p := g])
  {
    PopRole(role, free, g, m, pt);
    TablesRole(role - {g}, free, p, g, m, pt);
    assert (role - {g})[g := Tables(p)] == role[g := Tables(p)];
    MapRole(role[g := Tables(p)], free, v, f, m[p := g], pt[p := g]);
  }

  lemma RoleCounts(role: map<nat, Role>, p: nat, v: nat, f: nat, grown: bool, g: nat)
    requires f !in role && (grown ==> g in role)
    ensures |RoleAfterMap(role, p, v, f, grown, g)| == |role| + 1
    ensures RoleAfterMap(role, p, v, f, grown, g).Keys == role.Keys + {f}
  {
    var taken := if grown then role[g := Tables(p)] else role;
    WithOne(role, g, Tables(p));
    WithOne(taken, f, UserPage(v));
  }

  /** Taking a page into use keeps the frames, of which one was in hand. */
  lemma ChangeKeepsFrames(role: map<nat, Role>, free: seq<nat>, rest: seq<nat>, m: map<nat, nat>, pt: map<nat, nat>,
                          m': map<nat, nat>, pt': map<nat, nat>, capacity: nat, p: nat, v: nat, f: nat, grown: bool, g: nat, u: map<nat, nat>)
    requires FramesOk(role, free, m, pt, capacity, 1) && f !in role && v !in m && v >= USER && UserIs(u, m)
    requires free == if grown then rest + [g] else rest
    requires Changed(m, pt, m', pt', p, v, f, grown, g)
    ensures FramesOk(RoleAfterMap(role, p, v, f, grown, g), rest, m', pt', capacity, 0)
    ensures RoleAfterMap(role, p, v, f, grown, g).Keys == role.Keys + {f}
    ensures UserIs(u[v := f], m')
  {
    assert Spell(0);
    if grown {
      MapKeepsPartition(role, rest, m, pt, p, v, f, g);
      WithOne(pt, p, g);
      UserMapGrows(m, p, v, f, g);
    } else {
      MapRole(role, rest, v, f, m, pt);
      UserMapGrows(m, 0, v, f, 0);
    }
    RoleCounts(role, p, v, f, grown, g);
  }

  lemma PushKeepsFrames(role: map<nat, Role>, free: seq<nat>, m: map<nat, nat>, pt: map<nat, nat>, capacity: nat, f: nat)
    requires FramesOk(role, free, m, pt, capacity, 1) && f !in role
    ensures |free| < capacity && FramesOk(role[f := InStack(|free|)], free + [f], m, pt, capacity, 0)
    ensures role[f := InStack(|free|)].Keys == role.Keys + {f}
  {
    RolesCount(role, free, m, pt);
    PushRole(role, free, f, m, pt);
    WithOne(role, f, InStack(|free|));
  }

  lemma PopKeepsFrames(role: map<nat, Role>, free: seq<nat>, m: map<nat, nat>, pt: map<nat, nat>, capacity: nat, f: nat)
    requires FramesOk(role, free + [f], m, pt, capacity, 0)
    ensures f in role && FramesOk(role - {f}, free, m, pt, capacity, 1)
    ensures (role - {f}).Keys == role.Keys - {f}
    ensures forall g, p | g in free && p in pt :: pt[p] != g
  {
    PopRole(role, free, f, m, pt);
    WithoutOne(role, f);
    forall g, p | g in free && p in pt ensures pt[p] != g {
      var i :| 0 <= i < |free| && free[i] == g;
      assert (free + [f])[i] == g;
    }
  }

  lemma UnmapKeepsFrames(role: map<nat, Role>, free: seq<nat>, m: map<nat, nat>, pt: map<nat, nat>, capacity: nat, v: nat, u: map<nat, nat>)
    requires FramesOk(role, free, m, pt, capacity, 0) && v in m && v >= USER && UserIs(u, m)
    ensures m[v] in role && FramesOk(role - {m[v]}, free, m - {v}, pt, capacity, 1)
    ensures (role - {m[v]}).Keys == role.Keys - {m[v]} && UserIs(u - {v}, m - {v})
  {
    UnmapRole(role, free, v, m, pt);
    WithoutOne(role, m[v]);
  }

  // Each of these unfolds one of the sealed predicates below.

  ghost predicate Recall(k: nat) { true }

  ghost predicate Recount(k: nat) { true }

  ghost predicate Unlock(k: nat) { true }

  /** The same with the user pages, sealed. */
  ghost predicate Kept(role: map<nat, Role>, free: seq<nat>, m: map<nat, nat>, pt: map<nat, nat>, capacity: nat, hand: nat, u: map<nat, nat>) {
    forall k: nat {:trigger Recall(k)} :: Recall(k) ==> FramesOk(role, free, m, pt, capacity, hand) && UserIs(u, m)
  }

  lemma OpenKept(role: map<nat, Role>, free: seq<nat>, m: map<nat, nat>, pt: map<nat, nat>, capacity: nat, hand: nat, u: map<nat, nat>)
    requires Kept(role, free, m, pt, capacity, hand, u)
    ensures FramesOk(role, free, m, pt, capacity, hand) && UserIs(u, m)
  {
    assert Recall(0);
  }

  lemma MapKeeps(role: map<nat, Role>, free: seq<nat>, rest: seq<nat>, m: map<nat, nat>, pt: map<nat, nat>,
                 m': map<nat, nat>, pt': map<nat, nat>, capacity: nat, p: nat, v: nat, f: nat, grown: bool, g: nat, u: map<nat, nat>)
    requires Kept(role, free, m, pt, capacity, 1, u) && f !in role && v !in m && v >= USER
    requires free == if grown then rest + [g] else rest
    requires Changed(m, pt, m', pt', p, v, f, grown, g)
    ensures Kept(RoleAfterMap(role, p, v, f, grown, g), rest, m', pt', capacity, 0, u[v := f])
    ensures RoleAfterMap(role, p, v, f, grown, g).Keys == role.Keys + {f}
  {
    OpenKept(role, free, m, pt, capacity, 1, u);
    ChangeKeepsFrames(role, free, rest, m, pt, m', pt', capacity, p, v, f, grown, g, u);
  }

  lemma PushKeeps(role: map<nat, Role>, free: seq<nat>, m: map<nat, nat>, pt: map<nat, nat>, capacity: nat, f: nat, u: map<nat, nat>)
    requires Kept(role, free, m, pt, capacity, 1, u) && f !in role
    ensures |free| < capacity && Kept(role[f := InStack(|free|)], free + [f], m, pt, capacity, 0, u)
    ensures role[f := InStack(|free|)].Keys == role.Keys + {f}
  {
    OpenKept(role, free, m, pt, capacity, 1, u);
    PushKeepsFrames(role, free, m, pt, capacity, f);
  }

  lemma PopKeeps(role: map<nat, Role>, free: seq<nat>, m: map<nat, nat>, pt: map<nat, nat>, capacity: nat, f: nat, u: map<nat, nat>)
    requires Kept(role, free + [f], m, pt, capacity, 0, u)
    ensures f in role && f !in role - {f} && Kept(role - {f}, free, m, pt, capacity, 1, u)
    ensures (role - {f}).Keys == role.Keys - {f} && (role - {f}).Keys + {f} == role.Keys
    ensures forall g, p | g in free && p in pt :: pt[p] != g
  {
    OpenKept(role, free + [f], m, pt, capacity, 0, u);
    PopKeepsFrames(role, free, m, pt, capacity, f);
  }

  lemma ForgetKeeps(role: map<nat, Role>, free: seq<nat>, m: map<nat, nat>, pt: map<nat, nat>, capacity: nat, v: nat, u: map<nat, nat>)
    requires Kept(role, free, m, pt, capacity, 0, u) && v in m && v >= USER
    ensures m[v] in role && Kept(role - {m[v]}, free, m - {v}, pt, capacity, 1, u - {v})
    ensures (role - {m[v]}).Keys == role.Keys - {m[v]}
  {
    OpenKept(role, free, m, pt, capacity, 0, u);
    UnmapKeepsFrames(role, free, m, pt, capacity, v, u);
  }

  lemma KeptUser(role: map<nat, Role>, free: seq<nat>, m: map<nat, nat>, pt: map<nat, nat>, capacity: nat, hand: nat, u: map<nat, nat>, v: nat)
    requires Kept(role, free, m, pt, capacity, hand, u) && v >= USER
    ensures v in u <==> v in m
  {
    OpenKept(role, free, m, pt, capacity, hand, u);
  }

  // ------------------------------------------------------------------
  // The memory manager
  // ------------------------------------------------------------------

  /** The user pages u are those of u0 and the n pages from addr on. */
  ghost predicate Filled(u0: map<nat, nat>, u: map<nat, nat>, addr: nat, n: nat) {
    && (forall v: nat :: v in u <==> v in u0 || addr <= v < addr + n)
    && (forall v: nat | v in u0 :: u[v] == u0[v])
  }

  /** Unmapping the listed pages leaves the user pages u0. */
  ghost predicate Undoes(mapped: seq<nat>, u0: map<nat, nat>, u: map<nat, nat>) {
    && Distinct(mapped)
    && (forall i | 0 <= i < |mapped| :: mapped[i] in u && USER <= mapped[i] < VPAGES)
    && (forall v: nat :: v in u0 <==> v in u && v !in mapped)
    && (forall v: nat | v in u0 && v in u :: u[v] == u0[v])
  }

  /** How many of the n pages from addr on are mapped in u0. */
  ghost function Occupied(u0: map<nat, nat>, addr: nat, n: nat): nat {
    if n == 0 then 0 else Occupied(u0, addr, n - 1) + if addr + n - 1 in u0 then 1 else 0
  }

  lemma {:induction false} NoneOccupied(u0: map<nat, nat>, addr: nat, n: nat)
    ensures Occupied(u0, addr, n) == 0 <==> forall v: nat | addr <= v < addr + n :: v !in u0
  {
    if n > 0 {
      NoneOccupied(u0, addr, n - 1);
    }
  }

  lemma FilledMore(u0: map<nat, nat>, u: map<nat, nat>, mapped: seq<nat>, addr: nat, n: nat, f: nat)
    requires Filled(u0, u, addr, n) && Undoes(mapped, u0, u) && addr + n !in u && USER <= addr + n < VPAGES
    ensures Filled(u0, u[addr + n := f], addr, n + 1) && Undoes([addr + n] + mapped, u0, u[addr + n := f])
  {
    var mapped' := [addr + n] + mapped;
    assert forall i | 0 < i < |mapped'| :: mapped'[i] == mapped[i - 1];
    forall v: nat ensures v in mapped' <==> v == addr + n || v in mapped {}
  }

  lemma UndoneOne(mapped: seq<nat>, u0: map<nat, nat>, u: map<nat, nat>)
    requires Undoes(mapped, u0, u) && mapped != []
    ensures Undoes(mapped[1..], u0, u - {mapped[0]})
  {
    forall v: nat ensures v in mapped <==> v == mapped[0] || v in mapped[1..] {
      assert mapped == [mapped[0]] + mapped[1..];
    }
  }

  /** Where alloc_page_lock_routine stands after n pages: from user pages u0 and the frames all0 it has
      come to u and all, keeping the list of what it mapped and having lost the frames of soft mode. */
  ghost predicate Progress(u0: map<nat, nat>, all0: set<nat>, u: map<nat, nat>, all: set<nat>, mapped: seq<nat>, lost: set<nat>,
                           addr: nat, n: nat, isSoft: bool) {
    forall k: nat {:trigger Recount(k)} :: Recount(k) ==>
      Filled(u0, u, addr, n) && Undoes(mapped, u0, u) && Loses(all0, all, lost, u0, addr, n, isSoft)
  }

  /** Of the frames all0 those in `lost` are no longer accounted for, one for each of the first n pages
      that was mapped already. */
  ghost predicate Loses(all0: set<nat>, all: set<nat>, lost: set<nat>, u0: map<nat, nat>, addr: nat, n: nat, isSoft: bool) {
    && lost <= all0 && all == all0 - lost && |lost| == Occupied(u0, addr, n)
    && (!isSoft ==> lost == {})
  }

  /** No frame is lost exactly if none of those pages was mapped. */
  lemma LosesIff(all0: set<nat>, all: set<nat>, lost: set<nat>, u0: map<nat, nat>, addr: nat, n: nat, isSoft: bool)
    requires Loses(all0, all, lost, u0, addr, n, isSoft)
    ensures all == all0 <==> NoneMapped(u0, addr, n)
  {
    NoneOccupied(u0, addr, n);
    if f :| f in lost {
      assert f in all0 && f !in all;
    }
  }

  lemma ProgressIs(u0: map<nat, nat>, all0: set<nat>, u: map<nat, nat>, all: set<nat>, mapped: seq<nat>, lost: set<nat>,
                   addr: nat, n: nat, isSoft: bool)
    requires Progress(u0, all0, u, all, mapped, lost, addr, n, isSoft)
    ensures Filled(u0, u, addr, n) && Undoes(mapped, u0, u) && Loses(all0, all, lost, u0, addr, n, isSoft)
  {
    assert Recount(0);
  }

  lemma StartProgress(u0: map<nat, nat>, all0: set<nat>, addr: nat, isSoft: bool)
    ensures Progress(u0, all0, u0, all0, [], {}, addr, 0, isSoft)
  {
  }

  lemma MappedProgress(u0: map<nat, nat>, all0: set<nat>, u: map<nat, nat>, all: set<nat>, mapped: seq<nat>, lost: set<nat>,
                       addr: nat, n: nat, isSoft: bool, f: nat)
    requires Progress(u0, all0, u, all, mapped, lost, addr, n, isSoft) && addr + n !in u && USER <= addr + n < VPAGES
    ensures addr + n !in u0
    ensures Progress(u0, all0, u[addr + n := f], all, [addr + n] + mapped, lost, addr, n + 1, isSoft)
  {
    ProgressIs(u0, all0, u, all, mapped, lost, addr, n, isSoft);
    FilledMore(u0, u, mapped, addr, n, f);
  }

  lemma LostProgress(u0: map<nat, nat>, all0: set<nat>, u: map<nat, nat>, all: set<nat>, mapped: seq<nat>, lost: set<nat>,
                     addr: nat, n: nat, f: nat)
    requires Progress(u0, all0, u, all, mapped, lost, addr, n, true) && addr + n in u && f in all
    ensures addr + n in u0
    ensures Progress(u0, all0, u, all - {f}, mapped, lost + {f}, addr, n + 1, true)
  {
    ProgressIs(u0, all0, u, all, mapped, lost, addr, n, true);
  }

  /** Of a page range, whether it is a range of user pages. */
  ghost predicate UserRange(addr: nat, n: nat) {
    USER <= addr && addr + n <= VPAGES
  }

  const USER_MIN: nat := 0x400_0000_0000
  const USER_MAX: nat := 0x2000_0000_0000

  /** What both mmap and munmap ask of their arguments, in bytes; they abort otherwise. */
  predicate GoodRange(addr: nat, length: nat) {
    addr % PAGE == 0 && length % PAGE == 0 && USER_MIN <= addr <= USER_MAX && length <= USER_MAX - addr
  }

  /** What the callers are promised: ranges of whole pages of 2 MiB between 4 TiB and 32 TiB. */
  ghost predicate Permitted(addr: nat, length: nat) {
    addr % 0x20_0000 == 0 && length % 0x20_0000 == 0 && 0x400_0000_0000 <= addr && addr + length <= 0x2000_0000_0000
  }

  /** The tests let through exactly those. */
  lemma RangeTest(addr: nat, length: nat)
    ensures GoodRange(addr, length) <==> Permitted(addr, length)
    ensures Permitted(addr, length) ==> UserRange(addr / PAGE, length / PAGE)
  {
  }

  ghost predicate AllMapped(u: map<nat, nat>, addr: nat, n: nat) {
    forall v: nat | addr <= v < addr + n :: v in u
  }

  ghost predicate NoneMapped(u: map<nat, nat>, addr: nat, n: nat) {
    forall v: nat | addr <= v < addr + n :: v !in u
  }

  /** u has the n pages from addr on more than u0: what mmap makes of u0, and munmap takes back. */
  ghost predicate MapsRange(u0: map<nat, nat>, u: map<nat, nat>, addr: nat, n: nat) {
    NoneMapped(u0, addr, n) && Filled(u0, u, addr, n)
  }

  /** munmap of a range undoes mmap of the same range. */
  lemma UnmapUndoesMap(u0: map<nat, nat>, u1: map<nat, nat>, u2: map<nat, nat>, addr: nat, n: nat)
    requires MapsRange(u0, u1, addr, n) && MapsRange(u2, u1, addr, n)
    ensures u2 == u0
  {
  }

  lemma Emptied(u0: map<nat, nat>, u: map<nat, nat>, addr: nat, i: nat)
    requires Filled(u, u0, addr, i) && NoneMapped(u, addr, i) && addr + i in u
    ensures Filled(u - {addr + i}, u0, addr, i + 1) && NoneMapped(u - {addr + i}, addr, i + 1)
  {
  }

  // ------------------------------------------------------------------
  // What a range needs
  // ------------------------------------------------------------------

  lemma NothingNew(u: map<nat, nat>, u': map<nat, nat>, v: nat)
    requires v in u && Filled(u, u', v, 1)
    ensures u' == u
  {
  }

  lemma OneLost(u: map<nat, nat>, v: nat, all: set<nat>, lost: set<nat>, left: set<nat>)
    requires v in u && Loses(all, left, lost, u, v, 1, true)
    ensures left < all && |left| + 1 == |all|
  {
    assert Occupied(u, v, 1) == Occupied(u, v, 0) + 1 == 1;
    if lost != {} {
      var f :| f in lost;
      assert f in all && f !in left;
    }
  }

  /** How many of the slots from lo up to hi have no table. */
  ghost function NullSlots(slots: seq<Ref>, lo: nat, hi: nat): nat
    requires lo <= hi <= |slots|
  {
    if lo == hi then 0 else NullSlots(slots, lo, hi - 1) + if slots[hi - 1] == Null then 1 else 0
  }

  lemma OneSlot(slots: seq<Ref>, d: nat)
    requires d < |slots|
    ensures NullSlots(slots, d, d + 1) == if slots[d] == Null then 1 else 0
  {
    assert NullSlots(slots, d, d) == 0;
  }

  lemma {:induction false} SlotsSpent(slots: seq<Ref>, slots': seq<Ref>, freePts: nat, freePts': nat, d: nat, w: nat, grown: bool, lo: nat, hi: nat)
    requires SlotsMoved(slots, slots', freePts, freePts', d, w, grown) && lo <= hi <= SLOTS && !(lo <= w < hi)
    ensures NullSlots(slots, lo, hi) == NullSlots(slots', lo, hi) + if lo <= d < hi && slots[d] == Null then 1 else 0
  {
    if lo < hi {
      SlotsSpent(slots, slots', freePts, freePts', d, w, grown, lo, hi - 1);
    }
  }

  lemma {:induction false} NullSlotsBound(slots: seq<Ref>, lo: nat, hi: nat)
    requires lo <= hi <= |slots|
    ensures NullSlots(slots, lo, hi) <= hi - lo
  {
    if lo < hi {
      NullSlotsBound(slots, lo, hi - 1);
    }
  }

  lemma {:induction false} SomeNull(slots: seq<Ref>, d: nat, lo: nat, hi: nat)
    requires lo <= d < hi <= |slots|
    ensures slots[d] == Null ==> NullSlots(slots, lo, hi) > 0
  {
    if d < hi - 1 {
      SomeNull(slots, d, lo, hi - 1);
    }
  }

  /** The slots of the n pages from addr on end there. */
  function EndSlot(addr: nat, n: nat): nat {
    (addr + n + ENTRIES - 1) / ENTRIES
  }

  lemma EndSlotBounds(addr: nat, n: nat)
    requires addr + n <= VPAGES
    ensures Slot(addr) <= EndSlot(addr, n) <= SLOTS
    ensures n == 1 ==> EndSlot(addr, n) == Slot(addr) + 1
  {
  }

  lemma InSlots(addr: nat, n: nat, i: nat)
    requires UserRange(addr, n) && i < n
    ensures Slot(addr) <= Slot(addr + i) < EndSlot(addr, n) <= SLOTS && Slot(TOP) < Slot(addr)
  {
  }

  /** So many PT pages are needed for `wanted` tables, one being kept in reserve; each brings 510 tables, of
      which one may go to map the PT page itself. */
  function Growths(wanted: nat, freePts: nat): nat {
    if wanted < freePts then 0 else (wanted - freePts) / (TABLES - 1) + 1
  }

  /** With g PT pages more there are frames, room and tables for `pages` pages in the slots lo to hi. */
  ghost predicate Backed(slots: seq<Ref>, freePts: nat, sp: nat, spMin: nat, frames: nat, lo: nat, hi: nat, pages: nat, g: nat) {
    && |slots| == SLOTS && lo <= hi <= SLOTS
    && freePts + (TABLES - 1) * g > NullSlots(slots, lo, hi)
    && frames >= pages + g
    && (g > 0 ==> sp * PAGE >= spMin + g * PAGE)
  }

  lemma GrowthsBack(slots: seq<Ref>, freePts: nat, sp: nat, spMin: nat, frames: nat, lo: nat, hi: nat, pages: nat)
    requires |slots| == SLOTS && lo <= hi <= SLOTS && freePts >= 1
    requires var g := Growths(NullSlots(slots, lo, hi), freePts); frames >= pages + g && (g > 0 ==> sp * PAGE >= spMin + g * PAGE)
    ensures Backed(slots, freePts, sp, spMin, frames, lo, hi, pages, Growths(NullSlots(slots, lo, hi), freePts))
  {
  }

  /** Then the next page is not refused. */
  lemma BackedServes(slots: seq<Ref>, freePts: nat, sp: nat, spMin: nat, frames: nat, lo: nat, hi: nat, pages: nat, g: nat, d: nat)
    requires Backed(slots, freePts, sp, spMin, frames, lo, hi, pages, g) && pages > 0 && lo <= d < hi
    ensures frames > 0
    ensures slots[d] == Null && freePts == 1 ==> g > 0 && frames > 1 && sp * PAGE > spMin && sp * PAGE - spMin >= PAGE
  {
    SomeNull(slots, d, lo, hi);
  }

  lemma BackedStep(slots: seq<Ref>, slots': seq<Ref>, freePts: nat, freePts': nat, sp: nat, spMin: nat, frames: nat,
                   lo: nat, hi: nat, pages: nat, g: nat, d: nat, w: nat, grown: bool)
    requires Backed(slots, freePts, sp, spMin, frames, lo, hi, pages, g) && pages > 0 && lo <= d < hi && w < lo
    requires SlotsMoved(slots, slots', freePts, freePts', d, w, grown)
    requires grown ==> freePts == 1 && slots[d] == Null
    ensures grown ==> g > 0 && sp > 0
    ensures frames >= 1 + if grown then 1 else 0
    ensures if grown then Backed(slots', freePts', sp - 1, spMin, frames - 2, lo, hi, pages - 1, g - 1)
            else Backed(slots', freePts', sp, spMin, frames - 1, lo, hi, pages - 1, g)
  {
    SlotsSpent(slots, slots', freePts, freePts', d, w, grown, lo, hi);
    BackedServes(slots, freePts, sp, spMin, frames, lo, hi, pages, g, d);
  }

  /** A mapping of page v has used at most one table for it, after growing the pool where none was left. */
  ghost predicate TablesUsed(s: Pool, r: Pool, v: nat, grown: bool) {
    && v / ENTRIES < |s.vpt2s| && r.sp <= TOP && s.sp == r.sp + (if grown then 1 else 0)
    && SlotsMoved(s.vpt2s, r.vpt2s, s.freePts, r.freePts, Slot(v), Slot(r.sp), grown)
    && (grown ==> s.freePts == 1 && s.vpt2s[Slot(v)] == Null)
  }

  ghost predicate Tally(k: nat) { true }

  /** The books of the loop in alloc_page_lock_routine after i of the n pages, with user pages u, frames all,
      tables s and a stack of `frames`. It began with u0, all0 and frames0; if that was `enough`, then g of
      the g0 PT pages reckoned with may still be needed. Sealed. */
  ghost predicate Along(u: map<nat, nat>, all: set<nat>, s: Pool, spMin: nat, frames: nat, u0: map<nat, nat>, all0: set<nat>, frames0: nat,
                        mapped: seq<nat>, lost: set<nat>, addr: nat, n: nat, i: nat, isSoft: bool, enough: bool, g: nat, g0: nat) {
    forall k: nat {:trigger Tally(k)} :: Tally(k) ==>
      && Progress(u0, all0, u, all, mapped, lost, addr, i, isSoft)
      && (enough ==> OnBudget(s, spMin, frames, frames0, addr, n, i, g, g0))
  }

  ghost predicate OnBudget(s: Pool, spMin: nat, frames: nat, frames0: nat, addr: nat, n: nat, i: nat, g: nat, g0: nat) {
    && i <= n && g <= g0 && frames + i + (g0 - g) == frames0
    && Backed(s.vpt2s, s.freePts, s.sp, spMin, frames, Slot(addr), EndSlot(addr, n), n - i, g)
  }

  lemma EndAlong(u: map<nat, nat>, all: set<nat>, s: Pool, spMin: nat, frames: nat, u0: map<nat, nat>, all0: set<nat>, frames0: nat,
                 mapped: seq<nat>, lost: set<nat>, addr: nat, n: nat, i: nat, isSoft: bool, enough: bool, g: nat, g0: nat)
    requires Along(u, all, s, spMin, frames, u0, all0, frames0, mapped, lost, addr, n, i, isSoft, enough, g, g0)
    ensures Filled(u0, u, addr, i) && Undoes(mapped, u0, u) && Loses(all0, all, lost, u0, addr, i, isSoft)
    ensures enough ==> g <= g0 && frames + i + (g0 - g) == frames0
  {
    assert Tally(0);
    ProgressIs(u0, all0, u, all, mapped, lost, addr, i, isSoft);
  }

  /** The next page was mapped already, which hard mode does not allow. */
  lemma FoundTurn(u: map<nat, nat>, all: set<nat>, s: Pool, spMin: nat, frames: nat, u0: map<nat, nat>, all0: set<nat>, frames0: nat,
                  mapped: seq<nat>, lost: set<nat>, addr: nat, n: nat, i: nat, isSoft: bool, enough: bool, g: nat, g0: nat)
    requires Along(u, all, s, spMin, frames, u0, all0, frames0, mapped, lost, addr, n, i, isSoft, enough, g, g0)
    requires i < n && addr + i in u
    ensures !NoneMapped(u0, addr, n)
  {
    EndAlong(u, all, s, spMin, frames, u0, all0, frames0, mapped, lost, addr, n, i, isSoft, enough, g, g0);
  }

  /** The next page has been mapped. */
  lemma MappedTurn(u: map<nat, nat>, all: set<nat>, s: Pool, spMin: nat, frames: nat, u0: map<nat, nat>, all0: set<nat>, frames0: nat,
                   mapped: seq<nat>, lost: set<nat>, addr: nat, n: nat, i: nat, isSoft: bool, enough: bool, g: nat, g0: nat,
                   f: nat, r: Pool, grown: bool, frames': nat)
    requires Along(u, all, s, spMin, frames, u0, all0, frames0, mapped, lost, addr, n, i, isSoft, enough, g, g0)
    requires UserRange(addr, n) && i < n && addr + i !in u && Slot(addr + i) < |s.vpt2s| && TablesUsed(s, r, addr + i, grown)
    requires frames' + 1 + (if grown then 1 else 0) == frames
    ensures enough && grown ==> g > 0
    ensures Along(u[addr + i := f], all, r, spMin, frames', u0, all0, frames0, [addr + i] + mapped, lost, addr, n, i + 1, isSoft,
                  enough, if enough && grown then g - 1 else g, g0)
  {
    assert Tally(0);
    MappedProgress(u0, all0, u, all, mapped, lost, addr, i, isSoft, f);
    if enough {
      InSlots(addr, n, i);
      BackedStep(s.vpt2s, r.vpt2s, s.freePts, r.freePts, s.sp, spMin, frames, Slot(addr), EndSlot(addr, n), n - i, g, Slot(addr + i), Slot(r.sp), grown);
    }
  }

  /** The next page was mapped already, and a frame is lost. */
  lemma LostTurn(u: map<nat, nat>, all: set<nat>, s: Pool, spMin: nat, frames: nat, u0: map<nat, nat>, all0: set<nat>, frames0: nat,
                 mapped: seq<nat>, lost: set<nat>, addr: nat, n: nat, i: nat, enough: bool, g: nat, g0: nat, f: nat, frames': nat)
    requires Along(u, all, s, spMin, frames, u0, all0, frames0, mapped, lost, addr, n, i, true, enough, g, g0)
    requires i < n && addr + i in u && f in all && frames' + 1 == frames
    ensures Along(u, all - {f}, s, spMin, frames', u0, all0, frames0, mapped, lost + {f}, addr, n, i + 1, true, enough, g, g0)
  {
    assert Tally(0);
    LostProgress(u0, all0, u, all, mapped, lost, addr, i, f);
  }

  class Memory {
    const tables: PageTable
    const stack: FrameStack
    ghost var role: map<nat, Role>
    ghost var user: map<nat, nat>   // the pages mapped by mmap

    /** What holds while the lock is held and `hand` frames are on their way. */
    ghost predicate Holds(hand: nat)
      reads this, tables, tables.pt2s, tables.vpt2s, stack, stack.frames
    {
      && tables.Ok() && stack.Valid() && stack.frames != tables.pt2s && tables.spMin == tables.floor
      && Kept(role, stack.Contents(), tables.mapping, tables.ptFrames, stack.frames.Length, hand, user)
    }

    /** What holds when the lock is free. */
    ghost predicate Valid()
      reads this, tables, tables.pt2s, tables.vpt2s, stack, stack.frames
    {
      && tables.vpt2s.Length == SLOTS
      && forall k: nat {:trigger Unlock(k)} :: Unlock(k) ==> Holds(0)
    }

    lemma Open()
      requires Valid()
      ensures Holds(0)
    {
      assert Unlock(0);
    }

    lemma Seal()
      requires Holds(0)
      ensures Valid()
    {
      tables.Shape();
    }

    /** The frames that are accounted for: free, mapped by mmap, or PT pages. */
    ghost function Frames(): set<nat>
      reads this
    {
      role.Keys
    }

    /** Over tables and a stack that boot has set up; every frame it handed out has its role. */
    constructor (tables: PageTable, stack: FrameStack, ghost role: map<nat, Role>)
      requires tables.Ok() && stack.Valid() && stack.frames != tables.pt2s && tables.spMin == tables.floor
      requires FramesOk(role, stack.Contents(), tables.mapping, tables.ptFrames, stack.frames.Length, 0)
      ensures this.tables == tables && this.stack == stack && this.role == role && this.user == UserMap(tables.mapping) && Valid()
    {
      this.tables, this.stack, this.role, this.user := tables, stack, role, UserMap(tables.mapping);
      tables.Shape();
    }

    method TakeFrame() returns (f: nat)
      requires Holds(0) && stack.num > 0
      modifies this, stack
      ensures Holds(1) && f !in role && f in old(Frames()) && user == old(user) && stack.num + 1 == old(stack.num)
      ensures Frames() == old(Frames()) - {f} && Frames() + {f} == old(Frames())
      ensures forall g, p | g in stack.Contents() && p in tables.ptFrames :: tables.ptFrames[p] != g
    {
      var r := stack.Pop();
      f := r.value;
      Withdraw(f);
    }

    /** The frame taken from the stack is in hand now. */
    ghost method Withdraw(f: nat)
      requires tables.Ok() && stack.Valid() && stack.frames != tables.pt2s && tables.spMin == tables.floor
      requires Kept(role, stack.Contents() + [f], tables.mapping, tables.ptFrames, stack.frames.Length, 0, user)
      modifies this
      ensures Holds(1) && f !in role && f in old(Frames()) && user == old(user)
      ensures Frames() == old(Frames()) - {f} && Frames() + {f} == old(Frames())
      ensures forall g, p | g in stack.Contents() && p in tables.ptFrames :: tables.ptFrames[p] != g
    {
      PopKeeps(role, stack.Contents(), tables.mapping, tables.ptFrames, stack.frames.Length, f, user);
      role := role - {f};
    }

    method GiveFrame(f: nat)
      requires Holds(1) && f !in role
      modifies this, stack, stack.frames
      ensures Holds(0) && Frames() == old(Frames()) + {f} && user == old(user) && stack.num == old(stack.num) + 1
    {
      PushKeeps(role, stack.Contents(), tables.mapping, tables.ptFrames, stack.frames.Length, f, user);
      role := role[f := InStack(|stack.Contents()|)];
      stack.Push(f);
    }

    /** The frame in hand is page v's now. */
    ghost method Enrol(free: seq<nat>, m: map<nat, nat>, pt: map<nat, nat>, v: nat, f: nat, grown: bool, g: nat)
      requires Kept(role, free, m, pt, stack.frames.Length, 1, user) && f !in role && v !in m && v >= USER
      requires tables.Ok() && stack.Valid() && stack.frames != tables.pt2s && tables.spMin == tables.floor
      requires free == if grown then stack.Contents() + [g] else stack.Contents()
      requires Changed(m, pt, tables.mapping, tables.ptFrames, tables.sp, v, f, grown, g)
      modifies this
      ensures Holds(0) && user == old(user)[v := f] && Frames() == old(Frames()) + {f}
    {
      MapKeeps(role, free, stack.Contents(), m, pt, tables.mapping, tables.ptFrames, stack.frames.Length,
               tables.sp, v, f, grown, g, user);
      user := user[v := f];
      role := RoleAfterMap(role, tables.sp, v, f, grown, g);
    }

    /** pt_try_map of a user page; the hook takes frames from the stack. */
    method TryTables(f: nat, v: nat, isSoft: bool) returns (r: Outcome, ghost g: Option<nat>)
      requires Holds(1) && USER <= v < VPAGES && tables.vpt2s.Length == SLOTS
      requires forall g, p | g in stack.Contents() && p in tables.ptFrames :: tables.ptFrames[p] != g
      modifies tables, tables.pt2s, tables.vpt2s, stack
      ensures tables.Ok() && stack.Valid() && tables.spMin == tables.floor == old(tables.spMin)
      ensures r == if v in user then if isSoft then AlreadyMapped else Aborted
                   else if old(tables.Stuck(v, stack.num == 0)) then OutOfMemory
                   else Done
      ensures r != Done ==> Holds(1) && tables.State() == old(tables.State()) && stack.num == old(stack.num)
      ensures r == Done ==> v !in old(tables.mapping)
      ensures r == Done ==> Changed(old(tables.mapping), old(tables.ptFrames), tables.mapping, tables.ptFrames, tables.sp, v, f,
                                    g.Some?, if g.Some? then g.value else 0)
      ensures r == Done ==> TablesUsed(old(tables.State()), tables.State(), v, g.Some?)
      ensures r == Done ==> old(stack.Contents()) == if g.Some? then stack.Contents() + [g.value] else stack.Contents()
    {
      KeptUser(role, stack.Contents(), tables.mapping, tables.ptFrames, stack.frames.Length, 1, user, v);
      r, g := tables.TryMap(f, v, Generic(stack), isSoft);
      tables.Shape();
    }

    /** Maps page v to the frame in hand, or puts the frame back. */
    method TryFrame(f: nat, v: nat, isSoft: bool) returns (r: Outcome, ghost grown: bool)
      requires Holds(1) && f !in role && USER <= v < VPAGES && tables.vpt2s.Length == SLOTS
      requires forall g, p | g in stack.Contents() && p in tables.ptFrames :: tables.ptFrames[p] != g
      modifies this, tables, tables.pt2s, tables.vpt2s, stack, stack.frames
      ensures r == if v in old(user) then if isSoft then AlreadyMapped else Aborted
                   else if old(tables.Stuck(v, stack.num == 0)) then OutOfMemory
                   else Done
      ensures r != Aborted ==> Holds(0) && tables.spMin == old(tables.spMin)
      ensures r == OutOfMemory || r == AlreadyMapped ==> user == old(user) && tables.State() == old(tables.State())
      ensures r == AlreadyMapped ==> Frames() == old(Frames()) && stack.num == old(stack.num)
      ensures r == OutOfMemory ==> Frames() == old(Frames()) + {f} && stack.num == old(stack.num) + 1
      ensures r == Done ==> user == old(user)[v := f] && Frames() == old(Frames()) + {f}
      ensures r == Done ==> TablesUsed(old(tables.State()), tables.State(), v, grown)
      ensures r == Done ==> stack.num + (if grown then 1 else 0) == old(stack.num)
    {
      ghost var free, m, pt := stack.Contents(), tables.mapping, tables.ptFrames;
      ghost var g;
      r, g := TryTables(f, v, isSoft);
      grown := g.Some?;
      if r == OutOfMemory {
        GiveFrame(f);
      } else if r == Done {
        Enrol(free, m, pt, v, f, grown, if grown then g.value else 0);
      }
    }

    /** One turn of the loop in alloc_page_lock_routine. In soft mode the frame taken for a page that is
        mapped already is not put back. */
    method MapOne(v: nat, isSoft: bool) returns (r: Outcome, ghost f: nat, ghost grown: bool)
      requires Valid() && USER <= v < VPAGES
      modifies this, tables, tables.pt2s, tables.vpt2s, stack, stack.frames
      ensures r == if old(stack.num) == 0 then OutOfMemory
                   else if v in old(user) then if isSoft then AlreadyMapped else Aborted
                   else if old(tables.Stuck(v, stack.num == 1)) then OutOfMemory
                   else Done
      ensures r != Aborted ==> Valid() && tables.spMin == old(tables.spMin)
      ensures r == OutOfMemory ==> user == old(user) && Frames() == old(Frames()) && stack.num == old(stack.num)
      ensures r == AlreadyMapped ==> user == old(user) && f in old(Frames()) && Frames() == old(Frames()) - {f}
      ensures r == AlreadyMapped ==> tables.State() == old(tables.State()) && stack.num + 1 == old(stack.num)
      ensures r == Done ==> user == old(user)[v := f] && Frames() == old(Frames())
      ensures r == Done ==> TablesUsed(old(tables.State()), tables.State(), v, grown)
      ensures r == Done ==> stack.num + 1 + (if grown then 1 else 0) == old(stack.num)
    {
      Open();
      if stack.num == 0 {
        return OutOfMemory, 0, false;
      }
      var frame := TakeFrame();
      f := frame;
      r, grown := TryFrame(frame, v, isSoft);
      if r != Aborted {
        Seal();
      }
    }

    /** Page v's frame is in hand now. */
    ghost method Forget(m: map<nat, nat>, v: nat)
      requires stack.Valid() && Kept(role, stack.Contents(), m, tables.ptFrames, stack.frames.Length, 0, user) && v in m && v >= USER
      requires tables.Ok() && stack.frames != tables.pt2s && tables.spMin == tables.floor && tables.mapping == m - {v}
      modifies this
      ensures m[v] in old(role) && Holds(1) && user == old(user) - {v} && Frames() == old(Frames()) - {m[v]}
    {
      ForgetKeeps(role, stack.Contents(), m, tables.ptFrames, stack.frames.Length, v, user);
      role := role - {m[v]};
      user := user - {v};
    }

    /** pt_unmap, and the frame goes back on the stack; false stands for abort. */
    method UnmapOne(v: nat) returns (ok: bool)
      requires Valid() && USER <= v < VPAGES
      modifies this, tables, tables.pt2s, tables.vpt2s, stack, stack.frames
      ensures ok <==> v in old(user)
      ensures ok ==> Valid() && user == old(user) - {v} && Frames() == old(Frames())
    {
      Open();
      ghost var m := tables.mapping;
      KeptUser(role, stack.Contents(), m, tables.ptFrames, stack.frames.Length, 0, user, v);
      var f := tables.PtUnmap(v);
      if f == None {
        return false;
      }
      Forget(m, v);
      GiveFrame(f.value);
      Seal();
      return true;
    }

    /** The rollback of alloc_page_lock_routine. */
    method Rollback(mapped: seq<nat>, ghost u0: map<nat, nat>)
      requires Valid() && Undoes(mapped, u0, user)
      modifies this, tables, tables.pt2s, tables.vpt2s, stack, stack.frames
      ensures Valid() && user == u0 && Frames() == old(Frames())
    {
      var page := mapped;
      while page != []
        invariant Valid() && Undoes(page, u0, user) && Frames() == old(Frames())
        decreases |page|
      {
        ghost var u := user;
        var ok := UnmapOne(page[0]);
        UndoneOne(page, u0, u);
        page := page[1..];
      }
    }

    /** The tables that the n pages from addr on lack. */
    ghost function TablesWanted(addr: nat, n: nat): nat
      requires UserRange(addr, n) && tables.vpt2s.Length == SLOTS
      reads tables, tables.vpt2s
    {
      NullSlots(tables.vpt2s[..], Slot(addr), EndSlot(addr, n))
    }

    ghost function PtPagesWanted(addr: nat, n: nat): nat
      requires UserRange(addr, n) && tables.vpt2s.Length == SLOTS
      reads tables, tables.vpt2s
    {
      Growths(TablesWanted(addr, n), tables.freePts)
    }

    /** There are frames for the n pages from addr on and for the PT pages that they need, and room for these. */
    ghost predicate Enough(addr: nat, n: nat)
      requires UserRange(addr, n) && tables.vpt2s.Length == SLOTS
      reads tables, tables.vpt2s, stack
    {
      var g := PtPagesWanted(addr, n);
      stack.num >= n + g && (g > 0 ==> tables.sp * PAGE >= tables.spMin + g * PAGE)
    }

    /** The books stand for the memory as it is. */
    ghost predicate InBooks(u0: map<nat, nat>, all0: set<nat>, frames0: nat, mapped: seq<nat>, lost: set<nat>, addr: nat, n: nat, i: nat,
                            isSoft: bool, enough: bool, g: nat, g0: nat)
      reads this, tables, tables.pt2s, tables.vpt2s, stack
    {
      Along(user, Frames(), tables.State(), tables.spMin, stack.num, u0, all0, frames0, mapped, lost, addr, n, i, isSoft, enough, g, g0)
    }

    lemma StartBooks(addr: nat, n: nat, isSoft: bool)
      requires Valid() && UserRange(addr, n)
      ensures InBooks(user, Frames(), stack.num, [], {}, addr, n, 0, isSoft, Enough(addr, n), PtPagesWanted(addr, n), PtPagesWanted(addr, n))
    {
      StartProgress(user, Frames(), addr, isSoft);
      if Enough(addr, n) {
        Open();
        tables.Shape();
        EndSlotBounds(addr, n);
        GrowthsBack(tables.vpt2s[..], tables.freePts, tables.sp, tables.spMin, stack.num, Slot(addr), EndSlot(addr, n), n);
      }
    }

    lemma Serves(u0: map<nat, nat>, all0: set<nat>, frames0: nat, mapped: seq<nat>, lost: set<nat>, addr: nat, n: nat, i: nat,
                 isSoft: bool, enough: bool, g: nat, g0: nat)
      requires tables.vpt2s.Length == SLOTS && UserRange(addr, n) && i < n
      requires InBooks(u0, all0, frames0, mapped, lost, addr, n, i, isSoft, enough, g, g0)
      ensures enough ==> stack.num > 0 && !tables.Stuck(addr + i, stack.num == 1)
    {
      assert Tally(0);
      if enough {
        InSlots(addr, n, i);
        BackedServes(tables.vpt2s[..], tables.freePts, tables.sp, tables.spMin, stack.num, Slot(addr), EndSlot(addr, n), n - i, g, Slot(addr + i));
      }
    }

    /** One turn of that loop, in the books. */
    method NextPage(addr: nat, num: nat, i: nat, isSoft: bool, mapped: seq<nat>, ghost u0: map<nat, nat>, ghost all0: set<nat>, ghost frames0: nat,
                    ghost lost: set<nat>, ghost enough: bool, ghost g: nat, ghost g0: nat)
      returns (r: Outcome, mapped': seq<nat>, ghost lost': set<nat>, ghost g': nat)
      requires Valid() && UserRange(addr, num) && i < num
      requires InBooks(u0, all0, frames0, mapped, lost, addr, num, i, isSoft, enough, g, g0)
      modifies this, tables, tables.pt2s, tables.vpt2s, stack, stack.frames
      ensures r == Aborted ==> !isSoft && !NoneMapped(u0, addr, num)
      ensures r != Aborted ==> Valid()
      ensures r == OutOfMemory ==> !enough && InBooks(u0, all0, frames0, mapped', lost', addr, num, i, isSoft, enough, g', g0)
      ensures r == Done || r == AlreadyMapped ==> InBooks(u0, all0, frames0, mapped', lost', addr, num, i + 1, isSoft, enough, g', g0)
    {
      ghost var u, all, s, spMin, frames := user, Frames(), tables.State(), tables.spMin, stack.num;
      ghost var f, grown;
      mapped', lost', g' := mapped, lost, g;
      Serves(u0, all0, frames0, mapped, lost, addr, num, i, isSoft, enough, g, g0);
      r, f, grown := MapOne(addr + i, isSoft);
      if r == Aborted {
        FoundTurn(u, all, s, spMin, frames, u0, all0, frames0, mapped, lost, addr, num, i, isSoft, enough, g, g0);
      } else if r == Done {
        MappedTurn(u, all, s, spMin, frames, u0, all0, frames0, mapped, lost, addr, num, i, isSoft, enough, g, g0,
                   f, tables.State(), grown, stack.num);
        mapped' := [addr + i] + mapped;
        g' := if enough && grown then g - 1 else g;
      } else if r == AlreadyMapped {
        LostTurn(u, all, s, spMin, frames, u0, all0, frames0, mapped, lost, addr, num, i, enough, g, g0, f, stack.num);
        lost' := lost + {f};
      }
    }

    /** alloc_page_lock_routine. `lost` are the frames that soft mode takes for those of the first `done`
        pages that are mapped already; a failure at the next page does not give them back. */
    method AllocPages(addr: nat, num: nat, isSoft: bool) returns (r: Outcome, ghost lost: set<nat>, ghost done: nat)
      requires Valid() && UserRange(addr, num)
      modifies this, tables, tables.pt2s, tables.vpt2s, stack, stack.frames
      ensures r == Done || r == OutOfMemory || r == Aborted
      ensures r == Aborted ==> !isSoft && !NoneMapped(old(user), addr, num)
      ensures r != Aborted ==> Valid() && Loses(old(Frames()), Frames(), lost, old(user), addr, done, isSoft)
      ensures if r == Done then done == num else done < num
      ensures r == Done ==> Filled(old(user), user, addr, num)
      ensures r == OutOfMemory ==> user == old(user)
      ensures old(Enough(addr, num)) ==> r != OutOfMemory
      ensures old(Enough(addr, num)) && r == Done ==> stack.num + num + old(PtPagesWanted(addr, num)) >= old(stack.num)
    {
      ghost var u0, all0, frames0, enough, g0 := user, Frames(), stack.num, Enough(addr, num), PtPagesWanted(addr, num);
      ghost var g := g0;
      var mapped: seq<nat> := [];
      var i := 0;
      lost, done := {}, 0;
      StartBooks(addr, num, isSoft);
      while i != num
        invariant i == done <= num && Valid() && InBooks(u0, all0, frames0, mapped, lost, addr, num, i, isSoft, enough, g, g0)
        decreases num - i
      {
        r, mapped, lost, g := NextPage(addr, num, i, isSoft, mapped, u0, all0, frames0, lost, enough, g, g0);
        if r == Aborted {
          return;
        } else if r == OutOfMemory {
          EndAlong(user, Frames(), tables.State(), tables.spMin, stack.num, u0, all0, frames0, mapped, lost, addr, num, done, isSoft, enough, g, g0);
          Rollback(mapped, u0);
          return;
        }
        i := i + 1;
        done := i;
      }
      EndAlong(user, Frames(), tables.State(), tables.spMin, stack.num, u0, all0, frames0, mapped, lost, addr, num, done, isSoft, enough, g, g0);
      r := Done;
    }

    /** In soft mode a page that is mapped already is reported as done, and a frame is lost. */
    method SoftLosesFrame(v: nat) returns (r: Outcome)
      requires Valid() && v in user && USER <= v < VPAGES && stack.num > 0
      modifies this, tables, tables.pt2s, tables.vpt2s, stack, stack.frames
      ensures r == Done && Valid() && user == old(user)
      ensures Frames() < old(Frames()) && |Frames()| + 1 == |old(Frames())|
    {
      TableThere(v);
      ghost var u, all := user, Frames();
      ghost var lost, done;
      r, lost, done := AllocPages(v, 1, true);
      OneLost(u, v, all, lost, Frames());
      NothingNew(u, user, v);
    }

    lemma TableThere(v: nat)
      requires Valid() && v in user && USER <= v < VPAGES && stack.num > 0
      ensures Enough(v, 1)
    {
      Open();
      KeptUser(role, stack.Contents(), tables.mapping, tables.ptFrames, stack.frames.Length, 0, user, v);
      tables.Shape();
      EndSlotBounds(v, 1);
      OneSlot(tables.vpt2s[..], Slot(v));
    }

    /** Every frame accounted for is free, mapped by mmap or a PT page. */
    lemma Counted()
      requires Valid()
      ensures stack.Valid() && |Frames()| == stack.num + |user| + |tables.ptFrames|
      ensures stack.num <= stack.frames.Length
    {
      Open();
      OpenKept(role, stack.Contents(), tables.mapping, tables.ptFrames, stack.frames.Length, 0, user);
      RolesCount(role, stack.Contents(), tables.mapping, tables.ptFrames);
      assert |role.Keys| == |role|;
    }

    /** free_page_lock_routine. */
    method FreePages(addr: nat, num: nat) returns (ok: bool)
      requires Valid() && UserRange(addr, num) && num > 0
      modifies this, tables, tables.pt2s, tables.vpt2s, stack, stack.frames
      ensures ok <==> AllMapped(old(user), addr, num)
      ensures ok ==> Valid() && Frames() == old(Frames())
      ensures ok ==> Filled(user, old(user), addr, num) && NoneMapped(user, addr, num)
    {
      ghost var u0 := user;
      var v, n := addr, num;
      while true
        invariant 0 < n <= num && v == addr + num - n && Valid() && Frames() == old(Frames())
        invariant Filled(user, u0, addr, num - n) && NoneMapped(user, addr, num - n)
        decreases n
      {
        ghost var u := user;
        ok := UnmapOne(v);
        if !ok {
          return;
        }
        Emptied(u0, u, addr, num - n);
        n := n - 1;
        if n == 0 {
          break;
        }
        v := v + 1;
      }
    }

    /** mmap: the new pages hold frames of their own and the old ones keep theirs; a failure leaves all as
        it was, but for frames that have become PT pages. */
    method Mmap(addr: nat, length: nat) returns (r: Outcome)
      requires Valid()
      modifies this, tables, tables.pt2s, tables.vpt2s, stack, stack.frames
      ensures r == Aborted || r == OutOfMemory || r == Done
      ensures r == Aborted ==> !Permitted(addr, length) || !NoneMapped(old(user), addr / PAGE, length / PAGE)
      ensures !Permitted(addr, length) ==> r == Aborted
      ensures r != Aborted ==> Valid() && Frames() == old(Frames())
      ensures r == Done ==> MapsRange(old(user), user, addr / PAGE, length / PAGE)
      ensures r == OutOfMemory ==> user == old(user) && stack.num + |tables.ptFrames| == old(stack.num) + |old(tables.ptFrames)|
      ensures Permitted(addr, length) && old(stack.num) < length / PAGE ==> r == OutOfMemory
      ensures Permitted(addr, length) && NoneMapped(old(user), addr / PAGE, length / PAGE) && old(Enough(addr / PAGE, length / PAGE)) ==>
        r == Done && stack.num + length / PAGE + old(PtPagesWanted(addr / PAGE, length / PAGE)) >= old(stack.num)
    {
      RangeTest(addr, length);
      if !GoodRange(addr, length) {
        return Aborted;
      }
      var n := length / PAGE;
      if n > stack.num {
        return OutOfMemory;
      }
      if n == 0 {
        return Done;
      }
      Counted();
      ghost var all := Frames();
      ghost var lost, done;
      r, lost, done := AllocPages(addr / PAGE, n, false);
      NoneOccupied(old(user), addr / PAGE, n);
      if r == OutOfMemory {
        assert Frames() == all;
        Counted();
      }
    }

    /** mmap_soft: what is mapped already stays as it is, at the cost of a frame each. */
    method MmapSoft(addr: nat, length: nat) returns (r: Outcome, ghost lost: set<nat>, ghost done: nat)
      requires Valid()
      modifies this, tables, tables.pt2s, tables.vpt2s, stack, stack.frames
      ensures r == Done || r == OutOfMemory || r == Aborted
      ensures r == Aborted <==> !Permitted(addr, length)
      ensures r != Aborted ==> Valid() && done <= length / PAGE
      ensures r != Aborted ==> Loses(old(Frames()), Frames(), lost, old(user), addr / PAGE, done, true)
      ensures r == Done ==> done == length / PAGE && Filled(old(user), user, addr / PAGE, length / PAGE)
      ensures r == OutOfMemory ==> user == old(user)
      ensures Permitted(addr, length) && old(Enough(addr / PAGE, length / PAGE)) ==> r == Done
      ensures r == Done ==> (Frames() == old(Frames()) <==> NoneMapped(old(user), addr / PAGE, length / PAGE))
    {
      lost, done := {}, 0;
      RangeTest(addr, length);
      if !GoodRange(addr, length) {
        return Aborted, lost, done;
      }
      var n := length / PAGE;
      if n > stack.num {
        return OutOfMemory, lost, done;
      }
      if n == 0 {
        return Done, lost, done;
      }
      ghost var u, all := user, Frames();
      r, lost, done := AllocPages(addr / PAGE, n, true);
      if r == Done {
        LosesIff(all, Frames(), lost, u, addr / PAGE, done, true);
      }
    }

    /** munmap. */
    method Munmap(addr: nat, length: nat) returns (ok: bool)
      requires Valid()
      modifies this, tables, tables.pt2s, tables.vpt2s, stack, stack.frames
      ensures ok <==> Permitted(addr, length) && AllMapped(old(user), addr / PAGE, length / PAGE)
      ensures ok ==> Valid() && Frames() == old(Frames())
      ensures ok ==> MapsRange(user, old(user), addr / PAGE, length / PAGE)
    {
      RangeTest(addr, length);
      if !GoodRange(addr, length) {
        return false;
      }
      if length / PAGE == 0 {
        return true;
      }
      ok := FreePages(addr / PAGE, length / PAGE);
    }

    /** A range mapped by mmap and unmapped again is as it was. */
    method MapAndUnmap(addr: nat, length: nat) returns (r: Outcome, ok: bool)
      requires Valid()
      modifies this, tables, tables.pt2s, tables.vpt2s, stack, stack.frames
      ensures r == Done ==> ok && Valid() && user == old(user) && Frames() == old(Frames())
    {
      r := Mmap(addr, length);
      ok := false;
      if r == Done {
        ghost var u := user;
        ok := Munmap(addr, length);
        UnmapUndoesMap(old(user), u, user, addr / PAGE, length / PAGE);
      }
    }

    /** A page mapped by mmap and mapped once more by mmap_soft: both succeed, and a frame is lost. */
    method MapThenSoft(addr: nat) returns (r: Outcome, again: Outcome)
      requires Valid() && Permitted(addr, PAGE) && NoneMapped(user, addr / PAGE, 1) && Enough(addr / PAGE, 1)
      requires stack.num > 1 + PtPagesWanted(addr / PAGE, 1)
      modifies this, tables, tables.pt2s, tables.vpt2s, stack, stack.frames
      ensures r == Done && again == Done && Valid() && |Frames()| + 1 == |old(Frames())|
    {
      r := Mmap(addr, PAGE);
      again := SoftLosesFrame(addr / PAGE);
    }
  }
}
