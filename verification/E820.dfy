/** The bootloader's E820 normaliser: a sweep over the sorted endpoints of the reported ranges that must
    agree, address by address, with what the ranges say. */
module E820 {
  import opened Options
  import opened QSort
  import Counting

  const ADDRESSES: nat := 0x1_0000_0000_0000_0000   // PHY_ADDR_MAX + 1

  /** ACPI address range type and extended attributes. */
  datatype Attr = Attr(kind: nat, extend: nat)

  const CONFLICT := Attr(2, 1)

  datatype Entry = Entry(addr: nat, size: nat, attr: Attr)
  {
    /** A reported range; the caller has dropped the empty ones. */
    ghost predicate Valid() {
      addr < ADDRESSES && 0 < size < ADDRESSES
    }

    /** The range may reach past the last address. */
    predicate Covers(x: nat) {
      addr <= x && x - addr < size
    }

    /** In the output, size 0 stands for the whole address space. */
    ghost function End(): nat {
      addr + (if size == 0 then ADDRESSES else size)
    }
  }

  // ------------------------------------------------------------------
  // What the ranges say, address by address
  // ------------------------------------------------------------------

  ghost predicate CoveredBy(ins: seq<Entry>, x: nat, i: nat) {
    i < |ins| && ins[i].addr <= x < ins[i].addr + ins[i].size
  }

  /** The attribute of address x: the common one of the ranges that cover it; where they differ, reserved
      memory. */
  ghost function AttrAt(ins: seq<Entry>, x: nat): Option<Attr> {
    if !exists i: nat :: CoveredBy(ins, x, i) then None
    else
      var i: nat :| CoveredBy(ins, x, i);
      if forall j: nat :: CoveredBy(ins, x, j) ==> ins[j].attr == ins[i].attr then Some(ins[i].attr) else Some(Attr(2, 1))
  }

  /** The output denotes the attributes of the addresses below `upto`. */
  ghost predicate Denotes(ins: seq<Entry>, outs: seq<Entry>, upto: nat) {
    && (forall k | 0 <= k < |outs| :: outs[k].size < ADDRESSES && outs[k].addr < outs[k].End() <= upto)
    && (forall k, x: nat | 0 <= k < |outs| && outs[k].addr <= x < outs[k].End() :: AttrAt(ins, x) == Some(outs[k].attr))
    && (forall x: nat | x < upto && AttrAt(ins, x) != None :: exists k :: 0 <= k < |outs| && outs[k].addr <= x < outs[k].End())
  }

  /** Sorted, disjoint, and no two neighbours could be one. */
  ghost predicate Normal(outs: seq<Entry>) {
    && (forall k, l | 0 <= k < l < |outs| :: outs[k].End() <= outs[l].addr)
    && (forall k, l | 0 <= k < l < |outs| && l == k + 1 && outs[k].End() == outs[l].addr :: outs[k].attr != outs[l].attr)
  }

  // ------------------------------------------------------------------
  // The endpoints
  // ------------------------------------------------------------------

  /** addr is fixed when the endpoint is collected, the rest later or never. */
  datatype Block = Block(addr: nat, attr: Attr, exist: bool)

  function BlocksCmp(a: Block, b: Block): int {
    if a.addr > b.addr then 1 else if a.addr < b.addr then -1 else 0
  }

  ghost predicate Has(bs: seq<Block>, x: nat) {
    exists k :: 0 <= k < |bs| && bs[k].addr == x
  }

  ghost predicate IsEndpoint(ins: seq<Entry>, x: nat) {
    x < ADDRESSES && exists i :: 0 <= i < |ins| && (x == ins[i].addr || x == ins[i].addr + ins[i].size)
  }

  ghost predicate Collected(ins: seq<Entry>, bs: seq<Block>) {
    && (forall k | 0 <= k < |bs| :: IsEndpoint(ins, bs[k].addr))
    && (forall i {:trigger Has(bs, ins[i].addr)} | 0 <= i < |ins| :: Has(bs, ins[i].addr))
    && (forall i {:trigger Has(bs, ins[i].addr + ins[i].size)} | 0 <= i < |ins| && ins[i].addr + ins[i].size < ADDRESSES :: Has(bs, ins[i].addr + ins[i].size))
  }

  ghost predicate Ascending(bs: seq<Block>) {
    forall k, l | 0 <= k < l < |bs| :: bs[k].addr <= bs[l].addr
  }

  predicate First(bs: seq<Block>, k: nat)
    requires k < |bs|
  {
    k == 0 || bs[k].addr != bs[k - 1].addr
  }

  /** The first block of each address knows the attribute there; the others hold anything. */
  ghost predicate MarkedAt(ins: seq<Entry>, b: Block) {
    && (b.exist <==> AttrAt(ins, b.addr) != None)
    && (b.exist ==> AttrAt(ins, b.addr) == Some(b.attr))
  }

  ghost predicate Marked(ins: seq<Entry>, bs: seq<Block>, upto: nat) {
    forall k {:trigger First(bs, k)} | 0 <= k < |bs| && k < upto && First(bs, k) :: MarkedAt(ins, bs[k])
  }

  lemma AttrIs(ins: seq<Entry>, x: nat, i: nat)
    requires CoveredBy(ins, x, i)
    ensures (forall j: nat :: CoveredBy(ins, x, j) ==> ins[j].attr == ins[i].attr) ==> AttrAt(ins, x) == Some(ins[i].attr)
    ensures !(forall j: nat :: CoveredBy(ins, x, j) ==> ins[j].attr == ins[i].attr) ==> AttrAt(ins, x) == Some(CONFLICT)
  {
  }

  lemma SameCover(ins: seq<Entry>, x: nat, y: nat)
    requires forall i | 0 <= i < |ins| :: ins[i].Covers(x) <==> ins[i].Covers(y)
    ensures AttrAt(ins, x) == AttrAt(ins, y)
  {
    forall i: nat ensures CoveredBy(ins, x, i) <==> CoveredBy(ins, y, i) {
    }
    if i: nat :| CoveredBy(ins, x, i) {
      AttrIs(ins, x, i);
      AttrIs(ins, y, i);
    }
  }

  /** Between two endpoints nothing changes. */
  lemma ConstantBetween(ins: seq<Entry>, bs: seq<Block>, x: nat, y: nat)
    requires Collected(ins, bs) && x <= y < ADDRESSES
    requires forall k | 0 <= k < |bs| :: !(x < bs[k].addr <= y)
    ensures AttrAt(ins, x) == AttrAt(ins, y)
  {
    forall i | 0 <= i < |ins| ensures ins[i].Covers(x) <==> ins[i].Covers(y) {
      assert Has(bs, ins[i].addr);
      assert ins[i].addr + ins[i].size < ADDRESSES ==> Has(bs, ins[i].addr + ins[i].size);
    }
    SameCover(ins, x, y);
  }

  /** ... and before the first one there is nothing. */
  lemma NothingBefore(ins: seq<Entry>, bs: seq<Block>, x: nat)
    requires Collected(ins, bs) && forall k | 0 <= k < |bs| :: x < bs[k].addr
    ensures AttrAt(ins, x) == None
  {
    forall i: nat ensures !CoveredBy(ins, x, i) {
      if i < |ins| { assert Has(bs, ins[i].addr); }
    }
  }

  /** The last block at or below x, from i on. */
  ghost function Below(bs: seq<Block>, i: nat, next: nat, x: nat): (k: nat)
    requires i < next <= |bs| && Ascending(bs) && bs[i].addr <= x
    ensures i <= k < next && bs[k].addr <= x && forall l | k < l < next :: x < bs[l].addr
  {
    if bs[next - 1].addr <= x then next - 1 else Below(bs, i, next - 1, x)
  }

  ghost function Edge(bs: seq<Block>, k: nat): nat {
    if k < |bs| then bs[k].addr else ADDRESSES
  }

  /** The blocks from i up to next say the same, so all addresses up to the next block have that
      attribute. */
  ghost predicate Uniform(ins: seq<Entry>, bs: seq<Block>, i: nat, next: nat) {
    && i < next <= |bs|
    && (forall k | i <= k < next :: AttrAt(ins, bs[k].addr) == AttrAt(ins, bs[i].addr))
  }

  lemma RunIsUniform(ins: seq<Entry>, bs: seq<Block>, i: nat, next: nat, x: nat)
    requires Collected(ins, bs) && Ascending(bs) && Uniform(ins, bs, i, next)
    requires bs[i].addr <= x < Edge(bs, next) && x < ADDRESSES
    ensures AttrAt(ins, x) == AttrAt(ins, bs[i].addr)
  {
    var k := Below(bs, i, next, x);
    NoneBetween(bs, k, next, x);
    ConstantBetween(ins, bs, bs[k].addr, x);
  }

  lemma NoneBetween(bs: seq<Block>, k: nat, next: nat, x: nat)
    requires Ascending(bs) && k < next <= |bs| && bs[k].addr <= x < Edge(bs, next)
    requires forall l | k < l < next :: x < bs[l].addr
    ensures forall l | 0 <= l < |bs| :: !(bs[k].addr < bs[l].addr <= x)
  {
    forall l | 0 <= l < |bs| ensures !(bs[k].addr < bs[l].addr <= x) {
      if l < k { assert bs[l].addr <= bs[k].addr; }
      if next < l { assert bs[next].addr <= bs[l].addr; }
    }
  }

  /** A range that ends at an endpoint starts at an earlier one, and covers what lies between. */
  lemma EndsAfter(ins: seq<Entry>, bs: seq<Block>, j: nat, x: nat)
    requires j < |ins| && ins[j].Valid() && Collected(ins, bs) && x < ins[j].addr + ins[j].size
    requires forall k | 0 <= k < |bs| :: !(x < bs[k].addr < ins[j].addr + ins[j].size)
    ensures CoveredBy(ins, x, j)
  {
    assert Has(bs, ins[j].addr);
  }

  lemma EndpointOf(ins: seq<Entry>, y: nat) returns (j: nat)
    requires IsEndpoint(ins, y)
    ensures j < |ins| && (y == ins[j].addr || y == ins[j].addr + ins[j].size)
  {
    j :| j < |ins| && (y == ins[j].addr || y == ins[j].addr + ins[j].size);
  }

  /** Of two neighbouring endpoints at least one lies inside a range. */
  lemma NoGapTwice(ins: seq<Entry>, bs: seq<Block>, x: nat, y: nat)
    requires (forall j | 0 <= j < |ins| :: ins[j].Valid()) && Collected(ins, bs)
    requires x < y && IsEndpoint(ins, y) && forall k | 0 <= k < |bs| :: !(x < bs[k].addr < y)
    requires AttrAt(ins, x) == None
    ensures AttrAt(ins, y) != None
  {
    var j := EndpointOf(ins, y);
    if y == ins[j].addr {
      assert CoveredBy(ins, y, j);
    } else {
      EndsAfter(ins, bs, j, x);
    }
  }

  lemma FirstExists(ins: seq<Entry>, bs: seq<Block>)
    requires (forall j | 0 <= j < |ins| :: ins[j].Valid()) && Collected(ins, bs) && Ascending(bs) && bs != []
    ensures AttrAt(ins, bs[0].addr) != None
  {
    var x := bs[0].addr;
    var j := EndpointOf(ins, x);
    assert Has(bs, ins[j].addr);
    assert CoveredBy(ins, x, j);
  }

  // ------------------------------------------------------------------
  // The sweep
  // ------------------------------------------------------------------

  /** The output so far, when block i comes next. */
  ghost predicate Swept(ins: seq<Entry>, bs: seq<Block>, outs: seq<Entry>, i: nat)
    requires i <= |bs|
  {
    && Normal(outs) && Denotes(ins, outs, Edge(bs, i))
    && (i < |bs| && outs != [] && outs[|outs| - 1].End() == bs[i].addr ==> AttrAt(ins, bs[i].addr) != Some(outs[|outs| - 1].attr))
  }

  /** A run reaching from block i to block next; the size wraps to 0 when it is the whole space. */
  function Piece(bs: seq<Block>, i: nat, next: nat): Entry
    requires i < |bs|
  {
    Entry(bs[i].addr, ((if next < |bs| then bs[next].addr else ADDRESSES) - bs[i].addr) % ADDRESSES, bs[i].attr)
  }

  /** The endpoints, sorted, with the attributes found. */
  ghost predicate Prepared(ins: seq<Entry>, bs: seq<Block>) {
    && (forall j | 0 <= j < |ins| :: ins[j].Valid())
    && Collected(ins, bs) && Ascending(bs) && Marked(ins, bs, |bs|)
  }

  ghost predicate Run(ins: seq<Entry>, bs: seq<Block>, i: nat, next: nat) {
    && Uniform(ins, bs, i, next) && First(bs, i)
    && (next < |bs| ==> First(bs, next))
  }

  lemma RunGrows(ins: seq<Entry>, bs: seq<Block>, i: nat, next: nat)
    requires Prepared(ins, bs) && Run(ins, bs, i, next)
    ensures bs[i].addr < Edge(bs, next) <= ADDRESSES
  {
    assert IsEndpoint(ins, bs[i].addr);
    if next < |bs| {
      assert IsEndpoint(ins, bs[next].addr);
      assert bs[i].addr <= bs[next - 1].addr <= bs[next].addr;
    }
  }

  lemma GapSwept(ins: seq<Entry>, bs: seq<Block>, outs: seq<Entry>, i: nat, next: nat)
    requires Prepared(ins, bs) && Run(ins, bs, i, next) && Swept(ins, bs, outs, i) && AttrAt(ins, bs[i].addr) == None
    ensures Swept(ins, bs, outs, next)
  {
    RunGrows(ins, bs, i, next);
    forall x: nat | bs[i].addr <= x < Edge(bs, next) ensures AttrAt(ins, x) == None {
      RunIsUniform(ins, bs, i, next, x);
    }
  }

  lemma DenotesMore(ins: seq<Entry>, outs: seq<Entry>, e: Entry)
    requires Denotes(ins, outs, e.addr) && e.addr < e.End() && e.size < ADDRESSES
    requires forall x: nat | e.addr <= x < e.End() :: AttrAt(ins, x) == Some(e.attr)
    ensures Denotes(ins, outs + [e], e.End())
  {
    var all := outs + [e];
    forall x: nat | x < e.End() && AttrAt(ins, x) != None
      ensures exists k :: 0 <= k < |all| && all[k].addr <= x < all[k].End()
    {
      if x < e.addr {
        var k :| 0 <= k < |outs| && outs[k].addr <= x < outs[k].End();
        assert all[k] == outs[k];
      } else {
        assert all[|outs|] == e;
      }
    }
  }

  lemma PieceEnds(bs: seq<Block>, i: nat, next: nat)
    requires i < |bs| && bs[i].addr < Edge(bs, next) <= ADDRESSES
    ensures Piece(bs, i, next).End() == Edge(bs, next)
  {
  }

  lemma EmitDenotes(ins: seq<Entry>, bs: seq<Block>, outs: seq<Entry>, i: nat, next: nat)
    requires Prepared(ins, bs) && Run(ins, bs, i, next) && Denotes(ins, outs, bs[i].addr)
    requires AttrAt(ins, bs[i].addr) == Some(bs[i].attr)
    ensures Piece(bs, i, next).End() == Edge(bs, next)
    ensures Denotes(ins, outs + [Piece(bs, i, next)], Edge(bs, next))
  {
    RunGrows(ins, bs, i, next);
    PieceEnds(bs, i, next);
    forall x: nat | bs[i].addr <= x < Edge(bs, next) ensures AttrAt(ins, x) == Some(bs[i].attr) {
      RunIsUniform(ins, bs, i, next, x);
    }
    DenotesMore(ins, outs, Piece(bs, i, next));
  }

  lemma NormalMore(outs: seq<Entry>, e: Entry)
    requires Normal(outs) && forall k | 0 <= k < |outs| :: outs[k].End() <= e.addr
    requires outs != [] && outs[|outs| - 1].End() == e.addr ==> outs[|outs| - 1].attr != e.attr
    ensures Normal(outs + [e])
  {
  }

  lemma EmitSwept(ins: seq<Entry>, bs: seq<Block>, outs: seq<Entry>, i: nat, next: nat)
    requires Prepared(ins, bs) && Run(ins, bs, i, next) && Swept(ins, bs, outs, i)
    requires AttrAt(ins, bs[i].addr) == Some(bs[i].attr)
    requires next < |bs| ==> AttrAt(ins, bs[next].addr) != AttrAt(ins, bs[i].addr)
    ensures Swept(ins, bs, outs + [Piece(bs, i, next)], next)
  {
    EmitDenotes(ins, bs, outs, i, next);
    NormalMore(outs, Piece(bs, i, next));
  }

  /** Gathers the starts and the ends that are addresses; the ranges are all below 2^64. */
  method CollectEndpoints(inp: array<Entry>, n: nat, blocks: array<Block>) returns (m: nat)
    requires n <= inp.Length && 2 * n <= blocks.Length
    requires forall j | 0 <= j < n :: inp[j].Valid()
    modifies blocks
    ensures m <= 2 * n && (n > 0 ==> m > 0) && Collected(inp[..n], blocks[..m])
  {
    m := 0;
    var i := 0;
    while i < n
      invariant i <= n && i <= m <= 2 * i
      invariant Collected(inp[..i], blocks[..m])
    {
      ghost var was, bs := blocks[..m], blocks[..m] + [Block(inp[i].addr, CONFLICT, false)];
      label Before:
      blocks[m] := Block(inp[i].addr, blocks[m].attr, blocks[m].exist);
      m := m + 1;
      if ADDRESSES - 1 - inp[i].addr >= inp[i].size {
        blocks[m] := Block(inp[i].addr + inp[i].size, blocks[m].attr, blocks[m].exist);
        m := m + 1;
      }
      CollectOne(inp[..i], inp[i], was, blocks[..m]);
      assert inp[..i] + [inp[i]] == inp[..i + 1];
      i := i + 1;
    }
  }

  lemma CollectOne(ins: seq<Entry>, e: Entry, bs: seq<Block>, bs': seq<Block>)
    requires Collected(ins, bs) && e.Valid() && |bs| < |bs'| && bs'[..|bs|] == bs && bs'[|bs|].addr == e.addr
    requires if e.addr + e.size < ADDRESSES then |bs'| == |bs| + 2 && bs'[|bs| + 1].addr == e.addr + e.size else |bs'| == |bs| + 1
    ensures Collected(ins + [e], bs')
  {
    var all := ins + [e];
    forall k | 0 <= k < |bs'| ensures IsEndpoint(all, bs'[k].addr) {
      if k < |bs| {
        assert bs'[k] == bs[k] && IsEndpoint(ins, bs[k].addr);
        var j := EndpointOf(ins, bs[k].addr);
        assert all[j] == ins[j];
      } else {
        assert all[|ins|] == e;
      }
    }
    forall x | Has(bs, x) ensures Has(bs', x) {
      var k :| 0 <= k < |bs| && bs[k].addr == x;
      assert bs'[k] == bs[k];
    }
  }

  /** The order is total but does not tell blocks with one address apart. */
  lemma BlocksCmpIsPreorder()
    ensures TotalPreorder(BlocksCmp)
  {
  }

  lemma SortedCollects(ins: seq<Entry>, bs: seq<Block>, bs': seq<Block>)
    requires Collected(ins, bs) && multiset(bs) == multiset(bs') && Sorted(BlocksCmp, bs')
    ensures Collected(ins, bs') && Ascending(bs')
  {
    forall k | 0 <= k < |bs'| ensures IsEndpoint(ins, bs'[k].addr) {
      assert bs'[k] in multiset(bs);
    }
    forall x | Has(bs, x) ensures Has(bs', x) {
      var k :| 0 <= k < |bs| && bs[k].addr == x;
      assert bs[k] in multiset(bs');
    }
    forall k, l | 0 <= k < l < |bs'| ensures bs'[k].addr <= bs'[l].addr {
      assert Le(BlocksCmp, bs'[k], bs'[l]);
    }
  }

  /** Finds the attribute at the address of block i: the first range there, then any that disagrees. */
  method MarkOne(inp: array<Entry>, n: nat, blocks: array<Block>, i: nat)
    requires n <= inp.Length && i < blocks.Length
    modifies blocks
    ensures MarkedAt(inp[..n], blocks[i]) && blocks[i].addr == old(blocks[i].addr)
    ensures forall k | 0 <= k < blocks.Length && k != i :: blocks[k] == old(blocks[k])
  {
    var x := blocks[i].addr;
    var j: nat := 0;
    while j < n && !inp[j].Covers(x)
      invariant j <= n && forall l | 0 <= l < j :: !inp[l].Covers(x)
    {
      j := j + 1;
    }
    ghost var ins := inp[..n];
    if j == n {
      blocks[i] := blocks[i].(exist := false);
      assert forall l: nat :: !CoveredBy(ins, x, l);
      return;
    }
    ghost var first := j;
    assert CoveredBy(ins, x, first);
    blocks[i] := blocks[i].(exist := true, attr := inp[j].attr);
    j := j + 1;
    while j < n
      invariant first < j <= n
      invariant forall l: nat | l < j && CoveredBy(ins, x, l) :: ins[l].attr == ins[first].attr
    {
      if inp[j].Covers(x) && inp[j].attr != blocks[i].attr {
        blocks[i] := blocks[i].(attr := CONFLICT);
        assert CoveredBy(ins, x, j);
        break;
      }
      j := j + 1;
    }
    AttrIs(ins, x, first);
  }

  /** Marks the first block of each address. */
  method MarkAll(inp: array<Entry>, n: nat, blocks: array<Block>, m: nat)
    requires n <= inp.Length && m <= blocks.Length
    requires Collected(inp[..n], blocks[..m]) && Ascending(blocks[..m])
    modifies blocks
    ensures Collected(inp[..n], blocks[..m]) && Ascending(blocks[..m]) && Marked(inp[..n], blocks[..m], m)
  {
    ghost var bs := blocks[..m];
    var i := 0;
    while i < m
      invariant i <= m && SameAddr(bs, blocks[..m]) && Marked(inp[..n], blocks[..m], i)
    {
      MarkIfFirst(inp, n, blocks, m, i, bs);
      i := i + 1;
    }
    SameAddresses(inp[..n], bs, blocks[..m]);
  }

  ghost predicate SameAddr(bs: seq<Block>, bs': seq<Block>) {
    |bs'| == |bs| && forall k | 0 <= k < |bs| :: bs'[k].addr == bs[k].addr
  }

  method MarkIfFirst(inp: array<Entry>, n: nat, blocks: array<Block>, m: nat, i: nat, ghost bs: seq<Block>)
    requires n <= inp.Length && i < m <= blocks.Length && SameAddr(bs, blocks[..m]) && Marked(inp[..n], blocks[..m], i)
    modifies blocks
    ensures SameAddr(bs, blocks[..m]) && Marked(inp[..n], blocks[..m], i + 1)
  {
    if i == 0 || blocks[i].addr != blocks[i - 1].addr {
      ghost var was := blocks[..m];
      MarkOne(inp, n, blocks, i);
      MarkedMore(inp[..n], was, blocks[..m], i);
    }
  }

  lemma MarkedMore(ins: seq<Entry>, bs: seq<Block>, bs': seq<Block>, i: nat)
    requires i < |bs| == |bs'| && Marked(ins, bs, i) && MarkedAt(ins, bs'[i]) && bs'[i].addr == bs[i].addr
    requires forall k | 0 <= k < |bs| && k != i :: bs'[k] == bs[k]
    ensures Marked(ins, bs', i + 1)
  {
    forall k | 0 <= k < |bs'| && k < i + 1 && First(bs', k) ensures MarkedAt(ins, bs'[k]) {
      if k < i {
        assert First(bs, k);
      }
    }
  }

  lemma SameAddresses(ins: seq<Entry>, bs: seq<Block>, bs': seq<Block>)
    requires Collected(ins, bs) && Ascending(bs) && SameAddr(bs, bs')
    ensures Collected(ins, bs') && Ascending(bs')
  {
    forall x | Has(bs, x) ensures Has(bs', x) {
      var k :| 0 <= k < |bs| && bs[k].addr == x;
      assert bs'[k].addr == x;
    }
  }

  /** Extends the run that starts at block i up to the next address that says something else. */
  method ExtendRun(ghost ins: seq<Entry>, blocks: array<Block>, m: nat, i: nat) returns (next: nat)
    requires m <= blocks.Length && Marked(ins, blocks[..m], m) && i < m && First(blocks[..m], i) && blocks[i].exist
    ensures Run(ins, blocks[..m], i, next)
    ensures next < m ==> AttrAt(ins, blocks[next].addr) != AttrAt(ins, blocks[i].addr)
  {
    ghost var bs := blocks[..m];
    var cur := i;
    next := i + 1;
    assert MarkedAt(ins, bs[i]);
    while next < m
      invariant i <= cur < next <= m && Uniform(ins, bs, i, next) && First(bs, cur)
      invariant blocks[next - 1].addr == blocks[cur].addr && blocks[cur].exist && blocks[cur].attr == blocks[i].attr
    {
      if blocks[next].addr != blocks[cur].addr {
        assert First(bs, next) && MarkedAt(ins, bs[next]);
        if !(blocks[next].exist == blocks[cur].exist && blocks[next].attr == blocks[cur].attr) {
          return;
        }
        cur := next;
      }
      next := next + 1;
    }
  }

  /** The next address after that of block i. */
  method SkipGap(ghost ins: seq<Entry>, blocks: array<Block>, m: nat, i: nat) returns (next: nat)
    requires m <= blocks.Length && i < m && First(blocks[..m], i)
    ensures Run(ins, blocks[..m], i, next)
    ensures blocks[next - 1].addr == blocks[i].addr && (next < m ==> blocks[next].addr != blocks[i].addr)
  {
    next := i + 1;
    while next < m && blocks[next].addr == blocks[i].addr
      invariant i < next <= m && forall k | i <= k < next :: blocks[k].addr == blocks[i].addr
    {
      next := next + 1;
    }
  }

  lemma NoneStrictlyBetween(bs: seq<Block>, i: nat, next: nat)
    requires i < next < |bs| && Ascending(bs) && bs[next - 1].addr == bs[i].addr
    ensures forall k | 0 <= k < |bs| :: !(bs[i].addr < bs[k].addr < bs[next].addr)
  {
    forall k | 0 <= k < |bs| ensures !(bs[i].addr < bs[k].addr < bs[next].addr) {
      if k < next - 1 { assert bs[k].addr <= bs[next - 1].addr; }
      if next < k { assert bs[next].addr <= bs[k].addr; }
    }
  }

  /** After a gap the next address belongs to a range: trim_e820_entrys does not look. */
  lemma GapThenRange(ins: seq<Entry>, bs: seq<Block>, i: nat, next: nat)
    requires Prepared(ins, bs) && i < next < |bs| && First(bs, next)
    requires bs[next - 1].addr == bs[i].addr < bs[next].addr && AttrAt(ins, bs[i].addr) == None
    ensures bs[next].exist
  {
    NoneStrictlyBetween(bs, i, next);
    NoGapTwice(ins, bs, bs[i].addr, bs[next].addr);
    assert MarkedAt(ins, bs[next]);
  }

  lemma StartSwept(ins: seq<Entry>, bs: seq<Block>)
    requires Prepared(ins, bs) && bs != []
    ensures Swept(ins, bs, [], 0) && bs[0].exist
  {
    FirstExists(ins, bs);
    assert First(bs, 0) && MarkedAt(ins, bs[0]);
    forall x: nat | x < bs[0].addr ensures AttrAt(ins, x) == None {
      NothingBefore(ins, bs, x);
    }
  }

  lemma RunEmitted(ins: seq<Entry>, bs: seq<Block>, outs: seq<Entry>, i: nat, next: nat, e: Entry)
    requires Prepared(ins, bs) && Run(ins, bs, i, next) && bs[i].exist && Swept(ins, bs, outs, i)
    requires next < |bs| ==> AttrAt(ins, bs[next].addr) != AttrAt(ins, bs[i].addr)
    requires e.addr == bs[i].addr && e.attr == bs[i].attr
    requires e.size == if next < |bs| then bs[next].addr - e.addr else if e.addr == 0 then 0 else ADDRESSES - 1 - e.addr + 1
    ensures Swept(ins, bs, outs + [e], next)
  {
    assert MarkedAt(ins, bs[i]);
    RunGrows(ins, bs, i, next);
    EmitSwept(ins, bs, outs, i, next);
    assert e == Piece(bs, i, next);
  }

  method Put(out: array<Entry>, num: nat, e: Entry)
    requires num < out.Length
    modifies out
    ensures out[..num + 1] == old(out[..num]) + [e]
    ensures forall k | num + 1 <= k < out.Length :: out[k] == old(out[k])
  {
    out[num] := e;
  }

  /** The run that starts at block i; if it is the whole address space its size is 0. */
  method NextRun(ghost ins: seq<Entry>, blocks: array<Block>, m: nat, i: nat, ghost outs: seq<Entry>)
    returns (e: Entry, next: nat)
    requires m <= blocks.Length && Prepared(ins, blocks[..m]) && i < m
    requires First(blocks[..m], i) && blocks[i].exist && Swept(ins, blocks[..m], outs, i)
    ensures Run(ins, blocks[..m], i, next) && Swept(ins, blocks[..m], outs + [e], next)
  {
    next := ExtendRun(ins, blocks, m, i);
    var addr := blocks[i].addr;
    assert next < m ==> addr < blocks[next].addr by { RunGrows(ins, blocks[..m], i, next); }
    assert addr < ADDRESSES by { RunGrows(ins, blocks[..m], i, next); }
    var size := if next < m then blocks[next].addr - addr else if addr == 0 then 0 else ADDRESSES - 1 - addr + 1;
    e := Entry(addr, size, blocks[i].attr);
    RunEmitted(ins, blocks[..m], outs, i, next, e);
  }

  /** The first block past a gap at block i. */
  method PassGap(ghost ins: seq<Entry>, blocks: array<Block>, m: nat, i: nat, ghost outs: seq<Entry>) returns (next: nat)
    requires m <= blocks.Length && Prepared(ins, blocks[..m]) && i < m
    requires First(blocks[..m], i) && !blocks[i].exist && Swept(ins, blocks[..m], outs, i)
    ensures i < next <= m && Swept(ins, blocks[..m], outs, next)
    ensures next < m ==> First(blocks[..m], next) && blocks[next].exist
  {
    ghost var bs := blocks[..m];
    assert MarkedAt(ins, bs[i]);
    next := SkipGap(ins, blocks, m, i);
    GapSwept(ins, bs, outs, i, next);
    if next < m {
      RunGrows(ins, bs, i, next);
      GapThenRange(ins, bs, i, next);
    }
  }

  /** What the sweep has to come to: every address told right, in as few entries as can be. */
  ghost predicate Answer(ins: seq<Entry>, outs: seq<Entry>) {
    Normal(outs) && Denotes(ins, outs, ADDRESSES)
  }

  /** The output array has room for the answer. */
  ghost predicate Fits(ins: seq<Entry>, room: nat) {
    forall outs :: Answer(ins, outs) ==> |outs| <= room
  }

  /** The end of the run that block i starts, seeking from block k on. */
  ghost function RunEnd(ins: seq<Entry>, bs: seq<Block>, i: nat, k: nat): nat
    requires i < k <= |bs|
    decreases |bs| - k
  {
    if k == |bs| || AttrAt(ins, bs[k].addr) != AttrAt(ins, bs[i].addr) then k else RunEnd(ins, bs, i, k + 1)
  }

  lemma {:induction false} RunEndIsRun(ins: seq<Entry>, bs: seq<Block>, i: nat, k: nat)
    requires Uniform(ins, bs, i, k) && First(bs, i)
    ensures Run(ins, bs, i, RunEnd(ins, bs, i, k))
    ensures var next := RunEnd(ins, bs, i, k); next < |bs| ==> AttrAt(ins, bs[next].addr) != AttrAt(ins, bs[i].addr)
    decreases |bs| - k
  {
    if k < |bs| && AttrAt(ins, bs[k].addr) == AttrAt(ins, bs[i].addr) {
      RunEndIsRun(ins, bs, i, k + 1);
    }
  }

  /** A run that a range covers goes into one more entry. */
  lemma RunCompletes(ins: seq<Entry>, bs: seq<Block>, outs: seq<Entry>, i: nat, next: nat)
    requires Prepared(ins, bs) && i < |bs| && Swept(ins, bs, outs, i) && First(bs, i) && Run(ins, bs, i, next)
    requires next < |bs| ==> AttrAt(ins, bs[next].addr) != AttrAt(ins, bs[i].addr)
    ensures next < |bs| ==> First(bs, next)
    ensures if AttrAt(ins, bs[i].addr) == None then Swept(ins, bs, outs, next) else Swept(ins, bs, outs + [Piece(bs, i, next)], next)
  {
    assert MarkedAt(ins, bs[i]);
    if AttrAt(ins, bs[i].addr) == None {
      GapSwept(ins, bs, outs, i, next);
    } else {
      EmitSwept(ins, bs, outs, i, next);
    }
  }

  /** The output so far begins an answer, which goes on if a range covers the next block. */
  lemma {:induction false} Completes(ins: seq<Entry>, bs: seq<Block>, outs: seq<Entry>, i: nat) returns (all: seq<Entry>)
    requires Prepared(ins, bs) && i <= |bs| && Swept(ins, bs, outs, i) && (i < |bs| ==> First(bs, i))
    ensures Answer(ins, all) && |all| >= |outs|
    ensures i < |bs| && AttrAt(ins, bs[i].addr) != None ==> |all| > |outs|
    decreases |bs| - i
  {
    if i == |bs| {
      all := outs;
    } else {
      var next := RunEnd(ins, bs, i, i + 1);
      RunEndIsRun(ins, bs, i, i + 1);
      RunCompletes(ins, bs, outs, i, next);
      if AttrAt(ins, bs[i].addr) == None {
        all := Completes(ins, bs, outs, next);
      } else {
        all := Completes(ins, bs, outs + [Piece(bs, i, next)], next);
      }
    }
  }

  lemma RoomForMore(ins: seq<Entry>, bs: seq<Block>, outs: seq<Entry>, i: nat, room: nat)
    requires Prepared(ins, bs) && i < |bs| && Swept(ins, bs, outs, i) && First(bs, i) && bs[i].exist && Fits(ins, room)
    ensures |outs| < room
  {
    assert MarkedAt(ins, bs[i]);
    var all := Completes(ins, bs, outs, i);
  }

  /** Emits one entry for each run. */
  method Sweep(ghost ins: seq<Entry>, blocks: array<Block>, m: nat, out: array<Entry>) returns (num: nat)
    requires 0 < m <= blocks.Length && Prepared(ins, blocks[..m]) && Fits(ins, out.Length)
    modifies out
    ensures num <= m && num <= out.Length && Swept(ins, blocks[..m], out[..num], m)
    ensures forall k | num <= k < out.Length :: out[k] == old(out[k])
  {
    ghost var bs := blocks[..m];
    StartSwept(ins, bs);
    num := 0;
    var i := 0;
    while true
      invariant num <= i < m && num <= out.Length && First(bs, i) && bs[i].exist && Swept(ins, bs, out[..num], i)
      invariant forall k | num <= k < out.Length :: out[k] == old(out[k])
      decreases m - i
    {
      RoomForMore(ins, bs, out[..num], i, out.Length);
      var e, next := NextRun(ins, blocks, m, i, out[..num]);
      Put(out, num, e);
      assert blocks[..m] == bs;
      num := num + 1;
      if next == m {
        return;
      }
      i := next;
      if !blocks[i].exist {
        i := PassGap(ins, blocks, m, i, out[..num]);
        if i == m {
          return;
        }
      }
    }
  }

  /** The whole normalisation, wherever the answer fits; `out` may be `inp` itself. */
  method Trim(inp: array<Entry>, n: nat, out: array<Entry>) returns (num: nat)
    requires n <= inp.Length && 2 * n < SIZE_LIMIT && Fits(inp[..n], out.Length)
    requires forall j | 0 <= j < n :: inp[j].Valid()
    modifies out
    ensures num <= 2 * n && num <= out.Length && forall k | num <= k < out.Length :: out[k] == old(out[k])
    ensures Answer(old(inp[..n]), out[..num])
  {
    var blocks := new Block[2 * n];
    var m := CollectEndpoints(inp, n, blocks);
    ghost var ins := inp[..n];
    if m == 0 {
      assert ins == [];
      return 0;
    }
    BlocksCmpIsPreorder();
    ghost var bs := blocks[..m];
    Sort(blocks, m, BlocksCmp);
    SortedCollects(ins, bs, blocks[..m]);
    MarkAll(inp, n, blocks, m);
    num := Sweep(ins, blocks, m, out);
  }

  // ------------------------------------------------------------------
  // The output is determined by the attributes alone
  // ------------------------------------------------------------------

  lemma StartsNoLater(ins: seq<Entry>, outs: seq<Entry>, other: seq<Entry>, k: nat)
    requires Answer(ins, outs) && Answer(ins, other) && k < |outs| && k <= |other|
    requires forall i | 0 <= i < k :: outs[i] == other[i]
    ensures k < |other| && other[k].addr <= outs[k].addr
  {
    var x := outs[k].addr;
    assert AttrAt(ins, x) == Some(outs[k].attr);
    var j :| 0 <= j < |other| && other[j].addr <= x < other[j].End();
    forall i | 0 <= i < k ensures other[i].End() <= x {
      assert outs[i] == other[i];
    }
  }

  /** The entry that covers the end of entry k is the next one, and starts there. */
  lemma NextAt(outs: seq<Entry>, k: nat, j: nat)
    requires Normal(outs) && (forall l | 0 <= l < |outs| :: outs[l].addr < outs[l].End())
    requires k < |outs| && j < |outs| && outs[j].addr <= outs[k].End() < outs[j].End()
    ensures j == k + 1 && outs[j].addr == outs[k].End()
  {
    assert j > k;
    assert outs[k + 1].addr < outs[k + 1].End();
  }

  /** The attribute changes where an entry ends. */
  lemma EndBreaks(ins: seq<Entry>, outs: seq<Entry>, k: nat)
    requires Answer(ins, outs) && k < |outs| && outs[k].End() < ADDRESSES
    ensures AttrAt(ins, outs[k].End()) != Some(outs[k].attr)
  {
    var x := outs[k].End();
    if AttrAt(ins, x) != None {
      var j :| 0 <= j < |outs| && outs[j].addr <= x < outs[j].End();
      NextAt(outs, k, j);
    }
  }

  lemma EndsNoEarlier(ins: seq<Entry>, outs: seq<Entry>, other: seq<Entry>, k: nat)
    requires Answer(ins, outs) && Answer(ins, other) && k < |outs| && k < |other|
    requires outs[k].addr == other[k].addr
    ensures outs[k].End() >= other[k].End()
  {
    assert AttrAt(ins, outs[k].addr) == Some(outs[k].attr) == Some(other[k].attr);
    if outs[k].End() < ADDRESSES {
      EndBreaks(ins, outs, k);
    }
  }

  lemma {:induction false} SameFront(ins: seq<Entry>, outs: seq<Entry>, other: seq<Entry>, k: nat)
    requires Answer(ins, outs) && Answer(ins, other) && k <= |outs|
    ensures k <= |other| && forall i | 0 <= i < k :: outs[i] == other[i]
  {
    if k > 0 {
      SameFront(ins, outs, other, k - 1);
      StartsNoLater(ins, outs, other, k - 1);
      StartsNoLater(ins, other, outs, k - 1);
      EndsNoEarlier(ins, outs, other, k - 1);
      EndsNoEarlier(ins, other, outs, k - 1);
      assert AttrAt(ins, outs[k - 1].addr) == Some(outs[k - 1].attr);
      assert outs[k - 1] == other[k - 1];
    }
  }

  /** Ranges that mean the same give the same output, whatever their order and overlaps; so the sweep
      over its own output changes nothing. */
  lemma AnswerIsUnique(ins: seq<Entry>, ins': seq<Entry>, outs: seq<Entry>, other: seq<Entry>)
    requires forall x: nat | x < ADDRESSES :: AttrAt(ins, x) == AttrAt(ins', x)
    requires Answer(ins, outs) && Answer(ins', other)
    ensures outs == other
  {
    assert Answer(ins, other);
    SameFront(ins, outs, other, |outs|);
    SameFront(ins, other, outs, |other|);
  }

  lemma OnlyOne(outs: seq<Entry>, k: nat, l: nat)
    requires Normal(outs) && k < |outs| && l < |outs| && outs[k].addr == 0 && outs[k].End() == ADDRESSES
    requires outs[l].addr < outs[l].End() <= ADDRESSES
    ensures l == k
  {
  }

  /** An entry of size 0 stands alone, and stands for the whole address space with one attribute. */
  lemma SizeZeroIsWholeSpace(ins: seq<Entry>, outs: seq<Entry>)
    requires Answer(ins, outs)
    ensures (exists k :: 0 <= k < |outs| && outs[k].size == 0)
            <==> AttrAt(ins, 0) != None && forall x: nat | x < ADDRESSES :: AttrAt(ins, x) == AttrAt(ins, 0)
    ensures forall k | 0 <= k < |outs| && outs[k].size == 0 :: |outs| == 1 && outs[k].addr == 0
  {
    forall k | 0 <= k < |outs| && outs[k].size == 0
      ensures |outs| == 1 && outs[k].addr == 0 && AttrAt(ins, 0) != None
      ensures forall x: nat | x < ADDRESSES :: AttrAt(ins, x) == AttrAt(ins, 0)
    {
      assert outs[k].End() == ADDRESSES && outs[k].addr == 0;
      OnlyOne(outs, k, 0);
      OnlyOne(outs, k, |outs| - 1);
    }
    if AttrAt(ins, 0) != None && forall x: nat | x < ADDRESSES :: AttrAt(ins, x) == AttrAt(ins, 0) {
      assert AttrAt(ins, 0).Some?;
      var whole := [Entry(0, 0, AttrAt(ins, 0).value)];
      assert Denotes(ins, whole, ADDRESSES) by {
        assert whole[0].End() == ADDRESSES;
      }
      AnswerIsUnique(ins, ins, outs, whole);
      assert outs[0].size == 0;
    }
  }

  // ------------------------------------------------------------------
  // How much room the answer takes
  // ------------------------------------------------------------------

  /** The attribute changes where an entry starts. */
  lemma StartBreaks(ins: seq<Entry>, outs: seq<Entry>, k: nat)
    requires Answer(ins, outs) && k < |outs| && outs[k].addr > 0
    ensures AttrAt(ins, outs[k].addr - 1) != AttrAt(ins, outs[k].addr) == Some(outs[k].attr)
  {
    var x := outs[k].addr;
    if AttrAt(ins, x - 1) != None {
      var j :| 0 <= j < |outs| && outs[j].addr <= x - 1 < outs[j].End();
      assert AttrAt(ins, x - 1) == Some(outs[j].attr);
      EndsAtNext(outs, j, k);
      if outs[j].End() == x {
        EndBreaks(ins, outs, j);
      }
    }
  }

  lemma EndsAtNext(outs: seq<Entry>, j: nat, k: nat)
    requires Normal(outs) && (forall l | 0 <= l < |outs| :: outs[l].addr < outs[l].End())
    requires j < |outs| && k < |outs| && outs[j].addr < outs[k].addr <= outs[j].End()
    ensures j < k && outs[j].End() == outs[k].addr
  {
  }

  /** End points of the ranges: number e is the start of range e, or the end of range e - |ins|. */
  ghost function Point(ins: seq<Entry>, e: nat): nat
    requires e < 2 * |ins|
  {
    if e < |ins| then ins[e].addr else ins[e - |ins|].addr + ins[e - |ins|].size
  }

  lemma StartIsPoint(ins: seq<Entry>, outs: seq<Entry>, k: nat) returns (e: nat)
    requires Answer(ins, outs) && k < |outs|
    ensures e < 2 * |ins| && Point(ins, e) == outs[k].addr
  {
    var x := outs[k].addr;
    assert AttrAt(ins, x) == Some(outs[k].attr);
    if x == 0 {
      var i: nat :| CoveredBy(ins, x, i);
      e := i;
    } else {
      StartBreaks(ins, outs, k);
      if forall i | 0 <= i < |ins| :: ins[i].Covers(x - 1) <==> ins[i].Covers(x) {
        SameCover(ins, x - 1, x);
      }
      var i: nat :| i < |ins| && (ins[i].Covers(x - 1) != ins[i].Covers(x));
      e := if ins[i].addr == x then i else |ins| + i;
      assert e >= |ins| ==> Point(ins, e) == ins[i].addr + ins[i].size;
    }
  }

  lemma {:induction false} StartPoints(ins: seq<Entry>, outs: seq<Entry>, k: nat) returns (q: seq<nat>)
    requires Answer(ins, outs) && k <= |outs|
    ensures |q| == k && forall i | 0 <= i < k :: q[i] < 2 * |ins| && Point(ins, q[i]) == outs[i].addr
  {
    q := [];
    if k > 0 {
      q := StartPoints(ins, outs, k - 1);
      var e := StartIsPoint(ins, outs, k - 1);
      q := q + [e];
    }
  }

  /** Room for twice as many entries as there are ranges always suffices. */
  lemma TwiceFits(ins: seq<Entry>)
    ensures Fits(ins, 2 * |ins|)
  {
    forall outs: seq<Entry> | Answer(ins, outs) ensures |outs| <= 2 * |ins| {
      var q := StartPoints(ins, outs, |outs|);
      forall i, j | 0 <= i < j < |q| ensures q[i] != q[j] {
        assert outs[i].addr < outs[i].End() <= outs[j].addr;
      }
      Counting.Pigeonhole(q, 2 * |ins|);
    }
  }

  /** No two ranges share an address. */
  ghost predicate Disjoint(ins: seq<Entry>) {
    forall i: nat, j: nat, x: nat | CoveredBy(ins, x, i) && CoveredBy(ins, x, j) :: i == j
  }

  lemma OnlyCover(ins: seq<Entry>, x: nat, i: nat)
    requires Disjoint(ins) && CoveredBy(ins, x, i)
    ensures AttrAt(ins, x) == Some(ins[i].attr)
  {
    AttrIs(ins, x, i);
  }

  lemma StartIsStart(ins: seq<Entry>, outs: seq<Entry>, k: nat) returns (i: nat)
    requires Disjoint(ins) && Answer(ins, outs) && k < |outs|
    ensures i < |ins| && ins[i].addr == outs[k].addr
  {
    var x := outs[k].addr;
    assert AttrAt(ins, x) == Some(outs[k].attr);
    i :| CoveredBy(ins, x, i);
    OnlyCover(ins, x, i);
    if ins[i].addr < x {
      assert CoveredBy(ins, x - 1, i);
      OnlyCover(ins, x - 1, i);
      StartBreaks(ins, outs, k);
    }
  }

  lemma {:induction false} Starts(ins: seq<Entry>, outs: seq<Entry>, k: nat) returns (q: seq<nat>)
    requires Disjoint(ins) && Answer(ins, outs) && k <= |outs|
    ensures |q| == k && forall i | 0 <= i < k :: q[i] < |ins| && ins[q[i]].addr == outs[i].addr
  {
    q := [];
    if k > 0 {
      q := Starts(ins, outs, k - 1);
      var i := StartIsStart(ins, outs, k - 1);
      q := q + [i];
    }
  }

  /** Disjoint ranges may be normalised in place: their answer has no more entries than they are. */
  lemma DisjointFits(ins: seq<Entry>)
    requires Disjoint(ins)
    ensures Fits(ins, |ins|)
  {
    forall outs: seq<Entry> | Answer(ins, outs) ensures |outs| <= |ins| {
      var q := Starts(ins, outs, |outs|);
      forall i, j | 0 <= i < j < |q| ensures q[i] != q[j] {
        assert outs[i].addr < outs[i].End() <= outs[j].addr;
      }
      Counting.Pigeonhole(q, |ins|);
    }
  }
}
