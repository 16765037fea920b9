/** The boot-time iterator over the free memory blocks. Addresses of frames are counted in frames of 2 MiB;
    they wrap like the 64-bit addresses they stand for. */
module FreeBlocks {
  import opened Options

  const FRAMES: nat := 0x800_0000_0000   // 2^64 / 2 MiB

  /** A 64-bit sum of two such addresses. */
  function Wrap(sum: nat): nat
    requires sum < 2 * FRAMES
  {
    if sum >= FRAMES then sum - FRAMES else sum
  }

  /** A free block, not empty; it may end at 2^64. The blocks begin above 16 MiB, so that no frame has the
      address 0, which stands for no frame. */
  datatype Block = Block(first: nat, count: nat)
  {
    ghost predicate Valid() {
      0 < first && 0 < count && first + count <= FRAMES
    }

    predicate Has(f: nat) {
      first <= f < first + count
    }
  }

  /** n frames from f on. */
  ghost function FramesFrom(f: nat, n: nat): seq<nat>
    decreases n
  {
    if n == 0 then [] else [f] + FramesFrom(f + 1, n - 1)
  }

  ghost function AllFrames(blocks: seq<Block>): seq<nat> {
    if blocks == [] then [] else FramesFrom(blocks[0].first, blocks[0].count) + AllFrames(blocks[1..])
  }

  /** FramesFrom lists each frame of the range once. */
  lemma {:induction false} FramesFromAt(f: nat, n: nat, k: nat)
    requires k < n
    ensures |FramesFrom(f, n)| == n && FramesFrom(f, n)[k] == f + k
    decreases n
  {
    if n > 1 {
      FramesFromAt(f + 1, n - 1, if k > 0 then k - 1 else 0);
    }
  }

  lemma {:induction false} InFrames(blocks: seq<Block>, f: nat)
    ensures f in AllFrames(blocks) <==> exists i :: 0 <= i < |blocks| && blocks[i].Has(f)
  {
    if blocks != [] {
      var b, rest := blocks[0], blocks[1..];
      InFrames(rest, f);
      if f in FramesFrom(b.first, b.count) {
        var k :| 0 <= k < |FramesFrom(b.first, b.count)| && FramesFrom(b.first, b.count)[k] == f;
        FramesFromLength(b.first, b.count);
        FramesFromAt(b.first, b.count, k);
        assert blocks[0].Has(f);
      }
      if i :| 0 <= i < |blocks| && blocks[i].Has(f) {
        if i == 0 {
          FramesFromAt(b.first, b.count, f - b.first);
        } else {
          assert rest[i - 1].Has(f);
        }
      }
      if i :| 0 <= i < |rest| && rest[i].Has(f) {
        assert blocks[i + 1].Has(f);
      }
    }
  }

  lemma {:induction false} FramesFromLength(f: nat, n: nat)
    ensures |FramesFrom(f, n)| == n
    decreases n
  {
    if n > 0 {
      FramesFromLength(f + 1, n - 1);
    }
  }

  /** The frames of blocks that do not overlap differ. */
  lemma {:induction false} FramesDiffer(blocks: seq<Block>, x: nat, y: nat)
    requires forall i, j, f: nat | 0 <= i < j < |blocks| && blocks[i].Has(f) :: !blocks[j].Has(f)
    requires x < y < |AllFrames(blocks)|
    ensures AllFrames(blocks)[x] != AllFrames(blocks)[y]
  {
    var b, rest := blocks[0], blocks[1..];
    var n := b.count;
    FramesFromLength(b.first, n);
    forall i, j, f: nat | 0 <= i < j < |rest| && rest[i].Has(f) ensures !rest[j].Has(f) {
      assert blocks[i + 1].Has(f);
    }
    if x >= n {
      FramesDiffer(rest, x - n, y - n);
    } else {
      FramesFromAt(b.first, n, x);
      if y < n {
        FramesFromAt(b.first, n, y);
      } else {
        var f := AllFrames(rest)[y - n];
        InFrames(rest, f);
        var j :| 0 <= j < |rest| && rest[j].Has(f);
        assert blocks[j + 1].Has(f) && blocks[0].Has(b.first + x);
      }
    }
  }

  lemma AllFramesAt(blocks: seq<Block>, k: nat)
    requires k <= |blocks|
    ensures k == |blocks| ==> AllFrames(blocks[k..]) == []
    ensures k < |blocks| ==> AllFrames(blocks[k..]) == FramesFrom(blocks[k].first, blocks[k].count) + AllFrames(blocks[k + 1..])
  {
    if k < |blocks| {
      assert blocks[k..][0] == blocks[k] && blocks[k..][1..] == blocks[k + 1..];
    }
  }

  /** Up to the end of a block the wrapped comparison is exact. */
  lemma WrapsOnce(f: nat, end: nat)
    requires f < end <= FRAMES
    ensures Wrap(f + 1) == Wrap(end) <==> f + 1 == end
    ensures f + 1 < end ==> Wrap(f + 1) == f + 1
  {
  }

  lemma FramesStep(f: nat, n: nat, more: seq<nat>)
    requires n > 0
    ensures FramesFrom(f, n) + more == [f] + (FramesFrom(f + 1, n - 1) + more)
  {
    assert FramesFrom(f, n) == [f] + FramesFrom(f + 1, n - 1);
  }

  /** Where the iterator stands: before a frame of a block, or at the end of the list. */
  ghost predicate Stands(blocks: seq<Block>, block: nat, next: nat, max: nat) {
    && (forall i | 0 <= i < |blocks| :: blocks[i].Valid())
    && block <= |blocks|
    && (block < |blocks| ==>
          && blocks[block].first <= next < blocks[block].first + blocks[block].count
          && max == Wrap(blocks[block].first + blocks[block].count))
  }

  /** The frames still to come from there. */
  ghost function RestFrom(blocks: seq<Block>, block: nat, next: nat): seq<nat> {
    if block >= |blocks| || next > blocks[block].first + blocks[block].count then []
    else FramesFrom(next, blocks[block].first + blocks[block].count - next) + AllFrames(blocks[block + 1..])
  }

  /** One frame on within a block. */
  lemma StepInside(blocks: seq<Block>, block: nat, next: nat, max: nat)
    requires Stands(blocks, block, next, max) && block < |blocks| && Wrap(next + 1) != max
    ensures Stands(blocks, block, Wrap(next + 1), max)
    ensures RestFrom(blocks, block, next) == [next] + RestFrom(blocks, block, Wrap(next + 1))
  {
    var end := blocks[block].first + blocks[block].count;
    assert blocks[block].Valid();
    WrapsOnce(next, end);
    assert Wrap(next + 1) == next + 1;
    FramesStep(next, end - next, AllFrames(blocks[block + 1..]));
  }

  /** The place after the last frame of a block: the start of the next one, if there is one. */
  function After(blocks: seq<Block>, block: nat, next: nat, max: nat): (nat, nat, nat) {
    if block + 1 < |blocks| then
      var b := blocks[block + 1];
      (block + 1, b.first, if b.first + b.count < 2 * FRAMES then Wrap(b.first + b.count) else 0)
    else (block + 1, next, max)
  }

  /** On to the next block. */
  lemma StepOut(blocks: seq<Block>, block: nat, next: nat, max: nat)
    requires Stands(blocks, block, next, max) && block < |blocks| && Wrap(next + 1) == max
    ensures var (block', next', max') := After(blocks, block, next, max);
      Stands(blocks, block', next', max') && RestFrom(blocks, block, next) == [next] + RestFrom(blocks, block', next')
  {
    var end := blocks[block].first + blocks[block].count;
    assert blocks[block].Valid();
    WrapsOnce(next, end);
    assert next + 1 == end;
    FramesStep(next, 1, AllFrames(blocks[block + 1..]));
    AllFramesAt(blocks, block + 1);
    assert block + 1 < |blocks| ==> blocks[block + 1].Valid();
  }

  /** One call of get_free_page_in_init, on the iterator's fields. */
  function Advanced(blocks: seq<Block>, block: nat, next: nat, max: nat): (nat, nat, nat)
    requires next + 1 < 2 * FRAMES
  {
    if Wrap(next + 1) == max then After(blocks, block, next, max) else (block, Wrap(next + 1), max)
  }

  lemma AdvancedOk(blocks: seq<Block>, block: nat, next: nat, max: nat)
    requires Stands(blocks, block, next, max) && block < |blocks|
    ensures next + 1 < 2 * FRAMES
    ensures var (block', next', max') := Advanced(blocks, block, next, max);
      Stands(blocks, block', next', max') && RestFrom(blocks, block, next) == [next] + RestFrom(blocks, block', next')
  {
    assert blocks[block].Valid();
    if Wrap(next + 1) == max {
      StepOut(blocks, block, next, max);
    } else {
      StepInside(blocks, block, next, max);
    }
  }

  class Iterator {
    var block: nat            // index in the list; the end of the list is NULL
    var addr: nat
    var addrMax: nat
    const blocks: seq<Block>

    ghost predicate Valid()
      reads this
    {
      Stands(blocks, block, addr, addrMax)
    }

    ghost function Rest(): seq<nat>
      reads this
    {
      RestFrom(blocks, block, addr)
    }

    /** init_free_pages_iterator. */
    constructor (blocks: seq<Block>)
      requires forall i | 0 <= i < |blocks| :: blocks[i].Valid()
      ensures Valid() && this.blocks == blocks && Rest() == AllFrames(blocks)
    {
      this.blocks := blocks;
      block, addr, addrMax := 0, 0, 0;
      if blocks != [] {
        addr, addrMax := blocks[0].first, Wrap(blocks[0].first + blocks[0].count);
      }
    }

    /** get_free_page_in_init: the next frame, also where the end of the block wraps to 0. */
    method Next() returns (f: Option<nat>)
      requires Valid()
      modifies this
      ensures Valid()
      ensures old(Rest()) == [] ==> f == None && Rest() == []
      ensures old(Rest()) != [] ==> f.Some? && old(Rest()) == [f.value] + Rest()
    {
      if block == |blocks| {
        return None;
      }
      AdvancedOk(blocks, block, addr, addrMax);
      if block + 1 < |blocks| { assert blocks[block + 1].Valid(); }
      f := Some(addr);
      var next := Wrap(addr + 1);
      if next == addrMax {
        block := block + 1;
        if block < |blocks| {
          addr, addrMax := blocks[block].first, Wrap(blocks[block].first + blocks[block].count);
        }
      } else {
        addr := next;
      }
      assert (block, addr, addrMax) == old(Advanced(blocks, block, addr, addrMax));
    }
  }
}
