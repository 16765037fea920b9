/** The terminal's read buffer: a ring of characters, of which the first `visible` may be read and the
    rest is the line still being edited. The keyboard thread edits and commits under the mutex, readers
    take from the front; readers that find nothing wait on the condition variable. */
module Tty {
  import opened Options

  const SIZE: nat := 0x20_0000
  const THRESHOLD: nat := SIZE / 2

  function Min(a: nat, b: nat): nat { if a < b then a else b }

  // ------------------------------------------------------------------
  // Rings
  // ------------------------------------------------------------------

  /** The n characters from index `first` on, going round. */
  ghost function Ring(b: seq<char>, first: nat, n: nat): seq<char>
    requires |b| == SIZE
  {
    seq(n, k requires 0 <= k < n => b[(first + k) % SIZE])
  }

  lemma RingPut(b: seq<char>, first: nat, n: nat, c: char)
    requires |b| == SIZE && n < SIZE
    ensures Ring(b[(first + n) % SIZE := c], first, n + 1) == Ring(b, first, n) + [c]
  {
    var r := Ring(b[(first + n) % SIZE := c], first, n + 1);
    forall k | 0 <= k < n ensures r[k] == Ring(b, first, n)[k] {
      Apart(first + k, first + n);
    }
  }

  lemma Apart(x: nat, y: nat)
    requires x < y < x + SIZE
    ensures x % SIZE != y % SIZE
  {
  }

  lemma RingDrop(b: seq<char>, first: nat, n: nat, k: nat)
    requires |b| == SIZE && k <= n
    ensures Ring(b, first, n)[k..] == Ring(b, (first + k) % SIZE, n - k)
  {
    var r := Ring(b, (first + k) % SIZE, n - k);
    forall i | 0 <= i < n - k ensures Ring(b, first, n)[k..][i] == r[i] {
      Round(first + k, i);
    }
  }

  lemma Round(x: nat, i: nat)
    ensures (x % SIZE + i) % SIZE == (x + i) % SIZE
  {
  }

  lemma RingTake(b: seq<char>, first: nat, n: nat, k: nat)
    requires |b| == SIZE && k <= n
    ensures Ring(b, first, n)[..k] == Ring(b, first, k)
  {
  }

  /** The two pieces a wrapped-around copy takes. */
  lemma RingPieces(b: seq<char>, first: nat, n: nat)
    requires |b| == SIZE && first < SIZE && n <= SIZE
    ensures Ring(b, first, n) == if first + n <= SIZE then b[first..first + n] else b[first..] + b[..first + n - SIZE]
  {
  }

  // ------------------------------------------------------------------
  // What committing means
  // ------------------------------------------------------------------

  /** What lies behind the first `visible` characters of the text is a line that has not been ended. */
  ghost predicate LineOpen(text: seq<char>, visible: nat) {
    forall k | visible <= k < |text| :: text[k] != '\n'
  }

  /** The length of the part of c up to its last line end. */
  ghost function Lines(c: seq<char>): nat {
    if c == [] then 0 else if c[|c| - 1] == '\n' then |c| else Lines(c[..|c| - 1])
  }

  /** The visible part after the text s has grown to hold c at its end: everything at the threshold,
      else up to the last line end in c, else as before. */
  ghost function NewVisible(visible: nat, front: nat, c: seq<char>): nat {
    if c == [] then visible
    else if front + |c| >= THRESHOLD then front + |c|
    else if Lines(c) > 0 then front + Lines(c)
    else visible
  }

  lemma {:induction false} LinesBound(c: seq<char>)
    ensures Lines(c) <= |c|
    ensures Lines(c) > 0 <==> '\n' in c
  {
    if c != [] && c[|c| - 1] != '\n' {
      LinesBound(c[..|c| - 1]);
      assert c == c[..|c| - 1] + [c[|c| - 1]];
    }
  }

  lemma {:induction false} LinesEnd(c: seq<char>)
    ensures Lines(c) > 0 ==> Lines(c) <= |c| && c[Lines(c) - 1] == '\n'
    ensures LineOpen(c, Lines(c))
  {
    if c != [] && c[|c| - 1] != '\n' {
      LinesEnd(c[..|c| - 1]);
      assert c == c[..|c| - 1] + [c[|c| - 1]];
    }
  }

  /** Committing leaves no ended line behind, commits no part of a line below the threshold, and commits
      everything from there on. */
  lemma CommitsLines(text: seq<char>, visible: nat, c: seq<char>)
    requires visible <= |text| && LineOpen(text, visible)
    ensures var (text', visible') := (text + c, NewVisible(visible, |text|, c));
      && visible <= visible' <= |text'| && LineOpen(text', visible')
      && (c == [] ==> visible' == visible)
      && (c != [] && |text'| >= THRESHOLD ==> visible' == |text'|)
      && (|text'| < THRESHOLD && visible' != visible ==> text'[visible' - 1] == '\n')
  {
    LinesBound(c);
    LinesEnd(c);
  }

  // ------------------------------------------------------------------
  // Editing
  // ------------------------------------------------------------------

  /** What a pressed key means once shift and caps lock are taken into account. */
  datatype Key = Backspace | Type(c: char) | Other

  /** The line after one key after another. */
  ghost function Edited(line: seq<char>, keys: seq<Key>): seq<char> {
    if keys == [] then line
    else
      var before := Edited(line, keys[..|keys| - 1]);
      match keys[|keys| - 1]
      case Backspace => if before == [] then [] else before[..|before| - 1]
      case Type(c) => before + [c]
      case Other => before
  }

  /** `back` backspaces and then the characters c. */
  ghost function Applied(line: seq<char>, back: nat, c: seq<char>): seq<char> {
    line[..|line| - Min(back, |line|)] + c
  }

  /** The keyboard thread reduces a batch of keys to some backspaces and some characters: on every line
      that has the effect of the keys one by one. */
  method Reduce(keys: seq<Key>) returns (back: nat, c: seq<char>)
    ensures back + |c| <= |keys|
    ensures forall line: seq<char> :: Edited(line, keys) == Applied(line, back, c)
  {
    back, c := 0, [];
    var i: nat := 0;
    assert forall line: seq<char> :: Applied(line, 0, []) == line;
    assert keys[..0] == [];
    while i < |keys|
      invariant i <= |keys| && back + |c| <= i
      invariant forall line: seq<char> :: Edited(line, keys[..i]) == Applied(line, back, c)
      decreases |keys| - i
    {
      ghost var (b0, c0) := (back, c);
      match keys[i] {
        case Backspace =>
          if |c| > 0 {
            c := c[..|c| - 1];
          } else {
            back := back + 1;
          }
        case Type(x) => c := c + [x];
        case Other =>
      }
      forall line: seq<char> ensures Edited(line, keys[..i + 1]) == Applied(line, back, c) {
        EditedMore(line, keys, i);
        AppliedMore(line, b0, c0, keys[i]);
      }
      i := i + 1;
    }
    assert keys[..i] == keys;
  }

  lemma EditedMore(line: seq<char>, keys: seq<Key>, i: nat)
    requires i < |keys|
    ensures Edited(line, keys[..i + 1]) == Edited(Edited(line, keys[..i]), [keys[i]])
  {
    assert keys[..i + 1][..i] == keys[..i];
    assert Edited(Edited(line, keys[..i]), []) == Edited(line, keys[..i]);
    assert [keys[i]][..0] == [];
  }

  lemma AppliedMore(line: seq<char>, back: nat, c: seq<char>, key: Key)
    ensures Edited(Applied(line, back, c), [key]) ==
      match key
      case Backspace => if |c| > 0 then Applied(line, back, c[..|c| - 1]) else Applied(line, back + 1, c)
      case Type(x) => Applied(line, back, c + [x])
      case Other => Applied(line, back, c)
  {
    assert [key][..0] == [];
    assert Edited(Applied(line, back, c), []) == Applied(line, back, c);
  }

  // ------------------------------------------------------------------
  // The terminal
  // ------------------------------------------------------------------

  class Terminal {
    const buf: array<char>
    var ii: nat
    var oi: nat
    var used: nat
    var visible: nat
    var waiters: seq<nat>   // readers on the condition list

    ghost predicate Valid()
      reads this, buf
    {
      && buf.Length == SIZE && oi < SIZE && ii == (oi + used) % SIZE
      && visible <= used <= SIZE && used - visible < THRESHOLD
      && (visible > 0 ==> waiters == [])
      && LineOpen(Ring(buf[..], oi, used), visible)
    }

    /** What has been typed and not read. */
    ghost function Text(): seq<char>
      requires buf.Length == SIZE
      reads this, buf
    {
      Ring(buf[..], oi, used)
    }

    constructor ()
      ensures Valid() && Text() == [] && visible == 0 && waiters == [] && fresh(buf)
    {
      buf := new char[SIZE];
      ii, oi, used, visible, waiters := 0, 0, 0, 0, [];
    }

    /** Stores the characters c[..n] at the end; the loop of keyboard_thread_c.c also finds the last line. */
    method Store(c: seq<char>, n: nat) returns (lines: nat)
      requires Valid() && n <= |c| && used + n <= SIZE
      modifies this`ii, this`used, buf
      ensures oi == old(oi) && used == old(used) + n && ii == (oi + used) % SIZE
      ensures Text() == old(Text()) + c[..n] && lines == Lines(c[..n])
    {
      lines := 0;
      var i: nat := 0;
      while i < n
        invariant i <= n && used == old(used) + i && ii == (oi + used) % SIZE
        invariant Text() == old(Text()) + c[..i] && lines == Lines(c[..i])
      {
        RingPut(buf[..], oi, used, c[i]);
        ghost var b := buf[..];
        buf[ii] := c[i];
        assert buf[..] == b[ii := c[i]];
        Round(oi + used, 1);
        ii := (ii + 1) % SIZE;
        used := used + 1;
        assert c[..i + 1][..i] == c[..i];
        if c[i] == '\n' {
          lines := i + 1;
        }
        assert c[..i + 1] == c[..i] + [c[i]];
        i := i + 1;
      }
    }

    /** Takes back at most `back` characters of the line being edited. */
    method Erase(back: nat) returns (removed: nat)
      requires Valid()
      modifies this`ii, this`used
      ensures Valid() && removed == Min(back, old(used) - visible) && used == old(used) - removed
      ensures Text() == old(Text())[..used]
    {
      removed := if used - visible < back then used - visible else back;
      RingTake(buf[..], oi, used, used - removed);
      if removed != 0 {
        Back(oi, used, removed);
        ii := if ii >= removed then ii - removed else SIZE - (removed - ii);
      }
      used := used - removed;
    }

    /** Appends the characters that fit, and makes text visible. */
    method Append(c: seq<char>) returns (saved: nat)
      requires Valid()
      modifies this, buf
      ensures Valid() && saved == Min(|c|, SIZE - old(used)) && Text() == old(Text()) + c[..saved]
      ensures visible == NewVisible(old(visible), old(used), c[..saved])
      ensures saved == 0 ==> visible == old(visible)
      ensures saved > 0 && used >= THRESHOLD ==> visible == used
      ensures used < THRESHOLD && visible != old(visible) ==> visible > old(used) && Text()[visible - 1] == '\n'
      ensures waiters == if visible > old(visible) == 0 then [] else old(waiters)
    {
      saved := if |c| > SIZE - used then SIZE - used else |c|;
      if saved != 0 {
        var front := used;
        var lines := Store(c, saved);
        LinesBound(c[..saved]);
        CommitsLines(old(Text()), old(visible), c[..saved]);
        var newVisible := if used >= THRESHOLD then used else 0;
        if lines > 0 && front + lines > newVisible {
          newVisible := front + lines;
        }
        if newVisible > 0 {
          if visible == 0 {
            waiters := [];   // cnd_broadcast
          }
          visible := newVisible;
        }
      }
    }

    /** The keyboard thread's turn at the terminal: `back` backspaces, of which only the line being edited
        gives way, then the characters c, as far as they fit. The echo is left to the caller. */
    method Commit(back: nat, c: seq<char>) returns (removed: nat, saved: nat)
      requires Valid()
      modifies this, buf
      ensures Valid()
      ensures removed == Min(back, old(used) - old(visible)) && saved == Min(|c|, SIZE - (old(used) - removed))
      ensures Text() == old(Text())[..old(used) - removed] + c[..saved]
      ensures visible == NewVisible(old(visible), old(used) - removed, c[..saved])
      ensures saved == 0 ==> visible == old(visible)
      ensures saved > 0 && used >= THRESHOLD ==> visible == used
      ensures used < THRESHOLD && visible != old(visible) ==> visible > old(used) - removed && Text()[visible - 1] == '\n'
      ensures waiters == if visible > old(visible) == 0 then [] else old(waiters)
    {
      removed := Erase(back);
      saved := Append(c);
    }

    lemma Back(first: nat, n: nat, k: nat)
      requires first < SIZE && k <= n <= SIZE
      ensures (first + n - k) % SIZE == if (first + n) % SIZE >= k then (first + n) % SIZE - k else SIZE - (k - (first + n) % SIZE)
    {
    }

    /** The copy of tty_read and tty_readv: takes the first n characters. */
    method Take(n: nat) returns (data: seq<char>)
      requires Valid() && n <= visible
      modifies this`oi, this`used, this`visible
      ensures Valid() && data == old(Text())[..n] && Text() == old(Text())[n..]
      ensures used == old(used) - n && visible == old(visible) - n
    {
      RingTake(buf[..], oi, used, n);
      RingDrop(buf[..], oi, used, n);
      RingPieces(buf[..], oi, n);
      Advance(oi, used, n);
      visible := visible - n;
      used := used - n;
      if oi < SIZE - n {
        data := buf[oi..oi + n];
        oi := oi + n;
      } else if oi == SIZE - n {
        data := buf[oi..oi + n];
        oi := 0;
      } else {
        var size := SIZE - oi;
        data := buf[oi..oi + size] + buf[..n - size];
        oi := n - size;
      }
    }

    lemma Advance(first: nat, n: nat, k: nat)
      requires first < SIZE && k <= n <= SIZE
      ensures (first + k) % SIZE == if first + k < SIZE then first + k else first + k - SIZE
      ensures ((first + k) % SIZE + (n - k)) % SIZE == (first + n) % SIZE
    {
      Round(first + k, n - k);
    }

    /** tty_read by reader t: the oldest characters, at most `size`, or None when t has to wait. */
    method Read(t: nat, size: nat) returns (data: Option<seq<char>>)
      requires Valid()
      modifies this
      ensures Valid()
      ensures size == 0 ==> data == Some([]) && waiters == old(waiters)
      ensures size > 0 ==> (data == None <==> old(visible) == 0)
      ensures data == None ==> waiters == old(waiters) + [t] && Text() == old(Text()) && visible == old(visible)
      ensures data.Some? ==> waiters == old(waiters)
      ensures data.Some? ==>
        var n := Min(size, old(visible));
        data.value == old(Text())[..n] && Text() == old(Text())[n..] && visible == old(visible) - n
    {
      if size == 0 {
        assert old(Text())[0..] == old(Text()) && old(Text())[..0] == [];
        return Some([]);
      }
      if visible == 0 {
        waiters := waiters + [t];   // cnd_wait
        return None;
      }
      var n := if size > visible then visible else size;
      var d := Take(n);
      data := Some(d);
    }

    /** Fills the vectors, of which the first is not empty. */
    method Fill(vec: seq<nat>) returns (parts: seq<seq<char>>)
      requires Valid() && visible > 0 && vec != []
      modifies this`oi, this`used, this`visible
      ensures Valid() && |parts| <= |vec| && forall j | 0 <= j < |parts| :: |parts[j]| <= vec[j]
      ensures var n := Min(Sum(vec), old(visible));
        Joined(parts) == old(Text())[..n] && Text() == old(Text())[n..] && visible == old(visible) - n
    {
      parts := [];
      ghost var text, v := Text(), visible;
      FillStart(vec, text, v);
      while visible > 0 && |parts| < |vec|
        invariant |parts| <= |vec| && Valid()
        invariant Filling(vec, text, v, parts, Text(), visible)
        decreases |vec| - |parts|
      {
        var d := FillOne(vec, parts, text, v);
        parts := parts + [d];
      }
      FillEnd(vec, text, v, parts, Text(), visible);
    }

    method FillOne(vec: seq<nat>, parts: seq<seq<char>>, ghost text: seq<char>, ghost v: nat) returns (d: seq<char>)
      requires Valid() && |parts| < |vec| && visible > 0 && Filling(vec, text, v, parts, Text(), visible)
      modifies this`oi, this`used, this`visible
      ensures Valid() && Filling(vec, text, v, parts + [d], Text(), visible)
    {
      var k := |parts|;
      var size := if vec[k] > visible then visible else vec[k];
      ghost var t, left := Text(), visible;
      d := Take(size);
      FillMore(vec, text, v, parts, t, left, d, size);
    }

    /** tty_readv by reader t, for vectors of the given lengths: it fills one after another until they or
        the visible characters run out. */
    method ReadV(t: nat, lens: seq<nat>) returns (skipped: nat, data: Option<seq<seq<char>>>)
      requires Valid()
      modifies this
      ensures Valid()
      ensures data == None <==> Sum(lens) > 0 && old(visible) == 0
      ensures data == None ==> waiters == old(waiters) + [t] && Text() == old(Text()) && visible == old(visible)
      ensures data.Some? ==> waiters == old(waiters) && skipped + |data.value| <= |lens|
      ensures data.Some? ==> forall j | 0 <= j < |data.value| :: |data.value[j]| <= lens[skipped + j]
      ensures data.Some? ==>
        var n := Min(Sum(lens), old(visible));
        Joined(data.value) == old(Text())[..n] && Text() == old(Text())[n..] && visible == old(visible) - n
    {
      skipped := SkipEmpty(lens);
      if skipped == |lens| {
        assert Text()[..0] == [] && Text()[0..] == Text();
        return skipped, Some([]);
      }
      if visible == 0 {
        waiters := waiters + [t];   // cnd_wait
        return skipped, None;
      }
      var parts := Fill(lens[skipped..]);
      data := Some(parts);
    }
  }

  /** How many vectors at the front are empty. */
  method SkipEmpty(lens: seq<nat>) returns (i: nat)
    ensures i <= |lens| && Sum(lens[i..]) == Sum(lens) && (Sum(lens) > 0 <==> i < |lens|)
    ensures forall j | 0 <= j < i :: lens[j] == 0
  {
    i := 0;
    assert lens[..0] == [];
    while i < |lens| && lens[i] == 0
      invariant i <= |lens| && Sum(lens[..i]) == 0
      invariant forall j | 0 <= j < i :: lens[j] == 0
    {
      SumMore(lens, i);
      i := i + 1;
    }
    SumSplit(lens, i);
    if i < |lens| {
      SumSplit(lens[i..], 1);
      SumMore(lens[i..], 0);
    }
  }

  /** Of the text with v visible characters, `parts` have gone into the first vectors, which are full,
      and `rest` is left with `left` visible ones. */
  ghost predicate Filling(vec: seq<nat>, text: seq<char>, v: nat, parts: seq<seq<char>>, rest: seq<char>, left: nat) {
    && |parts| <= |vec| && left <= v <= |text|
    && (forall j | 0 <= j < |parts| :: |parts[j]| <= vec[j])
    && Joined(parts) == text[..v - left] && rest == text[v - left..]
    && (left > 0 ==> Sum(vec[..|parts|]) + left == v) && Sum(vec[..|parts|]) + left >= v
  }

  lemma FillStart(vec: seq<nat>, text: seq<char>, v: nat)
    requires v <= |text|
    ensures Filling(vec, text, v, [], text, v)
  {
    assert vec[..0] == [];
  }

  lemma FillMore(vec: seq<nat>, text: seq<char>, v: nat, parts: seq<seq<char>>, rest: seq<char>, left: nat, d: seq<char>, size: nat)
    requires Filling(vec, text, v, parts, rest, left) && |parts| < |vec| && left > 0
    requires size == Min(vec[|parts|], left) && size <= |rest| && d == rest[..size]
    ensures Filling(vec, text, v, parts + [d], rest[size..], left - size)
  {
    JoinedMore(parts, d);
    SumMore(vec, |parts|);
    var done := v - left;
    assert text[..done] + text[done..][..size] == text[..done + size];
    assert text[done..][size..] == text[done + size..];
  }

  lemma FillEnd(vec: seq<nat>, text: seq<char>, v: nat, parts: seq<seq<char>>, rest: seq<char>, left: nat)
    requires Filling(vec, text, v, parts, rest, left) && (left == 0 || |parts| == |vec|)
    ensures var n := Min(Sum(vec), v); Joined(parts) == text[..n] && rest == text[n..] && left == v - n
  {
    SumSplit(vec, |parts|);
    assert |parts| == |vec| ==> vec[..|parts|] == vec;
  }

  // ---- vectors ----

  ghost function Sum(lens: seq<nat>): nat {
    if lens == [] then 0 else Sum(lens[..|lens| - 1]) + lens[|lens| - 1]
  }

  ghost function Joined(parts: seq<seq<char>>): seq<char> {
    if parts == [] then [] else Joined(parts[..|parts| - 1]) + parts[|parts| - 1]
  }

  lemma SumMore(lens: seq<nat>, i: nat)
    requires i < |lens|
    ensures Sum(lens[..i + 1]) == Sum(lens[..i]) + lens[i]
  {
    assert lens[..i + 1][..i] == lens[..i];
  }

  lemma {:induction false} SumSplit(lens: seq<nat>, i: nat)
    requires i <= |lens|
    ensures Sum(lens) == Sum(lens[..i]) + Sum(lens[i..])
    decreases |lens|
  {
    if i == |lens| {
      assert lens[..i] == lens;
    } else {
      SumSplit(lens[..|lens| - 1], i);
      assert lens[..|lens| - 1][..i] == lens[..i];
      assert lens[i..][..|lens[i..]| - 1] == lens[..|lens| - 1][i..];
    }
  }

  lemma JoinedMore(parts: seq<seq<char>>, d: seq<char>)
    ensures Joined(parts + [d]) == Joined(parts) + d
  {
    assert (parts + [d])[..|parts|] == parts;
  }
}
