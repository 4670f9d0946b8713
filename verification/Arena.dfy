/** arena.h: a linked list of regions, allocation at its `end`, and mark and rewind. */
module Arenas {
  import opened ArenaState

  /** `Region`; `data` holds its words byte by byte. */
  class Region {
    var next: Region?
    var count: nat
    const capacity: nat
    const data: array<char>

    /** `new_region`. */
    constructor (capacity: nat)
      ensures next == null && count == 0 && this.capacity == capacity
      ensures fresh(data) && data.Length == capacity * WORD
    {
      this.next, this.count, this.capacity := null, 0, capacity;
      this.data := new char[capacity * WORD];
    }
  }

  /** `memcpy(dst + at, src, n)`. */
  method CopyBytes(dst: array<char>, at: nat, src: seq<char>)
    requires at + |src| <= dst.Length
    modifies dst
    ensures dst[at..at + |src|] == src
    ensures forall i :: 0 <= i < dst.Length && !(at <= i < at + |src|) ==> dst[i] == old(dst[i])
  {
    for i := 0 to |src|
      invariant dst[at..at + i] == src[..i]
      invariant forall j :: 0 <= j < dst.Length && !(at <= j < at + i) ==> dst[j] == old(dst[j])
    {
      dst[at + i] := src[i];
    }
  }

  class Arena {
    var begin: Region?
    var end: Region?
    ghost var spine: seq<Region>   // the regions from `begin` on, in list order
    ghost var at: int              // where `end` is in it, -1 for NULL

    /** The region at a position of the list, NULL past its end. */
    ghost function Nth(i: nat): Region?
      reads this
    {
      if i < |spine| then spine[i] else null
    }

    /** The list structure alone. */
    ghost predicate Linked()
      reads this, spine
    {
      && -1 <= at < |spine| && (spine != [] ==> 0 <= at)
      && begin == (if spine == [] then null else spine[0])
      && end == (if at == -1 then null else spine[at])
      && (forall i {:trigger spine[i].next} :: 0 <= i < |spine| ==> spine[i].next == Nth(i + 1))
      && (forall i :: 0 <= i < |spine| ==> spine[i].data.Length == spine[i].capacity * WORD)
      && (forall i, j :: 0 <= i < j < |spine| ==> spine[i] != spine[j] && spine[i].data != spine[j].data)
    }

    ghost function Abs(): (s: State)
      reads this, spine
      ensures |s.regs| == |spine| && s.end == at
      ensures forall i :: 0 <= i < |spine| ==> s.regs[i] == Reg(spine[i].count, spine[i].capacity)
    {
      State(seq(|spine|, i requires 0 <= i < |spine| reads this, spine => Reg(spine[i].count, spine[i].capacity)), at)
    }

    ghost predicate Valid()
      reads this, spine
    {
      Linked() && ArenaState.Valid(Abs())
    }

    /** The bytes of a block in use. */
    ghost function Bytes(b: Block): seq<char>
      reads this, spine, set r | r in spine :: r.data
      requires Valid() && Held(Abs(), b)
    {
      spine[b.region].data[b.off * WORD..(b.off + b.size) * WORD]
    }

    lemma HeldInBounds(b: Block)
      requires Valid() && Held(Abs(), b)
      ensures (b.off + b.size) * WORD <= spine[b.region].data.Length
    {
    }

    /** `Arena a = {0}`. */
    constructor ()
      ensures Valid() && Abs() == State([], -1)
    {
      begin, end, spine, at := null, null, [], -1;
    }

    /** A new region becomes the last one, and `end`. */
    method Append(capacity: nat)
      requires Linked() && at == |spine| - 1
      modifies this, spine
      ensures Linked() && Abs() == State(old(Abs()).regs + [Reg(0, capacity)], |old(spine)|)
      ensures old(spine) <= spine && fresh(spine[at]) && fresh(spine[at].data)
    {
      var r := new Region(capacity);
      if end == null {
        begin := r;
      } else {
        end.next := r;
      }
      end := r;
      spine := spine + [r];
      at := at + 1;
    }

    /** The first lines of `arena_alloc`: the first region of an unused arena. */
    method Begin(size: nat)
      requires Linked()
      modifies this, spine
      ensures Linked() && end != null && Abs() == Begun(old(Abs()), size)
      ensures old(spine) <= spine
      ensures forall i :: |old(spine)| <= i < |spine| ==> fresh(spine[i]) && fresh(spine[i].data)
    {
      if end == null {
        Append(if DEFAULT_CAPACITY < size then size else DEFAULT_CAPACITY);
      }
    }

    /** The search loop of `arena_alloc`. */
    method Seek(size: nat)
      requires Linked() && end != null
      modifies this`end, this`at
      ensures Linked() && at >= 0 && Abs().regs == old(Abs()).regs
      ensures old(at) >= 0 && at == Search(Abs().regs, old(at), size)
      ensures at < |spine| - 1 ==> Fits(Abs().regs[at], size)
    {
      hide Search, ArenaState.Valid;
      ghost var regs := Abs().regs;
      SearchStep(regs, at, size);
      while end.count + size > end.capacity && end.next != null
        invariant Linked() && old(at) <= at && Abs().regs == regs
        invariant Search(regs, at, size) == Search(regs, old(at), size)
        decreases |spine| - at
      {
        SearchStep(regs, at, size);
        assert end == spine[at];
        end := end.next;
        at := at + 1;
      }
      SearchStep(regs, at, size);
    }

    /** The part of `arena_alloc` that makes `end` a region with room for `size` words. */
    method MakeRoom(size: nat)
      requires Linked() && end != null
      modifies this, spine
      ensures Linked() && at >= 0 && end != null
      ensures old(at) >= 0
      ensures Abs() == Roomed(old(Abs()), size)
      ensures old(spine) <= spine
      ensures forall i :: |old(spine)| <= i < |spine| ==> fresh(spine[i]) && fresh(spine[i].data)
    {
      hide Search;
      Seek(size);
      if end.count + size > end.capacity {
        Append(if DEFAULT_CAPACITY < size then size else DEFAULT_CAPACITY);
      }
    }

    /** The last lines of `arena_alloc`: the next `size` words of `end`. */
    method Take(size: nat) returns (region: Region, off: nat)
      requires Linked() && end != null
      modifies spine
      ensures Linked() && spine == old(spine) && 0 <= at == old(at) && region == spine[at]
      ensures off == old(Abs()).regs[at].count * WORD && Abs() == Taken(old(Abs()), size)
    {
      ghost var s := Abs();
      region, off := end, end.count * WORD;
      assert region == spine[at];
      end.count := end.count + size;
      assert Abs().regs == s.regs[at := s.regs[at].(count := s.regs[at].count + size)];
    }

    /** `arena_alloc`: the block is in `region`, from byte `off` on. No byte of any region changes. */
    method Alloc(bytes: nat) returns (region: Region, off: nat)
      requires Valid()
      modifies this, spine
      ensures Valid()
      ensures var (s, b) := ArenaState.Alloc(old(Abs()), bytes);
        Abs() == s && b.region < |spine| && region == spine[b.region] && off == b.off * WORD
      ensures old(spine) <= spine
      ensures forall i :: |old(spine)| <= i < |spine| ==> fresh(spine[i]) && fresh(spine[i].data)
    {
      hide Search, ArenaState.Valid, ArenaState.Alloc, Abs, Linked, Begun, Roomed, Taken;
      var size := (bytes + WORD - 1) / WORD;
      ghost var s0 := Abs();
      Begin(size);
      MakeRoom(size);
      region, off := Take(size);
      AllocParts(s0, bytes);
    }

    /** `arena_snapshot`; a mark is a region and the words used in it. */
    method Snapshot() returns (region: Region?, count: nat, ghost m: Mark)
      requires Valid()
      ensures region == end && (end == null ==> count == 0) && (end != null ==> count == end.count)
      ensures m == ArenaState.Snapshot(Abs()) && count == m.count
      ensures region == if m.region == -1 then null else spine[m.region]
    {
      m := ArenaState.Snapshot(Abs());
      region, count := end, if end == null then 0 else end.count;
    }

    /** The loops of `arena_reset` and `arena_rewind`: empty the regions from `first` on. */
    method EmptyFrom(first: Region?, ghost k: nat)
      requires Linked() && k <= |spine| && first == Nth(k)
      modifies spine
      ensures Linked() && spine == old(spine)
      ensures forall i :: 0 <= i < k ==> spine[i].count == old(spine[i].count)
      ensures forall i :: k <= i < |spine| ==> spine[i].count == 0
    {
      var r := first;
      ghost var j := k;
      while r != null
        invariant k <= j <= |spine| && r == Nth(j) && Linked()
        invariant forall i :: 0 <= i < k ==> spine[i].count == old(spine[i].count)
        invariant forall i :: k <= i < j ==> spine[i].count == 0
        decreases |spine| - j
      {
        assert r == spine[j];
        r.count := 0;
        r := r.next;
        j := j + 1;
      }
    }

    /** `arena_reset`. */
    method Reset()
      requires Linked()
      modifies this, spine
      ensures Valid() && spine == old(spine) && Abs() == ArenaState.Reset(old(Abs()))
    {
      hide ArenaState.Valid;
      ResetValid(Abs());
      EmptyFrom(begin, 0);
      end := begin;
      at := if spine == [] then -1 else 0;
      assert Abs().regs == Emptied(old(Abs()).regs);
    }

    /** The last lines of `arena_rewind`: `region` becomes the end, with `count` words in use. */
    method RewindTo(region: Region, count: nat, ghost k: nat)
      requires Linked() && k < |spine| && region == spine[k]
      modifies this, spine
      ensures Linked() && spine == old(spine) && at == k
      ensures forall i :: 0 <= i < |spine| ==>
        spine[i].count == if i < k then old(spine[i].count) else if i == k then count else 0
    {
      region.count := count;
      EmptyFrom(region.next, k + 1);
      end := region;
      at := k;
    }

    /** `arena_rewind` to a mark taken earlier. */
    method Rewind(region: Region?, count: nat, ghost m: Mark)
      requires Linked() && -1 <= m.region < |spine| && count == m.count
      requires region == if m.region == -1 then null else spine[m.region]
      modifies this, spine
      ensures Linked() && spine == old(spine) && Abs() == ArenaState.Rewind(old(Abs()), m)
    {
      hide ArenaState.Rewind, ArenaState.Reset, ArenaState.Valid;
      RewindRegs(Abs(), m);
      if region == null {
        Reset();
        return;
      }
      RewindTo(region, count, m.region);
      assert Abs().regs == ArenaState.Rewind(old(Abs()), m).regs;
    }

    /** `arena_alloc`, seen by the holders of earlier blocks: they keep their blocks and bytes, and the
        new block shares nothing with them. */
    method AllocBlock(bytes: nat) returns (region: Region, off: nat, ghost b: Block)
      requires Valid()
      modifies this, spine
      ensures Valid() && (Abs(), b) == ArenaState.Alloc(old(Abs()), bytes)
      ensures Held(Abs(), b) && bytes <= b.size * WORD && region == spine[b.region] && off == b.off * WORD
      ensures forall c :: old(Held(Abs(), c)) ==> Held(Abs(), c) && Apart(c, b) && Bytes(c) == old(Bytes(c))
      ensures old(spine) <= spine
      ensures forall i :: |old(spine)| <= i < |spine| ==> fresh(spine[i]) && fresh(spine[i].data)
    {
      hide ArenaState.Alloc, ArenaState.Valid;
      AllocStep(Abs(), bytes);
      b := ArenaState.Alloc(Abs(), bytes).1;
      region, off := Alloc(bytes);
    }

    /** The client writes into a block it holds. */
    method Write(region: Region, at: nat, src: seq<char>, ghost b: Block)
      requires Valid() && Held(Abs(), b) && region == spine[b.region]
      requires b.off * WORD <= at && at + |src| <= (b.off + b.size) * WORD
      modifies region.data
      ensures Valid() && Abs() == old(Abs()) && at + |src| <= region.data.Length
      ensures region.data[at..at + |src|] == src
      ensures forall i :: 0 <= i < region.data.Length && !(at <= i < at + |src|) ==> region.data[i] == old(region.data[i])
      ensures forall c :: Held(Abs(), c) && Apart(c, b) ==> Bytes(c) == old(Bytes(c))
    {
      CopyBytes(region.data, at, src);
    }

    /** The regions of before are still the first ones, and any others are new. */
    twostate predicate Extended()
      reads this, spine
    {
      && old(spine) <= spine
      && forall i :: |old(spine)| <= i < |spine| ==> fresh(spine[i]) && fresh(spine[i].data)
    }

    /** Every block in use before is still in use, has the same bytes, and is apart from `b`. */
    twostate predicate AllKept(b: Block)
      requires old(Valid()) && Valid()
      reads this, spine, set r | r in spine :: r.data
    {
      forall c :: old(Held(Abs(), c)) ==> Held(Abs(), c) && Apart(c, b) && Bytes(c) == old(Bytes(c))
    }

    /** A new block that starts with a copy of some bytes: `arena_alloc` and a copy loop, as in
        `arena_realloc`, `arena_memdup` and the growth of `JsonBuf`. */
    method AllocCopy(bytes: nat, src: seq<char>) returns (region: Region, off: nat, ghost b: Block)
      requires Valid() && |src| <= bytes
      modifies this, spine, set r | r in spine :: r.data
      ensures Valid() && (Abs(), b) == ArenaState.Alloc(old(Abs()), bytes)
      ensures Held(Abs(), b) && bytes <= b.size * WORD && region == spine[b.region] && off == b.off * WORD
      ensures off + bytes <= region.data.Length && region.data[off..off + |src|] == src
      ensures AllKept(b)
      ensures Extended()
    {
      hide ArenaState.Alloc, ArenaState.Valid, Apart;
      region, off, b := AllocBlock(bytes);
      label copying:
      Write(region, off, src, b);
      assert forall c :: old(Held(Abs(), c)) ==> Bytes(c) == old@copying(Bytes(c));
      HeldInBounds(b);
    }

    /** `arena_realloc` of the first `oldsz` bytes of a block: the block itself, or a larger copy. */
    method Realloc(region: Region, off: nat, oldsz: nat, newsz: nat, ghost b: Block)
      returns (newRegion: Region, newOff: nat, ghost newB: Block)
      requires Valid() && Held(Abs(), b) && region == spine[b.region] && off == b.off * WORD
      requires oldsz <= b.size * WORD && off + oldsz <= region.data.Length
      modifies this, spine, set r | r in spine :: r.data
      ensures Valid() && Extended()
      ensures newsz <= oldsz ==> (newRegion, newOff, newB) == (region, off, b) && Abs() == old(Abs()) && Bytes(b) == old(Bytes(b))
      ensures newsz > oldsz ==> AllKept(newB) && (Abs(), newB) == ArenaState.Alloc(old(Abs()), newsz)
      ensures Held(Abs(), newB) && newRegion == spine[newB.region] && newOff == newB.off * WORD
      ensures newsz <= newB.size * WORD && newOff + oldsz <= newRegion.data.Length
      ensures newRegion.data[newOff..newOff + oldsz] == old(region.data[off..off + oldsz])
    {
      hide Held, Apart, Linked, ArenaState.Alloc, ArenaState.Valid;
      if newsz <= oldsz { return region, off, b; }
      newRegion, newOff, newB := AllocCopy(newsz, region.data[off..off + oldsz]);
    }
  }
}
