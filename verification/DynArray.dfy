/** `arena_da_append` and `arena_da_append_many` (arena.h): dynamic arrays of items of any size that
    double inside an arena. An item is its bytes. */
module DynArrays {
  import opened ArenaState
  import opened Arenas

  const INIT_CAP := 256   // ARENA_DA_INIT_CAP

  /** The capacity the growth loop arrives at. */
  function Doubled(cap: nat, need: nat): (r: nat)
    requires cap > 0
    ensures need <= r && cap <= r && (r == cap || r < 2 * need)
    decreases need - cap
  {
    if need > cap then Doubled(cap * 2, need) else cap
  }

  /** The bytes of `n` items. */
  function Size(n: nat, width: nat): nat { n * width }

  lemma SizeAdd(m: nat, n: nat, width: nat)
    ensures Size(m + n, width) == Size(m, width) + Size(n, width)
    ensures 0 < n && 0 < width ==> 0 < Size(n, width)
  {
  }

  lemma SamePrefix(s: seq<char>, at: nat, s1: seq<char>, at1: nat, k: nat, n: nat)
    requires k <= n && at + n <= |s| && at1 + n <= |s1| && s[at..at + n] == s1[at1..at1 + n]
    ensures s[at..at + k] == s1[at1..at1 + k]
  {
    assert s[at..at + k] == s[at..at + n][..k];
    assert s1[at1..at1 + k] == s1[at1..at1 + n][..k];
  }

  class DynArray {
    const a: Arena
    const width: nat      // `sizeof(*items)`
    var region: Region?
    var off: nat
    var count: nat
    var capacity: nat
    ghost var blk: Block

    /** The items are in a block of the arena the array holds, if there are any. */
    ghost predicate Placed()
      reads this, a, a.spine
    {
      && a.Valid() && 0 < width && (capacity == 0 <==> region == null)
      && (capacity > 0 ==>
        && Held(a.Abs(), blk) && region == a.spine[blk.region] && off == blk.off * WORD
        && Size(capacity, width) <= blk.size * WORD && off + Size(capacity, width) <= region.data.Length)
    }

    ghost predicate Valid()
      reads this, a, a.spine
    {
      Placed() && count <= capacity && (capacity <= INIT_CAP || capacity < 2 * count)
    }

    /** The bytes of the items. */
    ghost function Contents(): seq<char>
      reads this, a, a.spine, if region == null then {} else {region.data}
      requires Placed() && count <= capacity
    {
      SizeAdd(count, capacity - count, width);
      if region == null then [] else region.data[off..off + Size(count, width)]
    }

    /** An array of `{0}`. */
    constructor (a: Arena, width: nat)
      requires a.Valid() && 0 < width
      ensures this.a == a && this.width == width && Valid() && Contents() == []
    {
      this.a, this.width, region, off, count, capacity := a, width, null, 0, 0, 0;
    }

    lemma Needs()
      requires Placed()
      ensures a.Valid() && 0 < width
    {
    }

    /** Where the items are. */
    lemma InBounds()
      requires Placed() && count <= capacity && 0 < capacity
      ensures region != null && Size(count, width) <= Size(capacity, width) && off + Size(capacity, width) <= region.data.Length
      ensures Contents() == region.data[..][off..off + Size(count, width)]
    {
      SizeAdd(count, capacity - count, width);
    }

    /** The growth branch for items that are somewhere already. */
    method Move(newCapacity: nat)
      requires Placed() && 0 < capacity < newCapacity && count <= capacity
      modifies this`region, this`off, this`capacity, this`blk, a, a.spine, set r | r in a.spine :: r.data
      ensures Placed() && capacity == newCapacity && count <= capacity
      ensures Contents() == old(Contents())
      ensures a.AllKept(blk) && a.Extended()
    {
      hide Held, Apart, Arena.Linked, Arena.Abs, Arena.Valid, Arena.Bytes, Arena.Extended, Arena.AllKept, ArenaState.Alloc,
           Size, DynArray.Contents, DynArray.Placed;
      InBounds();
      Needs();
      ghost var before := region.data[..];
      var r, o, b := MoveBytes(newCapacity);
      SamePrefix(before, off, r.data[..], o, Size(count, width), Size(capacity, width));
      Settle(r, o, b, newCapacity);
    }

    /** The array's fields name the new block. */
    method Settle(r: Region, o: nat, ghost b: Block, newCapacity: nat)
      requires a.Valid() && 0 < width && Held(a.Abs(), b) && r == a.spine[b.region] && o == b.off * WORD
      requires 0 < newCapacity && count <= newCapacity
      requires Size(newCapacity, width) <= b.size * WORD && o + Size(newCapacity, width) <= r.data.Length
      requires Size(count, width) <= Size(newCapacity, width)
      modifies this`region, this`off, this`capacity, this`blk
      ensures Placed() && capacity == newCapacity && blk == b
      ensures Contents() == r.data[..][o..o + Size(count, width)]
    {
      hide Held, Apart, Arena.Linked, Arena.Abs, Arena.Valid, Arena.Bytes, Size, DynArray.Contents;
      region, off, blk, capacity := r, o, b, newCapacity;
      InBounds();
    }

    /** The copy of all the old capacity. */
    method MoveBytes(newCapacity: nat) returns (r: Region, o: nat, ghost b: Block)
      requires Placed() && 0 < capacity < newCapacity
      modifies a, a.spine, set r | r in a.spine :: r.data
      ensures a.Valid() && Held(a.Abs(), b) && r == a.spine[b.region] && o == b.off * WORD
      ensures Size(newCapacity, width) <= b.size * WORD && o + Size(newCapacity, width) <= r.data.Length
      ensures Size(capacity, width) <= Size(newCapacity, width)
      ensures off + Size(capacity, width) <= old(region.data.Length)
      ensures r.data[..][o..o + Size(capacity, width)] == old(region.data[..])[off..off + Size(capacity, width)]
      ensures a.AllKept(b) && a.Extended()
    {
      hide Held, Apart, Arena.Linked, Arena.Abs, Arena.Valid, Arena.Bytes, Arena.Extended, Arena.AllKept, ArenaState.Alloc,
           Size;
      SizeAdd(capacity, newCapacity - capacity, width);
      r, o, b := a.Realloc(region, off, Size(capacity, width), Size(newCapacity, width), blk);
      a.HeldInBounds(b);
    }

    /** The growth branch for an array without items. */
    method Begin(newCapacity: nat)
      requires Placed() && capacity == 0 < newCapacity && count == 0
      modifies this`region, this`off, this`capacity, this`blk, a, a.spine, set r | r in a.spine :: r.data
      ensures Placed() && capacity == newCapacity && count <= capacity && Contents() == []
      ensures a.AllKept(blk) && a.Extended()
    {
      hide Held, Apart, Arena.Linked, Arena.Abs, Arena.Valid, Arena.Bytes, Arena.Extended, Arena.AllKept, ArenaState.Alloc;
      var r, o, b := a.AllocCopy(Size(newCapacity, width), []);
      a.HeldInBounds(b);
      region, off, blk, capacity := r, o, b, newCapacity;
    }

    /** Everything the arena held before, other than the array's own block, is as it was. */
    twostate predicate OthersKept()
      requires old(Placed()) && Placed()
      reads this, a, a.spine, set r | r in a.spine :: r.data
    {
      forall b :: old(Held(a.Abs(), b)) && (old(capacity) > 0 ==> Apart(b, old(blk))) ==>
        Held(a.Abs(), b) && (capacity > 0 ==> Apart(b, blk)) && a.Bytes(b) == old(a.Bytes(b))
    }

    /** More capacity, wherever the items are. */
    method Grow(newCapacity: nat)
      requires Placed() && count <= capacity < newCapacity
      modifies this`region, this`off, this`capacity, this`blk, a, a.spine, set r | r in a.spine :: r.data
      ensures Placed() && capacity == newCapacity && count <= capacity
      ensures Contents() == old(Contents())
      ensures OthersKept() && a.Extended()
    {
      hide Held, Apart, Arena.Linked, Arena.Abs, Arena.Valid, Arena.Bytes, Size;
      if capacity == 0 { Begin(newCapacity); } else { Move(newCapacity); }
    }

    /** The capacity test and the growth loop of `arena_da_append_many`. */
    method MakeRoom(n: nat)
      requires Valid()
      modifies this`region, this`off, this`capacity, this`blk, a, a.spine, set r | r in a.spine :: r.data
      ensures Placed() && count + n <= capacity && (capacity <= INIT_CAP || capacity < 2 * (count + n))
      ensures Contents() == old(Contents())
      ensures OthersKept() && a.Extended()
    {
      hide Held, Apart, Arena.Linked, Arena.Abs, Arena.Valid, Arena.Bytes, DynArray.Placed, DynArray.Contents;
      if count + n > capacity {
        var newCapacity := if capacity == 0 then INIT_CAP else capacity;
        ghost var start := newCapacity;
        while count + n > newCapacity
          invariant 0 < newCapacity && Doubled(newCapacity, count + n) == Doubled(start, count + n)
          decreases count + n - newCapacity
        {
          newCapacity := newCapacity * 2;
        }
        Grow(newCapacity);
      }
    }

    /** The capacity test of `arena_da_append`. */
    method MakeRoomForOne()
      requires Valid()
      modifies this`region, this`off, this`capacity, this`blk, a, a.spine, set r | r in a.spine :: r.data
      ensures Placed() && count < capacity && (capacity <= INIT_CAP || capacity < 2 * (count + 1))
      ensures Contents() == old(Contents())
      ensures OthersKept() && a.Extended()
    {
      hide Held, Apart, Arena.Linked, Arena.Abs, Arena.Valid, Arena.Bytes, DynArray.Placed, DynArray.Contents;
      if count >= capacity {
        var newCapacity := if capacity == 0 then INIT_CAP else capacity * 2;
        Grow(newCapacity);
      }
    }

    lemma InSpine()
      requires Placed()
      ensures region != null ==> region in a.spine
    {
      hide Arena.Linked, Arena.Abs;
    }

    /** The bytes of `n` more items fit behind the items. */
    lemma Room(n: nat)
      requires Placed() && count + n <= capacity
      ensures Size(count, width) + Size(n, width) == Size(count + n, width) <= Size(capacity, width)
    {
      SizeAdd(count, n, width);
      SizeAdd(count + n, capacity - count - n, width);
    }

    /** The copy behind the items. */
    method Put(items: seq<char>, n: nat)
      requires Placed() && count + n <= capacity && |items| == Size(n, width)
      modifies this`count, if region == null then {} else {region.data}
      ensures Placed() && count == old(count) + n && Contents() == old(Contents()) + items
      ensures KeptBut()
    {
      hide Held, Apart, Arena.Linked, Arena.Abs, Arena.Valid, Arena.Bytes, Size;
      Room(n);
      if region != null { PutBytes(items, Size(count, width)); }
      count := count + n;
    }

    /** The blocks other than the array's own hold what they held. */
    twostate predicate KeptBut()
      requires old(Placed()) && Placed()
      reads this, a, a.spine, set r | r in a.spine :: r.data
    {
      forall b :: Held(a.Abs(), b) && old(Held(a.Abs(), b)) && (capacity > 0 ==> Apart(b, blk)) ==> a.Bytes(b) == old(a.Bytes(b))
    }

    method PutBytes(items: seq<char>, at: nat)
      requires Placed() && region != null && at + |items| <= Size(capacity, width)
      modifies region.data
      ensures Placed() && region.data[off..off + at + |items|] == old(region.data[off..off + at]) + items
      ensures KeptBut()
    {
      hide Held, Apart, Arena.Linked, Arena.Abs, Arena.Valid, Arena.Bytes, Size;
      a.Write(region, off + at, items, blk);
      assert region.data[off..off + at] == old(region.data[off..off + at]);
      assert region.data[off..off + at + |items|] == region.data[off..off + at] + region.data[off + at..off + at + |items|];
    }

    /** `arena_da_append_many`. */
    method AppendMany(items: seq<char>, n: nat)
      requires Valid() && |items| == Size(n, width)
      modifies this, a, a.spine, set r | r in a.spine :: r.data
      ensures Valid() && count == old(count) + n && Contents() == old(Contents()) + items
      ensures OthersKept() && a.Extended()
    {
      hide Arena.Linked, Arena.Abs, Arena.Valid, Arena.Bytes, Held, Apart, Size, DynArray.Contents, DynArray.Placed;
      MakeRoom(n);
      InSpine();
      Put(items, n);
    }

    /** `arena_da_append`. */
    method Append(item: seq<char>)
      requires Valid() && |item| == width
      modifies this, a, a.spine, set r | r in a.spine :: r.data
      ensures Valid() && count == old(count) + 1 && Contents() == old(Contents()) + item
      ensures OthersKept() && a.Extended()
    {
      hide Arena.Linked, Arena.Abs, Arena.Valid, Arena.Bytes, Held, Apart, DynArray.Contents, DynArray.Placed;
      MakeRoomForOne();
      InSpine();
      Put(item, 1);
    }
  }
}
