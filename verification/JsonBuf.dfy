/** json.h: a growing text buffer whose storage is a block of an arena. */
module JsonBufs {
  import opened Text
  import opened Escape
  import opened ArenaState
  import opened Arenas

  /** The capacity after an append of `n` bytes. */
  function Grown(cap: nat, len: nat, n: nat): nat {
    if len + n >= cap then cap * 2 + n else cap
  }

  /** The bytes and the final NUL fit in the grown buffer exactly when the capacity is not zero. */
  lemma GrownFits(cap: nat, len: nat, n: nat)
    requires len < cap || (len == cap == 0)
    ensures len + n < Grown(cap, len, n) <==> cap > 0
  {
  }

  /** Length, capacity and bytes copied by growth after appends of these sizes. */
  function Appended(len: nat, cap: nat, copied: nat, sizes: seq<nat>): (nat, nat, nat)
    decreases |sizes|
  {
    if sizes == [] then (len, cap, copied)
    else
      var cap1 := Grown(cap, len, sizes[0]);
      Appended(len + sizes[0], cap1, copied + (if len + sizes[0] >= cap then len else 0), sizes[1..])
  }

  /** Over any sequence of appends to a fresh buffer of positive capacity: fewer than two bytes are
      copied per byte held, and the capacity never exceeds the initial one or three times the
      length. */
  lemma {:induction false} GrowthIsLinear(len: nat, cap: nat, copied: nat, initial: nat, sizes: seq<nat>)
    requires len < cap && copied < cap && (copied == 0 || copied < 2 * len) && (cap <= initial || cap <= 3 * len)
    ensures var (l, c, k) := Appended(len, cap, copied, sizes);
      l < c && (k == 0 || k < 2 * l) && (c <= initial || c <= 3 * l)
    decreases |sizes|
  {
    if sizes != [] {
      var grows := len + sizes[0] >= cap;
      GrowthIsLinear(len + sizes[0], Grown(cap, len, sizes[0]), copied + (if grows then len else 0), initial, sizes[1..]);
    }
  }

  class JsonBuf {
    const a: Arena
    var region: Region        // `buf` points into this region,
    var off: nat              // at this byte
    var len: nat
    var cap: nat
    ghost var blk: Block      // the arena block behind `buf`
    ghost const initial: nat  // the capacity it was made with
    ghost var copied: nat     // bytes moved by growth so far

    ghost predicate Valid()
      reads this, a, a.spine
    {
      Placed() && len < cap && Bounded()
    }

    /** Growth copies fewer than two bytes per byte held, and over-allocates at most threefold. */
    ghost predicate Bounded()
      reads this
    {
      && copied < cap && (copied == 0 || copied < 2 * len)
      && (cap <= initial || cap <= 3 * len)
    }

    ghost function Contents(): seq<char>
      reads this, a, a.spine, region.data
      requires Valid()
    {
      InBounds();
      region.data[off..off + len]
    }

    lemma InBounds()
      requires Valid()
      ensures off + cap <= region.data.Length
    {
      a.HeldInBounds(blk);
    }

    /** `jbuf_new`. */
    constructor (a: Arena, cap: nat)
      requires a.Valid() && cap > 0
      modifies a, a.spine
      ensures this.a == a && this.cap == initial == cap && Valid() && Contents() == []
      ensures forall b :: old(Held(a.Abs(), b)) ==> Held(a.Abs(), b) && Apart(b, blk) && a.Bytes(b) == old(a.Bytes(b))
      ensures a.Extended()
    {
      hide Held, Apart, Arena.Linked, Arena.Abs, Arena.Valid, Arena.Bytes;
      var r, o, b := a.AllocBlock(cap);
      this.a, this.region, this.off, this.len, this.cap := a, r, o, 0, cap;
      this.initial, this.copied, this.blk := cap, 0, b;
      new;
      InBounds();
    }

    /** Where the buffer lives: a block of the arena it holds, large enough for its capacity. */
    ghost predicate Placed()
      reads this, a, a.spine
    {
      && a.Valid() && Held(a.Abs(), blk)
      && region == a.spine[blk.region] && off == blk.off * WORD && cap <= blk.size * WORD
    }

    /** The growth branch of `jbuf_raw`. */
    method Grow(n: nat)
      requires Placed() && len < cap <= len + n && off + cap <= region.data.Length
      modifies this`region, this`off, this`cap, this`blk, this`copied, a, a.spine, set r | r in a.spine :: r.data
      ensures Placed() && cap == Grown(old(cap), len, n) && copied == old(copied) + len
      ensures off + cap <= region.data.Length && region.data[off..off + len] == old(region.data[off..off + len])
      ensures a.AllKept(blk) && a.Extended()
    {
      hide Held, Apart, Arena.Linked, Arena.Abs, Arena.Valid, Arena.Bytes, Arena.Extended, Arena.AllKept, ArenaState.Alloc;
      var newcap := cap * 2 + n;
      var newRegion, newOff, newBlk := a.AllocCopy(newcap, region.data[off..off + len]);
      region, off, cap, blk, copied := newRegion, newOff, newcap, newBlk, copied + len;
    }

    /** Everything the arena held before, other than the buffer's own block, is as it was. */
    twostate predicate OthersKept()
      requires old(Placed()) && Placed()
      reads this, a, a.spine, set r | r in a.spine :: r.data
    {
      forall b :: old(Held(a.Abs(), b)) && Apart(b, old(blk)) ==>
        Held(a.Abs(), b) && Apart(b, blk) && a.Bytes(b) == old(a.Bytes(b))
    }

    /** The capacity test of `jbuf_raw`. */
    method MakeRoom(n: nat)
      requires Placed() && len < cap && off + cap <= region.data.Length
      modifies this`region, this`off, this`cap, this`blk, this`copied, a, a.spine, set r | r in a.spine :: r.data
      ensures Placed() && cap == Grown(old(cap), len, n)
      ensures copied == old(copied) + if cap == old(cap) then 0 else len
      ensures off + cap <= region.data.Length && region.data[off..off + len] == old(region.data[off..off + len])
      ensures OthersKept() && a.Extended()
    {
      hide Held, Apart, Arena.Linked, Arena.Abs, Arena.Valid, Arena.Bytes;
      if len + n >= cap { Grow(n); }
    }

    lemma InSpine()
      requires Placed()
      ensures region in a.spine
    {
      hide Arena.Linked, Arena.Abs;
    }

    /** The rest of `jbuf_raw`: the bytes and a NUL go behind the contents. */
    method Put(s: string)
      requires Placed() && len + |s| < cap && off + cap <= region.data.Length
      modifies this`len, region.data
      ensures Placed() && len == old(len) + |s|
      ensures region.data[off..off + len] == old(region.data[off..off + len]) + s && region.data[off + len] == '\0'
      ensures forall b :: Held(a.Abs(), b) && Apart(b, blk) ==> a.Bytes(b) == old(a.Bytes(b))
    {
      hide Held, Apart, Arena.Linked, Arena.Abs, Arena.Valid, Arena.Bytes;
      ghost var held, at, n := region.data[off..off + len], off + len, |s|;
      a.Write(region, off + len, s + "\0", blk);
      assert region.data[at..at + n] == region.data[at..at + n + 1][..n] == s;
      assert region.data[at + n] == region.data[at..at + n + 1][n];
      assert region.data[off..at] == held;
      assert region.data[off..at + n] == held + s;
      len := len + |s|;
    }

    /** `jbuf_raw`: append bytes, and a NUL after them. */
    method Raw(s: string)
      requires Valid()
      modifies this, a, a.spine, set r | r in a.spine :: r.data
      ensures Valid() && Contents() == old(Contents()) + s
      ensures off + len < region.data.Length && region.data[off + len] == '\0'
      ensures len == old(len) + |s| && cap == Grown(old(cap), old(len), |s|)
      ensures OthersKept() && a.Extended()
    {
      hide Held, Apart, Arena.Linked, Arena.Abs, Arena.Valid, Arena.Bytes, JsonBuf.Placed;
      InBounds();
      MakeRoom(|s|);
      InSpine();
      Put(s);
    }

    /** The loop of `jbuf_str`. */
    method StrBody(s: string)
      requires Valid() && NulFree(s)
      modifies this, a, a.spine, set r | r in a.spine :: r.data
      ensures Valid() && Contents() == old(Contents()) + EscapeAll(s)
      ensures OthersKept() && a.Extended()
    {
      hide Held, Apart, Arena.Linked, Arena.Abs, Arena.Valid, Arena.Bytes, JsonBuf.Placed, JsonBuf.Bounded, JsonBuf.Contents, EscapeAll, EscapeByte;
      ghost var all := Contents() + EscapeAll(s);
      var p := 0;
      while p < |s|
        invariant p <= |s| && Valid() && Contents() + EscapeAll(s[p..]) == all
        invariant OthersKept() && a.Extended()
      {
        EscapeStep(Contents(), s, p);
        Raw(EscapeByte(s[p]));
        p := p + 1;
      }
      EscapeEnd(Contents());
      assert s[p..] == "";
    }

    /** `jbuf_str`: a C string, escaped, between quotes. */
    method Str(s: string)
      requires Valid() && NulFree(s)
      modifies this, a, a.spine, set r | r in a.spine :: r.data
      ensures Valid() && Contents() == old(Contents()) + Quoted(s)
      ensures OthersKept() && a.Extended()
    {
      hide Held, Apart, Arena.Linked, Arena.Abs, Arena.Valid, Arena.Bytes, JsonBuf.Placed, JsonBuf.Bounded, JsonBuf.Contents, EscapeAll;
      Raw("\"");
      StrBody(s);
      Raw("\"");
      assert Contents() == old(Contents()) + "\"" + EscapeAll(s) + "\"";
    }

    /** The loop of `jbuf_sj_str`. */
    method SjStrBody(raw: string)
      requires Valid()
      modifies this, a, a.spine, set r | r in a.spine :: r.data
      ensures Valid() && Contents() == old(Contents()) + Requote(raw)
      ensures OthersKept() && a.Extended()
    {
      hide Held, Apart, Arena.Linked, Arena.Abs, Arena.Valid, Arena.Bytes, JsonBuf.Placed, JsonBuf.Bounded, JsonBuf.Contents, Requote, RequoteByte;
      ghost var all := Contents() + Requote(raw);
      var p := 0;
      while p < |raw|
        invariant p <= |raw| && Valid() && Contents() + Requote(raw[p..]) == all
        invariant OthersKept() && a.Extended()
      {
        RequoteStep(Contents(), raw, p);
        Raw(RequoteByte(raw[p]));
        p := p + 1;
      }
      RequoteEnd(Contents());
      assert raw[p..] == "";
    }

    /** `jbuf_sj_str`: a slice, between quotes. */
    method SjStr(raw: string)
      requires Valid()
      modifies this, a, a.spine, set r | r in a.spine :: r.data
      ensures Valid() && Contents() == old(Contents()) + "\"" + Requote(raw) + "\""
      ensures OthersKept() && a.Extended()
    {
      hide Held, Apart, Arena.Linked, Arena.Abs, Arena.Valid, Arena.Bytes, JsonBuf.Placed, JsonBuf.Bounded, JsonBuf.Contents, Requote;
      Raw("\"");
      SjStrBody(raw);
      Raw("\"");
      assert Contents() == old(Contents()) + "\"" + Requote(raw) + "\"";
    }

    /** `jbuf_key`. */
    method Key(key: string)
      requires Valid() && NulFree(key)
      modifies this, a, a.spine, set r | r in a.spine :: r.data
      ensures Valid() && Contents() == old(Contents()) + Quoted(key) + ":"
      ensures OthersKept() && a.Extended()
    {
      hide Held, Apart, Arena.Linked, Arena.Abs, Arena.Valid, Arena.Bytes, JsonBuf.Placed, JsonBuf.Bounded, JsonBuf.Contents;
      Str(key);
      Raw(":");
    }
  }
}
