/** The allocation state of an arena (arena.h) as a value: for each region, in list order, how many
    words are used and how many there are, and which region allocation continues in. */
module ArenaState {

  const WORD := 8                  // sizeof(uintptr_t)
  const DEFAULT_CAPACITY := 8192   // ARENA_REGION_DEFAULT_CAPACITY, in words

  datatype Reg = Reg(count: nat, capacity: nat)

  /** `end` is the index of `a->end`, or -1 for NULL. */
  datatype State = State(regs: seq<Reg>, end: int)

  /** `Arena_Mark`; region -1 is NULL. */
  datatype Mark = Mark(region: int, count: nat)

  /** A block handed out: `size` words from word `off` of a region. */
  datatype Block = Block(region: nat, off: nat, size: nat)

  /** The invariant: nothing overflows, and every region after `end` is empty. */
  predicate Valid(s: State) {
    && -1 <= s.end < |s.regs| && (s.regs != [] ==> 0 <= s.end)
    && (forall i :: 0 <= i < |s.regs| ==> s.regs[i].count <= s.regs[i].capacity)
    && (forall i :: s.end < i < |s.regs| ==> s.regs[i].count == 0)
  }

  function Words(bytes: nat): (w: nat)
    ensures bytes <= w * WORD < bytes + WORD
  {
    (bytes + WORD - 1) / WORD
  }

  function NewCapacity(size: nat): nat {
    if DEFAULT_CAPACITY < size then size else DEFAULT_CAPACITY
  }

  predicate Fits(r: Reg, size: nat) { r.count + size <= r.capacity }

  /** The region the search loop stops at: the first that fits, or the last. */
  function Search(regs: seq<Reg>, i: nat, size: nat): (k: nat)
    requires i < |regs|
    ensures i <= k < |regs|
    ensures Fits(regs[k], size) || k == |regs| - 1
    ensures forall j :: i <= j < k ==> !Fits(regs[j], size)
    decreases |regs| - i
  {
    if Fits(regs[i], size) || i + 1 == |regs| then i else Search(regs, i + 1, size)
  }

  lemma SearchStep(regs: seq<Reg>, k: nat, size: nat)
    requires k < |regs|
    ensures Search(regs, k, size) == if Fits(regs[k], size) || k + 1 == |regs| then k else Search(regs, k + 1, size)
  {
  }

  /** The first region, made on the first allocation. */
  function Begun(s: State, size: nat): State {
    if s.end == -1 then State([Reg(0, NewCapacity(size))], 0) else s
  }

  /** `arena_alloc`. */
  function Alloc(s: State, bytes: nat): (r: (State, Block))
    requires Valid(s)
    ensures Valid(r.0)
  {
    var size := Words(bytes);
    var s0 := Begun(s, size);
    var k := Search(s0.regs, s0.end, size);
    var reg := s0.regs[k];
    if Fits(reg, size) then
      (State(s0.regs[k := reg.(count := reg.count + size)], k), Block(k, reg.count, size))
    else
      (State(s0.regs + [Reg(size, NewCapacity(size))], |s0.regs|), Block(|s0.regs|, 0, size))
  }

  /** The search and, when it finds no room, the new region. */
  function Roomed(s: State, size: nat): (r: State)
    requires 0 <= s.end < |s.regs|
    ensures 0 <= r.end < |r.regs|
  {
    var k := Search(s.regs, s.end, size);
    if Fits(s.regs[k], size) then State(s.regs, k) else State(s.regs + [Reg(0, NewCapacity(size))], |s.regs|)
  }

  /** The next `size` words of the last region are taken. */
  function Taken(s: State, size: nat): State
    requires 0 <= s.end < |s.regs|
  {
    s.(regs := s.regs[s.end := s.regs[s.end].(count := s.regs[s.end].count + size)])
  }

  /** `arena_alloc` is its three parts: begin, make room, take. */
  lemma AllocParts(s: State, bytes: nat)
    requires Valid(s)
    ensures var size := Words(bytes);
      var s1 := Roomed(Begun(s, size), size);
      Alloc(s, bytes) == (Taken(s1, size), Block(s1.end, s1.regs[s1.end].count, size))
  {
    var size := Words(bytes);
    var s0 := Begun(s, size);
    var regs1 := s0.regs + [Reg(0, NewCapacity(size))];
    assert regs1[|s0.regs| := Reg(size, NewCapacity(size))] == s0.regs + [Reg(size, NewCapacity(size))];
  }

  /** `arena_snapshot`. */
  function Snapshot(s: State): Mark
    requires Valid(s)
  {
    if s.end == -1 then Mark(-1, 0) else Mark(s.end, s.regs[s.end].count)
  }

  function Emptied(regs: seq<Reg>): seq<Reg> {
    seq(|regs|, i requires 0 <= i < |regs| => regs[i].(count := 0))
  }

  /** `arena_reset`. */
  function Reset(s: State): State {
    State(Emptied(s.regs), if s.regs == [] then -1 else 0)
  }

  lemma ResetValid(s: State)
    ensures Valid(Reset(s))
  {
  }

  /** `arena_rewind`. */
  function Rewind(s: State, m: Mark): State
    requires -1 <= m.region < |s.regs|
  {
    if m.region == -1 then Reset(s)
    else
      State(s.regs[..m.region] + [s.regs[m.region].(count := m.count)] + Emptied(s.regs[m.region + 1..]), m.region)
  }

  lemma RewindRegs(s: State, m: Mark)
    requires -1 <= m.region < |s.regs|
    ensures m.region == -1 ==> Rewind(s, m) == Reset(s)
    ensures var r := Rewind(s, m);
      m.region >= 0 ==> r.end == m.region && |r.regs| == |s.regs| && forall i :: 0 <= i < |s.regs| ==>
        r.regs[i] == (if i < m.region then s.regs[i] else s.regs[i].(count := if i == m.region then m.count else 0))
  {
  }

  // ----- growth: what happened since an earlier state -----

  /** `s` was reached from `s0` without rewinding below it. */
  predicate Grew(s0: State, s: State) {
    && Valid(s0) && Valid(s) && |s0.regs| <= |s.regs| && s0.end <= s.end
    && (forall i :: 0 <= i < |s0.regs| ==> s.regs[i].capacity == s0.regs[i].capacity)
    && (forall i :: 0 <= i < s0.end ==> s.regs[i] == s0.regs[i])
    && (s0.end >= 0 ==> s0.regs[s0.end].count <= s.regs[s0.end].count)
  }

  /** The block lies in the used part of its region. */
  predicate Held(s: State, b: Block) {
    b.region < |s.regs| && b.region <= s.end && b.off + b.size <= s.regs[b.region].count
  }

  predicate Apart(a: Block, b: Block) {
    a.region != b.region || a.off + a.size <= b.off || b.off + b.size <= a.off
  }

  /** Where an allocation goes: to the first region from the end on that has room, right behind what is in
      use there, or else to a new region of 8192 words, or of the size asked for if that is more. Less
      than a word is lost to rounding, and nothing else changes. */
  lemma AllocPlace(s: State, bytes: nat)
    requires Valid(s)
    ensures var (s1, b) := Alloc(s, bytes);
      && bytes <= 8 * b.size < bytes + 8
      && s1.end == b.region >= s.end
      && (forall i :: s.end <= i < b.region && 0 <= i < |s.regs| ==> s.regs[i].capacity < s.regs[i].count + b.size)
      && if b.region < |s.regs|
         then s.regs[b.region].count + b.size <= s.regs[b.region].capacity && b.off == s.regs[b.region].count
              && s1.regs == s.regs[b.region := Reg(b.off + b.size, s.regs[b.region].capacity)]
         else b.region == |s.regs| && b.off == 0
              && s1.regs == s.regs + [Reg(b.size, if b.size > 8192 then b.size else 8192)]
  {
    hide Search;
    var size := Words(bytes);
    assert bytes <= 8 * size < bytes + 8;
    if s.end >= 0 { SearchFails(s.regs, s.end, size); } else { AllocFirst(s, bytes); }
  }

  /** When the search finds no room it has looked at every region from there on. */
  lemma SearchFails(regs: seq<Reg>, i: nat, size: nat)
    requires i < |regs|
    ensures var k := Search(regs, i, size);
      (forall j :: i <= j < k ==> !Fits(regs[j], size)) && (!Fits(regs[k], size) ==> k == |regs| - 1)
  {
  }

  /** One allocation: the block is as large as asked for, lies in use, and shares no word with a
      block in use before. */
  lemma AllocStep(s: State, bytes: nat)
    requires Valid(s)
    ensures var (s1, b) := Alloc(s, bytes);
      && Grew(s, s1) && Held(s1, b) && bytes <= b.size * WORD
      && forall c :: Held(s, c) ==> Held(s1, c) && Apart(c, b)
  {
  }

  /** Rewinding to a state's snapshot gives that state back up to trailing empty regions. */
  lemma RewindRestores(s0: State, s: State)
    requires Grew(s0, s)
    ensures var r := Rewind(s, Snapshot(s0));
      && Valid(r) && |r.regs| == |s.regs| && Grew(s0, r)
      && r.regs[..|s0.regs|] == s0.regs
      && (forall i :: |s0.regs| <= i < |r.regs| ==> r.regs[i].count == 0)
      && (r.end == s0.end || (s0.end == -1 && r.end == 0))
  {
    var r := Rewind(s, Snapshot(s0));
    if s0.end >= 0 {
      assert forall i :: 0 <= i < s0.end ==> r.regs[i] == s.regs[i];
      assert r.regs[..|s0.regs|] == s0.regs;
    }
  }

  lemma GrewTransitive(a: State, b: State, c: State)
    requires Grew(a, b) && Grew(b, c)
    ensures Grew(a, c)
  {
    if 0 <= a.end < b.end { assert c.regs[a.end] == b.regs[a.end]; }
  }

  // ----- replay -----

  function AllocAll(s: State, sizes: seq<nat>): (r: (State, seq<Block>))
    requires Valid(s)
    ensures Valid(r.0)
    decreases |sizes|
  {
    if sizes == [] then (s, [])
    else
      var (s1, b) := Alloc(s, sizes[0]);
      var (s2, bs) := AllocAll(s1, sizes[1..]);
      (s2, [b] + bs)
  }

  lemma {:induction false} AllocAllGrew(s: State, sizes: seq<nat>)
    requires Valid(s)
    ensures Grew(s, AllocAll(s, sizes).0)
    decreases |sizes|
  {
    if sizes != [] {
      var s1 := Alloc(s, sizes[0]).0;
      AllocStep(s, sizes[0]);
      AllocAllGrew(s1, sizes[1..]);
      GrewTransitive(s, s1, AllocAll(s1, sizes[1..]).0);
    }
  }

  /** `s` with the regions that will exist in `last` already there, and empty. */
  function Ahead(s: State, last: State): State
    requires |s.regs| <= |last.regs|
  {
    State(s.regs + Emptied(last.regs[|s.regs|..]), if s.end == -1 && last.regs != [] then 0 else s.end)
  }

  lemma {:induction false} SearchAhead(regs: seq<Reg>, more: seq<Reg>, i: nat, size: nat)
    requires i < |regs|
    ensures var k := Search(regs, i, size);
      && (Fits(regs[k], size) ==> Search(regs + more, i, size) == k)
      && (!Fits(regs[k], size) && more != [] && Fits(more[0], size) ==> Search(regs + more, i, size) == |regs|)
    decreases |regs| - i
  {
    if !Fits(regs[i], size) && i + 1 < |regs| { SearchAhead(regs, more, i + 1, size); }
  }

  lemma AheadValid(s: State, last: State)
    requires Grew(s, last)
    ensures Valid(Ahead(s, last))
  {
  }

  lemma AllocFirst(s: State, bytes: nat)
    requires Valid(s) && s.end == -1
    ensures var size := Words(bytes);
      Alloc(s, bytes) == (State([Reg(size, NewCapacity(size))], 0), Block(0, 0, size))
  {
    var size := Words(bytes);
    var one := [Reg(0, NewCapacity(size))];
    assert Search(one, 0, size) == 0;
    assert one[0 := Reg(size, NewCapacity(size))] == [Reg(size, NewCapacity(size))];
  }

  lemma AllocAheadNull(s: State, bytes: nat, last: State)
    requires Valid(s) && s.end == -1 && Grew(Alloc(s, bytes).0, last)
    ensures var (s1, b) := Alloc(s, bytes); Valid(Ahead(s, last)) && Alloc(Ahead(s, last), bytes) == (Ahead(s1, last), b)
  {
    var size := Words(bytes);
    var s1 := State([Reg(size, NewCapacity(size))], 0);
    AllocFirst(s, bytes);
    AheadFirst(last, size);
    var a := State(Emptied(last.regs), 0);
    assert a == Ahead(s, last) by { assert s.regs == [] && last.regs[0..] == last.regs && [] + Emptied(last.regs) == Emptied(last.regs); }
    assert a.regs[0 := Reg(size, NewCapacity(size))] == Ahead(s1, last).regs;
  }

  lemma AheadFirst(last: State, size: nat)
    requires Grew(State([Reg(size, NewCapacity(size))], 0), last)
    ensures Valid(State(Emptied(last.regs), 0))
    ensures Emptied(last.regs)[0] == Reg(0, NewCapacity(size)) && Search(Emptied(last.regs), 0, size) == 0
  {
    var s1 := State([Reg(size, NewCapacity(size))], 0);
    assert last.regs[0].capacity == s1.regs[0].capacity;
  }

  lemma AllocAheadFit(s: State, bytes: nat, last: State)
    requires Valid(s) && s.end >= 0 && Fits(s.regs[Search(s.regs, s.end, Words(bytes))], Words(bytes))
    requires Grew(Alloc(s, bytes).0, last)
    ensures var (s1, b) := Alloc(s, bytes); Valid(Ahead(s, last)) && Alloc(Ahead(s, last), bytes) == (Ahead(s1, last), b)
  {
    hide Search;
    AllocStep(s, bytes);
    GrewTransitive(s, Alloc(s, bytes).0, last);
    AheadValid(s, last);
    SearchAhead(s.regs, Emptied(last.regs[|s.regs|..]), s.end, Words(bytes));
    assert Alloc(Ahead(s, last), bytes).0.regs == Ahead(Alloc(s, bytes).0, last).regs;
  }

  lemma AllocAheadNew(s: State, bytes: nat, last: State)
    requires Valid(s) && s.end >= 0 && !Fits(s.regs[Search(s.regs, s.end, Words(bytes))], Words(bytes))
    requires Grew(Alloc(s, bytes).0, last)
    ensures var (s1, b) := Alloc(s, bytes); Valid(Ahead(s, last)) && Alloc(Ahead(s, last), bytes) == (Ahead(s1, last), b)
  {
    hide Search;
    AllocStep(s, bytes);
    var size := Words(bytes);
    var s1 := Alloc(s, bytes).0;
    GrewTransitive(s, s1, last);
    AheadValid(s, last);
    var more := Emptied(last.regs[|s.regs|..]);
    assert more[0] == Reg(0, NewCapacity(size));
    SearchAhead(s.regs, more, s.end, size);
    assert Ahead(s, last).regs[|s.regs|] == more[0];
    assert Alloc(Ahead(s, last), bytes).0.regs == Ahead(s1, last).regs;
  }

  lemma AllocAhead(s: State, bytes: nat, last: State)
    requires Valid(s) && Grew(Alloc(s, bytes).0, last)
    ensures Grew(s, last) && Valid(Ahead(s, last))
    ensures var (s1, b) := Alloc(s, bytes); Alloc(Ahead(s, last), bytes) == (Ahead(s1, last), b)
  {
    hide Alloc, Search;
    AllocStep(s, bytes);
    GrewTransitive(s, Alloc(s, bytes).0, last);
    if s.end == -1 {
      AllocAheadNull(s, bytes, last);
    } else if Fits(s.regs[Search(s.regs, s.end, Words(bytes))], Words(bytes)) {
      AllocAheadFit(s, bytes, last);
    } else {
      AllocAheadNew(s, bytes, last);
    }
  }

  lemma {:induction false} AllocAllAhead(s: State, sizes: seq<nat>)
    requires Valid(s)
    ensures var (last, bs) := AllocAll(s, sizes);
      Grew(s, last) && Valid(Ahead(s, last)) && AllocAll(Ahead(s, last), sizes) == (last, bs)
    decreases |sizes|
  {
    var last := AllocAll(s, sizes).0;
    AllocAllGrew(s, sizes);
    if sizes == [] {
      assert Ahead(s, s) == s;
    } else {
      var s1 := Alloc(s, sizes[0]).0;
      AllocAllGrew(s1, sizes[1..]);
      AllocAhead(s, sizes[0], last);
      AllocAllAhead(s1, sizes[1..]);
    }
  }

  lemma RewindIsAhead(s: State, last: State)
    requires Grew(s, last)
    ensures Rewind(last, Snapshot(s)) == Ahead(s, last)
  {
    hide Rewind, Ahead;
    var again, ahead := Rewind(last, Snapshot(s)), Ahead(s, last);
    RewindRegs(last, Snapshot(s));
    AheadRegs(s, last);
    forall i | 0 <= i < |last.regs| ensures again.regs[i] == ahead.regs[i] {
      if i < |s.regs| { assert last.regs[i].capacity == s.regs[i].capacity; }
    }
    assert again.regs == ahead.regs;
  }

  lemma AheadRegs(s: State, last: State)
    requires |s.regs| <= |last.regs|
    ensures var r := Ahead(s, last);
      && |r.regs| == |last.regs| && r.end == (if s.end == -1 && last.regs != [] then 0 else s.end)
      && forall i :: 0 <= i < |last.regs| ==>
        r.regs[i] == if i < |s.regs| then s.regs[i] else last.regs[i].(count := 0)
  {
  }

  /** Replay: after rewinding to a mark, the same sequence of sizes gets exactly the same blocks and
      ends in exactly the same state, so no region is created the second time. */
  lemma Replay(s: State, sizes: seq<nat>)
    requires Valid(s)
    ensures var (last, bs) := AllocAll(s, sizes);
      && Grew(s, last)
      && var again := Rewind(last, Snapshot(s));
      && Valid(again) && |again.regs| == |last.regs|
      && AllocAll(again, sizes) == (last, bs)
  {
    hide AllocAll;
    var last := AllocAll(s, sizes).0;
    AllocAllAhead(s, sizes);
    RewindIsAhead(s, last);
  }
}
