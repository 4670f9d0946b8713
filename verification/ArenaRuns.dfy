/** Whole runs of an arena: allocations, writes into blocks, and snapshot/rewind scopes nested to
    any depth. */
module ArenaRuns {
  import opened ArenaState

  datatype Op = Take(bytes: nat)                       // allocate a block
              | Put(nth: nat, i: nat, c: char)         // write byte i of the nth live block
              | Scope(body: Ops)                       // snapshot; body; rewind
  datatype Ops = Done | Do(op: Op, rest: Ops)

  type Memory = (nat, nat) -> char   // byte of a region

  /** `live` lists the blocks the client may still use, oldest first. */
  datatype Machine = Machine(s: State, mem: Memory, live: seq<Block>)

  function Store(mem: Memory, region: nat, at: nat, c: char): Memory {
    (r: nat, a: nat) => if r == region && a == at then c else mem(r, a)
  }

  /** A write through a live block; the client does not write past its end. */
  function PutByte(m: Machine, nth: nat, i: nat, c: char): Machine {
    if nth < |m.live| && i < m.live[nth].size * WORD
    then m.(mem := Store(m.mem, m.live[nth].region, m.live[nth].off * WORD + i, c))
    else m
  }

  function Step(m: Machine, op: Op): (r: Machine)
    requires Valid(m.s)
    ensures Grew(m.s, r.s) && m.live <= r.live
    decreases op
  {
    match op
    case Take(bytes) =>
      AllocStep(m.s, bytes);
      var (s, b) := Alloc(m.s, bytes);
      m.(s := s, live := m.live + [b])
    case Put(nth, i, c) => PutByte(m, nth, i, c)
    case Scope(body) =>
      var r := Run(m, body);
      RewindRestores(m.s, r.s);
      r.(s := Rewind(r.s, Snapshot(m.s)), live := m.live)
  }

  function Run(m: Machine, ops: Ops): (r: Machine)
    requires Valid(m.s)
    ensures Grew(m.s, r.s) && m.live <= r.live
    decreases ops
  {
    match ops
    case Done => m
    case Do(op, rest) =>
      var m1 := Step(m, op);
      var r := Run(m1, rest);
      GrewTransitive(m.s, m1.s, r.s);
      r
  }

  /** Every live block lies in use, and no two share a byte. */
  predicate Sound(m: Machine) {
    && Valid(m.s)
    && (forall i :: 0 <= i < |m.live| ==> Held(m.s, m.live[i]))
    && (forall i, j :: 0 <= i < j < |m.live| ==> Apart(m.live[i], m.live[j]))
  }

  lemma {:induction false} StepSound(m: Machine, op: Op)
    requires Sound(m)
    ensures Sound(Step(m, op))
    decreases op
  {
    hide Alloc, Rewind;
    match op
    case Take(bytes) => AllocStep(m.s, bytes);
    case Put(_, _, _) =>
    case Scope(body) =>
      RunSound(m, body);
      RewindRestores(m.s, Run(m, body).s);
      var r := Step(m, op);
      forall i | 0 <= i < |r.live| ensures Held(r.s, r.live[i]) {
        assert Held(m.s, m.live[i]) && r.s.regs[..|m.s.regs|][m.live[i].region] == m.s.regs[m.live[i].region];
      }
  }

  /** Over a whole run, however nested, live blocks stay in use and pairwise disjoint, and the
      counts, capacities and the empty tail of the region list stay consistent. */
  lemma {:induction false} RunSound(m: Machine, ops: Ops)
    requires Sound(m)
    ensures Sound(Run(m, ops))
    decreases ops
  {
    hide Step;
    if ops.Do? {
      StepSound(m, ops.op);
      RunSound(Step(m, ops.op), ops.rest);
    }
  }

  function Contents(m: Machine, b: Block): seq<char> {
    seq(b.size * WORD, i requires 0 <= i => m.mem(b.region, b.off * WORD + i))
  }

  /** All writes of the run go through blocks of index `keep` or above. */
  predicate PutsAbove(ops: Ops, keep: nat) {
    match ops
    case Done => true
    case Do(Take(_), rest) => PutsAbove(rest, keep)
    case Do(Put(nth, _, _), rest) => keep <= nth && PutsAbove(rest, keep)
    case Do(Scope(body), rest) => PutsAbove(body, keep) && PutsAbove(rest, keep)
  }

  lemma PutKeeps(m: Machine, nth: nat, i: nat, c: char, k: nat)
    requires Sound(m) && k < nth && k < |m.live|
    ensures Contents(PutByte(m, nth, i, c), m.live[k]) == Contents(m, m.live[k])
  {
    if nth < |m.live| { assert Apart(m.live[k], m.live[nth]); }
  }

  lemma {:induction false} RunKeeps(m: Machine, ops: Ops, keep: nat, k: nat)
    requires Sound(m) && k < keep <= |m.live| && PutsAbove(ops, keep)
    ensures Contents(Run(m, ops), m.live[k]) == Contents(m, m.live[k])
    decreases ops
  {
    hide Sound, Contents, PutByte, Alloc, Rewind;
    match ops
    case Done =>
    case Do(op, rest) =>
      StepSound(m, op);
      var m1 := Step(m, op);
      assert m1.live[k] == m.live[k];
      RunKeeps(m1, rest, keep, k);
      match op
      case Take(_) => SameMemory(m, m1, m.live[k]);
      case Put(nth, i, c) => PutKeeps(m, nth, i, c, k);
      case Scope(body) =>
        RunKeeps(m, body, keep, k);
        SameMemory(Run(m, body), m1, m.live[k]);
  }

  lemma SameMemory(m: Machine, m1: Machine, b: Block)
    requires m.mem == m1.mem
    ensures Contents(m, b) == Contents(m1, b)
  {
  }

  /** A scope that only writes to its own blocks leaves everything as it found it: the allocation
      state up to trailing empty regions, the live blocks, and every byte of their contents. */
  lemma NestedRewind(m: Machine, body: Ops)
    requires Sound(m) && PutsAbove(body, |m.live|)
    ensures var r := Step(m, Scope(body));
      && Sound(r) && r.live == m.live
      && |m.s.regs| <= |r.s.regs| && r.s.regs[..|m.s.regs|] == m.s.regs
      && (forall i :: |m.s.regs| <= i < |r.s.regs| ==> r.s.regs[i].count == 0)
      && (r.s.end == m.s.end || (m.s.end == -1 && r.s.end == 0))
      && forall k :: 0 <= k < |m.live| ==> Contents(r, m.live[k]) == Contents(m, m.live[k])
  {
    StepSound(m, Scope(body));
    RewindRestores(m.s, Run(m, body).s);
    var r := Step(m, Scope(body));
    forall k | 0 <= k < |m.live| ensures Contents(r, m.live[k]) == Contents(m, m.live[k]) {
      RunKeeps(m, body, |m.live|, k);
      SameMemory(Run(m, body), r, m.live[k]);
    }
  }
}
