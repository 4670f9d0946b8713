/** Laws of the cursor over arbitrary bytes: totality, sibling independence and re-parsing. */
module CursorLaws {
  import opened Text
  import opened Cursor

  // ----- totality -----

  /** The reader after `n` reads. */
  function ReadMany(t: string, s: State, n: nat): (r: State)
    requires s.cur <= |t|
    ensures s.cur <= r.cur <= |t|
    decreases n
  {
    if n == 0 then s else ReadMany(t, Read(t, s).0, n - 1)
  }

  /** Over arbitrary bytes: slices stay inside the buffer; a reader without a fault has advanced
      at least once per read, so the reads of a buffer are bounded by its length; and a fault
      freezes every later call. */
  lemma {:induction false} CursorTotal(t: string, s: State, n: nat, v: Value)
    requires s.cur <= |t|
    ensures var r := ReadMany(t, s, n); r.fault == NoFault ==> s.cur + n <= r.cur
    ensures n > |t| - s.cur ==> ReadMany(t, s, n).fault != NoFault
    ensures var tok := Read(t, s).1; s.cur <= tok.start <= tok.end <= |t|
    ensures s.fault != NoFault ==>
      && ReadMany(t, s, n) == s
      && Discard(t, s, v.depth) == s
      && IterArray(t, s, v) == Step(s, false, ErrorAt(s.cur), ErrorAt(s.cur))
      && IterObject(t, s, v) == Step(s, false, ErrorAt(s.cur), ErrorAt(s.cur))
      && Entries(t, s, v) == []
    decreases n
  {
    if n > 0 { CursorTotal(t, Read(t, s).0, n - 1, v); }
  }

  /** What a successful read says about depth, and about the container it opened. */
  lemma ReadFacts(t: string, s: State)
    requires s.cur <= |t|
    ensures var (s1, v) := Read(t, s);
      && (s1.fault == NoFault ==> s.fault == NoFault)
      && (s1.fault == NoFault && !v.kind.SjEnd? ==> s.depth <= s1.depth)
      && (s1.fault == NoFault && v.kind.SjEnd? ==> s1.depth == s.depth - 1)
      && (v.kind.SjArray? || v.kind.SjObject? ==>
        && s.depth + 1 == v.depth == s1.depth && s1.cur == v.end == v.start + 1
        && t[v.start] == if v.kind.SjArray? then '[' else '{')
  {
  }

  // ----- sibling independence -----

  /** One iterator call by a client, on the container `v`. */
  datatype Use = OnArray(v: Value) | OnObject(v: Value)

  function Apply(t: string, s: State, u: Use): (r: State)
    requires s.cur <= |t|
    ensures s.cur <= r.cur <= |t|
  {
    match u
    case OnArray(v) => IterArray(t, s, v).st
    case OnObject(v) => IterObject(t, s, v).st
  }

  function Run(t: string, s: State, uses: seq<Use>): (r: State)
    requires s.cur <= |t|
    ensures s.cur <= r.cur <= |t|
    decreases |uses|
  {
    if uses == [] then s else Run(t, Apply(t, s, uses[0]), uses[1..])
  }

  /** The client only iterates containers that lie below `depth` and are still open. */
  predicate Below(t: string, s: State, uses: seq<Use>, depth: int)
    requires s.cur <= |t|
    decreases |uses|
  {
    uses == [] ||
    ((s.fault == NoFault ==> depth < uses[0].v.depth <= s.depth)
     && Below(t, Apply(t, s, uses[0]), uses[1..], depth))
  }

  lemma {:induction false} DiscardTwice(t: string, s: State, inner: int, outer: int)
    requires s.cur <= |t| && outer < inner <= s.depth
    ensures Discard(t, Discard(t, s, inner), outer) == Discard(t, s, outer)
    ensures var r := Discard(t, s, inner); r.fault == NoFault ==> r.depth == inner
    decreases |t| - s.cur
  {
    if s.depth != inner {
      var (s1, v) := Read(t, s);
      if !v.kind.SjError? { DiscardTwice(t, s1, inner, outer); }
    }
  }

  /** The reader an iterator call leaves, with the object-end fault it may have set removed. */
  function Cleared(s: State): State {
    if s.fault == UnexpectedObjectEnd then s.(fault := NoFault) else s
  }

  lemma ReadBelow(t: string, s: State, depth: int)
    requires s.cur <= |t| && depth < s.depth
    ensures var (s1, v) := Read(t, s);
      && Discard(t, s1, depth) == Discard(t, s, depth)
      && (s1.fault == NoFault ==> depth <= s1.depth)
      && (s1.fault == NoFault && !v.kind.SjEnd? ==> s.depth <= s1.depth)
      && (s.fault == NoFault ==> s1.fault != UnexpectedObjectEnd)
  {
  }

  lemma ApplyBelow(t: string, s: State, u: Use, depth: int)
    requires s.cur <= |t| && s.fault == NoFault && depth < u.v.depth <= s.depth
    ensures Discard(t, Cleared(Apply(t, s, u)), depth) == Discard(t, s, depth)
    ensures Apply(t, s, u).fault == NoFault ==> depth <= Apply(t, s, u).depth
  {
    hide Read;
    DiscardTwice(t, s, u.v.depth, depth);
    NoObjectEnd(t, s, u.v.depth);
    var s0 := Discard(t, s, u.v.depth);
    if s0.fault == NoFault {
      ReadBelow(t, s0, depth);
      var s1 := Read(t, s0).0;
      if s1.fault == NoFault && depth < s1.depth { ReadBelow(t, s1, depth); }
    } else {
      CursorTotal(t, s0, 0, u.v);
    }
  }

  lemma {:induction false} RunFrozen(t: string, s: State, uses: seq<Use>)
    requires s.cur <= |t| && s.fault != NoFault
    ensures Run(t, s, uses) == s
  {
    if uses != [] { RunFrozen(t, s, uses[1..]); }
  }

  lemma {:induction false} RunBelow(t: string, s: State, uses: seq<Use>, depth: int)
    requires s.cur <= |t| && s.fault == NoFault && depth <= s.depth && Below(t, s, uses, depth)
    ensures Discard(t, Cleared(Run(t, s, uses)), depth) == Discard(t, s, depth)
    decreases |uses|
  {
    hide Apply;
    if uses != [] {
      ApplyBelow(t, s, uses[0], depth);
      var s1 := Apply(t, s, uses[0]);
      if s1.fault == NoFault {
        RunBelow(t, s1, uses[1..], depth);
      } else {
        RunFrozen(t, s1, uses[1..]);
      }
    }
  }

  /** The object iterator finds a key with no value: where discarding to the container's depth leads,
      a key can be read, and the token after it is a closing bracket. */
  predicate CutAt(t: string, s: State, u: Use)
    requires s.cur <= |t|
  {
    u.OnObject? &&
    var (s1, key) := Read(t, Discard(t, s, u.v.depth));
    !key.kind.SjError? && !key.kind.SjEnd? && Read(t, s1).1.kind.SjEnd?
  }

  /** Some call of the run does. */
  predicate Cut(t: string, s: State, uses: seq<Use>)
    requires s.cur <= |t|
    decreases |uses|
  {
    uses != [] && (CutAt(t, s, uses[0]) || Cut(t, Apply(t, s, uses[0]), uses[1..]))
  }

  lemma CutsOnce(t: string, s: State, u: Use)
    requires s.cur <= |t| && s.fault == NoFault
    ensures Apply(t, s, u).fault == UnexpectedObjectEnd <==> CutAt(t, s, u)
  {
    hide Read, Discard;
    var d := Discard(t, s, u.v.depth);
    NoObjectEnd(t, s, u.v.depth);
    ReadNoObjectEnd(t, d);
    ReadNoObjectEnd(t, Read(t, d).0);
  }

  lemma {:induction false} NeverCut(t: string, s: State, uses: seq<Use>)
    requires s.cur <= |t| && s.fault != NoFault
    ensures !Cut(t, s, uses)
    decreases |uses|
  {
    hide Read, Discard;
    if uses != [] {
      CursorTotal(t, s, 0, uses[0].v);
      NeverCut(t, s, uses[1..]);
    }
  }

  /** A run leaves the object-end fault exactly when one of its calls is cut. */
  lemma {:induction false} CutFault(t: string, s: State, uses: seq<Use>)
    requires s.cur <= |t| && s.fault == NoFault
    ensures Run(t, s, uses).fault == UnexpectedObjectEnd <==> Cut(t, s, uses)
    decreases |uses|
  {
    hide CutAt, Apply;
    if uses != [] {
      CutsOnce(t, s, uses[0]);
      var s1 := Apply(t, s, uses[0]);
      if s1.fault == NoFault {
        CutFault(t, s1, uses[1..]);
      } else {
        RunFrozen(t, s1, uses[1..]);
        NeverCut(t, s1, uses[1..]);
      }
    }
  }

  /** However much of a nested container the client has iterated, the parent's next entry is the
      one it would have got without, if and only if no object iteration on the way met a key with a
      closing bracket right behind it. */
  lemma SiblingIndependence(t: string, s: State, uses: seq<Use>, parent: Value)
    requires s.cur <= |t| && s.fault == NoFault && parent.depth <= s.depth
    requires Below(t, s, uses, parent.depth)
    ensures var s' := Run(t, s, uses);
      && (IterArray(t, s', parent) == IterArray(t, s, parent) <==> !Cut(t, s, uses))
      && (IterObject(t, s', parent) == IterObject(t, s, parent) <==> !Cut(t, s, uses))
      && (!Cut(t, s, uses) ==> Entries(t, s', parent) == Entries(t, s, parent))
  {
    hide Read, Discard, Cut;
    CutFault(t, s, uses);
    var s' := Run(t, s, uses);
    RunBelow(t, s, uses, parent.depth);
    CursorTotal(t, s', 0, parent);
    var d := Discard(t, s, parent.depth);
    NoObjectEnd(t, s, parent.depth);
    ReadNoObjectEnd(t, d);
    ReadNoObjectEnd(t, Read(t, d).0);
    assert s'.fault == UnexpectedObjectEnd ==> s'.cur == Cleared(s').cur <= d.cur;
  }

  /** An iterator only depends on where discarding to its container's depth leads. */
  lemma SameFromDiscard(t: string, s1: State, s2: State, v: Value)
    requires s1.cur <= |t| && s2.cur <= |t| && Discard(t, s1, v.depth) == Discard(t, s2, v.depth)
    ensures IterArray(t, s1, v) == IterArray(t, s2, v) && IterObject(t, s1, v) == IterObject(t, s2, v)
    ensures Entries(t, s1, v) == Entries(t, s2, v) && AfterEntries(t, s1, v) == AfterEntries(t, s2, v)
  {
    hide Read, Discard;
  }

  lemma ReadNoObjectEnd(t: string, s: State)
    requires s.cur <= |t|
    ensures s.fault != UnexpectedObjectEnd ==> Read(t, s).0.fault != UnexpectedObjectEnd
  {
  }

  lemma {:induction false} NoObjectEnd(t: string, s: State, depth: int)
    requires s.cur <= |t| && s.fault == NoFault
    ensures Discard(t, s, depth).fault != UnexpectedObjectEnd
    decreases |t| - s.cur
  {
    if s.depth != depth {
      var (s1, v) := Read(t, s);
      if !v.kind.SjError? { NoObjectEnd(t, s1, depth); }
    }
  }

  /** The exception is real: in `[{0},5]` iterating the object loses the sibling 5. */
  lemma SiblingLost()
    ensures var t := "[{0},5]";
      var arr := Read(t, State(0, 0, NoFault));
      var obj := Read(t, arr.0);
      && arr.1.kind.SjArray? && obj.1.kind.SjObject?
      && Below(t, obj.0, [OnObject(obj.1)], arr.1.depth)
      && IterArray(t, obj.0, arr.1).ok
      && !IterArray(t, Run(t, obj.0, [OnObject(obj.1)]), arr.1).ok
  {
    hide Read;
    LostTokens();
    var t := "[{0},5]";
    var s2, s4 := State(2, 2, NoFault), State(4, 1, NoFault);
    assert Discard(t, s2, 1) == Discard(t, State(3, 2, NoFault), 1) == s4;
    var u := OnObject(Value(SjObject, 1, 2, 2));
    assert Apply(t, s2, u) == s4.(fault := UnexpectedObjectEnd);
    assert Run(t, s2, [u]) == Run(t, Apply(t, s2, u), [u][1..]);
    CursorTotal(t, s4.(fault := UnexpectedObjectEnd), 0, Value(SjArray, 0, 1, 1));
  }

  lemma LostTokens()
    ensures var t := "[{0},5]";
      && Read(t, State(0, 0, NoFault)) == (State(1, 1, NoFault), Value(SjArray, 0, 1, 1))
      && Read(t, State(1, 1, NoFault)) == (State(2, 2, NoFault), Value(SjObject, 1, 2, 2))
      && Read(t, State(2, 2, NoFault)) == (State(3, 2, NoFault), Value(SjNumber, 2, 3, 0))
      && Read(t, State(3, 2, NoFault)) == (State(4, 1, NoFault), Value(SjEnd, 3, 4, 0))
      && Read(t, State(4, 1, NoFault)).1.kind.SjNumber?
  {
    assert NumEnd("[{0},5]", 2) == 3 && SkipSeps("[{0},5]", 4) == 5;
  }

  // ----- re-parsing -----

  function Lower(s: State, k: int): State { s.(depth := s.depth - k) }

  function LowerValue(v: Value, k: int): Value {
    if v.kind.SjArray? || v.kind.SjObject? then v.(depth := v.depth - k) else v
  }

  lemma ReadLower(t: string, s: State, k: nat)
    requires s.cur <= |t| && (s.fault == NoFault ==> 1 <= s.depth - k)
    ensures var (s1, v) := Read(t, s);
      && Read(t, Lower(s, k)) == (Lower(s1, k), LowerValue(v, k))
      && (!v.kind.SjError? && !v.kind.SjEnd? ==> s.fault == NoFault && s.depth <= s1.depth)
  {
    hide NumEnd, StrEnd, Has;
  }

  lemma {:induction false} DiscardLower(t: string, s: State, depth: int, k: nat)
    requires s.cur <= |t| && k <= depth <= s.depth
    ensures Discard(t, Lower(s, k), depth - k) == Lower(Discard(t, s, depth), k)
    decreases |t| - s.cur
  {
    if s.depth != depth {
      ReadLower(t, s, k);
      var (s1, v) := Read(t, s);
      if !v.kind.SjError? { DiscardLower(t, s1, depth, k); }
    }
  }

  function LowerStep(r: Step, k: int): Step {
    Step(Lower(r.st, k), r.ok, LowerValue(r.key, k), LowerValue(r.val, k))
  }

  /** One iterator call on a reader and on a copy of it that counts depth from `k` lower. */
  lemma IterLower(t: string, s: State, v: Value, k: nat)
    requires s.cur <= |t| && k < v.depth <= s.depth
    ensures IterArray(t, Lower(s, k), v.(depth := v.depth - k)) == LowerStep(IterArray(t, s, v), k)
    ensures IterObject(t, Lower(s, k), v.(depth := v.depth - k)) == LowerStep(IterObject(t, s, v), k)
    ensures IterArray(t, s, v).ok ==> v.depth <= IterArray(t, s, v).st.depth
    ensures IterObject(t, s, v).ok ==> v.depth <= IterObject(t, s, v).st.depth
  {
    hide Read, Discard;
    DiscardLower(t, s, v.depth, k);
    var d := Discard(t, s, v.depth);
    ReadLower(t, d, k);
    var (s1, key) := Read(t, d);
    if !key.kind.SjError? && !key.kind.SjEnd? { ReadLower(t, s1, k); }
  }

  /** Two entry lists that differ only in the depth their containers carry. */
  predicate SameEntries(a: seq<(Value, Value)>, b: seq<(Value, Value)>, k: int) {
    |a| == |b| && forall i :: 0 <= i < |a| ==>
      b[i].0 == LowerValue(a[i].0, k) && b[i].1 == LowerValue(a[i].1, k)
  }

  lemma {:induction false} EntriesLower(t: string, s: State, v: Value, k: nat)
    requires s.cur <= |t| && k < v.depth <= s.depth
    ensures SameEntries(Entries(t, s, v), Entries(t, Lower(s, k), v.(depth := v.depth - k)), k)
    ensures AfterEntries(t, Lower(s, k), v.(depth := v.depth - k)) == Lower(AfterEntries(t, s, v), k)
    decreases |t| - s.cur
  {
    hide IterObject;
    IterLower(t, s, v, k);
    var step := IterObject(t, s, v);
    if step.ok { EntriesLower(t, step.st, v, k); }
  }

  lemma FreshContainer(t: string, s: State)
    requires s.cur <= |t| && 0 <= s.depth && Read(t, s).1.kind in {SjArray, SjObject}
    ensures var (s1, v) := Read(t, s);
      Read(t, State(v.start, 0, NoFault)) == (Lower(s1, s.depth), LowerValue(v, s.depth))
  {
    hide NumEnd, StrEnd, Has;
    assert SkipSeps(t, Read(t, s).1.start) == Read(t, s).1.start;
  }

  /** A fresh reader started at a container's first byte reads the same container, and then yields
      the same entries, down to the same final fault or end, as the outer reader would. */
  lemma Reparse(t: string, s: State)
    requires s.cur <= |t| && 0 <= s.depth
    requires Read(t, s).1.kind in {SjArray, SjObject}
    ensures var (s1, v) := Read(t, s);
      var (f1, fv) := Read(t, State(v.start, 0, NoFault));
      && f1 == Lower(s1, s.depth) && fv == LowerValue(v, s.depth)
      && SameEntries(Entries(t, s1, v), Entries(t, f1, fv), s.depth)
      && AfterEntries(t, f1, fv) == Lower(AfterEntries(t, s1, v), s.depth)
  {
    hide Read, Entries, AfterEntries;
    ReadFacts(t, s);
    FreshContainer(t, s);
    var (s1, v) := Read(t, s);
    EntriesLower(t, s1, v, s.depth);
  }
}
