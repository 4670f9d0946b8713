/** Re-reading a copied container: a reader over the copy sees what the reader over the whole
    buffer saw, for any bytes. */
module Reread {
  import opened Text
  import opened Cursor
  import opened CursorLaws
  import opened Json
  import opened RawCopy

  /** A reader over `t[a..]`, counting depth from `k` lower, at the same place. */
  function Moved(s: State, a: nat, k: int): State
    requires a <= s.cur
  {
    State(s.cur - a, s.depth - k, s.fault)
  }

  function MovedValue(v: Value, a: nat, k: int): Value
    requires a <= v.start <= v.end
  {
    LowerValue(Value(v.kind, v.start - a, v.end - a, v.depth), k)
  }

  // ----- tokens in a window -----

  lemma {:induction false} SkipSepsWindow(t: string, i: nat, a: nat, b: nat)
    requires a <= i <= |t| && SkipSeps(t, i) <= b <= |t|
    ensures SkipSeps(t[a..b], i - a) == SkipSeps(t, i) - a
    decreases |t| - i
  {
    if i < |t| && IsSep(t[i]) { SkipSepsWindow(t, i + 1, a, b); }
  }

  lemma {:induction false} NumEndWindow(t: string, i: nat, a: nat, b: nat)
    requires a <= i <= |t| && NumEnd(t, i) <= b <= |t|
    ensures NumEnd(t[a..b], i - a) == NumEnd(t, i) - a
    decreases |t| - i
  {
    if i < |t| && IsNumCont(t[i]) { NumEndWindow(t, i + 1, a, b); }
  }

  lemma {:induction false} StrEndWindow(t: string, i: nat, a: nat, b: nat)
    requires a <= i <= |t| && StrEnd(t, i) < b <= |t|
    ensures StrEnd(t[a..b], i - a) == StrEnd(t, i) - a
    decreases |t| - i
  {
    if t[i] == '\\' { StrEndWindow(t, i + 2, a, b); } else if t[i] != '"' { StrEndWindow(t, i + 1, a, b); }
  }

  lemma HasWindow(t: string, p: nat, w: string, a: nat, b: nat)
    requires a <= p <= b <= |t|
    ensures Has(t[a..b], p - a, w) <==> p + |w| <= b && Has(t, p, w)
  {
    if p + |w| <= b {
      var x, y := t[a..b][p - a..p - a + |w|], t[p..p + |w|];
      assert forall i :: 0 <= i < |w| ==> x[i] == y[i];
      assert x == y;
    }
  }

  lemma TokenWindow(t: string, s: State, a: nat, b: nat, k: int)
    requires a <= s.cur < |t| && b <= |t| && s.fault == NoFault
    requires ReadToken(t, s).0.fault == NoFault && s.cur < ReadToken(t, s).0.cur <= b && k <= ReadToken(t, s).0.depth
    ensures var (s1, v) := ReadToken(t, s); ReadToken(t[a..b], Moved(s, a, k)) == (Moved(s1, a, k), MovedValue(v, a, k))
  {
    hide Has, NumEnd, StrEnd;
    var p := s.cur;
    var c := t[p];
    assert t[a..b][p - a] == c;
    if c == '-' || IsDigit(c) {
      NumEndWindow(t, p, a, b);
    } else if c == '"' {
      StrEndWindow(t, p + 1, a, b);
    } else if c == 'n' || c == 't' || c == 'f' {
      WordWindow(t, s, a, b, k);
    }
  }

  lemma WordWindow(t: string, s: State, a: nat, b: nat, k: int)
    requires a <= s.cur < |t| && b <= |t| && (t[s.cur] == 'n' || t[s.cur] == 't' || t[s.cur] == 'f')
    requires ReadToken(t, s).0.fault == NoFault && s.cur < ReadToken(t, s).0.cur <= b && s.fault == NoFault
    ensures var (s1, v) := ReadToken(t, s); ReadToken(t[a..b], Moved(s, a, k)) == (Moved(s1, a, k), MovedValue(v, a, k))
  {
    hide Has, NumEnd, StrEnd;
    HasWindow(t, s.cur, "null", a, b);
    HasWindow(t, s.cur, "true", a, b);
    HasWindow(t, s.cur, "false", a, b);
    assert t[a..b][s.cur - a] == t[s.cur];
  }

  lemma ReadWindow(t: string, s: State, a: nat, b: nat, k: int)
    requires a <= s.cur <= |t| && b <= |t|
    requires Read(t, s).0.fault == NoFault && Read(t, s).0.cur <= b && k <= Read(t, s).0.depth
    ensures var (s1, v) := Read(t, s); Read(t[a..b], Moved(s, a, k)) == (Moved(s1, a, k), MovedValue(v, a, k))
  {
    hide ReadToken;
    var p := SkipSeps(t, s.cur);
    SkipSepsWindow(t, s.cur, a, b);
    TokenWindow(t, s.(cur := p), a, b, k);
  }

  // ----- iterators in a window -----

  lemma {:induction false} DiscardWindow(t: string, s: State, depth: int, a: nat, b: nat, k: int)
    requires a <= s.cur <= |t| && b <= |t| && k <= depth <= s.depth
    requires Discard(t, s, depth).fault == NoFault && Discard(t, s, depth).cur <= b
    ensures Discard(t[a..b], Moved(s, a, k), depth - k) == Moved(Discard(t, s, depth), a, k)
    decreases |t| - s.cur
  {
    hide Read;
    if s.depth != depth {
      var s1 := Read(t, s).0;
      ReadFacts(t, s);
      ReadWindow(t, s, a, b, k);
      DiscardWindow(t, s1, depth, a, b, k);
    }
  }

  /** Depth facts of one iterator step on an open container. */
  predicate StepDepths(r: Step, depth: int) {
    r.st.fault == NoFault ==>
      if r.ok then depth <= r.st.depth && (r.val.kind.SjArray? || r.val.kind.SjObject? ==> depth < r.val.depth == r.st.depth)
      else r.st.depth == depth - 1
  }

  lemma {:induction false} DiscardDepth(t: string, s: State, depth: int)
    requires s.cur <= |t| && depth <= s.depth
    ensures var d := Discard(t, s, depth); d.fault == NoFault ==> d.depth == depth && s.fault == NoFault
    decreases |t| - s.cur
  {
    hide Read;
    ReadFacts(t, s);
    var (s1, v) := Read(t, s);
    if s.depth != depth && !v.kind.SjError? { DiscardDepth(t, s1, depth); }
  }

  lemma IterDepths(t: string, s: State, v: Value)
    requires s.cur <= |t| && v.depth <= s.depth
    ensures StepDepths(IterArray(t, s, v), v.depth) && StepDepths(IterObject(t, s, v), v.depth)
  {
    hide Read, Discard;
    DiscardDepth(t, s, v.depth);
    var d := Discard(t, s, v.depth);
    ReadFacts(t, d);
    ReadFacts(t, Read(t, d).0);
  }

  lemma IterArrayWindow(t: string, s: State, v: Value, w: Value, a: nat, b: nat, k: int)
    requires a <= s.cur <= |t| && b <= |t| && k < v.depth <= s.depth && w.depth == v.depth - k
    requires var r := IterArray(t, s, v); r.st.fault == NoFault && r.st.cur <= b
    ensures var r := IterArray(t, s, v);
      a <= r.val.start && IterArray(t[a..b], Moved(s, a, k), w) ==
        Step(Moved(r.st, a, k), r.ok, MovedValue(r.val, a, k), MovedValue(r.val, a, k))
  {
    hide Read, Discard;
    var d := Discard(t, s, v.depth);
    ReadFacts(t, d);
    DiscardDepth(t, s, v.depth);
    DiscardWindow(t, s, v.depth, a, b, k);
    ReadWindow(t, d, a, b, k);
  }

  lemma IterObjectWindow(t: string, s: State, v: Value, w: Value, a: nat, b: nat, k: int)
    requires a <= s.cur <= |t| && b <= |t| && k < v.depth <= s.depth && w.depth == v.depth - k
    requires var r := IterObject(t, s, v); r.st.fault == NoFault && r.st.cur <= b
    ensures var r := IterObject(t, s, v);
      a <= r.key.start && a <= r.val.start && IterObject(t[a..b], Moved(s, a, k), w) ==
        Step(Moved(r.st, a, k), r.ok, MovedValue(r.key, a, k), MovedValue(r.val, a, k))
  {
    hide Read, Discard;
    var d := Discard(t, s, v.depth);
    var (s1, key) := Read(t, d);
    ReadFacts(t, d);
    ReadFacts(t, s1);
    DiscardDepth(t, s, v.depth);
    DiscardWindow(t, s, v.depth, a, b, k);
    ReadWindow(t, d, a, b, k);
    if !key.kind.SjError? && !key.kind.SjEnd? { ReadWindow(t, s1, a, b, k); }
  }

  // ----- whole walks in a window -----

  /** A walk that ends without a fault started without one. */
  lemma WalkSticky(t: string, s: State, v: Value)
    requires s.cur <= |t| && s.fault != NoFault
    ensures ItemsAt(t, s, v).0 == s && MembersAt(t, s, v).0 == s
    ensures v.start <= v.end <= |t| ==> TreeAt(t, s, v).0 == s
  {
    hide IterArray, IterObject;
    CursorTotal(t, s, 0, v);
  }

  predicate IsContainer(v: Value) { v.kind.SjArray? || v.kind.SjObject? }

  lemma SliceWindow(t: string, v: Value, a: nat, b: nat, k: int)
    requires a <= v.start <= v.end <= b <= |t|
    ensures Slice(t[a..b], MovedValue(v, a, k)) == Slice(t, v)
  {
    var x, y := Slice(t[a..b], MovedValue(v, a, k)), Slice(t, v);
    forall i | 0 <= i < |y| ensures x[i] == y[i] {
      assert x[i] == t[a..b][v.start - a + i] == t[v.start + i];
    }
  }

  lemma {:induction false} TreeWindow(t: string, s: State, v: Value, a: nat, b: nat, k: int)
    requires a <= s.cur <= |t| && b <= |t| && a <= v.start <= v.end <= s.cur
    requires IsContainer(v) ==> k < v.depth <= s.depth
    requires TreeAt(t, s, v).0.fault == NoFault && TreeAt(t, s, v).0.cur <= b
    ensures var (r, tree) := TreeAt(t, s, v);
      && TreeAt(t[a..b], Moved(s, a, k), MovedValue(v, a, k)) == (Moved(r, a, k), tree)
      && r.depth == if IsContainer(v) then v.depth - 1 else s.depth
    decreases |t| - s.cur, 1
  {
    hide IterArray, IterObject;
    match v.kind
    case SjArray => ItemsWindow(t, s, v, MovedValue(v, a, k), a, b, k);
    case SjObject => MembersWindow(t, s, v, MovedValue(v, a, k), a, b, k);
    case _ => SliceWindow(t, v, a, b, k);
  }

  lemma {:induction false} ItemsWindow(t: string, s: State, v: Value, w: Value, a: nat, b: nat, k: int)
    requires a <= s.cur <= |t| && b <= |t| && k < v.depth <= s.depth && w.depth == v.depth - k
    requires ItemsAt(t, s, v).0.fault == NoFault && ItemsAt(t, s, v).0.cur <= b
    ensures var (r, items) := ItemsAt(t, s, v);
      ItemsAt(t[a..b], Moved(s, a, k), w) == (Moved(r, a, k), items) && r.depth == v.depth - 1
    decreases |t| - s.cur, 0
  {
    hide IterArray, TreeAt;
    var step := IterArray(t, s, v);
    IterDepths(t, s, v);
    if step.ok {
      var s1 := TreeAt(t, step.st, step.val).0;
      if s1.fault != NoFault { WalkSticky(t, s1, v); }
      IterArrayWindow(t, s, v, w, a, b, k);
      TreeWindow(t, step.st, step.val, a, b, k);
      ItemsWindow(t, s1, v, w, a, b, k);
    } else {
      IterArrayWindow(t, s, v, w, a, b, k);
    }
  }

  lemma {:induction false} MembersWindow(t: string, s: State, v: Value, w: Value, a: nat, b: nat, k: int)
    requires a <= s.cur <= |t| && b <= |t| && k < v.depth <= s.depth && w.depth == v.depth - k
    requires MembersAt(t, s, v).0.fault == NoFault && MembersAt(t, s, v).0.cur <= b
    ensures var (r, members) := MembersAt(t, s, v);
      MembersAt(t[a..b], Moved(s, a, k), w) == (Moved(r, a, k), members) && r.depth == v.depth - 1
    decreases |t| - s.cur, 0
  {
    hide IterObject, TreeAt, Slice;
    var step := IterObject(t, s, v);
    IterDepths(t, s, v);
    if step.ok {
      var s1 := TreeAt(t, step.st, step.val).0;
      if s1.fault != NoFault { WalkSticky(t, s1, v); }
      IterObjectWindow(t, s, v, w, a, b, k);
      SliceWindow(t, step.key, a, b, k);
      TreeWindow(t, step.st, step.val, a, b, k);
      MembersWindow(t, s1, v, w, a, b, k);
    } else {
      IterObjectWindow(t, s, v, w, a, b, k);
    }
  }

  // ----- the copy of a container -----

  lemma {:induction false} TreeBelow(t: string, s: State, v: Value, outer: int)
    requires s.cur <= |t| && v.start <= v.end <= |t| && outer <= s.depth
    requires IsContainer(v) ==> outer < v.depth <= s.depth
    requires TreeAt(t, s, v).0.fault == NoFault
    ensures var r := TreeAt(t, s, v).0;
      Discard(t, s, outer) == Discard(t, r, outer) && r.depth == if IsContainer(v) then v.depth - 1 else s.depth
    decreases |t| - s.cur, 1
  {
    hide IterArray, IterObject, Discard;
    match v.kind
    case SjArray => ItemsBelow(t, s, v, outer);
    case SjObject => MembersBelow(t, s, v, outer);
    case _ =>
  }

  lemma {:induction false} ItemsBelow(t: string, s: State, v: Value, outer: int)
    requires s.cur <= |t| && outer < v.depth <= s.depth && ItemsAt(t, s, v).0.fault == NoFault
    ensures var r := ItemsAt(t, s, v).0; Discard(t, s, outer) == Discard(t, r, outer) && r.depth == v.depth - 1
    decreases |t| - s.cur, 0
  {
    hide IterArray, TreeAt, Discard;
    var step := IterArray(t, s, v);
    if s.fault != NoFault { WalkSticky(t, s, v); }
    IterDepths(t, s, v);
    ApplyBelow(t, s, OnArray(v), outer);
    if step.ok {
      var s1 := TreeAt(t, step.st, step.val).0;
      if s1.fault != NoFault { WalkSticky(t, s1, v); }
      TreeBelow(t, step.st, step.val, outer);
      ItemsBelow(t, s1, v, outer);
    }
  }

  lemma {:induction false} MembersBelow(t: string, s: State, v: Value, outer: int)
    requires s.cur <= |t| && outer < v.depth <= s.depth && MembersAt(t, s, v).0.fault == NoFault
    ensures var r := MembersAt(t, s, v).0; Discard(t, s, outer) == Discard(t, r, outer) && r.depth == v.depth - 1
    decreases |t| - s.cur, 0
  {
    hide IterObject, TreeAt, Discard;
    var step := IterObject(t, s, v);
    if s.fault != NoFault { WalkSticky(t, s, v); }
    IterDepths(t, s, v);
    ApplyBelow(t, s, OnObject(v), outer);
    if step.ok {
      var s1 := TreeAt(t, step.st, step.val).0;
      if s1.fault != NoFault { WalkSticky(t, s1, v); }
      TreeBelow(t, step.st, step.val, outer);
      MembersBelow(t, s1, v, outer);
    }
  }

  /** For any bytes: if the cursor can walk a container to its close, the raw scan copies exactly the
      bytes the cursor passed over, and a fresh reader over the copy sees the same tree. */
  lemma CopyRereads(t: string, s: State)
    requires s.cur <= |t| && 0 <= s.depth && IsContainer(Read(t, s).1)
    requires var (s1, v) := Read(t, s); TreeAt(t, s1, v).0.fault == NoFault
    ensures var (s1, v) := Read(t, s);
      var (r, tree) := TreeAt(t, s1, v);
      && RawEnd(t, v.start, 0, false) == r.cur && v.start < r.cur
      && TreeOf(t[v.start..r.cur]) == tree
      && (NulFree(t) ==> ValueJson(t, v) == t[v.start..r.cur])
  {
    hide Read, TreeAt, RawEnd, Discard, ValueJson, TreeOf;
    var (s1, v) := Read(t, s);
    var r := TreeAt(t, s1, v).0;
    ReadFacts(t, s);
    TreeBelow(t, s1, v, s.depth);
    DiscardHere(t, r);
    TwoScannersAgree(t, s);
    FreshRead(t, v, r.cur, s.depth);
    TreeWindow(t, s1, v, v.start, r.cur, s.depth);
    FreshTree(t[v.start..r.cur]);
    if NulFree(t) { CopiedText(t, v, r.cur); }
  }

  lemma DiscardHere(t: string, s: State)
    requires s.cur <= |t|
    ensures Discard(t, s, s.depth) == s
  {
  }

  lemma FreshTree(t: string)
    ensures var (s, v) := Read(t, State(0, 0, NoFault)); TreeOf(t) == TreeAt(t, s, v).1
  {
    hide Read;
  }

  lemma CopiedText(t: string, v: Value, e: nat)
    requires NulFree(t) && IsContainer(v) && v.start <= v.end <= |t| && RawEnd(t, v.start, 0, false) == e && v.start <= e <= |t|
    ensures ValueJson(t, v) == t[v.start..e]
  {
    hide RawEnd;
    assert (t + "\0")[v.start..e] == t[v.start..e];
  }

  lemma FreshRead(t: string, v: Value, b: nat, k: int)
    requires IsContainer(v) && v.end == v.start + 1 <= b <= |t| && v.depth == k + 1
    requires t[v.start] == if v.kind.SjArray? then '[' else '{'
    ensures Read(t[v.start..b], State(0, 0, NoFault)) == (State(1, 1, NoFault), MovedValue(v, v.start, k))
  {
    assert t[v.start..b][0] == t[v.start];
  }
}
