/** Sibling independence on well-formed texts, for clients that iterate the containers they are in,
    arrays as arrays and objects as objects. */
module Siblings {
  import opened Text
  import opened Cursor
  import opened CursorLaws
  import opened Json
  import opened JsonLaws

  // ----- clients -----

  /** The containers a client is in, the outermost first. */
  type Stack = seq<Value>

  predicate Nested(stack: Stack) {
    forall i, j :: 0 <= i < j < |stack| ==> stack[i].depth < stack[j].depth
  }

  /** The containers that lie at most that deep. */
  function Upto(stack: Stack, depth: int): (r: Stack)
    ensures r <= stack && (Nested(stack) ==> Nested(r))
    ensures Nested(stack) ==> forall w :: w in r <==> w in stack && w.depth <= depth
  {
    if stack == [] || stack[|stack| - 1].depth <= depth then stack else Upto(stack[..|stack| - 1], depth)
  }

  function StepOf(t: string, s: State, u: Use): (r: Step)
    requires s.cur <= |t|
    ensures r.st == Apply(t, s, u)
  {
    match u
    case OnArray(v) => IterArray(t, s, v)
    case OnObject(v) => IterObject(t, s, v)
  }

  predicate IsOpening(v: Value) { v.kind.SjArray? || v.kind.SjObject? }

  /** Where a client is after an iterator call: behind the container if it has ended, and inside the
      value it got if that is one. */
  function Moved(stack: Stack, v: Value, step: Step): Stack {
    if !step.ok then Upto(stack, v.depth - 1)
    else Upto(stack, v.depth) + if IsOpening(step.val) then [step.val] else []
  }

  /** The client only iterates containers it is in, by their own kind. */
  predicate Typed(t: string, s: State, stack: Stack, uses: seq<Use>)
    requires s.cur <= |t|
    decreases |uses|
  {
    uses == [] ||
    (var u := uses[0];
     && u.v in stack && (u.OnArray? <==> u.v.kind.SjArray?)
     && Typed(t, Apply(t, s, u), Moved(stack, u.v, StepOf(t, s, u)), uses[1..]))
  }

  // ----- what is left of an open container -----

  predicate ElemsLeft(t: string, d: State, q: nat, e: Elems) {
    Ready(t, d, q) && WellFormedElems(e) && Has(t, q, PrintElems(e)) && Has(t, q + |PrintElems(e)|, "]")
  }

  predicate FieldsLeft(t: string, d: State, q: nat, f: Fields) {
    Ready(t, d, q) && WellFormedFields(f) && Has(t, q, PrintFields(f)) && Has(t, q + |PrintFields(f)|, "}")
  }

  /** The reader stands before the remaining text of the container `v`. */
  ghost predicate Before(t: string, d: State, v: Value) {
    && d.depth == v.depth && 0 < v.depth
    && ((v.kind.SjArray? && exists q, e :: ElemsLeft(t, d, q, e))
        || (v.kind.SjObject? && exists q, f :: FieldsLeft(t, d, q, f)))
  }

  /** Discarding to the depth of `v` leads there. */
  ghost predicate Inside(t: string, s: State, v: Value)
    requires s.cur <= |t|
  {
    v.depth <= s.depth && Before(t, Discard(t, s, v.depth), v)
  }

  ghost predicate AllInside(t: string, s: State, stack: Stack, base: int)
    requires s.cur <= |t|
  {
    s.fault == NoFault && Nested(stack) && forall w :: w in stack ==> base < w.depth && Inside(t, s, w)
  }

  /** Two readers that discard to the same place are inside the same containers. */
  lemma SameInside(t: string, s: State, s1: State, w: Value)
    requires s.cur <= |t| && s1.cur <= |t| && Inside(t, s, w) && w.depth <= s1.depth
    requires Discard(t, s1, w.depth) == Discard(t, s, w.depth)
    ensures Inside(t, s1, w)
  {
  }

  lemma DiscardHere(t: string, d: State)
    requires d.cur <= |t|
    ensures Discard(t, d, d.depth) == d
  {
  }

  /** A container just opened. */
  lemma OpenedInside(t: string, p: nat, c: Doc, depth: int)
    requires DocAt(t, p, c) && WellFormed(c) && 0 <= depth && (c.DArr? || c.DObj?)
    ensures var s := Opened(p, c, depth); s.cur <= |t| && Inside(t, s, Token(p, c, depth))
  {
    hide Has, PrintElems, PrintFields, WellFormedElems, WellFormedFields;
    HasBound(t, p, Print(c));
    var s := Opened(p, c, depth);
    match c
    case DArr(pad, elems) =>
      Bracketed(t, p, "[", pad, PrintElems(elems), "]");
      HasBound(t, p + 1 + |pad|, PrintElems(elems));
      assert ElemsLeft(t, s, p + 1 + |pad|, elems);
    case DObj(pad, fields) =>
      Bracketed(t, p, "{", pad, PrintFields(fields), "}");
      HasBound(t, p + 1 + |pad|, PrintFields(fields));
      assert FieldsLeft(t, s, p + 1 + |pad|, fields);
  }

  // ----- one call -----

  /** What a call on the container `v` from `d`, which stands before its remaining text, leaves. */
  ghost predicate StepsWell(t: string, d: State, v: Value, step: Step)
    requires d.cur <= |t|
  {
    && step.st.cur <= |t| && step.st.fault == NoFault
    && (forall outer :: outer < v.depth ==> Discard(t, step.st, outer) == Discard(t, d, outer))
    && (!step.ok ==> step.st.depth == v.depth - 1)
    && (step.ok ==> Inside(t, step.st, v))
    && (step.ok && IsOpening(step.val) ==> step.val.depth == v.depth + 1 && Inside(t, step.st, step.val))
  }

  lemma ArrayStep(t: string, d: State, v: Value, q: nat, e: Elems)
    requires d.cur <= |t| && 0 < v.depth == d.depth && v.kind.SjArray? && ElemsLeft(t, d, q, e)
    ensures StepsWell(t, d, v, IterArray(t, d, v))
  {
    hide Has, IterArray, Discard, Before, PrintElems, WellFormed, Ready, Print, Token, Opened, Erase, Closed, DocAt, TreeAt;
    if e.NoElems? {
      EmptyStep(t, d, v, q);
    } else {
      IterElem(t, d, q, e, v);
      WalkDoc(t, d, q, e.head, v.depth);
      var s2 := Closed(q, e.head, d.depth);
      assert ElemsLeft(t, s2, s2.cur + |e.gap|, e.tail);
      AfterValue(t, Opened(q, e.head, d.depth), s2, v);
      ValueInside(t, q, e.head, d.depth);
    }
  }

  lemma EmptyStep(t: string, d: State, v: Value, q: nat)
    requires d.cur <= |t| && 0 < v.depth == d.depth && v.kind.SjArray? && ElemsLeft(t, d, q, NoElems)
    ensures StepsWell(t, d, v, IterArray(t, d, v))
  {
    hide Has, Discard, Ready, Before;
    NoElemsText();
    hide Read;
    ReadClose(t, d, q, "]");
    DiscardHere(t, d);
    HasBound(t, q, "]");
    forall outer | outer < v.depth ensures Discard(t, IterArray(t, d, v).st, outer) == Discard(t, d, outer) {
      WalkClose(t, d, q, "]", outer);
    }
  }

  /** The value of an element or field: its container goes on behind it. */
  lemma AfterValue(t: string, s1: State, s2: State, v: Value)
    requires s1.cur <= |t| && s2.cur <= |t| && Before(t, s2, v) && v.depth <= s1.depth
    requires Discard(t, s1, v.depth) == Discard(t, s2, v.depth)
    ensures Inside(t, s1, v)
  {
    DiscardHere(t, s2);
  }

  lemma ValueInside(t: string, p: nat, c: Doc, depth: int)
    requires DocAt(t, p, c) && WellFormed(c) && 0 <= depth
    ensures var v, s := Token(p, c, depth), Opened(p, c, depth);
      && s.cur <= |t| && s.fault == NoFault && depth <= s.depth
      && (IsOpening(v) ==> v.depth == depth + 1 && Inside(t, s, v))
  {
    hide Inside, WellFormed;
    HasBound(t, p, Print(c));
    if c.DArr? || c.DObj? { OpenedInside(t, p, c, depth); }
  }

  lemma ObjectStep(t: string, d: State, v: Value, q: nat, f: Fields)
    requires d.cur <= |t| && 0 < v.depth == d.depth && v.kind.SjObject? && FieldsLeft(t, d, q, f)
    ensures StepsWell(t, d, v, IterObject(t, d, v))
  {
    hide Has, IterObject, Discard, Before, PrintFields, WellFormed, Ready, Print, Token, Opened, Erase, DocAt, TreeAt, Slice;
    if f.NoFields? {
      EmptyObjectStep(t, d, v, q);
    } else {
      var p := q + 2 + |f.key| + |f.colon|;
      AfterField(t, q, f, d.depth);
      IterField(t, d, q, f, v);
      var s2 := Closed(p, f.val, d.depth);
      WalkDoc(t, Closed(q, DStr(f.key), d.depth), p, f.val, v.depth);
      assert FieldsLeft(t, s2, s2.cur + |f.gap|, f.rest);
      AfterValue(t, Opened(p, f.val, d.depth), s2, v);
      ValueInside(t, p, f.val, d.depth);
    }
  }

  lemma EmptyObjectStep(t: string, d: State, v: Value, q: nat)
    requires d.cur <= |t| && 0 < v.depth == d.depth && v.kind.SjObject? && FieldsLeft(t, d, q, NoFields)
    ensures StepsWell(t, d, v, IterObject(t, d, v))
  {
    hide Has, Discard, Ready, Before, Read;
    NoFieldsText();
    IterClose(t, d, q, v);
    HasBound(t, q, "}");
    forall outer | outer < v.depth ensures Discard(t, IterObject(t, d, v).st, outer) == Discard(t, d, outer) {
      WalkClose(t, d, q, "}", outer);
    }
  }

  /** A call on a container the client is in, wherever deeper the reader stands. */
  lemma UseStep(t: string, s: State, u: Use)
    requires s.cur <= |t| && Inside(t, s, u.v) && (u.OnArray? <==> u.v.kind.SjArray?)
    ensures var d := Discard(t, s, u.v.depth); StepsWell(t, d, u.v, StepOf(t, s, u))
  {
    hide IterArray, IterObject, Discard, StepsWell, ElemsLeft, FieldsLeft;
    var v := u.v;
    var d := Discard(t, s, v.depth);
    DiscardHere(t, d);
    SameFromDiscard(t, s, d, v);
    if v.kind.SjArray? {
      var q, e :| ElemsLeft(t, d, q, e);
      ArrayStep(t, d, v, q, e);
    } else {
      var q, f :| FieldsLeft(t, d, q, f);
      ObjectStep(t, d, v, q, f);
    }
  }

  /** After any call the client is still inside the containers it is in. */
  lemma StillInside(t: string, s: State, stack: Stack, u: Use, base: int)
    requires s.cur <= |t| && AllInside(t, s, stack, base) && u.v in stack && (u.OnArray? <==> u.v.kind.SjArray?)
    ensures AllInside(t, Apply(t, s, u), Moved(stack, u.v, StepOf(t, s, u)), base)
  {
    hide Discard, Before, StepOf, Apply;
    UseStep(t, s, u);
    var v, step := u.v, StepOf(t, s, u);
    var s1 := step.st;
    var next := Moved(stack, v, step);
    forall w | w in next ensures base < w.depth && Inside(t, s1, w) {
      if w in Upto(stack, v.depth) && w.depth < v.depth {
        DiscardTwice(t, s, v.depth, w.depth);
        SameInside(t, s, s1, w);
      } else if w in Upto(stack, v.depth) && step.ok {
        assert w == v;
      }
    }
  }

  // ----- whole runs -----

  lemma {:induction false} TypedNeverCut(t: string, s: State, stack: Stack, uses: seq<Use>, base: int)
    requires s.cur <= |t| && AllInside(t, s, stack, base) && Typed(t, s, stack, uses)
    ensures !Cut(t, s, uses) && Below(t, s, uses, base)
    decreases |uses|
  {
    hide CutAt, Apply, StepOf, Inside, Moved;
    if uses != [] {
      var u := uses[0];
      StillInside(t, s, stack, u, base);
      CutsOnce(t, s, u);
      InsideDepth(t, s, u.v);
      TypedNeverCut(t, Apply(t, s, u), Moved(stack, u.v, StepOf(t, s, u)), uses[1..], base);
    }
  }

  lemma InsideDepth(t: string, s: State, v: Value)
    requires s.cur <= |t| && Inside(t, s, v)
    ensures v.depth <= s.depth
  {
  }

  /** On a well-formed text, a client that has read a container and iterates it and the containers it
      gets out of it, each by its own kind, in any order and as far as it likes, does not change what
      comes next in any container around it. */
  lemma SiblingsOfText(t: string, s: State, p: nat, c: Doc, uses: seq<Use>, parent: Value)
    requires Ready(t, s, p) && DocAt(t, p, c) && WellFormed(c) && (c.DArr? || c.DObj?)
    requires 0 <= s.depth && parent.depth <= s.depth
    requires var (s1, v) := Read(t, s); Typed(t, s1, [v], uses)
    ensures var s1 := Read(t, s).0;
      var s2 := Run(t, s1, uses);
      && !Cut(t, s1, uses)
      && IterArray(t, s2, parent) == IterArray(t, s1, parent) && IterObject(t, s2, parent) == IterObject(t, s1, parent)
      && Entries(t, s2, parent) == Entries(t, s1, parent)
  {
    hide Read, IterArray, IterObject, Entries, Run, Cut, Inside, WellFormed, Print, Below;
    ReadDoc(t, s, p, c);
    OpenedInside(t, p, c, s.depth);
    var (s1, v) := Read(t, s);
    TypedNeverCut(t, s1, [v], uses, s.depth);
    BelowHigher(t, s1, uses, s.depth, parent.depth);
    SiblingIndependence(t, s1, uses, parent);
  }

  lemma {:induction false} BelowHigher(t: string, s: State, uses: seq<Use>, depth: int, higher: int)
    requires s.cur <= |t| && Below(t, s, uses, depth) && higher <= depth
    ensures Below(t, s, uses, higher)
    decreases |uses|
  {
    hide Apply;
    if uses != [] { BelowHigher(t, Apply(t, s, uses[0]), uses[1..], depth, higher); }
  }
}
