/** The JSON cursor of sj.h: a position, a depth counter and a sticky fault over one buffer.
    These functions say what each call does to the reader; class `Readers.Reader` is the C code. */
module Cursor {
  import opened Text

  /** `SJ_*`. */
  datatype Kind = SjError | SjEnd | SjArray | SjObject | SjNumber | SjString | SjBool | SjNull

  /** The messages `sj_Reader.error` can point at. */
  datatype Fault = NoFault | UnexpectedEof | UnclosedString | StrayBrace | StrayBracket
                 | UnknownToken | UnexpectedObjectEnd

  /** `sj_Value`; `depth` is left unset by the C code except for containers, and is 0 here. */
  datatype Value = Value(kind: Kind, start: nat, end: nat, depth: int)

  /** The mutable part of `sj_Reader`. */
  datatype State = State(cur: nat, depth: int, fault: Fault)

  /** One step of an iterator: the reader afterwards, whether there was an entry, and the entry. */
  datatype Step = Step(st: State, ok: bool, key: Value, val: Value)

  // ----- tokens -----

  predicate IsSep(c: char) { c == ' ' || c == '\n' || c == '\r' || c == '\t' || c == ':' || c == ',' }

  predicate IsNumCont(c: char) { IsDigit(c) || c == 'e' || c == 'E' || c == '.' || c == '-' || c == '+' }

  function SkipSeps(t: string, i: nat): (j: nat)
    requires i <= |t|
    ensures i <= j <= |t|
    ensures j < |t| ==> !IsSep(t[j])
    ensures forall k :: i <= k < j ==> IsSep(t[k])
    decreases |t| - i
  {
    if i < |t| && IsSep(t[i]) then SkipSeps(t, i + 1) else i
  }

  function NumEnd(t: string, i: nat): (j: nat)
    requires i <= |t|
    ensures i <= j <= |t|
    ensures j < |t| ==> !IsNumCont(t[j])
    ensures forall k :: i <= k < j ==> IsNumCont(t[k])
    decreases |t| - i
  {
    if i < |t| && IsNumCont(t[i]) then NumEnd(t, i + 1) else i
  }

  /** The offset of the closing quote of a string whose body starts at `i`, or `|t|`. */
  function StrEnd(t: string, i: nat): (j: nat)
    requires i <= |t|
    ensures i <= j <= |t|
    ensures j < |t| ==> t[j] == '"'
    decreases |t| - i
  {
    if i == |t| || t[i] == '"' then i
    else if t[i] != '\\' then StrEnd(t, i + 1)
    else if i + 1 == |t| then |t|
    else StrEnd(t, i + 2)
  }

  function ErrorAt(cur: nat): Value { Value(SjError, cur, cur, 0) }

  function Fail(s: State, f: Fault): (State, Value) {
    (s.(fault := f), ErrorAt(s.cur))
  }

  /** The token at `s.cur`, which is not a separator. */
  function ReadToken(t: string, s: State): (r: (State, Value))
    requires s.cur < |t|
    ensures s.cur <= r.0.cur && (r.0.fault == NoFault ==> s.cur < r.0.cur)
  {
    var p := s.cur;
    var c := t[p];
    if c == '-' || IsDigit(c) then
      var e := NumEnd(t, p);
      (s.(cur := e), Value(SjNumber, p, e, 0))
    else if c == '"' then
      var e := StrEnd(t, p + 1);
      if e == |t| then Fail(s.(cur := e), UnclosedString)
      else (s.(cur := e + 1), Value(SjString, p + 1, e, 0))
    else if c == '{' || c == '[' then
      (s.(cur := p + 1, depth := s.depth + 1),
       Value(if c == '{' then SjObject else SjArray, p, p + 1, s.depth + 1))
    else if c == '}' || c == ']' then
      if s.depth - 1 < 0 then Fail(s.(depth := s.depth - 1), if c == '}' then StrayBrace else StrayBracket)
      else (s.(cur := p + 1, depth := s.depth - 1), Value(SjEnd, p, p + 1, 0))
    else if c == 'n' || c == 't' || c == 'f' then
      var kind := if c == 'n' then SjNull else SjBool;
      if Has(t, p, "null") || Has(t, p, "true") then (s.(cur := p + 4), Value(kind, p, p + 4, 0))
      else if Has(t, p, "false") then (s.(cur := p + 5), Value(kind, p, p + 5, 0))
      else Fail(s, UnknownToken)
    else Fail(s, UnknownToken)
  }

  /** `sj_read`. */
  function Read(t: string, s: State): (r: (State, Value))
    requires s.cur <= |t|
    ensures s.cur <= r.0.cur <= |t|
    ensures r.1.kind.SjError? <==> r.0.fault != NoFault
    ensures !r.1.kind.SjError? ==> s.cur < r.0.cur
    ensures r.1.start <= r.1.end <= r.0.cur && s.cur <= r.1.start
  {
    if s.fault != NoFault then (s, ErrorAt(s.cur))
    else
      var p := SkipSeps(t, s.cur);
      if p == |t| then Fail(s.(cur := p), UnexpectedEof) else ReadToken(t, s.(cur := p))
  }

  /** `sj__discard_until`. */
  function Discard(t: string, s: State, depth: int): (r: State)
    requires s.cur <= |t|
    ensures s.cur <= r.cur <= |t|
    ensures r.depth == depth || r.fault != NoFault
    ensures s.fault != NoFault ==> r == s
    decreases |t| - s.cur
  {
    if s.depth == depth then s
    else
      var (s1, v) := Read(t, s);
      if v.kind.SjError? then s1 else Discard(t, s1, depth)
  }

  /** `sj_iter_array`; `key` repeats `val`. */
  function IterArray(t: string, s: State, arr: Value): (r: Step)
    requires s.cur <= |t|
    ensures s.cur <= r.st.cur <= |t|
    ensures r.ok ==> s.cur < r.st.cur && r.st.fault == NoFault
    ensures r.val.start <= r.val.end <= r.st.cur
    ensures r.ok ==> !r.val.kind.SjError? && !r.val.kind.SjEnd?
  {
    var (s1, v) := Read(t, Discard(t, s, arr.depth));
    Step(s1, !v.kind.SjError? && !v.kind.SjEnd?, v, v)
  }

  /** `sj_iter_object`; `val` repeats `key` when it was not read. */
  function IterObject(t: string, s: State, obj: Value): (r: Step)
    requires s.cur <= |t|
    ensures s.cur <= r.st.cur <= |t|
    ensures r.ok ==> s.cur < r.st.cur && r.st.fault == NoFault
    ensures r.key.start <= r.key.end <= r.st.cur && r.val.start <= r.val.end <= r.st.cur
    ensures r.ok ==> !r.key.kind.SjError? && !r.key.kind.SjEnd? && !r.val.kind.SjError? && !r.val.kind.SjEnd?
  {
    var (s1, k) := Read(t, Discard(t, s, obj.depth));
    if k.kind.SjError? || k.kind.SjEnd? then Step(s1, false, k, k)
    else
      var (s2, v) := Read(t, s1);
      if v.kind.SjEnd? then Step(s2.(fault := UnexpectedObjectEnd), false, k, v)
      else Step(s2, !v.kind.SjError?, k, v)
  }

  /** All the entries `sj_iter_object` yields until it returns false. */
  function Entries(t: string, s: State, obj: Value): (r: seq<(Value, Value)>)
    requires s.cur <= |t|
    ensures forall i :: 0 <= i < |r| ==>
      r[i].0.start <= r[i].0.end <= |t| && r[i].1.start <= r[i].1.end <= |t|
    decreases |t| - s.cur
  {
    var step := IterObject(t, s, obj);
    if step.ok then [(step.key, step.val)] + Entries(t, step.st, obj) else []
  }

  /** The reader when `sj_iter_object` has returned false. */
  function AfterEntries(t: string, s: State, obj: Value): (r: State)
    requires s.cur <= |t|
    ensures s.cur <= r.cur <= |t|
    decreases |t| - s.cur
  {
    var step := IterObject(t, s, obj);
    if step.ok then AfterEntries(t, step.st, obj) else step.st
  }

  /** The bytes a value points at. */
  function Slice(t: string, v: Value): string
    requires v.start <= v.end <= |t|
  {
    t[v.start..v.end]
  }
}
