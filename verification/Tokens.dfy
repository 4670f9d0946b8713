/** What the cursor reads at each byte of any text, said without the cursor's own scanning functions. */
module Tokens {
  import opened Text
  import opened Cursor
  import opened Json
  import opened JsonLaws

  /** Separators are skipped, one by one. */
  lemma SeparatorSkipped(t: string, i: nat, depth: int)
    requires i < |t| && GapByte(t[i])
    ensures Read(t, State(i, depth, NoFault)) == Read(t, State(i + 1, depth, NoFault))
  {
  }

  /** Nothing is left. */
  lemma NothingLeft(t: string, depth: int)
    ensures Read(t, State(|t|, depth, NoFault)) == (State(|t|, depth, UnexpectedEof), Value(SjError, |t|, |t|, 0))
  {
  }

  /** The first quote that no backslash precedes, within a string body, ends it. */
  lemma {:induction false} StrEndRaw(t: string, i: nat)
    requires i <= |t| && StrEnd(t, i) < |t|
    ensures IsRaw(t[i..StrEnd(t, i)])
    decreases |t| - i
  {
    var e := StrEnd(t, i);
    if t[i] == '\\' {
      StrEndRaw(t, i + 2);
      assert t[i..e][2..] == t[i + 2..e];
    } else if t[i] != '"' {
      StrEndRaw(t, i + 1);
      assert t[i..e][1..] == t[i + 1..e];
    }
  }

  /** A string whose quotes are at `i` and `e`. */
  predicate StringAt(t: string, i: nat, e: nat) {
    i < e < |t| && t[i] == t[e] == '"' && IsRaw(t[i + 1..e])
  }

  lemma StringEnds(t: string, i: nat, e: nat)
    requires StringAt(t, i, e)
    ensures StrEnd(t, i + 1) == e
  {
    var raw := t[i + 1..e];
    assert t[i + 1..i + 1 + |raw + "\""|] == raw + "\"";
    StrEndAt(t, i + 1, raw);
  }

  /** A number runs from its first byte to the first byte that no number holds. */
  predicate NumberAt(t: string, i: nat, e: nat) {
    i < e <= |t| && (forall k :: i <= k < e ==> NumberByte(t[k])) && (e < |t| ==> !NumberByte(t[e]))
  }

  /** A number: its bytes are all that follow of those a number may hold. */
  lemma NumberRead(t: string, i: nat, depth: int)
    requires i < |t| && (t[i] == '-' || '0' <= t[i] <= '9')
    ensures var (s, v) := Read(t, State(i, depth, NoFault));
      NumberAt(t, i, v.end) && v == Value(SjNumber, i, v.end, 0) && s == State(v.end, depth, NoFault)
  {
    var e := NumEnd(t, i);
    assert SkipSeps(t, i) == i;
    forall k | i <= k < e ensures NumberByte(t[k]) { assert IsNumCont(t[k]); }
  }

  /** A string: it ends at its closing quote, if it has one. */
  lemma StringRead(t: string, i: nat, depth: int)
    requires i < |t| && t[i] == '"'
    ensures var (s, v) := Read(t, State(i, depth, NoFault));
      && (forall e: nat :: StringAt(t, i, e) ==> v == Value(SjString, i + 1, e, 0) && s == State(e + 1, depth, NoFault))
      && ((forall e: nat :: !StringAt(t, i, e)) ==> v.kind.SjError? && s.fault == UnclosedString)
  {
    hide IsRaw, NumEnd;
    assert SkipSeps(t, i) == i;
    var e0 := StrEnd(t, i + 1);
    if e0 < |t| {
      StrEndRaw(t, i + 1);
      assert StringAt(t, i, e0);
    }
    forall e: nat | StringAt(t, i, e) ensures e == e0 { StringEnds(t, i, e); }
  }

  /** Brackets: an opening one goes a level deeper, a closing one goes up, unless there is no level. */
  lemma BracketRead(t: string, i: nat, depth: int)
    requires i < |t| && 0 <= depth
    ensures var r := Read(t, State(i, depth, NoFault));
      && (t[i] == '{' ==> r == (State(i + 1, depth + 1, NoFault), Value(SjObject, i, i + 1, depth + 1)))
      && (t[i] == '[' ==> r == (State(i + 1, depth + 1, NoFault), Value(SjArray, i, i + 1, depth + 1)))
      && (t[i] == '}' || t[i] == ']' ==>
          if 0 < depth then r == (State(i + 1, depth - 1, NoFault), Value(SjEnd, i, i + 1, 0))
          else r.1.kind.SjError? && r.0.fault == if t[i] == '}' then StrayBrace else StrayBracket)
  {
    hide NumEnd, StrEnd, Has;
    assert !GapByte(t[i]) ==> SkipSeps(t, i) == i;
  }

  /** The three words. */
  lemma WordRead(t: string, i: nat, depth: int)
    requires i < |t|
    ensures var r := Read(t, State(i, depth, NoFault));
      && ("null" <= t[i..] ==> r == (State(i + 4, depth, NoFault), Value(SjNull, i, i + 4, 0)))
      && ("true" <= t[i..] ==> r == (State(i + 4, depth, NoFault), Value(SjBool, i, i + 4, 0)))
      && ("false" <= t[i..] ==> r == (State(i + 5, depth, NoFault), Value(SjBool, i, i + 5, 0)))
  {
    hide NumEnd, StrEnd;
    assert !GapByte(t[i]) ==> SkipSeps(t, i) == i;
    PrefixHas(t, i, "null");
    PrefixHas(t, i, "true");
    PrefixHas(t, i, "false");
  }

  lemma PrefixHas(t: string, i: nat, w: string)
    requires i <= |t|
    ensures w <= t[i..] <==> Has(t, i, w)
    ensures w <= t[i..] && w != "" ==> i < |t| && t[i] == w[0]
  {
    if Has(t, i, w) { assert t[i..][..|w|] == w; }
    if w <= t[i..] { assert t[i..i + |w|] == t[i..][..|w|] == w; }
  }

  /** Everything else is an unknown token, and the cursor stays in front of it. */
  lemma UnknownRead(t: string, i: nat, depth: int)
    requires i < |t| && !GapByte(t[i]) && t[i] != '-' && !('0' <= t[i] <= '9') && t[i] != '"'
    requires t[i] != '{' && t[i] != '}' && t[i] != '[' && t[i] != ']'
    requires !("null" <= t[i..]) && !("true" <= t[i..]) && !("false" <= t[i..])
    ensures Read(t, State(i, depth, NoFault)) == (State(i, depth, UnknownToken), Value(SjError, i, i, 0))
  {
    hide NumEnd, StrEnd;
    assert SkipSeps(t, i) == i;
    PrefixHas(t, i, "null");
    PrefixHas(t, i, "true");
    PrefixHas(t, i, "false");
  }
}
