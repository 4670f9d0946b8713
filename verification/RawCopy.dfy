/** `sj_value_to_json` (mcp.c): copying the text of a value out of a request with a second bracket
    scanner that knows nothing of the cursor. */
module RawCopy {
  import opened Text
  import opened Cursor
  import opened CursorLaws
  import opened Escape

  predicate IsOpen(c: char) { c == '{' || c == '[' }

  predicate IsClose(c: char) { c == '}' || c == ']' }

  /** Where the scan loop stops. A backslash as the very last byte carries it one past the end. */
  function RawEnd(t: string, q: nat, depth: int, inStr: bool): (e: nat)
    ensures q <= |t| + 1 ==> q <= e <= |t| + 1
    decreases |t| - q
  {
    if q >= |t| then q
    else if inStr then
      if t[q] == '\\' then RawEnd(t, q + 2, depth, true) else RawEnd(t, q + 1, depth, t[q] != '"')
    else if t[q] == '"' then RawEnd(t, q + 1, depth, true)
    else if IsOpen(t[q]) then RawEnd(t, q + 1, depth + 1, false)
    else if IsClose(t[q]) then if depth - 1 == 0 then q + 1 else RawEnd(t, q + 1, depth - 1, false)
    else RawEnd(t, q + 1, depth, false)
  }

  /** The C string `sj_value_to_json` returns; the buffer behind `t` ends with a NUL. */
  function ValueJson(t: string, v: Value): string
    requires v.start <= v.end <= |t|
  {
    match v.kind
    case SjNull => "null"
    case SjBool => if v.end - v.start == 4 then "true" else "false"
    case SjNumber => CStr(Slice(t, v))
    case SjString => CStr("\"" + Requote(Slice(t, v)) + "\"")
    case SjArray | SjObject => CStr((t + "\0")[v.start..RawEnd(t, v.start, 0, false)])
    case SjEnd | SjError => "null"
  }

  /** The loop of `jbuf_sj_str`. */
  method RequoteSlice(t: string, start: nat, end: nat) returns (out: string)
    requires start <= end <= |t|
    ensures out == "\"" + Requote(t[start..end]) + "\""
  {
    hide Requote;
    out := "\"";
    var p := start;
    while p < end
      invariant start <= p <= end
      invariant out + Requote(t[p..end]) == "\"" + Requote(t[start..end])
    {
      RequoteStep(out, t[..end], p);
      assert t[..end][p..] == t[p..end] && t[..end][p + 1..] == t[p + 1..end];
      if t[p] == '"' || t[p] == '\\' {
        out := out + ['\\', t[p]];
      } else {
        out := out + [t[p]];
      }
      p := p + 1;
    }
    RequoteEnd(out);
    assert t[p..end] == "";
    out := out + "\"";
  }

  /** `sj_value_to_json`. */
  method ValueToJson(t: string, v: Value) returns (out: string)
    requires v.start <= v.end <= |t|
    ensures out == ValueJson(t, v)
  {
    hide Requote, CStr;
    if v.kind == SjNull { return "null"; }
    if v.kind == SjBool { return if v.end - v.start == 4 then "true" else "false"; }
    if v.kind == SjNumber { return CStr(t[v.start..v.end]); }
    if v.kind == SjString {
      var b := RequoteSlice(t, v.start, v.end);
      return CStr(b);
    }
    if v.kind == SjObject || v.kind == SjArray {
      var depth, inStr, q := 0, false, v.start;
      while q < |t|
        invariant v.start <= q <= |t| + 1
        invariant RawEnd(t, q, depth, inStr) == RawEnd(t, v.start, 0, false)
        decreases |t| - q
      {
        if inStr {
          if t[q] == '\\' { q := q + 1; } else if t[q] == '"' { inStr := false; }
        } else {
          if t[q] == '"' {
            inStr := true;
          } else if IsOpen(t[q]) {
            depth := depth + 1;
          } else if IsClose(t[q]) {
            depth := depth - 1;
            if depth == 0 { q := q + 1; return CStr((t + "\0")[v.start..q]); }
          }
        }
        q := q + 1;
      }
      return CStr((t + "\0")[v.start..q]);
    }
    return "null";
  }

  // ----- the two scanners agree -----

  predicate IsPlain(c: char) { c != '"' && !IsOpen(c) && !IsClose(c) }

  lemma {:induction false} ScanPlain(t: string, i: nat, j: nat, k: int)
    requires i <= j <= |t| && forall m :: i <= m < j ==> IsPlain(t[m])
    ensures RawEnd(t, i, k, false) == RawEnd(t, j, k, false)
    decreases j - i
  {
    if i < j { ScanPlain(t, i + 1, j, k); }
  }

  lemma {:induction false} ScanString(t: string, i: nat, k: int)
    requires i <= |t| && StrEnd(t, i) < |t|
    ensures RawEnd(t, i, k, true) == RawEnd(t, StrEnd(t, i) + 1, k, false)
    decreases |t| - i
  {
    if t[i] == '\\' {
      ScanString(t, i + 2, k);
    } else if t[i] != '"' {
      ScanString(t, i + 1, k);
    }
  }

  /** One token, seen by both scanners. */
  lemma ScanToken(t: string, s: State, k: int)
    requires s.cur <= |t| && s.fault == NoFault && Read(t, s).0.fault == NoFault
    ensures var (s1, v) := Read(t, s);
      RawEnd(t, s.cur, k, false) ==
        if v.kind.SjEnd? && k == 1 then s1.cur else RawEnd(t, s1.cur, k + s1.depth - s.depth, false)
  {
    hide ReadToken, RawEnd;
    var p := SkipSeps(t, s.cur);
    ScanPlain(t, s.cur, p, k);
    ScanAt(t, s.(cur := p), k);
  }

  lemma ScanAt(t: string, s: State, k: int)
    requires s.cur < |t| && s.fault == NoFault && ReadToken(t, s).0.fault == NoFault
    ensures var (s1, v) := ReadToken(t, s);
      RawEnd(t, s.cur, k, false) ==
        if v.kind.SjEnd? && k == 1 then s1.cur else RawEnd(t, s1.cur, k + s1.depth - s.depth, false)
  {
    var p := s.cur;
    var c := t[p];
    var s1 := ReadToken(t, s).0;
    if IsOpen(c) || IsClose(c) {
    } else if c == '"' {
      ScanString(t, p + 1, k);
    } else {
      hide RawEnd;
      if c == '-' || IsDigit(c) { ScanPlain(t, p, s1.cur, k); } else { ScanWord(t, p, s1.cur, k); }
    }
  }

  lemma ScanWord(t: string, p: nat, e: nat, k: int)
    requires (e == p + 4 && (Has(t, p, "null") || Has(t, p, "true"))) || (e == p + 5 && Has(t, p, "false"))
    ensures RawEnd(t, p, k, false) == RawEnd(t, e, k, false)
  {
    forall m | p <= m < e ensures IsPlain(t[m]) { assert t[m] == t[p..e][m - p]; }
    ScanPlain(t, p, e, k);
  }

  lemma {:induction false} ScanDiscard(t: string, s: State, outer: int)
    requires s.cur <= |t| && s.fault == NoFault && outer < s.depth && Discard(t, s, outer).fault == NoFault
    ensures RawEnd(t, s.cur, s.depth - outer, false) == Discard(t, s, outer).cur
    decreases |t| - s.cur
  {
    hide RawEnd, Read;
    ReadFacts(t, s);
    ScanToken(t, s, s.depth - outer);
    var s1 := Read(t, s).0;
    if s1.depth != outer { ScanDiscard(t, s1, outer); }
  }

  /** Whenever the cursor can discard a container to its close without a fault, the raw scan from
      the container's first byte stops at exactly that position. */
  lemma TwoScannersAgree(t: string, s: State)
    requires s.cur <= |t| && Read(t, s).1.kind in {SjArray, SjObject}
    ensures var (s1, v) := Read(t, s);
      var closed := Discard(t, s1, s.depth);
      closed.fault == NoFault ==> RawEnd(t, v.start, 0, false) == closed.cur
  {
    hide Read;
    ReadFacts(t, s);
    var (s1, v) := Read(t, s);
    if Discard(t, s1, s.depth).fault == NoFault { ScanDiscard(t, s1, s.depth); }
  }
}
