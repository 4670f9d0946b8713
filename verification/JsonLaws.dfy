/** What the cursor reads in a well-formed text is the tree the text was printed from. */
module JsonLaws {
  import opened Text
  import opened Cursor
  import opened Json
  import CursorLaws

  lemma {:induction false} SkipReady(t: string, s: State, p: nat)
    requires Ready(t, s, p) && (p == |t| || !GapByte(t[p]))
    ensures SkipSeps(t, s.cur) == p
    decreases p - s.cur
  {
    if s.cur < p { SkipReady(t, s.(cur := s.cur + 1), p); }
  }

  lemma {:induction false} NumEndAt(t: string, i: nat, e: nat)
    requires i <= e <= |t| && forall k :: i <= k < e ==> NumberByte(t[k])
    requires e == |t| || !NumberByte(t[e])
    ensures NumEnd(t, i) == e
    decreases e - i
  {
    if i < e { NumEndAt(t, i + 1, e); }
  }

  lemma {:induction false} StrEndAt(t: string, i: nat, raw: string)
    requires IsRaw(raw) && Has(t, i, raw + "\"")
    ensures StrEnd(t, i) == i + |raw|
    decreases |raw|
  {
    var w := raw + "\"";
    HasAt(t, i, w, 0);
    if raw != "" {
      var k := if raw[0] == '\\' then 2 else 1;
      assert w == w[..k] + (raw[k..] + "\"");
      HasSplit(t, i, w[..k], raw[k..] + "\"");
      StrEndAt(t, i + k, raw[k..]);
    }
  }

  lemma ReadWord(t: string, s: State, c: Doc)
    requires Has(t, s.cur, Print(c)) && (c.DNull? || c.DBool?) && s.fault == NoFault
    ensures ReadToken(t, s) == (Opened(s.cur, c, s.depth), Token(s.cur, c, s.depth))
  {
    HasAt(t, s.cur, Print(c), 0);
    if c == DBool(false) {
      assert t[s.cur..s.cur + 4][0] == 'f' != "null"[0];
      assert t[s.cur..s.cur + 4][0] == 'f' != "true"[0];
    }
  }

  lemma ReadNumber(t: string, s: State, lexeme: string)
    requires DocAt(t, s.cur, DNum(lexeme)) && IsNumber(lexeme) && s.fault == NoFault
    ensures ReadToken(t, s) == (Closed(s.cur, DNum(lexeme), s.depth), Token(s.cur, DNum(lexeme), s.depth))
  {
    hide StrEnd;
    var p := s.cur;
    HasAt(t, p, lexeme, 0);
    forall k | p <= k < p + |lexeme| ensures NumberByte(t[k]) { HasAt(t, p, lexeme, k - p); }
    NumEndAt(t, p, p + |lexeme|);
  }

  lemma ReadStr(t: string, s: State, raw: string)
    requires Has(t, s.cur, "\"" + raw + "\"") && IsRaw(raw) && s.fault == NoFault
    ensures ReadToken(t, s) == (Closed(s.cur, DStr(raw), s.depth), Token(s.cur, DStr(raw), s.depth))
  {
    hide NumEnd, IsRaw;
    var p := s.cur;
    assert "\"" + raw + "\"" == "\"" + (raw + "\"");
    HasSplit(t, p, "\"", raw + "\"");
    HasAt(t, p, "\"", 0);
    HasSplit(t, p + 1, raw, "\"");
    HasAt(t, p + 1 + |raw|, "\"", 0);
    StrEndAt(t, p + 1, raw);
  }

  lemma ReadOpening(t: string, s: State, c: Doc)
    requires Has(t, s.cur, Print(c)) && (c.DArr? || c.DObj?) && s.fault == NoFault
    ensures ReadToken(t, s) == (Opened(s.cur, c, s.depth), Token(s.cur, c, s.depth))
  {
    hide NumEnd, StrEnd, PrintElems, PrintFields;
    HasAt(t, s.cur, Print(c), 0);
  }

  /** Reading a text, after any separators, returns its first token. */
  lemma ReadDoc(t: string, s: State, p: nat, c: Doc)
    requires Ready(t, s, p) && DocAt(t, p, c) && WellFormed(c)
    ensures Read(t, s) == (Opened(p, c, s.depth), Token(p, c, s.depth))
  {
    hide ReadToken;
    HasAt(t, p, Print(c), 0);
    SkipReady(t, s, p);
    var at := s.(cur := p);
    match c
    case DNum(lexeme) => ReadNumber(t, at, lexeme);
    case DStr(raw) => ReadStr(t, at, raw);
    case DNull | DBool(_) => ReadWord(t, at, c);
    case _ => ReadOpening(t, at, c);
  }

  /** The closing bracket of a container, after any separators. */
  lemma ReadClose(t: string, s: State, p: nat, bracket: string)
    requires Ready(t, s, p) && (bracket == "]" || bracket == "}") && Has(t, p, bracket) && 0 < s.depth
    ensures Read(t, s) == (State(p + 1, s.depth - 1, NoFault), Value(SjEnd, p, p + 1, 0))
  {
    HasAt(t, p, bracket, 0);
    SkipReady(t, s, p);
  }

  // ----- walking a text -----

  /** Reading a text and then walking it, or discarding what is left of it, ends right after it;
      the walk has seen its tree. */
  lemma {:induction false} WalkDoc(t: string, s: State, p: nat, c: Doc, outer: int)
    requires Ready(t, s, p) && DocAt(t, p, c) && WellFormed(c) && 0 <= s.depth && outer <= s.depth
    ensures Read(t, s) == (Opened(p, c, s.depth), Token(p, c, s.depth))
    ensures TreeAt(t, Opened(p, c, s.depth), Token(p, c, s.depth)) == (Closed(p, c, s.depth), Erase(c))
    ensures Discard(t, Opened(p, c, s.depth), outer) == Discard(t, Closed(p, c, s.depth), outer)
    decreases c, 1
  {
    hide Read, Has, TreeAt, ItemsAt, MembersAt, Discard, Erase;
    ReadDoc(t, s, p, c);
    match c
    case DArr(pad, elems) =>
      Bracketed(t, p, "[", pad, PrintElems(elems), "]");
      WalkElems(t, Opened(p, c, s.depth), p + 1 + |pad|, elems, Token(p, c, s.depth), outer);
      WalkArr(t, p, c, s.depth);
    case DObj(pad, fields) =>
      Bracketed(t, p, "{", pad, PrintFields(fields), "}");
      WalkFields(t, Opened(p, c, s.depth), p + 1 + |pad|, fields, Token(p, c, s.depth), outer);
      WalkObj(t, p, c, s.depth);
    case _ => WalkScalar(t, p, c, s.depth);
  }

  lemma WalkArr(t: string, p: nat, c: Doc, depth: int)
    requires c.DArr? && DocAt(t, p, c)
    requires ItemsAt(t, Opened(p, c, depth), Token(p, c, depth))
             == (State(p + 1 + |c.pad| + |PrintElems(c.elems)| + 1, depth, NoFault), EraseElems(c.elems))
    ensures TreeAt(t, Opened(p, c, depth), Token(p, c, depth)) == (Closed(p, c, depth), Erase(c))
  {
    hide ItemsAt, PrintElems, EraseElems, Has;
  }

  lemma WalkObj(t: string, p: nat, c: Doc, depth: int)
    requires c.DObj? && DocAt(t, p, c)
    requires MembersAt(t, Opened(p, c, depth), Token(p, c, depth))
             == (State(p + 1 + |c.pad| + |PrintFields(c.fields)| + 1, depth, NoFault), EraseFields(c.fields))
    ensures TreeAt(t, Opened(p, c, depth), Token(p, c, depth)) == (Closed(p, c, depth), Erase(c))
  {
    hide MembersAt, PrintFields, EraseFields, Has;
  }

  lemma SliceStr(t: string, p: nat, raw: string)
    requires Has(t, p, "\"" + raw + "\"")
    ensures p + 1 + |raw| <= |t| && t[p + 1..p + 1 + |raw|] == raw
  {
    HasSplit(t, p, "\"" + raw, "\"");
    HasSplit(t, p, "\"", raw);
  }

  lemma WalkScalar(t: string, p: nat, c: Doc, depth: int)
    requires DocAt(t, p, c) && !c.DArr? && !c.DObj?
    ensures TreeAt(t, Opened(p, c, depth), Token(p, c, depth)) == (Closed(p, c, depth), Erase(c))
  {
    if c.DStr? { SliceStr(t, p, c.raw); }
  }

  lemma Bracketed(t: string, p: nat, open: string, pad: string, body: string, close: string)
    requires Has(t, p, open + pad + body + close) && IsGap(pad)
    ensures Has(t, p + |open|, pad) && Has(t, p + |open| + |pad|, body) && Has(t, p + |open + pad + body|, close)
    ensures forall i :: p + |open| <= i < p + |open| + |pad| ==> GapByte(t[i])
  {
    HasSplit(t, p, open + pad + body, close);
    HasSplit(t, p, open + pad, body);
    HasSplit(t, p, open, pad);
    GapAt(t, p + |open|, pad);
  }

  lemma GapAt(t: string, p: nat, gap: string)
    requires Has(t, p, gap) && IsGap(gap)
    ensures forall i :: p <= i < p + |gap| ==> GapByte(t[i])
  {
    forall i | p <= i < p + |gap| ensures GapByte(t[i]) { HasAt(t, p, gap, i - p); }
  }

  /** An element, the gap after it and what follows. */
  lemma SplitElem(t: string, q: nat, e: Elems)
    requires e.Elem? && WellFormedElems(e) && Has(t, q, PrintElems(e)) && Has(t, q + |PrintElems(e)|, "]")
    ensures var p1 := q + |Print(e.head)|;
      && DocAt(t, q, e.head) && Has(t, p1 + |e.gap|, PrintElems(e.tail))
      && forall i :: p1 <= i < p1 + |e.gap| ==> GapByte(t[i])
  {
    var p1 := q + |Print(e.head)|;
    HasSplit(t, q, Print(e.head) + e.gap, PrintElems(e.tail));
    HasSplit(t, q, Print(e.head), e.gap);
    GapAt(t, p1, e.gap);
    if e.head.DNum? && e.gap == "" {
      assert PrintElems(e.tail) == "";
      HasAt(t, p1, "]", 0);
    }
  }

  /** One step of the array iterator over a text, and the reader after the element. */
  lemma IterElem(t: string, s: State, q: nat, e: Elems, arr: Value)
    requires Ready(t, s, q) && WellFormedElems(e) && Has(t, q, PrintElems(e)) && Has(t, q + |PrintElems(e)|, "]")
    requires 0 < s.depth == arr.depth && e.Elem?
    ensures var tok, s1 := Token(q, e.head, s.depth), Opened(q, e.head, s.depth);
      var s2 := Closed(q, e.head, s.depth);
      var q2 := s2.cur + |e.gap|;
      && DocAt(t, q, e.head) && IterArray(t, s, arr) == Step(s1, true, tok, tok)
      && (forall outer :: outer < s.depth ==> Discard(t, s, outer) == Discard(t, s1, outer))
      && s2.depth == s.depth && q + |PrintElems(e)| == q2 + |PrintElems(e.tail)|
      && Ready(t, s2, q2) && Has(t, q2, PrintElems(e.tail)) && Has(t, q2 + |PrintElems(e.tail)|, "]")
  {
    hide Read, Has, WellFormed, Print;
    SplitElem(t, q, e);
    ReadDoc(t, s, q, e.head);
    HasBound(t, q + |Print(e.head)| + |e.gap|, PrintElems(e.tail));
  }

  lemma {:induction false} WalkElems(t: string, s: State, q: nat, e: Elems, arr: Value, outer: int)
    requires Ready(t, s, q) && WellFormedElems(e) && Has(t, q, PrintElems(e)) && Has(t, q + |PrintElems(e)|, "]")
    requires 0 < s.depth == arr.depth && outer < s.depth
    ensures var done := State(q + |PrintElems(e)| + 1, s.depth - 1, NoFault);
      && ItemsAt(t, s, arr) == (done, EraseElems(e))
      && Discard(t, s, outer) == Discard(t, done, outer)
    decreases e, 0
  {
    hide Has, IterArray, TreeAt, Discard, ItemsAt, PrintElems, WellFormed, Ready, Print, Token, Opened, Erase, Closed, DocAt;
    if e.NoElems? {
      NoElemsText();
      ItemsClose(t, s, q, arr);
      WalkClose(t, s, q, "]", outer);
    } else {
      IterElem(t, s, q, e, arr);
      WalkDoc(t, s, q, e.head, outer);
      var s2 := Closed(q, e.head, s.depth);
      WalkElems(t, s2, s2.cur + |e.gap|, e.tail, arr, outer);
      ItemsStep(t, s, arr);
    }
  }

  lemma NoElemsText()
    ensures PrintElems(NoElems) == ""
  {
  }

  lemma ItemsClose(t: string, s: State, q: nat, arr: Value)
    requires Ready(t, s, q) && Has(t, q, "]") && 0 < s.depth == arr.depth
    ensures ItemsAt(t, s, arr) == (State(q + 1, s.depth - 1, NoFault), NoItems)
  {
    hide Read, Has;
    ReadClose(t, s, q, "]");
  }

  lemma ItemsStep(t: string, s: State, arr: Value)
    requires s.cur <= |t| && IterArray(t, s, arr).ok
    ensures var step := IterArray(t, s, arr);
      var (s1, head) := TreeAt(t, step.st, step.val);
      var (s2, tail) := ItemsAt(t, s1, arr);
      ItemsAt(t, s, arr) == (s2, Item(head, tail))
  {
    hide IterArray, TreeAt;
  }

  /** A field: its key, the gap after the key, its value, the gap after it and what follows. */
  lemma SplitField(t: string, q: nat, f: Fields)
    requires f.Field? && WellFormedFields(f) && Has(t, q, PrintFields(f)) && Has(t, q + |PrintFields(f)|, "}")
    ensures var k1 := q + 2 + |f.key|;
      var p := k1 + |f.colon|;
      var p1 := p + |Print(f.val)|;
      && DocAt(t, q, DStr(f.key)) && DocAt(t, p, f.val) && Has(t, p1 + |f.gap|, PrintFields(f.rest))
      && (forall i :: k1 <= i < p ==> GapByte(t[i])) && (forall i :: p1 <= i < p1 + |f.gap| ==> GapByte(t[i]))
  {
    var key := "\"" + f.key + "\"";
    var k1 := q + |key|;
    var p1 := k1 + |f.colon| + |Print(f.val)|;
    HasSplit(t, q, key + f.colon + Print(f.val) + f.gap, PrintFields(f.rest));
    HasSplit(t, q, key + f.colon + Print(f.val), f.gap);
    HasSplit(t, q, key + f.colon, Print(f.val));
    HasSplit(t, q, key, f.colon);
    GapAt(t, k1, f.colon);
    GapAt(t, p1, f.gap);
    if f.val.DNum? && f.gap == "" {
      assert PrintFields(f.rest) == "";
      HasAt(t, p1, "}", 0);
    }
  }

  /** One step of the object iterator over a text. */
  lemma IterField(t: string, s: State, q: nat, f: Fields, obj: Value)
    requires Ready(t, s, q) && WellFormedFields(f) && Has(t, q, PrintFields(f)) && Has(t, q + |PrintFields(f)|, "}")
    requires 0 < s.depth == obj.depth && f.Field?
    ensures var p := q + 2 + |f.key| + |f.colon|;
      var key, val, s1 := Token(q, DStr(f.key), s.depth), Token(p, f.val, s.depth), Opened(p, f.val, s.depth);
      && IterObject(t, s, obj) == Step(s1, true, key, val)
      && key.end <= |t| && Slice(t, key) == f.key
      && Ready(t, Closed(q, DStr(f.key), s.depth), p) && DocAt(t, p, f.val)
      && forall outer :: outer < s.depth ==> Discard(t, s, outer) == Discard(t, s1, outer)
  {
    hide Read, Has;
    SplitField(t, q, f);
    var p := q + 2 + |f.key| + |f.colon|;
    HasBound(t, p, Print(f.val));
    ReadDoc(t, s, q, DStr(f.key));
    SliceStr(t, q, f.key);
    ReadDoc(t, Closed(q, DStr(f.key), s.depth), p, f.val);
  }

  lemma HasBound(t: string, p: nat, w: string)
    ensures Has(t, p, w) ==> p + |w| <= |t|
  {
  }

  /** The reader after a field's value is ready for the fields that follow. */
  lemma AfterField(t: string, q: nat, f: Fields, depth: int)
    requires f.Field? && WellFormedFields(f) && Has(t, q, PrintFields(f)) && Has(t, q + |PrintFields(f)|, "}")
    ensures var p := q + 2 + |f.key| + |f.colon|;
      var p1 := p + |Print(f.val)|;
      && q + |PrintFields(f)| == p1 + |f.gap| + |PrintFields(f.rest)|
      && Has(t, p1 + |f.gap|, PrintFields(f.rest)) && Has(t, p1 + |f.gap| + |PrintFields(f.rest)|, "}")
      && Ready(t, Closed(p, f.val, depth), p1 + |f.gap|) && Closed(p, f.val, depth).depth == depth
  {
    hide Has, Print, WellFormed;
    SplitField(t, q, f);
    HasBound(t, q + 2 + |f.key| + |f.colon| + |Print(f.val)| + |f.gap|, PrintFields(f.rest));
  }

  lemma WalkClose(t: string, s: State, q: nat, bracket: string, outer: int)
    requires Ready(t, s, q) && (bracket == "]" || bracket == "}") && Has(t, q, bracket) && 0 < s.depth && outer < s.depth
    ensures Discard(t, s, outer) == Discard(t, State(q + 1, s.depth - 1, NoFault), outer)
  {
    hide Read;
    ReadClose(t, s, q, bracket);
  }

  lemma {:induction false} WalkFields(t: string, s: State, q: nat, f: Fields, obj: Value, outer: int)
    requires Ready(t, s, q) && WellFormedFields(f) && Has(t, q, PrintFields(f)) && Has(t, q + |PrintFields(f)|, "}")
    requires 0 < s.depth == obj.depth && outer < s.depth
    ensures var done := State(q + |PrintFields(f)| + 1, s.depth - 1, NoFault);
      && MembersAt(t, s, obj) == (done, EraseFields(f))
      && Discard(t, s, outer) == Discard(t, done, outer)
    decreases f, 0
  {
    hide Has, IterObject, TreeAt, Discard, MembersAt, PrintFields, WellFormed, Ready, Print, Token, Opened, Slice, Erase;
    if f.NoFields? {
      NoFieldsText();
      EntriesClose(t, s, q, obj);
      WalkClose(t, s, q, "}", outer);
    } else {
      AfterField(t, q, f, s.depth);
      IterField(t, s, q, f, obj);
      var p := q + 2 + |f.key| + |f.colon|;
      WalkDoc(t, Closed(q, DStr(f.key), s.depth), p, f.val, outer);
      var s2 := Closed(p, f.val, s.depth);
      WalkFields(t, s2, s2.cur + |f.gap|, f.rest, obj, outer);
      MembersStep(t, s, obj);
    }
  }

  lemma MembersStep(t: string, s: State, obj: Value)
    requires s.cur <= |t| && IterObject(t, s, obj).ok
    ensures var step := IterObject(t, s, obj);
      var (s1, val) := TreeAt(t, step.st, step.val);
      var (s2, rest) := MembersAt(t, s1, obj);
      MembersAt(t, s, obj) == (s2, Member(Slice(t, step.key), val, rest))
  {
    hide IterObject, TreeAt;
  }

  lemma IterClose(t: string, s: State, q: nat, obj: Value)
    requires Ready(t, s, q) && Has(t, q, "}") && 0 < s.depth == obj.depth
    ensures var r := IterObject(t, s, obj); !r.ok && r.st == State(q + 1, s.depth - 1, NoFault)
  {
    hide Read;
    ReadClose(t, s, q, "}");
  }

  /** The object iterator alone, without walking into the values, meets exactly the fields. */
  lemma {:induction false} EntriesOfFields(t: string, s: State, q: nat, f: Fields, obj: Value)
    requires Ready(t, s, q) && WellFormedFields(f) && Has(t, q, PrintFields(f)) && Has(t, q + |PrintFields(f)|, "}")
    requires 0 < s.depth == obj.depth
    ensures Entries(t, s, obj) == FieldEntries(q, f, s.depth)
    ensures AfterEntries(t, s, obj) == State(q + |PrintFields(f)| + 1, s.depth - 1, NoFault)
    decreases f
  {
    hide Discard, Has, IterObject, Entries, AfterEntries, FieldEntries, PrintFields, WellFormed, Ready, Print, Token,
         Opened, Slice, TreeAt, Erase;
    FieldEntriesStep(q, f, s.depth);
    if f.NoFields? {
      NoFieldsText();
      EntriesClose(t, s, q, obj);
    } else {
      AfterField(t, q, f, s.depth);
      IterField(t, s, q, f, obj);
      var p := q + 2 + |f.key| + |f.colon|;
      var s2 := Closed(p, f.val, s.depth);
      WalkDoc(t, Closed(q, DStr(f.key), s.depth), p, f.val, s.depth);
      EntriesStep(t, s, s2, obj);
      assert s2.depth == s.depth == obj.depth && s2.cur == p + |Print(f.val)|;
      EntriesOfFields(t, s2, s2.cur + |f.gap|, f.rest, obj);
    }
  }

  lemma NoFieldsText()
    ensures PrintFields(NoFields) == ""
  {
  }

  lemma EntriesClose(t: string, s: State, q: nat, obj: Value)
    requires Ready(t, s, q) && Has(t, q, "}") && 0 < s.depth == obj.depth
    ensures Entries(t, s, obj) == [] && AfterEntries(t, s, obj) == State(q + 1, s.depth - 1, NoFault)
    ensures MembersAt(t, s, obj) == (State(q + 1, s.depth - 1, NoFault), NoMembers)
  {
    hide Has, Ready, IterObject;
    IterClose(t, s, q, obj);
  }

  lemma FieldEntriesStep(q: nat, f: Fields, depth: int)
    ensures FieldEntries(q, f, depth) == if f.NoFields? then [] else
      var p := q + 2 + |f.key| + |f.colon|;
      [(Token(q, DStr(f.key), depth), Token(p, f.val, depth))]
      + FieldEntries(p + |Print(f.val)| + |f.gap|, f.rest, depth)
  {
  }

  lemma EntriesStep(t: string, s: State, s2: State, obj: Value)
    requires s.cur <= |t| && s2.cur <= |t| && IterObject(t, s, obj).ok
    requires Discard(t, IterObject(t, s, obj).st, obj.depth) == Discard(t, s2, obj.depth)
    ensures var step := IterObject(t, s, obj);
      && Entries(t, s, obj) == [(step.key, step.val)] + Entries(t, s2, obj)
      && AfterEntries(t, s, obj) == AfterEntries(t, s2, obj)
  {
    hide IterObject;
    CursorLaws.SameFromDiscard(t, IterObject(t, s, obj).st, s2, obj);
  }

  /** Reading an object text and iterating it meets exactly its fields, and ends without a fault. */
  lemma EntriesOfObject(t: string, s: State, p: nat, c: Doc)
    requires Ready(t, s, p) && DocAt(t, p, c) && WellFormed(c) && c.DObj? && 0 <= s.depth
    ensures var (s1, v) := Read(t, s);
      && v == Token(p, c, s.depth)
      && Entries(t, s1, v) == FieldEntries(p + 1 + |c.pad|, c.fields, s.depth + 1)
      && AfterEntries(t, s1, v).fault == NoFault
  {
    hide Read, Has;
    ReadDoc(t, s, p, c);
    Bracketed(t, p, "{", c.pad, PrintFields(c.fields), "}");
    EntriesOfFields(t, Opened(p, c, s.depth), p + 1 + |c.pad|, c.fields, Token(p, c, s.depth));
  }

  /** Meaning of a text: whatever the separators, and whatever follows, the cursor sees the tree. */
  lemma TreeOfText(lead: string, c: Doc, trail: string)
    requires IsGap(lead) && WellFormed(c) && (c.DNum? && trail != "" ==> !NumberByte(trail[0]))
    ensures TreeOf(lead + Print(c) + trail) == Erase(c)
    ensures !Read(lead + Print(c) + trail, State(0, 0, NoFault)).1.kind.SjError?
  {
    hide Read;
    var t := lead + Print(c) + trail;
    HasSelf(lead, Print(c), trail);
    assert DocAt(t, |lead|, c);
    WalkDoc(t, State(0, 0, NoFault), |lead|, c, 0);
  }
}
