/** Requests that are cut off: a prefix of a well-formed request parses if and only if it reaches beyond the
    first token of its first member's value. */
module Truncation {
  import opened Options
  import opened Text
  import opened Cursor
  import opened Json
  import opened JsonLaws
  import opened Tokens
  import opened Odoo
  import opened Mcp
  import opened Response
  import opened Answers

  lemma {:induction false} GapRead(u: string, i: nat, j: nat, depth: int)
    requires i <= j <= |u| && forall m :: i <= m < j ==> GapByte(u[m])
    ensures Read(u, State(i, depth, NoFault)) == Read(u, State(j, depth, NoFault))
    decreases j - i
  {
    hide Read;
    if i < j {
      SeparatorSkipped(u, i, depth);
      GapRead(u, i + 1, j, depth);
    }
  }

  /** A prefix holds what the text holds, as far as it goes. */
  lemma PrefixGap(t: string, k: nat, i: nat, j: nat)
    requires i <= j <= |t| && k <= |t| && i <= k && forall m :: i <= m < j ==> GapByte(t[m])
    ensures var e := if k < j then k else j; forall m :: i <= m < e ==> GapByte(t[..k][m])
  {
  }

  /** A gap and what comes behind it: the end, if the prefix ends in the gap. */
  lemma PrefixSkips(t: string, k: nat, i: nat, j: nat, depth: int)
    requires i <= j <= |t| && i <= k <= |t| && forall m :: i <= m < j ==> GapByte(t[m])
    ensures var u := t[..k];
      var r := Read(u, State(i, depth, NoFault));
      if k <= j then r.1.kind.SjError? && r.0.fault != NoFault else r == Read(u, State(j, depth, NoFault))
  {
    hide Read;
    var u := t[..k];
    PrefixGap(t, k, i, j);
    if k <= j {
      GapRead(u, i, k, depth);
      NothingLeft(u, depth);
    } else {
      GapRead(u, i, j, depth);
    }
  }

  /** A string token is read exactly when its closing quote is there. */
  lemma PrefixString(t: string, k: nat, q: nat, raw: string, depth: int)
    requires Has(t, q, "\"" + raw + "\"") && IsRaw(raw) && q < k <= |t|
    ensures var r := Read(t[..k], State(q, depth, NoFault));
      var e := q + 2 + |raw|;
      if e <= k then r == (State(e, depth, NoFault), Value(SjString, q + 1, e - 1, 0)) else r.1.kind.SjError? && r.0.fault != NoFault
  {
    hide Read, IsRaw, StringAt, Has;
    var u, e := t[..k], q + 1 + |raw|;
    HasAt(t, q, "\"" + raw + "\"", 0);
    WholeString(t, q, raw);
    StringRead(u, q, depth);
    StringIn(t, k, q, e);
    forall e1: nat | StringAt(u, q, e1) ensures e1 == e {
      StringIn(t, k, q, e1);
      StringEnds(t, q, e1);
      StringEnds(t, q, e);
    }
  }

  lemma StringIn(t: string, k: nat, q: nat, e: nat)
    requires k <= |t|
    ensures StringAt(t[..k], q, e) <==> e < k && StringAt(t, q, e)
  {
    hide IsRaw;
    if q < e < k { assert t[..k][q + 1..e] == t[q + 1..e]; }
  }

  lemma WholeString(t: string, q: nat, raw: string)
    requires Has(t, q, "\"" + raw + "\"") && IsRaw(raw)
    ensures StringAt(t, q, q + 1 + |raw|)
  {
    SliceStr(t, q, raw);
    HasAt(t, q, "\"" + raw + "\"", 0);
    HasAt(t, q, "\"" + raw + "\"", 1 + |raw|);
  }

  /** A word is read exactly when all of it is there. */
  lemma PrefixWord(t: string, k: nat, q: nat, w: string, depth: int)
    requires (w == "null" || w == "true" || w == "false") && Has(t, q, w) && q < k <= |t|
    ensures var r := Read(t[..k], State(q, depth, NoFault));
      if q + |w| <= k then !r.1.kind.SjError? && r.0.fault == NoFault else r.1.kind.SjError? && r.0.fault != NoFault
  {
    hide Read;
    var u := t[..k];
    HasAt(t, q, w, 0);
    assert u[q] == t[q] == w[0];
    WordRead(u, q, depth);
    PrefixHas(u, q, w);
    if q + |w| <= k {
      assert u[q..q + |w|] == t[q..q + |w|];
    } else {
      OtherWord(t, k, q, w, "null");
      OtherWord(t, k, q, w, "true");
      OtherWord(t, k, q, w, "false");
      UnknownRead(u, q, depth);
    }
  }

  lemma OtherWord(t: string, k: nat, q: nat, w: string, other: string)
    requires (w == "null" || w == "true" || w == "false") && Has(t, q, w) && q < k <= |t| && k < q + |w|
    requires other == "null" || other == "true" || other == "false"
    ensures !(other <= t[..k][q..])
  {
    if other <= t[..k][q..] {
      assert other[0] == t[..k][q..][0] == t[q];
      HasAt(t, q, w, 0);
    }
  }

  /** How much of a value the cursor must see to read its first token. */
  function FirstToken(c: Doc): nat {
    match c
    case DNum(_) => 1
    case DArr(_, _) => 1
    case DObj(_, _) => 1
    case _ => |Print(c)|
  }

  lemma PrefixValue(t: string, k: nat, p: nat, c: Doc, depth: int)
    requires DocAt(t, p, c) && WellFormed(c) && p < k <= |t| && 0 < depth
    ensures var r := Read(t[..k], State(p, depth, NoFault));
      if p + FirstToken(c) <= k then !r.1.kind.SjError? && !r.1.kind.SjEnd? && r.0.fault == NoFault
      else r.1.kind.SjError? && r.0.fault != NoFault
  {
    hide Read;
    var u := t[..k];
    assert u[p] == t[p];
    match c
    case DStr(raw) => PrefixString(t, k, p, raw, depth);
    case DNum(lexeme) => HasAt(t, p, lexeme, 0); NumberRead(u, p, depth);
    case DArr(_, _) => HasAt(t, p, Print(c), 0); BracketRead(u, p, depth);
    case DObj(_, _) => HasAt(t, p, Print(c), 0); BracketRead(u, p, depth);
    case _ => PrefixWord(t, k, p, Print(c), depth); WordKind(u, p, depth, Print(c));
  }

  lemma WordKind(u: string, p: nat, depth: int, w: string)
    requires p < |u| && (w == "null" || w == "true" || w == "false") && u[p] == w[0]
    ensures !Read(u, State(p, depth, NoFault)).1.kind.SjEnd?
  {
    hide NumEnd, StrEnd, Has;
    assert SkipSeps(u, p) == p;
  }

  /** Where the first value of an object text that starts at `p` is written. */
  function ValueAt(p: nat, c: Doc): nat
    requires c.DObj? && c.fields.Field?
  {
    p + 1 + |c.pad| + 2 + |c.fields.key| + |c.fields.colon|
  }

  /** The first member of a prefix, behind the opening brace. */
  lemma PrefixMember(t: string, k: nat, p: nat, c: Doc, obj: Value)
    requires DocAt(t, p, c) && WellFormed(c) && c.DObj? && c.fields.Field? && p < k <= |t| && obj.depth == 1
    ensures var step := IterObject(t[..k], State(p + 1, 1, NoFault), obj);
      step.st.fault == NoFault <==> ValueAt(p, c) + FirstToken(c.fields.val) <= k
  {
    hide Read, FirstToken, Print, WellFormed, Has;
    var u, f := t[..k], c.fields;
    var q := p + 1 + |c.pad|;
    var q1 := q + 2 + |f.key|;
    var v := q1 + |f.colon|;
    FieldsIn(t, p, c);
    SplitField(t, q, f);
    KeyText(f.key);
    HasBound(t, q, "\"" + f.key + "\"");
    HasBound(t, v, Print(f.val));
    FirstTokenSome(f.val);
    PrefixSkips(t, k, p + 1, q, 1);
    if q < k {
      PrefixString(t, k, q, f.key, 1);
      if q1 <= k {
        PrefixSkips(t, k, q1, v, 1);
        if v < k { PrefixValue(t, k, v, f.val, 1); }
      }
    }
  }

  lemma KeyText(key: string)
    ensures Print(DStr(key)) == "\"" + key + "\""
  {
  }

  lemma FirstTokenSome(c: Doc)
    ensures 1 <= FirstToken(c)
  {
  }

  lemma FieldsIn(t: string, p: nat, c: Doc)
    requires DocAt(t, p, c) && WellFormed(c) && c.DObj?
    ensures var q := p + 1 + |c.pad|;
      && Has(t, q, PrintFields(c.fields)) && Has(t, q + |PrintFields(c.fields)|, "}") && WellFormedFields(c.fields)
      && p < |t| && t[p] == '{' && q <= |t| && forall i :: p + 1 <= i < q ==> GapByte(t[i])
  {
    HasAt(t, p, Print(c), 0);
    Bracketed(t, p, "{", c.pad, PrintFields(c.fields), "}");
  }

  /** A request with a member, cut off anywhere, parses if and only if it is cut off behind the first token
      of its first value; with more of it, what follows does not matter. */
  lemma PrefixParses(lead: string, root: Doc, trail: string, k: nat)
    requires IsGap(lead) && WellFormed(root) && root.DObj? && root.fields.Field?
    requires k <= |lead + Print(root) + trail|
    ensures var t := lead + Print(root) + trail;
      Parses(t[..k]) <==> ValueAt(|lead|, root) + FirstToken(root.fields.val) <= k
  {
    hide Read, FirstToken, Print, WellFormed, IterObject, Has;
    var t := lead + Print(root) + trail;
    var p, u := |lead|, t[..k];
    HasSelf(lead, Print(root), trail);
    LeadGap(lead, Print(root) + trail);
    assert t == lead + (Print(root) + trail);
    FieldsIn(t, p, root);
    FirstTokenSome(root.fields.val);
    PrefixSkips(t, k, 0, p, 0);
    if p < k {
      assert u[p] == t[p];
      BracketRead(u, p, 0);
      PrefixMember(t, k, p, root, Value(SjObject, p, p + 1, 1));
    }
  }

  lemma LeadGap(lead: string, rest: string)
    requires IsGap(lead)
    ensures forall i :: 0 <= i < |lead| ==> GapByte((lead + rest)[i])
  {
  }

  /** So a request that ends inside its first member, before its value can be read, is answered with a parse
      error. */
  lemma TruncatedRequest(lead: string, root: Doc, trail: string, k: nat, ctx: Option<Context>, tools: seq<Tool>)
    requires JsonSchemas(tools)
    requires IsGap(lead) && WellFormed(root) && root.DObj? && root.fields.Field?
    requires k <= |lead + Print(root) + trail| && k < ValueAt(|lead|, root) + FirstToken(root.fields.val)
    ensures var out := Handled((lead + Print(root) + trail)[..k], ctx, tools);
      out.sent == [] && TreeOf(out.reply) == FailureTree(JNull, "-32700", "Parse error")
  {
    hide Handled, TreeOf, FailureTree, JsonSchemas, Print, WellFormed, FirstToken, Parses;
    PrefixParses(lead, root, trail, k);
    ResponseSays((lead + Print(root) + trail)[..k], ctx, tools);
  }
}
