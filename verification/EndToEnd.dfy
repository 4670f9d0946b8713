/** What a request means, read off its JSON tree; and the proof that `mcp_handle`, which never
    builds a tree, answers and calls Odoo exactly so. */
module EndToEnd {
  import opened Options
  import opened Text
  import opened Cursor
  import opened Json
  import opened JsonLaws
  import opened JsonParts
  import opened RawCopy
  import opened Escape
  import opened XmlRpc
  import opened XmlRead
  import opened Odoo
  import opened Dispatch
  import opened Mcp

  // ----- the meaning of a request, on trees -----

  /** The value of the last member with that key. */
  function Get(m: Members, key: string): Option<Json> {
    match m
    case NoMembers => None
    case Member(k, v, rest) =>
      var later := Get(rest, key);
      if later.Some? then later else if k == key then Some(v) else None
  }

  /** The last string among the members with that key, as a C string. */
  function GetString(m: Members, key: string): Option<string> {
    match m
    case NoMembers => None
    case Member(k, v, rest) =>
      var later := GetString(rest, key);
      if later.Some? then later else if k == key && v.JStr? then Some(CStr(v.raw)) else None
  }

  /** A member passed on to Odoo: a top-level string has its backslashes doubled on the way. */
  function Passed(j: Json): Json {
    if j.JStr? then JStr(Requote(j.raw)) else j
  }

  /** The bytes of a value that the integer conversion looks at. */
  function Spelled(j: Json): string {
    match j
    case JNull => "null"
    case JBool(b) => if b then "true" else "false"
    case JNum(lexeme) => lexeme
    case JStr(raw) => raw
    case JArr(_) => "["
    case JObj(_) => "{"
  }

  function PassedOr(j: Option<Json>, other: Json): Json {
    if j.Some? then Passed(j.value) else other
  }

  function IntegerOr(j: Option<Json>, other: int): int {
    if j.Some? then Strtoll(Clip(Spelled(j.value), 31)) else other
  }

  function Strings(names: seq<string>): Items {
    if names == [] then NoItems else Item(JStr(names[0]), Strings(names[1..]))
  }

  function Array(names: seq<string>): Json { JArr(Strings(names)) }

  function OneItem(j: Json): Json { JArr(Item(j, NoItems)) }

  /** The trees an Odoo call carries; or a refusal. */
  datatype Plan = Refuse(msg: string) | Plan(model: string, name: string, args: Json, kwargs: Json)

  function SearchOptions(m: Members): Json {
    var order := Get(m, "order");
    JObj(Member("fields", PassedOr(Get(m, "fields"), Array(["id", "name"])),
         Member("limit", JNum(Dec(IntegerOr(Get(m, "limit"), 80))),
         Member("offset", JNum(Dec(IntegerOr(Get(m, "offset"), 0))),
         if order.Some? && order.value.JStr? then Member("order", Passed(order.value), NoMembers) else NoMembers))))
  }

  /** What the tools do with their arguments. No arguments make `create_record` call Odoo. */
  function PlanOf(tool: string, m: Members): Plan {
    var model := GetString(m, "model");
    var ids, values := Get(m, "record_ids"), Get(m, "values");
    if model.None? then Refuse("missing required field: model")
    else if tool == "search_read_records" then
      Plan(model.value, "search_read", OneItem(PassedOr(Get(m, "domain"), JArr(NoItems))), SearchOptions(m))
    else if tool == "get_model_fields" then
      Plan(model.value, "fields_get", OneItem(JArr(NoItems)),
        JObj(Member("attributes", PassedOr(Get(m, "attributes"), Array(["string", "type", "required"])), NoMembers)))
    else if tool == "create_record" then Refuse("values must be a non-empty object")
    else if tool == "update_record" then
      if ids.None? || values.None? then Refuse("missing required fields: record_ids, values")
      else Plan(model.value, "write", JArr(Item(Passed(ids.value), Item(Passed(values.value), NoItems))), JObj(NoMembers))
    else Refuse("unknown tool")
  }

  /** Carrying out a plan: exactly one body is posted, with the trees as XML-RPC parameters. */
  function CarryOut(plan: Plan, ctx: Option<Context>): Outcome {
    if plan.Refuse? then Outcome(ErrorReply(plan.msg), [])
    else if ctx.None? then Outcome(ErrorReply("no Odoo context"), [])
    else if ctx.value.uid < 0 then Outcome(TextReply(ODOO_ERROR), [])
    else
      var g := ctx.value.g;
      var body := CallEnvelope(ctx.value, plan.model, plan.name, XmlOf(plan.args, g), XmlOf(plan.kwargs, g));
      var resp := Received(ctx.value.post(body));
      Outcome(TextReply(if resp.Some? then resp.value else ODOO_ERROR), [body])
  }

  function IdOf(id: Option<Json>): string {
    match id
    case Some(JNum(lexeme)) => lexeme
    case Some(JStr(raw)) => Lit(Requote(raw))
    case _ => "null"
  }

  /** The plan of a tool call; None without a tool name. */
  function PlanOfCall(params: Members): Option<Plan> {
    var name, args := Get(params, "name"), Get(params, "arguments");
    if name.None? || !name.value.JStr? then None
    else
      var given := if args.Some? && args.value.JObj? then args.value.members else NoMembers;
      Some(PlanOf(CStr(Clip(name.value.raw, 63)), given))
  }

  function MeansCall(id: string, params: Option<Json>, ctx: Option<Context>): Outcome {
    if params.None? || !params.value.JObj? then Outcome(JrpcErr(id, -32602, "Invalid params"), [])
    else
      var plan := PlanOfCall(params.value.members);
      if plan.None? then Outcome(JrpcErr(id, -32602, "Invalid params: missing tool name"), [])
      else
        var out := CarryOut(plan.value, ctx);
        Outcome(JrpcOk(id, out.reply), out.sent)
  }

  /** The meaning of a request object. */
  function Means(m: Members, ctx: Option<Context>, tools: seq<Tool>): Outcome {
    var id, name := IdOf(Get(m, "id")), Get(m, "method");
    if name.None? || !name.value.JStr? then Outcome(JrpcErr(id, -32600, "Invalid Request"), [])
    else if name.value.raw == "initialize" then Outcome(JrpcOk(id, InitResult()), [])
    else if name.value.raw == "notifications/initialized" || name.value.raw == "initialized" then Outcome("", [])
    else if name.value.raw == "tools/list" then Outcome(JrpcOk(id, ToolsResult(tools)), [])
    else if name.value.raw == "tools/call" then MeansCall(id, Get(m, "params"), ctx)
    else Outcome(JrpcErr(id, -32601, "Method not found"), [])
  }

  // ----- NUL bytes -----

  /** No string or key of the tree holds a NUL byte. */
  predicate NulFreeTree(j: Json) {
    match j
    case JNull | JBool(_) | JNum(_) => true
    case JStr(raw) => NulFree(raw)
    case JArr(items) => NulFreeItems(items)
    case JObj(members) => NulFreeMembers(members)
  }

  predicate NulFreeItems(items: Items) {
    match items
    case NoItems => true
    case Item(head, tail) => NulFreeTree(head) && NulFreeItems(tail)
  }

  predicate NulFreeMembers(members: Members) {
    match members
    case NoMembers => true
    case Member(key, val, rest) => NulFree(key) && NulFreeTree(val) && NulFreeMembers(rest)
  }

  /** The plan does not reach Odoo, or nothing in its trees is cut on the way there. */
  predicate Whole(plan: Option<Plan>, ctx: Option<Context>) {
    plan.Some? && plan.value.Plan? && ctx.Some? && ctx.value.uid >= 0 ==>
      NulFreeTree(plan.value.args) && NulFreeTree(plan.value.kwargs)
  }

  /** The plan of a request, if it is a tool call. */
  function RequestPlan(m: Members): Option<Plan> {
    var params := Get(m, "params");
    if Get(m, "method") == Some(JStr("tools/call")) && params.Some? && params.value.JObj?
    then PlanOfCall(params.value.members) else None
  }

  /** Two outcomes of a plan are the same if the plan is whole, and post different bodies if it is
      not. */
  ghost predicate Agree(a: Outcome, b: Outcome, plan: Option<Plan>, ctx: Option<Context>) {
    && (Whole(plan, ctx) ==> a == b)
    && (!Whole(plan, ctx) && PlainDoubles(ctx.value.g, '\0') ==> a.sent != b.sent)
  }

  lemma GapNulFree(gap: string)
    requires IsGap(gap)
    ensures NulFree(gap)
  {
  }

  /** A text holds a NUL byte exactly when a string or key of its tree does. */
  lemma {:induction false} PrintNulFree(c: Doc)
    requires WellFormed(c)
    ensures NulFree(Print(c)) <==> NulFreeTree(Erase(c))
  {
    match c
    case DArr(pad, elems) =>
      PrintElemsNulFree(elems);
      BracketsNulFree("[", pad, PrintElems(elems), "]");
    case DObj(pad, fields) =>
      PrintFieldsNulFree(fields);
      BracketsNulFree("{", pad, PrintFields(fields), "}");
    case DStr(raw) => BracketsNulFree("\"", "", raw, "\"");
    case _ =>
  }

  lemma BracketsNulFree(open: string, pad: string, body: string, close: string)
    requires IsGap(pad) && NulFree(open) && NulFree(close)
    ensures NulFree(open + pad + body + close) <==> NulFree(body)
    ensures NulFree(open + body + close) <==> NulFree(body)
  {
    GapNulFree(pad);
    NulFreeConcat(open + pad + body, close);
    NulFreeConcat(open + pad, body);
    NulFreeConcat(open, pad);
    NulFreeConcat(open + body, close);
    NulFreeConcat(open, body);
  }

  lemma {:induction false} PrintElemsNulFree(e: Elems)
    requires WellFormedElems(e)
    ensures NulFree(PrintElems(e)) <==> NulFreeItems(EraseElems(e))
  {
    hide NulFree;
    match e
    case NoElems => assert NulFree("") by { GapNulFree(""); }
    case Elem(head, gap, tail) =>
      PrintNulFree(head);
      PrintElemsNulFree(tail);
      GapNulFree(gap);
      NulFreeConcat(Print(head) + gap, PrintElems(tail));
      NulFreeConcat(Print(head), gap);
  }

  lemma {:induction false} PrintFieldsNulFree(f: Fields)
    requires WellFormedFields(f)
    ensures NulFree(PrintFields(f)) <==> NulFreeMembers(EraseFields(f))
  {
    hide NulFree;
    match f
    case NoFields => assert NulFree("") by { GapNulFree(""); }
    case Field(key, colon, val, gap, rest) =>
      PrintNulFree(val);
      PrintFieldsNulFree(rest);
      GapNulFree(colon);
      GapNulFree(gap);
      var k := "\"" + key + "\"";
      BracketsNulFree("\"", "", key, "\"");
      NulFreeConcat(k + colon + Print(val) + gap, PrintFields(rest));
      NulFreeConcat(k + colon + Print(val), gap);
      NulFreeConcat(k + colon, Print(val));
      NulFreeConcat(k, colon);
  }

  // ----- entries and members -----

  /** `v` is what the cursor returned for the text `c`. */
  predicate At(t: string, v: Value, c: Doc) {
    var p := if v.kind.SjString? then v.start - 1 else v.start;
    0 <= p && DocAt(t, p, c) && WellFormed(c) && v == Token(p, c, v.depth - 1)
  }

  lemma AtFacts(t: string, v: Value, c: Doc)
    requires At(t, v, c)
    ensures v.start <= v.end <= |t| && Slice(t, v) == Spelled(Erase(c))
    ensures v.kind.SjString? <==> c.DStr?
    ensures v.kind.SjObject? <==> c.DObj?
    ensures v.kind.SjNumber? <==> c.DNum?
  {
    hide WellFormed;
    var p := if v.kind.SjString? then v.start - 1 else v.start;
    assert Has(t, p, Print(c));
    hide Has;
    match c
    case DStr(raw) => SliceStr(t, p, raw);
    case DArr(_, _) => FirstAt(t, p, Print(c));
    case DObj(_, _) => FirstAt(t, p, Print(c));
    case _ => AllAt(t, p, Print(c));
  }

  lemma FirstAt(t: string, p: nat, w: string)
    requires Has(t, p, w) && w != ""
    ensures p < |t| && t[p..p + 1] == w[..1]
  {
    HasAt(t, p, w, 0);
  }

  lemma AllAt(t: string, p: nat, w: string)
    requires Has(t, p, w)
    ensures p + |w| <= |t| && t[p..p + |w|] == w
  {
  }

  /** Fields written at `q`, with the bracket that closes them. */
  predicate FieldsAt(t: string, q: nat, f: Fields) {
    Has(t, q, PrintFields(f)) && Has(t, q + |PrintFields(f)|, "}") && WellFormedFields(f)
  }

  lemma {:induction false} LastCons(t: string, x: Entry, e: seq<Entry>, key: string)
    requires InText(t, [x] + e) && InText(t, e)
    ensures x.0.end <= |t| && x.0.start <= x.0.end && x.1.start <= x.1.end <= |t|
    ensures LastOf(t, [x] + e, key) ==
      if LastOf(t, e, key).Some? then LastOf(t, e, key) else if Slice(t, x.0) == key then Some(x.1) else None
    ensures LastString(t, [x] + e, key) ==
      if LastString(t, e, key).Some? then LastString(t, e, key)
      else if Slice(t, x.0) == key && x.1.kind.SjString? then Some(CStr(Slice(t, x.1))) else None
    decreases |e|
  {
    hide LastOf, LastString, Slice;
    assert ([x] + e)[0] == x;
    if e == [] {
      assert [x] + e == [] + [x];
      NoneLast(t, key);
      LastSnoc(t, [], x, key);
    } else {
      var front, last := e[..|e| - 1], e[|e| - 1];
      assert e == front + [last] && [x] + e == ([x] + front) + [last];
      assert InText(t, [x] + front) by {
        assert forall i :: 0 <= i < |[x] + front| ==> ([x] + front)[i] == ([x] + e)[i];
      }
      LastCons(t, x, front, key);
      LastSnoc(t, front, last, key);
      LastSnoc(t, [x] + front, last, key);
    }
  }

  /** The value of the last field with that key. */
  function LastDoc(f: Fields, key: string): Option<Doc> {
    match f
    case NoFields => None
    case Field(k, _, v, _, rest) =>
      var later := LastDoc(rest, key);
      if later.Some? then later else if k == key then Some(v) else None
  }

  lemma {:induction false} LastErase(f: Fields, key: string)
    ensures Get(EraseFields(f), key) == if LastDoc(f, key).Some? then Some(Erase(LastDoc(f, key).value)) else None
  {
    if f.Field? { LastErase(f.rest, key); }
  }

  predicate Matches(t: string, v: Option<Value>, c: Option<Doc>) {
    if c.Some? then v.Some? && At(t, v.value, c.value) else v.None?
  }

  /** Looking a key up among the entries the cursor yields is looking it up in the tree. */
  lemma {:induction false} LookUp(t: string, q: nat, f: Fields, depth: int, key: string)
    requires FieldsAt(t, q, f)
    ensures var e := FieldEntries(q, f, depth);
      && InText(t, e)
      && Matches(t, LastOf(t, e, key), LastDoc(f, key))
      && LastString(t, e, key) == GetString(EraseFields(f), key)
    decreases f
  {
    hide LastOf, LastString, Slice, At, FieldsAt;
    if f.Field? {
      var p := q + 2 + |f.key| + |f.colon|;
      var q1 := p + |Print(f.val)| + |f.gap|;
      var x := (Token(q, DStr(f.key), depth), Token(p, f.val, depth));
      HeadAt(t, q, f, depth);
      RestAt(t, q, f);
      LookUp(t, q1, f.rest, depth, key);
      assert FieldEntries(q, f, depth) == [x] + FieldEntries(q1, f.rest, depth);
      LookUpStep(t, x, FieldEntries(q1, f.rest, depth), f, key);
    } else {
      NoneLast(t, key);
    }
  }

  lemma LookUpStep(t: string, x: Entry, e: seq<Entry>, f: Fields, key: string)
    requires f.Field? && At(t, x.0, DStr(f.key)) && At(t, x.1, f.val)
    requires InText(t, e) && Matches(t, LastOf(t, e, key), LastDoc(f.rest, key))
    requires LastString(t, e, key) == GetString(EraseFields(f.rest), key)
    ensures InText(t, [x] + e) && Matches(t, LastOf(t, [x] + e, key), LastDoc(f, key))
    ensures LastString(t, [x] + e, key) == GetString(EraseFields(f), key)
  {
    hide LastOf, LastString, Slice, At, CStr;
    AtFacts(t, x.0, DStr(f.key));
    AtFacts(t, x.1, f.val);
    StringAt(t, x.1, f.val);
    assert InText(t, [x] + e);
    LastCons(t, x, e, key);
  }

  lemma StringAt(t: string, v: Value, c: Doc)
    requires At(t, v, c)
    ensures v.start <= v.end <= |t| && (c.DStr? ==> Slice(t, v) == c.raw)
  {
    AtFacts(t, v, c);
  }

  lemma HeadAt(t: string, q: nat, f: Fields, depth: int)
    requires FieldsAt(t, q, f) && f.Field?
    ensures At(t, Token(q, DStr(f.key), depth), DStr(f.key))
    ensures At(t, Token(q + 2 + |f.key| + |f.colon|, f.val, depth), f.val)
  {
    hide Has;
    SplitField(t, q, f);
  }

  lemma RestAt(t: string, q: nat, f: Fields)
    requires FieldsAt(t, q, f) && f.Field?
    ensures var q1 := q + 2 + |f.key| + |f.colon| + |Print(f.val)| + |f.gap|; FieldsAt(t, q1, f.rest)
  {
    SplitField(t, q, f);
  }

  // ----- copied values -----

  /** The text `sj_value_to_json` makes of a text. */
  function PassedDoc(c: Doc): Doc {
    if c.DStr? then DStr(Requote(c.raw)) else c
  }

  lemma PassedDocFacts(c: Doc)
    requires WellFormed(c)
    ensures WellFormed(PassedDoc(c)) && Erase(PassedDoc(c)) == Passed(Erase(c))
  {
    if c.DStr? { RequoteRaw(c.raw); }
  }

  /** The raw copy of a value is, as a C string, a text of the same tree. */
  lemma ValueJsonAt(t: string, v: Value, c: Doc)
    requires At(t, v, c)
    ensures v.start <= v.end <= |t| && ValueJson(t, v) == CStr(Print(PassedDoc(c)))
  {
    hide RawEnd, Requote, CStr;
    AtFacts(t, v, c);
    assert CStr("null") == "null" && CStr("true") == "true" && CStr("false") == "false";
    if c.DArr? || c.DObj? { ContainerCopied(t, v, c); }
  }

  lemma ContainerCopied(t: string, v: Value, c: Doc)
    requires At(t, v, c) && (c.DArr? || c.DObj?)
    ensures var e := RawEnd(t, v.start, 0, false);
      v.start <= e <= |t| + 1 && (t + "\0")[v.start..e] == Print(c)
  {
    hide Read, RawEnd, Print, WellFormed, TreeAt, Erase;
    var p := v.start;
    WalkDoc(t, State(p, 0, NoFault), p, c, 0);
    TwoScannersAgree(t, State(p, 0, NoFault));
    assert Discard(t, Closed(p, c, 0), 0) == Closed(p, c, 0);
    CutOut(t, p, Print(c));
  }

  lemma CutOut(t: string, p: nat, w: string)
    requires Has(t, p, w)
    ensures p + |w| <= |t| && (t + "\0")[p..p + |w|] == w
  {
    assert (t + "\0")[p..p + |w|] == t[p..p + |w|];
  }

  // ----- texts the tools build -----

  /** The text is read by the converter as that tree. */
  predicate Says(text: string, j: Json) {
    NulFree(text) && Meant(text) == j
  }

  /** A text that no C string function cuts. */
  predicate Good(c: Doc) { WellFormed(c) && NulFreeTree(Erase(c)) }

  lemma SaysDoc(c: Doc)
    requires Good(c)
    ensures Says(Print(c), Erase(c))
  {
    PrintNulFree(c);
    MeaningPreserved("", c, "");
    assert "" + Print(c) + "" == Print(c);
  }

  const NO_DOMAIN := DArr("", NoElems)
  const FIELDS := TwoElems(DStr("id"), DStr("name"))
  const ATTRIBUTES := DArr("", Elem(DStr("string"), ",", Elem(DStr("type"), ",", Elem(DStr("required"), "", NoElems))))

  lemma DefaultDomain()
    ensures Good(NO_DOMAIN) && Print(NO_DOMAIN) == "[]" && Erase(NO_DOMAIN) == JArr(NoItems)
  {
  }

  lemma DefaultFields()
    ensures Good(FIELDS) && Print(FIELDS) == DEFAULT_FIELDS && Erase(FIELDS) == Array(["id", "name"])
  {
    hide Print, WellFormed, Erase, Lit;
    WordText("id");
    WordText("name");
    TwoElemsText(DStr("id"), DStr("name"));
    assert ["id", "name"][1..] == ["name"] && ["name"][1..] == [];
    assert Strings(["name"]) == Item(JStr("name"), Strings([]));
  }

  lemma DefaultAttributes()
    ensures Good(ATTRIBUTES) && Print(ATTRIBUTES) == DEFAULT_ATTRIBUTES
    ensures Erase(ATTRIBUTES) == Array(["string", "type", "required"])
  {
    hide Print, WellFormed, Erase, Lit, Array;
    ThreeWords("string", "type", "required");
    ThreeStrings("string", "type", "required");
  }

  lemma ThreeWords(a: string, b: string, c: string)
    requires forall w :: w in [a, b, c] ==> '"' !in w && '\\' !in w
    ensures var d := DArr("", Elem(DStr(a), ",", Elem(DStr(b), ",", Elem(DStr(c), "", NoElems))));
      WellFormed(d) && Print(d) == "[" + Lit(a) + "," + Lit(b) + "," + Lit(c) + "]" && Erase(d) == Array([a, b, c])
  {
    hide Print, WellFormed, Erase, Lit, Array;
    assert a in [a, b, c] && b in [a, b, c] && c in [a, b, c];
    WordText(a);
    WordText(b);
    WordText(c);
    var e1 := Elem(DStr(c), "", NoElems);
    var e2 := Elem(DStr(b), ",", e1);
    ElemText(DStr(c), "", NoElems);
    ElemText(DStr(b), ",", e1);
    ElemText(DStr(a), ",", e2);
    ArrayText(Elem(DStr(a), ",", e2));
    ThreeJoined(Lit(a), Lit(b), Lit(c));
    ThreeStrings(a, b, c);
  }

  lemma ThreeJoined(x: string, y: string, z: string)
    ensures "[" + (x + "," + (y + "," + (z + "" + ""))) + "]" == "[" + x + "," + y + "," + z + "]"
  {
    assert z + "" + "" == z;
    assert "[" + (x + "," + (y + "," + z)) + "]" == "[" + x + "," + y + "," + z + "]";
  }

  lemma ThreeStrings(a: string, b: string, c: string)
    ensures Array([a, b, c]) == JArr(Item(JStr(a), Item(JStr(b), Item(JStr(c), NoItems))))
  {
    assert [a, b, c][1..] == [b, c] && [b, c][1..] == [c] && [c][1..] == [];
    assert Strings([c]) == Item(JStr(c), Strings([]));
    assert Strings([b, c]) == Item(JStr(b), Strings([c]));
  }

  function OrderFields(order: Option<Doc>): Fields {
    if order.Some? then Field("order", ":", order.value, "", NoFields) else NoFields
  }

  function OffsetFields(offset: int, order: Option<Doc>): Fields {
    Field("offset", ":", DNum(Dec(offset)), if order.Some? then "," else "", OrderFields(order))
  }

  function LimitFields(limit: int, offset: int, order: Option<Doc>): Fields {
    Field("limit", ":", DNum(Dec(limit)), ",", OffsetFields(offset, order))
  }

  function OptionFields(fields: Doc, limit: int, offset: int, order: Option<Doc>): Fields {
    Field("fields", ":", fields, ",", LimitFields(limit, offset, order))
  }

  function OrderText(order: Option<Doc>): string {
    if order.Some? then "," + Key("order") + Print(order.value) else ""
  }

  lemma OrderFieldsText(order: Option<Doc>)
    requires order.Some? ==> WellFormed(order.value)
    ensures var f := OrderFields(order);
      && WellFormedFields(f) && (f.Field? <==> order.Some?)
      && PrintFields(f) == (if order.Some? then Key("order") + Print(order.value) else "")
      && EraseFields(f) == if order.Some? then Member("order", Erase(order.value), NoMembers) else NoMembers
  {
    hide Print, WellFormed, Erase, Key;
    if order.Some? {
      FieldText("order", order.value, "", NoFields);
      var k, v := Key("order"), Print(order.value);
      assert k + v + "" + "" == k + v;
    }
  }

  lemma OffsetText(offset: int, order: Option<Doc>)
    requires order.Some? ==> WellFormed(order.value)
    ensures var f := OffsetFields(offset, order);
      && WellFormedFields(f) && PrintFields(f) == Key("offset") + Dec(offset) + OrderText(order)
      && EraseFields(f) == Member("offset", JNum(Dec(offset)), EraseFields(OrderFields(order)))
  {
    hide Print, WellFormed, Erase, Key, Dec, PrintFields, EraseFields, OrderFields, OrderText;
    IntegerText(offset);
    OrderFieldsText(order);
    var gap := if order.Some? then "," else "";
    FieldText("offset", DNum(Dec(offset)), gap, OrderFields(order));
    OrderJoins(Key("offset") + Dec(offset), order);
  }

  lemma OrderJoins(o: string, order: Option<Doc>)
    ensures o + (if order.Some? then "," else "") + (if order.Some? then Key("order") + Print(order.value) else "")
         == o + OrderText(order)
  {
    hide Print, Key;
    if order.Some? {
      var k, v := Key("order"), Print(order.value);
      assert o + "," + (k + v) == o + ("," + k + v);
    }
  }

  lemma LimitText(limit: int, offset: int, order: Option<Doc>)
    requires order.Some? ==> WellFormed(order.value)
    ensures var f := LimitFields(limit, offset, order);
      && WellFormedFields(f)
      && PrintFields(f) == Key("limit") + Dec(limit) + "," + (Key("offset") + Dec(offset) + OrderText(order))
      && EraseFields(f) == Member("limit", JNum(Dec(limit)), EraseFields(OffsetFields(offset, order)))
  {
    hide Print, WellFormed, Erase, Key, OrderText, OffsetFields, Dec;
    IntegerText(limit);
    OffsetText(offset, order);
    FieldText("limit", DNum(Dec(limit)), ",", OffsetFields(offset, order));
  }

  lemma OptionFieldsText(fields: Doc, limit: int, offset: int, order: Option<Doc>)
    requires WellFormed(fields) && (order.Some? ==> WellFormed(order.value))
    ensures var f := OptionFields(fields, limit, offset, order);
      && WellFormedFields(f)
      && PrintFields(f) == Key("fields") + Print(fields) + "," + Key("limit") + Dec(limit) + ","
                           + Key("offset") + Dec(offset) + OrderText(order)
      && EraseFields(f) == Member("fields", Erase(fields), Member("limit", JNum(Dec(limit)),
                           EraseFields(OffsetFields(offset, order))))
  {
    hide Print, WellFormed, Erase, Key, OrderText, LimitFields, OffsetFields, Dec;
    LimitText(limit, offset, order);
    FieldText("fields", fields, ",", LimitFields(limit, offset, order));
    Nested(Key("fields") + Print(fields), Key("limit") + Dec(limit), Key("offset"), Dec(offset), OrderText(order));
    assert Key("fields") + Print(fields) + "," + Key("limit") + Dec(limit) == Key("fields") + Print(fields) + "," + (Key("limit") + Dec(limit));
  }

  lemma Nested(a: string, b: string, k: string, v: string, last: string)
    ensures a + "," + (b + "," + (k + v + last)) == a + "," + b + "," + k + v + last
  {
    assert b + "," + (k + v + last) == b + "," + k + v + last;
  }

  /** The options of a search, with or without an order. */
  lemma OptionsText(fields: Doc, limit: int, offset: int, order: Option<Doc>)
    requires Good(fields) && (order.Some? ==> Good(order.value))
    ensures Says(
      "{" + Key("fields") + Print(fields) + "," + Key("limit") + Dec(limit) + "," + Key("offset") + Dec(offset)
      + OrderText(order) + "}",
      JObj(Member("fields", Erase(fields), Member("limit", JNum(Dec(limit)), Member("offset", JNum(Dec(offset)),
        if order.Some? then Member("order", Erase(order.value), NoMembers) else NoMembers)))))
  {
    hide Print, WellFormed, Erase, Says, Key, OrderText, Dec, OptionFields;
    var f := OptionFields(fields, limit, offset, order);
    OptionFieldsText(fields, limit, offset, order);
    OrderFieldsText(order);
    OffsetText(offset, order);
    ObjectText(f);
    OptionsGood(fields, limit, offset, order);
    SaysDoc(DObj("", f));
    var k1, v1, k2, v2, k3, v3 := Key("fields"), Print(fields), Key("limit"), Dec(limit), Key("offset"), Dec(offset);
    Braced(k1, v1, k2, v2, k3, v3, OrderText(order));
  }

  lemma OptionsGood(fields: Doc, limit: int, offset: int, order: Option<Doc>)
    requires Good(fields) && (order.Some? ==> Good(order.value))
    ensures NulFreeMembers(EraseFields(OptionFields(fields, limit, offset, order)))
  {
    hide NulFree, NulFreeTree, Dec;
    KeysNulFree();
    IntegersNulFree(limit, offset);
    assert NulFreeMembers(EraseFields(OrderFields(order)));
    assert NulFreeMembers(EraseFields(OffsetFields(offset, order)));
    assert NulFreeMembers(EraseFields(LimitFields(limit, offset, order)));
  }

  lemma IntegersNulFree(limit: int, offset: int)
    ensures NulFreeTree(Erase(DNum(Dec(limit)))) && NulFreeTree(Erase(DNum(Dec(offset))))
  {
  }

  lemma KeysNulFree()
    ensures NulFree("fields") && NulFree("limit") && NulFree("offset") && NulFree("order")
  {
  }

  lemma Braced(k1: string, v1: string, k2: string, v2: string, k3: string, v3: string, last: string)
    ensures "{" + (k1 + v1 + "," + k2 + v2 + "," + k3 + v3 + last) + "}"
      == "{" + k1 + v1 + "," + k2 + v2 + "," + k3 + v3 + last + "}"
  {
    assert "{" + (k1 + v1 + "," + k2 + v2 + "," + k3 + v3 + last) == "{" + k1 + v1 + "," + k2 + v2 + "," + k3 + v3 + last;
  }

  // ----- the tools -----

  function ErasedOption(c: Option<Doc>): Option<Json> {
    if c.Some? then Some(Erase(c.value)) else None
  }

  function DocOr(c: Option<Doc>, other: Doc): Doc {
    if c.Some? then PassedDoc(c.value) else other
  }

  lemma JsonOrAt(t: string, v: Option<Value>, c: Option<Doc>, other: Doc)
    requires Matches(t, v, c) && Good(other)
    ensures v.Some? ==> v.value.start <= v.value.end <= |t|
    ensures Erase(DocOr(c, other)) == PassedOr(ErasedOption(c), Erase(other))
    ensures NulFreeTree(Erase(DocOr(c, other))) ==>
      Good(DocOr(c, other)) && JsonOr(t, v, Print(other)) == Print(DocOr(c, other))
  {
    hide ValueJson, Print, WellFormed, Erase, NulFreeTree;
    if c.Some? {
      PassedAt(t, v.value, c.value);
    }
  }

  /** What a passed value holds, and that nothing cuts it when it holds no NUL. */
  lemma PassedAt(t: string, v: Value, c: Doc)
    requires At(t, v, c)
    ensures v.start <= v.end <= |t| && WellFormed(PassedDoc(c)) && Erase(PassedDoc(c)) == Passed(Erase(c))
    ensures NulFreeTree(Passed(Erase(c))) ==> Good(PassedDoc(c)) && ValueJson(t, v) == Print(PassedDoc(c))
  {
    hide Print, Erase, ValueJson, NulFreeTree, PassedDoc;
    PassedDocFacts(c);
    PrintNulFree(PassedDoc(c));
    ValueJsonAt(t, v, c);
  }

  lemma LongOrAt(t: string, v: Option<Value>, c: Option<Doc>, other: int)
    requires Matches(t, v, c)
    ensures v.Some? ==> v.value.start <= v.value.end <= |t|
    ensures LongOr(t, v, other) == IntegerOr(ErasedOption(c), other)
  {
    if c.Some? { AtFacts(t, v.value, c.value); }
  }

  /** The text arguments of a call say what the plan's trees are, if these hold no NUL byte. */
  predicate SameCall(call: Call, plan: Plan) {
    match plan
    case Refuse(msg) => call == Refused(msg)
    case Plan(model, name, args, kwargs) =>
      && call.Call? && call.model == model && call.name == name
      && (NulFreeTree(args) ==> Says(call.args, args)) && (NulFreeTree(kwargs) ==> Says(call.kwargs, kwargs))
  }

  lemma SearchSays(t: string, q: nat, f: Fields, depth: int)
    requires FieldsAt(t, q, f)
    ensures var e := FieldEntries(q, f, depth);
      && InText(t, e)
      && (NulFreeTree(SearchOptions(EraseFields(f))) ==> Says(SearchKwargs(t, e), SearchOptions(EraseFields(f))))
  {
    hide LastOf, LastDoc, Get, FieldsAt, Says, LongOr, JsonOr, At, Print, WellFormed, Erase, Key, NulFreeTree, DocOr, Dec;
    var e := FieldEntries(q, f, depth);
    LookUp(t, q, f, depth, "fields"); LastErase(f, "fields");
    LookUp(t, q, f, depth, "limit"); LastErase(f, "limit");
    LookUp(t, q, f, depth, "offset"); LastErase(f, "offset");
    LookUp(t, q, f, depth, "order"); LastErase(f, "order");
    DefaultFields();
    JsonOrAt(t, LastOf(t, e, "fields"), LastDoc(f, "fields"), FIELDS);
    LongOrAt(t, LastOf(t, e, "limit"), LastDoc(f, "limit"), 80);
    LongOrAt(t, LastOf(t, e, "offset"), LastDoc(f, "offset"), 0);
    var limit := IntegerOr(Get(EraseFields(f), "limit"), 80);
    var offset := IntegerOr(Get(EraseFields(f), "offset"), 0);
    var order := LastDoc(f, "order");
    var last := if order.Some? && order.value.DStr? then Some(PassedDoc(order.value)) else None;
    OrderAt(t, LastOf(t, e, "order"), order);
    if NulFreeTree(SearchOptions(EraseFields(f))) {
      SearchOptionsNulFree(EraseFields(f));
      OptionsText(DocOr(LastDoc(f, "fields"), FIELDS), limit, offset, last);
    }
  }

  lemma SearchOptionsNulFree(m: Members)
    requires NulFreeTree(SearchOptions(m))
    ensures NulFreeTree(PassedOr(Get(m, "fields"), Array(["id", "name"])))
    ensures var order := Get(m, "order"); order.Some? && order.value.JStr? ==> NulFreeTree(Passed(order.value))
  {
    hide Get, PassedOr, Passed, Array, Dec, NulFree;
    var order := Get(m, "order");
    if order.Some? && order.value.JStr? {
      var opts := SearchOptions(m).members;
      assert NulFreeMembers(opts.rest) && NulFreeMembers(opts.rest.rest) && NulFreeMembers(opts.rest.rest.rest);
    }
  }

  lemma OrderAt(t: string, v: Option<Value>, c: Option<Doc>)
    requires Matches(t, v, c)
    ensures v.Some? ==> v.value.start <= v.value.end <= |t|
    ensures v.Some? && v.value.kind.SjString? <==> c.Some? && c.value.DStr?
    ensures c.Some? ==> (c.value.DStr? <==> Erase(c.value).JStr?)
    ensures var last := if c.Some? && c.value.DStr? then Some(PassedDoc(c.value)) else None;
      && (last.Some? ==> WellFormed(last.value) && Erase(last.value) == Passed(Erase(c.value)))
      && OrderText(last) == if v.Some? && v.value.kind.SjString? then "," + Key("order") + Lit(Requote(Slice(t, v.value))) else ""
  {
    if c.Some? {
      AtFacts(t, v.value, c.value);
      PassedDocFacts(c.value);
    }
  }

  /** Each tool builds texts that say exactly what its plan holds. */
  lemma CallMatchesPlan(tool: string, t: string, q: nat, f: Fields, depth: int)
    requires FieldsAt(t, q, f)
    ensures var e := FieldEntries(q, f, depth);
      InText(t, e) && SameCall(CallOf(tool, t, e), PlanOf(tool, EraseFields(f)))
  {
    hide LastString, GetString, FieldsAt, SameCall, CallOf, PlanOf;
    LookUp(t, q, f, depth, "model");
    if tool == "search_read_records" {
      SearchMatches(t, q, f, depth);
    } else if tool == "get_model_fields" {
      AttributesMatch(t, q, f, depth);
    } else if tool == "create_record" {
      CreateMatches(t, q, f, depth);
    } else if tool == "update_record" {
      UpdateMatches(t, q, f, depth);
    } else {
      OtherMatches(tool, t, FieldEntries(q, f, depth), EraseFields(f));
    }
  }

  lemma SearchMatches(t: string, q: nat, f: Fields, depth: int)
    requires FieldsAt(t, q, f)
    ensures var e := FieldEntries(q, f, depth);
      InText(t, e) && SameCall(CallOf("search_read_records", t, e), PlanOf("search_read_records", EraseFields(f)))
  {
    hide LastOf, LastString, LastDoc, Get, GetString, FieldsAt, Says, JsonOr, At, Print, WellFormed, Erase, SearchKwargs,
         SearchOptions, NulFreeTree, OneItem;
    var e := FieldEntries(q, f, depth);
    LookUp(t, q, f, depth, "model");
    LookUp(t, q, f, depth, "domain"); LastErase(f, "domain");
    DefaultDomain();
    JsonOrAt(t, LastOf(t, e, "domain"), LastDoc(f, "domain"), NO_DOMAIN);
    SaysDomain(DocOr(LastDoc(f, "domain"), NO_DOMAIN));
    SearchSays(t, q, f, depth);
  }

  lemma SaysDomain(d: Doc)
    ensures NulFreeTree(OneItem(Erase(d))) ==> NulFreeTree(Erase(d))
    ensures Good(d) ==> Says("[" + Print(d) + "]", OneItem(Erase(d)))
  {
    hide Print, WellFormed, Erase, Says;
    assert NulFreeItems(Item(Erase(d), NoItems)) ==> NulFreeTree(Erase(d));
    if Good(d) {
      OneElemText(d);
      SaysDoc(OneElem(d));
    }
  }

  lemma AttributesMatch(t: string, q: nat, f: Fields, depth: int)
    requires FieldsAt(t, q, f)
    ensures var e := FieldEntries(q, f, depth);
      InText(t, e) && SameCall(CallOf("get_model_fields", t, e), PlanOf("get_model_fields", EraseFields(f)))
  {
    hide LastOf, LastString, LastDoc, Get, GetString, FieldsAt, Says, JsonOr, At, Print, WellFormed, Erase, Key, NulFreeTree, Array;
    var e := FieldEntries(q, f, depth);
    LookUp(t, q, f, depth, "model");
    LookUp(t, q, f, depth, "attributes"); LastErase(f, "attributes");
    DefaultAttributes();
    JsonOrAt(t, LastOf(t, e, "attributes"), LastDoc(f, "attributes"), ATTRIBUTES);
    SaysAttributes(DocOr(LastDoc(f, "attributes"), ATTRIBUTES));
    SaysNested();
  }

  lemma SaysAttributes(d: Doc)
    ensures NulFreeTree(JObj(Member("attributes", Erase(d), NoMembers))) ==> NulFreeTree(Erase(d))
    ensures Good(d) ==>
      Says("{" + Key("attributes") + Print(d) + "}", JObj(Member("attributes", Erase(d), NoMembers)))
  {
    hide Print, WellFormed, Erase, Key, Says;
    assert NulFreeMembers(Member("attributes", Erase(d), NoMembers)) ==> NulFreeTree(Erase(d));
    if Good(d) {
      OneText("attributes", d);
      SaysDoc(One("attributes", d));
    }
  }

  lemma CreateMatches(t: string, q: nat, f: Fields, depth: int)
    requires FieldsAt(t, q, f)
    ensures var e := FieldEntries(q, f, depth);
      InText(t, e) && SameCall(CallOf("create_record", t, e), PlanOf("create_record", EraseFields(f)))
  {
    hide LastOf, LastString, LastDoc, Get, GetString, FieldsAt, At, ValueJson;
    LookUp(t, q, f, depth, "model");
    LookUp(t, q, f, depth, "values");
    var e := FieldEntries(q, f, depth);
    if LastDoc(f, "values").Some? { ObjectEndsOpen(t, LastOf(t, e, "values").value, LastDoc(f, "values").value); }
  }

  lemma UpdateMatches(t: string, q: nat, f: Fields, depth: int)
    requires FieldsAt(t, q, f)
    ensures var e := FieldEntries(q, f, depth);
      InText(t, e) && SameCall(CallOf("update_record", t, e), PlanOf("update_record", EraseFields(f)))
  {
    hide LastOf, LastString, LastDoc, Get, GetString, FieldsAt, Says, At, Print, WellFormed, Erase, ValueJson;
    var e := FieldEntries(q, f, depth);
    LookUp(t, q, f, depth, "model");
    LookUp(t, q, f, depth, "values"); LastErase(f, "values");
    LookUp(t, q, f, depth, "record_ids"); LastErase(f, "record_ids");
    SaysEmpty();
    if LastDoc(f, "values").Some? && LastDoc(f, "record_ids").Some? {
      var ids, values := LastDoc(f, "record_ids").value, LastDoc(f, "values").value;
      PassedAt(t, LastOf(t, e, "record_ids").value, ids);
      PassedAt(t, LastOf(t, e, "values").value, values);
      PairNulFree(Passed(Erase(ids)), Passed(Erase(values)));
      if NulFreeTree(Passed(Erase(ids))) && NulFreeTree(Passed(Erase(values))) {
        TwoElemsText(PassedDoc(ids), PassedDoc(values));
        SaysDoc(TwoElems(PassedDoc(ids), PassedDoc(values)));
      }
    }
  }

  lemma PairNulFree(a: Json, b: Json)
    ensures NulFreeTree(JArr(Item(a, Item(b, NoItems)))) <==> NulFreeTree(a) && NulFreeTree(b)
  {
    assert NulFreeItems(Item(b, NoItems)) <==> NulFreeTree(b);
  }

  lemma SaysNested()
    ensures Says("[[]]", OneItem(JArr(NoItems)))
  {
    DefaultDomain();
    OneElemText(NO_DOMAIN);
    SaysDoc(OneElem(NO_DOMAIN));
    assert "[" + "[]" + "]" == "[[]]";
  }

  lemma SaysEmpty()
    ensures Says("{}", JObj(NoMembers))
  {
    SaysDoc(DObj("", NoFields));
  }

  lemma OtherMatches(tool: string, t: string, e: seq<Entry>, m: Members)
    requires InText(t, e) && LastString(t, e, "model") == GetString(m, "model")
    requires tool !in ["search_read_records", "get_model_fields", "create_record", "update_record"]
    ensures SameCall(CallOf(tool, t, e), PlanOf(tool, m))
  {
    hide LastOf, LastString, Get, GetString;
  }

  lemma ObjectEndsOpen(t: string, v: Value, c: Doc)
    requires At(t, v, c)
    ensures v.kind.SjObject? ==> v.end == v.start + 1
  {
  }

  // ----- carrying out -----

  /** The XML of a tree holds a NUL byte exactly when a string or key of the tree does. */
  lemma XmlNulFree(j: Json, g: DoubleText)
    requires PlainDoubles(g, '\0')
    ensures NulFree(XmlOf(j, g)) <==> NulFreeTree(j)
  {
    NulOutsideMarkup();
    XmlFree(j, g, '\0');
    NulFreeIsFree(j, g);
  }

  lemma {:induction false} NulFreeIsFree(j: Json, g: DoubleText)
    requires PlainDoubles(g, '\0')
    ensures TreeFree(j, g, '\0') <==> NulFreeTree(j)
  {
    match j
    case JArr(items) => NulFreeItemsAreFree(items, g);
    case JObj(members) => NulFreeMembersAreFree(members, g);
    case _ =>
  }

  lemma {:induction false} NulFreeItemsAreFree(items: Items, g: DoubleText)
    requires PlainDoubles(g, '\0')
    ensures ItemsFree(items, g, '\0') <==> NulFreeItems(items)
  {
    if items.Item? {
      NulFreeIsFree(items.head, g);
      NulFreeItemsAreFree(items.tail, g);
    }
  }

  lemma {:induction false} NulFreeMembersAreFree(members: Members, g: DoubleText)
    requires PlainDoubles(g, '\0')
    ensures MembersFree(members, g, '\0') <==> NulFreeMembers(members)
  {
    if members.Member? {
      NulFreeIsFree(members.val, g);
      NulFreeMembersAreFree(members.rest, g);
    }
  }

  /** What the converter makes of a C string holds no NUL byte. */
  lemma MeantNulFree(text: string, g: DoubleText)
    requires NulFree(text) && PlainDoubles(g, '\0')
    ensures NulFree(XmlOf(Meant(text), g))
  {
    MeantFree(text, g, '\0');
    NulOutsideMarkup();
    XmlFree(Meant(text), g, '\0');
  }

  /** Two envelopes that differ in whether their last two parameters hold a NUL byte differ. */
  lemma EnvelopesDiffer(ctx: Context, model: string, name: string, a1: string, k1: string, a2: string, k2: string)
    requires NulFree(a1) && NulFree(k1) && !(NulFree(a2) && NulFree(k2))
    ensures CallEnvelope(ctx, model, name, a1, k1) != CallEnvelope(ctx, model, name, a2, k2)
  {
    hide XmlEnvelope, XmlParam, XmlString, XmlInt, NulFree;
    var p := XmlParam(XmlString(ctx.db)) + XmlParam(XmlInt(ctx.uid)) + XmlParam(XmlString(ctx.apikey))
      + XmlParam(XmlString(model)) + XmlParam(XmlString(name));
    ParamsNulFree(a1, k1);
    ParamsNulFree(a2, k2);
    assert CallEnvelope(ctx, model, name, a1, k1) == XmlEnvelope("execute_kw", p + XmlParam(a1) + XmlParam(k1));
    assert CallEnvelope(ctx, model, name, a2, k2) == XmlEnvelope("execute_kw", p + XmlParam(a2) + XmlParam(k2));
    if CallEnvelope(ctx, model, name, a1, k1) == CallEnvelope(ctx, model, name, a2, k2) {
      SameParams("execute_kw", p, XmlParam(a1), XmlParam(k1), XmlParam(a2), XmlParam(k2));
    }
  }

  lemma SameParams(name: string, p: string, a1: string, k1: string, a2: string, k2: string)
    requires XmlEnvelope(name, p + a1 + k1) == XmlEnvelope(name, p + a2 + k2)
    ensures a1 + k1 == a2 + k2
  {
    var q1, q2 := p + a1 + k1, p + a2 + k2;
    EnvelopeParts(name, q1);
    EnvelopeParts(name, q2);
    Cancel(BeforeParams(name), q1, q2, AfterParams());
    assert q1 == p + (a1 + k1) && q2 == p + (a2 + k2);
    assert a1 + k1 == (p + (a1 + k1))[|p|..] && a2 + k2 == (p + (a2 + k2))[|p|..];
  }

  function Tag(name: string): string { "<" + name + ">" }

  function BeforeParams(name: string): string {
    "<?xml version=\"1.0\"?>" + Tag("methodCall") + El("methodName", name) + Tag("params")
  }

  function AfterParams(): string { Tag("/params") + Tag("/methodCall") }

  lemma EnvelopeParts(name: string, params: string)
    ensures XmlEnvelope(name, params) == BeforeParams(name) + params + AfterParams()
  {
    hide El, Tag;
    var m := El("methodName", name);
    ElTags("params", params);
    ElTags("methodCall", m + El("params", params));
    SlashTags();
    Joined("<?xml version=\"1.0\"?>", Tag("methodCall"), m, Tag("params"), params, Tag("/params"), Tag("/methodCall"));
  }

  lemma SlashTags()
    ensures "/" + "params" == "/params" && "/" + "methodCall" == "/methodCall"
  {
  }

  lemma ElTags(name: string, body: string)
    ensures El(name, body) == Tag(name) + body + Tag("/" + name)
  {
    assert "</" + name + ">" == "<" + ("/" + name) + ">";
    assert El(name, body) == "<" + name + ">" + body + ("</" + name + ">");
  }

  lemma Joined(x: string, a: string, m: string, b: string, p: string, c: string, d: string)
    ensures x + (a + (m + (b + p + c)) + d) == x + a + m + b + p + (c + d)
  {
    assert a + (m + (b + p + c)) + d == a + (m + (b + p + c) + d);
    assert m + (b + p + c) + d == m + (b + p + (c + d));
    assert a + (m + (b + p + (c + d))) == a + m + b + p + (c + d);
  }

  lemma Cancel(before: string, x1: string, x2: string, after: string)
    requires before + x1 + after == before + x2 + after
    ensures x1 == x2
  {
    var n := |before|;
    assert |before + x1 + after| == n + |x1| + |after|;
    assert x1 == (before + x1 + after)[n..n + |x1|] && x2 == (before + x2 + after)[n..n + |x2|];
  }

  lemma ParamsNulFree(a: string, k: string)
    ensures NulFree(XmlParam(a) + XmlParam(k)) <==> NulFree(a) && NulFree(k)
  {
    NulFreeConcat(XmlParam(a), XmlParam(k));
    BracketsNulFree("<param>", "", a, "</param>");
    BracketsNulFree("<param>", "", k, "</param>");
    assert XmlParam(a) == "<param>" + a + "</param>" && XmlParam(k) == "<param>" + k + "</param>";
  }

  lemma PerformIsCarryOut(call: Call, plan: Plan, ctx: Option<Context>)
    requires SameCall(call, plan)
    ensures Agree(Perform(call, ctx), CarryOut(plan, ctx), Some(plan), ctx)
  {
    hide Meant, ErrorReply, TextReply, CallEnvelope, XmlOf, NulFreeTree, NulFree, Received, PlainDoubles;
    if !Whole(Some(plan), ctx) && PlainDoubles(ctx.value.g, '\0') {
      var g := ctx.value.g;
      MeantNulFree(CStr(call.args), g);
      MeantNulFree(CStr(call.kwargs), g);
      XmlNulFree(plan.args, g);
      XmlNulFree(plan.kwargs, g);
      EnvelopesDiffer(ctx.value, plan.model, plan.name, XmlOf(Meant(CStr(call.args)), g), XmlOf(Meant(CStr(call.kwargs)), g),
        XmlOf(plan.args, g), XmlOf(plan.kwargs, g));
    }
  }

  // ----- requests -----

  /** Reading the object value `v` afresh and listing its entries. */
  lemma FreshEntries(t: string, v: Value, c: Doc)
    requires At(t, v, c) && c.DObj?
    ensures var (s, obj) := Read(t, State(v.start, 0, NoFault));
      && obj.kind.SjObject?
      && Entries(t, s, obj) == FieldEntries(v.start + 1 + |c.pad|, c.fields, 1)
      && FieldsAt(t, v.start + 1 + |c.pad|, c.fields)
  {
    hide Read, Entries, Has;
    HasBound(t, v.start, Print(c));
    EntriesOfObject(t, State(v.start, 0, NoFault), v.start, c);
    Bracketed(t, v.start, "{", c.pad, PrintFields(c.fields), "}");
  }

  lemma DispatchMeans(tool: string, t: string, v: Value, c: Doc, ctx: Option<Context>)
    requires At(t, v, c) && c.DObj?
    ensures var plan := PlanOf(tool, EraseFields(c.fields));
      v.start <= |t| && Agree(Dispatched(tool, t, v.start, ctx), CarryOut(plan, ctx), Some(plan), ctx)
  {
    hide Read, Entries, FieldsAt, Agree, Perform, CarryOut, CallOf, PlanOf, SameCall;
    AtFacts(t, v, c);
    FreshEntries(t, v, c);
    var (s, obj) := Read(t, State(v.start, 0, NoFault));
    CallMatchesPlan(tool, t, v.start + 1 + |c.pad|, c.fields, 1);
    PerformIsCarryOut(CallOf(tool, t, Entries(t, s, obj)), PlanOf(tool, EraseFields(c.fields)), ctx);
  }

  lemma NoArguments(tool: string, ctx: Option<Context>)
    ensures var plan := PlanOf(tool, NoMembers);
      Agree(Dispatched(tool, "{}", 0, ctx), CarryOut(plan, ctx), Some(plan), ctx)
  {
    hide Dispatched, PlanOf, CarryOut, Agree;
    var c := DObj("", NoFields);
    assert Print(c) == "{}";
    assert At("{}", Value(SjObject, 0, 1, 1), c);
    DispatchMeans(tool, "{}", Value(SjObject, 0, 1, 1), c, ctx);
  }

  lemma IdAt(t: string, v: Option<Value>, c: Option<Doc>)
    requires Matches(t, v, c)
    ensures var id := ValueOr(v); id.start <= id.end <= |t| && IdText(t, id) == IdOf(ErasedOption(c))
  {
    if c.Some? { AtFacts(t, v.value, c.value); }
  }

  lemma NameAt(t: string, v: Option<Value>, c: Option<Doc>)
    requires Matches(t, v, c)
    ensures var name := ValueOr(v);
      && name.start <= name.end <= |t|
      && (name.kind.SjString? <==> c.Some? && Erase(c.value).JStr?)
      && (name.kind.SjObject? <==> c.Some? && Erase(c.value).JObj?)
      && (name.kind.SjString? ==> Slice(t, name) == Erase(c.value).raw)
  {
    if c.Some? { AtFacts(t, v.value, c.value); }
  }

  /** The plan of a call with these parameters. */
  function ParamsPlan(params: Option<Json>): Option<Plan> {
    if params.Some? && params.value.JObj? then PlanOfCall(params.value.members) else None
  }

  lemma CallMeans(t: string, id: string, v: Option<Value>, c: Option<Doc>, ctx: Option<Context>)
    requires Matches(t, v, c)
    ensures var params := ValueOr(v);
      && params.start <= params.end <= |t|
      && Agree(CallTool(t, id, params, ctx), MeansCall(id, ErasedOption(c), ctx), ParamsPlan(ErasedOption(c)), ctx)
  {
    hide Read, Entries, FieldsAt, LastOf, LastDoc, Get, CarryOut, PlanOf, Dispatched, At, JrpcOk, JrpcErr, Slice, Whole,
         PlainDoubles, CStr, Clip;
    NameAt(t, v, c);
    NoPlan(ctx);
    if c.Some? && c.value.DObj? {
      var q, f := v.value.start + 1 + |c.value.pad|, c.value.fields;
      FreshEntries(t, v.value, c.value);
      LookUp(t, q, f, 1, "name"); LastErase(f, "name");
      LookUp(t, q, f, 1, "arguments"); LastErase(f, "arguments");
      var e := FieldEntries(q, f, 1);
      NameAt(t, LastOf(t, e, "name"), LastDoc(f, "name"));
      if LastDoc(f, "name").Some? && LastDoc(f, "name").value.DStr? {
        ArgumentsMean(CStr(Clip(LastDoc(f, "name").value.raw, 63)), t, LastOf(t, e, "arguments"), LastDoc(f, "arguments"), ctx);
      }
    }
  }

  /** The arguments of a call, given or not. */
  lemma ArgumentsMean(tool: string, t: string, v: Option<Value>, c: Option<Doc>, ctx: Option<Context>)
    requires Matches(t, v, c)
    ensures var args := ValueOr(v);
      var given := if c.Some? && c.value.DObj? then EraseFields(c.value.fields) else NoMembers;
      var plan := PlanOf(tool, given);
      && args.start <= args.end <= |t|
      && Agree(if args.kind.SjObject? then Dispatched(tool, t, args.start, ctx) else Dispatched(tool, "{}", 0, ctx),
               CarryOut(plan, ctx), Some(plan), ctx)
  {
    hide PlanOf, CarryOut, Dispatched, At, Slice, Agree;
    NameAt(t, v, c);
    if c.Some? && c.value.DObj? { DispatchMeans(tool, t, v.value, c.value, ctx); } else { NoArguments(tool, ctx); }
  }

  lemma NoPlan(ctx: Option<Context>)
    ensures Whole(None, ctx)
  {
  }

  lemma AnswerMeans(t: string, q: nat, f: Fields, ctx: Option<Context>, tools: seq<Tool>)
    requires FieldsAt(t, q, f)
    ensures var e := FieldEntries(q, f, 1);
      InText(t, e)
      && Agree(Answer(t, e, ctx, tools), Means(EraseFields(f), ctx, tools), RequestPlan(EraseFields(f)), ctx)
  {
    hide FieldsAt, LastOf, LastDoc, Get, CallTool, MeansCall, At, JrpcOk, JrpcErr, InitResult, ToolsResult, IdText, IdOf,
         Whole, PlainDoubles, PlanOfCall;
    var e := FieldEntries(q, f, 1);
    NoPlan(ctx);
    LookUp(t, q, f, 1, "id"); LastErase(f, "id");
    LookUp(t, q, f, 1, "method"); LastErase(f, "method");
    LookUp(t, q, f, 1, "params"); LastErase(f, "params");
    IdAt(t, LastOf(t, e, "id"), LastDoc(f, "id"));
    NameAt(t, LastOf(t, e, "method"), LastDoc(f, "method"));
    CallMeans(t, IdOf(Get(EraseFields(f), "id")), LastOf(t, e, "params"), LastDoc(f, "params"), ctx);
  }

  /** End to end: for every well-formed request object, however it is laid out and whatever follows
      it, the response and the XML-RPC body posted to Odoo are those its JSON tree means, exactly
      when no string or key in the trees a call sends holds a NUL byte. */
  lemma EndToEnd(lead: string, root: Doc, trail: string, ctx: Option<Context>, tools: seq<Tool>)
    requires IsGap(lead) && WellFormed(root) && root.DObj?
    ensures var m := Erase(root).members;
      var got, meant := Handled(lead + Print(root) + trail, ctx, tools), Means(m, ctx, tools);
      && (Whole(RequestPlan(m), ctx) ==> got == meant)
      && (ctx.Some? && PlainDoubles(ctx.value.g, '\0') && got == meant ==> Whole(RequestPlan(m), ctx))
  {
    hide Read, Entries, Answer, Means, FieldsAt, Has, IterObject, Whole, RequestPlan, PlainDoubles;
    var t := lead + Print(root) + trail;
    var p := |lead|;
    HasSelf(lead, Print(root), trail);
    assert DocAt(t, p, root);
    EntriesOfObject(t, State(0, 0, NoFault), p, root);
    var (s, obj) := Read(t, State(0, 0, NoFault));
    FirstEntryOk(t, s, obj);
    AtToken(t, p, root);
    FreshEntries(t, Token(p, root, 0), root);
    AnswerMeans(t, p + 1 + |root.pad|, root.fields, ctx, tools);
  }

  lemma AtToken(t: string, p: nat, c: Doc)
    requires DocAt(t, p, c) && WellFormed(c) && c.DObj?
    ensures At(t, Token(p, c, 0), c)
  {
  }

  lemma FirstEntryOk(t: string, s: State, obj: Value)
    requires s.cur <= |t| && AfterEntries(t, s, obj).fault == NoFault
    ensures IterObject(t, s, obj).st.fault == NoFault
  {
    hide Read, Discard;
  }

  // ----- when what is sent is what was given -----

  /** A string member goes out as given exactly when it holds no backslash. */
  lemma PassedVerbatim(raw: string)
    requires IsRaw(raw)
    ensures Passed(JStr(raw)) == JStr(raw) <==> '\\' !in raw
  {
    RequoteExact(raw);
  }

  /** The integer read for `limit` or `offset` goes out as its own number would: read with one
      scratch buffer, printed, read again with another, printed again. */
  lemma IntegerPassed(lexeme: string, other: int, g: DoubleText)
    requires !IsFloating(lexeme) && |lexeme| <= 31
    ensures XmlOf(JNum(Dec(IntegerOr(Some(JNum(lexeme)), other))), g) == XmlOf(JNum(lexeme), g)
  {
    hide IsFloating, Strtoll, Dec, Clip;
    var n := Strtoll(lexeme);
    DecimalRoundTrip(n);
    DecimalLength(n);
    DecPlain(n);
  }

  lemma DecPlain(n: int)
    ensures !IsFloating(Dec(n))
  {
    hide Dec, Digits;
  }
}
