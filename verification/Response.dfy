/** Reading responses back with the same cursor: every answer is one JSON-RPC response object
    (section 5 of the JSON-RPC 2.0 specification), whatever bytes the request was. */
module Response {
  import opened Options
  import opened Text
  import opened Cursor
  import opened Json
  import opened JsonLaws
  import opened Tokens
  import opened Escape
  import opened Odoo
  import opened Dispatch
  import opened Mcp
  import opened JsonParts
  import opened RawCopy

  // ----- well-formed pieces -----

  ghost predicate JsonText(w: string) {
    exists c :: WellFormed(c) && Print(c) == w
  }

  /** `w` is a JSON text of the tree `j`. */
  ghost predicate Tells(w: string, j: Json) {
    exists c :: WellFormed(c) && Print(c) == w && Erase(c) == j
  }

  ghost function DocOf(w: string, j: Json): (c: Doc)
    requires Tells(w, j)
    ensures WellFormed(c) && Print(c) == w && Erase(c) == j
  {
    var c :| WellFormed(c) && Print(c) == w && Erase(c) == j; c
  }

  lemma TellsDoc(c: Doc)
    requires WellFormed(c)
    ensures Tells(Print(c), Erase(c))
  {
  }

  /** The tree of a JSON text is the one the cursor sees in it. */
  lemma TellsTree(w: string, j: Json)
    requires Tells(w, j)
    ensures JsonText(w) && TreeOf(w) == j
  {
    hide Print, WellFormed, Erase;
    var c := DocOf(w, j);
    TreeOfText("", c, "");
    assert "" + w + "" == w;
  }

  lemma JsonTells(w: string)
    requires JsonText(w)
    ensures Tells(w, TreeOf(w))
  {
    hide Print, WellFormed, Erase;
    var c :| WellFormed(c) && Print(c) == w;
    TellsDoc(c);
    TellsTree(w, Erase(c));
  }

  // ----- trees -----

  function Obj1(k: string, j: Json): Json { JObj(Member(k, j, NoMembers)) }

  function Obj2(k1: string, j1: Json, k2: string, j2: Json): Json { JObj(Member(k1, j1, Member(k2, j2, NoMembers))) }

  function Obj3(k1: string, j1: Json, k2: string, j2: Json, k3: string, j3: Json): Json {
    JObj(Member(k1, j1, Member(k2, j2, Member(k3, j3, NoMembers))))
  }

  /** An object of one field. */
  lemma OneField(key: string, v: string, j: Json)
    requires '"' !in key && '\\' !in key && Tells(v, j)
    ensures Tells("{" + Key(key) + v + "}", Obj1(key, j))
  {
    hide Print, WellFormed, Erase, Key;
    OneText(key, DocOf(v, j));
    TellsDoc(One(key, DocOf(v, j)));
  }

  /** An object of two fields. */
  lemma TwoFields(k1: string, v1: string, j1: Json, k2: string, v2: string, j2: Json)
    requires '"' !in k1 && '\\' !in k1 && Tells(v1, j1) && '"' !in k2 && '\\' !in k2 && Tells(v2, j2)
    ensures Tells("{" + Key(k1) + v1 + "," + Key(k2) + v2 + "}", Obj2(k1, j1, k2, j2))
  {
    hide Print, WellFormed, Erase, Key;
    TwoText(k1, DocOf(v1, j1), k2, DocOf(v2, j2));
    TellsDoc(Two(k1, DocOf(v1, j1), k2, DocOf(v2, j2)));
  }

  /** An object of three fields. */
  lemma ThreeFields(k1: string, v1: string, j1: Json, k2: string, v2: string, j2: Json, k3: string, v3: string, j3: Json)
    requires '"' !in k1 && '\\' !in k1 && Tells(v1, j1) && '"' !in k2 && '\\' !in k2 && Tells(v2, j2)
    requires '"' !in k3 && '\\' !in k3 && Tells(v3, j3)
    ensures Tells("{" + Key(k1) + v1 + "," + Key(k2) + v2 + "," + Key(k3) + v3 + "}", Obj3(k1, j1, k2, j2, k3, j3))
  {
    hide Print, WellFormed, Erase, Key;
    var c1, c2, c3 := DocOf(v1, j1), DocOf(v2, j2), DocOf(v3, j3);
    ThreeText(k1, c1, k2, c2, k3, c3);
    TellsDoc(DObj("", Three(k1, c1, k2, c2, k3, c3)));
  }

  lemma LitJson(w: string)
    requires IsRaw(w)
    ensures Tells(Lit(w), JStr(w))
  {
    TellsDoc(DStr(w));
  }

  /** A quoted C string: a string whose unescaping is the C string. */
  lemma QuotedJson(s: string)
    ensures Tells(Quoted(s), JStr(EscapeAll(s))) && Unescape(EscapeAll(s)) == Some(s)
  {
    EscapeAllRaw(s);
    UnescapeAll(s);
    LitJson(EscapeAll(s));
  }

  /** An array of one element. */
  lemma SingleJson(v: string, j: Json)
    requires Tells(v, j)
    ensures Tells("[" + v + "]", JArr(Item(j, NoItems)))
  {
    hide Print, WellFormed, Erase;
    OneElemText(DocOf(v, j));
    TellsDoc(OneElem(DocOf(v, j)));
  }

  lemma WordJson(w: string)
    requires '"' !in w && '\\' !in w
    ensures Tells(Lit(w), JStr(w))
  {
    PlainRaw(w);
    LitJson(w);
  }

  lemma TrueJson()
    ensures Tells("true", JBool(true))
  {
    TellsDoc(DBool(true));
  }

  lemma EmptyJson()
    ensures Tells("{}", JObj(NoMembers))
  {
    TellsDoc(DObj("", NoFields));
  }

  lemma IntegerJson(n: int)
    ensures Tells(Dec(n), JNum(Dec(n)))
  {
    IntegerText(n);
    TellsDoc(DNum(Dec(n)));
  }

  // ----- tool results -----

  /** MCP content: one text block. */
  function Block(w: string): Json { JArr(Item(Obj2("type", JStr("text"), "text", JStr(w)), NoItems)) }

  /** A tool result that reports an error. */
  predicate ReportsError(j: Json, msg: string) { j == Obj2("isError", JBool(true), "content", Block(msg)) }

  /** A tool result whose text, unescaped, is `text`. */
  ghost predicate ReportsText(j: Json, text: string) {
    exists w :: j == Obj1("content", Block(w)) && Unescape(w) == Some(text)
  }

  lemma ContentJson(text: string, w: string)
    requires Tells(text, JStr(w))
    ensures Tells(Content(text), Block(w))
  {
    hide Key, Lit, Tells;
    WordJson("text");
    TwoFields("type", Lit("text"), JStr("text"), "text", text, JStr(w));
    SingleJson("{" + Key("type") + Lit("text") + "," + Key("text") + text + "}", Obj2("type", JStr("text"), "text", JStr(w)));
  }

  lemma ErrorReplyJson(msg: string)
    requires IsRaw(msg)
    ensures Tells(ErrorReply(msg), Obj2("isError", JBool(true), "content", Block(msg)))
  {
    hide Key, Lit, Tells, Content, Block;
    LitJson(msg);
    ContentJson(Lit(msg), msg);
    TrueJson();
    TwoFields("isError", "true", JBool(true), "content", Content(Lit(msg)), Block(msg));
  }

  lemma TextReplyJson(text: string)
    ensures Tells(TextReply(text), Obj1("content", Block(EscapeAll(text)))) && Unescape(EscapeAll(text)) == Some(text)
  {
    hide Key, Lit, Quoted, Tells, Content, Block;
    QuotedJson(text);
    ContentJson(Quoted(text), EscapeAll(text));
    OneField("content", Content(Quoted(text)), Block(EscapeAll(text)));
  }

  // ----- the other results -----

  /** The answer to `initialize`. */
  function InitTree(): Json {
    Obj3("protocolVersion", JStr("2025-03-26"), "capabilities", Obj1("tools", JObj(NoMembers)),
         "serverInfo", Obj2("name", JStr("odoo-mcp-server"), "version", JStr("1.0.0")))
  }

  lemma InitResultJson()
    ensures Tells(InitResult(), InitTree())
  {
    hide Key, Lit, Tells;
    EmptyJson();
    OneField("tools", "{}", JObj(NoMembers));
    WordJson("odoo-mcp-server");
    WordJson("1.0.0");
    WordJson("2025-03-26");
    TwoFields("name", Lit("odoo-mcp-server"), JStr("odoo-mcp-server"), "version", Lit("1.0.0"), JStr("1.0.0"));
    InitResultParts("{" + Key("tools") + "{}" + "}",
      "{" + Key("name") + Lit("odoo-mcp-server") + "," + Key("version") + Lit("1.0.0") + "}");
  }

  lemma InitResultParts(tools: string, info: string)
    requires Tells(tools, Obj1("tools", JObj(NoMembers))) && tools == "{" + Key("tools") + "{}" + "}"
    requires Tells(info, Obj2("name", JStr("odoo-mcp-server"), "version", JStr("1.0.0")))
    requires info == "{" + Key("name") + Lit("odoo-mcp-server") + "," + Key("version") + Lit("1.0.0") + "}"
    requires Tells(Lit("2025-03-26"), JStr("2025-03-26"))
    ensures Tells(InitResult(), InitTree())
  {
    hide Key, Lit, Tells;
    var version := Lit("2025-03-26");
    ThreeFields("protocolVersion", version, JStr("2025-03-26"), "capabilities", tools, Obj1("tools", JObj(NoMembers)),
                "serverInfo", info, Obj2("name", JStr("odoo-mcp-server"), "version", JStr("1.0.0")));
    assert "{" + Key("protocolVersion") + version + "," + Key("capabilities") + tools + "," + Key("serverInfo") + info + "}"
      == InitResult();
  }

  ghost predicate JsonSchemas(tools: seq<Tool>) {
    forall i :: 0 <= i < |tools| ==> JsonText(tools[i].schema)
  }

  /** A listed tool: its name and description unescape to the registry's, and its schema is the
      registry's tree. */
  predicate ListsTool(j: Json, tool: Tool) {
    && j.JObj? && j.members.Member? && j.members.rest.Member? && j.members.rest.rest.Member?
    && var m := j.members;
    && m.key == "name" && m.val.JStr? && Unescape(m.val.raw) == Some(tool.name)
    && m.rest.key == "description" && m.rest.val.JStr? && Unescape(m.rest.val.raw) == Some(tool.description)
    && m.rest.rest.key == "inputSchema" && m.rest.rest.val == TreeOf(tool.schema) && m.rest.rest.rest.NoMembers?
  }

  function ToolTree(tool: Tool): Json {
    Obj3("name", JStr(EscapeAll(tool.name)), "description", JStr(EscapeAll(tool.description)),
         "inputSchema", TreeOf(tool.schema))
  }

  lemma ToolJson(tool: Tool)
    requires JsonText(tool.schema)
    ensures Tells(ToolText(tool), ToolTree(tool)) && ListsTool(ToolTree(tool), tool)
  {
    hide Key, Lit, Quoted, Tells, TreeOf, Unescape;
    QuotedJson(tool.name);
    QuotedJson(tool.description);
    JsonTells(tool.schema);
    ThreeFields("name", Quoted(tool.name), JStr(EscapeAll(tool.name)),
                "description", Quoted(tool.description), JStr(EscapeAll(tool.description)),
                "inputSchema", tool.schema, TreeOf(tool.schema));
  }

  /** The items list exactly the tools from the `i`th on, in order. */
  predicate ListsTools(items: Items, tools: seq<Tool>, i: nat)
    requires i <= |tools|
    decreases |tools| - i
  {
    if i == |tools| then items.NoItems?
    else items.Item? && ListsTool(items.head, tools[i]) && ListsTools(items.tail, tools, i + 1)
  }

  /** The listed tools from the `i`th on, as array elements. */
  ghost function ToolElems(tools: seq<Tool>, i: nat): Elems
    requires i <= |tools| && JsonSchemas(tools)
    decreases |tools| - i
  {
    if i == |tools| then NoElems
    else
      ToolJson(tools[i]);
      Elem(DocOf(ToolText(tools[i]), ToolTree(tools[i])), if i + 1 < |tools| then "," else "", ToolElems(tools, i + 1))
  }

  lemma {:induction false} ToolElemsText(tools: seq<Tool>, i: nat)
    requires i < |tools| && JsonSchemas(tools)
    ensures WellFormedElems(ToolElems(tools, i))
    ensures (if i > 0 then "," else "") + PrintElems(ToolElems(tools, i)) == ToolTexts(tools, i)
    ensures ListsTools(EraseElems(ToolElems(tools, i)), tools, i)
    decreases |tools| - i
  {
    hide ToolText, Print, WellFormed, Erase, JsonText, Tells, ToolTree, ListsTool;
    ToolJson(tools[i]);
    var x, comma := ToolText(tools[i]), if i > 0 then "," else "";
    if i + 1 < |tools| {
      ToolElemsText(tools, i + 1);
      var rest := PrintElems(ToolElems(tools, i + 1));
      assert comma + (x + "," + rest) == comma + x + ("," + rest);
    } else {
      assert comma + (x + "" + "") == comma + x + "";
      assert ToolElems(tools, i + 1) == NoElems;
    }
  }

  /** The answer to `tools/list` lists exactly the registry's tools. */
  ghost predicate ListsAll(j: Json, tools: seq<Tool>) {
    exists items :: j == Obj1("tools", JArr(items)) && ListsTools(items, tools, 0)
  }

  lemma ToolsResultJson(tools: seq<Tool>)
    requires JsonSchemas(tools)
    ensures exists j :: Tells(ToolsResult(tools), j) && ListsAll(j, tools)
  {
    hide Key, ToolText, Print, WellFormed, Erase, ToolElems, ListsTool;
    var e := ToolElems(tools, 0);
    NoToolElems(tools);
    if tools != [] { ToolElemsText(tools, 0); }
    assert "" + PrintElems(e) == PrintElems(e);
    ArrayText(e);
    TellsDoc(DArr("", e));
    OneField("tools", "[" + ToolTexts(tools, 0) + "]", JArr(EraseElems(e)));
    assert ListsAll(Obj1("tools", JArr(EraseElems(e))), tools);
  }

  lemma NoToolElems(tools: seq<Tool>)
    requires JsonSchemas(tools)
    ensures tools == [] ==> ToolElems(tools, 0) == NoElems
  {
  }

  // ----- the id of a request -----

  /** A number or string the cursor returns, from any bytes, is a well-formed token. */
  predicate TokenOk(t: string, v: Value) {
    v.start <= v.end <= |t|
    && (v.kind.SjNumber? ==> IsNumber(Slice(t, v)))
    && (v.kind.SjString? ==> IsRaw(Slice(t, v)))
  }

  lemma ReadTokenOk(t: string, s: State)
    requires s.cur <= |t|
    ensures TokenOk(t, Read(t, s).1)
  {
    hide IsNumber, IsRaw;
    var p := SkipSeps(t, s.cur);
    if s.fault == NoFault && p < |t| {
      if t[p] == '-' || IsDigit(t[p]) { NumEndNumber(t, p); }
      if t[p] == '"' && StrEnd(t, p + 1) < |t| { StrEndRaw(t, p + 1); }
    }
  }

  lemma NumEndNumber(t: string, p: nat)
    requires p < |t| && (t[p] == '-' || IsDigit(t[p]))
    ensures IsNumber(t[p..NumEnd(t, p)])
  {
    var w := t[p..NumEnd(t, p)];
    assert NumEnd(t, p) > p;
    assert w[0] == t[p];
    forall i | 0 <= i < |w| ensures NumberByte(w[i]) { assert w[i] == t[p + i]; }
  }

  lemma {:induction false} EntriesOk(t: string, s: State, obj: Value)
    requires s.cur <= |t|
    ensures forall i :: 0 <= i < |Entries(t, s, obj)| ==> TokenOk(t, Entries(t, s, obj)[i].1)
    decreases |t| - s.cur
  {
    hide Read, TokenOk;
    var step := IterObject(t, s, obj);
    if step.ok {
      ReadTokenOk(t, Read(t, Discard(t, s, obj.depth)).0);
      EntriesOk(t, step.st, obj);
    }
  }

  lemma {:induction false} LastOk(t: string, e: seq<Entry>, key: string)
    requires InText(t, e) && forall i :: 0 <= i < |e| ==> TokenOk(t, e[i].1)
    ensures LastOf(t, e, key).Some? ==> TokenOk(t, LastOf(t, e, key).value)
    decreases |e|
  {
    hide TokenOk;
    if e != [] { LastOk(t, e[..|e| - 1], key); }
  }

  // ----- reading a response back -----

  /** The request is an object, and its first member, if any, can be read. */
  predicate Parses(t: string) {
    var (s, root) := Read(t, State(0, 0, NoFault));
    root.kind.SjObject? && IterObject(t, s, root).st.fault == NoFault
  }

  lemma ParsesIs(t: string)
    ensures Parses(t) <==> !Unparsable(t)
  {
    hide Read, IterObject;
  }

  /** The id value of a request, absent when there is none or the request does not parse. */
  function RequestId(t: string): Value {
    if !Parses(t) then ABSENT
    else
      var (s, root) := Read(t, State(0, 0, NoFault));
      ValueOr(LastOf(t, Entries(t, s, root), "id"))
  }

  /** The one kind of request that gets no answer. */
  predicate IsNotification(t: string) {
    Parses(t) &&
    var (s, root) := Read(t, State(0, 0, NoFault));
    var name := ValueOr(LastOf(t, Entries(t, s, root), "method"));
    name.kind.SjString? && (Slice(t, name) == "notifications/initialized" || Slice(t, name) == "initialized")
  }

  /** Iterating `r` gives `jsonrpc`, `id`, then exactly one of `result` and `error`, and ends; the
      id is the request's number, its string with quotes and backslashes escaped, or null. */
  predicate ReadsBack(r: string, t: string, id: Value)
    requires id.start <= id.end <= |t|
  {
    var (s, obj) := Read(r, State(0, 0, NoFault));
    var e := Entries(r, s, obj);
    && obj.kind.SjObject? && |e| == 3 && AfterEntries(r, s, obj).fault == NoFault
    && Slice(r, e[0].0) == "jsonrpc" && e[0].1.kind.SjString? && Slice(r, e[0].1) == "2.0"
    && Slice(r, e[1].0) == "id"
    && (match id.kind
        case SjNumber => e[1].1.kind.SjNumber? && Slice(r, e[1].1) == Slice(t, id)
        case SjString => e[1].1.kind.SjString? && Slice(r, e[1].1) == Requote(Slice(t, id))
        case _ => e[1].1.kind.SjNull?)
    && (Slice(r, e[2].0) == "result" || Slice(r, e[2].0) == "error")
  }

  /** The text of the id in the response. */
  function IdDoc(t: string, id: Value): Doc
    requires id.start <= id.end <= |t|
  {
    match id.kind
    case SjNumber => DNum(Slice(t, id))
    case SjString => DStr(Requote(Slice(t, id)))
    case _ => DNull
  }

  lemma IdDocOk(t: string, id: Value)
    requires TokenOk(t, id)
    ensures WellFormed(IdDoc(t, id)) && Print(IdDoc(t, id)) == IdText(t, id)
  {
    if id.kind.SjString? { RequoteRaw(Slice(t, id)); }
  }

  /** The kind of value the cursor returns for a text. */
  function KindOf(c: Doc): Kind { Token(0, c, 0).kind }

  /** One entry is the field `key`, whose value is the text `c`. */
  predicate EntryIs(r: string, x: Entry, key: string, c: Doc) {
    && x.0.start <= x.0.end <= |r| && x.1.start <= x.1.end <= |r|
    && Slice(r, x.0) == key && x.1.kind == KindOf(c)
    && (c.DStr? ==> Slice(r, x.1) == c.raw) && (c.DNum? ==> Slice(r, x.1) == c.lexeme)
  }

  predicate FieldsHere(r: string, q: nat, f: Fields) {
    WellFormedFields(f) && Has(r, q, PrintFields(f)) && Has(r, q + |PrintFields(f)|, "}")
  }

  lemma SliceDoc(r: string, p: nat, c: Doc)
    requires DocAt(r, p, c)
    ensures var v := Token(p, c, 1);
      && v.start <= v.end <= |r| && v.kind == KindOf(c)
      && (c.DStr? ==> Slice(r, v) == c.raw) && (c.DNum? ==> Slice(r, v) == c.lexeme)
  {
    match c
    case DStr(raw) => SliceStr(r, p, raw);
    case DArr(_, _) => HasAt(r, p, Print(c), 0);
    case DObj(_, _) => HasAt(r, p, Print(c), 0);
    case _ =>
  }

  lemma {:induction false} EntriesAre(r: string, q: nat, f: Fields)
    requires FieldsHere(r, q, f)
    ensures var e := FieldEntries(q, f, 1);
      if f.NoFields? then e == []
      else var q1 := q + 2 + |f.key| + |f.colon| + |Print(f.val)| + |f.gap|;
        e != [] && EntryIs(r, e[0], f.key, f.val) && e[1..] == FieldEntries(q1, f.rest, 1) && FieldsHere(r, q1, f.rest)
  {
    hide FieldEntries, PrintFields, EntryIs, Print, Token, DocAt, Has, WellFormed, Ready, Closed;
    FieldEntriesStep(q, f, 1);
    if f.Field? {
      SplitField(r, q, f);
      AfterField(r, q, f, 1);
      EntryHere(r, q, f.key, q + 2 + |f.key| + |f.colon|, f.val);
    }
  }

  lemma EntryHere(r: string, q: nat, key: string, p: nat, c: Doc)
    requires DocAt(r, q, DStr(key)) && DocAt(r, p, c)
    ensures EntryIs(r, (Token(q, DStr(key), 1), Token(p, c, 1)), key, c)
  {
    hide DocAt;
    SliceDoc(r, q, DStr(key));
    SliceDoc(r, p, c);
  }

  lemma ThreeEntries(r: string, q: nat, k1: string, c1: Doc, k2: string, c2: Doc, k3: string, c3: Doc)
    requires FieldsHere(r, q, Three(k1, c1, k2, c2, k3, c3))
    ensures var e := FieldEntries(q, Three(k1, c1, k2, c2, k3, c3), 1);
      |e| == 3 && EntryIs(r, e[0], k1, c1) && EntryIs(r, e[1], k2, c2) && EntryIs(r, e[2], k3, c3)
  {
    hide EntryIs, FieldsHere, FieldEntries;
    var f3 := Field(k3, ":", c3, "", NoFields);
    var f2 := Field(k2, ":", c2, ",", f3);
    var f1 := Field(k1, ":", c1, ",", f2);
    EntriesAre(r, q, f1);
    var q2 := q + 2 + |k1| + |":"| + |Print(c1)| + |","|;
    EntriesAre(r, q2, f2);
    var q3 := q2 + 2 + |k2| + |":"| + |Print(c2)| + |","|;
    EntriesAre(r, q3, f3);
    var q4 := q3 + 2 + |k3| + |":"| + |Print(c3)| + |""|;
    EntriesAre(r, q4, NoFields);
  }

  lemma WholeText(d: Doc)
    requires WellFormed(d) && d.DObj?
    ensures DocAt(Print(d), 0, d) && FieldsHere(Print(d), 1 + |d.pad|, d.fields)
  {
    var r := Print(d);
    assert r[0..|r|] == r;
    HasSplit(r, 0, "{" + d.pad + PrintFields(d.fields), "}");
    HasSplit(r, 0, "{" + d.pad, PrintFields(d.fields));
  }

  /** A response with any JSON body reads back. */
  lemma ThreeReadBack(t: string, id: Value, key: string, body: string)
    requires TokenOk(t, id) && (key == "result" || key == "error") && JsonText(body)
    ensures ReadsBack("{" + Key("jsonrpc") + Lit("2.0") + "," + Key("id") + IdText(t, id) + "," + Key(key) + body + "}", t, id)
  {
    hide Read, Entries, AfterEntries, IdText, Requote, EntryIs, FieldsHere, FieldEntries, Key, Print, WellFormed, Three, IdDoc, IsRaw,
         ReadsBack, Lit, Erase;
    IdDocOk(t, id);
    WordDoc("2.0");
    var c3 :| WellFormed(c3) && Print(c3) == body;
    var c1, c2 := DStr("2.0"), IdDoc(t, id);
    var d := DObj("", Three("jsonrpc", c1, "id", c2, key, c3));
    ThreeText("jsonrpc", c1, "id", c2, key, c3);
    WholeText(d);
    ThreeEntries(Print(d), 1, "jsonrpc", c1, "id", c2, key, c3);
    DocReadsBack(Print(d), d, t, id, key);
  }

  lemma WordDoc(w: string)
    requires '"' !in w && '\\' !in w
    ensures WellFormed(DStr(w)) && Print(DStr(w)) == Lit(w)
  {
    PlainRaw(w);
  }

  lemma DocReadsBack(r: string, d: Doc, t: string, id: Value, key: string)
    requires TokenOk(t, id) && d.DObj? && d.pad == "" && WellFormed(d) && DocAt(r, 0, d)
    requires key == "result" || key == "error"
    requires var e := FieldEntries(1, d.fields, 1);
      |e| == 3 && EntryIs(r, e[0], "jsonrpc", DStr("2.0")) && EntryIs(r, e[1], "id", IdDoc(t, id))
      && exists c :: EntryIs(r, e[2], key, c)
    ensures ReadsBack(r, t, id)
  {
    hide Read, Entries, AfterEntries, FieldEntries, Requote, Slice, WellFormed;
    EntriesOfObject(r, State(0, 0, NoFault), 0, d);
  }

  // ----- every response -----

  lemma RefusalRaw(tool: string, t: string, e: seq<Entry>)
    requires InText(t, e)
    ensures var call := CallOf(tool, t, e); call.Refused? ==> IsRaw(call.msg)
  {
    hide CallOf, IsRaw;
    var call := CallOf(tool, t, e);
    RefusalMessages(tool, t, e);
    if call.Refused? {
      if call.msg == "missing required field: model" {
        ModelMessage();
      } else if call.msg == "values must be a non-empty object" {
        ValuesMessage();
      } else if call.msg == "unknown tool" {
        PlainRaw("unknown tool");
      } else {
        IdsMessage();
      }
    }
  }

  lemma RefusalMessages(tool: string, t: string, e: seq<Entry>)
    requires InText(t, e)
    ensures var call := CallOf(tool, t, e); call.Refused? ==>
      || call.msg == "missing required field: model" || call.msg == "values must be a non-empty object"
      || call.msg == "missing required fields: record_ids, values" || call.msg == "unknown tool"
  {
    hide LastOf, LastString, ValueJson, JsonOr, SearchKwargs;
  }

  lemma ModelMessage()
    ensures IsRaw("missing required field: model")
  {
    PlainRaw("missing required field: model");
  }

  lemma ValuesMessage()
    ensures IsRaw("values must be a non-empty object")
  {
    PlainRaw("values must be a non-empty object");
  }

  lemma IdsMessage()
    ensures IsRaw("missing required fields: record_ids, values")
  {
    PlainRaw("missing required fields: record_ids, values");
  }

  /** The bytes hold an XML-RPC fault. */
  ghost predicate HasFault(body: string) { exists p: nat :: FaultAt(body, p) }

  predicate FaultAt(body: string, p: nat) { p + 7 <= |body| && body[p..p + 7] == "<fault>" }

  /** What the client is shown of a response body: all of it up to a NUL, or what fits the buffer. */
  predicate Shown(x: string, body: string) {
    x <= body && NulFree(x) && |x| <= 262_143 && (|x| < 262_143 && x != body ==> body[|x|] == '\0')
  }

  /** A body with a fault in it never reaches the client, and any other does. */
  lemma ReceivedIs(r: Http)
    ensures r.NetError? || HasFault(CStr(r.body)) ==> Received(r) == None
    ensures r.Response? && !HasFault(CStr(r.body)) ==> Received(r).Some? && Shown(Received(r).value, r.body)
  {
    if r.Response? {
      ContainsFault(CStr(r.body));
      ClipShown(r.body);
    }
  }

  lemma ContainsFault(w: string)
    ensures Contains(w, "<fault>") <==> HasFault(w)
  {
    var fault := "<fault>";
    if HasFault(w) {
      var p: nat :| FaultAt(w, p);
      assert Has(w, p, fault);
    }
    if Contains(w, fault) {
      var p :| 0 <= p <= |w| && Has(w, p, fault);
      assert FaultAt(w, p);
    }
  }

  lemma ClipShown(body: string)
    ensures Shown(CStr(Clip(body, 262_143)), body)
  {
    var c := Clip(body, 262_143);
    var x := CStr(c);
    if |x| < |c| { assert c[|x|] == body[|x|]; }
  }

  /** The client is told what Odoo answered, or that there was an error. */
  ghost predicate Relays(j: Json, r: Http) {
    if r.NetError? || HasFault(CStr(r.body)) then ReportsText(j, "Odoo error \U{e2}\U{80}\U{94} see server log")
    else exists x :: Shown(x, r.body) && ReportsText(j, x)
  }

  /** The result of a call: a refusal with its message, or what Odoo answered. */
  ghost predicate Reports(j: Json, sent: seq<string>, call: Call, ctx: Option<Context>) {
    if call.Refused? then sent == [] && ReportsError(j, call.msg)
    else if ctx.None? then sent == [] && ReportsError(j, "no Odoo context")
    else if ctx.value.uid < 0 then sent == [] && ReportsText(j, "Odoo error \U{e2}\U{80}\U{94} see server log")
    else |sent| == 1 && Relays(j, ctx.value.post(sent[0]))
  }

  lemma TextReplyReports(text: string)
    ensures JsonText(TextReply(text)) && ReportsText(TreeOf(TextReply(text)), text)
  {
    hide TextReply, TreeOf, Tells, JsonText, Block, Unescape;
    TextReplyJson(text);
    TellsTree(TextReply(text), Obj1("content", Block(EscapeAll(text))));
  }

  lemma ErrorReplyReports(msg: string)
    requires IsRaw(msg)
    ensures JsonText(ErrorReply(msg)) && ReportsError(TreeOf(ErrorReply(msg)), msg)
  {
    hide ErrorReply, TreeOf, Tells, JsonText, Block, IsRaw;
    ErrorReplyJson(msg);
    TellsTree(ErrorReply(msg), Obj2("isError", JBool(true), "content", Block(msg)));
  }

  /** What carrying out a call reports. */
  lemma PerformReports(call: Call, ctx: Option<Context>)
    requires call.Refused? ==> IsRaw(call.msg)
    ensures var out := Perform(call, ctx); JsonText(out.reply) && Reports(TreeOf(out.reply), out.sent, call, ctx)
  {
    hide ErrorReply, TextReply, JsonText, IsRaw, CallEnvelope, CStr, TreeOf, ReportsText, ReportsError, HasFault, Shown,
         Received;
    if call.Refused? {
      ErrorReplyReports(call.msg);
    } else if ctx.None? {
      PlainRaw("no Odoo context");
      ErrorReplyReports("no Odoo context");
    } else {
      TextReplyReports(ODOO_ERROR);
      if 0 <= ctx.value.uid {
        var r := ctx.value.post(Perform(call, ctx).sent[0]);
        ReceivedIs(r);
        if Received(r).Some? { TextReplyReports(Received(r).value); }
      }
    }
  }

  lemma NoObjectReports()
    ensures var reply := ErrorReply("arguments must be an object");
      JsonText(reply) && ReportsError(TreeOf(reply), "arguments must be an object")
  {
    hide ErrorReply, TreeOf, JsonText, ReportsError;
    PlainRaw("arguments must be an object");
    ErrorReplyReports("arguments must be an object");
  }

  /** What `dispatch_tool` reports, for any bytes. */
  lemma DispatchedReports(tool: string, t: string, start: nat, ctx: Option<Context>)
    requires start <= |t|
    ensures var out := Dispatched(tool, t, start, ctx);
      var (s, obj) := Read(t, State(start, 0, NoFault));
      && JsonText(out.reply)
      && if obj.kind.SjObject? then Reports(TreeOf(out.reply), out.sent, CallOf(tool, t, Entries(t, s, obj)), ctx)
         else out.sent == [] && ReportsError(TreeOf(out.reply), "arguments must be an object")
  {
    hide Read, Entries, CallOf, Perform, ErrorReply, JsonText, IsRaw, TreeOf, Reports, ReportsError;
    NoObjectReports();
    var (s, obj) := Read(t, State(start, 0, NoFault));
    if obj.kind.SjObject? {
      RefusalRaw(tool, t, Entries(t, s, obj));
      PerformReports(CallOf(tool, t, Entries(t, s, obj)), ctx);
    }
  }

  /** The error of a response. */
  function ErrorTree(code: string, msg: string): Json { Obj2("code", JNum(code), "message", JStr(msg)) }

  lemma ErrorJson(code: int, msg: string)
    requires '"' !in msg && '\\' !in msg
    ensures Tells(ErrorObject(code, msg), ErrorTree(Dec(code), msg))
  {
    hide Key, Lit, Tells, Dec;
    IntegerJson(code);
    WordJson(msg);
    TwoFields("code", Dec(code), JNum(Dec(code)), "message", Lit(msg), JStr(msg));
  }

  lemma ErrReadsBack(t: string, id: Value, code: int, msg: string)
    requires TokenOk(t, id) && '"' !in msg && '\\' !in msg
    ensures ReadsBack(JrpcErr(IdText(t, id), code, msg), t, id)
  {
    hide ReadsBack, IdText, Key, Lit, TokenOk, ErrorObject, Tells, TreeOf;
    ErrorJson(code, msg);
    TellsTree(ErrorObject(code, msg), ErrorTree(Dec(code), msg));
    ThreeReadBack(t, id, "error", ErrorObject(code, msg));
  }

  lemma OkReadsBack(t: string, id: Value, result: string)
    requires TokenOk(t, id) && JsonText(result)
    ensures ReadsBack(JrpcOk(IdText(t, id), result), t, id)
  {
    hide ReadsBack, IdText, Key, Lit, TokenOk, JsonText;
    ThreeReadBack(t, id, "result", result);
  }

  lemma CallReadsBack(t: string, id: Value, params: Value, ctx: Option<Context>)
    requires TokenOk(t, id) && params.start <= params.end <= |t|
    ensures ReadsBack(CallTool(t, IdText(t, id), params, ctx).reply, t, id)
  {
    hide Read, Entries, LastOf, JrpcOk, JrpcErr, ReadsBack, IdText, TokenOk, Dispatched, JsonText, ToolName;
    ErrReadsBack(t, id, -32602, "Invalid params");
    ErrReadsBack(t, id, -32602, "Invalid params: missing tool name");
    if params.kind.SjObject? {
      var (s, obj) := Read(t, State(params.start, 0, NoFault));
      var e := Entries(t, s, obj);
      var name, args := ValueOr(LastOf(t, e, "name")), ValueOr(LastOf(t, e, "arguments"));
      var tool := ToolName(t, name);
      DispatchedReports(tool, "{}", 0, ctx);
      OkReadsBack(t, id, Dispatched(tool, "{}", 0, ctx).reply);
      if args.kind.SjObject? {
        DispatchedReports(tool, t, args.start, ctx);
        OkReadsBack(t, id, Dispatched(tool, t, args.start, ctx).reply);
      }
    }
  }

  /** Read-back: for every byte string that is not an initialized notification, the response is one
      JSON-RPC object with exactly one of result and error and with the request's id; a notification
      has no response. */
  lemma ResponseReadBack(t: string, ctx: Option<Context>, tools: seq<Tool>)
    requires JsonSchemas(tools)
    ensures var id := RequestId(t);
      && id.start <= id.end <= |t|
      && var reply := Handled(t, ctx, tools).reply;
      if IsNotification(t) then reply == "" else ReadsBack(reply, t, id)
  {
    hide Read, Entries, LastOf, Unparsable, JrpcOk, JrpcErr, ReadsBack, TokenOk, CallTool, InitResult, ToolsResult, JsonText,
         Tells, TreeOf, InitTree, ListsAll, Parses;
    ParsesIs(t);
    if Unparsable(t) {
      AbsentOk(t);
      ErrReadsBack(t, ABSENT, -32700, "Parse error");
    } else {
      var (s, root) := Read(t, State(0, 0, NoFault));
      var e := Entries(t, s, root);
      var id := RequestId(t);
      EntriesOk(t, s, root);
      LastOk(t, e, "id");
      AbsentOk(t);
      ErrReadsBack(t, id, -32600, "Invalid Request");
      ErrReadsBack(t, id, -32601, "Method not found");
      InitResultJson();
      TellsTree(InitResult(), InitTree());
      OkReadsBack(t, id, InitResult());
      ToolsResultJson(tools);
      var j :| Tells(ToolsResult(tools), j);
      TellsTree(ToolsResult(tools), j);
      OkReadsBack(t, id, ToolsResult(tools));
      CallReadsBack(t, id, ValueOr(LastOf(t, e, "params")), ctx);
    }
  }

  lemma AbsentOk(t: string)
    ensures TokenOk(t, ABSENT) && IdText(t, ABSENT) == "null"
  {
  }

  /** The request's id, also when it is absent, is a token the cursor returned. */
  lemma RequestIdOk(t: string)
    ensures TokenOk(t, RequestId(t))
  {
    hide Read, Entries, LastOf, Parses, TokenOk;
    AbsentOk(t);
    if Parses(t) {
      var (s, root) := Read(t, State(0, 0, NoFault));
      EntriesOk(t, s, root);
      LastOk(t, Entries(t, s, root), "id");
    }
  }

  /** The id a response carries, as its reader sees it. */
  function EchoedId(reply: string): Value {
    var (s, obj) := Read(reply, State(0, 0, NoFault));
    ValueOr(LastOf(reply, Entries(reply, s, obj), "id"))
  }

  /** A response carries the id of its request byte for byte exactly when that is a number or a
      string without a backslash; any other id becomes null. */
  lemma IdVerbatim(t: string, ctx: Option<Context>, tools: seq<Tool>)
    requires JsonSchemas(tools) && !IsNotification(t)
    ensures var id := RequestId(t);
      var reply := Handled(t, ctx, tools).reply;
      var echo := EchoedId(reply);
      && TokenOk(t, id) && echo.start <= echo.end <= |reply|
      && ((echo.kind == id.kind && Slice(reply, echo) == Slice(t, id) && !echo.kind.SjNull?)
          <==> id.kind.SjNumber? || (id.kind.SjString? && '\\' !in Slice(t, id)))
      && (!id.kind.SjNumber? && !id.kind.SjString? ==> echo.kind.SjNull?)
  {
    hide Handled, RequestId, IsNotification, ReadsBack, EchoedId, TokenOk, JsonSchemas;
    ResponseReadBack(t, ctx, tools);
    RequestIdOk(t);
    EchoOf(Handled(t, ctx, tools).reply, t, RequestId(t));
  }

  lemma EchoOf(reply: string, t: string, id: Value)
    requires id.start <= id.end <= |t| && TokenOk(t, id) && ReadsBack(reply, t, id)
    ensures var echo := EchoedId(reply);
      && echo.start <= echo.end <= |reply|
      && ((echo.kind == id.kind && Slice(reply, echo) == Slice(t, id) && !echo.kind.SjNull?)
          <==> id.kind.SjNumber? || (id.kind.SjString? && '\\' !in Slice(t, id)))
      && (!id.kind.SjNumber? && !id.kind.SjString? ==> echo.kind.SjNull?)
  {
    hide Read, Entries, AfterEntries, LastOf, Requote, IsRaw, IsNumber, Slice;
    var (s, obj) := Read(reply, State(0, 0, NoFault));
    SecondOfThree(reply, Entries(reply, s, obj));
    if id.kind.SjString? { RequoteExact(Slice(t, id)); }
  }

  lemma SecondOfThree(r: string, e: seq<Entry>)
    requires InText(r, e) && |e| == 3 && Slice(r, e[1].0) == "id"
    requires Slice(r, e[2].0) == "result" || Slice(r, e[2].0) == "error"
    ensures LastOf(r, e, "id") == Some(e[1].1)
  {
    hide Slice;
    assert e[..2][1] == e[1];
    assert LastOf(r, e, "id") == LastOf(r, e[..2], "id");
  }
}
