/** `mcp_handle` (mcp.c): one JSON-RPC request in, one response out. */
module Mcp {
  import opened Options
  import opened Text
  import opened Cursor
  import opened Readers
  import opened Escape
  import opened Odoo
  import opened Dispatch

  /** One `McpTool`: C strings, the schema already JSON. */
  datatype Tool = Tool(name: string, description: string, schema: string)

  // ----- responses -----

  /** `jbuf_id`. */
  function IdText(t: string, id: Value): string
    requires id.start <= id.end <= |t|
  {
    match id.kind
    case SjNumber => Slice(t, id)
    case SjString => Lit(Requote(Slice(t, id)))
    case _ => "null"
  }

  /** `jrpc_ok`. */
  function JrpcOk(id: string, result: string): string {
    "{" + Key("jsonrpc") + Lit("2.0") + "," + Key("id") + id + "," + Key("result") + result + "}"
  }

  /** The error object of `jrpc_err`; its messages need no escaping. */
  function ErrorObject(code: int, msg: string): string {
    "{" + Key("code") + Dec(code) + "," + Key("message") + Lit(msg) + "}"
  }

  /** `jrpc_err`. */
  function JrpcErr(id: string, code: int, msg: string): string {
    "{" + Key("jsonrpc") + Lit("2.0") + "," + Key("id") + id + "," + Key("error") + ErrorObject(code, msg) + "}"
  }

  function InitResult(): string {
    "{" + Key("protocolVersion") + Lit("2025-03-26") + "," + Key("capabilities") + "{" + Key("tools") + "{}" + "}"
    + "," + Key("serverInfo") + "{" + Key("name") + Lit("odoo-mcp-server") + "," + Key("version") + Lit("1.0.0") + "}" + "}"
  }

  function ToolText(tool: Tool): string {
    "{" + Key("name") + Quoted(tool.name) + "," + Key("description") + Quoted(tool.description)
    + "," + Key("inputSchema") + tool.schema + "}"
  }

  /** The tools from the `i`th on, each but the very first preceded by a comma. */
  function ToolTexts(tools: seq<Tool>, i: nat): string
    requires i <= |tools|
    decreases |tools| - i
  {
    if i == |tools| then "" else (if i > 0 then "," else "") + ToolText(tools[i]) + ToolTexts(tools, i + 1)
  }

  function ToolsResult(tools: seq<Tool>): string {
    "{" + Key("tools") + ("[" + ToolTexts(tools, 0) + "]") + "}"
  }

  // ----- requests -----

  /** A value that was not in the request. */
  const ABSENT := Value(SjNull, 0, 0, 0)

  function ValueOr(v: Option<Value>): Value {
    if v.Some? then v.value else ABSENT
  }

  function ToolName(t: string, name: Value): string
    requires name.start <= name.end <= |t|
  {
    CStr(Clip(Slice(t, name), 63))
  }

  /** The `tools/call` branch. Omitted arguments are the two-byte text `{}`. */
  function CallTool(t: string, id: string, params: Value, ctx: Option<Context>): Outcome
    requires params.start <= params.end <= |t|
  {
    if !params.kind.SjObject? then Outcome(JrpcErr(id, -32602, "Invalid params"), [])
    else
      var (s, obj) := Read(t, State(params.start, 0, NoFault));
      var e := Entries(t, s, obj);
      var name, args := ValueOr(LastOf(t, e, "name")), ValueOr(LastOf(t, e, "arguments"));
      if !name.kind.SjString? then Outcome(JrpcErr(id, -32602, "Invalid params: missing tool name"), [])
      else
        var out := if args.kind.SjObject? then Dispatched(ToolName(t, name), t, args.start, ctx)
                   else Dispatched(ToolName(t, name), "{}", 0, ctx);
        Outcome(JrpcOk(id, out.reply), out.sent)
  }

  /** What the top-level members ask for. */
  function Answer(t: string, e: seq<Entry>, ctx: Option<Context>, tools: seq<Tool>): Outcome
    requires InText(t, e)
  {
    var id := IdText(t, ValueOr(LastOf(t, e, "id")));
    var name, params := ValueOr(LastOf(t, e, "method")), ValueOr(LastOf(t, e, "params"));
    if !name.kind.SjString? then Outcome(JrpcErr(id, -32600, "Invalid Request"), [])
    else
      var m := Slice(t, name);
      if m == "initialize" then Outcome(JrpcOk(id, InitResult()), [])
      else if m == "notifications/initialized" || m == "initialized" then Outcome("", [])
      else if m == "tools/list" then Outcome(JrpcOk(id, ToolsResult(tools)), [])
      else if m == "tools/call" then CallTool(t, id, params, ctx)
      else Outcome(JrpcErr(id, -32601, "Method not found"), [])
  }

  /** A request the parser rejects: not an object, or a fault at its first member. */
  predicate Unparsable(t: string) {
    var (s, root) := Read(t, State(0, 0, NoFault));
    !root.kind.SjObject? || IterObject(t, s, root).st.fault != NoFault
  }

  function ParseErrorReply(): string { JrpcErr("null", -32700, "Parse error") }

  /** `mcp_handle` on the bytes of a request, for a response that fits the output buffer. */
  function Handled(t: string, ctx: Option<Context>, tools: seq<Tool>): Outcome {
    if Unparsable(t) then Outcome(ParseErrorReply(), [])
    else
      var (s, root) := Read(t, State(0, 0, NoFault));
      Answer(t, Entries(t, s, root), ctx, tools)
  }

  /** Omitted arguments are a reader over `{}` whose length comes out of two unrelated pointers.
      Whatever bytes lie behind, and wherever the reader ends unless at once, no field is found. */
  lemma OmittedArguments(tool: string, behind: string, length: nat, ctx: Option<Context>)
    requires 0 < length <= |"{}" + behind|
    ensures Dispatched(tool, ("{}" + behind)[..length], 0, ctx) == Dispatched(tool, "{}", 0, ctx)
         == Outcome(ErrorReply("missing required field: model"), [])
  {
    hide ErrorReply;
    NothingToIterate(("{}" + behind)[..length]);
    NothingToIterate("{}");
  }

  lemma NothingToIterate(t: string)
    requires t != "" && t[0] == '{' && (|t| > 1 ==> t[1] == '}')
    ensures var (s, obj) := Read(t, State(0, 0, NoFault)); obj.kind.SjObject? && Entries(t, s, obj) == []
  {
    hide StrEnd, NumEnd, Has;
    var (s, obj) := Read(t, State(0, 0, NoFault));
    assert s == State(1, 1, NoFault) && obj == Value(SjObject, 0, 1, 1);
    var (s1, key) := Read(t, s);
    assert key.kind.SjEnd? || key.kind.SjError?;
  }

  // ----- the C code -----

  /** `if (sj_eq(key, k)) v = val;` */
  function Newer(v: Value, t: string, key: Value, val: Value, k: string): Value
    requires key.start <= key.end <= |t|
  {
    if Slice(t, key) == k then val else v
  }

  lemma NewerStep(t: string, seen: seq<Entry>, key: Value, val: Value, k: string)
    requires InText(t, seen) && key.start <= key.end <= |t| && val.start <= val.end <= |t|
    ensures InText(t, seen + [(key, val)])
    ensures ValueOr(LastOf(t, seen + [(key, val)], k)) == Newer(ValueOr(LastOf(t, seen, k)), t, key, val, k)
  {
    hide LastOf, LastString, Slice;
    LastSnoc(t, seen, (key, val), k);
  }

  lemma NoneYet(t: string, k: string)
    ensures InText(t, []) && ValueOr(LastOf(t, [], k)) == ABSENT
  {
  }

  /** The member loops of `mcp_handle`: the last values of up to three keys. */
  method LastThree(r: Reader, obj: Value, k1: string, k2: string, k3: string) returns (v1: Value, v2: Value, v3: Value)
    requires r.Valid()
    modifies r
    ensures var e := Entries(r.text, old(r.St()), obj);
      v1 == ValueOr(LastOf(r.text, e, k1)) && v2 == ValueOr(LastOf(r.text, e, k2)) && v3 == ValueOr(LastOf(r.text, e, k3))
  {
    hide IterObject, LastOf, LastString, Newer, ValueOr, Slice, Entries, InText;
    var t := r.text;
    ghost var all := Entries(t, r.St(), obj);
    ghost var seen: seq<Entry> := [];
    v1, v2, v3 := ABSENT, ABSENT, ABSENT;
    NoneYet(t, k1);
    NoneYet(t, k2);
    NoneYet(t, k3);
    while true
      invariant r.Valid() && InText(t, seen)
      invariant v1 == ValueOr(LastOf(t, seen, k1)) && v2 == ValueOr(LastOf(t, seen, k2)) && v3 == ValueOr(LastOf(t, seen, k3))
      invariant seen + Entries(t, r.St(), obj) == all
      decreases |t| - r.cur
    {
      SeenStep(t, r.St(), obj, seen, all);
      var more, key, val := r.IterObject(obj);
      if !more { break; }
      NewerStep(t, seen, key, val, k1);
      NewerStep(t, seen, key, val, k2);
      NewerStep(t, seen, key, val, k3);
      v1 := Newer(v1, t, key, val, k1);
      v2 := Newer(v2, t, key, val, k2);
      v3 := Newer(v3, t, key, val, k3);
      seen := seen + [(key, val)];
    }
  }

  lemma NoneLast(t: string, key: string)
    ensures LastOf(t, [], key) == None && LastString(t, [], key) == None
  {
  }

  /** The `tools/list` loop. */
  method ListTools(tools: seq<Tool>) returns (out: string)
    ensures out == ToolsResult(tools)
  {
    hide ToolText, ToolsResult;
    var tb := "[";
    for i := 0 to |tools|
      invariant tb + ToolTexts(tools, i) == "[" + ToolTexts(tools, 0)
    {
      ghost var before, rest := tb, ToolTexts(tools, i + 1);
      if i > 0 { tb := tb + ","; }
      tb := tb + ToolText(tools[i]);
      assert tb + rest == before + ((if i > 0 then "," else "") + ToolText(tools[i]) + rest);
    }
    assert tb + "" == tb;
    out := "{" + Key("tools") + (tb + "]") + "}";
    ToolsResultText(tools);
  }

  lemma ToolsResultText(tools: seq<Tool>)
    ensures ToolsResult(tools) == "{" + Key("tools") + ("[" + ToolTexts(tools, 0) + "]") + "}"
  {
  }

  method HandleCall(t: string, id: string, params: Value, ctx: Option<Context>) returns (reply: string, sent: seq<string>)
    requires params.start <= params.end <= |t|
    ensures Outcome(reply, sent) == CallTool(t, id, params, ctx)
  {
    hide Dispatched, LastOf, Entries, Read;
    if params.kind != SjObject { return JrpcErr(id, -32602, "Invalid params"), []; }
    var pr := new Reader(t, params.start);
    var pobj := pr.Read();
    ghost var e := Entries(t, pr.St(), pobj);
    var name, args, _ := LastThree(pr, pobj, "name", "arguments", "arguments");
    if name.kind != SjString { return JrpcErr(id, -32602, "Invalid params: missing tool name"), []; }
    var tool := CStr(Clip(t[name.start..name.end], 63));
    var out;
    if args.kind != SjObject {
      out, sent := DispatchTool(tool, "{}", 0, ctx);
    } else {
      out, sent := DispatchTool(tool, t, args.start, ctx);
    }
    reply := JrpcOk(id, out);
  }

  /** `mcp_handle` up to its last lines: whether the request parsed, the response, empty for a
      notification, and the bodies posted to Odoo. */
  method Respond(t: string, ctx: Option<Context>, tools: seq<Tool>) returns (parsed: bool, reply: string, sent: seq<string>)
    ensures parsed == !Unparsable(t) && Outcome(reply, sent) == Handled(t, ctx, tools)
  {
    hide Read, LastOf, Entries, CallTool, JrpcOk, JrpcErr, InitResult, ToolsResult, ParseErrorReply, IdText;
    var r := new Reader(t, 0);
    var root := r.Read();
    if root.kind != SjObject { return false, ParseErrorReply(), []; }
    var probe := new Reader.Copy(r);
    var more, pk, pv := probe.IterObject(root);
    if probe.fault != NoFault { return false, ParseErrorReply(), []; }
    ghost var e := Entries(t, r.St(), root);
    var id, name, params := LastThree(r, root, "id", "method", "params");
    var idText := IdText(t, id);
    if name.kind != SjString { return true, JrpcErr(idText, -32600, "Invalid Request"), []; }
    var m := t[name.start..name.end];
    if m == "initialize" { return true, JrpcOk(idText, InitResult()), []; }
    if m == "notifications/initialized" || m == "initialized" { return true, "", []; }
    if m == "tools/list" {
      var result := ListTools(tools);
      return true, JrpcOk(idText, result), [];
    }
    if m == "tools/call" {
      reply, sent := HandleCall(t, idText, params, ctx);
      return true, reply, sent;
    }
    return true, JrpcErr(idText, -32601, "Method not found"), [];
  }

  /** The first `n` bytes of a response and a NUL are in the output buffer. */
  twostate predicate Written(out: array<char>, reply: string, n: nat)
    requires n <= |reply|
    reads out
  {
    n < out.Length && out[..n] == reply[..n] && out[n] == '\0' && out[n + 1..] == old(out[n + 1..])
  }

  /** `mcp_handle` with an output buffer, which must not be empty: the number it returns, what it writes
      and the bodies posted to Odoo. A parse error that does not fit is not written at all, any other
      response is cut, and a notification leaves the buffer alone. */
  method Handle(t: string, out: array<char>, ctx: Option<Context>, tools: seq<Tool>) returns (n: nat, sent: seq<string>)
    requires 0 < out.Length
    modifies out
    ensures var reply := Handled(t, ctx, tools).reply;
      && sent == Handled(t, ctx, tools).sent && n <= |reply|
      && (Unparsable(t) ==> n == |reply|)
      && (!Unparsable(t) ==> n == if |reply| < out.Length then |reply| else out.Length - 1)
      && (if reply == "" || n >= out.Length then out[..] == old(out[..]) else Written(out, reply, n))
  {
    hide Handled, Unparsable;
    var parsed, reply;
    parsed, reply, sent := Respond(t, ctx, tools);
    n := |reply|;
    if parsed && n >= out.Length { n := out.Length - 1; }
    if reply == "" || n >= out.Length { return; }
    forall i | 0 <= i < n { out[i] := reply[i]; }
    out[n] := '\0';
  }
}
