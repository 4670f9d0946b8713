/** What every response says, for any bytes: its tree, by what the cursor finds in the request. */
module Answers {
  import opened Options
  import opened Text
  import opened Cursor
  import opened Json
  import opened Escape
  import opened Odoo
  import opened Dispatch
  import opened Mcp
  import opened Response

  // ----- trees of responses -----

  /** The id a response carries. */
  function IdTree(t: string, id: Value): Json
    requires id.start <= id.end <= |t|
  {
    match id.kind
    case SjNumber => JNum(Slice(t, id))
    case SjString => JStr(Requote(Slice(t, id)))
    case _ => JNull
  }

  function ResultTree(id: Json, result: Json): Json { Obj3("jsonrpc", JStr("2.0"), "id", id, "result", result) }

  function FailureTree(id: Json, code: string, msg: string): Json {
    Obj3("jsonrpc", JStr("2.0"), "id", id, "error", Obj2("code", JNum(code), "message", JStr(msg)))
  }

  lemma IdTells(t: string, id: Value)
    requires TokenOk(t, id)
    ensures Tells(IdText(t, id), IdTree(t, id))
  {
    hide Print, WellFormed, Erase, Tells;
    IdDocOk(t, id);
    TellsDoc(IdDoc(t, id));
    IdErase(t, id);
  }

  lemma IdErase(t: string, id: Value)
    requires id.start <= id.end <= |t|
    ensures Erase(IdDoc(t, id)) == IdTree(t, id)
  {
  }

  lemma OkSays(t: string, id: Value, result: string, j: Json)
    requires TokenOk(t, id) && Tells(result, j)
    ensures var reply := JrpcOk(IdText(t, id), result); JsonText(reply) && TreeOf(reply) == ResultTree(IdTree(t, id), j)
  {
    hide IsNumber, IsRaw, Tells, IdText, IdTree, Key, Lit, TreeOf, JsonText;
    IdTells(t, id);
    WordJson("2.0");
    ThreeFields("jsonrpc", Lit("2.0"), JStr("2.0"), "id", IdText(t, id), IdTree(t, id), "result", result, j);
    TellsTree(JrpcOk(IdText(t, id), result), ResultTree(IdTree(t, id), j));
  }

  lemma ErrSays(t: string, id: Value, code: int, msg: string)
    requires TokenOk(t, id) && '"' !in msg && '\\' !in msg
    ensures var reply := JrpcErr(IdText(t, id), code, msg);
      JsonText(reply) && TreeOf(reply) == FailureTree(IdTree(t, id), Dec(code), msg)
  {
    hide IsNumber, IsRaw, Tells, IdText, IdTree, Key, Lit, TreeOf, JsonText, Dec, ErrorObject;
    IdTells(t, id);
    WordJson("2.0");
    ErrorJson(code, msg);
    ThreeFields("jsonrpc", Lit("2.0"), JStr("2.0"), "id", IdText(t, id), IdTree(t, id),
                "error", ErrorObject(code, msg), ErrorTree(Dec(code), msg));
    TellsTree(JrpcErr(IdText(t, id), code, msg), FailureTree(IdTree(t, id), Dec(code), msg));
  }

  // ----- what a request is answered -----

  /** The result of `dispatch_tool` for the arguments at `start`. */
  ghost predicate DispatchReports(j: Json, sent: seq<string>, tool: string, t: string, start: nat, ctx: Option<Context>)
    requires start <= |t|
  {
    var (s, obj) := Read(t, State(start, 0, NoFault));
    if obj.kind.SjObject? then Reports(j, sent, CallOf(tool, t, Entries(t, s, obj)), ctx)
    else sent == [] && ReportsError(j, "arguments must be an object")
  }

  /** The answer to `tools/call`. */
  ghost predicate CallAnswered(j: Json, sent: seq<string>, t: string, id: Json, params: Value, ctx: Option<Context>)
    requires params.start <= params.end <= |t|
  {
    if !params.kind.SjObject? then sent == [] && j == FailureTree(id, "-32602", "Invalid params")
    else
      var (s, obj) := Read(t, State(params.start, 0, NoFault));
      var e := Entries(t, s, obj);
      var name, args := ValueOr(LastOf(t, e, "name")), ValueOr(LastOf(t, e, "arguments"));
      if !name.kind.SjString? then sent == [] && j == FailureTree(id, "-32602", "Invalid params: missing tool name")
      else
        exists result :: j == ResultTree(id, result)
          && if args.kind.SjObject? then DispatchReports(result, sent, ToolName(t, name), t, args.start, ctx)
             else DispatchReports(result, sent, ToolName(t, name), "{}", 0, ctx)
  }

  /** The answer to a request that is not a notification. */
  ghost predicate Answered(j: Json, sent: seq<string>, t: string, ctx: Option<Context>, tools: seq<Tool>) {
    var (s, root) := Read(t, State(0, 0, NoFault));
    if !Parses(t) then sent == [] && j == FailureTree(JNull, "-32700", "Parse error")
    else
      var e := Entries(t, s, root);
      var id := IdTree(t, ValueOr(LastOf(t, e, "id")));
      var name, params := ValueOr(LastOf(t, e, "method")), ValueOr(LastOf(t, e, "params"));
      if !name.kind.SjString? then sent == [] && j == FailureTree(id, "-32600", "Invalid Request")
      else if Slice(t, name) == "initialize" then sent == [] && j == ResultTree(id, InitTree())
      else if Slice(t, name) == "tools/list" then
        sent == [] && exists list :: j == ResultTree(id, list) && ListsAll(list, tools)
      else if Slice(t, name) == "tools/call" then CallAnswered(j, sent, t, id, params, ctx)
      else sent == [] && j == FailureTree(id, "-32601", "Method not found")
  }

  lemma DigitsSnoc(n: nat, d: nat)
    requires 0 < n && d < 10
    ensures Digits(10 * n + d) == Digits(n) + [('0' as int + d) as char]
  {
    assert (10 * n + d) / 10 == n && (10 * n + d) % 10 == d;
  }

  lemma ThreeDigits(a: nat, b: nat, c: nat)
    requires 0 < a < 10 && b < 10 && c < 10
    ensures Digits(100 * a + 10 * b + c) == [('0' as int + a) as char, ('0' as int + b) as char, ('0' as int + c) as char]
  {
    assert Digits(a) == [('0' as int + a) as char];
    hide Digits;
    DigitsSnoc(a, b);
    DigitsSnoc(10 * a + b, c);
  }

  lemma Code(n: nat, b: nat, c: nat)
    requires 100 <= n < 1000 && b < 10 && c < 10
    ensures Dec(-(100 * n + 10 * b + c)) == "-" + Digits(n) + [('0' as int + b) as char, ('0' as int + c) as char]
  {
    hide Digits;
    DigitsSnoc(n, b);
    DigitsSnoc(10 * n + b, c);
  }

  lemma Codes()
    ensures Dec(-32700) == "-32700" && Dec(-32600) == "-32600" && Dec(-32601) == "-32601" && Dec(-32602) == "-32602"
  {
    hide Dec, Digits;
    ThreeDigits(3, 2, 7);
    ThreeDigits(3, 2, 6);
    Code(327, 0, 0);
    Code(326, 0, 0);
    Code(326, 0, 1);
    Code(326, 0, 2);
  }

  lemma CallSays(t: string, id: Value, params: Value, ctx: Option<Context>)
    requires TokenOk(t, id) && params.start <= params.end <= |t|
    ensures var out := CallTool(t, IdText(t, id), params, ctx);
      JsonText(out.reply) && CallAnswered(TreeOf(out.reply), out.sent, t, IdTree(t, id), params, ctx)
  {
    hide Read, Entries, LastOf, JrpcOk, JrpcErr, TokenOk, Dispatched, JsonText, ToolName, IdText, IdTree, TreeOf,
         DispatchReports, ResultTree, FailureTree, Dec, Tells;
    Codes();
    ErrSays(t, id, -32602, "Invalid params");
    ErrSays(t, id, -32602, "Invalid params: missing tool name");
    if params.kind.SjObject? {
      var (s, obj) := Read(t, State(params.start, 0, NoFault));
      var e := Entries(t, s, obj);
      var name, args := ValueOr(LastOf(t, e, "name")), ValueOr(LastOf(t, e, "arguments"));
      ResultSays(t, id, ToolName(t, name), "{}", 0, ctx);
      if args.kind.SjObject? { ResultSays(t, id, ToolName(t, name), t, args.start, ctx); }
    }
  }

  lemma ResultSays(t: string, id: Value, tool: string, u: string, start: nat, ctx: Option<Context>)
    requires TokenOk(t, id) && start <= |u|
    ensures var out := Dispatched(tool, u, start, ctx);
      var reply := JrpcOk(IdText(t, id), out.reply);
      && JsonText(reply) && TreeOf(reply) == ResultTree(IdTree(t, id), TreeOf(out.reply))
      && DispatchReports(TreeOf(out.reply), out.sent, tool, u, start, ctx)
  {
    hide Read, Entries, JrpcOk, TokenOk, Dispatched, JsonText, IdText, IdTree, TreeOf, ResultTree, Tells, Reports, ReportsError,
         CallOf;
    var out := Dispatched(tool, u, start, ctx);
    DispatchedReports(tool, u, start, ctx);
    JsonTells(out.reply);
    OkSays(t, id, out.reply, TreeOf(out.reply));
  }

  /** Every response says what it should: for every byte string that is not a notification, the response is
      a JSON text, and its tree is the answer the request asks for. */
  lemma ResponseSays(t: string, ctx: Option<Context>, tools: seq<Tool>)
    requires JsonSchemas(tools) && !IsNotification(t)
    ensures var out := Handled(t, ctx, tools);
      JsonText(out.reply) && Answered(TreeOf(out.reply), out.sent, t, ctx, tools)
  {
    hide Read, Entries, LastOf, Parses, Unparsable, JrpcOk, JrpcErr, TokenOk, CallTool, InitResult, ToolsResult, JsonText,
         Tells, TreeOf, InitTree, ListsAll, IdText, IdTree, ResultTree, FailureTree, Dec, CallAnswered, Slice, JsonSchemas;
    Codes();
    ParsesIs(t);
    if Unparsable(t) {
      ParseErrorSays(t);
    } else {
      var (s, root) := Read(t, State(0, 0, NoFault));
      var e := Entries(t, s, root);
      var id := ValueOr(LastOf(t, e, "id"));
      RequestIdOk(t);
      ErrSays(t, id, -32600, "Invalid Request");
      ErrSays(t, id, -32601, "Method not found");
      InitResultJson();
      OkSays(t, id, InitResult(), InitTree());
      ToolsResultJson(tools);
      var list :| Tells(ToolsResult(tools), list) && ListsAll(list, tools);
      OkSays(t, id, ToolsResult(tools), list);
      CallSays(t, id, ValueOr(LastOf(t, e, "params")), ctx);
    }
  }

  lemma ParseErrorSays(t: string)
    ensures var reply := ParseErrorReply(); JsonText(reply) && TreeOf(reply) == FailureTree(JNull, "-32700", "Parse error")
  {
    hide JrpcErr, TokenOk, JsonText, TreeOf, FailureTree, Dec;
    Codes();
    AbsentOk(t);
    ErrSays(t, ABSENT, -32700, "Parse error");
  }

  // ----- parse errors -----

  /** The error code of a response, if it is an error. */
  function ErrorCode(j: Json): Option<string> {
    if j.JObj? && j.members.Member? && j.members.rest.Member? && j.members.rest.rest.Member?
    then
      var last := j.members.rest.rest;
      if last.key == "error" && last.val.JObj? && last.val.members.Member? && last.val.members.key == "code"
         && last.val.members.val.JNum?
      then Some(last.val.members.val.lexeme) else None
    else None
  }

  /** A request is answered with a parse error, with id null, if and only if it is not an object or its first
      member cannot be read. */
  lemma ParseErrors(t: string, ctx: Option<Context>, tools: seq<Tool>)
    requires JsonSchemas(tools) && !IsNotification(t)
    ensures var (s, root) := Read(t, State(0, 0, NoFault));
      var bad := !root.kind.SjObject? || IterObject(t, s, root).st.fault != NoFault;
      var j := TreeOf(Handled(t, ctx, tools).reply);
      && (ErrorCode(j) == Some("-32700") <==> bad)
      && (bad ==> j == FailureTree(JNull, "-32700", "Parse error"))
  {
    hide Read, IterObject, Entries, LastOf, TreeOf, Handled, IsNotification, JsonSchemas, InitTree, ListsAll, IdTree, Slice,
         DispatchReports, JsonText;
    ResponseSays(t, ctx, tools);
  }
}
