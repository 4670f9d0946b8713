/** Reading a posted body back: a decoder of whole XML-RPC calls, which knows nothing of how the body
    was put together, gets the call the client asked for. */
module Envelopes {
  import opened Options
  import opened Text
  import opened Json
  import opened XmlRpc
  import opened XmlRead
  import opened Odoo
  import opened Dispatch
  import opened Mcp
  import opened EndToEnd

  // ----- a reader of calls -----

  datatype MethodCall = MethodCall(name: string, params: seq<Rpc>)

  /** Parameters up to and including `</params>`. */
  function DecodeParams(toks: seq<Tok>): (r: Option<(seq<Rpc>, seq<Tok>)>)
    decreases |toks|
  {
    if toks == [] then None
    else if toks[0] == Close("params") then Some(([], toks[1..]))
    else if toks[0] != Open("param") then None
    else
      match Skip(Decode(toks[1..]), "param")
      case Some((val, rest)) => (
        match DecodeParams(rest)
        case Some((vals, rest')) => Some(([val] + vals, rest'))
        case None => None)
      case None => None
  }

  /** A whole document: the declaration, and one call. */
  function DecodeCall(toks: seq<Tok>): Option<MethodCall> {
    if |toks| < 3 || toks[0] != Open("?xml version=\"1.0\"?") || toks[1] != Open("methodCall") || toks[2] != Open("methodName")
    then None
    else
      match DecodeText(toks[3..], "methodName")
      case Some((name, rest)) =>
        if rest == [] || rest[0] != Open("params") then None
        else (
          match DecodeParams(rest[1..])
          case Some((params, rest')) => if rest' == [Close("methodCall")] then Some(MethodCall(name, params)) else None
          case None => None)
      case None => None
  }

  // ----- parameters -----

  datatype Arg = Text(s: string) | Number(n: int) | Tree(j: Json)

  function XmlArg(a: Arg, g: DoubleText): string {
    match a
    case Text(s) => XmlString(s)
    case Number(n) => XmlInt(n)
    case Tree(j) => XmlOf(j, g)
  }

  predicate ArgFree(a: Arg, g: DoubleText) {
    match a
    case Text(s) => Free(s, '<')
    case Number(_) => true
    case Tree(j) => TreeFree(j, g, '<')
  }

  /** What a reader gets. */
  function ArgRpc(a: Arg, g: DoubleText): Rpc {
    match a
    case Text(s) => RStr(Unescape(s))
    case Number(n) => RInt(Dec(n))
    case Tree(j) => Resolved(RpcOf(j, g))
  }

  function ArgToks(a: Arg, g: DoubleText): seq<Tok> {
    match a
    case Text(s) => ElToks("value", ElToks("string", TextToks(s)))
    case Number(n) => ElToks("value", ElToks("int", TextToks(Dec(n))))
    case Tree(j) => Toks(j, g)
  }

  lemma LexArg(a: Arg, g: DoubleText, rest: string)
    requires ArgFree(a, g) && Tail(rest)
    ensures Lex(XmlArg(a, g) + rest) == ArgToks(a, g) + Lex(rest) && Tail(XmlArg(a, g) + rest)
  {
    hide Lex, XmlOf, Toks, Dec;
    match a
    case Text(s) => LexValueText("string", s, rest);
    case Number(n) => LexValueText("int", Dec(n), rest);
    case Tree(j) => XmlTail(j, g, rest); LexXml(j, g, rest);
  }

  lemma DecodeArg(a: Arg, g: DoubleText, more: seq<Tok>)
    ensures Decode(ArgToks(a, g) + more) == Some((ArgRpc(a, g), more))
  {
    hide Decode, Toks, Dec, Unescape, Resolved;
    match a
    case Text(s) => DecodeTextValue("string", s, more);
    case Number(n) => DecodeTextValue("int", Dec(n), more); UnescapeDigits(n);
    case Tree(j) => DecodeToks(j, g, more);
  }

  lemma UnescapeDigits(n: int)
    ensures Unescape(Dec(n)) == Dec(n)
  {
    hide Dec, Unescape;
    UnescapePlain(Dec(n));
  }

  lemma {:induction false} UnescapePlain(w: string)
    requires Free(w, '&')
    ensures Unescape(w) == w
    decreases |w|
  {
    if w != "" { UnescapePlain(w[1..]); }
  }

  function XmlParams(args: seq<Arg>, g: DoubleText): string {
    if args == [] then "" else XmlParam(XmlArg(args[0], g)) + XmlParams(args[1..], g)
  }

  function ParamsToks(args: seq<Arg>, g: DoubleText): seq<Tok> {
    if args == [] then [] else ElToks("param", ArgToks(args[0], g)) + ParamsToks(args[1..], g)
  }

  function ArgsRpc(args: seq<Arg>, g: DoubleText): seq<Rpc> {
    if args == [] then [] else [ArgRpc(args[0], g)] + ArgsRpc(args[1..], g)
  }

  predicate ArgsFree(args: seq<Arg>, g: DoubleText) {
    args == [] || (ArgFree(args[0], g) && ArgsFree(args[1..], g))
  }

  lemma {:induction false} LexParams(args: seq<Arg>, g: DoubleText, rest: string)
    requires ArgsFree(args, g) && Tail(rest)
    ensures Lex(XmlParams(args, g) + rest) == ParamsToks(args, g) + Lex(rest) && Tail(XmlParams(args, g) + rest)
    decreases |args|
  {
    hide Lex, El, ElToks, ArgToks, XmlArg, XmlParam, ArgFree;
    if args == [] {
      assert "" + rest == rest && [] + Lex(rest) == Lex(rest);
    } else {
      var rest1 := XmlParams(args[1..], g) + rest;
      LexParams(args[1..], g, rest);
      LexParam(args[0], g, rest1);
      assert XmlParams(args, g) + rest == XmlParam(XmlArg(args[0], g)) + rest1;
      var t, more := ElToks("param", ArgToks(args[0], g)), ParamsToks(args[1..], g);
      assert t + (more + Lex(rest)) == (t + more) + Lex(rest);
    }
  }

  lemma LexParam(a: Arg, g: DoubleText, rest: string)
    requires ArgFree(a, g) && Tail(rest)
    ensures Lex(XmlParam(XmlArg(a, g)) + rest) == ElToks("param", ArgToks(a, g)) + Lex(rest)
    ensures Tail(XmlParam(XmlArg(a, g)) + rest)
  {
    hide Lex, El, ElToks, ArgToks, XmlArg, Ending, ArgFree;
    var x := XmlArg(a, g);
    ElThen("param", x, rest);
    LexArg(a, g, Ending("param", rest));
    LexEl("param", x, ArgToks(a, g), rest);
    OpensTag("param", x, rest);
  }

  lemma OpensTag(name: string, body: string, rest: string)
    ensures Tail(El(name, body) + rest)
  {
    assert (El(name, body) + rest)[0] == '<';
  }

  lemma {:induction false} DecodeParamsToks(args: seq<Arg>, g: DoubleText, more: seq<Tok>)
    ensures DecodeParams(ParamsToks(args, g) + ([Close("params")] + more)) == Some((ArgsRpc(args, g), more))
    decreases |args|
  {
    hide Decode, ArgToks, ElToks, ArgRpc;
    var end := [Close("params")] + more;
    if args == [] {
      assert [] + end == end && end[1..] == more;
    } else {
      var more1 := ParamsToks(args[1..], g) + end;
      var close := [Close("param")] + more1;
      assert ParamsToks(args, g) + end == ElToks("param", ArgToks(args[0], g)) + more1;
      ElOpens("param", ArgToks(args[0], g), more1);
      DecodeArg(args[0], g, close);
      assert close[1..] == more1;
      DecodeParamsToks(args[1..], g, more);
    }
  }

  // ----- the envelope -----

  function EnvelopeToks(name: string, params: seq<Tok>): seq<Tok> {
    [Open("?xml version=\"1.0\"?")] + ElToks("methodCall", ElToks("methodName", TextToks(name)) + ElToks("params", params))
  }

  lemma LexDeclaration(rest: string)
    ensures Lex("<?xml version=\"1.0\"?>" + rest) == [Open("?xml version=\"1.0\"?")] + Lex(rest)
  {
    var name := "?xml version=\"1.0\"?";
    assert "<" + name + ">" == "<?xml version=\"1.0\"?>";
    LexTag(name, rest);
  }

  lemma LexEnvelope(name: string, args: seq<Arg>, g: DoubleText)
    requires Free(name, '<') && ArgsFree(args, g)
    ensures Lex(XmlEnvelope(name, XmlParams(args, g))) == EnvelopeToks(name, ParamsToks(args, g))
  {
    hide Lex, El, ElToks, Ending, ArgsFree, XmlParams, ParamsToks;
    var inner := El("methodName", name) + El("params", XmlParams(args, g));
    var toks := ElToks("methodName", TextToks(name)) + ElToks("params", ParamsToks(args, g));
    LexInner(name, args, g, Ending("methodCall", ""));
    LexEl("methodCall", inner, toks, "");
    LexDeclaration(El("methodCall", inner));
    LexNothing();
    assert El("methodCall", inner) + "" == El("methodCall", inner);
    assert ElToks("methodCall", toks) + [] == ElToks("methodCall", toks);
  }

  lemma LexInner(name: string, args: seq<Arg>, g: DoubleText, end: string)
    requires Free(name, '<') && ArgsFree(args, g) && end == Ending("methodCall", "")
    ensures Lex(El("methodName", name) + El("params", XmlParams(args, g)) + end)
         == ElToks("methodName", TextToks(name)) + ElToks("params", ParamsToks(args, g)) + Lex(end)
  {
    hide Lex, El, ElToks, Ending, ArgsFree, XmlParams, ParamsToks;
    var x, toks := XmlParams(args, g), ParamsToks(args, g);
    ElThen("methodCall", "", "");
    ElThen("params", x, end);
    LexParams(args, g, Ending("params", end));
    LexEl("params", x, toks, end);
    LexTextEl("methodName", name, El("params", x) + end);
    assert El("methodName", name) + (El("params", x) + end) == El("methodName", name) + El("params", x) + end;
    var n, p := ElToks("methodName", TextToks(name)), ElToks("params", toks);
    assert n + (p + Lex(end)) == (n + p) + Lex(end);
  }

  lemma DecodeEnvelope(name: string, args: seq<Arg>, g: DoubleText)
    ensures DecodeCall(EnvelopeToks(name, ParamsToks(args, g))) == Some(MethodCall(Unescape(name), ArgsRpc(args, g)))
  {
    hide DecodeParams, ParamsToks, ArgsRpc, DecodeText, Unescape;
    var params := ParamsToks(args, g);
    var close := [Close("methodCall")];
    var ps := ElToks("params", params) + close;
    var toks := EnvelopeToks(name, params);
    assert toks[3..] == TextToks(name) + ([Close("methodName")] + ps);
    DecodeTextToks(name, "methodName", ps);
    assert ps[1..] == params + ([Close("params")] + close);
    DecodeParamsToks(args, g, close);
  }

  lemma ParamsCons(a: Arg, args: seq<Arg>, g: DoubleText)
    ensures XmlParams([a] + args, g) == XmlParam(XmlArg(a, g)) + XmlParams(args, g)
    ensures ArgsRpc([a] + args, g) == [ArgRpc(a, g)] + ArgsRpc(args, g)
    ensures ArgsFree([a] + args, g) == (ArgFree(a, g) && ArgsFree(args, g))
  {
    hide XmlParam, XmlArg, ArgRpc, ArgFree;
    assert ([a] + args)[1..] == args;
  }

  lemma ThreeParams(a: Arg, b: Arg, c: Arg, args: seq<Arg>, g: DoubleText)
    ensures XmlParams([a, b, c] + args, g)
      == XmlParam(XmlArg(a, g)) + XmlParam(XmlArg(b, g)) + XmlParam(XmlArg(c, g)) + XmlParams(args, g)
    ensures ArgsRpc([a, b, c] + args, g) == [ArgRpc(a, g), ArgRpc(b, g), ArgRpc(c, g)] + ArgsRpc(args, g)
    ensures ArgsFree([a, b, c] + args, g) == (ArgFree(a, g) && ArgFree(b, g) && ArgFree(c, g) && ArgsFree(args, g))
  {
    hide XmlParam, XmlArg, ArgRpc, ArgFree, XmlParams, ArgsRpc, ArgsFree;
    var two := [b] + ([c] + args);
    assert [a, b, c] + args == [a] + two;
    ParamsCons(a, two, g);
    ParamsCons(b, [c] + args, g);
    ParamsCons(c, args, g);
    var x, y, z, w := XmlParam(XmlArg(a, g)), XmlParam(XmlArg(b, g)), XmlParam(XmlArg(c, g)), XmlParams(args, g);
    assert x + (y + (z + w)) == x + y + z + w;
  }

  lemma SevenParams(a1: Arg, a2: Arg, a3: Arg, a4: Arg, a5: Arg, a6: Arg, a7: Arg, g: DoubleText)
    ensures XmlParams([a1, a2, a3, a4, a5, a6, a7], g)
      == XmlParam(XmlArg(a1, g)) + XmlParam(XmlArg(a2, g)) + XmlParam(XmlArg(a3, g)) + XmlParam(XmlArg(a4, g))
         + XmlParam(XmlArg(a5, g)) + XmlParam(XmlArg(a6, g)) + XmlParam(XmlArg(a7, g))
    ensures ArgsRpc([a1, a2, a3, a4, a5, a6, a7], g)
      == [ArgRpc(a1, g), ArgRpc(a2, g), ArgRpc(a3, g), ArgRpc(a4, g), ArgRpc(a5, g), ArgRpc(a6, g), ArgRpc(a7, g)]
    ensures ArgsFree([a1, a2, a3, a4, a5, a6, a7], g)
      == (ArgFree(a1, g) && ArgFree(a2, g) && ArgFree(a3, g) && ArgFree(a4, g) && ArgFree(a5, g) && ArgFree(a6, g) && ArgFree(a7, g))
  {
    hide XmlParam, XmlArg, ArgRpc, ArgFree, XmlParams, ArgsRpc, ArgsFree;
    assert [a1, a2, a3, a4, a5, a6, a7] == [a1, a2, a3] + ([a4, a5, a6] + ([a7] + []));
    ThreeParams(a1, a2, a3, [a4, a5, a6] + ([a7] + []), g);
    ThreeParams(a4, a5, a6, [a7] + [], g);
    ParamsCons(a7, [], g);
    NoParams(g);
    var x, y, z, w := XmlParam(XmlArg(a4, g)), XmlParam(XmlArg(a5, g)), XmlParam(XmlArg(a6, g)), XmlParam(XmlArg(a7, g));
    SevenJoined(XmlParam(XmlArg(a1, g)) + XmlParam(XmlArg(a2, g)) + XmlParam(XmlArg(a3, g)), x, y, z, w);
  }

  lemma NoParams(g: DoubleText)
    ensures XmlParams([], g) == "" && ArgsRpc([], g) == [] && ArgsFree([], g)
  {
  }

  lemma SevenJoined(s: string, x: string, y: string, z: string, w: string)
    ensures s + (x + y + z + (w + "")) == s + x + y + z + w
  {
    assert w + "" == w;
    assert s + (x + y + z + w) == s + (x + y + z) + w;
  }

  // ----- the posted call -----

  /** The call a body is to carry. */
  function Asked(ctx: Context, model: string, name: string, args: Json, kwargs: Json): MethodCall {
    MethodCall("execute_kw",
      [RStr(Unescape(ctx.db)), RInt(Dec(ctx.uid)), RStr(Unescape(ctx.apikey)), RStr(Unescape(model)), RStr(Unescape(name)),
       Resolved(RpcOf(args, ctx.g)), Resolved(RpcOf(kwargs, ctx.g))])
  }

  /** Nothing in the call needs XML escaping. */
  predicate Sendable(ctx: Context, model: string, name: string, args: Json, kwargs: Json) {
    && Free(ctx.db, '<') && Free(ctx.apikey, '<') && Free(model, '<') && Free(name, '<')
    && TreeFree(args, ctx.g, '<') && TreeFree(kwargs, ctx.g, '<')
  }

  /** Every body `odoo_execute` posts reads back as the call that was asked for: the method
      `execute_kw` of the remote side, and the database, the user, the key, the model, the method and the
      two argument values, in this order. */
  lemma CallReadBack(ctx: Context, model: string, name: string, args: Json, kwargs: Json)
    requires Sendable(ctx, model, name, args, kwargs)
    ensures DecodeCall(Lex(CallEnvelope(ctx, model, name, XmlOf(args, ctx.g), XmlOf(kwargs, ctx.g))))
      == Some(Asked(ctx, model, name, args, kwargs))
  {
    hide Lex, DecodeCall, XmlParam, XmlEnvelope, XmlOf, XmlString, XmlInt, Resolved, RpcOf, Unescape, TreeFree, XmlParams,
         ArgsRpc, ArgsFree, Dec, EnvelopeToks, ParamsToks;
    var g := ctx.g;
    var a1, a2, a3, a4, a5 := Text(ctx.db), Number(ctx.uid), Text(ctx.apikey), Text(model), Text(name);
    var all := [a1, a2, a3, a4, a5, Tree(args), Tree(kwargs)];
    SevenParams(a1, a2, a3, a4, a5, Tree(args), Tree(kwargs), g);
    ExecuteName();
    LexEnvelope("execute_kw", all, g);
    DecodeEnvelope("execute_kw", all, g);
  }

  lemma ExecuteName()
    ensures Free("execute_kw", '<') && Unescape("execute_kw") == "execute_kw"
  {
    hide Unescape;
    UnescapePlain("execute_kw");
  }

  /** A tool that is not refused posts exactly one body, and it reads back as the call with the values its
      argument texts mean. */
  lemma PostedCall(call: Call, ctx: Context)
    requires call.Call? && 0 <= ctx.uid
    requires Sendable(ctx, call.model, call.name, Meant(CStr(call.args)), Meant(CStr(call.kwargs)))
    ensures var sent := Perform(call, Some(ctx)).sent;
      |sent| == 1 && DecodeCall(Lex(sent[0]))
        == Some(Asked(ctx, call.model, call.name, Meant(CStr(call.args)), Meant(CStr(call.kwargs))))
  {
    hide DecodeCall, Lex, CallEnvelope, XmlOf, Meant, CStr, Received, TextReply, Free, TreeFree;
    CallReadBack(ctx, call.model, call.name, Meant(CStr(call.args)), Meant(CStr(call.kwargs)));
  }

  /** For every well-formed request that plans a call, what is posted reads back as the planned call. */
  lemma RequestPosts(lead: string, root: Doc, trail: string, ctx: Context, tools: seq<Tool>)
    requires IsGap(lead) && WellFormed(root) && root.DObj? && 0 <= ctx.uid
    requires var plan := RequestPlan(Erase(root).members);
      && plan.Some? && plan.value.Plan? && NulFreeTree(plan.value.args) && NulFreeTree(plan.value.kwargs)
      && Sendable(ctx, plan.value.model, plan.value.name, plan.value.args, plan.value.kwargs)
    ensures var plan := RequestPlan(Erase(root).members).value;
      var sent := Handled(lead + Print(root) + trail, Some(ctx), tools).sent;
      && |sent| == 1
      && DecodeCall(Lex(sent[0])) == Some(Asked(ctx, plan.model, plan.name, plan.args, plan.kwargs))
  {
    hide DecodeCall, Lex, CallEnvelope, XmlOf, Handled, Print, WellFormed, NulFreeTree, Free, TreeFree, Get, PlanOf, Asked;
    EndToEnd.EndToEnd(lead, root, trail, Some(ctx), tools);
    var plan := RequestPlan(Erase(root).members).value;
    CallReadBack(ctx, plan.model, plan.name, plan.args, plan.kwargs);
    MeansPosts(Erase(root).members, plan, ctx, tools);
  }

  lemma MeansPosts(m: Members, plan: Plan, ctx: Context, tools: seq<Tool>)
    requires RequestPlan(m) == Some(plan) && plan.Plan? && 0 <= ctx.uid
    ensures Means(m, Some(ctx), tools).sent
      == [CallEnvelope(ctx, plan.model, plan.name, XmlOf(plan.args, ctx.g), XmlOf(plan.kwargs, ctx.g))]
  {
    hide CallEnvelope, XmlOf, Get, PlanOf, TextReply, Received, JrpcOk;
  }
}
