/** odoo.c: one `execute_kw` call. The network and the login are parameters. */
module Odoo {
  import opened Options
  import opened Text
  import opened XmlRpc

  const ODOO_RESP_MAX := 256 * 1024

  /** What `net_http_post` does with a request body: fail, or leave a response body. */
  datatype Http = NetError | Response(body: string)

  /** `OdooCtx`: configuration, the result of `odoo_auth`, and the world behind the call. */
  datatype Context = Context(db: string, apikey: string, uid: int, post: string -> Http, g: DoubleText)

  /** The request body of a call whose arguments are already XML. */
  function CallEnvelope(ctx: Context, model: string, name: string, args: string, kwargs: string): string {
    XmlEnvelope("execute_kw",
      XmlParam(XmlString(ctx.db)) + XmlParam(XmlInt(ctx.uid)) + XmlParam(XmlString(ctx.apikey))
      + XmlParam(XmlString(model)) + XmlParam(XmlString(name)) + XmlParam(args) + XmlParam(kwargs))
  }

  /** What `odoo_execute` reports for a response: the body that fits, unless it is a fault. */
  function Received(r: Http): Option<string> {
    match r
    case NetError => None
    case Response(body) =>
      if Contains(CStr(body), "<fault>") then None else Some(CStr(Clip(body, ODOO_RESP_MAX - 1)))
  }

  /** `odoo_execute`: the bodies posted to the object endpoint, and the response or None. */
  method Execute(ctx: Context, model: string, name: string, args: string, kwargs: string)
    returns (resp: Option<string>, sent: seq<string>)
    requires NulFree(args) && NulFree(kwargs)
    ensures ctx.uid < 0 ==> resp == None && sent == []
    ensures ctx.uid >= 0 ==>
      var body := CallEnvelope(ctx, model, name, XmlOf(Meant(args), ctx.g), XmlOf(Meant(kwargs), ctx.g));
      sent == [body] && resp == Received(ctx.post(body))
  {
    if ctx.uid < 0 { return None, []; }
    var xmlArgs := JsonToXmlrpc(args, ctx.g);
    var xmlKwargs := JsonToXmlrpc(kwargs, ctx.g);
    var body := CallEnvelope(ctx, model, name, xmlArgs, xmlKwargs);
    return Received(ctx.post(body)), [body];
  }
}
