/** `dispatch_tool` (mcp.c): from the `arguments` object of a request to an Odoo call. */
module Dispatch {
  import opened Options
  import opened Text
  import opened Cursor
  import opened Readers
  import opened RawCopy
  import opened Escape
  import opened XmlRpc
  import opened Odoo

  type Entry = (Value, Value)

  predicate InText(t: string, e: seq<Entry>) {
    forall i :: 0 <= i < |e| ==> e[i].0.start <= e[i].0.end <= |t| && e[i].1.start <= e[i].1.end <= |t|
  }

  /** The value of the last entry with that key. */
  function LastOf(t: string, e: seq<Entry>, key: string): (r: Option<Value>)
    requires InText(t, e)
    ensures r.Some? ==> r.value.start <= r.value.end <= |t|
  {
    if e == [] then None
    else
      var last := e[|e| - 1];
      if Slice(t, last.0) == key then Some(last.1) else LastOf(t, e[..|e| - 1], key)
  }

  /** The last string among the entries with that key, as a C string. */
  function LastString(t: string, e: seq<Entry>, key: string): Option<string>
    requires InText(t, e)
  {
    if e == [] then None
    else
      var last := e[|e| - 1];
      if Slice(t, last.0) == key && last.1.kind.SjString? then Some(CStr(Slice(t, last.1)))
      else LastString(t, e[..|e| - 1], key)
  }

  // ----- JSON text -----

  function Lit(s: string): string { "\"" + s + "\"" }

  function Key(k: string): string { Lit(k) + ":" }

  const DEFAULT_FIELDS := "[" + Lit("id") + "," + Lit("name") + "]"
  const DEFAULT_ATTRIBUTES := "[" + Lit("string") + "," + Lit("type") + "," + Lit("required") + "]"

  /** One text block as MCP content; `text` is already JSON. */
  function Content(text: string): string {
    "[" + ("{" + Key("type") + Lit("text") + "," + Key("text") + text + "}") + "]"
  }

  /** A tool result that reports an error. */
  function ErrorReply(msg: string): string {
    "{" + Key("isError") + "true" + "," + Key("content") + Content(Lit(msg)) + "}"
  }

  /** A tool result that carries a text. */
  function TextReply(text: string): string {
    "{" + Key("content") + Content(Quoted(text)) + "}"
  }

  /** "Odoo error - see server log", with the UTF-8 bytes of an em dash. */
  const ODOO_ERROR := "Odoo error \U{e2}\U{80}\U{94} see server log"

  /** `sj_ll`. */
  function LongOf(t: string, v: Value): int
    requires v.start <= v.end <= |t|
  {
    Strtoll(Clip(Slice(t, v), 31))
  }

  function JsonOr(t: string, v: Option<Value>, other: string): string
    requires v.Some? ==> v.value.start <= v.value.end <= |t|
  {
    if v.Some? then ValueJson(t, v.value) else other
  }

  function LongOr(t: string, v: Option<Value>, other: int): int
    requires v.Some? ==> v.value.start <= v.value.end <= |t|
  {
    if v.Some? then LongOf(t, v.value) else other
  }

  // ----- what a request asks for -----

  /** The arguments of `odoo_execute`, as JSON text; or a refusal. */
  datatype Call = Refused(msg: string) | Call(model: string, name: string, args: string, kwargs: string)

  function SearchKwargs(t: string, e: seq<Entry>): string
    requires InText(t, e)
  {
    var order := LastOf(t, e, "order");
    "{" + Key("fields") + JsonOr(t, LastOf(t, e, "fields"), DEFAULT_FIELDS)
    + "," + Key("limit") + Dec(LongOr(t, LastOf(t, e, "limit"), 80))
    + "," + Key("offset") + Dec(LongOr(t, LastOf(t, e, "offset"), 0))
    + (if order.Some? && order.value.kind.SjString?
       then "," + Key("order") + Lit(Requote(Slice(t, order.value))) else "")
    + "}"
  }

  /** The four tools. */
  function CallOf(tool: string, t: string, e: seq<Entry>): Call
    requires InText(t, e)
  {
    var model := LastString(t, e, "model");
    var values, ids := LastOf(t, e, "values"), LastOf(t, e, "record_ids");
    if model.None? then Refused("missing required field: model")
    else if tool == "search_read_records" then
      Call(model.value, "search_read", "[" + JsonOr(t, LastOf(t, e, "domain"), "[]") + "]", SearchKwargs(t, e))
    else if tool == "get_model_fields" then
      Call(model.value, "fields_get", "[[]]",
        "{" + Key("attributes") + JsonOr(t, LastOf(t, e, "attributes"), DEFAULT_ATTRIBUTES) + "}")
    else if tool == "create_record" then
      if values.None? || !values.value.kind.SjObject? || values.value.end <= values.value.start + 2
      then Refused("values must be a non-empty object")
      else Call(model.value, "create", "[" + ValueJson(t, values.value) + "]", "{}")
    else if tool == "update_record" then
      if ids.None? || values.None? then Refused("missing required fields: record_ids, values")
      else Call(model.value, "write", "[" + ValueJson(t, ids.value) + "," + ValueJson(t, values.value) + "]", "{}")
    else Refused("unknown tool")
  }

  /** What the client is told, and the bodies posted to Odoo. */
  datatype Outcome = Outcome(reply: string, sent: seq<string>)

  function Perform(call: Call, ctx: Option<Context>): Outcome {
    if call.Refused? then Outcome(ErrorReply(call.msg), [])
    else if ctx.None? then Outcome(ErrorReply("no Odoo context"), [])
    else if ctx.value.uid < 0 then Outcome(TextReply(ODOO_ERROR), [])
    else
      var args, kwargs := XmlOf(Meant(CStr(call.args)), ctx.value.g), XmlOf(Meant(CStr(call.kwargs)), ctx.value.g);
      var body := CallEnvelope(ctx.value, call.model, call.name, args, kwargs);
      var resp := Received(ctx.value.post(body));
      Outcome(TextReply(if resp.Some? then resp.value else ODOO_ERROR), [body])
  }

  /** `dispatch_tool` for the arguments value that starts at `start` in `t`. */
  function Dispatched(tool: string, t: string, start: nat, ctx: Option<Context>): Outcome
    requires start <= |t|
  {
    var (s, obj) := Read(t, State(start, 0, NoFault));
    if !obj.kind.SjObject? then Outcome(ErrorReply("arguments must be an object"), [])
    else Perform(CallOf(tool, t, Entries(t, s, obj)), ctx)
  }

  lemma LastSnoc(t: string, e: seq<Entry>, x: Entry, key: string)
    requires InText(t, e) && x.0.start <= x.0.end <= |t| && x.1.start <= x.1.end <= |t|
    ensures LastOf(t, e + [x], key) == if Slice(t, x.0) == key then Some(x.1) else LastOf(t, e, key)
    ensures LastString(t, e + [x], key) ==
      if Slice(t, x.0) == key && x.1.kind.SjString? then Some(CStr(Slice(t, x.1))) else LastString(t, e, key)
  {
    assert (e + [x])[..|e + [x]| - 1] == e;
  }

  // ----- the C code -----

  /** The local variables the field loop of `dispatch_tool` fills. */
  datatype Locals = Locals(model: Option<string>, domain: Option<Value>, fields: Option<Value>, limit: Option<Value>,
                           offset: Option<Value>, order: Option<Value>, values: Option<Value>, attrs: Option<Value>,
                           ids: Option<Value>)

  function FieldsOf(t: string, e: seq<Entry>): Locals
    requires InText(t, e)
  {
    Locals(LastString(t, e, "model"), LastOf(t, e, "domain"), LastOf(t, e, "fields"), LastOf(t, e, "limit"),
           LastOf(t, e, "offset"), LastOf(t, e, "order"), LastOf(t, e, "values"), LastOf(t, e, "attributes"),
           LastOf(t, e, "record_ids"))
  }

  /** One pass of the field loop: the chain of comparisons. */
  function Assign(f: Locals, t: string, key: Value, val: Value): Locals
    requires key.start <= key.end <= |t| && val.start <= val.end <= |t|
  {
    var k := Slice(t, key);
    if k == "model" && val.kind.SjString? then f.(model := Some(CStr(Slice(t, val))))
    else if k == "domain" then f.(domain := Some(val))
    else if k == "fields" then f.(fields := Some(val))
    else if k == "limit" then f.(limit := Some(val))
    else if k == "offset" then f.(offset := Some(val))
    else if k == "order" then f.(order := Some(val))
    else if k == "values" then f.(values := Some(val))
    else if k == "attributes" then f.(attrs := Some(val))
    else if k == "record_ids" then f.(ids := Some(val))
    else f
  }

  lemma AssignStep(t: string, e: seq<Entry>, key: Value, val: Value)
    requires InText(t, e) && key.start <= key.end <= |t| && val.start <= val.end <= |t|
    ensures InText(t, e + [(key, val)])
    ensures FieldsOf(t, e + [(key, val)]) == Assign(FieldsOf(t, e), t, key, val)
  {
    hide LastOf, LastString, Slice;
    var x := (key, val);
    LastSnoc(t, e, x, "model");
    LastSnoc(t, e, x, "domain");
    LastSnoc(t, e, x, "fields");
    LastSnoc(t, e, x, "limit");
    LastSnoc(t, e, x, "offset");
    LastSnoc(t, e, x, "order");
    LastSnoc(t, e, x, "values");
    LastSnoc(t, e, x, "attributes");
    LastSnoc(t, e, x, "record_ids");
  }

  /** One more step of the object iterator: the entries seen so far and those still to come stay the
      same altogether. */
  lemma SeenStep(t: string, s: State, obj: Value, seen: seq<Entry>, all: seq<Entry>)
    requires s.cur <= |t| && InText(t, seen) && seen + Entries(t, s, obj) == all
    ensures var step := IterObject(t, s, obj);
      if step.ok then InText(t, seen + [(step.key, step.val)]) && seen + [(step.key, step.val)] + Entries(t, step.st, obj) == all
      else seen == all
  {
    hide IterObject;
    var step := IterObject(t, s, obj);
    if step.ok {
      var x := (step.key, step.val);
      assert seen + [x] + Entries(t, step.st, obj) == seen + ([x] + Entries(t, step.st, obj));
    } else {
      assert seen + [] == seen;
    }
  }

  /** The field loop. */
  method CollectFields(r: Reader, obj: Value) returns (f: Locals)
    requires r.Valid()
    modifies r
    ensures f == FieldsOf(r.text, Entries(r.text, old(r.St()), obj))
  {
    hide FieldsOf, Assign, IterObject, Entries, InText;
    var t := r.text;
    ghost var all := Entries(t, r.St(), obj);
    ghost var seen: seq<Entry> := [];
    f := Locals(None, None, None, None, None, None, None, None, None);
    NoFieldsYet(t);
    while true
      invariant r.Valid() && InText(t, seen) && f == FieldsOf(t, seen)
      invariant seen + Entries(t, r.St(), obj) == all
      decreases |t| - r.cur
    {
      SeenStep(t, r.St(), obj, seen, all);
      var more, key, val := r.IterObject(obj);
      if !more { break; }
      AssignStep(t, seen, key, val);
      f := Assign(f, t, key, val);
      seen := seen + [(key, val)];
    }
  }

  lemma NoFieldsYet(t: string)
    ensures InText(t, []) && FieldsOf(t, []) == Locals(None, None, None, None, None, None, None, None, None)
  {
  }

  method JsonOrElse(t: string, v: Option<Value>, other: string) returns (out: string)
    requires v.Some? ==> v.value.start <= v.value.end <= |t|
    ensures out == JsonOr(t, v, other)
  {
    if v.Some? { out := ValueToJson(t, v.value); } else { out := other; }
  }

  /** The tool selection of `dispatch_tool`. */
  method SelectCall(tool: string, t: string, f: Locals, ghost e: seq<Entry>) returns (call: Call)
    requires InText(t, e) && f == FieldsOf(t, e)
    ensures call == CallOf(tool, t, e)
  {
    hide LastOf, LastString, ValueJson, LongOr;
    if f.model == None { return Refused("missing required field: model"); }
    if tool == "search_read_records" {
      var dom := JsonOrElse(t, f.domain, "[]");
      var fields := JsonOrElse(t, f.fields, DEFAULT_FIELDS);
      var kb := "{" + Key("fields") + fields + "," + Key("limit") + Dec(LongOr(t, f.limit, 80))
        + "," + Key("offset") + Dec(LongOr(t, f.offset, 0));
      var order := "";
      if f.order.Some? && f.order.value.kind.SjString? {
        var s := RequoteSlice(t, f.order.value.start, f.order.value.end);
        order := "," + Key("order") + s;
      }
      call := Call(f.model.value, "search_read", "[" + dom + "]", kb + order + "}");
    } else if tool == "get_model_fields" {
      var attrs := JsonOrElse(t, f.attrs, DEFAULT_ATTRIBUTES);
      call := Call(f.model.value, "fields_get", "[[]]", "{" + Key("attributes") + attrs + "}");
    } else if tool == "create_record" {
      if f.values.None? || !f.values.value.kind.SjObject? || f.values.value.end <= f.values.value.start + 2 {
        return Refused("values must be a non-empty object");
      }
      var values := ValueToJson(t, f.values.value);
      call := Call(f.model.value, "create", "[" + values + "]", "{}");
    } else if tool == "update_record" {
      if f.ids.None? || f.values.None? {
        return Refused("missing required fields: record_ids, values");
      }
      var ids := ValueToJson(t, f.ids.value);
      var values := ValueToJson(t, f.values.value);
      call := Call(f.model.value, "write", "[" + ids + "," + values + "]", "{}");
    } else {
      call := Refused("unknown tool");
    }
  }

  /** `dispatch_tool`: the tool result, and the bodies posted to Odoo. */
  method DispatchTool(tool: string, t: string, start: nat, ctx: Option<Context>) returns (out: string, sent: seq<string>)
    requires start <= |t|
    ensures Outcome(out, sent) == Dispatched(tool, t, start, ctx)
  {
    hide CallOf, Entries, Read, FieldsOf;
    var r := new Reader(t, start);
    var obj := r.Read();
    if obj.kind != SjObject { return ErrorReply("arguments must be an object"), []; }
    ghost var e := Entries(t, r.St(), obj);
    var f := CollectFields(r, obj);
    var call := SelectCall(tool, t, f, e);
    if call.Refused? { return ErrorReply(call.msg), []; }
    if ctx == None { return ErrorReply("no Odoo context"), []; }
    var resp, posted := Execute(ctx.value, call.model, call.name, CStr(call.args), CStr(call.kwargs));
    return TextReply(if resp.Some? then resp.value else ODOO_ERROR), posted;
  }

  /** No request reaches Odoo's `create`: the value of an open container ends one byte after it
      starts, so the emptiness test holds for every object. */
  lemma CreateIsUnreachable(t: string, start: nat, ctx: Option<Context>)
    requires start <= |t|
    ensures var out := Dispatched("create_record", t, start, ctx);
      out.sent == [] && exists msg :: out.reply == ErrorReply(msg)
  {
    hide Read, CallOf, ErrorReply;
    var (s, obj) := Read(t, State(start, 0, NoFault));
    if obj.kind.SjObject? {
      ContainersEnd(t, s, obj);
      CreateRefused(t, Entries(t, s, obj));
    }
  }

  lemma CreateRefused(t: string, e: seq<Entry>)
    requires InText(t, e) && forall i :: 0 <= i < |e| ==> EndsOpen(e[i].1)
    ensures CallOf("create_record", t, e).Refused?
  {
    hide LastString, LastOf;
    LastEnds(t, e, "values");
  }

  predicate EndsOpen(v: Value) {
    v.kind.SjObject? ==> v.end == v.start + 1
  }

  lemma {:induction false} ContainersEnd(t: string, s: State, obj: Value)
    requires s.cur <= |t|
    ensures forall i :: 0 <= i < |Entries(t, s, obj)| ==> EndsOpen(Entries(t, s, obj)[i].1)
    decreases |t| - s.cur
  {
    var step := IterObject(t, s, obj);
    if step.ok { ContainersEnd(t, step.st, obj); }
  }

  lemma {:induction false} LastEnds(t: string, e: seq<Entry>, key: string)
    requires InText(t, e) && forall i :: 0 <= i < |e| ==> EndsOpen(e[i].1)
    ensures LastOf(t, e, key).Some? ==> EndsOpen(LastOf(t, e, key).value)
  {
    if e != [] { LastEnds(t, e[..|e| - 1], key); }
  }
}
