/** The option text of a search and the JSON-RPC responses of mcp.c, written through a `JsonBuf` in an
    arena. */
module BufferedTexts {
  import opened Options
  import opened Text
  import opened Cursor
  import opened Escape
  import opened ArenaState
  import opened Arenas
  import opened JsonBufs
  import opened Dispatch
  import opened Mcp

  /** Bytes that `jbuf_str` writes as they are. */
  predicate Printable(w: string) {
    forall i :: 0 <= i < |w| ==> w[i] as int >= 0x20 && w[i] != '"' && w[i] != '\\'
  }

  lemma {:induction false} QuotedPlain(w: string)
    requires Printable(w)
    ensures NulFree(w) && Quoted(w) == Lit(w)
    decreases |w|
  {
    EscapePlain(w);
  }

  lemma {:induction false} EscapePlain(w: string)
    requires Printable(w)
    ensures EscapeAll(w) == w
    decreases |w|
  {
    if w != "" {
      EscapePlain(w[1..]);
      assert EscapeByte(w[0]) == [w[0]];
    }
  }

  /** A separator, a key and a JSON text: `jbuf_cstr`, `jbuf_key`, `jbuf_cstr`. */
  method PutField(b: JsonBuf, lead: string, key: string, text: string)
    requires b.Valid() && Printable(key)
    modifies b, b.a, b.a.spine, set r | r in b.a.spine :: r.data
    ensures b.Valid() && b.Contents() == old(b.Contents()) + lead + Key(key) + text
    ensures b.OthersKept() && b.a.Extended()
  {
    hide Held, Apart, Arena.Linked, Arena.Abs, Arena.Valid, Arena.Bytes, JsonBuf.Placed, JsonBuf.Bounded, JsonBuf.Contents,
         EscapeAll, Printable;
    QuotedPlain(key);
    PutKey(b, lead, key);
    b.Raw(text);
  }

  method PutKey(b: JsonBuf, lead: string, key: string)
    requires b.Valid() && Printable(key)
    modifies b, b.a, b.a.spine, set r | r in b.a.spine :: r.data
    ensures b.Valid() && b.Contents() == old(b.Contents()) + lead + Key(key)
    ensures b.OthersKept() && b.a.Extended()
  {
    hide Held, Apart, Arena.Linked, Arena.Abs, Arena.Valid, Arena.Bytes, JsonBuf.Placed, JsonBuf.Bounded, JsonBuf.Contents,
         EscapeAll, Printable;
    QuotedPlain(key);
    b.Raw(lead);
    b.Key(key);
    assert b.Contents() == old(b.Contents()) + lead + (Lit(key) + ":");
  }

  /** A separator, a key and a slice: `jbuf_cstr`, `jbuf_key`, `jbuf_sj_str`. */
  method PutSlice(b: JsonBuf, lead: string, key: string, raw: string)
    requires b.Valid() && Printable(key)
    modifies b, b.a, b.a.spine, set r | r in b.a.spine :: r.data
    ensures b.Valid() && b.Contents() == old(b.Contents()) + lead + Key(key) + Lit(Requote(raw))
    ensures b.OthersKept() && b.a.Extended()
  {
    hide Held, Apart, Arena.Linked, Arena.Abs, Arena.Valid, Arena.Bytes, JsonBuf.Placed, JsonBuf.Bounded, JsonBuf.Contents,
         Requote, Key;
    PutKey(b, lead, key);
    b.SjStr(raw);
    assert b.Contents() == old(b.Contents()) + lead + Key(key) + ("\"" + Requote(raw) + "\"");
  }

  // ----- the options of a search -----

  /** The options but for the order and the last bracket. */
  function Head(fields: string, limit: int, offset: int): string {
    "{" + Key("fields") + fields + "," + Key("limit") + Dec(limit) + "," + Key("offset") + Dec(offset)
  }

  /** The order, if it is a string, and the last bracket. */
  function Order(t: string, order: Option<Value>): string
    requires order.Some? ==> order.value.start <= order.value.end <= |t|
  {
    (if order.Some? && order.value.kind.SjString? then "," + Key("order") + Lit(Requote(Slice(t, order.value))) else "") + "}"
  }

  lemma KwargsParts(t: string, e: seq<Entry>)
    requires InText(t, e)
    ensures SearchKwargs(t, e) == Head(JsonOr(t, LastOf(t, e, "fields"), DEFAULT_FIELDS), LongOr(t, LastOf(t, e, "limit"), 80),
                                       LongOr(t, LastOf(t, e, "offset"), 0))
                                  + Order(t, LastOf(t, e, "order"))
  {
    hide LastOf, JsonOr, LongOr, Key, Dec, Lit, Slice, Requote;
    var h := Head(JsonOr(t, LastOf(t, e, "fields"), DEFAULT_FIELDS), LongOr(t, LastOf(t, e, "limit"), 80),
                  LongOr(t, LastOf(t, e, "offset"), 0));
    var order := LastOf(t, e, "order");
    var o := if order.Some? && order.value.kind.SjString? then "," + Key("order") + Lit(Requote(Slice(t, order.value))) else "";
    assert h + o + "}" == h + (o + "}");
  }

  lemma OptionKeys()
    ensures Printable("fields") && Printable("limit") && Printable("offset") && Printable("order")
  {
  }

  method PutHead(b: JsonBuf, fields: string, limit: int, offset: int)
    requires b.Valid()
    modifies b, b.a, b.a.spine, set r | r in b.a.spine :: r.data
    ensures b.Valid() && b.Contents() == old(b.Contents()) + Head(fields, limit, offset)
    ensures b.OthersKept() && b.a.Extended()
  {
    hide Held, Apart, Arena.Linked, Arena.Abs, Arena.Valid, Arena.Bytes, JsonBuf.Placed, JsonBuf.Bounded, JsonBuf.Contents,
         Key, Dec, Printable, Head;
    OptionKeys();
    PutField(b, "{", "fields", fields);
    PutField(b, ",", "limit", Dec(limit));
    PutField(b, ",", "offset", Dec(offset));
    HeadParts(old(b.Contents()), fields, limit, offset);
  }

  lemma HeadParts(held: string, fields: string, limit: int, offset: int)
    ensures held + "{" + Key("fields") + fields + "," + Key("limit") + Dec(limit) + "," + Key("offset") + Dec(offset)
         == held + Head(fields, limit, offset)
  {
    hide Key, Dec;
  }

  method PutOrder(b: JsonBuf, t: string, order: Option<Value>)
    requires b.Valid() && (order.Some? ==> order.value.start <= order.value.end <= |t|)
    modifies b, b.a, b.a.spine, set r | r in b.a.spine :: r.data
    ensures b.Valid() && b.Contents() == old(b.Contents()) + Order(t, order)
    ensures b.OthersKept() && b.a.Extended()
  {
    hide Held, Apart, Arena.Linked, Arena.Abs, Arena.Valid, Arena.Bytes, JsonBuf.Placed, JsonBuf.Bounded, JsonBuf.Contents,
         Key, Requote, Lit, Printable;
    OptionKeys();
    ghost var before, text := b.Contents(), "";
    if order.Some? && order.value.kind == SjString {
      PutSlice(b, ",", "order", t[order.value.start..order.value.end]);
      text := "," + Key("order") + Lit(Requote(Slice(t, order.value)));
      assert b.Contents() == before + text;
    }
    assert b.Contents() == before + text;
    b.Raw("}");
    assert before + text + "}" == before + (text + "}");
  }

  method PutOptions(b: JsonBuf, fields: string, limit: int, offset: int, t: string, order: Option<Value>)
    requires b.Valid() && (order.Some? ==> order.value.start <= order.value.end <= |t|)
    modifies b, b.a, b.a.spine, set r | r in b.a.spine :: r.data
    ensures b.Valid() && b.Contents() == old(b.Contents()) + (Head(fields, limit, offset) + Order(t, order))
    ensures b.OthersKept() && b.a.Extended()
  {
    hide Held, Apart, Arena.Linked, Arena.Abs, Arena.Valid, Arena.Bytes, JsonBuf.Placed, JsonBuf.Bounded, JsonBuf.Contents,
         Head, Order;
    PutHead(b, fields, limit, offset);
    PutOrder(b, t, order);
    var head, last := Head(fields, limit, offset), Order(t, order);
    assert old(b.Contents()) + head + last == old(b.Contents()) + (head + last);
  }

  /** The `search_read_records` branch of `dispatch_tool`: the kwargs text, in a buffer of its own. */
  method BuildSearchKwargs(a: Arena, t: string, f: Locals, ghost e: seq<Entry>) returns (kb: JsonBuf)
    requires a.Valid() && InText(t, e) && f == FieldsOf(t, e)
    modifies a, a.spine, set r | r in a.spine :: r.data
    ensures fresh(kb) && kb.a == a && kb.Valid() && kb.Contents() == SearchKwargs(t, e)
    ensures forall b :: old(Held(a.Abs(), b)) ==> Held(a.Abs(), b) && Apart(b, kb.blk) && a.Bytes(b) == old(a.Bytes(b))
  {
    hide Held, Apart, Arena.Linked, Arena.Abs, Arena.Valid, Arena.Bytes, JsonBuf.Placed, JsonBuf.Bounded, JsonBuf.Contents,
         SearchKwargs, LastOf, LastString, JsonOr, LongOr, Head, Order;
    KwargsParts(t, e);
    var fields := JsonOrElse(t, f.fields, DEFAULT_FIELDS);
    kb := new JsonBuf(a, 256);
    PutOptions(kb, fields, LongOr(t, f.limit, 80), LongOr(t, f.offset, 0), t, f.order);
    assert [] + SearchKwargs(t, e) == SearchKwargs(t, e);
  }

  // ----- responses -----

  /** `jbuf_id`. */
  method PutId(b: JsonBuf, t: string, id: Value)
    requires b.Valid() && id.start <= id.end <= |t|
    modifies b, b.a, b.a.spine, set r | r in b.a.spine :: r.data
    ensures b.Valid() && b.Contents() == old(b.Contents()) + IdText(t, id)
    ensures b.OthersKept() && b.a.Extended()
  {
    hide Held, Apart, Arena.Linked, Arena.Abs, Arena.Valid, Arena.Bytes, JsonBuf.Placed, JsonBuf.Bounded, JsonBuf.Contents,
         Requote;
    if id.kind == SjNumber {
      b.Raw(t[id.start..id.end]);
    } else if id.kind == SjString {
      b.SjStr(t[id.start..id.end]);
      assert b.Contents() == old(b.Contents()) + ("\"" + Requote(Slice(t, id)) + "\"");
    } else {
      b.Raw("null");
    }
  }

  /** The version and the id, which every response begins with. */
  function Start(id: string): string { "{" + Key("jsonrpc") + Lit("2.0") + "," + Key("id") + id }

  method PutStart(b: JsonBuf, t: string, id: Value)
    requires b.Valid() && id.start <= id.end <= |t|
    modifies b, b.a, b.a.spine, set r | r in b.a.spine :: r.data
    ensures b.Valid() && b.Contents() == old(b.Contents()) + Start(IdText(t, id))
    ensures b.OthersKept() && b.a.Extended()
  {
    hide Held, Apart, Arena.Linked, Arena.Abs, Arena.Valid, Arena.Bytes, JsonBuf.Placed, JsonBuf.Bounded, JsonBuf.Contents,
         IdText, Key, Lit, Start, Printable;
    PutVersion(b);
    PutId(b, t, id);
    StartParts(old(b.Contents()), IdText(t, id));
  }

  lemma StartParts(held: string, id: string)
    ensures held + ("{" + Key("jsonrpc") + Lit("2.0") + "," + Key("id")) + id == held + Start(id)
  {
    hide Key, Lit;
  }

  method PutVersion(b: JsonBuf)
    requires b.Valid()
    modifies b, b.a, b.a.spine, set r | r in b.a.spine :: r.data
    ensures b.Valid() && b.Contents() == old(b.Contents()) + ("{" + Key("jsonrpc") + Lit("2.0") + "," + Key("id"))
    ensures b.OthersKept() && b.a.Extended()
  {
    hide Held, Apart, Arena.Linked, Arena.Abs, Arena.Valid, Arena.Bytes, JsonBuf.Placed, JsonBuf.Bounded, JsonBuf.Contents,
         Key, Lit, Printable;
    ResponseKeys();
    PutWord(b, "{", "jsonrpc", "2.0");
    PutKey(b, ",", "id");
    VersionParts(old(b.Contents()), Key("jsonrpc"), Lit("2.0"), Key("id"));
  }

  lemma VersionParts(held: string, k1: string, v: string, k2: string)
    ensures held + "{" + k1 + v + "," + k2 == held + ("{" + k1 + v + "," + k2)
  {
  }

  lemma ResponseKeys()
    ensures Printable("jsonrpc") && Printable("2.0") && Printable("id") && Printable("result")
    ensures Printable("error") && Printable("code") && Printable("message")
  {
  }

  /** A separator, a key and a C string that needs no escaping. */
  method PutWord(b: JsonBuf, lead: string, key: string, w: string)
    requires b.Valid() && Printable(key) && Printable(w)
    modifies b, b.a, b.a.spine, set r | r in b.a.spine :: r.data
    ensures b.Valid() && b.Contents() == old(b.Contents()) + lead + Key(key) + Lit(w)
    ensures b.OthersKept() && b.a.Extended()
  {
    hide Held, Apart, Arena.Linked, Arena.Abs, Arena.Valid, Arena.Bytes, JsonBuf.Placed, JsonBuf.Bounded, JsonBuf.Contents,
         Key, Lit, Printable, EscapeAll;
    QuotedPlain(w);
    PutKey(b, lead, key);
    b.Str(w);
  }

  method PutResult(b: JsonBuf, result: string)
    requires b.Valid()
    modifies b, b.a, b.a.spine, set r | r in b.a.spine :: r.data
    ensures b.Valid() && b.Contents() == old(b.Contents()) + ("," + Key("result") + result + "}")
    ensures b.OthersKept() && b.a.Extended()
  {
    hide Held, Apart, Arena.Linked, Arena.Abs, Arena.Valid, Arena.Bytes, JsonBuf.Placed, JsonBuf.Bounded, JsonBuf.Contents,
         Key, Printable;
    ResponseKeys();
    ghost var held := b.Contents();
    PutField(b, ",", "result", result);
    b.Raw("}");
    assert held + "," + Key("result") + result + "}" == held + ("," + Key("result") + result + "}");
  }

  /** `jrpc_ok`: what the buffer holds is the response. */
  method PutOk(b: JsonBuf, t: string, id: Value, result: string)
    requires b.Valid() && id.start <= id.end <= |t|
    modifies b, b.a, b.a.spine, set r | r in b.a.spine :: r.data
    ensures b.Valid() && b.Contents() == old(b.Contents()) + JrpcOk(IdText(t, id), result)
    ensures b.OthersKept() && b.a.Extended()
  {
    hide Held, Apart, Arena.Linked, Arena.Abs, Arena.Valid, Arena.Bytes, JsonBuf.Placed, JsonBuf.Bounded, JsonBuf.Contents,
         IdText, Key, Start, Printable, JrpcOk;
    PutStart(b, t, id);
    PutResult(b, result);
    OkParts(old(b.Contents()), IdText(t, id), result);
  }

  lemma OkParts(held: string, id: string, result: string)
    ensures held + Start(id) + ("," + Key("result") + result + "}") == held + JrpcOk(id, result)
  {
    hide Key, Lit;
    var x := Start(id);
    assert held + x + ("," + Key("result") + result + "}") == held + (x + "," + Key("result") + result + "}");
  }

  /** The error object of `jrpc_err`, but for its last bracket. */
  method PutCodeAndMessage(b: JsonBuf, code: int, msg: string)
    requires b.Valid() && Printable(msg)
    modifies b, b.a, b.a.spine, set r | r in b.a.spine :: r.data
    ensures b.Valid()
    ensures b.Contents() == old(b.Contents()) + "{" + Key("code") + Dec(code) + "," + Key("message") + Lit(msg)
    ensures b.OthersKept() && b.a.Extended()
  {
    hide Held, Apart, Arena.Linked, Arena.Abs, Arena.Valid, Arena.Bytes, JsonBuf.Placed, JsonBuf.Bounded, JsonBuf.Contents,
         Key, Dec, Lit, Printable;
    ResponseKeys();
    PutField(b, "{", "code", Dec(code));
    PutWord(b, ",", "message", msg);
  }

  /** The error object of `jrpc_err`. */
  method PutError(b: JsonBuf, code: int, msg: string)
    requires b.Valid() && Printable(msg)
    modifies b, b.a, b.a.spine, set r | r in b.a.spine :: r.data
    ensures b.Valid() && b.Contents() == old(b.Contents()) + ErrorObject(code, msg)
    ensures b.OthersKept() && b.a.Extended()
  {
    hide Held, Apart, Arena.Linked, Arena.Abs, Arena.Valid, Arena.Bytes, JsonBuf.Placed, JsonBuf.Bounded, JsonBuf.Contents,
         Key, Dec, Lit, Printable, ErrorObject;
    PutCodeAndMessage(b, code, msg);
    b.Raw("}");
    ErrorParts(old(b.Contents()), code, msg);
  }

  lemma ErrorParts(held: string, code: int, msg: string)
    ensures held + "{" + Key("code") + Dec(code) + "," + Key("message") + Lit(msg) + "}" == held + ErrorObject(code, msg)
  {
    hide Key, Dec, Lit;
  }

  method PutErrorField(b: JsonBuf, code: int, msg: string)
    requires b.Valid() && Printable(msg)
    modifies b, b.a, b.a.spine, set r | r in b.a.spine :: r.data
    ensures b.Valid() && b.Contents() == old(b.Contents()) + ("," + Key("error") + ErrorObject(code, msg))
    ensures b.OthersKept() && b.a.Extended()
  {
    hide Held, Apart, Arena.Linked, Arena.Abs, Arena.Valid, Arena.Bytes, JsonBuf.Placed, JsonBuf.Bounded, JsonBuf.Contents,
         Key, Printable, ErrorObject;
    ResponseKeys();
    ghost var held := b.Contents();
    PutKey(b, ",", "error");
    PutError(b, code, msg);
    assert held + "," + Key("error") + ErrorObject(code, msg) == held + ("," + Key("error") + ErrorObject(code, msg));
  }

  /** `jrpc_err`. */
  method PutErr(b: JsonBuf, t: string, id: Value, code: int, msg: string)
    requires b.Valid() && id.start <= id.end <= |t| && Printable(msg)
    modifies b, b.a, b.a.spine, set r | r in b.a.spine :: r.data
    ensures b.Valid() && b.Contents() == old(b.Contents()) + JrpcErr(IdText(t, id), code, msg)
    ensures b.OthersKept() && b.a.Extended()
  {
    hide Held, Apart, Arena.Linked, Arena.Abs, Arena.Valid, Arena.Bytes, JsonBuf.Placed, JsonBuf.Bounded, JsonBuf.Contents,
         IdText, Key, Start, Printable, JrpcErr, ErrorObject;
    PutStart(b, t, id);
    PutErrorField(b, code, msg);
    b.Raw("}");
    ErrParts(old(b.Contents()), IdText(t, id), code, msg);
  }

  lemma ErrParts(held: string, id: string, code: int, msg: string)
    ensures held + Start(id) + ("," + Key("error") + ErrorObject(code, msg)) + "}" == held + JrpcErr(id, code, msg)
  {
    hide Key, Lit, ErrorObject;
    var x := Start(id);
    assert held + x + ("," + Key("error") + ErrorObject(code, msg)) + "}"
      == held + (x + "," + Key("error") + ErrorObject(code, msg) + "}");
  }
}
