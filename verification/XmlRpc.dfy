/** odoo.c: JSON text to XML-RPC text, without building a tree. */
module XmlRpc {
  import opened Text
  import opened Cursor
  import opened Readers
  import opened Json
  import opened JsonLaws

  // ----- the XML of a tree -----

  /** What `%g` prints for the value `strtod` reads; floating point itself is left open. */
  type DoubleText = string -> string

  function El(name: string, body: string): string {
    "<" + name + ">" + body + "</" + name + ">"
  }

  function XmlString(s: string): string { El("value", El("string", s)) }

  function XmlInt(n: int): string { El("value", El("int", Dec(n))) }

  function XmlParam(xml: string): string { El("param", xml) }

  function XmlEnvelope(name: string, params: string): string {
    "<?xml version=\"1.0\"?>" + El("methodCall", El("methodName", name) + El("params", params))
  }

  predicate IsFloating(w: string) {
    exists i :: 0 <= i < |w| && (w[i] == '.' || w[i] == 'e' || w[i] == 'E')
  }

  /** A number goes through a 64-byte scratch buffer. */
  function XmlNumber(lexeme: string, g: DoubleText): string {
    var tmp := Clip(lexeme, 63);
    if IsFloating(tmp) then El("value", El("double", g(tmp))) else XmlInt(Strtoll(tmp))
  }

  /** The XML-RPC value of a tree. */
  function XmlOf(j: Json, g: DoubleText): string {
    match j
    case JNull => El("value", "<nil/>")
    case JBool(b) => El("value", El("boolean", if b then "1" else "0"))
    case JNum(lexeme) => XmlNumber(lexeme, g)
    case JStr(raw) => XmlString(raw)
    case JArr(items) => El("value", El("array", El("data", XmlItems(items, g))))
    case JObj(members) => El("value", El("struct", XmlMembers(members, g)))
  }

  function XmlItems(items: Items, g: DoubleText): string {
    match items
    case NoItems => ""
    case Item(head, tail) => XmlOf(head, g) + XmlItems(tail, g)
  }

  function XmlMember(key: string, xml: string): string { El("member", El("name", key) + xml) }

  function XmlMembers(members: Members, g: DoubleText): string {
    match members
    case NoMembers => ""
    case Member(key, val, rest) => XmlMember(key, XmlOf(val, g)) + XmlMembers(rest, g)
  }

  // ----- the converter -----

  /** The reader and the XML after a full walk of `v`. */
  function XmlAt(t: string, s: State, v: Value, g: DoubleText): (State, string)
    requires s.cur <= |t| && v.start <= v.end <= |t|
  {
    var (s1, tree) := TreeAt(t, s, v);
    (s1, XmlOf(tree, g))
  }

  /** `NULL != strpbrk(w, ".eE")`. */
  method HasFloatMark(w: string) returns (yes: bool)
    ensures yes <==> '.' in w || 'e' in w || 'E' in w
    ensures yes == IsFloating(w)
  {
    var p := 0;
    while p < |w| && w[p] != '.' && w[p] != 'e' && w[p] != 'E'
      invariant p <= |w| && forall i :: 0 <= i < p ==> w[i] != '.' && w[i] != 'e' && w[i] != 'E'
    {
      p := p + 1;
    }
    yes := p < |w|;
  }

  /** `sj_to_xmlrpc`: the reader has just returned `v`. The XML is that of the tree a full walk
      sees, and the reader is left where that walk leaves it. */
  method SjToXmlrpc(r: Reader, v: Value, g: DoubleText) returns (xml: string)
    requires r.Valid() && NulFree(r.text) && v.start <= v.end <= |r.text|
    modifies r
    ensures r.Valid() && old(r.cur) <= r.cur
    ensures (r.St(), xml) == XmlAt(r.text, old(r.St()), v, g)
    decreases |r.text| - r.cur, 1
  {
    match v.kind
    case SjNull => xml := El("value", "<nil/>");
    case SjBool =>
      var isTrue := v.end - v.start == 4;
      xml := El("value", El("boolean", if isTrue then "1" else "0"));
    case SjNumber =>
      var tmp := Clip(r.text[v.start..v.end], 63);
      var floating := HasFloatMark(tmp);
      xml := if floating then El("value", El("double", g(tmp))) else XmlInt(Strtoll(tmp));
    case SjString => xml := XmlString(CStr(r.text[v.start..v.end]));
    case SjArray =>
      var items := ArrayItems(r, v, g);
      xml := El("value", El("array", El("data", items)));
    case SjObject =>
      var members := ObjectMembers(r, v, g);
      xml := El("value", El("struct", members));
    case SjEnd | SjError => xml := El("value", El("struct", ""));
  }

  /** One step of the array loop: the XML written so far and the XML still to come stay the same
      altogether. */
  lemma ItemsXml(t: string, s: State, v: Value, g: DoubleText, items: string)
    requires s.cur <= |t|
    ensures var step := IterArray(t, s, v);
      var now := ItemsAt(t, s, v);
      if !step.ok then now.0 == step.st && items + XmlItems(now.1, g) == items
      else
        var (s1, head) := TreeAt(t, step.st, step.val);
        var next := ItemsAt(t, s1, v);
        now.0 == next.0 && items + XmlItems(now.1, g) == items + XmlOf(head, g) + XmlItems(next.1, g)
  {
    hide IterArray, TreeAt, XmlOf;
  }

  /** The same for the object loop. */
  lemma MembersXml(t: string, s: State, v: Value, g: DoubleText, members: string)
    requires s.cur <= |t|
    ensures var step := IterObject(t, s, v);
      var now := MembersAt(t, s, v);
      if !step.ok then now.0 == step.st && members + XmlMembers(now.1, g) == members
      else
        var (s1, val) := TreeAt(t, step.st, step.val);
        var next := MembersAt(t, s1, v);
        && now.0 == next.0
        && members + XmlMembers(now.1, g)
           == members + XmlMember(Slice(t, step.key), XmlOf(val, g)) + XmlMembers(next.1, g)
  {
    hide IterObject, TreeAt, XmlOf, XmlMember;
  }

  /** The loop of the `SJ_ARRAY` case. */
  method ArrayItems(r: Reader, v: Value, g: DoubleText) returns (items: string)
    requires r.Valid() && NulFree(r.text)
    modifies r
    ensures r.Valid() && old(r.cur) <= r.cur
    ensures var all := ItemsAt(r.text, old(r.St()), v); r.St() == all.0 && items == XmlItems(all.1, g)
    decreases |r.text| - r.cur, 0
  {
    hide IterArray, XmlOf, ItemsAt, XmlItems, TreeAt;
    ghost var all := ItemsAt(r.text, r.St(), v);
    items := "";
    while true
      invariant r.Valid() && old(r.cur) <= r.cur
      invariant var now := ItemsAt(r.text, r.St(), v);
        now.0 == all.0 && items + XmlItems(now.1, g) == XmlItems(all.1, g)
      decreases |r.text| - r.cur
    {
      ItemsXml(r.text, r.St(), v, g, items);
      var more, item := r.IterArray(v);
      if !more { break; }
      var x := SjToXmlrpc(r, item, g);
      items := items + x;
    }
  }

  /** The loop of the `SJ_OBJECT` case. */
  method ObjectMembers(r: Reader, v: Value, g: DoubleText) returns (members: string)
    requires r.Valid() && NulFree(r.text)
    modifies r
    ensures r.Valid() && old(r.cur) <= r.cur
    ensures var all := MembersAt(r.text, old(r.St()), v); r.St() == all.0 && members == XmlMembers(all.1, g)
    decreases |r.text| - r.cur, 0
  {
    hide IterObject, XmlOf, XmlMember, MembersAt, XmlMembers, TreeAt;
    ghost var all := MembersAt(r.text, r.St(), v);
    members := "";
    while true
      invariant r.Valid() && old(r.cur) <= r.cur
      invariant var now := MembersAt(r.text, r.St(), v);
        now.0 == all.0 && members + XmlMembers(now.1, g) == XmlMembers(all.1, g)
      decreases |r.text| - r.cur
    {
      MembersXml(r.text, r.St(), v, g, members);
      var more, key, val := r.IterObject(v);
      if !more { break; }
      var ks := CStr(r.text[key.start..key.end]);
      var x := SjToXmlrpc(r, val, g);
      members := members + XmlMember(ks, x);
    }
  }

  /** What a text handed to the converter stands for, including its two fallbacks. */
  function Meant(text: string): Json {
    if text == "" then JObj(NoMembers)
    else if Read(text, State(0, 0, NoFault)).1.kind.SjError? then JStr(text)
    else TreeOf(text)
  }

  /** `json_to_xmlrpc` on a C string. */
  method JsonToXmlrpc(text: string, g: DoubleText) returns (xml: string)
    requires NulFree(text)
    ensures xml == XmlOf(Meant(text), g)
  {
    if text == "" { return El("value", El("struct", "")); }
    var r := new Reader(text, 0);
    var v := r.Read();
    if v.kind == SjError { return XmlString(text); }
    xml := SjToXmlrpc(r, v, g);
  }

  /** Meaning preservation: the converter's output depends only on the tree a text was printed
      from, not on its separators. */
  lemma MeaningPreserved(lead: string, c: Doc, trail: string)
    requires IsGap(lead) && WellFormed(c) && (c.DNum? && trail != "" ==> !NumberByte(trail[0]))
    ensures Meant(lead + Print(c) + trail) == Erase(c)
  {
    TreeOfText(lead, c, trail);
  }

  /** The two fallbacks: no text is an empty struct, and a text whose first token cannot be read is a
      string of itself. */
  lemma Fallbacks(text: string, g: DoubleText)
    ensures XmlOf(Meant(""), g) == "<value><struct></struct></value>"
    ensures text != "" && Read(text, State(0, 0, NoFault)).1.kind.SjError? ==>
      XmlOf(Meant(text), g) == "<value>" + ("<string>" + text + "</string>") + "</value>"
  {
    hide Read, TreeOf;
    EmptyStruct();
  }

  lemma EmptyStruct()
    ensures El("value", El("struct", "")) == "<value><struct></struct></value>"
  {
  }
}
