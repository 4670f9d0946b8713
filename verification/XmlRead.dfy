/** Reading the generated XML back: a lexer, a tag matcher and a decoder that know nothing of how
    the XML was made. */
module XmlRead {
  import opened Options
  import opened Text
  import opened Json
  import opened XmlRpc
  import opened Cursor

  // ----- an XML reader -----

  datatype Tok = Open(name: string) | Close(name: string) | Empty(name: string) | Chars(text: string) | Torn

  /** The first offset from `i` on where `c` occurs, or `|x|`. */
  function Find(x: string, i: nat, c: char): (j: nat)
    requires i <= |x|
    ensures i <= j <= |x|
    ensures j < |x| ==> x[j] == c
    decreases |x| - i
  {
    if i == |x| || x[i] == c then i else Find(x, i + 1, c)
  }

  function TagTok(name: string): Tok {
    if name != "" && name[0] == '/' then Close(name[1..])
    else if name != "" && name[|name| - 1] == '/' then Empty(name[..|name| - 1])
    else Open(name)
  }

  function Lex(x: string): seq<Tok>
    decreases |x|
  {
    if x == "" then []
    else if x[0] == '<' then
      var e := Find(x, 1, '>');
      if e == |x| then [Torn] else [TagTok(x[1..e])] + Lex(x[e + 1..])
    else
      var e := Find(x, 1, '<');
      [Chars(x[..e])] + Lex(x[e..])
  }

  /** Reads tokens until the innermost open element is closed, and then its parents; returns what
      follows the outermost one. */
  function CloseAll(toks: seq<Tok>, stack: seq<string>): Option<seq<Tok>>
    decreases |toks|
  {
    if stack == [] then Some(toks)
    else if toks == [] then None
    else match toks[0]
      case Open(name) => CloseAll(toks[1..], [name] + stack)
      case Close(name) => if stack[0] == name then CloseAll(toks[1..], stack[1..]) else None
      case Empty(_) => CloseAll(toks[1..], stack)
      case Chars(_) => CloseAll(toks[1..], stack)
      case Torn => None
  }

  /** The text is one element of that name, with all tags inside it balanced, and nothing else. */
  predicate OneElement(x: string, name: string) {
    var toks := Lex(x);
    toks != [] && toks[0] == Open(name) && CloseAll(toks[1..], [name]) == Some([])
  }

  /** An XML-RPC value as a reader gets it; numbers and strings are the text between their tags. */
  datatype Rpc = RNil | RBool(b: bool) | RInt(text: string) | RDouble(text: string) | RStr(text: string)
               | RArray(items: RItems) | RStruct(members: RMembers)
  datatype RItems = NoRItems | RItem(head: Rpc, tail: RItems)
  datatype RMembers = NoRMembers | RMember(key: string, val: Rpc, rest: RMembers)

  /** The predefined entities. */
  function Unescape(s: string): string
    decreases |s|
  {
    if s == "" then ""
    else if s[0] != '&' then [s[0]] + Unescape(s[1..])
    else if "&lt;" <= s then "<" + Unescape(s[4..])
    else if "&gt;" <= s then ">" + Unescape(s[4..])
    else if "&amp;" <= s then "&" + Unescape(s[5..])
    else if "&quot;" <= s then "\"" + Unescape(s[6..])
    else if "&apos;" <= s then "'" + Unescape(s[6..])
    else [s[0]] + Unescape(s[1..])
  }

  /** Character data up to the closing tag `name`. */
  function DecodeText(toks: seq<Tok>, name: string): (r: Option<(string, seq<Tok>)>)
    ensures r.Some? ==> |r.value.1| < |toks|
  {
    if |toks| >= 2 && toks[0].Chars? && toks[1] == Close(name) then Some((Unescape(toks[0].text), toks[2..]))
    else if |toks| >= 1 && toks[0] == Close(name) then Some(("", toks[1..]))
    else None
  }

  function Skip<T>(r: Option<(T, seq<Tok>)>, name: string): Option<(T, seq<Tok>)> {
    match r
    case Some((x, toks)) => if toks != [] && toks[0] == Close(name) then Some((x, toks[1..])) else None
    case None => None
  }

  function Decode(toks: seq<Tok>): (r: Option<(Rpc, seq<Tok>)>)
    ensures r.Some? ==> |r.value.1| < |toks|
    decreases |toks|, 1
  {
    if |toks| < 2 || toks[0] != Open("value") then None
    else
      var inner := toks[2..];
      match toks[1]
      case Empty(name) => if name == "nil" then Skip(Some((RNil, inner)), "value") else None
      case Open(name) =>
        if name == "array" then
          if inner == [] || inner[0] != Open("data") then None
          else
            match DecodeItems(inner[1..])
            case Some((items, rest)) => Skip(Skip(Some((RArray(items), rest)), "array"), "value")
            case None => None
        else if name == "struct" then
          match DecodeMembers(inner)
          case Some((members, rest)) => Skip(Some((RStruct(members), rest)), "value")
          case None => None
        else Skip(DecodeScalar(inner, name), "value")
      case _ => None
  }

  /** The text of a scalar type, and its closing tag. */
  function DecodeScalar(toks: seq<Tok>, name: string): (r: Option<(Rpc, seq<Tok>)>)
    ensures r.Some? ==> |r.value.1| < |toks|
  {
    match DecodeText(toks, name)
    case Some((w, rest)) =>
      if name == "int" then Some((RInt(w), rest))
      else if name == "double" then Some((RDouble(w), rest))
      else if name == "string" then Some((RStr(w), rest))
      else if name == "boolean" && (w == "1" || w == "0") then Some((RBool(w == "1"), rest))
      else None
    case None => None
  }

  /** Values up to and including `</data>`. */
  function DecodeItems(toks: seq<Tok>): (r: Option<(RItems, seq<Tok>)>)
    ensures r.Some? ==> |r.value.1| < |toks|
    decreases |toks|, 2
  {
    if toks != [] && toks[0] == Close("data") then Some((NoRItems, toks[1..]))
    else
      match Decode(toks)
      case Some((head, rest)) => (
        match DecodeItems(rest)
        case Some((tail, rest')) => Some((RItem(head, tail), rest'))
        case None => None)
      case None => None
  }

  /** A key up to and including `</name>`. */
  function DecodeKey(toks: seq<Tok>): (r: Option<(string, seq<Tok>)>)
    ensures r.Some? ==> |r.value.1| < |toks|
  {
    if |toks| < 2 || toks[0] != Open("member") || toks[1] != Open("name") then None
    else DecodeText(toks[2..], "name")
  }

  /** Members up to and including `</struct>`. */
  function DecodeMembers(toks: seq<Tok>): (r: Option<(RMembers, seq<Tok>)>)
    ensures r.Some? ==> |r.value.1| < |toks|
    decreases |toks|, 2
  {
    if toks != [] && toks[0] == Close("struct") then Some((NoRMembers, toks[1..]))
    else
      match DecodeKey(toks)
      case Some((key, rest)) => (
        match Skip(Decode(rest), "member")
        case Some((val, rest')) => (
          match DecodeMembers(rest')
          case Some((more, rest'')) => Some((RMember(key, val, more), rest''))
          case None => None)
        case None => None)
      case None => None
  }

  // ----- what the generated XML lexes to -----

  predicate Free(s: string, c: char) {
    forall i :: 0 <= i < |s| ==> s[i] != c
  }

  /** No string, key or printed double of the tree contains `c`. */
  predicate TreeFree(j: Json, g: DoubleText, c: char) {
    match j
    case JNull | JBool(_) => true
    case JNum(lexeme) => IsFloating(Clip(lexeme, 63)) ==> Free(g(Clip(lexeme, 63)), c)
    case JStr(raw) => Free(raw, c)
    case JArr(items) => ItemsFree(items, g, c)
    case JObj(members) => MembersFree(members, g, c)
  }

  predicate ItemsFree(items: Items, g: DoubleText, c: char) {
    match items
    case NoItems => true
    case Item(head, tail) => TreeFree(head, g, c) && ItemsFree(tail, g, c)
  }

  predicate MembersFree(members: Members, g: DoubleText, c: char) {
    match members
    case NoMembers => true
    case Member(key, val, rest) => Free(key, c) && TreeFree(val, g, c) && MembersFree(rest, g, c)
  }

  function TextToks(s: string): seq<Tok> { if s == "" then [] else [Chars(s)] }

  function ElToks(name: string, body: seq<Tok>): seq<Tok> { [Open(name)] + body + [Close(name)] }

  function ValueToks(name: string, body: seq<Tok>): seq<Tok> { ElToks("value", ElToks(name, body)) }

  /** The tokens between `<value>` and `</value>`. */
  function Inner(j: Json, g: DoubleText): seq<Tok>
    decreases j, 0
  {
    match j
    case JNull => [Empty("nil")]
    case JBool(b) => ElToks("boolean", [Chars(if b then "1" else "0")])
    case JNum(lexeme) =>
      var tmp := Clip(lexeme, 63);
      if IsFloating(tmp) then ElToks("double", TextToks(g(tmp))) else ElToks("int", TextToks(Dec(Strtoll(tmp))))
    case JStr(raw) => ElToks("string", TextToks(raw))
    case JArr(items) => ElToks("array", ElToks("data", ItemsToks(items, g)))
    case JObj(members) => ElToks("struct", MembersToks(members, g))
  }

  function Toks(j: Json, g: DoubleText): seq<Tok>
    decreases j, 1
  {
    ElToks("value", Inner(j, g))
  }

  function ItemsToks(items: Items, g: DoubleText): seq<Tok>
    decreases items, 0
  {
    match items
    case NoItems => []
    case Item(head, tail) => Toks(head, g) + ItemsToks(tail, g)
  }

  function MemberToks(key: string, val: seq<Tok>): seq<Tok> {
    ElToks("member", ElToks("name", TextToks(key)) + val)
  }

  function MembersToks(members: Members, g: DoubleText): seq<Tok>
    decreases members, 0
  {
    match members
    case NoMembers => []
    case Member(key, val, rest) => MemberToks(key, Toks(val, g)) + MembersToks(rest, g)
  }

  lemma {:induction false} FindAt(x: string, i: nat, c: char, e: nat)
    requires i <= e <= |x| && (forall k :: i <= k < e ==> x[k] != c) && (e == |x| || x[e] == c)
    ensures Find(x, i, c) == e
    decreases e - i
  {
    if i < e { FindAt(x, i + 1, c, e); }
  }

  /** `rest` continues a text whose character data has ended. */
  predicate Tail(rest: string) { rest == "" || rest[0] == '<' }

  lemma LexTag(name: string, rest: string)
    requires Free(name, '>')
    ensures Lex("<" + name + ">" + rest) == [TagTok(name)] + Lex(rest)
  {
    var x := "<" + name + ">" + rest;
    FindAt(x, 1, '>', 1 + |name|);
    assert x[1..1 + |name|] == name && x[2 + |name|..] == rest;
  }

  lemma LexText(s: string, rest: string)
    requires Free(s, '<') && Tail(rest)
    ensures Lex(s + rest) == TextToks(s) + Lex(rest)
  {
    if s == "" {
      assert s + rest == rest;
    } else {
      var x := s + rest;
      FindAt(x, 1, '<', |s|);
      assert x[..|s|] == s && x[|s|..] == rest;
    }
  }

  /** A name that lexes to plain opening and closing tags. */
  predicate IsName(name: string) {
    name != "" && Free(name, '>') && name[0] != '/' && name[|name| - 1] != '/'
  }

  function Ending(name: string, rest: string): string { "</" + name + ">" + rest }

  lemma ElThen(name: string, body: string, rest: string)
    ensures El(name, body) + rest == "<" + name + ">" + (body + Ending(name, rest))
    ensures Tail(Ending(name, rest))
  {
    assert Ending(name, rest)[0] == '<';
  }

  lemma LexEnding(name: string, rest: string)
    requires IsName(name)
    ensures Lex(Ending(name, rest)) == [Close(name)] + Lex(rest)
  {
    hide Lex;
    var slash := "/" + name;
    assert Ending(name, rest) == "<" + slash + ">" + rest;
    LexTag(slash, rest);
    assert slash[1..] == name;
  }

  /** An element around a body that lexes to `toks` before the closing tag. */
  lemma LexEl(name: string, body: string, toks: seq<Tok>, rest: string)
    requires IsName(name) && Lex(body + Ending(name, rest)) == toks + Lex(Ending(name, rest))
    ensures Lex(El(name, body) + rest) == ElToks(name, toks) + Lex(rest)
  {
    hide Lex, El, Ending;
    ElThen(name, body, rest);
    LexTag(name, body + Ending(name, rest));
    LexEnding(name, rest);
    assert [Open(name)] + (toks + ([Close(name)] + Lex(rest))) == ElToks(name, toks) + Lex(rest);
  }

  lemma LexTextEl(name: string, s: string, rest: string)
    requires IsName(name) && Free(s, '<')
    ensures Lex(El(name, s) + rest) == ElToks(name, TextToks(s)) + Lex(rest)
  {
    hide Lex, El, Ending;
    ElThen(name, s, rest);
    LexText(s, Ending(name, rest));
    LexEl(name, s, TextToks(s), rest);
  }

  lemma LexValueText(name: string, s: string, rest: string)
    requires IsName(name) && Free(s, '<')
    ensures Lex(El("value", El(name, s)) + rest) == ValueToks(name, TextToks(s)) + Lex(rest)
  {
    hide Lex, El, Ending;
    LexTextEl(name, s, Ending("value", rest));
    LexEl("value", El(name, s), ElToks(name, TextToks(s)), rest);
  }

  lemma LexNil(rest: string)
    ensures Lex(El("value", "<nil/>") + rest) == ElToks("value", [Empty("nil")]) + Lex(rest)
  {
    hide Lex, El, Ending;
    LexTag("nil/", Ending("value", rest));
    assert "<" + "nil/" + ">" == "<nil/>";
    assert TagTok("nil/") == Empty("nil") by { assert "nil/"[..3] == "nil"; }
    LexEl("value", "<nil/>", [Empty("nil")], rest);
  }

  /** The value element of a tree lexes to the tree's tokens, whatever follows it. */
  lemma {:induction false} LexXml(j: Json, g: DoubleText, rest: string)
    requires TreeFree(j, g, '<') && Tail(rest)
    ensures Lex(XmlOf(j, g) + rest) == Toks(j, g) + Lex(rest)
    decreases j, 1
  {
    hide Lex, El, Ending, ElToks;
    var close := Ending("value", rest);
    match j
    case JNull => LexNil(rest);
    case JBool(b) => LexValueText("boolean", if b then "1" else "0", rest);
    case JNum(lexeme) =>
      var tmp := Clip(lexeme, 63);
      if IsFloating(tmp) { LexValueText("double", g(tmp), rest); } else { LexValueText("int", Dec(Strtoll(tmp)), rest); }
    case JStr(raw) => LexValueText("string", raw, rest);
    case JArr(items) =>
      var close1 := Ending("array", close);
      ElThen("data", XmlItems(items, g), close1);
      LexItems(items, g, Ending("data", close1));
      LexArray(XmlItems(items, g), ItemsToks(items, g), rest);
    case JObj(members) =>
      ElThen("struct", XmlMembers(members, g), close);
      LexMembers(members, g, Ending("struct", close));
      LexStruct(XmlMembers(members, g), MembersToks(members, g), rest);
  }

  lemma LexArray(x: string, toks: seq<Tok>, rest: string)
    requires var close := Ending("data", Ending("array", Ending("value", rest))); Lex(x + close) == toks + Lex(close)
    ensures Lex(El("value", El("array", El("data", x))) + rest)
         == ElToks("value", ElToks("array", ElToks("data", toks))) + Lex(rest)
  {
    hide Lex, El, Ending, ElToks;
    var close := Ending("value", rest);
    LexEl("data", x, toks, Ending("array", close));
    LexEl("array", El("data", x), ElToks("data", toks), close);
    LexEl("value", El("array", El("data", x)), ElToks("array", ElToks("data", toks)), rest);
  }

  lemma LexStruct(x: string, toks: seq<Tok>, rest: string)
    requires var close := Ending("struct", Ending("value", rest)); Lex(x + close) == toks + Lex(close)
    ensures Lex(El("value", El("struct", x)) + rest) == ElToks("value", ElToks("struct", toks)) + Lex(rest)
  {
    hide Lex, El, Ending, ElToks;
    LexEl("struct", x, toks, Ending("value", rest));
    LexEl("value", El("struct", x), ElToks("struct", toks), rest);
  }

  lemma XmlTail(j: Json, g: DoubleText, rest: string)
    ensures Tail(XmlOf(j, g) + rest)
  {
    assert (XmlOf(j, g) + rest)[0] == '<';
  }

  lemma {:induction false} LexItems(items: Items, g: DoubleText, rest: string)
    requires ItemsFree(items, g, '<') && Tail(rest)
    ensures Lex(XmlItems(items, g) + rest) == ItemsToks(items, g) + Lex(rest) && Tail(XmlItems(items, g) + rest)
    decreases items, 0
  {
    hide Lex, XmlOf, Toks;
    match items
    case NoItems => assert "" + rest == rest;
    case Item(head, tail) =>
      var rest1 := XmlItems(tail, g) + rest;
      LexItems(tail, g, rest);
      assert XmlItems(items, g) + rest == XmlOf(head, g) + rest1;
      XmlTail(head, g, rest1);
      LexXml(head, g, rest1);
  }

  lemma {:induction false} LexMembers(members: Members, g: DoubleText, rest: string)
    requires MembersFree(members, g, '<') && Tail(rest)
    ensures Lex(XmlMembers(members, g) + rest) == MembersToks(members, g) + Lex(rest)
    decreases members, 0
  {
    hide Lex, XmlOf, Toks, XmlMember, MemberToks;
    match members
    case NoMembers => assert "" + rest == rest;
    case Member(key, val, more) =>
      var rest1 := XmlMembers(more, g) + rest;
      LexMembers(more, g, rest);
      LexMember(key, val, g, rest1);
      assert XmlMembers(members, g) + rest == XmlMember(key, XmlOf(val, g)) + rest1;
  }

  lemma {:induction false} LexMember(key: string, val: Json, g: DoubleText, rest: string)
    requires Free(key, '<') && TreeFree(val, g, '<')
    ensures Lex(XmlMember(key, XmlOf(val, g)) + rest) == MemberToks(key, Toks(val, g)) + Lex(rest)
    decreases val, 2
  {
    hide Lex, El, Ending, XmlOf, Toks;
    var close := Ending("member", rest);
    var x := XmlOf(val, g);
    ElThen("member", El("name", key) + x, rest);
    LexXml(val, g, close);
    LexTextEl("name", key, x + close);
    assert El("name", key) + x + close == El("name", key) + (x + close);
    LexEl("member", El("name", key) + x, ElToks("name", TextToks(key)) + Toks(val, g), rest);
  }

  // ----- balance -----

  lemma CloseEl(name: string, body: seq<Tok>, more: seq<Tok>, stack: seq<string>)
    requires stack != []
    requires CloseAll(body + ([Close(name)] + more), [name] + stack) == CloseAll([Close(name)] + more, [name] + stack)
    ensures CloseAll(ElToks(name, body) + more, stack) == CloseAll(more, stack)
  {
    var inner := body + ([Close(name)] + more);
    assert ElToks(name, body) + more == [Open(name)] + inner;
    assert ([Open(name)] + inner)[1..] == inner;
    assert ([Close(name)] + more)[1..] == more && ([name] + stack)[1..] == stack;
  }

  lemma CloseText(text: seq<Tok>, more: seq<Tok>, stack: seq<string>)
    requires stack != [] && (text == [] || (|text| == 1 && (text[0].Chars? || text[0].Empty?)))
    ensures CloseAll(text + more, stack) == CloseAll(more, stack)
  {
    if text == [] { assert text + more == more; } else { assert (text + more)[1..] == more; }
  }

  lemma CloseTextEl(name: string, text: seq<Tok>, more: seq<Tok>, stack: seq<string>)
    requires stack != [] && (text == [] || (|text| == 1 && text[0].Chars?))
    ensures CloseAll(ElToks(name, text) + more, stack) == CloseAll(more, stack)
  {
    hide CloseAll, ElToks;
    CloseText(text, [Close(name)] + more, [name] + stack);
    CloseEl(name, text, more, stack);
  }

  lemma {:induction false} CloseValue(j: Json, g: DoubleText, more: seq<Tok>, stack: seq<string>)
    requires stack != []
    ensures CloseAll(Inner(j, g) + more, stack) == CloseAll(more, stack)
    decreases j, 1
  {
    hide CloseAll, ElToks;
    match j
    case JNull => CloseText([Empty("nil")], more, stack);
    case JBool(b) => CloseTextEl("boolean", [Chars(if b then "1" else "0")], more, stack);
    case JNum(lexeme) =>
      var tmp := Clip(lexeme, 63);
      if IsFloating(tmp) {
        CloseTextEl("double", TextToks(g(tmp)), more, stack);
      } else {
        CloseTextEl("int", TextToks(Dec(Strtoll(tmp))), more, stack);
      }
    case JStr(raw) => CloseTextEl("string", TextToks(raw), more, stack);
    case JArr(items) =>
      var toks := ItemsToks(items, g);
      var more1, stack1 := [Close("array")] + more, ["array"] + stack;
      CloseItems(items, g, [Close("data")] + more1, ["data"] + stack1);
      CloseEl("data", toks, more1, stack1);
      CloseEl("array", ElToks("data", toks), more, stack);
    case JObj(members) =>
      CloseMembers(members, g, [Close("struct")] + more, ["struct"] + stack);
      CloseEl("struct", MembersToks(members, g), more, stack);
  }

  lemma {:induction false} CloseItems(items: Items, g: DoubleText, more: seq<Tok>, stack: seq<string>)
    requires stack != []
    ensures CloseAll(ItemsToks(items, g) + more, stack) == CloseAll(more, stack)
    decreases items, 0
  {
    hide CloseAll, Inner, ElToks;
    match items
    case NoItems => assert [] + more == more;
    case Item(head, tail) =>
      var more1 := ItemsToks(tail, g) + more;
      assert ItemsToks(items, g) + more == Toks(head, g) + more1;
      CloseValue(head, g, [Close("value")] + more1, ["value"] + stack);
      CloseEl("value", Inner(head, g), more1, stack);
      CloseItems(tail, g, more, stack);
  }

  lemma {:induction false} CloseMembers(members: Members, g: DoubleText, more: seq<Tok>, stack: seq<string>)
    requires stack != []
    ensures CloseAll(MembersToks(members, g) + more, stack) == CloseAll(more, stack)
    decreases members, 0
  {
    hide CloseAll, Inner, ElToks;
    match members
    case NoMembers => assert [] + more == more;
    case Member(key, val, rest) =>
      var more1 := MembersToks(rest, g) + more;
      var more2, stack2 := [Close("member")] + more1, ["member"] + stack;
      var k, v := TextToks(key), Toks(val, g);
      CloseText(k, [Close("name")] + (v + more2), ["name"] + stack2);
      CloseEl("name", k, v + more2, stack2);
      CloseValue(val, g, [Close("value")] + more2, ["value"] + stack2);
      CloseEl("value", Inner(val, g), more2, stack2);
      assert (ElToks("name", k) + v) + more2 == ElToks("name", k) + (v + more2);
      CloseEl("member", ElToks("name", k) + v, more1, stack);
      assert MembersToks(members, g) + more == MemberToks(key, v) + more1;
      CloseMembers(rest, g, more, stack);
  }

  // ----- the texts of the converter are free of what the text is free of -----

  ghost predicate PlainDoubles(g: DoubleText, c: char) {
    forall w: string :: Free(g(w), c)
  }

  lemma {:induction false} TreeAtFree(t: string, s: State, v: Value, g: DoubleText, c: char)
    requires s.cur <= |t| && v.start <= v.end <= |t| && Free(t, c) && PlainDoubles(g, c)
    ensures TreeFree(TreeAt(t, s, v).1, g, c)
    decreases |t| - s.cur, 1
  {
    hide IterArray, IterObject;
    match v.kind
    case SjArray => ItemsAtFree(t, s, v, g, c);
    case SjObject => MembersAtFree(t, s, v, g, c);
    case _ =>
  }

  lemma {:induction false} ItemsAtFree(t: string, s: State, v: Value, g: DoubleText, c: char)
    requires s.cur <= |t| && Free(t, c) && PlainDoubles(g, c)
    ensures ItemsFree(ItemsAt(t, s, v).1, g, c)
    decreases |t| - s.cur, 0
  {
    hide IterArray;
    var step := IterArray(t, s, v);
    if step.ok {
      TreeAtFree(t, step.st, step.val, g, c);
      ItemsAtFree(t, TreeAt(t, step.st, step.val).0, v, g, c);
    }
  }

  lemma {:induction false} MembersAtFree(t: string, s: State, v: Value, g: DoubleText, c: char)
    requires s.cur <= |t| && Free(t, c) && PlainDoubles(g, c)
    ensures MembersFree(MembersAt(t, s, v).1, g, c)
    decreases |t| - s.cur, 0
  {
    hide IterObject;
    var step := IterObject(t, s, v);
    if step.ok {
      TreeAtFree(t, step.st, step.val, g, c);
      MembersAtFree(t, TreeAt(t, step.st, step.val).0, v, g, c);
    }
  }

  lemma MeantFree(text: string, g: DoubleText, c: char)
    requires Free(text, c) && PlainDoubles(g, c)
    ensures TreeFree(Meant(text), g, c)
  {
    hide Read;
    var (s, v) := Read(text, State(0, 0, NoFault));
    TreeAtFree(text, s, v, g, c);
  }

  lemma FreeConcat(a: string, b: string, c: char)
    ensures Free(a + b, c) <==> Free(a, c) && Free(b, c)
  {
    if Free(a + b, c) {
      forall i | 0 <= i < |a| ensures a[i] != c { assert (a + b)[i] == a[i]; }
      forall i | 0 <= i < |b| ensures b[i] != c { assert (a + b)[|a| + i] == b[i]; }
    }
  }

  predicate TagsFree(name: string, c: char) {
    Free("<" + name + ">", c) && Free("</" + name + ">", c)
  }

  lemma ElFree(name: string, body: string, c: char)
    requires TagsFree(name, c)
    ensures Free(El(name, body), c) <==> Free(body, c)
  {
    hide Free;
    FreeConcat("<" + name + ">", body, c);
    FreeConcat("<" + name + ">" + body, "</" + name + ">", c);
    assert El(name, body) == "<" + name + ">" + body + ("</" + name + ">");
  }

  /** A byte that neither the tags nor printed integers use. */
  ghost predicate OutsideMarkup(c: char) {
    && TagsFree("value", c) && TagsFree("boolean", c) && TagsFree("int", c) && TagsFree("double", c)
    && TagsFree("string", c) && TagsFree("array", c) && TagsFree("data", c) && TagsFree("struct", c)
    && TagsFree("member", c) && TagsFree("name", c)
    && Free("<nil/>", c) && Free("0", c) && Free("1", c) && forall n: int :: Free(Dec(n), c)
  }

  lemma NulOutsideMarkup()
    ensures OutsideMarkup('\0')
  {
    hide Dec;
  }

  /** The XML of a tree is free of such a byte exactly when the tree is. */
  lemma {:induction false} XmlFree(j: Json, g: DoubleText, c: char)
    requires OutsideMarkup(c)
    ensures Free(XmlOf(j, g), c) <==> TreeFree(j, g, c)
    decreases j, 1
  {
    hide El, Free, TagsFree, Dec, Strtoll, IsFloating, Clip;
    match j
    case JNull => ElFree("value", "<nil/>", c);
    case JBool(b) => ValueFree("boolean", if b then "1" else "0", c);
    case JNum(lexeme) =>
      var tmp := Clip(lexeme, 63);
      if IsFloating(tmp) { ValueFree("double", g(tmp), c); } else { ValueFree("int", Dec(Strtoll(tmp)), c); }
    case JStr(raw) => ValueFree("string", raw, c);
    case JArr(items) =>
      var x := XmlItems(items, g);
      XmlItemsFree(items, g, c);
      ElFree("data", x, c);
      ValueFree("array", El("data", x), c);
    case JObj(members) =>
      XmlMembersFree(members, g, c);
      ValueFree("struct", XmlMembers(members, g), c);
  }

  lemma ValueFree(name: string, body: string, c: char)
    requires TagsFree(name, c) && TagsFree("value", c)
    ensures Free(El("value", El(name, body)), c) <==> Free(body, c)
  {
    hide El, Free, TagsFree;
    ElFree(name, body, c);
    ElFree("value", El(name, body), c);
  }

  lemma {:induction false} XmlItemsFree(items: Items, g: DoubleText, c: char)
    requires OutsideMarkup(c)
    ensures Free(XmlItems(items, g), c) <==> ItemsFree(items, g, c)
    decreases items, 0
  {
    hide XmlOf, OutsideMarkup;
    if items.Item? {
      XmlFree(items.head, g, c);
      XmlItemsFree(items.tail, g, c);
      FreeConcat(XmlOf(items.head, g), XmlItems(items.tail, g), c);
    }
  }

  lemma {:induction false} XmlMembersFree(members: Members, g: DoubleText, c: char)
    requires OutsideMarkup(c)
    ensures Free(XmlMembers(members, g), c) <==> MembersFree(members, g, c)
    decreases members, 0
  {
    hide XmlOf, El, TagsFree;
    if members.Member? {
      var x, n := XmlOf(members.val, g), El("name", members.key);
      XmlFree(members.val, g, c);
      XmlMembersFree(members.rest, g, c);
      ElFree("name", members.key, c);
      FreeConcat(n, x, c);
      ElFree("member", n + x, c);
      FreeConcat(XmlMember(members.key, x), XmlMembers(members.rest, g), c);
    }
  }

  /** Whatever bytes it is given, well-formed JSON or not, the converter writes exactly one
      balanced `<value>` element, as long as the bytes contain no `<`. */
  lemma OneValueElement(text: string, g: DoubleText)
    requires Free(text, '<') && PlainDoubles(g, '<')
    ensures OneElement(XmlOf(Meant(text), g), "value")
  {
    hide Lex, Meant, XmlOf, Inner, CloseAll;
    var j := Meant(text);
    MeantFree(text, g, '<');
    LexAll(j, g);
    CloseValue(j, g, [Close("value")], ["value"]);
    CloseLast("value");
    assert Toks(j, g) == [Open("value")] + (Inner(j, g) + [Close("value")]);
  }

  /** With `<` in a string the output can stop being one element, and need not: a closing tag breaks
      it, and one that is made good by an opening tag behind it does not. */
  lemma TagInString(g: DoubleText)
    ensures !OneElement(XmlOf(JStr("</string>"), g), "value")
    ensures OneElement(XmlOf(JStr("</string><string>"), g), "value")
  {
    hide Lex, CloseAll, XmlOf;
    TwoClosings(g);
    ReopenedToks(g);
    ClosedTooSoon();
    ClosedInTime();
  }

  lemma TwoClosings(g: DoubleText)
    ensures Lex(XmlOf(JStr("</string>"), g))
         == [Open("value"), Open("string"), Close("string"), Close("string"), Close("value")]
  {
    hide Lex, El, ElToks;
    var e := Ending("string", Ending("value", ""));
    LexEnding("value", "");
    LexEnding("string", Ending("value", ""));
    LexTextEl("string", "", e);
    LexTag("value", El("string", "") + e);
    ClosingTag();
    ClosedEarly("string", "value");
    EmptyStringToks();
    LexNothing();
  }

  lemma ClosingTag()
    ensures "</string>" == "</" + "string" + ">"
  {
  }

  /** An element closed inside is an empty one and a closing tag too many. */
  lemma ClosedEarly(name: string, outer: string)
    ensures El(outer, El(name, "</" + name + ">"))
         == "<" + outer + ">" + (El(name, "") + Ending(name, Ending(outer, "")))
  {
    ClosedText("<" + name + ">", "</" + name + ">", "<" + outer + ">", "</" + outer + ">");
  }

  lemma ClosedText(a: string, b: string, c: string, d: string)
    ensures c + (a + b + b) + d == c + ((a + "" + b) + (b + (d + "")))
  {
    assert a + "" + b == a + b && d + "" == d;
    assert c + (a + b + b) + d == c + ((a + b) + (b + d));
  }

  lemma ReopenedToks(g: DoubleText)
    ensures Lex(XmlOf(JStr("</string><string>"), g))
         == [Open("value"), Open("string"), Close("string"), Open("string"), Close("string"), Close("value")]
  {
    hide Lex, El, ElToks;
    LexTextEl("string", "", Ending("value", ""));
    var e := El("string", "") + Ending("value", "");
    LexTextEl("string", "", e);
    LexEnding("value", "");
    LexTag("value", El("string", "") + e);
    TwoEmptyStrings(g);
    EmptyStringToks();
    LexNothing();
  }

  lemma TwoEmptyStrings(g: DoubleText)
    ensures XmlOf(JStr("</string><string>"), g)
         == "<" + "value" + ">" + (El("string", "") + (El("string", "") + Ending("value", "")))
  {
    ClosingOpening();
    Reopened("string", "value");
  }

  /** An element closed and opened again inside is two empty ones. */
  lemma Reopened(name: string, outer: string)
    ensures El(outer, El(name, "</" + name + ">" + ("<" + name + ">")))
         == "<" + outer + ">" + (El(name, "") + (El(name, "") + Ending(outer, "")))
  {
    ReopenedText("<" + name + ">", "</" + name + ">", "<" + outer + ">", "</" + outer + ">");
  }

  lemma ClosingOpening()
    ensures "</string><string>" == "</" + "string" + ">" + ("<" + "string" + ">")
  {
  }

  lemma EmptyStringToks()
    ensures TagTok("value") == Open("value")
    ensures ElToks("string", TextToks("")) == [Open("string"), Close("string")]
  {
  }

  lemma ReopenedText(a: string, b: string, c: string, d: string)
    ensures c + (a + (b + a) + b) + d == c + ((a + "" + b) + ((a + "" + b) + (d + "")))
  {
    assert a + "" + b == a + b && d + "" == d;
    assert a + (b + a) + b == (a + b) + (a + b);
    assert c + ((a + b) + (a + b)) + d == c + ((a + b) + ((a + b) + d));
  }

  lemma LexNothing()
    ensures Lex("") == []
  {
  }

  lemma ClosedTooSoon()
    ensures CloseAll([Open("string"), Close("string"), Close("string"), Close("value")], ["value"]) == None
  {
    var rest := [Close("string"), Close("string"), Close("value")];
    CloseText([], rest, ["string", "value"]);
    assert [Open("string")] + rest == [Open("string"), Close("string"), Close("string"), Close("value")];
    assert ([Open("string")] + rest)[1..] == rest && rest[1..] == [Close("string"), Close("value")];
    assert ["string"] + ["value"] == ["string", "value"] && ["string", "value"][1..] == ["value"];
  }

  lemma ClosedInTime()
    ensures CloseAll([Open("string"), Close("string"), Open("string"), Close("string"), Close("value")], ["value"]) == Some([])
  {
    var last := [Close("value")];
    CloseTextEl("string", [], last, ["value"]);
    CloseTextEl("string", [], ElToks("string", []) + last, ["value"]);
    CloseLast("value");
    assert ElToks("string", []) + (ElToks("string", []) + last)
        == [Open("string"), Close("string"), Open("string"), Close("string"), Close("value")];
  }

  lemma CloseLast(name: string)
    ensures CloseAll([Close(name)], [name]) == Some([])
  {
    assert [Close(name)][1..] == [] && [name][1..] == [];
  }

  lemma LexAll(j: Json, g: DoubleText)
    requires TreeFree(j, g, '<')
    ensures Lex(XmlOf(j, g)) == Toks(j, g)
  {
    hide XmlOf, Toks;
    LexXml(j, g, "");
    assert XmlOf(j, g) + "" == XmlOf(j, g);
  }

  // ----- decoding -----

  /** The XML-RPC value of a tree. */
  function RpcOf(j: Json, g: DoubleText): Rpc {
    match j
    case JNull => RNil
    case JBool(b) => RBool(b)
    case JNum(lexeme) =>
      var tmp := Clip(lexeme, 63);
      if IsFloating(tmp) then RDouble(g(tmp)) else RInt(Dec(Strtoll(tmp)))
    case JStr(raw) => RStr(raw)
    case JArr(items) => RArray(RpcItems(items, g))
    case JObj(members) => RStruct(RpcMembers(members, g))
  }

  function RpcItems(items: Items, g: DoubleText): RItems {
    match items
    case NoItems => NoRItems
    case Item(head, tail) => RItem(RpcOf(head, g), RpcItems(tail, g))
  }

  function RpcMembers(members: Members, g: DoubleText): RMembers {
    match members
    case NoMembers => NoRMembers
    case Member(key, val, rest) => RMember(key, RpcOf(val, g), RpcMembers(rest, g))
  }

  /** A value with the entities in its texts resolved. */
  function Resolved(r: Rpc): Rpc {
    match r
    case RNil | RBool(_) => r
    case RInt(w) => RInt(Unescape(w))
    case RDouble(w) => RDouble(Unescape(w))
    case RStr(w) => RStr(Unescape(w))
    case RArray(items) => RArray(ResolvedItems(items))
    case RStruct(members) => RStruct(ResolvedMembers(members))
  }

  function ResolvedItems(items: RItems): RItems {
    match items
    case NoRItems => NoRItems
    case RItem(head, tail) => RItem(Resolved(head), ResolvedItems(tail))
  }

  function ResolvedMembers(members: RMembers): RMembers {
    match members
    case NoRMembers => NoRMembers
    case RMember(key, val, rest) => RMember(Unescape(key), Resolved(val), ResolvedMembers(rest))
  }

  lemma DecodeTextToks(s: string, name: string, more: seq<Tok>)
    ensures DecodeText(TextToks(s) + ([Close(name)] + more), name) == Some((Unescape(s), more))
  {
    var toks := TextToks(s) + ([Close(name)] + more);
    if s == "" {
      assert toks == [Close(name)] + more && toks[1..] == more;
    } else {
      assert toks[2..] == more;
    }
  }

  /** `<value>` and the tag after it, peeled off. */
  lemma DecodeOpens(name: string, body: seq<Tok>, more: seq<Tok>)
    ensures var toks := ElToks("value", ElToks(name, body)) + more;
      |toks| >= 2 && toks[0] == Open("value") && toks[1] == Open(name)
      && toks[2..] == body + ([Close(name)] + ([Close("value")] + more))
  {
  }

  lemma DecodeNil(more: seq<Tok>)
    ensures Decode(ElToks("value", [Empty("nil")]) + more) == Some((RNil, more))
  {
    var toks := ElToks("value", [Empty("nil")]) + more;
    assert toks[2..] == [Close("value")] + more && toks[2..][1..] == more;
  }

  lemma ElOpens(name: string, body: seq<Tok>, more: seq<Tok>)
    ensures var toks := ElToks(name, body) + more;
      toks != [] && toks[0] == Open(name) && toks[1..] == body + ([Close(name)] + more)
  {
  }

  lemma DecodeTextValue(name: string, w: string, more: seq<Tok>)
    ensures var r := Decode(ElToks("value", ElToks(name, TextToks(w))) + more);
      && (name == "boolean" && (w == "1" || w == "0") ==> r == Some((RBool(w == "1"), more)))
      && (name == "int" ==> r == Some((RInt(Unescape(w)), more)))
      && (name == "double" ==> r == Some((RDouble(Unescape(w)), more)))
      && (name == "string" ==> r == Some((RStr(Unescape(w)), more)))
  {
    hide Unescape, ElToks, DecodeText, TextToks;
    var more1 := [Close("value")] + more;
    assert more1[1..] == more;
    DecodeOpens(name, TextToks(w), more);
    DecodeTextToks(w, name, more1);
    UnescapeBit();
  }

  lemma UnescapeBit()
    ensures Unescape("1") == "1" && Unescape("0") == "0"
  {
  }

  lemma DecodeArray(toks: seq<Tok>, items: RItems, more: seq<Tok>)
    requires var more2 := [Close("array")] + ([Close("value")] + more);
      DecodeItems(toks + ([Close("data")] + more2)) == Some((items, more2))
    ensures Decode(ElToks("value", ElToks("array", ElToks("data", toks))) + more) == Some((RArray(items), more))
  {
    hide ElToks, DecodeScalar, DecodeItems, DecodeMembers;
    var more1 := [Close("value")] + more;
    var more2 := [Close("array")] + more1;
    DecodeOpens("array", ElToks("data", toks), more);
    ElOpens("data", toks, more2);
    assert more2[1..] == more1 && more1[1..] == more;
  }

  lemma DecodeStruct(toks: seq<Tok>, members: RMembers, more: seq<Tok>)
    requires var more1 := [Close("value")] + more;
      DecodeMembers(toks + ([Close("struct")] + more1)) == Some((members, more1))
    ensures Decode(ElToks("value", ElToks("struct", toks)) + more) == Some((RStruct(members), more))
  {
    hide ElToks, DecodeScalar, DecodeItems, DecodeMembers;
    DecodeOpens("struct", toks, more);
    assert ([Close("value")] + more)[1..] == more;
  }

  lemma {:induction false} DecodeToks(j: Json, g: DoubleText, more: seq<Tok>)
    ensures Decode(Toks(j, g) + more) == Some((Resolved(RpcOf(j, g)), more))
    decreases j, 1
  {
    hide Decode, ElToks, DecodeItems, DecodeMembers;
    match j
    case JNull => DecodeNil(more);
    case JBool(b) => DecodeTextValue("boolean", if b then "1" else "0", more);
    case JNum(lexeme) =>
      var tmp := Clip(lexeme, 63);
      if IsFloating(tmp) {
        DecodeTextValue("double", g(tmp), more);
      } else {
        DecodeTextValue("int", Dec(Strtoll(tmp)), more);
      }
    case JStr(raw) => DecodeTextValue("string", raw, more);
    case JArr(items) =>
      DecodeItemsToks(items, g, [Close("array")] + ([Close("value")] + more));
      DecodeArray(ItemsToks(items, g), ResolvedItems(RpcItems(items, g)), more);
    case JObj(members) =>
      DecodeMembersToks(members, g, [Close("value")] + more);
      DecodeStruct(MembersToks(members, g), ResolvedMembers(RpcMembers(members, g)), more);
  }

  lemma {:induction false} DecodeItemsToks(items: Items, g: DoubleText, more: seq<Tok>)
    ensures DecodeItems(ItemsToks(items, g) + ([Close("data")] + more)) == Some((ResolvedItems(RpcItems(items, g)), more))
    decreases items, 0
  {
    hide Decode, Toks;
    var end := [Close("data")] + more;
    match items
    case NoItems => assert [] + end == end && end[1..] == more;
    case Item(head, tail) =>
      var more1 := ItemsToks(tail, g) + end;
      assert ItemsToks(items, g) + end == Toks(head, g) + more1;
      StartsOpen(head, g, more1);
      DecodeToks(head, g, more1);
      DecodeItemsToks(tail, g, more);
  }

  lemma StartsOpen(j: Json, g: DoubleText, more: seq<Tok>)
    ensures var toks := Toks(j, g) + more; toks != [] && toks[0] == Open("value")
  {
  }

  lemma {:induction false} DecodeMembersToks(members: Members, g: DoubleText, more: seq<Tok>)
    ensures DecodeMembers(MembersToks(members, g) + ([Close("struct")] + more))
         == Some((ResolvedMembers(RpcMembers(members, g)), more))
    decreases members, 0
  {
    hide Decode, Toks, ElToks, DecodeText, Resolved, Unescape;
    var end := [Close("struct")] + more;
    match members
    case NoMembers => assert [] + end == end && end[1..] == more;
    case Member(key, val, rest) =>
      var more1 := MembersToks(rest, g) + end;
      var close := [Close("member")] + more1;
      var v := Toks(val, g);
      var name := ElToks("name", TextToks(key));
      assert MembersToks(members, g) + end == ElToks("member", name + v) + more1;
      ElOpens("member", name + v, more1);
      assert (name + v) + close == name + (v + close);
      ElOpens("name", TextToks(key), v + close);
      DecodeTextToks(key, "name", v + close);
      DecodeToks(val, g, close);
      assert close[1..] == more1;
      DecodeMembersToks(rest, g, more);
  }

  // ----- lengths: what a decoder can read holds no less text than what it gets -----

  function ElLen(name: string, n: nat): nat { 2 * |name| + 5 + n }

  /** How long the XML of a value is. */
  function Len(r: Rpc): nat {
    match r
    case RNil => ElLen("value", 6)
    case RBool(_) => ElLen("value", ElLen("boolean", 1))
    case RInt(w) => ElLen("value", ElLen("int", |w|))
    case RDouble(w) => ElLen("value", ElLen("double", |w|))
    case RStr(w) => ElLen("value", ElLen("string", |w|))
    case RArray(items) => ElLen("value", ElLen("array", ElLen("data", ItemsLen(items))))
    case RStruct(members) => ElLen("value", ElLen("struct", MembersLen(members)))
  }

  function ItemsLen(items: RItems): nat {
    match items
    case NoRItems => 0
    case RItem(head, tail) => Len(head) + ItemsLen(tail)
  }

  function MembersLen(members: RMembers): nat {
    match members
    case NoRMembers => 0
    case RMember(key, val, rest) => ElLen("member", ElLen("name", |key|) + Len(val)) + MembersLen(rest)
  }

  lemma ElLength(name: string, body: string)
    ensures |El(name, body)| == ElLen(name, |body|)
    ensures |El("value", El(name, body))| == ElLen("value", ElLen(name, |body|))
  {
  }

  lemma {:induction false} XmlLen(j: Json, g: DoubleText)
    ensures |XmlOf(j, g)| == Len(RpcOf(j, g))
  {
    hide Clip, IsFloating, Strtoll, Dec, El, ElLen;
    match j
    case JNull => ElLength("value", "<nil/>");
    case JBool(b) => ElLength("boolean", if b then "1" else "0");
    case JNum(lexeme) =>
      var tmp := Clip(lexeme, 63);
      ElLength("double", g(tmp));
      ElLength("int", Dec(Strtoll(tmp)));
    case JStr(raw) => ElLength("string", raw);
    case JArr(items) =>
      XmlItemsLen(items, g);
      ElLength("data", XmlItems(items, g));
      ElLength("array", El("data", XmlItems(items, g)));
    case JObj(members) =>
      XmlMembersLen(members, g);
      ElLength("struct", XmlMembers(members, g));
  }

  lemma {:induction false} XmlItemsLen(items: Items, g: DoubleText)
    ensures |XmlItems(items, g)| == ItemsLen(RpcItems(items, g))
  {
    if items.Item? {
      XmlLen(items.head, g);
      XmlItemsLen(items.tail, g);
    }
  }

  lemma {:induction false} XmlMembersLen(members: Members, g: DoubleText)
    ensures |XmlMembers(members, g)| == MembersLen(RpcMembers(members, g))
  {
    if members.Member? {
      XmlLen(members.val, g);
      XmlMembersLen(members.rest, g);
    }
  }

  function TokLen(tok: Tok): nat {
    match tok
    case Open(name) => |name| + 2
    case Close(name) => |name| + 3
    case Empty(name) => |name| + 3
    case Chars(w) => |w|
    case Torn => 0
  }

  function ToksLen(toks: seq<Tok>): nat {
    if toks == [] then 0 else TokLen(toks[0]) + ToksLen(toks[1..])
  }

  /** Character data holds no `<`. */
  predicate CharsFree(toks: seq<Tok>) {
    forall i :: 0 <= i < |toks| && toks[i].Chars? ==> Free(toks[i].text, '<')
  }

  lemma CharsFreeFrom(toks: seq<Tok>, n: nat)
    requires CharsFree(toks) && n <= |toks|
    ensures CharsFree(toks[n..])
  {
    forall i | 0 <= i < |toks[n..]| && toks[n..][i].Chars? ensures Free(toks[n..][i].text, '<') {
      assert toks[n..][i] == toks[n + i];
    }
  }

  lemma {:induction false} FindFree(x: string, i: nat, c: char)
    requires i <= |x|
    ensures forall k :: i <= k < Find(x, i, c) ==> x[k] != c
    decreases |x| - i
  {
    if i < |x| && x[i] != c { FindFree(x, i + 1, c); }
  }

  /** A lexer's tokens are no longer than the text, and its character data holds no `<`. */
  lemma {:induction false} LexLen(x: string)
    ensures ToksLen(Lex(x)) <= |x| && CharsFree(Lex(x))
    decreases |x|
  {
    hide CharsFree, TagTok, TokLen, ToksLen;
    NothingLen();
    if x != "" {
      var e := Find(x, 1, if x[0] == '<' then '>' else '<');
      if x[0] != '<' {
        FindFree(x, 1, '<');
        LexLen(x[e..]);
        CharsLen(x[..e]);
        LexCons(Chars(x[..e]), Lex(x[e..]));
      } else if e < |x| {
        LexLen(x[e + 1..]);
        TagLen(x[1..e]);
        LexCons(TagTok(x[1..e]), Lex(x[e + 1..]));
      }
    }
  }

  lemma NothingLen()
    ensures ToksLen([]) == ToksLen([Torn]) == 0 && CharsFree([]) && CharsFree([Torn])
  {
  }

  lemma CharsLen(w: string)
    ensures TokLen(Chars(w)) == |w|
  {
  }

  lemma TagLen(name: string)
    ensures TokLen(TagTok(name)) == |name| + 2 && !TagTok(name).Chars?
  {
  }

  lemma LexCons(tok: Tok, rest: seq<Tok>)
    requires CharsFree(rest) && (tok.Chars? ==> Free(tok.text, '<'))
    ensures CharsFree([tok] + rest) && ToksLen([tok] + rest) == TokLen(tok) + ToksLen(rest)
  {
    assert ([tok] + rest)[1..] == rest;
  }

  /** The first step: some bytes stand for one character, and a single byte for itself. */
  lemma UnescapeStep(w: string) returns (n: nat, c: char)
    requires w != ""
    ensures 1 <= n <= |w| && Unescape(w) == [c] + Unescape(w[n..]) && (n == 1 ==> c == w[0])
  {
    n, c := 1, w[0];
    if w[0] == '&' {
      if "&lt;" <= w {
        n, c := 4, '<';
      } else if "&gt;" <= w {
        n, c := 4, '>';
      } else if "&amp;" <= w {
        n, c := 5, '&';
      } else if "&quot;" <= w {
        n, c := 6, '"';
      } else if "&apos;" <= w {
        n, c := 6, '\'';
      }
    }
  }

  lemma {:induction false} UnescapeLen(w: string)
    ensures |Unescape(w)| <= |w| && (|Unescape(w)| == |w| ==> Unescape(w) == w)
    decreases |w|
  {
    if w != "" {
      var n, c := UnescapeStep(w);
      hide Unescape;
      UnescapeLen(w[n..]);
      assert w == w[..n] + w[n..];
    }
  }

  /** No text of the value holds a `<`. */
  predicate RpcFree(r: Rpc) {
    match r
    case RNil | RBool(_) => true
    case RInt(w) => Free(w, '<')
    case RDouble(w) => Free(w, '<')
    case RStr(w) => Free(w, '<')
    case RArray(items) => RItemsFree(items)
    case RStruct(members) => RMembersFree(members)
  }

  predicate RItemsFree(items: RItems) {
    match items
    case NoRItems => true
    case RItem(head, tail) => RpcFree(head) && RItemsFree(tail)
  }

  predicate RMembersFree(members: RMembers) {
    match members
    case NoRMembers => true
    case RMember(key, val, rest) => Free(key, '<') && RpcFree(val) && RMembersFree(rest)
  }

  /** Reading `n` bytes' worth off the front of `toks` leaves `rest`; if nothing is longer than it
      need be, what was read is `free`. */
  predicate Reads(toks: seq<Tok>, n: nat, rest: seq<Tok>, free: bool) {
    && CharsFree(rest) && n + ToksLen(rest) <= ToksLen(toks)
    && (n + ToksLen(rest) == ToksLen(toks) ==> free)
  }

  lemma ReadsTok(toks: seq<Tok>)
    requires CharsFree(toks) && toks != []
    ensures CharsFree(toks[1..]) && ToksLen(toks) == TokLen(toks[0]) + ToksLen(toks[1..])
  {
    CharsFreeFrom(toks, 1);
  }

  lemma SkipReads<T>(toks: seq<Tok>, n: nat, free: bool, r: Option<(T, seq<Tok>)>, name: string)
    requires r.Some? ==> Reads(toks, n, r.value.1, free)
    ensures Skip(r, name).Some? ==> Reads(toks, n + |name| + 3, Skip(r, name).value.1, free)
  {
    if Skip(r, name).Some? { ReadsTok(r.value.1); }
  }

  lemma TextReads(toks: seq<Tok>, name: string)
    requires CharsFree(toks)
    ensures var r := DecodeText(toks, name);
      r.Some? ==> Reads(toks, |r.value.0| + |name| + 3, r.value.1, Free(r.value.0, '<'))
  {
    hide Unescape;
    if DecodeText(toks, name).Some? {
      ReadsTok(toks);
      if toks[0].Chars? && |toks| >= 2 {
        ReadsTok(toks[1..]);
        assert toks[1..][1..] == toks[2..];
        UnescapeLen(toks[0].text);
      }
    }
  }

  lemma ScalarReads(toks: seq<Tok>, name: string)
    requires CharsFree(toks)
    ensures var r := DecodeScalar(toks, name);
      r.Some? ==> 17 + |name| <= Len(r.value.0)
                  && Reads(toks, Len(r.value.0) - 17 - |name|, r.value.1, RpcFree(r.value.0))
  {
    hide DecodeText, Free;
    TextReads(toks, name);
  }

  /** The two opening tags in front of what was read. */
  lemma ReadsBehind(toks: seq<Tok>, k: nat, n: nat, rest: seq<Tok>, free: bool)
    requires |toks| >= 2 && CharsFree(toks) && k == TokLen(toks[0]) + TokLen(toks[1])
    requires Reads(toks[2..], n, rest, free)
    ensures Reads(toks, k + n, rest, free)
  {
    ReadsTok(toks);
    ReadsTok(toks[1..]);
    assert toks[1..][1..] == toks[2..];
  }

  lemma {:induction false} ValueReads(toks: seq<Tok>)
    requires CharsFree(toks)
    ensures var r := Decode(toks); r.Some? ==> Reads(toks, Len(r.value.0), r.value.1, RpcFree(r.value.0))
    decreases |toks|, 1
  {
    hide Reads, CharsFree, DecodeScalar, DecodeItems, DecodeMembers;
    var r := Decode(toks);
    if r.Some? {
      var inner := toks[2..];
      CharsFreeFrom(toks, 2);
      match toks[1]
      case Empty(name) =>
        StartReads(inner);
        SkipReads(inner, 0, true, Some((RNil, inner)), "value");
        ReadsBehind(toks, 13, 8, r.value.1, true);
      case Open(name) =>
        if name == "array" {
          ItemsRead(inner[1..]) by { CharsFreeFrom(inner, 1); }
          ArrayReads(toks);
        } else if name == "struct" {
          MembersRead(inner);
          StructReads(toks);
        } else {
          ScalarReads(inner, name);
          var r1 := DecodeScalar(inner, name);
          var n := Len(r.value.0) - 17 - |name|;
          SkipReads(inner, n, RpcFree(r.value.0), r1, "value");
          ReadsBehind(toks, 9 + |name|, n + 8, r.value.1, RpcFree(r.value.0));
        }
      case _ =>
    }
  }

  lemma StartReads(toks: seq<Tok>)
    requires CharsFree(toks)
    ensures Reads(toks, 0, toks, true)
  {
  }

  lemma ArrayReads(toks: seq<Tok>)
    requires CharsFree(toks) && Decode(toks).Some? && toks[1] == Open("array")
    requires var r := DecodeItems(toks[2..][1..]);
      r.Some? ==> Reads(toks[2..][1..], ItemsLen(r.value.0) + 7, r.value.1, RItemsFree(r.value.0))
    ensures var r := Decode(toks); Reads(toks, Len(r.value.0), r.value.1, RpcFree(r.value.0))
  {
    hide Reads, CharsFree, DecodeScalar, DecodeItems;
    var inner := toks[2..];
    var data := inner[1..];
    CharsFreeFrom(toks, 2);
    ReadsTok(inner);
    var (items, rest) := DecodeItems(data).value;
    var n, free := ItemsLen(items) + 7, RItemsFree(items);
    OneBehind(inner, n, rest, free);
    SkipReads(inner, n + 6, free, Some((RArray(items), rest)), "array");
    var r1 := Skip(Some((RArray(items), rest)), "array");
    SkipReads(inner, n + 14, free, r1, "value");
    ReadsBehind(toks, 14, n + 22, Decode(toks).value.1, free);
  }

  lemma OneBehind(toks: seq<Tok>, n: nat, rest: seq<Tok>, free: bool)
    requires toks != [] && CharsFree(toks) && Reads(toks[1..], n, rest, free)
    ensures Reads(toks, n + TokLen(toks[0]), rest, free)
  {
    ReadsTok(toks);
  }

  lemma StructReads(toks: seq<Tok>)
    requires CharsFree(toks) && Decode(toks).Some? && toks[1] == Open("struct")
    requires var r := DecodeMembers(toks[2..]);
      r.Some? ==> Reads(toks[2..], MembersLen(r.value.0) + 9, r.value.1, RMembersFree(r.value.0))
    ensures var r := Decode(toks); Reads(toks, Len(r.value.0), r.value.1, RpcFree(r.value.0))
  {
    hide Reads, CharsFree, DecodeScalar, DecodeMembers;
    var inner := toks[2..];
    CharsFreeFrom(toks, 2);
    var (members, rest) := DecodeMembers(inner).value;
    var n, free := MembersLen(members) + 9, RMembersFree(members);
    SkipReads(inner, n, free, Some((RStruct(members), rest)), "value");
    ReadsBehind(toks, 15, n + 8, Decode(toks).value.1, free);
  }

  lemma {:induction false} ItemsRead(toks: seq<Tok>)
    requires CharsFree(toks)
    ensures var r := DecodeItems(toks);
      r.Some? ==> Reads(toks, ItemsLen(r.value.0) + 7, r.value.1, RItemsFree(r.value.0))
    decreases |toks|, 2
  {
    hide CharsFree, Decode, RpcFree, Len;
    if toks != [] && toks[0] == Close("data") {
      ReadsTok(toks);
    } else if Decode(toks).Some? {
      ValueReads(toks);
      ItemsRead(Decode(toks).value.1);
    }
  }

  lemma KeyReads(toks: seq<Tok>)
    requires CharsFree(toks)
    ensures var r := DecodeKey(toks);
      r.Some? ==> Reads(toks, |r.value.0| + 21, r.value.1, Free(r.value.0, '<'))
  {
    hide CharsFree, DecodeText, Reads, Free;
    if DecodeKey(toks).Some? {
      CharsFreeFrom(toks, 2);
      TextReads(toks[2..], "name");
      var (key, rest) := DecodeKey(toks).value;
      ReadsBehind(toks, 14, |key| + 7, rest, Free(key, '<'));
    }
  }

  lemma {:induction false} MembersRead(toks: seq<Tok>)
    requires CharsFree(toks)
    ensures var r := DecodeMembers(toks);
      r.Some? ==> Reads(toks, MembersLen(r.value.0) + 9, r.value.1, RMembersFree(r.value.0))
    decreases |toks|, 2
  {
    hide CharsFree, Decode, DecodeKey, Skip, RpcFree, Len, Free;
    if toks != [] && toks[0] == Close("struct") {
      ReadsTok(toks);
    } else if DecodeKey(toks).Some? {
      KeyReads(toks);
      var (key, rest) := DecodeKey(toks).value;
      ValueReads(rest);
      var r := Decode(rest);
      SkipReads(rest, if r.Some? then Len(r.value.0) else 0, r.Some? && RpcFree(r.value.0), r, "member");
      SkipSame(r, "member");
      if Skip(r, "member").Some? { MembersRead(Skip(r, "member").value.1); }
    }
  }

  lemma SkipSame(r: Option<(Rpc, seq<Tok>)>, name: string)
    ensures Skip(r, name).Some? ==> r.Some? && Skip(r, name).value.0 == r.value.0 && |Skip(r, name).value.1| < |r.value.1|
  {
  }

  lemma {:induction false} FreeRpc(j: Json, g: DoubleText)
    ensures RpcFree(RpcOf(j, g)) <==> TreeFree(j, g, '<')
  {
    match j
    case JArr(items) => FreeRpcItems(items, g);
    case JObj(members) => FreeRpcMembers(members, g);
    case _ =>
  }

  lemma {:induction false} FreeRpcItems(items: Items, g: DoubleText)
    ensures RItemsFree(RpcItems(items, g)) <==> ItemsFree(items, g, '<')
  {
    if items.Item? {
      FreeRpc(items.head, g);
      FreeRpcItems(items.tail, g);
    }
  }

  lemma {:induction false} FreeRpcMembers(members: Members, g: DoubleText)
    ensures RMembersFree(RpcMembers(members, g)) <==> MembersFree(members, g, '<')
  {
    if members.Member? {
      FreeRpc(members.val, g);
      FreeRpcMembers(members.rest, g);
    }
  }

  /** Decoding the XML of a tree gives the tree's value back if and only if none of its texts holds a
      `<` and resolving entities changes none of them. */
  lemma DecodeRoundTrip(j: Json, g: DoubleText)
    ensures Decode(Lex(XmlOf(j, g))) == Some((RpcOf(j, g), []))
      <==> TreeFree(j, g, '<') && Resolved(RpcOf(j, g)) == RpcOf(j, g)
    ensures TreeFree(j, g, '<') ==> Decode(Lex(XmlOf(j, g))) == Some((Resolved(RpcOf(j, g)), []))
  {
    hide Decode, Lex, XmlOf, Toks, TreeFree, RpcFree, Resolved, RpcOf;
    if TreeFree(j, g, '<') {
      LexAll(j, g);
      DecodeToks(j, g, []);
      assert Toks(j, g) + [] == Toks(j, g);
    }
    XmlLen(j, g);
    LexLen(XmlOf(j, g));
    ValueReads(Lex(XmlOf(j, g)));
    FreeRpc(j, g);
  }
}
