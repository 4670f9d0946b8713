/** JSON trees, their texts, and the tree the cursor sees in a text. */
module Json {
  import opened Text
  import opened Cursor

  // ----- trees -----

  /** A JSON value. Strings and keys are kept as written between the quotes, numbers as written. */
  datatype Json = JNull | JBool(b: bool) | JNum(lexeme: string) | JStr(raw: string)
                | JArr(items: Items) | JObj(members: Members)
  datatype Items = NoItems | Item(head: Json, tail: Items)
  datatype Members = NoMembers | Member(key: string, val: Json, rest: Members)

  // ----- texts -----

  /** A JSON text: a tree together with the separators between its tokens. */
  datatype Doc = DNull | DBool(b: bool) | DNum(lexeme: string) | DStr(raw: string)
               | DArr(pad: string, elems: Elems) | DObj(pad: string, fields: Fields)
  datatype Elems = NoElems | Elem(head: Doc, gap: string, tail: Elems)
  datatype Fields = NoFields | Field(key: string, colon: string, val: Doc, gap: string, rest: Fields)

  function Print(c: Doc): string {
    match c
    case DNull => "null"
    case DBool(b) => if b then "true" else "false"
    case DNum(lexeme) => lexeme
    case DStr(raw) => "\"" + raw + "\""
    case DArr(pad, elems) => "[" + pad + PrintElems(elems) + "]"
    case DObj(pad, fields) => "{" + pad + PrintFields(fields) + "}"
  }

  function PrintElems(e: Elems): string {
    match e
    case NoElems => ""
    case Elem(head, gap, tail) => Print(head) + gap + PrintElems(tail)
  }

  function PrintFields(f: Fields): string {
    match f
    case NoFields => ""
    case Field(key, colon, val, gap, rest) => "\"" + key + "\"" + colon + Print(val) + gap + PrintFields(rest)
  }

  function Erase(c: Doc): Json {
    match c
    case DNull => JNull
    case DBool(b) => JBool(b)
    case DNum(lexeme) => JNum(lexeme)
    case DStr(raw) => JStr(raw)
    case DArr(_, elems) => JArr(EraseElems(elems))
    case DObj(_, fields) => JObj(EraseFields(fields))
  }

  function EraseElems(e: Elems): Items {
    match e
    case NoElems => NoItems
    case Elem(head, _, tail) => Item(Erase(head), EraseElems(tail))
  }

  function EraseFields(f: Fields): Members {
    match f
    case NoFields => NoMembers
    case Field(key, _, val, _, rest) => Member(key, Erase(val), EraseFields(rest))
  }

  /** White space, and the commas and colons that the texts below treat like it. */
  predicate GapByte(c: char) { c == ' ' || c == '\n' || c == '\r' || c == '\t' || c == ':' || c == ',' }

  predicate IsGap(g: string) { forall i :: 0 <= i < |g| ==> GapByte(g[i]) }

  predicate NumberByte(c: char) {
    '0' <= c <= '9' || c == '-' || c == '+' || c == '.' || c == 'e' || c == 'E'
  }

  predicate IsNumber(w: string) {
    w != "" && (w[0] == '-' || '0' <= w[0] <= '9') && forall i :: 0 <= i < |w| ==> NumberByte(w[i])
  }

  /** A string body: no bare quote and no dangling backslash. */
  predicate IsRaw(w: string) {
    w == "" ||
    (if w[0] == '\\' then |w| >= 2 && IsRaw(w[2..]) else w[0] != '"' && IsRaw(w[1..]))
  }

  /** The texts the theorems range over. Commas and colons count as white space for the cursor,
      so every RFC 8259 text, with white space anywhere, is of this form. */
  predicate WellFormed(c: Doc) {
    match c
    case DNull | DBool(_) => true
    case DNum(lexeme) => IsNumber(lexeme)
    case DStr(raw) => IsRaw(raw)
    case DArr(pad, elems) => IsGap(pad) && WellFormedElems(elems)
    case DObj(pad, fields) => IsGap(pad) && WellFormedFields(fields)
  }

  predicate WellFormedElems(e: Elems) {
    match e
    case NoElems => true
    case Elem(head, gap, tail) =>
      WellFormed(head) && IsGap(gap) && (head.DNum? && tail.Elem? ==> gap != "") && WellFormedElems(tail)
  }

  predicate WellFormedFields(f: Fields) {
    match f
    case NoFields => true
    case Field(key, colon, val, gap, rest) =>
      IsRaw(key) && IsGap(colon) && WellFormed(val) && IsGap(gap) && (val.DNum? && rest.Field? ==> gap != "")
      && WellFormedFields(rest)
  }

  // ----- the tree the cursor sees -----

  /** The tree a client sees that walks the whole of the value `v` just read: what the nested
      iterator loops reach, in order, and the reader they leave. */
  function TreeAt(t: string, s: State, v: Value): (r: (State, Json))
    requires s.cur <= |t| && v.start <= v.end <= |t|
    ensures s.cur <= r.0.cur <= |t|
    decreases |t| - s.cur, 1
  {
    match v.kind
    case SjNull => (s, JNull)
    case SjBool => (s, JBool(v.end - v.start == 4))
    case SjNumber => (s, JNum(Slice(t, v)))
    case SjString => (s, JStr(Slice(t, v)))
    case SjArray => var (s1, items) := ItemsAt(t, s, v); (s1, JArr(items))
    case SjObject => var (s1, members) := MembersAt(t, s, v); (s1, JObj(members))
    case SjEnd | SjError => (s, JObj(NoMembers))
  }

  function ItemsAt(t: string, s: State, arr: Value): (r: (State, Items))
    requires s.cur <= |t|
    ensures s.cur <= r.0.cur <= |t|
    decreases |t| - s.cur, 0
  {
    var step := IterArray(t, s, arr);
    if !step.ok then (step.st, NoItems)
    else
      var (s1, head) := TreeAt(t, step.st, step.val);
      var (s2, tail) := ItemsAt(t, s1, arr);
      (s2, Item(head, tail))
  }

  function MembersAt(t: string, s: State, obj: Value): (r: (State, Members))
    requires s.cur <= |t|
    ensures s.cur <= r.0.cur <= |t|
    decreases |t| - s.cur, 0
  {
    var step := IterObject(t, s, obj);
    if !step.ok then (step.st, NoMembers)
    else
      var (s1, val) := TreeAt(t, step.st, step.val);
      var (s2, rest) := MembersAt(t, s1, obj);
      (s2, Member(Slice(t, step.key), val, rest))
  }

  /** The first value of a text. */
  function TreeOf(t: string): Json {
    var (s, v) := Read(t, State(0, 0, NoFault));
    TreeAt(t, s, v).1
  }

  // ----- where a text sits in a buffer -----

  /** `c` is written in `t` at `p`; a number must also end there. */
  predicate DocAt(t: string, p: nat, c: Doc) {
    Has(t, p, Print(c)) && (c.DNum? ==> p + |Print(c)| == |t| || !NumberByte(t[p + |Print(c)|]))
  }

  /** The reader has no fault and only separators before `p`. */
  predicate Ready(t: string, s: State, p: nat) {
    s.fault == NoFault && s.cur <= p <= |t| && forall i :: s.cur <= i < p ==> GapByte(t[i])
  }

  /** The value that reading `c` at `p` returns. */
  function Token(p: nat, c: Doc, depth: int): Value {
    match c
    case DNull => Value(SjNull, p, p + 4, 0)
    case DBool(b) => Value(SjBool, p, p + (if b then 4 else 5), 0)
    case DNum(lexeme) => Value(SjNumber, p, p + |lexeme|, 0)
    case DStr(raw) => Value(SjString, p + 1, p + 1 + |raw|, 0)
    case DArr(_, _) => Value(SjArray, p, p + 1, depth + 1)
    case DObj(_, _) => Value(SjObject, p, p + 1, depth + 1)
  }

  /** The reader right after the token of `c`, and after all of `c`. */
  function Opened(p: nat, c: Doc, depth: int): State {
    if c.DArr? || c.DObj? then State(p + 1, depth + 1, NoFault) else Closed(p, c, depth)
  }

  function Closed(p: nat, c: Doc, depth: int): State {
    State(p + |Print(c)|, depth, NoFault)
  }

  /** The entries of an object whose first field is written at `q`. */
  function FieldEntries(q: nat, f: Fields, depth: int): seq<(Value, Value)>
    decreases f
  {
    match f
    case NoFields => []
    case Field(key, colon, val, gap, rest) =>
      var p := q + 2 + |key| + |colon|;
      [(Token(q, DStr(key), depth), Token(p, val, depth))]
      + FieldEntries(p + |Print(val)| + |gap|, rest, depth)
  }
}
