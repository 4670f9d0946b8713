/** The two string escapers of json.h, against RFC 8259 section 7 and against the cursor. */
module Escape {
  import opened Options
  import opened Text
  import opened Cursor
  import opened Json
  import opened JsonLaws

  function HexDigit(d: nat): char
    requires d < 16
  {
    if d < 10 then ('0' as int + d) as char else ('a' as int + d - 10) as char
  }

  /** What `jbuf_str` writes for one byte. */
  function EscapeByte(c: char): string {
    if c == '"' then "\\\""
    else if c == '\\' then "\\\\"
    else if c == '\n' then "\\n"
    else if c == '\r' then "\\r"
    else if c == '\t' then "\\t"
    else if c as int < 0x20 then ['\\', 'u', '0', '0', HexDigit(c as int / 16), HexDigit(c as int % 16)]
    else [c]
  }

  /** What `jbuf_str` writes between the quotes. */
  function EscapeAll(s: string): string {
    if s == "" then "" else EscapeByte(s[0]) + EscapeAll(s[1..])
  }

  function Quoted(s: string): string { "\"" + EscapeAll(s) + "\"" }

  /** What `jbuf_sj_str` writes for one byte: only quotes and backslashes are escaped. */
  function RequoteByte(c: char): string {
    if c == '"' || c == '\\' then ['\\', c] else [c]
  }

  /** What `jbuf_sj_str` writes between the quotes. */
  function Requote(raw: string): string {
    if raw == "" then "" else RequoteByte(raw[0]) + Requote(raw[1..])
  }

  // ----- what the escape loops still have to write, one byte less each time -----

  lemma EscapeStep(held: string, s: string, p: nat)
    requires p < |s|
    ensures held + EscapeByte(s[p]) + EscapeAll(s[p + 1..]) == held + EscapeAll(s[p..])
  {
    hide EscapeByte;
    assert s[p..][0] == s[p] && s[p..][1..] == s[p + 1..];
  }

  lemma EscapeEnd(held: string)
    ensures held + EscapeAll("") == held
  {
  }

  lemma RequoteStep(held: string, raw: string, p: nat)
    requires p < |raw|
    ensures held + RequoteByte(raw[p]) + Requote(raw[p + 1..]) == held + Requote(raw[p..])
  {
    hide RequoteByte;
    assert raw[p..][0] == raw[p] && raw[p..][1..] == raw[p + 1..];
  }

  lemma RequoteEnd(held: string)
    ensures held + Requote("") == held
  {
  }

  // ----- reading an escaped string, by RFC 8259 -----

  function HexValue(c: char): Option<nat> {
    if '0' <= c <= '9' then Some(c as int - '0' as int)
    else if 'a' <= c <= 'f' then Some(c as int - 'a' as int + 10)
    else if 'A' <= c <= 'F' then Some(c as int - 'A' as int + 10)
    else None
  }

  /** The string a body stands for; None for a bad escape, a raw control byte, a bare quote, or a
      code point beyond ASCII, which would be more than one byte. */
  function Unescape(w: string): Option<string>
    decreases |w|
  {
    if w == "" then Some("")
    else if w[0] as int < 0x20 || w[0] == '"' then None
    else if w[0] != '\\' then Prepend(w[0], Unescape(w[1..]))
    else if |w| < 2 then None
    else if w[1] == '"' || w[1] == '\\' || w[1] == '/' then Prepend(w[1], Unescape(w[2..]))
    else if w[1] == 'b' then Prepend(8 as char, Unescape(w[2..]))
    else if w[1] == 'f' then Prepend(12 as char, Unescape(w[2..]))
    else if w[1] == 'n' then Prepend('\n', Unescape(w[2..]))
    else if w[1] == 'r' then Prepend('\r', Unescape(w[2..]))
    else if w[1] == 't' then Prepend('\t', Unescape(w[2..]))
    else if w[1] == 'u' && |w| >= 6 then
      match (HexValue(w[2]), HexValue(w[3]), HexValue(w[4]), HexValue(w[5]))
      case (Some(a), Some(b), Some(c), Some(d)) =>
        var n := ((a * 16 + b) * 16 + c) * 16 + d;
        if n < 0x80 then Prepend(n as char, Unescape(w[6..])) else None
      case _ => None
    else None
  }

  function Prepend(c: char, r: Option<string>): Option<string> {
    match r
    case Some(s) => Some([c] + s)
    case None => None
  }

  lemma UnescapeByte(c: char, rest: string)
    ensures Unescape(EscapeByte(c) + rest) == Prepend(c, Unescape(rest))
  {
    var w := EscapeByte(c) + rest;
    var n := |EscapeByte(c)|;
    assert w[n..] == rest;
    if n == 6 {
      var k := c as int;
      assert HexValue(w[4]) == Some(k / 16) && HexValue(w[5]) == Some(k % 16);
    }
  }

  lemma {:induction false} UnescapeAll(s: string)
    ensures Unescape(EscapeAll(s)) == Some(s)
  {
    if s != "" {
      UnescapeByte(s[0], EscapeAll(s[1..]));
      UnescapeAll(s[1..]);
      assert s == [s[0]] + s[1..];
    }
  }

  lemma {:induction false} EscapeAllRaw(s: string)
    ensures IsRaw(EscapeAll(s))
    ensures forall i :: 0 <= i < |EscapeAll(s)| ==> EscapeAll(s)[i] as int >= 0x20
  {
    if s != "" {
      EscapeAllRaw(s[1..]);
      EscapeByteRaw(s[0], EscapeAll(s[1..]));
    }
  }

  lemma EscapeByteRaw(c: char, rest: string)
    requires IsRaw(rest)
    ensures IsRaw(EscapeByte(c) + rest)
    ensures forall i :: 0 <= i < |EscapeByte(c)| ==> EscapeByte(c)[i] as int >= 0x20
  {
    var w := EscapeByte(c) + rest;
    if |EscapeByte(c)| == 6 {
      var e := EscapeByte(c);
      RawCons(e[5], rest);
      RawCons(e[4], [e[5]] + rest);
      RawCons(e[3], [e[4]] + ([e[5]] + rest));
      RawCons(e[2], [e[3]] + ([e[4]] + ([e[5]] + rest)));
      assert w[2..] == [e[2]] + ([e[3]] + ([e[4]] + ([e[5]] + rest)));
    } else {
      assert w[|EscapeByte(c)|..] == rest;
    }
  }

  lemma RawCons(c: char, w: string)
    requires c != '"' && c != '\\' && IsRaw(w)
    ensures IsRaw([c] + w)
  {
    assert ([c] + w)[1..] == w;
  }

  /** Escape round trip: wherever the output of `jbuf_str` is written and whatever follows it, the
      cursor reads it as one string token that ends at its closing quote; the token stands for the
      original bytes, and it contains no raw control byte. */
  lemma EscapeRoundTrip(before: string, s: string, after: string, depth: int)
    ensures var t := before + Quoted(s) + after;
      var p := |before|;
      var e := p + 1 + |EscapeAll(s)|;
      Read(t, State(p, depth, NoFault)) == (State(e + 1, depth, NoFault), Value(SjString, p + 1, e, 0))
      && t[p + 1..e] == EscapeAll(s)
    ensures Unescape(EscapeAll(s)) == Some(s)
    ensures forall i :: 0 <= i < |EscapeAll(s)| ==> EscapeAll(s)[i] as int >= 0x20
  {
    hide Read, EscapeAll, Unescape, IsRaw;
    UnescapeAll(s);
    EscapeAllRaw(s);
    HasSelf(before, Quoted(s), after);
    var t := before + Quoted(s) + after;
    ReadDoc(t, State(|before|, depth, NoFault), |before|, DStr(EscapeAll(s)));
    SliceStr(t, |before|, EscapeAll(s));
  }

  // ----- slices put back between quotes -----

  lemma {:induction false} RequoteRaw(raw: string)
    ensures IsRaw(Requote(raw))
  {
    if raw != "" {
      RequoteRaw(raw[1..]);
      assert Requote(raw)[|RequoteByte(raw[0])|..] == Requote(raw[1..]);
    }
  }

  /** What is written between the quotes stands for exactly the bytes of the slice, unless one of them is
      a control byte, which is not allowed there. */
  lemma {:induction false} RequoteMeans(raw: string)
    ensures Unescape(Requote(raw)) ==
      if forall i :: 0 <= i < |raw| ==> raw[i] as int >= 0x20 then Some(raw) else None
    decreases |raw|
  {
    hide Unescape;
    if raw == "" {
      UnescapeNothing();
    } else {
      RequoteMeans(raw[1..]);
      UnescapeRequoted(raw[0], Requote(raw[1..]));
      assert raw == [raw[0]] + raw[1..];
    }
  }

  lemma UnescapeNothing()
    ensures Unescape("") == Some("")
  {
  }

  lemma UnescapeRequoted(c: char, rest: string)
    ensures Unescape(RequoteByte(c) + rest) == if c as int < 0x20 then None else Prepend(c, Unescape(rest))
  {
    var w := RequoteByte(c) + rest;
    assert w[|RequoteByte(c)|..] == rest;
  }

  lemma {:induction false} RequoteLength(raw: string)
    ensures |Requote(raw)| >= |raw|
    ensures Requote(raw) == raw <==> Plain(raw)
  {
    if raw != "" {
      RequoteLength(raw[1..]);
      assert raw == [raw[0]] + raw[1..];
      if raw[0] != '"' && raw[0] != '\\' { assert Requote(raw)[1..] == Requote(raw[1..]); }
    }
  }

  predicate Plain(raw: string) {
    forall i :: 0 <= i < |raw| ==> raw[i] != '"' && raw[i] != '\\'
  }

  lemma {:induction false} RawQuotes(raw: string)
    requires IsRaw(raw) && '\\' !in raw
    ensures Plain(raw)
  {
    if raw != "" { RawQuotes(raw[1..]); }
  }

  /** A slice the cursor returned comes back verbatim exactly when it holds no backslash. */
  lemma RequoteExact(raw: string)
    requires IsRaw(raw)
    ensures Requote(raw) == raw <==> '\\' !in raw
  {
    RequoteLength(raw);
    if '\\' !in raw { RawQuotes(raw); }
  }
}
