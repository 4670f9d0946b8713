/** `sj_Reader` as the C code has it: every call updates the reader in place. */
module Readers {
  import opened Text
  import opened Cursor

  /** `sj_Reader` over the bytes of `text`; `cur` is an offset into it. */
  class Reader {
    const text: string
    var cur: nat
    var depth: int
    var fault: Fault

    ghost predicate Valid() reads this { cur <= |text| }

    ghost function St(): State reads this { State(cur, depth, fault) }

    /** `sj_reader(buf + start, len)` when the reader runs to the end of the buffer. */
    constructor (buf: string, start: nat)
      requires start <= |buf|
      ensures Valid() && text == buf && St() == State(start, 0, NoFault)
    {
      text, cur, depth, fault := buf, start, 0, NoFault;
    }

    /** A struct copy of another reader. */
    constructor Copy(r: Reader)
      requires r.Valid()
      ensures Valid() && text == r.text && St() == r.St()
    {
      text, cur, depth, fault := r.text, r.cur, r.depth, r.fault;
    }

    /** `sj__is_string`. */
    method IsString(wanted: string) returns (yes: bool)
      requires Valid()
      ensures yes == Has(text, cur, wanted)
    {
      var i := 0;
      while i < |wanted|
        invariant i <= |wanted| && cur + i <= |text|
        invariant text[cur..cur + i] == wanted[..i]
      {
        if cur + i == |text| || text[cur + i] != wanted[i] {
          if Has(text, cur, wanted) { HasAt(text, cur, wanted, i); }
          return false;
        }
        i := i + 1;
      }
      return true;
    }

    /** The number loop of `sj_read`. */
    method SkipNumber()
      requires Valid()
      modifies this`cur
      ensures Valid() && cur == NumEnd(text, old(cur))
    {
      while cur != |text| && IsNumCont(text[cur])
        invariant cur <= |text| && NumEnd(text, cur) == NumEnd(text, old(cur))
      {
        cur := cur + 1;
      }
    }

    /** The string loop of `sj_read`: stops at the closing quote or at the end of the buffer. */
    method SkipString()
      requires Valid()
      modifies this`cur
      ensures Valid() && cur == StrEnd(text, old(cur))
    {
      while cur != |text| && text[cur] != '"'
        invariant cur <= |text| && StrEnd(text, cur) == StrEnd(text, old(cur))
      {
        if text[cur] == '\\' { cur := cur + 1; }
        if cur != |text| { cur := cur + 1; }
      }
    }

    /** `r->error = f; goto top;` ends the call with an error value at the cursor. */
    method Fail(f: Fault) returns (res: Value)
      modifies this`fault
      ensures fault == f && res == ErrorAt(cur)
    {
      fault := f;
      res := ErrorAt(cur);
    }

    /** The `switch` of `sj_read`, at a byte that is not a separator. */
    method ReadToken() returns (res: Value)
      requires Valid() && cur < |text|
      modifies this
      ensures Valid() && (St(), res) == Cursor.ReadToken(text, old(St()))
    {
      var start := cur;
      var c := text[cur];
      if c == '-' || IsDigit(c) {
        SkipNumber();
        res := Value(SjNumber, start, cur, 0);
      } else if c == '"' {
        cur := cur + 1;
        SkipString();
        if cur == |text| {
          res := Fail(UnclosedString);
        } else {
          res := Value(SjString, start + 1, cur, 0);
          cur := cur + 1;
        }
      } else if c == '{' || c == '[' {
        depth := depth + 1;
        cur := cur + 1;
        res := Value(if c == '{' then SjObject else SjArray, start, cur, depth);
      } else if c == '}' || c == ']' {
        depth := depth - 1;
        if depth < 0 {
          res := Fail(if c == '}' then StrayBrace else StrayBracket);
        } else {
          cur := cur + 1;
          res := Value(SjEnd, start, cur, 0);
        }
      } else if c == 'n' || c == 't' || c == 'f' {
        var four := IsString("null");
        if !four { four := IsString("true"); }
        var five := IsString("false");
        if four {
          cur := cur + 4;
        } else if five {
          cur := cur + 5;
        } else {
          res := Fail(UnknownToken);
          return;
        }
        res := Value(if c == 'n' then SjNull else SjBool, start, cur, 0);
      } else {
        res := Fail(UnknownToken);
      }
    }

    /** `sj_read`. */
    method Read() returns (res: Value)
      requires Valid()
      modifies this
      ensures Valid()
      ensures (St(), res) == Cursor.Read(text, old(St()))
    {
      if fault != NoFault { return ErrorAt(cur); }
      while cur != |text| && IsSep(text[cur])
        invariant Valid() && SkipSeps(text, cur) == SkipSeps(text, old(cur))
        invariant depth == old(depth) && fault == NoFault
      {
        cur := cur + 1;
      }
      if cur == |text| {
        res := Fail(UnexpectedEof);
      } else {
        res := ReadToken();
      }
    }

    /** `sj__discard_until`. */
    method DiscardUntil(target: int)
      requires Valid()
      modifies this
      ensures Valid() && St() == Discard(text, old(St()), target)
    {
      var failed := false;
      while depth != target && !failed
        invariant Valid()
        invariant failed ==> fault != NoFault
        invariant failed ==> St() == Discard(text, old(St()), target)
        invariant Discard(text, St(), target) == Discard(text, old(St()), target)
        decreases |text| - cur, !failed
      {
        var val := Read();
        failed := val.kind == SjError;
      }
    }

    /** `sj_iter_array`. */
    method IterArray(arr: Value) returns (ok: bool, val: Value)
      requires Valid()
      modifies this
      ensures Valid()
      ensures var step := Cursor.IterArray(text, old(St()), arr);
        St() == step.st && ok == step.ok && val == step.val
    {
      DiscardUntil(arr.depth);
      val := Read();
      ok := val.kind != SjError && val.kind != SjEnd;
    }

    /** `sj_iter_object`. */
    method IterObject(obj: Value) returns (ok: bool, key: Value, val: Value)
      requires Valid()
      modifies this
      ensures Valid()
      ensures Step(St(), ok, key, val) == Cursor.IterObject(text, old(St()), obj)
    {
      DiscardUntil(obj.depth);
      key := Read();
      val := key;
      if key.kind == SjError || key.kind == SjEnd { return false, key, val; }
      val := Read();
      if val.kind == SjEnd {
        fault := UnexpectedObjectEnd;
        return false, key, val;
      }
      ok := val.kind != SjError;
    }
  }
}
