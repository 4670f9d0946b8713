/** Putting JSON texts together from pieces, and the tree the whole text then holds. */
module JsonParts {
  import opened Text
  import opened Json
  import opened Dispatch

  lemma PlainRaw(w: string)
    requires '"' !in w && '\\' !in w
    ensures IsRaw(w)
    decreases |w|
  {
    if w != "" { PlainRaw(w[1..]); }
  }

  lemma WordText(w: string)
    requires '"' !in w && '\\' !in w
    ensures WellFormed(DStr(w)) && Print(DStr(w)) == Lit(w) && Erase(DStr(w)) == JStr(w)
  {
    PlainRaw(w);
  }

  lemma IntegerText(n: int)
    ensures WellFormed(DNum(Dec(n))) && Print(DNum(Dec(n))) == Dec(n) && Erase(DNum(Dec(n))) == JNum(Dec(n))
  {
  }

  // ----- arrays -----

  /** One more element in front of others. */
  lemma ElemText(c: Doc, gap: string, tail: Elems)
    requires WellFormed(c) && IsGap(gap) && (tail.Elem? ==> gap != "") && WellFormedElems(tail)
    ensures var e := Elem(c, gap, tail);
      && WellFormedElems(e) && PrintElems(e) == Print(c) + gap + PrintElems(tail)
      && EraseElems(e) == Item(Erase(c), EraseElems(tail))
  {
  }

  lemma ArrayText(e: Elems)
    requires WellFormedElems(e)
    ensures var d := DArr("", e);
      WellFormed(d) && Print(d) == "[" + PrintElems(e) + "]" && Erase(d) == JArr(EraseElems(e))
  {
    assert "[" + "" == "[";
  }

  function OneElem(c: Doc): Doc { DArr("", Elem(c, "", NoElems)) }

  lemma OneElemText(c: Doc)
    requires WellFormed(c)
    ensures var d := OneElem(c);
      WellFormed(d) && Print(d) == "[" + Print(c) + "]" && Erase(d) == JArr(Item(Erase(c), NoItems))
  {
    hide Print, WellFormed, Erase;
    ElemText(c, "", NoElems);
    ArrayText(Elem(c, "", NoElems));
    assert Print(c) + "" + "" == Print(c);
  }

  function TwoElems(a: Doc, b: Doc): Doc { DArr("", Elem(a, ",", Elem(b, "", NoElems))) }

  lemma TwoElemsText(a: Doc, b: Doc)
    requires WellFormed(a) && WellFormed(b)
    ensures var d := TwoElems(a, b);
      && WellFormed(d) && Print(d) == "[" + Print(a) + "," + Print(b) + "]"
      && Erase(d) == JArr(Item(Erase(a), Item(Erase(b), NoItems)))
  {
    hide Print, WellFormed, Erase;
    var e := Elem(b, "", NoElems);
    ElemText(b, "", NoElems);
    ElemText(a, ",", e);
    ArrayText(Elem(a, ",", e));
    assert Print(b) + "" + "" == Print(b);
    assert "[" + (Print(a) + "," + Print(b)) + "]" == "[" + Print(a) + "," + Print(b) + "]";
  }

  // ----- objects -----

  /** One more field in front of others. */
  lemma FieldText(key: string, c: Doc, gap: string, rest: Fields)
    requires '"' !in key && '\\' !in key && WellFormed(c)
    requires IsGap(gap) && (rest.Field? ==> gap != "") && WellFormedFields(rest)
    ensures var f := Field(key, ":", c, gap, rest);
      && WellFormedFields(f) && PrintFields(f) == Key(key) + Print(c) + gap + PrintFields(rest)
      && EraseFields(f) == Member(key, Erase(c), EraseFields(rest))
  {
    PlainRaw(key);
  }

  lemma ObjectText(f: Fields)
    requires WellFormedFields(f)
    ensures var d := DObj("", f);
      WellFormed(d) && Print(d) == "{" + PrintFields(f) + "}" && Erase(d) == JObj(EraseFields(f))
  {
    assert "{" + "" == "{";
  }

  function One(key: string, c: Doc): Doc { DObj("", Field(key, ":", c, "", NoFields)) }

  lemma OneText(key: string, c: Doc)
    requires '"' !in key && '\\' !in key && WellFormed(c)
    ensures var d := One(key, c);
      && WellFormed(d) && Print(d) == "{" + Key(key) + Print(c) + "}"
      && Erase(d) == JObj(Member(key, Erase(c), NoMembers))
  {
    hide Print, WellFormed, Erase, Key;
    FieldText(key, c, "", NoFields);
    ObjectText(Field(key, ":", c, "", NoFields));
    assert "{" + (Key(key) + Print(c) + "" + "") + "}" == "{" + Key(key) + Print(c) + "}";
  }

  function Two(k1: string, c1: Doc, k2: string, c2: Doc): Doc {
    DObj("", Field(k1, ":", c1, ",", Field(k2, ":", c2, "", NoFields)))
  }

  lemma TwoText(k1: string, c1: Doc, k2: string, c2: Doc)
    requires '"' !in k1 && '\\' !in k1 && WellFormed(c1) && '"' !in k2 && '\\' !in k2 && WellFormed(c2)
    ensures var d := Two(k1, c1, k2, c2);
      && WellFormed(d) && Print(d) == "{" + Key(k1) + Print(c1) + "," + Key(k2) + Print(c2) + "}"
      && Erase(d) == JObj(Member(k1, Erase(c1), Member(k2, Erase(c2), NoMembers)))
  {
    hide Print, WellFormed, Erase, Key;
    var f := Field(k2, ":", c2, "", NoFields);
    FieldText(k2, c2, "", NoFields);
    FieldText(k1, c1, ",", f);
    ObjectText(Field(k1, ":", c1, ",", f));
    TwoConcat(Key(k1), Print(c1), Key(k2), Print(c2));
  }

  lemma TwoConcat(k1: string, v1: string, k2: string, v2: string)
    ensures "{" + (k1 + v1 + "," + (k2 + v2 + "" + "")) + "}" == "{" + k1 + v1 + "," + k2 + v2 + "}"
  {
    assert k1 + v1 + "," + (k2 + v2 + "" + "") == k1 + v1 + "," + k2 + v2;
  }

  /** The fields of a three-field object. */
  function Three(k1: string, c1: Doc, k2: string, c2: Doc, k3: string, c3: Doc): Fields {
    Field(k1, ":", c1, ",", Field(k2, ":", c2, ",", Field(k3, ":", c3, "", NoFields)))
  }

  lemma ThreeText(k1: string, c1: Doc, k2: string, c2: Doc, k3: string, c3: Doc)
    requires '"' !in k1 && '\\' !in k1 && WellFormed(c1) && '"' !in k2 && '\\' !in k2 && WellFormed(c2)
    requires '"' !in k3 && '\\' !in k3 && WellFormed(c3)
    ensures var d := DObj("", Three(k1, c1, k2, c2, k3, c3));
      && WellFormed(d)
      && Print(d) == "{" + Key(k1) + Print(c1) + "," + Key(k2) + Print(c2) + "," + Key(k3) + Print(c3) + "}"
      && Erase(d) == JObj(Member(k1, Erase(c1), Member(k2, Erase(c2), Member(k3, Erase(c3), NoMembers))))
  {
    hide Print, WellFormed, Erase, Key;
    var f3 := Field(k3, ":", c3, "", NoFields);
    var f2 := Field(k2, ":", c2, ",", f3);
    FieldText(k3, c3, "", NoFields);
    FieldText(k2, c2, ",", f3);
    FieldText(k1, c1, ",", f2);
    ObjectText(Field(k1, ":", c1, ",", f2));
    ThreeConcat(Key(k1), Print(c1), Key(k2), Print(c2), Key(k3), Print(c3));
  }

  lemma ThreeConcat(k1: string, v1: string, k2: string, v2: string, k3: string, v3: string)
    ensures "{" + (k1 + v1 + "," + (k2 + v2 + "," + (k3 + v3 + "" + ""))) + "}"
      == "{" + k1 + v1 + "," + k2 + v2 + "," + k3 + v3 + "}"
  {
    assert k2 + v2 + "," + (k3 + v3 + "" + "") == k2 + v2 + "," + k3 + v3;
    assert k1 + v1 + "," + (k2 + v2 + "," + k3 + v3) == k1 + v1 + "," + k2 + v2 + "," + k3 + v3;
  }
}
