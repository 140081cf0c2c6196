/** References, object headers and numbers: what processDefault returns, in
    terms of the bytes of the document. */
module NumberLemmas {
  import opened Bytes
  import opened RawSpec
  import opened KeywordLemmas

  /** The four runs of the reference pattern at the start of t, ending at a,
      b, c and d: digits, white-space, digits, white-space, the last one as
      long as it can be (the others are, since the classes do not overlap). */
  predicate RefRuns(t: seq<bv8>, a: nat, b: nat, c: nat, d: nat) {
    0 < a < b < c < d <= |t| &&
    (forall i | 0 <= i < a :: In(Digit, t[i])) &&
    (forall i | a <= i < b :: In(Space, t[i])) &&
    (forall i | b <= i < c :: In(Digit, t[i])) &&
    (forall i | c <= i < d :: In(Space, t[i])) &&
    (d == |t| || !In(Space, t[d]))
  }

  /** t starts with the four runs of the reference pattern and the keyword. */
  ghost predicate RefShape(t: seq<bv8>, kw: seq<bv8>) {
    exists a: nat, b: nat, c: nat, d: nat :: RefRuns(t, a, b, c, d) && MatchesAt(t, d, kw)
  }

  /** The reference pattern on the runs ending at a, b, c and d: it matches
      exactly when the keyword follows, in either case, and then yields the
      values of the two digit runs, leading zeros ignored, and the length up
      to the end of the keyword. */
  lemma RefSpans(t: seq<bv8>, a: nat, b: nat, c: nat, d: nat, kw: seq<bv8>)
    requires RefRuns(t, a, b, c, d)
    ensures RefMatch(t, kw) ==
      if MatchesAt(t, d, kw) then Some((DigitsValue(t[..a]), DigitsValue(t[b..c]), d + |kw|)) else None
  {
    SpanFromExact(t, Digit, 0, a);
    SpanFromExact(t, Space, a, b);
    SpanFromExact(t, Digit, b, c);
    SpanFromExact(t, Space, c, d);
  }

  /** The pattern matches exactly when t starts with the four runs followed by
      the keyword, and then the numbers are the values of the two digit runs
      and the length reaches the end of the keyword. */
  lemma RefMatchShape(t: seq<bv8>, kw: seq<bv8>)
    ensures RefMatch(t, kw).Some? <==> RefShape(t, kw)
    ensures forall a: nat, b: nat, c: nat, d: nat | RefRuns(t, a, b, c, d) && MatchesAt(t, d, kw) ::
      RefMatch(t, kw) == Some((DigitsValue(t[..a]), DigitsValue(t[b..c]), d + |kw|))
  {
    var e1 := SpanFrom(t, Digit, 0);
    var e2 := SpanFrom(t, Space, e1);
    var e3 := SpanFrom(t, Digit, e2);
    var e4 := SpanFrom(t, Space, e3);
    SpanFromAll(t, Digit, 0);
    SpanFromAll(t, Space, e1);
    SpanFromAll(t, Digit, e2);
    SpanFromAll(t, Space, e3);
    if RefMatch(t, kw).Some? {
      assert RefRuns(t, e1, e2, e3, e4) && MatchesAt(t, e4, kw);
    }
    forall a: nat, b: nat, c: nat, d: nat | RefRuns(t, a, b, c, d) && MatchesAt(t, d, kw)
      ensures RefMatch(t, kw) == Some((DigitsValue(t[..a]), DigitsValue(t[b..c]), d + |kw|))
    {
      RefSpans(t, a, b, c, d, kw);
    }
  }

  /** The runs of the reference pattern, placed in data from s on, as seen
      through the 33-byte window processDefault reads. */
  lemma RefInWindow(data: seq<bv8>, s: nat, a: nat, b: nat, c: nat, d: nat, kw: seq<bv8>)
    requires 0 < a < b < c < d && d + |kw| <= 33 && s + d + |kw| <= |data|
    requires |kw| > 0 && Lower(data[s + d]) == kw[0] && !In(Space, kw[0])
    requires forall i | s <= i < s + a :: In(Digit, data[i])
    requires forall i | s + a <= i < s + b :: In(Space, data[i])
    requires forall i | s + b <= i < s + c :: In(Digit, data[i])
    requires forall i | s + c <= i < s + d :: In(Space, data[i])
    ensures var t := Window(data, s, 33);
      d + |kw| <= |t| && t[..a] == data[s..s + a] && t[b..c] == data[s + b..s + c] &&
      forall k :: RefMatch(t, k) ==
        if MatchesAt(t, d, k) then Some((DigitsValue(t[..a]), DigitsValue(t[b..c]), d + |k|)) else None
  {
    var t := Window(data, s, 33);
    forall i | 0 <= i < |t| ensures t[i] == data[s + i] {
      WindowAt(data, s, 33, i);
    }
    assert !In(Space, t[d]) by {
      assert Lower(t[d]) == kw[0];
    }
    assert t[..a] == data[s..s + a];
    assert t[b..c] == data[s + b..s + c];
    forall k: seq<bv8> ensures RefMatch(t, k) ==
      if MatchesAt(t, d, k) then Some((DigitsValue(t[..a]), DigitsValue(t[b..c]), d + |k|)) else None
    {
      assert RefRuns(t, a, b, c, d);
      RefSpans(t, a, b, c, d, k);
    }
  }

  /** The keyword in the window matches exactly when it matches in data. */
  lemma MatchInWindow(data: seq<bv8>, s: nat, d: nat, kw: seq<bv8>)
    requires d + |kw| <= 33 && s + d + |kw| <= |data|
    ensures MatchesAt(Window(data, s, 33), d, kw) <==> MatchesAt(data, s + d, kw)
  {
    var t := Window(data, s, 33);
    forall j | d <= j < d + |kw| ensures t[j] == data[s + j] {
      WindowAt(data, s, 33, j);
    }
  }

  /** processDefault on a reference or an object header. */
  lemma DefaultReference(data: seq<bv8>, s: nat, a: nat, b: nat, c: nat, d: nat, kw: seq<bv8>)
    requires kw == KwR || kw == KwObj
    requires 0 < a < b < c < d && d + |kw| <= 33 && s + d + |kw| <= |data|
    requires forall i | s <= i < s + a :: In(Digit, data[i])
    requires forall i | s + a <= i < s + b :: In(Space, data[i])
    requires forall i | s + b <= i < s + c :: In(Digit, data[i])
    requires forall i | s + c <= i < s + d :: In(Space, data[i])
    requires MatchesAt(data, s + d, kw)
    ensures Default(data, s) ==
      Raw(if kw == KwR then "objref" else "obj",
          Str(RefValue(DigitsValue(data[s..s + a]), DigitsValue(data[s + b..s + c]))), s + d + |kw|)
  {
    assert Lower(data[s + d]) == kw[0];
    RefInWindow(data, s, a, b, c, d, kw);
    MatchInWindow(data, s, d, kw);
    if kw == KwObj {
      assert !MatchesAt(Window(data, s, 33), d, KwR) by {
        assert KwR[0] != KwObj[0];
      }
    }
  }

  /** A byte that starts no keyword of processDefaultName. */
  lemma NoKeyword(data: seq<bv8>, s: nat)
    requires s < |data|
    requires data[s] != 0x65 && data[s] != 0x6E && data[s] != 0x74 && data[s] != 0x66 && data[s] != 0x73
    ensures DefaultName(data, s) == None
  {
    KeywordsInOrder(data, s);
    FirstBytes(data, s);
  }

  /** A reference `a b R` or an object header `a b obj`, the keyword in any
      case, within the 33-byte window at s, the runs ending at s + a, s + b,
      s + c and s + d: type objref or obj, value intval(a) `_` intval(b), next
      offset right after the keyword. */
  lemma Reference(data: seq<bv8>, s: nat, a: nat, b: nat, c: nat, d: nat, kw: seq<bv8>)
    requires kw == KwR || kw == KwObj
    requires 0 < a < b < c < d && d + |kw| <= 33 && s + d + |kw| <= |data|
    requires forall i | s <= i < s + a :: In(Digit, data[i])
    requires forall i | s + a <= i < s + b :: In(Space, data[i])
    requires forall i | s + b <= i < s + c :: In(Digit, data[i])
    requires forall i | s + c <= i < s + d :: In(Space, data[i])
    requires MatchesAt(data, s + d, kw)
    ensures RawObjectAt(data, s) ==
      Raw(if kw == KwR then "objref" else "obj",
          Str(RefValue(DigitsValue(data[s..s + a]), DigitsValue(data[s + b..s + c]))), s + d + |kw|)
  {
    assert In(Digit, data[s]);
    NoKeyword(data, s);
    DefaultDispatch(data, s);
    DefaultReference(data, s, a, b, c, d, kw);
  }

  /** A digit at s where the 33-byte window holds no reference and no object
      header is read by the numeric branch. */
  lemma NoShapeNumber(data: seq<bv8>, s: nat)
    requires s < |data| && In(Digit, data[s])
    requires !RefShape(Window(data, s, 33), KwR) && !RefShape(Window(data, s, 33), KwObj)
    ensures RawObjectAt(data, s) == Number(data, s)
  {
    NoKeyword(data, s);
    DefaultDispatch(data, s);
    RefMatchShape(Window(data, s, 33), KwR);
    RefMatchShape(Window(data, s, 33), KwObj);
  }

  /** A number whose leading digits are followed by a byte that is neither a
      digit nor white-space (a point, a sign, a delimiter), or by the end of
      data, cannot be a reference: the whole run of number bytes, shorter than
      the window, is the numeric value. */
  lemma PlainNumber(data: seq<bv8>, s: nat, m: nat, k: nat)
    requires 0 < m <= k < 33 && s + k <= |data|
    requires forall i | s <= i < s + m :: In(Digit, data[i])
    requires s + m == |data| || (!In(Digit, data[s + m]) && !In(Space, data[s + m]))
    requires AllIn(NumChar, data[s..s + k]) && (s + k == |data| || !In(NumChar, data[s + k]))
    ensures RawObjectAt(data, s) == Raw("numeric", Str(data[s..s + k]), s + k)
  {
    var t := Window(data, s, 33);
    forall i | 0 <= i < |t| ensures t[i] == data[s + i] {
      WindowAt(data, s, 33, i);
    }
    SpanFromExact(t, Digit, 0, m);
    SpanFromExact(t, Space, m, m);
    RefMatchShape(t, KwR);
    RefMatchShape(t, KwObj);
    NoShapeNumber(data, s);
    NumberRun(data, s, k);
  }

  /** `123.45 ` is the number `123.45`, six bytes long. */
  lemma NumericExample(data: seq<bv8>)
    requires data == [0x31, 0x32, 0x33, 0x2E, 0x34, 0x35, 0x20]
    ensures RawObjectAt(data, 0) == Raw("numeric", Str([0x31, 0x32, 0x33, 0x2E, 0x34, 0x35]), 6)
  {
    assert AllIn(NumChar, data[0..6]);
    PlainNumber(data, 0, 3, 6);
    assert data[0..6] == [0x31, 0x32, 0x33, 0x2E, 0x34, 0x35];
  }

  /** `007 0 R` is the reference `7_0`, seven bytes long. */
  lemma ReferenceExample(data: seq<bv8>)
    requires data == [0x30, 0x30, 0x37, 0x20, 0x30, 0x20, 0x52]
    ensures RawObjectAt(data, 0) == Raw("objref", Str([0x37, 0x5F, 0x30]), 7)
  {
    assert MatchesAt(data, 6, KwR) by {
      assert KwR[0] == 0x72;
    }
    Reference(data, 0, 3, 4, 5, 6, KwR);
    assert RefValue(7, 0) == [0x37, 0x5F, 0x30];
    ExampleDigits();
    assert data[0..3] == [0x30, 0x30, 0x37];
    assert data[4..5] == [0x30];
  }

  /** The digit values of the example. */
  lemma ExampleDigits()
    ensures DigitsValue([0x30, 0x30, 0x37]) == 7 && DigitsValue([0x30]) == 0
  {
    var zero: seq<bv8> := [0x30];
    var zeros: seq<bv8> := [0x30, 0x30];
    var ds: seq<bv8> := [0x30, 0x30, 0x37];
    assert zero[..0] == [];
    assert zeros[..1] == zero;
    assert ds[..2] == zeros;
  }

  /** The run of number bytes at s, shorter than the 33-byte window and ended
      by another byte or by the end of data, is the numeric value. */
  lemma {:induction false} NumberRun(data: seq<bv8>, s: nat, k: nat)
    requires 0 < k < 33 && s + k <= |data| && AllIn(NumChar, data[s..s + k])
    requires s + k == |data| || !In(NumChar, data[s + k])
    ensures Number(data, s) == Raw("numeric", Str(data[s..s + k]), s + k)
  {
    var t := Window(data, s, 33);
    WindowPrefix(data, s, 33, k);
    if s + k < |data| {
      WindowAt(data, s, 33, k);
    }
    SpanExact(t, NumChar, k);
  }

  /** Without a leading digit no reference or object header is found. */
  lemma {:induction false} NoReference(t: seq<bv8>, kw: seq<bv8>)
    requires |t| > 0 && !In(Digit, t[0])
    ensures RefMatch(t, kw) == None
  {
    SpanExact(t, Digit, 0);
  }

  /** A number that starts with a sign or a point is read as the whole run of
      number bytes, with no check that it is a well-formed number. */
  lemma {:induction false} SignedNumber(data: seq<bv8>, s: nat, k: nat)
    requires 0 < k < 33 && s + k <= |data| && AllIn(NumChar, data[s..s + k])
    requires s + k == |data| || !In(NumChar, data[s + k])
    requires data[s] == 0x2B || data[s] == 0x2D || data[s] == 0x2E
    ensures RawObjectAt(data, s) == Raw("numeric", Str(data[s..s + k]), s + k)
  {
    NoKeyword(data, s);
    DefaultDispatch(data, s);
    NotReference(data, s);
    NumberRun(data, s, k);
  }

  /** `+-` is read as a number. */
  lemma SignsExample()
    ensures RawObjectAt([0x2B, 0x2D], 0) == Raw("numeric", Str([0x2B, 0x2D]), 2)
  {
    var data: seq<bv8> := [0x2B, 0x2D];
    assert data[0..2] == data;
    SignedNumber(data, 0, 2);
  }

  /** At an ordinary byte that starts no keyword and no number nothing is
      found: the type is empty and the offset does not move. */
  lemma {:induction false} NothingFound(data: seq<bv8>, s: nat)
    requires s < |data| && Ordinary(data[s]) && !In(NumChar, data[s])
    requires data[s] != 0x65 && data[s] != 0x6E && data[s] != 0x74 && data[s] != 0x66 && data[s] != 0x73
    ensures RawObjectAt(data, s) == Raw("", Str([]), s)
  {
    NoKeyword(data, s);
    DefaultDispatch(data, s);
    NothingDefault(data, s);
  }

  /** processDefault at a byte that starts neither a digit run nor a number. */
  lemma NothingDefault(data: seq<bv8>, s: nat)
    requires s < |data| && !In(NumChar, data[s])
    ensures Default(data, s) == Raw("", Str([]), s)
  {
    NotReference(data, s);
    WindowAt(data, s, 33, 0);
    SpanExact(Window(data, s, 33), NumChar, 0);
  }

  /** processDefault at a byte that is not a digit goes straight to the
      numeric branch. */
  lemma NotReference(data: seq<bv8>, s: nat)
    requires s < |data| && !In(Digit, data[s])
    ensures Default(data, s) == Number(data, s)
  {
    WindowAt(data, s, 33, 0);
    NoReference(Window(data, s, 33), KwR);
    NoReference(Window(data, s, 33), KwObj);
  }
}
