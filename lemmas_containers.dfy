/** Arrays and dictionaries: the children processBracket and processAngular
    collect are the objects read one after another, and array_pop removes the
    closer, or, when data ends first, the last real child. */
module ContainerLemmas {
  import opened Bytes
  import opened RawSpec
  import opened ScanLemmas
  import opened NumberLemmas

  /** items are the objects read one after another from p, each at the
      offset the one before it returned. */
  ghost predicate Chain(data: seq<bv8>, p: nat, items: seq<Raw>)
    decreases |items|
  {
    items == [] || (items[0] == RawObjectAt(data, p) && Chain(data, items[0].off, items[1..]))
  }

  /** The offset after the objects of a chain read from p. */
  function End(p: nat, items: seq<Raw>): (e: nat) {
    if items == [] then p else items[|items| - 1].off
  }

  /** The last object of a chain is the one read where the rest of it ends. */
  lemma {:induction false} ChainLast(data: seq<bv8>, p: nat, items: seq<Raw>, x: Raw)
    requires Chain(data, p, items + [x])
    decreases |items|
    ensures Chain(data, p, items) && x == RawObjectAt(data, End(p, items))
  {
    if items != [] {
      assert (items + [x])[1..] == items[1..] + [x];
      ChainLast(data, items[0].off, items[1..], x);
      assert End(items[0].off, items[1..]) == End(p, items);
    }
  }

  /** res is acc followed by the chain of children read from p, none of
      empty type and none but the last of the closer's type; off is where
      the chain ends, and either its last child is the closer or nothing is
      found at off. */
  ghost predicate Collected(data: seq<bv8>, p: nat, closer: string, acc: seq<Raw>, res: seq<Raw>, off: nat) {
    |acc| <= |res| && res[..|acc|] == acc && Chain(data, p, res[|acc|..]) &&
    (forall i | |acc| <= i < |res| :: res[i].typ != "") &&
    (forall i | |acc| <= i < |res| - 1 :: res[i].typ != closer) &&
    off == End(p, res[|acc|..]) &&
    ((|res| > |acc| && res[|res| - 1].typ == closer) || RawObjectAt(data, off).typ == "")
  }

  /** One more child in front: a collection from the child's offset on,
      after the child e read at p, is a collection from p. */
  lemma CollectedStep(data: seq<bv8>, p: nat, closer: string, acc: seq<Raw>, res: seq<Raw>, off: nat)
    requires RawObjectAt(data, p).typ != "" && RawObjectAt(data, p).typ != closer
    requires Collected(data, RawObjectAt(data, p).off, closer, acc + [RawObjectAt(data, p)], res, off)
    ensures Collected(data, p, closer, acc, res, off)
  {
    var e := RawObjectAt(data, p);
    assert res[..|acc|] == (acc + [e])[..|acc|];
    assert res[|acc|] == (acc + [e])[|acc|];
    assert res[|acc|..][1..] == res[|acc| + 1..];
  }

  /** The do-while loop of processBracket and processAngular collects a chain. */
  lemma {:induction false} CollectChain(data: seq<bv8>, p: nat, closer: string, acc: seq<Raw>)
    decreases Budget(data, p)
    ensures Collected(data, p, closer, acc, Collect(data, p, closer, acc).0, Collect(data, p, closer, acc).1)
  {
    var e := RawObjectAt(data, p);
    if e.typ == "" {
      assert acc[|acc|..] == [];
    } else if e.typ == closer {
      assert (acc + [e])[|acc|..] == [e];
      assert [e][1..] == [];
    } else {
      CollectChain(data, e.off, closer, acc + [e]);
      CollectedStep(data, p, closer, acc, Collect(data, e.off, closer, acc + [e]).0, Collect(data, e.off, closer, acc + [e]).1);
    }
  }

  /** What array_pop leaves of the children read from p, and the offset
      returned: the children are a chain, none of empty type or of the
      closer's type, and either the next object is the closer, whose offset is
      returned, or the next object is a real child after which nothing more
      is found, and it is dropped, or nothing is found at p at all. */
  ghost predicate Contents(data: seq<bv8>, p: nat, closer: string, items: seq<Raw>, off: nat) {
    Chain(data, p, items) &&
    (forall i | 0 <= i < |items| :: items[i].typ != "" && items[i].typ != closer) &&
    var next := RawObjectAt(data, End(p, items));
    (next.typ == closer && off == next.off) ||
    (next.typ != "" && RawObjectAt(data, next.off).typ == "" && off == next.off) ||
    (items == [] && next.typ == "" && off == p)
  }

  /** The loop followed by array_pop gives the contents described above. */
  lemma CollectPopped(data: seq<bv8>, p: nat, closer: string)
    ensures Contents(data, p, closer, Pop(Collect(data, p, closer, []).0), Collect(data, p, closer, []).1)
  {
    CollectChain(data, p, closer, []);
    PoppedContents(data, p, closer, Collect(data, p, closer, []).0, Collect(data, p, closer, []).1);
  }

  /** A collection from p with nothing before it, less its last element, is
      the contents of the container. */
  lemma PoppedContents(data: seq<bv8>, p: nat, closer: string, res: seq<Raw>, off: nat)
    requires Collected(data, p, closer, [], res, off)
    ensures Contents(data, p, closer, Pop(res), off)
  {
    assert res[0..] == res;
    if res != [] {
      var items := res[..|res| - 1];
      assert items + [res[|res| - 1]] == res;
      ChainLast(data, p, items, res[|res| - 1]);
    }
  }

  /** `[` reads an array: its children from the next byte on, up to the `]`. */
  lemma ArrayContents(data: seq<bv8>, s: nat)
    requires s < |data| && data[s] == LBracket
    ensures var r := RawObjectAt(data, s);
      r.typ == "[" && r.val.Arr? && Contents(data, s + 1, "]", r.val.items, r.off)
  {
    AtObjectStart(data, s);
    assert RawObjectAt(data, s) == Bracket(data, s);
    CollectPopped(data, s + 1, "]");
  }

  /** `<<` reads a dictionary: its children from after the `<<` on, up to the `>>`. */
  lemma DictionaryContents(data: seq<bv8>, s: nat)
    requires s + 1 < |data| && data[s] == Less && data[s + 1] == Less
    ensures var r := RawObjectAt(data, s);
      r.typ == "<<" && r.val.Arr? && Contents(data, s + 2, ">>", r.val.items, r.off)
  {
    AtObjectStart(data, s);
    WindowAt(data, s, 2, 1);
    CollectPopped(data, s + 2, ">>");
  }

  /** A `]` or `>>` outside a container is an object of its own. */
  lemma LoneClosers(data: seq<bv8>, s: nat)
    requires s < |data|
    ensures data[s] == RBracket ==> RawObjectAt(data, s) == Raw("]", Str([]), s + 1)
    ensures s + 1 < |data| && data[s] == Greater && data[s + 1] == Greater ==>
      RawObjectAt(data, s) == Raw(">>", Str([]), s + 2)
  {
    if data[s] == RBracket || data[s] == Greater {
      AtObjectStart(data, s);
    }
    if s + 1 < |data| {
      WindowAt(data, s, 2, 1);
    }
  }

  /** Two chains read from the same offset agree as far as the shorter goes. */
  lemma {:induction false} ChainPrefix(data: seq<bv8>, p: nat, a: seq<Raw>, b: seq<Raw>)
    requires Chain(data, p, a) && Chain(data, p, b) && |a| <= |b|
    decreases |a|
    ensures a == b[..|a|]
  {
    if a != [] {
      ChainPrefix(data, a[0].off, a[1..], b[1..]);
      assert a == [a[0]] + a[1..];
      assert b[..|a|] == [b[0]] + b[1..][..|a| - 1];
    }
  }

  /** Every prefix of a chain is a chain. */
  lemma {:induction false} ChainTake(data: seq<bv8>, p: nat, b: seq<Raw>, k: nat)
    requires Chain(data, p, b) && k <= |b|
    decreases k
    ensures Chain(data, p, b[..k])
  {
    if k > 0 {
      ChainTake(data, b[0].off, b[1..], k - 1);
      assert b[..k][1..] == b[1..][..k - 1];
    }
  }

  /** The k-th object of a chain is the one read where the first k end. */
  lemma ChainAt(data: seq<bv8>, p: nat, b: seq<Raw>, k: nat)
    requires Chain(data, p, b) && k < |b|
    ensures b[k] == RawObjectAt(data, End(p, b[..k]))
  {
    ChainTake(data, p, b, k + 1);
    assert b[..k + 1] == b[..k] + [b[k]];
    ChainLast(data, p, b[..k], b[k]);
  }

  /** A shorter contents list can not describe the same container as a longer one. */
  lemma ContentsNotShorter(data: seq<bv8>, p: nat, closer: string, a: seq<Raw>, oa: nat, b: seq<Raw>, ob: nat)
    requires closer != ""
    requires Contents(data, p, closer, a, oa) && Contents(data, p, closer, b, ob)
    ensures |b| <= |a|
  {
    if |a| < |b| {
      ChainPrefix(data, p, a, b);
      ChainAt(data, p, b, |a|);
      var next := b[|a|];
      assert next.typ != "" && next.typ != closer;
      assert RawObjectAt(data, next.off).typ == "";
      if |a| + 1 < |b| {
        ChainAt(data, p, b, |a| + 1);
        assert false;
      } else {
        assert false;
      }
    }
  }

  /** Contents determines the children and the offset: the characterisation
      is complete. */
  lemma ContentsUnique(data: seq<bv8>, p: nat, closer: string, a: seq<Raw>, oa: nat, b: seq<Raw>, ob: nat)
    requires closer != ""
    requires Contents(data, p, closer, a, oa) && Contents(data, p, closer, b, ob)
    ensures a == b && oa == ob
  {
    ContentsNotShorter(data, p, closer, a, oa, b, ob);
    ContentsNotShorter(data, p, closer, b, ob, a, oa);
    ChainPrefix(data, p, a, b);
    assert a == b;
  }

  /** `[1 2]` is an array of the numbers `1` and `2`, five bytes long; the
      closing `]` is dropped by array_pop. */
  lemma ArrayExample(data: seq<bv8>)
    requires data == [LBracket, 0x31, 0x20, 0x32, RBracket]
    ensures RawObjectAt(data, 0) ==
      Raw("[", Arr([Raw("numeric", Str([0x31]), 2), Raw("numeric", Str([0x32]), 4)]), 5)
  {
    ArrayChildren(data);
    var one := Raw("numeric", Str([0x31]), 2);
    var two := Raw("numeric", Str([0x32]), 4);
    ArrayCollect(data, one, two);
    assert Pop([one, two, Raw("]", Str([]), 5)]) == [one, two];
    AtObjectStart(data, 0);
    assert RawObjectAt(data, 0) == Bracket(data, 0);
  }

  /** The loop of processBracket over two real children and the closer. */
  lemma ArrayCollect(data: seq<bv8>, one: Raw, two: Raw)
    requires one.typ == "numeric" && one.off == 2 && two.typ == "numeric" && two.off == 4
    requires RawObjectAt(data, 1) == one && RawObjectAt(data, 2) == two
    requires RawObjectAt(data, 4) == Raw("]", Str([]), 5)
    ensures Collect(data, 1, "]", []) == ([one, two, Raw("]", Str([]), 5)], 5)
  {
    var close := RawObjectAt(data, 4);
    assert close.typ == "]";
    assert Collect(data, 4, "]", [one, two]) == ([one, two] + [close], close.off);
    assert two.typ != "" && two.typ != "]";
    assert Collect(data, 2, "]", [one]) == Collect(data, 4, "]", [one] + [two]);
    assert one.typ != "" && one.typ != "]";
    assert Collect(data, 1, "]", []) == Collect(data, 2, "]", [] + [one]);
    assert [] + [one] == [one] && [one] + [two] == [one, two];
    assert [one, two] + [close] == [one, two, close];
  }

  /** The objects read inside `[1 2]`. */
  lemma ArrayChildren(data: seq<bv8>)
    requires data == [LBracket, 0x31, 0x20, 0x32, RBracket]
    ensures RawObjectAt(data, 1) == Raw("numeric", Str([0x31]), 2)
    ensures RawObjectAt(data, 2) == Raw("numeric", Str([0x32]), 4)
    ensures RawObjectAt(data, 4) == Raw("]", Str([]), 5)
  {
    ArrayFirst(data);
    WhiteSkipped(data, 2, 3);
    assert AllIn(NumChar, data[3..4]);
    PlainNumber(data, 3, 1, 1);
    assert data[3..4] == [0x32];
    LoneClosers(data, 4);
  }

  /** In `[1 2]` the first child `1 2` is not a reference, since no keyword
      follows: it is the number `1`. */
  lemma ArrayFirst(data: seq<bv8>)
    requires data == [LBracket, 0x31, 0x20, 0x32, RBracket]
    ensures RawObjectAt(data, 1) == Raw("numeric", Str([0x31]), 2)
  {
    WindowRest(data, 1, 33);
    NoShapeExample(Window(data, 1, 33));
    NoShapeNumber(data, 1);
    assert AllIn(NumChar, data[1..2]);
    NumberRun(data, 1, 1);
    assert data[1..2] == [0x31];
  }

  /** `1 2]` holds two numbers but no keyword after them. */
  lemma NoShapeExample(t: seq<bv8>)
    requires t == [0x31, 0x20, 0x32, RBracket]
    ensures !RefShape(t, KwR) && !RefShape(t, KwObj)
  {
    SpanFromExact(t, Digit, 0, 1);
    SpanFromExact(t, Space, 1, 2);
    SpanFromExact(t, Digit, 2, 3);
    SpanFromExact(t, Space, 3, 3);
    RefMatchShape(t, KwR);
    RefMatchShape(t, KwObj);
  }
}
