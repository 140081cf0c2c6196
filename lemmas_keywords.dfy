/** The keywords of processDefaultName and its stream branch, in terms of the
    bytes of the document. */
module KeywordLemmas {
  import opened Bytes
  import opened RawSpec
  import opened ScanLemmas

  /** Testing a prefix of the 9-byte read is testing the bytes at s. */
  lemma KeywordPrefix(data: seq<bv8>, s: nat, kw: seq<bv8>)
    requires s <= |data| && |kw| <= 9
    ensures OccursAt(Window(data, s, 9), kw, 0) <==> OccursAt(data, kw, s)
  {
    if s + |kw| <= |data| {
      WindowPrefix(data, s, 9, |kw|);
    }
  }

  /** processDefaultName tests the keywords in order on the bytes at s, with
      no check of the byte after a keyword; `endstream` is recognised only
      when all nine bytes are there. */
  lemma KeywordsInOrder(data: seq<bv8>, s: nat)
    requires s <= |data|
    ensures DefaultName(data, s) ==
      if OccursAt(data, KwEndobj, s) then Some(Raw("endobj", Str([]), s + 6))
      else if OccursAt(data, KwNull, s) then Some(Raw("null", Str(KwNull), s + 4))
      else if OccursAt(data, KwTrue, s) then Some(Raw("boolean", Str(KwTrue), s + 4))
      else if OccursAt(data, KwFalse, s) then Some(Raw("boolean", Str(KwFalse), s + 5))
      else if OccursAt(data, KwStream, s) then Some(Stream(data, s))
      else if OccursAt(data, KwEndstream, s) then Some(Raw("endstream", Str([]), s + 9))
      else None
  {
    KeywordPrefix(data, s, KwEndobj);
    KeywordPrefix(data, s, KwNull);
    KeywordPrefix(data, s, KwTrue);
    KeywordPrefix(data, s, KwFalse);
    KeywordPrefix(data, s, KwStream);
    KeywordPrefix(data, s, KwEndstream);
    var d := Window(data, s, 9);
    if |d| == 9 {
      assert d[..9] == d;
    }
  }

  /** A byte getRawObject hands to processDefaultName: not white-space, not
      `%`, and not one of the bytes of the method map. */
  predicate Ordinary(b: bv8) {
    !In(White, b) && b != Percent && b != Solidus && b != LParen && b != RParen &&
    b != LBracket && b != RBracket && b != Less && b != Greater
  }

  /** At an ordinary byte getRawObject runs processDefaultName, then, when
      no keyword is found, processDefault. */
  lemma DefaultDispatch(data: seq<bv8>, s: nat)
    requires s < |data| && Ordinary(data[s])
    ensures DefaultName(data, s).Some? ==> RawObjectAt(data, s) == DefaultName(data, s).value
    ensures DefaultName(data, s).None? ==> RawObjectAt(data, s) == Default(data, s)
  {
    AtObjectStart(data, s);
  }

  /** A keyword at s starts with its first byte. */
  lemma FirstByte(data: seq<bv8>, s: nat, kw: seq<bv8>)
    requires |kw| > 0
    ensures OccursAt(data, kw, s) ==> s < |data| && data[s] == kw[0]
  {
    if OccursAt(data, kw, s) {
      assert data[s] == data[s..s + |kw|][0];
    }
  }

  /** The first bytes of all keywords. */
  lemma FirstBytes(data: seq<bv8>, s: nat)
    ensures OccursAt(data, KwEndobj, s) ==> s < |data| && data[s] == 0x65
    ensures OccursAt(data, KwNull, s) ==> s < |data| && data[s] == 0x6E
    ensures OccursAt(data, KwTrue, s) ==> s < |data| && data[s] == 0x74
    ensures OccursAt(data, KwFalse, s) ==> s < |data| && data[s] == 0x66
    ensures OccursAt(data, KwStream, s) ==> s < |data| && data[s] == 0x73
    ensures OccursAt(data, KwEndstream, s) ==> s < |data| && data[s] == 0x65
  {
    FirstByte(data, s, KwEndobj);
    FirstByte(data, s, KwNull);
    FirstByte(data, s, KwTrue);
    FirstByte(data, s, KwFalse);
    FirstByte(data, s, KwStream);
    FirstByte(data, s, KwEndstream);
  }

  /** `endstream` is not read as `endobj`: their fourth bytes differ. */
  lemma EndstreamNotEndobj(data: seq<bv8>, s: nat)
    ensures OccursAt(data, KwEndstream, s) ==> !OccursAt(data, KwEndobj, s)
  {
    if OccursAt(data, KwEndstream, s) && s + 6 <= |data| {
      assert data[s..s + 6][3] == data[s..s + 9][3];
    }
  }

  /** The plain keywords as objects: each is read whatever byte follows it. */
  lemma PlainKeywords(data: seq<bv8>, s: nat)
    requires s < |data|
    ensures OccursAt(data, KwEndobj, s) ==> RawObjectAt(data, s) == Raw("endobj", Str([]), s + 6)
    ensures OccursAt(data, KwNull, s) ==> RawObjectAt(data, s) == Raw("null", Str(KwNull), s + 4)
    ensures OccursAt(data, KwTrue, s) ==> RawObjectAt(data, s) == Raw("boolean", Str(KwTrue), s + 4)
    ensures OccursAt(data, KwFalse, s) ==> RawObjectAt(data, s) == Raw("boolean", Str(KwFalse), s + 5)
    ensures OccursAt(data, KwEndstream, s) ==> RawObjectAt(data, s) == Raw("endstream", Str([]), s + 9)
  {
    KeywordsInOrder(data, s);
    FirstBytes(data, s);
    EndstreamNotEndobj(data, s);
    if Ordinary(data[s]) {
      DefaultDispatch(data, s);
    }
  }

  // ---------------------------------------------------------------- streams

  /** A line end of eol bytes at q: LF, or CR LF. */
  predicate LineEndAt(data: seq<bv8>, q: nat, eol: nat) {
    (eol == 1 && q < |data| && data[q] == Lf) ||
    (eol == 2 && q + 1 < |data| && data[q] == Cr && data[q + 1] == Lf)
  }

  /** The `stream` keyword at s as an object. */
  lemma StreamObject(data: seq<bv8>, s: nat)
    requires OccursAt(data, KwStream, s)
    ensures RawObjectAt(data, s) == Stream(data, s)
  {
    KeywordsInOrder(data, s);
    FirstBytes(data, s);
    DefaultDispatch(data, s);
  }

  /** The line-end length the stream branch finds after `stream`. */
  lemma StreamEolAt(data: seq<bv8>, s: nat)
    ensures StreamEol(Window(data, s + 6, Block)) ==
      if LineEndAt(data, s + 6, 1) then 1 else if LineEndAt(data, s + 6, 2) then 2 else 0
  {
    var block := Window(data, s + 6, Block);
    if s + 6 < |data| {
      WindowAt(data, s + 6, Block, 0);
    }
    if s + 7 < |data| {
      WindowAt(data, s + 6, Block, 1);
    }
  }

  /** Without a line end right after `stream` the stream has no data, and the
      next object starts right after the keyword. */
  lemma StreamWithoutLineEnd(data: seq<bv8>, s: nat)
    requires OccursAt(data, KwStream, s)
    requires !LineEndAt(data, s + 6, 1) && !LineEndAt(data, s + 6, 2)
    ensures RawObjectAt(data, s) == Raw("stream", Str([]), s + 6)
  {
    StreamObject(data, s);
    StreamEolAt(data, s);
  }

  /** The search finds the first `endstream` of the block read after `stream`. */
  lemma EndstreamFound(data: seq<bv8>, s: nat, e: nat)
    requires s + 6 <= e && e + 9 <= |data| && e + 9 <= s + 6 + Block
    requires OccursAt(data, KwEndstream, e)
    requires forall i | s + 6 <= i < e :: !OccursAt(data, KwEndstream, i)
    ensures Find(Window(data, s + 6, Block), KwEndstream) == Some(e - s - 6)
  {
    var block := Window(data, s + 6, Block);
    var j := e - s - 6;
    WindowOccurs(data, s + 6, Block, KwEndstream, j);
    forall i | 0 <= i < j ensures !OccursAt(block, KwEndstream, i) {
      WindowOccurs(data, s + 6, Block, KwEndstream, i);
    }
  }

  /** A stream whose first `endstream` lies in the block after `stream`: its
      data are accepted exactly when a white-space byte follows `endstream`,
      so `endstream` at the very end of data is refused. Accepted, the value
      is the bytes between the line end and `endstream`, and the next offset
      is ten bytes after the line end; refused, the value is empty and the
      next offset is right after the line end. */
  lemma StreamWithEndstream(data: seq<bv8>, s: nat, eol: nat, e: nat)
    requires OccursAt(data, KwStream, s) && LineEndAt(data, s + 6, eol)
    requires s + 6 + eol <= e && e + 9 <= |data| && e + 9 < s + 6 + Block
    requires OccursAt(data, KwEndstream, e)
    requires forall i | s + 6 <= i < e :: !OccursAt(data, KwEndstream, i)
    ensures RawObjectAt(data, s) ==
      if e + 9 < |data| && In(StreamWhite, data[e + 9])
      then Raw("stream", Str(data[s + 6 + eol..e]), s + 6 + eol + 10)
      else Raw("stream", Str([]), s + 6 + eol)
  {
    StreamObject(data, s);
    StreamEolAt(data, s);
    StreamDataEndstream(data, s, eol, e);
  }

  /** The stream branch after a line end of eol bytes, with the first
      `endstream` at e. */
  lemma StreamDataEndstream(data: seq<bv8>, s: nat, eol: nat, e: nat)
    requires 0 < eol && s + 6 + eol <= e && e + 9 <= |data| && e + 9 < s + 6 + Block
    requires OccursAt(data, KwEndstream, e)
    requires forall i | s + 6 <= i < e :: !OccursAt(data, KwEndstream, i)
    ensures StreamData(data, s + 6, eol, Window(data, s + 6, Block)) ==
      if e + 9 < |data| && In(StreamWhite, data[e + 9])
      then Raw("stream", Str(data[s + 6 + eol..e]), s + 6 + eol + 10)
      else Raw("stream", Str([]), s + 6 + eol)
  {
    EndstreamFound(data, s, e);
    var block := Window(data, s + 6, Block);
    var j := e - s - 6;
    if e + 9 < |data| {
      WindowAt(data, s + 6, Block, j + 9);
    }
    WindowPrefix(data, s + 6 + eol, j - eol, j - eol);
    assert Window(data, s + 6 + eol, j - eol) == data[s + 6 + eol..e];
    assert StreamStop(data, s + 6, block) == Some((j, block));
  }
}
