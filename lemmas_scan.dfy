/** What getRawObject does before it looks at an object: white-space and
    comments in front of an object do not change the object read. */
module ScanLemmas {
  import opened Bytes
  import opened RawSpec

  /** The white-space loop stops at the first byte from o on that is not
      white-space, or at the end of data, however many whole blocks it skips. */
  lemma {:induction false} WhiteEndFirst(data: seq<bv8>, o: nat)
    requires o <= |data|
    decreases |data| - o
    ensures o <= WhiteEnd(data, o) <= |data|
    ensures forall i | o <= i < WhiteEnd(data, o) :: In(White, data[i])
    ensures WhiteEnd(data, o) < |data| ==> !In(White, data[WhiteEnd(data, o)])
  {
    var w := Window(data, o, Block);
    var l := Span(w, White);
    SpanAll(w, White);
    forall i | o <= i < o + l ensures In(White, data[i]) {
      WindowAt(data, o, Block, i - o);
    }
    if l == Block {
      WhiteEndFirst(data, o + Block);
    } else if l < |w| {
      WindowAt(data, o, Block, l);
    }
  }

  /** The first byte that is not white-space determines WhiteEnd: both
      directions of the characterisation above. */
  lemma WhiteEndIs(data: seq<bv8>, o: nat, t: nat)
    requires o <= t <= |data|
    requires forall i | o <= i < t :: In(White, data[i])
    requires t == |data| || !In(White, data[t])
    ensures WhiteEnd(data, o) == t
  {
    WhiteEndFirst(data, o);
  }

  /** White-space in front of an object that is not a comment is skipped:
      reading from o, or from the object's first byte t, gives the object the
      method map finds at t. */
  lemma WhiteSkipped(data: seq<bv8>, o: nat, t: nat)
    requires o <= t <= |data|
    requires forall i | o <= i < t :: In(White, data[i])
    requires t == |data| || (!In(White, data[t]) && data[t] != Percent)
    ensures RawObjectAt(data, o) == Dispatch(data, t)
    ensures RawObjectAt(data, t) == Dispatch(data, t)
  {
    WhiteEndIs(data, o, t);
    WhiteEndIs(data, t, t);
  }

  /** An object read at its own first byte is what the method map finds there. */
  lemma AtObjectStart(data: seq<bv8>, s: nat)
    requires s < |data| && !In(White, data[s]) && data[s] != Percent
    ensures RawObjectAt(data, s) == Dispatch(data, s)
  {
    WhiteSkipped(data, s, s);
  }

  /** Only white-space up to the end of data: nothing is found, and the
      offset returned is the end of data. */
  lemma OnlyWhiteLeft(data: seq<bv8>, o: nat)
    requires o <= |data|
    requires forall i | o <= i < |data| :: In(White, data[i])
    ensures RawObjectAt(data, o) == Raw("", Str([]), |data|)
  {
    WhiteSkipped(data, o, |data|);
  }

  /** The length of a comment that ends within one block is the distance to its line end. */
  lemma CommentLengthIs(data: seq<bv8>, b: nat, s: nat, e: nat)
    requires b <= s < b + Block && s < e < |data| && e - s < Block
    requires data[s] == Percent && In(Eol, data[e])
    requires forall i | s <= i < e :: !In(Eol, data[i])
    ensures CommentLength(data, b, s) == e - s
  {
    var block := Window(data, s, b + 2 * Block - s);
    WindowAt(data, s, b + 2 * Block - s, e - s);
    var l := CSpan(block, Eol);
    CSpanNone(block, Eol);
    if l < e - s {
      WindowAt(data, s, b + 2 * Block - s, l);
    }
    assert l == e - s;
  }

  /** A comment from `%` at s to the line end at e, within one block, is
      skipped: scanning resumes at the line end. */
  lemma CommentSkipped(data: seq<bv8>, o: nat, s: nat, e: nat)
    requires o <= s < e < |data| && e - s < Block
    requires forall i | o <= i < s :: In(White, data[i])
    requires data[s] == Percent && In(Eol, data[e])
    requires forall i | s <= i < e :: !In(Eol, data[i])
    ensures RawObjectAt(data, o) == RawObjectAt(data, e)
  {
    WhiteEndIs(data, o, s);
    var b := SkipBlocks(data, o);
    CommentLengthIs(data, b, s, e);
    CommentResumes(data, b, s, e);
  }

  /** After a comment of known length the scan starts over at its end. */
  lemma CommentResumes(data: seq<bv8>, b: nat, s: nat, e: nat)
    requires b <= s < b + Block && s < e <= |data| && data[s] == Percent
    requires CommentLength(data, b, s) == e - s
    ensures AfterWhite(data, b, s) == RawObjectAt(data, e)
  {
  }

  /** A comment shorter than a block, with white-space around it, leaves the
      object after it unchanged: type, value and next offset are those read at
      the object's first byte t. */
  lemma CommentTransparent(data: seq<bv8>, o: nat, s: nat, e: nat, t: nat)
    requires o <= s < e <= t <= |data| && e < |data| && e - s < Block
    requires forall i | o <= i < s :: In(White, data[i])
    requires data[s] == Percent && In(Eol, data[e])
    requires forall i | s <= i < e :: !In(Eol, data[i])
    requires forall i | e <= i < t :: In(White, data[i])
    requires t == |data| || (!In(White, data[t]) && data[t] != Percent)
    ensures RawObjectAt(data, o) == RawObjectAt(data, t) == Dispatch(data, t)
  {
    CommentSkipped(data, o, s, e);
    WhiteSkipped(data, e, t);
  }
}
