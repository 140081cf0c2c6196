/** Names, literal strings and hexadecimal strings: what processSolidus,
    processParenthesis and the hexadecimal branch of processAngular return,
    in terms of the bytes of the document. */
module StringLemmas {
  import opened Bytes
  import opened RawSpec
  import opened ScanLemmas

  // ---------------------------------------------------------------- names

  /** A name is `/` followed by the longest run of regular bytes, at most 256
      of them: `/` and the value give back the bytes consumed, and a delimiter
      or white-space right after the `/` gives the empty name. */
  lemma NameRoundTrip(data: seq<bv8>, s: nat)
    requires s < |data| && data[s] == Solidus
    ensures var r := RawObjectAt(data, s);
      r.typ == "/" && r.val.Str? && |r.val.s| <= 256 && r.off == s + 1 + |r.val.s| &&
      r.off <= |data| && data[s..r.off] == [Solidus] + r.val.s &&
      AllIn(NameChar, r.val.s) &&
      (|r.val.s| < 256 && r.off < |data| ==> !In(NameChar, data[r.off]))
    ensures s + 1 < |data| && !In(NameChar, data[s + 1]) ==> RawObjectAt(data, s) == Raw("/", Str([]), s + 1)
  {
    AtObjectStart(data, s);
    NameBytes(data, s);
  }

  /** What processSolidus returns at the `/` at s, in terms of the bytes. */
  lemma NameBytes(data: seq<bv8>, s: nat)
    requires s < |data| && data[s] == Solidus
    ensures var r := Name(data, s);
      r.typ == "/" && r.val.Str? && |r.val.s| <= 256 && r.off == s + 1 + |r.val.s| &&
      r.off <= |data| && data[s..r.off] == [Solidus] + r.val.s &&
      AllIn(NameChar, r.val.s) &&
      (|r.val.s| < 256 && r.off < |data| ==> !In(NameChar, data[r.off]))
    ensures s + 1 < |data| && !In(NameChar, data[s + 1]) ==> Name(data, s) == Raw("/", Str([]), s + 1)
  {
    var w := Window(data, s + 1, 256);
    var n := Span(w, NameChar);
    SpanAll(w, NameChar);
    WindowPrefix(data, s + 1, 256, n);
    assert data[s..s + 1 + n] == [Solidus] + data[s + 1..s + 1 + n];
    if n < 256 && s + 1 + n < |data| {
      WindowAt(data, s + 1, 256, n);
    }
    if n > 0 {
      WindowAt(data, s + 1, 256, 0);
    }
  }

  // ---------------------------------------------------------------- literal strings

  /** Bytes in which every unescaped `(` is closed by a later unescaped `)`
      and no `)` is left unmatched, ending with no backslash left waiting for
      the byte it escapes: a byte other than a parenthesis or a backslash,
      a backslash and the byte it escapes, or a nested `(` ... `)`, each
      followed by more such bytes. */
  predicate Balanced(seg: seq<bv8>)
    decreases |seg|
  {
    seg == [] ||
    (seg[0] != LParen && seg[0] != RParen && seg[0] != Backslash && Balanced(seg[1..])) ||
    (seg[0] == Backslash && |seg| >= 2 && Balanced(seg[2..])) ||
    (seg[0] == LParen &&
     exists k | 1 <= k < |seg| :: seg[k] == RParen && Balanced(seg[1..k]) && Balanced(seg[k + 1..]))
  }

  /** Bytes in which no prefix closes more parentheses than it opens: what
      Balanced allows, and in addition a `(` that is never closed. The last
      byte is not a backslash left waiting for the byte it escapes. */
  predicate Open(seg: seq<bv8>)
    decreases |seg|
  {
    seg == [] ||
    (seg[0] != LParen && seg[0] != RParen && seg[0] != Backslash && Open(seg[1..])) ||
    (seg[0] == Backslash && |seg| >= 2 && Open(seg[2..])) ||
    (seg[0] == LParen && Open(seg[1..])) ||
    (seg[0] == LParen &&
     exists k | 1 <= k < |seg| :: seg[k] == RParen && Balanced(seg[1..k]) && Open(seg[k + 1..]))
  }

  /** One turn of the literal-string loop inside a block, when it leaves the
      string open: a backslash skips the byte it escapes, a parenthesis moves
      the depth. */
  lemma ParenStep(data: seq<bv8>, newval: seq<bv8>, block: seq<bv8>, i: nat,
                  totpos: nat, depth: nat, cursor: nat)
    requires i < |block| && 0 < depth && (block[i] == RParen ==> 1 < depth)
    ensures ParenLoop(data, newval, block, i, totpos, depth, cursor) ==
            ParenLoop(data, newval, block, if block[i] == Backslash then i + 2 else i + 1, totpos,
                      if block[i] == LParen then depth + 1 else if block[i] == RParen then depth - 1 else depth,
                      cursor)
  {
  }

  /** Over balanced bytes i..j of the block, at any depth, the loop comes back
      to the same depth at j without having closed the string. */
  lemma {:induction false} ParenBalanced(data: seq<bv8>, newval: seq<bv8>, block: seq<bv8>, i: nat, j: nat,
                                         totpos: nat, depth: nat, cursor: nat)
    requires i <= j < |block| && 0 < depth && Balanced(block[i..j])
    decreases j - i, 1
    ensures ParenLoop(data, newval, block, i, totpos, depth, cursor) ==
            ParenLoop(data, newval, block, j, totpos, depth, cursor)
  {
    var seg := block[i..j];
    if i == j {
    } else if seg[0] == Backslash {
      assert seg[2..] == block[i + 2..j];
      ParenStep(data, newval, block, i, totpos, depth, cursor);
      ParenBalanced(data, newval, block, i + 2, j, totpos, depth, cursor);
    } else if seg[0] == LParen {
      var k :| 1 <= k < |seg| && seg[k] == RParen && Balanced(seg[1..k]) && Balanced(seg[k + 1..]);
      assert i + k < j;
      assert seg[1..k] == block[i + 1..i + k] by {
        forall m | 0 <= m < k - 1 ensures seg[1..k][m] == block[i + 1..i + k][m] {
          assert seg[1..k][m] == seg[m + 1] == block[i + m + 1];
        }
      }
      assert seg[k + 1..] == block[i + k + 1..j];
      ParenNested(data, newval, block, i, j, k, totpos, depth, cursor);
    } else {
      assert seg[1..] == block[i + 1..j];
      ParenStep(data, newval, block, i, totpos, depth, cursor);
      ParenBalanced(data, newval, block, i + 1, j, totpos, depth, cursor);
    }
  }

  /** A nested `(` at i closed by the `)` at i + k, followed by balanced bytes
      up to j: the loop goes one level down and comes back. */
  lemma {:induction false} ParenNested(data: seq<bv8>, newval: seq<bv8>, block: seq<bv8>, i: nat, j: nat, k: nat,
                                       totpos: nat, depth: nat, cursor: nat)
    requires 1 <= k && i + k < j < |block| && 0 < depth
    requires block[i] == LParen && block[i + k] == RParen
    requires Balanced(block[i + 1..i + k]) && Balanced(block[i + k + 1..j])
    decreases j - i, 0
    ensures ParenLoop(data, newval, block, i, totpos, depth, cursor) ==
            ParenLoop(data, newval, block, j, totpos, depth, cursor)
  {
    ParenStep(data, newval, block, i, totpos, depth, cursor);
    ParenBalanced(data, newval, block, i + 1, i + k, totpos, depth + 1, cursor);
    ParenStep(data, newval, block, i + k, totpos, depth + 1, cursor);
    ParenBalanced(data, newval, block, i + k + 1, j, totpos, depth, cursor);
  }

  /** Over balanced bytes at depth 1, the literal-string loop runs to the `)`
      at k and returns everything before it, nested parentheses and escapes
      kept. */
  lemma ParenClosing(data: seq<bv8>, newval: seq<bv8>, block: seq<bv8>, i: nat, k: nat,
                     totpos: nat, cursor: nat)
    requires i <= k < |block| && Balanced(block[i..k]) && block[k] == RParen
    ensures ParenLoop(data, newval, block, i, totpos, 1, cursor) == (newval + block[..k], totpos + k + 1)
  {
    ParenBalanced(data, newval, block, i, k, totpos, 1, cursor);
  }

  /** Over bytes that never close the string, up to the end of data, the loop
      keeps every byte. */
  lemma {:induction false} ParenOpenEnd(data: seq<bv8>, newval: seq<bv8>, block: seq<bv8>, i: nat,
                                        totpos: nat, depth: nat, cursor: nat)
    requires i <= |block| && 0 < depth && Open(block[i..]) && |data| <= cursor
    decreases |block| - i, 2
    ensures ParenLoop(data, newval, block, i, totpos, depth, cursor) == (newval + block, totpos + |block|)
  {
    var seg := block[i..];
    if i == |block| {
      assert block[..i] == block;
    } else if seg[0] == Backslash {
      assert seg[2..] == block[i + 2..];
      ParenStep(data, newval, block, i, totpos, depth, cursor);
      ParenOpenEnd(data, newval, block, i + 2, totpos, depth, cursor);
    } else if seg[0] == LParen {
      ParenOpenNested(data, newval, block, i, totpos, depth, cursor);
    } else {
      assert seg[1..] == block[i + 1..];
      ParenStep(data, newval, block, i, totpos, depth, cursor);
      ParenOpenEnd(data, newval, block, i + 1, totpos, depth, cursor);
    }
  }

  /** A `(` at i in bytes that never close the string: either it is never
      closed itself, or it is closed and the bytes after its `)` never close
      the string either. */
  lemma {:induction false} ParenOpenNested(data: seq<bv8>, newval: seq<bv8>, block: seq<bv8>, i: nat,
                                           totpos: nat, depth: nat, cursor: nat)
    requires i < |block| && block[i] == LParen && 0 < depth && Open(block[i..]) && |data| <= cursor
    decreases |block| - i, 1
    ensures ParenLoop(data, newval, block, i, totpos, depth, cursor) == (newval + block, totpos + |block|)
  {
    var seg := block[i..];
    if Open(seg[1..]) {
      assert seg[1..] == block[i + 1..];
      ParenStep(data, newval, block, i, totpos, depth, cursor);
      ParenOpenEnd(data, newval, block, i + 1, totpos, depth + 1, cursor);
    } else {
      var k :| 1 <= k < |seg| && seg[k] == RParen && Balanced(seg[1..k]) && Open(seg[k + 1..]);
      assert i + k < |block|;
      assert seg[1..k] == block[i + 1..i + k] by {
        forall m | 0 <= m < k - 1 ensures seg[1..k][m] == block[i + 1..i + k][m] {
          assert seg[1..k][m] == seg[m + 1] == block[i + m + 1];
        }
      }
      assert seg[k + 1..] == block[i + k + 1..];
      ParenNestedOpen(data, newval, block, i, k, totpos, depth, cursor);
    }
  }

  /** A nested `(` at i closed by the `)` at i + k, followed by bytes that
      never close the string. */
  lemma {:induction false} ParenNestedOpen(data: seq<bv8>, newval: seq<bv8>, block: seq<bv8>, i: nat, k: nat,
                                           totpos: nat, depth: nat, cursor: nat)
    requires 1 <= k && i + k < |block| && 0 < depth && |data| <= cursor
    requires block[i] == LParen && block[i + k] == RParen
    requires Balanced(block[i + 1..i + k]) && Open(block[i + k + 1..])
    decreases |block| - i, 0
    ensures ParenLoop(data, newval, block, i, totpos, depth, cursor) == (newval + block, totpos + |block|)
  {
    ParenStep(data, newval, block, i, totpos, depth, cursor);
    ParenBalanced(data, newval, block, i + 1, i + k, totpos, depth + 1, cursor);
    ParenStep(data, newval, block, i + k, totpos, depth + 1, cursor);
    ParenOpenEnd(data, newval, block, i + k + 1, totpos, depth, cursor);
  }

  /** processParenthesis on a literal string closed within its first block. */
  lemma ParenthesisClosed(data: seq<bv8>, s: nat, e: nat)
    requires s < e < |data| && e - s <= Block
    requires data[s] == LParen && data[e] == RParen && Balanced(data[s + 1..e])
    ensures Parenthesis(data, s) == Raw("(", Str(data[s + 1..e]), e + 1)
  {
    var block := Window(data, s + 1, Block);
    var k := e - s - 1;
    WindowPrefix(data, s + 1, Block, k);
    WindowAt(data, s + 1, Block, k);
    assert block[0..k] == data[s + 1..e];
    ParenClosing(data, [], block, 0, k, 0, s + 1 + |block|);
    assert [] + block[..k] == data[s + 1..e];
  }

  /** A literal string closed within its first block: the value is the raw
      bytes between the parentheses, escapes undecoded, and the next object
      starts after the `)`. */
  lemma LiteralString(data: seq<bv8>, s: nat, e: nat)
    requires s < e < |data| && e - s <= Block
    requires data[s] == LParen && data[e] == RParen && Balanced(data[s + 1..e])
    ensures RawObjectAt(data, s) == Raw("(", Str(data[s + 1..e]), e + 1)
  {
    AtObjectStart(data, s);
    ParenthesisClosed(data, s, e);
  }

  /** `(a(b)c)`: the nested pair is part of the value `a(b)c`, and the next
      object starts after the outer `)`. */
  lemma NestedExample(data: seq<bv8>)
    requires data == [LParen, 0x61, LParen, 0x62, RParen, 0x63, RParen]
    ensures RawObjectAt(data, 0) == Raw("(", Str([0x61, LParen, 0x62, RParen, 0x63]), 7)
  {
    var b: seq<bv8> := [0x62];
    assert Balanced(b[1..]);
    assert Balanced(b);
    var c: seq<bv8> := [0x63];
    assert Balanced(c[1..]);
    assert Balanced(c);
    var nested: seq<bv8> := [LParen, 0x62, RParen, 0x63];
    assert nested[1..2] == b && nested[3..] == c;
    assert Balanced(nested);
    var val: seq<bv8> := [0x61, LParen, 0x62, RParen, 0x63];
    assert val[1..] == nested;
    assert Balanced(val);
    assert data[1..6] == val;
    LiteralString(data, 0, 6);
  }

  /** processParenthesis on a literal string that data ends inside. */
  lemma ParenthesisOpen(data: seq<bv8>, s: nat)
    requires s < |data| && |data| - s <= Block
    requires data[s] == LParen && Open(data[s + 1..])
    ensures Parenthesis(data, s) == Raw("(", Str(data[s + 1..]), |data|)
  {
    var block := Window(data, s + 1, Block);
    WindowRest(data, s + 1, Block);
    assert block[0..] == block;
    ParenOpenEnd(data, [], block, 0, 0, 1, s + 1 + |block|);
    assert [] + block == block;
  }

  /** A literal string that data ends inside, within one block and with no
      backslash at the very end: the value is every byte after the `(` and
      the next offset is the end of data. */
  lemma LiteralUnterminated(data: seq<bv8>, s: nat)
    requires s < |data| && |data| - s <= Block
    requires data[s] == LParen && Open(data[s + 1..])
    ensures RawObjectAt(data, s) == Raw("(", Str(data[s + 1..]), |data|)
  {
    AtObjectStart(data, s);
    ParenthesisOpen(data, s);
  }

  /** A `)` outside a literal string is an object of its own, one byte long. */
  lemma LoneParenthesis(data: seq<bv8>, s: nat)
    requires s < |data| && data[s] == RParen
    ensures RawObjectAt(data, s) == Raw(")", Str([]), s + 1)
  {
    AtObjectStart(data, s);
  }

  // ---------------------------------------------------------------- hexadecimal strings

  /** The search loop after the peek finds the first `>` from cursor c on. */
  lemma {:induction false} HexSearchFirst(data: seq<bv8>, c: nat, offpos: nat)
    decreases Budget(data, c)
    ensures match HexSearch(data, c, offpos)
      case Some(k) =>
        offpos <= k && c + (k - offpos) < |data| && data[c + (k - offpos)] == Greater &&
        forall i | c <= i < c + (k - offpos) :: data[i] != Greater
      case None => forall i | c <= i < |data| :: data[i] != Greater
  {
    var block := Window(data, c, Block);
    var f := Find(block, [Greater]);
    forall i | c <= i < c + |block| ensures data[i] == Greater <==> OccursAt(block, [Greater], i - c) {
      WindowAt(data, c, Block, i - c);
      assert block[i - c..i - c + 1] == [block[i - c]];
    }
    if f.Some? {
      WindowAt(data, c, Block, f.value);
      assert block[f.value..f.value + 1] == [block[f.value]];
    }
    if f.None? && |block| == Block {
      HexSearchFirst(data, c + Block, offpos + |block|);
    }
  }

  /** `$endpos` locates the first `>` after the opening byte at s: at s + 1 it
      is 1; further on, at g, it is g - s - 2, since it is counted from the end
      of the 2-byte peek. None means there is no `>` at all. */
  lemma HexEndFirst(data: seq<bv8>, s: nat)
    requires s < |data|
    ensures match HexEnd(data, s)
      case Some(k) =>
        (k == 1 && s + 1 < |data| && data[s + 1] == Greater) ||
        (s + 2 + k < |data| && data[s + 2 + k] == Greater && forall i | s < i < s + 2 + k :: data[i] != Greater)
      case None => forall i | s < i < |data| :: data[i] != Greater
  {
    var peek := Window(data, s, 2);
    HexSearchFirst(data, s + 2, 0);
    if s + 1 < |data| {
      WindowAt(data, s, 2, 1);
    }
  }

  /** `<>` is an empty hexadecimal string two bytes long. */
  lemma EmptyHexString(data: seq<bv8>, s: nat)
    requires s + 1 < |data| && data[s] == Less && data[s + 1] == Greater
    ensures RawObjectAt(data, s) == Raw("<", Str([]), s + 2)
  {
    AtObjectStart(data, s);
    WindowAt(data, s, 2, 1);
    assert Window(data, s + 1, 1) == [Greater] by {
      WindowAt(data, s + 1, 1, 0);
    }
    assert Split([Greater]) == [[Greater]];
  }

  /** A `<` with no `>` anywhere after it is read as an empty string one byte long. */
  lemma UnclosedHexString(data: seq<bv8>, s: nat)
    requires s < |data| && data[s] == Less
    requires s + 1 == |data| || data[s + 1] != Less
    requires forall i | s < i < |data| :: data[i] != Greater
    ensures RawObjectAt(data, s) == Raw("<", Str([]), s + 1)
  {
    AtObjectStart(data, s);
    HexEndFirst(data, s);
    if s + 1 < |data| {
      WindowAt(data, s, 2, 1);
    }
  }

  /** A `>` that is not `>>` takes the hexadecimal branch with type `>` and
      an empty value; the offset lands on the byte before the next `>` at g,
      counted from the end of the 2-byte peek like the `<` case. */
  lemma LoneGreater(data: seq<bv8>, s: nat, g: nat)
    requires s + 1 < g < |data| && data[s] == Greater && data[g] == Greater
    requires forall i | s < i < g :: data[i] != Greater
    ensures RawObjectAt(data, s) == Raw(">", Str([]), g - 1)
  {
    AtObjectStart(data, s);
    WindowAt(data, s, 2, 1);
    HexEndAt(data, s, g);
  }

  /** A `>` with no `>` anywhere after it is an empty object of type `>`,
      one byte long. */
  lemma UnclosedGreater(data: seq<bv8>, s: nat)
    requires s < |data| && data[s] == Greater
    requires forall i | s < i < |data| :: data[i] != Greater
    ensures RawObjectAt(data, s) == Raw(">", Str([]), s + 1)
  {
    AtObjectStart(data, s);
    HexEndFirst(data, s);
    if s + 1 < |data| {
      WindowAt(data, s, 2, 1);
    }
  }

  /** `>abc>` is an empty object of type `>` whose next offset is 3, the `c`. */
  lemma LoneGreaterExample(data: seq<bv8>)
    requires data == [Greater, 0x61, 0x62, 0x63, Greater]
    ensures RawObjectAt(data, 0) == Raw(">", Str([]), 3)
  {
    LoneGreater(data, 0, 4);
  }

  /** The chunk loop over a read that fits in one chunk: the regular
      expression either matches the whole read, less a final LF, or fails. */
  lemma HexLoopOne(w: seq<bv8>)
    requires 0 < |w| <= Block
    ensures HexLoop(Split(w), 0, [], 0) ==
      if !AllIn(HexOrWhite, w) then None
      else if |w| >= 2 && w[|w| - 1] == Lf then Some((w[..|w| - 1], |w| - 1))
      else Some((w, |w|))
  {
    var chunks := Split(w);
    assert chunks == [w];
    match HexMatch(w)
    case None =>
    case Some(k) =>
      assert HexLoop(chunks, 1, [] + w[..k], k) == Some(([] + w[..k], k));
      assert [] + w[..k] == w[..k];
      assert w[..|w|] == w;
  }

  /** `$endpos` for a first `>` at g, more than one byte after the `<`. */
  lemma HexEndAt(data: seq<bv8>, s: nat, g: nat)
    requires s + 1 < g < |data| && data[g] == Greater
    requires forall i | s < i < g :: data[i] != Greater
    ensures HexEnd(data, s) == Some(g - s - 2)
  {
    HexEndFirst(data, s);
  }

  /** The hexadecimal branch for a first `>` at g reads the bytes from s + 1
      up to g - 1 and matches them chunk by chunk. */
  lemma HexStringRead(data: seq<bv8>, s: nat, g: nat)
    requires s + 1 < g < |data| && data[s] == Less && data[g] == Greater
    requires forall i | s < i < g :: data[i] != Greater
    ensures g == s + 2 ==> HexString(data, s) == Raw("<", Str([]), s + 1)
    ensures g > s + 2 ==> (HexString(data, s) ==
      match HexLoop(Split(data[s + 1..g - 1]), 0, [], 0)
      case Some((val, len)) => Raw("<", Str(val), s + 1 + len)
      case None => Raw("<", Str([]), g - 1))
  {
    HexEndAt(data, s, g);
    var endpos := g - s - 2;
    WindowPrefix(data, s + 1, endpos, endpos);
    assert Window(data, s + 1, endpos) == data[s + 1..g - 1];
  }

  /** The hexadecimal branch for a first `>` at g, on the bytes it reads. */
  lemma HexStringAt(data: seq<bv8>, s: nat, g: nat)
    requires s + 1 < g < |data| && g - s - 2 <= Block
    requires data[s] == Less && data[g] == Greater
    requires forall i | s < i < g :: data[i] != Greater
    ensures var w := data[s + 1..g - 1];
      HexString(data, s) ==
        if !AllIn(HexOrWhite, w) then Raw("<", Str([]), g - 1)
        else if |w| >= 2 && w[|w| - 1] == Lf then Raw("<", Str(w[..|w| - 1]), g - 2)
        else Raw("<", Str(w), g - 1)
  {
    HexStringRead(data, s, g);
    if g > s + 2 {
      HexLoopOne(data[s + 1..g - 1]);
    }
  }

  /** A hexadecimal string whose first `>` is at g, more than one byte after
      the `<` and within one block: the bytes read are those from s + 1 up to
      g - 1, one short of the `>`. When all are hexadecimal digits or
      white-space they are the value (white-space kept, a final LF dropped),
      otherwise the value is empty; the offset lands on the last byte before
      the `>`, or one earlier when a final LF was dropped. */
  lemma HexString1(data: seq<bv8>, s: nat, g: nat)
    requires s + 1 < g < |data| && g - s - 2 <= Block
    requires data[s] == Less && data[s + 1] != Less && data[g] == Greater
    requires forall i | s < i < g :: data[i] != Greater
    ensures var w := data[s + 1..g - 1];
      RawObjectAt(data, s) ==
        if !AllIn(HexOrWhite, w) then Raw("<", Str([]), g - 1)
        else if |w| >= 2 && w[|w| - 1] == Lf then Raw("<", Str(w[..|w| - 1]), g - 2)
        else Raw("<", Str(w), g - 1)
  {
    AtObjectStart(data, s);
    WindowAt(data, s, 2, 1);
    assert Angular(data, s) == HexString(data, s);
    HexStringAt(data, s, g);
  }
}
