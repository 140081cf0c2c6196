/** The scanner of src/Process/RawObject.php as the source has it: an object
    holding a PDF handle whose file cursor every routine moves with fseek and
    fread, and one method per PHP routine, loop for loop. Each method is proved
    to return what the function of module RawSpec of the same routine computes. */
module RawObject {
  import opened Bytes
  import opened RawSpec

  class Scanner {
    /** The content of the PDF handle `$this->pdf`. */
    const data: seq<bv8>
    /** The handle's file cursor. */
    var pos: nat

    constructor (data: seq<bv8>)
      ensures this.data == data && pos == 0
    {
      this.data := data;
      pos := 0;
    }

    /** fseek($this->pdf, o). */
    method Seek(o: nat)
      modifies this`pos
      ensures pos == o
    {
      pos := o;
    }

    /** fread($this->pdf, n): up to n bytes at the cursor, which moves past them. */
    method Read(n: nat) returns (block: seq<bv8>)
      modifies this`pos
      ensures block == Window(data, old(pos), n)
      ensures pos == old(pos) + |block|
    {
      block := Window(data, pos, n);
      pos := pos + |block|;
    }

    /** getRawObject: type, raw value and offset of the next object for the object at offset. */
    method GetRawObject(offset: nat) returns (r: Raw)
      modifies this`pos
      decreases Budget(data, offset), 4
      ensures r == RawObjectAt(data, offset)
    {
      var o, block, b := SkipWhiteSpace(offset);
      r := ScanAfterWhite(b, o, block);
    }

    /** getRawObject after its white-space loop stopped at o, in the block at b:
        a comment sends the scan on from the line end that closes it. */
    method ScanAfterWhite(ghost b: nat, o: nat, block: seq<bv8>) returns (r: Raw)
      requires b <= o < b + Block
      requires block == Window(data, o, b + 2 * Block - o) && (b <= |data| ==> pos == Min(b + 2 * Block, |data|))
      requires |block| > 0 <==> o < |data|
      requires |block| > 0 ==> block[0] == data[o]
      modifies this`pos
      decreases Budget(data, o), 3
      ensures r == AfterWhite(data, b, o)
    {
      if |block| > 0 && block[0] == Percent {
        // skip the comment and scan from the line end that closes it
        var next := SkipComment(b, o, block);
        if next > 0 {
          r := GetRawObject(o + next);
          return;
        }
      }
      r := DispatchObject(o, block);
    }

    /** The dispatch of getRawObject on the first byte of block, the bytes at o:
        the method map, then processDefaultName and processDefault. */
    method DispatchObject(o: nat, block: seq<bv8>) returns (r: Raw)
      requires |block| > 0 ==> o < |data| && block[0] == data[o]
      requires |block| == 0 ==> |data| <= o
      modifies this`pos
      decreases Budget(data, o), 2
      ensures r == Dispatch(data, o)
    {
      if |block| > 0 && block[0] == Solidus {
        r := ProcessSolidus(block[0], o);
      } else if |block| > 0 && (block[0] == LParen || block[0] == RParen) {
        r := ProcessParenthesis(block[0], o);
      } else if |block| > 0 && (block[0] == LBracket || block[0] == RBracket) {
        r := ProcessBracket(block[0], o);
      } else if |block| > 0 && (block[0] == Less || block[0] == Greater) {
        r := ProcessAngular(block[0], o);
      } else {
        var found;
        found, r := ProcessDefaultName(o);
        if !found {
          r := ProcessDefault(o);
        }
      }
    }

    /** The white-space handling of getRawObject: o is the offset of the first
        byte that is not white-space, block the bytes from o to the end of the
        block after the one at b, where the white-space loop stopped. */
    method SkipWhiteSpace(offset: nat) returns (o: nat, block: seq<bv8>, ghost b: nat)
      modifies this`pos
      ensures b == SkipBlocks(data, offset) && o == WhiteEnd(data, offset)
      ensures b <= o < b + Block
      ensures block == Window(data, o, b + 2 * Block - o)
      ensures b <= |data| ==> pos == Min(b + 2 * Block, |data|)
      ensures |block| > 0 <==> o < |data|
      ensures |block| > 0 ==> block[0] == data[o]
    {
      var start, first := SkipWhiteBlocks(offset);
      b := start;
      var length := Span(first, White);
      o := start + length;
      var more := Read(Block);
      block := first[length..] + more;
      WindowJoin(data, start, Block, length, Block, first, more, o, b + 2 * Block - o);
      WindowHead(data, o, b + 2 * Block - o);
      if start <= |data| {
        ReadTwice(data, start, Block, Block);
      }
    }

    /** The white-space loop of getRawObject: block is the first block, read at b,
        that is not white-space only. */
    method SkipWhiteBlocks(offset: nat) returns (b: nat, block: seq<bv8>)
      modifies this`pos
      ensures b == SkipBlocks(data, offset) && b + Span(block, White) == WhiteEnd(data, offset)
      ensures block == Window(data, b, Block) && pos == b + |block|
    {
      b := offset;
      Seek(b);
      block := Read(Block);
      var length := Span(block, White);
      while length == Block
        invariant SkipBlocks(data, b) == SkipBlocks(data, offset)
        invariant WhiteEnd(data, b) == WhiteEnd(data, offset)
        invariant block == Window(data, b, Block) && pos == b + |block|
        invariant length == Span(block, White)
        decreases Budget(data, b)
      {
        b := b + Block;
        block := Read(Block);
        length := Span(block, White);
      }
    }

    /** The comment loop of getRawObject for the `%` at s: `$next`, the length of the comment. */
    method SkipComment(ghost b: nat, s: nat, block: seq<bv8>) returns (next: nat)
      requires b <= s < b + Block && s < |data| && data[s] == Percent
      requires block == Window(data, s, b + 2 * Block - s) && pos == Min(b + 2 * Block, |data|)
      modifies this`pos
      ensures next == CommentLength(data, b, s)
    {
      next := 0;
      var blk := block;
      var length := CSpan(blk, Eol);
      while length == Block
        invariant next + (if length == Block then Block + CommentBlocks(data, pos) else length)
                  == CommentLength(data, b, s)
        decreases if length == Block then Budget(data, pos) + 1 else 0
      {
        next := next + Block;
        blk := Read(Block);
        length := CSpan(blk, Eol);
      }
      next := next + length;
    }

    /** processSolidus: the name after the `/` at offset. */
    method ProcessSolidus(c: bv8, offset: nat) returns (r: Raw)
      requires offset < |data| && data[offset] == c == Solidus
      modifies this`pos
      ensures r == Name(data, offset)
    {
      var o := offset + 1;
      Seek(o);
      var block := Read(256);
      var val: seq<bv8> := [];
      var n := Span(block, NameChar);
      if n > 0 {
        val := block[..n];
        o := o + n;
      }
      r := Raw("/", Str(val), o);
    }

    /** processParenthesis: a literal string for `(` at offset, a lone `)` otherwise. */
    method ProcessParenthesis(c: bv8, offset: nat) returns (r: Raw)
      requires offset < |data| && data[offset] == c && (c == LParen || c == RParen)
      modifies this`pos
      ensures r == Parenthesis(data, offset)
    {
      var typ := if c == LParen then "(" else ")";
      var o := offset + 1;
      var val: seq<bv8> := [];
      if c == LParen {
        var len;
        val, len := ReadLiteral(o);
        o := o + len;
      }
      r := Raw(typ, Str(val), o);
    }

    /** The depth-counting loop of processParenthesis over the blocks from o
        on: the bytes up to the `)` that closes the string, escapes kept, or
        every byte to the end of data, and the number of bytes consumed. */
    method ReadLiteral(o: nat) returns (val: seq<bv8>, len: nat)
      modifies this`pos
      ensures (val, len) == ParenLoop(data, [], Window(data, o, Block), 0, 0, 1, o + |Window(data, o, Block)|)
    {
      var strpos: nat := 0;
      var totpos: nat := 0;
      var newval: seq<bv8> := [];
      var depth: nat := 1;
      Seek(o);
      var block := Read(Block);
      ghost var want := ParenLoop(data, [], block, 0, 0, 1, pos);
      while depth > 0
        invariant strpos <= |block| + 1
        invariant depth > 0 ==> ParenLoop(data, newval, block, strpos, totpos, depth, pos) == want
        invariant depth == 0 ==> 1 <= strpos <= |block| &&
                                 (newval + block[..strpos - 1], totpos + strpos) == want
        decreases Budget(data, pos), |block| + 2 - strpos
      {
        if strpos >= |block| {
          newval := newval + block;
          block := Read(Block);
          totpos := totpos + strpos;
          strpos := 0;
          if |block| == 0 {
            assert (newval, totpos) == want;
            break;
          }
        }
        var chr := block[strpos];
        if chr == Backslash {
          strpos := strpos + 1;
        } else if chr == LParen {
          depth := depth + 1;
        } else if chr == RParen {
          depth := depth - 1;
        }
        strpos := strpos + 1;
      }
      // substr($block, 0, $strpos - 1) is empty when the loop stopped at the end of data
      val := if strpos >= 1 then newval + block[..strpos - 1] else newval;
      len := totpos + strpos;
    }

    /** processBracket: an array for `[` at offset, a lone `]` otherwise. */
    method ProcessBracket(c: bv8, offset: nat) returns (r: Raw)
      requires offset < |data| && data[offset] == c && (c == LBracket || c == RBracket)
      modifies this`pos
      decreases Budget(data, offset), 1
      ensures r == Bracket(data, offset)
    {
      var o := offset + 1;
      if c == LBracket {
        var items: seq<Raw>;
        items, o := CollectItems(offset, o, "]");
        r := Raw("[", Arr(items), o);
      } else {
        r := Raw("]", Str([]), o);
      }
    }

    /** The do-while loop shared by processBracket and processAngular, then
        array_pop: the children from o on, up to a `closer` or an empty type. */
    method CollectItems(ghost opener: nat, o: nat, closer: string) returns (items: seq<Raw>, next: nat)
      requires opener < o && opener < |data|
      modifies this`pos
      decreases Budget(data, opener), 0
      ensures (items, next) == (Pop(Collect(data, o, closer, []).0), Collect(data, o, closer, []).1)
    {
      next := o;
      items := [];
      ghost var want := Collect(data, o, closer, []);
      while true
        invariant opener < next
        invariant Collect(data, next, closer, items) == want
        decreases Budget(data, next)
      {
        var element := GetRawObject(next);
        if element.typ == "" {
          break;
        }
        next := element.off;
        items := items + [element];
        if element.typ == closer {
          break;
        }
      }
      if |items| > 0 {
        items := items[..|items| - 1];
      }
    }

    /** processAngular: a dictionary for `<<`, a lone `>>`, or a hexadecimal string. */
    method ProcessAngular(c: bv8, offset: nat) returns (r: Raw)
      requires offset < |data| && data[offset] == c && (c == Less || c == Greater)
      modifies this`pos
      decreases Budget(data, offset), 1
      ensures r == Angular(data, offset)
    {
      Seek(offset);
      var block := Read(2);
      if |block| > 1 && block[1] == c {
        var o := offset + 2;
        if c == Less {
          var items: seq<Raw>;
          items, o := CollectItems(offset, o, ">>");
          r := Raw("<<", Arr(items), o);
        } else {
          r := Raw(">>", Str([]), o);
        }
      } else {
        r := ProcessHexString(c, offset, block);
      }
    }

    /** The hexadecimal-string branch of processAngular, after the 2-byte peek `block`. */
    method ProcessHexString(c: bv8, offset: nat, block: seq<bv8>) returns (r: Raw)
      requires offset < |data| && data[offset] == c && (c == Less || c == Greater)
      requires block == Window(data, offset, 2) && pos == offset + |block|
      requires !(|block| > 1 && block[1] == c)
      modifies this`pos
      ensures r == HexString(data, offset)
    {
      var typ := if c == Less then "<" else ">";
      var val: seq<bv8> := [];
      var o := offset + 1;
      var opening := false;
      var endpos := FindHexEnd(offset, block);
      if c == Less && endpos.Some? && endpos.value != 0 {
        Seek(o);
        var tagcontents := Read(endpos.value);
        var m := MatchHexChunks(Split(tagcontents));
        if m.Some? {
          val := m.value.0;
          o := o + m.value.1;
          opening := true;
        }
      }
      if !opening && endpos.Some? {
        o := o + endpos.value;
      }
      r := Raw(typ, Str(val), o);
    }

    /** The search loop of processAngular: `$endpos`, the offset of the first `>`
        after the 2-byte peek, counted from offset + 2, or None. */
    method FindHexEnd(offset: nat, block: seq<bv8>) returns (endpos: Option<nat>)
      requires block == Window(data, offset, 2) && pos == offset + |block|
      modifies this`pos
      ensures endpos == HexEnd(data, offset)
    {
      endpos := if |block| > 1 && block[1] == Greater then Some(1) else None;
      var offpos: nat := 0;
      ghost var want := HexEnd(data, offset);
      assert endpos.None? ==> HexSearch(data, pos, 0) == want;
      while endpos.None?
        invariant endpos.None? ==> HexSearch(data, pos, offpos) == want
        invariant endpos.Some? ==> Some(endpos.value + offpos) == want
        decreases if endpos.None? then Budget(data, pos) + 1 else 0
      {
        var blk := Read(Block);
        endpos := Find(blk, [Greater]);
        if endpos.None? {
          offpos := offpos + |blk|;
        }
        if |blk| < Block {
          break;
        }
      }
      if endpos.Some? {
        endpos := Some(endpos.value + offpos);
      }
    }

    /** The foreach loop of processAngular: each chunk must match the
        hexadecimal-string pattern; the value and the length matched. */
    method MatchHexChunks(chunks: seq<seq<bv8>>) returns (m: Option<(seq<bv8>, nat)>)
      ensures m == HexLoop(chunks, 0, [], 0)
    {
      var newval: seq<bv8> := [];
      var newset: nat := 0;
      var i: nat := 0;
      while i < |chunks|
        invariant i <= |chunks|
        invariant HexLoop(chunks, i, newval, newset) == HexLoop(chunks, 0, [], 0)
      {
        var k := HexMatch(chunks[i]);
        if k.None? {
          return None;
        }
        newval := newval + chunks[i][..k.value];
        newset := newset + k.value;
        i := i + 1;
      }
      m := Some((newval, newset));
    }

    /** processDefaultName: the keywords; found is false when none applies. */
    method ProcessDefaultName(offset: nat) returns (found: bool, r: Raw)
      modifies this`pos
      ensures found == DefaultName(data, offset).Some?
      ensures found ==> r == DefaultName(data, offset).value
    {
      found := false;
      r := Raw("", Str([]), offset);
      Seek(offset);
      var delimiter := Read(9);
      if OccursAt(delimiter, KwEndobj, 0) {
        r := Raw("endobj", Str([]), offset + 6);
        found := true;
      } else if OccursAt(delimiter, KwNull, 0) {
        r := Raw("null", Str(KwNull), offset + 4);
        found := true;
      } else if OccursAt(delimiter, KwTrue, 0) {
        r := Raw("boolean", Str(KwTrue), offset + 4);
        found := true;
      } else if OccursAt(delimiter, KwFalse, 0) {
        r := Raw("boolean", Str(KwFalse), offset + 5);
        found := true;
      } else if OccursAt(delimiter, KwStream, 0) {
        r := ProcessStream(offset);
        found := true;
      } else if delimiter == KwEndstream {
        r := Raw("endstream", Str([]), offset + 9);
        found := true;
      }
    }

    /** The stream branch of processDefaultName, for `stream` at offset. */
    method ProcessStream(offset: nat) returns (r: Raw)
      modifies this`pos
      ensures r == Stream(data, offset)
    {
      var o := offset + 6;
      Seek(o);
      var block := Read(Block);
      var startset: nat := 0;
      if |block| > 0 {
        if block[0] == Lf {
          startset := 1;
        } else if |block| > 1 && block[0] == Cr && block[1] == Lf {
          startset := 2;
        }
      }
      assert startset == StreamEol(block);
      if startset > 0 {
        r := ProcessStreamData(o, startset, block);
      } else {
        r := Raw("stream", Str([]), o);
      }
    }

    /** The stream branch of processDefaultName once the line end of length
        startset after `stream` was seen in the block read at o6. */
    method ProcessStreamData(o6: nat, startset: nat, block: seq<bv8>) returns (r: Raw)
      requires block == Window(data, o6, Block) && pos == o6 + |block|
      modifies this`pos
      ensures r == StreamData(data, o6, startset, block)
    {
      var o := o6 + startset;
      var val: seq<bv8> := [];
      var stopset, blk := FindEndstream(o6, block);
      if stopset.Some? {
        if stopset.value + 9 < |blk| && In(StreamWhite, blk[stopset.value + 9]) {
          Seek(o);
          val := Read(if stopset.value >= startset then stopset.value - startset else 0);
          o := o + 10;
        }
      }
      r := Raw("stream", Str(val), o);
    }

    /** The `endstream` search of the stream branch, from the block `first` read at o6. */
    method FindEndstream(ghost o6: nat, first: seq<bv8>) returns (stopset: Option<nat>, block: seq<bv8>)
      requires first == Window(data, o6, Block) && pos == o6 + |first|
      modifies this`pos
      ensures StreamStop(data, o6, first) == if stopset.Some? then Some((stopset.value, block)) else None
    {
      block := first;
      stopset := Find(block, KwEndstream);
      while stopset.None? && |block| == Block
        invariant stopset.None? ==> block == first && pos == o6 + |first|
        invariant stopset.Some? ==> StreamStop(data, o6, first) == Some((stopset.value, block))
        decreases if stopset.None? then 1 else 0
      {
        block := Read(Block);
        stopset := Find(block, KwEndstream);
        if stopset.None? {
          stopset := Some(Block);
        }
      }
    }

    /** processDefault: reference, object header or number at offset; type "" when none applies. */
    method ProcessDefault(offset: nat) returns (r: Raw)
      modifies this`pos
      ensures r == Default(data, offset)
    {
      r := Raw("", Str([]), offset);
      Seek(offset);
      var thirtythree := Read(33);
      var m := RefMatch(thirtythree, KwR);
      if m.Some? {
        r := Raw("objref", Str(RefValue(m.value.0, m.value.1)), offset + m.value.2);
        return;
      }
      m := RefMatch(thirtythree, KwObj);
      if m.Some? {
        r := Raw("obj", Str(RefValue(m.value.0, m.value.1)), offset + m.value.2);
        return;
      }
      r := ProcessNumber(offset, thirtythree);
    }

    /** The numeric branch of processDefault, after the 33-byte window was read. */
    method ProcessNumber(offset: nat, thirtythree: seq<bv8>) returns (r: Raw)
      requires thirtythree == Window(data, offset, 33) && pos == offset + |thirtythree|
      modifies this`pos
      ensures r == Number(data, offset)
    {
      r := Raw("", Str([]), offset);
      var numlen := Span(thirtythree, NumChar);
      if numlen > 0 {
        var newval := thirtythree[..numlen];
        if numlen == 33 {
          assert newval == thirtythree;
          var more := ReadNumberBlocks(offset + 33);
          newval := newval + more;
          numlen := numlen + |more|;
        }
        r := Raw("numeric", Str(newval), offset + numlen);
      }
    }

    /** The loop of the numeric branch that follows a run filling the whole
        33-byte window: the further `+-.0-9` bytes, read block by block from c. */
    method ReadNumberBlocks(c: nat) returns (newval: seq<bv8>)
      requires pos == c
      modifies this`pos
      ensures newval == NumBlocks(data, c)
    {
      newval := [];
      ghost var bstart: nat := c;
      var block := Read(Block);
      var length := Span(block, NumChar);
      while length == Block
        invariant block == Window(data, bstart, Block) && pos == bstart + |block|
        invariant length == Span(block, NumChar)
        invariant newval + NumBlocks(data, bstart) == NumBlocks(data, c)
        decreases Budget(data, bstart)
      {
        assert NumBlocks(data, bstart) == block + NumBlocks(data, bstart + Block);
        assert (newval + block) + NumBlocks(data, bstart + Block) == newval + NumBlocks(data, bstart);
        newval := newval + block;
        bstart := bstart + Block;
        block := Read(Block);
        length := Span(block, NumChar);
      }
      assert NumBlocks(data, bstart) == block[..length];
      if length > 0 {
        newval := newval + block[..length];
      }
    }
  }
}
