/** The scanner of src/Process/RawObject.php as pure functions over the document's
    bytes. Each function computes what the PHP routine of the same name returns,
    branch for branch, including its 1024-byte block arithmetic; the loops of the
    PHP code appear as recursive functions over the loop's own variables, so that
    the methods of module RawObject can be proved equal to them. The lemma files
    state what these results mean. */
module RawSpec {
  import opened Bytes

  /** A raw value: a PHP string of bytes, or the list of child triples of an array or dictionary. */
  datatype Value = Str(s: seq<bv8>) | Arr(items: seq<Raw>)

  /** The triple getRawObject returns: object type, raw value, offset of the next object. */
  datatype Raw = Raw(typ: string, val: Value, off: nat)

  /** The block size of every fread loop. */
  const Block: nat := 1024

  const Lf: bv8 := 0x0A
  const Cr: bv8 := 0x0D
  const Percent: bv8 := 0x25
  const LParen: bv8 := 0x28
  const RParen: bv8 := 0x29
  const Solidus: bv8 := 0x2F
  const Less: bv8 := 0x3C
  const Greater: bv8 := 0x3E
  const LBracket: bv8 := 0x5B
  const Backslash: bv8 := 0x5C
  const RBracket: bv8 := 0x5D
  const Underscore: bv8 := 0x5F

  const KwEndobj: seq<bv8> := [0x65, 0x6E, 0x64, 0x6F, 0x62, 0x6A]  // "endobj"
  const KwNull: seq<bv8> := [0x6E, 0x75, 0x6C, 0x6C]  // "null"
  const KwTrue: seq<bv8> := [0x74, 0x72, 0x75, 0x65]  // "true"
  const KwFalse: seq<bv8> := [0x66, 0x61, 0x6C, 0x73, 0x65]  // "false"
  const KwStream: seq<bv8> := [0x73, 0x74, 0x72, 0x65, 0x61, 0x6D]  // "stream"
  const KwEndstream: seq<bv8> := [0x65, 0x6E, 0x64, 0x73, 0x74, 0x72, 0x65, 0x61, 0x6D]  // "endstream"
  const KwR: seq<bv8> := [0x72]  // "r"
  const KwObj: seq<bv8> := [0x6F, 0x62, 0x6A]  // "obj"

  /** Bytes left to scan from o, plus one; the termination measure of the mutual recursion. */
  function Budget(data: seq<bv8>, o: nat): (n: nat) {
    if o <= |data| then |data| + 1 - o else 0
  }

  // ---------------------------------------------------------------- getRawObject

  /** The white-space loop of getRawObject: the offset of the last block read,
      after skipping every block made of white-space only. */
  function SkipBlocks(data: seq<bv8>, o: nat): (b: nat)
    decreases Budget(data, o)
    ensures o <= b && (b <= |data| || b == o)
    ensures Span(Window(data, b, Block), White) < Block
  {
    if Span(Window(data, o, Block), White) == Block then SkipBlocks(data, o + Block) else o
  }

  /** The offset getRawObject reaches after its white-space loop: the first
      byte of the block at SkipBlocks(data, o) that is not white-space. */
  function WhiteEnd(data: seq<bv8>, o: nat): (s: nat)
    decreases Budget(data, o)
    ensures SkipBlocks(data, o) <= s < SkipBlocks(data, o) + Block
    ensures |data| <= o ==> s == o
  {
    var l := Span(Window(data, o, Block), White);
    if l == Block then WhiteEnd(data, o + Block) else o + l
  }

  /** The comment loop of getRawObject once its first block is used up: the
      number of further bytes counted before a CR or LF. */
  function CommentBlocks(data: seq<bv8>, c: nat): (n: nat)
    decreases Budget(data, c)
    ensures n == 0 || c + n <= |data|
  {
    var l := CSpan(Window(data, c, Block), Eol);
    if l == Block then Block + CommentBlocks(data, c + Block) else l
  }

  /** The length of the comment that starts at s: `$next` in getRawObject, where b
      is the offset of the block in which the white-space loop stopped. */
  function CommentLength(data: seq<bv8>, b: nat, s: nat): (n: nat)
    requires b <= s < b + Block && s < |data| && data[s] == Percent
    ensures 0 < n && s + n <= |data|
  {
    var block := Window(data, s, b + 2 * Block - s);
    var l := CSpan(block, Eol);
    assert block[0] == Percent;
    if l == Block then Block + CommentBlocks(data, Min(b + 2 * Block, |data|)) else l
  }

  /** getRawObject(o): skip white-space, then comments, then dispatch on the first byte. */
  function RawObjectAt(data: seq<bv8>, o: nat): (r: Raw)
    decreases Budget(data, o), 4
    ensures o <= r.off
    ensures r.typ != "" ==> o < r.off
    ensures r.typ == "" ==> r.val == Str([])
    ensures |data| <= o ==> r == Raw("", Str([]), o)
  {
    AfterWhite(data, SkipBlocks(data, o), WhiteEnd(data, o))
  }

  /** getRawObject once the white-space loop stopped in the block at b, at the
      byte s: a `%` starts a comment, after which scanning starts over; any
      other byte goes to the method map. */
  function AfterWhite(data: seq<bv8>, b: nat, s: nat): (r: Raw)
    requires b <= s < b + Block
    decreases Budget(data, s), 3
    ensures s <= r.off
    ensures r.typ != "" ==> s < r.off
    ensures r.typ == "" ==> r.val == Str([])
    ensures |data| <= s ==> r == Raw("", Str([]), s)
  {
    if s < |data| && data[s] == Percent then RawObjectAt(data, s + CommentLength(data, b, s))
    else Dispatch(data, s)
  }

  /** The method map of getRawObject, with processDefaultName and processDefault as fallback. */
  function Dispatch(data: seq<bv8>, s: nat): (r: Raw)
    decreases Budget(data, s), 2
    ensures s <= r.off
    ensures r.typ != "" ==> s < r.off
    ensures r.typ == "" ==> r == Raw("", Str([]), s)
    ensures |data| <= s ==> r == Raw("", Str([]), s)
  {
    if s < |data| && data[s] == Solidus then Name(data, s)
    else if s < |data| && (data[s] == LParen || data[s] == RParen) then Parenthesis(data, s)
    else if s < |data| && (data[s] == LBracket || data[s] == RBracket) then Bracket(data, s)
    else if s < |data| && (data[s] == Less || data[s] == Greater) then Angular(data, s)
    else
      match DefaultName(data, s)
      case Some(r) => r
      case None => Default(data, s)
  }

  // ---------------------------------------------------------------- processSolidus

  /** processSolidus: a name is the run of regular bytes in the 256 bytes after the `/`. */
  function Name(data: seq<bv8>, s: nat): (r: Raw)
    ensures r.typ == "/" && s < r.off
  {
    var window := Window(data, s + 1, 256);
    var n := Span(window, NameChar);
    Raw("/", Str(window[..n]), s + 1 + n)
  }

  // ---------------------------------------------------------------- processParenthesis

  /** The while loop of processParenthesis over its variables $newval, $block,
      $strpos, $totpos, $open_bracket and the file cursor; the result is the
      value and the number of bytes the offset advances. */
  function ParenLoop(data: seq<bv8>, newval: seq<bv8>, block: seq<bv8>, strpos: nat,
                     totpos: nat, depth: nat, cursor: nat): (r: (seq<bv8>, nat))
    requires 0 < depth && strpos <= |block| + 1
    decreases Budget(data, cursor), |block| + 2 - strpos
  {
    if strpos >= |block| then
      var next := Window(data, cursor, Block);
      if next == [] then (newval + block, totpos + strpos)
      else ParenLoop(data, newval + block, next, 0, totpos + strpos, depth, cursor + |next|)
    else
      var c := block[strpos];
      var strpos' := if c == Backslash then strpos + 2 else strpos + 1;
      var depth' := if c == LParen then depth + 1 else if c == RParen then depth - 1 else depth;
      if depth' == 0 then (newval + block[..strpos' - 1], totpos + strpos')
      else ParenLoop(data, newval, block, strpos', totpos, depth', cursor)
  }

  /** processParenthesis: `)` stands alone; `(` opens a literal string. */
  function Parenthesis(data: seq<bv8>, s: nat): (r: Raw)
    requires s < |data| && (data[s] == LParen || data[s] == RParen)
    ensures s < r.off
  {
    if data[s] == RParen then Raw(")", Str([]), s + 1)
    else
      var block := Window(data, s + 1, Block);
      var (val, len) := ParenLoop(data, [], block, 0, 0, 1, s + 1 + |block|);
      Raw("(", Str(val), s + 1 + len)
  }

  // ---------------------------------------------------------------- processBracket / processAngular

  /** array_pop: drop the last element, if any. */
  function Pop(items: seq<Raw>): (r: seq<Raw>)
    ensures |items| > 0 ==> r + [items[|items| - 1]] == items
    ensures |items| == 0 ==> r == []
  {
    if items == [] then [] else items[..|items| - 1]
  }

  /** The do-while loop of processBracket and processAngular: collect child
      objects from p on until one of type `closer` or of empty type. */
  function Collect(data: seq<bv8>, p: nat, closer: string, acc: seq<Raw>): (r: (seq<Raw>, nat))
    decreases Budget(data, p), 5
    ensures p <= r.1
  {
    var e := RawObjectAt(data, p);
    if e.typ == "" then (acc, p)
    else if e.typ == closer then (acc + [e], e.off)
    else Collect(data, e.off, closer, acc + [e])
  }

  /** processBracket: `[` collects an array up to its `]`; `]` stands alone. */
  function Bracket(data: seq<bv8>, s: nat): (r: Raw)
    requires s < |data| && (data[s] == LBracket || data[s] == RBracket)
    decreases Budget(data, s), 1
    ensures s < r.off
  {
    if data[s] == RBracket then Raw("]", Str([]), s + 1)
    else
      var (items, off) := Collect(data, s + 1, "]", []);
      Raw("[", Arr(Pop(items)), off)
  }

  /** processAngular: `<<` collects a dictionary up to its `>>`, `>>` stands alone,
      a single `<` or `>` is a hexadecimal string. */
  function Angular(data: seq<bv8>, s: nat): (r: Raw)
    requires s < |data| && (data[s] == Less || data[s] == Greater)
    decreases Budget(data, s), 1
    ensures s < r.off
  {
    var c := data[s];
    var peek := Window(data, s, 2);
    if |peek| > 1 && peek[1] == c then
      if c == Less then
        var (items, off) := Collect(data, s + 2, ">>", []);
        Raw("<<", Arr(Pop(items)), off)
      else Raw(">>", Str([]), s + 2)
    else HexString(data, s)
  }

  /** The search loop of processAngular after the 2-byte peek: `$endpos` plus
      `$offpos`, counted from the offset the loop started reading at. */
  function HexSearch(data: seq<bv8>, cursor: nat, offpos: nat): (r: Option<nat>)
    decreases Budget(data, cursor)
  {
    var block := Window(data, cursor, Block);
    match Find(block, [Greater])
    case Some(i) => Some(i + offpos)
    case None => if |block| < Block then None else HexSearch(data, cursor + Block, offpos + |block|)
  }

  /** `$endpos` of processAngular for the byte at s. */
  function HexEnd(data: seq<bv8>, s: nat): (r: Option<nat>) {
    var peek := Window(data, s, 2);
    if |peek| > 1 && peek[1] == Greater then Some(1) else HexSearch(data, s + 2, 0)
  }

  /** str_split(s, 1024). */
  function Split(s: seq<bv8>): (chunks: seq<seq<bv8>>)
    decreases |s|
    ensures |chunks| > 0
    ensures forall i | 0 <= i < |chunks| :: 0 < |chunks[i]| <= Block || s == []
  {
    if |s| <= Block then [s] else [s[..Block]] + Split(s[Block..])
  }

  /** The hexadecimal-string regular expression on one chunk: the length of its
      match, or None when the chunk does not match. The lazy `+` stops before a
      final LF, since `$` also matches there. */
  function HexMatch(chunk: seq<bv8>): (r: Option<nat>)
    ensures r.Some? ==> 0 < r.value <= |chunk|
  {
    if chunk == [] || !AllIn(HexOrWhite, chunk) then None
    else if |chunk| >= 2 && chunk[|chunk| - 1] == Lf then Some(|chunk| - 1)
    else Some(|chunk|)
  }

  /** The foreach loop over the chunks from index i, given $newval and $newset so far. */
  function HexLoop(chunks: seq<seq<bv8>>, i: nat, newval: seq<bv8>, newset: nat): (r: Option<(seq<bv8>, nat)>)
    requires i <= |chunks|
    decreases |chunks| - i
  {
    if i == |chunks| then Some((newval, newset))
    else
      match HexMatch(chunks[i])
      case None => None
      case Some(k) => HexLoop(chunks, i + 1, newval + chunks[i][..k], newset + k)
  }

  /** The hexadecimal-string branch of processAngular for the byte at s. */
  function HexString(data: seq<bv8>, s: nat): (r: Raw)
    requires s < |data| && (data[s] == Less || data[s] == Greater)
    ensures s < r.off
  {
    var typ := if data[s] == Less then "<" else ">";
    var endpos := HexEnd(data, s);
    if data[s] == Less && endpos.Some? && endpos.value != 0 then
      match HexLoop(Split(Window(data, s + 1, endpos.value)), 0, [], 0)
      case Some((val, len)) => Raw(typ, Str(val), s + 1 + len)
      case None => Raw(typ, Str([]), s + 1 + endpos.value)
    else if endpos.Some? then Raw(typ, Str([]), s + 1 + endpos.value)
    else Raw(typ, Str([]), s + 1)
  }

  // ---------------------------------------------------------------- processDefaultName

  /** processDefaultName: the keywords, tested in order on a 9-byte window. */
  function DefaultName(data: seq<bv8>, s: nat): (r: Option<Raw>)
    ensures r.Some? ==> s < r.value.off && r.value.typ != ""
  {
    var d := Window(data, s, 9);
    if OccursAt(d, KwEndobj, 0) then Some(Raw("endobj", Str([]), s + 6))
    else if OccursAt(d, KwNull, 0) then Some(Raw("null", Str(KwNull), s + 4))
    else if OccursAt(d, KwTrue, 0) then Some(Raw("boolean", Str(KwTrue), s + 4))
    else if OccursAt(d, KwFalse, 0) then Some(Raw("boolean", Str(KwFalse), s + 5))
    else if OccursAt(d, KwStream, 0) then Some(Stream(data, s))
    else if d == KwEndstream then Some(Raw("endstream", Str([]), s + 9))
    else None
  }

  /** The `endstream` search of the stream branch: `$stopset` and the block it
      indexes. A miss in the second block turns `false + 1024` into 1024. */
  function StreamStop(data: seq<bv8>, o6: nat, block: seq<bv8>): (r: Option<(nat, seq<bv8>)>) {
    match Find(block, KwEndstream)
    case Some(i) => Some((i, block))
    case None =>
      if |block| == Block then
        var next := Window(data, o6 + Block, Block);
        match Find(next, KwEndstream)
        case Some(j) => Some((j, next))
        case None => Some((Block, next))
      else None
  }

  /** The length of the line end that must follow `stream`: 1 for LF, 2 for CR LF, else 0. */
  function StreamEol(block: seq<bv8>): (n: nat) {
    if |block| > 0 && block[0] == Lf then 1
    else if |block| > 1 && block[0] == Cr && block[1] == Lf then 2
    else 0
  }

  /** The stream branch of processDefaultName, for `stream` at s. */
  function Stream(data: seq<bv8>, s: nat): (r: Raw)
    ensures r.typ == "stream" && s + 6 <= r.off
  {
    var block := Window(data, s + 6, Block);
    var startset := StreamEol(block);
    if startset == 0 then Raw("stream", Str([]), s + 6)
    else StreamData(data, s + 6, startset, block)
  }

  /** The stream branch once the line end after `stream` was seen: block is
      the block read at o6, just after the keyword, and startset the length
      of the line end. */
  function StreamData(data: seq<bv8>, o6: nat, startset: nat, block: seq<bv8>): (r: Raw)
    ensures r.typ == "stream" && o6 + startset <= r.off
  {
    var begin := o6 + startset;
    match StreamStop(data, o6, block)
    case None => Raw("stream", Str([]), begin)
    case Some((stopset, blk)) =>
      if stopset + 9 < |blk| && In(StreamWhite, blk[stopset + 9]) then
        var len := if stopset >= startset then stopset - startset else 0;
        Raw("stream", Str(Window(data, begin, len)), begin + 10)
      else Raw("stream", Str([]), begin)
  }

  // ---------------------------------------------------------------- processDefault

  /** ASCII lower case, for the `i` flag of the reference patterns. */
  function Lower(b: bv8): (l: bv8) {
    if 0x41 <= b <= 0x5A then b + 0x20 else b
  }

  /** kw, in lower case, is at index p of s, ignoring the case of s. */
  predicate MatchesAt(s: seq<bv8>, p: nat, kw: seq<bv8>) {
    p + |kw| <= |s| && forall i {:trigger kw[i]} | 0 <= i < |kw| :: Lower(s[p + i]) == kw[i]
  }

  /** The pattern `^([0-9]+)[\s]+([0-9]+)[\s]+kw` (flags i, U) on t: the two
      numbers and the length of the match. Both digit groups and both space
      runs are forced to be maximal, since the byte after each is of another
      class; e1, e2, e3 and e4 are where the four runs end. */
  function RefMatch(t: seq<bv8>, kw: seq<bv8>): (r: Option<(nat, nat, nat)>)
    ensures r.Some? ==> |kw| < r.value.2 <= |t| && In(Digit, t[0])
  {
    var e1 := SpanFrom(t, Digit, 0);
    var e2 := SpanFrom(t, Space, e1);
    var e3 := SpanFrom(t, Digit, e2);
    var e4 := SpanFrom(t, Space, e3);
    if 0 < e1 < e2 < e3 < e4 && MatchesAt(t, e4, kw)
    then Some((DigitsValue(t[..e1]), DigitsValue(t[e2..e3]), e4 + |kw|))
    else None
  }

  /** The value of a reference or object header: intval(a) . '_' . intval(b). */
  function RefValue(a: nat, b: nat): (v: seq<bv8>) {
    Decimal(a) + [Underscore] + Decimal(b)
  }

  /** The extension loop of the numeric branch, from the block at c on. */
  function NumBlocks(data: seq<bv8>, c: nat): (ext: seq<bv8>)
    decreases Budget(data, c)
  {
    var block := Window(data, c, Block);
    var l := Span(block, NumChar);
    if l == Block then block + NumBlocks(data, c + Block) else block[..l]
  }

  /** processDefault: reference, object header or number in a 33-byte window;
      type "" when none applies. */
  function Default(data: seq<bv8>, s: nat): (r: Raw)
    ensures r.typ == "" ==> r == Raw("", Str([]), s)
    ensures r.typ != "" ==> s < r.off
  {
    var t := Window(data, s, 33);
    match RefMatch(t, KwR)
    case Some((a, b, len)) => Raw("objref", Str(RefValue(a, b)), s + len)
    case None =>
      match RefMatch(t, KwObj)
      case Some((a, b, len)) => Raw("obj", Str(RefValue(a, b)), s + len)
      case None => Number(data, s)
  }

  /** The numeric branch of processDefault: the run of `+-.0-9` bytes at s,
      followed block by block when it fills the 33-byte window. */
  function Number(data: seq<bv8>, s: nat): (r: Raw)
    ensures r.typ == "" ==> r == Raw("", Str([]), s)
    ensures r.typ != "" ==> s < r.off
  {
    var t := Window(data, s, 33);
    var n := Span(t, NumChar);
    if n == 0 then Raw("", Str([]), s)
    else if n < 33 then Raw("numeric", Str(t[..n]), s + n)
    else
      var ext := NumBlocks(data, s + 33);
      Raw("numeric", Str(t + ext), s + 33 + |ext|)
  }
}
