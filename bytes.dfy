/** Byte-level helpers: the PHP string built-ins the scanner relies on
    (fseek/fread on a byte sequence, strspn, strcspn, strpos, intval) and the
    fixed byte classes of the scanner's patterns. */
module Bytes {

  function Min(a: int, b: int): (m: int) { if a <= b then a else b }

  /** fseek(p) followed by fread(n): the bytes at p..p+n, cut short at the end of data. */
  function Window(data: seq<bv8>, p: nat, n: nat): (w: seq<bv8>)
    ensures |w| <= n
    ensures p <= |data| ==> |w| == Min(n, |data| - p)
    ensures p >= |data| ==> w == []
  {
    data[Min(p, |data|) .. Min(p + n, |data|)]
  }

  /** Two consecutive freads give the bytes of one longer read: the tail of the
      first block from k on, then the next block, is the window at p + k. */
  lemma WindowSplice(data: seq<bv8>, p: nat, n: nat, k: nat, m: nat)
    requires k <= |Window(data, p, n)|
    ensures Window(data, p, n)[k..] + Window(data, p + |Window(data, p, n)|, m)
            == Window(data, p + k, n - k + m)
  {
    var w := Window(data, p, n);
    var lhs := w[k..] + Window(data, p + |w|, m);
    var rhs := Window(data, p + k, n - k + m);
    assert |lhs| == |rhs|;
    forall i | 0 <= i < |lhs| ensures lhs[i] == rhs[i] {
      if i < |w| - k { assert lhs[i] == w[k + i]; }
    }
  }

  /** WindowSplice for the tail from k of a block `first` read at p, followed
      by the block `more` read after it: together they are the q..q+total window. */
  lemma WindowJoin(data: seq<bv8>, p: nat, n: nat, k: nat, m: nat, first: seq<bv8>, more: seq<bv8>, q: nat, total: nat)
    requires first == Window(data, p, n) && k <= |first|
    requires more == Window(data, p + |first|, m)
    requires q == p + k && total == n - k + m
    ensures first[k..] + more == Window(data, q, total)
  {
    WindowSplice(data, p, n, k, m);
  }

  /** Two consecutive freads of n and m bytes from p leave the cursor at p + n + m, or at the end of data. */
  lemma ReadTwice(data: seq<bv8>, p: nat, n: nat, m: nat)
    requires p <= |data|
    ensures var w := Window(data, p, n); p + |w| + |Window(data, p + |w|, m)| == Min(p + n + m, |data|)
  {
  }

  /** A non-empty read starts with the byte at the cursor, and is empty only at the end of data. */
  lemma WindowHead(data: seq<bv8>, p: nat, n: nat)
    requires 0 < n
    ensures |Window(data, p, n)| > 0 <==> p < |data|
    ensures p < |data| ==> Window(data, p, n)[0] == data[p]
  {
  }

  /** The i-th byte read from p is the byte at p + i. */
  lemma WindowAt(data: seq<bv8>, p: nat, n: nat, i: nat)
    requires i < |Window(data, p, n)|
    ensures p + i < |data| && Window(data, p, n)[i] == data[p + i]
  {
  }

  /** The first k bytes read from p are the bytes p..p+k of the data. */
  lemma WindowPrefix(data: seq<bv8>, p: nat, n: nat, k: nat)
    requires p <= |data| && k <= |Window(data, p, n)|
    ensures p + k <= |data| && Window(data, p, n)[..k] == data[p..p + k]
  {
    var w := Window(data, p, n);
    forall i | 0 <= i < k ensures w[..k][i] == data[p..p + k][i] {
      WindowAt(data, p, n, i);
    }
  }

  /** A read that reaches the end of data holds all the rest of it. */
  lemma WindowRest(data: seq<bv8>, p: nat, n: nat)
    requires p <= |data| && |data| - p <= n
    ensures Window(data, p, n) == data[p..]
  {
    var w := Window(data, p, n);
    WindowPrefix(data, p, n, |w|);
    assert w[..|w|] == w;
  }

  /** A pattern occurs in a block read at p exactly where it occurs in the data. */
  lemma WindowOccurs(data: seq<bv8>, p: nat, n: nat, pat: seq<bv8>, i: nat)
    requires p <= |data| && i + |pat| <= |Window(data, p, n)|
    ensures OccursAt(Window(data, p, n), pat, i) <==> OccursAt(data, pat, p + i)
  {
    var w := Window(data, p, n);
    forall j | i <= j < i + |pat| ensures w[j] == data[p + j] {
      WindowAt(data, p, n, j);
    }
    assert w[i..i + |pat|] == data[p + i..p + i + |pat|];
  }

  /** The fixed byte sets used by the scanner's strspn/strcspn calls and regular expressions. */
  datatype ByteClass =
    | White        // "\x00\x09\x0a\x0c\x0d\x20": PDF white-space
    | Eol          // "\r\n"
    | NameChar     // anything but white-space, \s and the delimiters ()<>[]{}/%
    | NumChar      // "+-.0123456789"
    | Digit        // [0-9]
    | Space        // PCRE \s: \x09-\x0d and \x20
    | HexOrWhite   // [0-9A-Fa-f\x09\x0a\x0c\x0d\x20]
    | StreamWhite  // [\x09\x0a\x0c\x0d\x20]

  predicate IsDelimiter(b: bv8) {
    b == 0x28 || b == 0x29 || b == 0x3C || b == 0x3E || b == 0x5B ||
    b == 0x5D || b == 0x7B || b == 0x7D || b == 0x2F || b == 0x25
  }

  predicate In(c: ByteClass, b: bv8) {
    match c
    case White => b == 0x00 || b == 0x09 || b == 0x0A || b == 0x0C || b == 0x0D || b == 0x20
    case Eol => b == 0x0D || b == 0x0A
    case NameChar => !(b == 0x00 || (0x09 <= b <= 0x0D) || b == 0x20 || IsDelimiter(b))
    case NumChar => b == 0x2B || b == 0x2D || b == 0x2E || 0x30 <= b <= 0x39
    case Digit => 0x30 <= b <= 0x39
    case Space => 0x09 <= b <= 0x0D || b == 0x20
    case HexOrWhite =>
      0x30 <= b <= 0x39 || 0x41 <= b <= 0x46 || 0x61 <= b <= 0x66 || b == 0x09 || b == 0x0A || b == 0x0C || b == 0x0D || b == 0x20
    case StreamWhite => b == 0x09 || b == 0x0A || b == 0x0C || b == 0x0D || b == 0x20
  }

  predicate AllIn(c: ByteClass, s: seq<bv8>) {
    forall i | 0 <= i < |s| :: In(c, s[i])
  }

  /** strspn: the length of the longest prefix of s made of bytes of class c. */
  function Span(s: seq<bv8>, c: ByteClass): (n: nat)
    ensures n <= |s|
    ensures n < |s| ==> !In(c, s[n])
  {
    SpanFrom(s, c, 0)
  }

  /** The scan behind Span, from index i on. */
  function SpanFrom(s: seq<bv8>, c: ByteClass, i: nat): (n: nat)
    requires i <= |s|
    decreases |s| - i
    ensures i <= n <= |s|
    ensures n < |s| ==> !In(c, s[n])
  {
    if i == |s| || !In(c, s[i]) then i else SpanFrom(s, c, i + 1)
  }

  /** Every byte of the prefix Span counts is of class c. */
  lemma SpanAll(s: seq<bv8>, c: ByteClass)
    ensures forall i | 0 <= i < Span(s, c) :: In(c, s[i])
  {
    SpanFromAll(s, c, 0);
  }

  lemma {:induction false} SpanFromAll(s: seq<bv8>, c: ByteClass, i: nat)
    requires i <= |s|
    decreases |s| - i
    ensures forall j | i <= j < SpanFrom(s, c, i) :: In(c, s[j])
  {
    if i < |s| && In(c, s[i]) {
      SpanFromAll(s, c, i + 1);
    }
  }

  /** Span is the length of the class-c prefix that the first byte of another class ends. */
  lemma SpanExact(s: seq<bv8>, c: ByteClass, k: nat)
    requires k <= |s| && AllIn(c, s[..k]) && (k == |s| || !In(c, s[k]))
    ensures Span(s, c) == k
  {
    SpanAll(s, c);
    forall i | 0 <= i < k ensures In(c, s[i]) {
      assert s[..k][i] == s[i];
    }
  }

  /** SpanFrom from i is the end of the class-c run that starts at i. */
  lemma {:induction false} SpanFromExact(s: seq<bv8>, c: ByteClass, i: nat, k: nat)
    requires i <= k <= |s| && (k == |s| || !In(c, s[k]))
    requires forall j | i <= j < k :: In(c, s[j])
    decreases k - i
    ensures SpanFrom(s, c, i) == k
  {
    if i < k {
      SpanFromExact(s, c, i + 1, k);
    }
  }

  /** strcspn: the length of the longest prefix of s free of bytes of class c. */
  function CSpan(s: seq<bv8>, c: ByteClass): (n: nat)
    ensures n <= |s|
    ensures n < |s| ==> In(c, s[n])
  {
    CSpanFrom(s, c, 0)
  }

  /** The scan behind CSpan, from index i on. */
  function CSpanFrom(s: seq<bv8>, c: ByteClass, i: nat): (n: nat)
    requires i <= |s|
    decreases |s| - i
    ensures i <= n <= |s|
    ensures n < |s| ==> In(c, s[n])
  {
    if i == |s| || In(c, s[i]) then i else CSpanFrom(s, c, i + 1)
  }

  /** No byte of the prefix CSpan counts is of class c. */
  lemma CSpanNone(s: seq<bv8>, c: ByteClass)
    ensures forall i | 0 <= i < CSpan(s, c) :: !In(c, s[i])
  {
    CSpanFromNone(s, c, 0);
  }

  lemma {:induction false} CSpanFromNone(s: seq<bv8>, c: ByteClass, i: nat)
    requires i <= |s|
    decreases |s| - i
    ensures forall j | i <= j < CSpanFrom(s, c, i) :: !In(c, s[j])
  {
    if i < |s| && !In(c, s[i]) {
      CSpanFromNone(s, c, i + 1);
    }
  }

  /** pat is at index i of s; at index 0 this is `substr(s, 0, |pat|) == pat`. */
  predicate OccursAt(s: seq<bv8>, pat: seq<bv8>, i: nat) {
    i + |pat| <= |s| && s[i..i + |pat|] == pat
  }

  /** strpos(s, pat, k): the first index at or after k where pat occurs in s. */
  function FindFrom(s: seq<bv8>, pat: seq<bv8>, k: nat): (r: Option<nat>)
    requires |pat| > 0
    decreases |s| - k
    ensures r.Some? ==> k <= r.value && OccursAt(s, pat, r.value)
    ensures forall i | k <= i && (r.None? || i < r.value) :: !OccursAt(s, pat, i)
  {
    if k + |pat| > |s| then None
    else if s[k..k + |pat|] == pat then Some(k)
    else FindFrom(s, pat, k + 1)
  }

  function Find(s: seq<bv8>, pat: seq<bv8>): (r: Option<nat>)
    requires |pat| > 0
    ensures r.Some? ==> OccursAt(s, pat, r.value)
    ensures forall i: nat | r.None? || i < r.value :: !OccursAt(s, pat, i)
  {
    FindFrom(s, pat, 0)
  }

  datatype Option<+T> = None | Some(value: T)

  /** The weight of a decimal digit byte. */
  function DigitValue(b: bv8): (v: nat) {
    if 0x30 <= b <= 0x39 then (b - 0x30) as nat else 0
  }

  /** intval of a run of decimal digits: leading zeros carry no weight. */
  function DigitsValue(ds: seq<bv8>): (v: nat) {
    if ds == [] then 0
    else 10 * DigitsValue(ds[..|ds| - 1]) + DigitValue(ds[|ds| - 1])
  }

  const DigitBytes: seq<bv8> := [0x30, 0x31, 0x32, 0x33, 0x34, 0x35, 0x36, 0x37, 0x38, 0x39]

  /** The decimal text PHP prints for a non-negative integer. */
  function Decimal(n: nat): (ds: seq<bv8>)
    ensures 0 < |ds| && AllIn(Digit, ds)
    ensures |ds| > 1 ==> ds[0] != 0x30
  {
    if n < 10 then [DigitBytes[n]] else Decimal(n / 10) + [DigitBytes[n % 10]]
  }

  /** The digit byte for d stands for d. */
  lemma DigitByteValue(d: nat)
    requires d < 10
    ensures DigitValue(DigitBytes[d]) == d
  {
  }

  /** Printing an integer and reading it back gives the integer. */
  lemma {:induction false} DecimalValue(n: nat)
    ensures DigitsValue(Decimal(n)) == n
  {
    var ds := Decimal(n);
    DigitByteValue(n % 10);
    if n >= 10 {
      assert ds == Decimal(n / 10) + [DigitBytes[n % 10]];
      assert ds[..|ds| - 1] == Decimal(n / 10);
      DecimalValue(n / 10);
      assert DigitsValue(ds) == 10 * (n / 10) + n % 10;
    } else {
      assert ds[..0] == [];
    }
  }
}
