# RawObject scanner of tc-lib-pdf-parser, in Dafny

This project models `getRawObject` of `src/Process/RawObject.php` and its helper routines. `getRawObject` is the tokenizer of a PDF parser. Given a byte offset into the PDF file, it skips white-space and comments. It then classifies the first significant byte and returns a triple: the object type, the raw value, and the offset at which the next object starts. Arrays (`[ ]`) and dictionaries (`<< >>`) are read by calling `getRawObject` again for each child.

The file is a sequence of bytes, `data`. Every `fseek` followed by `fread($n)` is `Bytes.Window(data, p, n)`: the bytes from `p`, at most `n` of them, cut short at the end of data. The model has three layers.

- `rawobject.dfy`, module `RawObject`, is the routine as the source writes it.
  - Class `Scanner` holds the PDF handle: a constant `data` and a mutable file cursor `pos`.
  - There is one method per PHP routine, and one helper method per loop. Each method reads the data in 1024-byte blocks exactly as the PHP code does.
  - Every method is proved to return what the function of the same routine in `RawSpec` computes.
- `rawspec.dfy`, module `RawSpec`, holds the same routines as pure functions of `data` and the offset.
  - `RawSpec.RawObjectAt(data, o)` is `getRawObject(o)`.
  - Each PHP loop is a recursive function over the loop's own variables.
- The `lemmas_*.dfy` files state what those results mean in terms of the bytes of the document. They cover:
  - which bytes white-space skipping and comment skipping pass over;
  - that a name is the longest run of regular bytes;
  - the value of a literal string;
  - the offset arithmetic of hexadecimal strings;
  - that the children of an array or dictionary are the objects read one after another;
  - the keywords and their order;
  - the bounds of a stream's data;
  - references, object headers and numbers.

The model follows the code where it behaves unexpectedly. Most of these cases are stated as lemmas; the stream cases that involve the block boundary are modelled in `RawSpec.StreamStop` and `RawSpec.StreamData` without a lemma:

- **Hexadecimal strings.** The search for the closing `>` counts `$endpos` from the end of a 2-byte peek. The bytes are then read from one byte after the `<`. As a result:
  - `<AB>` gives the value `A`;
  - the next offset lands on the last byte before the `>`, not after it;
  - `<>` is two bytes long;
  - `<X>` reads nothing.

  See `StringLemmas.HexString1` and `StringLemmas.EmptyHexString`.
- **A lone `>`.** A `>` that is not followed by another `>` takes the same branch, with type `>` and an empty value. Its offset lands on the byte before the next `>` in the data: `>abc>` gives type `>`, an empty value and next offset 3. With no `>` after it, it is one byte long (`StringLemmas.LoneGreater`, `StringLemmas.UnclosedGreater`, `StringLemmas.LoneGreaterExample`).
- **The hexadecimal pattern.** The pattern is `/^([0-9A-Fa-f\x09\x0a\x0c\x0d\x20]+)$/iU`: the `+` is inside the group and the `U` flag makes it lazy. Since `$` also matches before a final LF, a chunk that ends in LF matches without that LF, which is dropped from both the value and the offset. The `strtr` call with an empty replacement leaves the white-space in the value.
- **Streams.** The data of a stream is accepted only when the byte after `endstream` is a tab, LF, FF, CR or space. NUL, which the white-space skip in front of an object accepts, is not in this set. The byte is taken from the block in which `endstream` was found, so:
  - a stream whose `endstream` ends the data is refused: its value is empty;
  - a stream whose `endstream` ends exactly at the last byte of its 1024-byte block is refused too, whatever byte follows in the data, since the byte after it is not in that block;
  - an `endstream` that straddles the boundary between the first and second block after `stream` is found in neither block.
  - When accepted, the next offset is ten bytes after the line end that follows `stream`, not ten bytes after `endstream`.
  - When the `endstream` search misses in the second block, `false + 1024` ends the search with position 1024, and the data are then refused, since that block holds no byte at index 1033.
  - When `endstream` is found in the second block, at index j of that block, j is used as if it were an index into the first block, which starts at the byte after `stream`. The data read is `j - startset` bytes from the line end, so it is cut short by 1024 bytes. When j equals the line end's length (index 1 after LF, index 2 after CR LF), the length passed to `fread` is 0. When j is smaller (index 0, or index 1 after CR LF), the length is negative. The model reads the empty string in both cases (`RawSpec.StreamData`).
- **Arrays and dictionaries cut short by the end of data.** The loop stops on the empty object. `array_pop` then removes the last real child instead of a closer (`ContainerLemmas.Contents`).
- **Failed hexadecimal strings.** A string `<` ... `>` whose first `>` is at g > s + 1, and whose bytes do not match the pattern, advances to the byte before its `>`, g - 1. (`<>` is the exception: the byte read is the `>` itself, the match fails, and the offset is s + 2, past the `>`.)

## Model

| member | source | states |
|---|---|---|
| RawObject.Scanner.GetRawObject | src/Process/RawObject.php:42-99 | the triple returned for the object at offset is `RawSpec.RawObjectAt(data, offset)`, whose meaning the lemmas below state |
| RawObject.Scanner.SkipWhiteSpace | src/Process/RawObject.php:53-63 | the white-space loop stops at `WhiteEnd(data, offset)`, the first byte that is not white-space; the block it continues with holds the bytes from there to the end of the block after the last one read, and the cursor is left after that block |
| RawObject.Scanner.SkipWhiteBlocks | src/Process/RawObject.php:53-60 | the loop skips exactly the all-white 1024-byte blocks (`SkipBlocks`), and the span of the last block read ends at `WhiteEnd` |
| RawObject.Scanner.ScanAfterWhite | src/Process/RawObject.php:65-97 | after the white-space loop, a `%` restarts the scan after the comment, and any other byte goes to the method map; equal to `RawSpec.AfterWhite` |
| RawObject.Scanner.SkipComment | src/Process/RawObject.php:69-75 | `$next` is `RawSpec.CommentLength(data, b, s)`, the distance from the `%` to its line end |
| RawObject.Scanner.DispatchObject | src/Process/RawObject.php:81-97 | the method map on the first byte, then processDefaultName and processDefault; equal to `RawSpec.Dispatch` |
| RawObject.Scanner.ProcessSolidus | src/Process/RawObject.php:110-125 | the name read at `/` is `RawSpec.Name` |
| RawObject.Scanner.ProcessParenthesis | src/Process/RawObject.php:136-182 | the literal string at `(`, or the lone `)`, is `RawSpec.Parenthesis` |
| RawObject.Scanner.ReadLiteral | src/Process/RawObject.php:143-180 | the depth-counting loop over 1024-byte blocks computes the value and length of `RawSpec.ParenLoop` |
| RawObject.Scanner.ProcessBracket | src/Process/RawObject.php:193-216 | the array at `[`, or the lone `]`, is `RawSpec.Bracket` |
| RawObject.Scanner.CollectItems | src/Process/RawObject.php:198-215 | the do-while loop followed by `array_pop` gives `Pop` of `RawSpec.Collect` and the offset where collecting stopped |
| RawObject.Scanner.ProcessAngular | src/Process/RawObject.php:226-324 | dictionary, lone `>>` or hexadecimal string at `<` or `>`: `RawSpec.Angular` |
| RawObject.Scanner.ProcessHexString | src/Process/RawObject.php:255-323 | the hexadecimal-string branch is `RawSpec.HexString` |
| RawObject.Scanner.FindHexEnd | src/Process/RawObject.php:260-284 | `$endpos` after the search loop is `RawSpec.HexEnd`, whose meaning `StringLemmas.HexEndFirst` states |
| RawObject.Scanner.MatchHexChunks | src/Process/RawObject.php:294-317 | the foreach loop over the 1024-byte chunks gives `RawSpec.HexLoop` |
| RawObject.Scanner.ProcessDefaultName | src/Process/RawObject.php:335-427 | the status is true exactly when a keyword applies, and the triple is then `RawSpec.DefaultName`'s |
| RawObject.Scanner.ProcessStream | src/Process/RawObject.php:364-419 | the stream branch is `RawSpec.Stream` |
| RawObject.Scanner.ProcessStreamData | src/Process/RawObject.php:389-416 | after the line end, the stream data and offset are `RawSpec.StreamData` |
| RawObject.Scanner.FindEndstream | src/Process/RawObject.php:391-403 | `$stopset` and the block it indexes are `RawSpec.StreamStop` |
| RawObject.Scanner.ProcessDefault | src/Process/RawObject.php:436-487 | reference, object header or number: `RawSpec.Default` |
| RawObject.Scanner.ProcessNumber | src/Process/RawObject.php:458-485 | the numeric branch is `RawSpec.Number` |
| RawObject.Scanner.ReadNumberBlocks | src/Process/RawObject.php:466-478 | the extension loop over further blocks gives `RawSpec.NumBlocks` |
| RawSpec.RawObjectAt | src/Process/RawObject.php:42-99 | the next offset is never before the offset given; it is strictly after it whenever an object is found; an empty type has an empty value; at or past the end of data nothing is found and the offset stays |
| RawSpec.Collect | src/Process/RawObject.php:201-212 | collecting never moves the offset backwards |
| RawSpec.Pop | src/Process/RawObject.php:214 | `array_pop` leaves everything but the last element, which it removes |
| RawSpec.HexMatch | src/Process/RawObject.php:296-308 | a chunk matches only when it is not empty, and the match length is at most the chunk's length |
| RawSpec.DefaultName | src/Process/RawObject.php:335-427 | a keyword, when found, always has a type and moves the offset forward |
| Bytes.Window | src/Process/RawObject.php:53-54 | `fseek` then `fread(n)`: at most n bytes, exactly n when that many are left, the rest of data otherwise, none past the end |
| Bytes.Span | src/Process/RawObject.php:56 | `strspn`: a length within the string, at which a byte outside the class stands unless the string ends there |
| Bytes.SpanAll | src/Process/RawObject.php:56 | every byte before the length `strspn` returns is in the class |
| Bytes.CSpan | src/Process/RawObject.php:70 | `strcspn`: a length within the string, at which a byte of the class stands unless the string ends there |
| Bytes.CSpanNone | src/Process/RawObject.php:70 | no byte before the length `strcspn` returns is in the class |
| Bytes.Find | src/Process/RawObject.php:391 | `strpos`: the pattern occurs at the index found and at no index before it; `false` when it occurs nowhere |
| RawSpec.RefMatch | src/Process/RawObject.php:440-453 | a match starts with a digit and is longer than the keyword, within the bytes given |
| Bytes.DecimalValue | src/Process/RawObject.php:448 | printing an integer in decimal and reading the digits back with intval gives the integer back |
| ScanLemmas.WhiteEndFirst | src/Process/RawObject.php:53-62 | the white-space loop stops at the first byte from the offset on that is not white-space, or at the end of data, however many whole blocks it skips |
| ScanLemmas.WhiteEndIs | src/Process/RawObject.php:53-62 | conversely, the first byte that is not white-space is where the loop stops |
| ScanLemmas.WhiteSkipped | src/Process/RawObject.php:53-97 | white-space in front of an object is transparent: reading from before it or at the object's first byte gives the same triple |
| ScanLemmas.OnlyWhiteLeft | src/Process/RawObject.php:53-98 | only white-space up to the end of data: nothing is found and the offset returned is the end of data |
| ScanLemmas.CommentLengthIs | src/Process/RawObject.php:69-75 | `$next` of a comment that ends within one block is the distance from `%` to the CR or LF |
| ScanLemmas.CommentSkipped | src/Process/RawObject.php:67-79 | a comment is skipped: scanning resumes at its line end |
| ScanLemmas.CommentTransparent | src/Process/RawObject.php:53-97 | white-space, a comment and white-space in front of an object leave the object's type, value and next offset unchanged |
| StringLemmas.NameRoundTrip | src/Process/RawObject.php:110-125 | `/` plus the value are exactly the bytes consumed; the value has at most 256 regular bytes and is the longest such run; a delimiter right after `/` gives the empty name |
| StringLemmas.ParenBalanced | src/Process/RawObject.php:149-179 | over balanced bytes (every unescaped `(` closed by a later `)`, as grammar `Balanced` defines), the depth-counting loop returns to the depth it started at without ending the string |
| StringLemmas.ParenNested | src/Process/RawObject.php:168-175 | a nested `(` ... `)` takes the loop one level deeper and back |
| StringLemmas.ParenClosing | src/Process/RawObject.php:149-179 | over balanced bytes followed by `)`, the loop ends at that `)` and returns everything before it, nested parentheses and escapes kept |
| StringLemmas.ParenOpenEnd | src/Process/RawObject.php:149-180 | over bytes in which no prefix closes the string (grammar `Open`), the loop keeps every byte up to the end of data |
| StringLemmas.LiteralString | src/Process/RawObject.php:136-181 | a literal string closed within its first block by the `)` that brings the depth back to 0 has as value the raw bytes between the outer parentheses, and the next object starts after that `)` |
| StringLemmas.NestedExample | src/Process/RawObject.php:136-181 | `(a(b)c)` is the literal string `a(b)c`, and the next offset is 7 |
| StringLemmas.LiteralUnterminated | src/Process/RawObject.php:149-180 | a literal string whose depth never returns to 0 before the end of data keeps every byte after the `(` and returns the end of data as offset |
| StringLemmas.LoneParenthesis | src/Process/RawObject.php:136-139 | a `)` outside a string is an object of its own, one byte long |
| StringLemmas.HexSearchFirst | src/Process/RawObject.php:265-284 | the search loop finds the first `>`, counting across blocks, or reports that there is none |
| StringLemmas.HexEndFirst | src/Process/RawObject.php:229-284 | `$endpos` is 1 for `>` right after the opening byte; otherwise, for the first `>` at g, it is g - s - 2, because it is counted from the end of the peek |
| StringLemmas.EmptyHexString | src/Process/RawObject.php:255-322 | `<>` is an empty hexadecimal string, and the next offset is two bytes on |
| StringLemmas.UnclosedHexString | src/Process/RawObject.php:255-322 | a `<` with no `>` after it gives an empty string one byte long |
| StringLemmas.LoneGreater | src/Process/RawObject.php:226-323 | a `>` not followed by `>`, with the next `>` at g, is an empty object of type `>` whose next offset is g - 1 |
| StringLemmas.UnclosedGreater | src/Process/RawObject.php:226-323 | a `>` with no `>` after it is an empty object of type `>`, one byte long |
| StringLemmas.LoneGreaterExample | src/Process/RawObject.php:226-323 | `>abc>` gives type `>`, an empty value and next offset 3 |
| StringLemmas.HexLoopOne | src/Process/RawObject.php:294-309 | on one chunk, the pattern matches the whole chunk less a final LF, or fails on any byte that is not a hexadecimal digit or white-space |
| StringLemmas.HexString1 | src/Process/RawObject.php:226-323 | for a first `>` at g, the bytes read are s + 1 to g - 1. When all of them are hexadecimal digits or white-space they are the value, white-space kept and a final LF dropped; otherwise the value is empty. The offset lands before the `>` |
| ContainerLemmas.CollectChain | src/Process/RawObject.php:201-212 | the loop collects a chain: each child is the object read at the offset the previous one returned, and collecting stops at the closer or at the first empty object |
| ContainerLemmas.CollectPopped | src/Process/RawObject.php:201-214 | after `array_pop`, the children satisfy `Contents`. Either the next object is the closer and its offset is returned, or data ends after one more real child, which is dropped |
| ContainerLemmas.ArrayContents | src/Process/RawObject.php:193-215 | `[` reads an array whose children satisfy `Contents` from the next byte up to `]` |
| ContainerLemmas.DictionaryContents | src/Process/RawObject.php:231-254 | `<<` reads a dictionary whose children satisfy `Contents` from after the `<<` up to `>>` |
| ContainerLemmas.LoneClosers | src/Process/RawObject.php:193-234 | `]` and `>>` outside a container are objects of their own |
| ContainerLemmas.ArrayExample | src/Process/RawObject.php:193-215 | `[1 2]` is an array of the numbers `1` (next offset 2) and `2` (next offset 4), and the next offset is 5 |
| ContainerLemmas.ArrayFirst | src/Process/RawObject.php:436-484 | `1 2]` is not a reference, since no keyword follows the second number: it is the number `1` |
| ContainerLemmas.ContentsUnique | src/Process/RawObject.php:201-214 | `Contents` determines the children and the offset: the characterisation is complete |
| KeywordLemmas.KeywordPrefix | src/Process/RawObject.php:339-341 | testing a prefix of the 9-byte read is testing the bytes at the offset |
| KeywordLemmas.KeywordsInOrder | src/Process/RawObject.php:335-427 | the keywords are tested in order on the document's bytes, with no check of the byte after them, and `endstream` needs all nine bytes |
| KeywordLemmas.DefaultDispatch | src/Process/RawObject.php:91-97 | at an ordinary byte, processDefaultName decides the object; when it finds no keyword, processDefault does |
| KeywordLemmas.EndstreamNotEndobj | src/Process/RawObject.php:341-420 | `endstream` is never taken for `endobj` |
| KeywordLemmas.PlainKeywords | src/Process/RawObject.php:341-425 | `endobj`, `null`, `true`, `false` and `endstream` are read as objects whatever byte follows, with the keyword's type, value and length |
| KeywordLemmas.StreamEolAt | src/Process/RawObject.php:376-387 | the line end after `stream` is 1 for LF, 2 for CR LF, and 0 otherwise |
| KeywordLemmas.StreamWithoutLineEnd | src/Process/RawObject.php:364-389 | without a line end right after `stream`, the value is empty and the next offset is right after the keyword |
| KeywordLemmas.EndstreamFound | src/Process/RawObject.php:391 | the search finds the first `endstream` of the block read after `stream` |
| KeywordLemmas.StreamWithEndstream | src/Process/RawObject.php:364-419 | with the first `endstream` in the block after `stream`, the data are accepted exactly when a white-space byte follows `endstream`. When accepted, the value is the bytes between the line end and `endstream`, and the offset is ten bytes after the line end. When refused, the value is empty and the offset is right after the line end |
| NumberLemmas.RefSpans | src/Process/RawObject.php:440-457 | the reference pattern on digits, white-space, digits and white-space matches exactly when the keyword follows in either case. It then yields the two numbers, leading zeros ignored, and the length up to the end of the keyword |
| NumberLemmas.RefMatchShape | src/Process/RawObject.php:440-453 | the reference pattern matches exactly when the bytes start with digits, white-space, digits, white-space and the keyword (`RefShape`); the numbers are then the values of the two digit runs and the length reaches the end of the keyword |
| NumberLemmas.NoShapeNumber | src/Process/RawObject.php:436-459 | at a digit whose 33-byte window holds no reference and no object header, the object is the numeric branch's |
| NumberLemmas.PlainNumber | src/Process/RawObject.php:436-484 | a number whose leading digits are followed by a byte other than a digit or white-space is read as the whole run of number bytes |
| NumberLemmas.NumericExample | src/Process/RawObject.php:458-484 | `123.45 ` is the number `123.45`, and the next offset is 6 |
| NumberLemmas.Reference | src/Process/RawObject.php:436-457 | `a b R` or `a b obj` within the 33-byte window is an objref or obj object; its value is intval(a) `_` intval(b) and the next offset is right after the keyword |
| NumberLemmas.ReferenceExample | src/Process/RawObject.php:440-448 | `007 0 R` is the reference `7_0`, seven bytes long |
| NumberLemmas.NoKeyword | src/Process/RawObject.php:341-426 | a byte that begins no keyword makes processDefaultName return false |
| NumberLemmas.NumberRun | src/Process/RawObject.php:459-484 | a run of number bytes shorter than the window, ended by another byte or by the end of data, is the numeric value, and the offset moves past it |
| NumberLemmas.NoReference | src/Process/RawObject.php:440-453 | without a leading digit no reference and no object header is found |
| NumberLemmas.NotReference | src/Process/RawObject.php:436-459 | at a byte that is not a digit, processDefault goes straight to the numeric branch |
| NumberLemmas.SignedNumber | src/Process/RawObject.php:459-484 | a number starting with a sign or a point is the whole run of number bytes, with no check of its form |
| NumberLemmas.SignsExample | src/Process/RawObject.php:459-484 | `+-` is read as a number |
| NumberLemmas.NothingFound | src/Process/RawObject.php:91-98 | at a byte that starts no keyword, reference or number, nothing is found: the type is empty and the offset does not move |

## Left out

- The PHP stream functions are modelled as reads of a byte sequence with a cursor. I/O errors, a handle that is not seekable, and reads shorter than requested before the end of data are not modelled.
- The cursor position a method leaves behind is not specified. Every routine seeks before it reads, so no result depends on it.
- `fread` with a length of 0 or a negative length raises a warning or an error in PHP. It occurs for the stream data when `endstream` starts right after the line end, and when `endstream` is found in the second block at an index no greater than the line end's length (0 or 1 after LF, 0, 1 or 2 after CR LF). The model reads the empty string there.
- `intval` on a digit run is unbounded here. PHP saturates at `PHP_INT_MAX`, which a 33-byte window can exceed.
- The regular expressions are modelled by hand-written matchers of the same language: `RawSpec.HexMatch`, `RawSpec.RefMatch`, and the `NameChar` byte class behind `Span`. PCRE itself is not modelled.
- `$rounds` in the stream branch is always 0, and the model carries no such variable. `unset($stream_data)` and `unset($tagcontents)` have no effect on the result.
- StringLemmas.LiteralString: proved only for a string closed within the first 1024-byte block. Strings that span blocks are modelled by `RawSpec.ParenLoop` and proved for the method, but not characterised by a lemma.
- StringLemmas.LiteralUnterminated: proved only within one block, and only when no backslash ends the data. A backslash as the last byte of a block makes the offset count one byte more than was read, and the byte it escapes, the first of the next block, is interpreted instead of skipped; at the end of data the offset returned is then one past it.
- StringLemmas.HexString1: proved for a first `>` within one block after the `<`. Longer hexadecimal strings are modelled by `RawSpec.HexLoop` over `Split`, without a lemma.
- ScanLemmas.CommentSkipped: proved for comments shorter than one block. In the code, the test `== 1024` is applied to a block of up to 2048 bytes; this is modelled in `RawSpec.CommentLength`, without a lemma.
- KeywordLemmas.StreamWithEndstream: proved when `endstream` and the byte after it lie in the first block after `stream`. An `endstream` that ends at the last byte of that block, one that straddles the block boundary, and a search that continues into the second block are modelled in `RawSpec.StreamStop` and `RawSpec.StreamData`, without a lemma.
- NumberLemmas.NumberRun: proved for runs shorter than the 33-byte window. Longer runs are modelled by `RawSpec.NumBlocks`, without a lemma.
