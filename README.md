# The `.kror` lexer, modelled in Dafny

`koreore` reads a `.kror` hardware-description source and cuts it into tokens.
This project models that lexer and proves what it does. It has two parts.

- **The character stream.** Every source line becomes `(line, column, char)`
  triples, 1-based, with a `'\n'` added after the last character of each line.
  `src/main.rs` builds the stream in `chars_iter`. The unused `src/cursor.rs`
  builds the same stream in `cursor` and wraps it in a `Cursor` with
  `next`, `consume` and `skip`.
- **The scanner `scan`.** It reads one lead character and dispatches on it.
  - Whitespace swallows a run of tab, LF, CR and space.
  - `//` starts a comment that runs up to the next `'\n'`.
  - An ASCII letter starts an identifier. The words `type`, `enum` and `logic` become reserved words.
  - A digit starts a decimal `u32` number.
  - `"` starts a bit literal: `_` is 0, `@` is 1, read most significant bit first.
  - 26 characters are one-character punctuators.

Modules:

| file | module | contents |
|---|---|---|
| `chars.dfy` | `Options`, `Chars` | `Option`; `Char`; the line expansion `CharsIter` and the facts about it |
| `tokens.dfy` | `Tokens` | `Token`, `TokenKind`, `ReservedKind`; `detect_reserved`; the punctuator table |
| `numerals.dfy` | `Numerals` | decimal and binary values of digit strings |
| `scanner.dfy` | `Scanner` | `skip`, `consume` and `scan` over the stream; the reference `ScanSpec`; the driver loop |
| `cursor.dfy` | `CharCursor` | the `Cursor` of `src/cursor.rs` as a class |
| `scanner_facts.dfy` | `ScannerFacts` | what each branch of `scan` does, and what repeated calls produce |
| `scan_examples.dfy` | `ScanExamples` | concrete inputs and the exact token streams they give |

### How `src/main.rs` is modelled

The stream is `s: seq<Char>`. The `Peekable` that `scan`, `consume` and `skip`
share by `&mut` is the index `i` of the next unread character. Each method
takes that index and returns the index it leaves behind.

- `Scanner.ScanSpec` is the pure reference definition of one `scan` call.
- `Scanner.Scan` follows the source's control flow and is proved to compute
  `ScanSpec`. This includes the loops that push into `word`, `digits` and
  `bits` and count `bitwidth`.
- The panics (`unwrap`, `unimplemented!`) become `Abort(error, line, column)`.
  The position is that of the token's lead character. The source attaches no
  position, so the position is extra information the model adds.

### Quirks of the source the model keeps

- **A lone `/` ends the token stream.** `consume` (`src/main.rs:134-136`) returns
  `None` unless the next character is the one asked for. The `?` at
  `src/main.rs:183` then turns that `None` into the end of `scan`. So
  `TokenKind::Slash`, spelled `/` in its doc comment (`src/main.rs:124-125`),
  is never produced (`ScannerFacts.NeverSlash`).
- **`"` does not close a bit literal.** `src/main.rs:245` accepts it and the
  run goes on.
- **26 characters have their own one-character arm** (`src/main.rs:158-181`,
  `190-191`); `/` is handled separately (`src/main.rs:182-189`).
- **A bit literal panics in four places.**
  - `bitwidth += 1` overflows (`src/main.rs:236`, `241`). It is modelled with the overflow check of a debug build, as `BitwidthOverflow` at bit 2^32.
  - A `?` reaches the run's predicate (`src/main.rs:244`).
  - The bit string is empty: `u32::from_str_radix("", 2)` fails (`src/main.rs:251`).
  - The value is above `u32::MAX` (`src/main.rs:251`).
- **A run of 33 to `u32::MAX` bits fails only when its value overflows.** Leading `_`
  bits add width but no value (`ScannerFacts.LeadingZeroBit`).

## Model

| member | source | states |
|---|---|---|
| Chars.ExpandLine | src/main.rs:21-28 | one line gives its characters at columns 1..n, then `'\n'` at column n+1, all with the given line number |
| Chars.ExpandFrom | src/main.rs:17-29 | the expansion of consecutive lines has the sum over lines of (length + 1) characters |
| Chars.CharsIter | src/main.rs:17-29 | the stream's length is the sum over lines of (length + 1); an empty source gives an empty stream and only an empty source does |
| Chars.CharsIterAt | src/main.rs:20-28 | line `i` (0-based), from its start offset on, contributes at column `j+1` its own `j`-th character, or `'\n'` after its last one, tagged with line `i+1` |
| Chars.CharsIterLocate | src/main.rs:17-29 | every stream character is one of those: it comes from some line `i` and offset `j <= n`, so lines contribute nothing else |
| Chars.CharsIterPositions | src/main.rs:24-28 | every character has line 1..number of lines and column 1..n+1; column n+1 holds `'\n'`, columns 1..n hold the line's own characters |
| Chars.CharsIterEndsWithNewline | src/main.rs:21-22 | a non-empty source's stream ends with the last line's `'\n'` at column length + 1 |
| Chars.CharsIterOrdered | src/main.rs:17-29 | positions strictly increase along the stream: lines in order, columns in order within a line |
| Tokens.DetectReserved | src/main.rs:46-53 | the reserved-word table: a hit is the kind the word spells, and a miss is exactly a word other than `type`, `enum`, `logic` |
| Tokens.DetectReservedSpelling | src/main.rs:46-53 | `detect_reserved` gives `Some(k)` exactly for `k`'s spelling, and `None` exactly for words other than `type`, `enum`, `logic` |
| Tokens.Punctuator | src/main.rs:158-191 | the 26 one-character arms: each accepted character is the spelling of the kind it yields, so distinct characters give distinct kinds; `/` is not in the table and nothing yields `Slash` |
| Tokens.PunctuatorRecognised | src/main.rs:124-191 | every punctuator kind but `Slash` is produced by its own character; `Slash` is spelled `/`, which the table does not accept |
| Numerals.DecimalRoundTrip | src/main.rs:226 | reading back the decimal rendering of `n` gives `n` |
| Numerals.DecimalValue | src/main.rs:226 | the value `str::parse::<u32>` reads from a digit string, most significant digit first and leading zeros accepted, before the `u32` range check: `n` digits are worth less than 10^n; `Numerals.DecimalRoundTrip` ties it to the decimal rendering |
| Numerals.BinaryValue | src/main.rs:251 | the value `u32::from_str_radix(_, 2)` reads from a bit string, most significant bit first, before the `u32` range check: `n` bits are worth less than 2^n; `Numerals.BinaryLeadingZero` shows leading zeros add nothing |
| Numerals.BinaryLeadingZero | src/main.rs:251 | a leading zero bit does not change a binary value |
| Scanner.RunEnd | src/main.rs:138-148 | the end of the maximal run from `i`: every character before it satisfies the predicate, and the one at it (if any) does not |
| Scanner.RunEndUnique | src/main.rs:138-148 | the maximal run end is the only index with those two properties |
| Scanner.Skip | src/main.rs:138-148 | `skip` advances over exactly the longest satisfying prefix and stops at exhaustion or at the first rejected character without taking it |
| Scanner.Consume | src/main.rs:134-136 | `consume(c)` gives `Some(true)` and advances by one exactly when the next character is `c`; otherwise `None` and no move; never `Some(false)` |
| Scanner.ClassifyLiteral | src/main.rs:233-247 | the literal run's predicate: it ends the run exactly on characters other than `_`, `@`, `"` and `?`; `?` is its own case, the `unimplemented!` arm, and `Scanner.ScanLiteral` proves what each case does |
| Scanner.LiteralBits | src/main.rs:233-247 | the bit string a literal's run pushes has only `'0'` and `'1'` and is no longer than the run |
| Scanner.WordSpec | src/main.rs:195-211 | the word branch: a token at the lead's position over the lead plus the maximal run of word characters, either a reserved word spelled by that text or `Ident` of it; fully characterised by `ScannerFacts.WordToken` |
| Scanner.NumberSpec | src/main.rs:214-226 | the number branch: a `Number` token at the lead's position over the maximal digit run, or the overflow panic; fully characterised by `ScannerFacts.NumberToken` |
| Scanner.LiteralSpec | src/main.rs:229-252 | the literal branch: never `None`; a panic carries the lead's position; a token covers the maximal run of `_`, `@`, `"` and has a width from 1 to the run's length and a value below 2^width; fully characterised by `ScannerFacts.LiteralToken` |
| Scanner.ScanSpec | src/main.rs:150-264 | a token carries its lead character's position and consumes at least that character; `None` comes exactly from exhaustion and from a lone `/`; a panic is tied to the lead character |
| Scanner.ScanWord | src/main.rs:195-211 | the identifier loop that pushes into `word` computes the word branch of the reference scan |
| Scanner.ScanNumber | src/main.rs:214-226 | the digit loop that pushes into `digits` computes the number branch of the reference scan, overflow included |
| Scanner.ScanLiteral | src/main.rs:229-252 | the bit-literal loop that pushes into `bits` and counts `bitwidth` computes the literal branch of the reference scan, each panic included |
| Scanner.LiteralUnsupported | src/main.rs:244 | a `?` where the literal's run stops panics, unless the bit count overflowed first |
| Scanner.LiteralWidthOverflow | src/main.rs:236-241 | a run of more than `u32::MAX` bits panics in `bitwidth += 1` |
| Scanner.LiteralFinish | src/main.rs:249-252 | once the run has ended, not at `?` and within the `u32` bit count, the literal is decided by its bit string: empty gives `EmptyLiteral`, a value above `u32::MAX` gives `LiteralOverflow`, anything else a `Literal` of that width and value ending where the run ends |
| Scanner.Scan | src/main.rs:150-264 | `scan`, branch by branch, equals the reference `ScanSpec` |
| Scanner.TokenStream | src/main.rs:272-274 | repeated `scan` terminates and yields at most as many tokens as characters remain |
| Scanner.Tokenize | src/main.rs:272-274 | the driver loop collects exactly the tokens of repeated `scan`, and the panic that stopped it if any |
| ScannerFacts.WhitespaceToken | src/main.rs:154-157 | a whitespace lead yields `Whitespace` at its position and swallows the maximal run of tab, LF, CR and space |
| ScannerFacts.PunctuatorToken | src/main.rs:158-191 | a lead in the one-character table yields exactly the kind the table gives it, which is the kind that character spells, at the lead's position, and the next scan starts at the very next character |
| ScannerFacts.CommentToken | src/main.rs:182-185 | `//` yields `Comment` and swallows everything up to, not including, the next `'\n'`; that `'\n'` then yields `Whitespace` |
| ScannerFacts.WordToken | src/main.rs:195-211 | a letter lead takes the maximal alphanumeric/`_` run; the result is `Reserved(k)` exactly when the word is `k`'s spelling and `Ident(word)` exactly when it is none of them |
| ScannerFacts.NumberToken | src/main.rs:214-226 | a digit lead takes the maximal digit run; it yields `Number` of the run's decimal value exactly when that value fits in `u32`, and panics with `NumberOverflow` otherwise |
| ScannerFacts.ShortNumberFits | src/main.rs:226 | a run of at most nine digits never overflows |
| ScannerFacts.NumberRoundTrip | src/main.rs:214-226 | scanning the decimal rendering of a `u32` value, followed by a non-digit or the end, gives back that value and consumes exactly the rendering |
| ScannerFacts.LiteralToken | src/main.rs:229-252 | a `"` lead takes the maximal run of `_`, `@`, `"`; it yields `Literal(width, value)` exactly when the bits are non-empty, their count and value fit in `u32`, and the run is not stopped by `?`; otherwise the panic is, in this order of precedence, `BitwidthOverflow` for more than `u32::MAX` bits, `UnsupportedLiteralBit` for a run stopped by `?`, `EmptyLiteral` for no bits, and `LiteralOverflow` for a value above `u32::MAX` |
| ScannerFacts.LiteralWidthCount | src/main.rs:233-243 | the bit count equals the number of `_` plus the number of `@` in the run |
| ScannerFacts.ShortLiteralFits | src/main.rs:249-252 | a non-empty literal of at most 32 bits whose run is not stopped by `?` never fails |
| ScannerFacts.LeadingZeroBit | src/main.rs:233-238 | one more leading `_` makes the literal one bit wider with the same value |
| ScannerFacts.UnrecognizedLead | src/main.rs:253-255 | `UnrecognizedCharacter` comes exactly from a lead outside every handled class |
| ScannerFacts.NeverSlash | src/main.rs:182-189 | no scan ever yields `Slash` |
| ScannerFacts.TokenStarts | src/main.rs:259-263 | the tokens of repeated `scan` start at strictly increasing indexes and carry the positions of the characters there |
| ScannerFacts.TokensInSourceOrder | src/main.rs:272-274 | over a stream built from lines, each token's position comes strictly after the previous token's |
| ScannerFacts.EmptyInput | src/main.rs:151 | an empty source yields no token and no panic |
| ScannerFacts.WhitespaceOnlyInput | src/main.rs:154-157 | a non-empty source made only of whitespace yields exactly one `Whitespace` token at (1, 1) |
| ScanExamples.TwoLines | src/main.rs:154-157 | lines `ab`, `cd` give `Ident ab` (1,1), `Whitespace` (1,3), `Ident cd` (2,1), `Whitespace` (2,3) |
| ScanExamples.CommentLine | src/main.rs:182-185 | `// hello` gives `Comment` (1,1) then `Whitespace` (1,9) |
| ScanExamples.Keywords | src/main.rs:46-53 | `type` scans as `Reserved(Type)` and `type2` as `Ident("type2")` |
| ScanExamples.BitLiteral | src/main.rs:229-252 | `"_@_@"` scans as a literal of width 4 and value 5 |
| ScanExamples.Number1234 | src/main.rs:214-226 | `1234` scans as `Number(1234)` |
| ScanExamples.NumberTooLarge | src/main.rs:226 | ten nines panic with `NumberOverflow` |
| ScanExamples.SemicolonAfterWord | src/main.rs:158 | `a;` gives `Ident a` (1,1), `Semi` (1,2) and `Whitespace` (1,3): the punctuator ends the word and takes only itself |
| ScanExamples.LoneSlashEndsStream | src/main.rs:183 | `a/b` gives only `Ident a`, and then the stream ends |
| ScanExamples.QuestionMarkInLiteral | src/main.rs:244 | `"_?` panics with `UnsupportedLiteralBit` |
| ScanExamples.EmptyBitString | src/main.rs:251 | `"";` panics with `EmptyLiteral` |
| ScanExamples.UnknownLead | src/main.rs:253-255 | `_x` panics with `UnrecognizedCharacter` |
| CharCursor.Cursor.constructor | src/cursor.rs:9-28 | the cursor holds the expanded stream of the lines, none of it read |
| CharCursor.Cursor.Next | src/cursor.rs:31-33 | `next` yields and removes the head of the remaining stream; `None` exactly when it is empty, with nothing changed |
| CharCursor.Cursor.Consume | src/cursor.rs:35-37 | `consume(c)` is `true` and advances by one exactly when the next character is `c`; otherwise `false` and nothing changes |
| CharCursor.Cursor.Skip | src/cursor.rs:39-49 | `skip` takes only characters the predicate accepts and stops at exhaustion or at a rejected character, so it takes the maximal prefix |

Forward-only behaviour (`src/cursor.rs:30-50`) is stated in each `Cursor`
method: the new remaining stream is a suffix of the old one.

## Left out

- Reading the source: `File::open`, `BufReader` and `BufRead::lines`, with its line-ending stripping and I/O errors. The model takes the lines as a `seq<string>`.
- `tokenize`'s printing and `main`. The driver loop is kept as `Scanner.Tokenize`, which collects the tokens instead of printing them.
- `anyhow` error plumbing and `Debug` formatting.
- Laziness: the iterator pipelines are modelled by the sequence they produce.
- `skip` with a stateful `FnMut` closure: the model takes a pure `char -> bool`. The closures that push into `word`, `digits` and `bits` are modelled by the dedicated loops in `ScanWord`, `ScanNumber` and `ScanLiteral`.
- The `Peekable` in `src/main.rs` is modelled as an index into the stream. No aliasing of the iterator is captured.
- `Cursor`'s generic iterator parameter: the class holds the materialised stream.
- Scanner.LiteralSpec: the wrap-around of `bitwidth += 1` in a release build is not modelled. The model takes the debug build's overflow panic.
- Scanner.ScanSpec: a panic in the source aborts the process. The model returns it as a value tagged with the lead's position, and repeated scanning stops there.
