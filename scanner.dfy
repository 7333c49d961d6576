/**
  The scanner of `src/main.rs`. The `Peekable` cursor the source threads
  through `consume`, `skip` and `scan` by `&mut` is modelled by the stream
  `s` and the index `i` of its next unread character: each operation takes
  the index it starts from and returns the index it leaves the cursor at.

  `ScanSpec` is the reference definition of one call of `scan`; the method
  `Scan` follows the source's control flow (the accumulating loops included)
  and is proved to compute it.
 */
module Scanner {
  import opened Options
  import opened Chars
  import opened Tokens
  import opened Numerals

  /** The source's panics, made explicit. */
  datatype LexError =
    | NumberOverflow          // `digits.parse::<u32>().unwrap()`
    | UnsupportedLiteralBit   // `'?' => unimplemented!()` inside a bit literal
    | BitwidthOverflow        // `bitwidth += 1` past `u32::MAX`
    | EmptyLiteral            // `u32::from_str_radix("", 2).unwrap()`
    | LiteralOverflow         // `u32::from_str_radix(bits, 2).unwrap()` out of range
    | UnrecognizedCharacter   // the final `unimplemented!()`

  /** One call of `scan`: a token and the index after it, `None` (the stream
      was exhausted, or a '/' was not followed by '/') with the index the
      cursor is left at, or a panic, tagged with the lead character's
      position. */
  datatype ScanResult =
    | Emit(token: Token, next: nat)
    | Stop(next: nat)
    | Abort(error: LexError, lineNum: nat, rowNum: nat)

  /** The index after the maximal run of characters satisfying `p` from `i`. */
  function RunEnd(s: seq<Char>, i: nat, p: char -> bool): (j: nat)
    requires i <= |s|
    ensures i <= j <= |s|
    ensures forall k :: i <= k < j ==> p(s[k].c)
    ensures j == |s| || !p(s[j].c)
    decreases |s| - i
  {
    if i < |s| && p(s[i].c) then RunEnd(s, i + 1, p) else i
  }

  /** The maximal run is the only index with the two properties `RunEnd`
      promises. */
  lemma {:induction false} RunEndUnique(s: seq<Char>, i: nat, p: char -> bool, j: nat)
    requires i <= j <= |s|
    requires forall k :: i <= k < j ==> p(s[k].c)
    requires j == |s| || !p(s[j].c)
    ensures RunEnd(s, i, p) == j
    decreases j - i
  {
    if i < j {
      RunEndUnique(s, i + 1, p, j);
    }
  }

  /** `skip`: advance over the longest prefix of the remaining stream whose
      characters satisfy `p`, stopping before the first that does not, or at
      exhaustion. */
  method Skip(s: seq<Char>, i: nat, p: char -> bool) returns (j: nat)
    requires i <= |s|
    ensures i <= j <= |s|
    ensures forall k :: i <= k < j ==> p(s[k].c)
    ensures j == |s| || !p(s[j].c)
    ensures j == RunEnd(s, i, p)
  {
    j := i;
    while j < |s| && p(s[j].c)
      invariant i <= j <= |s|
      invariant forall k :: i <= k < j ==> p(s[k].c)
    {
      j := j + 1;
    }
    RunEndUnique(s, i, p, j);
  }

  /** `consume` of `src/main.rs`: `next_if` followed by `?`, so it yields
      `Some(true)` and advances by one when the next character is `c`, and
      `None` without advancing otherwise (exhaustion included); it never
      yields `Some(false)`. */
  method Consume(s: seq<Char>, i: nat, c: char) returns (r: Option<bool>, j: nat)
    requires i <= |s|
    ensures r.Some? ==> r.value
    ensures r == Some(true) <==> i < |s| && s[i].c == c
    ensures j == if r.Some? then i + 1 else i
  {
    if i < |s| && s[i].c == c {
      r, j := Some(s[i].c == c), i + 1;
    } else {
      r, j := None, i;
    }
  }

  /** The characters of a stretch of the stream. */
  function Text(cs: seq<Char>): string {
    seq(|cs|, k requires 0 <= k < |cs| => cs[k].c)
  }

  lemma TextSnoc(cs: seq<Char>, x: Char)
    ensures Text(cs + [x]) == Text(cs) + [x.c]
  {
  }

  /** The characters a bit literal's run continues over. */
  predicate IsLiteralRunChar(c: char) {
    c == '_' || c == '@' || c == '"'
  }

  /** What the bit-literal predicate does with a character. */
  datatype LiteralClass = Zero | One | Unsupported | Quote | End

  function ClassifyLiteral(c: char): (r: LiteralClass)
    ensures r == End <==> !IsLiteralRunChar(c) && c != '?'
  {
    match c
    case '_' => Zero
    case '@' => One
    case '?' => Unsupported
    case '"' => Quote
    case _ => End
  }

  /** The '0'/'1' string the bit-literal predicate pushes for a run: '0' for
      each `_`, '1' for each `@`, nothing for '"'. */
  function LiteralBits(cs: seq<Char>): (bits: string)
    ensures |bits| <= |cs|
    ensures forall k :: 0 <= k < |bits| ==> bits[k] == '0' || bits[k] == '1'
    decreases |cs|
  {
    if cs == [] then []
    else
      var c := cs[|cs| - 1].c;
      LiteralBits(cs[..|cs| - 1]) + (if c == '_' then "0" else if c == '@' then "1" else "")
  }

  lemma LiteralBitsSnoc(cs: seq<Char>, x: Char)
    ensures LiteralBits(cs + [x])
         == LiteralBits(cs) + (if x.c == '_' then "0" else if x.c == '@' then "1" else "")
  {
    assert (cs + [x])[..|cs|] == cs;
  }

  /** Extending a run never shortens its bit string. */
  lemma {:induction false} LiteralBitsPrefix(cs: seq<Char>, n: nat)
    requires n <= |cs|
    ensures |LiteralBits(cs[..n])| <= |LiteralBits(cs)|
    decreases |cs|
  {
    if n < |cs| {
      assert cs[..|cs| - 1][..n] == cs[..n];
      LiteralBitsPrefix(cs[..|cs| - 1], n);
    } else {
      assert cs[..n] == cs;
    }
  }

  /** The token `c` scans to when it is the lead character. */
  function Punct(ch: Char): Token
    requires Punctuator(ch.c).Some?
  {
    Token(ch.lineNum, ch.rowNum, Punctuator(ch.c).value)
  }

  /** An identifier or reserved word led by an ASCII letter at `i`: the word
      is the lead and the maximal run of word characters after it, and the
      token is a reserved word or `Ident` of that word. */
  function WordSpec(s: seq<Char>, i: nat): (r: ScanResult)
    requires i < |s| && IsAsciiAlphabetic(s[i].c)
    ensures r.Emit? && i < r.next <= |s|
    ensures r.token.lineNum == s[i].lineNum && r.token.rowNum == s[i].rowNum
    ensures forall k :: i + 1 <= k < r.next ==> IsWordChar(s[k].c)
    ensures r.next == |s| || !IsWordChar(s[r.next].c)
    ensures r.token.kind.Reserved? ==> Spelling(r.token.kind.reserved) == Text(s[i..r.next])
    ensures r.token.kind.Reserved? || r.token.kind == Ident(Text(s[i..r.next]))
  {
    var j := RunEnd(s, i + 1, IsWordChar);
    var word := Text(s[i..j]);
    var kind := match DetectReserved(word)
      case Some(k) => Reserved(k)
      case None => Ident(word);
    Emit(Token(s[i].lineNum, s[i].rowNum, kind), j)
  }

  lemma DigitRun(s: seq<Char>, i: nat, j: nat)
    requires i < j <= |s| && IsAsciiDigit(s[i].c)
    requires forall k :: i + 1 <= k < j ==> IsAsciiDigit(s[k].c)
    ensures AllDigits(Text(s[i..j]))
  {
  }

  /** A number led by a decimal digit at `i`: the maximal digit run, read as
      a `u32`, or the overflow panic. */
  function NumberSpec(s: seq<Char>, i: nat): (r: ScanResult)
    requires i < |s| && IsAsciiDigit(s[i].c)
    ensures r.Emit? || r == Abort(NumberOverflow, s[i].lineNum, s[i].rowNum)
    ensures r.Emit? ==> && i < r.next <= |s|
                        && r.token.lineNum == s[i].lineNum && r.token.rowNum == s[i].rowNum
                        && (forall k :: i <= k < r.next ==> IsAsciiDigit(s[k].c))
                        && (r.next == |s| || !IsAsciiDigit(s[r.next].c))
                        && r.token.kind.Number?
  {
    var j := RunEnd(s, i + 1, IsAsciiDigit);
    DigitRun(s, i, j);
    var v := DecimalValue(Text(s[i..j]));
    if v <= U32_MAX then Emit(Token(s[i].lineNum, s[i].rowNum, Number(v)), j)
    else Abort(NumberOverflow, s[i].lineNum, s[i].rowNum)
  }

  /** A bit literal led by '"' at `i`. The run goes on over `_`, `@` and '"';
      a '?' where it stops aborts, and so do a bit count past `u32::MAX`, an
      empty bit string and a value past `u32::MAX`. */
  function LiteralSpec(s: seq<Char>, i: nat): (r: ScanResult)
    requires i < |s| && s[i].c == '"'
    ensures !r.Stop?
    ensures r.Abort? ==> r.lineNum == s[i].lineNum && r.rowNum == s[i].rowNum
    ensures r.Emit? ==> && i < r.next <= |s|
                        && r.token.lineNum == s[i].lineNum && r.token.rowNum == s[i].rowNum
                        && (forall k :: i + 1 <= k < r.next ==> IsLiteralRunChar(s[k].c))
                        && (r.next == |s| || !IsLiteralRunChar(s[r.next].c))
                        && r.token.kind.Literal?
                        && 0 < r.token.kind.bitwidth <= r.next - i - 1
                        && r.token.kind.value < Pow(2, r.token.kind.bitwidth)
  {
    var j := RunEnd(s, i + 1, IsLiteralRunChar);
    var bits := LiteralBits(s[i + 1..j]);
    if |bits| > U32_MAX then Abort(BitwidthOverflow, s[i].lineNum, s[i].rowNum)
    else if j < |s| && s[j].c == '?' then Abort(UnsupportedLiteralBit, s[i].lineNum, s[i].rowNum)
    else if bits == [] then Abort(EmptyLiteral, s[i].lineNum, s[i].rowNum)
    else if BinaryValue(bits) > U32_MAX then Abort(LiteralOverflow, s[i].lineNum, s[i].rowNum)
    else Emit(Token(s[i].lineNum, s[i].rowNum, Literal(|bits|, BinaryValue(bits))), j)
  }

  /** '/' at `i` followed by anything but a second '/'. */
  predicate LoneSlash(s: seq<Char>, i: nat)
    requires i < |s|
  {
    s[i].c == '/' && !(i + 1 < |s| && s[i + 1].c == '/')
  }

  /** One call of `scan` from index `i`: the reference definition. A token
      carries its lead character's position and consumes at least that
      character; `None` comes exactly from exhaustion and from a lone '/';
      a panic is tagged with the lead character's position. */
  function ScanSpec(s: seq<Char>, i: nat): (r: ScanResult)
    requires i <= |s|
    ensures r.Emit? ==> i < r.next <= |s|
    ensures r.Emit? ==> r.token.lineNum == s[i].lineNum && r.token.rowNum == s[i].rowNum
    ensures r.Stop? <==> i == |s| || LoneSlash(s, i)
    ensures r.Stop? ==> r.next == if i == |s| then i else i + 1
    ensures r.Abort? ==> i < |s| && r.lineNum == s[i].lineNum && r.rowNum == s[i].rowNum
  {
    if i == |s| then Stop(i)
    else
      var ch := s[i];
      if IsWhitespace(ch.c) then
        Emit(Token(ch.lineNum, ch.rowNum, Whitespace), RunEnd(s, i + 1, IsWhitespace))
      else if Punctuator(ch.c).Some? then
        Emit(Punct(ch), i + 1)
      else if ch.c == '/' then
        if i + 1 < |s| && s[i + 1].c == '/' then
          Emit(Token(ch.lineNum, ch.rowNum, Comment), RunEnd(s, i + 2, NotNewline))
        else
          Stop(i + 1)
      else if IsAsciiAlphabetic(ch.c) then WordSpec(s, i)
      else if IsAsciiDigit(ch.c) then NumberSpec(s, i)
      else if ch.c == '"' then LiteralSpec(s, i)
      else Abort(UnrecognizedCharacter, ch.lineNum, ch.rowNum)
  }

  /** The identifier branch of `scan`: push the lead character and every
      following alphanumeric or '_' into `word`, then look `word` up. */
  method ScanWord(s: seq<Char>, i: nat) returns (r: ScanResult)
    requires i < |s| && IsAsciiAlphabetic(s[i].c)
    ensures r == WordSpec(s, i)
  {
    var word := [s[i].c];
    var j := i + 1;
    assert s[i..j] == [s[i]];
    while j < |s| && IsWordChar(s[j].c)
      invariant i + 1 <= j <= |s|
      invariant forall k :: i + 1 <= k < j ==> IsWordChar(s[k].c)
      invariant word == Text(s[i..j])
    {
      assert s[i..j + 1] == s[i..j] + [s[j]];
      TextSnoc(s[i..j], s[j]);
      word := word + [s[j].c];
      j := j + 1;
    }
    RunEndUnique(s, i + 1, IsWordChar, j);
    var kind;
    match DetectReserved(word) {
      case Some(k) => kind := Reserved(k);
      case None => kind := Ident(word);
    }
    r := Emit(Token(s[i].lineNum, s[i].rowNum, kind), j);
  }

  /** The number branch of `scan`: push the lead digit and every following
      digit into `digits`, then parse them as a `u32`. */
  method ScanNumber(s: seq<Char>, i: nat) returns (r: ScanResult)
    requires i < |s| && IsAsciiDigit(s[i].c)
    ensures r == NumberSpec(s, i)
  {
    var digits := [s[i].c];
    var j := i + 1;
    assert s[i..j] == [s[i]];
    while j < |s| && IsAsciiDigit(s[j].c)
      invariant i + 1 <= j <= |s|
      invariant forall k :: i + 1 <= k < j ==> IsAsciiDigit(s[k].c)
      invariant digits == Text(s[i..j])
    {
      assert s[i..j + 1] == s[i..j] + [s[j]];
      TextSnoc(s[i..j], s[j]);
      digits := digits + [s[j].c];
      j := j + 1;
    }
    RunEndUnique(s, i + 1, IsAsciiDigit, j);
    DigitRun(s, i, j);
    var value := DecimalValue(digits);
    if value > U32_MAX {
      r := Abort(NumberOverflow, s[i].lineNum, s[i].rowNum);
    } else {
      r := Emit(Token(s[i].lineNum, s[i].rowNum, Number(value)), j);
    }
  }

  /** The bit-literal branch of `scan`: after the opening '"', push '0' for
      `_` and '1' for `@` (counting them in `bitwidth`), pass over '"', abort
      at '?', stop at anything else; then parse the bits as a `u32`. */
  method ScanLiteral(s: seq<Char>, i: nat) returns (r: ScanResult)
    requires i < |s| && s[i].c == '"'
    ensures r == LiteralSpec(s, i)
  {
    var bits: string := [];
    var bitwidth: uint32 := 0;
    var j := i + 1;
    while j < |s| && ClassifyLiteral(s[j].c) != End
      invariant i + 1 <= j <= |s|
      invariant forall k :: i + 1 <= k < j ==> IsLiteralRunChar(s[k].c)
      invariant bits == LiteralBits(s[i + 1..j])
      invariant bitwidth == |bits|
    {
      var cls := ClassifyLiteral(s[j].c);
      if cls == Unsupported {
        LiteralUnsupported(s, i, j);
        return Abort(UnsupportedLiteralBit, s[i].lineNum, s[i].rowNum);
      }
      LiteralRunStep(s, i, j);
      if cls == Zero || cls == One {
        if bitwidth == U32_MAX {
          LiteralWidthOverflow(s, i, j);
          return Abort(BitwidthOverflow, s[i].lineNum, s[i].rowNum);
        }
        bits := bits + if cls == Zero then "0" else "1";
        bitwidth := bitwidth + 1;
      }
      j := j + 1;
    }
    LiteralFinish(s, i, j);
    if bits == [] {
      r := Abort(EmptyLiteral, s[i].lineNum, s[i].rowNum);
    } else if BinaryValue(bits) > U32_MAX {
      r := Abort(LiteralOverflow, s[i].lineNum, s[i].rowNum);
    } else {
      r := Emit(Token(s[i].lineNum, s[i].rowNum, Literal(bitwidth, BinaryValue(bits))), j);
    }
  }

  lemma LiteralRunStep(s: seq<Char>, i: nat, j: nat)
    requires i < j < |s|
    ensures LiteralBits(s[i + 1..j + 1])
         == LiteralBits(s[i + 1..j]) + (if s[j].c == '_' then "0" else if s[j].c == '@' then "1" else "")
  {
    assert s[i + 1..j + 1] == s[i + 1..j] + [s[j]];
    LiteralBitsSnoc(s[i + 1..j], s[j]);
  }

  /** A run that ends at `j`, not at a '?', and has not overflowed the bit
      count is decided by its bit string alone. */
  lemma LiteralFinish(s: seq<Char>, i: nat, j: nat)
    requires i < j <= |s| && s[i].c == '"'
    requires forall k :: i + 1 <= k < j ==> IsLiteralRunChar(s[k].c)
    requires j == |s| || ClassifyLiteral(s[j].c) == End
    requires |LiteralBits(s[i + 1..j])| <= U32_MAX
    ensures var bits := LiteralBits(s[i + 1..j]);
      LiteralSpec(s, i)
      == if bits == [] then Abort(EmptyLiteral, s[i].lineNum, s[i].rowNum)
         else if BinaryValue(bits) > U32_MAX then Abort(LiteralOverflow, s[i].lineNum, s[i].rowNum)
         else Emit(Token(s[i].lineNum, s[i].rowNum, Literal(|bits|, BinaryValue(bits))), j)
  {
    RunEndUnique(s, i + 1, IsLiteralRunChar, j);
  }

  /** A '?' where the run stops aborts the literal, unless the bit count has
      already overflowed. */
  lemma LiteralUnsupported(s: seq<Char>, i: nat, j: nat)
    requires i < j < |s| && s[i].c == '"' && s[j].c == '?'
    requires forall k :: i + 1 <= k < j ==> IsLiteralRunChar(s[k].c)
    requires |LiteralBits(s[i + 1..j])| <= U32_MAX
    ensures LiteralSpec(s, i) == Abort(UnsupportedLiteralBit, s[i].lineNum, s[i].rowNum)
  {
    RunEndUnique(s, i + 1, IsLiteralRunChar, j);
    assert RunEnd(s, i + 1, IsLiteralRunChar) == j;
  }

  /** A bit that would take the bit count past `u32::MAX` aborts the literal. */
  lemma LiteralWidthOverflow(s: seq<Char>, i: nat, j: nat)
    requires i < j < |s| && s[i].c == '"' && (s[j].c == '_' || s[j].c == '@')
    requires forall k :: i + 1 <= k < j ==> IsLiteralRunChar(s[k].c)
    requires |LiteralBits(s[i + 1..j])| == U32_MAX
    ensures LiteralSpec(s, i) == Abort(BitwidthOverflow, s[i].lineNum, s[i].rowNum)
  {
    LiteralRunStep(s, i, j);
    var e := RunEnd(s, i + 1, IsLiteralRunChar);
    assert j + 1 <= e;
    assert s[i + 1..e][..j - i] == s[i + 1..j + 1];
    LiteralBitsPrefix(s[i + 1..e], j - i);
  }

  /** `scan`: take the lead character and dispatch on it. */
  method Scan(s: seq<Char>, i: nat) returns (r: ScanResult)
    requires i <= |s|
    ensures r == ScanSpec(s, i)
  {
    if i == |s| {
      return Stop(i);
    }
    var ch := s[i];
    if IsWhitespace(ch.c) {
      var j := Skip(s, i + 1, IsWhitespace);
      r := Emit(Token(ch.lineNum, ch.rowNum, Whitespace), j);
    } else if Punctuator(ch.c).Some? {
      r := Emit(Punct(ch), i + 1);
    } else if ch.c == '/' {
      var second, j := Consume(s, i + 1, '/');
      if second.None? {
        return Stop(j);
      }
      j := Skip(s, j, NotNewline);
      r := Emit(Token(ch.lineNum, ch.rowNum, Comment), j);
    } else if IsAsciiAlphabetic(ch.c) {
      r := ScanWord(s, i);
    } else if IsAsciiDigit(ch.c) {
      r := ScanNumber(s, i);
    } else if ch.c == '"' {
      r := ScanLiteral(s, i);
    } else {
      r := Abort(UnrecognizedCharacter, ch.lineNum, ch.rowNum);
    }
  }

  /** What the driver loop of `tokenize` sees: the tokens in order, and the
      panic that ended the loop, if one did. */
  datatype Lexed = Lexed(tokens: seq<Token>, failure: Option<LexError>)

  /** Repeated `scan` from index `i` until it yields no token. Each token
      consumes at least one character, so this terminates and yields at most
      as many tokens as characters remain. */
  function TokenStream(s: seq<Char>, i: nat): (r: Lexed)
    requires i <= |s|
    ensures |r.tokens| <= |s| - i
    decreases |s| - i
  {
    match ScanSpec(s, i)
    case Emit(t, j) =>
      var rest := TokenStream(s, j);
      Lexed([t] + rest.tokens, rest.failure)
    case Stop(_) => Lexed([], None)
    case Abort(e, _, _) => Lexed([], Some(e))
  }

  /** The loop of `tokenize`, collecting the tokens it would print. */
  method Tokenize(s: seq<Char>) returns (r: Lexed)
    ensures r == TokenStream(s, 0)
  {
    var tokens := [];
    var i := 0;
    while true
      invariant i <= |s|
      invariant TokenStream(s, 0) == Lexed(tokens + TokenStream(s, i).tokens, TokenStream(s, i).failure)
      decreases |s| - i
    {
      var step := Scan(s, i);
      match step {
        case Emit(t, j) =>
          assert TokenStream(s, i).tokens == [t] + TokenStream(s, j).tokens;
          tokens, i := tokens + [t], j;
        case Stop(_) =>
          return Lexed(tokens, None);
        case Abort(e, _, _) =>
          return Lexed(tokens, Some(e));
      }
    }
  }
}
