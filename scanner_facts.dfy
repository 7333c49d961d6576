/** What one call of `scan` does, branch by branch, and what repeated calls
    deliver, stated over the reference definition `Scanner.ScanSpec` (which
    `Scanner.Scan` computes). */
module ScannerFacts {
  import opened Options
  import opened Chars
  import opened Tokens
  import opened Numerals
  import opened Scanner

  /** A whitespace lead swallows the maximal run of tab, LF, CR and space. */
  lemma WhitespaceToken(s: seq<Char>, i: nat)
    requires i < |s| && IsWhitespace(s[i].c)
    ensures var r := ScanSpec(s, i);
      && r.Emit?
      && r.token == Token(s[i].lineNum, s[i].rowNum, Whitespace)
      && (forall k :: i <= k < r.next ==> IsWhitespace(s[k].c))
      && (r.next == |s| || !IsWhitespace(s[r.next].c))
  {
  }

  /** A punctuator lead is a one-character token: its own kind from the
      table, at its position, and the scan resumes right after it. */
  lemma PunctuatorToken(s: seq<Char>, i: nat)
    requires i < |s| && Punctuator(s[i].c).Some?
    ensures var k := Punctuator(s[i].c).value;
      && ScanSpec(s, i) == Emit(Token(s[i].lineNum, s[i].rowNum, k), i + 1)
      && PunctuatorChar(k) == Some(s[i].c)
  {
  }

  /** `//` swallows everything up to, not including, the next '\n'; that
      '\n' then starts a `Whitespace` token of its own. */
  lemma CommentToken(s: seq<Char>, i: nat)
    requires i + 1 < |s| && s[i].c == '/' && s[i + 1].c == '/'
    ensures var r := ScanSpec(s, i);
      && r.Emit?
      && r.token == Token(s[i].lineNum, s[i].rowNum, Comment)
      && i + 2 <= r.next
      && (forall k :: i + 2 <= k < r.next ==> s[k].c != '\n')
      && (r.next < |s| ==> s[r.next].c == '\n')
      && (r.next < |s| ==>
            ScanSpec(s, r.next).Emit? &&
            ScanSpec(s, r.next).token == Token(s[r.next].lineNum, s[r.next].rowNum, Whitespace))
  {
    var j := RunEnd(s, i + 2, NotNewline);
    if j < |s| {
      assert IsWhitespace(s[j].c);
    }
  }

  /** An ASCII letter starts a word that runs over the maximal stretch of
      alphanumerics and '_'; the word is `Reserved` exactly when it is spelled
      `type`, `enum` or `logic`, and `Ident` of itself otherwise. */
  lemma WordToken(s: seq<Char>, i: nat)
    requires i < |s| && IsAsciiAlphabetic(s[i].c)
    ensures var r := ScanSpec(s, i);
      && r.Emit?
      && r.token.lineNum == s[i].lineNum && r.token.rowNum == s[i].rowNum
      && (forall k :: i + 1 <= k < r.next ==> IsWordChar(s[k].c))
      && (r.next == |s| || !IsWordChar(s[r.next].c))
      && (forall k :: r.token.kind == Reserved(k) <==> Text(s[i..r.next]) == Spelling(k))
      && (r.token.kind == Ident(Text(s[i..r.next]))
          <==> Text(s[i..r.next]) !in {"type", "enum", "logic"})
      && (r.token.kind.Reserved? || r.token.kind.Ident?)
  {
    var r := WordSpec(s, i);
    assert ScanSpec(s, i) == r;
    var word := Text(s[i..r.next]);
    forall k: ReservedKind {
      DetectReservedSpelling(word, k);
    }
  }

  /** A digit starts a number that runs over the maximal stretch of digits;
      its value is the decimal value of that run, and the scan panics exactly
      when that value exceeds `u32::MAX`. */
  lemma NumberToken(s: seq<Char>, i: nat)
    requires i < |s| && IsAsciiDigit(s[i].c)
    ensures var j := RunEnd(s, i + 1, IsAsciiDigit);
      && (forall k :: i <= k < j ==> IsAsciiDigit(s[k].c))
      && (j == |s| || !IsAsciiDigit(s[j].c))
      && AllDigits(Text(s[i..j]))
      && var v := DecimalValue(Text(s[i..j]));
      && var r := ScanSpec(s, i);
      && (r.Emit? <==> v <= U32_MAX)
      && (r.Emit? ==> r.next == j && r.token == Token(s[i].lineNum, s[i].rowNum, Number(v)))
      && (!r.Emit? ==> r == Abort(NumberOverflow, s[i].lineNum, s[i].rowNum))
  {
    DigitRun(s, i, RunEnd(s, i + 1, IsAsciiDigit));
  }

  /** A run of at most nine digits never overflows. */
  lemma ShortNumberFits(s: seq<Char>, i: nat)
    requires i < |s| && IsAsciiDigit(s[i].c)
    requires RunEnd(s, i + 1, IsAsciiDigit) - i <= 9
    ensures ScanSpec(s, i).Emit?
  {
    var j := RunEnd(s, i + 1, IsAsciiDigit);
    DigitRun(s, i, j);
    ShortDigitsValue(Text(s[i..j]));
    NumberToken(s, i);
  }

  lemma ShortDigitsValue(ds: string)
    requires AllDigits(ds) && |ds| <= 9
    ensures DecimalValue(ds) < 1_000_000_000
  {
    PowMonotone(10, |ds|, 9);
    PowValues();
  }

  /** Scanning the decimal rendering of a `u32` value, ended by a non-digit
      or by the end of the stream, gives back that value. */
  lemma NumberRoundTrip(s: seq<Char>, i: nat, n: nat)
    requires n <= U32_MAX
    requires i + |DecimalString(n)| <= |s|
    requires Text(s[i..i + |DecimalString(n)|]) == DecimalString(n)
    requires i + |DecimalString(n)| == |s| || !IsAsciiDigit(s[i + |DecimalString(n)|].c)
    ensures ScanSpec(s, i) == Emit(Token(s[i].lineNum, s[i].rowNum, Number(n)), i + |DecimalString(n)|)
  {
    var ds := DecimalString(n);
    DigitsRunEnd(s, i, ds);
    DecimalRoundTrip(n);
    NumberRunValue(s, i, i + |ds|, n);
  }

  lemma NumberRunValue(s: seq<Char>, i: nat, j: nat, n: nat)
    requires i < j <= |s| && IsAsciiDigit(s[i].c) && RunEnd(s, i + 1, IsAsciiDigit) == j
    requires AllDigits(Text(s[i..j])) && DecimalValue(Text(s[i..j])) == n && n <= U32_MAX
    ensures ScanSpec(s, i) == Emit(Token(s[i].lineNum, s[i].rowNum, Number(n)), j)
  {
    NumberToken(s, i);
  }

  lemma DigitsRunEnd(s: seq<Char>, i: nat, ds: string)
    requires AllDigits(ds) && ds != []
    requires i + |ds| <= |s| && Text(s[i..i + |ds|]) == ds
    requires i + |ds| == |s| || !IsAsciiDigit(s[i + |ds|].c)
    ensures IsAsciiDigit(s[i].c)
    ensures RunEnd(s, i + 1, IsAsciiDigit) == i + |ds|
  {
    var j := i + |ds|;
    assert s[i].c == ds[0];
    forall k | i + 1 <= k < j
      ensures IsAsciiDigit(s[k].c)
    {
      assert s[k].c == Text(s[i..j])[k - i];
    }
    RunEndUnique(s, i + 1, IsAsciiDigit, j);
  }

  /** A '"' starts a bit literal whose run goes on over `_`, `@` and '"' (a
      '"' does not close it). Its width is the number of bits and its value
      the bits read most significant first; it is emitted exactly when the
      bit string is non-empty, has at most `u32::MAX` bits, its value fits in
      a `u32`, and the run is not stopped by '?'. */
  lemma LiteralToken(s: seq<Char>, i: nat)
    requires i < |s| && s[i].c == '"'
    ensures var j := RunEnd(s, i + 1, IsLiteralRunChar);
      && (forall k :: i + 1 <= k < j ==> s[k].c == '_' || s[k].c == '@' || s[k].c == '"')
      && (j == |s| || !IsLiteralRunChar(s[j].c))
      && var bits := LiteralBits(s[i + 1..j]);
      && var r := ScanSpec(s, i);
      && (r.Emit? <==> && 0 < |bits| <= U32_MAX
                       && (j == |s| || s[j].c != '?')
                       && BinaryValue(bits) <= U32_MAX)
      && (r.Emit? ==> && r.next == j
                      && r.token == Token(s[i].lineNum, s[i].rowNum, Literal(|bits|, BinaryValue(bits))))
      && (!r.Emit? ==> r.Abort?)
      && (|bits| > U32_MAX ==> r == Abort(BitwidthOverflow, s[i].lineNum, s[i].rowNum))
      && (|bits| <= U32_MAX && j < |s| && s[j].c == '?'
          ==> r == Abort(UnsupportedLiteralBit, s[i].lineNum, s[i].rowNum))
      && (|bits| <= U32_MAX && (j == |s| || s[j].c != '?') && bits == []
          ==> r == Abort(EmptyLiteral, s[i].lineNum, s[i].rowNum))
      && (0 < |bits| <= U32_MAX && (j == |s| || s[j].c != '?') && BinaryValue(bits) > U32_MAX
          ==> r == Abort(LiteralOverflow, s[i].lineNum, s[i].rowNum))
  {
  }

  /** The bit count of a run is the number of `_` and `@` characters in it. */
  lemma {:induction false} LiteralWidthCount(cs: seq<Char>)
    ensures |LiteralBits(cs)| == multiset(Text(cs))['_'] + multiset(Text(cs))['@']
    decreases |cs|
  {
    if cs != [] {
      var init, last := cs[..|cs| - 1], cs[|cs| - 1];
      assert cs == init + [last];
      LiteralBitsSnoc(init, last);
      TextSnoc(init, last);
      LiteralWidthCount(init);
    }
  }

  /** A non-empty literal of at most 32 bits whose run is not stopped by '?'
      never fails. */
  lemma ShortLiteralFits(s: seq<Char>, i: nat)
    requires i < |s| && s[i].c == '"'
    requires var j := RunEnd(s, i + 1, IsLiteralRunChar);
      0 < |LiteralBits(s[i + 1..j])| <= 32 && (j == |s| || s[j].c != '?')
    ensures ScanSpec(s, i).Emit?
  {
    var j := RunEnd(s, i + 1, IsLiteralRunChar);
    var bits := LiteralBits(s[i + 1..j]);
    PowMonotone(2, |bits|, 32);
    PowValues();
  }

  /** Leading `_` bits do not count against the 32-bit limit: the literal
      with one more `_` after the opening '"' scans to the same value, one
      bit wider. */
  lemma LeadingZeroBit(s: seq<Char>, i: nat)
    requires i + 1 < |s| && s[i].c == '"' && s[i + 1].c == '_'
    ensures var j := RunEnd(s, i + 1, IsLiteralRunChar);
      && RunEnd(s, i + 2, IsLiteralRunChar) == j
      && LiteralBits(s[i + 1..j]) == "0" + LiteralBits(s[i + 2..j])
      && BinaryValue(LiteralBits(s[i + 1..j])) == BinaryValue(LiteralBits(s[i + 2..j]))
  {
    var j := RunEnd(s, i + 1, IsLiteralRunChar);
    LiteralBitsCons(s[i + 1..j]);
    assert s[i + 1..j][1..] == s[i + 2..j];
    BinaryLeadingZero(LiteralBits(s[i + 2..j]));
  }

  lemma {:induction false} LiteralBitsCons(cs: seq<Char>)
    requires cs != [] && cs[0].c == '_'
    ensures LiteralBits(cs) == "0" + LiteralBits(cs[1..])
    decreases |cs|
  {
    if |cs| > 1 {
      var init, last := cs[..|cs| - 1], cs[|cs| - 1];
      assert init[1..] == cs[1..][..|cs| - 2];
      LiteralBitsCons(init);
    }
  }

  /** A lead outside every handled class panics, and only such a lead gives
      `UnrecognizedCharacter`. */
  lemma UnrecognizedLead(s: seq<Char>, i: nat)
    requires i < |s|
    ensures var c := s[i].c;
      (ScanSpec(s, i).Abort? && ScanSpec(s, i).error == UnrecognizedCharacter)
      <==> !(|| IsWhitespace(c) || Punctuator(c).Some? || c == '/'
             || IsAsciiAlphabetic(c) || IsAsciiDigit(c) || c == '"')
  {
  }

  /** `scan` as written never produces `Slash`: a lone '/' ends the scan
      instead. */
  lemma NeverSlash(s: seq<Char>, i: nat)
    requires i <= |s|
    ensures ScanSpec(s, i).Emit? ==> ScanSpec(s, i).token.kind != Slash
  {
  }

  /** The indexes at which the tokens of a run of `scan` calls start: one
      character per token, strictly increasing, each token tagged with the
      position of the character at its index. */
  lemma {:induction false} TokenStarts(s: seq<Char>, i: nat) returns (ks: seq<nat>)
    requires i <= |s|
    ensures |ks| == |TokenStream(s, i).tokens|
    ensures forall n :: 0 <= n < |ks| ==> i <= ks[n] < |s|
    ensures forall n :: 0 <= n < |ks| ==>
      TokenStream(s, i).tokens[n].lineNum == s[ks[n]].lineNum &&
      TokenStream(s, i).tokens[n].rowNum == s[ks[n]].rowNum
    ensures forall n, m :: 0 <= n < m < |ks| ==> ks[n] < ks[m]
    decreases |s| - i
  {
    match ScanSpec(s, i)
    case Emit(t, j) =>
      var rest := TokenStarts(s, j);
      ks := [i] + rest;
    case Stop(_) =>
      ks := [];
    case Abort(_, _, _) =>
      ks := [];
  }

  /** On a stream built from lines, the tokens come in source order: each
      starts strictly after the one before it. */
  lemma TokensInSourceOrder(lines: seq<string>, n: nat, m: nat)
    requires n < m < |TokenStream(CharsIter(lines), 0).tokens|
    ensures var ts := TokenStream(CharsIter(lines), 0).tokens;
      Precedes(ts[n].lineNum, ts[n].rowNum, ts[m].lineNum, ts[m].rowNum)
  {
    var ks := TokenStarts(CharsIter(lines), 0);
    CharsIterOrdered(lines, ks[n], ks[m]);
  }

  /** Empty input yields no token at all. */
  lemma EmptyInput()
    ensures TokenStream(CharsIter([]), 0) == Lexed([], None)
  {
  }

  /** Input made only of whitespace yields exactly one `Whitespace` token, at
      line 1, column 1. */
  lemma WhitespaceOnlyInput(lines: seq<string>)
    requires lines != []
    requires forall i, j :: 0 <= i < |lines| && 0 <= j < |lines[i]| ==> IsWhitespace(lines[i][j])
    ensures TokenStream(CharsIter(lines), 0) == Lexed([Token(1, 1, Whitespace)], None)
  {
    var s := CharsIter(lines);
    forall k | 0 <= k < |s|
      ensures IsWhitespace(s[k].c)
    {
      var i, j := CharsIterLocate(lines, k);
    }
    assert Offset(lines, 0) == 0;
    CharsIterAt(lines, 0, 0);
    RunEndUnique(s, 1, IsWhitespace, |s|);
    assert TokenStream(s, |s|) == Lexed([], None);
  }
}
