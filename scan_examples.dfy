/** Whole-input examples: the token streams of small sources, as the driver
    loop would print them. */
module ScanExamples {
  import opened Options
  import opened Chars
  import opened Tokens
  import opened Scanner
  import ScannerFacts

  /** One `scan` step that emits `t` and moves to `j`: the stream from `i` is
      `t` followed by the stream from `j`. */
  lemma StreamStep(s: seq<Char>, i: nat, t: Token, j: nat)
    requires i <= j <= |s| && ScanSpec(s, i) == Emit(t, j)
    ensures TokenStream(s, i) == Lexed([t] + TokenStream(s, j).tokens, TokenStream(s, j).failure)
  {
  }

  /** A word led at `i` that runs to `j` and is not reserved is `Ident` of
      its text. */
  lemma IdentStep(s: seq<Char>, i: nat, j: nat)
    requires i < j <= |s| && IsAsciiAlphabetic(s[i].c)
    requires forall k :: i + 1 <= k < j ==> IsWordChar(s[k].c)
    requires j == |s| || !IsWordChar(s[j].c)
    requires DetectReserved(Text(s[i..j])).None?
    ensures ScanSpec(s, i) == Emit(Token(s[i].lineNum, s[i].rowNum, Ident(Text(s[i..j]))), j)
  {
    RunEndUnique(s, i + 1, IsWordChar, j);
  }

  /** A word led at `i` that runs to `j` and spells a reserved word is that
      reserved word. */
  lemma ReservedStep(s: seq<Char>, i: nat, j: nat, k: ReservedKind)
    requires i < j <= |s| && IsAsciiAlphabetic(s[i].c)
    requires forall n :: i + 1 <= n < j ==> IsWordChar(s[n].c)
    requires j == |s| || !IsWordChar(s[j].c)
    requires DetectReserved(Text(s[i..j])) == Some(k)
    ensures ScanSpec(s, i) == Emit(Token(s[i].lineNum, s[i].rowNum, Reserved(k)), j)
  {
    RunEndUnique(s, i + 1, IsWordChar, j);
  }

  /** A line terminator followed by a non-blank, or by the end, is a
      one-character `Whitespace` token. */
  lemma NewlineStep(s: seq<Char>, i: nat)
    requires i < |s| && s[i].c == '\n'
    requires i + 1 == |s| || !IsWhitespace(s[i + 1].c)
    ensures ScanSpec(s, i) == Emit(Token(s[i].lineNum, s[i].rowNum, Whitespace), i + 1)
  {
    RunEndUnique(s, i + 1, IsWhitespace, i + 1);
  }

  /** `ab` and `cd` on two lines: each line's terminator is a `Whitespace`
      token at the column after the line's last character. */
  lemma TwoLines()
    ensures TokenStream(CharsIter(["ab", "cd"]), 0)
         == Lexed([Token(1, 1, Ident("ab")), Token(1, 3, Whitespace),
                   Token(2, 1, Ident("cd")), Token(2, 3, Whitespace)], None)
  {
    StreamAbCd();
    AbCdTokens(CharsIter(["ab", "cd"]));
  }

  lemma AbCdTokens(s: seq<Char>)
    requires |s| == 6
    requires s[0] == Char(1, 1, 'a') && s[1] == Char(1, 2, 'b') && s[2] == Char(1, 3, '\n')
    requires s[3] == Char(2, 1, 'c') && s[4] == Char(2, 2, 'd') && s[5] == Char(2, 3, '\n')
    ensures TokenStream(s, 0)
         == Lexed([Token(1, 1, Ident("ab")), Token(1, 3, Whitespace),
                   Token(2, 1, Ident("cd")), Token(2, 3, Whitespace)], None)
  {
    assert Text(s[0..2]) == "ab";
    IdentStep(s, 0, 2);
    NewlineStep(s, 2);
    assert Text(s[3..5]) == "cd";
    IdentStep(s, 3, 5);
    NewlineStep(s, 5);
    StreamStep(s, 5, Token(2, 3, Whitespace), 6);
    StreamStep(s, 3, Token(2, 1, Ident("cd")), 5);
    StreamStep(s, 2, Token(1, 3, Whitespace), 3);
    StreamStep(s, 0, Token(1, 1, Ident("ab")), 2);
  }

  /** A line comment stops before its line's terminator, which is scanned as
      `Whitespace` at column 9. */
  lemma CommentLine()
    ensures TokenStream(CharsIter(["// hello"]), 0)
         == Lexed([Token(1, 1, Comment), Token(1, 9, Whitespace)], None)
  {
    var s := CharsIter(["// hello"]);
    StreamComment();
    RunEndUnique(s, 2, NotNewline, 8);
    RunEndUnique(s, 9, IsWhitespace, 9);
    StreamStep(s, 8, Token(1, 9, Whitespace), 9);
    StreamStep(s, 0, Token(1, 1, Comment), 8);
  }

  /** `type` is reserved; `type2` is an identifier, since the whole word must
      match. */
  lemma Keywords()
    ensures TokenStream(CharsIter(["type"]), 0)
         == Lexed([Token(1, 1, Reserved(Type)), Token(1, 5, Whitespace)], None)
    ensures TokenStream(CharsIter(["type2"]), 0)
         == Lexed([Token(1, 1, Ident("type2")), Token(1, 6, Whitespace)], None)
  {
    StreamType();
    TypeTokens(CharsIter(["type"]));
    StreamType2();
    Type2Tokens(CharsIter(["type2"]));
  }

  lemma TypeTokens(s: seq<Char>)
    requires |s| == 5 && s[0] == Char(1, 1, 't') && s[1].c == 'y' && s[2].c == 'p' && s[3].c == 'e'
    requires s[4] == Char(1, 5, '\n')
    ensures TokenStream(s, 0) == Lexed([Token(1, 1, Reserved(Type)), Token(1, 5, Whitespace)], None)
  {
    assert Text(s[0..4]) == "type";
    ReservedStep(s, 0, 4, Type);
    NewlineStep(s, 4);
    StreamStep(s, 4, Token(1, 5, Whitespace), 5);
    StreamStep(s, 0, Token(1, 1, Reserved(Type)), 4);
  }

  lemma Type2Tokens(s: seq<Char>)
    requires |s| == 6 && s[0] == Char(1, 1, 't') && s[1].c == 'y' && s[2].c == 'p' && s[3].c == 'e'
    requires s[4].c == '2' && s[5] == Char(1, 6, '\n')
    ensures TokenStream(s, 0) == Lexed([Token(1, 1, Ident("type2")), Token(1, 6, Whitespace)], None)
  {
    assert Text(s[0..5]) == "type2";
    IdentStep(s, 0, 5);
    NewlineStep(s, 5);
    StreamStep(s, 5, Token(1, 6, Whitespace), 6);
    StreamStep(s, 0, Token(1, 1, Ident("type2")), 5);
  }

  /** `"_@_@"` is a literal of width 4 and value 5 (bits 0101); the closing
      '"' is swallowed by the run. */
  lemma BitLiteral()
    ensures TokenStream(CharsIter(["\"_@_@\""]), 0)
         == Lexed([Token(1, 1, Literal(4, 5)), Token(1, 7, Whitespace)], None)
  {
    var s := CharsIter(["\"_@_@\""]);
    StreamBits();
    RunEndUnique(s, 1, IsLiteralRunChar, 6);
    BitsOfSample(s[1..6]);
    ValueOfSample();
    assert LiteralSpec(s, 0) == Emit(Token(1, 1, Literal(4, 5)), 6);
    RunEndUnique(s, 7, IsWhitespace, 7);
    StreamStep(s, 6, Token(1, 7, Whitespace), 7);
    StreamStep(s, 0, Token(1, 1, Literal(4, 5)), 6);
  }

  lemma BitsOfSample(cs: seq<Char>)
    requires |cs| == 5 && cs[0].c == '_' && cs[1].c == '@' && cs[2].c == '_' && cs[3].c == '@'
    requires cs[4].c == '"'
    ensures LiteralBits(cs) == "0101"
  {
    assert cs[..1][..0] == [];
    assert LiteralBits(cs[..1]) == "0";
    assert cs[..2][..1] == cs[..1];
    assert LiteralBits(cs[..2]) == "01";
    assert cs[..3][..2] == cs[..2];
    assert LiteralBits(cs[..3]) == "010";
    assert cs[..4][..3] == cs[..3];
    assert LiteralBits(cs[..4]) == "0101";
    assert cs[..4] == cs[..|cs| - 1];
  }

  lemma ValueOfSample()
    ensures Numerals.BinaryValue("0101") == 5
  {
    assert "0101"[..3] == "010" && "010"[..2] == "01" && "01"[..1] == "0" && "0"[..0] == "";
  }

  /** `1234` is a number. */
  lemma Number1234()
    ensures TokenStream(CharsIter(["1234"]), 0)
         == Lexed([Token(1, 1, Number(1234)), Token(1, 5, Whitespace)], None)
  {
    var s := CharsIter(["1234"]);
    Stream1234();
    RunEndUnique(s, 1, IsAsciiDigit, 4);
    assert Text(s[0..4]) == "1234";
    Value1234();
    assert NumberSpec(s, 0) == Emit(Token(1, 1, Number(1234)), 4);
    RunEndUnique(s, 5, IsWhitespace, 5);
    StreamStep(s, 4, Token(1, 5, Whitespace), 5);
    StreamStep(s, 0, Token(1, 1, Number(1234)), 4);
  }

  lemma Value1234()
    ensures Numerals.DecimalValue("1234") == 1234
  {
    assert "1234"[..3] == "123" && "123"[..2] == "12" && "12"[..1] == "1" && "1"[..0] == "";
  }

  /** Ten nines overflow `u32` and end the scan. */
  lemma NumberTooLarge()
    ensures TokenStream(CharsIter(["9999999999"]), 0) == Lexed([], Some(NumberOverflow))
  {
    var s := CharsIter(["9999999999"]);
    NinesStream();
    NinesText(s);
    RunEndUnique(s, 1, IsAsciiDigit, 10);
    TenNines();
    ScannerFacts.NumberToken(s, 0);
    assert ScanSpec(s, 0) == Abort(NumberOverflow, 1, 1);
  }

  lemma NinesStream()
    ensures CharsIter(["9999999999"])
         == [Char(1, 1, '9'), Char(1, 2, '9'), Char(1, 3, '9'), Char(1, 4, '9'), Char(1, 5, '9'),
             Char(1, 6, '9'), Char(1, 7, '9'), Char(1, 8, '9'), Char(1, 9, '9'), Char(1, 10, '9'),
             Char(1, 11, '\n')]
  {
  }

  lemma NinesText(s: seq<Char>)
    requires |s| == 11 && forall k :: 0 <= k < 10 ==> s[k].c == '9'
    ensures Text(s[0..10]) == "9999999999"
  {
  }

  lemma TenNines()
    ensures Numerals.DecimalValue("9999999999") == 9999999999
  {
    var ds := "9999999999";
    assert ds[..1][..0] == "";
    assert ds[..2][..1] == ds[..1];
    assert ds[..3][..2] == ds[..2];
    assert ds[..4][..3] == ds[..3];
    assert ds[..5][..4] == ds[..4];
    assert ds[..6][..5] == ds[..5];
    assert ds[..7][..6] == ds[..6];
    assert ds[..8][..7] == ds[..7];
    assert ds[..9][..8] == ds[..8];
    assert ds[..|ds| - 1] == ds[..9];
    assert Numerals.DecimalValue(ds[..1]) == 9;
    assert Numerals.DecimalValue(ds[..2]) == 99;
    assert Numerals.DecimalValue(ds[..3]) == 999;
    assert Numerals.DecimalValue(ds[..4]) == 9999;
    assert Numerals.DecimalValue(ds[..5]) == 99999;
    assert Numerals.DecimalValue(ds[..6]) == 999999;
    assert Numerals.DecimalValue(ds[..7]) == 9999999;
    assert Numerals.DecimalValue(ds[..8]) == 99999999;
    assert Numerals.DecimalValue(ds[..9]) == 999999999;
  }

  /** A punctuator is a token of its own, even right after a word: `a;`
      gives `Ident a`, `Semi` and the line's `Whitespace`. */
  lemma SemicolonAfterWord()
    ensures TokenStream(CharsIter(["a;"]), 0)
         == Lexed([Token(1, 1, Ident("a")), Token(1, 2, Semi), Token(1, 3, Whitespace)], None)
  {
    StreamSemi();
    SemiTokens(CharsIter(["a;"]));
  }

  lemma {:induction false} SemiTokens(s: seq<Char>)
    requires |s| == 3 && s[0] == Char(1, 1, 'a') && s[1] == Char(1, 2, ';') && s[2] == Char(1, 3, '\n')
    ensures TokenStream(s, 0)
         == Lexed([Token(1, 1, Ident("a")), Token(1, 2, Semi), Token(1, 3, Whitespace)], None)
  {
    assert Text(s[0..1]) == "a";
    IdentStep(s, 0, 1);
    ScannerFacts.PunctuatorToken(s, 1);
    NewlineStep(s, 2);
    StreamStep(s, 2, Token(1, 3, Whitespace), 3);
    StreamStep(s, 1, Token(1, 2, Semi), 2);
    StreamStep(s, 0, Token(1, 1, Ident("a")), 1);
  }

  /** A '/' not followed by '/' ends the token stream: nothing after it is
      scanned. */
  lemma LoneSlashEndsStream()
    ensures TokenStream(CharsIter(["a/b"]), 0) == Lexed([Token(1, 1, Ident("a"))], None)
  {
    var s := CharsIter(["a/b"]);
    StreamSlash();
    RunEndUnique(s, 1, IsWordChar, 1);
    assert Text(s[0..1]) == "a";
    StreamStep(s, 0, Token(1, 1, Ident("a")), 1);
  }

  /** A '?' in a literal's run ends the scan. */
  lemma QuestionMarkInLiteral()
    ensures TokenStream(CharsIter(["\"_?"]), 0) == Lexed([], Some(UnsupportedLiteralBit))
  {
    StreamQuestion();
    QuestionTokens(CharsIter(["\"_?"]));
  }

  lemma QuestionTokens(s: seq<Char>)
    requires |s| == 4 && s[0] == Char(1, 1, '"') && s[1].c == '_' && s[2].c == '?'
    ensures TokenStream(s, 0) == Lexed([], Some(UnsupportedLiteralBit))
  {
    LiteralUnsupported(s, 0, 2);
    QuoteLead(s);
  }

  /** A '"' lead is scanned as a bit literal. */
  lemma QuoteLead(s: seq<Char>)
    requires s != [] && s[0].c == '"'
    ensures ScanSpec(s, 0) == LiteralSpec(s, 0)
  {
  }

  /** A literal without bits ends the scan. */
  lemma EmptyBitString()
    ensures TokenStream(CharsIter(["\"\";"]), 0) == Lexed([], Some(EmptyLiteral))
  {
    StreamEmptyBits();
    EmptyBitsTokens(CharsIter(["\"\";"]));
  }

  lemma EmptyBitsTokens(s: seq<Char>)
    requires |s| == 4 && s[0] == Char(1, 1, '"') && s[1].c == '"' && s[2].c == ';'
    ensures TokenStream(s, 0) == Lexed([], Some(EmptyLiteral))
  {
    QuoteOnlyBits(s[1..2]);
    LiteralFinish(s, 0, 2);
    QuoteLead(s);
    assert ScanSpec(s, 0) == Abort(EmptyLiteral, 1, 1);
  }

  /** A run made of one '"' pushes no bits. */
  lemma QuoteOnlyBits(cs: seq<Char>)
    requires |cs| == 1 && cs[0].c == '"'
    ensures LiteralBits(cs) == []
  {
    LiteralBitsSnoc([], cs[0]);
    assert cs == [] + [cs[0]];
  }

  /** A lead character no class accepts ends the scan. */
  lemma UnknownLead()
    ensures TokenStream(CharsIter(["_x"]), 0) == Lexed([], Some(UnrecognizedCharacter))
  {
    var s := CharsIter(["_x"]);
    StreamUnderscore();
  }

  // The streams of the sample sources, spelled out.

  lemma StreamAbCd()
    ensures CharsIter(["ab", "cd"]) == [Char(1, 1, 'a'), Char(1, 2, 'b'), Char(1, 3, '\n'), Char(2, 1, 'c'), Char(2, 2, 'd'), Char(2, 3, '\n')]
  {
  }

  lemma StreamComment()
    ensures CharsIter(["// hello"]) == [Char(1, 1, '/'), Char(1, 2, '/'), Char(1, 3, ' '), Char(1, 4, 'h'), Char(1, 5, 'e'), Char(1, 6, 'l'), Char(1, 7, 'l'), Char(1, 8, 'o'), Char(1, 9, '\n')]
  {
  }

  lemma StreamType()
    ensures CharsIter(["type"]) == [Char(1, 1, 't'), Char(1, 2, 'y'), Char(1, 3, 'p'), Char(1, 4, 'e'), Char(1, 5, '\n')]
  {
  }

  lemma StreamType2()
    ensures CharsIter(["type2"]) == [Char(1, 1, 't'), Char(1, 2, 'y'), Char(1, 3, 'p'), Char(1, 4, 'e'), Char(1, 5, '2'), Char(1, 6, '\n')]
  {
  }

  lemma StreamBits()
    ensures CharsIter(["\"_@_@\""]) == [Char(1, 1, '"'), Char(1, 2, '_'), Char(1, 3, '@'), Char(1, 4, '_'), Char(1, 5, '@'), Char(1, 6, '"'), Char(1, 7, '\n')]
  {
  }

  lemma Stream1234()
    ensures CharsIter(["1234"]) == [Char(1, 1, '1'), Char(1, 2, '2'), Char(1, 3, '3'), Char(1, 4, '4'), Char(1, 5, '\n')]
  {
  }

  lemma StreamSemi()
    ensures CharsIter(["a;"]) == [Char(1, 1, 'a'), Char(1, 2, ';'), Char(1, 3, '\n')]
  {
  }

  lemma StreamSlash()
    ensures CharsIter(["a/b"]) == [Char(1, 1, 'a'), Char(1, 2, '/'), Char(1, 3, 'b'), Char(1, 4, '\n')]
  {
  }

  lemma StreamQuestion()
    ensures CharsIter(["\"_?"]) == [Char(1, 1, '"'), Char(1, 2, '_'), Char(1, 3, '?'), Char(1, 4, '\n')]
  {
  }

  lemma StreamEmptyBits()
    ensures CharsIter(["\"\";"]) == [Char(1, 1, '"'), Char(1, 2, '"'), Char(1, 3, ';'), Char(1, 4, '\n')]
  {
  }

  lemma StreamUnderscore()
    ensures CharsIter(["_x"]) == [Char(1, 1, '_'), Char(1, 2, 'x'), Char(1, 3, '\n')]
  {
  }
}
