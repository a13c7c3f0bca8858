/** The scanners on one printed line: which stretches of a printed scheme no scanner reacts
    to, and what a printed literal, name or line end looks like to them. */
module SchemeLines {
  import opened Wrappers
  import opened SchemeLexer
  import opened SchemeScan
  import opened SchemeSpans
  import opened SchemePrint

  // ---------- stretches of text no scanner reacts to ----------

  /** text[i..j] holds whole lexemes and words, no brace and no start of an attributes
      block; with `noKey` also no word `key`. */
  predicate Calm(text: string, i: nat, j: nat, limit: nat, noKey: bool)
    requires j <= limit <= |text|
    decreases j - i
  {
    if i >= j then i == j
    else if IsLexeme(text, i, limit) then
      Step(text, i, limit).Ok? && Calm(text, Step(text, i, limit).value, j, limit, noKey)
    else if text[i] == '{' || text[i] == '}' then false
    else if IsWordStart(text[i]) then
      var w := WordEnd(text, i + 1, limit);
      && (text[i..w] == "attributes" ==> BlockOpen(text, w, limit).None?)
      && (noKey ==> text[i..w] != "key")
      && Calm(text, w, j, limit, noKey)
    else Calm(text, i + 1, j, limit, noKey)
  }

  lemma {:induction false} CalmJoin(text: string, i: nat, j: nat, k: nat, limit: nat, noKey: bool)
    requires j <= k <= limit <= |text|
    requires Calm(text, i, j, limit, noKey) && Calm(text, j, k, limit, noKey)
    ensures Calm(text, i, k, limit, noKey)
    decreases j - i
  {
    hide StringEnd, LineEnd, WordEnd, BlockOpen;
    if i < j {
      if IsLexeme(text, i, limit) {
        CalmJoin(text, Step(text, i, limit).value, j, k, limit, noKey);
      } else if IsWordStart(text[i]) {
        CalmJoin(text, WordEnd(text, i + 1, limit), j, k, limit, noKey);
      } else {
        CalmJoin(text, i + 1, j, k, limit, noKey);
      }
    }
  }

  lemma {:induction false} CalmBlocks(text: string, i: nat, j: nat, limit: nat, depth: nat)
    requires i <= j <= limit <= |text| && Calm(text, i, j, limit, false)
    ensures BlocksFrom(text, i, limit, depth) == BlocksFrom(text, j, limit, depth)
    decreases j - i
  {
    hide StringEnd, LineEnd, WordEnd, BlockOpen, BlocksFrom, Find;
    if i < j {
      BlocksElsewhere(text, i, limit, depth);
      if IsLexeme(text, i, limit) {
        CalmBlocks(text, Step(text, i, limit).value, j, limit, depth);
      } else if IsWordStart(text[i]) {
        CalmBlocks(text, WordEnd(text, i + 1, limit), j, limit, depth);
      } else {
        CalmBlocks(text, i + 1, j, limit, depth);
      }
    }
  }

  lemma {:induction false} CalmClose(text: string, i: nat, j: nat, limit: nat, depth: nat)
    requires i <= j <= limit <= |text| && Calm(text, i, j, limit, false) && depth >= 1
    ensures CloseFrom(text, i, limit, depth) == CloseFrom(text, j, limit, depth)
    decreases j - i
  {
    hide StringEnd, LineEnd, WordEnd, BlockOpen;
    if i < j {
      if IsLexeme(text, i, limit) {
        CalmClose(text, Step(text, i, limit).value, j, limit, depth);
      } else if IsWordStart(text[i]) {
        ClosePlain(text, i, WordEnd(text, i + 1, limit), limit, depth);
        CalmClose(text, WordEnd(text, i + 1, limit), j, limit, depth);
      } else {
        CalmClose(text, i + 1, j, limit, depth);
      }
    }
  }

  lemma {:induction false} CalmKey(text: string, i: nat, j: nat, limit: nat, depth: int, key: Option<Codes>,
                                   noKey: bool)
    requires i <= j <= limit <= |text| && Calm(text, i, j, limit, noKey)
    requires depth == 1 ==> noKey
    ensures KeyFrom(text, i, limit, depth, key) == KeyFrom(text, j, limit, depth, key)
    decreases j - i
  {
    hide StringEnd, LineEnd, WordEnd, BlockOpen, StringsFrom;
    if i < j {
      if IsLexeme(text, i, limit) {
        CalmKey(text, Step(text, i, limit).value, j, limit, depth, key, noKey);
      } else if IsWordStart(text[i]) {
        CalmKey(text, WordEnd(text, i + 1, limit), j, limit, depth, key, noKey);
      } else {
        CalmKey(text, i + 1, j, limit, depth, key, noKey);
      }
    }
  }

  lemma {:induction false} CalmForget(text: string, i: nat, j: nat, limit: nat)
    requires i <= j <= limit <= |text| && Calm(text, i, j, limit, true)
    ensures Calm(text, i, j, limit, false)
    decreases j - i
  {
    hide StringEnd, LineEnd, WordEnd, BlockOpen;
    if i < j {
      if IsLexeme(text, i, limit) {
        CalmForget(text, Step(text, i, limit).value, j, limit);
      } else if IsWordStart(text[i]) {
        CalmForget(text, WordEnd(text, i + 1, limit), j, limit);
      } else {
        CalmForget(text, i + 1, j, limit);
      }
    }
  }

  // ---------- what the pieces of a line look like to the scanners ----------

  lemma {:induction false} BlanksSkip(text: string, i: nat, j: nat, limit: nat)
    requires i <= j <= limit <= |text|
    requires forall k :: i <= k < j ==> IsBlank(text[k])
    ensures SkipBlanks(text, i, limit) == SkipBlanks(text, j, limit)
    decreases j - i
  {
    if i < j {
      BlanksSkip(text, i + 1, j, limit);
    }
  }

  lemma {:induction false} BlanksCalm(text: string, i: nat, j: nat, limit: nat)
    requires i <= j <= limit <= |text|
    requires forall k :: i <= k < j ==> IsBlank(text[k]) || text[k] == ':' || text[k] == ';' || text[k] == ','
    ensures Calm(text, i, j, limit, true)
    decreases j - i
  {
    if i < j {
      BlanksCalm(text, i + 1, j, limit);
    }
  }

  /** The next thing after position j that is not blank is neither ':', '{' nor a quote. */
  predicate Solid(text: string, j: nat, limit: nat)
    requires j <= limit <= |text|
  {
    var b := SkipBlanks(text, j, limit);
    b == limit || (text[b] != ':' && text[b] != '{' && !IsQuote(text[b]))
  }

  lemma {:induction false} WordRun(text: string, i: nat, j: nat, limit: nat)
    requires i <= j <= limit <= |text|
    requires forall k :: i <= k < j ==> IsWordChar(text[k])
    requires j < limit ==> !IsWordChar(text[j])
    ensures WordEnd(text, i, limit) == j
    decreases j - i
  {
    if i < j {
      WordRun(text, i + 1, j, limit);
    }
  }

  lemma {:induction false} StringEndRun(text: string, quote: char, i: nat, j: nat, limit: nat)
    requires i <= j <= limit <= |text|
    requires forall k :: i <= k < j ==> text[k] != quote && text[k] != '\\'
    ensures StringEnd(text, quote, i, limit) == StringEnd(text, quote, j, limit)
    decreases j - i
  {
    if i < j {
      StringEndRun(text, quote, i + 1, j, limit);
    }
  }

  lemma {:induction false} StringEndPiece(text: string, quote: char, i: nat, p: Piece, limit: nat)
    requires IsQuote(quote) && GoodPiece(p, quote)
    requires At(text, i, PrintPiece(p)) && i + |PrintPiece(p)| <= limit <= |text|
    ensures StringEnd(text, quote, i, limit) == StringEnd(text, quote, i + |PrintPiece(p)|, limit)
  {
    hide PrintPiece, GoodPiece, At, StringEnd;
    var printed := PrintPiece(p);
    AtChars(text, i, printed);
    assert text[i + 0] == printed[0];
    PieceChars(p, quote);
    if printed[0] == '\\' {
      forall k | i + 2 <= k < i + |printed|
        ensures text[k] != quote && text[k] != '\\'
      {
        assert text[i + (k - i)] == printed[k - i];
      }
      StringEndPair(text, quote, i, limit);
      StringEndRun(text, quote, i + 2, i + |printed|, limit);
    } else {
      StringEndRun(text, quote, i, i + 1, limit);
    }
  }

  /** A piece is one character, or a backslash, any character, and then digits. */
  lemma PieceChars(p: Piece, quote: char)
    requires IsQuote(quote) && GoodPiece(p, quote)
    ensures var s := PrintPiece(p);
            if s[0] == '\\' then |s| >= 2 && forall k :: 2 <= k < |s| ==> s[k] != quote && s[k] != '\\'
            else |s| == 1 && s[0] != quote
  {
    hide Digits, SimpleEscape, Power;
    match p
    case Plain(_) =>
    case Escape(_) =>
    case Octal(n, width) => DigitsHaveNone("\\", Digits(n, 8, NoCase(width)), quote);
    case Hex(n, cases) => DigitsHaveNone("\\x", Digits(n, 16, cases), quote);
    case Unicode4(n, cases) => DigitsHaveNone("\\u", Digits(n, 16, cases), quote);
    case Unicode8(n, cases) => DigitsHaveNone("\\U", Digits(n, 16, cases), quote);
  }

  lemma DigitsHaveNone(head: string, digits: string, quote: char)
    requires 1 <= |head| <= 2 && IsQuote(quote) && forall k :: 0 <= k < |digits| ==> IsHexDigit(digits[k])
    ensures forall k :: 2 <= k < |head + digits| ==> (head + digits)[k] != quote && (head + digits)[k] != '\\'
  {
    forall k | 2 <= k < |head + digits|
      ensures (head + digits)[k] != quote && (head + digits)[k] != '\\'
    {
      assert (head + digits)[k] == digits[k - |head|];
    }
  }

  lemma StringEndPair(text: string, quote: char, i: nat, limit: nat)
    requires i + 2 <= limit <= |text| && text[i] == '\\'
    ensures StringEnd(text, quote, i, limit) == StringEnd(text, quote, i + 2, limit)
  {
  }

  lemma {:induction false} StringEndPieces(text: string, quote: char, i: nat, ps: seq<Piece>, limit: nat)
    requires IsQuote(quote) && forall p :: p in ps ==> GoodPiece(p, quote)
    requires At(text, i, PrintPieces(ps)) && i + |PrintPieces(ps)| <= limit <= |text|
    ensures StringEnd(text, quote, i, limit) == StringEnd(text, quote, i + |PrintPieces(ps)|, limit)
    decreases |ps|
  {
    hide At, StringEnd, PrintPiece, GoodPiece;
    if ps != [] {
      AtConcat(text, i, PrintPiece(ps[0]), PrintPieces(ps[1..]));
      StringEndPiece(text, quote, i, ps[0], limit);
      StringEndPieces(text, quote, i + |PrintPiece(ps[0])|, ps[1..], limit);
    }
  }

  lemma LiteralParts(text: string, i: nat, l: Literal)
    requires At(text, i, PrintLiteral(l))
    ensures |PrintLiteral(l)| == |PrintPieces(l.pieces)| + 2 && i + |PrintLiteral(l)| <= |text|
    ensures text[i] == l.quote && At(text, i + 1, PrintPieces(l.pieces))
    ensures text[i + 1 + |PrintPieces(l.pieces)|] == l.quote
    ensures text[i..i + |PrintLiteral(l)|] == PrintLiteral(l)
  {
    hide PrintPieces;
    AtConcat(text, i, [l.quote] + PrintPieces(l.pieces), [l.quote]);
    AtConcat(text, i, [l.quote], PrintPieces(l.pieces));
    AtChars(text, i, [l.quote]);
    AtChars(text, i + 1 + |PrintPieces(l.pieces)|, [l.quote]);
  }

  lemma StringCloses(text: string, quote: char, i: nat, limit: nat)
    requires i < limit <= |text| && text[i] == quote && quote != '\\'
    ensures StringEnd(text, quote, i, limit) == Ok(i + 1)
  {
  }

  /** A printed literal is one lexeme, with its meaning. */
  lemma {:induction false} LiteralLexeme(text: string, i: nat, l: Literal, limit: nat)
    requires GoodLiteral(l) && At(text, i, PrintLiteral(l)) && i + |PrintLiteral(l)| <= limit <= |text|
    ensures |PrintLiteral(l)| >= 2 && text[i] == l.quote
    ensures StringEnd(text, l.quote, i + 1, limit) == Ok(i + |PrintLiteral(l)|)
    ensures DecodeLiteral(text[i..i + |PrintLiteral(l)|]) == Ok(Meaning(l.pieces))
  {
    hide DecodeLiteral, PrintPieces, StringEnd, GoodPiece;
    LiteralParts(text, i, l);
    StringEndPieces(text, l.quote, i + 1, l.pieces, limit);
    StringCloses(text, l.quote, i + 1 + |PrintPieces(l.pieces)|, limit);
    DecodePrinted(l);
  }

  /** The first part of a value and the rest of it. */
  lemma PartsSplit(text: string, i: nat, ps: seq<Part>)
    requires |ps| > 0 && GoodPart(ps[0]) && At(text, i, PrintParts(ps))
    ensures var q := i + |ps[0].gap|; var e := q + |PrintLiteral(ps[0].literal)|;
            && i <= q < e <= |text| && i + |PrintParts(ps)| == e + |PrintParts(ps[1..])|
            && (forall k :: i <= k < q ==> IsBlank(text[k]))
            && At(text, q, PrintLiteral(ps[0].literal)) && At(text, e, PrintParts(ps[1..]))
            && text[q] == ps[0].literal.quote && IsQuote(text[q]) && IsQuote(text[e - 1])
  {
    hide At, PrintLiteral, PrintParts, IsQuote, IsBlank, EndsLine, GoodPart;
    var q, printed, rest := i + |ps[0].gap|, PrintLiteral(ps[0].literal), PrintParts(ps[1..]);
    PartsUnfold(ps);
    PartIs(ps[0]);
    AtConcat(text, i, ps[0].gap, printed + rest);
    AtConcat(text, q, printed, rest);
    AtLength(text, q + |printed|, rest);
    EolParts(text, i, ps[0].gap);
    QuotesOf(text, q, ps[0].literal);
  }

  lemma PartsUnfold(ps: seq<Part>)
    requires |ps| > 0
    ensures PrintParts(ps) == ps[0].gap + (PrintLiteral(ps[0].literal) + PrintParts(ps[1..]))
  {
  }

  lemma PartIs(p: Part)
    requires GoodPart(p)
    ensures AllBlank(p.gap) && IsQuote(p.literal.quote)
  {
  }

  lemma QuotesOf(text: string, q: nat, l: Literal)
    requires At(text, q, PrintLiteral(l))
    ensures |PrintLiteral(l)| >= 2 && q + |PrintLiteral(l)| <= |text|
    ensures text[q] == l.quote && text[q + |PrintLiteral(l)| - 1] == l.quote
  {
    hide At, PrintPieces;
    LiteralParts(text, q, l);
  }

  lemma GoodQuote(l: Literal)
    requires GoodLiteral(l)
    ensures IsQuote(l.quote)
  {
  }

  lemma {:induction false} PartsCalm(text: string, i: nat, ps: seq<Part>, limit: nat)
    requires forall p :: p in ps ==> GoodPart(p)
    requires At(text, i, PrintParts(ps)) && i + |PrintParts(ps)| <= limit <= |text|
    ensures Calm(text, i, i + |PrintParts(ps)|, limit, true)
    decreases |ps|
  {
    hide At, PrintParts, GoodPart, Calm, PrintLiteral;
    if ps == [] {
      NoParts();
      NothingCalm(text, i, limit, true);
    } else {
      assert ps[0] in ps && forall p :: p in ps[1..] ==> p in ps;
      var q, e := i + |ps[0].gap|, i + |ps[0].gap| + |PrintLiteral(ps[0].literal)|;
      PartsSplit(text, i, ps);
      BlanksCalm(text, i, q, limit);
      LiteralCalm(text, q, ps[0], limit);
      CalmJoin(text, i, q, e, limit, true);
      PartsCalm(text, e, ps[1..], limit);
      CalmJoin(text, i, e, i + |PrintParts(ps)|, limit, true);
    }
  }

  lemma NoParts()
    ensures PrintParts([]) == ""
  {
  }

  lemma LiteralCalm(text: string, q: nat, p: Part, limit: nat)
    requires GoodPart(p) && At(text, q, PrintLiteral(p.literal)) && q + |PrintLiteral(p.literal)| <= limit <= |text|
    ensures Calm(text, q, q + |PrintLiteral(p.literal)|, limit, true)
  {
    hide At, PrintLiteral, StringEnd, DecodeLiteral, LineEnd, WordEnd, BlockOpen, Meaning;
    LiteralLexeme(text, q, p.literal, limit);
  }

  /** Reading strings over printed literals gives their joined meaning. */
  lemma {:induction false} PartsRead(text: string, i: nat, ps: seq<Part>, limit: nat)
    requires |ps| > 0 && forall p :: p in ps ==> GoodPart(p)
    requires At(text, i, PrintParts(ps)) && i + |PrintParts(ps)| <= limit <= |text|
    requires Solid(text, i + |PrintParts(ps)|, limit)
    ensures StringsFrom(text, SkipBlanks(text, i, limit), limit) ==
            Ok(StringsRead(Some(PartsMeaning(ps)), SkipBlanks(text, i + |PrintParts(ps)|, limit)))
    decreases |ps|
  {
    hide At, PrintParts, PrintLiteral, GoodPart, StringEnd, DecodeLiteral, SkipBlanks, Meaning, Solid, StringsFrom,
      IsQuote, IsBlank;
    assert ps[0] in ps && forall p :: p in ps[1..] ==> p in ps;
    PartsSplit(text, i, ps);
    var q, e := i + |ps[0].gap|, i + |ps[0].gap| + |PrintLiteral(ps[0].literal)|;
    FirstLexeme(text, q, ps[0], limit);
    BlanksSkip(text, i, q, limit);
    QuoteStops(text, q, limit);
    StringsStep(text, q, limit, e, Meaning(ps[0].literal.pieces));
    if |ps| == 1 {
      OnePart(ps);
      NoMoreStrings(text, e, limit);
    } else {
      PartsRead(text, e, ps[1..], limit);
      assert PartsMeaning(ps) == Meaning(ps[0].literal.pieces) + PartsMeaning(ps[1..]);
    }
  }

  lemma FirstLexeme(text: string, q: nat, p: Part, limit: nat)
    requires GoodPart(p) && At(text, q, PrintLiteral(p.literal)) && q + |PrintLiteral(p.literal)| <= limit <= |text|
    ensures q < q + |PrintLiteral(p.literal)| && text[q] == p.literal.quote
    ensures StringEnd(text, text[q], q + 1, limit) == Ok(q + |PrintLiteral(p.literal)|)
    ensures DecodeLiteral(text[q..q + |PrintLiteral(p.literal)|]) == Ok(Meaning(p.literal.pieces))
  {
    hide At, PrintLiteral, StringEnd, DecodeLiteral, Meaning;
    LiteralLexeme(text, q, p.literal, limit);
  }

  lemma QuoteStops(text: string, q: nat, limit: nat)
    requires q < limit <= |text| && IsQuote(text[q])
    ensures SkipBlanks(text, q, limit) == q
  {
  }

  lemma OnePart(ps: seq<Part>)
    requires |ps| == 1
    ensures PartsMeaning(ps) == Meaning(ps[0].literal.pieces) && PrintParts(ps[1..]) == ""
  {
    hide Meaning;
    assert Meaning(ps[0].literal.pieces) + [] == Meaning(ps[0].literal.pieces);
  }

  lemma StringsStep(text: string, i: nat, limit: nat, e: nat, value: Codes)
    requires i < limit <= |text| && IsQuote(text[i])
    requires StringEnd(text, text[i], i + 1, limit) == Ok(e) && i <= e <= limit
    requires DecodeLiteral(text[i..e]) == Ok(value)
    ensures StringsFrom(text, i, limit) == WithParts(Some(value), StringsFrom(text, SkipBlanks(text, e, limit), limit))
  {
    hide StringEnd, DecodeLiteral, SkipBlanks, WithParts;
  }

  lemma NoMoreStrings(text: string, e: nat, limit: nat)
    requires e <= limit <= |text| && Solid(text, e, limit)
    ensures var b := SkipBlanks(text, e, limit);
            StringsFrom(text, b, limit) == Ok(StringsRead(None, b))
  {
  }

  // ---------- lines ----------

  lemma EolBlank(e: string)
    requires GoodEol(e)
    ensures AllBlank(e)
  {
  }

  /** White space that is printed in the text. */
  lemma EolParts(text: string, i: nat, e: string)
    requires At(text, i, e) && AllBlank(e)
    ensures i + |e| <= |text|
    ensures forall k :: i <= k < i + |e| ==> IsBlank(text[k])
    ensures EndsLine(e) ==> text[i + |e| - 1] == '\n'
  {
    AtChars(text, i, e);
    forall k | i <= k < i + |e|
      ensures IsBlank(text[k])
    {
      assert text[i + (k - i)] == e[k - i];
    }
    if EndsLine(e) {
      assert text[i + (|e| - 1)] == e[|e| - 1];
    }
  }

  lemma {:induction false} TabsRun(text: string, i: nat, j: nat)
    requires i <= j < |text|
    requires forall k :: i <= k < j ==> text[k] == ' ' || text[k] == '\t'
    requires text[j] != ' ' && text[j] != '\t'
    ensures PassTabs(text, i) == j
    decreases j - i
  {
    if i < j {
      TabsRun(text, i + 1, j);
    }
  }

  lemma IndentParts(text: string, i: nat, indent: string, rest: string)
    requires At(text, i, indent + rest) && Indentation(indent)
    ensures i + |indent| + |rest| <= |text| && |indent + rest| == |indent| + |rest|
    ensures forall k :: i <= k < i + |indent| ==> text[k] == ' ' || text[k] == '\t'
    ensures At(text, i + |indent|, rest)
  {
    hide At;
    AtConcat(text, i, indent, rest);
    AtChars(text, i, indent);
    forall k | i <= k < i + |indent|
      ensures text[k] == ' ' || text[k] == '\t'
    {
      assert text[i + (k - i)] == indent[k - i];
    }
  }

  lemma NameParts(text: string, i: nat, name: string, rest: string, limit: nat)
    requires At(text, i, name + rest) && Identifier(name)
    requires i + |name| < limit <= |text|
    requires |rest| > 0 && !IsWordChar(rest[0])
    ensures i + |name| + |rest| <= |text| && |name + rest| == |name| + |rest|
    ensures IsWordStart(text[i]) && text[i..i + |name|] == name
    ensures forall k :: i <= k < i + |name| ==> IsWordChar(text[k])
    ensures WordEnd(text, i + 1, limit) == i + |name|
    ensures At(text, i + |name|, rest)
  {
    hide At;
    AtConcat(text, i, name, rest);
    AtChars(text, i, name);
    AtSlice(text, i, name);
    AtChars(text, i + |name|, rest);
    assert text[i + 0] == name[0] && text[i + |name| + 0] == rest[0];
    forall k | i <= k < i + |name|
      ensures IsWordChar(text[k])
    {
      assert text[i + (k - i)] == name[k - i];
    }
    WordRun(text, i + 1, i + |name|, limit);
  }

  lemma AtSlice(text: string, i: nat, s: string)
    requires At(text, i, s)
    ensures i + |s| <= |text| && text[i..i + |s|] == s
  {
  }

  /** A word is calm unless it opens an attributes block, or is a `key` where that matters. */
  lemma WordCalm(text: string, i: nat, w: nat, limit: nat, noKey: bool)
    requires i < w <= limit <= |text|
    requires IsWordStart(text[i]) && WordEnd(text, i + 1, limit) == w
    requires text[i..w] == "attributes" ==> BlockOpen(text, w, limit).None?
    requires noKey ==> text[i..w] != "key"
    ensures Calm(text, i, w, limit, noKey)
  {
    hide WordEnd, BlockOpen, LineEnd, StringEnd;
  }

  lemma {:induction false} CalmWeaken(text: string, i: nat, j: nat, limit: nat, noKey: bool)
    requires i <= j <= limit <= |text| && Calm(text, i, j, limit, true)
    ensures Calm(text, i, j, limit, noKey)
  {
    if !noKey {
      CalmForget(text, i, j, limit);
    }
  }

  /** No word goes on at position j. */
  predicate Stops(text: string, j: nat, limit: nat) {
    j <= limit <= |text| && (j < limit ==> !IsWordChar(text[j]))
  }

  lemma {:induction false} ScalarCalm(text: string, v: nat, token: string, k: nat, limit: nat, noKey: bool)
    requires k <= |token| && Stops(text, v + |token|, limit)
    requires forall m :: 0 <= m < |token| ==> text[v + m] == token[m] && ScalarChar(token[m])
    requires Solid(text, v + |token|, limit)
    requires noKey ==> NoKeyWord(token, k)
    ensures Calm(text, v + k, v + |token|, limit, noKey)
    decreases |token| - k
  {
    hide LineEnd, StringEnd, BlockOpen, Solid, Calm, WordEnd;
    if k == |token| {
      NothingCalm(text, v + k, limit, noKey);
    } else {
      if IsWordStart(token[k]) {
        var w := WordEnd(token, k + 1, |token|);
        forall m | v + k + 1 <= m < v + w
          ensures IsWordChar(text[m])
        {
          assert text[v + (m - v)] == token[m - v];
        }
        assert w < |token| ==> text[v + w] == token[w];
        WordRun(text, v + k + 1, v + w, limit);
        assert text[v + k..v + w] == token[k..w];
        NotOpenAfter(text, v + w, limit);
        WordCalm(text, v + k, v + w, limit, noKey);
        ScalarCalm(text, v, token, w, limit, noKey);
        CalmJoin(text, v + k, v + w, v + |token|, limit, noKey);
      } else {
        MarkCalm(text, v + k, limit, noKey);
        ScalarCalm(text, v, token, k + 1, limit, noKey);
        CalmJoin(text, v + k, v + k + 1, v + |token|, limit, noKey);
      }
    }
  }

  lemma NothingCalm(text: string, i: nat, limit: nat, noKey: bool)
    requires i <= limit <= |text|
    ensures Calm(text, i, i, limit, noKey)
  {
  }

  lemma MarkCalm(text: string, i: nat, limit: nat, noKey: bool)
    requires i < limit <= |text| && ScalarChar(text[i]) && !IsWordStart(text[i])
    ensures Calm(text, i, i + 1, limit, noKey)
  {
    hide LineEnd, StringEnd, BlockOpen, WordEnd;
  }

  lemma NotOpenAfter(text: string, w: nat, limit: nat)
    requires w <= limit <= |text|
    requires Solid(text, w, limit) || (!IsBlank(text[w]) && text[w] != ':' && text[w] != '{')
    ensures BlockOpen(text, w, limit).None?
  {
  }

  function Marker(slashes: bool): string {
    if slashes then "//" else "#"
  }

  lemma CommentUnfold(it: Item)
    requires it.Comment?
    ensures PrintItem(it) == it.indent + ((Marker(it.slashes) + it.remark) + ("\n" + it.tail))
    ensures GoodItem(it) ==> Indentation(it.indent) && '\n' !in it.remark && AllBlank(it.tail)
  {
  }

  /** A comment is one line. */
  lemma LineHasNoNewline(text: string, n: nat, line: string)
    requires At(text, n, line) && '\n' !in line
    ensures n + |line| <= |text| && forall k :: n <= k < n + |line| ==> text[k] != '\n'
  {
    hide At;
    AtChars(text, n, line);
    forall k | n <= k < n + |line|
      ensures text[k] != '\n'
    {
      assert text[n + (k - n)] == line[k - n];
    }
  }

  lemma MarkerStands(text: string, n: nat, slashes: bool, remark: string)
    requires At(text, n, Marker(slashes) + remark)
    ensures n + |Marker(slashes)| <= |text|
    ensures if slashes then text[n] == '/' && text[n + 1] == '/' else text[n] == '#'
  {
    hide At;
    AtConcat(text, n, Marker(slashes), remark);
    AtChars(text, n, Marker(slashes));
    assert text[n + 0] == Marker(slashes)[0] && (slashes ==> text[n + 1] == Marker(slashes)[1]);
  }

  lemma MarkedLine(slashes: bool, remark: string)
    requires '\n' !in remark
    ensures '\n' !in Marker(slashes) + remark && |Marker(slashes) + remark| == (if slashes then 2 else 1) + |remark|
  {
  }

  lemma CommentParts(text: string, i: nat, it: Item)
    requires it.Comment? && GoodItem(it) && At(text, i, PrintItem(it))
    ensures var n := i + |it.indent|; var e := n + (if it.slashes then 2 else 1) + |it.remark|;
            && n < e < |text| && i + |PrintItem(it)| == e + 1 + |it.tail|
            && (forall k :: i <= k < n ==> text[k] == ' ' || text[k] == '\t')
            && (if it.slashes then text[n] == '/' && text[n + 1] == '/' else text[n] == '#')
            && (forall k :: n <= k < e ==> text[k] != '\n') && text[e] == '\n'
            && At(text, e + 1, it.tail)
  {
    hide At, AllBlank, PrintItem, GoodItem, Marker, Indentation;
    var line := Marker(it.slashes) + it.remark;
    var n := i + |it.indent|;
    CommentUnfold(it);
    MarkedLine(it.slashes, it.remark);
    IndentParts(text, i, it.indent, line + ("\n" + it.tail));
    AtConcat(text, n, line, "\n" + it.tail);
    MarkerStands(text, n, it.slashes, it.remark);
    LineHasNoNewline(text, n, line);
    AtConcat(text, n + |line|, "\n", it.tail);
    AtLength(text, n + |line|, "\n");
    AtChar(text, n + |line|, "\n", 0);
  }

  lemma {:induction false} CommentCalm(text: string, i: nat, it: Item, limit: nat)
    requires it.Comment? && GoodItem(it)
    requires At(text, i, PrintItem(it)) && i + |PrintItem(it)| <= limit <= |text|
    ensures |PrintItem(it)| > |it.indent|
    ensures Calm(text, i, i + |PrintItem(it)|, limit, true)
    ensures forall k :: i <= k < i + |it.indent| ==> text[k] == ' ' || text[k] == '\t'
    ensures text[i + |it.indent|] == '#' || text[i + |it.indent|] == '/'
    ensures text[i + |PrintItem(it)| - 1] == '\n'
  {
    hide At, StringEnd, WordEnd, BlockOpen, Calm, AllBlank;
    var n := i + |it.indent|;
    var e := n + (if it.slashes then 2 else 1) + |it.remark|;
    CommentParts(text, i, it);
    NoBlank();
    EolParts(text, e + 1, it.tail);
    BlanksCalm(text, i, n, limit);
    CommentLexeme(text, n, e, limit);
    CalmJoin(text, i, n, e, limit, true);
    BlanksCalm(text, e, i + |PrintItem(it)|, limit);
    CalmJoin(text, i, e, i + |PrintItem(it)|, limit, true);
  }

  lemma NoBlank()
    ensures AllBlank("")
  {
  }

  lemma CommentLexeme(text: string, n: nat, e: nat, limit: nat)
    requires n < e < limit <= |text|
    requires StartsComment(text, n, limit)
    requires (forall k :: n <= k < e ==> text[k] != '\n') && text[e] == '\n'
    ensures Calm(text, n, e, limit, true)
  {
    LineRun(text, n, e, limit);
  }

  lemma {:induction false} LineRun(text: string, n: nat, e: nat, limit: nat)
    requires n <= e < limit <= |text|
    requires (forall k :: n <= k < e ==> text[k] != '\n') && text[e] == '\n'
    ensures LineEnd(text, n, limit) == e
    decreases e - n
  {
    if n < e {
      LineRun(text, n + 1, e, limit);
    }
  }

  /** Where the parts of a field begin. */
  function ValueAt(it: Item, i: nat): nat
    requires it.Field?
  {
    i + |it.indent| + |it.name| + |PrintSep(it.sep)|
  }

  function MarkAt(it: Item, i: nat): nat
    requires it.Field?
  {
    ValueAt(it, i) + |PrintValue(it.value)|
  }

  function EolAt(it: Item, i: nat): nat
    requires it.Field?
  {
    MarkAt(it, i) + |it.mark|
  }

  /** What is printed between a name and its value or brace. */
  lemma SepParts(text: string, w: nat, sep: Sep)
    requires GoodSep(sep) && At(text, w, PrintSep(sep))
    ensures var v := w + |PrintSep(sep)|;
            && v <= |text| && (forall k :: w <= k < v ==> IsBlank(text[k]) || text[k] == ':')
            && forall limit :: v < limit <= |text| && !IsBlank(text[v]) && text[v] != ':' ==>
                 ValueStart(text, w, limit) == v
  {
    hide At, AllBlank, SkipBlanks;
    var colon := if sep.colon then ":" else "";
    var c := w + |sep.before|;
    AtConcat(text, w, sep.before, colon + sep.after);
    AtConcat(text, c, colon, sep.after);
    EolParts(text, w, sep.before);
    AtChars(text, c, colon);
    EolParts(text, c + |colon|, sep.after);
    assert sep.colon ==> text[c + 0] == ':';
    forall limit | w + |PrintSep(sep)| < limit <= |text| && !IsBlank(text[w + |PrintSep(sep)|]) &&
      text[w + |PrintSep(sep)|] != ':'
      ensures ValueStart(text, w, limit) == w + |PrintSep(sep)|
    {
      SepStart(text, w, c, sep.colon, w + |PrintSep(sep)|, limit);
    }
  }

  lemma SepStart(text: string, w: nat, c: nat, colon: bool, v: nat, limit: nat)
    requires w <= c <= v < limit <= |text| && !IsBlank(text[v]) && text[v] != ':'
    requires forall k :: w <= k < c ==> IsBlank(text[k])
    requires colon ==> c < v && text[c] == ':' && forall k :: c < k < v ==> IsBlank(text[k])
    requires !colon ==> forall k :: c <= k < v ==> IsBlank(text[k])
    ensures ValueStart(text, w, limit) == v
  {
    hide SkipBlanks;
    SkipsTo(text, w, if colon then c else v, limit);
    if colon {
      SkipsTo(text, c + 1, v, limit);
    }
  }

  lemma SkipsTo(text: string, i: nat, j: nat, limit: nat)
    requires i <= j < limit <= |text| && !IsBlank(text[j]) && forall k :: i <= k < j ==> IsBlank(text[k])
    ensures SkipBlanks(text, i, limit) == j
  {
    BlanksSkip(text, i, j, limit);
  }

  /** A name is not continued by what is printed after it. */
  lemma SepEndsName(sep: Sep, rest: string)
    requires GoodSep(sep) && (sep.colon || (rest != "" && !IsWordChar(rest[0])))
    ensures PrintSep(sep) + rest != "" && !IsWordChar((PrintSep(sep) + rest)[0])
  {
    if sep.before != "" {
      assert (PrintSep(sep) + rest)[0] == sep.before[0];
    } else if sep.colon {
      assert (PrintSep(sep) + rest)[0] == ':';
    } else if sep.after != "" {
      assert (PrintSep(sep) + rest)[0] == sep.after[0];
    } else {
      assert PrintSep(sep) + rest == rest;
    }
  }

  lemma ValueFirst(value: Value, rest: string)
    requires GoodValue(value)
    ensures |PrintValue(value)| > 0
    ensures var c := (PrintValue(value) + rest)[0];
            !IsBlank(c) && c != '{' && c != ':' && (value.Strings? ==> IsQuote(c) && !IsWordChar(c))
  {
    match value
    case Scalar(token) =>
    case Strings(ps) =>
      assert ps[0] in ps;
      GoodQuote(ps[0].literal);
      assert PrintParts(ps) == PrintLiteral(ps[0].literal) + PrintParts(ps[1..]);
  }

  lemma FieldUnfold(it: Item)
    requires it.Field?
    ensures PrintItem(it) == it.indent + (it.name + (PrintSep(it.sep) + (PrintValue(it.value) + (it.mark + it.eol))))
  {
    hide PrintSep, PrintValue;
  }

  lemma GoodField(it: Item)
    requires it.Field? && GoodItem(it)
    ensures Indentation(it.indent) && Identifier(it.name) && GoodSep(it.sep) && (it.value.Scalar? ==> it.sep.colon)
    ensures GoodValue(it.value) && GoodMark(it.mark) && GoodEol(it.eol)
  {
  }

  /** Where the parts of a printed field are. */
  lemma FieldStands(text: string, i: nat, it: Item)
    requires it.Field? && GoodItem(it) && At(text, i, PrintItem(it))
    ensures var v := ValueAt(it, i); var end := PrintValue(it.value) + (it.mark + it.eol);
            && i + |PrintItem(it)| == v + |end|
            && At(text, i + |it.indent|, it.name + (PrintSep(it.sep) + end))
            && At(text, v - |PrintSep(it.sep)|, PrintSep(it.sep)) && At(text, v, end)
            && At(text, v, PrintValue(it.value)) && At(text, MarkAt(it, i), it.mark) && At(text, EolAt(it, i), it.eol)
            && i + |it.indent| <= |text| && forall k :: i <= k < i + |it.indent| ==> text[k] == ' ' || text[k] == '\t'
  {
    hide At, PrintItem, PrintValue, PrintSep, GoodItem;
    var n, v := i + |it.indent|, ValueAt(it, i);
    var value, end := PrintValue(it.value), it.mark + it.eol;
    FieldUnfold(it);
    GoodField(it);
    IndentParts(text, i, it.indent, it.name + (PrintSep(it.sep) + (value + end)));
    AtConcat(text, n, it.name, PrintSep(it.sep) + (value + end));
    AtConcat(text, n + |it.name|, PrintSep(it.sep), value + end);
    AtConcat(text, v, value, end);
    AtConcat(text, v + |value|, it.mark, it.eol);
  }

  lemma FieldName(text: string, i: nat, it: Item, limit: nat)
    requires it.Field? && GoodItem(it)
    requires At(text, i, PrintItem(it)) && i + |PrintItem(it)| <= limit <= |text|
    ensures var n := i + |it.indent|; var w := n + |it.name|; var v := ValueAt(it, i);
            && n < w <= v < MarkAt(it, i) <= EolAt(it, i) <= EolAt(it, i) + |it.eol| == i + |PrintItem(it)|
            && IsWordStart(text[n]) && text[n..w] == it.name && WordEnd(text, n + 1, limit) == w
            && (forall k :: n <= k < w ==> IsWordChar(text[k]))
            && !IsBlank(text[v]) && text[v] != '{' && text[v] != ':' && (it.value.Strings? ==> IsQuote(text[v]))
  {
    hide At, PrintItem, PrintValue, PrintSep, GoodItem, GoodValue, GoodSep, WordEnd, Identifier, IsBlank, IsQuote,
      IsWordStart, IsWordChar;
    var end := PrintValue(it.value) + (it.mark + it.eol);
    FieldStands(text, i, it);
    GoodField(it);
    ValueFirst(it.value, it.mark + it.eol);
    SepEndsName(it.sep, end);
    NotEmptyName(it.name);
    NameParts(text, i + |it.indent|, it.name, PrintSep(it.sep) + end, limit);
    AtChar(text, ValueAt(it, i), end, 0);
  }

  lemma FieldParts(text: string, i: nat, it: Item, limit: nat)
    requires it.Field? && GoodItem(it)
    requires At(text, i, PrintItem(it)) && i + |PrintItem(it)| <= limit <= |text|
    ensures var n := i + |it.indent|; var w := n + |it.name|; var v := ValueAt(it, i);
            var m := MarkAt(it, i); var e := EolAt(it, i); var j := i + |PrintItem(it)|;
            && n < w <= v < m <= e <= j == e + |it.eol| && (EndsLine(it.eol) ==> text[j - 1] == '\n')
            && (forall k :: i <= k < n ==> text[k] == ' ' || text[k] == '\t')
            && IsWordStart(text[n]) && text[n..w] == it.name && WordEnd(text, n + 1, limit) == w
            && (forall k :: n <= k < w ==> IsWordChar(text[k]))
            && (forall k :: w <= k < v ==> IsBlank(text[k]) || text[k] == ':')
            && ValueStart(text, w, limit) == v
            && !IsBlank(text[v]) && text[v] != '{' && text[v] != ':' && (it.value.Strings? ==> IsQuote(text[v]))
            && At(text, v, PrintValue(it.value)) && At(text, m, it.mark) && At(text, e, it.eol)
            && (forall k :: e <= k < j ==> IsBlank(text[k]))
  {
    hide At, PrintItem, PrintValue, PrintSep, GoodItem, GoodValue, GoodSep, WordEnd, Identifier, GoodEol, AllBlank,
      EndsLine, IsBlank, IsQuote, IsWordStart, IsWordChar, ValueStart;
    FieldStands(text, i, it);
    FieldName(text, i, it, limit);
    GoodField(it);
    SepParts(text, i + |it.indent| + |it.name|, it.sep);
    EolBlank(it.eol);
    EolParts(text, EolAt(it, i), it.eol);
  }

  lemma NotEmptyName(name: string)
    requires Identifier(name)
    ensures |name| > 0
  {
  }

  lemma {:induction false} ValueCalm(text: string, v: nat, value: Value, limit: nat, noKey: bool)
    requires GoodValue(value) && At(text, v, PrintValue(value))
    requires v + |PrintValue(value)| <= limit <= |text|
    requires value.Scalar? ==> Stops(text, v + |PrintValue(value)|, limit)
    requires Solid(text, v + |PrintValue(value)|, limit)
    requires noKey && value.Scalar? ==> NoKeyWord(value.token, 0)
    ensures Calm(text, v, v + |PrintValue(value)|, limit, noKey)
  {
    hide At, Calm, Solid;
    match value
    case Scalar(token) =>
      AtChars(text, v, token);
      ScalarCalm(text, v, token, 0, limit, noKey);
    case Strings(ps) =>
      PartsCalm(text, v, ps, limit);
      CalmWeaken(text, v, v + |PrintValue(value)|, limit, noKey);
  }

  lemma SolidBack(text: string, e: nat, j: nat, limit: nat)
    requires e <= j <= limit <= |text| && Solid(text, j, limit)
    requires forall k :: e <= k < j ==> IsBlank(text[k])
    ensures Solid(text, e, limit)
  {
    BlanksSkip(text, e, j, limit);
  }

  /** The end of a value: its mark, blanks, and what follows the field. */
  lemma MarkEnds(text: string, m: nat, mark: string, eol: string, limit: nat)
    requires GoodMark(mark) && GoodEol(eol) && At(text, m, mark) && At(text, m + |mark|, eol)
    requires var j := m + |mark| + |eol|; j <= limit <= |text| && Solid(text, j, limit)
    ensures Solid(text, m, limit)
    ensures forall k :: m <= k < m + |mark| + |eol| ==> IsBlank(text[k]) || text[k] == ';' || text[k] == ','
    ensures mark + eol != "" ==> Stops(text, m, limit)
  {
    hide At, AllBlank, Solid;
    var e, j := m + |mark|, m + |mark| + |eol|;
    AtChars(text, m, mark);
    EolBlank(eol);
    EolParts(text, e, eol);
    SolidBack(text, e, j, limit);
    if mark != "" {
      assert text[m + 0] == mark[0];
      MarkIsSolid(text, m, limit);
    }
  }

  lemma MarkIsSolid(text: string, m: nat, limit: nat)
    requires m < limit <= |text| && (text[m] == ',' || text[m] == ';')
    ensures Solid(text, m, limit)
  {
  }

  lemma OpensNothing(text: string, w: nat, v: nat, limit: nat)
    requires w <= v < limit <= |text| && ValueStart(text, w, limit) == v && text[v] != '{'
    ensures BlockOpen(text, w, limit).None?
  {
  }

  lemma {:induction false} FieldCalm(text: string, i: nat, it: Item, limit: nat, noKey: bool)
    requires it.Field? && GoodItem(it) && (noKey ==> KeyFree(it))
    requires At(text, i, PrintItem(it)) && i + |PrintItem(it)| <= limit <= |text|
    requires Solid(text, i + |PrintItem(it)|, limit) && (SetOff(it) || Stops(text, i + |PrintItem(it)|, limit))
    ensures Calm(text, i, i + |PrintItem(it)|, limit, noKey)
  {
    hide At, Calm, Solid, PrintItem, PrintValue, GoodValue, WordEnd, BlockOpen, ValueStart, Stops, GoodEol, Identifier;
    var n, w, v, m, j := i + |it.indent|, i + |it.indent| + |it.name|, ValueAt(it, i), MarkAt(it, i),
          i + |PrintItem(it)|;
    FieldParts(text, i, it, limit);
    GoodField(it);
    OpensNothing(text, w, v, limit);
    BlanksCalm(text, i, n, limit);
    CalmWeaken(text, i, n, limit, noKey);
    WordCalm(text, n, w, limit, noKey);
    CalmJoin(text, i, n, w, limit, noKey);
    BlanksCalm(text, w, v, limit);
    CalmWeaken(text, w, v, limit, noKey);
    CalmJoin(text, i, w, v, limit, noKey);
    MarkEnds(text, m, it.mark, it.eol, limit);
    assert it.mark + it.eol == "" ==> m == j;
    ValueCalm(text, v, it.value, limit, noKey);
    CalmJoin(text, i, v, m, limit, noKey);
    BlanksCalm(text, m, j, limit);
    CalmWeaken(text, m, j, limit, noKey);
    CalmJoin(text, i, m, j, limit, noKey);
  }
}
