/** Scheme files as trees, and how a tree is laid out as protobuf text format, on lines and
    within them. */
module SchemePrint {
  import opened Wrappers
  import opened SchemeLexer
  import opened SchemeScan

  // ---------- string literals ----------

  /** One element of a literal, in any of the forms text format has for it: an octal escape
      with its number of digits, the others with the case of every digit (true for upper). */
  datatype Piece =
    | Plain(c: char)
    | Escape(c: char)
    | Octal(n: nat, width: nat)
    | Hex(n: nat, cases: seq<bool>)
    | Unicode4(n: nat, cases: seq<bool>)
    | Unicode8(n: nat, cases: seq<bool>)

  datatype Literal = Literal(quote: char, pieces: seq<Piece>)

  function DigitChar(d: nat, upper: bool): char
    requires d < 16
  {
    if d < 10 then ('0' as int + d) as char
    else if upper then ('A' as int + d - 10) as char
    else ('a' as int + d - 10) as char
  }

  /** n in the given base, padded with zeros, each digit in the given case. */
  function Digits(n: nat, base: nat, cases: seq<bool>): (r: string)
    requires 2 <= base <= 16
    ensures |r| == |cases|
    ensures forall k :: 0 <= k < |cases| ==> IsHexDigit(r[k]) && (base <= 8 ==> IsOctalDigit(r[k]))
    decreases |cases|
  {
    if cases == [] then ""
    else Digits(n / base, base, cases[..|cases| - 1]) + [DigitChar(n % base, cases[|cases| - 1])]
  }

  /** Octal digits have no case. */
  function NoCase(width: nat): seq<bool> {
    seq(width, _ => false)
  }

  function Power(base: nat, width: nat): nat {
    if width == 0 then 1 else base * Power(base, width - 1)
  }

  lemma {:induction false} NumberOfDigits(n: nat, base: nat, cases: seq<bool>)
    requires 2 <= base <= 16 && n < Power(base, |cases|)
    ensures Number(Digits(n, base, cases), base) == n
    decreases |cases|
  {
    hide DigitChar, Digits, Power, Number;
    NumberOfNone(base);
    if cases == [] {
      NoDigits(n, base);
    } else {
      var q, r := DigitsStep(n, base, cases);
      var init := cases[..|cases| - 1];
      NumberOfDigits(q, base, init);
      NumberAppend(Digits(q, base, init), r, cases[|cases| - 1], base);
    }
  }

  lemma NoDigits(n: nat, base: nat)
    requires 2 <= base <= 16 && n < Power(base, 0)
    ensures n == 0 && Digits(n, base, []) == ""
  {
  }

  lemma NumberOfNone(base: nat)
    ensures Number("", base) == 0
  {
  }

  lemma DigitsStep(n: nat, base: nat, cases: seq<bool>) returns (q: nat, r: nat)
    requires 2 <= base <= 16 && cases != [] && n < Power(base, |cases|)
    ensures r < base && q * base + r == n && q < Power(base, |cases| - 1)
    ensures Digits(n, base, cases) == Digits(q, base, cases[..|cases| - 1]) + [DigitChar(r, cases[|cases| - 1])]
  {
    q, r := n / base, n % base;
    DivideBelow(n, base, Power(base, |cases| - 1));
    Rejoin(n, base);
  }

  lemma Rejoin(n: nat, base: nat)
    requires base > 0
    ensures n / base * base + n % base == n
  {
  }

  lemma NumberAppend(digits: string, d: nat, upper: bool, base: nat)
    requires d < 16
    ensures Number(digits + [DigitChar(d, upper)], base) == Number(digits, base) * base + d
  {
    assert (digits + [DigitChar(d, upper)])[..|digits|] == digits;
  }

  lemma DivideBelow(n: nat, base: nat, m: nat)
    requires base > 0 && n < base * m
    ensures n / base < m
  {
    assert base * (n / base) <= n;
  }

  function PrintPiece(p: Piece): (r: string)
    ensures r != ""
  {
    match p
    case Plain(c) => [c]
    case Escape(c) => ['\\', c]
    case Octal(n, width) => "\\" + Digits(n, 8, NoCase(width))
    case Hex(n, cases) => "\\x" + Digits(n, 16, cases)
    case Unicode4(n, cases) => "\\u" + Digits(n, 16, cases)
    case Unicode8(n, cases) => "\\U" + Digits(n, 16, cases)
  }

  function PieceMeaning(p: Piece): int {
    match p
    case Plain(c) => c as int
    case Escape(c) => if SimpleEscape(c).Some? then SimpleEscape(c).value else 0
    case Octal(n, _) => n
    case Hex(n, _) => n
    case Unicode4(n, _) => n
    case Unicode8(n, _) => n
  }

  predicate GoodPiece(p: Piece, quote: char) {
    match p
    case Plain(c) => c != quote && c != '\\'
    case Escape(c) => SimpleEscape(c).Some?
    case Octal(n, width) => 1 <= width <= 3 && n < Power(8, width)
    case Hex(n, cases) => 1 <= |cases| <= 2 && n < Power(16, |cases|)
    case Unicode4(n, cases) => |cases| == 4 && n < 0x10000
    case Unicode8(n, cases) => |cases| == 8 && n <= 0x10FFFF
  }

  /** An escape with fewer digits than it could have must not run into more of them: a short
      octal escape is not followed by an octal digit, and a hex escape with one digit, for
      which the decoder still takes two characters, is the last. */
  predicate Spaced(ps: seq<Piece>) {
    forall k :: 0 <= k < |ps| - 1 ==>
      && (ps[k].Octal? && ps[k].width < 3 ==> !IsOctalDigit(PrintPiece(ps[k + 1])[0]))
      && (ps[k].Hex? ==> |ps[k].cases| == 2)
  }

  function PrintPieces(ps: seq<Piece>): string {
    if ps == [] then "" else PrintPiece(ps[0]) + PrintPieces(ps[1..])
  }

  function Meaning(ps: seq<Piece>): Codes {
    if ps == [] then [] else [PieceMeaning(ps[0])] + Meaning(ps[1..])
  }

  predicate GoodLiteral(l: Literal) {
    IsQuote(l.quote) && (forall p :: p in l.pieces ==> GoodPiece(p, l.quote)) && Spaced(l.pieces)
  }

  function PrintLiteral(l: Literal): string {
    [l.quote] + PrintPieces(l.pieces) + [l.quote]
  }

  /** s stands in text at position i. */
  predicate At(text: string, i: nat, s: string) {
    i + |s| <= |text| && text[i..i + |s|] == s
  }

  lemma AtConcat(text: string, i: nat, a: string, b: string)
    requires At(text, i, a + b)
    ensures At(text, i, a) && At(text, i + |a|, b)
    ensures |a + b| == |a| + |b| && i + |a| + |b| <= |text|
  {
    assert text[i..i + |a|] == (a + b)[..|a|];
    assert text[i + |a|..i + |a| + |b|] == (a + b)[|a|..];
  }

  lemma AtChar(text: string, i: nat, s: string, k: nat)
    requires At(text, i, s) && k < |s|
    ensures text[i + k] == s[k]
  {
    assert text[i..i + |s|][k] == text[i + k];
  }

  lemma AtChars(text: string, i: nat, s: string)
    requires At(text, i, s)
    ensures i + |s| <= |text| && forall k :: 0 <= k < |s| ==> text[i + k] == s[k]
  {
    forall k | 0 <= k < |s|
      ensures text[i + k] == s[k]
    {
      AtChar(text, i, s, k);
    }
  }

  lemma DecodeOctal(body: string, i: nat, n: nat, width: nat)
    requires 1 <= width <= 3 && n < Power(8, width) && At(body, i, "\\" + Digits(n, 8, NoCase(width)))
    requires width < 3 ==> i + 1 + width == |body| || !IsOctalDigit(body[i + 1 + width])
    ensures DecodeOne(body, i) == Ok((n, i + 1 + width))
  {
    hide Number, Digits, DecodeOne, OctalEnd, Power, At, IsOctalDigit;
    OctalStands(body, i, Digits(n, 8, NoCase(width)));
    OctalStops(body, i + 2, i + 1 + width, i + 4);
    NumberOfDigits(n, 8, NoCase(width));
    DecodeOneOctal(body, i);
  }

  lemma OctalStands(body: string, i: nat, digits: string)
    requires At(body, i, "\\" + digits) && digits != "" && forall k :: 0 <= k < |digits| ==> IsOctalDigit(digits[k])
    ensures i + 1 + |digits| <= |body| && body[i] == '\\' && body[i + 1..i + 1 + |digits|] == digits
    ensures forall k :: i + 1 <= k < i + 1 + |digits| ==> IsOctalDigit(body[k])
  {
    hide IsOctalDigit;
    AtConcat(body, i, "\\", digits);
    AtChars(body, i, "\\");
    assert body[i + 0] == '\\';
    AtChars(body, i + 1, digits);
    forall k | i + 1 <= k < i + 1 + |digits|
      ensures IsOctalDigit(body[k])
    {
      assert body[i + 1 + (k - i - 1)] == digits[k - i - 1];
    }
  }

  lemma DecodeOneOctal(body: string, i: nat)
    requires i + 1 < |body| && body[i] == '\\' && IsOctalDigit(body[i + 1])
    ensures var end := OctalEnd(body, i + 2, i + 4);
            DecodeOne(body, i) == Ok((Number(body[i + 1..end], 8), end))
  {
    hide Number, OctalEnd;
    OctalIsNoEscape(body[i + 1]);
  }

  lemma OctalIsNoEscape(c: char)
    requires IsOctalDigit(c)
    ensures SimpleEscape(c).None? && c != 'x' && c != 'u' && c != 'U'
  {
  }

  lemma {:induction false} OctalStops(body: string, i: nat, stop: nat, limit: nat)
    requires i <= stop <= |body| && stop <= limit
    requires forall k :: i <= k < stop ==> IsOctalDigit(body[k])
    requires stop == limit || stop == |body| || !IsOctalDigit(body[stop])
    ensures OctalEnd(body, i, limit) == stop
    decreases stop - i
  {
    if i < stop {
      OctalStops(body, i + 1, stop, limit);
    }
  }

  lemma DecodeHex(body: string, i: nat, letter: char, n: nat, cases: seq<bool>)
    requires (letter == 'x' && (|cases| == 2 || (|cases| == 1 && i + 3 == |body|)))
             || (letter == 'u' && |cases| == 4) || (letter == 'U' && |cases| == 8)
    requires n < Power(16, |cases|) && n <= 0x10FFFF
    requires At(body, i, ['\\', letter] + Digits(n, 16, cases))
    ensures DecodeOne(body, i) == Ok((n, i + 2 + |cases|))
  {
    hide Number, Digits;
    AtConcat(body, i, ['\\', letter], Digits(n, 16, cases));
    AtChars(body, i, ['\\', letter]);
    assert body[i + 1] == letter;
    NumberOfDigits(n, 16, cases);
    assert Slice(body, i + 2, if letter == 'x' then 2 else |cases|) == Digits(n, 16, cases);
  }

  lemma DecodePlain(body: string, i: nat, c: char)
    requires At(body, i, [c]) && c != '\\'
    ensures i < |body| && DecodeOne(body, i) == Ok((c as int, i + 1))
  {
    hide Number, Slice, OctalEnd, SimpleEscape;
    AtChars(body, i, [c]);
    assert body[i + 0] == [c][0];
  }

  lemma DecodeEscape(body: string, i: nat, c: char)
    requires At(body, i, ['\\', c]) && SimpleEscape(c).Some?
    ensures i < |body| && DecodeOne(body, i) == Ok((SimpleEscape(c).value, i + 2))
  {
    hide Number, Slice, OctalEnd, SimpleEscape;
    AtChars(body, i, ['\\', c]);
    assert body[i + 0] == '\\' && body[i + 1] == c;
  }

  /** The piece is printed here and what follows does not run into it. */
  predicate Stands(body: string, i: nat, p: Piece, quote: char) {
    && GoodPiece(p, quote) && At(body, i, PrintPiece(p))
    && var e := i + |PrintPiece(p)|;
       e < |body| ==> (p.Octal? && p.width < 3 ==> !IsOctalDigit(body[e])) && (p.Hex? ==> |p.cases| == 2)
  }

  predicate Decodes(body: string, i: nat, p: Piece) {
    i < |body| && DecodeOne(body, i) == Ok((PieceMeaning(p), i + |PrintPiece(p)|))
  }

  lemma PlainDecodes(body: string, i: nat, p: Piece, quote: char)
    requires p.Plain? && Stands(body, i, p, quote)
    ensures Decodes(body, i, p)
  {
    hide DecodeOne, SimpleEscape, At;
    DecodePlain(body, i, p.c);
  }

  lemma EscapeDecodes(body: string, i: nat, p: Piece, quote: char)
    requires p.Escape? && Stands(body, i, p, quote)
    ensures Decodes(body, i, p)
  {
    hide DecodeOne, SimpleEscape, At;
    DecodeEscape(body, i, p.c);
  }

  lemma OctalDecodes(body: string, i: nat, p: Piece, quote: char)
    requires p.Octal? && Stands(body, i, p, quote)
    ensures Decodes(body, i, p)
  {
    hide DecodeOne, Power, IsOctalDigit, At;
    AtLength(body, i, PrintPiece(p));
    assert |PrintPiece(p)| == 1 + p.width;
    DecodeOctal(body, i, p.n, p.width);
  }

  lemma HexDecodes(body: string, i: nat, p: Piece, quote: char)
    requires p.Hex? && Stands(body, i, p, quote)
    ensures Decodes(body, i, p)
  {
    hide DecodeOne, Power, At;
    PowersOf16();
    AtLength(body, i, PrintPiece(p));
    assert |PrintPiece(p)| == 2 + |p.cases|;
    DecodeHex(body, i, 'x', p.n, p.cases);
  }

  lemma UnicodeDecodes(body: string, i: nat, p: Piece, quote: char)
    requires (p.Unicode4? || p.Unicode8?) && Stands(body, i, p, quote)
    ensures Decodes(body, i, p)
  {
    hide DecodeOne, Power, At;
    PowersOf16();
    DecodeHex(body, i, if p.Unicode4? then 'u' else 'U', p.n, p.cases);
  }

  lemma AtLength(text: string, i: nat, s: string)
    requires At(text, i, s)
    ensures i + |s| <= |text|
  {
  }

  lemma {:induction false} DecodePiece(body: string, i: nat, p: Piece, quote: char)
    requires Stands(body, i, p, quote)
    ensures Decodes(body, i, p)
  {
    hide Stands, Decodes;
    match p
    case Plain(_) => PlainDecodes(body, i, p, quote);
    case Escape(_) => EscapeDecodes(body, i, p, quote);
    case Octal(_, _) => OctalDecodes(body, i, p, quote);
    case Hex(_, _) => HexDecodes(body, i, p, quote);
    case Unicode4(_, _) => UnicodeDecodes(body, i, p, quote);
    case Unicode8(_, _) => UnicodeDecodes(body, i, p, quote);
  }

  lemma PowersOf16()
    ensures Power(16, 1) == 16 && Power(16, 2) == 256 && Power(16, 4) == 0x10000 && Power(16, 8) == 0x100000000
  {
    assert Power(16, 2) == 256;
    assert Power(16, 6) == 256 * Power(16, 4);
  }

  lemma {:induction false} DecodePieces(body: string, i: nat, ps: seq<Piece>, quote: char)
    requires At(body, i, PrintPieces(ps)) && i + |PrintPieces(ps)| == |body|
    requires (forall p :: p in ps ==> GoodPiece(p, quote)) && Spaced(ps)
    ensures DecodeBody(body, i) == Ok(Meaning(ps))
    decreases |ps|
  {
    hide DecodeOne, PrintPiece, GoodPiece;
    if ps != [] {
      var e := i + |PrintPiece(ps[0])|;
      AtConcat(body, i, PrintPiece(ps[0]), PrintPieces(ps[1..]));
      if |ps| > 1 {
        FirstOfPieces(body, e, ps[1..]);
      }
      DecodePiece(body, i, ps[0], quote);
      assert forall k :: 0 <= k < |ps[1..]| ==> ps[1..][k] == ps[k + 1];
      DecodePieces(body, e, ps[1..], quote);
    }
  }

  lemma FirstOfPieces(body: string, i: nat, ps: seq<Piece>)
    requires ps != [] && At(body, i, PrintPieces(ps))
    ensures i < |body| && body[i] == PrintPiece(ps[0])[0]
  {
    hide PrintPiece;
    AtConcat(body, i, PrintPiece(ps[0]), PrintPieces(ps[1..]));
    AtChar(body, i, PrintPiece(ps[0]), 0);
  }

  /** Decoding a printed literal gives back its meaning, whatever escapes it uses. */
  lemma {:induction false} DecodePrinted(l: Literal)
    requires GoodLiteral(l)
    ensures DecodeLiteral(PrintLiteral(l)) == Ok(Meaning(l.pieces))
  {
    var printed := PrintLiteral(l);
    assert printed[1..|printed| - 1] == PrintPieces(l.pieces);
    assert At(PrintPieces(l.pieces), 0, PrintPieces(l.pieces));
    DecodePieces(PrintPieces(l.pieces), 0, l.pieces, l.quote);
  }

  // ---------- trees ----------

  /** A string literal and the white space before it. */
  datatype Part = Part(gap: string, literal: Literal)

  datatype Value = Scalar(token: string) | Strings(parts: seq<Part>)

  /** What is between a name and its value or brace: white space and perhaps a colon. */
  datatype Sep = Sep(before: string, colon: bool, after: string)

  /** An item of a message, with the white space around it: `indent` before it on its line,
      `eol` after it (`openEol` after a '{').  A field may end with a comma or a semicolon
      (its `mark`).  A `Blank` is only white space: what is left of the surroundings of a
      removed item. */
  datatype Item =
    | Comment(indent: string, slashes: bool, remark: string, tail: string)
    | Field(indent: string, name: string, sep: Sep, value: Value, mark: string, eol: string)
    | Message(indent: string, name: string, sep: Sep, openEol: string, body: seq<Item>,
              closeIndent: string, semicolon: bool, eol: string)
    | Blank(blanks: string)

  function PrintParts(ps: seq<Part>): string {
    if ps == [] then "" else ps[0].gap + (PrintLiteral(ps[0].literal) + PrintParts(ps[1..]))
  }

  function PartsMeaning(ps: seq<Part>): Codes {
    if ps == [] then [] else Meaning(ps[0].literal.pieces) + PartsMeaning(ps[1..])
  }

  function PrintValue(v: Value): string {
    match v
    case Scalar(token) => token
    case Strings(parts) => PrintParts(parts)
  }

  function PrintSep(sep: Sep): string {
    sep.before + ((if sep.colon then ":" else "") + sep.after)
  }

  /** A message up to and including the white space after its '{'. */
  function PrintHead(it: Item): string
    requires it.Message?
  {
    it.indent + (it.name + (PrintSep(it.sep) + ("{" + it.openEol)))
  }

  function PrintFoot(it: Item): string
    requires it.Message?
  {
    it.closeIndent + ("}" + ((if it.semicolon then ";" else "") + it.eol))
  }

  function PrintItem(it: Item): string
    decreases it, 1
  {
    match it
    case Comment(indent, slashes, remark, tail) => indent + (((if slashes then "//" else "#") + remark) + ("\n" + tail))
    case Field(indent, name, sep, value, mark, eol) =>
      indent + (name + (PrintSep(sep) + (PrintValue(value) + (mark + eol))))
    case Blank(blanks) => blanks
    case Message(_, _, _, _, body, _, _, _) => PrintHead(it) + (Print(body) + PrintFoot(it))
  }

  function Print(items: seq<Item>): string
    decreases items, 0
  {
    if items == [] then "" else PrintItem(items[0]) + Print(items[1..])
  }

  // ---------- well-formed trees ----------

  predicate Indentation(s: string) {
    forall k :: 0 <= k < |s| ==> s[k] == ' ' || s[k] == '\t'
  }

  predicate Identifier(s: string) {
    |s| > 0 && IsWordStart(s[0]) && forall k :: 0 <= k < |s| ==> IsWordChar(s[k])
  }

  predicate ScalarChar(c: char) {
    IsWordChar(c) || c == '.' || c == '+' || c == '-'
  }

  predicate GoodPart(p: Part) {
    AllBlank(p.gap) && GoodLiteral(p.literal)
  }

  predicate GoodSep(sep: Sep) {
    AllBlank(sep.before) && AllBlank(sep.after)
  }

  predicate GoodMark(mark: string) {
    mark == "" || mark == "," || mark == ";"
  }

  predicate GoodValue(v: Value) {
    match v
    case Scalar(token) => |token| > 0 && forall k :: 0 <= k < |token| ==> ScalarChar(token[k])
    case Strings(parts) => |parts| > 0 && parts[0].gap == "" && forall p :: p in parts ==> GoodPart(p)
  }

  /** No word of the token, as the scanner would split it, is `key`. */
  predicate NoKeyWord(token: string, i: nat)
    requires i <= |token|
    decreases |token| - i
  {
    if i == |token| then true
    else if IsWordStart(token[i]) then
      var w := WordEnd(token, i + 1, |token|);
      token[i..w] != "key" && NoKeyWord(token, w)
    else NoKeyWord(token, i + 1)
  }

  predicate IsKeyField(it: Item) {
    it.Field? && it.name == "key" && it.value.Strings?
  }

  /** Inside an attributes block: this item does not show the scanner a `key` field. */
  predicate KeyFree(it: Item) {
    match it
    case Comment(_, _, _, _) => true
    case Blank(_) => true
    case Field(_, name, _, value, _, _) => name != "key" && (value.Scalar? ==> NoKeyWord(value.token, 0))
    case Message(_, name, _, _, _, _, _, _) => name != "key"
  }

  /** An attributes block has at most one `key`, and it is a string field. */
  predicate OneKey(items: seq<Item>) {
    if items == [] then true
    else if IsKeyField(items[0]) then forall it :: it in items[1..] ==> KeyFree(it)
    else KeyFree(items[0]) && OneKey(items[1..])
  }

  predicate AllBlank(s: string) {
    forall k :: 0 <= k < |s| ==> IsBlank(s[k])
  }

  predicate EndsLine(s: string) {
    s != "" && s[|s| - 1] == '\n'
  }

  /** White space after something: either the line goes on, or it ends with a newline, so
      that what the next line begins with belongs to the next item. */
  predicate GoodEol(s: string) {
    Indentation(s) || (AllBlank(s) && EndsLine(s))
  }

  /** Several items, and whole messages, may stand on one line.  An unquoted value has a colon
      before it. */
  predicate GoodItem(it: Item)
    decreases it, 1
  {
    match it
    case Blank(_) => false
    case Comment(indent, _, remark, tail) =>
      Indentation(indent) && '\n' !in remark && (tail == "" || (AllBlank(tail) && EndsLine(tail)))
    case Field(indent, name, sep, value, mark, eol) =>
      && Indentation(indent) && Identifier(name) && GoodSep(sep) && (value.Scalar? ==> sep.colon)
      && GoodValue(value) && GoodMark(mark) && GoodEol(eol)
    case Message(indent, name, sep, openEol, body, closeIndent, _, eol) =>
      && Indentation(indent) && Identifier(name) && GoodSep(sep)
      && GoodEol(openEol) && Indentation(closeIndent) && GoodEol(eol)
      && Good(body)
      && (name == "attributes" ==> OneKey(body))
  }

  /** Something stands between an unquoted value and what follows the field. */
  predicate SetOff(it: Item) {
    it.Field? && it.value.Scalar? ==> it.mark + it.eol != ""
  }

  predicate Good(items: seq<Item>)
    decreases items, 0
  {
    items == [] || (GoodItem(items[0]) && Good(items[1..]) && (items[1..] == [] || SetOff(items[0])))
  }

  /** The key of an attributes block. */
  function KeyOf(items: seq<Item>): Option<Codes> {
    if items == [] then None
    else if IsKeyField(items[0]) then Some(PartsMeaning(items[0].value.parts))
    else KeyOf(items[1..])
  }
}
