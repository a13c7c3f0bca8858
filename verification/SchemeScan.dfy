/** The block scanners of fix_document_schemes.py.  Each loop of the source is a method
    proved equal to a recursive function on positions; the lemmas in the other Scheme
    modules are about those functions. */
module SchemeScan {
  import opened Wrappers
  import opened PythonText
  import opened SchemeLexer

  /** A decoded string: one code point per element, as `chr` produces them. */
  type Codes = seq<int>

  function Prepend<T, E>(head: seq<T>, r: Result<seq<T>, E>): Result<seq<T>, E> {
    if r.Ok? then Ok(head + r.value) else r
  }

  lemma PrependAppend<T, E>(a: seq<T>, b: seq<T>, r: Result<seq<T>, E>)
    ensures Prepend([], r) == r
    ensures Prepend(a, Prepend(b, r)) == Prepend(a + b, r)
  {
    if r.Ok? {
      assert [] + r.value == r.value;
      assert a + (b + r.value) == a + b + r.value;
    }
  }

  // ---------- string literals ----------

  predicate IsHexDigit(c: char) {
    '0' <= c <= '9' || 'a' <= c <= 'f' || 'A' <= c <= 'F'
  }

  predicate IsOctalDigit(c: char) {
    '0' <= c <= '7'
  }

  function DigitValue(c: char): int {
    if '0' <= c <= '9' then c as int - '0' as int
    else if 'a' <= c <= 'f' then c as int - 'a' as int + 10
    else c as int - 'A' as int + 10
  }

  /** `int(digits, base)`. */
  function Number(digits: string, base: nat): int {
    if digits == "" then 0
    else Number(digits[..|digits| - 1], base) * base + DigitValue(digits[|digits| - 1])
  }

  function SimpleEscape(c: char): Option<int> {
    match c
    case 'n' => Some(10)
    case 'r' => Some(13)
    case 't' => Some(9)
    case '\\' => Some('\\' as int)
    case '\'' => Some('\'' as int)
    case '"' => Some('"' as int)
    case 'a' => Some(7)
    case 'b' => Some(8)
    case 'f' => Some(12)
    case 'v' => Some(11)
    case '?' => Some('?' as int)
    case _ => None
  }

  /** Python's body[i:i+n], cut off at the end of the string. */
  function Slice(s: string, i: nat, n: nat): string
    requires i <= |s|
  {
    if i + n <= |s| then s[i..i + n] else s[i..]
  }

  function OctalEnd(body: string, i: nat, limit: nat): (r: nat)
    requires i <= |body|
    ensures i <= r <= |body|
    ensures i <= limit ==> r <= limit
    ensures forall k :: i <= k < r ==> IsOctalDigit(body[k])
    decreases |body| - i
  {
    if i < |body| && i < limit && IsOctalDigit(body[i]) then OctalEnd(body, i + 1, limit) else i
  }

  /** One element of a literal's body at i: its code point and the position after it. */
  function DecodeOne(body: string, i: nat): (r: Scan<(int, nat)>)
    requires i < |body|
    ensures r.Ok? ==> i < r.value.1 <= |body|
    ensures r.Err? ==> r.error == BadEscape || r.error == NoCodePoint
  {
    if body[i] != '\\' then Ok((body[i] as int, i + 1))
    else if i + 1 >= |body| then Err(BadEscape)
    else
      var esc := body[i + 1];
      if SimpleEscape(esc).Some? then Ok((SimpleEscape(esc).value, i + 2))
      else if esc == 'x' then
        var digits := Slice(body, i + 2, 2);
        if digits == "" || exists k | 0 <= k < |digits| :: !IsHexDigit(digits[k]) then Err(BadEscape)
        else Ok((Number(digits, 16), i + 2 + |digits|))
      else if IsOctalDigit(esc) then
        var end := OctalEnd(body, i + 2, i + 4);
        Ok((Number(body[i + 1..end], 8), end))
      else if esc == 'u' || esc == 'U' then
        var width := if esc == 'u' then 4 else 8;
        var digits := Slice(body, i + 2, width);
        if |digits| != width || exists k | 0 <= k < |digits| :: !IsHexDigit(digits[k]) then Err(BadEscape)
        else if Number(digits, 16) > 0x10FFFF then Err(NoCodePoint)
        else Ok((Number(digits, 16), i + 2 + width))
      else Err(BadEscape)
  }

  function DecodeBody(body: string, i: nat): (r: Scan<Codes>)
    requires i <= |body|
    ensures r.Err? ==> r.error == BadEscape || r.error == NoCodePoint
    decreases |body| - i
  {
    if i == |body| then Ok([])
    else
      var one :- DecodeOne(body, i);
      Prepend([one.0], DecodeBody(body, one.1))
  }

  function DecodeLiteral(literal: string): Scan<Codes> {
    if |literal| < 2 || !IsQuote(literal[0]) || literal[|literal| - 1] != literal[0] then Err(BadLiteral)
    else DecodeBody(literal[1..|literal| - 1], 0)
  }

  method DecodeProtoString(literal: string) returns (r: Scan<Codes>)
    ensures r == DecodeLiteral(literal)
  {
    if |literal| < 2 || !IsQuote(literal[0]) || literal[|literal| - 1] != literal[0] {
      return Err(BadLiteral);
    }
    var body := literal[1..|literal| - 1];
    var out: Codes := [];
    var i := 0;
    PrependAppend([], [], DecodeBody(body, 0));
    while i < |body|
      invariant i <= |body|
      invariant DecodeBody(body, 0) == Prepend(out, DecodeBody(body, i))
      decreases |body| - i
    {
      var one := DecodeOne(body, i);
      if one.Err? {
        return Err(one.error);
      }
      PrependAppend(out, [one.value.0], DecodeBody(body, one.value.1));
      out, i := out + [one.value.0], one.value.1;
    }
    assert out + [] == out;
    return Ok(out);
  }

  /** What `_read_strings` returns: the joined value, if any literal was there, and the
      position after it. */
  datatype StringsRead = StringsRead(codes: Option<Codes>, next: nat)

  /** The joined value of string parts, absent when there is no part. */
  function Joined(a: Option<Codes>, b: Option<Codes>): Option<Codes> {
    if a.None? then b else if b.None? then a else Some(a.value + b.value)
  }

  function WithParts(parts: Option<Codes>, r: Scan<StringsRead>): Scan<StringsRead> {
    if r.Err? then r else Ok(StringsRead(Joined(parts, r.value.codes), r.value.next))
  }

  lemma WithPartsAppend(a: Option<Codes>, b: Codes, r: Scan<StringsRead>)
    ensures WithParts(a, WithParts(Some(b), r)) == WithParts(Joined(a, Some(b)), r)
  {
    if a.Some? && r.Ok? && r.value.codes.Some? {
      assert a.value + (b + r.value.codes.value) == a.value + b + r.value.codes.value;
    }
  }

  /** Adjacent string literals from i on, blanks between them skipped: their joined
      value and the position where they stop. */
  function StringsFrom(text: string, i: nat, limit: nat): (r: Scan<StringsRead>)
    requires i <= limit <= |text|
    ensures r.Ok? ==> i <= r.value.next <= limit
    decreases limit - i
  {
    if i < limit && IsQuote(text[i]) then
      var end :- StringEnd(text, text[i], i + 1, limit);
      var value :- DecodeLiteral(text[i..end]);
      WithParts(Some(value), StringsFrom(text, SkipBlanks(text, end, limit), limit))
    else Ok(StringsRead(None, i))
  }

  function ValueStart(text: string, i: nat, limit: nat): (r: nat)
    requires i <= limit <= |text|
    ensures i <= r <= limit
  {
    var k := SkipBlanks(text, i, limit);
    if k < limit && text[k] == ':' then SkipBlanks(text, k + 1, limit) else k
  }

  lemma StringsUnfold(text: string, i: nat, limit: nat)
    requires i <= limit <= |text|
    ensures i < limit && IsQuote(text[i]) ==>
              var end := StringEnd(text, text[i], i + 1, limit);
              && (end.Err? ==> StringsFrom(text, i, limit) == Err(end.error))
              && (end.Ok? && DecodeLiteral(text[i..end.value]).Err? ==>
                    StringsFrom(text, i, limit) == Err(DecodeLiteral(text[i..end.value]).error))
              && (end.Ok? && DecodeLiteral(text[i..end.value]).Ok? ==>
                    StringsFrom(text, i, limit) ==
                    WithParts(Some(DecodeLiteral(text[i..end.value]).value),
                      StringsFrom(text, SkipBlanks(text, end.value, limit), limit)))
    ensures !(i < limit && IsQuote(text[i])) ==> StringsFrom(text, i, limit) == Ok(StringsRead(None, i))
  {
    hide StringEnd, DecodeLiteral, SkipBlanks, WithParts;
  }

  method ReadStrings(text: string, start: nat, limit: nat) returns (r: Scan<StringsRead>)
    requires start <= limit <= |text|
    ensures r == StringsFrom(text, ValueStart(text, start, limit), limit)
  {
    hide DecodeLiteral, StringEnd, SkipBlanks, StringsFrom, WithParts;
    var i := SkipWs(text, start, limit);
    if i < limit && text[i] == ':' {
      i := SkipWs(text, i + 1, limit);
    }
    ghost var begin := i;
    var parts: Option<Codes> := None;
    NothingJoined(StringsFrom(text, i, limit));
    while i < limit && IsQuote(text[i])
      invariant begin <= i <= limit
      invariant StringsFrom(text, begin, limit) == WithParts(parts, StringsFrom(text, i, limit))
      decreases limit - i
    {
      StringsUnfold(text, i, limit);
      var end := SkipString(text, i, limit);
      if end.Err? {
        FailedAfter(parts, end.error);
        return Err(end.error);
      }
      var part := DecodeProtoString(text[i..end.value]);
      if part.Err? {
        FailedAfter(parts, part.error);
        return Err(part.error);
      }
      i := SkipWs(text, end.value, limit);
      WithPartsAppend(parts, part.value, StringsFrom(text, i, limit));
      parts := Joined(parts, Some(part.value));
    }
    StringsUnfold(text, i, limit);
    NothingMore(parts, i);
    return Ok(StringsRead(parts, i));
  }

  lemma NothingJoined(r: Scan<StringsRead>)
    ensures WithParts(None, r) == r
  {
  }

  lemma FailedAfter(parts: Option<Codes>, error: SchemeError)
    ensures WithParts(parts, Err(error)) == Err(error)
  {
  }

  lemma NothingMore(parts: Option<Codes>, i: nat)
    ensures WithParts(parts, Ok(StringsRead(None, i))) == Ok(StringsRead(parts, i))
  {
  }

  // ---------- the key of one attributes block ----------

  function KeyFrom(text: string, i: nat, end: nat, depth: int, key: Option<Codes>): Scan<Option<Codes>>
    requires i <= end <= |text|
    decreases end - i
  {
    if i == end then Ok(key)
    else if IsLexeme(text, i, end) then
      var n :- Step(text, i, end);
      KeyFrom(text, n, end, depth, key)
    else if text[i] == '{' then KeyFrom(text, i + 1, end, depth + 1, key)
    else if text[i] == '}' then KeyFrom(text, i + 1, end, depth - 1, key)
    else if IsWordStart(text[i]) then
      var w := WordEnd(text, i + 1, end);
      if depth == 1 && text[i..w] == "key" then
        var strings :- StringsFrom(text, ValueStart(text, w, end), end);
        if strings.codes.None? then Err(KeyWithoutString)
        else if key.Some? then Err(DuplicateKey)
        else KeyFrom(text, strings.next, end, depth, strings.codes)
      else KeyFrom(text, w, end, depth, key)
    else KeyFrom(text, i + 1, end, depth, key)
  }

  method ExtractKey(text: string, begin: nat, end: nat) returns (r: Scan<Option<Codes>>)
    requires begin <= end <= |text|
    ensures r == KeyFrom(text, begin, end, 0, None)
  {
    hide StringEnd, StringsFrom, ValueStart, LineEnd, WordEnd;
    var i, depth := begin, 0;
    var key: Option<Codes> := None;
    while i < end
      invariant begin <= i <= end
      invariant KeyFrom(text, begin, end, 0, None) == KeyFrom(text, i, end, depth, key)
      decreases end - i
    {
      var c := text[i];
      if IsQuote(c) {
        var n := SkipString(text, i, end);
        if n.Err? {
          return Err(n.error);
        }
        i := n.value;
        continue;
      }
      if StartsComment(text, i, end) {
        i := LineEnd(text, i, end);
        continue;
      }
      if c == '{' {
        depth, i := depth + 1, i + 1;
        continue;
      }
      if c == '}' {
        depth, i := depth - 1, i + 1;
        continue;
      }
      if IsWordStart(c) {
        var start := i;
        i := SkipWord(text, i + 1, end);
        if depth == 1 && text[start..i] == "key" {
          var strings := ReadStrings(text, i, end);
          if strings.Err? {
            return Err(strings.error);
          }
          if strings.value.codes.None? {
            return Err(KeyWithoutString);
          }
          if key.Some? {
            return Err(DuplicateKey);
          }
          key, i := strings.value.codes, strings.value.next;
        }
        continue;
      }
      i := i + 1;
    }
    return Ok(key);
  }

  // ---------- the brace matcher ----------

  /** Position after the '}' that closes the depth blocks open at i. */
  function CloseFrom(text: string, i: nat, limit: nat, depth: nat): (r: Scan<nat>)
    requires i <= limit <= |text|
    requires depth >= 1
    ensures r.Ok? ==> i < r.value <= limit && text[r.value - 1] == '}'
    decreases limit - i
  {
    if i == limit then Err(UnclosedBlock)
    else if IsLexeme(text, i, limit) then
      var n :- Step(text, i, limit);
      CloseFrom(text, n, limit, depth)
    else if text[i] == '{' then CloseFrom(text, i + 1, limit, depth + 1)
    else if text[i] == '}' then if depth == 1 then Ok(i + 1) else CloseFrom(text, i + 1, limit, depth - 1)
    else CloseFrom(text, i + 1, limit, depth)
  }

  method ScanMessage(text: string, openBrace: nat, limit: nat) returns (r: Scan<nat>)
    requires openBrace <= limit <= |text|
    ensures r == if openBrace == limit || text[openBrace] != '{' then Err(ExpectedBrace)
                 else CloseFrom(text, openBrace + 1, limit, 1)
  {
    if openBrace >= limit || text[openBrace] != '{' {
      return Err(ExpectedBrace);
    }
    var depth, i := 1, openBrace + 1;
    while i < limit
      invariant openBrace < i <= limit
      invariant depth >= 1
      invariant CloseFrom(text, openBrace + 1, limit, 1) == CloseFrom(text, i, limit, depth)
      decreases limit - i
    {
      var c := text[i];
      if IsQuote(c) {
        var n := SkipString(text, i, limit);
        if n.Err? {
          return Err(n.error);
        }
        i := n.value;
        continue;
      }
      if StartsComment(text, i, limit) {
        i := LineEnd(text, i, limit);
        continue;
      }
      if c == '{' {
        depth := depth + 1;
      } else if c == '}' {
        if depth == 1 {
          return Ok(i + 1);
        }
        depth := depth - 1;
      }
      i := i + 1;
    }
    return Err(UnclosedBlock);
  }

  // ---------- deletion spans ----------

  /** Position after the last newline before k, or 0. */
  function LineStart(text: string, k: nat): (r: nat)
    requires k <= |text|
    ensures r <= k
    ensures forall p :: r <= p < k ==> text[p] != '\n'
    ensures r > 0 ==> text[r - 1] == '\n'
  {
    if k == 0 || text[k - 1] == '\n' then k else LineStart(text, k - 1)
  }

  function PassTabs(text: string, i: nat): (r: nat)
    requires i <= |text|
    ensures i <= r <= |text|
    ensures forall p :: i <= p < r ==> text[p] == ' ' || text[p] == '\t'
    ensures r < |text| ==> text[r] != ' ' && text[r] != '\t'
    decreases |text| - i
  {
    if i < |text| && (text[i] == ' ' || text[i] == '\t') then PassTabs(text, i + 1) else i
  }

  /** The end of a whole-line deletion: past the newline when only blanks precede it. */
  function SpanEnd(text: string, contentEnd: nat): nat
    requires contentEnd <= |text|
  {
    var i := PassTabs(text, contentEnd);
    var j := if i < |text| && text[i] == '\r' then i + 1 else i;
    if j < |text| && text[j] == '\n' then j + 1 else contentEnd
  }

  predicate AllSpace(text: string, i: nat, j: nat)
    requires i <= j <= |text|
  {
    forall p :: i <= p < j ==> IsSpace(text[p])
  }

  function DeletionSpan(text: string, keyword: nat, contentEnd: nat): (nat, nat)
    requires keyword <= |text| && contentEnd <= |text|
  {
    var lineStart := LineStart(text, keyword);
    if AllSpace(text, lineStart, keyword) then (lineStart, SpanEnd(text, contentEnd))
    else (keyword, contentEnd)
  }

  method ComputeDeletionSpan(text: string, keyword: nat, contentEnd: nat) returns (s: nat, e: nat)
    requires keyword <= |text| && contentEnd <= |text|
    ensures (s, e) == DeletionSpan(text, keyword, contentEnd)
  {
    var lineStart := LineStart(text, keyword);
    if !AllSpace(text, lineStart, keyword) {
      return keyword, contentEnd;
    }
    var end, i := contentEnd, contentEnd;
    while i < |text| && (text[i] == ' ' || text[i] == '\t')
      invariant contentEnd <= i <= |text|
      invariant PassTabs(text, contentEnd) == PassTabs(text, i)
    {
      i := i + 1;
    }
    if i < |text| && text[i] == '\r' {
      i := i + 1;
    }
    if i < |text| && text[i] == '\n' {
      end := i + 1;
    }
    return lineStart, end;
  }

  // ---------- attribute blocks ----------

  /** What the scanner knows of one block: keyword, '{', position after '}', position
      after an optional ';', and the decoded key. */
  datatype Found = Found(keyword: nat, brace: nat, close: nat, contentEnd: nat, key: Option<Codes>)

  datatype AttrBlock = AttrBlock(start: nat, end: nat, key: Option<Codes>)

  predicate InText(text: string, f: Found) {
    f.keyword < f.brace < f.close <= f.contentEnd <= |text|
  }

  function ToBlock(text: string, f: Found): AttrBlock
    requires InText(text, f)
  {
    var span := DeletionSpan(text, f.keyword, f.contentEnd);
    AttrBlock(span.0, span.1, f.key)
  }

  function ToBlocks(text: string, fs: seq<Found>): (r: seq<AttrBlock>)
    requires forall f :: f in fs ==> InText(text, f)
    ensures |r| == |fs|
    ensures forall k :: 0 <= k < |fs| ==> InText(text, fs[k]) && r[k] == ToBlock(text, fs[k])
  {
    if fs == [] then [] else [ToBlock(text, fs[0])] + ToBlocks(text, fs[1..])
  }

  /** The '{' after the word that ends at w, with an optional ':' between. */
  function BlockOpen(text: string, w: nat, limit: nat): (r: Option<nat>)
    requires w <= limit <= |text|
    ensures r.Some? ==> w <= r.value < limit && text[r.value] == '{'
  {
    var b := ValueStart(text, w, limit);
    if b < limit && text[b] == '{' then Some(b) else None
  }

  function ContentEnd(text: string, close: nat, limit: nat): (r: nat)
    requires close <= limit <= |text|
    ensures close <= r <= limit
  {
    if close < limit && text[close] == ';' then close + 1 else close
  }

  /** The blocks found by one attributes block, its own first, and the position after its '}'. */
  datatype FoundRead = FoundRead(found: seq<Found>, close: nat)

  function FoundAt(text: string, keyword: nat, brace: nat, end: nat): (r: Scan<FoundRead>)
    requires keyword < brace < end <= |text|
    ensures r.Ok? ==> brace < r.value.close <= end
    ensures r.Ok? ==> forall f :: f in r.value.found ==> keyword <= f.keyword && InText(text, f) && f.contentEnd <= end
    decreases end - keyword, 0
  {
    var close :- CloseFrom(text, brace + 1, end, 1);
    var key :- KeyFrom(text, brace, close, 0, None);
    var inner :- Find(text, brace + 1, close - 1, 0);
    Ok(FoundRead([Found(keyword, brace, close, ContentEnd(text, close, end), key)] + inner, close))
  }

  function Find(text: string, i: nat, end: nat, depth: nat): (r: Scan<seq<Found>>)
    requires i <= end <= |text|
    ensures r.Ok? ==> forall f :: f in r.value ==> i <= f.keyword && InText(text, f) && f.contentEnd <= end
    decreases end - i, 1
  {
    if i == end then if depth != 0 then Err(UnclosedBlock) else Ok([])
    else if IsLexeme(text, i, end) then
      var n :- Step(text, i, end);
      Find(text, n, end, depth)
    else if text[i] == '{' then Find(text, i + 1, end, depth + 1)
    else if text[i] == '}' then if depth == 0 then Err(ExtraBrace) else Find(text, i + 1, end, depth - 1)
    else if IsWordStart(text[i]) then
      var w := WordEnd(text, i + 1, end);
      if text[i..w] != "attributes" || BlockOpen(text, w, end).None? then Find(text, w, end, depth)
      else
        var block :- FoundAt(text, i, BlockOpen(text, w, end).value, end);
        Prepend(block.found, Find(text, block.close, end, depth))
    else Find(text, i + 1, end, depth)
  }

  function BlocksFrom(text: string, i: nat, end: nat, depth: nat): Scan<seq<AttrBlock>>
    requires i <= end <= |text|
  {
    var fs :- Find(text, i, end, depth);
    Ok(ToBlocks(text, fs))
  }

  function FindBlocks(text: string, begin: nat, end: nat): Scan<seq<AttrBlock>>
    requires begin <= end <= |text|
  {
    BlocksFrom(text, begin, end, 0)
  }

  lemma {:induction false} ToBlocksConcat(text: string, a: seq<Found>, b: seq<Found>)
    requires forall f :: f in a ==> InText(text, f)
    requires forall f :: f in b ==> InText(text, f)
    ensures forall f :: f in a + b ==> InText(text, f)
    ensures ToBlocks(text, a + b) == ToBlocks(text, a) + ToBlocks(text, b)
  {
    assert forall k :: 0 <= k < |a| + |b| ==> (a + b)[k] == if k < |a| then a[k] else b[k - |a|];
  }

  /** The deletion blocks of one attributes block whose '{' is known, its own first,
      and the position after its '}'. */
  datatype BlockRead = BlockRead(blocks: seq<AttrBlock>, close: nat)

  function BlockAt(text: string, keyword: nat, brace: nat, end: nat): (r: Scan<BlockRead>)
    requires keyword < brace < end <= |text|
    ensures r.Ok? ==> brace < r.value.close <= end
  {
    var read :- FoundAt(text, keyword, brace, end);
    Ok(BlockRead(ToBlocks(text, read.found), read.close))
  }

  /** What `Find` does at an attributes block, in terms of deletion blocks. */
  lemma BlocksAtAttributes(text: string, i: nat, end: nat, depth: nat)
    requires i < end <= |text|
    requires !IsLexeme(text, i, end) && IsWordStart(text[i])
    requires text[i..WordEnd(text, i + 1, end)] == "attributes"
    requires BlockOpen(text, WordEnd(text, i + 1, end), end).Some?
    ensures var brace := BlockOpen(text, WordEnd(text, i + 1, end), end).value;
            BlocksFrom(text, i, end, depth) ==
            (var block :- BlockAt(text, i, brace, end);
             Prepend(block.blocks, BlocksFrom(text, block.close, end, depth)))
  {
    hide FoundAt, StringEnd, WordEnd, BlockOpen, ToBlocks;
    var block := FoundAt(text, i, BlockOpen(text, WordEnd(text, i + 1, end), end).value, end);
    if block.Ok? {
      var rest := Find(text, block.value.close, end, depth);
      if rest.Ok? {
        ToBlocksConcat(text, block.value.found, rest.value);
      }
    }
  }

  /** What `Find` does everywhere else. */
  lemma BlocksElsewhere(text: string, i: nat, end: nat, depth: nat)
    requires i <= end <= |text|
    ensures i == end ==> BlocksFrom(text, i, end, depth) == if depth != 0 then Err(UnclosedBlock) else Ok([])
    ensures i < end && IsLexeme(text, i, end) ==>
      BlocksFrom(text, i, end, depth) ==
      (var n :- Step(text, i, end); BlocksFrom(text, n, end, depth))
    ensures i < end && !IsLexeme(text, i, end) ==>
      && (text[i] == '{' ==> BlocksFrom(text, i, end, depth) == BlocksFrom(text, i + 1, end, depth + 1))
      && (text[i] == '}' ==> BlocksFrom(text, i, end, depth) ==
                             if depth == 0 then Err(ExtraBrace) else BlocksFrom(text, i + 1, end, depth - 1))
      && (text[i] != '{' && text[i] != '}' && !IsWordStart(text[i]) ==>
            BlocksFrom(text, i, end, depth) == BlocksFrom(text, i + 1, end, depth))
      && (IsWordStart(text[i]) ==>
            var w := WordEnd(text, i + 1, end);
            text[i..w] != "attributes" || BlockOpen(text, w, end).None? ==>
              BlocksFrom(text, i, end, depth) == BlocksFrom(text, w, end, depth))
  {
    hide CloseFrom, KeyFrom, StringEnd, SkipBlanks, WordEnd;
  }

  /** The part of the loop that looks for the '{' after the keyword. */
  method FindBrace(text: string, i: nat, end: nat) returns (r: Option<nat>)
    requires i <= end <= |text|
    ensures r == BlockOpen(text, i, end)
  {
    var brace := SkipWs(text, i, end);
    if brace < end && text[brace] == ':' {
      brace := SkipWs(text, brace + 1, end);
    }
    if brace >= end || text[brace] != '{' {
      return None;
    }
    return Some(brace);
  }

  method FindAttributeBlocks(text: string, begin: nat, end: nat) returns (r: Scan<seq<AttrBlock>>)
    requires begin <= end <= |text|
    ensures r == FindBlocks(text, begin, end)
    decreases end - begin, 1
  {
    hide Find, BlocksFrom, BlockAt, BlockOpen, StringEnd, WordEnd, LineEnd;
    var found: seq<AttrBlock> := [];
    var i, depth := begin, 0;
    PrependAppend([], [], FindBlocks(text, begin, end));
    while i < end
      invariant begin <= i <= end
      invariant depth >= 0
      invariant FindBlocks(text, begin, end) == Prepend(found, BlocksFrom(text, i, end, depth))
      decreases end - i
    {
      BlocksElsewhere(text, i, end, depth);
      var c := text[i];
      if IsQuote(c) {
        var n := SkipString(text, i, end);
        if n.Err? {
          return Err(n.error);
        }
        i := n.value;
        continue;
      }
      if StartsComment(text, i, end) {
        i := LineEnd(text, i, end);
        continue;
      }
      if c == '{' {
        depth, i := depth + 1, i + 1;
        continue;
      }
      if c == '}' {
        if depth == 0 {
          return Err(ExtraBrace);
        }
        depth, i := depth - 1, i + 1;
        continue;
      }
      if IsWordStart(c) {
        var keyword := i;
        i := SkipWord(text, i + 1, end);
        if text[keyword..i] != "attributes" {
          continue;
        }
        var brace := FindBrace(text, i, end);
        if brace.None? {
          continue;
        }
        BlocksAtAttributes(text, keyword, end, depth);
        var block := ReadBlock(text, keyword, brace.value, end);
        if block.Err? {
          return Err(block.error);
        }
        PrependAppend(found, block.value.blocks, BlocksFrom(text, block.value.close, end, depth));
        found, i := found + block.value.blocks, block.value.close;
        continue;
      }
      i := i + 1;
    }
    BlocksElsewhere(text, i, end, depth);
    if depth != 0 {
      return Err(UnclosedBlock);
    }
    assert found + [] == found;
    return Ok(found);
  }

  /** The part of the loop that handles one block, from its '{' on. */
  method ReadBlock(text: string, keyword: nat, brace: nat, end: nat) returns (r: Scan<BlockRead>)
    requires keyword < brace < end <= |text| && text[brace] == '{'
    ensures r == BlockAt(text, keyword, brace, end)
    decreases end - keyword, 0
  {
    hide Find, CloseFrom, KeyFrom, DeletionSpan;
    var close := ScanMessage(text, brace, end);
    if close.Err? {
      return Err(close.error);
    }
    var contentEnd := close.value;
    if contentEnd < end && text[contentEnd] == ';' {
      contentEnd := contentEnd + 1;
    }
    var key := ExtractKey(text, brace, close.value);
    if key.Err? {
      return Err(key.error);
    }
    var s, e := ComputeDeletionSpan(text, keyword, contentEnd);
    var inner := FindAttributeBlocks(text, brace + 1, close.value - 1);
    if inner.Err? {
      return Err(inner.error);
    }
    BlockAccepted(text, keyword, brace, end);
    return Ok(BlockRead([AttrBlock(s, e, key.value)] + inner.value, close.value));
  }

  lemma BlockOfFound(text: string, keyword: nat, brace: nat, close: nat, contentEnd: nat, key: Option<Codes>,
                     inner: seq<Found>)
    requires keyword < brace < close <= contentEnd <= |text|
    requires forall f :: f in inner ==> InText(text, f)
    ensures var span := DeletionSpan(text, keyword, contentEnd);
            var f := Found(keyword, brace, close, contentEnd, key);
            (forall g :: g in [f] + inner ==> InText(text, g))
            && ToBlocks(text, [f] + inner) == [AttrBlock(span.0, span.1, key)] + ToBlocks(text, inner)
  {
    var f := Found(keyword, brace, close, contentEnd, key);
    assert ([f] + inner)[1..] == inner;
  }

  lemma BlockAccepted(text: string, keyword: nat, brace: nat, end: nat)
    requires keyword < brace < end <= |text|
    requires CloseFrom(text, brace + 1, end, 1).Ok?
    requires KeyFrom(text, brace, CloseFrom(text, brace + 1, end, 1).value, 0, None).Ok?
    requires FindBlocks(text, brace + 1, CloseFrom(text, brace + 1, end, 1).value - 1).Ok?
    ensures var close := CloseFrom(text, brace + 1, end, 1).value;
            var key := KeyFrom(text, brace, close, 0, None).value;
            var span := DeletionSpan(text, keyword, ContentEnd(text, close, end));
            BlockAt(text, keyword, brace, end) ==
            Ok(BlockRead([AttrBlock(span.0, span.1, key)] + FindBlocks(text, brace + 1, close - 1).value, close))
  {
    hide Find, CloseFrom, KeyFrom, DeletionSpan, ContentEnd, FoundAt, ToBlocks;
    var close := CloseFrom(text, brace + 1, end, 1).value;
    var key := KeyFrom(text, brace, close, 0, None).value;
    var inner := Find(text, brace + 1, close - 1, 0).value;
    FoundAtIs(text, keyword, brace, end, close, key, inner);
    BlockOfFound(text, keyword, brace, close, ContentEnd(text, close, end), key, inner);
  }

  lemma FoundAtIs(text: string, keyword: nat, brace: nat, end: nat, close: nat, key: Option<Codes>, inner: seq<Found>)
    requires keyword < brace < close <= end <= |text| && CloseFrom(text, brace + 1, end, 1) == Ok(close)
    requires KeyFrom(text, brace, close, 0, None) == Ok(key) && Find(text, brace + 1, close - 1, 0) == Ok(inner)
    ensures FoundAt(text, keyword, brace, end) ==
            Ok(FoundRead([Found(keyword, brace, close, ContentEnd(text, close, end), key)] + inner, close))
  {
    hide Find, CloseFrom, KeyFrom, ContentEnd;
  }
}
