/** Character classes and the low-level scanners of fix_document_schemes.py:
    where a string literal, a comment line, a word or a run of blanks ends.
    A scanner looks at text[i..limit] only. */
module SchemeLexer {
  import opened Wrappers

  datatype SchemeError =
    | UnclosedString
    | BadLiteral
    | BadEscape
    | NoCodePoint  // the ValueError of chr() for an escape above U+10FFFF
    | KeyWithoutString
    | DuplicateKey
    | ExpectedBrace
    | ExtraBrace
    | UnclosedBlock

  type Scan<T> = Result<T, SchemeError>

  predicate IsQuote(c: char) {
    c == '"' || c == '\''
  }

  /** The blanks `_skip_ws` passes. */
  predicate IsBlank(c: char) {
    c == ' ' || c == '\t' || c == '\r' || c == '\n'
  }

  predicate IsWordStart(c: char) {
    'a' <= c <= 'z' || 'A' <= c <= 'Z' || c == '_'
  }

  predicate IsWordChar(c: char) {
    IsWordStart(c) || '0' <= c <= '9'
  }

  predicate StartsComment(text: string, i: nat, limit: nat)
    requires i < limit <= |text|
  {
    text[i] == '#' || (text[i] == '/' && i + 1 < limit && text[i + 1] == '/')
  }

  /** Position after the closing quote of a string whose body continues at i. */
  function StringEnd(text: string, quote: char, i: nat, limit: nat): (r: Scan<nat>)
    requires limit <= |text|
    ensures r.Ok? ==> i < r.value <= limit && text[r.value - 1] == quote
    ensures r.Err? ==> r.error == UnclosedString
    decreases limit - i
  {
    if i >= limit then Err(UnclosedString)
    else if text[i] == '\\' then StringEnd(text, quote, i + 2, limit)
    else if text[i] == quote then Ok(i + 1)
    else StringEnd(text, quote, i + 1, limit)
  }

  /** Position of the first newline at or after i, or limit. */
  function LineEnd(text: string, i: nat, limit: nat): (r: nat)
    requires i <= limit <= |text|
    ensures i <= r <= limit
    ensures forall k :: i <= k < r ==> text[k] != '\n'
    ensures r < limit ==> text[r] == '\n'
    decreases limit - i
  {
    if i == limit || text[i] == '\n' then i else LineEnd(text, i + 1, limit)
  }

  function WordEnd(text: string, i: nat, limit: nat): (r: nat)
    requires i <= limit <= |text|
    ensures i <= r <= limit
    ensures forall k :: i <= k < r ==> IsWordChar(text[k])
    ensures r < limit ==> !IsWordChar(text[r])
    decreases limit - i
  {
    if i < limit && IsWordChar(text[i]) then WordEnd(text, i + 1, limit) else i
  }

  function SkipBlanks(text: string, i: nat, limit: nat): (r: nat)
    requires i <= limit <= |text|
    ensures i <= r <= limit
    ensures forall k :: i <= k < r ==> IsBlank(text[k])
    ensures r < limit ==> !IsBlank(text[r])
    decreases limit - i
  {
    if i < limit && IsBlank(text[i]) then SkipBlanks(text, i + 1, limit) else i
  }

  /** The scanners of the source, as loops. */
  method SkipString(text: string, i: nat, limit: nat) returns (r: Scan<nat>)
    requires i < limit <= |text|
    ensures r == StringEnd(text, text[i], i + 1, limit)
  {
    var quote := text[i];
    var k := i + 1;
    while k < limit
      invariant i < k
      invariant StringEnd(text, quote, i + 1, limit) == StringEnd(text, quote, k, limit)
      decreases limit - k
    {
      if text[k] == '\\' {
        k := k + 2;
        continue;
      }
      if text[k] == quote {
        return Ok(k + 1);
      }
      k := k + 1;
    }
    return Err(UnclosedString);
  }

  method SkipWs(text: string, i: nat, limit: nat) returns (k: nat)
    requires i <= limit <= |text|
    ensures k == SkipBlanks(text, i, limit)
  {
    k := i;
    while k < limit && IsBlank(text[k])
      invariant i <= k <= limit
      invariant SkipBlanks(text, i, limit) == SkipBlanks(text, k, limit)
    {
      k := k + 1;
    }
  }

  method SkipWord(text: string, i: nat, limit: nat) returns (k: nat)
    requires i <= limit <= |text|
    ensures k == WordEnd(text, i, limit)
  {
    k := i;
    while k < limit && IsWordChar(text[k])
      invariant i <= k <= limit
      invariant WordEnd(text, i, limit) == WordEnd(text, k, limit)
    {
      k := k + 1;
    }
  }

  // Each end-finder gives the same answer under a smaller limit that still
  // leaves room for that answer.

  lemma {:induction false} StringEndShrinks(text: string, quote: char, i: nat, limit: nat, limit': nat)
    requires limit' <= limit <= |text|
    requires StringEnd(text, quote, i, limit).Ok?
    requires StringEnd(text, quote, i, limit).value <= limit'
    ensures StringEnd(text, quote, i, limit') == StringEnd(text, quote, i, limit)
    decreases limit - i
  {
    if text[i] == '\\' {
      StringEndShrinks(text, quote, i + 2, limit, limit');
    } else if text[i] != quote {
      StringEndShrinks(text, quote, i + 1, limit, limit');
    }
  }

  /** One step of the brace matcher: over a string, over a comment, or one character. */
  function Step(text: string, i: nat, limit: nat): (r: Scan<nat>)
    requires i < limit <= |text|
    ensures r.Ok? ==> i < r.value <= limit
    ensures r.Err? ==> r.error == UnclosedString
  {
    if IsQuote(text[i]) then StringEnd(text, text[i], i + 1, limit)
    else if StartsComment(text, i, limit) then Ok(LineEnd(text, i, limit))
    else Ok(i + 1)
  }

  predicate IsLexeme(text: string, i: nat, limit: nat)
    requires i < limit <= |text|
  {
    IsQuote(text[i]) || StartsComment(text, i, limit)
  }

  lemma StepShrinks(text: string, i: nat, limit: nat, limit': nat)
    requires i < limit' <= limit <= |text|
    requires Step(text, i, limit).Ok? && Step(text, i, limit).value <= limit'
    ensures Step(text, i, limit') == Step(text, i, limit)
    ensures IsLexeme(text, i, limit') == IsLexeme(text, i, limit)
  {
    if IsQuote(text[i]) {
      StringEndShrinks(text, text[i], i + 1, limit, limit');
    } else if StartsComment(text, i, limit) {
      var n := LineEnd(text, i, limit);
      assert text[i] == '/' ==> n != i + 1;
    }
  }
}
