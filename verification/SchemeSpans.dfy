/** What holds of the blocks found in any text the scanner accepts: braces balance inside
    every block, deletion spans nest or are disjoint, and no span boundary falls inside a
    string or a comment. */
module SchemeSpans {
  import opened Wrappers
  import opened PythonText
  import opened SchemeLexer
  import opened SchemeScan

  /** Characters every scanner passes one at a time without a change of state, words aside. */
  predicate IsPlain(c: char) {
    !IsQuote(c) && c != '#' && c != '/' && c != '{' && c != '}'
  }

  predicate AllPlain(text: string, i: nat, j: nat)
    requires i <= j <= |text|
  {
    forall k :: i <= k < j ==> IsPlain(text[k])
  }

  lemma {:induction false} BlockOpenIsPlain(text: string, i: nat, end: nat)
    requires i < end <= |text| && IsWordStart(text[i])
    requires BlockOpen(text, WordEnd(text, i + 1, end), end).Some?
    ensures AllPlain(text, i, BlockOpen(text, WordEnd(text, i + 1, end), end).value)
  {
  }

  /** The parts of `Find` at a block it accepts. */
  lemma FindAtBlock(text: string, i: nat, end: nat, depth: nat) returns (f: Found, inner: seq<Found>, rest: seq<Found>)
    requires i < end <= |text| && !IsLexeme(text, i, end) && IsWordStart(text[i])
    requires text[i..WordEnd(text, i + 1, end)] == "attributes"
    requires BlockOpen(text, WordEnd(text, i + 1, end), end).Some?
    requires Find(text, i, end, depth).Ok?
    ensures f.keyword == i && Some(f.brace) == BlockOpen(text, WordEnd(text, i + 1, end), end)
    ensures Ok(f.close) == CloseFrom(text, f.brace + 1, end, 1) && f.contentEnd == ContentEnd(text, f.close, end)
    ensures Ok(inner) == Find(text, f.brace + 1, f.close - 1, 0)
    ensures Ok(rest) == Find(text, f.close, end, depth)
    ensures Find(text, i, end, depth).value == [f] + inner + rest
  {
    hide StringEnd, KeyFrom, CloseFrom, WordEnd, BlockOpen, ContentEnd;
    var brace := BlockOpen(text, WordEnd(text, i + 1, end), end).value;
    var block := FoundAt(text, i, brace, end).value;
    f, inner, rest := block.found[0], block.found[1..], Find(text, block.close, end, depth).value;
  }

  // ---------- braces ----------

  /** The nesting depth at the end of text[i..limit] when it starts at depth d; None when
      a '}' has no partner or a string does not end. */
  function Balance(text: string, i: nat, limit: nat, d: nat): Option<nat>
    requires i <= limit <= |text|
    decreases limit - i
  {
    if i == limit then Some(d)
    else if Step(text, i, limit).Err? then None
    else
      var n := Step(text, i, limit).value;
      if IsLexeme(text, i, limit) then Balance(text, n, limit, d)
      else if text[i] == '{' then Balance(text, n, limit, d + 1)
      else if text[i] == '}' then if d == 0 then None else Balance(text, n, limit, d - 1)
      else Balance(text, n, limit, d)
  }

  lemma BalanceUnfold(text: string, i: nat, limit: nat, d: nat)
    requires i < limit <= |text|
    ensures Step(text, i, limit).Err? ==> Balance(text, i, limit, d) == None
    ensures Step(text, i, limit).Ok? ==>
              var n := Step(text, i, limit).value;
              Balance(text, i, limit, d) ==
              if IsLexeme(text, i, limit) then Balance(text, n, limit, d)
              else if text[i] == '{' then Balance(text, n, limit, d + 1)
              else if text[i] == '}' then if d == 0 then None else Balance(text, n, limit, d - 1)
              else Balance(text, n, limit, d)
  {
    hide Step, IsLexeme;
  }

  lemma {:induction false} BalancePlain(text: string, i: nat, j: nat, limit: nat, d: nat)
    requires i <= j <= limit <= |text| && AllPlain(text, i, j)
    ensures Balance(text, i, limit, d) == Balance(text, j, limit, d)
    decreases j - i
  {
    if i < j {
      BalancePlain(text, i + 1, j, limit, d);
    }
  }

  lemma {:induction false} ClosePlain(text: string, i: nat, j: nat, limit: nat, depth: nat)
    requires i <= j <= limit <= |text| && AllPlain(text, i, j) && depth >= 1
    ensures CloseFrom(text, i, limit, depth) == CloseFrom(text, j, limit, depth)
    decreases j - i
  {
    if i < j {
      ClosePlain(text, i + 1, j, limit, depth);
    }
  }

  lemma CloseUnfold(t: string, i: nat, limit: nat, depth: nat)
    requires i < limit <= |t| && depth >= 1
    ensures IsLexeme(t, i, limit) && Step(t, i, limit).Ok? ==>
              CloseFrom(t, i, limit, depth) == CloseFrom(t, Step(t, i, limit).value, limit, depth)
    ensures !IsLexeme(t, i, limit) ==>
              CloseFrom(t, i, limit, depth) ==
              if t[i] == '{' then CloseFrom(t, i + 1, limit, depth + 1)
              else if t[i] == '}' then if depth == 1 then Ok(i + 1) else CloseFrom(t, i + 1, limit, depth - 1)
              else CloseFrom(t, i + 1, limit, depth)
  {
    hide Step, IsLexeme;
  }

  lemma SingleStep(t: string, i: nat, limit: nat)
    requires i < limit <= |t|
    ensures !IsLexeme(t, i, limit) ==> Step(t, i, limit) == Ok(i + 1)
  {
  }

  lemma CloseOk(text: string, i: nat, limit: nat, depth: nat)
    requires i <= limit <= |text| && depth >= 1 && CloseFrom(text, i, limit, depth).Ok?
    ensures i < limit && Step(text, i, limit).Ok? && i < CloseFrom(text, i, limit, depth).value <= limit
  {
    hide StringEnd, LineEnd;
  }

  /** The interior of a matched block is balanced, with and without its '}'. */
  lemma {:induction false} CloseBalances(text: string, i: nat, limit: nat, depth: nat)
    requires i <= limit <= |text| && depth >= 1
    requires CloseFrom(text, i, limit, depth).Ok?
    ensures var c := CloseFrom(text, i, limit, depth).value;
            && Balance(text, i, c - 1, depth - 1) == Some(0)
            && Balance(text, i, c, depth) == Some(0)
    decreases limit - i
  {
    hide Step, IsLexeme, CloseFrom, Balance;
    CloseOk(text, i, limit, depth);
    CloseUnfold(text, i, limit, depth);
    SingleStep(text, i, limit);
    var c, n := CloseFrom(text, i, limit, depth).value, Step(text, i, limit).value;
    if !IsLexeme(text, i, limit) && text[i] == '}' && depth == 1 {
      StepShrinks(text, i, limit, c);
      BalanceUnfold(text, i, c, depth);
      BalanceEnd(text, i, 0);
      BalanceEnd(text, c, 0);
    } else {
      var d := if IsLexeme(text, i, limit) then depth
               else if text[i] == '{' then depth + 1 else if text[i] == '}' then depth - 1 else depth;
      CloseBalances(text, n, limit, d);
      CloseOk(text, n, limit, d);
      StepShrinks(text, i, limit, c - 1);
      StepShrinks(text, i, limit, c);
      BalanceUnfold(text, i, c - 1, depth - 1);
      BalanceUnfold(text, i, c, depth);
    }
  }

  lemma BalanceEnd(text: string, i: nat, d: nat)
    requires i <= |text|
    ensures Balance(text, i, i, d) == Some(d)
  {
  }

  /** In a balanced range every open block is closed, and what follows is balanced. */
  lemma {:induction false} BalanceCloses(text: string, i: nat, limit: nat, d: nat, k: nat)
    requires i <= limit <= |text| && 1 <= k <= d
    requires Balance(text, i, limit, d) == Some(0)
    ensures CloseFrom(text, i, limit, k).Ok?
    ensures Balance(text, CloseFrom(text, i, limit, k).value, limit, d - k) == Some(0)
    decreases limit - i
  {
    hide Step, IsLexeme, CloseFrom, Balance;
    if i == limit {
      BalanceEnd(text, i, d);
    } else {
      BalanceUnfold(text, i, limit, d);
      CloseUnfold(text, i, limit, k);
      SingleStep(text, i, limit);
      var n := Step(text, i, limit).value;
      if IsLexeme(text, i, limit) {
        BalanceCloses(text, n, limit, d, k);
      } else if text[i] == '{' {
        BalanceCloses(text, n, limit, d + 1, k + 1);
      } else if text[i] != '}' {
        BalanceCloses(text, n, limit, d, k);
      } else if k > 1 {
        BalanceCloses(text, n, limit, d - 1, k - 1);
      }
    }
  }

  predicate KeyError(e: SchemeError) {
    e == BadEscape || e == NoCodePoint || e == KeyWithoutString || e == DuplicateKey
  }

  /** Strings read after `key` end inside a balanced range, and leave it balanced. */
  lemma {:induction false} StringsBalance(text: string, i: nat, limit: nat, d: nat)
    requires i <= limit <= |text|
    requires Balance(text, i, limit, d).Some?
    ensures var r := StringsFrom(text, i, limit);
            if r.Ok? then Balance(text, r.value.next, limit, d) == Balance(text, i, limit, d)
            else r.error == BadEscape || r.error == NoCodePoint
    decreases limit - i
  {
    hide StringEnd, DecodeLiteral, StringsFrom, WithParts, SkipBlanks, Balance;
    StringsUnfold(text, i, limit);
    if i < limit && IsQuote(text[i]) {
      BalanceString(text, i, limit, d);
      var end := StringEnd(text, text[i], i + 1, limit).value;
      LiteralFails(text, i, end, limit);
      var k := SkipBlanks(text, end, limit);
      BalanceBlanks(text, end, limit, d);
      StringsBalance(text, k, limit, d);
      if DecodeLiteral(text[i..end]).Ok? {
        PartsNext(DecodeLiteral(text[i..end]).value, StringsFrom(text, k, limit));
      }
    }
  }

  lemma BalanceString(text: string, i: nat, limit: nat, d: nat)
    requires i < limit <= |text| && IsQuote(text[i]) && Balance(text, i, limit, d).Some?
    ensures var end := StringEnd(text, text[i], i + 1, limit);
            && end.Ok? && i < end.value <= limit
            && Balance(text, end.value, limit, d) == Balance(text, i, limit, d)
  {
    hide StringEnd;
    assert Step(text, i, limit) == StringEnd(text, text[i], i + 1, limit);
  }

  lemma BalanceBlanks(text: string, end: nat, limit: nat, d: nat)
    requires end <= limit <= |text|
    ensures Balance(text, SkipBlanks(text, end, limit), limit, d) == Balance(text, end, limit, d)
  {
    hide SkipBlanks, Balance;
    BalancePlain(text, end, SkipBlanks(text, end, limit), limit, d);
  }

  /** A literal the lexer accepts can only have a bad escape. */
  lemma LiteralFails(text: string, i: nat, end: nat, limit: nat)
    requires i < limit <= |text| && IsQuote(text[i]) && StringEnd(text, text[i], i + 1, limit) == Ok(end)
    ensures i < end <= limit
    ensures var r := DecodeLiteral(text[i..end]); r.Err? ==> r.error == BadEscape || r.error == NoCodePoint
  {
    hide StringEnd, DecodeBody;
    assert text[i..end][0] == text[i] && text[i..end][end - i - 1] == text[end - 1];
  }

  lemma PartsNext(v: Codes, r: Scan<StringsRead>)
    ensures var s := WithParts(Some(v), r);
            s.Ok? == r.Ok? && (r.Ok? ==> s.value.next == r.value.next) && (r.Err? ==> s.error == r.error)
  {
  }

  lemma {:induction false} ValueStartBalance(text: string, i: nat, limit: nat, d: nat)
    requires i <= limit <= |text|
    ensures Balance(text, ValueStart(text, i, limit), limit, d) == Balance(text, i, limit, d)
  {
    hide Balance;
    BalancePlain(text, i, ValueStart(text, i, limit), limit, d);
  }

  lemma {:induction false} KeyInBalance(text: string, i: nat, end: nat, depth: int, key: Option<Codes>, d: nat)
    requires i <= end <= |text|
    requires Balance(text, i, end, d).Some?
    ensures var r := KeyFrom(text, i, end, depth, key); r.Err? ==> KeyError(r.error)
    decreases end - i
  {
    hide StringEnd, StringsFrom, ValueStart;
    if i < end {
      var n := Step(text, i, end).value;
      if IsLexeme(text, i, end) {
        KeyInBalance(text, n, end, depth, key, d);
      } else if text[i] == '{' {
        KeyInBalance(text, n, end, depth + 1, key, d + 1);
      } else if text[i] == '}' {
        KeyInBalance(text, n, end, depth - 1, key, d - 1);
      } else if IsWordStart(text[i]) {
        var w := WordEnd(text, i + 1, end);
        BalancePlain(text, i, w, end, d);
        if depth == 1 && text[i..w] == "key" {
          ValueStartBalance(text, w, end, d);
          StringsBalance(text, ValueStart(text, w, end), end, d);
          var r := StringsFrom(text, ValueStart(text, w, end), end);
          if r.Ok? {
            KeyInBalance(text, r.value.next, end, depth, r.value.codes, d);
          }
        } else {
          KeyInBalance(text, w, end, depth, key, d);
        }
      } else {
        KeyInBalance(text, n, end, depth, key, d);
      }
    }
  }

  lemma {:induction false} FindInBalance(text: string, i: nat, end: nat, d: nat)
    requires i <= end <= |text|
    requires Balance(text, i, end, d) == Some(0)
    ensures var r := Find(text, i, end, d); r.Err? ==> KeyError(r.error)
    decreases end - i
  {
    hide StringEnd, KeyFrom, CloseFrom, BlockOpen, DecodeBody;
    if i < end {
      var n := Step(text, i, end).value;
      if IsLexeme(text, i, end) {
        FindInBalance(text, n, end, d);
      } else if text[i] == '{' {
        FindInBalance(text, n, end, d + 1);
      } else if text[i] == '}' {
        FindInBalance(text, n, end, d - 1);
      } else if IsWordStart(text[i]) {
        var w := WordEnd(text, i + 1, end);
        if text[i..w] != "attributes" || BlockOpen(text, w, end).None? {
          BalancePlain(text, i, w, end, d);
          FindInBalance(text, w, end, d);
        } else {
          BlockInBalance(text, i, end, d);
        }
      } else {
        FindInBalance(text, n, end, d);
      }
    }
  }

  lemma {:induction false} BlockInBalance(text: string, i: nat, end: nat, d: nat)
    requires i < end <= |text| && !IsLexeme(text, i, end) && IsWordStart(text[i])
    requires Balance(text, i, end, d) == Some(0)
    requires text[i..WordEnd(text, i + 1, end)] == "attributes"
    requires BlockOpen(text, WordEnd(text, i + 1, end), end).Some?
    ensures var r := Find(text, i, end, d); r.Err? ==> KeyError(r.error)
    decreases end - i, 0
  {
    hide StringEnd, CloseFrom, WordEnd, BlockOpen, FoundAt, Balance;
    var brace := BlockOpen(text, WordEnd(text, i + 1, end), end).value;
    BlockOpenIsPlain(text, i, end);
    BalancePlain(text, i, brace, end, d);
    BalanceOpens(text, brace, end, d);
    BalanceCloses(text, brace + 1, end, d + 1, 1);
    FoundInBalance(text, i, brace, end);
    FindInBalance(text, CloseFrom(text, brace + 1, end, 1).value, end, d);
  }

  lemma BalanceOpens(text: string, brace: nat, limit: nat, d: nat)
    requires brace < limit <= |text| && text[brace] == '{'
    ensures Balance(text, brace, limit, d) == Balance(text, brace + 1, limit, d + 1)
  {
  }

  lemma {:induction false} FoundInBalance(text: string, keyword: nat, brace: nat, end: nat)
    requires keyword < brace < end <= |text| && text[brace] == '{'
    requires CloseFrom(text, brace + 1, end, 1).Ok?
    ensures var r := FoundAt(text, keyword, brace, end);
            if r.Ok? then Ok(r.value.close) == CloseFrom(text, brace + 1, end, 1) else KeyError(r.error)
    decreases end - brace, 1
  {
    hide Find, KeyFrom, CloseFrom, KeyError;
    InteriorNeverFails(text, brace, end);
  }

  /** Once `_scan_message` has matched a block, neither the key extraction nor the
      recursive scan of its interior can meet an unbalanced brace or an open string:
      the only errors left are those of the key field itself. */
  lemma {:induction false} InteriorNeverFails(text: string, brace: nat, end: nat)
    requires brace < end <= |text| && text[brace] == '{'
    requires CloseFrom(text, brace + 1, end, 1).Ok?
    ensures var close := CloseFrom(text, brace + 1, end, 1).value;
            && (var key := KeyFrom(text, brace, close, 0, None); key.Err? ==> KeyError(key.error))
            && (var inner := FindBlocks(text, brace + 1, close - 1); inner.Err? ==> KeyError(inner.error))
    decreases end - brace, 0
  {
    hide StringEnd, KeyFrom, CloseFrom;
    var close := CloseFrom(text, brace + 1, end, 1).value;
    CloseBalances(text, brace + 1, end, 1);
    KeyInBalance(text, brace, close, 0, None, 0);
    FindInBalance(text, brace + 1, close - 1, 0);
  }

  // ---------- nesting of the blocks ----------

  ghost predicate Faithful(text: string, f: Found) {
    && InText(text, f)
    && IsWordStart(text[f.keyword])
    && text[f.close - 1] == '}'
    && (f.contentEnd == f.close || (f.contentEnd == f.close + 1 && text[f.close] == ';'))
  }

  predicate Before(a: Found, b: Found) {
    a.contentEnd <= b.keyword
  }

  predicate Inside(a: Found, b: Found) {
    a.brace < b.keyword && b.contentEnd < a.close
  }

  ghost predicate Ordered(text: string, fs: seq<Found>) {
    && (forall k :: 0 <= k < |fs| ==> Faithful(text, fs[k]))
    && (forall a, b :: 0 <= a < b < |fs| ==> Before(fs[a], fs[b]) || Inside(fs[a], fs[b]))
  }

  lemma {:induction false} OrderedBlock(text: string, f: Found, inner: seq<Found>, rest: seq<Found>)
    requires Faithful(text, f) && Ordered(text, inner) && Ordered(text, rest)
    requires forall g :: g in inner ==> f.brace < g.keyword && g.contentEnd < f.close
    requires forall g :: g in rest ==> f.close <= g.keyword
    ensures Ordered(text, [f] + inner + rest)
  {
    var all := [f] + inner + rest;
    forall a, b | 0 <= a < b < |all|
      ensures Before(all[a], all[b]) || Inside(all[a], all[b])
    {
      if b <= |inner| {
        if a > 0 {
          assert all[a] == inner[a - 1] && all[b] == inner[b - 1];
        } else {
          assert all[b] == inner[b - 1] && all[b] in inner;
        }
      } else {
        assert all[b] == rest[b - 1 - |inner|] && all[b] in rest && Faithful(text, all[b]);
        if a > |inner| {
          assert all[a] == rest[a - 1 - |inner|];
        } else if a > 0 {
          assert all[a] == inner[a - 1] && all[a] in inner;
        }
      }
    }
    forall k | 0 <= k < |all|
      ensures Faithful(text, all[k])
    {
      if 0 < k <= |inner| {
        assert all[k] == inner[k - 1];
      } else if k > |inner| {
        assert all[k] == rest[k - 1 - |inner|];
      }
    }
  }

  lemma {:induction false} FindOrdered(text: string, i: nat, end: nat, depth: nat)
    requires i <= end <= |text|
    requires Find(text, i, end, depth).Ok?
    ensures Ordered(text, Find(text, i, end, depth).value)
    decreases end - i
  {
    hide StringEnd, KeyFrom, CloseFrom, BlockOpen, Ordered;
    if i == end {
      assert Ordered(text, []) by { OrderedEmpty(text); }
    } else if IsLexeme(text, i, end) {
      FindOrdered(text, Step(text, i, end).value, end, depth);
    } else if text[i] == '{' {
      FindOrdered(text, i + 1, end, depth + 1);
    } else if text[i] == '}' {
      FindOrdered(text, i + 1, end, depth - 1);
    } else if IsWordStart(text[i]) {
      var w := WordEnd(text, i + 1, end);
      if text[i..w] != "attributes" || BlockOpen(text, w, end).None? {
        FindOrdered(text, w, end, depth);
      } else {
        BlockOrdered(text, i, end, depth);
      }
    } else {
      FindOrdered(text, i + 1, end, depth);
    }
  }

  lemma {:induction false} BlockOrdered(text: string, i: nat, end: nat, depth: nat)
    requires i < end <= |text| && !IsLexeme(text, i, end) && IsWordStart(text[i])
    requires text[i..WordEnd(text, i + 1, end)] == "attributes"
    requires BlockOpen(text, WordEnd(text, i + 1, end), end).Some?
    requires Find(text, i, end, depth).Ok?
    ensures Ordered(text, Find(text, i, end, depth).value)
    decreases end - i, 0
  {
    hide Find, StringEnd, CloseFrom, WordEnd, BlockOpen, Ordered;
    var f, inner, rest := FindAtBlock(text, i, end, depth);
    FindOrdered(text, f.brace + 1, f.close - 1, 0);
    FindOrdered(text, f.close, end, depth);
    OrderedBlock(text, f, inner, rest);
  }

  lemma OrderedEmpty(text: string)
    ensures Ordered(text, [])
  {
  }

  // ---------- nesting of the deletion spans ----------

  /** A span reaches past its block over white space only: back to a line start, and
      forward to the first newline after the block. */
  lemma SpanShape(text: string, keyword: nat, contentEnd: nat)
    requires keyword < contentEnd <= |text|
    ensures var (s, e) := DeletionSpan(text, keyword, contentEnd);
            && s <= keyword && contentEnd <= e <= |text|
            && AllSpace(text, s, keyword) && AllSpace(text, contentEnd, e)
            && (s < keyword ==> (s == 0 || text[s - 1] == '\n') && forall p :: s <= p < keyword ==> text[p] != '\n')
            && (contentEnd < e ==> text[e - 1] == '\n' && forall p :: contentEnd <= p < e - 1 ==> text[p] != '\n')
  {
  }

  lemma SpansApart(text: string, a: Found, b: Found)
    requires Faithful(text, a) && Faithful(text, b) && Before(a, b)
    ensures ToBlock(text, a).end <= ToBlock(text, b).start
  {
    SpanShape(text, a.keyword, a.contentEnd);
    SpanShape(text, b.keyword, b.contentEnd);
    assert !IsSpace(text[a.contentEnd - 1]) && !IsSpace(text[b.keyword]);
  }

  lemma SpansNest(text: string, a: Found, b: Found)
    requires Faithful(text, a) && Faithful(text, b) && Inside(a, b)
    ensures ToBlock(text, a).start < ToBlock(text, b).start
    ensures ToBlock(text, b).end < ToBlock(text, a).end
  {
    SpanShape(text, a.keyword, a.contentEnd);
    SpanShape(text, b.keyword, b.contentEnd);
    assert !IsSpace(text[a.close - 1]) && !IsSpace(text[a.keyword]) && !IsSpace(text[b.keyword]);
  }

  predicate Apart(a: AttrBlock, b: AttrBlock) {
    a.end <= b.start
  }

  predicate Nested(a: AttrBlock, b: AttrBlock) {
    a.start < b.start && b.end < a.end
  }

  /** Any two spans are disjoint or nested, and the list is in order of their starts. */
  ghost predicate Laminar(n: nat, blocks: seq<AttrBlock>) {
    && (forall k :: 0 <= k < |blocks| ==> blocks[k].start < blocks[k].end <= n)
    && (forall a, b :: 0 <= a < b < |blocks| ==> Apart(blocks[a], blocks[b]) || Nested(blocks[a], blocks[b]))
  }

  /** For every text the scanner accepts. */
  lemma {:induction false} SpansAreLaminar(text: string)
    requires FindBlocks(text, 0, |text|).Ok?
    ensures Laminar(|text|, FindBlocks(text, 0, |text|).value)
  {
    hide Find;
    var fs := Find(text, 0, |text|, 0).value;
    FindOrdered(text, 0, |text|, 0);
    var blocks := ToBlocks(text, fs);
    forall k | 0 <= k < |blocks|
      ensures blocks[k].start < blocks[k].end <= |text|
    {
      SpanShape(text, fs[k].keyword, fs[k].contentEnd);
    }
    forall a, b | 0 <= a < b < |blocks|
      ensures Apart(blocks[a], blocks[b]) || Nested(blocks[a], blocks[b])
    {
      assert Faithful(text, fs[a]) && Faithful(text, fs[b]);
      if Before(fs[a], fs[b]) {
        SpansApart(text, fs[a], fs[b]);
      } else {
        SpansNest(text, fs[a], fs[b]);
      }
    }
  }

  // ---------- span boundaries and lexemes ----------

  /** The lexer, started at i, stops at p between two lexemes. */
  predicate Lands(text: string, i: nat, p: nat, limit: nat)
    requires i <= limit <= |text|
    decreases limit - i
  {
    i == p || (i < p && i < limit && Step(text, i, limit).Ok? && Lands(text, Step(text, i, limit).value, p, limit))
  }

  /** p lies strictly inside a string or comment that the lexer meets. */
  ghost predicate InsideLexeme(text: string, p: nat) {
    exists a: nat :: a < p && a < |text| && Lands(text, 0, a, |text|) && IsLexeme(text, a, |text|)
                     && Step(text, a, |text|).Ok? && p < Step(text, a, |text|).value
  }

  lemma {:induction false} LandsThrough(text: string, i: nat, j: nat, p: nat, limit: nat)
    requires i <= limit <= |text| && j <= limit
    requires Lands(text, i, j, limit) && Lands(text, j, p, limit)
    ensures Lands(text, i, p, limit)
    decreases limit - i
  {
    if i < j {
      LandsThrough(text, Step(text, i, limit).value, j, p, limit);
      assert j <= p;
    }
  }

  lemma {:induction false} LandsPlain(text: string, i: nat, j: nat, limit: nat)
    requires i <= j <= limit <= |text| && AllPlain(text, i, j)
    ensures Lands(text, i, j, limit)
    decreases j - i
  {
    if i < j {
      LandsPlain(text, i + 1, j, limit);
    }
  }

  lemma {:induction false} CloseLands(text: string, i: nat, limit: nat, depth: nat)
    requires i <= limit <= |text| && depth >= 1
    requires CloseFrom(text, i, limit, depth).Ok?
    ensures var c := CloseFrom(text, i, limit, depth).value;
            Lands(text, i, c - 1, limit) && Lands(text, i, c, limit)
    decreases limit - i
  {
    hide StringEnd;
    var n := Step(text, i, limit).value;
    if IsLexeme(text, i, limit) {
      CloseLands(text, n, limit, depth);
    } else if text[i] != '}' || depth > 1 {
      CloseLands(text, n, limit, if text[i] == '{' then depth + 1 else if text[i] == '}' then depth - 1 else depth);
    }
  }

  /** Inside a range the lexer passes through, a smaller limit changes nothing. */
  lemma {:induction false} LandsWiden(text: string, i: nat, p: nat, limit': nat, limit: nat)
    requires i <= limit' <= limit <= |text|
    requires Lands(text, i, limit', limit) && Lands(text, i, p, limit')
    ensures Lands(text, i, p, limit)
    decreases limit' - i
  {
    if i < p {
      StepShrinksHere(text, i, limit', limit);
      LandsWiden(text, Step(text, i, limit).value, p, limit', limit);
    }
  }

  lemma StepShrinksHere(text: string, i: nat, limit': nat, limit: nat)
    requires i < limit' <= limit <= |text|
    requires Lands(text, i, limit', limit)
    ensures Step(text, i, limit').Ok? && Step(text, i, limit') == Step(text, i, limit)
    ensures Lands(text, Step(text, i, limit).value, limit', limit)
  {
    StepShrinks(text, i, limit, limit');
  }

  ghost predicate FoundLands(text: string, i: nat, end: nat, fs: seq<Found>)
    requires i <= end <= |text|
  {
    forall f :: f in fs ==> Lands(text, i, f.keyword, end) && Lands(text, i, f.contentEnd, end)
  }

  lemma {:induction false} FoundLandsFrom(text: string, i: nat, j: nat, end: nat, fs: seq<Found>)
    requires i <= j <= end <= |text|
    requires Lands(text, i, j, end) && FoundLands(text, j, end, fs)
    ensures FoundLands(text, i, end, fs)
  {
    forall f | f in fs
      ensures Lands(text, i, f.keyword, end) && Lands(text, i, f.contentEnd, end)
    {
      LandsThrough(text, i, j, f.keyword, end);
      LandsThrough(text, i, j, f.contentEnd, end);
    }
  }

  lemma {:induction false} FindLands(text: string, i: nat, end: nat, depth: nat)
    requires i <= end <= |text|
    requires Find(text, i, end, depth).Ok?
    ensures FoundLands(text, i, end, Find(text, i, end, depth).value)
    decreases end - i
  {
    hide StringEnd, KeyFrom, CloseFrom, BlockOpen, FoundLands;
    if i == end {
      assert FoundLands(text, i, end, []) by { FoundLandsEmpty(text, i, end); }
    } else if IsLexeme(text, i, end) {
      FindLands(text, Step(text, i, end).value, end, depth);
      FoundLandsFrom(text, i, Step(text, i, end).value, end, Find(text, i, end, depth).value);
    } else if text[i] == '{' {
      FindLands(text, i + 1, end, depth + 1);
      FoundLandsFrom(text, i, i + 1, end, Find(text, i, end, depth).value);
    } else if text[i] == '}' {
      FindLands(text, i + 1, end, depth - 1);
      FoundLandsFrom(text, i, i + 1, end, Find(text, i, end, depth).value);
    } else if IsWordStart(text[i]) {
      var w := WordEnd(text, i + 1, end);
      if text[i..w] != "attributes" || BlockOpen(text, w, end).None? {
        LandsPlain(text, i, w, end);
        FindLands(text, w, end, depth);
        FoundLandsFrom(text, i, w, end, Find(text, i, end, depth).value);
      } else {
        BlockLands(text, i, end, depth);
      }
    } else {
      FindLands(text, i + 1, end, depth);
      FoundLandsFrom(text, i, i + 1, end, Find(text, i, end, depth).value);
    }
  }

  lemma FoundLandsEmpty(text: string, i: nat, end: nat)
    requires i <= end <= |text|
    ensures FoundLands(text, i, end, [])
  {
  }

  lemma {:induction false} BlockLands(text: string, i: nat, end: nat, depth: nat)
    requires i < end <= |text| && !IsLexeme(text, i, end) && IsWordStart(text[i])
    requires text[i..WordEnd(text, i + 1, end)] == "attributes"
    requires BlockOpen(text, WordEnd(text, i + 1, end), end).Some?
    requires Find(text, i, end, depth).Ok?
    ensures FoundLands(text, i, end, Find(text, i, end, depth).value)
    decreases end - i, 0
  {
    hide Find, Step, Lands, IsLexeme, StringEnd, CloseFrom, WordEnd, BlockOpen, FoundLands;
    var f, inner, rest := FindAtBlock(text, i, end, depth);
    BlockOpenIsPlain(text, i, end);
    LandsPlain(text, i, f.brace, end);
    LandsOne(text, f.brace, end);
    CloseLands(text, f.brace + 1, end, 1);
    LandsThrough(text, i, f.brace, f.brace + 1, end);
    LandsThrough(text, i, f.brace + 1, f.close, end);
    FindLands(text, f.close, end, depth);
    FoundLandsFrom(text, i, f.close, end, rest);
    FindLands(text, f.brace + 1, f.close - 1, 0);
    InnerLands(text, f.brace + 1, f.close - 1, end, inner);
    FoundLandsFrom(text, i, f.brace + 1, end, inner);
    LandsPlain(text, f.close, f.contentEnd, end);
    LandsThrough(text, i, f.close, f.contentEnd, end);
    FoundLandsJoin(text, i, end, f, inner, rest);
  }

  lemma LandsOne(text: string, i: nat, limit: nat)
    requires i < limit <= |text| && text[i] == '{'
    ensures Lands(text, i, i + 1, limit)
  {
  }

  lemma FoundLandsJoin(text: string, i: nat, end: nat, f: Found, inner: seq<Found>, rest: seq<Found>)
    requires i <= end <= |text|
    requires FoundLands(text, i, end, inner) && FoundLands(text, i, end, rest)
    requires Lands(text, i, f.keyword, end) && Lands(text, i, f.contentEnd, end)
    ensures FoundLands(text, i, end, [f] + inner + rest)
  {
  }

  lemma {:induction false} InnerLands(text: string, i: nat, limit': nat, limit: nat, fs: seq<Found>)
    requires i <= limit' <= limit <= |text|
    requires Lands(text, i, limit', limit) && FoundLands(text, i, limit', fs)
    ensures FoundLands(text, i, limit, fs)
  {
    forall f | f in fs
      ensures Lands(text, i, f.keyword, limit) && Lands(text, i, f.contentEnd, limit)
    {
      LandsWiden(text, i, f.keyword, limit', limit);
      LandsWiden(text, i, f.contentEnd, limit', limit);
    }
  }

  /** A line start followed by white space up to a stop of the lexer is itself a stop. */
  lemma {:induction false} LandsAtLineStart(text: string, i: nat, s: nat, k: nat)
    requires i <= s < k <= |text|
    requires Lands(text, i, k, |text|)
    requires s == 0 || text[s - 1] == '\n'
    requires AllSpace(text, s, k)
    ensures Lands(text, i, s, |text|)
    decreases s - i
  {
    if i < s {
      var n := Step(text, i, |text|).value;
      LandsAtLineStart(text, n, s, k);
    }
  }

  lemma {:induction false} StopIsNotInside(text: string, i: nat, a: nat, p: nat)
    requires i <= a < p && a < |text| && p <= |text|
    requires Lands(text, i, a, |text|) && Lands(text, i, p, |text|)
    ensures Step(text, a, |text|).Ok? ==> Step(text, a, |text|).value <= p
    decreases a - i
  {
    hide StringEnd, LineEnd;
    if i < a {
      StopIsNotInside(text, Step(text, i, |text|).value, a, p);
    }
  }

  lemma NeverInside(text: string, p: nat)
    requires p <= |text| && Lands(text, 0, p, |text|)
    ensures !InsideLexeme(text, p)
  {
    hide StringEnd, LineEnd;
    forall a: nat | a < p && a < |text| && Lands(text, 0, a, |text|)
      ensures Step(text, a, |text|).Ok? ==> Step(text, a, |text|).value <= p
    {
      StopIsNotInside(text, 0, a, p);
    }
  }

  /** No deletion span of an accepted text starts or ends inside a string or a comment,
      whatever the strings contain, and outside keyword..contentEnd it covers white
      space only. */
  lemma {:induction false} SpansRespectLexemes(text: string, k: nat)
    requires Find(text, 0, |text|, 0).Ok? && k < |Find(text, 0, |text|, 0).value|
    ensures var f := Find(text, 0, |text|, 0).value[k];
            var b := ToBlock(text, f);
            && b.start <= f.keyword < f.contentEnd <= b.end <= |text|
            && AllSpace(text, b.start, f.keyword) && AllSpace(text, f.contentEnd, b.end)
            && !InsideLexeme(text, b.start) && !InsideLexeme(text, b.end)
  {
    hide Find, StringEnd, DeletionSpan;
    var f := Find(text, 0, |text|, 0).value[k];
    assert f in Find(text, 0, |text|, 0).value;
    FindLands(text, 0, |text|, 0);
    var b := ToBlock(text, f);
    SpanShape(text, f.keyword, f.contentEnd);
    if b.start < f.keyword {
      LandsAtLineStart(text, 0, b.start, f.keyword);
    }
    LandsPlain(text, f.contentEnd, b.end, |text|);
    LandsThrough(text, 0, f.contentEnd, b.end, |text|);
    NeverInside(text, b.start);
    NeverInside(text, b.end);
  }
}
