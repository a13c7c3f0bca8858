/** The key of a block that encloses a gap: it is what it was before the block in the gap was
    cut out. */
module SchemeGapKey {
  import opened Wrappers
  import opened SchemeLexer
  import opened SchemeScan
  import opened SchemeSpans
  import opened SchemeShift
  import opened SchemeGap

  predicate NoWords(t: string, i: nat, j: nat)
    requires i <= j <= |t|
  {
    forall p :: i <= p < j ==> !IsWordStart(t[p])
  }

  lemma {:induction false} KeyPlainRun(t: string, i: nat, j: nat, limit: nat, depth: int, key: Option<Codes>)
    requires i <= j <= limit <= |t| && AllPlain(t, i, j) && NoWords(t, i, j)
    ensures KeyFrom(t, i, limit, depth, key) == KeyFrom(t, j, limit, depth, key)
    decreases j - i
  {
    if i < j {
      KeyPlainRun(t, i + 1, j, limit, depth, key);
    }
  }

  lemma {:induction false} WordStops(t: string, i: nat, w: nat, limit: nat)
    requires i <= w < limit <= |t| && (forall p :: i <= p < w ==> IsWordChar(t[p])) && !IsWordChar(t[w])
    ensures WordEnd(t, i, limit) == w
    decreases w - i
  {
    if i < w {
      WordStops(t, i + 1, w, limit);
    }
  }

  lemma WordIsPlain(t: string, i: nat, limit: nat)
    requires i < limit <= |t| && IsWordStart(t[i])
    ensures AllPlain(t, i, WordEnd(t, i + 1, limit)) && !IsLexeme(t, i, limit)
  {
  }

  /** What `KeyFrom` does at one place, the word `key` at depth one apart. */
  lemma KeyUnfold(t: string, i: nat, limit: nat, depth: int, key: Option<Codes>)
    requires i < limit <= |t|
    ensures IsLexeme(t, i, limit) && Step(t, i, limit).Ok? ==>
              KeyFrom(t, i, limit, depth, key) == KeyFrom(t, Step(t, i, limit).value, limit, depth, key)
    ensures IsLexeme(t, i, limit) && Step(t, i, limit).Err? ==> KeyFrom(t, i, limit, depth, key).Err?
    ensures !IsLexeme(t, i, limit) && !IsWordStart(t[i]) ==>
              KeyFrom(t, i, limit, depth, key) ==
              KeyFrom(t, i + 1, limit, if t[i] == '{' then depth + 1 else if t[i] == '}' then depth - 1 else depth, key)
    ensures !IsLexeme(t, i, limit) && IsWordStart(t[i]) && (depth != 1 || t[i..WordEnd(t, i + 1, limit)] != "key") ==>
              KeyFrom(t, i, limit, depth, key) == KeyFrom(t, WordEnd(t, i + 1, limit), limit, depth, key)
  {
    hide Step, IsLexeme, WordEnd, StringsFrom, ValueStart;
  }

  /** Inside a block below depth one no key is read. */
  lemma {:induction false} KeyDeep(t: string, i: nat, limit: nat, k: nat, d: nat, key: Option<Codes>)
    requires i <= limit <= |t| && k >= 1 && d >= 1 && CloseFrom(t, i, limit, k).Ok?
    ensures KeyFrom(t, i, limit, d + k, key) == KeyFrom(t, CloseFrom(t, i, limit, k).value, limit, d, key)
    decreases limit - i
  {
    hide Step, IsLexeme, WordEnd, KeyFrom, CloseFrom;
    if i == limit {
      CloseEnd(t, limit, k);
    } else {
      KeyUnfold(t, i, limit, d + k, key);
      CloseUnfold(t, i, limit, k);
      if IsLexeme(t, i, limit) {
        CloseLexeme(t, i, limit, k);
        KeyDeep(t, Step(t, i, limit).value, limit, k, d, key);
      } else if IsWordStart(t[i]) {
        var w := WordEnd(t, i + 1, limit);
        WordIsPlain(t, i, limit);
        ClosePlain(t, i, w, limit, k);
        KeyDeep(t, w, limit, k, d, key);
      } else if t[i] == '{' {
        KeyDeep(t, i + 1, limit, k + 1, d, key);
      } else if t[i] != '}' {
        KeyDeep(t, i + 1, limit, k, d, key);
      } else if k > 1 {
        KeyDeep(t, i + 1, limit, k - 1, d, key);
      }
    }
  }

  lemma CloseEnd(t: string, limit: nat, k: nat)
    requires limit <= |t| && k >= 1
    ensures CloseFrom(t, limit, limit, k).Err?
  {
  }

  lemma CloseLexeme(t: string, i: nat, limit: nat, k: nat)
    requires i < limit <= |t| && k >= 1 && CloseFrom(t, i, limit, k).Ok? && IsLexeme(t, i, limit)
    ensures Step(t, i, limit).Ok?
  {
  }

  lemma KeywordStands(t: string, f: Found, limit: nat)
    requires Shape(t, f) && f.brace < limit <= |t|
    ensures f.keyword + 10 <= f.brace && WordEnd(t, f.keyword + 1, limit) == f.keyword + 10
    ensures t[f.keyword..f.keyword + 10] == "attributes" && IsWordStart(t[f.keyword])
    ensures !IsLexeme(t, f.keyword, limit)
    ensures AllPlain(t, f.keyword + 10, f.brace) && NoWords(t, f.keyword + 10, f.brace)
  {
    hide CloseFrom;
    forall p | f.keyword <= p < f.keyword + 10
      ensures IsWordChar(t[p])
    {
      assert t[p] == t[f.keyword..f.keyword + 10][p - f.keyword];
    }
    assert t[f.keyword..f.keyword + 10][0] == 'a';
    assert !IsWordChar(t[f.keyword + 10]);
    WordStops(t, f.keyword + 1, f.keyword + 10, limit);
  }

  lemma RegionWords(t: string, f: Found, s: nat, e: nat)
    requires Region(t, f, s, e)
    ensures s <= f.keyword <= f.brace < f.close <= e <= |t| && AllPlain(t, s, f.keyword) && NoWords(t, s, f.keyword)
    ensures AllPlain(t, f.close, e) && NoWords(t, f.close, e)
  {
    hide Region, Shape;
    RegionParts(t, f, s, e);
  }

  lemma KeyToBlock(t: string, f: Found, limit: nat, d: nat, key: Option<Codes>)
    requires Shape(t, f) && f.close <= limit <= |t| && d >= 1
    ensures f.brace < limit && KeyFrom(t, f.keyword, limit, d, key) == KeyFrom(t, f.brace + 1, limit, d + 1, key)
  {
    hide Shape, KeyFrom, CloseFrom, AllPlain, NoWords, WordEnd, IsLexeme, Step, IsWordStart;
    ShapeParts(t, f);
    KeywordStands(t, f, limit);
    KeyUnfold(t, f.keyword, limit, d, key);
    KeyPlainRun(t, f.keyword + 10, f.brace, limit, d, key);
    KeyUnfold(t, f.brace, limit, d, key);
    BraceIsNoLexeme(t, f.brace, limit);
  }

  /** The region is nothing to the search for a key around it. */
  lemma KeyThrough(t: string, f: Found, s: nat, e: nat, limit: nat, d: nat, key: Option<Codes>)
    requires Region(t, f, s, e) && e <= limit <= |t| && d >= 1
    ensures KeyFrom(t, s, limit, d, key) == KeyFrom(t, e, limit, d, key)
  {
    hide Region, Shape, KeyFrom, CloseFrom, AllPlain, NoWords, WordEnd, IsLexeme, Step;
    RegionSizes(t, f, s, e);
    RegionWords(t, f, s, e);
    ShapeParts(t, f);
    KeyPlainRun(t, s, f.keyword, limit, d, key);
    KeyToBlock(t, f, limit, d, key);
    CloseWiden(t, f.brace + 1, f.close, limit, 1);
    KeyDeep(t, f.brace + 1, limit, 1, d, key);
    KeyPlainRun(t, f.close, e, limit, d, key);
  }

  lemma BraceIsNoLexeme(t: string, i: nat, limit: nat)
    requires i < limit <= |t| && t[i] == '{'
    ensures !IsLexeme(t, i, limit) && !IsWordStart(t[i])
  {
  }

  lemma KeyAtGap(t: string, u: string, f: Found, s: nat, e: nat, limit: nat, d: nat, key: Option<Codes>)
    requires Gap(t, u, s, e) && Region(t, f, s, e) && e <= limit <= |t| && d >= 1
    ensures s <= limit - (e - s) <= |u|
    ensures KeyFrom(u, s, limit - (e - s), d, key) == KeyFrom(t, s, limit, d, key)
  {
    hide Region, Gap, KeyFrom, Moved;
    GapMoved(t, u, s, e, limit);
    KeyThrough(t, f, s, e, limit, d, key);
    KeyMoves(t, u, e, limit, e - s, d, key);
  }

  // ---------- strings before the region ----------

  lemma {:induction false} LandsRest(t: string, i: nat, j: nat, p: nat, limit: nat)
    requires i <= limit <= |t| && j <= limit && j <= p
    requires Lands(t, i, j, limit) && Lands(t, i, p, limit)
    ensures Lands(t, j, p, limit)
    decreases limit - i
  {
    hide Step;
    if i < j {
      LandsRest(t, Step(t, i, limit).value, j, p, limit);
    }
  }

  lemma QuoteStep(t: string, i: nat, limit: nat)
    requires i < limit <= |t| && IsQuote(t[i])
    ensures IsLexeme(t, i, limit) && Step(t, i, limit) == StringEnd(t, t[i], i + 1, limit)
  {
  }

  lemma BlanksArePlain(t: string, i: nat, j: nat)
    requires i <= j <= |t| && forall p :: i <= p < j ==> IsBlank(t[p])
    ensures AllPlain(t, i, j) && NoWords(t, i, j)
  {
  }

  /** Strings and the blanks after them are nothing to the brace matcher. */
  lemma {:induction false} StringsClose(t: string, i: nat, limit: nat, d: nat)
    requires i <= limit <= |t| && d >= 1 && StringsFrom(t, i, limit).Ok?
    ensures var next := StringsFrom(t, i, limit).value.next;
            CloseFrom(t, next, limit, d) == CloseFrom(t, i, limit, d) && Lands(t, i, next, limit)
    decreases limit - i
  {
    hide StringEnd, DecodeLiteral, SkipBlanks, CloseFrom, Lands, AllPlain, Step, IsLexeme, StringsFrom, WithParts;
    StringsUnfold(t, i, limit);
    if i < limit && IsQuote(t[i]) {
      QuoteStep(t, i, limit);
      var end := StringEnd(t, t[i], i + 1, limit).value;
      var k := SkipBlanks(t, end, limit);
      CloseUnfold(t, i, limit, d);
      BlanksArePlain(t, end, k);
      ClosePlain(t, end, k, limit, d);
      LandsPlain(t, end, k, limit);
      PartsOk(DecodeLiteral(t[i..end]).value, StringsFrom(t, k, limit));
      StringsClose(t, k, limit, d);
      LandsThrough(t, end, k, StringsFrom(t, k, limit).value.next, limit);
      LandsFirst(t, i, StringsFrom(t, k, limit).value.next, limit);
    } else {
      LandsHere(t, i, limit);
    }
  }

  lemma PartsOk(v: Codes, r: Scan<StringsRead>)
    ensures WithParts(Some(v), r).Ok? <==> r.Ok?
    ensures r.Ok? ==> WithParts(Some(v), r).value.next == r.value.next
  {
  }

  lemma LandsFirst(t: string, i: nat, p: nat, limit: nat)
    requires i < limit <= |t| && Step(t, i, limit).Ok? && Step(t, i, limit).value <= p
    requires Lands(t, Step(t, i, limit).value, p, limit)
    ensures Lands(t, i, p, limit)
  {
  }

  lemma LandsHere(t: string, i: nat, limit: nat)
    requires i <= limit <= |t|
    ensures Lands(t, i, i, limit)
  {
  }

  /** How far reading strings comes in the two texts. */
  ghost predicate AgreeNext(t: string, u: string, f: Found, s: nat, limit': nat, next: nat, next': nat)
    requires s <= limit' <= |u|
  {
    && (next < s ==> next' == next)
    && (next >= s ==> next <= f.keyword && next' == SkipBlanks(u, s, limit'))
  }

  lemma {:induction false} StringsAcross(t: string, u: string, f: Found, s: nat, e: nat, i: nat, limit: nat)
    requires Gap(t, u, s, e) && Region(t, f, s, e) && i < s && e <= limit <= |t|
    requires Lands(t, i, f.keyword, limit) && StringsFrom(t, i, limit).Ok?
    ensures s <= limit - (e - s) <= |u|
    ensures var r, r' := StringsFrom(t, i, limit), StringsFrom(u, i, limit - (e - s));
            && r'.Ok? && r'.value.codes == r.value.codes
            && AgreeNext(t, u, f, s, limit - (e - s), r.value.next, r'.value.next)
    decreases s - i
  {
    hide Region, Gap, StringEnd, DecodeLiteral, SkipBlanks, Lands, Step, IsLexeme, StringsFrom, WithParts, IsQuote;
    GapSizes(t, u, s, e);
    RegionSizes(t, f, s, e);
    var limit' := limit - (e - s);
    BeforeIsSame(t, u, s, e, i);
    if IsQuote(t[i]) {
      var end, value := OneStringAcross(t, u, f, s, e, i, limit);
      var k, k' := SkipBlanks(t, end, limit), SkipBlanks(u, end, limit');
      StringsGoOn(t, u, f, s, e, i, end, limit);
      if k < s {
        StringsAcross(t, u, f, s, e, k, limit);
      }
      SameCodes(value, StringsFrom(t, k, limit), StringsFrom(u, k', limit'));
    } else {
      StringsUnfold(t, i, limit);
      StringsUnfold(u, i, limit');
    }
  }

  /** The first string is the same in both texts. */
  lemma OneStringAcross(t: string, u: string, f: Found, s: nat, e: nat, i: nat, limit: nat)
    returns (end: nat, value: Codes)
    requires Gap(t, u, s, e) && Region(t, f, s, e) && i < s && e <= limit <= |t| && IsQuote(t[i])
    requires Lands(t, i, f.keyword, limit) && StringsFrom(t, i, limit).Ok?
    ensures s <= limit - (e - s) <= |u| && i < end <= s
    ensures Step(t, i, limit) == Ok(end) && Lands(t, end, f.keyword, limit)
    ensures IsQuote(t[end - 1]) && !IsBlank(t[end - 1])
    ensures StringsFrom(t, SkipBlanks(t, end, limit), limit).Ok?
    ensures StringsFrom(t, i, limit) == WithParts(Some(value), StringsFrom(t, SkipBlanks(t, end, limit), limit))
    ensures var limit' := limit - (e - s);
            StringsFrom(u, i, limit') == WithParts(Some(value), StringsFrom(u, SkipBlanks(u, end, limit'), limit'))
  {
    hide Region, Gap, StringEnd, DecodeLiteral, SkipBlanks, Lands, Step, IsLexeme, StringsFrom, WithParts, IsQuote,
      IsBlank;
    GapSizes(t, u, s, e);
    RegionSizes(t, f, s, e);
    var limit' := limit - (e - s);
    BeforeIsSame(t, u, s, e, i);
    LandsNext(t, i, f.keyword, limit);
    StepBefore(t, u, f, s, e, i, limit);
    end, value := FirstString(t, i, limit);
    SameSlice(t, u, s, e, i, end);
    QuoteStep(u, i, limit');
    StringsUnfold(u, i, limit');
  }

  /** What the first string contributes. */
  lemma FirstString(t: string, i: nat, limit: nat) returns (end: nat, value: Codes)
    requires i < limit <= |t| && IsQuote(t[i]) && StringsFrom(t, i, limit).Ok?
    ensures i < end <= limit && Step(t, i, limit) == Ok(end) && DecodeLiteral(t[i..end]) == Ok(value)
    ensures IsQuote(t[end - 1]) && !IsBlank(t[end - 1])
    ensures StringsFrom(t, SkipBlanks(t, end, limit), limit).Ok?
    ensures StringsFrom(t, i, limit) == WithParts(Some(value), StringsFrom(t, SkipBlanks(t, end, limit), limit))
  {
    hide StringEnd, DecodeLiteral, SkipBlanks, Step, StringsFrom, WithParts, IsQuote, IsBlank;
    StringsUnfold(t, i, limit);
    QuoteStep(t, i, limit);
    end := StringEnd(t, t[i], i + 1, limit).value;
    value := DecodeLiteral(t[i..end]).value;
    PartsOk(value, StringsFrom(t, SkipBlanks(t, end, limit), limit));
    StringEndsQuoted(t, t[i], i + 1, limit);
  }

  lemma {:induction false} StringEndsQuoted(t: string, quote: char, i: nat, limit: nat)
    requires limit <= |t| && IsQuote(quote) && StringEnd(t, quote, i, limit).Ok?
    ensures var end := StringEnd(t, quote, i, limit).value;
            i < end <= limit && IsQuote(t[end - 1]) && !IsBlank(t[end - 1])
    decreases limit - i
  {
    if t[i] == '\\' {
      StringEndsQuoted(t, quote, i + 2, limit);
    } else if t[i] != quote {
      StringEndsQuoted(t, quote, i + 1, limit);
    }
  }

  lemma BeforeIsSame(t: string, u: string, s: nat, e: nat, i: nat)
    requires Gap(t, u, s, e) && i < s
    ensures i < |u| && u[i] == t[i]
  {
  }

  lemma SameSlice(t: string, u: string, s: nat, e: nat, i: nat, j: nat)
    requires Gap(t, u, s, e) && i <= j <= s
    ensures j <= |u| && u[i..j] == t[i..j]
  {
  }

  lemma SameCodes(v: Codes, a: Scan<StringsRead>, b: Scan<StringsRead>)
    requires a.Ok? && b.Ok? && a.value.codes == b.value.codes
    ensures WithParts(Some(v), a).Ok? && WithParts(Some(v), b).Ok?
    ensures WithParts(Some(v), a).value.codes == WithParts(Some(v), b).value.codes
    ensures WithParts(Some(v), a).value.next == a.value.next && WithParts(Some(v), b).value.next == b.value.next
  {
  }

  /** After one string: the next one lies before the region, or there is none. */
  lemma StringsGoOn(t: string, u: string, f: Found, s: nat, e: nat, i: nat, end: nat, limit: nat)
    requires Gap(t, u, s, e) && Region(t, f, s, e) && i < end <= s && e <= limit <= |t|
    requires i < limit && Step(t, i, limit) == Ok(end) && Lands(t, end, f.keyword, limit)
    requires IsQuote(t[end - 1]) && !IsBlank(t[end - 1])
    ensures s <= limit - (e - s) <= |u|
    ensures var limit' := limit - (e - s); var k := SkipBlanks(t, end, limit); var k' := SkipBlanks(u, end, limit');
            && (k < s ==> k' == k && Lands(t, k, f.keyword, limit))
            && (k >= s ==> k <= f.keyword && k' == SkipBlanks(u, s, limit')
                           && StringsFrom(t, k, limit) == Ok(StringsRead(None, k))
                           && StringsFrom(u, k', limit') == Ok(StringsRead(None, k')))
  {
    hide Region, Gap, SkipBlanks, Lands, Step, StringsFrom, IsQuote, Seam;
    GapSizes(t, u, s, e);
    RegionSizes(t, f, s, e);
    var limit' := limit - (e - s);
    var k := SkipBlanks(t, end, limit);
    SkipAcross(t, u, f, s, e, end, limit);
    if k < s {
      BlanksArePlain(t, end, k);
      LandsPlain(t, end, k, limit);
      LandsRest(t, end, k, f.keyword, limit);
    } else {
      CutKeepsPrefix(t, u, s, e);
      SeamAhead(u, s, limit', end);
      StringsUnfold(t, k, limit);
      StringsUnfold(u, SkipBlanks(u, end, limit'), limit');
    }
  }

  // ---------- the key of a block around the region ----------

  /** Reading on after strings that reach up to the region. */
  lemma KeyAfterStrings(t: string, u: string, f: Found, s: nat, e: nat, limit: nat, d: nat, key: Option<Codes>,
                        next: nat)
    requires Gap(t, u, s, e) && Region(t, f, s, e) && e <= limit <= |t| && d >= 1 && s <= next <= f.keyword
    ensures s <= limit - (e - s) <= |u|
    ensures KeyFrom(u, SkipBlanks(u, s, limit - (e - s)), limit - (e - s), d, key) == KeyFrom(t, next, limit, d, key)
  {
    hide Region, Gap, KeyFrom, AllPlain, NoWords, SkipBlanks;
    GapSizes(t, u, s, e);
    RegionSizes(t, f, s, e);
    RegionWords(t, f, s, e);
    PlainPart(t, s, f.keyword, next);
    KeyPlainRun(t, s, next, limit, d, key);
    KeyAtGap(t, u, f, s, e, limit, d, key);
    var limit' := limit - (e - s);
    BlanksArePlain(u, s, SkipBlanks(u, s, limit'));
    KeyPlainRun(u, s, SkipBlanks(u, s, limit'), limit', d, key);
  }

  lemma PlainPart(t: string, i: nat, j: nat, k: nat)
    requires i <= k <= j <= |t| && AllPlain(t, i, j) && NoWords(t, i, j)
    ensures AllPlain(t, i, k) && NoWords(t, i, k)
  {
  }

  lemma {:induction false} KeyAcross(t: string, u: string, f: Found, s: nat, e: nat, i: nat, limit: nat, depth: nat,
                                     key: Option<Codes>)
    requires Gap(t, u, s, e) && Region(t, f, s, e) && i <= s && e <= limit <= |t| && depth >= 1
    requires Lands(t, i, f.keyword, limit)
    requires CloseFrom(t, i, limit, depth).Ok? && CloseFrom(t, i, limit, depth).value > s
    requires KeyFrom(t, i, limit, depth, key).Ok?
    ensures i <= limit - (e - s) <= |u|
    ensures KeyFrom(u, i, limit - (e - s), depth, key) == KeyFrom(t, i, limit, depth, key)
    decreases s - i, 2
  {
    hide Region, Gap, Step, IsLexeme, Lands, CloseFrom, KeyFrom, WordEnd, AllPlain;
    GapSizes(t, u, s, e);
    RegionSizes(t, f, s, e);
    if i == s {
      KeyAtGap(t, u, f, s, e, limit, depth, key);
    } else {
      LandsNext(t, i, f.keyword, limit);
      StepBefore(t, u, f, s, e, i, limit);
      SingleStep(t, i, limit);
      CloseUnfold(t, i, limit, depth);
      KeyUnfold(t, i, limit, depth, key);
      KeyUnfold(u, i, limit - (e - s), depth, key);
      if IsLexeme(t, i, limit) {
        KeyAcross(t, u, f, s, e, Step(t, i, limit).value, limit, depth, key);
      } else if IsWordStart(t[i]) {
        KeyWordAcross(t, u, f, s, e, i, limit, depth, key);
      } else if t[i] == '{' {
        KeyAcross(t, u, f, s, e, i + 1, limit, depth + 1, key);
      } else if t[i] != '}' {
        KeyAcross(t, u, f, s, e, i + 1, limit, depth, key);
      } else if depth > 1 {
        KeyAcross(t, u, f, s, e, i + 1, limit, depth - 1, key);
      }
    }
  }

  lemma {:induction false} KeyWordAcross(t: string, u: string, f: Found, s: nat, e: nat, i: nat, limit: nat,
                                         depth: nat, key: Option<Codes>)
    requires Gap(t, u, s, e) && Region(t, f, s, e) && i < s && e <= limit <= |t| && depth >= 1
    requires !IsLexeme(t, i, limit) && IsWordStart(t[i]) && Lands(t, i, f.keyword, limit)
    requires i < limit - (e - s) <= |u| && u[i] == t[i] && !IsLexeme(u, i, limit - (e - s))
    requires CloseFrom(t, i, limit, depth).Ok? && CloseFrom(t, i, limit, depth).value > s
    requires KeyFrom(t, i, limit, depth, key).Ok?
    ensures KeyFrom(u, i, limit - (e - s), depth, key) == KeyFrom(t, i, limit, depth, key)
    decreases s - i, 1
  {
    hide Region, Gap, Step, IsLexeme, Lands, CloseFrom, KeyFrom, WordEnd, AllPlain, StringsFrom, ValueStart;
    var limit', w := limit - (e - s), WordEnd(t, i + 1, limit);
    WordBefore(t, u, f, s, e, i, limit);
    WordIsPlain(t, i, limit);
    ClosePlain(t, i, w, limit, depth);
    LandsPlain(t, i, w, limit);
    RegionSizes(t, f, s, e);
    LandsRest(t, i, w, f.keyword, limit);
    KeyUnfold(t, i, limit, depth, key);
    KeyUnfold(u, i, limit', depth, key);
    if depth == 1 && t[i..w] == "key" {
      KeyAtKey(t, u, f, s, e, i, w, limit, key);
    } else {
      KeyAcross(t, u, f, s, e, w, limit, depth, key);
    }
  }

  lemma KeyUnfoldKey(t: string, i: nat, limit: nat, key: Option<Codes>)
    requires i < limit <= |t| && !IsLexeme(t, i, limit) && IsWordStart(t[i]) && t[i..WordEnd(t, i + 1, limit)] == "key"
    ensures var w := WordEnd(t, i + 1, limit);
            var strings := StringsFrom(t, ValueStart(t, w, limit), limit);
            && (strings.Ok? && strings.value.codes.Some? && key.None? ==>
                  KeyFrom(t, i, limit, 1, key) == KeyFrom(t, strings.value.next, limit, 1, strings.value.codes))
            && (strings.Err? || strings.value.codes.None? || key.Some? ==> KeyFrom(t, i, limit, 1, key).Err?)
  {
    hide Step, IsLexeme, WordEnd, StringsFrom, ValueStart;
  }

  lemma NoStringHere(t: string, i: nat, limit: nat)
    requires i <= limit <= |t| && (i == limit || !IsQuote(t[i]))
    ensures StringsFrom(t, i, limit) == Ok(StringsRead(None, i))
  {
  }

  lemma {:induction false} KeyAtKey(t: string, u: string, f: Found, s: nat, e: nat, i: nat, w: nat, limit: nat,
                                    key: Option<Codes>)
    requires Gap(t, u, s, e) && Region(t, f, s, e) && i < w < s && e <= limit <= |t|
    requires !IsLexeme(t, i, limit) && IsWordStart(t[i]) && w == WordEnd(t, i + 1, limit) && t[i..w] == "key"
    requires i < limit - (e - s) <= |u| && u[i] == t[i] && !IsLexeme(u, i, limit - (e - s))
    requires w == WordEnd(u, i + 1, limit - (e - s)) && u[i..w] == "key"
    requires Lands(t, w, f.keyword, limit) && CloseFrom(t, w, limit, 1).Ok? && CloseFrom(t, w, limit, 1).value > s
    requires KeyFrom(t, i, limit, 1, key).Ok?
    ensures KeyFrom(u, i, limit - (e - s), 1, key) == KeyFrom(t, i, limit, 1, key)
    decreases s - i, 0
  {
    hide Region, Gap, Step, IsLexeme, Lands, CloseFrom, KeyFrom, WordEnd, AllPlain, StringsFrom, ValueStart,
      SkipBlanks, IsQuote;
    var limit' := limit - (e - s);
    RegionSizes(t, f, s, e);
    GapSizes(t, u, s, e);
    KeyUnfoldKey(t, i, limit, key);
    KeyUnfoldKey(u, i, limit', key);
    var v := ValueStart(t, w, limit);
    ValueStartAcross(t, u, f, s, e, w, limit);
    if v >= s {
      NoStringHere(t, v, limit);
    }
    assert v < s;
    ValueStartPlain(t, w, limit);
    ClosePlain(t, w, v, limit, 1);
    LandsPlain(t, w, v, limit);
    LandsRest(t, w, v, f.keyword, limit);
    StringsAcross(t, u, f, s, e, v, limit);
    var next := StringsFrom(t, v, limit).value.next;
    var codes := StringsFrom(t, v, limit).value.codes;
    StringsClose(t, v, limit, 1);
    if next < s {
      LandsRest(t, v, next, f.keyword, limit);
      KeyAcross(t, u, f, s, e, next, limit, 1, codes);
    } else {
      KeyAfterStrings(t, u, f, s, e, limit, 1, codes, next);
    }
  }

  lemma ValueStartPlain(t: string, w: nat, limit: nat)
    requires w <= limit <= |t|
    ensures AllPlain(t, w, ValueStart(t, w, limit))
  {
  }
}
