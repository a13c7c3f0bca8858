/** The scanners on a text from which one attributes block has been cut: up to the gap they
    do what they did, and they go on after it as they did after the block. */
module SchemeGap {
  import opened Wrappers
  import opened PythonText
  import opened SchemeLexer
  import opened SchemeScan
  import opened SchemeSpans
  import opened SchemeShift

  // ---------- a block and the region around it ----------

  /** No word runs up to position i; digits before it begin none. */
  predicate WordFree(t: string, i: nat)
    requires i <= |t|
  {
    i == 0 || !IsWordChar(t[i - 1]) || (!IsWordStart(t[i - 1]) && WordFree(t, i - 1))
  }

  /** The block as it stands in the text, whatever range it was found in. */
  ghost predicate Shape(t: string, f: Found) {
    && Faithful(t, f) && f.keyword + 10 <= f.brace
    && t[f.keyword..f.keyword + 10] == "attributes"
    && (forall p :: f.keyword + 10 <= p < f.brace ==> IsBlank(t[p]) || t[p] == ':')
    && t[f.brace] == '{'
    && CloseFrom(t, f.brace + 1, f.close, 1) == Ok(f.close)
    && WordFree(t, f.keyword)
  }

  /** The region s..e holds the block and otherwise white space, none of it a newline before
      the keyword unless the region begins its line. */
  ghost predicate Region(t: string, f: Found, s: nat, e: nat) {
    && Shape(t, f) && s <= f.keyword && f.contentEnd <= e <= |t|
    && (forall p :: s <= p < f.keyword ==> IsSpace(t[p]) && t[p] != '\n')
    && (s < f.keyword ==> s == 0 || t[s - 1] == '\n')
    && (forall p :: f.contentEnd <= p < e ==> IsBlank(t[p]))
  }

  // ---------- what can join where a region was cut out ----------

  /** The end of what stands before position i and the blanks before it. */
  function Back(t: string, i: nat): (r: nat)
    requires i <= |t|
    ensures r <= i && (r > 0 ==> !IsBlank(t[r - 1]))
    ensures forall p :: r <= p < i ==> IsBlank(t[p])
  {
    if i > 0 && IsBlank(t[i - 1]) then Back(t, i - 1) else i
  }

  /** The word `attributes` stands before position i. */
  predicate Dangles(t: string, i: nat)
    requires i <= |t|
  {
    EndsWith(t[..Back(t, i)], "attributes")
  }

  /** What stands before position s does not join with what comes after it: two slashes make
      no comment, a block gets no ';', a dangling `attributes` gets neither a ':' nor a
      '{', and a string no other one. */
  predicate Seam(t: string, s: nat)
    requires s <= |t|
  {
    && (0 < s < |t| ==> !(t[s - 1] == '/' && t[s] == '/') && !(t[s - 1] == '}' && t[s] == ';'))
    && var b, r := Back(t, s), SkipBlanks(t, s, |t|);
       b > 0 && r < |t| ==>
         && (t[r] == ':' ==> !Dangles(t, s))
         && (t[r] == '{' ==> !Dangles(t, if t[b - 1] == ':' then b - 1 else s))
         && (IsQuote(t[r]) ==> !IsQuote(t[b - 1]))
  }

  lemma {:induction false} BackIs(t: string, i: nat, j: nat)
    requires 0 < j <= i <= |t| && !IsBlank(t[j - 1]) && forall p :: j <= p < i ==> IsBlank(t[p])
    ensures Back(t, i) == j
    decreases i - j
  {
    if j < i {
      BackIs(t, i - 1, j);
    }
  }

  /** u is t without the region, and nothing joins. */
  ghost predicate Gap(t: string, u: string, s: nat, e: nat) {
    s < e <= |t| && u == t[..s] + t[e..] && Seam(u, s)
  }

  lemma GapParts(t: string, u: string, s: nat, e: nat)
    requires Gap(t, u, s, e)
    ensures s < e <= |t| && |u| == |t| - (e - s)
    ensures forall p :: 0 <= p < s ==> u[p] == t[p]
    ensures Moved(t, u, e, |t|, e - s)
    ensures Seam(u, s)
  {
    hide Seam;
  }

  lemma GapSizes(t: string, u: string, s: nat, e: nat)
    requires Gap(t, u, s, e)
    ensures s < e <= |t| && |u| == |t| - (e - s)
  {
    hide Seam;
  }

  /** The text after the region stands in the cut text. */
  lemma GapMoved(t: string, u: string, s: nat, e: nat, limit: nat)
    requires Gap(t, u, s, e) && e <= limit <= |t|
    ensures s < e && s <= limit - (e - s) <= |u| && Moved(t, u, e, limit, e - s)
  {
    hide Seam;
  }

  lemma RegionSizes(t: string, f: Found, s: nat, e: nat)
    requires Region(t, f, s, e)
    ensures s <= f.keyword < f.brace < f.close <= f.contentEnd <= e <= |t|
    ensures Shape(t, f)
  {
    hide WordFree;
  }

  lemma ShapeParts(t: string, f: Found)
    requires Shape(t, f)
    ensures f.keyword < f.brace < f.close <= |t| && t[f.brace] == '{' &&
            CloseFrom(t, f.brace + 1, f.close, 1) == Ok(f.close)
  {
    hide CloseFrom;
  }

  lemma KeywordPlain(t: string, f: Found)
    requires Shape(t, f)
    ensures t[f.keyword] == 'a' && AllPlain(t, f.keyword, f.keyword + 10)
  {
    hide CloseFrom;
    assert t[f.keyword..f.keyword + 10][0] == 'a';
    forall p | f.keyword <= p < f.keyword + 10
      ensures IsPlain(t[p])
    {
      assert t[p] == t[f.keyword..f.keyword + 10][p - f.keyword];
    }
  }

  lemma ShapePlain(t: string, f: Found)
    requires Shape(t, f)
    ensures f.keyword < f.brace < f.close <= f.contentEnd <= |t|
    ensures t[f.keyword] == 'a' && AllPlain(t, f.keyword, f.brace) && t[f.brace] == '{' && t[f.close - 1] == '}'
    ensures forall p :: f.close <= p < f.contentEnd ==> t[p] == ';'
  {
    hide CloseFrom;
    KeywordPlain(t, f);
  }

  lemma RegionParts(t: string, f: Found, s: nat, e: nat)
    requires Region(t, f, s, e)
    ensures s <= f.keyword < f.brace < f.close <= f.contentEnd <= e <= |t|
    ensures t[s] != '\n' && !IsQuote(t[s]) && t[s] != '{' && t[s] != '}' && t[s] != ':' && t[s] != ';' &&
            t[s] != '/' && t[s] != '#'
    ensures AllPlain(t, s, f.brace)
    ensures forall p :: s <= p < f.keyword ==> !IsWordStart(t[p]) && t[p] != '\n'
    ensures t[f.keyword] == 'a' && t[f.brace] == '{' && t[f.close - 1] == '}'
    ensures AllPlain(t, f.close, e)
    ensures forall p :: f.close <= p < e ==> !IsWordStart(t[p])
  {
    hide Shape;
    ShapePlain(t, f);
  }

  // ---------- the lexer before the region ----------

  lemma {:induction false} StringEndBefore(t: string, u: string, quote: char, s: nat, i: nat, limit: nat, limit': nat)
    requires limit <= |t| && s <= limit' <= |u| && s <= |t| && forall p :: 0 <= p < s ==> u[p] == t[p]
    requires StringEnd(t, quote, i, limit).Ok? && StringEnd(t, quote, i, limit).value <= s
    ensures StringEnd(u, quote, i, limit') == StringEnd(t, quote, i, limit)
    decreases limit - i
  {
    if t[i] == '\\' {
      StringEndBefore(t, u, quote, s, i + 2, limit, limit');
    } else if t[i] != quote {
      StringEndBefore(t, u, quote, s, i + 1, limit, limit');
    }
  }

  lemma {:induction false} LineEndBefore(t: string, u: string, s: nat, i: nat, limit: nat, limit': nat)
    requires i <= limit <= |t| && s <= limit' <= |u| && s <= limit && forall p :: 0 <= p < s ==> u[p] == t[p]
    requires LineEnd(t, i, limit) < s
    ensures LineEnd(u, i, limit') == LineEnd(t, i, limit)
    decreases limit - i
  {
    if t[i] != '\n' {
      LineEndBefore(t, u, s, i + 1, limit, limit');
    }
  }

  lemma {:induction false} WordEndBefore(t: string, u: string, s: nat, i: nat, limit: nat, limit': nat)
    requires i <= limit <= |t| && s <= limit' <= |u| && s <= limit && forall p :: 0 <= p < s ==> u[p] == t[p]
    requires WordEnd(t, i, limit) < s
    ensures WordEnd(u, i, limit') == WordEnd(t, i, limit)
    decreases limit - i
  {
    if IsWordChar(t[i]) {
      WordEndBefore(t, u, s, i + 1, limit, limit');
    }
  }

  lemma {:induction false} SkipBlanksBefore(t: string, u: string, s: nat, i: nat, limit: nat, limit': nat)
    requires i <= limit <= |t| && s <= limit' <= |u| && s <= limit && forall p :: 0 <= p < s ==> u[p] == t[p]
    requires SkipBlanks(t, i, limit) < s
    ensures SkipBlanks(u, i, limit') == SkipBlanks(t, i, limit)
    decreases limit - i
  {
    if IsBlank(t[i]) {
      SkipBlanksBefore(t, u, s, i + 1, limit, limit');
    }
  }

  /** A step of the lexer that does not go past the keyword does not enter the region, and
      is the same step in the cut text. */
  lemma StepBefore(t: string, u: string, f: Found, s: nat, e: nat, i: nat, limit: nat)
    requires Gap(t, u, s, e) && Region(t, f, s, e) && i < s && e <= limit <= |t|
    requires Step(t, i, limit).Ok? && Step(t, i, limit).value <= f.keyword
    ensures i < limit - (e - s) <= |u| && u[i] == t[i] && Step(t, i, limit).value <= s
    ensures IsLexeme(u, i, limit - (e - s)) == IsLexeme(t, i, limit)
    ensures Step(u, i, limit - (e - s)) == Step(t, i, limit)
  {
    hide Shape, StringEnd, LineEnd, Back, SkipBlanks, Dangles, Moved;
    GapParts(t, u, s, e);
    RegionParts(t, f, s, e);
    var n, limit' := Step(t, i, limit).value, limit - (e - s);
    if IsQuote(t[i]) {
      assert t[n - 1] == t[i];
      StringEndBefore(t, u, t[i], s, i + 1, limit, limit');
    } else if StartsComment(t, i, limit) {
      assert n < limit && t[n] == '\n';
      LineEndBefore(t, u, s, i, limit, limit');
    }
  }

  lemma WordStartIsChar(c: char)
    requires IsWordStart(c)
    ensures IsWordChar(c)
  {
  }

  lemma WordBefore(t: string, u: string, f: Found, s: nat, e: nat, i: nat, limit: nat)
    requires Gap(t, u, s, e) && Region(t, f, s, e) && i < s && e <= limit <= |t| && IsWordStart(t[i])
    ensures var w := WordEnd(t, i + 1, limit);
            && w < s && limit - (e - s) <= |u| && s <= limit - (e - s)
            && WordEnd(u, i + 1, limit - (e - s)) == w && u[i..w] == t[i..w]
  {
    hide Shape, WordEnd, IsWordChar, IsWordStart, Moved, Seam;
    GapParts(t, u, s, e);
    RegionSizes(t, f, s, e);
    var w := WordEnd(t, i + 1, limit);
    WordStartIsChar(t[i]);
    assert IsWordChar(t[i]) && forall p :: i <= p < w ==> IsWordChar(t[p]);
    RegionIsFree(t, f, s, e);
    if w >= s {
      FreeStops(t, i, s);
    }
    WordEndBefore(t, u, s, i + 1, limit, limit - (e - s));
  }

  lemma RegionIsFree(t: string, f: Found, s: nat, e: nat)
    requires Region(t, f, s, e)
    ensures s <= |t| && WordFree(t, s)
  {
  }

  /** No word of word characters only reaches a free position. */
  lemma {:induction false} FreeStops(t: string, i: nat, s: nat)
    requires i < s <= |t| && IsWordStart(t[i]) && WordFree(t, s)
    ensures !forall p :: i <= p < s ==> IsWordChar(t[p])
    decreases s - i
  {
    if i < s - 1 && (forall p :: i <= p < s ==> IsWordChar(t[p])) {
      FreeStops(t, i, s - 1);
    }
  }

  // ---------- blanks that reach the region ----------

  lemma {:induction false} SkipPast(text: string, i: nat, j: nat, limit: nat)
    requires i <= j <= limit <= |text| && forall p :: i <= p < j ==> IsBlank(text[p])
    ensures SkipBlanks(text, i, limit) == SkipBlanks(text, j, limit)
    decreases j - i
  {
    if i < j {
      SkipPast(text, i + 1, j, limit);
    }
  }

  lemma {:induction false} SkipShorter(text: string, i: nat, limit: nat, limit': nat)
    requires i <= limit <= limit' <= |text|
    ensures var a, b := SkipBlanks(text, i, limit), SkipBlanks(text, i, limit');
            a <= b && (a < limit ==> a == b)
    decreases limit - i
  {
    if i < limit && IsBlank(text[i]) {
      SkipShorter(text, i + 1, limit, limit');
    }
  }

  /** In the cut text, blanks up to the gap go on after it. */
  lemma BlanksReachSeam(t: string, u: string, s: nat, e: nat, i: nat, limit: nat)
    requires Gap(t, u, s, e) && i <= s && e <= limit <= |t|
    requires forall p :: i <= p < s ==> IsBlank(t[p])
    ensures s <= limit - (e - s) <= |u|
    ensures SkipBlanks(u, i, limit - (e - s)) == SkipBlanks(u, s, limit - (e - s))
  {
    hide SkipBlanks, IsBlank, Moved, Seam;
    GapParts(t, u, s, e);
    SkipPast(u, i, s, limit - (e - s));
  }

  /** In the text itself, blanks up to the region end in its white space or at the keyword. */
  lemma {:induction false} BlanksReachRegion(t: string, f: Found, s: nat, e: nat, i: nat, limit: nat)
    requires Region(t, f, s, e) && i <= s && e <= limit <= |t|
    requires SkipBlanks(t, i, limit) >= s
    ensures forall p :: i <= p < s ==> IsBlank(t[p])
    ensures SkipBlanks(t, i, limit) <= f.keyword
  {
    hide Shape;
    RegionParts(t, f, s, e);
    assert !IsBlank(t[f.keyword]);
  }

  /** The answers of a search for a value: the same place when it lies before the region;
      otherwise in the text itself there is nothing that could begin one. */
  ghost predicate AgreeBefore(t: string, u: string, f: Found, s: nat, limit': nat, v: nat, v': nat)
    requires f.keyword < |t| && limit' <= |u|
  {
    && (v < s ==> v' == v < limit' && v < |t| && u[v] == t[v])
    && (v >= s ==> s <= v <= f.keyword && t[v] != '{' && t[v] != ':' && !IsQuote(t[v]))
  }

  lemma SkipAcross(t: string, u: string, f: Found, s: nat, e: nat, i: nat, limit: nat)
    requires Gap(t, u, s, e) && Region(t, f, s, e) && i <= s && e <= limit <= |t|
    ensures i <= limit - (e - s) <= |u| && f.keyword < |t|
    ensures AgreeBefore(t, u, f, s, limit - (e - s), SkipBlanks(t, i, limit), SkipBlanks(u, i, limit - (e - s)))
    ensures SkipBlanks(t, i, limit) >= s ==>
              && SkipBlanks(u, i, limit - (e - s)) == SkipBlanks(u, s, limit - (e - s))
              && forall p :: i <= p < s ==> IsBlank(t[p])
  {
    hide Region, SkipBlanks, IsBlank, IsQuote, Seam, Moved;
    GapParts(t, u, s, e);
    RegionSizes(t, f, s, e);
    var k := SkipBlanks(t, i, limit);
    if k >= s {
      BlanksReachRegion(t, f, s, e, i, limit);
      BlanksReachSeam(t, u, s, e, i, limit);
      PlainLead(t, f, s, e, k);
    } else {
      SkipBlanksBefore(t, u, s, i, limit, limit - (e - s));
    }
  }

  lemma ValueStartAcross(t: string, u: string, f: Found, s: nat, e: nat, w: nat, limit: nat)
    requires Gap(t, u, s, e) && Region(t, f, s, e) && w <= s && e <= limit <= |t|
    ensures w <= limit - (e - s) <= |u| && f.keyword < |t|
    ensures AgreeBefore(t, u, f, s, limit - (e - s), ValueStart(t, w, limit), ValueStart(u, w, limit - (e - s)))
  {
    hide Region, Gap, SkipBlanks, IsBlank, IsQuote;
    GapSizes(t, u, s, e);
    RegionSizes(t, f, s, e);
    SkipAcross(t, u, f, s, e, w, limit);
    var k := SkipBlanks(t, w, limit);
    if k < s && t[k] == ':' {
      SkipAcross(t, u, f, s, e, k + 1, limit);
    }
  }

  // ---------- what the seam keeps apart ----------

  /** What the scanner finds in the cut text after blanks up to the gap. */
  lemma SeamAhead(u: string, s: nat, limit: nat, j: nat)
    requires 0 < j <= s <= limit <= |u| && Seam(u, s)
    requires !IsBlank(u[j - 1]) && forall p :: j <= p < s ==> IsBlank(u[p])
    ensures var k := SkipBlanks(u, s, limit);
            k < limit ==>
              && (u[k] == ':' ==> !EndsWith(u[..j], "attributes"))
              && (u[k] == '{' ==> !Dangles(u, if u[j - 1] == ':' then j - 1 else s))
              && (IsQuote(u[k]) ==> !IsQuote(u[j - 1]))
  {
    hide SkipBlanks, IsBlank, EndsWith, Back, IsQuote;
    BackIs(u, s, j);
    SkipShorter(u, s, limit, |u|);
  }

  lemma DanglesAt(u: string, i: nat, j: nat)
    requires 0 < j <= i <= |u| && !IsBlank(u[j - 1]) && forall p :: j <= p < i ==> IsBlank(u[p])
    ensures Dangles(u, i) <==> EndsWith(u[..j], "attributes")
  {
    hide EndsWith, Back, IsBlank;
    BackIs(u, i, j);
  }

  /** An `attributes` whose brace is not found before the region opens nothing in the cut
      text. */
  lemma NothingOpens(t: string, u: string, f: Found, s: nat, e: nat, w: nat, limit: nat)
    requires Gap(t, u, s, e) && Region(t, f, s, e) && 0 < w <= s && e <= limit <= |t|
    requires !IsBlank(t[w - 1]) && EndsWith(t[..w], "attributes") && ValueStart(t, w, limit) >= s
    ensures w <= limit - (e - s) <= |u| && BlockOpen(u, w, limit - (e - s)).None?
  {
    hide Region, Gap, SkipBlanks, IsBlank, EndsWith, Seam, BlockOpen, ValueStart;
    GapSizes(t, u, s, e);
    WordInCut(t, u, s, e, w);
    var k := SkipBlanks(t, w, limit);
    SkipInCut(t, u, f, s, e, w, limit);
    if k >= s {
      NoBraceDangles(u, s, w, limit - (e - s));
    } else {
      ColonWasThere(t, w, k, s, limit);
      SkipInCut(t, u, f, s, e, k + 1, limit);
      NoBraceAfterColon(u, s, w, k, limit - (e - s));
    }
  }

  /** A word before the gap stands in the cut text. */
  lemma WordInCut(t: string, u: string, s: nat, e: nat, w: nat)
    requires Gap(t, u, s, e) && 0 < w <= s
    ensures w <= s <= |u| && w <= |t| && Seam(u, s) && u[w - 1] == t[w - 1] && u[..w] == t[..w]
  {
    hide Gap, Seam;
    CutKeepsPrefix(t, u, s, e);
  }

  /** Where blanks before the gap end, told of the cut text. */
  lemma SkipInCut(t: string, u: string, f: Found, s: nat, e: nat, i: nat, limit: nat)
    requires Gap(t, u, s, e) && Region(t, f, s, e) && i <= s && e <= limit <= |t|
    ensures i <= limit - (e - s) <= |u|
    ensures var limit' := limit - (e - s); var k := SkipBlanks(t, i, limit);
            if k < s then k < limit' && SkipBlanks(u, i, limit') == k && u[k] == t[k]
            else SkipBlanks(u, i, limit') == SkipBlanks(u, s, limit') && forall p :: i <= p < s ==> IsBlank(u[p])
  {
    hide Region, Gap, SkipBlanks, IsBlank, Seam;
    GapSizes(t, u, s, e);
    CutKeepsPrefix(t, u, s, e);
    SkipAcross(t, u, f, s, e, i, limit);
  }

  lemma ColonWasThere(t: string, w: nat, k: nat, s: nat, limit: nat)
    requires w <= k < s <= limit <= |t| && SkipBlanks(t, w, limit) == k && ValueStart(t, w, limit) >= s
    ensures t[k] == ':' && SkipBlanks(t, k + 1, limit) >= s
  {
    hide SkipBlanks;
  }

  lemma NoBraceDangles(u: string, s: nat, w: nat, limit: nat)
    requires 0 < w <= s <= limit <= |u| && Seam(u, s) && EndsWith(u[..w], "attributes") && !IsBlank(u[w - 1])
    requires (forall p :: w <= p < s ==> IsBlank(u[p])) && SkipBlanks(u, w, limit) == SkipBlanks(u, s, limit)
    ensures BlockOpen(u, w, limit).None?
  {
    hide SkipBlanks, IsBlank, IsQuote, EndsWith, Dangles, Seam;
    SeamAhead(u, s, limit, w);
    DanglesAt(u, s, w);
    LastOfWord(u[..w]);
  }

  lemma NoBraceAfterColon(u: string, s: nat, w: nat, k: nat, limit: nat)
    requires 0 < w <= k < s <= limit <= |u| && Seam(u, s) && EndsWith(u[..w], "attributes") && !IsBlank(u[w - 1])
    requires SkipBlanks(u, w, limit) == k && u[k] == ':' && forall p :: k + 1 <= p < s ==> IsBlank(u[p])
    requires SkipBlanks(u, k + 1, limit) == SkipBlanks(u, s, limit)
    ensures BlockOpen(u, w, limit).None?
  {
    hide SkipBlanks, IsBlank, IsQuote, EndsWith, Dangles, Seam;
    ColonIsNoBlank(u[k]);
    SeamAhead(u, s, limit, k + 1);
    DanglesAt(u, k, w);
  }

  lemma CutKeepsPrefix(t: string, u: string, s: nat, e: nat)
    requires Gap(t, u, s, e)
    ensures s <= |u| && s <= |t| && Seam(u, s) && forall p :: 0 <= p < s ==> u[p] == t[p]
  {
    hide Seam;
  }

  lemma LastOfWord(s: string)
    requires EndsWith(s, "attributes")
    ensures s != "" && s[|s| - 1] == 's'
  {
    assert s[|s| - 10..][9] == 's';
  }

  lemma ColonIsNoBlank(c: char)
    ensures c == ':' ==> !IsBlank(c)
  {
  }

  lemma PlainLead(t: string, f: Found, s: nat, e: nat, p: nat)
    requires Region(t, f, s, e) && s <= p <= f.keyword
    ensures t[p] != '{' && t[p] != ':' && !IsQuote(t[p]) && t[p] != '}' && p < |t|
  {
    hide Shape;
    RegionParts(t, f, s, e);
  }

  // ---------- the brace matcher ----------

  /** Closing k blocks and then d more. */
  lemma {:induction false} CloseNested(t: string, i: nat, limit: nat, k: nat, d: nat)
    requires i <= limit <= |t| && k >= 1 && d >= 1 && CloseFrom(t, i, limit, k).Ok?
    ensures CloseFrom(t, i, limit, k + d) == CloseFrom(t, CloseFrom(t, i, limit, k).value, limit, d)
    decreases limit - i
  {
    hide Step, IsLexeme;
    if i < limit {
      if IsLexeme(t, i, limit) {
        CloseNested(t, Step(t, i, limit).value, limit, k, d);
      } else if t[i] == '{' {
        CloseNested(t, i + 1, limit, k + 1, d);
      } else if t[i] != '}' {
        CloseNested(t, i + 1, limit, k, d);
      } else if k > 1 {
        CloseNested(t, i + 1, limit, k - 1, d);
      }
    }
  }

  lemma {:induction false} StringEndWiden(t: string, quote: char, i: nat, limit: nat, limit': nat)
    requires limit <= limit' <= |t| && StringEnd(t, quote, i, limit).Ok?
    ensures StringEnd(t, quote, i, limit') == StringEnd(t, quote, i, limit)
    decreases limit - i
  {
    if t[i] == '\\' {
      StringEndWiden(t, quote, i + 2, limit, limit');
    } else if t[i] != quote {
      StringEndWiden(t, quote, i + 1, limit, limit');
    }
  }

  lemma {:induction false} LineEndWiden(t: string, i: nat, limit: nat, limit': nat)
    requires i <= limit <= limit' <= |t| && LineEnd(t, i, limit) < limit
    ensures LineEnd(t, i, limit') == LineEnd(t, i, limit)
    decreases limit - i
  {
    if t[i] != '\n' {
      LineEndWiden(t, i + 1, limit, limit');
    }
  }

  /** A block that closes within a limit closes within any larger one. */
  lemma {:induction false} CloseWiden(t: string, i: nat, limit: nat, limit': nat, depth: nat)
    requires i <= limit <= limit' <= |t| && depth >= 1 && CloseFrom(t, i, limit, depth).Ok?
    ensures CloseFrom(t, i, limit', depth) == CloseFrom(t, i, limit, depth)
    decreases limit - i
  {
    hide StringEnd, LineEnd;
    if i < limit {
      if IsQuote(t[i]) {
        StringEndWiden(t, t[i], i + 1, limit, limit');
        CloseWiden(t, StringEnd(t, t[i], i + 1, limit).value, limit, limit', depth);
      } else if StartsComment(t, i, limit) {
        var n := LineEnd(t, i, limit);
        assert n < limit;
        LineEndWiden(t, i, limit, limit');
        CloseWiden(t, n, limit, limit', depth);
      } else if t[i] != '}' || depth > 1 {
        assert i + 1 < limit;
        CloseWiden(t, i + 1, limit, limit', if t[i] == '{' then depth + 1 else if t[i] == '}' then depth - 1
          else depth);
      }
    }
  }

  /** The region is nothing to the brace matcher. */
  lemma CloseThrough(t: string, f: Found, s: nat, e: nat, limit: nat, d: nat)
    requires Region(t, f, s, e) && e <= limit <= |t| && d >= 1
    ensures CloseFrom(t, s, limit, d) == CloseFrom(t, e, limit, d)
  {
    hide Region, Shape, CloseFrom, AllPlain;
    RegionSizes(t, f, s, e);
    RegionPlain(t, f, s, e);
    ShapeParts(t, f);
    ClosePlain(t, s, f.brace, limit, d);
    OpenBrace(t, f.brace, limit, d);
    CloseWiden(t, f.brace + 1, f.close, limit, 1);
    CloseNested(t, f.brace + 1, limit, 1, d);
    ClosePlain(t, f.close, e, limit, d);
  }

  lemma RegionPlain(t: string, f: Found, s: nat, e: nat)
    requires Region(t, f, s, e)
    ensures s <= f.brace <= |t| && AllPlain(t, s, f.brace)
    ensures f.close <= e <= |t| && AllPlain(t, f.close, e)
  {
    hide Region, Shape;
    RegionParts(t, f, s, e);
  }

  lemma OpenBrace(t: string, i: nat, limit: nat, d: nat)
    requires i < limit <= |t| && t[i] == '{' && d >= 1
    ensures CloseFrom(t, i, limit, d) == CloseFrom(t, i + 1, limit, d + 1)
  {
  }

  /** Where a block that is open before the region closes in the cut text. */
  lemma {:induction false} CloseAcross(t: string, u: string, f: Found, s: nat, e: nat, i: nat, limit: nat, depth: nat)
    requires Gap(t, u, s, e) && Region(t, f, s, e) && i <= s && e <= limit <= |t| && depth >= 1
    requires Lands(t, i, f.keyword, limit) && CloseFrom(t, i, limit, depth).Ok?
    ensures i <= limit - (e - s) <= |u|
    ensures var c := CloseFrom(t, i, limit, depth).value;
            && (c <= s || c > e)
            && CloseFrom(u, i, limit - (e - s), depth) == Ok(if c <= s then c else c - (e - s))
    decreases s - i
  {
    hide Region, Gap, Step, IsLexeme, Lands, CloseFrom;
    GapSizes(t, u, s, e);
    RegionSizes(t, f, s, e);
    if i == s {
      CloseAtGap(t, u, f, s, e, limit, depth);
    } else {
      LandsNext(t, i, f.keyword, limit);
      var n := Step(t, i, limit).value;
      StepBefore(t, u, f, s, e, i, limit);
      SingleStep(t, i, limit);
      CloseUnfold(t, i, limit, depth);
      CloseUnfold(u, i, limit - (e - s), depth);
      var deeper := if IsLexeme(t, i, limit) then depth
                    else if t[i] == '{' then depth + 1
                    else if t[i] == '}' then depth - 1
                    else depth;
      if deeper > 0 {
        CloseAcross(t, u, f, s, e, n, limit, deeper);
      }
    }
  }

  lemma CloseAtGap(t: string, u: string, f: Found, s: nat, e: nat, limit: nat, depth: nat)
    requires Gap(t, u, s, e) && Region(t, f, s, e) && e <= limit <= |t| && depth >= 1
    requires CloseFrom(t, s, limit, depth).Ok?
    ensures s <= limit - (e - s) <= |u|
    ensures var c := CloseFrom(t, s, limit, depth).value;
            c > e && CloseFrom(u, s, limit - (e - s), depth) == Ok(c - (e - s))
  {
    hide Region, Gap, CloseFrom, Moved;
    GapMoved(t, u, s, e, limit);
    CloseThrough(t, f, s, e, limit, depth);
    CloseMoves(t, u, e, limit, e - s, depth);
  }

  lemma LandsNext(t: string, i: nat, p: nat, limit: nat)
    requires i < p && i < limit <= |t| && Lands(t, i, p, limit)
    ensures Step(t, i, limit).Ok? && Lands(t, Step(t, i, limit).value, p, limit) && Step(t, i, limit).value <= p
  {
  }
}
