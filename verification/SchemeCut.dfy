/** Cutting one attributes block out of a text: the scanner accepts what is left and finds all
    other blocks in it, with the keys they had. */
module SchemeCut {
  import opened Wrappers
  import opened PythonText
  import opened SchemeLexer
  import opened SchemeScan
  import opened SchemeSpans
  import opened SchemeShift
  import opened SchemeGap
  import opened SchemeGapKey

  // ---------- the blocks that are left ----------

  /** Where a position of the text is in the cut text. */
  function Place(p: nat, s: nat, e: nat): nat
    requires s <= e
  {
    if p <= s then p else if p < e then s else p - (e - s)
  }

  function MoveBy(f: Found, s: nat, e: nat): Found
    requires s <= e
  {
    Found(Place(f.keyword, s, e), Place(f.brace, s, e), Place(f.close, s, e), Place(f.contentEnd, s, e), f.key)
  }

  /** The blocks outside the region, at their new places. */
  function Kept(fs: seq<Found>, s: nat, e: nat): seq<Found>
    requires s <= e
  {
    if fs == [] then []
    else (if s <= fs[0].keyword < e then [] else [MoveBy(fs[0], s, e)]) + Kept(fs[1..], s, e)
  }

  lemma KeptStep(fs: seq<Found>, s: nat, e: nat)
    requires s <= e && fs != []
    ensures Kept(fs, s, e) == (if s <= fs[0].keyword < e then [] else [MoveBy(fs[0], s, e)]) + Kept(fs[1..], s, e)
  {
  }

  lemma Regroup<T>(a: seq<T>, b: seq<T>, c: seq<T>)
    ensures a + (b + c) == a + b + c
  {
  }

  lemma {:induction false} KeptJoin(a: seq<Found>, b: seq<Found>, s: nat, e: nat)
    requires s <= e
    ensures Kept(a + b, s, e) == Kept(a, s, e) + Kept(b, s, e)
  {
    hide MoveBy;
    if a == [] {
      assert [] + b == b;
    } else {
      hide Kept;
      assert (a + b)[1..] == a[1..] + b && (a + b)[0] == a[0];
      KeptStep(a, s, e);
      KeptStep(a + b, s, e);
      KeptJoin(a[1..], b, s, e);
      Regroup(if s <= a[0].keyword < e then [] else [MoveBy(a[0], s, e)], Kept(a[1..], s, e), Kept(b, s, e));
    }
  }

  lemma {:induction false} KeptNone(fs: seq<Found>, s: nat, e: nat)
    requires s <= e && forall f :: f in fs ==> s <= f.keyword < e
    ensures Kept(fs, s, e) == []
  {
    if fs != [] {
      assert fs[0] in fs;
      KeptNone(fs[1..], s, e);
    }
  }

  lemma {:induction false} KeptBefore(fs: seq<Found>, s: nat, e: nat)
    requires s <= e && forall f :: f in fs ==> f.keyword < f.brace < f.close <= f.contentEnd <= s
    ensures Kept(fs, s, e) == fs
  {
    if fs != [] {
      assert fs[0] in fs;
      KeptBefore(fs[1..], s, e);
    }
  }

  lemma {:induction false} KeptAfter(fs: seq<Found>, gs: seq<Found>, s: nat, e: nat)
    requires s < e && |fs| == |gs|
    requires forall k :: 0 <= k < |fs| ==> e <= fs[k].keyword < fs[k].brace < fs[k].close <= fs[k].contentEnd
    requires forall k :: 0 <= k < |fs| ==> FoundMoved(fs[k], gs[k], e - s)
    ensures Kept(fs, s, e) == gs
  {
    if fs != [] {
      assert FoundMoved(fs[0], gs[0], e - s);
      KeptAfter(fs[1..], gs[1..], s, e);
      assert gs == [gs[0]] + gs[1..];
    }
  }

  // ---------- the shape of what the scanner finds ----------

  /** A limit after the closing brace does not matter. */
  lemma {:induction false} CloseShrink(t: string, i: nat, limit: nat, limit': nat, depth: nat)
    requires i <= limit' <= limit <= |t| && depth >= 1
    requires CloseFrom(t, i, limit, depth).Ok? && CloseFrom(t, i, limit, depth).value <= limit'
    ensures CloseFrom(t, i, limit', depth) == CloseFrom(t, i, limit, depth)
    decreases limit - i
  {
    hide Step, IsLexeme, CloseFrom;
    if i == limit {
      CloseEnd(t, limit, depth);
    } else {
      CloseUnfold(t, i, limit, depth);
      CloseGrows(t, i, limit, depth);
      if IsLexeme(t, i, limit) {
        CloseLexeme(t, i, limit, depth);
        var n := Step(t, i, limit).value;
        CloseGrows(t, n, limit, depth);
        StepShrinks(t, i, limit, limit');
        CloseUnfold(t, i, limit', depth);
        CloseShrink(t, n, limit, limit', depth);
      } else {
        SingleStep(t, i, limit);
        StepShrinks(t, i, limit, limit');
        CloseUnfold(t, i, limit', depth);
        if t[i] != '}' || depth > 1 {
          CloseShrink(t, i + 1, limit, limit', if t[i] == '{' then depth + 1 else if t[i] == '}' then depth - 1
            else depth);
        }
      }
    }
  }

  lemma CloseGrows(t: string, i: nat, limit: nat, depth: nat)
    requires i <= limit <= |t| && depth >= 1 && CloseFrom(t, i, limit, depth).Ok?
    ensures i < CloseFrom(t, i, limit, depth).value <= limit
  {
  }

  /** What `Find` does at one place, an accepted block apart. */
  lemma FindUnfold(t: string, i: nat, limit: nat, depth: nat)
    requires i < limit <= |t|
    ensures IsLexeme(t, i, limit) ==>
              if Step(t, i, limit).Ok? then Find(t, i, limit, depth) == Find(t, Step(t, i, limit).value, limit, depth)
              else Find(t, i, limit, depth).Err?
    ensures !IsLexeme(t, i, limit) && t[i] == '{' ==> Find(t, i, limit, depth) == Find(t, i + 1, limit, depth + 1)
    ensures !IsLexeme(t, i, limit) && t[i] == '}' ==>
              if depth == 0 then Find(t, i, limit, depth).Err?
              else Find(t, i, limit, depth) == Find(t, i + 1, limit, depth - 1)
    ensures !IsLexeme(t, i, limit) && IsWordStart(t[i]) ==>
              var w := WordEnd(t, i + 1, limit);
              (t[i..w] != "attributes" || BlockOpen(t, w, limit).None? ==>
                Find(t, i, limit, depth) == Find(t, w, limit, depth))
    ensures !IsLexeme(t, i, limit) && !IsWordStart(t[i]) && t[i] != '{' && t[i] != '}' ==>
              Find(t, i, limit, depth) == Find(t, i + 1, limit, depth)
  {
    hide Step, IsLexeme, WordEnd, BlockOpen, FoundAt;
  }

  lemma {:induction false} FindPlainRun(t: string, i: nat, j: nat, limit: nat, depth: nat)
    requires i <= j <= limit <= |t| && AllPlain(t, i, j) && NoWords(t, i, j)
    ensures Find(t, i, limit, depth) == Find(t, j, limit, depth)
    decreases j - i
  {
    if i < j {
      FindPlainRun(t, i + 1, j, limit, depth);
    }
  }

  predicate Opens(t: string, i: nat, limit: nat)
    requires i < limit <= |t|
  {
    !IsLexeme(t, i, limit) && IsWordStart(t[i]) && t[i..WordEnd(t, i + 1, limit)] == "attributes"
    && BlockOpen(t, WordEnd(t, i + 1, limit), limit).Some?
  }

  /** The parts of `Find` at a block it accepts, the key among them. */
  lemma FindBlockParts(t: string, i: nat, limit: nat, depth: nat)
    returns (g: Found, inner: seq<Found>, rest: seq<Found>)
    requires i < limit <= |t| && Opens(t, i, limit) && Find(t, i, limit, depth).Ok?
    ensures g.keyword == i && Some(g.brace) == BlockOpen(t, WordEnd(t, i + 1, limit), limit)
    ensures i < g.brace < g.close <= limit && CloseFrom(t, g.brace + 1, limit, 1) == Ok(g.close)
    ensures g.contentEnd == ContentEnd(t, g.close, limit)
    ensures KeyFrom(t, g.brace, g.close, 0, None) == Ok(g.key)
    ensures Find(t, g.brace + 1, g.close - 1, 0) == Ok(inner) && Find(t, g.close, limit, depth) == Ok(rest)
    ensures Find(t, i, limit, depth) == Ok([g] + inner + rest)
    ensures forall h :: h in inner ==> g.brace < h.keyword && h.contentEnd < g.close
    ensures forall h :: h in rest ==> g.close <= h.keyword
  {
    hide Step, IsLexeme, StringEnd, KeyFrom, CloseFrom, WordEnd, BlockOpen, ContentEnd;
    var block := FoundAt(t, i, BlockOpen(t, WordEnd(t, i + 1, limit), limit).value, limit).value;
    g, inner, rest := block.found[0], block.found[1..], Find(t, block.close, limit, depth).value;
  }

  /** And the other way round. */
  lemma FindBlockJoins(t: string, i: nat, limit: nat, depth: nat, g: Found, inner: seq<Found>, rest: seq<Found>)
    requires i < limit <= |t| && Opens(t, i, limit)
    requires g.keyword == i && Some(g.brace) == BlockOpen(t, WordEnd(t, i + 1, limit), limit)
    requires g.brace < g.close <= limit && CloseFrom(t, g.brace + 1, limit, 1) == Ok(g.close)
    requires g.contentEnd == ContentEnd(t, g.close, limit) && KeyFrom(t, g.brace, g.close, 0, None) == Ok(g.key)
    requires Find(t, g.brace + 1, g.close - 1, 0) == Ok(inner) && Find(t, g.close, limit, depth) == Ok(rest)
    ensures Find(t, i, limit, depth) == Ok([g] + inner + rest)
  {
    hide Step, IsLexeme, StringEnd, KeyFrom, CloseFrom, WordEnd, BlockOpen, ContentEnd;
    assert FoundAt(t, i, g.brace, limit) == Ok(FoundRead([g] + inner, g.close));
  }

  lemma OpensShape(t: string, i: nat, limit: nat)
    requires i < limit <= |t| && Opens(t, i, limit)
    ensures i + 10 == WordEnd(t, i + 1, limit) && t[i..i + 10] == "attributes"
    ensures var b := BlockOpen(t, WordEnd(t, i + 1, limit), limit).value;
            i + 10 <= b < limit && t[b] == '{' && forall p :: i + 10 <= p < b ==> IsBlank(t[p]) || t[p] == ':'
  {
    hide Step, IsLexeme, WordEnd;
    assert |t[i..WordEnd(t, i + 1, limit)]| == 10;
  }

  /** A word that begins at position i is not the rest of a longer one. */
  predicate StartsFree(t: string, i: nat, limit: nat)
    requires i <= limit <= |t|
  {
    i < limit && IsWordChar(t[i]) ==> WordFree(t, i)
  }

  /** The scanner goes on where no word runs. */
  lemma StepsFree(t: string, i: nat, limit: nat)
    requires i < limit <= |t| && StartsFree(t, i, limit)
    ensures IsLexeme(t, i, limit) && Step(t, i, limit).Ok? ==> StartsFree(t, Step(t, i, limit).value, limit)
    ensures !IsWordStart(t[i]) ==> StartsFree(t, i + 1, limit)
    ensures StartsFree(t, WordEnd(t, i + 1, limit), limit)
  {
    hide StringEnd, LineEnd, WordEnd;
    if IsQuote(t[i]) && Step(t, i, limit).Ok? {
      StringEndsQuoted(t, t[i], i + 1, limit);
    }
  }

  /** Every block that is found has the shape of one, and in the range it was found in the
      lexer stops at its keyword. */
  lemma {:induction false} FoundShape(t: string, i: nat, limit: nat, depth: nat)
    requires i <= limit <= |t| && Find(t, i, limit, depth).Ok? && StartsFree(t, i, limit)
    ensures forall f :: f in Find(t, i, limit, depth).value ==> Shape(t, f)
    decreases limit - i
  {
    hide Step, IsLexeme, WordEnd, BlockOpen, CloseFrom, Find, Shape, StartsFree;
    if i == limit {
      FindEnd(t, limit, depth);
    } else {
      StepsFree(t, i, limit);
      FindUnfold(t, i, limit, depth);
      SingleStep(t, i, limit);
      if IsLexeme(t, i, limit) {
        FoundShape(t, Step(t, i, limit).value, limit, depth);
      } else if t[i] == '{' {
        FoundShape(t, i + 1, limit, depth + 1);
      } else if t[i] == '}' {
        FoundShape(t, i + 1, limit, depth - 1);
      } else if Opens(t, i, limit) {
        BlockShapes(t, i, limit, depth);
      } else if IsWordStart(t[i]) {
        FoundShape(t, WordEnd(t, i + 1, limit), limit, depth);
      } else {
        FoundShape(t, i + 1, limit, depth);
      }
    }
  }

  lemma FindEnd(t: string, limit: nat, depth: nat)
    requires limit <= |t|
    ensures Find(t, limit, limit, depth).Ok? ==> Find(t, limit, limit, depth) == Ok([])
  {
  }

  lemma {:induction false} BlockShapes(t: string, i: nat, limit: nat, depth: nat)
    requires i < limit <= |t| && Opens(t, i, limit) && Find(t, i, limit, depth).Ok? && StartsFree(t, i, limit)
    ensures forall f :: f in Find(t, i, limit, depth).value ==> Shape(t, f)
    decreases limit - i, 0
  {
    hide Opens, WordEnd, BlockOpen, CloseFrom, Find, KeyFrom, Shape, ContentEnd, StartsFree;
    var g, inner, rest := FindBlockParts(t, i, limit, depth);
    OpensFree(t, i, limit);
    CloseIsBrace(t, g.brace + 1, limit);
    FreeAfter(t, g.brace, g.close - 1);
    FreeAfter(t, g.close - 1, limit);
    FoundShape(t, g.brace + 1, g.close - 1, 0);
    FoundShape(t, g.close, limit, depth);
    OneShape(t, i, limit, g);
  }

  lemma OpensFree(t: string, i: nat, limit: nat)
    requires i < limit <= |t| && Opens(t, i, limit) && StartsFree(t, i, limit)
    ensures WordFree(t, i)
    ensures var b := BlockOpen(t, WordEnd(t, i + 1, limit), limit).value; b < limit && t[b] == '{'
  {
    hide WordEnd, WordFree;
  }

  lemma FreeAfter(t: string, p: nat, limit: nat)
    requires p < limit <= |t| && (t[p] == '{' || t[p] == '}')
    ensures StartsFree(t, p + 1, limit)
  {
  }

  lemma OneShape(t: string, i: nat, limit: nat, g: Found)
    requires i < limit <= |t| && Opens(t, i, limit) && g.keyword == i && WordFree(t, i)
    requires Some(g.brace) == BlockOpen(t, WordEnd(t, i + 1, limit), limit)
    requires g.brace < g.close <= limit && CloseFrom(t, g.brace + 1, limit, 1) == Ok(g.close)
    requires g.contentEnd == ContentEnd(t, g.close, limit)
    ensures Shape(t, g)
  {
    hide IsLexeme, WordEnd, BlockOpen, CloseFrom, Opens, IsBlank;
    OpensShape(t, i, limit);
    CloseShrink(t, g.brace + 1, limit, g.close, 1);
    CloseIsBrace(t, g.brace + 1, limit);
    assert t[g.keyword..g.keyword + 10][0] == 'a' == t[g.keyword];
  }

  lemma CloseIsBrace(t: string, i: nat, limit: nat)
    requires i <= limit <= |t| && CloseFrom(t, i, limit, 1).Ok?
    ensures i < CloseFrom(t, i, limit, 1).value <= limit && t[CloseFrom(t, i, limit, 1).value - 1] == '}'
  {
  }

  // ---------- at the region ----------

  lemma {:induction false} FindAtGap(t: string, u: string, f: Found, s: nat, e: nat, limit: nat, depth: nat)
    requires Gap(t, u, s, e) && Region(t, f, s, e) && e <= limit <= |t|
    requires Find(t, s, limit, depth).Ok? && f in Find(t, s, limit, depth).value
    ensures s <= limit - (e - s) <= |u|
    ensures Find(u, s, limit - (e - s), depth) == Ok(Kept(Find(t, s, limit, depth).value, s, e))
  {
    hide Region, Gap, Shape, Find, WordEnd, IsLexeme, BlockOpen, AllPlain, NoWords, Kept, Moved, CloseFrom, KeyFrom,
      ContentEnd;
    GapMoved(t, u, s, e, limit);
    RegionSizes(t, f, s, e);
    RegionWords(t, f, s, e);
    FindPlainRun(t, s, f.keyword, limit, depth);
    KeywordStands(t, f, limit);
    FindUnfold(t, f.keyword, limit, depth);
    FindFrom(t, f.keyword + 10, limit, depth);
    assert Opens(t, f.keyword, limit);
    hide Opens;
    var g, inner, rest := FindBlockParts(t, f.keyword, limit, depth);
    assert f == g;
    FindPlainRun(t, f.close, e, limit, depth);
    FindMoves(t, u, e, limit, e - s, depth);
    FindFrom(t, e, limit, depth);
    KeptNone([g] + inner, s, e);
    KeptJoin([g] + inner, rest, s, e);
    var rest' := Find(u, s, limit - (e - s), depth).value;
    KeptAfter(rest, rest', s, e);
    assert [] + rest' == rest';
  }

  lemma FindFrom(t: string, i: nat, limit: nat, depth: nat)
    requires i <= limit <= |t|
    ensures Find(t, i, limit, depth).Ok? ==>
              forall f :: f in Find(t, i, limit, depth).value ==>
                i <= f.keyword && InText(t, f) && f.contentEnd <= limit
  {
  }

  // ---------- before the region ----------

  lemma {:induction false} FindAcross(t: string, u: string, f: Found, s: nat, e: nat, i: nat, limit: nat, depth: nat)
    requires Gap(t, u, s, e) && Region(t, f, s, e) && i <= s && e <= limit <= |t|
    requires Find(t, i, limit, depth).Ok? && f in Find(t, i, limit, depth).value
    ensures i <= limit - (e - s) <= |u|
    ensures Find(u, i, limit - (e - s), depth) == Ok(Kept(Find(t, i, limit, depth).value, s, e))
    decreases s - i, 1
  {
    hide Region, Gap, Step, IsLexeme, WordEnd, BlockOpen, Find, Kept;
    GapSizes(t, u, s, e);
    RegionSizes(t, f, s, e);
    if i == s {
      FindAtGap(t, u, f, s, e, limit, depth);
    } else {
      FindUnfold(t, i, limit, depth);
      SingleStep(t, i, limit);
      if Opens(t, i, limit) {
        BlockAcross(t, u, f, s, e, i, limit, depth);
      } else if !IsLexeme(t, i, limit) && IsWordStart(t[i]) {
        WordAcross(t, u, f, s, e, i, limit, depth);
      } else {
        var n, d := Step(t, i, limit).value,
                    if IsLexeme(t, i, limit) then depth else if t[i] == '{' then depth + 1
                      else if t[i] == '}' then depth - 1 else depth;
        assert Find(t, i, limit, depth) == Find(t, n, limit, d);
        FindFrom(t, n, limit, d);
        StepBefore(t, u, f, s, e, i, limit);
        FindUnfold(u, i, limit - (e - s), depth);
        FindAcross(t, u, f, s, e, n, limit, d);
      }
    }
  }

  /** A word that opens no block opens none in the cut text either. */
  lemma {:induction false} WordAcross(t: string, u: string, f: Found, s: nat, e: nat, i: nat, limit: nat, depth: nat)
    requires Gap(t, u, s, e) && Region(t, f, s, e) && i < s && e <= limit <= |t|
    requires Find(t, i, limit, depth).Ok? && f in Find(t, i, limit, depth).value
    requires !IsLexeme(t, i, limit) && IsWordStart(t[i]) && !Opens(t, i, limit)
    ensures i <= limit - (e - s) <= |u|
    ensures Find(u, i, limit - (e - s), depth) == Ok(Kept(Find(t, i, limit, depth).value, s, e))
    decreases s - i, 0
  {
    hide Region, Gap, Step, IsLexeme, WordEnd, Find, Kept, BlockOpen;
    GapSizes(t, u, s, e);
    RegionSizes(t, f, s, e);
    var w := WordEnd(t, i + 1, limit);
    FindUnfold(t, i, limit, depth);
    WordBefore(t, u, f, s, e, i, limit);
    FirstIsWord(t, u, f, s, e, i, limit);
    if t[i..w] == "attributes" {
      StillOpensNothing(t, u, f, s, e, i, w, limit);
    }
    FindUnfold(u, i, limit - (e - s), depth);
    FindFrom(t, w, limit, depth);
    FindAcross(t, u, f, s, e, w, limit, depth);
  }

  lemma StillOpensNothing(t: string, u: string, f: Found, s: nat, e: nat, i: nat, w: nat, limit: nat)
    requires Gap(t, u, s, e) && Region(t, f, s, e) && i <= w <= s && e <= limit <= |t|
    requires t[i..w] == "attributes" && BlockOpen(t, w, limit).None?
    ensures w <= limit - (e - s) <= |u| && BlockOpen(u, w, limit - (e - s)).None?
  {
    hide Region, Gap, ValueStart, IsQuote;
    GapSizes(t, u, s, e);
    ValueStartAcross(t, u, f, s, e, w, limit);
    if ValueStart(t, w, limit) >= s {
      assert t[..w][w - 10..] == t[i..w];
      assert t[w - 1] == t[i..w][9];
      NothingOpens(t, u, f, s, e, w, limit);
    }
  }

  lemma FirstIsWord(t: string, u: string, f: Found, s: nat, e: nat, i: nat, limit: nat)
    requires Gap(t, u, s, e) && i < s && e <= limit <= |t| && IsWordStart(t[i])
    ensures i < limit - (e - s) <= |u| && u[i] == t[i] && !IsLexeme(u, i, limit - (e - s))
  {
  }

  /** A block before the region or around it. */
  lemma {:induction false} BlockAcross(t: string, u: string, f: Found, s: nat, e: nat, i: nat, limit: nat, depth: nat)
    requires Gap(t, u, s, e) && Region(t, f, s, e) && i < s && e <= limit <= |t|
    requires Find(t, i, limit, depth).Ok? && f in Find(t, i, limit, depth).value && Opens(t, i, limit)
    ensures i <= limit - (e - s) <= |u|
    ensures Find(u, i, limit - (e - s), depth) == Ok(Kept(Find(t, i, limit, depth).value, s, e))
    decreases s - i, 0
  {
    hide Region, Gap, WordEnd, BlockOpen, CloseFrom, Find, KeyFrom, Opens, Kept, ContentEnd, Shape, Lands, FoundLands;
    RegionSizes(t, f, s, e);
    GapSizes(t, u, s, e);
    var g, inner, rest := FindBlockParts(t, i, limit, depth);
    OpensAcross(t, u, f, s, e, i, limit);
    CloseIsBrace(t, g.brace + 1, limit);
    if f in rest {
      LandsAtFound(t, g.close, limit, depth, f);
      NotInLead(t, f, s, e, g.close - 1);
      FindAcross(t, u, f, s, e, g.close, limit, depth);
      BlockBefore(t, u, f, s, e, i, limit, depth, g, inner, rest);
    } else {
      assert f in inner;
      NotInTail(t, f, s, e, g.close - 1);
      LandsAtFound(t, g.brace + 1, g.close - 1, 0, f);
      FindAcross(t, u, f, s, e, g.brace + 1, g.close - 1, 0);
      BlockAround(t, u, f, s, e, i, limit, depth, g, inner, rest);
    }
  }

  lemma LandsAtFound(t: string, i: nat, limit: nat, depth: nat, f: Found)
    requires i <= limit <= |t| && Find(t, i, limit, depth).Ok? && f in Find(t, i, limit, depth).value
    ensures Lands(t, i, f.keyword, limit)
  {
    hide Find, Lands;
    FindLands(t, i, limit, depth);
  }

  lemma NotInLead(t: string, f: Found, s: nat, e: nat, p: nat)
    requires Region(t, f, s, e) && p < f.keyword && t[p] == '}'
    ensures p < s
  {
    hide Shape;
    RegionSizes(t, f, s, e);
    assert !IsSpace('}');
  }

  lemma NotInTail(t: string, f: Found, s: nat, e: nat, p: nat)
    requires Region(t, f, s, e) && f.contentEnd <= p < |t| && t[p] == '}'
    ensures e <= p
  {
    hide Shape;
  }

  /** A block that opens before the region opens in the cut text, at the same brace. */
  lemma OpensAcross(t: string, u: string, f: Found, s: nat, e: nat, i: nat, limit: nat)
    requires Gap(t, u, s, e) && Region(t, f, s, e) && i < s && e <= limit <= |t| && Opens(t, i, limit)
    ensures i < limit - (e - s) <= |u| && Opens(u, i, limit - (e - s))
    ensures WordEnd(u, i + 1, limit - (e - s)) == WordEnd(t, i + 1, limit)
    ensures var w := WordEnd(t, i + 1, limit);
            BlockOpen(u, w, limit - (e - s)) == BlockOpen(t, w, limit) && BlockOpen(t, w, limit).value < s
  {
    hide Region, Gap, IsLexeme, WordEnd, ValueStart, IsQuote;
    WordBefore(t, u, f, s, e, i, limit);
    FirstIsWord(t, u, f, s, e, i, limit);
    ValueStartAcross(t, u, f, s, e, WordEnd(t, i + 1, limit), limit);
  }

  lemma PrefixMoved(t: string, u: string, s: nat, e: nat, i: nat, j: nat)
    requires Gap(t, u, s, e) && i <= j <= s
    ensures Moved(t, u, i, j, 0)
  {
  }

  /** No semicolon follows a block that ends right before the gap. */
  lemma ContentEndBefore(t: string, u: string, f: Found, s: nat, e: nat, close: nat, limit: nat)
    requires Gap(t, u, s, e) && Region(t, f, s, e) && 0 < close <= s && e <= limit <= |t| && t[close - 1] == '}'
    ensures s <= limit - (e - s) <= |u|
    ensures ContentEnd(t, close, limit) <= s && ContentEnd(u, close, limit - (e - s)) == ContentEnd(t, close, limit)
  {
    hide Region, Shape, Moved, Seam;
    RegionSizes(t, f, s, e);
    RegionParts(t, f, s, e);
    GapMoved(t, u, s, e, limit);
    if close < s {
      BeforeIsSame(t, u, s, e, close);
    } else {
      CutKeepsPrefix(t, u, s, e);
      NoSemicolonAtSeam(u, s);
    }
  }

  lemma NoSemicolonAtSeam(u: string, s: nat)
    requires 0 < s <= |u| && Seam(u, s) && u[s - 1] == '}'
    ensures s < |u| ==> u[s] != ';'
  {
    hide Back, SkipBlanks, Dangles;
  }

  lemma {:induction false} SameWhenZero(a: seq<Found>, r: Scan<seq<Found>>)
    requires SameFound(Ok(a), r, 0)
    ensures r == Ok(a)
  {
    forall k | 0 <= k < |a|
      ensures a[k] == r.value[k]
    {
      assert FoundMoved(a[k], r.value[k], 0);
    }
    assert r.value == a;
  }

  lemma {:induction false} BlockBefore(t: string, u: string, f: Found, s: nat, e: nat, i: nat, limit: nat, depth: nat,
                                       g: Found, inner: seq<Found>, rest: seq<Found>)
    requires Gap(t, u, s, e) && Region(t, f, s, e) && i < s && e <= limit <= |t|
    requires i < limit - (e - s) <= |u| && Opens(u, i, limit - (e - s)) && g.keyword == i < g.brace < g.close <= s
    requires Some(g.brace) == BlockOpen(u, WordEnd(u, i + 1, limit - (e - s)), limit - (e - s))
    requires CloseFrom(t, g.brace + 1, limit, 1) == Ok(g.close) && g.contentEnd == ContentEnd(t, g.close, limit)
    requires KeyFrom(t, g.brace, g.close, 0, None) == Ok(g.key) && t[g.close - 1] == '}'
    requires Find(t, g.brace + 1, g.close - 1, 0) == Ok(inner) && Lands(t, g.close, f.keyword, limit)
    requires Find(u, g.close, limit - (e - s), depth) == Ok(Kept(rest, s, e))
    ensures Find(u, i, limit - (e - s), depth) == Ok(Kept([g] + inner + rest, s, e))
  {
    hide Region, Gap, WordEnd, BlockOpen, CloseFrom, Find, KeyFrom, Opens, Kept, ContentEnd, Lands, Moved;
    RegionSizes(t, f, s, e);
    var limit' := limit - (e - s);
    CloseLands(t, g.brace + 1, limit, 1);
    LandsThrough(t, g.brace + 1, g.close, f.keyword, limit);
    CloseAcross(t, u, f, s, e, g.brace + 1, limit, 1);
    PrefixMoved(t, u, s, e, g.brace, g.close);
    KeyMoves(t, u, g.brace, g.close, 0, 0, None);
    PrefixMoved(t, u, s, e, g.brace + 1, g.close - 1);
    FindMoves(t, u, g.brace + 1, g.close - 1, 0, 0);
    SameWhenZero(inner, Find(u, g.brace + 1, g.close - 1, 0));
    ContentEndBefore(t, u, f, s, e, g.close, limit);
    FindBlockJoins(u, i, limit', depth, g, inner, Kept(rest, s, e));
    FindFrom(t, g.brace + 1, g.close - 1, 0);
    ContentEndAfter(t, g.close, limit);
    KeptBefore([g] + inner, s, e);
    KeptJoin([g] + inner, rest, s, e);
  }

  lemma ContentEndAfter(t: string, close: nat, limit: nat)
    requires close <= limit <= |t|
    ensures close <= ContentEnd(t, close, limit) <= limit
  {
  }

  lemma KeyFromBrace(t: string, i: nat, limit: nat, key: Option<Codes>)
    requires i < limit <= |t| && t[i] == '{'
    ensures KeyFrom(t, i, limit, 0, key) == KeyFrom(t, i + 1, limit, 1, key)
  {
  }

  lemma {:induction false} BlockAround(t: string, u: string, f: Found, s: nat, e: nat, i: nat, limit: nat, depth: nat,
                                       g: Found, inner: seq<Found>, rest: seq<Found>)
    requires Gap(t, u, s, e) && Region(t, f, s, e) && i < s && e <= limit <= |t|
    requires i < limit - (e - s) <= |u| && Opens(u, i, limit - (e - s))
    requires g.keyword == i < g.brace < s && e < g.close <= limit && t[g.brace] == '{'
    requires Some(g.brace) == BlockOpen(u, WordEnd(u, i + 1, limit - (e - s)), limit - (e - s))
    requires CloseFrom(t, g.brace + 1, limit, 1) == Ok(g.close) && g.contentEnd == ContentEnd(t, g.close, limit)
    requires KeyFrom(t, g.brace, g.close, 0, None) == Ok(g.key)
    requires Find(t, g.close, limit, depth) == Ok(rest) && Lands(t, g.brace + 1, f.keyword, g.close - 1)
    requires Find(u, g.brace + 1, g.close - 1 - (e - s), 0) == Ok(Kept(inner, s, e))
    ensures Find(u, i, limit - (e - s), depth) == Ok(Kept([g] + inner + rest, s, e))
  {
    hide Region, Gap, WordEnd, BlockOpen, CloseFrom, Find, KeyFrom, Opens, Kept, ContentEnd, Lands, Moved;
    RegionSizes(t, f, s, e);
    var d := e - s;
    AroundCloses(t, u, f, s, e, limit, g);
    AroundKey(t, u, f, s, e, limit, g);
    GapMoved(t, u, s, e, limit);
    MovedFrom(t, u, e, limit, d, g.close);
    FindMoves(t, u, g.close, limit, d, depth);
    ContentEndMoves(t, u, e, g.close, limit, d);
    ContentEndAfter(t, g.close, limit);
    FindFrom(t, g.close, limit, depth);
    var rest' := Find(u, g.close - d, limit - d, depth).value;
    KeptAfter(rest, rest', s, e);
    var g' := MoveBy(g, s, e);
    assert g' == Found(g.keyword, g.brace, g.close - d, g.contentEnd - d, g.key);
    FindBlockJoins(u, i, limit - d, depth, g', Kept(inner, s, e), rest');
    KeptOne(g, s, e);
    KeptJoin([g], inner, s, e);
    KeptJoin([g] + inner, rest, s, e);
  }

  lemma KeptOne(g: Found, s: nat, e: nat)
    requires s <= e && g.keyword < s
    ensures Kept([g], s, e) == [MoveBy(g, s, e)]
  {
    hide MoveBy;
    assert [g][1..] == [];
  }

  lemma AroundCloses(t: string, u: string, f: Found, s: nat, e: nat, limit: nat, g: Found)
    requires Gap(t, u, s, e) && Region(t, f, s, e) && e <= limit <= |t| && g.brace < s && e < g.close <= limit
    requires CloseFrom(t, g.brace + 1, limit, 1) == Ok(g.close) && Lands(t, g.brace + 1, f.keyword, g.close - 1)
    ensures g.brace + 1 <= limit - (e - s) <= |u| &&
            CloseFrom(u, g.brace + 1, limit - (e - s), 1) == Ok(g.close - (e - s))
  {
    hide Region, Gap, CloseFrom, Lands;
    GapSizes(t, u, s, e);
    CloseLands(t, g.brace + 1, limit, 1);
    LandsWiden(t, g.brace + 1, f.keyword, g.close - 1, limit);
    CloseAcross(t, u, f, s, e, g.brace + 1, limit, 1);
  }

  lemma AroundKey(t: string, u: string, f: Found, s: nat, e: nat, limit: nat, g: Found)
    requires Gap(t, u, s, e) && Region(t, f, s, e) && e <= limit <= |t| && g.brace < s && e < g.close <= limit &&
             t[g.brace] == '{'
    requires CloseFrom(t, g.brace + 1, limit, 1) == Ok(g.close) && Lands(t, g.brace + 1, f.keyword, g.close - 1)
    requires KeyFrom(t, g.brace, g.close, 0, None) == Ok(g.key)
    ensures g.brace <= g.close - (e - s) <= |u| && KeyFrom(u, g.brace, g.close - (e - s), 0, None) == Ok(g.key)
  {
    hide Region, Gap, CloseFrom, KeyFrom, Lands;
    GapSizes(t, u, s, e);
    CloseShrink(t, g.brace + 1, limit, g.close, 1);
    CloseLands(t, g.brace + 1, g.close, 1);
    LandsWiden(t, g.brace + 1, f.keyword, g.close - 1, g.close);
    KeyFromBrace(t, g.brace, g.close, None);
    KeyAcross(t, u, f, s, e, g.brace + 1, g.close, 1, None);
    BeforeIsSame(t, u, s, e, g.brace);
    KeyFromBrace(u, g.brace, g.close - (e - s), None);
  }

  /** Cutting one block with the white space around it, where nothing joins: what is left is
      accepted, and all other blocks are found in it, each with its key. */
  lemma CutKeepsOthers(t: string, f: Found, s: nat, e: nat)
    requires Find(t, 0, |t|, 0).Ok? && f in Find(t, 0, |t|, 0).value && Region(t, f, s, e)
    requires s < e <= |t| && Seam(t[..s] + t[e..], s)
    ensures var u := t[..s] + t[e..];
            Find(u, 0, |u|, 0) == Ok(Kept(Find(t, 0, |t|, 0).value, s, e))
  {
    hide Region, Find, Kept, Seam;
    FindAcross(t, t[..s] + t[e..], f, s, e, 0, |t|, 0);
  }
}
