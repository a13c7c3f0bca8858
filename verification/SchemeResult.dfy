/** When `rewrite_document_scheme` succeeds on a text that no tree was printed to: if nothing
    joins across its cuts, its final self-check passes, and the result has exactly the blocks
    that were not cut. */
module SchemeResult {
  import opened Wrappers
  import opened SchemeLexer
  import opened SchemeScan
  import opened SchemeSpans
  import opened SchemeShift
  import opened SchemeGap
  import opened SchemeCut
  import opened SchemeRewrite

  // ---------- several cuts, the last one first ----------

  datatype Hole = Hole(f: Found, start: nat, end: nat)

  ghost predicate Holes(t: string, hs: seq<Hole>) {
    && Find(t, 0, |t|, 0).Ok?
    && (forall h :: h in hs ==> h.f in Find(t, 0, |t|, 0).value && Region(t, h.f, h.start, h.end))
    && (forall a, b :: 0 <= a < b < |hs| ==> hs[a].end <= hs[b].start)
  }

  predicate Within(n: nat, hs: seq<Hole>) {
    && (forall k :: 0 <= k < |hs| ==> hs[k].start < hs[k].end <= n)
    && (forall a, b :: 0 <= a < b < |hs| ==> hs[a].end <= hs[b].start)
  }

  function CutOut(t: string, hs: seq<Hole>): string
    requires Within(|t|, hs)
    decreases |hs|
  {
    if hs == [] then t
    else
      var last := hs[|hs| - 1];
      assert forall k :: 0 <= k < |hs| - 1 ==> hs[k].end <= last.start;
      CutOut(t[..last.start] + t[last.end..], hs[..|hs| - 1])
  }

  /** Nothing joins across the holes, cut out the last one first. */
  predicate Seams(t: string, hs: seq<Hole>)
    requires Within(|t|, hs)
    decreases |hs|
  {
    hs == [] ||
    (var last := hs[|hs| - 1];
     assert forall k :: 0 <= k < |hs| - 1 ==> hs[k].end <= last.start;
     var u := t[..last.start] + t[last.end..];
     Seam(u, last.start) && Seams(u, hs[..|hs| - 1]))
  }

  lemma HolesWithin(t: string, hs: seq<Hole>)
    requires Holes(t, hs)
    ensures Within(|t|, hs)
  {
    hide Region, Find;
    forall k | 0 <= k < |hs|
      ensures hs[k].start < hs[k].end <= |t|
    {
      assert hs[k] in hs;
      RegionSizes(t, hs[k].f, hs[k].start, hs[k].end);
    }
  }

  lemma HolesScan(t: string, hs: seq<Hole>)
    requires Holes(t, hs)
    ensures Find(t, 0, |t|, 0).Ok?
  {
    hide Find, Region;
  }

  lemma {:induction false} KeptHas(fs: seq<Found>, f: Found, s: nat, e: nat)
    requires s <= e && f in fs && f.keyword < f.brace < f.close <= f.contentEnd <= s
    ensures f in Kept(fs, s, e)
  {
    if fs[0] == f {
      assert MoveBy(f, s, e) == f;
    } else {
      KeptHas(fs[1..], f, s, e);
    }
  }

  lemma PrefixSame(t: string, u: string, s: nat, e: nat)
    requires Gap(t, u, s, e)
    ensures s <= |t| && s <= |u| && forall p :: 0 <= p < s ==> u[p] == t[p]
  {
    hide Seam;
  }

  /** An earlier block has its shape still. */
  lemma ShapeKept(t: string, u: string, s: nat, e: nat, f: Found)
    requires Gap(t, u, s, e) && Shape(t, f) && f.contentEnd <= s
    ensures Shape(u, f)
  {
    hide CloseFrom, WordFree;
    FreeKept(t, u, s, e, f.keyword);
    PrefixSame(t, u, s, e);
    PrefixMoved(t, u, s, e, f.brace + 1, f.close);
    CloseMoves(t, u, f.brace + 1, f.close, 0, 1);
    SameSlice(t, u, s, e, f.keyword, f.keyword + 10);
  }

  lemma {:induction false} FreeKept(t: string, u: string, s: nat, e: nat, i: nat)
    requires Gap(t, u, s, e) && i <= s && WordFree(t, i)
    ensures i <= |u| && WordFree(u, i)
  {
    hide Gap;
    PrefixSame(t, u, s, e);
    if i > 0 && IsWordChar(t[i - 1]) {
      FreeKept(t, u, s, e, i - 1);
    }
  }

  lemma SameSlice(t: string, u: string, s: nat, e: nat, i: nat, j: nat)
    requires Gap(t, u, s, e) && i <= j <= s
    ensures j <= |u| && u[i..j] == t[i..j]
  {
    hide Seam;
  }

  lemma RegionKept(t: string, u: string, last: Hole, h: Hole)
    requires Gap(t, u, last.start, last.end) && Region(t, last.f, last.start, last.end)
    requires Region(t, h.f, h.start, h.end) && h.end <= last.start
    ensures Region(u, h.f, h.start, h.end)
  {
    RegionSizes(t, h.f, h.start, h.end);
    hide Shape, Seam;
    PrefixSame(t, u, last.start, last.end);
    ShapeKept(t, u, last.start, last.end, h.f);
  }

  lemma HolesLeft(t: string, hs: seq<Hole>)
    requires Holes(t, hs) && hs != [] && Within(|t|, hs) && Seams(t, hs)
    ensures var last := hs[|hs| - 1];
            && last.start < last.end <= |t|
            && Holes(t[..last.start] + t[last.end..], hs[..|hs| - 1])
            && var u := t[..last.start] + t[last.end..];
               Find(u, 0, |u|, 0) == Ok(Kept(Find(t, 0, |t|, 0).value, last.start, last.end))
  {
    hide Region, Find, Kept, Seam;
    var last, init := hs[|hs| - 1], hs[..|hs| - 1];
    var u := t[..last.start] + t[last.end..];
    assert last in hs;
    CutKeepsOthers(t, last.f, last.start, last.end);
    assert Gap(t, u, last.start, last.end);
    forall h | h in init
      ensures h.f in Find(u, 0, |u|, 0).value && Region(u, h.f, h.start, h.end)
    {
      var k :| 0 <= k < |init| && init[k] == h;
      assert h in hs && hs[k].end <= last.start;
      RegionSizes(t, h.f, h.start, h.end);
      RegionKept(t, u, last, h);
      KeptHas(Find(t, 0, |t|, 0).value, h.f, last.start, last.end);
    }
    assert forall a :: 0 <= a < |init| ==> init[a] == hs[a];
  }

  // ---------- the keys that are left ----------

  predicate InHole(p: nat, hs: seq<Hole>) {
    exists h :: h in hs && h.start <= p < h.end
  }

  /** The keys of the blocks outside all holes, in order. */
  function KeysOutside(fs: seq<Found>, hs: seq<Hole>): seq<Option<Codes>> {
    if fs == [] then []
    else (if InHole(fs[0].keyword, hs) then [] else [fs[0].key]) + KeysOutside(fs[1..], hs)
  }

  lemma {:induction false} KeysOutsideNone(fs: seq<Found>)
    ensures |KeysOutside(fs, [])| == |fs| && forall k :: 0 <= k < |fs| ==> KeysOutside(fs, [])[k] == fs[k].key
  {
    if fs != [] {
      KeysOutsideNone(fs[1..]);
    }
  }

  lemma InHoleSplit(p: nat, hs: seq<Hole>)
    requires hs != []
    ensures var last := hs[|hs| - 1];
            InHole(p, hs) <==> InHole(p, hs[..|hs| - 1]) || last.start <= p < last.end
  {
    var last, init := hs[|hs| - 1], hs[..|hs| - 1];
    assert hs == init + [last];
    assert forall h :: h in hs <==> h in init || h == last;
  }

  lemma PlaceInHole(p: nat, hs: seq<Hole>, s: nat, e: nat)
    requires s < e && (p < s || e <= p) && forall h :: h in hs ==> h.end <= s
    ensures InHole(Place(p, s, e), hs) <==> InHole(p, hs)
  {
  }

  lemma {:induction false} KeysOfKept(fs: seq<Found>, hs: seq<Hole>)
    requires hs != [] && hs[|hs| - 1].start < hs[|hs| - 1].end
    requires forall h :: h in hs[..|hs| - 1] ==> h.end <= hs[|hs| - 1].start
    ensures KeysOutside(Kept(fs, hs[|hs| - 1].start, hs[|hs| - 1].end), hs[..|hs| - 1]) == KeysOutside(fs, hs)
  {
    hide InHole, Place;
    if fs != [] {
      var last, init, f := hs[|hs| - 1], hs[..|hs| - 1], fs[0];
      var rest := Kept(fs[1..], last.start, last.end);
      KeysOfKept(fs[1..], hs);
      InHoleSplit(f.keyword, hs);
      if f.keyword < last.start || last.end <= f.keyword {
        PlaceInHole(f.keyword, init, last.start, last.end);
        var g := MoveBy(f, last.start, last.end);
        assert Kept(fs, last.start, last.end) == [g] + rest;
        assert ([g] + rest)[1..] == rest;
      } else {
        assert Kept(fs, last.start, last.end) == [] + rest == rest;
      }
    }
  }

  /** After all cuts the scanner finds blocks with exactly the keys of the blocks outside the
      holes, in order. */
  lemma {:induction false} CutAllKeepsOthers(t: string, hs: seq<Hole>)
    requires Holes(t, hs) && Within(|t|, hs) && Seams(t, hs)
    ensures var u := CutOut(t, hs);
            && Find(u, 0, |u|, 0).Ok?
            && KeysOutside(Find(u, 0, |u|, 0).value, []) == KeysOutside(Find(t, 0, |t|, 0).value, hs)
    decreases |hs|
  {
    hide Holes, Find, Kept, KeysOutside, Seam;
    HolesScan(t, hs);
    if hs != [] {
      var last, init := hs[|hs| - 1], hs[..|hs| - 1];
      HolesLeft(t, hs);
      assert forall k :: 0 <= k < |hs| - 1 ==> hs[k].end <= last.start;
      CutAllKeepsOthers(t[..last.start] + t[last.end..], init);
      forall h | h in init
        ensures h.end <= last.start
      {
        var k :| 0 <= k < |init| && init[k] == h;
        assert hs[k].end <= hs[|hs| - 1].start;
      }
      KeysOfKept(Find(t, 0, |t|, 0).value, hs);
    }
  }

  // ---------- the cuts are the erasure ----------

  function SpansOf(hs: seq<Hole>): seq<AttrBlock> {
    seq(|hs|, k requires 0 <= k < |hs| => AttrBlock(hs[k].start, hs[k].end, hs[k].f.key))
  }

  lemma CoveredIsInHole(p: nat, hs: seq<Hole>)
    ensures Covered(p, SpansOf(hs)) <==> InHole(p, hs)
  {
    if h :| h in hs && h.start <= p < h.end {
      var k :| 0 <= k < |hs| && hs[k] == h;
      assert SpansOf(hs)[k] in SpansOf(hs);
    }
  }

  lemma {:induction false} EraseLast(t: string, i: nat, hs: seq<Hole>)
    requires Within(|t|, hs) && hs != [] && i <= hs[|hs| - 1].start
    ensures var last := hs[|hs| - 1]; var u := t[..last.start] + t[last.end..];
            && i <= |u| && Erase(t, i, SpansOf(hs)) == Erase(u, i, SpansOf(hs[..|hs| - 1]))
    decreases hs[|hs| - 1].start - i
  {
    hide Covered, SpansOf, InHole, Erase;
    var last, init := hs[|hs| - 1], hs[..|hs| - 1];
    var u := t[..last.start] + t[last.end..];
    LastCovers(hs);
    if i < last.start {
      EraseLast(t, i + 1, hs);
      EraseUnfold(t, i, SpansOf(hs));
      EraseUnfold(u, i, SpansOf(init));
      assert u[i] == t[i];
    } else {
      EraseGone(t, last.start, last.end, SpansOf(hs));
      EraseRest(t, last.end, SpansOf(hs));
      EraseRest(u, last.start, SpansOf(init));
      assert u[last.start..] == t[last.end..];
    }
  }

  lemma LastCovers(hs: seq<Hole>)
    requires hs != [] && forall a, b :: 0 <= a < b < |hs| ==> hs[a].end <= hs[b].start
    ensures var last, init := hs[|hs| - 1], hs[..|hs| - 1];
            forall p: nat ::
              && (Covered(p, SpansOf(hs)) <==> Covered(p, SpansOf(init)) || last.start <= p < last.end)
              && (Covered(p, SpansOf(init)) ==> p < last.start)
  {
    hide Covered, SpansOf, InHole;
    var last, init := hs[|hs| - 1], hs[..|hs| - 1];
    forall p: nat
      ensures Covered(p, SpansOf(hs)) <==> Covered(p, SpansOf(init)) || last.start <= p < last.end
      ensures Covered(p, SpansOf(init)) ==> p < last.start
    {
      CoveredIsInHole(p, hs);
      CoveredIsInHole(p, init);
      InHoleSplit(p, hs);
      InitBefore(p, hs);
    }
  }

  lemma EraseRest(t: string, i: nat, spans: seq<AttrBlock>)
    requires i <= |t| && forall p: nat :: i <= p ==> !Covered(p, spans)
    ensures Erase(t, i, spans) == t[i..]
  {
    hide Covered, Erase;
    EraseKept(t, i, |t|, spans);
    EraseUnfold(t, |t|, spans);
    assert t[i..|t|] + "" == t[i..];
  }

  lemma InitBefore(p: nat, hs: seq<Hole>)
    requires hs != [] && forall a, b :: 0 <= a < b < |hs| ==> hs[a].end <= hs[b].start
    ensures InHole(p, hs[..|hs| - 1]) ==> p < hs[|hs| - 1].start
  {
    var init := hs[..|hs| - 1];
    if h :| h in init && h.start <= p < h.end {
      var k :| 0 <= k < |init| && init[k] == h;
      assert hs[k].end <= hs[|hs| - 1].start;
    }
  }

  lemma {:induction false} CutOutErases(t: string, hs: seq<Hole>)
    requires Within(|t|, hs)
    ensures CutOut(t, hs) == Erase(t, 0, SpansOf(hs))
    decreases |hs|
  {
    hide Covered, Erase;
    if hs == [] {
      NoSpans(t);
    } else {
      var last, init := hs[|hs| - 1], hs[..|hs| - 1];
      assert forall k :: 0 <= k < |hs| - 1 ==> hs[k].end <= last.start;
      CutOutErases(t[..last.start] + t[last.end..], init);
      EraseLast(t, 0, hs);
    }
  }

  lemma NoSpans(t: string)
    ensures SpansOf([]) == [] && Erase(t, 0, []) == t
  {
    EraseKept(t, 0, |t|, []);
    assert t[0..|t|] + "" == t;
  }

  // ---------- the rewrite ----------

  /** Nothing joins across the cut of this span when all the spans are cut. */
  ghost predicate Smooth(text: string, b: AttrBlock, spans: seq<AttrBlock>)
    requires b.start <= b.end <= |text|
  {
    Seam(text[..b.start] + Erase(text, b.end, spans), b.start)
  }

  /** Spans that are smooth one by one can be cut one after another. */
  lemma {:induction false} SmoothHoles(t: string, hs: seq<Hole>)
    requires Within(|t|, hs)
    requires forall k :: 0 <= k < |hs| ==> Seam(t[..hs[k].start] + Erase(t, hs[k].end, SpansOf(hs)), hs[k].start)
    ensures Seams(t, hs)
    decreases |hs|
  {
    hide Seam, Erase, SpansOf;
    if hs != [] {
      var last, init := hs[|hs| - 1], hs[..|hs| - 1];
      var u := t[..last.start] + t[last.end..];
      assert forall k :: 0 <= k < |hs| - 1 ==> hs[k].end <= last.start;
      NothingAfterLast(t, hs);
      forall k | 0 <= k < |init|
        ensures Seam(u[..init[k].start] + Erase(u, init[k].end, SpansOf(init)), init[k].start)
      {
        EraseLast(t, hs[k].end, hs);
        assert u[..init[k].start] == t[..hs[k].start];
      }
      SmoothHoles(u, init);
    }
  }

  lemma NothingAfterLast(t: string, hs: seq<Hole>)
    requires Within(|t|, hs) && hs != []
    ensures var last := hs[|hs| - 1]; Erase(t, last.end, SpansOf(hs)) == t[last.end..]
  {
    hide Covered, SpansOf, InHole, Erase;
    LastCovers(hs);
    EraseRest(t, hs[|hs| - 1].end, SpansOf(hs));
  }

  lemma SpanTail(text: string, keyword: nat, contentEnd: nat)
    requires keyword < contentEnd <= |text|
    ensures var e := DeletionSpan(text, keyword, contentEnd).1;
            contentEnd <= e <= |text| && forall p :: contentEnd <= p < e ==> IsBlank(text[p])
  {
  }

  lemma FoundRegion(text: string, f: Found)
    requires Find(text, 0, |text|, 0).Ok? && f in Find(text, 0, |text|, 0).value
    ensures InText(text, f)
    ensures var b := ToBlock(text, f);
            && b.start <= f.keyword < b.end <= |text|
            && Region(text, f, b.start, b.end)
  {
    hide Find, Shape, DeletionSpan;
    FoundShape(text, 0, |text|, 0);
    ShapeInText(text, f);
    SpanShape(text, f.keyword, f.contentEnd);
    SpanTail(text, f.keyword, f.contentEnd);
  }

  lemma ShapeInText(text: string, f: Found)
    requires Shape(text, f)
    ensures InText(text, f)
  {
    hide CloseFrom;
  }

  lemma BlockHasFound(text: string, b: AttrBlock) returns (f: Found)
    requires Find(text, 0, |text|, 0).Ok? && b in ToBlocks(text, Find(text, 0, |text|, 0).value)
    ensures f in Find(text, 0, |text|, 0).value && InText(text, f) && b == ToBlock(text, f)
  {
    hide Find, DeletionSpan;
    var fs := Find(text, 0, |text|, 0).value;
    var k :| 0 <= k < |fs| && ToBlocks(text, fs)[k] == b;
    f := fs[k];
  }

  /** The holes of a list of spans. */
  lemma {:induction false} HolesOf(text: string, chosen: seq<AttrBlock>, cursor: nat) returns (hs: seq<Hole>)
    requires Find(text, 0, |text|, 0).Ok? && Separate(|text|, cursor, chosen)
    requires forall b :: b in chosen ==> b in ToBlocks(text, Find(text, 0, |text|, 0).value)
    ensures Holes(text, hs) && SpansOf(hs) == chosen && forall h :: h in hs ==> cursor <= h.start
    decreases |chosen|
  {
    hide Find, Region, ToBlocks, ToBlock, SpansOf;
    if chosen == [] {
      hs := [];
      NoSpans(text);
    } else {
      var b := chosen[0];
      assert b in chosen && forall k :: 0 < k < |chosen| ==> Apart(b, chosen[k]);
      var f := BlockHasFound(text, b);
      FoundRegion(text, f);
      var rest := HolesOf(text, chosen[1..], b.end);
      BlockKey(text, f);
      hs := [Hole(f, b.start, b.end)] + rest;
      HolesCons(text, Hole(f, b.start, b.end), rest);
      SpansCons(Hole(f, b.start, b.end), rest);
    }
  }

  lemma HolesCons(text: string, h: Hole, rest: seq<Hole>)
    requires Find(text, 0, |text|, 0).Ok? && h.f in Find(text, 0, |text|, 0).value && Region(text, h.f, h.start, h.end)
    requires Holes(text, rest) && forall k :: k in rest ==> h.end <= k.start
    ensures Holes(text, [h] + rest)
    ensures forall k :: k in [h] + rest ==> k == h || k in rest
  {
    hide Find, Region;
    var hs := [h] + rest;
    forall a, b | 0 <= a < b < |hs|
      ensures hs[a].end <= hs[b].start
    {
      assert hs[b] == rest[b - 1] && rest[b - 1] in rest;
      assert a > 0 ==> hs[a] == rest[a - 1];
    }
  }

  lemma SpansCons(h: Hole, rest: seq<Hole>)
    ensures SpansOf([h] + rest) == [AttrBlock(h.start, h.end, h.f.key)] + SpansOf(rest)
  {
  }

  lemma BlockKey(text: string, f: Found)
    requires InText(text, f)
    ensures ToBlock(text, f).key == f.key
  {
    hide DeletionSpan;
  }

  lemma OutermostMembers(part: seq<AttrBlock>, all: seq<AttrBlock>)
    ensures forall b :: b in Outermost(part, all) ==> b in part
  {
  }

  lemma RemovableMembers(blocks: seq<AttrBlock>)
    ensures forall b :: b in Removable(blocks) <==> b in blocks && Goes(b)
  {
  }

  /** The chosen spans are holes that cover exactly what the removable spans cover. */
  lemma ChosenHoles(text: string) returns (hs: seq<Hole>)
    requires FindBlocks(text, 0, |text|).Ok?
    requires var spans := Removable(FindBlocks(text, 0, |text|).value);
             forall b :: b in Outermost(spans, spans) ==> b.start <= b.end <= |text| && Smooth(text, b, spans)
    ensures Find(text, 0, |text|, 0).Ok? && Holes(text, hs) && Within(|text|, hs) && Seams(text, hs)
    ensures var spans := Removable(FindBlocks(text, 0, |text|).value);
            && (forall p: nat :: InHole(p, hs) <==> Covered(p, spans))
            && CutOut(text, hs) == Erase(text, 0, spans)
  {
    hide Find, Smooth, Outermost, Removable, Covered, Laminar, Erase, ToBlocks, InHole, Seam, Seams, SpansOf;
    var blocks := FindBlocks(text, 0, |text|).value;
    var spans := Removable(blocks);
    SpansAreLaminar(text);
    RemovableLaminar(|text|, blocks);
    assert spans[0..] == spans;
    ChooseOutermost(|text|, spans, 0, None);
    var chosen := Outermost(spans, spans);
    OutermostMembers(spans, spans);
    RemovableMembers(blocks);
    hs := HolesOf(text, chosen, 0);
    HolesWithin(text, hs);
    forall p: nat
      ensures InHole(p, hs) <==> Covered(p, spans)
    {
      CoveredIsInHole(p, hs);
    }
    CutOutErases(text, hs);
    EraseSame(text, 0, chosen, spans);
    forall k | 0 <= k < |hs|
      ensures Seam(text[..hs[k].start] + Erase(text, hs[k].end, SpansOf(hs)), hs[k].start)
    {
      ChosenIsSmooth(text, chosen, spans, hs, k);
    }
    SmoothHoles(text, hs);
  }

  lemma ChosenIsSmooth(text: string, chosen: seq<AttrBlock>, spans: seq<AttrBlock>, hs: seq<Hole>, k: nat)
    requires k < |hs| && SpansOf(hs) == chosen && (forall p: nat :: Covered(p, chosen) <==> Covered(p, spans))
    requires forall b :: b in chosen ==> b.start <= b.end <= |text| && Smooth(text, b, spans)
    ensures hs[k].start <= hs[k].end <= |text|
    ensures Seam(text[..hs[k].start] + Erase(text, hs[k].end, SpansOf(hs)), hs[k].start)
  {
    hide Covered, Erase, Seam;
    var b := chosen[k];
    assert b in chosen && b.start == hs[k].start && b.end == hs[k].end;
    EraseSame(text, b.end, chosen, spans);
  }

  /** For every accepted text: if nothing joins across the outermost removable spans, then
      scanning the erased text finds blocks with exactly the keys of the blocks that no
      removable span covers, in order. */
  lemma ErasedBlocks(text: string)
    requires FindBlocks(text, 0, |text|).Ok?
    requires var spans := Removable(FindBlocks(text, 0, |text|).value);
             forall b :: b in Outermost(spans, spans) ==> b.start <= b.end <= |text| && Smooth(text, b, spans)
    ensures var erased := Erase(text, 0, Removable(FindBlocks(text, 0, |text|).value));
            && Find(text, 0, |text|, 0).Ok? && Find(erased, 0, |erased|, 0).Ok?
            && KeysOutside(Find(erased, 0, |erased|, 0).value, []) ==
               KeysUncovered(Find(text, 0, |text|, 0).value, Removable(FindBlocks(text, 0, |text|).value))
  {
    hide Find, BlocksFrom, Smooth, Outermost, Removable, Covered, Erase, KeysOutside, Holes, Seams, InHole,
      KeysUncovered;
    var hs := ChosenHoles(text);
    CutAllKeepsOthers(text, hs);
    SameKeys(Find(text, 0, |text|, 0).value, hs, Removable(FindBlocks(text, 0, |text|).value));
  }

  /** The keys of the blocks whose keyword no span covers. */
  ghost function KeysUncovered(fs: seq<Found>, spans: seq<AttrBlock>): seq<Option<Codes>> {
    if fs == [] then []
    else (if Covered(fs[0].keyword, spans) then [] else [fs[0].key]) + KeysUncovered(fs[1..], spans)
  }

  lemma {:induction false} SameKeys(fs: seq<Found>, hs: seq<Hole>, spans: seq<AttrBlock>)
    requires forall p: nat :: InHole(p, hs) <==> Covered(p, spans)
    ensures KeysOutside(fs, hs) == KeysUncovered(fs, spans)
  {
    hide InHole, Covered;
    if fs != [] {
      SameKeys(fs[1..], hs, spans);
    }
  }

  /** A key that is left belongs to a block that no span covers. */
  lemma {:induction false} UncoveredOrigin(fs: seq<Found>, spans: seq<AttrBlock>, key: Option<Codes>) returns (f: Found)
    requires key in KeysUncovered(fs, spans)
    ensures f in fs && f.key == key && !Covered(f.keyword, spans)
  {
    hide Covered;
    if !Covered(fs[0].keyword, spans) && key == fs[0].key {
      f := fs[0];
    } else {
      f := UncoveredOrigin(fs[1..], spans, key);
    }
  }

  lemma GoesByKey(a: AttrBlock, b: AttrBlock)
    requires a.key == b.key
    ensures Goes(a) == Goes(b)
  {
  }

  /** For every accepted text of a document table: if nothing joins across the cuts, the
      rewrite succeeds, and its result is the text without the removable spans. */
  lemma RewriteSucceeds(text: string)
    requires FindBlocks(text, 0, |text|).Ok?
    requires exists b :: b in FindBlocks(text, 0, |text|).value && IsDocument(b)
    requires var spans := Removable(FindBlocks(text, 0, |text|).value);
             forall b :: b in Outermost(spans, spans) ==> b.start <= b.end <= |text| && Smooth(text, b, spans)
    ensures var spans := Removable(FindBlocks(text, 0, |text|).value);
            Rewrite(text) == Ok(Some(Rewritten(Erase(text, 0, spans), Keys(Outermost(spans, spans)))))
  {
    hide Find, BlocksFrom, Smooth, Outermost, Removable, Covered, Erase, Rewrite, KeysOutside, KeysUncovered, Goes,
      Checked;
    var spans := Removable(FindBlocks(text, 0, |text|).value);
    var erased := Erase(text, 0, spans);
    RewriteErases(text);
    ErasedBlocks(text);
    BlocksOfFound(text);
    NoneLeftGoes(text, erased);
    CleanPasses(erased, Keys(Outermost(spans, spans)));
  }

  // ---------- a condition on each span by itself ----------

  /** What follows is no colon, brace, string or semicolon. */
  predicate Ahead(t: string, e: nat)
    requires e <= |t|
  {
    var r := SkipBlanks(t, e, |t|);
    r == |t| || (t[r] != ':' && t[r] != '{' && !IsQuote(t[r]) && t[r] != ';')
  }

  predicate Behind(t: string, s: nat)
    requires s <= |t|
  {
    s == 0 || t[s - 1] != '/'
  }

  lemma AheadWithin(t: string, e: nat, limit: nat)
    requires e <= limit <= |t| && Ahead(t, e)
    ensures var k := SkipBlanks(t, e, limit);
            k < limit ==> t[k] != ':' && t[k] != '{' && !IsQuote(t[k]) && t[k] != ';'
  {
    SkipShorter(t, e, limit, |t|);
  }

  /** Nothing can join this span's surroundings, whatever else is cut. */
  predicate Aside(text: string, b: AttrBlock) {
    b.start < b.end <= |text| && Behind(text, b.start) && Ahead(text, b.end)
  }

  lemma AheadOfNext(t: string, i: nat)
    requires i < |t|
    ensures Ahead(t, i) ==>
              if IsBlank(t[i]) then Ahead(t, i + 1) else t[i] != ':' && t[i] != '{' && !IsQuote(t[i]) && t[i] != ';'
  {
  }

  lemma AheadOfFirst(c: char, rest: string)
    requires if IsBlank(c) then Ahead(rest, 0) else c != ':' && c != '{' && !IsQuote(c) && c != ';'
    ensures Ahead([c] + rest, 0)
  {
    hide IsBlank, IsQuote;
    var t := [c] + rest;
    if IsBlank(c) {
      assert forall p :: 1 <= p < |t| ==> t[p] == rest[p - 1];
      SkipMoved(t, rest, 1);
    }
  }

  lemma {:induction false} SkipMoved(t: string, u: string, d: nat)
    requires d <= |t| && u == t[d..]
    ensures SkipBlanks(t, d, |t|) == SkipBlanks(u, 0, |u|) + d
  {
    SkipMovedFrom(t, u, d, 0);
  }

  lemma {:induction false} SkipMovedFrom(t: string, u: string, d: nat, i: nat)
    requires d <= |t| && u == t[d..] && i <= |u|
    ensures SkipBlanks(t, d + i, |t|) == SkipBlanks(u, i, |u|) + d
    decreases |u| - i
  {
    if i < |u| && IsBlank(u[i]) {
      SkipMovedFrom(t, u, d, i + 1);
    }
  }

  lemma {:induction false} AheadErased(text: string, i: nat, spans: seq<AttrBlock>)
    requires i <= |text| && Ahead(text, i) && forall b :: b in spans ==> Aside(text, b)
    ensures Ahead(Erase(text, i, spans), 0)
    decreases |text| - i
  {
    hide Ahead, Behind, Erase, IsBlank, IsQuote;
    EraseUnfold(text, i, spans);
    if i == |text| {
      NothingAhead();
    } else if Covered(i, spans) {
      var b :| b in spans && b.start <= i < b.end;
      EraseGone(text, i, b.end, spans);
      AheadErased(text, b.end, spans);
    } else {
      AheadOfNext(text, i);
      if IsBlank(text[i]) {
        AheadErased(text, i + 1, spans);
      }
      AheadOfFirst(text[i], Erase(text, i + 1, spans));
    }
  }

  lemma NothingAhead()
    ensures Ahead("", 0)
  {
  }

  lemma AsideIsSmooth(text: string, b: AttrBlock, spans: seq<AttrBlock>)
    requires b in spans && forall c :: c in spans ==> Aside(text, c)
    ensures b.start <= b.end <= |text| && Smooth(text, b, spans)
  {
    hide Erase;
    AheadErased(text, b.end, spans);
    SeamOfAhead(text[..b.start], Erase(text, b.end, spans));
  }

  lemma SeamOfAhead(before: string, after: string)
    requires Ahead(after, 0) && (before != "" ==> before[|before| - 1] != '/')
    ensures Seam(before + after, |before|)
  {
    hide Back, Dangles, SkipBlanks, IsBlank, IsQuote;
    var t := before + after;
    assert t[|before|..] == after;
    SkipMoved(t, after, |before|);
    if |before| < |t| && t[|before|] == ';' {
      SkipNone(after);
    }
  }

  lemma SkipNone(t: string)
    requires t != "" && t[0] == ';'
    ensures SkipBlanks(t, 0, |t|) == 0
  {
  }

  lemma CleanPasses(text: string, removed: seq<Codes>)
    requires FindBlocks(text, 0, |text|).Ok? && forall b :: b in FindBlocks(text, 0, |text|).value ==> !Goes(b)
    ensures Checked(text, removed) == Ok(Some(Rewritten(text, removed)))
  {
    hide BlocksFrom, Goes;
  }

  lemma BlocksOfFound(text: string)
    ensures FindBlocks(text, 0, |text|).Ok? <==> Find(text, 0, |text|, 0).Ok?
    ensures Find(text, 0, |text|, 0).Ok? ==>
              FindBlocks(text, 0, |text|).value == ToBlocks(text, Find(text, 0, |text|, 0).value)
  {
    hide Find, ToBlocks;
  }

  lemma NoneLeftGoes(text: string, erased: string)
    requires Find(text, 0, |text|, 0).Ok? && Find(erased, 0, |erased|, 0).Ok?
    requires KeysOutside(Find(erased, 0, |erased|, 0).value, []) ==
             KeysUncovered(Find(text, 0, |text|, 0).value, Removable(ToBlocks(text, Find(text, 0, |text|, 0).value)))
    ensures FindBlocks(erased, 0, |erased|).Ok? && forall b :: b in FindBlocks(erased, 0, |erased|).value ==> !Goes(b)
  {
    hide Find, BlocksFrom, FindBlocks, Removable, Covered, KeysOutside, KeysUncovered, Goes, ToBlocks, ToBlock;
    BlocksOfFound(erased);
    var fs, gs := Find(text, 0, |text|, 0).value, Find(erased, 0, |erased|, 0).value;
    var blocks := ToBlocks(text, fs);
    KeysOutsideNone(gs);
    forall b | b in FindBlocks(erased, 0, |erased|).value
      ensures !Goes(b)
    {
      var g := BlockHasFound(erased, b);
      BlockKey(erased, g);
      var k :| 0 <= k < |gs| && gs[k] == g;
      assert KeysOutside(gs, [])[k] in KeysOutside(gs, []);
      var f := UncoveredOrigin(fs, Removable(blocks), g.key);
      FoundRegion(text, f);
      BlockKey(text, f);
      GoesByKey(b, ToBlock(text, f));
      FoundInBlocks(text, fs, f);
      UncoveredStays(text, f, blocks);
    }
  }

  lemma FoundInBlocks(text: string, fs: seq<Found>, f: Found)
    requires (forall g :: g in fs ==> InText(text, g)) && f in fs
    ensures ToBlock(text, f) in ToBlocks(text, fs)
  {
    hide DeletionSpan;
    var k :| 0 <= k < |fs| && fs[k] == f;
    assert ToBlocks(text, fs)[k] == ToBlock(text, f);
  }

  lemma UncoveredStays(text: string, f: Found, blocks: seq<AttrBlock>)
    requires InText(text, f) && ToBlock(text, f) in blocks
    requires ToBlock(text, f).start <= f.keyword < ToBlock(text, f).end
    requires !Covered(f.keyword, Removable(blocks))
    ensures !Goes(ToBlock(text, f))
  {
    hide ToBlock, Removable, Goes;
    RemovableMembers(blocks);
  }
}
