/** `rewrite_document_scheme`: which spans go, how the text is cut, and what the result is
    for every text. */
module SchemeRewrite {
  import opened Wrappers
  import opened Order
  import opened SchemeLexer
  import opened SchemeScan
  import opened SchemeSpans

  datatype RewriteError =
    | Unparsed(error: SchemeError)
    | OverlappingBlocks
    | AttributesLeft

  type Outcome<T> = Result<T, RewriteError>

  function Lift<T>(r: Scan<T>): Outcome<T> {
    if r.Err? then Err(Unparsed(r.error)) else Ok(r.value)
  }

  const DOCUMENT_ATTRIBUTE := "__document_api_version"
  const DYNAMODB_ATTRIBUTE_PREFIX := "dynamodb"

  function CodesOf(s: string): Codes {
    seq(|s|, i requires 0 <= i < |s| => s[i] as int)
  }

  predicate AttributeShouldGo(key: Codes) {
    key == CodesOf(DOCUMENT_ATTRIBUTE) || CodesOf(DYNAMODB_ATTRIBUTE_PREFIX) <= key
  }

  predicate IsDocument(b: AttrBlock) {
    b.key == Some(CodesOf(DOCUMENT_ATTRIBUTE))
  }

  predicate Goes(b: AttrBlock) {
    b.key.Some? && AttributeShouldGo(b.key.value)
  }

  function Removable(blocks: seq<AttrBlock>): (r: seq<AttrBlock>)
    ensures forall b :: b in r <==> b in blocks && Goes(b)
  {
    if blocks == [] then []
    else (if Goes(blocks[0]) then [blocks[0]] else []) + Removable(blocks[1..])
  }

  // ---------- sorted(removable, key=(start, -(end - start))) ----------

  predicate SortsBefore(a: AttrBlock, b: AttrBlock) {
    a.start < b.start || (a.start == b.start && a.end > b.end)
  }

  lemma {:induction false} SortedLaminar(n: nat, blocks: seq<AttrBlock>)
    requires Laminar(n, blocks)
    ensures Sort(SortsBefore, blocks) == blocks
  {
    if blocks != [] {
      SortedLaminar(n, blocks[1..]);
      if |blocks| > 1 {
        assert Apart(blocks[0], blocks[1]) || Nested(blocks[0], blocks[1]);
      }
    }
  }

  // ---------- choosing the outermost spans and cutting ----------

  ghost predicate Fits(n: nat, blocks: seq<AttrBlock>) {
    forall b :: b in blocks ==> b.start <= b.end <= n
  }

  /** The loop that fills `chosen`, from the block chosen last. */
  function Choose(spans: seq<AttrBlock>, last: Option<AttrBlock>): Outcome<seq<AttrBlock>> {
    if spans == [] then Ok([])
    else if last.Some? && spans[0].start >= last.value.start && spans[0].end <= last.value.end then
      Choose(spans[1..], last)
    else if last.Some? && spans[0].start < last.value.end then Err(OverlappingBlocks)
    else Prepend([spans[0]], Choose(spans[1..], Some(spans[0])))
  }

  /** The loop that fills `pieces`, joined. */
  function Cut(text: string, chosen: seq<AttrBlock>, cursor: nat): Outcome<string>
    requires cursor <= |text|
    requires Fits(|text|, chosen)
  {
    if chosen == [] then Ok(text[cursor..])
    else if chosen[0].start < cursor then Err(OverlappingBlocks)
    else Prepend(text[cursor..chosen[0].start], Cut(text, chosen[1..], chosen[0].end))
  }

  function Keys(blocks: seq<AttrBlock>): seq<Codes> {
    if blocks == [] then []
    else (if blocks[0].key.Some? then [blocks[0].key.value] else []) + Keys(blocks[1..])
  }

  datatype Rewritten = Rewritten(text: string, removed: seq<Codes>)

  /** The final self-check of the source on the text it is about to return. */
  function Checked(text: string, removed: seq<Codes>): Outcome<Option<Rewritten>> {
    var left :- Lift(FindBlocks(text, 0, |text|));
    if exists b :: b in left && Goes(b) then Err(AttributesLeft)
    else Ok(Some(Rewritten(text, removed)))
  }

  lemma {:induction false} BlocksFit(text: string)
    requires FindBlocks(text, 0, |text|).Ok?
    ensures Fits(|text|, FindBlocks(text, 0, |text|).value)
  {
    hide Find;
    SpansAreLaminar(text);
  }

  lemma {:induction false} ChooseSelects(spans: seq<AttrBlock>, last: Option<AttrBlock>)
    requires Choose(spans, last).Ok?
    ensures forall b :: b in Choose(spans, last).value ==> b in spans
  {
    if spans != [] {
      if last.Some? && spans[0].start >= last.value.start && spans[0].end <= last.value.end {
        ChooseSelects(spans[1..], last);
      } else {
        ChooseSelects(spans[1..], Some(spans[0]));
      }
    }
  }

  ghost function Rewrite(text: string): Outcome<Option<Rewritten>> {
    var blocks :- Lift(FindBlocks(text, 0, |text|));
    if !exists b :: b in blocks && IsDocument(b) then Ok(None)
    else
      var chosen :- Choose(Sort(SortsBefore, Removable(blocks)), None);
      BlocksFit(text);
      ChooseSelects(Sort(SortsBefore, Removable(blocks)), None);
      SortMembers(SortsBefore, Removable(blocks));
      var rewritten :- Cut(text, chosen, 0);
      Checked(rewritten, Keys(chosen))
  }

  function LastOf(chosen: seq<AttrBlock>): Option<AttrBlock> {
    if chosen == [] then None else Some(chosen[|chosen| - 1])
  }

  method ChooseSpans(spans: seq<AttrBlock>) returns (r: Outcome<seq<AttrBlock>>)
    ensures r == Choose(spans, None)
  {
    var chosen: seq<AttrBlock> := [];
    PrependAppend([], [], Choose(spans, None));
    assert spans[0..] == spans;
    for k := 0 to |spans|
      invariant Choose(spans, None) == Prepend(chosen, Choose(spans[k..], LastOf(chosen)))
    {
      var block := spans[k];
      assert spans[k..][1..] == spans[k + 1..];
      if chosen != [] && block.start >= chosen[|chosen| - 1].start && block.end <= chosen[|chosen| - 1].end {
        continue;
      }
      if chosen != [] && block.start < chosen[|chosen| - 1].end {
        return Err(OverlappingBlocks);
      }
      PrependAppend(chosen, [block], Choose(spans[k + 1..], Some(block)));
      chosen := chosen + [block];
    }
    assert chosen + [] == chosen;
    return Ok(chosen);
  }

  method JoinPieces(text: string, chosen: seq<AttrBlock>) returns (r: Outcome<string>)
    requires Fits(|text|, chosen)
    ensures r == Cut(text, chosen, 0)
  {
    var pieces := "";
    var cursor: nat := 0;
    PrependAppend([], [], Cut(text, chosen, 0));
    assert chosen[0..] == chosen;
    for k := 0 to |chosen|
      invariant cursor <= |text|
      invariant Cut(text, chosen, 0) == Prepend(pieces, Cut(text, chosen[k..], cursor))
    {
      var block := chosen[k];
      assert block in chosen && chosen[k..][1..] == chosen[k + 1..];
      if block.start < cursor {
        return Err(OverlappingBlocks);
      }
      PrependAppend(pieces, text[cursor..block.start], Cut(text, chosen[k + 1..], block.end));
      pieces := pieces + text[cursor..block.start];
      cursor := block.end;
    }
    return Ok(pieces + text[cursor..]);
  }

  method RewriteDocumentScheme(text: string) returns (r: Outcome<Option<Rewritten>>)
    ensures r == Rewrite(text)
  {
    hide Find, BlocksFrom, Choose, Cut, Sorted;
    var blocks := FindAttributeBlocks(text, 0, |text|);
    if blocks.Err? {
      return Err(Unparsed(blocks.error));
    }
    if !exists b :: b in blocks.value && IsDocument(b) {
      return Ok(None);
    }
    var removable := Removable(blocks.value);
    if !exists b :: b in removable && IsDocument(b) {
      return Ok(None);
    }
    var spans := Sort(SortsBefore, removable);
    var chosen := ChooseSpans(spans);
    if chosen.Err? {
      return Err(chosen.error);
    }
    BlocksFit(text);
    ChooseSelects(spans, None);
    SortMembers(SortsBefore, removable);
    var rewritten := JoinPieces(text, chosen.value);
    if rewritten.Err? {
      return Err(rewritten.error);
    }
    var left := FindAttributeBlocks(rewritten.value, 0, |rewritten.value|);
    if left.Err? {
      return Err(Unparsed(left.error));
    }
    if exists b :: b in left.value && Goes(b) {
      return Err(AttributesLeft);
    }
    return Ok(Some(Rewritten(rewritten.value, Keys(chosen.value))));
  }

  // ---------- what the rewrite does to any text ----------

  /** Position p lies in one of the spans. */
  ghost predicate Covered(p: nat, spans: seq<AttrBlock>) {
    exists b :: b in spans && b.start <= p < b.end
  }

  lemma CoveredCons(b: AttrBlock, rest: seq<AttrBlock>)
    ensures forall p: nat :: Covered(p, [b] + rest) <==> b.start <= p < b.end || Covered(p, rest)
  {
    forall p: nat
      ensures Covered(p, [b] + rest) <==> b.start <= p < b.end || Covered(p, rest)
    {
      assert forall c :: c in [b] + rest <==> c == b || c in rest;
    }
  }

  /** The characters of text[i..] that no span covers, in order. */
  ghost function Erase(text: string, i: nat, spans: seq<AttrBlock>): string
    requires i <= |text|
    decreases |text| - i
  {
    if i == |text| then ""
    else (if Covered(i, spans) then "" else [text[i]]) + Erase(text, i + 1, spans)
  }

  lemma EraseUnfold(text: string, i: nat, spans: seq<AttrBlock>)
    requires i <= |text|
    ensures i == |text| ==> Erase(text, i, spans) == ""
    ensures i < |text| ==>
              Erase(text, i, spans) == (if Covered(i, spans) then "" else [text[i]]) + Erase(text, i + 1, spans)
  {
    hide Covered;
  }

  lemma {:induction false} EraseSame(text: string, i: nat, a: seq<AttrBlock>, b: seq<AttrBlock>)
    requires i <= |text|
    requires forall p: nat :: i <= p ==> Covered(p, a) == Covered(p, b)
    ensures Erase(text, i, a) == Erase(text, i, b)
    decreases |text| - i
  {
    hide Covered, Erase;
    EraseUnfold(text, i, a);
    EraseUnfold(text, i, b);
    if i < |text| {
      EraseSame(text, i + 1, a, b);
    }
  }

  lemma MoveFirst(text: string, i: nat, j: nat, rest: string)
    requires i < j <= |text|
    ensures [text[i]] + (text[i + 1..j] + rest) == text[i..j] + rest
  {
    assert text[i..j] == [text[i]] + text[i + 1..j];
  }

  lemma NothingBefore(text: string, i: nat, rest: string)
    requires i <= |text|
    ensures text[i..i] + rest == rest
  {
    assert text[i..i] == "";
  }

  lemma {:induction false} EraseKept(text: string, i: nat, j: nat, spans: seq<AttrBlock>)
    requires i <= j <= |text|
    requires forall p: nat :: i <= p < j ==> !Covered(p, spans)
    ensures Erase(text, i, spans) == text[i..j] + Erase(text, j, spans)
    decreases j - i
  {
    hide Covered;
    if i == j {
      NothingBefore(text, i, Erase(text, j, spans));
    } else {
      EraseKept(text, i + 1, j, spans);
      MoveFirst(text, i, j, Erase(text, j, spans));
    }
  }

  lemma {:induction false} EraseGone(text: string, i: nat, j: nat, spans: seq<AttrBlock>)
    requires i <= j <= |text|
    requires forall p: nat :: i <= p < j ==> Covered(p, spans)
    ensures Erase(text, i, spans) == Erase(text, j, spans)
    decreases j - i
  {
    if i < j {
      EraseGone(text, i + 1, j, spans);
    }
  }

  /** Spans in order, each after the one before. */
  ghost predicate Separate(n: nat, cursor: nat, spans: seq<AttrBlock>) {
    && (forall k :: 0 <= k < |spans| ==> cursor <= spans[k].start < spans[k].end <= n)
    && (forall a, b :: 0 <= a < b < |spans| ==> Apart(spans[a], spans[b]))
  }

  lemma {:induction false} CutErases(text: string, chosen: seq<AttrBlock>, cursor: nat)
    requires cursor <= |text| && Separate(|text|, cursor, chosen)
    ensures Fits(|text|, chosen)
    ensures Cut(text, chosen, cursor) == Ok(Erase(text, cursor, chosen))
  {
    if chosen == [] {
      EraseKept(text, cursor, |text|, chosen);
      assert text[cursor..|text|] + "" == text[cursor..];
    } else {
      var b := chosen[0];
      assert forall k :: 0 < k < |chosen| ==> Apart(b, chosen[k]);
      EraseKept(text, cursor, b.start, chosen);
      assert forall p: nat :: b.start <= p < b.end ==> b in chosen && Covered(p, chosen);
      EraseGone(text, b.start, b.end, chosen);
      CutErases(text, chosen[1..], b.end);
      forall p: nat | b.end <= p
        ensures Covered(p, chosen) == Covered(p, chosen[1..])
      {
      }
      EraseSame(text, b.end, chosen, chosen[1..]);
    }
  }

  /** The spans not nested in another one. */
  ghost function Outermost(part: seq<AttrBlock>, all: seq<AttrBlock>): seq<AttrBlock> {
    if part == [] then []
    else (if exists c :: c in all && Nested(c, part[0]) then [] else [part[0]]) + Outermost(part[1..], all)
  }

  /** The state of the choosing loop before element k of a laminar list. */
  ghost predicate ChosenSoFar(all: seq<AttrBlock>, k: nat, last: Option<AttrBlock>)
    requires k <= |all|
  {
    && (last.None? <==> k == 0)
    && (last.Some? ==> last.value in all[..k] && forall c :: c in all[..k] ==> c.end <= last.value.end)
  }

  lemma ChosenStep(n: nat, all: seq<AttrBlock>, k: nat, last: Option<AttrBlock>)
    requires Laminar(n, all) && k < |all| && ChosenSoFar(all, k, last)
    ensures last.Some? ==> Apart(last.value, all[k]) || Nested(last.value, all[k])
    ensures all[k].start < all[k].end <= n
    ensures (exists c :: c in all && Nested(c, all[k])) <==> last.Some? && Nested(last.value, all[k])
    ensures ChosenSoFar(all, k + 1, if last.Some? && Nested(last.value, all[k]) then last else Some(all[k]))
  {
    assert all[..k + 1] == all[..k] + [all[k]];
    if last.Some? {
      assert Apart(last.value, all[k]) || Nested(last.value, all[k]);
    }
    forall c | c in all && Nested(c, all[k])
      ensures c in all[..k]
    {
      var j :| 0 <= j < |all| && all[j] == c;
      assert j <= k;
    }
  }

  lemma SeparateCons(n: nat, cursor: nat, b: AttrBlock, rest: seq<AttrBlock>)
    requires cursor <= b.start < b.end <= n && Separate(n, b.end, rest)
    ensures Separate(n, cursor, [b] + rest)
  {
  }

  lemma {:induction false} ChooseOutermost(n: nat, all: seq<AttrBlock>, k: nat, last: Option<AttrBlock>)
    requires Laminar(n, all) && k <= |all| && ChosenSoFar(all, k, last)
    ensures Choose(all[k..], last) == Ok(Outermost(all[k..], all))
    ensures Separate(n, if last.Some? then last.value.end else 0, Outermost(all[k..], all))
    ensures forall p: nat :: Covered(p, Outermost(all[k..], all)) ==> Covered(p, all[k..])
    ensures forall p: nat :: Covered(p, all[k..]) ==>
              Covered(p, Outermost(all[k..], all)) || (last.Some? && last.value.start <= p < last.value.end)
    decreases |all| - k
  {
    hide Covered, Laminar, ChosenSoFar;
    if k == |all| {
      assert Separate(n, if last.Some? then last.value.end else 0, []);
    } else {
      var b := all[k];
      ChosenStep(n, all, k, last);
      assert all[k..] == [b] + all[k + 1..];
      CoveredCons(b, all[k + 1..]);
      if last.Some? && Nested(last.value, b) {
        ChooseOutermost(n, all, k + 1, last);
        assert Outermost(all[k..], all) == Outermost(all[k + 1..], all);
      } else {
        ChooseOutermost(n, all, k + 1, Some(b));
        assert Outermost(all[k..], all) == [b] + Outermost(all[k + 1..], all);
        CoveredCons(b, Outermost(all[k + 1..], all));
        SeparateCons(n, if last.Some? then last.value.end else 0, b, Outermost(all[k + 1..], all));
      }
    }
  }

  lemma LaminarCons(n: nat, b: AttrBlock, rest: seq<AttrBlock>)
    requires b.start < b.end <= n && Laminar(n, rest)
    requires forall c :: c in rest ==> Apart(b, c) || Nested(b, c)
    ensures Laminar(n, [b] + rest)
  {
  }

  lemma {:induction false} RemovableLaminar(n: nat, blocks: seq<AttrBlock>)
    requires Laminar(n, blocks)
    ensures Laminar(n, Removable(blocks))
  {
    hide Laminar, Goes;
    if blocks == [] {
      NoneLaminar(n);
    } else {
      LaminarTail(n, blocks);
      RemovableLaminar(n, blocks[1..]);
      LaminarCons(n, blocks[0], Removable(blocks[1..]));
      assert [] + Removable(blocks[1..]) == Removable(blocks[1..]);
    }
  }

  lemma NoneLaminar(n: nat)
    ensures Laminar(n, [])
  {
  }

  lemma LaminarTail(n: nat, blocks: seq<AttrBlock>)
    requires blocks != [] && Laminar(n, blocks)
    ensures Laminar(n, blocks[1..]) && blocks[0].start < blocks[0].end <= n
    ensures forall c :: c in blocks[1..] ==> Apart(blocks[0], c) || Nested(blocks[0], c)
  {
    forall c | c in blocks[1..]
      ensures Apart(blocks[0], c) || Nested(blocks[0], c)
    {
      var j :| 0 <= j < |blocks[1..]| && blocks[1..][j] == c;
      assert blocks[j + 1] == c;
    }
  }

  lemma {:induction false} LaminarErases(text: string, spans: seq<AttrBlock>)
    requires Laminar(|text|, spans)
    ensures var chosen := Outermost(spans, spans);
            && Choose(Sort(SortsBefore, spans), None) == Ok(chosen)
            && Fits(|text|, chosen)
            && Cut(text, chosen, 0) == Ok(Erase(text, 0, spans))
  {
    hide Choose, Cut, Sorted, Outermost, Erase, Laminar, Separate;
    SortedLaminar(|text|, spans);
    assert spans[0..] == spans;
    ChooseOutermost(|text|, spans, 0, None);
    var chosen := Outermost(spans, spans);
    CutErases(text, chosen, 0);
    EraseSame(text, 0, chosen, spans);
  }

  lemma CheckedNeverOverlaps(text: string, removed: seq<Codes>)
    ensures Checked(text, removed) != Err(OverlappingBlocks)
  {
    hide BlocksFrom;
  }

  /** For every text the scanner accepts: the text of a document table becomes the text
      minus exactly the characters inside removable spans, the names reported are the
      outermost ones in order, and neither "overlapping blocks" error can happen. */
  lemma {:induction false} RewriteErases(text: string)
    requires FindBlocks(text, 0, |text|).Ok?
    ensures var blocks := FindBlocks(text, 0, |text|).value;
            var spans := Removable(blocks);
            if exists b :: b in blocks && IsDocument(b)
            then Rewrite(text) == Checked(Erase(text, 0, spans), Keys(Outermost(spans, spans)))
            else Rewrite(text) == Ok(None)
    ensures Rewrite(text) != Err(OverlappingBlocks)
  {
    hide Find, BlocksFrom, Choose, Cut, Sorted, Outermost, Erase, Covered, Laminar, Separate, Checked;
    var blocks := FindBlocks(text, 0, |text|).value;
    if exists b :: b in blocks && IsDocument(b) {
      SpansAreLaminar(text);
      var spans := Removable(blocks);
      RemovableLaminar(|text|, blocks);
      LaminarErases(text, spans);
      CheckedNeverOverlaps(Erase(text, 0, spans), Keys(Outermost(spans, spans)));
    }
  }

  /** A text the rewrite produced is left alone by another rewrite. */
  lemma {:induction false} RewriteSettles(text: string)
    requires Rewrite(text).Ok? && Rewrite(text).value.Some?
    ensures Rewrite(Rewrite(text).value.value.text) == Ok(None)
  {
    hide FindBlocks, Choose, Cut, Sorted, Checked, Removable;
    var chosen := Choose(Sort(SortsBefore, Removable(FindBlocks(text, 0, |text|).value)), None).value;
    BlocksFit(text);
    ChooseSelects(Sort(SortsBefore, Removable(FindBlocks(text, 0, |text|).value)), None);
    SortMembers(SortsBefore, Removable(FindBlocks(text, 0, |text|).value));
    var result := Cut(text, chosen, 0).value;
    CheckedIsClean(result, Keys(chosen));
    CleanIsSettled(result);
  }

  lemma CheckedIsClean(text: string, removed: seq<Codes>)
    requires Checked(text, removed).Ok? && Checked(text, removed).value.Some?
    ensures Checked(text, removed).value.value.text == text
    ensures FindBlocks(text, 0, |text|).Ok? && forall b :: b in FindBlocks(text, 0, |text|).value ==> !Goes(b)
  {
    hide BlocksFrom;
  }

  lemma CleanIsSettled(text: string)
    requires FindBlocks(text, 0, |text|).Ok? && forall b :: b in FindBlocks(text, 0, |text|).value ==> !Goes(b)
    ensures Rewrite(text) == Ok(None)
  {
    hide BlocksFrom;
    assert forall b :: IsDocument(b) ==> Goes(b);
  }

  lemma {:induction false} EraseShortens(text: string, i: nat, p: nat, spans: seq<AttrBlock>)
    requires i <= |text|
    ensures |Erase(text, i, spans)| <= |text| - i
    ensures i <= p < |text| && Covered(p, spans) ==> |Erase(text, i, spans)| < |text| - i
    decreases |text| - i
  {
    hide Covered, Erase;
    EraseUnfold(text, i, spans);
    if i < |text| {
      EraseShortens(text, i + 1, p, spans);
    }
  }

  /** A rewritten text is shorter than the original, so "the edit changed nothing" cannot happen. */
  lemma {:induction false} RewriteShortens(text: string)
    requires Rewrite(text).Ok? && Rewrite(text).value.Some?
    ensures |Rewrite(text).value.value.text| < |text|
  {
    hide BlocksFrom, Checked, Erase, Rewrite, Outermost;
    RewriteScans(text);
    var blocks := FindBlocks(text, 0, |text|).value;
    RewriteErases(text);
    SpansAreLaminar(text);
    var b :| b in blocks && IsDocument(b);
    assert b in Removable(blocks) && Covered(b.start, Removable(blocks));
    EraseShortens(text, 0, b.start, Removable(blocks));
    CheckedIsClean(Erase(text, 0, Removable(blocks)), Keys(Outermost(Removable(blocks), Removable(blocks))));
  }

  lemma RewriteScans(text: string)
    requires Rewrite(text).Ok?
    ensures FindBlocks(text, 0, |text|).Ok?
  {
    hide BlocksFrom;
  }
}
