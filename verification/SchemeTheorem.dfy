/** The meaning of the rewrite on printed schemes, in a free layout: the result prints the same
    tree with exactly the document attributes removed. */
module SchemeTheorem {
  import opened Wrappers
  import opened SchemeScan
  import opened SchemeSpans
  import opened SchemeRewrite
  import opened SchemeResult
  import opened SchemePrint
  import opened SchemeTree
  import opened SchemeBlocks
  import opened SchemePrune
  import opened SchemeErase

  // ---------- the names reported ----------

  lemma {:induction false} KeysConcat(a: seq<AttrBlock>, b: seq<AttrBlock>)
    ensures Keys(a + b) == Keys(a) + Keys(b)
  {
    if a == [] {
      assert [] + b == b;
    } else {
      assert (a + b)[1..] == a[1..] + b;
      KeysConcat(a[1..], b);
    }
  }

  lemma {:induction false} OutermostConcat(a: seq<AttrBlock>, b: seq<AttrBlock>, all: seq<AttrBlock>)
    ensures Outermost(a + b, all) == Outermost(a, all) + Outermost(b, all)
    ensures Keys(Outermost(a + b, all)) == Keys(Outermost(a, all)) + Keys(Outermost(b, all))
  {
    hide Nested, Keys;
    if a == [] {
      assert [] + b == b;
    } else {
      assert (a + b)[1..] == a[1..] + b;
      OutermostConcat(a[1..], b, all);
    }
    KeysConcat(Outermost(a, all), Outermost(b, all));
  }

  lemma {:induction false} AllNested(part: seq<AttrBlock>, c: AttrBlock, all: seq<AttrBlock>)
    requires c in all && forall b :: b in part ==> Nested(c, b)
    ensures Outermost(part, all) == []
  {
    if part != [] {
      assert Nested(c, part[0]);
      AllNested(part[1..], c, all);
    }
  }

  /** Every span of `all` that is not among `blocks` lies outside i..j. */
  ghost predicate Surrounds(all: seq<AttrBlock>, blocks: seq<AttrBlock>, i: nat, j: nat) {
    && (forall c :: c in all ==> c in Removable(blocks) || c.end <= i || j <= c.start)
    && (forall c :: c in Removable(blocks) ==> c in all)
  }

  lemma SurroundsSplit(all: seq<AttrBlock>, a: seq<AttrBlock>, b: seq<AttrBlock>, i: nat, m: nat, j: nat)
    requires i <= m <= j && Surrounds(all, a + b, i, j) && Between(a, i, m) && Between(b, m, j)
    ensures Surrounds(all, a, i, m) && Surrounds(all, b, m, j)
    ensures Removable(a + b) == Removable(a) + Removable(b)
  {
    RemovableConcat(a, b);
  }

  lemma {:induction false} NamesOfItems(items: seq<Item>, i: nat, all: seq<AttrBlock>, begins: bool)
    requires Surrounds(all, BlocksOf(items, i, begins), i, i + |Print(items)|)
    ensures Keys(Outermost(Removable(BlocksOf(items, i, begins)), all)) == RemovedNames(items)
    decreases items, 0
  {
    hide PrintItem, Surrounds, ItemBlocks, Between, Outermost, RemovedItem, Removable, EndsFresh;
    if items != [] {
      var it, m, j := items[0], i + |PrintItem(items[0])|, i + |Print(items)|;
      var rest := BlocksOf(items[1..], m, EndsFresh(it));
      ItemBlocksWithin(it, i, begins);
      BlocksWithin(items[1..], m, EndsFresh(it));
      SurroundsSplit(all, ItemBlocks(it, i, begins), rest, i, m, j);
      NamesOfItem(it, i, all, begins);
      NamesOfItems(items[1..], m, all, EndsFresh(it));
      OutermostConcat(Removable(ItemBlocks(it, i, begins)), Removable(rest), all);
    } else {
      NoNames(all);
    }
  }

  lemma NoNames(all: seq<AttrBlock>)
    ensures Keys(Outermost(Removable([]), all)) == []
  {
  }

  lemma {:induction false} NamesOfItem(it: Item, i: nat, all: seq<AttrBlock>, begins: bool)
    requires Surrounds(all, ItemBlocks(it, i, begins), i, i + |PrintItem(it)|)
    ensures Keys(Outermost(Removable(ItemBlocks(it, i, begins)), all)) == RemovedItem(it)
    decreases it, 1
  {
    hide PrintItem, BodyAt, BlocksOf, KeyOf, Print, RemovedNames, SpanOf, EndsLine, Removable, Outermost, Keys;
    if it.Message? {
      var j, body := i + |PrintItem(it)|, BlocksOf(it.body, BodyAt(it, i), EndsLine(it.openEol));
      ItemBlocksWithin(it, i, begins);
      if IsAttributes(it) {
        RemovableFirst(BlockOf(it, i, begins), body);
        assert [] + Removable(body) == Removable(body);
      }
      if GoesItem(it) {
        NamesOfGoing(it, i, all, begins);
      } else {
        assert Removable(ItemBlocks(it, i, begins)) == Removable(body);
        BodySurrounds(it, i, all, begins);
        NamesOfItems(it.body, BodyAt(it, i), all, EndsLine(it.openEol));
      }
    } else {
      NoNames(all);
    }
  }

  lemma BodySurrounds(it: Item, i: nat, all: seq<AttrBlock>, begins: bool)
    requires it.Message? && Surrounds(all, ItemBlocks(it, i, begins), i, i + |PrintItem(it)|)
    requires Removable(ItemBlocks(it, i, begins)) == Removable(BlocksOf(it.body, BodyAt(it, i), EndsLine(it.openEol)))
    ensures Surrounds(all, BlocksOf(it.body, BodyAt(it, i), EndsLine(it.openEol)), BodyAt(it, i),
            BodyAt(it, i) + |Print(it.body)|)
  {
    hide PrintItem, BodyAt, BlocksOf, KeyOf, Print, Removable, ItemBlocks, EndsLine;
    ItemBlocksWithin(it, i, begins);
    FootIsThere(it, i);
  }

  lemma NamesOfGoing(it: Item, i: nat, all: seq<AttrBlock>, begins: bool)
    requires GoesItem(it) && Surrounds(all, ItemBlocks(it, i, begins), i, i + |PrintItem(it)|)
    ensures Keys(Outermost(Removable(ItemBlocks(it, i, begins)), all)) == [KeyOf(it.body).value]
  {
    hide PrintItem, BodyAt, BlocksOf, KeyOf, Print, SpanOf, EndsLine, FootAt, ContentEndAt, KeywordAt, Removable,
      AttributeShouldGo;
    var b, body := BlockOf(it, i, begins), BlocksOf(it.body, BodyAt(it, i), EndsLine(it.openEol));
    RemovableFirst(b, body);
    SpanWithin(it, i, begins);
    ItemBlocksWithin(it, i, begins);
    RemovableMembers(body);
    assert Removable(ItemBlocks(it, i, begins)) == [b] + Removable(body);
    assert b in [b] + Removable(body);
    forall c | c in all
      ensures !Nested(c, b)
    {
      assert c in [b] + Removable(body) ==> c == b || c in body;
    }
    AllNested(Removable(body), b, all);
    assert ([b] + Removable(body))[1..] == Removable(body);
    OneName(b);
  }

  lemma OneName(b: AttrBlock)
    requires b.key.Some?
    ensures Keys([b]) == [b.key.value]
    ensures [b] + [] == [b]
  {
    assert [b][1..] == [];
  }

  // ---------- the theorem ----------

  /** Rewriting a printed scheme succeeds.  Without a `__document_api_version` attribute
      nothing is to be done; with one, the result is the print of the same tree with
      exactly the document attributes removed, and their names in file order. */
  lemma {:induction false} RewritePrintsPruned(items: seq<Item>)
    requires Good(items)
    ensures Rewrite(Print(items)) ==
            if HasDocument(items) then Ok(Some(Rewritten(Print(Prune(items, true)), RemovedNames(items))))
            else Ok(None)
  {
    hide BlocksFrom, BlocksOf, Print, Prune, Good, Erase, Outermost, Removable, FindBlocks, Rewrite, HasDocument,
      RemovedNames, BeforeItem, AfterItem, Smooth, Aside;
    var text, blocks := Print(items), BlocksOf(items, 0, true);
    var spans := Removable(blocks);
    PrintedBlocks(items);
    DocumentBlocks(items, 0, true);
    RewriteErases(text);
    if HasDocument(items) {
      AllIsText(text);
      AgreesItself(blocks, |text|);
      EraseItems(text, 0, items, |text|, spans, true);
      EraseEnd(text, spans, Print(Prune(items, true)));
      SurroundsItself(blocks, |text|);
      NamesOfItems(items, 0, spans, true);
      StartIsBefore(text);
      EndIsAfter(text);
      AsideItems(text, 0, items, |text|, true);
      AllAsideAreSmooth(text, blocks);
      RewriteSucceeds(text);
    }
  }

  lemma AllAsideAreSmooth(text: string, blocks: seq<AttrBlock>)
    requires AllAside(text, blocks)
    ensures var spans := Removable(blocks);
            forall b :: b in Outermost(spans, spans) ==> b.start <= b.end <= |text| && Smooth(text, b, spans)
  {
    hide Aside, Smooth, Removable, Outermost;
    var spans := Removable(blocks);
    RemovableMembers(blocks);
    OutermostMembers(spans, spans);
    forall b | b in Outermost(spans, spans)
      ensures b.start <= b.end <= |text| && Smooth(text, b, spans)
    {
      AsideIsSmooth(text, b, spans);
    }
  }

  lemma AllIsText(text: string)
    ensures At(text, 0, text)
  {
  }

  lemma AgreesItself(blocks: seq<AttrBlock>, n: nat)
    ensures Agrees(Removable(blocks), blocks, 0, n)
  {
  }

  lemma SurroundsItself(blocks: seq<AttrBlock>, n: nat)
    ensures Surrounds(Removable(blocks), blocks, 0, n)
  {
  }

  lemma EraseEnd(text: string, spans: seq<AttrBlock>, kept: string)
    ensures kept + Erase(text, |text|, spans) == kept
  {
  }

  /** Rewriting the result again changes nothing: no document attribute is left in it. */
  lemma {:induction false} PrunedIsSettled(items: seq<Item>)
    requires Good(items) && HasDocument(items)
    ensures Rewrite(Print(Prune(items, true))) == Ok(None)
    ensures !HasDocument(Prune(items, true))
  {
    hide Rewrite, Print, Prune, HasDocument, Good, BlocksOf;
    RewritePrintsPruned(items);
    RewriteSettles(Print(items));
    PrunedHasNone(items, true);
  }
}
