/** Erasing the removable spans of a printed tree prints the pruned tree. */
module SchemeErase {
  import opened SchemeScan
  import opened SchemeRewrite
  import opened SchemePrint
  import opened SchemeLines
  import opened SchemeTree
  import opened SchemeBlocks
  import opened SchemePrune

  // ---------- the tree's blocks and its document attributes ----------

  lemma {:induction false} DocumentBlocks(items: seq<Item>, i: nat, begins: bool)
    ensures (exists b :: b in BlocksOf(items, i, begins) && IsDocument(b)) <==> HasDocument(items)
    decreases items, 0
  {
    hide PrintItem, KeyOf, BodyAt, EndsFresh, EndsLine, ItemBlocks, HasDocumentItem;
    if items != [] {
      var it, m := items[0], i + |PrintItem(items[0])|;
      DocumentBlocks(items[1..], m, EndsFresh(it));
      if it.Message? {
        DocumentBlocks(it.body, BodyAt(it, i), EndsLine(it.openEol));
      }
      assert forall b :: b in BlocksOf(items, i, begins) <==>
             b in ItemBlocks(it, i, begins) || b in BlocksOf(items[1..], m, EndsFresh(it));
      DocumentItemBlocks(it, i, begins);
    }
  }

  lemma DocumentItemBlocks(it: Item, i: nat, begins: bool)
    requires it.Message? ==>
               ((exists b :: b in BlocksOf(it.body, BodyAt(it, i), EndsLine(it.openEol)) && IsDocument(b)) <==>
                 HasDocument(it.body))
    ensures (exists b :: b in ItemBlocks(it, i, begins) && IsDocument(b)) <==> HasDocumentItem(it)
  {
    hide PrintItem, KeyOf, BodyAt, BlocksOf, HasDocument, EndsLine, SpanOf;
    if IsAttributes(it) {
      var b, body := BlockOf(it, i, begins), BlocksOf(it.body, BodyAt(it, i), EndsLine(it.openEol));
      assert ItemBlocks(it, i, begins) == [b] + body;
      assert b in ItemBlocks(it, i, begins);
      assert forall c :: c in ItemBlocks(it, i, begins) <==> c == b || c in body;
    }
  }

  // ---------- erasing the spans of a printed tree ----------

  predicate Between(blocks: seq<AttrBlock>, i: nat, j: nat) {
    forall b :: b in blocks ==> i <= b.start < b.end <= j
  }

  lemma {:induction false} BlocksWithin(items: seq<Item>, i: nat, begins: bool)
    ensures Between(BlocksOf(items, i, begins), i, i + |Print(items)|)
    decreases items, 0
  {
    hide PrintItem, KeyOf, BodyAt, ItemBlocks, EndsFresh;
    if items != [] {
      ItemBlocksWithin(items[0], i, begins);
      BlocksWithin(items[1..], i + |PrintItem(items[0])|, EndsFresh(items[0]));
    }
  }

  lemma SpanWithin(it: Item, i: nat, begins: bool)
    requires it.Message?
    ensures i <= SpanOf(it, i, begins).0 <= KeywordAt(it, i) < BodyAt(it, i) <= FootAt(it, i) < ContentEndAt(it, i)
    ensures ContentEndAt(it, i) <= SpanOf(it, i, begins).1 <= i + |PrintItem(it)|
    ensures i + |PrintItem(it)| == ContentEndAt(it, i) + |it.eol|
  {
    hide Print, PrintItem;
    MessageLength(it, i);
    EolEnd(it.eol);
  }

  lemma EolEnd(eol: string)
    ensures 0 <= SpanEnd(eol, 0) <= |eol|
  {
  }

  lemma {:induction false} ItemBlocksWithin(it: Item, i: nat, begins: bool)
    ensures Between(ItemBlocks(it, i, begins), i, i + |PrintItem(it)|)
    ensures it.Message? ==> i < BodyAt(it, i) <= FootAt(it, i) < i + |PrintItem(it)|
    ensures it.Message? ==> Between(BlocksOf(it.body, BodyAt(it, i), EndsLine(it.openEol)), BodyAt(it, i),
            FootAt(it, i))
    decreases it, 1
  {
    hide KeyOf, Print, PrintItem, SpanOf, BodyAt, ContentEndAt, KeywordAt, EndsLine, BlocksOf;
    if it.Message? {
      SpanWithin(it, i, begins);
      BlocksWithin(it.body, BodyAt(it, i), EndsLine(it.openEol));
      FootIsThere(it, i);
    }
  }

  lemma FootIsThere(it: Item, i: nat)
    requires it.Message?
    ensures FootAt(it, i) == BodyAt(it, i) + |Print(it.body)|
  {
    hide Print, BodyAt;
  }

  lemma {:induction false} RemovableConcat(a: seq<AttrBlock>, b: seq<AttrBlock>)
    ensures Removable(a + b) == Removable(a) + Removable(b)
  {
    if a == [] {
      assert [] + b == b;
    } else {
      assert (a + b)[1..] == a[1..] + b;
      RemovableConcat(a[1..], b);
    }
  }

  lemma CoveredConcat(a: seq<AttrBlock>, b: seq<AttrBlock>)
    ensures forall p: nat :: Covered(p, a + b) <==> Covered(p, a) || Covered(p, b)
  {
    assert forall c :: c in a + b <==> c in a || c in b;
  }

  lemma WithinCovers(blocks: seq<AttrBlock>, i: nat, j: nat)
    requires Between(blocks, i, j)
    ensures forall p: nat :: Covered(p, Removable(blocks)) ==> i <= p < j
  {
  }

  /** On i..j the spans cover what the removable blocks cover. */
  ghost predicate Agrees(spans: seq<AttrBlock>, blocks: seq<AttrBlock>, i: nat, j: nat) {
    forall p: nat :: i <= p < j ==> (Covered(p, spans) <==> Covered(p, Removable(blocks)))
  }

  lemma AgreesSplit(spans: seq<AttrBlock>, a: seq<AttrBlock>, b: seq<AttrBlock>, i: nat, m: nat, j: nat)
    requires i <= m <= j && Agrees(spans, a + b, i, j)
    requires Between(a, i, m) && Between(b, m, j)
    ensures Agrees(spans, a, i, m) && Agrees(spans, b, m, j)
  {
    hide Covered, Between, Removable;
    RemovableConcat(a, b);
    CoveredConcat(Removable(a), Removable(b));
    WithinCovers(a, i, m);
    WithinCovers(b, m, j);
  }

  lemma {:induction false} EraseItems(text: string, i: nat, items: seq<Item>, j: nat, spans: seq<AttrBlock>,
                                      begins: bool)
    requires Good(items) && At(text, i, Print(items)) && j == i + |Print(items)|
    requires Agrees(spans, BlocksOf(items, i, begins), i, j)
    ensures j <= |text| && Erase(text, i, spans) == Print(Prune(items, begins)) + Erase(text, j, spans)
    decreases items, 0
  {
    hide At, PrintItem, Agrees, ItemBlocks, Erase, Between, PruneItem, EndsFresh, GoodItem, SetOff;
    if items == [] {
      NoText(text, i, spans);
    } else {
      var it, m := items[0], i + |PrintItem(items[0])|;
      var rest, rest' := items[1..], Prune(items[1..], EndsFresh(items[0]));
      AtConcat(text, i, PrintItem(it), Print(rest));
      ItemBlocksWithin(it, i, begins);
      BlocksWithin(rest, m, EndsFresh(it));
      AgreesSplit(spans, ItemBlocks(it, i, begins), BlocksOf(rest, m, EndsFresh(it)), i, m, j);
      EraseItem(text, i, it, m, spans, begins);
      EraseItems(text, m, rest, j, spans, EndsFresh(it));
      PrintConcat(PruneItem(it, begins), rest');
      JoinParts(Print(PruneItem(it, begins)), Print(rest'), Erase(text, j, spans));
    }
  }

  lemma NoText(text: string, i: nat, spans: seq<AttrBlock>)
    requires At(text, i, "")
    ensures i <= |text| && Erase(text, i, spans) == "" + Erase(text, i, spans)
  {
  }

  lemma {:induction false} PrintConcat(a: seq<Item>, b: seq<Item>)
    ensures Print(a + b) == Print(a) + Print(b)
  {
    hide PrintItem;
    if a == [] {
      assert [] + b == b;
    } else {
      assert (a + b)[1..] == a[1..] + b;
      PrintConcat(a[1..], b);
      assert PrintItem(a[0]) + (Print(a[1..]) + Print(b)) == PrintItem(a[0]) + Print(a[1..]) + Print(b);
    }
  }

  lemma {:induction false} EraseItem(text: string, i: nat, it: Item, j: nat, spans: seq<AttrBlock>, begins: bool)
    requires GoodItem(it) && At(text, i, PrintItem(it)) && j == i + |PrintItem(it)|
    requires Agrees(spans, ItemBlocks(it, i, begins), i, j)
    ensures j <= |text| && Erase(text, i, spans) == Print(PruneItem(it, begins)) + Erase(text, j, spans)
    decreases it, 1
  {
    hide Erase, PrintItem, Prune, BlocksOf, Covered, Removable, KeyOf, GoodItem, Residue, EndsLine;
    AtSlice(text, i, PrintItem(it));
    if GoesItem(it) {
      EraseGoing(text, i, it, j, spans, begins);
      PrintBlank(Residue(it, begins));
    } else if it.Message? {
      EraseMessage(text, i, it, j, spans, begins);
      PrintOne(it.(body := Prune(it.body, EndsLine(it.openEol))));
    } else {
      NothingCovered(it, i, j, spans, begins);
      EraseKept(text, i, j, spans);
      PrintOne(it);
    }
  }

  lemma PrintBlank(blanks: string)
    ensures Print([Blank(blanks)]) == blanks
  {
    assert blanks + "" == blanks;
  }

  lemma PrintOne(it: Item)
    ensures Print([it]) == PrintItem(it)
  {
    hide PrintItem;
    assert PrintItem(it) + "" == PrintItem(it);
  }

  lemma {:induction false} GoneIsCovered(it: Item, i: nat, j: nat, spans: seq<AttrBlock>, begins: bool)
    requires GoesItem(it) && j == i + |PrintItem(it)|
    requires Agrees(spans, ItemBlocks(it, i, begins), i, j)
    ensures forall p: nat :: i <= p < j ==>
            (Covered(p, spans) <==> SpanOf(it, i, begins).0 <= p < SpanOf(it, i, begins).1)
  {
    hide PrintItem, KeyOf, BlocksOf, SpanOf, BodyAt, FootAt, EndsLine, Removable;
    var b, body := BlockOf(it, i, begins), BlocksOf(it.body, BodyAt(it, i), EndsLine(it.openEol));
    SpanWithin(it, i, begins);
    ItemBlocksWithin(it, i, begins);
    WithinCovers(body, BodyAt(it, i), FootAt(it, i));
    RemovableFirst(b, body);
    CoveredCons(b, Removable(body));
  }

  lemma RemovableFirst(b: AttrBlock, rest: seq<AttrBlock>)
    ensures Removable([b] + rest) == (if Goes(b) then [b] else []) + Removable(rest)
  {
    assert ([b] + rest)[1..] == rest;
  }

  /** What is left of a removed block is its residue. */
  lemma EraseGoing(text: string, i: nat, it: Item, j: nat, spans: seq<AttrBlock>, begins: bool)
    requires it.Message? && GoesItem(it) && GoodItem(it) && At(text, i, PrintItem(it)) && j == i + |PrintItem(it)|
    requires Agrees(spans, ItemBlocks(it, i, begins), i, j)
    ensures j <= |text| && Erase(text, i, spans) == Residue(it, begins) + Erase(text, j, spans)
  {
    hide Erase, At, PrintItem, KeyOf, Agrees, ItemBlocks, Covered, GoodItem, GoesItem, Print;
    assert j <= |text| by { AtLength(text, i, PrintItem(it)); }
    var (s, e) := SpanOf(it, i, begins);
    GoneIsCovered(it, i, j, spans, begins);
    SpanWithin(it, i, begins);
    EraseKept(text, i, s, spans);
    EraseGone(text, s, e, spans);
    EraseKept(text, e, j, spans);
    MessageFoot(text, i, it, j, |text|);
    MessageIndent(text, i, it);
    ResidueStands(text, i, it, j, begins);
    JoinParts(text[i..s], text[e..j], Erase(text, j, spans));
  }

  lemma JoinParts(a: string, b: string, c: string)
    ensures a + (b + c) == a + b + c
  {
  }

  lemma MessageIndent(text: string, i: nat, it: Item)
    requires it.Message? && At(text, i, PrintItem(it))
    ensures i + |it.indent| <= |text| && text[i..i + |it.indent|] == it.indent
  {
    hide At, Print, PrintFoot, PrintSep;
    AtConcat(text, i, PrintHead(it), Print(it.body) + PrintFoot(it));
    AtConcat(text, i, it.indent, it.name + (PrintSep(it.sep) + ("{" + it.openEol)));
    AtSlice(text, i, it.indent);
  }

  lemma TailStands(text: string, c: nat, eol: string, k: nat)
    requires At(text, c, eol) && k <= |eol|
    ensures c + |eol| <= |text| && text[c + k..c + |eol|] == eol[k..]
  {
    assert text[c + k..c + |eol|] == text[c..c + |eol|][k..];
  }

  lemma ResidueStands(text: string, i: nat, it: Item, j: nat, begins: bool)
    requires it.Message? && ContentEndAt(it, i) + |it.eol| == j <= |text| && At(text, ContentEndAt(it, i), it.eol)
    requires i + |it.indent| <= |text| && text[i..i + |it.indent|] == it.indent
    ensures var (s, e) := SpanOf(it, i, begins);
            i <= s <= |text| && e <= j && text[i..s] + text[e..j] == Residue(it, begins)
  {
    hide SpanEnd, ContentEndAt, At;
    EolEnd(it.eol);
    TailStands(text, ContentEndAt(it, i), it.eol, if begins then SpanEnd(it.eol, 0) else 0);
    EmptyPart(text, i, it.eol);
  }

  lemma EmptyPart(text: string, i: nat, eol: string)
    requires i <= |text|
    ensures text[i..i] == "" && eol[0..] == eol
    ensures forall r: string :: "" + r == r
  {
  }

  lemma NothingCovered(it: Item, i: nat, j: nat, spans: seq<AttrBlock>, begins: bool)
    requires !it.Message? && Agrees(spans, ItemBlocks(it, i, begins), i, j)
    ensures forall p: nat :: i <= p < j ==> !Covered(p, spans)
  {
  }

  /** A kept message: its own lines stay, its body is erased inside. */
  lemma {:induction false} EraseMessage(text: string, i: nat, it: Item, j: nat, spans: seq<AttrBlock>, begins: bool)
    requires it.Message? && !GoesItem(it) && GoodItem(it)
    requires At(text, i, PrintItem(it)) && j == i + |PrintItem(it)|
    requires Agrees(spans, ItemBlocks(it, i, begins), i, j)
    ensures j <= |text|
    ensures Erase(text, i, spans) ==
            PrintItem(it.(body := Prune(it.body, EndsLine(it.openEol)))) + Erase(text, j, spans)
    decreases it, 0
  {
    hide At, Erase, Prune, BlocksOf, Covered, Removable, KeyOf, ItemBlocks, Between, Agrees, Print, PrintHead,
      PrintFoot, BodyAt, FootAt, GoesItem, EndsLine, GoodEol, OneKey, Identifier, Indentation;
    var b, f := BodyAt(it, i), FootAt(it, i);
    var kept := it.(body := Prune(it.body, EndsLine(it.openEol)));
    MessageOuter(it, i, j, spans, begins);
    MessageLength(it, i);
    AtConcat(text, i, PrintHead(it), Print(it.body) + PrintFoot(it));
    AtConcat(text, b, Print(it.body), PrintFoot(it));
    AtSlice(text, i, PrintHead(it));
    AtSlice(text, f, PrintFoot(it));
    EraseKept(text, i, b, spans);
    EraseItems(text, b, it.body, f, spans, EndsLine(it.openEol));
    EraseKept(text, f, j, spans);
    SameFrame(it);
    var rest := Erase(text, j, spans);
    assert PrintHead(it) + (Print(kept.body) + (PrintFoot(it) + rest)) ==
           PrintHead(it) + (Print(kept.body) + PrintFoot(it)) + rest;
  }

  lemma SameFrame(it: Item)
    requires it.Message?
    ensures var kept := it.(body := Prune(it.body, EndsLine(it.openEol)));
            PrintHead(kept) == PrintHead(it) && PrintFoot(kept) == PrintFoot(it)
  {
    hide Prune;
  }

  lemma MessageOuter(it: Item, i: nat, j: nat, spans: seq<AttrBlock>, begins: bool)
    requires it.Message? && !GoesItem(it) && j == i + |PrintItem(it)|
    requires Agrees(spans, ItemBlocks(it, i, begins), i, j)
    ensures i < BodyAt(it, i) <= FootAt(it, i) < j
    ensures FootAt(it, i) == BodyAt(it, i) + |Print(it.body)|
    ensures forall p: nat :: i <= p < BodyAt(it, i) || FootAt(it, i) <= p < j ==> !Covered(p, spans)
    ensures Agrees(spans, BlocksOf(it.body, BodyAt(it, i), EndsLine(it.openEol)), BodyAt(it, i), FootAt(it, i))
  {
    hide PrintItem, BodyAt, BlocksOf, Covered, KeyOf, Print, Removable, SpanOf, EndsLine;
    var body := BlocksOf(it.body, BodyAt(it, i), EndsLine(it.openEol));
    ItemBlocksWithin(it, i, begins);
    WithinCovers(body, BodyAt(it, i), FootAt(it, i));
    FootIsThere(it, i);
    if IsAttributes(it) {
      RemovableFirst(BlockOf(it, i, begins), body);
      assert [] + Removable(body) == Removable(body);
    }
    assert Removable(ItemBlocks(it, i, begins)) == Removable(body);
  }
}
