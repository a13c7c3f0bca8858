/** The attributes blocks of a printed scheme: scanning its text finds exactly the blocks of
    the tree, and nothing joins when one is cut out. */
module SchemeBlocks {
  import opened Wrappers
  import opened PythonText
  import opened SchemeLexer
  import opened SchemeScan
  import opened SchemeResult
  import opened SchemePrint
  import opened SchemeLines
  import opened SchemeTree
  import opened SchemeKeys

  predicate IsAttributes(it: Item) {
    it.Message? && it.name == "attributes"
  }

  // ---------- the blocks of a tree ----------

  /** The deletion span of an attributes block: all its lines when it begins one, and to the
      end of its last line when nothing else is there; just the block otherwise. */
  function SpanOf(it: Item, i: nat, begins: bool): (nat, nat)
    requires it.Message?
  {
    if begins then (i, ContentEndAt(it, i) + SpanEnd(it.eol, 0)) else (KeywordAt(it, i), ContentEndAt(it, i))
  }

  function BlockOf(it: Item, i: nat, begins: bool): AttrBlock
    requires it.Message?
  {
    AttrBlock(SpanOf(it, i, begins).0, SpanOf(it, i, begins).1, KeyOf(it.body))
  }

  /** Every attributes block of the items printed from position i on, outer ones first;
      `begins` says whether the first item begins a line. */
  function BlocksOf(items: seq<Item>, i: nat, begins: bool): seq<AttrBlock>
    decreases items, 0
  {
    if items == [] then []
    else ItemBlocks(items[0], i, begins) + BlocksOf(items[1..], i + |PrintItem(items[0])|, EndsFresh(items[0]))
  }

  function ItemBlocks(it: Item, i: nat, begins: bool): seq<AttrBlock>
    decreases it, 1
  {
    if !it.Message? then []
    else if IsAttributes(it) then [BlockOf(it, i, begins)] + BlocksOf(it.body, BodyAt(it, i), EndsLine(it.openEol))
    else BlocksOf(it.body, BodyAt(it, i), EndsLine(it.openEol))
  }

  // ---------- what is before and after an item ----------

  predicate LineBegins(text: string, i: nat) {
    i == 0 || (i <= |text| && text[i - 1] == '\n')
  }

  /** Something else stands before i on its line. */
  ghost predicate MidLine(text: string, i: nat) {
    i <= |text| && exists q: nat :: q < i && !IsSpace(text[q]) && forall p :: q <= p < i ==> text[p] != '\n'
  }

  ghost predicate Placed(text: string, i: nat, begins: bool) {
    i <= |text| && if begins then LineBegins(text, i) else MidLine(text, i)
  }

  ghost predicate BeforeItem(text: string, i: nat, begins: bool) {
    Placed(text, i, begins) && Behind(text, i)
  }

  lemma BeforeIsPlaced(text: string, i: nat, begins: bool)
    requires BeforeItem(text, i, begins)
    ensures Placed(text, i, begins)
  {
  }

  /** After tabs and spaces the line does not end here. */
  predicate Tight(text: string, j: nat)
    requires j <= |text|
  {
    var p := PassTabs(text, j);
    p == |text| || (text[p] != '\r' && text[p] != '\n')
  }

  ghost predicate AfterItem(text: string, j: nat) {
    j <= |text| && Ahead(text, j) && Tight(text, j)
  }

  /** A block that ends here takes nothing of what follows into its span. */
  predicate Ended(text: string, j: nat) {
    j <= |text| && Tight(text, j) && (j < |text| ==> text[j] != ';')
  }

  lemma AfterIsEnded(text: string, j: nat)
    requires AfterItem(text, j)
    ensures Ended(text, j)
  {
    hide Tight;
    assert SkipBlanks(text, j, |text|) == j || IsBlank(text[j]);
  }

  lemma AfterIsSolid(text: string, j: nat, limit: nat)
    requires AfterItem(text, j) && j <= limit <= |text|
    ensures Solid(text, j, limit)
  {
    hide Tight, SkipBlanks;
    AheadWithin(text, j, limit);
  }

  /** Tabs and spaces and then a character that begins an item or ends a message. */
  lemma IndentedIsAfter(text: string, i: nat, n: nat)
    requires i <= n < |text| && IsIndent(text, i, n)
    requires IsWordStart(text[n]) || text[n] == '#' || text[n] == '/' || text[n] == '}'
    ensures AfterItem(text, i)
  {
    BlanksSkip(text, i, n, |text|);
    TabsRun(text, i, n);
  }

  lemma EndIsAfter(text: string)
    ensures AfterItem(text, |text|)
  {
  }

  lemma ItemIsAfter(text: string, i: nat, it: Item, j: nat, limit: nat)
    requires GoodItem(it) && At(text, i, PrintItem(it)) && j == i + |PrintItem(it)| && j <= limit <= |text|
    ensures AfterItem(text, i)
  {
    hide At, Calm, Print, PrintItem, GoodItem, WordEnd, EndsLine, AfterItem, ValueStart, PrintValue, PrintSep;
    NotBlank(it);
    match it {
      case Comment(_, _, _, _) => CommentCalm(text, i, it, limit);
      case Field(_, _, _, _, _, _) => FieldParts(text, i, it, limit);
      case Message(_, _, _, _, _, _, _, _) => MessageHead(text, i, it, j, limit);
    }
    IndentedIsAfter(text, i, i + |it.indent|);
  }

  lemma FreshBefore(text: string, j: nat)
    requires 0 < j <= |text| && text[j - 1] == '\n'
    ensures BeforeItem(text, j, true)
  {
  }

  /** A character that is no white space and no slash, and then tabs and spaces. */
  lemma MidBefore(text: string, q: nat, j: nat)
    requires q < j <= |text| && !IsSpace(text[q]) && text[q] != '/' && IsIndent(text, q + 1, j)
    ensures BeforeItem(text, j, false)
  {
    assert j > q + 1 ==> text[j - 1] == ' ' || text[j - 1] == '\t';
  }

  lemma EolIndent(text: string, e: nat, eol: string)
    requires At(text, e, eol) && GoodEol(eol) && !EndsLine(eol)
    ensures e + |eol| <= |text| && IsIndent(text, e, e + |eol|)
  {
    AtChars(text, e, eol);
    forall k | e <= k < e + |eol|
      ensures text[k] == ' ' || text[k] == '\t'
    {
      assert text[e + (k - e)] == eol[k - e];
    }
  }

  lemma ValueEndChar(text: string, v: nat, value: Value)
    requires GoodValue(value) && At(text, v, PrintValue(value))
    ensures |PrintValue(value)| > 0 && v + |PrintValue(value)| <= |text|
    ensures var c := text[v + |PrintValue(value)| - 1]; !IsSpace(c) && c != '/'
  {
    hide At, GoodPart, PrintParts, IsSpace, IsWordChar;
    match value
    case Scalar(token) =>
      AtLength(text, v, token);
      AtChar(text, v, token, |token| - 1);
      ScalarIsNoSpace(token[|token| - 1]);
    case Strings(ps) =>
      PartsEnd(text, v, ps);
      QuoteIsNoSpace(text[v + |PrintParts(ps)| - 1]);
  }

  lemma ScalarIsNoSpace(c: char)
    requires ScalarChar(c)
    ensures !IsSpace(c) && c != '/'
  {
  }

  lemma QuoteIsNoSpace(c: char)
    requires IsQuote(c)
    ensures !IsSpace(c) && c != '/'
  {
  }

  lemma {:induction false} PartsEnd(text: string, i: nat, ps: seq<Part>)
    requires |ps| > 0 && (forall p :: p in ps ==> GoodPart(p)) && At(text, i, PrintParts(ps))
    ensures |PrintParts(ps)| > 0 && i + |PrintParts(ps)| <= |text| && IsQuote(text[i + |PrintParts(ps)| - 1])
    decreases |ps|
  {
    hide At, PrintParts, PrintLiteral, GoodPart, IsQuote;
    assert ps[0] in ps && forall p :: p in ps[1..] ==> p in ps;
    PartsSplit(text, i, ps);
    if |ps| == 1 {
      NoParts();
    } else {
      PartsEnd(text, i + |ps[0].gap| + |PrintLiteral(ps[0].literal)|, ps[1..]);
    }
  }

  /** The last character of a field before the white space that ends it. */
  lemma FieldEndChar(text: string, i: nat, it: Item, limit: nat)
    requires it.Field? && GoodItem(it)
    requires At(text, i, PrintItem(it)) && i + |PrintItem(it)| <= limit <= |text|
    ensures i < EolAt(it, i) <= limit && At(text, EolAt(it, i), it.eol) &&
            i + |PrintItem(it)| == EolAt(it, i) + |it.eol|
    ensures var c := text[EolAt(it, i) - 1]; !IsSpace(c) && c != '/'
  {
    hide At, PrintItem, PrintValue, PrintSep, GoodItem, GoodValue, GoodSep, WordEnd, EndsLine, ValueStart, IsSpace;
    FieldParts(text, i, it, limit);
    GoodField(it);
    ValueEndChar(text, ValueAt(it, i), it.value);
    if it.mark != "" {
      AtChars(text, MarkAt(it, i), it.mark);
      assert text[MarkAt(it, i) + 0] == it.mark[0];
      MarkIsNoSpace(it.mark[0]);
    }
  }

  lemma MarkIsNoSpace(c: char)
    ensures c == ',' || c == ';' || c == '}' || c == '{' ==> !IsSpace(c) && c != '/'
  {
  }

  /** What the next item finds before itself. */
  lemma ItemLeaves(text: string, i: nat, it: Item, j: nat, limit: nat)
    requires GoodItem(it) && Laid(text, i, it, j, limit)
    ensures BeforeItem(text, j, EndsFresh(it))
  {
    hide At, Calm, Print, PrintItem, WordEnd, EndsLine, BeforeItem, PrintValue, GoodItem, GoodEol, Stops, IsSpace;
    NotBlank(it);
    ItemEndsLine(text, i, it, j, limit);
    if EndsFresh(it) {
      FreshBefore(text, j);
    } else if it.Field? {
      var e := EolAt(it, i);
      FieldEndChar(text, i, it, limit);
      GoodField(it);
      EolIndent(text, e, it.eol);
      MidBefore(text, e - 1, j);
    } else {
      var e := ContentEndAt(it, i);
      MessageFoot(text, i, it, j, limit);
      MessageIs(it);
      EolIndent(text, e, it.eol);
      assert text[e - 1] == '}' || text[e - 1] == ';';
      MarkIsNoSpace(text[e - 1]);
      MidBefore(text, e - 1, j);
    }
  }

  lemma BodyBegins(text: string, i: nat, it: Item, j: nat, limit: nat)
    requires it.Message? && GoodItem(it) && Laid(text, i, it, j, limit)
    ensures BeforeItem(text, BodyAt(it, i), EndsLine(it.openEol))
  {
    hide At, Print, PrintItem, WordEnd, EndsLine, BeforeItem, PrintFoot, GoodItem, GoodEol, PrintHead, ValueStart,
      PrintSep, IsSpace, Stops;
    var b, body := BraceAt(it, i), BodyAt(it, i);
    MessageHead(text, i, it, j, limit);
    if EndsLine(it.openEol) {
      FreshBefore(text, body);
    } else {
      MessageIs(it);
      EolIndent(text, b + 1, it.openEol);
      MarkIsNoSpace('{');
      MidBefore(text, b, body);
    }
  }

  lemma FootIsAfter(text: string, i: nat, it: Item, j: nat, limit: nat)
    requires it.Message? && GoodItem(it) && Laid(text, i, it, j, limit)
    ensures AfterItem(text, FootAt(it, i))
  {
    hide At, Print, PrintItem, GoodItem, WordEnd, AfterItem, Stops, SetOff;
    MessageFoot(text, i, it, j, limit);
    IndentedIsAfter(text, FootAt(it, i), CloseAt(it, i));
  }

  /** The first item of a list and the rest of it, with what is between them. */
  lemma ItemsSplit(text: string, i: nat, items: seq<Item>, j: nat, limit: nat)
    requires items != [] && Good(items)
    requires At(text, i, Print(items)) && j == i + |Print(items)| && Stops(text, j, limit) && AfterItem(text, j)
    ensures var m := i + |PrintItem(items[0])|;
            && m <= j && GoodItem(items[0]) && Good(items[1..])
            && Laid(text, i, items[0], m, limit)
            && At(text, m, Print(items[1..])) && j == m + |Print(items[1..])|
            && AfterItem(text, m) && BeforeItem(text, m, EndsFresh(items[0]))
  {
    hide At, Print, PrintItem, GoodItem, Good, Solid, EndsFresh, AfterItem, BeforeItem, Laid;
    AfterIsSolid(text, j, limit);
    ItemsParts(text, i, items, j, limit);
    var m := i + |PrintItem(items[0])|;
    ItemLeaves(text, i, items[0], m, limit);
    if items[1..] != [] {
      ItemsFirst(text, m, items[1..]);
      ItemIsAfter(text, m, items[1..][0], m + |PrintItem(items[1..][0])|, limit);
    } else {
      NoItems();
    }
  }

  lemma ItemsFirst(text: string, m: nat, items: seq<Item>)
    requires items != [] && Good(items) && At(text, m, Print(items))
    ensures GoodItem(items[0]) && At(text, m, PrintItem(items[0])) && |PrintItem(items[0])| <= |Print(items)|
  {
    hide At, Print, PrintItem, GoodItem, Good;
    ItemsUnfold(items);
    AtConcat(text, m, PrintItem(items[0]), Print(items[1..]));
  }

  // ---------- scanning a printed tree ----------

  lemma BlocksSoft(text: string, i: nat, j: nat, limit: nat, depth: nat)
    requires i <= j <= limit <= |text| && AllSoft(text, i, j)
    ensures BlocksFrom(text, i, limit, depth) == BlocksFrom(text, j, limit, depth)
  {
    BlanksCalm(text, i, j, limit);
    CalmForget(text, i, j, limit);
    CalmBlocks(text, i, j, limit, depth);
  }

  lemma BlocksBrace(text: string, b: nat, limit: nat, depth: nat)
    requires b < limit <= |text|
    ensures text[b] == '{' ==> BlocksFrom(text, b, limit, depth) == BlocksFrom(text, b + 1, limit, depth + 1)
    ensures text[b] == '}' && depth > 0 ==>
              BlocksFrom(text, b, limit, depth) == BlocksFrom(text, b + 1, limit, depth - 1)
  {
    hide BlocksFrom;
    BlocksElsewhere(text, b, limit, depth);
  }

  lemma BlocksWord(text: string, n: nat, w: nat, limit: nat, depth: nat)
    requires n < w <= limit <= |text| && IsWordStart(text[n]) && WordEnd(text, n + 1, limit) == w
    requires text[n..w] != "attributes"
    ensures BlocksFrom(text, n, limit, depth) == BlocksFrom(text, w, limit, depth)
  {
    hide BlocksFrom, WordEnd;
    BlocksElsewhere(text, n, limit, depth);
  }

  lemma {:induction false} PlainMessageBlocks(text: string, i: nat, it: Item, j: nat, limit: nat, depth: nat,
                                              begins: bool)
    requires it.Message? && !IsAttributes(it) && GoodItem(it)
    requires Laid(text, i, it, j, limit) && AfterItem(text, j)
    ensures BlocksFrom(text, i, limit, depth) == Prepend(ItemBlocks(it, i, begins), BlocksFrom(text, j, limit, depth))
    decreases it, 0
  {
    hide At, Print, PrintItem, GoodItem, WordEnd, AllSoft, Solid, BlocksFrom, BlocksOf, AfterItem, BeforeItem,
      EndsLine;
    var n, w, b, c := KeywordAt(it, i), KeywordAt(it, i) + |it.name|, BraceAt(it, i), CloseAt(it, i);
    var body, f := BodyAt(it, i), FootAt(it, i);
    MessageSoft(text, i, it, j, limit);
    BlocksSoft(text, i, n, limit, depth);
    BlocksWord(text, n, w, limit, depth);
    BlocksSoft(text, w, b, limit, depth);
    BlocksBrace(text, b, limit, depth);
    BlocksSoft(text, b + 1, body, limit, depth + 1);
    MessageBodySolid(text, i, it, j, limit, limit);
    FootIsAfter(text, i, it, j, limit);
    BodyBegins(text, i, it, j, limit);
    ItemsBlocks(text, body, it.body, f, limit, depth + 1, EndsLine(it.openEol));
    BlocksSoft(text, f, c, limit, depth + 1);
    BlocksBrace(text, c, limit, depth + 1);
    BlocksSoft(text, c + 1, j, limit, depth);
  }

  /** An attributes block is found as such, with its span and its key. */
  lemma {:induction false} AttributesBlocks(text: string, i: nat, it: Item, j: nat, limit: nat, depth: nat,
                                            begins: bool)
    requires IsAttributes(it) && GoodItem(it) && Placed(text, i, begins)
    requires Laid(text, i, it, j, limit) && Ended(text, j)
    ensures BlocksFrom(text, i, limit, depth) == Prepend(ItemBlocks(it, i, begins), BlocksFrom(text, j, limit, depth))
    decreases it, 1
  {
    hide At, Print, PrintItem, GoodItem, WordEnd, AllSoft, Solid, BlocksFrom, BlocksOf, BlockAt, BlockOpen, AfterItem,
      Ended, Placed, ItemBlocks;
    var n, w, b, c := KeywordAt(it, i), KeywordAt(it, i) + |it.name|, BraceAt(it, i), CloseAt(it, i);
    MessageSoft(text, i, it, j, limit);
    BlocksSoft(text, i, n, limit, depth);
    AttributesOpen(text, i, it, j, limit);
    AttributesRead(text, i, it, j, limit, begins);
    BlocksAtAttributes(text, n, limit, depth);
    BlocksSoft(text, c + 1, j, limit, depth);
  }

  lemma AttributesOpen(text: string, i: nat, it: Item, j: nat, limit: nat)
    requires it.Message? && GoodItem(it) && Laid(text, i, it, j, limit)
    ensures var n := KeywordAt(it, i); var w := n + |it.name|;
            n < w <= BraceAt(it, i) < limit && WordEnd(text, n + 1, limit) == w && !IsLexeme(text, n, limit)
            && BlockOpen(text, w, limit) == Some(BraceAt(it, i))
  {
    hide At, Print, PrintItem, GoodItem, WordEnd, ValueStart;
    MessageHead(text, i, it, j, limit);
  }

  lemma {:induction false} AttributesRead(text: string, i: nat, it: Item, j: nat, limit: nat, begins: bool)
    requires IsAttributes(it) && GoodItem(it) && Placed(text, i, begins)
    requires Laid(text, i, it, j, limit) && Ended(text, j)
    ensures KeywordAt(it, i) < BraceAt(it, i) < limit
    ensures BlockAt(text, KeywordAt(it, i), BraceAt(it, i), limit) ==
            Ok(BlockRead(ItemBlocks(it, i, begins), CloseAt(it, i) + 1))
    decreases it, 0
  {
    hide At, Print, PrintItem, GoodItem, WordEnd, AllSoft, Solid, BlocksOf, BlocksFrom, BlockAt, KeyFrom, CloseFrom,
      DeletionSpan, KeyOf, AfterItem, Ended, BeforeItem, Placed, EndsLine, SpanOf;
    var n, b, c, body, f := KeywordAt(it, i), BraceAt(it, i), CloseAt(it, i), BodyAt(it, i), FootAt(it, i);
    MessageSoft(text, i, it, j, limit);
    CloseBody(text, i, it, j, limit, 0);
    CloseBrace(text, c, limit, 1);
    KeyOfPrinted(text, i, it, j, limit);
    BlocksSoft(text, b + 1, body, c, 0);
    MessageBodySolid(text, i, it, j, limit, c);
    FootIsAfter(text, i, it, j, limit);
    BodyBegins(text, i, it, j, limit);
    ItemsBlocks(text, body, it.body, f, c, 0, EndsLine(it.openEol));
    BlocksSoft(text, f, c, c, 0);
    BlocksElsewhere(text, c, c, 0);
    NothingFollows(BlocksOf(it.body, body, EndsLine(it.openEol)));
    AttributesSpan(text, i, it, j, limit, begins);
    BlockAccepted(text, n, b, limit);
  }

  lemma NothingFollows(blocks: seq<AttrBlock>)
    ensures Prepend(blocks, Scan<seq<AttrBlock>>.Ok([])) == Ok(blocks)
  {
    assert blocks + [] == blocks;
  }

  // ---------- the deletion span ----------

  lemma {:induction false} PassTabsIn(text: string, e: nat, eol: string, k: nat)
    requires k <= |eol| && e + |eol| <= |text| && forall m :: 0 <= m < |eol| ==> text[e + m] == eol[m]
    ensures PassTabs(eol, k) < |eol| ==> PassTabs(text, e + k) == e + PassTabs(eol, k)
    ensures PassTabs(eol, k) == |eol| ==> PassTabs(text, e + k) == PassTabs(text, e + |eol|)
    decreases |eol| - k
  {
    if k < |eol| {
      assert text[e + k] == eol[k];
      PassTabsIn(text, e, eol, k + 1);
    }
  }

  /** The span ends where the white space after the block says, whatever follows. */
  lemma EolSpan(text: string, e: nat, eol: string)
    requires At(text, e, eol) && GoodEol(eol) && e + |eol| <= |text| && Tight(text, e + |eol|)
    ensures SpanEnd(text, e) == e + SpanEnd(eol, 0) && SpanEnd(eol, 0) <= |eol|
  {
    hide At, PassTabs, AllBlank, Indentation;
    AtChars(text, e, eol);
    PassTabsIn(text, e, eol, 0);
    var p := PassTabs(eol, 0);
    TabsOrLine(eol);
    if EndsLine(eol) {
      assert text[e + p] == eol[p];
      if eol[p] == '\r' {
        assert text[e + (p + 1)] == eol[p + 1];
      }
    }
  }

  /** White space after something is tabs and spaces, or these and then the end of a line. */
  lemma TabsOrLine(eol: string)
    requires GoodEol(eol)
    ensures var p := PassTabs(eol, 0);
            if EndsLine(eol) then p < |eol| && (eol[p] == '\r' ==> p + 1 < |eol|) else p == |eol|
  {
  }

  lemma MidIsNotAllSpace(text: string, i: nat, n: nat)
    requires MidLine(text, i) && i <= n <= |text| && IsIndent(text, i, n)
    ensures !AllSpace(text, LineStart(text, n), n)
  {
    var q: nat :| q < i && !IsSpace(text[q]) && forall p :: q <= p < i ==> text[p] != '\n';
    var r := LineStart(text, n);
    assert r <= q;
  }

  lemma ContentEnds(text: string, i: nat, it: Item, j: nat, limit: nat)
    requires it.Message? && GoodItem(it) && Laid(text, i, it, j, limit) && Ended(text, j)
    ensures CloseAt(it, i) + 1 <= limit && ContentEnd(text, CloseAt(it, i) + 1, limit) == ContentEndAt(it, i)
  {
    hide At, Print, PrintItem, GoodItem, Tight, Stops;
    MessageFoot(text, i, it, j, limit);
    var e := ContentEndAt(it, i);
    assert e < j ==> IsBlank(text[e]);
  }

  lemma AttributesSpan(text: string, i: nat, it: Item, j: nat, limit: nat, begins: bool)
    requires it.Message? && GoodItem(it) && Placed(text, i, begins)
    requires Laid(text, i, it, j, limit) && Ended(text, j)
    ensures KeywordAt(it, i) <= |text| && CloseAt(it, i) + 1 <= limit
    ensures ContentEnd(text, CloseAt(it, i) + 1, limit) <= |text|
    ensures DeletionSpan(text, KeywordAt(it, i), ContentEnd(text, CloseAt(it, i) + 1, limit)) == SpanOf(it, i, begins)
  {
    hide At, Print, PrintItem, WordEnd, SpanEnd, Ahead, Behind, Tight, GoodEol, GoodItem, AllSpace, ValueStart,
      PrintSep, Stops;
    MessageIs(it);
    MessageHead(text, i, it, j, limit);
    MessageFoot(text, i, it, j, limit);
    ContentEnds(text, i, it, j, limit);
    var n, e := KeywordAt(it, i), ContentEndAt(it, i);
    if begins {
      IndentIsLineStart(text, i, n);
      EolSpan(text, e, it.eol);
    } else {
      MidIsNotAllSpace(text, i, n);
    }
  }

  lemma {:induction false} IndentIsLineStart(text: string, i: nat, n: nat)
    requires i <= n <= |text| && LineBegins(text, i) && IsIndent(text, i, n)
    ensures LineStart(text, n) == i && AllSpace(text, i, n)
    decreases n - i
  {
    if i < n {
      IndentIsLineStart(text, i, n - 1);
    }
  }

  lemma {:induction false} ItemsBlocks(text: string, i: nat, items: seq<Item>, j: nat, limit: nat, depth: nat,
                                       begins: bool)
    requires Good(items) && At(text, i, Print(items)) && j == i + |Print(items)| && Stops(text, j, limit)
    requires AfterItem(text, j) && BeforeItem(text, i, begins)
    ensures BlocksFrom(text, i, limit, depth) == Prepend(BlocksOf(items, i, begins), BlocksFrom(text, j, limit, depth))
    decreases items, 0
  {
    hide At, Solid, PrintItem, GoodItem, Calm, BlocksFrom, ItemBlocks, AfterItem, BeforeItem, EndsFresh;
    if items == [] {
      PrependAppend([], [], BlocksFrom(text, i, limit, depth));
    } else {
      ItemsSplit(text, i, items, j, limit);
      var it, m := items[0], i + |PrintItem(items[0])|;
      if IsAttributes(it) {
        BeforeIsPlaced(text, i, begins);
        AfterIsEnded(text, m);
        AttributesBlocks(text, i, it, m, limit, depth, begins);
      } else if it.Message? {
        PlainMessageBlocks(text, i, it, m, limit, depth, begins);
      } else {
        AfterIsSolid(text, m, limit);
        LineCalm(text, i, it, m, limit, false);
        CalmBlocks(text, i, m, limit, depth);
        LineHasNoBlocks(it, i, begins);
        PrependAppend([], [], BlocksFrom(text, m, limit, depth));
      }
      ItemsBlocks(text, m, items[1..], j, limit, depth, EndsFresh(it));
      PrependAppend(ItemBlocks(it, i, begins), BlocksOf(items[1..], m, EndsFresh(it)),
        BlocksFrom(text, j, limit, depth));
    }
  }

  lemma LineHasNoBlocks(it: Item, i: nat, begins: bool)
    requires !it.Message?
    ensures ItemBlocks(it, i, begins) == []
  {
  }

  lemma StartIsBefore(text: string)
    ensures BeforeItem(text, 0, true)
  {
  }

  /** Scanning a printed scheme succeeds and finds exactly the blocks of the tree. */
  lemma {:induction false} PrintedBlocks(items: seq<Item>)
    requires Good(items)
    ensures FindBlocks(Print(items), 0, |Print(items)|) == Ok(BlocksOf(items, 0, true))
  {
    hide BlocksFrom, BlocksOf, PrintItem, AfterItem, BeforeItem;
    var text := Print(items);
    assert At(text, 0, text);
    StartIsBefore(text);
    EndIsAfter(text);
    ItemsBlocks(text, 0, items, |text|, |text|, 0, true);
    BlocksElsewhere(text, |text|, |text|, 0);
    NothingFollows(BlocksOf(items, 0, true));
  }

  // ---------- nothing joins across the cuts ----------

  ghost predicate AllAside(text: string, blocks: seq<AttrBlock>) {
    forall b :: b in blocks ==> Aside(text, b)
  }

  lemma {:induction false} AsideItems(text: string, i: nat, items: seq<Item>, j: nat, begins: bool)
    requires Good(items) && At(text, i, Print(items)) && j == i + |Print(items)| && Stops(text, j, |text|)
    requires AfterItem(text, j) && BeforeItem(text, i, begins)
    ensures AllAside(text, BlocksOf(items, i, begins))
    decreases items, 0
  {
    hide At, Print, PrintItem, Good, GoodItem, Laid, Stops, ItemBlocks, AfterItem, BeforeItem, EndsFresh, Aside;
    if items != [] {
      ItemsSplit(text, i, items, j, |text|);
      var it, m := items[0], i + |PrintItem(items[0])|;
      AsideItem(text, i, it, m, begins);
      AsideItems(text, m, items[1..], j, EndsFresh(it));
    }
  }

  lemma {:induction false} AsideItem(text: string, i: nat, it: Item, j: nat, begins: bool)
    requires GoodItem(it) && Laid(text, i, it, j, |text|) && AfterItem(text, j) && BeforeItem(text, i, begins)
    ensures AllAside(text, ItemBlocks(it, i, begins))
    decreases it, 1
  {
    hide At, PrintItem, BlocksOf, AfterItem, BeforeItem, Aside, Print, EndsLine, SpanOf, KeyOf, GoodItem, Laid;
    if it.Message? {
      BodyLaid(text, i, it, j);
      MessageBodySolid(text, i, it, j, |text|, |text|);
      FootIsAfter(text, i, it, j, |text|);
      BodyBegins(text, i, it, j, |text|);
      AsideItems(text, BodyAt(it, i), it.body, FootAt(it, i), EndsLine(it.openEol));
      AsideBlock(text, i, it, j, begins);
    }
  }

  lemma BodyLaid(text: string, i: nat, it: Item, j: nat)
    requires it.Message? && GoodItem(it) && Laid(text, i, it, j, |text|)
    ensures CloseAt(it, i) < j <= |text| && At(text, BodyAt(it, i), Print(it.body))
    ensures FootAt(it, i) == BodyAt(it, i) + |Print(it.body)|
  {
    hide At, PrintItem, Print, GoodItem, IsIndent;
    MessageFoot(text, i, it, j, |text|);
  }

  lemma AsideBlock(text: string, i: nat, it: Item, j: nat, begins: bool)
    requires it.Message? && GoodItem(it) && Laid(text, i, it, j, |text|) && AfterItem(text, j) &&
             BeforeItem(text, i, begins)
    ensures Aside(text, BlockOf(it, i, begins))
  {
    hide At, PrintItem, Print, WordEnd, GoodEol, GoodItem, KeyOf, SpanEnd, MidLine, IsSpace, SkipBlanks, ValueStart,
      PrintSep, Stops, Ahead, IsBlank, IsWordStart, IsWordChar;
    MessageHead(text, i, it, j, |text|);
    var n, e := KeywordAt(it, i), ContentEndAt(it, i);
    SpanEndsAhead(text, i, it, j, begins);
    assert !begins && i < n ==> text[n - 1] == ' ' || text[n - 1] == '\t';
  }

  lemma SpanEndsAhead(text: string, i: nat, it: Item, j: nat, begins: bool)
    requires it.Message? && GoodItem(it) && Laid(text, i, it, j, |text|) && AfterItem(text, j)
    ensures KeywordAt(it, i) < ContentEndAt(it, i) <= SpanOf(it, i, begins).1 <= |text|
    ensures Ahead(text, SpanOf(it, i, begins).1)
  {
    hide At, PrintItem, Print, GoodEol, GoodItem, SpanEnd, SkipBlanks, PrintSep, Stops, IsBlank, EndsLine;
    MessageFoot(text, i, it, j, |text|);
    MessageIs(it);
    EolSpan(text, ContentEndAt(it, i), it.eol);
    SpanIsBounded(it, i);
    BlanksSkip(text, SpanOf(it, i, begins).1, j, |text|);
  }

  lemma SpanIsBounded(it: Item, i: nat)
    requires it.Message?
    ensures 0 <= SpanEnd(it.eol, 0) && KeywordAt(it, i) < ContentEndAt(it, i)
  {
    hide Print, PrintSep;
  }
}
