/** Why the final self-check is there: texts of document tables whose rewrite fails because a
    cut joins what was apart. */
module SchemeJoined {
  import opened Wrappers
  import opened SchemeLexer
  import opened SchemeScan
  import opened SchemeRewrite
  import opened SchemeResult
  import opened SchemePrint
  import opened SchemeLines
  import opened SchemeTree
  import opened SchemeKeys
  import opened SchemeBlocks

  // ---------- a block with nothing but a plain key ----------

  function PlainPieces(s: string): seq<Piece> {
    if s == "" then [] else [Plain(s[0])] + PlainPieces(s[1..])
  }

  predicate IsPlainText(s: string) {
    '"' !in s && '\\' !in s
  }

  lemma {:induction false} PlainPrints(s: string)
    requires IsPlainText(s)
    ensures PrintPieces(PlainPieces(s)) == s && Meaning(PlainPieces(s)) == CodesOf(s)
    ensures forall p :: p in PlainPieces(s) ==> p.Plain? && GoodPiece(p, '"')
  {
    hide CodesOf;
    CodesCons(s);
    if s != "" {
      PlainPrints(s[1..]);
      assert [s[0]] + s[1..] == s;
    }
  }

  lemma CodesCons(s: string)
    ensures CodesOf(s) == if s == "" then [] else [s[0] as int] + CodesOf(s[1..])
  {
  }

  function Quoted(s: string): string {
    "\"" + s + "\""
  }

  function PlainLiteral(s: string): Literal {
    Literal('"', PlainPieces(s))
  }

  lemma PlainLiteralIs(s: string)
    requires IsPlainText(s)
    ensures var l := PlainLiteral(s);
            GoodLiteral(l) && PrintLiteral(l) == Quoted(s) && Meaning(l.pieces) == CodesOf(s)
  {
    hide PlainPieces, PrintPieces, Meaning, GoodPiece, PrintPiece;
    PlainPrints(s);
    var ps := PlainPieces(s);
    assert forall k :: 0 <= k < |ps| ==> ps[k] in ps && ps[k].Plain?;
  }

  /** `key:"..."`. */
  function KeyFieldOf(ps: seq<Part>): Item {
    Field("", "key", Sep("", true, ""), Strings(ps), "", "")
  }

  function Block(sep: Sep, ps: seq<Part>): Item {
    Message("", "attributes", sep, "", [KeyFieldOf(ps)], "", false, "")
  }

  predicate GoodParts(ps: seq<Part>) {
    GoodValue(Strings(ps))
  }

  lemma OnePlain(s: string)
    requires IsPlainText(s)
    ensures var ps := [Part("", PlainLiteral(s))];
            GoodParts(ps) && PrintParts(ps) == Quoted(s) && PartsMeaning(ps) == CodesOf(s)
  {
    hide GoodLiteral, PrintLiteral, PlainLiteral, Meaning;
    PlainLiteralIs(s);
    var ps := [Part("", PlainLiteral(s))];
    assert ps[1..] == [];
    OnePart(ps);
    NoParts();
    assert Quoted(s) + "" == Quoted(s);
  }

  lemma FieldIs(ps: seq<Part>)
    requires GoodParts(ps)
    ensures var field := KeyFieldOf(ps);
            && GoodItem(field) && SetOff(field) && IsKeyField(field)
            && PrintItem(field) == "key:" + PrintParts(ps)
  {
    hide GoodValue, PrintParts;
    var field := KeyFieldOf(ps);
    FieldUnfold(field);
    PlainSep();
    FieldText(PrintParts(ps));
  }

  lemma PlainSep()
    ensures PrintSep(Sep("", true, "")) == ":"
  {
  }

  lemma FieldText(s: string)
    ensures "" + ("key" + (":" + (s + ("" + "")))) == "key:" + s
  {
    assert s + ("" + "") == s;
    assert "key" + ":" == "key:";
  }

  lemma BodyIs(ps: seq<Part>)
    requires GoodParts(ps)
    ensures var body := [KeyFieldOf(ps)];
            Good(body) && OneKey(body) && KeyOf(body) == Some(PartsMeaning(ps)) &&
              Print(body) == "key:" + PrintParts(ps)
  {
    hide GoodItem, PrintItem, PartsMeaning, PrintParts, GoodValue, SetOff;
    FieldIs(ps);
    var body := [KeyFieldOf(ps)];
    assert body[1..] == [];
    ItemsUnfold(body);
    NoItems();
    assert PrintItem(body[0]) + "" == PrintItem(body[0]);
  }

  lemma BlockIs(sep: Sep, ps: seq<Part>)
    requires GoodParts(ps) && GoodSep(sep)
    ensures var it := Block(sep, ps);
            && GoodItem(it) && IsAttributes(it) && SetOff(it)
            && PrintItem(it) == "attributes" + PrintSep(sep) + "{key:" + PrintParts(ps) + "}"
  {
    hide PrintParts, GoodValue, Print, Good, OneKey, GoodSep, PrintSep, PartsMeaning, KeyFieldOf;
    BodyIs(ps);
    var it := Block(sep, ps);
    MessageIs(it);
    assert Identifier("attributes");
    assert PrintHead(it) == "attributes" + PrintSep(sep) + "{";
    assert PrintFoot(it) == "}";
    Joined("attributes" + PrintSep(sep), PrintParts(ps));
  }

  lemma Joined(a: string, b: string)
    ensures a + "{" + (("key:" + b) + "}") == a + "{key:" + b + "}"
  {
    assert "{" + "key:" == "{key:";
  }

  /** Where such a block begins on a line with something before it, its span is the block. */
  lemma BlockHas(sep: Sep, ps: seq<Part>, i: nat)
    requires GoodParts(ps) && GoodSep(sep)
    ensures ItemBlocks(Block(sep, ps), i, false) ==
            [AttrBlock(i, i + |PrintItem(Block(sep, ps))|, Some(PartsMeaning(ps)))]
  {
    hide PrintParts, GoodValue, OneKey, GoodSep, PrintSep, PartsMeaning, PrintItem, Print, KeyOf, BodyAt, ContentEndAt;
    var it := Block(sep, ps);
    BodyIs(ps);
    MessageLength(it, i);
    FieldHasNone(ps, BodyAt(it, i));
  }

  lemma FieldHasNone(ps: seq<Part>, i: nat)
    ensures BlocksOf([KeyFieldOf(ps)], i, false) == []
  {
    hide PrintItem;
    assert [KeyFieldOf(ps)][1..] == [];
  }

  // ---------- what the self-check says ----------

  lemma OneGoes(blocks: seq<AttrBlock>, b: AttrBlock)
    requires IsDocument(b) && (blocks == [b] || (|blocks| == 2 && blocks[1] == b && !Goes(blocks[0])))
    ensures Removable(blocks) == [b] && exists c :: c in blocks && IsDocument(c)
  {
    assert b in blocks;
    assert Removable([]) == [] && Removable([b]) == [b] + Removable([b][1..]);
    if |blocks| == 2 {
      assert blocks[1..] == [b];
      assert [] + [b] == [b];
    }
  }

  lemma ErasedMiddle(text: string, i: nat, j: nat, spans: seq<AttrBlock>)
    requires i <= j <= |text|
    requires forall p: nat :: Covered(p, spans) <==> i <= p < j
    ensures Erase(text, 0, spans) == text[..i] + text[j..]
  {
    hide Erase, Covered;
    EraseKept(text, 0, i, spans);
    EraseGone(text, i, j, spans);
    EraseRest(text, j, spans);
  }

  lemma OneCovers(b: AttrBlock)
    ensures forall p: nat :: Covered(p, [b]) <==> b.start <= p < b.end
  {
  }

  /** A text with one document attribute, found at i..j: the rest of it goes to the check. */
  lemma OneCut(text: string, i: nat, j: nat, b: AttrBlock)
    requires FindBlocks(text, 0, |text|).Ok? && i <= j <= |text| && b.start == i && b.end == j && IsDocument(b)
    requires var blocks := FindBlocks(text, 0, |text|).value;
             blocks == [b] || (|blocks| == 2 && blocks[1] == b && !Goes(blocks[0]))
    ensures exists removed :: Rewrite(text) == Checked(text[..i] + text[j..], removed)
  {
    hide Rewrite, Erase, Covered, Removable, Outermost, Goes, FindBlocks, IsDocument, Checked;
    OneGoes(FindBlocks(text, 0, |text|).value, b);
    RewriteErases(text);
    OneCovers(b);
    ErasedMiddle(text, i, j, [b]);
  }

  /** What is left is one block that goes: the check fails. */
  lemma LeftFails(sep: Sep, ps: seq<Part>, removed: seq<Codes>)
    requires GoodParts(ps) && GoodSep(sep) && AttributeShouldGo(PartsMeaning(ps))
    ensures Checked(PrintItem(Block(sep, ps)), removed) == Err(AttributesLeft)
  {
    hide GoodValue, GoodSep, PartsMeaning, PrintItem, BlocksFrom, AttributeShouldGo, GoodItem, ItemBlocks, SpanOf;
    var it := Block(sep, ps);
    BlockIs(sep, ps);
    assert Good([it]) by { assert [it][1..] == []; }
    assert Print([it]) == PrintItem(it) by {
      ItemsUnfold([it]);
      NoItems();
      assert [it][1..] == [] && PrintItem(it) + "" == PrintItem(it);
    }
    PrintedBlocks([it]);
    OwnBlock(sep, ps);
    var b := BlockOf(it, 0, true);
    assert Goes(b);
  }

  lemma OwnBlock(sep: Sep, ps: seq<Part>)
    requires GoodParts(ps)
    ensures var it := Block(sep, ps); var b := BlockOf(it, 0, true);
            b in BlocksOf([it], 0, true) && b.key == Some(PartsMeaning(ps))
  {
    hide GoodValue, PrintParts, PrintItem, SpanOf, PartsMeaning, KeyOf;
    BodyIs(ps);
    var it := Block(sep, ps);
    assert BlockOf(it, 0, true) in ItemBlocks(it, 0, true);
  }

  // ---------- two slashes make a comment ----------

  /** The blocks of a block between two slashes, itself between braces. */
  lemma SlashedBlocks(text: string, it: Item)
    requires it.Message? && GoodItem(it) && IsAttributes(it) && it.indent == ""
    requires text == "{/" + PrintItem(it) + "/}"
    ensures FindBlocks(text, 0, |text|) == Ok(ItemBlocks(it, 2, false))
  {
    hide PrintItem, GoodItem, IsAttributes, BlocksFrom, ItemBlocks, AfterItem, Ended, Find, MidLine, Stops;
    var n := |text|;
    var j := n - 2;
    SlashedText(text, PrintItem(it));
    StartsWithName(text, it, n);
    IndentedIsAfter(text, j, j);
    AfterIsEnded(text, j);
    AttributesBlocks(text, 2, it, j, n, 1, false);
    BlocksElsewhere(text, 0, n, 0);
    BlocksElsewhere(text, 1, n, 1);
    BlocksElsewhere(text, j, n, 1);
    BlocksElsewhere(text, j + 1, n, 1);
    BlocksElsewhere(text, n, n, 0);
    NothingFollows(ItemBlocks(it, 2, false));
  }

  lemma SlashedText(text: string, printed: string)
    requires text == "{/" + printed + "/}"
    ensures var j := |text| - 2;
            && At(text, 2, printed) && j == 2 + |printed| && text[0] == '{' && text[1] == '/'
            && text[j] == '/' && text[j + 1] == '}' && MidLine(text, 2)
  {
    assert text[2..|text| - 2] == printed;
    assert text[1] == '/';
  }

  lemma StartsWithName(text: string, it: Item, limit: nat)
    requires it.Message? && GoodItem(it) && it.indent == "" && At(text, 2, PrintItem(it))
    requires 2 + |PrintItem(it)| <= limit <= |text|
    ensures |PrintItem(it)| > 0 && IsWordStart(text[2])
  {
    hide At, Print, PrintItem, GoodItem, WordEnd, ValueStart, Stops;
    MessageHead(text, 2, it, 2 + |PrintItem(it)|, limit);
  }

  lemma CommentIsUnclosed()
    ensures FindBlocks("{//}", 0, 4) == Err(UnclosedBlock)
  {
    hide BlocksFrom;
    BlocksElsewhere("{//}", 0, 4, 0);
    BlocksElsewhere("{//}", 1, 4, 1);
    BlocksElsewhere("{//}", 4, 4, 1);
    assert LineEnd("{//}", 1, 4) == 4;
  }

  const VERSION_BLOCK := "attributes{key:" + Quoted(DOCUMENT_ATTRIBUTE) + "}"

  function Version(): Item {
    Block(Sep("", false, ""), [Part("", PlainLiteral(DOCUMENT_ATTRIBUTE))])
  }

  lemma VersionIs()
    ensures Version().Message? && GoodItem(Version()) && IsAttributes(Version()) && Version().indent == "" &&
            SetOff(Version())
    ensures PrintItem(Version()) == VERSION_BLOCK
    ensures forall i: nat :: ItemBlocks(Version(), i, false) ==
                             [AttrBlock(i, i + |VERSION_BLOCK|, Some(CodesOf(DOCUMENT_ATTRIBUTE)))]
  {
    hide GoodItem, PrintItem, ItemBlocks, GoodValue, PrintParts, PartsMeaning, CodesOf, PlainLiteral;
    var sep, ps := Sep("", false, ""), [Part("", PlainLiteral(DOCUMENT_ATTRIBUTE))];
    OnePlain(DOCUMENT_ATTRIBUTE);
    BlockIs(sep, ps);
    assert PrintSep(sep) == "";
    VersionText(Quoted(DOCUMENT_ATTRIBUTE));
    forall i: nat
      ensures ItemBlocks(Version(), i, false) == [AttrBlock(i, i + |VERSION_BLOCK|, Some(CodesOf(DOCUMENT_ATTRIBUTE)))]
    {
      BlockHas(sep, ps, i);
    }
  }

  lemma VersionText(s: string)
    ensures "attributes" + "" + "{key:" + s + "}" == "attributes{key:" + s + "}"
  {
    assert "attributes" + "" + "{key:" == "attributes{key:";
  }

  /** A text of a document table on which the rewrite fails: without the block the two
      slashes begin a comment, which hides the closing brace. */
  lemma {:induction false} JoinedSlashesFail()
    ensures var text := "{/" + VERSION_BLOCK + "/}";
            FindBlocks(text, 0, |text|).Ok? && Rewrite(text) == Err(Unparsed(UnclosedBlock))
  {
    hide Rewrite, FindBlocks, PrintItem, GoodItem, ItemBlocks, IsAttributes, Version, CodesOf;
    VersionIs();
    SlashedFails("{/" + VERSION_BLOCK + "/}", VERSION_BLOCK);
  }

  lemma SlashedFails(text: string, printed: string)
    requires text == "{/" + printed + "/}" && printed == VERSION_BLOCK
    ensures FindBlocks(text, 0, |text|).Ok? && Rewrite(text) == Err(Unparsed(UnclosedBlock))
  {
    hide Rewrite, FindBlocks, PrintItem, GoodItem, ItemBlocks, IsAttributes, Version, CodesOf;
    VersionIs();
    SlashedBlocks(text, Version());
    OneCut(text, 2, 2 + |printed|, AttrBlock(2, 2 + |printed|, Some(CodesOf(DOCUMENT_ATTRIBUTE))));
    assert text[..2] + text[2 + |printed|..] == "{//}";
    CommentIsUnclosed();
  }

  // ---------- a dangling `attributes` opens a block ----------

  lemma WordAtStart(text: string, rest: string)
    requires text == "attributes" + rest && rest != "" && !IsWordChar(rest[0])
    ensures WordEnd(text, 1, |text|) == 10 && text[0..10] == "attributes" && IsWordStart(text[0]) &&
            !IsLexeme(text, 0, |text|)
  {
    assert text[0] == 'a' && text[10] == rest[0];
    forall k | 0 <= k < 10
      ensures IsWordChar(text[k])
    {
      assert text[k] == "attributes"[k];
    }
    WordRun(text, 1, 10, |text|);
  }

  lemma DanglesNothing(text: string, rest: string)
    requires text == "attributes" + (" a" + rest)
    ensures BlocksFrom(text, 0, |text|, 0) == BlocksFrom(text, 11, |text|, 0)
    ensures MidLine(text, 11)
  {
    hide BlocksFrom, WordEnd;
    WordAtStart(text, " a" + rest);
    assert text[10] == ' ' && text[11] == 'a';
    SkipsTo(text, 10, 11, |text|);
    assert BlockOpen(text, 10, |text|).None?;
    BlocksElsewhere(text, 0, |text|, 0);
    BlocksSoft(text, 10, 11, |text|, 0);
    NoNewline(text);
  }

  lemma NoNewline(text: string)
    requires |text| > 11 && text[0..10] == "attributes" && text[10] == ' '
    ensures MidLine(text, 11)
  {
    forall p | 0 <= p < 11
      ensures text[p] != '\n'
    {
      assert p < 10 ==> text[p] == text[0..10][p];
    }
    assert text[0] == text[0..10][0];
  }

  /** A key field in braces, with nothing after it. */
  lemma BracedBlocks(text: string, j: nat, ps: seq<Part>)
    requires j <= |text| && text[j..] == "{" + (("key:" + PrintParts(ps)) + "}") && GoodParts(ps)
    ensures BlocksFrom(text, j, |text|, 0) == Ok([]) && Ended(text, j)
  {
    hide GoodValue, PrintParts, BlocksFrom, BlocksOf, Good, Print, PartsMeaning, AfterItem, BeforeItem, KeyFieldOf,
      OneKey, KeyOf;
    var n, body := |text|, [KeyFieldOf(ps)];
    BodyIs(ps);
    var rest := text[j..];
    assert text[j] == rest[0] == '{' && text[n - 1] == rest[|rest| - 1] == '}';
    assert text[j + 1..n - 1] == rest[1..|rest| - 1] == Print(body);
    MarkIsNoSpace('{');
    MidBefore(text, j, j + 1);
    IndentedIsAfter(text, n - 1, n - 1);
    BlocksBrace(text, j, n, 0);
    ItemsBlocks(text, j + 1, body, n - 1, n, 1, false);
    FieldHasNone(ps, j + 1);
    BlocksBrace(text, n - 1, n, 1);
    BlocksElsewhere(text, n, n, 0);
    NothingFollows([]);
  }

  /** The same block left dangling before another one's braces: what is left is a new block. */
  lemma DanglingFails(text: string, printed: string, ps: seq<Part>)
    requires GoodParts(ps) && AttributeShouldGo(PartsMeaning(ps)) && printed == VERSION_BLOCK
    requires text == "attributes " + printed + ("{" + (("key:" + PrintParts(ps)) + "}"))
    ensures FindBlocks(text, 0, |text|).Ok? && Rewrite(text) == Err(AttributesLeft)
  {
    hide GoodParts, PrintParts, FindBlocks, PrintItem, Block, CodesOf, PartsMeaning, AttributeShouldGo, Rewrite,
      Checked, GoodSep;
    var j := 11 + |printed|;
    DanglingFinds(text, printed, ps);
    OneCut(text, 11, j, AttrBlock(11, j, Some(CodesOf(DOCUMENT_ATTRIBUTE))));
    var removed :| Rewrite(text) == Checked(text[..11] + text[j..], removed);
    DanglingText(text, printed, "{" + (("key:" + PrintParts(ps)) + "}"));
    NothingBetween();
    var sep := Sep(" ", false, "");
    BlockIs(sep, ps);
    SpacedText(PrintParts(ps));
    LeftFails(sep, ps, removed);
  }

  lemma DanglingText(text: string, printed: string, tail: string)
    requires text == "attributes " + printed + tail
    ensures var j := 11 + |printed|;
            && j <= |text| && text[11..j] == printed && text[j..] == tail && text[..11] == "attributes "
            && text[..11] + text[j..] == "attributes " + tail
  {
  }

  lemma DanglingFinds(text: string, printed: string, ps: seq<Part>)
    requires GoodParts(ps) && printed == VERSION_BLOCK
    requires text == "attributes " + printed + ("{" + (("key:" + PrintParts(ps)) + "}"))
    ensures var j := 11 + |printed|;
            j <= |text| && FindBlocks(text, 0, |text|) == Ok([AttrBlock(11, j, Some(CodesOf(DOCUMENT_ATTRIBUTE)))])
  {
    hide GoodParts, PrintParts, BlocksFrom, GoodItem, PrintItem, ItemBlocks, IsAttributes, Version, CodesOf, Ended,
      MidLine;
    var tail, j := "{" + (("key:" + PrintParts(ps)) + "}"), 11 + |printed|;
    VersionIs();
    VersionBegins();
    DanglingText(text, printed, tail);
    SpaceAndLetter(text, printed, tail);
    DanglesNothing(text, printed[1..] + tail);
    BracedBlocks(text, j, ps);
    AttributesBlocks(text, 11, Version(), j, |text|, 0, false);
    NothingFollows(ItemBlocks(Version(), 11, false));
  }

  lemma SpaceAndLetter(text: string, printed: string, tail: string)
    requires text == "attributes " + printed + tail && printed != "" && printed[0] == 'a'
    ensures text == "attributes" + (" a" + (printed[1..] + tail))
  {
    assert printed == "a" + printed[1..];
    assert "attributes" + " a" == "attributes " + "a";
  }

  lemma SpacedText(s: string)
    ensures "attributes " + ("{" + (("key:" + s) + "}")) ==
            "attributes" + PrintSep(Sep(" ", false, "")) + "{key:" + s + "}"
  {
    assert PrintSep(Sep(" ", false, "")) == " ";
    assert "attributes" + " " == "attributes ";
    Joined("attributes ", s);
  }

  lemma Braced(a: string, b: string)
    ensures a + ("{" + (("key:" + b) + "}")) == a + "{key:" + b + "}"
  {
    Joined(a, b);
    assert a + ("{" + (("key:" + b) + "}")) == a + "{" + (("key:" + b) + "}");
  }

  /** A word `attributes` before the removed block takes the braces after it: the block that
      comes to be is a document attribute. */
  lemma {:induction false} JoinedBlockFails()
    ensures var text := "attributes " + VERSION_BLOCK + "{key:" + Quoted(DYNAMODB_ATTRIBUTE_PREFIX) + "}";
            FindBlocks(text, 0, |text|).Ok? && Rewrite(text) == Err(AttributesLeft)
  {
    hide Rewrite, FindBlocks, CodesOf, GoodValue, PrintParts, PartsMeaning, PlainLiteral, Quoted;
    OnePlain(DYNAMODB_ATTRIBUTE_PREFIX);
    Braced("attributes " + VERSION_BLOCK, Quoted(DYNAMODB_ATTRIBUTE_PREFIX));
    DanglingFails("attributes " + VERSION_BLOCK + ("{" + (("key:" + Quoted(DYNAMODB_ATTRIBUTE_PREFIX)) + "}")),
      VERSION_BLOCK,
                  [Part("", PlainLiteral(DYNAMODB_ATTRIBUTE_PREFIX))]);
  }

  // ---------- two strings make one key ----------

  /** The parts of an attributes block with `printed` between two parts of its key. */
  lemma SplitKeyParts(text: string, first: seq<Part>, printed: string, second: seq<Part>)
    requires GoodParts(first) && GoodParts(second) && printed != "" && printed[0] == 'a'
    requires text == "attributes{" + (("key:" + PrintParts(first)) + (printed + (PrintParts(second) + "}")))
    ensures var i := 15 + |PrintParts(first)|; var j := i + |printed|; var n := |text|;
            && 15 < i < j < n - 1 && n - 1 == j + |PrintParts(second)|
            && At(text, 11, "key:" + PrintParts(first)) && At(text, i, printed) && At(text, j, PrintParts(second))
            && text[i] == 'a' && text[n - 1] == '}' && IsQuote(text[i - 1]) && IsQuote(text[j])
  {
    hide PrintParts, GoodParts, IsQuote, At;
    FiveParts(text, "attributes{", "key:" + PrintParts(first), printed, PrintParts(second));
    KeyEnds(text, first);
    PartsEnds(text, 15 + |PrintParts(first)| + |printed|, second);
    AtChar(text, 15 + |PrintParts(first)|, printed, 0);
  }

  lemma KeyEnds(text: string, first: seq<Part>)
    requires GoodParts(first) && At(text, 11, "key:" + PrintParts(first))
    ensures |PrintParts(first)| > 0 && 15 + |PrintParts(first)| <= |text|
    ensures IsQuote(text[15 + |PrintParts(first)| - 1])
  {
    hide PrintParts, GoodParts, IsQuote, At;
    AtConcat(text, 11, "key:", PrintParts(first));
    PartsEnds(text, 15, first);
  }

  lemma FiveParts(text: string, head: string, a: string, b: string, c: string)
    requires text == head + (a + (b + (c + "}")))
    ensures var i := |head| + |a|; var j := i + |b|; var k := j + |c|;
            && At(text, |head|, a) && At(text, i, b) && At(text, j, c) && k == |text| - 1 && text[k] == '}'
  {
    hide At;
    AllIsText(text);
    AtConcat(text, 0, head, a + (b + (c + "}")));
    AtConcat(text, |head|, a, b + (c + "}"));
    AtConcat(text, |head| + |a|, b, c + "}");
    AtConcat(text, |head| + |a| + |b|, c, "}");
    AtChar(text, |head| + |a| + |b| + |c|, "}", 0);
  }

  lemma AllIsText(text: string)
    ensures At(text, 0, text)
  {
  }

  lemma HeadOpens(text: string, rest: string)
    requires text == "attributes{" + rest
    ensures OpensHere(text)
  {
    hide WordEnd;
    assert text[10] == "attributes{"[10];
    assert text == "attributes" + ("{" + rest) by {
      assert "attributes" + "{" == "attributes{";
    }
    WordAtStart(text, "{" + rest);
    OpensAtBrace(text);
  }

  lemma PartsEnds(text: string, i: nat, ps: seq<Part>)
    requires GoodParts(ps) && At(text, i, PrintParts(ps))
    ensures |PrintParts(ps)| > 0 && i + |PrintParts(ps)| <= |text|
    ensures IsQuote(text[i]) && IsQuote(text[i + |PrintParts(ps)| - 1])
  {
    hide At, PrintParts, GoodPart, IsQuote, PrintLiteral;
    PartsEnd(text, i, ps);
    assert ps[0] in ps;
    PartsSplit(text, i, ps);
  }

  lemma LetterIsSolid(text: string, i: nat, limit: nat)
    requires i < limit <= |text| && text[i] == 'a'
    ensures Solid(text, i, limit)
  {
  }

  /** The scanners inside such a block. */
  lemma SplitKeyScans(text: string, first: seq<Part>, it: Item, i: nat, j: nat, second: seq<Part>)
    requires GoodParts(first) && GoodParts(second) && IsAttributes(it) && GoodItem(it)
    requires |text| > 11 && text[10] == '{' && text[|text| - 1] == '}'
    requires At(text, 11, PrintItem(KeyFieldOf(first))) && i == 11 + |PrintItem(KeyFieldOf(first))|
    requires At(text, i, PrintItem(it)) && i < j == i + |PrintItem(it)| && At(text, j, PrintParts(second))
    requires j + |PrintParts(second)| == |text| - 1 && text[i] == 'a' && MidLine(text, i) && Ended(text, j)
    ensures CloseFrom(text, 11, |text|, 1) == Ok(|text|)
    ensures KeyFrom(text, 10, |text|, 0, None) == Ok(Some(PartsMeaning(first)))
    ensures BlocksFrom(text, 11, |text| - 1, 0) == Ok(ItemBlocks(it, i, false))
  {
    hide GoodValue, PrintParts, PartsMeaning, PrintItem, GoodItem, KeyFieldOf, CloseFrom, KeyFrom, BlocksFrom,
      ItemBlocks, MidLine, Ended, Calm, At, Solid, SetOff, IsAttributes;
    var n, c := |text|, |text| - 1;
    FieldIs(first);
    SplitKeyCalm(text, KeyFieldOf(first), i, j, second, n);
    CalmClose(text, 11, i, n, 1);
    SetOffMessage(it);
    CloseMessage(text, i, it, j, n, 1);
    CalmClose(text, j, c, n, 1);
    CloseBrace(text, c, n, 1);
    KeyBrace(text, 10, n, 0, None);
    KeyIs(first);
    KeyField(text, 11, KeyFieldOf(first), i, n);
    KeyMessage(text, i, it, j, n, 1, Some(PartsMeaning(first)));
    CalmKey(text, j, c, n, 1, Some(PartsMeaning(first)), true);
    KeyBrace(text, c, n, 1, Some(PartsMeaning(first)));
    KeyAtEnd(text, n, Some(PartsMeaning(first)));
    SplitKeyCalm(text, KeyFieldOf(first), i, j, second, c);
    CalmBlocks(text, 11, i, c, 0);
    AttributesBlocks(text, i, it, j, c, 0, false);
    CalmBlocks(text, j, c, c, 0);
    BlocksElsewhere(text, c, c, 0);
    NothingFollows(ItemBlocks(it, i, false));
  }

  lemma KeyIs(ps: seq<Part>)
    ensures KeyFieldOf(ps).value.Strings? && KeyFieldOf(ps).value.parts == ps
  {
  }

  lemma SetOffMessage(it: Item)
    requires IsAttributes(it)
    ensures it.Message? && it.name != "key" && SetOff(it)
  {
  }

  lemma SplitKeyCalm(text: string, field: Item, i: nat, j: nat, second: seq<Part>, limit: nat)
    requires field.Field? && GoodItem(field) && SetOff(field) && At(text, 11, PrintItem(field)) &&
             i == 11 + |PrintItem(field)|
    requires GoodParts(second) && At(text, j, PrintParts(second)) &&
             i < j <= j + |PrintParts(second)| <= limit <= |text|
    requires text[i] == 'a'
    ensures Solid(text, i, limit) && Calm(text, 11, i, limit, false)
    ensures Calm(text, j, j + |PrintParts(second)|, limit, true) &&
            Calm(text, j, j + |PrintParts(second)|, limit, false)
  {
    hide PrintParts, PrintItem, GoodItem, Calm, At, Solid, SetOff, GoodPart;
    LetterIsSolid(text, i, limit);
    FieldCalm(text, 11, field, limit, false);
    PartsCalm(text, j, second, limit);
    CalmForget(text, j, j + |PrintParts(second)|, limit);
  }

  lemma SplitKeyBlocks(text: string, first: seq<Part>, it: Item, i: nat, j: nat, second: seq<Part>)
    requires GoodParts(first) && GoodParts(second) && IsAttributes(it) && GoodItem(it)
    requires |text| > 11 && OpensHere(text) && text[|text| - 1] == '}'
    requires At(text, 11, PrintItem(KeyFieldOf(first))) && i == 11 + |PrintItem(KeyFieldOf(first))|
    requires At(text, i, PrintItem(it)) && i < j == i + |PrintItem(it)| && At(text, j, PrintParts(second))
    requires j + |PrintParts(second)| == |text| - 1 && text[i] == 'a' && MidLine(text, i) && Ended(text, j)
    ensures FindBlocks(text, 0, |text|).Ok?
    ensures var blocks := FindBlocks(text, 0, |text|).value;
            blocks != [] && blocks[0].key == Some(PartsMeaning(first)) && blocks[1..] == ItemBlocks(it, i, false)
  {
    hide GoodParts, PrintParts, PartsMeaning, PrintItem, GoodItem, KeyFieldOf, CloseFrom, KeyFrom, BlocksFrom,
      ItemBlocks, MidLine, Ended, At, IsAttributes, BlockAt, WordEnd, BlockOpen, DeletionSpan, ContentEnd;
    SplitKeyScans(text, first, it, i, j, second);
    BlocksAtAttributes(text, 0, |text|, 0);
    BlockAccepted(text, 0, 10, |text|);
    BlocksElsewhere(text, |text|, |text|, 0);
    NothingFollows(BlockAt(text, 0, 10, |text|).value.blocks);
  }

  /** The text begins with an attributes block. */
  predicate OpensHere(text: string) {
    && |text| > 10 && text[10] == '{' && WordEnd(text, 1, |text|) == 10 && text[0..10] == "attributes"
    && IsWordStart(text[0]) && !IsLexeme(text, 0, |text|) && BlockOpen(text, 10, |text|) == Some(10)
  }

  lemma OpensAtBrace(text: string)
    requires |text| > 10 && text[10] == '{'
    ensures BlockOpen(text, 10, |text|) == Some(10)
  {
  }

  /** The removed block stood between two parts of a key: the joined key is that of a document
      attribute. */
  lemma SplitKeyFails(text: string, first: seq<Part>, printed: string, second: seq<Part>)
    requires GoodParts(first) && GoodParts(second) && printed == VERSION_BLOCK
    requires !AttributeShouldGo(PartsMeaning(first)) && AttributeShouldGo(PartsMeaning(first) + PartsMeaning(second))
    requires |first| == |second| == 1
    requires text == "attributes{" + (("key:" + PrintParts(first)) + (printed + (PrintParts(second) + "}")))
    ensures FindBlocks(text, 0, |text|).Ok? && Rewrite(text) == Err(AttributesLeft)
  {
    hide GoodParts, PrintParts, PartsMeaning, PrintItem, FindBlocks, At, Version, Block, CodesOf, AttributeShouldGo,
      Rewrite, Checked, GoodSep;
    var field := "key:" + PrintParts(first);
    var i, j := 11 + |field|, 11 + |field| + |printed|;
    SplitKeyFinds(text, first, printed, second);
    OneCut(text, i, j, AttrBlock(i, j, Some(CodesOf(DOCUMENT_ATTRIBUTE))));
    var removed :| Rewrite(text) == Checked(text[..i] + text[j..], removed);
    JoinedParts(first, second);
    var sep := Sep("", false, "");
    NothingBetween();
    BlockIs(sep, first + second);
    LeftText(text, field, printed, PrintParts(second));
    SplitKeyText(PrintParts(first), PrintParts(second));
    LeftFails(sep, first + second, removed);
  }

  lemma NothingBetween()
    ensures GoodSep(Sep("", false, "")) && GoodSep(Sep(" ", false, ""))
  {
  }

  lemma SplitKeyFinds(text: string, first: seq<Part>, printed: string, second: seq<Part>)
    requires GoodParts(first) && GoodParts(second) && printed == VERSION_BLOCK
    requires !AttributeShouldGo(PartsMeaning(first))
    requires text == "attributes{" + (("key:" + PrintParts(first)) + (printed + (PrintParts(second) + "}")))
    ensures var i := 11 + |"key:" + PrintParts(first)|; var j := i + |printed|;
            && j <= |text| && FindBlocks(text, 0, |text|).Ok?
            && var blocks := FindBlocks(text, 0, |text|).value;
               |blocks| == 2 && blocks[1] == AttrBlock(i, j, Some(CodesOf(DOCUMENT_ATTRIBUTE))) && !Goes(blocks[0])
  {
    hide GoodParts, PrintParts, PartsMeaning, PrintItem, GoodItem, KeyFieldOf, BlocksFrom, ItemBlocks, Ended, MidLine,
      At, IsAttributes, Version, CodesOf, AttributeShouldGo, IsQuote, OpensHere;
    VersionIs();
    FieldIs(first);
    var i := 11 + |"key:" + PrintParts(first)|;
    var j := i + |printed|;
    VersionBegins();
    SplitKeyParts(text, first, printed, second);
    HeadOpens(text, ("key:" + PrintParts(first)) + (printed + (PrintParts(second) + "}")));
    QuoteStands(text, i, j);
    SplitKeyBlocks(text, first, Version(), i, j, second);
  }

  lemma VersionBegins()
    ensures VERSION_BLOCK != "" && VERSION_BLOCK[0] == 'a'
  {
  }

  lemma QuoteStands(text: string, i: nat, j: nat)
    requires 0 < i < j < |text| && IsQuote(text[i - 1]) && IsQuote(text[j])
    ensures MidLine(text, i) && Ended(text, j)
  {
  }

  lemma JoinedParts(first: seq<Part>, second: seq<Part>)
    requires GoodParts(first) && GoodParts(second) && |first| == |second| == 1
    ensures GoodParts(first + second) && PrintParts(first + second) == PrintParts(first) + PrintParts(second)
    ensures PartsMeaning(first + second) == PartsMeaning(first) + PartsMeaning(second)
  {
    hide GoodParts, PrintLiteral, PrintParts, PartsMeaning, Meaning;
    GoodTogether(first, second);
    OneAndMore(first, second);
    NoParts();
    PartsUnfold(first);
    PartsUnfold(first + second);
    Regrouped(first[0].gap, PrintLiteral(first[0].literal), PrintParts(second));
    MeaningUnfold(first);
    MeaningUnfold(first + second);
    NothingMeant(first);
  }

  lemma OneAndMore(first: seq<Part>, second: seq<Part>)
    requires |first| == 1
    ensures (first + second)[0] == first[0] && (first + second)[1..] == second && first[1..] == []
  {
  }

  lemma Regrouped(a: string, b: string, c: string)
    ensures a + (b + c) == (a + (b + "")) + c
  {
    assert b + "" == b;
  }

  lemma NothingMeant(first: seq<Part>)
    requires |first| == 1
    ensures PartsMeaning(first) == Meaning(first[0].literal.pieces)
  {
    hide Meaning;
    OnePart(first);
  }

  lemma MeaningUnfold(ps: seq<Part>)
    requires |ps| > 0
    ensures PartsMeaning(ps) == Meaning(ps[0].literal.pieces) + PartsMeaning(ps[1..])
  {
    hide Meaning;
  }

  lemma GoodTogether(first: seq<Part>, second: seq<Part>)
    requires GoodParts(first) && GoodParts(second)
    ensures GoodParts(first + second)
  {
    hide GoodPart;
    assert forall p :: p in first + second <==> p in first || p in second;
  }

  lemma LeftText(text: string, field: string, printed: string, second: string)
    requires text == "attributes{" + (field + (printed + (second + "}")))
    ensures var i := 11 + |field|; var j := i + |printed|;
            j <= |text| && text[..i] + text[j..] == "attributes{" + field + (second + "}")
  {
    assert text[..11 + |field|] == "attributes{" + field;
    assert text[11 + |field| + |printed|..] == second + "}";
  }

  lemma SplitKeyText(first: string, second: string)
    ensures "attributes{" + ("key:" + first) + (second + "}") ==
            "attributes" + PrintSep(Sep("", false, "")) + "{key:" + (first + second) + "}"
  {
    assert PrintSep(Sep("", false, "")) == "";
    assert "attributes{" + "key:" == "attributes" + "" + "{key:";
  }

  /** Two strings around the removed block become one key, of a document attribute. */
  lemma {:induction false} JoinedKeyFails()
    ensures var text := "attributes{key:" + Quoted("dyna") + VERSION_BLOCK + Quoted("modb") + "}";
            FindBlocks(text, 0, |text|).Ok? && Rewrite(text) == Err(AttributesLeft)
  {
    hide Rewrite, FindBlocks, GoodValue, PrintParts, PartsMeaning, PlainLiteral, Quoted;
    OnePlain("dyna");
    OnePlain("modb");
    var first, second := [Part("", PlainLiteral("dyna"))], [Part("", PlainLiteral("modb"))];
    KeyTextIs(Quoted("dyna"), VERSION_BLOCK, Quoted("modb"));
    assert CodesOf("dyna") + CodesOf("modb") == CodesOf(DYNAMODB_ATTRIBUTE_PREFIX);
    assert CodesOf("dyna")[2] != CodesOf(DOCUMENT_ATTRIBUTE)[2];
    SplitKeyFails("attributes{" + (("key:" + Quoted("dyna")) + (VERSION_BLOCK + (Quoted("modb") + "}"))), first,
      VERSION_BLOCK, second);
  }

  lemma KeyTextIs(a: string, b: string, c: string)
    ensures "attributes{" + (("key:" + a) + (b + (c + "}"))) == "attributes{key:" + a + b + c + "}"
  {
    assert "attributes{" + "key:" == "attributes{key:";
  }
}
