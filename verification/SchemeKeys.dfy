/** Key extraction on printed trees: the key of a printed attributes block is the meaning of
    its `key` field, whatever else the block contains. */
module SchemeKeys {
  import opened Wrappers
  import opened SchemeLexer
  import opened SchemeScan
  import opened SchemePrint
  import opened SchemeLines
  import opened SchemeTree

  /** Blanks, ':', ';' and ','. */
  predicate AllSoft(text: string, i: nat, j: nat)
    requires j <= |text|
  {
    forall k :: i <= k < j ==> IsBlank(text[k]) || text[k] == ':' || text[k] == ';' || text[k] == ','
  }

  /** A message is: soft characters, its name, soft characters, '{', soft characters, its
      body, soft characters, '}', soft characters. */
  lemma MessageSoft(text: string, i: nat, it: Item, j: nat, limit: nat)
    requires it.Message? && GoodItem(it) && Laid(text, i, it, j, limit)
    ensures var n := KeywordAt(it, i); var w := n + |it.name|; var b := BraceAt(it, i); var c := CloseAt(it, i);
            && i <= n < w <= b < b + 1 <= BodyAt(it, i) <= FootAt(it, i) <= c < c + 1 <= j
            && AllSoft(text, i, n)
            && IsWordStart(text[n]) && text[n..w] == it.name && WordEnd(text, n + 1, limit) == w
            && AllSoft(text, w, b)
            && text[b] == '{'
            && AllSoft(text, b + 1, BodyAt(it, i))
            && At(text, BodyAt(it, i), Print(it.body))
            && AllSoft(text, FootAt(it, i), c)
            && text[c] == '}'
            && AllSoft(text, c + 1, j)
  {
    hide At, Print, GoodItem, PrintItem, WordEnd, SpanEnd, ValueStart, PrintSep;
    MessageHead(text, i, it, j, limit);
    MessageFoot(text, i, it, j, limit);
  }

  lemma MessageBodySolid(text: string, i: nat, it: Item, j: nat, limit: nat, limit': nat)
    requires it.Message? && GoodItem(it) && Laid(text, i, it, j, limit)
    requires CloseAt(it, i) <= limit' <= limit
    ensures Good(it.body) && FootAt(it, i) <= limit' && Solid(text, FootAt(it, i), limit') &&
            Stops(text, FootAt(it, i), limit')
  {
    hide At, Print, Good, PrintItem, Solid, AllSoft, GoodValue, Identifier;
    MessagePlain(text, i, it, j, limit);
    FootIsSolid(text, FootAt(it, i), CloseAt(it, i), limit');
  }

  lemma KeySoft(text: string, i: nat, j: nat, limit: nat, depth: int, key: Option<Codes>)
    requires i <= j <= limit <= |text| && AllSoft(text, i, j)
    ensures KeyFrom(text, i, limit, depth, key) == KeyFrom(text, j, limit, depth, key)
  {
    BlanksCalm(text, i, j, limit);
    CalmKey(text, i, j, limit, depth, key, true);
  }

  lemma KeyWord(text: string, n: nat, w: nat, limit: nat, depth: int, key: Option<Codes>)
    requires n < w <= limit <= |text| && IsWordStart(text[n]) && WordEnd(text, n + 1, limit) == w
    requires depth == 1 ==> text[n..w] != "key"
    ensures KeyFrom(text, n, limit, depth, key) == KeyFrom(text, w, limit, depth, key)
  {
    hide WordEnd, StringsFrom;
  }

  lemma KeyBrace(text: string, b: nat, limit: nat, depth: int, key: Option<Codes>)
    requires b < limit <= |text|
    ensures text[b] == '{' ==> KeyFrom(text, b, limit, depth, key) == KeyFrom(text, b + 1, limit, depth + 1, key)
    ensures text[b] == '}' ==> KeyFrom(text, b, limit, depth, key) == KeyFrom(text, b + 1, limit, depth - 1, key)
  {
    hide StringsFrom;
  }

  // ---------- items below the top of an attributes block ----------

  lemma {:induction false} KeyMessage(text: string, i: nat, it: Item, j: nat, limit: nat, depth: nat,
                                      key: Option<Codes>)
    requires it.Message? && GoodItem(it) && Laid(text, i, it, j, limit)
    requires depth >= 1 && (depth == 1 ==> it.name != "key")
    ensures KeyFrom(text, i, limit, depth, key) == KeyFrom(text, j, limit, depth, key)
    decreases it, 0
  {
    hide At, Print, GoodItem, PrintItem, WordEnd, AllSoft, Solid, KeyFrom;
    var n, w, b, c := KeywordAt(it, i), KeywordAt(it, i) + |it.name|, BraceAt(it, i), CloseAt(it, i);
    MessageSoft(text, i, it, j, limit);
    KeySoft(text, i, n, limit, depth, key);
    KeyWord(text, n, w, limit, depth, key);
    KeySoft(text, w, b, limit, depth, key);
    KeyBrace(text, b, limit, depth, key);
    KeySoft(text, b + 1, BodyAt(it, i), limit, depth + 1, key);
    MessageBodySolid(text, i, it, j, limit, limit);
    KeyItems(text, BodyAt(it, i), it.body, FootAt(it, i), limit, depth + 1, key);
    KeySoft(text, FootAt(it, i), c, limit, depth + 1, key);
    KeyBrace(text, c, limit, depth + 1, key);
    KeySoft(text, c + 1, j, limit, depth, key);
  }

  lemma {:induction false} KeyItems(text: string, i: nat, items: seq<Item>, j: nat, limit: nat, depth: nat,
                                    key: Option<Codes>)
    requires Good(items) && depth >= 2
    requires At(text, i, Print(items)) && j == i + |Print(items)| && Stops(text, j, limit)
    requires Solid(text, j, limit)
    ensures KeyFrom(text, i, limit, depth, key) == KeyFrom(text, j, limit, depth, key)
    decreases items, 0
  {
    hide At, Solid, KeyFrom, PrintItem, GoodItem, Calm, KeyFree;
    if items != [] {
      ItemsParts(text, i, items, j, limit);
      var m := i + |PrintItem(items[0])|;
      if items[0].Message? {
        KeyMessage(text, i, items[0], m, limit, depth, key);
      } else {
        LineCalm(text, i, items[0], m, limit, false);
        CalmKey(text, i, m, limit, depth, key, false);
      }
      KeyItems(text, m, items[1..], j, limit, depth, key);
    }
  }

  // ---------- the top of an attributes block ----------

  function Or(a: Option<Codes>, b: Option<Codes>): Option<Codes> {
    if a.Some? then a else b
  }

  /** A `key` field: the scanner reads its strings and stops before the next item. */
  lemma {:induction false} KeyField(text: string, i: nat, it: Item, j: nat, limit: nat)
    requires IsKeyField(it) && GoodItem(it) && Laid(text, i, it, j, limit) && Solid(text, j, limit)
    ensures KeyFrom(text, i, limit, 1, None) == KeyFrom(text, j, limit, 1, Some(PartsMeaning(it.value.parts)))
  {
    hide At, Solid, KeyFrom, WordEnd, GoodValue, PartsMeaning, SkipBlanks, ValueStart, BlockOpen, AllSoft, PrintParts,
      PrintSep, GoodItem, PrintItem, GoodSep, GoodEol, Stops, IsWordChar, IsWordStart, IsQuote;
    var n, w, v, m := i + |it.indent|, i + |it.indent| + |it.name|, ValueAt(it, i), MarkAt(it, i);
    FieldParts(text, i, it, limit);
    GoodField(it);
    SoftRange(text, i, n);
    KeySoft(text, i, n, limit, 1, None);
    MarkEnds(text, m, it.mark, it.eol, limit);
    SoftRange(text, m, j);
    KeyReads(text, n, w, v, it.value.parts, j, limit);
  }

  /** From the word `key` over its strings to what follows the field. */
  lemma KeyReads(text: string, n: nat, w: nat, v: nat, ps: seq<Part>, j: nat, limit: nat)
    requires n < w <= limit <= |text| && IsWordStart(text[n]) && WordEnd(text, n + 1, limit) == w
    requires text[n..w] == "key" && ValueStart(text, w, limit) == v
    requires GoodValue(Strings(ps)) && At(text, v, PrintParts(ps))
    requires var m := v + |PrintParts(ps)|; v < m <= j <= limit && Solid(text, m, limit) && AllSoft(text, m, j)
    requires !IsBlank(text[v])
    ensures KeyFrom(text, n, limit, 1, None) == KeyFrom(text, j, limit, 1, Some(PartsMeaning(ps)))
  {
    hide At, Solid, KeyFrom, WordEnd, GoodValue, PartsMeaning, SkipBlanks, ValueStart, AllSoft, PrintParts, IsBlank,
      IsWordStart;
    var m, value := v + |PrintParts(ps)|, Some(PartsMeaning(ps));
    KeyStrings(text, v, ps, limit);
    SkipIsSoft(text, m, limit);
    KeySoft(text, m, j, limit, 1, value);
    KeySoft(text, m, SkipBlanks(text, m, limit), limit, 1, value);
    KeyWordReads(text, n, w, limit, value.value, SkipBlanks(text, m, limit));
  }

  lemma SoftRange(text: string, i: nat, j: nat)
    requires i <= j <= |text|
    requires forall k :: i <= k < j ==> IsBlank(text[k]) || text[k] == ';' || text[k] == ','
    ensures AllSoft(text, i, j)
  {
  }

  lemma SkipIsSoft(text: string, e: nat, limit: nat)
    requires e <= limit <= |text|
    ensures e <= SkipBlanks(text, e, limit) <= limit
    ensures AllSoft(text, e, SkipBlanks(text, e, limit))
  {
  }

  lemma KeyStrings(text: string, v: nat, ps: seq<Part>, limit: nat)
    requires GoodValue(Strings(ps)) && At(text, v, PrintParts(ps))
    requires v < v + |PrintParts(ps)| <= limit <= |text| && !IsBlank(text[v])
    requires Solid(text, v + |PrintParts(ps)|, limit)
    ensures StringsFrom(text, v, limit) ==
            Ok(StringsRead(Some(PartsMeaning(ps)), SkipBlanks(text, v + |PrintParts(ps)|, limit)))
  {
    hide At, Solid, StringsFrom, PrintParts, GoodPart, PartsMeaning;
    PartsRead(text, v, ps, limit);
    assert SkipBlanks(text, v, limit) == v;
  }

  lemma KeyWordReads(text: string, n: nat, w: nat, limit: nat, value: Codes, next: nat)
    requires n < w <= limit <= |text| && IsWordStart(text[n]) && WordEnd(text, n + 1, limit) == w
    requires text[n..w] == "key" && next <= limit
    requires StringsFrom(text, ValueStart(text, w, limit), limit) == Ok(StringsRead(Some(value), next))
    ensures KeyFrom(text, n, limit, 1, None) == KeyFrom(text, next, limit, 1, Some(value))
  {
    hide WordEnd, StringsFrom, ValueStart;
  }

  /** Over the body of an attributes block the scanner picks up exactly the tree's key. */
  lemma {:induction false} KeyTop(text: string, i: nat, items: seq<Item>, j: nat, limit: nat, key: Option<Codes>)
    requires Good(items) && (if key.Some? then forall it :: it in items ==> KeyFree(it) else OneKey(items))
    requires At(text, i, Print(items)) && j == i + |Print(items)| && Stops(text, j, limit)
    requires Solid(text, j, limit)
    ensures KeyFrom(text, i, limit, 1, key) == KeyFrom(text, j, limit, 1, Or(KeyOf(items), key))
    decreases items, 0
  {
    hide At, Solid, KeyFrom, PrintItem, GoodItem, Calm, PartsMeaning, KeyFree;
    if items != [] {
      ItemsParts(text, i, items, j, limit);
      var it, m := items[0], i + |PrintItem(items[0])|;
      KeyFreeIsNoKey(it);
      if IsKeyField(it) {
        KeyField(text, i, it, m, limit);
        KeyTop(text, m, items[1..], j, limit, Some(PartsMeaning(it.value.parts)));
        KeyFreeHasNone(items[1..]);
      } else {
        if it.Message? {
          KeyMessage(text, i, it, m, limit, 1, key);
        } else {
          LineCalm(text, i, it, m, limit, true);
          CalmKey(text, i, m, limit, 1, key, true);
        }
        KeyTop(text, m, items[1..], j, limit, key);
      }
    }
  }

  lemma KeyFreeIsNoKey(it: Item)
    ensures KeyFree(it) ==> !IsKeyField(it)
    ensures KeyFree(it) && it.Message? ==> it.name != "key"
  {
  }

  lemma {:induction false} KeyFreeHasNone(items: seq<Item>)
    requires forall it :: it in items ==> KeyFree(it)
    ensures KeyOf(items) == None
  {
    if items != [] {
      assert KeyFree(items[0]);
      KeyFreeHasNone(items[1..]);
    }
  }

  /** The key of a printed attributes block is the key of its tree. */
  lemma {:induction false} KeyOfPrinted(text: string, i: nat, it: Item, j: nat, limit: nat)
    requires it.Message? && it.name == "attributes" && GoodItem(it) && Laid(text, i, it, j, limit)
    ensures BraceAt(it, i) < CloseAt(it, i) < j
    ensures KeyFrom(text, BraceAt(it, i), CloseAt(it, i) + 1, 0, None) == Ok(KeyOf(it.body))
  {
    hide At, Print, PrintItem, WordEnd, AllSoft, Solid, KeyFrom, KeyOf, Good;
    var b, c, key := BraceAt(it, i), CloseAt(it, i), KeyOf(it.body);
    var close := c + 1;
    MessageSoft(text, i, it, j, limit);
    KeyBrace(text, b, close, 0, None);
    KeySoft(text, b + 1, BodyAt(it, i), close, 1, None);
    MessageBodySolid(text, i, it, j, limit, close);
    KeyTop(text, BodyAt(it, i), it.body, FootAt(it, i), close, None);
    KeySoft(text, FootAt(it, i), c, close, 1, key);
    KeyBrace(text, c, close, 1, key);
    KeyAtEnd(text, close, key);
  }

  lemma KeyAtEnd(text: string, end: nat, key: Option<Codes>)
    requires end <= |text|
    ensures KeyFrom(text, end, end, 0, key) == Ok(key)
  {
  }
}
