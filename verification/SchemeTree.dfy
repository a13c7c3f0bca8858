/** The scanners on whole printed trees: matching braces, extracting the key of an
    attributes block, and finding the blocks. */
module SchemeTree {
  import opened Wrappers
  import opened SchemeLexer
  import opened SchemeScan
  import opened SchemeSpans
  import opened SchemePrint
  import opened SchemeLines

  // ---------- where the parts of a message begin ----------

  function KeywordAt(it: Item, i: nat): nat
    requires it.Message?
  {
    i + |it.indent|
  }

  function BraceAt(it: Item, i: nat): nat
    requires it.Message?
  {
    KeywordAt(it, i) + |it.name| + |PrintSep(it.sep)|
  }

  function BodyAt(it: Item, i: nat): nat
    requires it.Message?
  {
    BraceAt(it, i) + 1 + |it.openEol|
  }

  function FootAt(it: Item, i: nat): nat
    requires it.Message?
  {
    BodyAt(it, i) + |Print(it.body)|
  }

  /** Position of the '}'. */
  function CloseAt(it: Item, i: nat): nat
    requires it.Message?
  {
    FootAt(it, i) + |it.closeIndent|
  }

  function ContentEndAt(it: Item, i: nat): nat
    requires it.Message?
  {
    CloseAt(it, i) + 1 + if it.semicolon then 1 else 0
  }

  /** Item `it` is printed in text[i..j], inside the scanned range. */
  predicate Laid(text: string, i: nat, it: Item, j: nat, limit: nat) {
    At(text, i, PrintItem(it)) && j == i + |PrintItem(it)| && j <= limit <= |text| &&
      (SetOff(it) || Stops(text, j, limit))
  }

  predicate IsIndent(text: string, i: nat, j: nat)
    requires j <= |text|
  {
    forall k :: i <= k < j ==> text[k] == ' ' || text[k] == '\t'
  }

  lemma HeadParts(text: string, i: nat, indent: string, name: string, sep: Sep, eol: string, limit: nat)
    requires Indentation(indent) && Identifier(name) && GoodSep(sep) && GoodEol(eol)
    requires At(text, i, indent + (name + (PrintSep(sep) + ("{" + eol))))
    requires i + |indent| + |name| < limit <= |text|
    ensures var n := i + |indent|; var w := n + |name|; var b := w + |PrintSep(sep)|;
            && b + 1 <= b + 1 + |eol| <= |text|
            && IsIndent(text, i, n)
            && IsWordStart(text[n]) && text[n..w] == name && WordEnd(text, n + 1, limit) == w
            && (forall k :: n <= k < w ==> IsWordChar(text[k]))
            && At(text, w, PrintSep(sep)) && text[b] == '{' && At(text, b + 1, eol)
  {
    hide At, WordEnd, SpanEnd, GoodEol, AllBlank, EndsLine, PrintSep, GoodSep, IsBlank, IsWordChar, IsWordStart,
      Identifier;
    var n, w, b := i + |indent|, i + |indent| + |name|, i + |indent| + |name| + |PrintSep(sep)|;
    var open := "{" + eol;
    BraceEndsName(sep, eol);
    IndentParts(text, i, indent, name + (PrintSep(sep) + open));
    NameParts(text, n, name, PrintSep(sep) + open, limit);
    AtConcat(text, w, PrintSep(sep), open);
    AtConcat(text, b, "{", eol);
    AtChars(text, b, "{");
    assert text[b + 0] == '{';
    AtLength(text, b + 1, eol);
  }

  lemma BraceEndsName(sep: Sep, eol: string)
    requires GoodSep(sep)
    ensures var rest := PrintSep(sep) + ("{" + eol); rest != "" && !IsWordChar(rest[0])
  {
    hide PrintSep, GoodSep;
    SepEndsName(sep, "{" + eol);
  }

  lemma MessageStarts(text: string, i: nat, it: Item, j: nat, limit: nat)
    requires it.Message? && GoodItem(it) && Laid(text, i, it, j, limit)
    ensures var n := KeywordAt(it, i); var w := n + |it.name|; var b := BraceAt(it, i); var body := BodyAt(it, i);
            && i <= n < w <= b < b + 1 <= body <= j
            && IsIndent(text, i, n)
            && IsWordStart(text[n]) && text[n..w] == it.name && WordEnd(text, n + 1, limit) == w
            && (forall k :: n <= k < w ==> IsWordChar(text[k]))
            && At(text, w, PrintSep(it.sep)) && text[b] == '{'
            && At(text, b + 1, it.openEol) && At(text, body, Print(it.body) + PrintFoot(it))
  {
    hide At, Print, PrintFoot, PrintItem, PrintSep, WordEnd, Good, Identifier, GoodEol, GoodSep, EndsLine, IsIndent,
      IsWordStart, IsWordChar, IsBlank, Stops;
    MessageIs(it);
    AtConcat(text, i, PrintHead(it), Print(it.body) + PrintFoot(it));
    AtLength(text, BodyAt(it, i), Print(it.body) + PrintFoot(it));
    MessageLength(it, i);
    NotEmptyName(it.name);
    HeadParts(text, i, it.indent, it.name, it.sep, it.openEol, limit);
  }

  lemma MessageHead(text: string, i: nat, it: Item, j: nat, limit: nat)
    requires it.Message? && GoodItem(it) && Laid(text, i, it, j, limit)
    ensures var n := KeywordAt(it, i); var w := n + |it.name|; var b := BraceAt(it, i); var body := BodyAt(it, i);
            && i <= n < w <= b < b + 1 <= body <= j
            && IsIndent(text, i, n)
            && IsWordStart(text[n]) && text[n..w] == it.name && WordEnd(text, n + 1, limit) == w
            && (forall k :: n <= k < w ==> IsWordChar(text[k]))
            && (forall k :: w <= k < b ==> IsBlank(text[k]) || text[k] == ':') && ValueStart(text, w, limit) == b
            && text[b] == '{'
            && (forall k :: b < k < body ==> IsBlank(text[k])) && (EndsLine(it.openEol) ==> text[body - 1] == '\n')
            && At(text, b + 1, it.openEol) && At(text, body, Print(it.body) + PrintFoot(it))
  {
    hide At, Print, PrintFoot, PrintItem, PrintSep, WordEnd, GoodItem, GoodEol, GoodSep, EndsLine, IsIndent,
      IsWordStart, IsWordChar, IsBlank, ValueStart, Stops, AllBlank;
    MessageIs(it);
    MessageStarts(text, i, it, j, limit);
    SepParts(text, KeywordAt(it, i) + |it.name|, it.sep);
    BraceStarts(text[BraceAt(it, i)]);
    EolBlank(it.openEol);
    EolParts(text, BraceAt(it, i) + 1, it.openEol);
  }

  lemma MessageIs(it: Item)
    requires it.Message?
    ensures PrintItem(it) == PrintHead(it) + (Print(it.body) + PrintFoot(it))
    ensures GoodItem(it) ==>
              && Indentation(it.indent) && Identifier(it.name) && GoodSep(it.sep)
              && GoodEol(it.openEol) && Indentation(it.closeIndent) && GoodEol(it.eol) && Good(it.body)
  {
    hide Print, PrintHead, PrintFoot, Good, Indentation, Identifier, GoodSep, GoodEol;
  }

  lemma BraceStarts(c: char)
    ensures c == '{' ==> !IsBlank(c) && c != ':'
  {
  }

  lemma FootParts(text: string, f: nat, indent: string, semicolon: bool, eol: string)
    requires Indentation(indent) && GoodEol(eol)
    requires At(text, f, indent + ("}" + ((if semicolon then ";" else "") + eol)))
    ensures var c := f + |indent|; var e := c + 1 + (if semicolon then 1 else 0); var j := e + |eol|;
            && f <= c < e <= j <= |text|
            && IsIndent(text, f, c)
            && text[c] == '}'
            && (semicolon ==> text[c + 1] == ';')
            && (forall k :: e <= k < j ==> IsBlank(text[k])) && (EndsLine(eol) ==> text[j - 1] == '\n')
            && At(text, e, eol)
  {
    hide At, SpanEnd, GoodEol, AllBlank, EndsLine;
    var c, semi := f + |indent|, if semicolon then ";" else "";
    IndentParts(text, f, indent, "}" + (semi + eol));
    AtConcat(text, c, "}", semi + eol);
    AtChars(text, c, "}");
    assert text[c + 0] == '}';
    AtConcat(text, c + 1, semi, eol);
    AtChars(text, c + 1, semi);
    assert semicolon ==> text[c + 1 + 0] == ';';
    EolBlank(eol);
    EolParts(text, c + 1 + |semi|, eol);
  }

  lemma MessageFoot(text: string, i: nat, it: Item, j: nat, limit: nat)
    requires it.Message? && GoodItem(it) && Laid(text, i, it, j, limit)
    ensures var f := FootAt(it, i); var c := CloseAt(it, i); var e := ContentEndAt(it, i);
            && BodyAt(it, i) <= f <= c < e <= j
            && At(text, BodyAt(it, i), Print(it.body))
            && IsIndent(text, f, c)
            && text[c] == '}'
            && (if it.semicolon then text[c + 1] == ';' && e == c + 2 else e == c + 1)
            && (forall k :: e <= k < j ==> IsBlank(text[k])) && (EndsLine(it.eol) ==> text[j - 1] == '\n')
            && At(text, e, it.eol) && j == e + |it.eol|
  {
    hide At, Print, PrintItem, Good, GoodItem, SpanEnd, PrintHead, WordEnd, Identifier, IsIndent, GoodEol, EndsLine,
      BodyAt;
    MessageIs(it);
    AtConcat(text, i, PrintHead(it), Print(it.body) + PrintFoot(it));
    MessageLength(it, i);
    AtConcat(text, BodyAt(it, i), Print(it.body), PrintFoot(it));
    FootParts(text, FootAt(it, i), it.closeIndent, it.semicolon, it.eol);
  }

  /** Everything in a message but its two braces, its name and its body is blank, ':' or ';'. */
  lemma MessagePlain(text: string, i: nat, it: Item, j: nat, limit: nat)
    requires it.Message? && GoodItem(it) && Laid(text, i, it, j, limit)
    ensures var b := BraceAt(it, i); var c := CloseAt(it, i);
            && i < b < b + 1 <= BodyAt(it, i) <= FootAt(it, i) <= c < c + 1 <= j
            && text[b] == '{' && text[c] == '}'
            && AllPlain(text, i, b) && AllPlain(text, b + 1, BodyAt(it, i))
            && AllPlain(text, FootAt(it, i), c) && AllPlain(text, c + 1, j)
            && At(text, BodyAt(it, i), Print(it.body))
            && IsIndent(text, FootAt(it, i), c)
  {
    hide At, Print, GoodItem, PrintItem, WordEnd, SpanEnd, ValueStart, PrintSep;
    MessageHead(text, i, it, j, limit);
    MessageFoot(text, i, it, j, limit);
  }

  lemma MessageLength(it: Item, i: nat)
    requires it.Message?
    ensures i + |PrintItem(it)| == ContentEndAt(it, i) + |it.eol|
    ensures i + |PrintHead(it)| == BodyAt(it, i)
  {
    hide Print, PrintSep;
  }

  /** Whether the next item begins a line. */
  predicate EndsFresh(it: Item) {
    match it
    case Comment(_, _, _, _) => true
    case Field(_, _, _, _, _, eol) => EndsLine(eol)
    case Message(_, _, _, _, _, _, _, eol) => EndsLine(eol)
    case Blank(_) => false
  }

  lemma NotBlank(it: Item)
    requires GoodItem(it)
    ensures !it.Blank?
  {
  }

  lemma ItemEndsLine(text: string, i: nat, it: Item, j: nat, limit: nat)
    requires GoodItem(it) && Laid(text, i, it, j, limit)
    ensures i < j && (EndsFresh(it) ==> text[j - 1] == '\n')
  {
    hide At, Calm, Print, PrintItem, GoodItem, WordEnd, SpanEnd, EndsLine, ValueStart, PrintValue, PrintSep;
    NotBlank(it);
    match it
    case Comment(_, _, _, _) => CommentCalm(text, i, it, limit);
    case Field(_, _, _, _, _, _) => FieldParts(text, i, it, limit);
    case Message(_, _, _, _, _, _, _, _) => MessageFoot(text, i, it, j, limit);
  }

  lemma ItemLineStart(text: string, i: nat, it: Item, j: nat, limit: nat)
    requires GoodItem(it) && At(text, i, PrintItem(it)) && j == i + |PrintItem(it)| && j <= limit <= |text|
    ensures Solid(text, i, limit)
  {
    hide At, Calm, Print, PrintItem, GoodItem, WordEnd, EndsLine, ValueStart, PrintValue, PrintSep;
    NotBlank(it);
    var n := i + |it.indent|;
    match it {
      case Comment(_, _, _, _) => CommentCalm(text, i, it, limit);
      case Field(_, _, _, _, _, _) => FieldParts(text, i, it, limit);
      case Message(_, _, _, _, _, _, _, _) => MessageHead(text, i, it, j, limit);
    }
    BlanksSkip(text, i, n, limit);
  }

  lemma ItemsUnfold(items: seq<Item>)
    requires items != []
    ensures Print(items) == PrintItem(items[0]) + Print(items[1..])
    ensures Good(items) ==> GoodItem(items[0]) && Good(items[1..]) && (items[1..] == [] || SetOff(items[0]))
  {
    hide PrintItem, GoodItem, SetOff;
  }

  lemma NoItems()
    ensures Print([]) == ""
  {
  }

  /** The first item of a list and the rest of it, as printed. */
  lemma ItemsParts(text: string, i: nat, items: seq<Item>, j: nat, limit: nat)
    requires items != [] && Good(items)
    requires At(text, i, Print(items)) && j == i + |Print(items)| && Stops(text, j, limit)
    requires Solid(text, j, limit)
    ensures var m := i + |PrintItem(items[0])|;
            && m <= j && GoodItem(items[0]) && Good(items[1..])
            && Laid(text, i, items[0], m, limit)
            && At(text, m, Print(items[1..])) && j == m + |Print(items[1..])|
            && Solid(text, m, limit)
            && i < m && (EndsFresh(items[0]) ==> text[m - 1] == '\n')
  {
    hide At, Print, PrintItem, GoodItem, Good, Solid, EndsFresh, SetOff;
    ItemsUnfold(items);
    var rest := items[1..];
    AtConcat(text, i, PrintItem(items[0]), Print(rest));
    var m := i + |PrintItem(items[0])|;
    if rest == [] {
      NoItems();
    } else {
      ItemsUnfold(rest);
      AtConcat(text, m, PrintItem(rest[0]), Print(rest[1..]));
      AtLength(text, m + |PrintItem(rest[0])|, Print(rest[1..]));
      ItemLineStart(text, m, rest[0], m + |PrintItem(rest[0])|, limit);
    }
    ItemEndsLine(text, i, items[0], m, limit);
  }

  lemma FootIsSolid(text: string, f: nat, c: nat, limit: nat)
    requires f <= c <= limit <= |text| && IsIndent(text, f, c)
    requires c < limit ==> text[c] == '}'
    ensures Solid(text, f, limit) && Stops(text, f, limit)
  {
    BlanksSkip(text, f, c, limit);
  }

  lemma {:induction false} LineCalm(text: string, i: nat, it: Item, j: nat, limit: nat, noKey: bool)
    requires !it.Message? && GoodItem(it) && Laid(text, i, it, j, limit) && Solid(text, j, limit)
    requires noKey ==> KeyFree(it)
    ensures Calm(text, i, j, limit, noKey)
  {
    hide At, Calm, PrintItem, GoodItem, Solid, KeyFree, Stops, SetOff;
    NotBlank(it);
    if it.Comment? {
      CommentCalm(text, i, it, limit);
      CalmWeaken(text, i, j, limit, noKey);
    } else {
      FieldCalm(text, i, it, limit, noKey);
    }
  }

  // ---------- matching braces ----------

  lemma {:induction false} CloseItem(text: string, i: nat, it: Item, j: nat, limit: nat, depth: nat)
    requires GoodItem(it) && Laid(text, i, it, j, limit) && Solid(text, j, limit) && depth >= 1
    ensures CloseFrom(text, i, limit, depth) == CloseFrom(text, j, limit, depth)
    decreases it, 2
  {
    hide At, Calm, Solid, PrintItem, CloseFrom, Print, GoodItem, SetOff, Stops;
    if it.Message? {
      CloseMessage(text, i, it, j, limit, depth);
    } else {
      LineCalm(text, i, it, j, limit, false);
      CalmClose(text, i, j, limit, depth);
    }
  }

  lemma {:induction false} CloseMessage(text: string, i: nat, it: Item, j: nat, limit: nat, depth: nat)
    requires it.Message? && GoodItem(it) && Laid(text, i, it, j, limit) && depth >= 1
    ensures CloseFrom(text, i, limit, depth) == CloseFrom(text, j, limit, depth)
    decreases it, 1
  {
    hide At, Calm, Solid, PrintItem, CloseFrom, Print, AllPlain, IsIndent, GoodItem;
    var b, c := BraceAt(it, i), CloseAt(it, i);
    MessagePlain(text, i, it, j, limit);
    ClosePlain(text, i, b, limit, depth);
    CloseBrace(text, b, limit, depth);
    CloseBody(text, i, it, j, limit, depth);
    CloseBrace(text, c, limit, depth + 1);
    ClosePlain(text, c + 1, j, limit, depth);
  }

  lemma CloseBrace(text: string, b: nat, limit: nat, depth: nat)
    requires b < limit <= |text| && depth >= 1
    ensures text[b] == '{' ==> CloseFrom(text, b, limit, depth) == CloseFrom(text, b + 1, limit, depth + 1)
    ensures text[b] == '}' ==>
              CloseFrom(text, b, limit, depth) == if depth == 1 then Ok(b + 1)
                else CloseFrom(text, b + 1, limit, depth - 1)
  {
  }

  /** From just after the '{' of a message to its '}'. */
  lemma {:induction false} CloseBody(text: string, i: nat, it: Item, j: nat, limit: nat, depth: nat)
    requires it.Message? && GoodItem(it) && Laid(text, i, it, j, limit)
    ensures BraceAt(it, i) < CloseAt(it, i) < j <= limit
    ensures CloseFrom(text, BraceAt(it, i) + 1, limit, depth + 1) == CloseFrom(text, CloseAt(it, i), limit, depth + 1)
    decreases it, 0
  {
    hide At, Calm, Solid, PrintItem, CloseFrom, Print, AllPlain, IsIndent, GoodValue;
    var b, body, f, c := BraceAt(it, i), BodyAt(it, i), FootAt(it, i), CloseAt(it, i);
    MessagePlain(text, i, it, j, limit);
    ClosePlain(text, b + 1, body, limit, depth + 1);
    FootIsSolid(text, f, c, limit);
    CloseItems(text, body, it.body, f, limit, depth + 1);
    ClosePlain(text, f, c, limit, depth + 1);
  }

  lemma {:induction false} CloseItems(text: string, i: nat, items: seq<Item>, j: nat, limit: nat, depth: nat)
    requires Good(items) && depth >= 1
    requires At(text, i, Print(items)) && j == i + |Print(items)| && Stops(text, j, limit)
    requires Solid(text, j, limit)
    ensures CloseFrom(text, i, limit, depth) == CloseFrom(text, j, limit, depth)
    decreases items, 0
  {
    hide At, Solid, CloseFrom, PrintItem, GoodItem;
    if items != [] {
      ItemsParts(text, i, items, j, limit);
      var m := i + |PrintItem(items[0])|;
      CloseItem(text, i, items[0], m, limit, depth);
      CloseItems(text, m, items[1..], j, limit, depth);
    }
  }
}
