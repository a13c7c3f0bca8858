/** A scheme without its document attributes, and what a scheme means without its layout. */
module SchemePrune {
  import opened Wrappers
  import opened SchemeScan
  import opened SchemeRewrite
  import opened SchemePrint
  import opened SchemeTree
  import opened SchemeBlocks

  predicate GoesItem(it: Item) {
    IsAttributes(it) && KeyOf(it.body).Some? && AttributeShouldGo(KeyOf(it.body).value)
  }

  /** The white space around a removed block that is not in its span. */
  function Residue(it: Item, begins: bool): string
    requires it.Message?
  {
    if begins then (if SpanEnd(it.eol, 0) <= |it.eol| then it.eol[SpanEnd(it.eol, 0)..] else "") else it.indent + it.eol
  }

  function PruneItem(it: Item, begins: bool): seq<Item>
    decreases it, 1
  {
    if GoesItem(it) then [Blank(Residue(it, begins))]
    else if it.Message? then [it.(body := Prune(it.body, EndsLine(it.openEol)))]
    else [it]
  }

  /** The items that are not document attributes, with the same done inside each message;
      in the place of a removed one only white space is left. */
  function Prune(items: seq<Item>, begins: bool): seq<Item>
    decreases items, 0
  {
    if items == [] then [] else PruneItem(items[0], begins) + Prune(items[1..], EndsFresh(items[0]))
  }

  predicate HasDocumentItem(it: Item)
    decreases it, 1
  {
    it.Message? && ((IsAttributes(it) && KeyOf(it.body) == Some(CodesOf(DOCUMENT_ATTRIBUTE))) || HasDocument(it.body))
  }

  /** Somewhere in the tree there is an attribute `__document_api_version`. */
  predicate HasDocument(items: seq<Item>)
    decreases items, 0
  {
    items != [] && (HasDocumentItem(items[0]) || HasDocument(items[1..]))
  }

  function RemovedItem(it: Item): seq<Codes>
    decreases it, 1
  {
    if GoesItem(it) then [KeyOf(it.body).value]
    else if it.Message? then RemovedNames(it.body)
    else []
  }

  /** The keys of the removed attributes in file order; those inside a removed block are
      not listed separately. */
  function RemovedNames(items: seq<Item>): seq<Codes>
    decreases items, 0
  {
    if items == [] then [] else RemovedItem(items[0]) + RemovedNames(items[1..])
  }

  lemma {:induction false} PruneKey(items: seq<Item>, begins: bool)
    ensures KeyOf(Prune(items, begins)) == KeyOf(items)
  {
    hide EndsFresh, PartsMeaning, Residue;
    if items != [] {
      var it, rest := items[0], Prune(items[1..], EndsFresh(items[0]));
      PruneKey(items[1..], EndsFresh(it));
      var kept := PruneItem(it, begins)[0];
      assert PruneItem(it, begins) == [kept] && Prune(items, begins) == [kept] + rest;
      assert ([kept] + rest)[1..] == rest;
      assert IsKeyField(kept) == IsKeyField(it);
    }
  }

  /** A well-formed tree in which blanks may stand for removed items. */
  predicate Mended(items: seq<Item>)
    decreases items, 0
  {
    items == [] || (MendedItem(items[0]) && Mended(items[1..]) && (items[1..] == [] || SetOff(items[0])))
  }

  predicate MendedItem(it: Item)
    decreases it, 1
  {
    match it
    case Blank(blanks) => AllBlank(blanks)
    case Message(indent, name, sep, openEol, body, closeIndent, _, eol) =>
      && Indentation(indent) && Identifier(name) && GoodSep(sep)
      && GoodEol(openEol) && Indentation(closeIndent) && GoodEol(eol)
      && Mended(body)
      && (name == "attributes" ==> OneKey(body))
    case _ => GoodItem(it)
  }

  predicate NoBlanks(items: seq<Item>)
    decreases items, 0
  {
    items == [] || (!items[0].Blank? && (items[0].Message? ==> NoBlanks(items[0].body)) && NoBlanks(items[1..]))
  }

  /** Without blanks this is the well-formedness of printed trees. */
  lemma {:induction false} MendedWithoutBlanks(items: seq<Item>)
    ensures Good(items) <==> Mended(items) && NoBlanks(items)
    decreases items, 0
  {
    hide GoodItem, MendedItem, SetOff;
    if items != [] {
      MendedItemWithoutBlanks(items[0]);
      MendedWithoutBlanks(items[1..]);
    }
  }

  lemma {:induction false} MendedItemWithoutBlanks(it: Item)
    ensures GoodItem(it) <==> MendedItem(it) && !it.Blank? && (it.Message? ==> NoBlanks(it.body))
    decreases it, 1
  {
    hide Identifier, GoodEol, Indentation, GoodValue, GoodSep, OneKey, AllBlank, Good, Mended, NoBlanks;
    match it
    case Message(_, _, _, _, body, _, _, _) => MendedWithoutBlanks(body);
    case _ =>
  }

  /** Pruning keeps a tree well formed but for blanks. */
  lemma {:induction false} PruneGood(items: seq<Item>, begins: bool)
    requires Mended(items)
    ensures Mended(Prune(items, begins))
    ensures Prune(items, begins) == [] <==> items == []
    decreases items, 0
  {
    hide EndsFresh, GoesItem, MendedItem, PruneItem, SetOff;
    if items != [] {
      var it, rest := items[0], Prune(items[1..], EndsFresh(items[0]));
      PruneGood(items[1..], EndsFresh(it));
      PruneGoodItem(it, begins);
      var kept := PruneItem(it, begins)[0];
      assert Prune(items, begins) == [kept] + rest;
      assert ([kept] + rest)[1..] == rest;
    }
  }

  lemma {:induction false} PruneGoodItem(it: Item, begins: bool)
    requires MendedItem(it)
    ensures |PruneItem(it, begins)| == 1 && MendedItem(PruneItem(it, begins)[0])
    ensures SetOff(it) ==> SetOff(PruneItem(it, begins)[0])
    decreases it, 1
  {
    hide EndsFresh, Mended, OneKey, AllBlank, KeyOf, Residue;
    if GoesItem(it) {
      ResidueIsBlank(it, begins);
    } else if it.Message? {
      PruneGood(it.body, EndsLine(it.openEol));
      PruneOneKey(it.body, EndsLine(it.openEol));
    }
  }

  lemma ResidueIsBlank(it: Item, begins: bool)
    requires it.Message? && Indentation(it.indent) && GoodEol(it.eol)
    ensures AllBlank(Residue(it, begins))
  {
  }

  lemma {:induction false} PruneOneKey(items: seq<Item>, begins: bool)
    ensures OneKey(items) ==> OneKey(Prune(items, begins))
    ensures (forall it :: it in items ==> KeyFree(it)) ==> forall it :: it in Prune(items, begins) ==> KeyFree(it)
    decreases |items|
  {
    hide EndsFresh, GoesItem, KeyFree, PruneItem;
    if items != [] {
      var it, rest := items[0], Prune(items[1..], EndsFresh(items[0]));
      PruneOneKey(items[1..], EndsFresh(it));
      PruneKeyFree(it, begins);
      var kept := PruneItem(it, begins)[0];
      assert Prune(items, begins) == [kept] + rest;
      assert ([kept] + rest)[1..] == rest;
      assert forall x :: x in items ==> x == it || x in items[1..];
      assert it in items && forall x :: x in items[1..] ==> x in items;
    }
  }

  lemma PruneKeyFree(it: Item, begins: bool)
    ensures |PruneItem(it, begins)| == 1
    ensures KeyFree(it) ==> KeyFree(PruneItem(it, begins)[0])
    ensures IsKeyField(PruneItem(it, begins)[0]) == IsKeyField(it)
    ensures IsKeyField(it) ==> PruneItem(it, begins)[0] == it
  {
    hide Residue, KeyOf;
  }

  /** No document attribute is left in the pruned tree. */
  lemma {:induction false} PrunedHasNone(items: seq<Item>, begins: bool)
    ensures !HasDocument(Prune(items, begins))
    decreases items, 0
  {
    hide EndsFresh, KeyOf, Residue, EndsLine;
    if items != [] {
      var it, rest := items[0], Prune(items[1..], EndsFresh(items[0]));
      PrunedHasNone(items[1..], EndsFresh(it));
      var kept := PruneItem(it, begins)[0];
      assert Prune(items, begins) == [kept] + rest;
      assert ([kept] + rest)[1..] == rest;
      if it.Message? {
        PrunedHasNone(it.body, EndsLine(it.openEol));
        PruneKey(it.body, EndsLine(it.openEol));
      }
      DocumentGoes();
      assert !HasDocumentItem(kept);
    }
  }

  lemma DocumentGoes()
    ensures AttributeShouldGo(CodesOf(DOCUMENT_ATTRIBUTE))
  {
  }

  // ---------- what a tree means, without its layout ----------

  datatype BareValue = Token(token: string) | Text(codes: Codes)

  datatype Bare =
    | BareComment(remark: string)
    | BareField(name: string, value: BareValue)
    | BareMessage(name: string, body: seq<Bare>)

  function BareItem(it: Item): seq<Bare>
    decreases it, 1
  {
    match it
    case Comment(_, _, remark, _) => [BareComment(remark)]
    case Field(_, name, _, value, _, _) =>
      [BareField(name, if value.Scalar? then Token(value.token) else Text(PartsMeaning(value.parts)))]
    case Message(_, name, _, _, body, _, _, _) => [BareMessage(name, BareOf(body))]
    case Blank(_) => []
  }

  /** The fields, comments and messages of the tree in order, strings decoded. */
  function BareOf(items: seq<Item>): seq<Bare>
    decreases items, 0
  {
    if items == [] then [] else BareItem(items[0]) + BareOf(items[1..])
  }

  /** The value of the first string field `key`. */
  function BareKey(bs: seq<Bare>): Option<Codes> {
    if bs == [] then None
    else if bs[0].BareField? && bs[0].name == "key" && bs[0].value.Text? then Some(bs[0].value.codes)
    else BareKey(bs[1..])
  }

  predicate IsDocumentAttribute(b: Bare) {
    b.BareMessage? && b.name == "attributes" && BareKey(b.body).Some? && AttributeShouldGo(BareKey(b.body).value)
  }

  /** The same content without its document attributes, at every depth. */
  function Undocumented(bs: seq<Bare>): seq<Bare>
    decreases bs, 0
  {
    if bs == [] then []
    else (if IsDocumentAttribute(bs[0]) then []
          else if bs[0].BareMessage? then [bs[0].(body := Undocumented(bs[0].body))]
          else [bs[0]]) + Undocumented(bs[1..])
  }

  lemma {:induction false} BareKeyIs(items: seq<Item>)
    ensures BareKey(BareOf(items)) == KeyOf(items)
    decreases items, 0
  {
    hide PartsMeaning;
    if items != [] {
      BareKeyIs(items[1..]);
      var b := BareItem(items[0]);
      if b != [] {
        assert ([b[0]] + BareOf(items[1..]))[1..] == BareOf(items[1..]);
        assert BareOf(items) == [b[0]] + BareOf(items[1..]);
      } else {
        assert BareOf(items) == BareOf(items[1..]);
      }
    }
  }

  lemma {:induction false} UndocumentedJoin(a: seq<Bare>, b: seq<Bare>)
    ensures Undocumented(a + b) == Undocumented(a) + Undocumented(b)
    decreases |a|
  {
    hide IsDocumentAttribute;
    if a == [] {
      assert [] + b == b;
    } else {
      assert (a + b)[1..] == a[1..] + b;
      UndocumentedJoin(a[1..], b);
    }
  }

  lemma {:induction false} BareJoin(a: seq<Item>, b: seq<Item>)
    ensures BareOf(a + b) == BareOf(a) + BareOf(b)
    decreases |a|
  {
    hide BareItem;
    if a == [] {
      assert [] + b == b;
    } else {
      assert (a + b)[1..] == a[1..] + b;
      BareJoin(a[1..], b);
    }
  }

  /** Pruning removes exactly the document attributes: every other field, string, comment and
      message is there still, in order, with its meaning. */
  lemma {:induction false} PruneKeepsMeaning(items: seq<Item>, begins: bool)
    ensures BareOf(Prune(items, begins)) == Undocumented(BareOf(items))
    decreases items, 0
  {
    hide BareItem, Undocumented, PruneItem, EndsFresh;
    if items == [] {
      NothingBare();
    } else {
      var it := items[0];
      PruneItemMeaning(it, begins);
      PruneKeepsMeaning(items[1..], EndsFresh(it));
      BareJoin(PruneItem(it, begins), Prune(items[1..], EndsFresh(it)));
      UndocumentedJoin(BareItem(it), BareOf(items[1..]));
    }
  }

  lemma NothingBare()
    ensures Undocumented([]) == []
  {
  }

  lemma {:induction false} PruneItemMeaning(it: Item, begins: bool)
    ensures BareOf(PruneItem(it, begins)) == Undocumented(BareItem(it))
    decreases it, 1
  {
    hide KeyOf, Residue, EndsLine, BareKey, PartsMeaning;
    OneBare(PruneItem(it, begins)[0]);
    if it.Message? {
      PruneKeepsMeaning(it.body, EndsLine(it.openEol));
      BareKeyIs(it.body);
    }
    if !it.Blank? {
      var b := BareItem(it)[0];
      assert BareItem(it) == [b] && [b][1..] == [];
      OneUndocumented(b);
    }
  }

  lemma OneUndocumented(b: Bare)
    ensures Undocumented([b]) ==
            if IsDocumentAttribute(b) then []
            else if b.BareMessage? then [b.(body := Undocumented(b.body))]
            else [b]
  {
    hide IsDocumentAttribute;
    assert [b][1..] == [];
  }

  lemma OneBare(it: Item)
    ensures BareOf([it]) == BareItem(it)
  {
    hide BareItem;
    assert [it][1..] == [];
    assert BareItem(it) + [] == BareItem(it);
  }
}
