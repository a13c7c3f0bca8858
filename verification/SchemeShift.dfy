/** The scanners look at nothing but the range they are given: the same characters at another
    place give the same answers, moved. */
module SchemeShift {
  import opened Wrappers
  import opened SchemeLexer
  import opened SchemeScan

  /** t[i..limit] stands in u, d places further to the left. */
  ghost predicate Moved(t: string, u: string, i: nat, limit: nat, d: nat) {
    d <= i <= limit <= |t| && limit - d <= |u| && forall p :: i <= p < limit ==> u[p - d] == t[p]
  }

  lemma MovedFrom(t: string, u: string, i: nat, limit: nat, d: nat, j: nat)
    requires Moved(t, u, i, limit, d) && i <= j <= limit
    ensures Moved(t, u, j, limit, d) && (i < j ==> u[i - d] == t[i])
  {
  }

  lemma MovedTo(t: string, u: string, i: nat, limit: nat, d: nat, j: nat)
    requires Moved(t, u, i, limit, d) && i <= j <= limit
    ensures Moved(t, u, i, j, d)
  {
  }

  lemma MovedSlice(t: string, u: string, i: nat, limit: nat, d: nat, j: nat)
    requires Moved(t, u, i, limit, d) && i <= j <= limit
    ensures u[i - d..j - d] == t[i..j]
  {
  }

  ghost predicate Same(a: Scan<nat>, b: Scan<nat>, d: nat) {
    a.Ok? == b.Ok? && (a.Ok? ==> a.value == b.value + d) && (a.Err? ==> a == b)
  }

  lemma {:induction false} StringEndMoves(t: string, u: string, quote: char, b: nat, i: nat, limit: nat, d: nat)
    requires Moved(t, u, b, limit, d) && b <= i
    ensures Same(StringEnd(t, quote, i, limit), StringEnd(u, quote, i - d, limit - d), d)
    decreases limit - i
  {
    if i < limit {
      assert u[i - d] == t[i];
      StringEndMoves(t, u, quote, b, if t[i] == '\\' then i + 2 else i + 1, limit, d);
    }
  }

  lemma {:induction false} LineEndMoves(t: string, u: string, i: nat, limit: nat, d: nat)
    requires Moved(t, u, i, limit, d)
    ensures LineEnd(t, i, limit) == LineEnd(u, i - d, limit - d) + d
    decreases limit - i
  {
    if i < limit {
      LineEndMoves(t, u, i + 1, limit, d);
    }
  }

  lemma {:induction false} WordEndMoves(t: string, u: string, i: nat, limit: nat, d: nat)
    requires Moved(t, u, i, limit, d)
    ensures WordEnd(t, i, limit) == WordEnd(u, i - d, limit - d) + d
    decreases limit - i
  {
    if i < limit {
      WordEndMoves(t, u, i + 1, limit, d);
    }
  }

  lemma {:induction false} SkipBlanksMoves(t: string, u: string, i: nat, limit: nat, d: nat)
    requires Moved(t, u, i, limit, d)
    ensures SkipBlanks(t, i, limit) == SkipBlanks(u, i - d, limit - d) + d
    decreases limit - i
  {
    if i < limit {
      SkipBlanksMoves(t, u, i + 1, limit, d);
    }
  }

  lemma StepMoves(t: string, u: string, i: nat, limit: nat, d: nat)
    requires Moved(t, u, i, limit, d) && i < limit
    ensures IsLexeme(t, i, limit) == IsLexeme(u, i - d, limit - d)
    ensures Same(Step(t, i, limit), Step(u, i - d, limit - d), d)
    ensures u[i - d] == t[i]
  {
    hide StringEnd, LineEnd;
    StringEndMoves(t, u, t[i], i, i + 1, limit, d);
    LineEndMoves(t, u, i, limit, d);
  }

  lemma ValueStartMoves(t: string, u: string, i: nat, limit: nat, d: nat)
    requires Moved(t, u, i, limit, d)
    ensures ValueStart(t, i, limit) == ValueStart(u, i - d, limit - d) + d
  {
    hide SkipBlanks;
    SkipBlanksMoves(t, u, i, limit, d);
    var k := SkipBlanks(t, i, limit);
    if k < limit {
      MovedFrom(t, u, i, limit, d, k);
      MovedFrom(t, u, i, limit, d, k + 1);
      SkipBlanksMoves(t, u, k + 1, limit, d);
    }
  }

  lemma BlockOpenMoves(t: string, u: string, w: nat, limit: nat, d: nat)
    requires Moved(t, u, w, limit, d)
    ensures var a, b := BlockOpen(t, w, limit), BlockOpen(u, w - d, limit - d);
            a.Some? == b.Some? && (a.Some? ==> a.value == b.value + d)
  {
    hide ValueStart;
    ValueStartMoves(t, u, w, limit, d);
  }

  ghost predicate SameStrings(a: Scan<StringsRead>, b: Scan<StringsRead>, d: nat) {
    a.Ok? == b.Ok? && (a.Ok? ==> a.value.codes == b.value.codes && a.value.next == b.value.next + d) &&
      (a.Err? ==> a == b)
  }

  lemma SameParts(v: Codes, a: Scan<StringsRead>, b: Scan<StringsRead>, d: nat)
    requires SameStrings(a, b, d)
    ensures SameStrings(WithParts(Some(v), a), WithParts(Some(v), b), d)
  {
  }

  lemma {:induction false} StringsMove(t: string, u: string, i: nat, limit: nat, d: nat)
    requires Moved(t, u, i, limit, d)
    ensures SameStrings(StringsFrom(t, i, limit), StringsFrom(u, i - d, limit - d), d)
    decreases limit - i
  {
    hide StringEnd, DecodeLiteral, SkipBlanks, Moved, StringsFrom, WithParts, SameStrings, IsQuote;
    MovedSizes(t, u, i, limit, d);
    if i < limit {
      MovedFrom(t, u, i, limit, d, i + 1);
    }
    if i < limit && IsQuote(t[i]) {
      StringEndMoves(t, u, t[i], i, i + 1, limit, d);
      var end := StringEnd(t, t[i], i + 1, limit);
      if end.Ok? {
        MovedFrom(t, u, i, limit, d, end.value);
        var k := SkipBlanks(t, end.value, limit);
        MovedFrom(t, u, i, limit, d, k);
        StringsMove(t, u, k, limit, d);
      }
      OneStringMoves(t, u, i, limit, d);
    } else {
      StringsUnfold(t, i, limit);
      StringsUnfold(u, i - d, limit - d);
      NoStringsMove(i, d);
    }
  }

  lemma NoStringsMove(i: nat, d: nat)
    requires d <= i
    ensures SameStrings(Ok(StringsRead(None, i)), Ok(StringsRead(None, i - d)), d)
  {
  }

  lemma OneStringMoves(t: string, u: string, i: nat, limit: nat, d: nat)
    requires Moved(t, u, i, limit, d) && i < limit && IsQuote(t[i])
    requires var end := StringEnd(t, t[i], i + 1, limit);
             end.Ok? ==> var k := SkipBlanks(t, end.value, limit);
                         d <= k && limit - d <= |u| &&
                           SameStrings(StringsFrom(t, k, limit), StringsFrom(u, k - d, limit - d), d)
    ensures d <= i && limit - d <= |u| && SameStrings(StringsFrom(t, i, limit), StringsFrom(u, i - d, limit - d), d)
  {
    hide StringEnd, DecodeLiteral, SkipBlanks, Moved, StringsFrom, WithParts, IsQuote;
    LiteralMoves(t, u, i, limit, d);
    StringsUnfold(t, i, limit);
    StringsUnfold(u, i - d, limit - d);
    var end := StringEnd(t, t[i], i + 1, limit);
    if end.Ok? {
      var k, value := SkipBlanks(t, end.value, limit), DecodeLiteral(t[i..end.value]);
      if value.Ok? {
        SameParts(value.value, StringsFrom(t, k, limit), StringsFrom(u, k - d, limit - d), d);
      }
    }
  }

  /** The string at i and the blanks after it, in both texts. */
  lemma LiteralMoves(t: string, u: string, i: nat, limit: nat, d: nat)
    requires Moved(t, u, i, limit, d) && i < limit && IsQuote(t[i])
    ensures d <= i < limit <= |t| && limit - d <= |u| && u[i - d] == t[i]
    ensures var end, end' := StringEnd(t, t[i], i + 1, limit), StringEnd(u, u[i - d], i - d + 1, limit - d);
            if end.Ok? then
              && i < end.value <= limit && end' == Ok(end.value - d)
              && u[i - d..end.value - d] == t[i..end.value]
              && SkipBlanks(u, end.value - d, limit - d) == SkipBlanks(t, end.value, limit) - d
            else end' == end
  {
    hide StringEnd, SkipBlanks, Moved, IsQuote;
    MovedSizes(t, u, i, limit, d);
    MovedFrom(t, u, i, limit, d, i + 1);
    StringEndMoves(t, u, t[i], i, i + 1, limit, d);
    var end := StringEnd(t, t[i], i + 1, limit);
    if end.Ok? {
      MovedSlice(t, u, i, limit, d, end.value);
      MovedFrom(t, u, i, limit, d, end.value);
      SkipBlanksMoves(t, u, end.value, limit, d);
    }
  }

  lemma MovedSizes(t: string, u: string, i: nat, limit: nat, d: nat)
    requires Moved(t, u, i, limit, d)
    ensures d <= i <= limit <= |t| && limit - d <= |u|
  {
  }

  lemma {:induction false} KeyMoves(t: string, u: string, i: nat, limit: nat, d: nat, depth: int, key: Option<Codes>)
    requires Moved(t, u, i, limit, d)
    ensures KeyFrom(t, i, limit, depth, key) == KeyFrom(u, i - d, limit - d, depth, key)
    decreases limit - i
  {
    hide Step, IsLexeme, WordEnd, ValueStart, StringsFrom, Moved;
    MovedSizes(t, u, i, limit, d);
    if i < limit {
      StepMoves(t, u, i, limit, d);
      MovedFrom(t, u, i, limit, d, i + 1);
      if IsLexeme(t, i, limit) {
        var n := Step(t, i, limit);
        if n.Ok? {
          MovedFrom(t, u, i, limit, d, n.value);
          KeyMoves(t, u, n.value, limit, d, depth, key);
        }
      } else if IsWordStart(t[i]) {
        WordEndMoves(t, u, i + 1, limit, d);
        KeyWordMoves(t, u, i, WordEnd(t, i + 1, limit), limit, d, depth, key);
      } else {
        KeyMoves(t, u, i + 1, limit, d, if t[i] == '{' then depth + 1 else if t[i] == '}' then depth - 1
          else depth, key);
      }
    }
  }

  lemma {:induction false} KeyWordMoves(t: string, u: string, i: nat, w: nat, limit: nat, d: nat, depth: int,
                                        key: Option<Codes>)
    requires Moved(t, u, i, limit, d) && i < w <= limit
    requires !IsLexeme(t, i, limit) && IsWordStart(t[i]) && w == WordEnd(t, i + 1, limit)
    requires !IsLexeme(u, i - d, limit - d) && u[i - d] == t[i] && w - d == WordEnd(u, i - d + 1, limit - d)
    ensures KeyFrom(t, i, limit, depth, key) == KeyFrom(u, i - d, limit - d, depth, key)
    decreases limit - i, 0
  {
    hide Step, IsLexeme, WordEnd, ValueStart, StringsFrom, Moved;
    MovedSlice(t, u, i, limit, d, w);
    MovedFrom(t, u, i, limit, d, w);
    if depth == 1 && t[i..w] == "key" {
      ValueStartMoves(t, u, w, limit, d);
      var v := ValueStart(t, w, limit);
      MovedFrom(t, u, w, limit, d, v);
      StringsMove(t, u, v, limit, d);
      var strings := StringsFrom(t, v, limit);
      if strings.Ok? && strings.value.codes.Some? && key.None? {
        MovedFrom(t, u, v, limit, d, strings.value.next);
        KeyMoves(t, u, strings.value.next, limit, d, depth, strings.value.codes);
      }
    } else {
      KeyMoves(t, u, w, limit, d, depth, key);
    }
  }

  lemma {:induction false} CloseMoves(t: string, u: string, i: nat, limit: nat, d: nat, depth: nat)
    requires Moved(t, u, i, limit, d) && depth >= 1
    ensures Same(CloseFrom(t, i, limit, depth), CloseFrom(u, i - d, limit - d, depth), d)
    decreases limit - i
  {
    hide Step, IsLexeme, Moved;
    MovedSizes(t, u, i, limit, d);
    if i < limit {
      StepMoves(t, u, i, limit, d);
      MovedFrom(t, u, i, limit, d, i + 1);
      if IsLexeme(t, i, limit) {
        var n := Step(t, i, limit);
        if n.Ok? {
          MovedFrom(t, u, i, limit, d, n.value);
          CloseMoves(t, u, n.value, limit, d, depth);
        }
      } else if t[i] != '}' || depth > 1 {
        CloseMoves(t, u, i + 1, limit, d, if t[i] == '{' then depth + 1 else if t[i] == '}' then depth - 1 else depth);
      }
    }
  }

  ghost predicate SameFound(a: Scan<seq<Found>>, b: Scan<seq<Found>>, d: nat) {
    a.Ok? == b.Ok? && (a.Err? ==> a == b) &&
    (a.Ok? ==> |a.value| == |b.value| && forall k :: 0 <= k < |a.value| ==> FoundMoved(a.value[k], b.value[k], d))
  }

  predicate FoundMoved(f: Found, g: Found, d: nat) {
    f.keyword == g.keyword + d && f.brace == g.brace + d && f.close == g.close + d &&
      f.contentEnd == g.contentEnd + d && f.key == g.key
  }

  lemma {:induction false} FindMoves(t: string, u: string, i: nat, limit: nat, d: nat, depth: nat)
    requires Moved(t, u, i, limit, d)
    ensures SameFound(Find(t, i, limit, depth), Find(u, i - d, limit - d, depth), d)
    decreases limit - i, 2
  {
    hide Step, IsLexeme, WordEnd, BlockOpen, FoundAt, Moved;
    MovedSizes(t, u, i, limit, d);
    if i < limit {
      StepMoves(t, u, i, limit, d);
      MovedFrom(t, u, i, limit, d, i + 1);
      if IsLexeme(t, i, limit) {
        var n := Step(t, i, limit);
        if n.Ok? {
          MovedFrom(t, u, i, limit, d, n.value);
          FindMoves(t, u, n.value, limit, d, depth);
        }
      } else if t[i] == '{' {
        FindMoves(t, u, i + 1, limit, d, depth + 1);
      } else if t[i] == '}' {
        if depth > 0 {
          FindMoves(t, u, i + 1, limit, d, depth - 1);
        }
      } else if IsWordStart(t[i]) {
        WordEndMoves(t, u, i + 1, limit, d);
        FindWordMoves(t, u, i, WordEnd(t, i + 1, limit), limit, d, depth);
      } else {
        FindMoves(t, u, i + 1, limit, d, depth);
      }
    }
  }

  lemma {:induction false} FindWordMoves(t: string, u: string, i: nat, w: nat, limit: nat, d: nat, depth: nat)
    requires Moved(t, u, i, limit, d) && i < w <= limit
    requires !IsLexeme(t, i, limit) && IsWordStart(t[i]) && w == WordEnd(t, i + 1, limit)
    requires !IsLexeme(u, i - d, limit - d) && u[i - d] == t[i] && w - d == WordEnd(u, i - d + 1, limit - d)
    ensures SameFound(Find(t, i, limit, depth), Find(u, i - d, limit - d, depth), d)
    decreases limit - i, 1
  {
    hide Step, IsLexeme, WordEnd, BlockOpen, FoundAt, Moved, SameFound;
    MovedSizes(t, u, i, limit, d);
    MovedSlice(t, u, i, limit, d, w);
    MovedFrom(t, u, i, limit, d, w);
    BlockOpenMoves(t, u, w, limit, d);
    var brace := BlockOpen(t, w, limit);
    if t[i..w] != "attributes" || brace.None? {
      FindMoves(t, u, w, limit, d, depth);
    } else {
      var block, block' := FoundAt(t, i, brace.value, limit), FoundAt(u, i - d, brace.value - d, limit - d);
      FoundAtMoves(t, u, i, brace.value, limit, d);
      if block.Ok? {
        var close := block.value.close;
        MovedFrom(t, u, i, limit, d, close);
        FindMoves(t, u, close, limit, d, depth);
        SameJoined(block.value.found, block'.value.found, Find(t, close, limit, depth),
          Find(u, close - d, limit - d, depth), d);
      } else {
        SameError(block.error, d);
      }
    }
  }

  lemma SameError(e: SchemeError, d: nat)
    ensures SameFound(Err(e), Err(e), d)
  {
  }

  lemma SameJoined(a: seq<Found>, b: seq<Found>, r: Scan<seq<Found>>, s: Scan<seq<Found>>, d: nat)
    requires SameFound(Ok(a), Ok(b), d) && SameFound(r, s, d)
    ensures SameFound(Prepend(a, r), Prepend(b, s), d)
  {
  }

  lemma {:induction false} FoundAtMoves(t: string, u: string, keyword: nat, brace: nat, limit: nat, d: nat)
    requires Moved(t, u, keyword, limit, d) && keyword < brace < limit
    ensures var a, b := FoundAt(t, keyword, brace, limit), FoundAt(u, keyword - d, brace - d, limit - d);
            && a.Ok? == b.Ok? && (a.Err? ==> a.error == b.error)
            && (a.Ok? ==> a.value.close == b.value.close + d && SameFound(Ok(a.value.found), Ok(b.value.found), d))
    decreases limit - keyword, 0
  {
    hide CloseFrom, KeyFrom, Find, Moved;
    MovedSizes(t, u, keyword, limit, d);
    MovedFrom(t, u, keyword, limit, d, brace);
    MovedFrom(t, u, keyword, limit, d, brace + 1);
    CloseMoves(t, u, brace + 1, limit, d, 1);
    var close := CloseFrom(t, brace + 1, limit, 1);
    if close.Ok? {
      MovedTo(t, u, brace, limit, d, close.value);
      KeyMoves(t, u, brace, close.value, d, 0, None);
      MovedTo(t, u, brace + 1, limit, d, close.value - 1);
      FindMoves(t, u, brace + 1, close.value - 1, d, 0);
      ContentEndMoves(t, u, keyword, close.value, limit, d);
    }
  }

  lemma ContentEndMoves(t: string, u: string, i: nat, close: nat, limit: nat, d: nat)
    requires Moved(t, u, i, limit, d) && i <= close <= limit
    ensures ContentEnd(t, close, limit) == ContentEnd(u, close - d, limit - d) + d
  {
  }
}
