/** Constraint expressions as PostgreSQL prints them, and how the scanners read them back. */
module Printing {
  import opened Wrappers
  import opened Splitting
  import opened Canonical

  /** A text, then a list of values. */
  datatype Piece = Piece(before: string, items: seq<string>)

  /** An expression tree. A term that no connective splits holds any number of lists. `parens` counts the
      parentheses printed around the whole term. */
  datatype Term =
    | Atom(lists: seq<Piece>, after: string, parens: nat)
    | Group(connective: Connective, terms: seq<Term>, parens: nat)

  function Enclose(s: string, n: nat): string {
    if n == 0 then s else "(" + Enclose(s, n - 1) + ")"
  }

  function Render(lists: seq<Piece>, after: string): string {
    if lists == [] then after
    else lists[0].before + ARRAY + Join(lists[0].items, ", ") + "]" + Render(lists[1..], after)
  }

  function Body(t: Term): string
    decreases t, 0
  {
    match t
    case Atom(lists, after, _) => Render(lists, after)
    case Group(c, terms, _) => Join(PrintAll(terms), Operator(c))
  }

  function Print(t: Term): string
    decreases t, 1
  {
    Enclose(Body(t), t.parens)
  }

  function PrintAll(ts: seq<Term>): (r: seq<string>)
    ensures |r| == |ts|
    decreases ts, 0
  {
    if ts == [] then [] else [Print(ts[0])] + PrintAll(ts[1..])
  }

  /** No first-level operator in s, even with a blank added at each end. */
  predicate Clear(s: string, op: string)
    requires op != ""
  {
    NoCutBefore(" " + s + " ", op, |s| + 2)
  }

  predicate LeafText(s: string) {
    s != "" && Trimmed(s) && Balanced(s) && !Wrapped(s) && Clear(s, OR) && Clear(s, AND)
  }

  predicate ListItem(item: string) {
    Trimmed(item) && Balanced(item) && NoCutBefore(item, ",", |item|)
  }

  /** Every `ARRAY[` of the text stands inside quotes. */
  predicate OnlyQuoted(s: string) {
    forall i | 0 <= i < |s| && OccursAt(s, ARRAY, i) :: After(START, s[..i]).quoted
  }

  /** A list opens outside quotes, and so does no other before it. Its values may hold anything. */
  predicate ListPiece(p: Piece) {
    && OnlyQuoted(p.before) && !After(START, p.before).quoted
    && p.items != [] && forall k | 0 <= k < |p.items| :: ListItem(p.items[k])
  }

  predicate AtomText(lists: seq<Piece>, after: string) {
    (forall k | 0 <= k < |lists| :: ListPiece(lists[k])) && OnlyQuoted(after)
  }

  predicate WellFormed(t: Term) {
    match t
    case Atom(lists, after, _) => LeafText(Body(t)) && AtomText(lists, after)
    case Group(_, terms, _) =>
      |terms| >= 2 && forall k :: 0 <= k < |terms| ==> WellFormed(terms[k]) && Child(terms[k])
  }

  /** Inside another group, a group is printed in parentheses. */
  predicate Child(t: Term) {
    t.Group? ==> t.parens >= 1
  }

  // ---- A blank-delimited operator cannot straddle a separator ----

  predicate Word(op: string) {
    |op| >= 3 && op[0] == ' ' && op[|op|-1] == ' '
    && (forall k :: 0 < k < |op| - 1 ==> op[k] != ' ') && (forall c | c in op :: !Special(c))
  }

  lemma OperatorIsWord(c: Connective)
    ensures Word(Operator(c))
  {
  }

  lemma CutPadded(s: string, op: string, i: nat)
    requires op != "" && Cut(s, op, i)
    ensures Cut(" " + s + " ", op, i + 1)
  {
    var t := " " + s + " ";
    assert t[i+1..i+1+|op|] == s[i..i+|op|];
    assert t[..i+1] == " " + s[..i];
    AfterConcat(START, " ", s[..i]);
    AfterPlain(START, " ");
  }

  lemma ClearHasNoCut(s: string, op: string)
    requires op != "" && Clear(s, op)
    ensures NoCutBefore(s, op, |s|)
  {
    forall i | 0 <= i < |s| ensures !Cut(s, op, i) {
      if Cut(s, op, i) {
        CutPadded(s, op, i);
      }
    }
  }

  predicate Closed(s: string) { After(START, s) == START }

  lemma ClosedThen(p: string, sep: string, n: nat)
    requires Closed(p) && Word(sep) && n <= |sep|
    ensures Closed(" " + p + sep[..n])
  {
    AfterConcat(START, " " + p, sep[..n]);
    AfterConcat(START, " ", p);
    AfterPlain(START, " ");
    AfterPlain(START, sep[..n]);
  }

  lemma CutInPrefix(t: string, op: string, i: nat, u: string)
    requires op != "" && u <= t && Cut(t, op, i) && i + |op| <= |u|
    ensures Cut(u, op, i)
  {
    assert u[i..i+|op|] == t[i..i+|op|] && u[..i] == t[..i];
  }

  lemma CutInSuffix(head: string, v: string, op: string, i: nat)
    requires op != "" && Closed(head) && Cut(head + v, op, i) && i >= |head|
    ensures Cut(v, op, i - |head|)
  {
    var t, j := head + v, i - |head|;
    assert v[j..j+|op|] == t[i..i+|op|];
    assert t[..i] == head + v[..j];
    AfterConcat(START, head, v[..j]);
  }

  lemma OccursChars(t: string, w: string, at: nat)
    requires OccursAt(t, w, at)
    ensures forall j :: at <= j < at + |w| ==> t[j] == w[j-at]
  {
    assert forall j :: at <= j < at + |w| ==> t[j] == t[at..at+|w|][j-at];
  }

  /** Two blank-delimited words that overlap by more than a blank are the same word. */
  lemma WordsOverlap(t: string, sep: string, at: nat, op: string, i: nat)
    requires Word(sep) && Word(op) && OccursAt(t, sep, at) && OccursAt(t, op, i)
    requires at + 1 < i + |op| && i < at + |sep| - 1
    ensures i == at && op == sep
  {
    OccursChars(t, sep, at);
    OccursChars(t, op, i);
    assert t[i] == t[at] == t[i+|op|-1] == t[at+|sep|-1] == ' ';
    assert i == at;
    assert |op| == |sep|;
  }

  /** A cut in `p sep rest` lies in p, lies in rest, or is the separator itself. */
  lemma NoStraddle(p: string, sep: string, rest: string, op: string, i: nat)
    requires Word(sep) && Word(op) && Closed(p)
    requires Cut(" " + p + sep + rest + " ", op, i)
    ensures Cut(" " + p + " ", op, i)
         || (i >= |p| + |sep| && Cut(" " + rest + " ", op, i - |p| - |sep|))
         || (op == sep && i == |p| + 1)
  {
    var t := " " + p + sep + rest + " ";
    if i + |op| <= |p| + 2 {
      CutInPrefix(t, op, i, " " + p + " ");
    } else if i >= |p| + |sep| {
      var head := " " + p + sep[..|sep|-1];
      ClosedThen(p, sep, |sep| - 1);
      assert t == head + (" " + rest + " ");
      CutInSuffix(head, " " + rest + " ", op, i);
    } else {
      assert t[|p|+1..|p|+1+|sep|] == sep;
      WordsOverlap(t, sep, |p| + 1, op, i);
    }
  }

  lemma {:induction false} JoinClear(parts: seq<string>, sep: string, op: string)
    requires Word(sep) && Word(op) && sep != op && parts != []
    requires forall k :: 0 <= k < |parts| ==> Closed(parts[k]) && Clear(parts[k], op)
    ensures Clear(Join(parts, sep), op)
  {
    if |parts| == 1 {
    } else {
      var p, rest := parts[0], Join(parts[1..], sep);
      JoinClear(parts[1..], sep, op);
      var t := " " + p + sep + rest + " ";
      assert t == " " + Join(parts, sep) + " ";
      forall i | 0 <= i < |t| ensures !Cut(t, op, i) {
        if Cut(t, op, i) {
          NoStraddle(p, sep, rest, op, i);
        }
      }
    }
  }

  lemma FirstPieceUncut(p: string, op: string, rest: string)
    requires Word(op) && Closed(p) && Clear(p, op)
    ensures Split(p + op + rest, op) == [p] + Split(rest, op)
  {
    var s := p + op + rest;
    assert " " + s + " " == " " + p + op + rest + " ";
    forall i | 0 <= i < |p| ensures !Cut(s, op, i) {
      if Cut(s, op, i) {
        CutPadded(s, op, i);
        NoStraddle(p, op, rest, op, i + 1);
      }
    }
    assert s[..|p|] == p && s[|p|..|p|+|op|] == op && s[|p|+|op|..] == rest;
    assert op[0] in op;
    assert Cut(s, op, |p|);
    SplitAtFirstCut(s, op, |p|);
  }

  /** Splitting gives back the pieces that were joined. */
  lemma {:induction false} SplitJoin(parts: seq<string>, op: string)
    requires Word(op) && parts != []
    requires forall k :: 0 <= k < |parts| ==> Closed(parts[k]) && Clear(parts[k], op)
    ensures Split(Join(parts, op), op) == parts
  {
    if |parts| == 1 {
      ClearHasNoCut(parts[0], op);
      SplitWithoutCut(parts[0], op);
    } else {
      SplitJoin(parts[1..], op);
      FirstPieceUncut(parts[0], op, Join(parts[1..], op));
      assert parts == [parts[0]] + parts[1..];
    }
  }

  // ---- The shape of printed text ----

  predicate Solid(s: string) {
    s != "" && Trimmed(s) && Balanced(s)
  }

  lemma SolidJoin(p: string, op: string, rest: string)
    requires Solid(p) && Solid(rest) && Word(op)
    ensures Solid(p + op + rest)
  {
    BalancedPlain(op);
    BalancedConcat(p, op);
    BalancedConcat(p + op, rest);
  }

  /** Parentheses at both ends of a join belong to different pieces. */
  lemma JoinNotWrapped(p: string, tail: string)
    requires p != "" && Closed(p) && tail != ""
    ensures !Wrapped(p + tail)
  {
    var s := p + tail;
    if s[0] == '(' {
      var inner := s[1..|s|-1];
      InsideParentheses(p[1..], |p| - 1);
      assert "(" + p[1..] == p && ("(" + p[1..])[..|p|] == p;
      assert p[1..][..|p|-1] == p[1..];
      assert s[1..|p|] == p[1..];
      assert inner[..|p|-1] == s[1..|p|];
    }
  }

  lemma {:induction false} JoinSolid(parts: seq<string>, op: string)
    requires Word(op) && parts != []
    requires forall k :: 0 <= k < |parts| ==> Solid(parts[k])
    ensures Solid(Join(parts, op))
    ensures |parts| >= 2 ==> !Wrapped(Join(parts, op))
  {
    if |parts| == 1 {
    } else {
      JoinSolid(parts[1..], op);
      SolidJoin(parts[0], op, Join(parts[1..], op));
      JoinNotWrapped(parts[0], op + Join(parts[1..], op));
      assert parts[0] + (op + Join(parts[1..], op)) == Join(parts, op);
    }
  }

  lemma {:induction false} EncloseSolid(s: string, n: nat)
    requires Solid(s)
    ensures Solid(Enclose(s, n))
  {
    if n == 0 {
    } else {
      EncloseSolid(s, n - 1);
      BalancedParentheses(Enclose(s, n - 1));
      hide Balanced;
    }
  }

  lemma EncloseClear(s: string, n: nat)
    requires Solid(s) && n >= 1
    ensures Clear(Enclose(s, n), OR) && Clear(Enclose(s, n), AND)
  {
    EncloseSolid(s, n - 1);
    OperatorIsWord(Or);
    OperatorIsWord(And);
    EnclosedClear(Enclose(s, n - 1), OR);
    EnclosedClear(Enclose(s, n - 1), AND);
  }

  lemma EnclosedClear(b: string, op: string)
    requires Balanced(b) && Word(op) && op[1] != '('
    ensures Clear("(" + b + ")", op)
  {
    var t := " " + ("(" + b + ")") + " ";
    forall i | 0 <= i < |t| ensures !Cut(t, op, i) {
      if Cut(t, op, i) {
        OccursChars(t, op, i);
        assert t[i] == ' ' && t[i+1] == op[1];
        EnclosedMode(b, i);
      }
    }
  }

  lemma EnclosedMode(b: string, i: nat)
    requires Balanced(b) && 2 <= i < |b| + 2
    ensures After(START, (" " + ("(" + b + ")") + " ")[..i]).depth >= 1
  {
    assert (" " + ("(" + b + ")") + " ")[..i] == " " + ("(" + b)[..i-1];
    AfterConcat(START, " ", ("(" + b)[..i-1]);
    AfterPlain(START, " ");
    InsideParentheses(b, i - 2);
  }

  lemma PeelParentheses(x: string)
    requires Trimmed(x) && Balanced(x)
    ensures Peel("(" + x + ")") == Peel(x)
  {
    var t := "(" + x + ")";
    assert t[1..|t|-1] == x;
    StripTrimmed(x);
  }

  lemma {:induction false} PeelEnclose(s: string, n: nat)
    requires Solid(s) && !Wrapped(s)
    ensures Peel(Enclose(s, n)) == s
  {
    hide Strip, Wrapped, Balanced, Trimmed;
    if n == 0 {
    } else {
      PeelEnclose(s, n - 1);
      EncloseSolid(s, n - 1);
      PeelParentheses(Enclose(s, n - 1));
    }
  }

  lemma UnwrapEnclose(s: string, n: nat)
    requires Solid(s) && !Wrapped(s)
    ensures Unwrap(Enclose(s, n)) == s
  {
    PeelEnclose(s, n);
    EncloseSolid(s, n);
    StripTrimmed(Enclose(s, n));
  }

  lemma {:induction false} BodySolid(t: Term)
    requires WellFormed(t)
    ensures Solid(Body(t)) && !Wrapped(Body(t))
    decreases t, 0
  {
    if t.Atom? {
    } else {
      OperatorIsWord(t.connective);
      ChildrenPrinted(t.terms);
      JoinSolid(PrintAll(t.terms), Operator(t.connective));
    }
  }

  lemma {:induction false} ChildrenPrinted(ts: seq<Term>)
    requires forall k :: 0 <= k < |ts| ==> WellFormed(ts[k]) && Child(ts[k])
    ensures forall k :: 0 <= k < |ts| ==> PrintAll(ts)[k] == Print(ts[k])
    ensures forall p | p in PrintAll(ts) :: Solid(p) && Clear(p, OR) && Clear(p, AND)
    decreases ts, 0
  {
    if ts == [] {
    } else {
      BodySolid(ts[0]);
      EncloseSolid(Body(ts[0]), ts[0].parens);
      if ts[0].parens >= 1 {
        EncloseClear(Body(ts[0]), ts[0].parens);
      }
      ChildrenPrinted(ts[1..]);
    }
  }

  lemma ClosingFound(text: string, index: nat, list: string)
    requires Balanced(list) && index <= |text| && list + "]" <= text[index..]
    ensures ClosingBracket(text, index, index) == Some(index + |list|)
  {
    var rest, end := text[index..], index + |list|;
    assert rest[..|list|] == (list + "]")[..|list|] == list && rest[|list|] == (list + "]")[|list|];
    assert text[index..end] == list && text[end] == ']';
    assert ClosesAt(text, index, end);
    forall q | index <= q < end ensures !ClosesAt(text, index, q) {
      assert text[index..q] == list[..q-index] && text[q] == list[q-index];
      AfterOne(START, list, q - index);
    }
    var r := ClosingBracket(text, index, index);
    assert r.Some? && r.value <= end;
  }

  lemma {:induction false} ItemsBalanced(items: seq<string>)
    requires items != [] && forall k :: 0 <= k < |items| ==> ListItem(items[k])
    ensures Balanced(Join(items, ", "))
  {
    if |items| == 1 {
    } else {
      ItemsBalanced(items[1..]);
      BalancedPlain(", ");
      BalancedConcat(items[0], ", ");
      BalancedConcat(items[0] + ", ", Join(items[1..], ", "));
    }
  }

  /** Splitting a printed list at its commas and trimming gives back its items. */
  lemma {:induction false} ItemsSplit(items: seq<string>)
    requires items != [] && forall k :: 0 <= k < |items| ==> ListItem(items[k])
    ensures StripAll(Split(Join(items, ", "), ",")) == items
    ensures StripAll(Split(" " + Join(items, ", "), ",")) == items
  {
    if |items| > 1 {
      ItemsSplit(items[1..]);
      FirstItemStripped(items[0], items[1..], Join(items[1..], ", "));
      JoinItems(items);
    } else {
      OnlyItemStripped(items[0]);
      assert items == [items[0]];
    }
  }

  lemma JoinItems(items: seq<string>)
    requires |items| > 1
    ensures Join(items, ", ") == items[0] + "," + (" " + Join(items[1..], ", "))
    ensures " " + Join(items, ", ") == " " + items[0] + "," + (" " + Join(items[1..], ", "))
    ensures items == [items[0]] + items[1..]
  {
    CommaBlank(items[0], Join(items[1..], ", "));
  }

  lemma CommaBlank(a: string, list: string)
    ensures a + ", " + list == a + "," + (" " + list)
    ensures " " + (a + ", " + list) == " " + a + "," + (" " + list)
  {
    assert ", " == "," + " ";
  }

  lemma StripAllCons(s: string, rest: seq<string>)
    ensures StripAll([s] + rest) == [Strip(s)] + StripAll(rest)
  {
    assert ([s] + rest)[1..] == rest;
  }

  lemma OnlyItemStripped(item: string)
    requires ListItem(item)
    ensures StripAll(Split(item, ",")) == [item] && StripAll(Split(" " + item, ",")) == [item]
  {
    PaddedNoCut(item);
    SplitWithoutCut(item, ",");
    SplitWithoutCut(" " + item, ",");
    StripPadded(item);
    StripAllCons(item, []);
    StripAllCons(" " + item, []);
  }

  lemma FirstItemStripped(first: string, others: seq<string>, list: string)
    requires ListItem(first) && StripAll(Split(" " + list, ",")) == others
    ensures StripAll(Split(first + "," + (" " + list), ",")) == [first] + others
    ensures StripAll(Split(" " + first + "," + (" " + list), ",")) == [first] + others
  {
    StripPadded(first);
    FirstItem(first, " " + list);
    StripAllCons(first, Split(" " + list, ","));
    StripAllCons(" " + first, Split(" " + list, ","));
  }

  lemma StripPadded(item: string)
    requires Trimmed(item)
    ensures Strip(item) == item && Strip(" " + item) == item
  {
    StripTrimmed(item);
    assert (" " + item)[1..] == item;
    assert StripLeft(" " + item) == StripLeft(item) == item;
  }

  lemma PaddedNoCut(item: string)
    requires ListItem(item)
    ensures NoCutBefore(" " + item, ",", |item| + 1)
  {
    var p := " " + item;
    forall i | 0 <= i < |p| ensures !Cut(p, ",", i) {
      if Cut(p, ",", i) {
        assert p[i..i+1][0] == p[i];
        assert p[..i] == " " + item[..i-1];
        AfterConcat(START, " ", item[..i-1]);
        AfterPlain(START, " ");
        assert item[i-1..i] == p[i..i+1];
        assert Cut(item, ",", i - 1);
      }
    }
  }

  lemma FirstItem(item: string, rest: string)
    requires ListItem(item)
    ensures Split(item + "," + rest, ",") == [item] + Split(rest, ",")
    ensures Split(" " + item + "," + rest, ",") == [" " + item] + Split(rest, ",")
  {
    PaddedNoCut(item);
    AfterConcat(START, " ", item);
    AfterPlain(START, " ");
    FirstPiece(item, rest);
    FirstPiece(" " + item, rest);
  }

  lemma FirstPiece(p: string, rest: string)
    requires After(START, p) == START && NoCutBefore(p, ",", |p|)
    ensures Split(p + "," + rest, ",") == [p] + Split(rest, ",")
  {
    var s := p + "," + rest;
    forall i | 0 <= i < |p| ensures !Cut(s, ",", i) {
      assert s[..i] == p[..i] && s[i..i+1] == p[i..i+1];
      assert !Cut(p, ",", i);
    }
    assert s[..|p|] == p && s[|p|+1..] == rest && s[|p|..|p|+1] == ",";
    SplitAtFirstCut(s, ",", |p|);
  }
}
