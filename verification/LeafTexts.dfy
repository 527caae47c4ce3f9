/** Texts of terms that no connective splits: where their `ARRAY[` stand, what may be replaced in them, and
    the one way to read their lists. */
module LeafTexts {
  import opened Wrappers
  import opened Splitting
  import opened Canonical
  import opened Printing
  import opened OrderOnly

  // ---- Occurrences of `ARRAY[` ----

  predicate Holds(s: string) { exists i :: 0 <= i < |s| && OccursAt(s, ARRAY, i) }

  /** Occurrences of `ARRAY[` do not overlap. */
  lemma Apart(s: string, i: nat, j: nat)
    requires OccursAt(s, ARRAY, i) && OccursAt(s, ARRAY, j)
    ensures i < j ==> j >= i + |ARRAY|
  {
    OccursChars(s, ARRAY, i);
    OccursChars(s, ARRAY, j);
    assert s[j] == 'A' && s[j+1] == 'R' && s[i+1] == s[i+2] == 'R' && s[i+4] == 'Y' && s[i+5] == '[';
  }

  lemma OneOccurrence(e: string, at: nat)
    requires OccursAt(e, ARRAY, at)
    requires forall i :: 0 <= i < |e| && OccursAt(e, ARRAY, i) ==> i == at
    ensures Find(e, ARRAY, 0) == at && Count(e, ARRAY, 0) == 1
  {
    assert Find(e, ARRAY, at + |ARRAY|) == |e|;
    assert Count(e, ARRAY, at + |ARRAY|) == 0;
  }

  lemma OnlyOne(core: string, i: nat)
    requires Count(core, ARRAY, 0) == 1 && i < |core| && OccursAt(core, ARRAY, i)
    ensures i == Find(core, ARRAY, 0)
  {
    var start := Find(core, ARRAY, 0);
    assert Count(core, ARRAY, start + |ARRAY|) == 0;
    Apart(core, start, i);
  }

  /** Without an occurrence across the border, those of a + b are those of a and those of b. */
  lemma OccursEither(a: string, b: string, i: int)
    requires |a| - |ARRAY| < i < |a| ==> !OccursAt(a + b, ARRAY, i)
    ensures OccursAt(a + b, ARRAY, i) <==> OccursAt(a, ARRAY, i) || OccursAt(b, ARRAY, i - |a|)
  {
    if 0 <= i && i + |ARRAY| <= |a| {
      assert (a + b)[i..i+|ARRAY|] == a[i..i+|ARRAY|];
    } else if |a| <= i && i + |ARRAY| <= |a + b| {
      assert (a + b)[i..i+|ARRAY|] == b[i-|a|..i-|a|+|ARRAY|];
    }
  }

  /** No occurrence runs into a character that `ARRAY[` does not contain. */
  lemma OccursBefore(a: string, b: string, i: int)
    requires b != "" && b[0] !in ARRAY
    ensures OccursAt(a + b, ARRAY, i) <==> OccursAt(a, ARRAY, i) || OccursAt(b[1..], ARRAY, i - |a| - 1)
  {
    if OccursAt(a + b, ARRAY, i) {
      OccursChars(a + b, ARRAY, i);
      assert (a + b)[|a|] == b[0];
    }
    assert b == [b[0]] + b[1..];
    if OccursAt(b, ARRAY, i - |a|) {
      OccursChars(b, ARRAY, i - |a|);
    }
    OccursEither([b[0]], b[1..], i - |a|);
    OccursEither(a, b, i);
  }

  lemma OccursFirst(rest: string, i: int)
    ensures OccursAt(ARRAY + rest, ARRAY, i) <==> i == 0 || OccursAt(rest, ARRAY, i - |ARRAY|)
  {
    var e := ARRAY + rest;
    assert e[0..0+|ARRAY|] == ARRAY;
    if i > 0 && OccursAt(e, ARRAY, i) {
      Apart(e, 0, i);
    }
    if i >= |ARRAY| {
      OccursEither(ARRAY, rest, i);
    }
  }

  lemma OccursAfter(before: string, rest: string, i: int)
    ensures OccursAt(before + (ARRAY + rest), ARRAY, i)
       <==> OccursAt(before, ARRAY, i) || OccursAt(ARRAY + rest, ARRAY, i - |before|)
  {
    var e := before + (ARRAY + rest);
    assert e[|before|..|before|+|ARRAY|] == ARRAY;
    if OccursAt(e, ARRAY, i) {
      Apart(e, i, |before|);
    }
    OccursEither(before, ARRAY + rest, i);
  }

  /** The occurrences in a printed list: its own, those of the texts around it and of its values. */
  lemma Where(before: string, list: string, after: string, i: int)
    ensures var index := |before| + |ARRAY|;
            OccursAt(before + ARRAY + list + "]" + after, ARRAY, i)
            <==> || OccursAt(before, ARRAY, i) || i == |before|
                 || OccursAt(list, ARRAY, i - index) || OccursAt(after, ARRAY, i - (index + |list| + 1))
  {
    var rest := list + ("]" + after);
    assert before + ARRAY + list + "]" + after == before + (ARRAY + rest);
    OccursAfter(before, rest, i);
    OccursFirst(rest, i - |before|);
    OccursBefore(list, "]" + after, i - |before| - |ARRAY|);
    assert ("]" + after)[1..] == after;
    hide OccursAt;
  }

  lemma HoldsComma(a: string, b: string)
    ensures Holds(a + ", " + b) <==> Holds(a) || Holds(b)
  {
    var t := a + ", " + b;
    assert t == a + (", " + b) && (", " + b)[1..] == " " + b;
    forall i ensures OccursAt(t, ARRAY, i) <==> OccursAt(a, ARRAY, i) || OccursAt(b, ARRAY, i - |a| - 2) {
      OccursBefore(a, ", " + b, i);
      assert " " + b == "" + (" " + b) && (" " + b)[1..] == b;
      OccursBefore("", " " + b, i - |a| - 1);
    }
    if Holds(b) {
      var i :| 0 <= i < |b| && OccursAt(b, ARRAY, i);
      assert OccursAt(t, ARRAY, i + |a| + 2);
    }
  }

  lemma {:induction false} HoldsJoin(items: seq<string>)
    requires items != []
    ensures Holds(Join(items, ", ")) <==> exists k :: 0 <= k < |items| && Holds(items[k])
  {
    if |items| == 1 {
    } else {
      HoldsJoin(items[1..]);
      HoldsComma(items[0], Join(items[1..], ", "));
      hide Holds;
      if k :| 0 <= k < |items| && Holds(items[k]) {
        assert k == 0 || items[1..][k-1] == items[k];
      }
    }
  }

  // ---- Terms with a single `ARRAY[` ----

  /** The term's one list holds its only `ARRAY[`. */
  predicate Lone(lists: seq<Piece>, after: string) {
    && |lists| == 1 && !Holds(lists[0].before) && !Holds(after)
    && forall k | 0 <= k < |lists[0].items| :: !Holds(lists[0].items[k])
  }

  lemma CountsFirst(before: string, list: string, rest: string)
    ensures Count(before + ARRAY + list + "]" + rest, ARRAY, 0) == 1
       <==> !Holds(before) && !Holds(list) && !Holds(rest)
  {
    var e, index := before + ARRAY + list + "]" + rest, |before| + |ARRAY|;
    forall i: int
      ensures OccursAt(e, ARRAY, i)
         <==> || OccursAt(before, ARRAY, i) || i == |before|
              || OccursAt(list, ARRAY, i - index) || OccursAt(rest, ARRAY, i - (index + |list| + 1))
    {
      Where(before, list, rest, i);
    }
    hide Count, Find;
    assert OccursAt(e, ARRAY, |before|);
    if Count(e, ARRAY, 0) == 1 {
      forall i | 0 <= i < |e| && OccursAt(e, ARRAY, i) ensures i == |before| {
        OnlyOne(e, i);
        OnlyOne(e, |before|);
      }
      assert forall i | 0 <= i < |list| :: OccursAt(list, ARRAY, i) ==> OccursAt(e, ARRAY, i + index);
      assert forall i | 0 <= i < |rest| :: OccursAt(rest, ARRAY, i) ==> OccursAt(e, ARRAY, i + (index + |list| + 1));
    } else if !Holds(before) && !Holds(list) && !Holds(rest) {
      OneOccurrence(e, |before|);
    }
  }

  lemma RenderHolds(lists: seq<Piece>, after: string)
    requires lists != []
    ensures Holds(Render(lists, after))
  {
    var p := lists[0];
    Where(p.before, Join(p.items, ", "), Render(lists[1..], after), |p.before|);
  }

  /** A term with lists has a single `ARRAY[` exactly when it has one list and no other `ARRAY[` anywhere. */
  lemma CountsLone(lists: seq<Piece>, after: string)
    requires lists != [] && lists[0].items != []
    ensures Count(Render(lists, after), ARRAY, 0) == 1 <==> Lone(lists, after)
  {
    var p, rest := lists[0], Render(lists[1..], after);
    CountsFirst(p.before, Join(p.items, ", "), rest);
    HoldsJoin(p.items);
    if |lists| > 1 {
      RenderHolds(lists[1..], after);
    }
    hide Count, Holds;
  }

  lemma ListPieces(before: string, list: string, after: string, e: string)
    requires e == before + ARRAY + list + "]" + after
    ensures OccursAt(e, ARRAY, |before|)
    ensures var index := |before| + |ARRAY|;
            && e[..|before|] == before && list + "]" <= e[index..]
            && e[index..index+|list|] == list && e[index+|list|..] == "]" + after
  {
    var index := |before| + |ARRAY|;
    assert e[index..] == list + "]" + after;
  }

  lemma TakenAt(e: string, before: string, list: string, after: string)
    requires e == before + ARRAY + list + "]" + after && Balanced(list) && Count(e, ARRAY, 0) == 1
    ensures TakenForList(e)
    ensures ListStart(e) == |before| + |ARRAY| && ListEnd(e) == |before| + |ARRAY| + |list|
  {
    hide Count, ClosingBracket, Balanced;
    ListPieces(before, list, after, e);
    OnlyOne(e, |before|);
    ClosingFound(e, |before| + |ARRAY|, list);
  }

  lemma ListCuts(e: string, before: string, list: string, after: string)
    requires e == before + ARRAY + list + "]" + after
    ensures e[..|before|] == before && e[|before|+|ARRAY|..][..|list|] == list
    ensures e[|before|+|ARRAY|+|list|+1..] == after
  {
    assert e == before + ARRAY + list + ("]" + after);
    assert e == (before + ARRAY + list + "]") + after;
  }

  lemma ReadPieces(e: string, before: string, list: string, after: string, parens: nat)
    requires TakenForList(e)
    requires ListStart(e) == |before| + |ARRAY| && ListEnd(e) == |before| + |ARRAY| + |list|
    requires e[..|before|] == before && e[|before|+|ARRAY|..][..|list|] == list
    requires e[|before|+|ARRAY|+|list|+1..] == after
    ensures ReadText(e, parens) == Atom([Piece(before, StripAll(Split(list, ",")))], after, parens)
  {
    hide TakenForList, ListStart, ListEnd, StripAll, Split;
    assert e[ListStart(e)..ListEnd(e)] == list;
  }

  lemma ReadsItems(e: string, p: Piece, after: string, parens: nat)
    requires e == p.before + ARRAY + Join(p.items, ", ") + "]" + after && Count(e, ARRAY, 0) == 1
    requires p.items != [] && forall k | 0 <= k < |p.items| :: ListItem(p.items[k])
    ensures TakenForList(e) && ReadText(e, parens) == Atom([p], after, parens)
  {
    var list := Join(p.items, ", ");
    hide *;
    ItemsBalanced(p.items);
    ItemsSplit(p.items);
    TakenAt(e, p.before, list, after);
    ListCuts(e, p.before, list, after);
    ReadPieces(e, p.before, list, after, parens);
  }

  lemma RenderOne(p: Piece, after: string)
    ensures Render([p], after) == p.before + ARRAY + Join(p.items, ", ") + "]" + after
  {
    assert [p][1..] == [];
  }

  /** A term with a single `ARRAY[`, that of its list, is read as it is; any other as a text. */
  lemma AtomRead(lists: seq<Piece>, after: string, parens: nat)
    requires AtomText(lists, after) && lists != []
    ensures TakenForList(Render(lists, after)) <==> Lone(lists, after)
    ensures ReadText(Render(lists, after), parens)
         == if Lone(lists, after) then Atom(lists, after, parens) else Atom([], Render(lists, after), parens)
  {
    CountsLone(lists, after);
    hide Count, Holds, OnlyQuoted, ListItem;
    if Lone(lists, after) {
      assert lists == [lists[0]];
      RenderOne(lists[0], after);
      ReadsItems(Render(lists, after), lists[0], after, parens);
    }
  }

  // ---- The one way to read the lists of a term ----

  /** The first `ARRAY[` outside quotes stands at p. */
  predicate FirstOpens(e: string, p: nat) {
    && OccursAt(e, ARRAY, p) && !After(START, e[..p]).quoted
    && forall i | 0 <= i < p && OccursAt(e, ARRAY, i) :: After(START, e[..i]).quoted
  }

  lemma QuotedBefore(before: string, rest: string, i: nat)
    requires OnlyQuoted(before) && i < |before| && OccursAt(before + (ARRAY + rest), ARRAY, i)
    ensures After(START, (before + (ARRAY + rest))[..i]).quoted
  {
    OccursAfter(before, rest, i);
    OccursEmpty(ARRAY + rest, i - |before|);
    assert (before + (ARRAY + rest))[..i] == before[..i];
    hide OccursAt;
  }

  lemma OccursEmpty(s: string, i: int)
    ensures i < 0 ==> !OccursAt(s, ARRAY, i)
  {
  }

  lemma OpensAt(before: string, tail: string)
    requires OnlyQuoted(before) && !After(START, before).quoted
    ensures FirstOpens(before + (ARRAY + tail), |before|)
  {
    hide OnlyQuoted, After;
    var e := before + (ARRAY + tail);
    assert e[|before|..|before|+|ARRAY|] == ARRAY && e[..|before|] == before;
    forall i | 0 <= i < |before| && OccursAt(e, ARRAY, i) ensures After(START, e[..i]).quoted {
      QuotedBefore(before, tail, i);
    }
  }

  lemma Regroup(before: string, list: string, rest: string)
    ensures before + ARRAY + list + "]" + rest == before + (ARRAY + (list + "]" + rest))
  {
  }

  lemma PieceOpens(p: Piece, rest: string)
    requires ListPiece(p)
    ensures FirstOpens(p.before + ARRAY + Join(p.items, ", ") + "]" + rest, |p.before|)
  {
    hide OnlyQuoted, After, FirstOpens, Join, ListItem;
    Regroup(p.before, Join(p.items, ", "), rest);
    OpensAt(p.before, Join(p.items, ", ") + "]" + rest);
  }

  lemma OneOpens(e: string, p: nat, q: nat)
    requires FirstOpens(e, p) && FirstOpens(e, q) && p < |e| && q < |e|
    ensures p == q
  {
    hide After, OccursAt;
  }

  lemma SameLength(e: string, before: string, list: string, rest: string, list': string, rest': string)
    requires e == before + ARRAY + list + "]" + rest == before + ARRAY + list' + "]" + rest'
    requires Balanced(list) && Balanced(list')
    ensures |list| == |list'|
  {
    hide Balanced, ClosingBracket;
    ListPieces(before, list, rest, e);
    ListPieces(before, list', rest', e);
    ClosingFound(e, |before| + |ARRAY|, list);
    ClosingFound(e, |before| + |ARRAY|, list');
  }

  lemma SameCuts(a: string, list: string, rest: string, list': string, rest': string)
    requires a + list + "]" + rest == a + list' + "]" + rest' && |list| == |list'|
    ensures list == list' && rest == rest'
  {
    var e := a + list + "]" + rest;
    assert e[|a|..|a|+|list|] == list == list';
    assert e[|a|+|list|+1..] == rest == rest';
  }

  /** Two ways to read one text begin with the same list. */
  lemma SameFirst(e: string, p: Piece, rest: string, q: Piece, rest': string)
    requires e == p.before + ARRAY + Join(p.items, ", ") + "]" + rest && ListPiece(p)
    requires e == q.before + ARRAY + Join(q.items, ", ") + "]" + rest' && ListPiece(q)
    ensures p == q && rest == rest'
  {
    hide FirstOpens, OnlyQuoted, Join, ListItem, After, Balanced;
    var list, list' := Join(p.items, ", "), Join(q.items, ", ");
    PieceOpens(p, rest);
    PieceOpens(q, rest');
    OneOpens(e, |p.before|, |q.before|);
    assert p.before == e[..|p.before|] == q.before;
    ItemsBalanced(p.items);
    ItemsBalanced(q.items);
    SameLength(e, p.before, list, rest, list', rest');
    SameCuts(p.before + ARRAY, list, rest, list', rest');
    ItemsSplit(p.items);
    ItemsSplit(q.items);
  }

  lemma {:induction false} OneReading(ps: seq<Piece>, after: string, qs: seq<Piece>, after': string)
    requires AtomText(ps, after) && AtomText(qs, after') && Render(ps, after) == Render(qs, after')
    ensures ps == qs && after == after'
  {
    var e := Render(ps, after);
    hide Join, ListItem, OnlyQuoted, After;
    if ps == [] && qs == [] {
    } else if ps == [] {
      NotOnlyQuoted(e, qs[0], Render(qs[1..], after'));
    } else if qs == [] {
      NotOnlyQuoted(e, ps[0], Render(ps[1..], after));
    } else {
      SameFirst(e, ps[0], Render(ps[1..], after), qs[0], Render(qs[1..], after'));
      OneReading(ps[1..], after, qs[1..], after');
      assert ps == [ps[0]] + ps[1..] && qs == [qs[0]] + qs[1..];
    }
  }

  lemma NotOnlyQuoted(e: string, p: Piece, rest: string)
    requires e == p.before + ARRAY + Join(p.items, ", ") + "]" + rest && ListPiece(p)
    ensures !OnlyQuoted(e)
  {
    PieceOpens(p, rest);
  }

  // ---- Replacing a part of a term ----

  /** Text that leaves the depth and the quotes as it finds them, and never goes below that depth. */
  predicate Neutral(quoted: bool, s: string) {
    && After(Mode(0, quoted), s) == Mode(0, quoted)
    && forall i | 0 <= i <= |s| :: After(Mode(0, quoted), s[..i]).depth >= 0
  }

  lemma NeutralKeeps(m: Mode, s: string)
    requires Neutral(m.quoted, s)
    ensures After(m, s) == m
    ensures forall i | 0 <= i <= |s| :: After(m, s[..i]).depth >= m.depth
  {
    AfterShift(m, s);
    forall i | 0 <= i <= |s| ensures After(m, s[..i]).depth >= m.depth {
      AfterShift(m, s[..i]);
    }
  }

  lemma ReplacedMode(m: Mode, p: string, x: string, y: string, r: string)
    requires Neutral(After(m, p).quoted, x) && Neutral(After(m, p).quoted, y)
    ensures After(m, p + x + r) == After(m, p + y + r)
  {
    AfterConcat(m, p + x, r);
    AfterConcat(m, p, x);
    AfterConcat(m, p + y, r);
    AfterConcat(m, p, y);
    NeutralKeeps(After(m, p), x);
    NeutralKeeps(After(m, p), y);
  }

  lemma PrefixOf(p: string, y: string, r: string, i: nat)
    requires i <= |p + y + r|
    ensures (p + y + r)[..i] == if i <= |p| then p[..i]
                                else if i <= |p| + |y| then p + y[..i-|p|]
                                else p + y + r[..i-|p|-|y|]
  {
  }

  lemma ReplacedBalanced(p: string, x: string, y: string, r: string)
    requires Neutral(After(START, p).quoted, x) && Neutral(After(START, p).quoted, y)
    requires Balanced(p + x + r)
    ensures Balanced(p + y + r)
  {
    var s, t := p + x + r, p + y + r;
    ReplacedMode(START, p, x, y, r);
    NeutralKeeps(After(START, p), y);
    PrefixOf(p, x, r, |p|);
    assert p[..|p|] == p;
    assert After(START, s[..|p|]).depth >= 0;
    forall i | 0 <= i <= |t| ensures After(START, t[..i]).depth >= 0 {
      PrefixOf(p, y, r, i);
      if i <= |p| {
        PrefixOf(p, x, r, i);
        assert After(START, s[..i]).depth >= 0;
      } else if i <= |p| + |y| {
        AfterConcat(START, p, y[..i-|p|]);
      } else {
        ReplacedMode(START, p, x, y, r[..i-|p|-|y|]);
        PrefixOf(p, x, r, i - |y| + |x|);
        assert After(START, s[..i-|y|+|x|]).depth >= 0;
      }
    }
  }

  lemma PartOf(p: string, y: string, r: string)
    requires |p| >= 1 && |r| >= 1
    ensures (p + y + r)[1..|p+y+r|-1] == p[1..] + y + r[..|r|-1]
    ensures (p + y + r)[0] == p[0] && (p + y + r)[|p+y+r|-1] == r[|r|-1]
  {
  }

  /** Behind an opening parenthesis the quotes are as without it. */
  lemma QuotedInside(p: string)
    requires |p| >= 1 && p[0] == '('
    ensures After(START, p).quoted == After(START, p[1..]).quoted
  {
    InsideParentheses(p[1..], |p| - 1);
    assert p == "(" + p[1..] && p[..|p|] == p && p[1..][..|p|-1] == p[1..];
  }

  lemma ReplacedNotWrapped(p: string, x: string, y: string, r: string)
    requires |p| >= 1 && |r| >= 1
    requires Neutral(After(START, p).quoted, x) && Neutral(After(START, p).quoted, y)
    requires !Wrapped(p + x + r)
    ensures !Wrapped(p + y + r)
  {
    hide Balanced, Neutral, After;
    PartOf(p, x, r);
    PartOf(p, y, r);
    if p[0] == '(' && Balanced(p[1..] + y + r[..|r|-1]) {
      QuotedInside(p);
      ReplacedBalanced(p[1..], y, x, r[..|r|-1]);
    }
  }

  /** Up to its end, an operator that stands outside brackets and quotes stays outside. */
  lemma CutReaches(u: string, op: string, i: nat, p: nat)
    requires Word(op) && Cut(u, op, i) && i <= p <= i + |op|
    ensures After(START, u[..p]) == START
  {
    assert u[..p] == u[..i] + op[..p-i] by {
      assert u[i..p] == u[i..i+|op|][..p-i];
    }
    AfterConcat(START, u[..i], op[..p-i]);
    assert forall c | c in op[..p-i] :: c in op;
    AfterPlain(START, op[..p-i]);
  }

  /** From the end of p to the end of y, some bracket or quote is open. */
  predicate Inside(p: string, y: string) { forall i | 0 <= i <= |y| :: After(START, p + y[..i]) != START }

  lemma TailOf(head: string, tail: string, k: nat, n: nat)
    requires k + n <= |tail|
    ensures (head + tail)[|head|+k..|head|+k+n] == tail[k..k+n] && (head + tail)[..|head|+k] == head + tail[..k]
  {
  }

  lemma CutInTail(head: string, head': string, tail: string, op: string, k: nat)
    requires op != "" && After(START, head) == After(START, head') && Cut(head + tail, op, |head| + k)
    ensures Cut(head' + tail, op, |head'| + k)
  {
    TailOf(head, tail, k, |op|);
    TailOf(head', tail, k, |op|);
    AfterConcat(START, head, tail[..k]);
    AfterConcat(START, head', tail[..k]);
    hide After;
    assert (head + tail)[|head|+k] == tail[k] == (head' + tail)[|head'|+k];
  }

  lemma CutInHead(head: string, tail: string, tail': string, op: string, i: nat)
    requires op != "" && i + |op| <= |head| && Cut(head + tail, op, i)
    ensures Cut(head + tail', op, i)
  {
    var s, t := head + tail, head + tail';
    assert s[..i] == t[..i] && s[i..i+|op|] == t[i..i+|op|];
  }

  /** No operator begins in y, or runs into it. */
  lemma UncutInside(p: string, y: string, r: string, op: string, i: nat)
    requires Word(op) && Inside(p, y) && Cut(p + y + r, op, i)
    ensures i + |op| <= |p| || i > |p| + |y|
  {
    var t, k := p + y + r, if |p| <= i <= |p| + |y| then i - |p| else 0;
    assert t[..|p|+k] == p + y[..k];
    if i < |p| < i + |op| {
      CutReaches(t, op, i, |p|);
    }
  }

  lemma CutStays(p: string, x: string, y: string, r: string, op: string, i: nat)
    requires After(START, p + x) == After(START, p + y) && Inside(p, y)
    requires Word(op) && Cut(p + y + r, op, i)
    ensures exists j :: 0 <= j < |p + x + r| && Cut(p + x + r, op, j)
  {
    UncutInside(p, y, r, op, i);
    hide After, Inside;
    if i + |op| <= |p| {
      assert p + y + r == p + (y + r) && p + x + r == p + (x + r);
      CutInHead(p, y + r, x + r, op, i);
      assert Cut(p + x + r, op, i);
    } else {
      var k := i - |p| - |y|;
      CutInTail(p + y, p + x, r, op, k);
      assert Cut(p + x + r, op, |p + x| + k);
    }
  }

  lemma ReplacedUncut(p: string, x: string, y: string, r: string, op: string)
    requires Neutral(After(START, p).quoted, x) && Neutral(After(START, p).quoted, y) && Inside(p, y)
    requires Word(op) && NoCutBefore(p + x + r, op, |p + x + r|)
    ensures NoCutBefore(p + y + r, op, |p + y + r|)
  {
    ReplacedMode(START, p, x, y, "");
    assert p + x + "" == p + x && p + y + "" == p + y;
    hide Neutral, After, Inside, Cut, Word;
    forall i | 0 <= i < |p + y + r| ensures !Cut(p + y + r, op, i) {
      if Cut(p + y + r, op, i) {
        CutStays(p, x, y, r, op, i);
      }
    }
  }

  lemma InsidePadded(p: string, y: string)
    requires Inside(p, y)
    ensures Inside(" " + p, y) && After(START, " " + p) == After(START, p)
  {
    AfterPlain(START, " ");
    AfterConcat(START, " ", p);
    forall i | 0 <= i <= |y| ensures After(START, " " + p + y[..i]) != START {
      assert " " + p + y[..i] == " " + (p + y[..i]);
      AfterConcat(START, " ", p + y[..i]);
      assert After(START, p + y[..i]) != START;
    }
  }

  lemma Padded(p: string, y: string, r: string)
    ensures " " + (p + y + r) + " " == " " + p + y + (r + " ")
  {
  }

  lemma ReplacedClear(p: string, x: string, y: string, r: string, op: string)
    requires Neutral(After(START, p).quoted, x) && Neutral(After(START, p).quoted, y) && Inside(p, y)
    requires Word(op) && Clear(p + x + r, op)
    ensures Clear(p + y + r, op)
  {
    hide Neutral, After, Inside, Word, Cut;
    InsidePadded(p, y);
    Padded(p, x, r);
    Padded(p, y, r);
    ReplacedUncut(" " + p, x, y, r + " ", op);
  }

  /** Inside brackets or quotes, a neutral part of a term may be replaced by another. */
  lemma ReplacedLeaf(p: string, x: string, y: string, r: string)
    requires LeafText(p + x + r) && |p| >= 1 && |r| >= 1 && Inside(p, y)
    requires Neutral(After(START, p).quoted, x) && Neutral(After(START, p).quoted, y)
    ensures LeafText(p + y + r)
  {
    OperatorIsWord(Or);
    OperatorIsWord(And);
    hide Balanced, Neutral, Inside, Wrapped, Clear, Word, After;
    ReplacedBalanced(p, x, y, r);
    ReplacedNotWrapped(p, x, y, r);
    ReplacedClear(p, x, y, r, OR);
    ReplacedClear(p, x, y, r, AND);
    PartOf(p, x, r);
    PartOf(p, y, r);
  }
}
