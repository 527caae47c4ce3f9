/** Where the claim of scripts/check_permission_constraints.py says too much: the program reads a list only in
    a term with a single `ARRAY[`, constants included, and nothing inside the brackets of a term. Elsewhere
    order counts. Trees equal up to order compare equal exactly when no term has several `ARRAY[` and
    different values in one list. */
module RepeatedLists {
  import opened Ordering
  import opened Splitting
  import opened Canonical
  import opened Printing
  import opened OrderOnly
  import opened LeafTexts
  import opened QuotedLists

  /** Some list of the term has two different values. */
  predicate Varied(lists: seq<Piece>) {
    exists k, i, j ::
      0 <= k < |lists| && 0 <= i < j < |lists[k].items| && lists[k].items[i] != lists[k].items[j]
  }

  /** Some term has several `ARRAY[`, in texts, lists or constants, and a list with two different values. */
  predicate OrderCounts(t: Term) {
    match t
    case Atom(lists, after, _) => Count(Render(lists, after), ARRAY, 0) != 1 && Varied(lists)
    case Group(_, terms, _) => exists k :: 0 <= k < |terms| && OrderCounts(terms[k])
  }

  // ---- Otherwise order is ignored ----

  lemma SameValues(p: Piece, q: Piece)
    requires SamePiece(p, q) && forall i, j | 0 <= i < j < |p.items| :: p.items[i] == p.items[j]
    ensures p == q
  {
    assert |multiset(p.items)| == |p.items| && |multiset(q.items)| == |q.items|;
    forall i | 0 <= i < |q.items| ensures q.items[i] == p.items[i] {
      assert q.items[i] in multiset(p.items);
    }
  }

  lemma SameUnvaried(ps: seq<Piece>, qs: seq<Piece>)
    requires SameLists(ps, qs) && !Varied(ps)
    ensures ps == qs
  {
    forall k | 0 <= k < |ps| ensures ps[k] == qs[k] {
      SameValues(ps[k], qs[k]);
    }
  }

  lemma SameLone(ps: seq<Piece>, qs: seq<Piece>, after: string)
    requires SameLists(ps, qs) && Lone(ps, after)
    ensures Lone(qs, after)
  {
    var p, q := ps[0], qs[0];
    assert SamePiece(p, q);
    forall k | 0 <= k < |q.items| ensures !Holds(q.items[k]) {
      assert q.items[k] in multiset(p.items);
    }
  }

  lemma SameListsBack(ps: seq<Piece>, qs: seq<Piece>)
    requires SameLists(ps, qs)
    ensures SameLists(qs, ps)
  {
  }

  /** How terms that differ in the order of their values are read. */
  lemma AtomsRead(a: Term, b: Term)
    requires WellFormed(a) && a.Atom? && WellFormed(b) && SameUpToOrder(a, b) && a.lists != []
    ensures if Count(Body(a), ARRAY, 0) == 1 then ReadAs(a) == a && ReadAs(b) == b
            else ReadAs(a) == Atom([], Body(a), a.parens) && ReadAs(b) == Atom([], Body(b), b.parens)
  {
    SameListsBack(a.lists, b.lists);
    if Lone(a.lists, a.after) { SameLone(a.lists, b.lists, a.after); }
    if Lone(b.lists, b.after) { SameLone(b.lists, a.lists, b.after); }
    CountsLone(a.lists, a.after);
    AtomRead(a.lists, a.after, a.parens);
    AtomRead(b.lists, b.after, b.parens);
    hide Count, Lone, LeafText, ReadText, Render, ListPiece, OnlyQuoted;
  }

  lemma TextsSame(s: string, t: string, n: nat, m: nat)
    ensures SameUpToOrder(Atom([], s, n), Atom([], t, m)) <==> s == t
  {
  }

  /** Permuting the values of a term's lists leaves its canonical form unchanged exactly when the term has
      a single `ARRAY[`, or its text does not change. */
  lemma ValuesPermuted(a: Term, b: Term, repr: Canon -> string)
    requires WellFormed(a) && a.Atom? && WellFormed(b) && SameUpToOrder(a, b) && a.lists != []
    requires Injective(repr)
    ensures Canonicalise(Print(a), repr) == Canonicalise(Print(b), repr)
       <==> Count(Body(a), ARRAY, 0) == 1 || Body(a) == Body(b)
  {
    AtomsRead(a, b);
    EqualAsRead(a, b, repr);
    TextsSame(Body(a), Body(b), a.parens, b.parens);
    hide *;
  }

  lemma AtomKeepsOrder(a: Term, b: Term)
    requires WellFormed(a) && a.Atom? && WellFormed(b) && SameUpToOrder(a, b) && !OrderCounts(a)
    ensures SameUpToOrder(ReadAs(a), ReadAs(b))
  {
    if a.lists == [] {
      hide ReadText, WellFormed;
      assert a.lists == b.lists;
      ReadTextAgain(Body(a), a.parens, b.parens);
    } else {
      AtomsRead(a, b);
      hide WellFormed, ReadAs, Count;
      if !Varied(a.lists) {
        SameUnvaried(a.lists, b.lists);
      }
    }
  }

  lemma ReadTextAgain(core: string, n: nat, m: nat)
    ensures SameUpToOrder(ReadText(core, n), ReadText(core, m))
  {
  }

  predicate OrderFree(ts: seq<Term>) { forall k | 0 <= k < |ts| :: !OrderCounts(ts[k]) }

  predicate AllWellFormed(ts: seq<Term>) { forall k | 0 <= k < |ts| :: WellFormed(ts[k]) }

  lemma {:induction false} ReadingKeepsOrder(a: Term, b: Term)
    requires WellFormed(a) && WellFormed(b) && SameUpToOrder(a, b) && !OrderCounts(a)
    ensures SameUpToOrder(ReadAs(a), ReadAs(b))
    decreases a, 1
  {
    if a.Atom? {
      AtomKeepsOrder(a, b);
    } else {
      ReadingKeepsMatch(a.terms, b.terms);
    }
  }

  lemma RestOrderFree(ps: seq<Term>, bs: seq<Term>, j: nat)
    requires AllWellFormed(ps) && AllWellFormed(bs) && OrderFree(ps) && ps != [] && j < |bs|
    ensures WellFormed(ps[0]) && WellFormed(bs[j]) && !OrderCounts(ps[0])
    ensures AllWellFormed(ps[1..]) && AllWellFormed(Without(bs, j)) && OrderFree(ps[1..])
  {
    hide WellFormed, OrderCounts;
  }

  lemma {:induction false} ReadingKeepsMatch(ps: seq<Term>, bs: seq<Term>)
    requires AllWellFormed(ps) && AllWellFormed(bs) && OrderFree(ps) && Matched(ps, bs)
    ensures Matched(ReadAll(ps), ReadAll(bs))
    decreases ps, 0
  {
    hide WellFormed, OrderCounts, ReadAs, SameUpToOrder, AllWellFormed, OrderFree, Without;
    if ps == [] {
    } else {
      var j :| 0 <= j < |bs| && SameUpToOrder(ps[0], bs[j]) && Matched(ps[1..], Without(bs, j));
      RestOrderFree(ps, bs, j);
      ReadingKeepsOrder(ps[0], bs[j]);
      ReadingKeepsMatch(ps[1..], Without(bs, j));
      ReadAllAt(bs, j);
    }
  }

  /** Trees equal up to order compare equal, when no term has several `ARRAY[` and different values in a list. */
  lemma OrderIsIgnored(a: Term, b: Term, repr: Canon -> string)
    requires WellFormed(a) && WellFormed(b) && Injective(repr)
    requires SameUpToOrder(a, b) && !OrderCounts(a)
    ensures Canonicalise(Print(a), repr) == Canonicalise(Print(b), repr)
  {
    ReadingKeepsOrder(a, b);
    EqualAsRead(a, b, repr);
  }

  // ---- A term with two of its values exchanged ----

  /** The text of the lists before the k-th, up to its opening bracket. */
  function Head(lists: seq<Piece>, k: nat): string
    requires k < |lists|
  {
    var p := lists[0];
    if k == 0 then p.before + ARRAY
    else p.before + ARRAY + Join(p.items, ", ") + "]" + Head(lists[1..], k - 1)
  }

  function Tail(lists: seq<Piece>, after: string, k: nat): string
    requires k < |lists|
  {
    "]" + Render(lists[k+1..], after)
  }

  lemma Regrouped(a: string, b: string, c: string, d: string)
    ensures a + (b + c + d) == a + b + c + d
  {
  }

  lemma BracketRegrouped(a: string, b: string, c: string)
    ensures a + b + "]" + c == a + b + ("]" + c)
  {
  }

  lemma LaterValues(lists: seq<Piece>, k: nat, items: seq<string>)
    requires 0 < k < |lists|
    ensures lists[k := lists[k].(items := items)]
         == [lists[0]] + lists[1..][k - 1 := lists[k].(items := items)]
    ensures lists[1..][k..] == lists[k+1..]
  {
  }

  lemma RenderCons(p: Piece, rest: seq<Piece>, after: string)
    ensures Render([p] + rest, after) == p.before + ARRAY + Join(p.items, ", ") + "]" + Render(rest, after)
  {
    assert ([p] + rest)[1..] == rest;
  }

  /** Changing the values of the k-th list changes nothing around it. */
  lemma {:induction false} RenderAt(lists: seq<Piece>, after: string, k: nat, items: seq<string>)
    requires k < |lists|
    ensures Render(lists[k := lists[k].(items := items)], after)
         == Head(lists, k) + Join(items, ", ") + Tail(lists, after, k)
    decreases k
  {
    hide Join, Render;
    var p, q := lists[0], lists[k].(items := items);
    if k == 0 {
      assert lists[0 := q] == [q] + lists[1..];
      RenderCons(q, lists[1..], after);
      BracketRegrouped(p.before + ARRAY, Join(items, ", "), Render(lists[1..], after));
    } else {
      LaterValues(lists, k, items);
      RenderCons(p, lists[1..][k - 1 := q], after);
      RenderAt(lists[1..], after, k - 1, items);
      Regrouped(p.before + ARRAY + Join(p.items, ", ") + "]", Head(lists[1..], k - 1), Join(items, ", "),
                Tail(lists, after, k));
    }
  }

  lemma ArrayOpens(m: Mode)
    requires !m.quoted
    ensures After(m, ARRAY) == Mode(m.depth + 1, false)
  {
    assert ARRAY == "ARRAY" + "[";
    AfterPlain(m, "ARRAY");
    AfterConcat(m, "ARRAY", "[");
    assert After(m, "[") == Advance(After(m, ""), '[');
  }

  lemma PieceQuotes(m: Mode, p: Piece)
    requires !m.quoted && ListPiece(p)
    ensures !After(m, p.before + ARRAY).quoted
    ensures !After(m, p.before + ARRAY + Join(p.items, ", ") + "]").quoted
  {
    var list := Join(p.items, ", ");
    AfterShift(m, p.before);
    AfterConcat(m, p.before, ARRAY);
    ArrayOpens(After(m, p.before));
    ItemsBalanced(p.items);
    NeutralKeeps(After(m, p.before + ARRAY), list);
    AfterConcat(m, p.before + ARRAY, list);
    AfterConcat(m, p.before + ARRAY + list, "]");
    var n := After(m, p.before + ARRAY + list);
    assert After(n, "]") == Advance(After(n, ""), ']');
  }

  lemma {:induction false} HeadQuotes(m: Mode, lists: seq<Piece>, k: nat)
    requires !m.quoted && k < |lists| && forall i | 0 <= i < |lists| :: ListPiece(lists[i])
    ensures !After(m, Head(lists, k)).quoted
    ensures ARRAY <= Head(lists, k)[|Head(lists, k)|-|ARRAY|..] && |Head(lists, k)| >= |ARRAY|
    decreases k
  {
    hide Join, ListPiece, After;
    PieceQuotes(m, lists[0]);
    if k == 0 {
    } else {
      var p := lists[0];
      var first := p.before + ARRAY + Join(p.items, ", ") + "]";
      HeadQuotes(After(m, first), lists[1..], k - 1);
      AfterConcat(m, first, Head(lists[1..], k - 1));
    }
  }

  /** Between the brackets of a list the depth is at least one. */
  lemma InsideList(p: string, x: string, y: string, r: string)
    requires Balanced(p + x + r) && Balanced(y)
    requires p != "" && p[|p|-1] == '[' && !After(START, p).quoted
    ensures Inside(p, y)
  {
    OpenDepth(p, x, r);
    NeutralKeeps(After(START, p), y);
    forall i | 0 <= i <= |y| ensures After(START, p + y[..i]) != START {
      AfterConcat(START, p, y[..i]);
    }
  }

  lemma OpenDepth(p: string, x: string, r: string)
    requires Balanced(p + x + r) && p != "" && p[|p|-1] == '[' && !After(START, p).quoted
    ensures After(START, p).depth >= 1
  {
    var n := |p| - 1;
    PrefixOf(p, x, r, n);
    assert After(START, (p + x + r)[..n]).depth >= 0;
    AfterOne(START, p, n);
    assert p[..n+1] == p;
  }

  function Exchanged<T>(xs: seq<T>, i: nat, j: nat): seq<T>
    requires i < |xs| && j < |xs|
  {
    xs[i := xs[j]][j := xs[i]]
  }

  lemma LeafWithValues(lists: seq<Piece>, after: string, k: nat, items: seq<string>)
    requires k < |lists| && AtomText(lists, after) && LeafText(Render(lists, after))
    requires items != [] && forall i | 0 <= i < |items| :: ListItem(items[i])
    ensures var us := lists[k := lists[k].(items := items)];
            AtomText(us, after) && LeafText(Render(us, after))
  {
    hide ListItem, OnlyQuoted, Join, After, Balanced, Wrapped, Clear, Neutral, Inside;
    assert lists[k := lists[k].(items := lists[k].items)] == lists;
    RenderAt(lists, after, k, lists[k].items);
    RenderAt(lists, after, k, items);
    HeadQuotes(START, lists, k);
    ItemsBalanced(items);
    ItemsBalanced(lists[k].items);
    ReplacedList(Head(lists, k), Join(lists[k].items, ", "), Join(items, ", "), Tail(lists, after, k));
  }

  lemma ReplacedList(p: string, x: string, y: string, r: string)
    requires LeafText(p + x + r) && Balanced(x) && Balanced(y) && !After(START, p).quoted
    requires |p| >= |ARRAY| && ARRAY <= p[|p|-|ARRAY|..] && r != ""
    ensures LeafText(p + y + r)
  {
    assert p[|p|-1] == p[|p|-|ARRAY|..][|ARRAY|-1] == '[';
    InsideList(p, x, y, r);
    hide LeafText;
    ReplacedLeaf(p, x, y, r);
  }

  lemma ExchangedValues<T>(xs: seq<T>, i: nat, j: nat)
    requires i < |xs| && j < |xs|
    ensures multiset(Exchanged(xs, i, j)) == multiset(xs)
    ensures forall x | x in Exchanged(xs, i, j) :: x in xs
    ensures xs[i] != xs[j] ==> Exchanged(xs, i, j) != xs
  {
  }

  /** The same tree in another order, which is read as another. */
  ghost predicate Permutation(t: Term, u: Term, repr: Canon -> string) {
    && WellFormed(u) && (Child(t) ==> Child(u)) && SameUpToOrder(t, u)
    && Normal(ReadAs(u), repr) != Normal(ReadAs(t), repr)
  }

  lemma ExchangedLists(lists: seq<Piece>, k: nat, i: nat, j: nat)
    requires k < |lists| && i < j < |lists[k].items| && lists[k].items[i] != lists[k].items[j]
    ensures var us := lists[k := lists[k].(items := Exchanged(lists[k].items, i, j))];
            SameLists(lists, us) && us != lists
  {
    var us := lists[k := lists[k].(items := Exchanged(lists[k].items, i, j))];
    ExchangedValues(lists[k].items, i, j);
    hide Exchanged;
    assert us[k].items != lists[k].items;
  }

  lemma ExchangedLeaf(lists: seq<Piece>, after: string, k: nat, i: nat, j: nat)
    requires AtomText(lists, after) && LeafText(Render(lists, after))
    requires k < |lists| && i < j < |lists[k].items|
    ensures var us := lists[k := lists[k].(items := Exchanged(lists[k].items, i, j))];
            AtomText(us, after) && LeafText(Render(us, after))
  {
    var items := Exchanged(lists[k].items, i, j);
    ExchangedValues(lists[k].items, i, j);
    hide LeafText, ListItem, OnlyQuoted, Render;
    LeafWithValues(lists, after, k, items);
  }

  lemma PermutedText(t: Term, u: Term, repr: Canon -> string)
    requires WellFormed(t) && t.Atom? && t.lists != [] && Count(Body(t), ARRAY, 0) != 1
    requires WellFormed(u) && SameUpToOrder(t, u) && t.lists != u.lists
    ensures Permutation(t, u, repr)
  {
    AtomsRead(t, u);
    if Body(t) == Body(u) {
      OneReading(t.lists, t.after, u.lists, u.after);
    }
    hide Count, LeafText, AtomText, ReadAs;
  }

  lemma AtomPermutation(t: Term, k: nat, i: nat, j: nat, repr: Canon -> string)
    requires WellFormed(t) && t.Atom? && Count(Body(t), ARRAY, 0) != 1
    requires k < |t.lists| && i < j < |t.lists[k].items| && t.lists[k].items[i] != t.lists[k].items[j]
    ensures exists u :: Permutation(t, u, repr)
  {
    var u := t.(lists := t.lists[k := t.lists[k].(items := Exchanged(t.lists[k].items, i, j))]);
    hide Count, LeafText, AtomText, Permutation, Exchanged;
    ExchangedLists(t.lists, k, i, j);
    ExchangedLeaf(t.lists, t.after, k, i, j);
    PermutedText(t, u, repr);
  }

  // ---- ... anywhere in a tree ----

  lemma {:induction false} SameItself(t: Term)
    ensures SameUpToOrder(t, t)
    decreases t, 1
  {
    if t.Atom? {
    } else {
      AllSameThemselves(t.terms);
    }
  }

  lemma {:induction false} AllSameThemselves(ts: seq<Term>)
    ensures Matched(ts, ts)
    decreases ts, 0
  {
    hide SameUpToOrder;
    if ts == [] {
    } else {
      SameItself(ts[0]);
      AllSameThemselves(ts[1..]);
      assert Without(ts, 0) == ts[1..];
    }
  }

  lemma {:induction false} MatchedUpdate(ts: seq<Term>, k: nat, v: Term)
    requires k < |ts| && SameUpToOrder(ts[k], v)
    ensures Matched(ts, ts[k := v])
    decreases k
  {
    hide SameUpToOrder;
    var us := ts[k := v];
    if k == 0 {
      AllSameThemselves(ts[1..]);
      assert Without(us, 0) == ts[1..];
    } else {
      SameItself(ts[0]);
      MatchedUpdate(ts[1..], k - 1, v);
      assert Without(us, 0) == ts[1..][k - 1 := v];
    }
  }

  lemma {:induction false} NormalAllUpdate(ts: seq<Term>, k: nat, v: Term, repr: Canon -> string)
    requires k < |ts|
    ensures NormalAll(ts[k := v], repr) == NormalAll(ts, repr)[k := Normal(v, repr)]
  {
    hide Normal;
    if k == 0 {
      assert ts[0 := v][1..] == ts[1..];
    } else {
      NormalAllUpdate(ts[1..], k - 1, v, repr);
      assert ts[k := v][1..] == ts[1..][k - 1 := v];
    }
  }

  lemma UpdateDiffers<T>(xs: seq<T>, k: nat, x: T)
    requires k < |xs| && xs[k] != x
    ensures multiset(xs[k := x]) != multiset(xs)
  {
    assert multiset(xs[k := x])[x] == multiset(xs)[x] + 1;
  }

  lemma GroupDiffers(t: Term, k: nat, v: Term, repr: Canon -> string)
    requires t.Group? && k < |t.terms| && Injective(repr)
    requires Normal(ReadAs(v), repr) != Normal(ReadAs(t.terms[k]), repr)
    ensures Normal(ReadAs(t.(terms := t.terms[k := v])), repr) != Normal(ReadAs(t), repr)
  {
    var rs := ReadAll(t.terms);
    ReadAllUpdate(t.terms, k, v);
    ReadAllAt(t.terms, k);
    NormalAllUpdate(rs, k, ReadAs(v), repr);
    NormalAllAt(rs, repr, k);
    UpdateDiffers(NormalAll(rs, repr), k, Normal(ReadAs(v), repr));
    KeyOrderTotal(repr);
    SortForgetsOrder(NormalAll(rs[k := ReadAs(v)], repr), NormalAll(rs, repr), KeyOrder(repr));
    hide Sort, NormalAll, ReadAll;
  }

  lemma PermutationAbove(t: Term, k: nat, v: Term, repr: Canon -> string)
    requires WellFormed(t) && t.Group? && k < |t.terms| && Injective(repr) && Permutation(t.terms[k], v, repr)
    ensures Permutation(t, t.(terms := t.terms[k := v]), repr)
  {
    WellFormedUpdate(t, k, v);
    MatchedUpdate(t.terms, k, v);
    GroupDiffers(t, k, v, repr);
    hide WellFormed, Normal, ReadAs, Matched;
  }

  lemma {:induction false} PermutationExists(t: Term, repr: Canon -> string)
    requires WellFormed(t) && OrderCounts(t) && Injective(repr)
    ensures exists u :: Permutation(t, u, repr)
  {
    hide Permutation, WellFormed;
    match t {
      case Atom(lists, after, parens) =>
        var k, i, j :|
          0 <= k < |lists| && 0 <= i < j < |lists[k].items| && lists[k].items[i] != lists[k].items[j];
        AtomPermutation(t, k, i, j, repr);
      case Group(_, terms, _) =>
        var k :| 0 <= k < |terms| && OrderCounts(terms[k]);
        ChildWellFormed(t, k);
        PermutationExists(terms[k], repr);
        var v :| Permutation(terms[k], v, repr);
        PermutationAbove(t, k, v, repr);
    }
  }

  lemma ChildWellFormed(t: Term, k: nat)
    requires WellFormed(t) && t.Group? && k < |t.terms|
    ensures WellFormed(t.terms[k])
  {
  }

  lemma PermutationDiffers(a: Term, b: Term, repr: Canon -> string)
    requires WellFormed(a) && Permutation(a, b, repr)
    ensures WellFormed(b) && SameUpToOrder(a, b) && Canonicalise(Print(a), repr) != Canonicalise(Print(b), repr)
  {
    CanonicalOfPrinted(a, repr);
    CanonicalOfPrinted(b, repr);
  }

  /** Every tree equal to this one up to order compares equal to it, exactly when no term of it has several
      `ARRAY[` and two different values in one list. */
  lemma OrderIgnoredExactly(a: Term, repr: Canon -> string)
    requires WellFormed(a) && Injective(repr)
    ensures (forall b | WellFormed(b) ::
              SameUpToOrder(a, b) ==> Canonicalise(Print(a), repr) == Canonicalise(Print(b), repr))
       <==> !OrderCounts(a)
  {
    hide Canonicalise, SameUpToOrder, OrderCounts;
    if OrderCounts(a) {
      PermutationExists(a, repr);
      var b :| Permutation(a, b, repr);
      PermutationDiffers(a, b, repr);
    } else {
      hide WellFormed;
      forall b | WellFormed(b) && SameUpToOrder(a, b)
        ensures Canonicalise(Print(a), repr) == Canonicalise(Print(b), repr)
      {
        OrderIsIgnored(a, b, repr);
      }
    }
  }

  /** Comparing a tree with every other ignores order and nothing else, exactly when no constant is taken for
      a list, and no term has several `ARRAY[` and two different values in one list. */
  lemma OrderAndNothingElse(a: Term, repr: Canon -> string)
    requires WellFormed(a) && Injective(repr)
    ensures (forall b | WellFormed(b) ::
              Canonicalise(Print(a), repr) == Canonicalise(Print(b), repr) <==> SameUpToOrder(a, b))
       <==> !Misreads(a) && !OrderCounts(a)
  {
    ExactWithoutMisreading(a, repr);
    OrderIgnoredExactly(a, repr);
    hide *;
  }

  // ---- Texts compared as they stand ----

  /** Terms without a list to the program compare equal only as texts: what stands in their brackets, OR
      and AND included, is compared in order. */
  lemma TextsCompareVerbatim(s: string, t: string, repr: Canon -> string)
    requires LeafText(s) && LeafText(t) && !TakenForList(s) && !TakenForList(t)
    ensures Canonicalise(s, repr) == Canonicalise(t, repr) <==> s == t
  {
    TextForm(s, repr);
    TextForm(t, repr);
  }

  lemma TextForm(s: string, repr: Canon -> string)
    requires LeafText(s) && !TakenForList(s)
    ensures Canonicalise(s, repr) == Plain(s)
  {
    UnwrapEnclose(s, 0);
    LeafUnsplit(s);
    CanonicaliseLeaf(s, s, repr);
    TextAsItStands(s, 0, repr);
  }

  /** A text, then a part in parentheses. */
  function Applied(w: string, b: string): string { w + ("(" + b + ")") }

  lemma AppliedBalanced(w: string, b: string)
    requires Balanced(b) && forall c | c in w :: !Special(c)
    ensures Balanced(Applied(w, b))
  {
    BalancedParentheses(b);
    BalancedPlain(w);
    BalancedConcat(w, "(" + b + ")");
  }

  lemma DepthInside(b: string, k: nat)
    requires Balanced(b) && 1 <= k <= |b| + 1
    ensures After(START, ("(" + b)[..k]).depth >= 1
  {
    InsideParentheses(b, k - 1);
    assert After(START, b[..k-1]).depth >= 0;
  }

  lemma AppliedDepth(p: string, b: string, i: nat)
    requires Balanced(b) && After(START, p) == START && |p| < i <= |p| + 1 + |b|
    ensures After(START, (p + ("(" + b + ")" + " "))[..i]) != START
  {
    var k := i - |p|;
    assert (p + ("(" + b + ")" + " "))[..i] == p + ("(" + b)[..k];
    AfterConcat(START, p, ("(" + b)[..k]);
    DepthInside(b, k);
  }

  lemma NotOverSpecial(t: string, op: string, i: nat, at: nat)
    requires Word(op) && OccursAt(t, op, i) && at < |t| && Special(t[at])
    ensures i + |op| <= at || i > at
  {
    OccursChars(t, op, i);
    assert forall k | i <= k < i + |op| :: t[k] == op[k-i] && op[k-i] in op;
  }

  /** An operator lies in front of the parenthesis. */
  lemma AppliedCut(p: string, b: string, op: string, i: nat)
    requires Balanced(b) && After(START, p) == START && Word(op) && Cut(p + ("(" + b + ")" + " "), op, i)
    ensures OccursAt(p, op, i)
  {
    var t := p + ("(" + b + ")" + " ");
    assert t[|p|] == '(';
    NotOverSpecial(t, op, i, |p|);
    if |p| < i <= |p| + 1 + |b| {
      AppliedDepth(p, b, i);
    }
    assert p == t[..|p|];
  }

  /** No OR or AND begins at a blank of the text. */
  predicate NoWord(t: string) {
    forall k | 0 <= k < |t| - 3 && t[k] == ' ' :: t[k+1] != 'O' && t[k+3] != 'D'
  }

  lemma WordChars(t: string, c: Connective, i: int)
    requires OccursAt(t, Operator(c), i)
    ensures 0 <= i < |t| - 3 && t[i] == ' '
    ensures if c == Or then t[i+1] == 'O' else t[i+3] == 'D'
  {
    OccursChars(t, Operator(c), i);
    assert if c == Or then Operator(c)[1] == 'O' else Operator(c)[3] == 'D';
  }

  lemma NoWordHere(t: string, c: Connective, i: int)
    requires NoWord(t)
    ensures !OccursAt(t, Operator(c), i)
  {
    if OccursAt(t, Operator(c), i) {
      WordChars(t, c, i);
    }
  }

  lemma AppliedClear(w: string, b: string, c: Connective)
    requires Balanced(b) && (forall c | c in w :: !Special(c)) && NoWord(" " + w)
    ensures Clear(Applied(w, b), Operator(c))
  {
    var p, r, op := " " + w, "(" + b + ")" + " ", Operator(c);
    OperatorIsWord(c);
    assert " " + Applied(w, b) + " " == p + r;
    forall c | c in p ensures !Special(c) {}
    AfterPlain(START, p);
    hide Balanced, Word, NoWord;
    forall i | 0 <= i < |p + r| ensures !Cut(p + r, op, i) {
      if Cut(p + r, op, i) {
        AppliedCut(p, b, op, i);
        NoWordHere(p, c, i);
      }
    }
  }

  lemma AppliedLeaf(w: string, b: string)
    requires Balanced(b) && w != "" && !IsSpace(w[0]) && (forall c | c in w :: !Special(c)) && NoWord(" " + w)
    ensures LeafText(Applied(w, b))
  {
    AppliedBalanced(w, b);
    AppliedClear(w, b, Or);
    AppliedClear(w, b, And);
    assert w[0] in w;
    hide Balanced, Clear, NoWord;
  }

  lemma HasBracket(s: string, i: int)
    requires OccursAt(s, ARRAY, i)
    ensures '[' in s
  {
    OccursChars(s, ARRAY, i);
    assert s[i+5] == '[';
  }

  lemma NoList(s: string)
    requires '[' !in s
    ensures !TakenForList(s)
  {
    if TakenForList(s) {
      HasBracket(s, Find(s, ARRAY, 0));
    }
  }

  /** Negations without a list compare equal only as texts. */
  lemma NegationsCompareVerbatim(b: string, c: string, repr: Canon -> string)
    requires Balanced(b) && Balanced(c) && '[' !in b && '[' !in c
    ensures Canonicalise(Applied("NOT ", b), repr) == Canonicalise(Applied("NOT ", c), repr) <==> b == c
  {
    assert NoWord(" " + "NOT ");
    AppliedLeaf("NOT ", b);
    AppliedLeaf("NOT ", c);
    hide LeafText, TakenForList, Canonicalise, Balanced;
    NoList(Applied("NOT ", b));
    NoList(Applied("NOT ", c));
    TextsCompareVerbatim(Applied("NOT ", b), Applied("NOT ", c), repr);
    AppliedInside("NOT ", b);
    AppliedInside("NOT ", c);
  }

  lemma AppliedInside(w: string, b: string)
    ensures Applied(w, b)[|w|+1..|w|+1+|b|] == b && |Applied(w, b)| == |w| + |b| + 2
  {
  }

  lemma NegationTexts()
    ensures Applied("NOT ", "a = 1 OR b = 2") == "NOT (a = 1 OR b = 2)"
    ensures Applied("NOT ", "b = 2 OR a = 1") == "NOT (b = 2 OR a = 1)"
    ensures "a = 1 OR b = 2" != "b = 2 OR a = 1"
  {
    assert "a = 1 OR b = 2"[0] != "b = 2 OR a = 1"[0];
  }

  lemma AlternativesPlain()
    ensures Balanced("a = 1 OR b = 2") && Balanced("b = 2 OR a = 1")
    ensures '[' !in "a = 1 OR b = 2" && '[' !in "b = 2 OR a = 1"
  {
    BalancedPlain("a = 1 OR b = 2");
    BalancedPlain("b = 2 OR a = 1");
  }

  /** The terms of an OR inside a negation are compared in order. */
  lemma NegationKeepsOrder(repr: Canon -> string)
    ensures Canonicalise("NOT (a = 1 OR b = 2)", repr) != Canonicalise("NOT (b = 2 OR a = 1)", repr)
  {
    hide *;
    NegationTexts();
    AlternativesPlain();
    NegationsCompareVerbatim("a = 1 OR b = 2", "b = 2 OR a = 1", repr);
  }

  // ---- A list that holds an `ARRAY[` in one of its constants ----

  lemma QuotedMode(q: string, i: nat)
    requires '\'' !in q && 1 <= i <= |q| + 1
    ensures After(START, ("'" + q + "'")[..i]) == Mode(0, true)
  {
    assert ("'" + q + "'")[..i] == "'" + q[..i-1];
    AfterConcat(START, "'", q[..i-1]);
    assert After(START, "'") == Advance(After(START, ""), '\'');
    QuotedStays(Mode(0, true), q[..i-1]);
  }

  /** A constant is a value of a list. */
  lemma ConstantIsItem(q: string)
    requires '\'' !in q
    ensures ListItem("'" + q + "'")
  {
    var s := "'" + q + "'";
    forall i | 1 <= i <= |q| + 1 ensures After(START, s[..i]) == Mode(0, true) {
      QuotedMode(q, i);
    }
    AfterOne(START, s, |q| + 1);
    assert s[..|s|] == s && s[..0] == "";
    forall i | 0 <= i < |s| ensures !Cut(s, ",", i) {
      if i == 0 {
        assert Special(s[0]);
      }
    }
  }

  lemma BracketsPrefix(list: string, i: nat)
    requires i <= |list| + |ARRAY|
    ensures (ARRAY + list + "]")[..i] == if i < |ARRAY| then ARRAY[..i] else ARRAY + list[..i-|ARRAY|]
  {
  }

  lemma BracketsDepth(list: string, i: nat)
    requires Balanced(list) && i <= |list| + |ARRAY|
    ensures After(START, (ARRAY + list + "]")[..i]).depth >= 0
  {
    BracketsPrefix(list, i);
    if i < |ARRAY| {
      AfterPlain(START, ARRAY[..i]);
    } else {
      var m := Mode(1, false);
      ArrayOpens(START);
      AfterConcat(START, ARRAY, list[..i-|ARRAY|]);
      NeutralKeeps(m, list);
      assert After(m, list[..i-|ARRAY|]).depth >= 1;
    }
  }

  lemma BracketsBalanced(list: string)
    requires Balanced(list)
    ensures Balanced(ARRAY + list + "]")
  {
    var s, m := ARRAY + list + "]", Mode(1, false);
    ArrayOpens(START);
    NeutralKeeps(m, list);
    AfterConcat(START, ARRAY, list);
    AfterConcat(START, ARRAY + list, "]");
    assert After(m, "]") == Advance(After(m, ""), ']');
    hide After, Neutral;
    forall i | 0 <= i <= |s| ensures After(START, s[..i]).depth >= 0 {
      if i < |s| {
        BracketsDepth(list, i);
      } else {
        assert s[..i] == s;
      }
    }
  }

  /** A comparison with any value of a list. */
  function Choice(items: seq<string>): Term {
    Atom([Piece("x = ANY (", items)], ")", 0)
  }

  lemma ChoiceText(items: seq<string>)
    ensures Print(Choice(items)) == Body(Choice(items)) == Applied("x = ANY ", ARRAY + Join(items, ", ") + "]")
  {
    RenderOne(Piece("x = ANY (", items), ")");
    ChoiceRegrouped(Join(items, ", "));
  }

  lemma ChoiceRegrouped(list: string)
    ensures "x = ANY (" + ARRAY + list + "]" + ")" == Applied("x = ANY ", ARRAY + list + "]")
  {
  }

  lemma ChoicePiece(items: seq<string>)
    requires items != [] && forall k | 0 <= k < |items| :: ListItem(items[k])
    ensures ListPiece(Piece("x = ANY (", items)) && OnlyQuoted(")")
  {
    assert "x = ANY (" == "x = ANY " + "(";
    AfterPlain(START, "x = ANY ");
    AfterConcat(START, "x = ANY ", "(");
    assert After(START, "(") == Advance(After(START, ""), '(');
    forall i | 0 <= i < 9 && OccursAt("x = ANY (", ARRAY, i) ensures false {
      HasBracket("x = ANY (", i);
    }
  }

  lemma ChoiceWellFormed(items: seq<string>)
    requires items != [] && forall k | 0 <= k < |items| :: ListItem(items[k])
    ensures WellFormed(Choice(items))
  {
    hide ListItem, ListPiece, OnlyQuoted, LeafText, Balanced, Join, Applied, Render;
    ItemsBalanced(items);
    BracketsBalanced(Join(items, ", "));
    assert NoWord(" " + "x = ANY ");
    AppliedLeaf("x = ANY ", ARRAY + Join(items, ", ") + "]");
    ChoiceText(items);
    ChoicePiece(items);
  }

  lemma ChoicesDiffer(items: seq<string>, items': seq<string>)
    requires WellFormed(Choice(items)) && WellFormed(Choice(items')) && items != items'
    ensures Body(Choice(items)) != Body(Choice(items'))
  {
    if Body(Choice(items)) == Body(Choice(items')) {
      OneReading(Choice(items).lists, ")", Choice(items').lists, ")");
    }
  }

  lemma SwappedChoices(p: string, q: string)
    ensures SameUpToOrder(Choice([p, q]), Choice([q, p]))
  {
    assert multiset([p, q]) == multiset{p, q} == multiset([q, p]);
  }

  lemma NotLone(p: string, q: string)
    requires Holds(p)
    ensures Count(Body(Choice([p, q])), ARRAY, 0) != 1
  {
    var t := Choice([p, q]);
    assert t.lists[0].items[0] == p;
    hide Holds, Count, Render;
    CountsLone(t.lists, t.after);
  }

  /** When a value of a list holds an `ARRAY[`, the order of its values counts. */
  lemma ValuesInOrder(p: string, q: string, repr: Canon -> string)
    requires ListItem(p) && ListItem(q) && p != q && Holds(p) && Injective(repr)
    ensures var a, b := Choice([p, q]), Choice([q, p]);
            && WellFormed(a) && WellFormed(b) && SameUpToOrder(a, b)
            && Canonicalise(Print(a), repr) != Canonicalise(Print(b), repr)
  {
    hide Canonicalise, WellFormed, Print, Body, Count, ListItem, Holds, SameUpToOrder;
    ChoiceWellFormed([p, q]);
    ChoiceWellFormed([q, p]);
    SwappedChoices(p, q);
    ValuesPermuted(Choice([p, q]), Choice([q, p]), repr);
    NotLone(p, q);
    assert [p, q][0] != [q, p][0];
    ChoicesDiffer([p, q], [q, p]);
  }

  lemma TwoChoices(p: string, q: string)
    ensures Print(Choice([p, q])) == "x = ANY (ARRAY[" + p + ", " + q + "])"
  {
    ChoiceText([p, q]);
    assert Join([p, q], ", ") == p + ", " + q;
  }

  /** `x = ANY (ARRAY['ARRAY[', 'b'])` and `x = ANY (ARRAY['b', 'ARRAY['])` differ. */
  lemma ValuesKeepOrder(repr: Canon -> string)
    requires Injective(repr)
    ensures Canonicalise("x = ANY (ARRAY[" + "'ARRAY['" + ", " + "'b'" + "])", repr)
         != Canonicalise("x = ANY (ARRAY[" + "'b'" + ", " + "'ARRAY['" + "])", repr)
  {
    var p, q := "'" + ARRAY + "'", "'" + "b" + "'";
    assert p == "'ARRAY['" && q == "'b'";
    ConstantIsItem(ARRAY);
    ConstantIsItem("b");
    assert p[1..1+|ARRAY|] == ARRAY;
    assert OccursAt(p, ARRAY, 1);
    hide *;
    ValuesInOrder(p, q, repr);
    TwoChoices(p, q);
    TwoChoices(q, p);
  }

  // ---- What is ignored, on texts ----

  /** A term without list. */
  predicate PlainTerm(s: string) { LeafText(s) && OnlyQuoted(s) }

  lemma AtomPrinted(s: string)
    ensures Print(Atom([], s, 0)) == s
  {
    assert Body(Atom([], s, 0)) == Render([], s) == s;
    assert Enclose(s, 0) == s;
  }

  lemma PairPrinted(a: Term, b: Term)
    ensures PrintAll([a, b]) == [Print(a), Print(b)]
  {
    assert [a, b][1..] == [b] && [b][1..] == [];
    assert PrintAll([b]) == [Print(b)] + PrintAll([]);
  }

  lemma TwoPrinted(c: Connective, s: string, t: string)
    ensures Print(Group(c, [Atom([], s, 0), Atom([], t, 0)], 0)) == s + Operator(c) + t
  {
    AtomPrinted(s);
    AtomPrinted(t);
    PairPrinted(Atom([], s, 0), Atom([], t, 0));
    assert [s, t][1..] == [t];
    assert Join([s, t], Operator(c)) == s + Operator(c) + t;
    assert Enclose(s + Operator(c) + t, 0) == s + Operator(c) + t;
  }

  lemma TwoSwapped(c: Connective, a: Term, b: Term)
    ensures SameUpToOrder(Group(c, [a, b], 0), Group(c, [b, a], 0))
  {
    SameItself(a);
    SameItself(b);
    hide SameUpToOrder;
    assert [a, b][1..] == [b] && [b][1..] == [];
    assert Without([b, a], 1) == [b] && Without([b], 0) == [];
    assert Matched([b], [b]);
    assert Matched([a, b], [b, a]);
    GroupSame(c, [a, b], [b, a]);
  }

  lemma GroupSame(c: Connective, ps: seq<Term>, qs: seq<Term>)
    requires Matched(ps, qs)
    ensures SameUpToOrder(Group(c, ps, 0), Group(c, qs, 0))
  {
  }

  lemma PairWellFormed(c: Connective, s: string, t: string)
    requires PlainTerm(s) && PlainTerm(t)
    ensures WellFormed(Group(c, [Atom([], s, 0), Atom([], t, 0)], 0))
    ensures !OrderCounts(Group(c, [Atom([], s, 0), Atom([], t, 0)], 0))
  {
    hide LeafText, OnlyQuoted, Count;
    AtomPlain(s);
    AtomPlain(t);
  }

  lemma AtomPlain(s: string)
    requires PlainTerm(s)
    ensures WellFormed(Atom([], s, 0)) && !OrderCounts(Atom([], s, 0))
  {
    hide LeafText, OnlyQuoted, Count;
  }

  lemma PairCommutes(c: Connective, s: string, t: string, repr: Canon -> string)
    requires PlainTerm(s) && PlainTerm(t) && Injective(repr)
    ensures Canonicalise(s + Operator(c) + t, repr) == Canonicalise(t + Operator(c) + s, repr)
  {
    hide *;
    TwoPrinted(c, s, t);
    TwoPrinted(c, t, s);
    TwoSwapped(c, Atom([], s, 0), Atom([], t, 0));
    PairWellFormed(c, s, t);
    PairWellFormed(c, t, s);
    OrderIsIgnored(Group(c, [Atom([], s, 0), Atom([], t, 0)], 0), Group(c, [Atom([], t, 0), Atom([], s, 0)], 0), repr);
  }

  /** The terms of an OR, or of an AND, compare equal in either order. */
  lemma TermsCommute(s: string, t: string, repr: Canon -> string)
    requires PlainTerm(s) && PlainTerm(t) && Injective(repr)
    ensures Canonicalise(s + " OR " + t, repr) == Canonicalise(t + " OR " + s, repr)
    ensures Canonicalise(s + " AND " + t, repr) == Canonicalise(t + " AND " + s, repr)
  {
    assert Operator(Or) == " OR " && Operator(And) == " AND ";
    hide *;
    PairCommutes(Or, s, t, repr);
    PairCommutes(And, s, t, repr);
  }

  lemma LoneChoice(p: string, q: string)
    requires !Holds(p) && !Holds(q)
    ensures Count(Body(Choice([p, q])), ARRAY, 0) == 1
  {
    var t := Choice([p, q]);
    forall i ensures !OccursAt("x = ANY (", ARRAY, i) && !OccursAt(")", ARRAY, i) {
      if OccursAt("x = ANY (", ARRAY, i) { HasBracket("x = ANY (", i); }
      if OccursAt(")", ARRAY, i) { HasBracket(")", i); }
    }
    assert Lone(t.lists, t.after);
    hide Count, Render, Lone;
    CountsLone(t.lists, t.after);
  }

  /** The values of the only list of a term compare equal in either order, when they hold no `ARRAY[`. */
  lemma ValuesCommute(p: string, q: string, repr: Canon -> string)
    requires ListItem(p) && ListItem(q) && !Holds(p) && !Holds(q) && Injective(repr)
    ensures Canonicalise("x = ANY (ARRAY[" + p + ", " + q + "])", repr)
         == Canonicalise("x = ANY (ARRAY[" + q + ", " + p + "])", repr)
  {
    hide *;
    ChoiceWellFormed([p, q]);
    ChoiceWellFormed([q, p]);
    SwappedChoices(p, q);
    LoneChoice(p, q);
    ChoiceAtom([p, q]);
    ValuesPermuted(Choice([p, q]), Choice([q, p]), repr);
    TwoChoices(p, q);
    TwoChoices(q, p);
  }

  lemma ChoiceAtom(items: seq<string>)
    ensures Choice(items).Atom? && Choice(items).lists != []
  {
  }

  /** Parentheses around a whole expression are ignored. */
  lemma ParenthesesIgnored(t: Term, repr: Canon -> string)
    requires WellFormed(t)
    ensures Canonicalise("(" + Print(t) + ")", repr) == Canonicalise(Print(t), repr)
  {
    var u := t.(parens := t.parens + 1);
    assert Body(u) == Body(t) by { match t { case Atom(_, _, _) => case Group(_, _, _) => } }
    assert Print(u) == "(" + Print(t) + ")";
    CanonicalOfPrinted(t, repr);
    CanonicalOfPrinted(u, repr);
    ParensUnread(t, repr);
  }

  lemma TextParens(core: string, n: nat, m: nat, repr: Canon -> string)
    ensures Normal(ReadText(core, n), repr) == Normal(ReadText(core, m), repr)
  {
    TextRead(core, n, repr);
    TextRead(core, m, repr);
  }

  lemma ParensUnread(t: Term, repr: Canon -> string)
    ensures Normal(ReadAs(t.(parens := t.parens + 1)), repr) == Normal(ReadAs(t), repr)
  {
    match t {
      case Atom(lists, after, parens) =>
        hide Normal, ReadText;
        TextParens(Render(lists, after), parens, parens + 1, repr);
      case Group(_, _, _) =>
    }
  }
}
