/** The claim of scripts/check_permission_constraints.py: only order is ignored. Two printed expressions
    have the same canonical form exactly when, as the program reads them, one is the other with OR
    terms, AND terms and list values permuted, at any depth. */
module OrderOnly {
  import opened Wrappers
  import opened Ordering
  import opened Splitting
  import opened Canonical
  import opened Printing

  /** Equal up to the order of terms and list values, at any depth; parentheses around a whole term
      are not compared. */
  ghost predicate SameUpToOrder(a: Term, b: Term)
    decreases a, 1
  {
    match (a, b)
    case (Atom(lists, after, _), Atom(lists', after', _)) => SameLists(lists, lists') && after == after'
    case (Group(c, terms, _), Group(c', terms', _)) => c == c' && Matched(terms, terms')
    case _ => false
  }

  predicate SamePiece(p: Piece, q: Piece) { p.before == q.before && multiset(p.items) == multiset(q.items) }

  predicate SameLists(ps: seq<Piece>, qs: seq<Piece>) {
    |ps| == |qs| && forall k | 0 <= k < |ps| :: SamePiece(ps[k], qs[k])
  }

  /** The terms of the two sequences can be paired off, related terms together. */
  ghost predicate Matched(ps: seq<Term>, bs: seq<Term>)
    decreases ps, 0
  {
    if ps == [] then bs == []
    else exists j :: 0 <= j < |bs| && SameUpToOrder(ps[0], bs[j]) && Matched(ps[1..], Without(bs, j))
  }

  function Without<T>(xs: seq<T>, j: nat): seq<T>
    requires j < |xs|
  {
    xs[..j] + xs[j+1..]
  }

  // ---- The canonical form of a tree, without going through text ----

  /** A term with several lists is a text to the program. */
  function Normal(t: Term, repr: Canon -> string): Canon
    decreases t, 1
  {
    match t
    case Atom(lists, after, _) =>
      if |lists| == 1 then Listed(lists[0].before, Sort(lists[0].items, StrLe), "]" + after)
      else Plain(Render(lists, after))
    case Group(c, terms, _) => Node(c, Sort(NormalAll(terms, repr), KeyOrder(repr)))
  }

  function NormalAll(ts: seq<Term>, repr: Canon -> string): (r: seq<Canon>)
    ensures |r| == |ts|
    decreases ts, 0
  {
    if ts == [] then [] else [Normal(ts[0], repr)] + NormalAll(ts[1..], repr)
  }

  // ---- The tree the program reads ----

  /** The program takes a term for a list: one `ARRAY[`, wherever it stands, and a bracket that closes it. */
  predicate TakenForList(core: string) {
    var start := Find(core, ARRAY, 0);
    && start < |core| && Count(core, ARRAY, 0) == 1
    && ClosingBracket(core, start + |ARRAY|, start + |ARRAY|).Some?
  }

  function ListStart(core: string): (r: nat)
    requires TakenForList(core)
    ensures |ARRAY| <= r <= |core|
  {
    Find(core, ARRAY, 0) + |ARRAY|
  }

  function ListEnd(core: string): (r: nat)
    requires TakenForList(core)
    ensures ListStart(core) <= r < |core| && core[r] == ']'
  {
    ClosingBracket(core, ListStart(core), ListStart(core)).value
  }

  /** A term as the program reads its text. */
  function ReadText(core: string, parens: nat): Term {
    if TakenForList(core) then
      var start, end := ListStart(core), ListEnd(core);
      Atom([Piece(core[..start-|ARRAY|], StripAll(Split(core[start..end], ",")))], core[end+1..], parens)
    else Atom([], core, parens)
  }

  /** The tree as the program reads its printed text: quotes do not hide an `ARRAY[`, and a second one
      makes a text of the whole term. */
  function ReadAs(t: Term): Term
    decreases t, 1
  {
    match t
    case Atom(lists, after, parens) => ReadText(Render(lists, after), parens)
    case Group(c, terms, parens) => Group(c, ReadAll(terms), parens)
  }

  function ReadAll(ts: seq<Term>): (r: seq<Term>)
    ensures |r| == |ts|
    decreases ts, 0
  {
    if ts == [] then [] else [ReadAs(ts[0])] + ReadAll(ts[1..])
  }

  /** No term with several lists, as in every tree the program reads. */
  predicate AsRead(t: Term) {
    match t
    case Atom(lists, _, _) => |lists| <= 1
    case Group(_, terms, _) => forall k | 0 <= k < |terms| :: AsRead(terms[k])
  }

  lemma {:induction false} ReadIsAsRead(t: Term)
    ensures AsRead(ReadAs(t))
    decreases t, 1
  {
    if t.Atom? {
    } else {
      AllReadAsRead(t.terms);
    }
  }

  lemma {:induction false} AllReadAsRead(ts: seq<Term>)
    ensures forall k | 0 <= k < |ts| :: AsRead(ReadAll(ts)[k])
    decreases ts, 0
  {
    if ts == [] {
    } else {
      ReadIsAsRead(ts[0]);
      AllReadAsRead(ts[1..]);
    }
  }

  // ---- Reading a printed tree gives its canonical form ----

  lemma CanonicaliseLeaf(s: string, e: string, repr: Canon -> string)
    requires Unwrap(s) == e && Split(e, OR) == [e] && Split(e, AND) == [e]
    ensures Canonicalise(s, repr) == Leaf(e)
  {
  }

  lemma CanonicaliseGroup(s: string, e: string, c: Connective, parts: seq<string>, repr: Canon -> string)
    requires Unwrap(s) == e && Split(e, Operator(c)) == parts && |parts| > 1
    requires c == And ==> Split(e, OR) == [e]
    ensures forall k :: 0 <= k < |parts| ==> |parts[k]| < |s|
    ensures Canonicalise(s, repr) == Node(c, Sort(CanonicaliseAll(parts, repr, |s|), KeyOrder(repr)))
  {
    ShorterPieces(e, Operator(c));
  }

  lemma {:induction false} CanonicalOfPrinted(t: Term, repr: Canon -> string)
    requires WellFormed(t)
    ensures Canonicalise(Print(t), repr) == Normal(ReadAs(t), repr)
    decreases t, 1
  {
    assert Unwrap(Print(t)) == Body(t) by {
      BodySolid(t);
      UnwrapEnclose(Body(t), t.parens);
    }
    match t {
      case Atom(lists, after, _) =>
        LeafUnsplit(Body(t));
        CanonicaliseLeaf(Print(t), Body(t), repr);
        TextRead(Body(t), t.parens, repr);
      case Group(c, terms, _) =>
        GroupSplit(c, terms, Body(t));
        CanonicaliseGroup(Print(t), Body(t), c, PrintAll(terms), repr);
        CanonicalOfAll(terms, repr, |Print(t)|);
    }
  }

  lemma NormalOfRead(core: string, start: nat, end: nat, parens: nat, repr: Canon -> string)
    requires TakenForList(core) && start == Find(core, ARRAY, 0) && end == ListEnd(core)
    ensures Normal(ReadText(core, parens), repr)
         == Listed(core[..start], Sort(StripAll(Split(core[start+|ARRAY|..end], ",")), StrLe), core[end..])
  {
    hide TakenForList, ListEnd, Sort, Split, Find, StripAll, StrLe;
    assert core[end..] == "]" + core[end+1..];
  }

  lemma TextRead(core: string, parens: nat, repr: Canon -> string)
    ensures Leaf(core) == Normal(ReadText(core, parens), repr)
  {
    hide Sort, Split, Count, StripAll, StrLe, Normal, ReadText;
    if TakenForList(core) {
      hide Leaf, Find, ClosingBracket;
      LeafAt(core, Find(core, ARRAY, 0), ListEnd(core));
      NormalOfRead(core, Find(core, ARRAY, 0), ListEnd(core), parens, repr);
    } else {
      TextAsItStands(core, parens, repr);
    }
  }

  lemma TextAsItStands(core: string, parens: nat, repr: Canon -> string)
    requires !TakenForList(core)
    ensures Leaf(core) == Plain(core) && Normal(ReadText(core, parens), repr) == Plain(core)
  {
  }

  lemma LeafUnsplit(e: string)
    requires LeafText(e)
    ensures Split(e, OR) == [e] && Split(e, AND) == [e]
  {
    ClearHasNoCut(e, OR);
    ClearHasNoCut(e, AND);
    SplitWithoutCut(e, OR);
    SplitWithoutCut(e, AND);
  }

  lemma LeafAt(e: string, start: nat, end: nat)
    requires start < |e| && Find(e, ARRAY, 0) == start && Count(e, ARRAY, 0) == 1
    requires start + |ARRAY| <= end && ClosingBracket(e, start + |ARRAY|, start + |ARRAY|) == Some(end)
    ensures Leaf(e)
         == Listed(e[..start], Sort(StripAll(Split(e[start+|ARRAY|..end], ",")), StrLe), e[end..])
  {
  }

  lemma GroupSplit(c: Connective, terms: seq<Term>, e: string)
    requires |terms| >= 2 && e == Join(PrintAll(terms), Operator(c))
    requires forall k :: 0 <= k < |terms| ==> WellFormed(terms[k]) && Child(terms[k])
    ensures Split(e, Operator(c)) == PrintAll(terms)
    ensures c == And ==> Split(e, OR) == [e]
  {
    var parts := PrintAll(terms);
    OperatorIsWord(Or);
    OperatorIsWord(And);
    ChildrenPrinted(terms);
    forall k | 0 <= k < |parts| ensures Closed(parts[k]) && Clear(parts[k], OR) && Clear(parts[k], AND) {
      assert parts[k] in parts;
    }
    SplitJoin(parts, Operator(c));
    if c == And {
      JoinClear(parts, AND, OR);
      ClearHasNoCut(e, OR);
      SplitWithoutCut(e, OR);
    }
  }

  lemma {:induction false} CanonicalOfAll(ts: seq<Term>, repr: Canon -> string, bound: nat)
    requires forall k :: 0 <= k < |ts| ==> WellFormed(ts[k])
    requires forall k :: 0 <= k < |PrintAll(ts)| ==> |PrintAll(ts)[k]| < bound
    ensures CanonicaliseAll(PrintAll(ts), repr, bound) == NormalAll(ReadAll(ts), repr)
    decreases ts, 0
  {
    if ts == [] {
    } else {
      CanonicalOfPrinted(ts[0], repr);
      assert PrintAll(ts)[1..] == PrintAll(ts[1..]);
      CanonicalOfAll(ts[1..], repr, bound);
    }
  }

  // ---- Canonical forms agree exactly on trees read as equal up to order ----

  lemma WithoutMultiset<T>(xs: seq<T>, j: nat)
    requires j < |xs|
    ensures multiset(xs) == multiset{xs[j]} + multiset(Without(xs, j))
  {
    assert xs == xs[..j] + [xs[j]] + xs[j+1..];
  }

  lemma WithoutCons<T>(x: T, xs: seq<T>, k: nat)
    requires k < |xs|
    ensures Without([x] + xs, k + 1) == [x] + Without(xs, k)
  {
  }

  lemma {:induction false} NormalAllAt(ts: seq<Term>, repr: Canon -> string, k: nat)
    requires k < |ts|
    ensures NormalAll(ts, repr)[k] == Normal(ts[k], repr)
    ensures NormalAll(Without(ts, k), repr) == Without(NormalAll(ts, repr), k)
  {
    if k > 0 {
      NormalAllAt(ts[1..], repr, k - 1);
      WithoutCons(ts[0], ts[1..], k - 1);
      assert ts == [ts[0]] + ts[1..];
    } else {
      assert Without(ts, 0) == ts[1..];
    }
  }

  lemma {:induction false} NormalForgetsOrder(a: Term, b: Term, repr: Canon -> string)
    requires Injective(repr) && AsRead(a) && AsRead(b)
    ensures Normal(a, repr) == Normal(b, repr) <==> SameUpToOrder(a, b)
    decreases a, 1
  {
    match (a, b) {
      case (Atom(lists, after, _), Atom(lists', after', _)) =>
        if |lists| == 1 && |lists'| == 1 {
          StrLeOrders();
          SortForgetsOrder(lists[0].items, lists'[0].items, StrLe);
          assert ("]" + after)[1..] == after && ("]" + after')[1..] == after';
        }
      case (Group(_, terms, _), Group(_, terms', _)) =>
        KeyOrderTotal(repr);
        SortForgetsOrder(NormalAll(terms, repr), NormalAll(terms', repr), KeyOrder(repr));
        MatchedForgetsOrder(terms, terms', repr);
      case _ =>
    }
  }

  predicate AllAsRead(ts: seq<Term>) { forall k | 0 <= k < |ts| :: AsRead(ts[k]) }

  lemma StrLeOrders()
    ensures TotalOrder(StrLe)
  {
    forall a, b ensures (StrLe(a, b) || StrLe(b, a)) && (StrLe(a, b) && StrLe(b, a) ==> a == b) {
      StrLeTotal(a, b);
    }
    forall a, b, c | StrLe(a, b) && StrLe(b, c) ensures StrLe(a, c) {
      StrLeTransitive(a, b, c);
    }
  }

  /** Taking one equal element out of each side keeps multisets equal, or unequal. */
  lemma TakeOne<T>(x: T, rest: seq<T>, ys: seq<T>, j: nat)
    requires j < |ys| && ys[j] == x
    ensures multiset([x] + rest) == multiset(ys) <==> multiset(rest) == multiset(Without(ys, j))
  {
    WithoutMultiset(ys, j);
    assert multiset(rest) == multiset([x] + rest) - multiset{x};
    assert multiset(Without(ys, j)) == multiset(ys) - multiset{x};
  }

  lemma {:induction false} MatchedForgetsOrder(ps: seq<Term>, bs: seq<Term>, repr: Canon -> string)
    requires Injective(repr) && AllAsRead(ps) && AllAsRead(bs)
    ensures multiset(NormalAll(ps, repr)) == multiset(NormalAll(bs, repr)) <==> Matched(ps, bs)
    decreases ps, 0, 1
  {
    var ms, ns := NormalAll(ps, repr), NormalAll(bs, repr);
    if ps == [] {
      assert |multiset(ns)| == |bs|;
    } else {
      forall j | 0 <= j < |bs|
        ensures SameUpToOrder(ps[0], bs[j]) <==> ms[0] == ns[j]
        ensures ms[0] == ns[j]
            ==> (Matched(ps[1..], Without(bs, j)) <==> multiset(ms) == multiset(ns))
      {
        PairFirst(ps, bs, j, repr);
      }
      if multiset(ms) == multiset(ns) {
        assert ms[0] in multiset(ns);
        var j :| 0 <= j < |ns| && ns[j] == ms[0];
        assert SameUpToOrder(ps[0], bs[j]) && Matched(ps[1..], Without(bs, j));
      }
    }
  }

  lemma RestAsRead(ps: seq<Term>, bs: seq<Term>, j: nat)
    requires AllAsRead(ps) && AllAsRead(bs) && ps != [] && j < |bs|
    ensures AsRead(ps[0]) && AsRead(bs[j]) && AllAsRead(ps[1..]) && AllAsRead(Without(bs, j))
  {
  }

  lemma {:induction false} PairFirst(ps: seq<Term>, bs: seq<Term>, j: nat, repr: Canon -> string)
    requires Injective(repr) && AllAsRead(ps) && AllAsRead(bs) && ps != [] && j < |bs|
    ensures SameUpToOrder(ps[0], bs[j]) <==> Normal(ps[0], repr) == Normal(bs[j], repr)
    ensures NormalAll(bs, repr)[j] == Normal(bs[j], repr)
    ensures Normal(ps[0], repr) == Normal(bs[j], repr) ==>
              (Matched(ps[1..], Without(bs, j)) <==>
               multiset(NormalAll(ps, repr)) == multiset(NormalAll(bs, repr)))
    decreases ps, 0, 0
  {
    hide Normal, AsRead, SameUpToOrder, AllAsRead, Without, Matched;
    var ns := NormalAll(bs, repr);
    RestAsRead(ps, bs, j);
    NormalAllAt(bs, repr, j);
    NormalForgetsOrder(ps[0], bs[j], repr);
    if Normal(ps[0], repr) == Normal(bs[j], repr) {
      TakeOne(Normal(ps[0], repr), NormalAll(ps[1..], repr), ns, j);
      MatchedForgetsOrder(ps[1..], Without(bs, j), repr);
    }
  }

  /** Two printed trees compare equal exactly when they are equal up to order as they are read. */
  lemma EqualAsRead(a: Term, b: Term, repr: Canon -> string)
    requires WellFormed(a) && WellFormed(b) && Injective(repr)
    ensures Canonicalise(Print(a), repr) == Canonicalise(Print(b), repr)
       <==> SameUpToOrder(ReadAs(a), ReadAs(b))
  {
    CanonicalOfPrinted(a, repr);
    CanonicalOfPrinted(b, repr);
    ReadIsAsRead(a);
    ReadIsAsRead(b);
    NormalForgetsOrder(ReadAs(a), ReadAs(b), repr);
  }
}
