/** Where the claim of scripts/check_permission_constraints.py says too little: the program looks for `ARRAY[`
    without looking at quotes, so a constant that holds one is compared as a list. Two expressions that
    compare equal differ only in order, exactly when this does not happen. */
module QuotedLists {
  import opened Wrappers
  import opened Ordering
  import opened Splitting
  import opened Canonical
  import opened Printing
  import opened OrderOnly
  import opened LeafTexts

  /** A constant somewhere in the tree is taken for a list. */
  predicate Misreads(t: Term) {
    match t
    case Atom(lists, after, _) => lists == [] && TakenForList(after)
    case Group(_, terms, _) => exists k :: 0 <= k < |terms| && Misreads(terms[k])
  }

  // ---- Without a misread constant, nothing but order is ignored ----

  lemma {:induction false} ReadAllAt(ts: seq<Term>, k: nat)
    requires k < |ts|
    ensures ReadAll(ts)[k] == ReadAs(ts[k])
    ensures ReadAll(Without(ts, k)) == Without(ReadAll(ts), k)
  {
    hide ReadAs;
    if k == 0 {
      assert Without(ts, 0) == ts[1..];
    } else {
      ReadAllAt(ts[1..], k - 1);
      WithoutCons(ts[0], ts[1..], k - 1);
      WithoutCons(ReadAs(ts[0]), ReadAll(ts[1..]), k - 1);
      assert ts == [ts[0]] + ts[1..];
    }
  }

  /** A term as it is read: itself when its only `ARRAY[` is its list's, else a text. */
  lemma AtomReadRight(t: Term)
    requires WellFormed(t) && t.Atom? && !Misreads(t)
    ensures ReadAs(t) == t || ReadAs(t) == Atom([], Body(t), t.parens)
    ensures |ReadAs(t).lists| == 1 ==> ReadAs(t) == t
  {
    if t.lists != [] {
      AtomRead(t.lists, t.after, t.parens);
    }
    hide TakenForList;
  }

  lemma AtomsReadTheSame(a: Term, b: Term)
    requires WellFormed(a) && a.Atom? && !Misreads(a)
    requires WellFormed(b) && b.Atom? && !Misreads(b)
    requires SameUpToOrder(ReadAs(a), ReadAs(b))
    ensures SameUpToOrder(a, b)
  {
    AtomReadRight(a);
    AtomReadRight(b);
    hide ReadAs, AtomText, LeafText, Misreads, Render;
    if |ReadAs(a).lists| != 1 {
      assert Body(a) == Body(b);
      SameText(a, b);
    }
  }

  lemma SameText(a: Term, b: Term)
    requires WellFormed(a) && a.Atom? && WellFormed(b) && b.Atom? && Body(a) == Body(b)
    ensures SameUpToOrder(a, b)
  {
    OneReading(a.lists, a.after, b.lists, b.after);
  }

  predicate ReadWell(ts: seq<Term>) { forall k | 0 <= k < |ts| :: WellFormed(ts[k]) && !Misreads(ts[k]) }

  lemma {:induction false} ReadTheSame(a: Term, b: Term)
    requires WellFormed(a) && !Misreads(a) && WellFormed(b) && !Misreads(b)
    requires SameUpToOrder(ReadAs(a), ReadAs(b))
    ensures SameUpToOrder(a, b)
    decreases a, 1
  {
    match (a, b) {
      case (Atom(_, _, _), Atom(_, _, _)) => AtomsReadTheSame(a, b);
      case (Group(_, terms, _), Group(_, terms', _)) => ReadMatched(terms, terms');
      case _ =>
    }
  }

  lemma RestReadWell(ps: seq<Term>, bs: seq<Term>, j: nat)
    requires ReadWell(ps) && ReadWell(bs) && ps != [] && j < |bs|
    ensures WellFormed(ps[0]) && !Misreads(ps[0]) && WellFormed(bs[j]) && !Misreads(bs[j])
    ensures ReadWell(ps[1..]) && ReadWell(Without(bs, j))
  {
    hide WellFormed, Misreads;
  }

  lemma {:induction false} ReadMatched(ps: seq<Term>, bs: seq<Term>)
    requires ReadWell(ps) && ReadWell(bs) && Matched(ReadAll(ps), ReadAll(bs))
    ensures Matched(ps, bs)
    decreases ps, 0
  {
    hide WellFormed, Misreads, ReadAs, SameUpToOrder, ReadWell, Without;
    if ps == [] {
    } else {
      var j :| 0 <= j < |bs| && SameUpToOrder(ReadAll(ps)[0], ReadAll(bs)[j])
               && Matched(ReadAll(ps)[1..], Without(ReadAll(bs), j));
      RestReadWell(ps, bs, j);
      ReadAllAt(bs, j);
      ReadTheSame(ps[0], bs[j]);
      ReadMatched(ps[1..], Without(bs, j));
    }
  }

  /** The canonical form holds a list that opens inside quotes. */
  predicate OpensQuoted(c: Canon) {
    match c
    case Plain(_) => false
    case Listed(before, _, _) => After(START, before).quoted
    case Node(_, terms) => exists k :: 0 <= k < |terms| && OpensQuoted(terms[k])
  }

  lemma SortKeepsMembers(cs: seq<Canon>, repr: Canon -> string)
    requires Injective(repr)
    ensures forall c :: c in Sort(cs, KeyOrder(repr)) <==> c in cs
  {
    KeyOrderTotal(repr);
    SortSorts(cs, KeyOrder(repr));
    forall c ensures c in Sort(cs, KeyOrder(repr)) <==> c in cs {
      assert c in cs <==> c in multiset(cs);
    }
  }

  lemma SortedOpens(c: Connective, cs: seq<Canon>, repr: Canon -> string)
    requires Injective(repr)
    ensures OpensQuoted(Node(c, Sort(cs, KeyOrder(repr))))
       <==> exists k :: 0 <= k < |cs| && OpensQuoted(cs[k])
  {
    var sorted := Sort(cs, KeyOrder(repr));
    SortKeepsMembers(cs, repr);
    hide Sort;
    forall k | 0 <= k < |cs| ensures cs[k] in sorted {}
    forall k | 0 <= k < |sorted| ensures sorted[k] in cs {}
  }

  lemma AtomMisreadShows(t: Term, repr: Canon -> string)
    requires WellFormed(t) && t.Atom?
    ensures OpensQuoted(Normal(ReadAs(t), repr)) <==> Misreads(t)
  {
    if t.lists == [] {
      hide Count, ClosingBracket, Split, StripAll, Sort;
    } else {
      AtomRead(t.lists, t.after, t.parens);
      hide Count, ClosingBracket, Split, StripAll, Sort, Lone, Join, ListItem;
    }
  }

  /** A misread constant shows in the canonical form. */
  lemma {:induction false} MisreadShows(t: Term, repr: Canon -> string)
    requires WellFormed(t) && Injective(repr)
    ensures OpensQuoted(Normal(ReadAs(t), repr)) <==> Misreads(t)
    decreases t, 1
  {
    hide Sort, StrLe, LeafText, Body, AtomText;
    if t.Atom? {
      AtomMisreadShows(t, repr);
    } else {
      AllMisreadShow(t.terms, repr);
      SortedOpens(t.connective, NormalAll(ReadAll(t.terms), repr), repr);
    }
  }

  lemma {:induction false} AllMisreadShow(ts: seq<Term>, repr: Canon -> string)
    requires Injective(repr) && forall k :: 0 <= k < |ts| ==> WellFormed(ts[k])
    ensures var all := NormalAll(ReadAll(ts), repr);
            forall k :: 0 <= k < |ts| ==> (OpensQuoted(all[k]) <==> Misreads(ts[k]))
    decreases ts, 0
  {
    if ts == [] {
    } else {
      MisreadShows(ts[0], repr);
      AllMisreadShow(ts[1..], repr);
    }
  }

  /** Trees that compare equal differ only in order, when no constant of one of them is taken for a list. */
  lemma OnlyOrderIsIgnored(a: Term, b: Term, repr: Canon -> string)
    requires WellFormed(a) && WellFormed(b) && Injective(repr)
    requires !Misreads(a) && Canonicalise(Print(a), repr) == Canonicalise(Print(b), repr)
    ensures SameUpToOrder(a, b)
  {
    CanonicalOfPrinted(a, repr);
    CanonicalOfPrinted(b, repr);
    MisreadShows(a, repr);
    MisreadShows(b, repr);
    EqualAsRead(a, b, repr);
    ReadTheSame(a, b);
  }

  // ---- The constant with a blank added after its `ARRAY[` ----

  function Blank(s: string, p: nat): string
    requires p <= |s|
  {
    s[..p] + " " + s[p..]
  }

  lemma {:induction false} QuotedStays(m: Mode, s: string)
    requires m.quoted && '\'' !in s
    ensures After(m, s) == m
  {
    if s == "" {
    } else {
      QuotedStays(m, s[..|s|-1]);
    }
  }

  lemma BlankIsNeutral()
    ensures Neutral(true, "") && Neutral(true, " ")
  {
    QuotedStays(Mode(0, true), "");
    QuotedStays(Mode(0, true), " ");
    forall i | 0 <= i <= 1 ensures After(Mode(0, true), " "[..i]) == Mode(0, true) {
      QuotedStays(Mode(0, true), " "[..i]);
    }
  }

  lemma BlankInside(p: string)
    requires After(START, p).quoted
    ensures Inside(p, " ")
  {
    forall i | 0 <= i <= 1 ensures After(START, p + " "[..i]) != START {
      AfterConcat(START, p, " "[..i]);
      QuotedStays(After(START, p), " "[..i]);
    }
  }

  lemma BlankLeaf(s: string, p: nat)
    requires LeafText(s) && 0 < p < |s| && After(START, s[..p]).quoted
    ensures LeafText(Blank(s, p))
  {
    BlankIsNeutral();
    BlankInside(s[..p]);
    assert s == s[..p] + "" + s[p..];
    hide LeafText, Neutral, Inside;
    ReplacedLeaf(s[..p], "", " ", s[p..]);
  }

  // ---- ... and a blank at the head of a list changes no item ----

  lemma BlankCut(s: string, i: nat)
    requires i <= |s|
    ensures Cut(" " + s, ",", i + 1) <==> Cut(s, ",", i)
  {
    assert (" " + s)[..i+1] == " " + s[..i];
    AfterConcat(START, " ", s[..i]);
    AfterPlain(START, " ");
    if i < |s| {
      assert (" " + s)[i+1..i+2] == s[i..i+1];
    }
  }

  lemma HeadStripped(s: string, rest: seq<string>)
    ensures StripAll([" " + s] + rest) == StripAll([s] + rest)
  {
    StripAllCons(s, rest);
    StripAllCons(" " + s, rest);
    assert (" " + s)[1..] == s;
  }

  lemma BlankFirstCut(s: string)
    ensures CutFrom(" " + s, ",", 0) == CutFrom(s, ",", 0) + 1
  {
    var u, i := " " + s, CutFrom(s, ",", 0);
    forall j | 0 <= j < i + 1 ensures !Cut(u, ",", j) {
      if j > 0 {
        BlankCut(s, j - 1);
      }
    }
    BlankCut(s, i);
    hide Cut;
  }

  function AfterComma(s: string, i: nat): seq<string>
    requires i <= |s|
  {
    if i == |s| then [] else Split(s[i+1..], ",")
  }

  lemma SplitUnfolds(s: string, i: nat)
    requires i == CutFrom(s, ",", 0)
    ensures Split(s, ",") == [s[..i]] + AfterComma(s, i)
  {
    hide Split, Cut;
    if i == |s| {
      SplitWithoutCut(s, ",");
      assert s[..i] == s;
    } else {
      SplitAtFirstCut(s, ",", i);
    }
  }

  lemma BlankHead(s: string)
    ensures StripAll(Split(" " + s, ",")) == StripAll(Split(s, ","))
  {
    hide Split, CutFrom, StripAll, Cut;
    var u, i := " " + s, CutFrom(s, ",", 0);
    BlankFirstCut(s);
    SplitUnfolds(s, i);
    SplitUnfolds(u, i + 1);
    assert u[..i+1] == " " + s[..i];
    assert i < |s| ==> u[i+2..] == s[i+1..];
    HeadStripped(s[..i], AfterComma(s, i));
  }

  // ---- ... and the list that is read begins and ends as before ----

  /** No `ARRAY[` runs across the blank; those on either side are as before. */
  lemma BlankOccursAt(s: string, p: nat, i: int)
    requires p <= |s|
    ensures OccursAt(Blank(s, p), ARRAY, i)
       <==> OccursAt(s[..p], ARRAY, i) || OccursAt(s[p..], ARRAY, i - p - 1)
  {
    var rest := " " + s[p..];
    assert Blank(s, p) == s[..p] + rest && rest[1..] == s[p..];
    OccursBefore(s[..p], rest, i);
  }

  lemma BlankOccurs(core: string, i: int)
    requires TakenForList(core)
    ensures OccursAt(Blank(core, ListStart(core)), ARRAY, i) <==> i == Find(core, ARRAY, 0)
  {
    var start, p := Find(core, ARRAY, 0), ListStart(core);
    BlankOccursAt(core, p, i);
    assert core == core[..p] + core[p..];
    hide TakenForList, Count, Find, Blank;
    OccursEitherSide(core, p, i);
    OccursEitherSide(core, p, i - 1);
    OccursEitherSide(core, p, start);
    AllAtStart(core, i);
    AllAtStart(core, i - 1);
  }

  lemma OccursEitherSide(s: string, p: nat, i: int)
    requires p <= |s|
    ensures OccursAt(s[..p], ARRAY, i) <==> OccursAt(s, ARRAY, i) && i + |ARRAY| <= p
    ensures OccursAt(s[p..], ARRAY, i - p) <==> OccursAt(s, ARRAY, i) && i >= p
  {
    if 0 <= i && i + |ARRAY| <= p {
      assert s[..p][i..i+|ARRAY|] == s[i..i+|ARRAY|];
    } else if p <= i && i + |ARRAY| <= |s| {
      assert s[p..][i-p..i-p+|ARRAY|] == s[i..i+|ARRAY|];
    }
  }

  lemma AllAtStart(core: string, i: int)
    requires TakenForList(core)
    ensures OccursAt(core, ARRAY, i) <==> i == ListStart(core) - |ARRAY|
    ensures ListStart(core) - |ARRAY| == Find(core, ARRAY, 0)
  {
    if OccursAt(core, ARRAY, i) {
      OnlyOne(core, i);
    }
  }

  lemma BlankCloses(core: string, p: nat, q: nat)
    requires p <= q <= |core|
    ensures ClosesAt(Blank(core, p), p, q + 1) <==> ClosesAt(core, p, q)
  {
    var u := Blank(core, p);
    assert u[p..q+1] == " " + core[p..q];
    AfterConcat(START, " ", core[p..q]);
    AfterPlain(START, " ");
  }

  lemma BlankBracket(s: string, p: nat, end: nat)
    requires p <= |s| && ClosingBracket(s, p, p) == Some(end)
    ensures ClosingBracket(Blank(s, p), p, p) == Some(end + 1)
  {
    var u := Blank(s, p);
    hide ClosingBracket;
    BlankCloses(s, p, end);
    forall q | p <= q < end + 1 ensures !ClosesAt(u, p, q) {
      if q > p {
        BlankCloses(s, p, q - 1);
      } else {
        assert u[p] == ' ';
      }
    }
    hide ClosesAt;
    assert ClosingBracket(u, p, p).Some?;
  }

  lemma BlankList(core: string)
    requires TakenForList(core)
    ensures var u := Blank(core, ListStart(core));
            TakenForList(u) && ListStart(u) == ListStart(core) && ListEnd(u) == ListEnd(core) + 1
  {
    var p, u := ListStart(core), Blank(core, ListStart(core));
    forall i | 0 <= i < |u| ensures OccursAt(u, ARRAY, i) <==> i == p - |ARRAY| {
      BlankOccurs(core, i);
    }
    hide OccursAt, Count, ClosingBracket, Find;
    OneOccurrence(u, p - |ARRAY|);
    BlankBracket(core, p, ListEnd(core));
  }

  lemma BlankPieces(s: string, p: nat, end: nat)
    requires |ARRAY| <= p <= end < |s|
    ensures Blank(s, p)[..p-|ARRAY|] == s[..p-|ARRAY|]
    ensures Blank(s, p)[p..end+1] == " " + s[p..end] && Blank(s, p)[end+2..] == s[end+1..]
  {
  }

  lemma BlankReadsTheSame(core: string, parens: nat)
    requires TakenForList(core)
    ensures TakenForList(Blank(core, ListStart(core)))
    ensures ReadText(Blank(core, ListStart(core)), parens) == ReadText(core, parens)
  {
    hide Find, Count, Split, StripAll, ClosingBracket;
    BlankList(core);
    BlankPieces(core, ListStart(core), ListEnd(core));
    hide Blank, TakenForList, ListStart, ListEnd;
    BlankHead(core[ListStart(core)..ListEnd(core)]);
  }

  lemma StartIsQuoted(core: string)
    requires OnlyQuoted(core) && TakenForList(core)
    ensures After(START, core[..Find(core, ARRAY, 0)]).quoted && After(START, core[..ListStart(core)]).quoted
  {
    var start, p := Find(core, ARRAY, 0), ListStart(core);
    assert core[..p] == core[..start] + ARRAY;
    AfterConcat(START, core[..start], ARRAY);
    QuotedStays(After(START, core[..start]), ARRAY);
  }

  lemma BlankOnlyQuoted(core: string)
    requires OnlyQuoted(core) && TakenForList(core)
    ensures OnlyQuoted(Blank(core, ListStart(core)))
  {
    var start, u := Find(core, ARRAY, 0), Blank(core, ListStart(core));
    StartIsQuoted(core);
    assert u[..start] == core[..start];
    forall i | 0 <= i < |u| && OccursAt(u, ARRAY, i) ensures After(START, u[..i]).quoted {
      BlankOccurs(core, i);
    }
  }

  lemma BlankWellFormed(core: string, parens: nat)
    requires WellFormed(Atom([], core, parens)) && TakenForList(core)
    ensures WellFormed(Atom([], Blank(core, ListStart(core)), parens))
  {
    hide LeafText, OnlyQuoted, TakenForList, After, Blank;
    assert ListEnd(core) < |core|;
    StartIsQuoted(core);
    BlankOnlyQuoted(core);
    BlankLeaf(core, ListStart(core));
  }

  // ---- A misread tree compares equal to another ----

  /** The characters of the texts around the lists; the values are not counted. */
  function Size(t: Term): nat
    decreases t, 1
  {
    match t
    case Atom(lists, after, _) => TextSize(lists) + |after|
    case Group(_, terms, _) => SizeAll(terms)
  }

  function TextSize(lists: seq<Piece>): nat {
    if lists == [] then 0 else |lists[0].before| + TextSize(lists[1..])
  }

  function SizeAll(ts: seq<Term>): nat
    decreases ts, 0
  {
    if ts == [] then 0 else Size(ts[0]) + SizeAll(ts[1..])
  }

  lemma {:induction false} SizeWithout(ts: seq<Term>, j: nat)
    requires j < |ts|
    ensures SizeAll(ts) == Size(ts[j]) + SizeAll(Without(ts, j))
  {
    hide Size;
    if j == 0 {
      assert Without(ts, 0) == ts[1..];
    } else {
      SizeWithout(ts[1..], j - 1);
      WithoutCons(ts[0], ts[1..], j - 1);
      assert ts == [ts[0]] + ts[1..];
    }
  }

  lemma {:induction false} SameTextSize(ps: seq<Piece>, qs: seq<Piece>)
    requires SameLists(ps, qs)
    ensures TextSize(ps) == TextSize(qs)
  {
    if ps == [] {
    } else {
      assert SamePiece(ps[0], qs[0]);
      SameTextSize(ps[1..], qs[1..]);
    }
  }

  lemma {:induction false} SameSize(a: Term, b: Term)
    requires SameUpToOrder(a, b)
    ensures Size(a) == Size(b)
    decreases a, 1
  {
    if a.Atom? {
      SameTextSize(a.lists, b.lists);
    } else {
      MatchedSize(a.terms, b.terms);
    }
  }

  lemma {:induction false} MatchedSize(ps: seq<Term>, bs: seq<Term>)
    requires Matched(ps, bs)
    ensures SizeAll(ps) == SizeAll(bs)
    decreases ps, 0
  {
    hide Size;
    if ps == [] {
    } else {
      var j :| 0 <= j < |bs| && SameUpToOrder(ps[0], bs[j]) && Matched(ps[1..], Without(bs, j));
      SameSize(ps[0], bs[j]);
      MatchedSize(ps[1..], Without(bs, j));
      SizeWithout(bs, j);
    }
  }

  lemma UpdateWithout<T>(ts: seq<T>, k: nat, u: T)
    requires k < |ts|
    ensures Without(ts[k := u], k) == Without(ts, k)
  {
  }

  lemma {:induction false} ReadAllUpdate(ts: seq<Term>, k: nat, u: Term)
    requires k < |ts|
    ensures ReadAll(ts[k := u]) == ReadAll(ts)[k := ReadAs(u)]
  {
    hide ReadAs;
    if k == 0 {
      assert ts[0 := u][1..] == ts[1..];
    } else {
      ReadAllUpdate(ts[1..], k - 1, u);
      assert ts[k := u][1..] == ts[1..][k - 1 := u];
    }
  }

  /** Another tree, one blank longer, that is read the same. */
  predicate Twin(t: Term, u: Term) {
    WellFormed(u) && (Child(t) ==> Child(u)) && ReadAs(u) == ReadAs(t) && Size(u) == Size(t) + 1
  }

  lemma {:induction false} MisreadTwin(t: Term)
    requires WellFormed(t) && Misreads(t)
    ensures exists u :: Twin(t, u)
  {
    match t {
      case Atom(_, core, parens) =>
        AtomTwin(core, parens);
      case Group(c, terms, parens) =>
        var k :| 0 <= k < |terms| && Misreads(terms[k]);
        MisreadTwin(terms[k]);
        var v :| Twin(terms[k], v);
        TwinAbove(t, k, v);
    }
  }

  lemma AtomTwin(core: string, parens: nat)
    requires WellFormed(Atom([], core, parens)) && TakenForList(core)
    ensures Twin(Atom([], core, parens), Atom([], Blank(core, ListStart(core)), parens))
  {
    BlankReadsTheSame(core, parens);
    BlankWellFormed(core, parens);
    hide WellFormed, TakenForList, ReadText, ListStart;
  }

  lemma SizeUpdate(ts: seq<Term>, k: nat, v: Term)
    requires k < |ts|
    ensures SizeAll(ts[k := v]) + Size(ts[k]) == SizeAll(ts) + Size(v)
  {
    hide Size, SizeAll, Without;
    SizeWithout(ts, k);
    SizeWithout(ts[k := v], k);
    UpdateWithout(ts, k, v);
  }

  lemma ReadUpdate(ts: seq<Term>, k: nat, v: Term)
    requires k < |ts| && ReadAs(v) == ReadAs(ts[k])
    ensures ReadAll(ts[k := v]) == ReadAll(ts)
  {
    hide ReadAs, ReadAll;
    ReadAllUpdate(ts, k, v);
    ReadAllAt(ts, k);
  }

  lemma TwinAbove(t: Term, k: nat, v: Term)
    requires WellFormed(t) && t.Group? && k < |t.terms| && Twin(t.terms[k], v)
    ensures Twin(t, t.(terms := t.terms[k := v]))
  {
    WellFormedUpdate(t, k, v);
    ReadUpdate(t.terms, k, v);
    SizeUpdate(t.terms, k, v);
    GroupTwin(t, t.terms[k := v]);
  }

  lemma GroupTwin(t: Term, us: seq<Term>)
    requires t.Group? && WellFormed(t.(terms := us))
    requires ReadAll(us) == ReadAll(t.terms) && SizeAll(us) == SizeAll(t.terms) + 1
    ensures Twin(t, t.(terms := us))
  {
    hide WellFormed, ReadAll, SizeAll;
  }

  lemma WellFormedUpdate(t: Term, k: nat, v: Term)
    requires WellFormed(t) && t.Group? && k < |t.terms| && WellFormed(v) && Child(v)
    ensures WellFormed(t.(terms := t.terms[k := v])) && Child(t.terms[k])
  {
  }

  lemma TwinIsConfused(a: Term, b: Term, repr: Canon -> string)
    requires WellFormed(a) && Twin(a, b) && Injective(repr)
    ensures Canonicalise(Print(a), repr) == Canonicalise(Print(b), repr) && !SameUpToOrder(a, b)
  {
    hide WellFormed, ReadAs, Canonicalise, SameUpToOrder;
    CanonicalOfPrinted(a, repr);
    CanonicalOfPrinted(b, repr);
    if SameUpToOrder(a, b) {
      SameSize(a, b);
    }
  }

  /** What compares equal to a tree differs from it only in order, for every other tree, exactly when none
      of its constants is taken for a list. */
  lemma ExactWithoutMisreading(a: Term, repr: Canon -> string)
    requires WellFormed(a) && Injective(repr)
    ensures (forall b | WellFormed(b) ::
              Canonicalise(Print(a), repr) == Canonicalise(Print(b), repr) ==> SameUpToOrder(a, b))
       <==> !Misreads(a)
  {
    hide Canonicalise, SameUpToOrder, Misreads;
    if Misreads(a) {
      MisreadTwin(a);
      var b :| Twin(a, b);
      TwinIsConfused(a, b, repr);
    } else {
      hide WellFormed;
      forall b | WellFormed(b) && Canonicalise(Print(a), repr) == Canonicalise(Print(b), repr)
        ensures SameUpToOrder(a, b)
      {
        OnlyOrderIsIgnored(a, b, repr);
      }
    }
  }

  // ---- Two different constants that compare equal ----

  /** A comparison with a string constant. */
  function Compared(q: string): string {
    "x = '" + q + "'"
  }

  lemma ComparedMode(q: string, i: nat)
    requires '\'' !in q && 5 <= i <= |q| + 5
    ensures After(START, Compared(q)[..i]) == Mode(0, true)
  {
    assert Compared(q)[..i] == "x = " + ("'" + q[..i-5]);
    AfterConcat(START, "x = ", "'" + q[..i-5]);
    AfterPlain(START, "x = ");
    AfterConcat(START, "'", q[..i-5]);
    assert After(START, "'") == Advance(After(START, ""), '\'');
    QuotedStays(Mode(0, true), q[..i-5]);
  }

  lemma ComparedBalanced(q: string)
    requires '\'' !in q
    ensures Balanced(Compared(q))
  {
    var s := Compared(q);
    ComparedMode(q, |q| + 5);
    AfterOne(START, s, |q| + 5);
    assert s[..|s|] == s;
    forall i | 0 <= i <= |s| ensures After(START, s[..i]).depth >= 0 {
      if i < 5 {
        assert s[..i] == "x = "[..i];
        AfterPlain(START, s[..i]);
      } else if i < |s| {
        ComparedMode(q, i);
      }
    }
  }

  lemma ComparedClear(q: string, op: string)
    requires '\'' !in q && Word(op) && op[1] !in "x='"
    ensures Clear(Compared(q), op)
  {
    var t := " " + Compared(q) + " ";
    forall i | 0 <= i < |t| ensures !Cut(t, op, i) {
      if Cut(t, op, i) {
        OccursChars(t, op, i);
        assert t[i] == ' ' && t[i+1] == op[1];
        assert 6 <= i < |q| + 6;
        assert t[..i] == " " + Compared(q)[..i-1];
        AfterConcat(START, " ", Compared(q)[..i-1]);
        AfterPlain(START, " ");
        ComparedMode(q, i - 1);
      }
    }
  }

  lemma ComparedLeaf(q: string)
    requires '\'' !in q
    ensures LeafText(Compared(q))
  {
    OperatorIsWord(Or);
    OperatorIsWord(And);
    ComparedBalanced(q);
    ComparedClear(q, OR);
    ComparedClear(q, AND);
  }

  /** A comparison with a constant that holds the text of a list. */
  function Confusing(items: seq<string>): string {
    Compared(ARRAY + Join(items, ", ") + "]")
  }

  /** The one `ARRAY[` of a comparison with such a constant. */
  lemma OnlyOneIn(list: string)
    requires 'A' !in list
    ensures var s := Compared(ARRAY + list + "]");
            && OccursAt(s, ARRAY, 5) && Count(s, ARRAY, 0) == 1
            && forall i :: 0 <= i < |s| && OccursAt(s, ARRAY, i) ==> i == 5
  {
    var s := Compared(ARRAY + list + "]");
    forall i | 0 <= i < |s| && OccursAt(s, ARRAY, i) ensures i == 5 {
      OccursChars(s, ARRAY, i);
      assert s[i] == 'A' && s[i+1] == 'R';
    }
    assert s[5..5+|ARRAY|] == ARRAY;
    hide OccursAt, Count;
    OneOccurrence(s, 5);
  }

  lemma ConfusingPieces(list: string)
    ensures Compared(ARRAY + list + "]") == "x = '" + ARRAY + list + "]" + "'"
    ensures Compared(ARRAY + list + "]")[..5] == "x = '"
  {
    var s := Compared(ARRAY + list + "]");
    assert s == "x = '" + (ARRAY + list + "]") + "'";
  }

  lemma ConfusingLeaf(list: string)
    requires '\'' !in list
    ensures var s := Compared(ARRAY + list + "]");
            LeafText(s) && After(START, s[..5]).quoted
  {
    hide LeafText, Compared;
    var q := ARRAY + list + "]";
    assert '\'' !in q;
    ComparedMode(q, 5);
    ComparedLeaf(q);
  }

  lemma ConfusingWellFormed(list: string)
    requires '\'' !in list && 'A' !in list
    ensures WellFormed(Atom([], Compared(ARRAY + list + "]"), 0))
  {
    hide LeafText, After, OccursAt, Count, Compared;
    OnlyOneIn(list);
    ConfusingLeaf(list);
  }

  lemma ConfusingRead(items: seq<string>)
    requires items != [] && forall k :: 0 <= k < |items| ==> ListItem(items[k])
    requires '\'' !in Join(items, ", ") && 'A' !in Join(items, ", ")
    ensures WellFormed(Atom([], Confusing(items), 0))
    ensures ReadAs(Atom([], Confusing(items), 0)) == Atom([Piece("x = '", items)], "'", 0)
  {
    hide TakenForList, LeafText, Join, ListItem, OccursAt, Count, Compared, ReadText, WellFormed;
    var list := Join(items, ", ");
    OnlyOneIn(list);
    ConfusingPieces(list);
    ReadsItems(Confusing(items), Piece("x = '", items), "'", 0);
    ConfusingWellFormed(list);
  }

  lemma TwoItems(a: char, b: char)
    requires a !in "'A,()[]" && b !in "'A,()[]" && !IsSpace(a) && !IsSpace(b)
    ensures WellFormed(Atom([], Confusing([[a], [b]]), 0))
    ensures ReadAs(Atom([], Confusing([[a], [b]]), 0)) == Atom([Piece("x = '", [[a], [b]])], "'", 0)
  {
    hide WellFormed, ReadAs, Balanced;
    var items := [[a], [b]];
    BalancedPlain([a]);
    BalancedPlain([b]);
    assert Join(items, ", ") == [a] + ", " + [b];
    hide Join;
    ConfusingRead(items);
  }

  lemma ConfusingText()
    ensures Confusing(["b", "a"]) == "x = 'ARRAY[b, a]'" && Confusing(["a", "b"]) == "x = 'ARRAY[a, b]'"
  {
    assert Join(["b", "a"], ", ") == "b, a" && Join(["a", "b"], ", ") == "a, b";
  }

  /** `x = 'ARRAY[b, a]'` and `x = 'ARRAY[a, b]'` name different constants and compare equal. */
  lemma ConstantsConfused(repr: Canon -> string)
    requires Injective(repr)
    ensures Canonicalise("x = 'ARRAY[b, a]'", repr) == Canonicalise("x = 'ARRAY[a, b]'", repr)
  {
    hide Canonicalise, WellFormed, ReadAs, Confusing;
    var ba, ab := ["b", "a"], ["a", "b"];
    TwoItems('b', 'a');
    TwoItems('a', 'b');
    ConfusingText();
    assert multiset(ba) == multiset{"a", "b"} == multiset(ab);
    EqualAsRead(Atom([], Confusing(ba), 0), Atom([], Confusing(ab), 0), repr);
  }
}
