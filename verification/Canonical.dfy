/** scripts/check_permission_constraints.py: the comparable form of a CHECK constraint. */
module Canonical {
  import opened Ordering
  import opened Splitting

  datatype Connective = Or | And

  const OR := " OR "
  const AND := " AND "
  const ARRAY := "ARRAY["

  function Operator(c: Connective): string {
    if c == Or then OR else AND
  }

  /** The nested tuples `_canonical` returns. */
  datatype Canon =
    | Node(connective: Connective, terms: seq<Canon>)
    | Plain(text: string)
    | Listed(before: string, items: seq<string>, after: string)

  function StripAll(items: seq<string>): seq<string> {
    if items == [] then [] else [Strip(items[0])] + StripAll(items[1..])
  }

  /** A term that no connective splits. */
  function Leaf(e: string): Canon {
    var start := Find(e, ARRAY, 0);
    if start < |e| && Count(e, ARRAY, 0) == 1 then
      match ClosingBracket(e, start + |ARRAY|, start + |ARRAY|)
      case Some(end) =>
        Listed(e[..start], Sort(StripAll(Split(e[start+|ARRAY|..end], ",")), StrLe), e[end..])
      case None => Plain(e)
    else Plain(e)
  }

  /** `repr` stands for Python's repr, the sort key: all that is used of it is that it is injective. */
  function Canonicalise(s: string, repr: Canon -> string): Canon
    decreases |s|, 1, 0
  {
    var e := Unwrap(s);
    var ors, ands := Split(e, OR), Split(e, AND);
    if |ors| > 1 then
      assert forall k :: 0 <= k < |ors| ==> |ors[k]| < |s| by { ShorterPieces(e, OR); }
      Node(Or, Sort(CanonicaliseAll(ors, repr, |s|), KeyOrder(repr)))
    else if |ands| > 1 then
      assert forall k :: 0 <= k < |ands| ==> |ands[k]| < |s| by { ShorterPieces(e, AND); }
      Node(And, Sort(CanonicaliseAll(ands, repr, |s|), KeyOrder(repr)))
    else Leaf(e)
  }

  function CanonicaliseAll(parts: seq<string>, repr: Canon -> string, bound: nat): seq<Canon>
    requires forall k :: 0 <= k < |parts| ==> |parts[k]| < bound
    decreases bound, 0, |parts|
  {
    if parts == [] then []
    else [Canonicalise(parts[0], repr)] + CanonicaliseAll(parts[1..], repr, bound)
  }

  lemma ShorterPieces(e: string, op: string)
    requires op != "" && |Split(e, op)| > 1
    ensures forall k :: 0 <= k < |Split(e, op)| ==> |Split(e, op)[k]| < |e|
  {
    forall k | 0 <= k < |Split(e, op)| ensures |Split(e, op)[k]| < |e| {
      SplitShrinks(e, op, k);
    }
  }
}
