/** The text scanners of scripts/check_permission_constraints.py: bracket depth and quotes, splitting
    at the first level, balance, the closing bracket, and the removal of enclosing parentheses. */
module Splitting {
  import opened Wrappers

  // ---- What a scanner knows after reading a prefix ----

  datatype Mode = Mode(depth: int, quoted: bool)

  const START := Mode(0, false)

  predicate Opens(c: char) { c == '(' || c == '[' }

  predicate Closes(c: char) { c == ')' || c == ']' }

  predicate Special(c: char) { c == '\'' || Opens(c) || Closes(c) }

  function Advance(m: Mode, c: char): Mode {
    if c == '\'' then m.(quoted := !m.quoted)
    else if m.quoted then m
    else if Opens(c) then m.(depth := m.depth + 1)
    else if Closes(c) then m.(depth := m.depth - 1)
    else m
  }

  function After(m: Mode, s: string): Mode {
    if s == "" then m else Advance(After(m, s[..|s|-1]), s[|s|-1])
  }

  lemma AfterOne(m: Mode, s: string, i: nat)
    requires i < |s|
    ensures After(m, s[..i+1]) == Advance(After(m, s[..i]), s[i])
  {
    assert s[..i+1][..i] == s[..i];
  }

  lemma {:induction false} AfterConcat(m: Mode, a: string, b: string)
    ensures After(m, a + b) == After(After(m, a), b)
  {
    if b == "" {
      assert a + b == a;
    } else {
      var n := |b| - 1;
      assert (a + b)[..|a+b|-1] == a + b[..n];
      AfterConcat(m, a, b[..n]);
    }
  }

  /** Text scanned from some depth behaves as from depth 0, that many levels deeper. */
  lemma {:induction false} AfterShift(m: Mode, s: string)
    ensures After(m, s).depth == m.depth + After(Mode(0, m.quoted), s).depth
    ensures After(m, s).quoted == After(Mode(0, m.quoted), s).quoted
  {
    if s == "" {
    } else {
      AfterShift(m, s[..|s|-1]);
    }
  }

  lemma {:induction false} AfterPlain(m: Mode, s: string)
    requires forall c | c in s :: !Special(c)
    ensures After(m, s) == m
  {
    if s == "" {
    } else {
      var n := |s| - 1;
      assert s[n] in s;
      assert forall c | c in s[..n] :: c in s;
      AfterPlain(m, s[..n]);
    }
  }

  // ---- Splitting on an operator ----

  predicate OccursAt(s: string, pattern: string, i: int) {
    0 <= i && i + |pattern| <= |s| && s[i..i+|pattern|] == pattern
  }

  /** The operator stands at position i, outside brackets and quotes. */
  predicate Cut(s: string, op: string, i: int)
    requires op != ""
  {
    OccursAt(s, op, i) && !Special(s[i]) && After(START, s[..i]) == START
  }

  predicate NoCutBefore(s: string, op: string, n: int)
    requires op != ""
  {
    forall i :: 0 <= i < n ==> !Cut(s, op, i)
  }

  /** First cut at or after i; |s| when there is none. */
  function CutFrom(s: string, op: string, i: nat): (r: nat)
    requires op != "" && i <= |s|
    ensures i <= r <= |s|
    ensures forall j :: i <= j < r ==> !Cut(s, op, j)
    ensures r < |s| ==> Cut(s, op, r)
    decreases |s| - i
  {
    if i == |s| || Cut(s, op, i) then i else CutFrom(s, op, i + 1)
  }

  /** The pieces of s between its first-level operators. */
  function Split(s: string, op: string): (parts: seq<string>)
    requires op != ""
    ensures parts != []
    decreases |s|
  {
    var i := CutFrom(s, op, 0);
    if i == |s| then [s] else [s[..i]] + Split(s[i+|op|..], op)
  }

  lemma CutIsThere(s: string, op: string, i: int)
    requires op != "" && Cut(s, op, i)
    ensures 0 <= i && i + |op| <= |s| && s[i..i+|op|] == op
  {
  }

  /** Pieces are shorter than the text they come from. */
  lemma {:induction false} SplitShrinks(s: string, op: string, k: nat)
    requires op != "" && k < |Split(s, op)|
    ensures |Split(s, op)[k]| <= |s|
    ensures |Split(s, op)| > 1 ==> |Split(s, op)[k]| < |s|
    decreases |s|
  {
    hide Cut;
    var i := CutFrom(s, op, 0);
    if i == |s| {
    } else {
      CutIsThere(s, op, i);
      var rest := Split(s[i+|op|..], op);
      assert Split(s, op) == [s[..i]] + rest;
      hide Split;
      if k > 0 {
        SplitShrinks(s[i+|op|..], op, k - 1);
      }
    }
  }

  function Join(parts: seq<string>, op: string): string {
    if parts == [] then "" else if |parts| == 1 then parts[0] else parts[0] + op + Join(parts[1..], op)
  }

  lemma JoinCons(p: string, rest: seq<string>, op: string)
    requires rest != []
    ensures Join([p] + rest, op) == p + op + Join(rest, op)
  {
    assert ([p] + rest)[1..] == rest;
  }

  /** `op.join(_split(s, op)) == s`, for every text. */
  lemma {:induction false} JoinSplit(s: string, op: string)
    requires op != ""
    ensures Join(Split(s, op), op) == s
    decreases |s|
  {
    hide Cut;
    var i := CutFrom(s, op, 0);
    if i == |s| {
    } else {
      CutIsThere(s, op, i);
      var rest := s[i+|op|..];
      assert Split(s, op) == [s[..i]] + Split(rest, op);
      hide Split, Join, CutFrom;
      JoinSplit(rest, op);
      JoinCons(s[..i], Split(rest, op), op);
      assert s == s[..i] + s[i..i+|op|] + rest;
    }
  }

  lemma AfterCutText(head: string, op: string, tail: string)
    requires forall c | c in op :: !Special(c)
    requires After(START, head) == START
    ensures After(START, head + op + tail) == After(START, tail)
  {
    AfterConcat(START, head + op, tail);
    AfterConcat(START, head, op);
    AfterPlain(START, op);
  }

  lemma PrefixBehind(a: string, b: string, c: string)
    requires b <= c
    ensures a + b <= a + c
  {
  }

  lemma CutBehind(head: string, op: string, inner: string, rest: string)
    requires forall c | c in op :: !Special(c)
    requires After(START, head) == START && After(START, inner) == START && inner + op <= rest
    ensures head + op + inner + op <= head + op + rest
    ensures After(START, head + op + inner) == START
  {
    AfterCutText(head, op, inner);
    PrefixBehind(head + op, inner + op, rest);
    assert head + op + inner + op == head + op + (inner + op);
  }

  /** Every cut falls at depth 0 outside quotes, counting from the start of the whole text. */
  lemma {:induction false} SplitCutsAtTop(s: string, op: string, k: nat)
    requires op != "" && forall c | c in op :: !Special(c)
    requires k + 1 < |Split(s, op)|
    ensures Join(Split(s, op)[..k+1], op) + op <= s
    ensures After(START, Join(Split(s, op)[..k+1], op)) == START
    decreases |s|
  {
    var i := CutFrom(s, op, 0);
    var head, rest := s[..i], s[i+|op|..];
    var tail := Split(rest, op);
    assert Split(s, op) == [head] + tail;
    assert s == head + op + rest;
    hide After;
    if k == 0 {
    } else {
      SplitCutsAtTop(rest, op, k - 1);
    }
    HeadsBehind(head, op, tail, rest, k);
  }

  lemma HeadsBehind(head: string, op: string, tail: seq<string>, rest: string, k: nat)
    requires forall c | c in op :: !Special(c)
    requires After(START, head) == START && k <= |tail|
    requires k > 0 ==> After(START, Join(tail[..k], op)) == START && Join(tail[..k], op) + op <= rest
    ensures var joined := Join(([head] + tail)[..k+1], op);
            joined + op <= head + op + rest && After(START, joined) == START
  {
    assert ([head] + tail)[..k+1] == [head] + tail[..k];
    if k > 0 {
      JoinCons(head, tail[..k], op);
      CutBehind(head, op, Join(tail[..k], op), rest);
    }
  }

  /** The cuts after `start` are those of the remaining text. */
  lemma SplitAtFirstCut(s: string, op: string, i: nat)
    requires op != "" && Cut(s, op, i) && NoCutBefore(s, op, i)
    ensures Split(s, op) == [s[..i]] + Split(s[i+|op|..], op)
  {
    assert CutFrom(s, op, 0) == i;
  }

  lemma SplitWithoutCut(s: string, op: string)
    requires op != "" && NoCutBefore(s, op, |s|)
    ensures Split(s, op) == [s]
  {
    assert CutFrom(s, op, 0) == |s|;
  }

  /** What the splitting loop knows: the pieces found, and the scan of the current one. */
  ghost predicate Scanned(s: string, op: string, parts: seq<string>, start: nat, index: nat, m: Mode)
    requires op != ""
  {
    && start <= index <= |s|
    && m == After(START, s[start..index])
    && NoCutBefore(s[start..], op, index - start)
    && Split(s, op) == parts + Split(s[start..], op)
  }

  lemma ScannedCut(s: string, op: string, start: nat, index: nat)
    requires op != "" && start <= index < |s|
    ensures Cut(s[start..], op, index - start)
       <==> OccursAt(s, op, index) && !Special(s[index]) && After(START, s[start..index]) == START
  {
    assert s[start..][..index-start] == s[start..index];
    if index + |op| <= |s| {
      assert s[start..][index-start..index-start+|op|] == s[index..index+|op|];
    }
  }

  lemma ScannedChar(s: string, op: string, parts: seq<string>, start: nat, index: nat, m: Mode)
    requires op != "" && Scanned(s, op, parts, start, index, m) && index < |s|
    requires Special(s[index]) || m != START || !OccursAt(s, op, index)
    ensures Scanned(s, op, parts, start, index + 1, Advance(m, s[index]))
  {
    ScannedCut(s, op, start, index);
    assert s[start..index+1][..index-start] == s[start..index];
  }

  lemma ScannedOperator(s: string, op: string, parts: seq<string>, start: nat, index: nat)
    requires op != "" && Scanned(s, op, parts, start, index, START) && index < |s|
    requires OccursAt(s, op, index) && !Special(s[index])
    ensures start <= index && index + |op| <= |s|
    ensures Scanned(s, op, parts + [s[start..index]], index + |op|, index + |op|, START)
  {
    var rest, at := s[start..], index - start;
    ScannedCut(s, op, start, index);
    SplitAtFirstCut(rest, op, at);
    assert rest[..at] == s[start..index] && rest[at+|op|..] == s[index+|op|..];
    var tail := Split(s[index+|op|..], op);
    assert parts + ([s[start..index]] + tail) == parts + [s[start..index]] + tail;
  }

  lemma ScannedEnd(s: string, op: string, parts: seq<string>, start: nat, m: Mode)
    requires op != "" && Scanned(s, op, parts, start, |s|, m)
    ensures Split(s, op) == parts + [s[start..]]
  {
    SplitWithoutCut(s[start..], op);
  }

  lemma ScannedStart(s: string, op: string)
    requires op != ""
    ensures Scanned(s, op, [], 0, 0, START)
  {
    assert s[0..] == s;
  }

  method SplitText(expression: string, operator: string) returns (parts: seq<string>)
    requires operator != ""
    ensures parts == Split(expression, operator)
  {
    parts := [];
    var depth, quoted := 0, false;
    var start: nat, index: nat := 0, 0;
    hide Scanned, Split, After, OccursAt;
    ScannedStart(expression, operator);
    while index < |expression|
      invariant start <= index <= |expression|
      invariant Scanned(expression, operator, parts, start, index, Mode(depth, quoted))
      decreases |expression| - index
    {
      var c := expression[index];
      if c != '\'' && !quoted && !Opens(c) && !Closes(c) && depth == 0 && OccursAt(expression, operator, index) {
        ScannedOperator(expression, operator, parts, start, index);
        parts := parts + [expression[start..index]];
        index := index + |operator|;
        start := index;
      } else {
        ScannedChar(expression, operator, parts, start, index, Mode(depth, quoted));
        if c == '\'' {
          quoted := !quoted;
        } else if !quoted {
          if Opens(c) {
            depth := depth + 1;
          } else if Closes(c) {
            depth := depth - 1;
          }
        }
        index := index + 1;
      }
    }
    ScannedEnd(expression, operator, parts, start, Mode(depth, quoted));
    parts := parts + [expression[start..]];
  }

  // ---- Balance ----

  /** Never below the starting depth, and back to it outside quotes at the end. */
  predicate Balanced(s: string) {
    After(START, s) == START && forall i :: 0 <= i <= |s| ==> After(START, s[..i]).depth >= 0
  }

  method IsBalanced(expression: string) returns (balanced: bool)
    ensures balanced <==> Balanced(expression)
  {
    var depth, quoted := 0, false;
    for i := 0 to |expression|
      invariant Mode(depth, quoted) == After(START, expression[..i])
      invariant forall k :: 0 <= k <= i ==> After(START, expression[..k]).depth >= 0
    {
      var c := expression[i];
      AfterOne(START, expression, i);
      if c == '\'' {
        quoted := !quoted;
      } else if !quoted {
        depth := depth + if Opens(c) then 1 else if Closes(c) then -1 else 0;
        if depth < 0 {
          assert After(START, expression[..i+1]).depth < 0;
          return false;
        }
      }
    }
    assert expression[..|expression|] == expression;
    return depth == 0 && !quoted;
  }

  lemma BalancedConcat(a: string, b: string)
    requires Balanced(a) && Balanced(b)
    ensures Balanced(a + b)
  {
    AfterConcat(START, a, b);
    forall i | 0 <= i <= |a + b| ensures After(START, (a + b)[..i]).depth >= 0 {
      if i <= |a| {
        assert (a + b)[..i] == a[..i];
      } else {
        assert (a + b)[..i] == a + b[..i-|a|];
        AfterConcat(START, a, b[..i-|a|]);
      }
    }
  }

  lemma BalancedPlain(s: string)
    requires forall c | c in s :: !Special(c)
    ensures Balanced(s)
  {
    forall i | 0 <= i <= |s| ensures After(START, s[..i]) == START {
      AfterPlain(START, s[..i]);
    }
    assert s[..|s|] == s;
  }

  /** Inside an added pair of parentheses the depth is one more than without it. */
  lemma InsideParentheses(b: string, i: nat)
    requires i <= |b|
    ensures After(START, ("(" + b)[..i+1]).depth == 1 + After(START, b[..i]).depth
    ensures After(START, ("(" + b)[..i+1]).quoted == After(START, b[..i]).quoted
  {
    assert ("(" + b)[..i+1] == "(" + b[..i];
    AfterConcat(START, "(", b[..i]);
    assert After(START, "(") == Advance(After(START, ""), '(');
    AfterShift(Mode(1, false), b[..i]);
  }

  lemma BalancedParentheses(b: string)
    requires Balanced(b)
    ensures Balanced("(" + b + ")")
  {
    var s := "(" + b + ")";
    assert s[..|s|-1] == ("(" + b)[..|b|+1] && b[..|b|] == b;
    InsideParentheses(b, |b|);
    assert After(START, s) == START;
    forall i | 0 <= i <= |s| ensures After(START, s[..i]).depth >= 0 {
      if 0 < i <= |b| + 1 {
        assert s[..i] == ("(" + b)[..i];
        InsideParentheses(b, i - 1);
      } else if i == |s| {
        assert s[..i] == s;
      }
    }
  }

  // ---- Enclosing parentheses ----

  /** What str.strip() removes. */
  predicate IsSpace(c: char) {
    c in "\t\n\r \U{0b}\U{0c}\U{1c}\U{1d}\U{1e}\U{1f}\U{85}\U{a0}\U{1680}\U{2028}\U{2029}\U{202f}\U{205f}\U{3000}"
    || '\U{2000}' <= c <= '\U{200a}'
  }

  function StripLeft(s: string): (r: string)
    ensures |r| <= |s|
    ensures r != "" ==> !IsSpace(r[0])
  {
    if s != "" && IsSpace(s[0]) then StripLeft(s[1..]) else s
  }

  function StripRight(s: string): (r: string)
    ensures |r| <= |s| && r == s[..|r|]
    ensures r != "" ==> !IsSpace(r[|r|-1])
  {
    if s != "" && IsSpace(s[|s|-1]) then StripRight(s[..|s|-1]) else s
  }

  function Strip(s: string): (r: string)
    ensures |r| <= |s|
  {
    StripRight(StripLeft(s))
  }

  /** Nothing to strip at either end. */
  predicate Trimmed(s: string) {
    s != "" ==> !IsSpace(s[0]) && !IsSpace(s[|s|-1])
  }

  lemma StripTrimmed(s: string)
    ensures Trimmed(Strip(s))
    ensures Trimmed(s) <==> Strip(s) == s
  {
  }

  predicate AllSpaces(s: string) { forall c | c in s :: IsSpace(c) }

  lemma {:induction false} StripLeftExactly(s: string)
    ensures var n := |s| - |StripLeft(s)|;
            AllSpaces(s[..n]) && s[n..] == StripLeft(s)
  {
    hide IsSpace;
    if s == "" || !IsSpace(s[0]) {
    } else {
      var n := |s| - |StripLeft(s)|;
      StripLeftExactly(s[1..]);
      assert s[..n] == [s[0]] + s[1..][..n-1];
      assert s[n..] == s[1..][n-1..];
    }
  }

  lemma {:induction false} StripRightExactly(s: string)
    ensures AllSpaces(s[|StripRight(s)|..])
  {
    hide IsSpace;
    if s == "" || !IsSpace(s[|s|-1]) {
    } else {
      var n := |s| - 1;
      StripRightExactly(s[..n]);
      assert s[|StripRight(s)|..] == s[..n][|StripRight(s)|..] + [s[n]];
    }
  }

  /** Stripping takes off the blanks at both ends, and nothing else. */
  lemma StripExactly(s: string)
    ensures Trimmed(Strip(s))
    ensures exists l, r :: AllSpaces(l) && AllSpaces(r) && s == l + Strip(s) + r
  {
    StripTrimmed(s);
    StripLeftExactly(s);
    StripRightExactly(StripLeft(s));
    var n, m := |s| - |StripLeft(s)|, |Strip(s)|;
    hide StripLeft, StripRight, IsSpace;
    assert s == s[..n] + StripLeft(s) && StripLeft(s) == Strip(s) + StripLeft(s)[m..];
    assert s == s[..n] + Strip(s) + StripLeft(s)[m..];
  }

  /** One pair of parentheses encloses the whole text. */
  predicate Wrapped(s: string) {
    |s| >= 2 && s[0] == '(' && s[|s|-1] == ')' && Balanced(s[1..|s|-1])
  }

  /** The parentheses that enclose a stripped text, removed one pair at a time. */
  function Peel(t: string): (r: string)
    ensures |r| <= |t|
    decreases |t|
  {
    if Wrapped(t) then Peel(Strip(t[1..|t|-1])) else t
  }

  function Unwrap(s: string): string { Peel(Strip(s)) }

  /** Nothing is left to strip or to unwrap. */
  lemma UnwrapComplete(s: string)
    ensures Trimmed(Unwrap(s)) && !Wrapped(Unwrap(s))
  {
    StripTrimmed(s);
    PeelComplete(Strip(s));
  }

  lemma {:induction false} PeelComplete(t: string)
    requires Trimmed(t)
    ensures Trimmed(Peel(t)) && !Wrapped(Peel(t))
    decreases |t|
  {
    if !Wrapped(t) {
    } else {
      StripTrimmed(t[1..|t|-1]);
      PeelComplete(Strip(t[1..|t|-1]));
    }
  }

  method UnwrapText(text: string) returns (expression: string)
    ensures expression == Unwrap(text)
  {
    expression := Strip(text);
    while |expression| >= 2 && expression[0] == '(' && expression[|expression|-1] == ')'
      invariant Peel(expression) == Unwrap(text)
      decreases |expression|
    {
      var enclosed := IsBalanced(expression[1..|expression|-1]);
      if !enclosed {
        break;
      }
      expression := Strip(expression[1..|expression|-1]);
    }
  }

  // ---- Lists ----

  /** The bracket at p closes the list that starts at `index`. */
  predicate ClosesAt(s: string, index: nat, p: nat) {
    index <= p < |s| && s[p] == ']' && After(START, s[index..p]) == START
  }

  function ClosingBracket(s: string, index: nat, p: nat): (r: Option<nat>)
    requires index <= p <= |s|
    ensures r.Some? ==> p <= r.value && ClosesAt(s, index, r.value)
    ensures forall q :: p <= q < (if r.Some? then r.value else |s|) ==> !ClosesAt(s, index, q)
    decreases |s| - p
  {
    if p == |s| then None
    else if ClosesAt(s, index, p) then Some(p)
    else ClosingBracket(s, index, p + 1)
  }

  /** The first position whose bracket closes the list, if any. */
  method FindClosingBracket(expression: string, index: nat) returns (found: Option<nat>)
    requires index <= |expression|
    ensures found.Some? ==> ClosesAt(expression, index, found.value)
    ensures forall q :: index <= q < (if found.Some? then found.value else |expression|)
                        ==> !ClosesAt(expression, index, q)
    ensures found == ClosingBracket(expression, index, index)
  {
    var depth, quoted := 0, false;
    for position := index to |expression|
      invariant Mode(depth, quoted) == After(START, expression[index..position])
      invariant forall q :: index <= q < position ==> !ClosesAt(expression, index, q)
      invariant ClosingBracket(expression, index, index) == ClosingBracket(expression, index, position)
    {
      ghost var rest := expression[index..];
      assert rest[..position-index] == expression[index..position];
      assert rest[..position-index+1] == expression[index..position+1];
      AfterOne(START, rest, position - index);
      var c := expression[position];
      if c == '\'' {
        quoted := !quoted;
      } else if !quoted {
        if c == ']' && depth == 0 {
          return Some(position);
        }
        depth := depth + if Opens(c) then 1 else if Closes(c) then -1 else 0;
      }
    }
    return None;
  }

  /** First occurrence of the pattern at or after i; |s| when there is none. */
  function Find(s: string, pattern: string, i: nat): (r: nat)
    requires pattern != "" && i <= |s|
    ensures i <= r <= |s|
    ensures forall j :: i <= j < r ==> !OccursAt(s, pattern, j)
    ensures r < |s| ==> OccursAt(s, pattern, r)
    decreases |s| - i
  {
    if i == |s| || OccursAt(s, pattern, i) then i else Find(s, pattern, i + 1)
  }

  /** str.count: occurrences that do not overlap. */
  function Count(s: string, pattern: string, i: nat): nat
    requires pattern != "" && i <= |s|
    decreases |s| - i
  {
    var j := Find(s, pattern, i);
    if j == |s| then 0 else 1 + Count(s, pattern, j + |pattern|)
  }
}
