/** The parser of `[Table.Column]` expressions: the regular expression
    /\[(.*)\.(.*)\]/ as JavaScript's `String.prototype.match` runs it, and the
    `parseExpression` helper of the widget sanitizer built on it. */
module Expression {
  import opened Js

  /** The `{ table, column }` pair a stored reference carries. */
  datatype JaqlRef = JaqlRef(table: string, column: string)

  /** The expression `[table.column]`; the registry writes its expressions
      through it. */
  function Bracketed(table: string, column: string): string {
    "[" + table + "." + column + "]"
  }

  // ---------------------------------------------------------------------
  // What the regular expression means

  /** `s[i..e + 1]` matches /\[(.*)\.(.*)\]/ with the escaped `.` at `d`:
      `.*` does not cross a line terminator. */
  ghost predicate IsMatch(s: string, i: int, d: int, e: int) {
    && 0 <= i < d < e < |s|
    && s[i] == '[' && s[d] == '.' && s[e] == ']'
    && forall k :: i < k < e ==> !IsLineTerminator(s[k])
  }

  /** The match a backtracking engine reports: the leftmost start, then the
      longest first group (greedy), then the longest second group. */
  ghost predicate IsJsMatch(s: string, i: int, d: int, e: int) {
    && IsMatch(s, i, d, e)
    && (forall i', d', e' :: IsMatch(s, i', d', e') ==> i <= i')
    && (forall d', e' :: IsMatch(s, i, d', e') ==> d' <= d)
    && (forall e' :: IsMatch(s, i, d, e') ==> e' <= e)
  }

  ghost predicate NoMatch(s: string) {
    forall i, d, e :: !IsMatch(s, i, d, e)
  }

  /** The reported match is unique. */
  lemma JsMatchUnique(s: string, i: int, d: int, e: int)
    requires IsJsMatch(s, i, d, e)
    ensures forall i', d', e' :: IsJsMatch(s, i', d', e') ==> i' == i && d' == d && e' == e
  {
    forall i', d', e' | IsJsMatch(s, i', d', e')
      ensures i' == i && d' == d && e' == e
    {
      assert IsMatch(s, i, d, e) && IsMatch(s, i', d', e');
      assert i == i';
      assert IsMatch(s, i, d', e');
      assert d == d';
      assert IsMatch(s, i, d, e');
    }
  }

  // ---------------------------------------------------------------------
  // How the engine finds it

  /** The last index in `[lo, hi)` holding `c`. */
  function LastIndexOf(s: string, c: char, lo: nat, hi: nat): (r: Option<nat>)
    requires lo <= hi <= |s|
    ensures r.Some? ==> lo <= r.value < hi && s[r.value] == c
    ensures r.Some? ==> forall k :: r.value < k < hi ==> s[k] != c
    ensures r.None? ==> forall k :: lo <= k < hi ==> s[k] != c
    decreases hi - lo
  {
    if lo == hi then None
    else if s[hi - 1] == c then Some(hi - 1)
    else LastIndexOf(s, c, lo, hi - 1)
  }

  /** The first line terminator at or after `j`, or the end of `s`. */
  function LineEnd(s: string, j: nat): (r: nat)
    requires j <= |s|
    ensures j <= r <= |s|
    ensures forall k :: j <= k < r ==> !IsLineTerminator(s[k])
    ensures r < |s| ==> IsLineTerminator(s[r])
    decreases |s| - j
  {
    if j == |s| || IsLineTerminator(s[j]) then j else LineEnd(s, j + 1)
  }

  /** The greedy match starting at `i`, as `(d, e)`: the last `]` on the
      line, and the last `.` before it. */
  function MatchAt(s: string, i: nat): (r: Option<(nat, nat)>)
    requires i < |s|
    ensures r.Some? ==> IsMatch(s, i, r.value.0, r.value.1)
    ensures r.Some? ==> forall d', e' :: IsMatch(s, i, d', e') ==> d' <= r.value.0
    ensures r.Some? ==> forall e' :: IsMatch(s, i, r.value.0, e') ==> e' <= r.value.1
    ensures r.None? ==> forall d', e' :: !IsMatch(s, i, d', e')
  {
    if s[i] != '[' then None
    else
      var end := LineEnd(s, i + 1);
      // A match at `i` ends before the line does.
      assert forall d', e' :: IsMatch(s, i, d', e') ==> e' < end;
      match LastIndexOf(s, ']', i + 1, end)
      case None => None
      case Some(e) =>
        match LastIndexOf(s, '.', i + 1, e)
        case None => None
        case Some(d) => Some((d, e))
  }

  /** The leftmost match starting at or after `from`, as `(i, d, e)`. */
  function FindMatch(s: string, from: nat): (r: Option<(nat, nat, nat)>)
    requires from <= |s|
    ensures r.Some? ==> from <= r.value.0 && IsMatch(s, r.value.0, r.value.1, r.value.2)
    ensures r.Some? ==> forall i', d', e' :: from <= i' && IsMatch(s, i', d', e') ==> r.value.0 <= i'
    ensures r.Some? ==> forall d', e' :: IsMatch(s, r.value.0, d', e') ==> d' <= r.value.1
    ensures r.Some? ==> forall e' :: IsMatch(s, r.value.0, r.value.1, e') ==> e' <= r.value.2
    ensures r.None? ==> forall i', d', e' :: from <= i' ==> !IsMatch(s, i', d', e')
    decreases |s| - from
  {
    if from == |s| then None
    else
      match MatchAt(s, from)
      case Some((d, e)) => Some((from, d, e))
      case None => FindMatch(s, from + 1)
  }

  /** `s.match(/\[(.*)\.(.*)\]/)` reports a match exactly when there is one,
      and what it reports is the JavaScript match. */
  lemma FindMatchIsJsMatch(s: string)
    ensures FindMatch(s, 0).Some? ==>
              IsJsMatch(s, FindMatch(s, 0).value.0, FindMatch(s, 0).value.1, FindMatch(s, 0).value.2)
    ensures FindMatch(s, 0).None? <==> NoMatch(s)
  {
  }

  // ---------------------------------------------------------------------
  // parseExpression

  /** `parseExpression`: nothing for a missing or empty expression, for an
      expression the regular expression does not match, or when either
      captured group is empty; otherwise the captured table and column. */
  function ParseExpression(expression: Option<string>): (r: Option<JaqlRef>)
    ensures !Truthy(expression) ==> r.None?
    ensures Truthy(expression) && NoMatch(expression.value) ==> r.None?
    ensures Truthy(expression) ==>
              forall i, d, e :: IsJsMatch(expression.value, i, d, e) ==>
                r == if i + 1 < d && d + 1 < e
                     then Some(JaqlRef(expression.value[i + 1..d], expression.value[d + 1..e]))
                     else None
    ensures r.Some? ==> r.value.table != [] && r.value.column != []
  {
    if !Truthy(expression) then None
    else
      var s := expression.value;
      FindMatchIsJsMatch(s);
      match FindMatch(s, 0)
      case None => None
      case Some((i, d, e)) =>
        JsMatchUnique(s, i, d, e);
        var table := s[i + 1..d];
        var column := s[d + 1..e];
        if table != [] && column != [] then Some(JaqlRef(table, column)) else None
  }

  /** A name that survives the round trip through `[table.column]`:
      non-empty printable ASCII (so no line terminator) without a `.`. */
  predicate PlainName(s: string) {
    s != [] && forall k :: 0 <= k < |s| ==> ' ' <= s[k] <= '~' && s[k] != '.'
  }

  /** `[table.column]` parses back to `(table, column)` when the column is a
      plain name, whatever dots the table holds: the greedy first group
      swallows every `.` but the last. */
  lemma ParseBracketed(table: string, column: string)
    requires table != [] && forall k :: 0 <= k < |table| ==> !IsLineTerminator(table[k])
    requires PlainName(column)
    ensures ParseExpression(Some(Bracketed(table, column))) == Some(JaqlRef(table, column))
  {
    var s := Bracketed(table, column);
    var d := |table| + 1;
    var e := |s| - 1;
    assert e == d + |column| + 1;
    assert s[0] == '[' && s[d] == '.' && s[e] == ']';
    assert forall k :: 0 < k < d ==> s[k] == table[k - 1];
    assert forall k :: d < k < e ==> s[k] == column[k - d - 1];
    assert forall k :: 0 < k < e ==> !IsLineTerminator(s[k]);
    assert forall k :: d < k < e ==> s[k] != '.';
    assert IsMatch(s, 0, d, e);
    assert IsJsMatch(s, 0, d, e);
    assert s[1..d] == table;
    assert s[d + 1..e] == column;
  }

  /** "NotBracketed" holds no `[`, so it does not parse. */
  lemma ParseNotBracketed()
    ensures ParseExpression(Some("NotBracketed")) == None
  {
    var s := "NotBracketed";
    assert forall k :: 0 <= k < |s| ==> s[k] != '[';
    assert NoMatch(s);
  }

  /** "[OnlyTable]" holds no `.`, so it does not parse. */
  lemma ParseOnlyTable()
    ensures ParseExpression(Some("[OnlyTable]")) == None
  {
    var s := "[OnlyTable]";
    assert forall k :: 0 <= k < |s| ==> s[k] != '.';
    assert NoMatch(s);
  }

  /** "[A.B.C]" parses to table "A.B" and column "C". */
  lemma ParseTwoDots()
    ensures ParseExpression(Some(Bracketed("A.B", "C"))) == Some(JaqlRef("A.B", "C"))
  {
    ParseBracketed("A.B", "C");
  }

  /** "[.C]" matches, but with an empty table, so it does not parse. */
  lemma ParseEmptyTable()
    ensures ParseExpression(Some("[.C]")) == None
  {
    var s := "[.C]";
    assert IsMatch(s, 0, 1, 3);
    assert forall k :: 1 < k < |s| ==> s[k] != '.';
    assert IsJsMatch(s, 0, 1, 3);
  }
}
