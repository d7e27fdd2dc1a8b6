/** The pieces of JavaScript semantics the dashboard code leans on:
    optional values and string truthiness, `Array.prototype.find`, the
    `.map(f).filter(Boolean)` idiom, `Array.prototype.filter`,
    `String.prototype.trim` and the decimal rendering of a number. */
module Js {

  /** A value that may be `undefined` or `null`. */
  datatype Option<+T> = None | Some(value: T)

  /** A string is truthy in JavaScript when it is present and non-empty. */
  predicate Truthy(s: Option<string>) {
    s.Some? && s.value != []
  }

  /** `a || b` on two optional strings. */
  function Or(a: Option<string>, b: Option<string>): (r: Option<string>)
    ensures Truthy(r) <==> Truthy(a) || Truthy(b)
    ensures Truthy(a) ==> r == a
    ensures !Truthy(a) ==> r == b
  {
    if Truthy(a) then a else b
  }

  // ---------------------------------------------------------------------
  // Array.prototype.findIndex / find

  /** The index of the first element at or after `from` satisfying `p`. */
  function FindIndexFrom<T>(s: seq<T>, p: T -> bool, from: nat): (r: Option<nat>)
    requires from <= |s|
    ensures r.Some? ==> from <= r.value < |s| && p(s[r.value])
    ensures r.Some? ==> forall j :: from <= j < r.value ==> !p(s[j])
    ensures r.None? ==> forall j :: from <= j < |s| ==> !p(s[j])
    decreases |s| - from
  {
    if from == |s| then None
    else if p(s[from]) then Some(from)
    else FindIndexFrom(s, p, from + 1)
  }

  /** `s.findIndex(p)`, with "not found" as `None`. */
  function FindIndex<T>(s: seq<T>, p: T -> bool): (r: Option<nat>)
    ensures r.Some? ==> r.value < |s| && p(s[r.value])
    ensures r.Some? ==> forall j :: 0 <= j < r.value ==> !p(s[j])
    ensures r.None? ==> forall j :: 0 <= j < |s| ==> !p(s[j])
  {
    FindIndexFrom(s, p, 0)
  }

  /** `s.find(p)`: the first element satisfying `p`, or `undefined`. */
  function Find<T>(s: seq<T>, p: T -> bool): (r: Option<T>)
    ensures r.Some? ==> exists k :: 0 <= k < |s| && s[k] == r.value && p(s[k]) && forall j :: 0 <= j < k ==> !p(s[j])
    ensures r.None? ==> forall j :: 0 <= j < |s| ==> !p(s[j])
  {
    match FindIndex(s, p)
    case Some(k) => Some(s[k])
    case None => None
  }

  /** If the element at `k` is the first one satisfying `p`, `find` returns it. */
  lemma FindFirst<T>(s: seq<T>, p: T -> bool, k: nat)
    requires k < |s| && p(s[k])
    requires forall j :: 0 <= j < k ==> !p(s[j])
    ensures Find(s, p) == Some(s[k])
  {
    var r := FindIndex(s, p);
    assert r.Some?;
  }

  // ---------------------------------------------------------------------
  // s.map(f).filter(Boolean), where f returns null for the dropped elements

  /** Apply `f` to every element, in order, and keep the non-null results. */
  function FilterMap<A, B>(s: seq<A>, f: A -> Option<B>): (r: seq<B>)
    ensures |r| <= |s|
  {
    if s == [] then []
    else
      var rest := FilterMap(s[1..], f);
      match f(s[0])
      case Some(y) => [y] + rest
      case None => rest
  }

  /** Every kept result is the image of some element, and every element
      with an image has it kept; when every element has an image the
      results line up with the elements, and when none has, nothing is
      kept. */
  lemma {:induction false} FilterMapEntries<A, B>(s: seq<A>, f: A -> Option<B>)
    ensures var r := FilterMap(s, f);
            && (forall i :: 0 <= i < |r| ==> exists k :: 0 <= k < |s| && f(s[k]) == Some(r[i]))
            && (forall k :: 0 <= k < |s| && f(s[k]).Some? ==> f(s[k]).value in r)
            && ((forall k :: 0 <= k < |s| ==> f(s[k]).Some?) ==>
                  |r| == |s| && forall k :: 0 <= k < |s| ==> r[k] == f(s[k]).value)
            && ((forall k :: 0 <= k < |s| ==> f(s[k]).None?) ==> r == [])
  {
    if s != [] {
      FilterMapEntries(s[1..], f);
      assert forall k :: 1 <= k < |s| ==> s[k] == s[1..][k - 1];
    }
  }

  /** Keeping elements distributes over concatenation: order is preserved. */
  lemma {:induction false} FilterMapAppend<A, B>(a: seq<A>, b: seq<A>, f: A -> Option<B>)
    ensures FilterMap(a + b, f) == FilterMap(a, f) + FilterMap(b, f)
  {
    if a == [] {
      assert a + b == b;
    } else {
      assert (a + b)[1..] == a[1..] + b;
      FilterMapAppend(a[1..], b, f);
    }
  }

  /** On one element, the result is that element's image, or nothing. */
  lemma FilterMapSingleton<A, B>(x: A, f: A -> Option<B>)
    ensures FilterMap([x], f) == if f(x).Some? then [f(x).value] else []
  {
    assert [x][1..] == [];
  }

  /** If `g` undoes `f` on every element, filtering through `f` then `g`
      gives back the original sequence. */
  lemma {:induction false} FilterMapRoundTrip<A, B>(s: seq<A>, f: A -> Option<B>, g: B -> Option<A>)
    requires forall k :: 0 <= k < |s| ==> f(s[k]).Some? && g(f(s[k]).value) == Some(s[k])
    ensures FilterMap(FilterMap(s, f), g) == s
  {
    if s != [] {
      var y := f(s[0]).value;
      var rest := FilterMap(s[1..], f);
      assert FilterMap(s, f) == [y] + rest;
      assert forall k :: 0 <= k < |s| - 1 ==> s[1..][k] == s[k + 1];
      FilterMapRoundTrip(s[1..], f, g);
      FilterMapAppend([y], rest, g);
      FilterMapSingleton(y, g);
      assert s == [s[0]] + s[1..];
    }
  }

  /** `s.filter(p)`. */
  function Filter<T>(s: seq<T>, p: T -> bool): (r: seq<T>)
    ensures |r| <= |s|
    ensures forall i :: 0 <= i < |r| ==> r[i] in s && p(r[i])
    ensures forall k :: 0 <= k < |s| && p(s[k]) ==> s[k] in r
  {
    FilterMapEntries(s, Keeper(p));
    FilterMap(s, Keeper(p))
  }

  /** `p` as a map that drops the rejected elements. */
  function Keeper<T>(p: T -> bool): T -> Option<T> {
    x => if p(x) then Some(x) else None
  }

  /** Filtering with a predicate that holds everywhere changes nothing. */
  lemma FilterAll<T>(s: seq<T>, p: T -> bool)
    requires forall k :: 0 <= k < |s| ==> p(s[k])
    ensures Filter(s, p) == s
  {
    FilterMapEntries(s, Keeper(p));
  }

  /** Filtering keeps order and multiplicity: a concatenation is filtered
      part by part. */
  lemma FilterAppend<T>(a: seq<T>, b: seq<T>, p: T -> bool)
    ensures Filter(a + b, p) == Filter(a, p) + Filter(b, p)
  {
    FilterMapAppend(a, b, Keeper(p));
  }

  /** A single element is kept exactly when it satisfies the predicate. */
  lemma FilterSingleton<T>(x: T, p: T -> bool)
    ensures Filter([x], p) == if p(x) then [x] else []
  {
    FilterMapSingleton(x, Keeper(p));
  }

  /** Filtering after appending an element the predicate rejects is filtering
      without it. */
  lemma FilterAppendRejected<T>(s: seq<T>, x: T, p: T -> bool)
    requires !p(x)
    ensures Filter(s + [x], p) == Filter(s, p)
  {
    FilterMapAppend(s, [x], Keeper(p));
    FilterMapSingleton(x, Keeper(p));
  }

  /** `parts.join(sep)`. */
  function Join(parts: seq<string>, sep: string): (r: string)
    ensures parts != [] ==> |parts[0]| <= |r| && r[..|parts[0]|] == parts[0]
    ensures |parts| == 1 ==> r == parts[0]
    ensures |parts| > 1 ==> r == parts[0] + sep + Join(parts[1..], sep)
  {
    if parts == [] then ""
    else if |parts| == 1 then parts[0]
    else parts[0] + sep + Join(parts[1..], sep)
  }

  /** Two parts join around one separator. */
  lemma JoinTwo(a: string, b: string, sep: string)
    ensures Join([a, b], sep) == a + sep + b
  {
    assert [a, b][1..] == [b];
  }

  // ---------------------------------------------------------------------
  // Characters and String.prototype.trim

  /** ECMAScript LineTerminator: LF, CR, LINE SEPARATOR, PARAGRAPH SEPARATOR. */
  predicate IsLineTerminator(c: char) {
    c == '\n' || c == '\r' || c as int == 0x2028 || c as int == 0x2029
  }

  /** ECMAScript WhiteSpace: TAB, VT, FF, ZWNBSP and the space separators (Zs). */
  predicate IsWhiteSpace(c: char) {
    var n := c as int;
    n == 0x9 || n == 0xB || n == 0xC || n == 0x20 || n == 0xA0 || n == 0xFEFF
    || n == 0x1680 || (0x2000 <= n <= 0x200A) || n == 0x202F || n == 0x205F || n == 0x3000
  }

  /** What `trim` removes. */
  predicate IsTrimmed(c: char) {
    IsWhiteSpace(c) || IsLineTerminator(c)
  }

  predicate AllTrimmed(s: string) {
    forall k :: 0 <= k < |s| ==> IsTrimmed(s[k])
  }

  /** The first position from `i` on, and before `b`, that `trim` keeps. */
  function KeptFrom(s: string, i: nat, b: nat): (a: nat)
    requires i <= b <= |s|
    ensures i <= a <= b
    ensures forall k :: i <= k < a ==> IsTrimmed(s[k])
    ensures a < b ==> !IsTrimmed(s[a])
    decreases b - i
  {
    if i == b || !IsTrimmed(s[i]) then i else KeptFrom(s, i + 1, b)
  }

  /** The end of what `trim` keeps, scanning back from `j`. */
  function KeptTo(s: string, j: nat): (b: nat)
    requires j <= |s|
    ensures b <= j
    ensures forall k :: b <= k < j ==> IsTrimmed(s[k])
    ensures b > 0 ==> !IsTrimmed(s[b - 1])
  {
    if j == 0 || !IsTrimmed(s[j - 1]) then j else KeptTo(s, j - 1)
  }

  /** `r` sits at `a` in `s` with only white space around it. */
  predicate SliceAt(s: string, r: string, a: int) {
    0 <= a <= |s| - |r| && r == s[a..a + |r|] && AllTrimmed(s[..a]) && AllTrimmed(s[a + |r|..])
  }

  /** The slice between a kept first and a kept last position has only
      white space around it, and it is empty exactly when `s` is all white
      space. */
  lemma TrimSlice(s: string, a: nat, b: nat)
    requires a <= b <= |s|
    requires forall k :: 0 <= k < a ==> IsTrimmed(s[k])
    requires forall k :: b <= k < |s| ==> IsTrimmed(s[k])
    requires a < b ==> !IsTrimmed(s[a])
    requires b > 0 ==> !IsTrimmed(s[b - 1])
    ensures SliceAt(s, s[a..b], a)
    ensures s[a..b] == [] || (!IsTrimmed(s[a..b][0]) && !IsTrimmed(s[a..b][b - a - 1]))
    ensures s[a..b] == [] <==> AllTrimmed(s)
  {
    assert forall k :: 0 <= k < a ==> s[..a][k] == s[k];
    assert forall k :: 0 <= k < |s| - b ==> s[b..][k] == s[b + k];
    assert a == b ==> b == 0 && s[b..] == s;
  }

  /** `s.trim()`: a contiguous slice of `s`, everything around it white
      space, and itself neither starting nor ending with white space. */
  function Trim(s: string): (r: string)
    ensures |r| <= |s|
    ensures exists a :: SliceAt(s, r, a)
    ensures r == [] || (!IsTrimmed(r[0]) && !IsTrimmed(r[|r| - 1]))
    ensures r == [] <==> AllTrimmed(s)
  {
    var b := KeptTo(s, |s|);
    var a := KeptFrom(s, 0, b);
    TrimSlice(s, a, b);
    s[a..b]
  }

  /** Trimming twice is trimming once. */
  lemma TrimIdempotent(s: string)
    ensures Trim(Trim(s)) == Trim(s)
  {
    var t := Trim(s);
    var u := Trim(t);
    if t != [] {
      var a :| SliceAt(t, u, a);
      assert u == t[0..|t|];
    }
  }

  // ---------------------------------------------------------------------
  // Decimal rendering of a non-negative integer, as `${n}` does

  predicate IsDigits(s: string) {
    forall k :: 0 <= k < |s| ==> '0' <= s[k] <= '9'
  }

  function DigitChar(d: nat): (c: char)
    requires d < 10
    ensures '0' <= c <= '9' && c as int - '0' as int == d
  {
    ('0' as int + d) as char
  }

  /** `${n}` for a non-negative integer. */
  function Decimal(n: nat): (r: string)
    ensures r != [] && IsDigits(r)
  {
    if n < 10 then [DigitChar(n)] else Decimal(n / 10) + [DigitChar(n % 10)]
  }

  /** The number a string of digits denotes. */
  function DecimalValue(s: string): nat
    requires IsDigits(s)
  {
    if s == [] then 0 else DecimalValue(s[..|s| - 1]) * 10 + (s[|s| - 1] as int - '0' as int)
  }

  /** Reading back the rendering gives the number. */
  lemma {:induction false} DecimalRoundTrip(n: nat)
    ensures DecimalValue(Decimal(n)) == n
  {
    if n >= 10 {
      DecimalRoundTrip(n / 10);
      var s := Decimal(n);
      assert s[..|s| - 1] == Decimal(n / 10);
    }
  }

  /** Distinct numbers render to distinct strings. */
  lemma DecimalInjective(m: nat, n: nat)
    requires Decimal(m) == Decimal(n)
    ensures m == n
  {
    DecimalRoundTrip(m);
    DecimalRoundTrip(n);
  }
}
