/** The building blocks of the three hand-written matchers: greedy runs of a
    character class, single and optional characters, and `re.search`, which
    tries a matcher at every start position from left to right. */
module Scan {
  import opened Options
  import opened Strings

  /** Every character of `s[lo..hi]` belongs to the class `cls`. */
  ghost predicate AllIn(s: Str, lo: nat, hi: nat, cls: char -> bool) {
    lo <= hi <= |s| && forall k :: lo <= k < hi ==> cls(s[k])
  }

  /** The length of the longest run of `cls` characters starting at `i`,
      capped at `max`: the greedy quantifier `cls{0,max}`. */
  function Run(s: Str, i: nat, cls: char -> bool, max: nat): (n: nat)
    ensures n <= max
    ensures i <= |s| ==> AllIn(s, i, i + n, cls)
    ensures i > |s| ==> n == 0
    ensures n < max && i + n < |s| ==> !cls(s[i + n])
    decreases max
  {
    if max == 0 || i >= |s| || !cls(s[i]) then 0
    else 1 + Run(s, i + 1, cls, max - 1)
  }

  /** A run of `cls` characters that ends where the class stops holding (or
      at the cap) is exactly what `Run` measures. */
  lemma {:induction false} RunIsLongest(s: Str, i: nat, j: nat, cls: char -> bool, max: nat)
    requires AllIn(s, i, j, cls)
    requires j - i <= max
    ensures j - i <= Run(s, i, cls, max)
    ensures (j - i == max || j == |s| || !cls(s[j])) ==> Run(s, i, cls, max) == j - i
    decreases j - i
  {
    if i < j {
      RunIsLongest(s, i + 1, j, cls, max - 1);
    }
  }

  /** A run of `cls` characters cannot reach past a position where the
      class does not hold. */
  lemma StopsAt(s: Str, lo: nat, hi: nat, cls: char -> bool, k: nat)
    requires AllIn(s, lo, hi, cls)
    requires lo <= k
    requires k == |s| || (k < |s| && !cls(s[k]))
    ensures hi <= k
  {
  }

  /** `cls{min,max}` (greedy): the end of the longest run of at most `max`
      characters, or no match when it is shorter than `min`. What it takes
      is `min` to `max` class characters, ending at the cap, the end of the
      text or a character outside the class; and it fails only when the
      first `min` characters are not all in the class. */
  function Between(s: Str, i: nat, cls: char -> bool, min: nat, max: nat): (r: Option<nat>)
    ensures r.Some? <==> Run(s, i, cls, max) >= min
    ensures r.Some? ==> r.value == i + Run(s, i, cls, max)
    ensures r.Some? && i <= |s| ==> i + min <= r.value <= i + max && AllIn(s, i, r.value, cls)
    ensures r.Some? && i <= |s| ==> r.value == i + max || r.value == |s| || !cls(s[r.value])
    ensures min <= max && AllIn(s, i, i + min, cls) ==> r.Some?
  {
    var n := Run(s, i, cls, max);
    if n >= min then Some(i + n) else None
  }

  /** `cls*` (greedy): the end of the longest run. */
  function Star(s: Str, i: nat, cls: char -> bool): (e: nat)
    requires i <= |s|
    ensures AllIn(s, i, e, cls)
    ensures e == |s| || !cls(s[e])
  {
    i + Run(s, i, cls, |s| - i)
  }

  /** `cls+` (greedy). */
  function Plus(s: Str, i: nat, cls: char -> bool): (r: Option<nat>)
    requires i <= |s|
    ensures r.Some? <==> i < |s| && cls(s[i])
    ensures r.Some? ==> i < r.value && AllIn(s, i, r.value, cls)
    ensures r.Some? ==> r.value == |s| || !cls(s[r.value])
  {
    if i < |s| && cls(s[i]) then Some(Star(s, i, cls)) else None
  }

  /** `cls`: exactly one character of the class. */
  function One(s: Str, i: nat, cls: char -> bool): (r: Option<nat>)
    ensures r.Some? <==> i < |s| && cls(s[i])
    ensures r.Some? ==> r.value == i + 1
  {
    if i < |s| && cls(s[i]) then Some(i + 1) else None
  }

  /** `cls?` (greedy): takes the character when it is there. */
  function Opt(s: Str, i: nat, cls: char -> bool): (e: nat)
    ensures i < |s| && cls(s[i]) ==> e == i + 1
    ensures !(i < |s| && cls(s[i])) ==> e == i
  {
    if i < |s| && cls(s[i]) then i + 1 else i
  }

  /** `re.search`: the first start position, from `from` up to and including
      `|s|`, at which the matcher `at` succeeds, with what it matched. */
  function Search<M>(s: Str, from: nat, at: (Str, nat) -> Option<M>): (r: Option<(nat, M)>)
    requires from <= |s|
    ensures r.Some? ==> from <= r.value.0 <= |s| && at(s, r.value.0) == Some(r.value.1)
    ensures r.Some? ==> forall j :: from <= j < r.value.0 ==> at(s, j).None?
    ensures r.None? ==> forall j :: from <= j <= |s| ==> at(s, j).None?
    decreases |s| - from
  {
    match at(s, from)
    case Some(m) => Some((from, m))
    case None => if from == |s| then None else Search(s, from + 1, at)
  }

  /** A matcher that succeeds at `i` and at no earlier position makes
      `re.search` report `i`. */
  lemma SearchIsFirst<M>(s: Str, from: nat, at: (Str, nat) -> Option<M>, i: nat, m: M)
    requires from <= i <= |s|
    requires at(s, i) == Some(m)
    requires forall j :: from <= j < i ==> at(s, j).None?
    ensures Search(s, from, at) == Some((i, m))
  {
  }
}
