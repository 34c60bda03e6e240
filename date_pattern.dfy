/** The date pattern of the rule-based extractor,
    `(\d{2}[./-]\d{2}[./-]\d{2,4})`, searched with `re.search`. The two
    separators are independent classes, and nothing checks that the text is
    a calendar date. */
module DatePattern {
  import opened Options
  import opened Chars
  import opened Strings
  import opened Scan

  /** `s[i..i+8]` is the shortest text the pattern accepts: two digits, a
      separator, two digits, a separator, two digits. */
  ghost predicate ShapeAt(s: Str, i: nat) {
    && i + 8 <= |s|
    && IsDigit(s[i]) && IsDigit(s[i + 1])
    && IsDateSep(s[i + 2])
    && IsDigit(s[i + 3]) && IsDigit(s[i + 4])
    && IsDateSep(s[i + 5])
    && IsDigit(s[i + 6]) && IsDigit(s[i + 7])
  }

  /** `s[i..e]` is a text the pattern accepts: the shape above followed by
      at most two more year digits. */
  ghost predicate SpanAt(s: Str, i: nat, e: nat) {
    ShapeAt(s, i) && i + 8 <= e <= i + 10 && AllIn(s, i + 8, e, IsDigit)
  }

  /** The match of the pattern starting at `i`, as its end position. The
      year quantifier `\d{2,4}` is greedy, so the match is the longest
      accepted text, and a match exists exactly when the shape is there. */
  function MatchAt(s: Str, i: nat): (r: Option<nat>)
    ensures r.Some? <==> ShapeAt(s, i)
    ensures r.Some? ==> SpanAt(s, i, r.value)
    ensures forall e: nat :: SpanAt(s, i, e) ==> r.Some? && e <= r.value
  {
    var p1 :- Between(s, i, IsDigit, 2, 2);
    var p2 :- One(s, p1, IsDateSep);
    var p3 :- Between(s, p2, IsDigit, 2, 2);
    var p4 :- One(s, p3, IsDateSep);
    var e :- Between(s, p4, IsDigit, 2, 4);
    YearIsLongest(s, i, e);
    Some(e)
  }

  lemma YearIsLongest(s: Str, i: nat, e: nat)
    requires ShapeAt(s, i)
    requires e == i + 6 + Run(s, i + 6, IsDigit, 4)
    ensures forall e': nat :: SpanAt(s, i, e') ==> e' <= e
  {
    forall e': nat | SpanAt(s, i, e') ensures e' <= e {
      RunIsLongest(s, i + 6, e', IsDigit, 4);
    }
  }

  /** `s[i..e]` is what `re.search` returns: an accepted text, the longest
      one from `i`, and no match starts further left. */
  ghost predicate IsLeftmost(s: Str, i: nat, e: nat) {
    && SpanAt(s, i, e)
    && (forall e': nat :: SpanAt(s, i, e') ==> e' <= e)
    && (forall j: nat :: j < i ==> !ShapeAt(s, j))
  }

  /** `re.search` with the date pattern: the span of the match, if any. */
  function Find(s: Str): (r: Option<(nat, nat)>)
    ensures r.None? <==> forall i: nat :: !ShapeAt(s, i)
    ensures r.Some? ==> IsLeftmost(s, r.value.0, r.value.1)
  {
    match Search(s, 0, MatchAt)
    case Some((i, e)) =>
      forall j: nat | j < i ensures !ShapeAt(s, j) {
        assert MatchAt(s, j).None?;
      }
      Some((i, e))
    case None =>
      forall j: nat ensures !ShapeAt(s, j) {
        if j <= |s| { assert MatchAt(s, j).None?; }
      }
      None
  }

  /** The search result is determined by the text: at most one span is the
      leftmost longest one. */
  lemma LeftmostIsUnique(s: Str, i: nat, e: nat, i': nat, e': nat)
    requires IsLeftmost(s, i, e) && IsLeftmost(s, i', e')
    ensures i == i' && e == e'
  {
  }

  /** An accepted span, cut out of its text, is accepted on its own. */
  lemma SpanOnItsOwn(s: Str, i: nat, e: nat)
    requires SpanAt(s, i, e)
    ensures SpanAt(s[i..e], 0, e - i)
  {
    var v := s[i..e];
    assert forall k :: 0 <= k < e - i ==> v[k] == s[i + k];
  }
}
