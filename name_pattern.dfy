/** The name pattern of the rule-based extractor,
    `(?:ФИО|Имя)\s*[:\-]?\s*([А-ЯЁ][а-яё]+\s[А-ЯЁ]\.[А-ЯЁ]\.)`, searched
    case-sensitively with `re.search`. The label is required; only the text
    after it is captured. */
module NamePattern {
  import opened Options
  import opened Chars
  import opened Strings
  import opened Scan

  /** `(?:ФИО|Имя)` at `i`. */
  predicate LabelAt(s: Str, i: nat) {
    i + 3 <= |s| && (s[i..i + 3] == "ФИО" || s[i..i + 3] == "Имя")
  }

  /** `\s*[:\-]?\s*` after the label at `i`, ending at `c`: whitespace up to
      `a`, an optional separator up to `b`, whitespace up to `c`. */
  ghost predicate LabelGap(s: Str, i: nat, a: nat, b: nat, c: nat) {
    && i + 3 <= a && AllIn(s, i + 3, a, IsSpace)
    && (b == a || (b == a + 1 && a < |s| && IsLabelSep(s[a])))
    && AllIn(s, b, c, IsSpace)
  }

  /** `[А-ЯЁ][а-яё]+\s[А-ЯЁ]\.[А-ЯЁ]\.` at `c`, cut at the end `d` of the
      lower-case letters: a capital letter, lower-case letters, one
      whitespace character and two initials, each a capital letter and a
      dot. The name ends at `d + 5`. */
  ghost predicate NameShape(s: Str, c: nat, d: nat) {
    && c + 1 < d && d + 5 <= |s|
    && IsUpperCyrillic(s[c])
    && AllIn(s, c + 1, d, IsLowerCyrillic)
    && IsSpace(s[d])
    && IsUpperCyrillic(s[d + 1]) && s[d + 2] == '.'
    && IsUpperCyrillic(s[d + 3]) && s[d + 4] == '.'
  }

  /** `s[i..e]` is a text the pattern accepts, cut at its parts: the label
      `s[i..i+3]`, the gap up to `c`, then the captured name `s[c..e]`. */
  ghost predicate Parse(s: Str, i: nat, a: nat, b: nat, c: nat, d: nat, e: nat) {
    LabelAt(s, i) && LabelGap(s, i, a, b, c) && NameShape(s, c, d) && e == d + 5
  }

  /** The pattern matches from `i` and captures `s[c..e]`. */
  ghost predicate SpanAt(s: Str, i: nat, c: nat, e: nat) {
    exists a: nat, b: nat, d: nat :: Parse(s, i, a, b, c, d, e)
  }

  /** `\s*[:\-]?\s*` after the label at `i`, run greedily: where the name
      starts. What it skips is a gap the pattern accepts, and it stops only
      at the end of the text or at a character that is not whitespace. */
  function AfterLabel(s: Str, i: nat): (c: nat)
    requires LabelAt(s, i)
    ensures exists a: nat, b: nat :: LabelGap(s, i, a, b, c)
    ensures c == |s| || !IsSpace(s[c])
  {
    var p1 := Star(s, i + 3, IsSpace);
    var p2 := Opt(s, p1, IsLabelSep);
    var c := Star(s, p2, IsSpace);
    assert LabelGap(s, i, p1, p2, c);
    c
  }

  /** `[А-ЯЁ][а-яё]+\s[А-ЯЁ]\.[А-ЯЁ]\.` at `c`, run greedily: the end of the
      name. It succeeds exactly when a name starts at `c`, and then ends
      where that name ends (the name has only one possible cut). */
  function NameAt(s: Str, c: nat): (r: Option<nat>)
    requires c <= |s|
    ensures r.Some? ==> r.value >= 5 && NameShape(s, c, r.value - 5)
    ensures forall d: nat :: NameShape(s, c, d) ==> r == Some(d + 5)
  {
    forall d: nat | NameShape(s, c, d) ensures Plus(s, c + 1, IsLowerCyrillic) == Some(d) {
      LowerRunIsGreedy(s, c, d);
    }
    var p4 :- One(s, c, IsUpperCyrillic);
    var p5 :- Plus(s, p4, IsLowerCyrillic);
    var p6 :- One(s, p5, IsSpace);
    var p7 :- One(s, p6, IsUpperCyrillic);
    var p8 :- One(s, p7, IsDot);
    var p9 :- One(s, p8, IsUpperCyrillic);
    One(s, p9, IsDot)
  }

  /** The match of the pattern starting at `i`, as the span of its group:
      it is found exactly when the pattern accepts a span from `i`, and it
      is that span. Every quantifier is followed by a character it cannot
      take, so the greedy path is the only way to match (lemmas
      MatchIsSound and MatchIsComplete). */
  function MatchAt(s: Str, i: nat): (r: Option<(nat, nat)>)
    ensures forall c: nat, e: nat :: r == Some((c, e)) <==> SpanAt(s, i, c, e)
  {
    if !LabelAt(s, i) then None
    else
      forall c: nat, e: nat | SpanAt(s, i, c, e)
        ensures AfterLabel(s, i) == c && NameAt(s, c) == Some(e)
      {
        var a: nat, b: nat, d: nat :| Parse(s, i, a, b, c, d, e);
        MatchIsComplete(s, i, a, b, c, d, e);
      }
      var c := AfterLabel(s, i);
      var e :- NameAt(s, c);
      MatchIsSound(s, i);
      Some((c, e))
  }

  /** What the greedy path returns is a span the pattern accepts: label,
      whitespace, optional `:`/`-`, whitespace, then the name. */
  lemma MatchIsSound(s: Str, i: nat)
    requires LabelAt(s, i) && NameAt(s, AfterLabel(s, i)).Some?
    ensures SpanAt(s, i, AfterLabel(s, i), NameAt(s, AfterLabel(s, i)).value)
  {
    var c := AfterLabel(s, i);
    var a: nat, b: nat :| LabelGap(s, i, a, b, c);
    var e := NameAt(s, c).value;
    assert Parse(s, i, a, b, c, e - 5, e);
  }

  /** Whatever way a text is parsed as a match from `i`, the greedy path
      finds the same name start and the same name end. */
  lemma MatchIsComplete(s: Str, i: nat, a: nat, b: nat, c: nat, d: nat, e: nat)
    requires Parse(s, i, a, b, c, d, e)
    ensures AfterLabel(s, i) == c && NameAt(s, c) == Some(e)
  {
    AfterLabelIsGreedy(s, i, a, b, c);
  }

  /** `\s*[:\-]?\s*` skipped greedily lands exactly where any accepted gap
      that is followed by a capital letter ends. */
  lemma AfterLabelIsGreedy(s: Str, i: nat, a: nat, b: nat, c: nat)
    requires LabelAt(s, i) && LabelGap(s, i, a, b, c)
    requires c < |s| && IsUpperCyrillic(s[c])
    ensures AfterLabel(s, i) == c
  {
    var p1 := Star(s, i + 3, IsSpace);
    var p2 := Opt(s, p1, IsLabelSep);
    if b == a {
      // no separator: one whitespace run from the label to the name
      assert AllIn(s, i + 3, c, IsSpace);
      WhitespaceRunIsGreedy(s, i + 3, c);
      WhitespaceRunIsGreedy(s, p2, c);
    } else {
      // the separator ends the first whitespace run
      WhitespaceRunIsGreedy(s, i + 3, a);
      WhitespaceRunIsGreedy(s, b, c);
    }
  }

  /** A whitespace run followed by a character that is not whitespace is
      what `Star` takes. */
  lemma WhitespaceRunIsGreedy(s: Str, lo: nat, hi: nat)
    requires AllIn(s, lo, hi, IsSpace)
    requires hi < |s| && !IsSpace(s[hi])
    ensures Star(s, lo, IsSpace) == hi
  {
    var e := Star(s, lo, IsSpace);
    StopsAt(s, lo, e, IsSpace, hi);
    StopsAt(s, lo, hi, IsSpace, e);
  }

  lemma LowerRunIsGreedy(s: Str, c: nat, d: nat)
    requires c + 1 < d < |s|
    requires AllIn(s, c + 1, d, IsLowerCyrillic)
    requires IsSpace(s[d])
    ensures Plus(s, c + 1, IsLowerCyrillic) == Some(d)
  {
    var p5 := Star(s, c + 1, IsLowerCyrillic);
    StopsAt(s, c + 1, p5, IsLowerCyrillic, d);
    StopsAt(s, c + 1, d, IsLowerCyrillic, p5);
  }

  /** `s[c..e]` is what `re.search` captures: the pattern matches from the
      label at `i`, and from no label further left. */
  ghost predicate IsLeftmost(s: Str, i: nat, c: nat, e: nat) {
    && SpanAt(s, i, c, e)
    && forall j: nat, c': nat, e': nat :: j < i ==> !SpanAt(s, j, c', e')
  }

  /** `re.search` with the name pattern: the start of the match and the
      span of the captured name. */
  function Find(s: Str): (r: Option<(nat, (nat, nat))>)
    ensures r.None? <==> forall i: nat, c: nat, e: nat :: !SpanAt(s, i, c, e)
    ensures r.Some? ==> IsLeftmost(s, r.value.0, r.value.1.0, r.value.1.1)
  {
    match Search(s, 0, MatchAt)
    case Some((i, g)) =>
      forall j: nat, c': nat, e': nat | j < i ensures !SpanAt(s, j, c', e') {
        assert MatchAt(s, j).None?;
      }
      Some((i, g))
    case None =>
      forall j: nat, c': nat, e': nat ensures !SpanAt(s, j, c', e') {
        if j <= |s| {
          assert MatchAt(s, j).None?;
        } else {
          assert !LabelAt(s, j);
        }
      }
      None
  }

  /** `v` is a name the group captures: a capital letter, lower-case
      letters, one whitespace character, and two initials, each a capital
      letter and a dot. */
  ghost predicate NameText(v: Str) {
    && |v| >= 7
    && IsUpperCyrillic(v[0])
    && AllIn(v, 1, |v| - 5, IsLowerCyrillic)
    && IsSpace(v[|v| - 5])
    && IsUpperCyrillic(v[|v| - 4]) && v[|v| - 3] == '.'
    && IsUpperCyrillic(v[|v| - 2]) && v[|v| - 1] == '.'
  }

  /** A captured span reads as a name, and it starts after the label. */
  lemma CapturedIsName(s: Str, i: nat, c: nat, e: nat)
    requires SpanAt(s, i, c, e)
    ensures LabelAt(s, i) && i + 3 <= c
    ensures NameText(s[c..e])
  {
    var a: nat, b: nat, d: nat :| Parse(s, i, a, b, c, d, e);
    var v := s[c..e];
    assert forall k :: 0 <= k < e - c ==> v[k] == s[c + k];
  }

  /** Without the case-sensitive label `ФИО` or `Имя` there is no match. */
  lemma NoLabelNoMatch(s: Str)
    requires forall i: nat :: !LabelAt(s, i)
    ensures Find(s).None?
  {
  }
}
