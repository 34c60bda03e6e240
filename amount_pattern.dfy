/** The amount pattern of the rule-based extractor,
    `([\d\s]+[,.]?\d*)\s?(тг|₸|KZT|руб|₽)?` with `re.IGNORECASE`, searched
    with `re.search`.

    Everything after `[\d\s]+` may match the empty text, so the first path
    the backtracking engine tries (every quantifier greedy, the currency
    group attempted before it is skipped) always succeeds and is the match.
    A match therefore starts at the first digit or whitespace character. */
module AmountPattern {
  import opened Options
  import opened Chars
  import opened Strings
  import opened Scan

  /** The alternatives of the currency group, in the order they are tried. */
  const Tokens: seq<Str> := ["тг", "₸", "KZT", "руб", "₽"]

  /** `s[p..]` starts with `t`, compared character by character under
      `re.IGNORECASE`. */
  predicate FoldPrefixAt(s: Str, p: nat, t: Str) {
    p + |t| <= |s| && forall k :: 0 <= k < |t| ==> FoldEq(s[p + k], t[k])
  }

  /** An alternation `t0|t1|...` at `p`: the end of the first alternative
      that matches. */
  function FirstAlternative(s: Str, p: nat, alts: seq<Str>): (r: Option<nat>)
    ensures r.None? <==> forall t :: t in alts ==> !FoldPrefixAt(s, p, t)
    ensures r.Some? ==> exists k :: 0 <= k < |alts| && FoldPrefixAt(s, p, alts[k])
                          && r.value == p + |alts[k]|
                          && forall j :: 0 <= j < k ==> !FoldPrefixAt(s, p, alts[j])
  {
    if alts == [] then None
    else if FoldPrefixAt(s, p, alts[0]) then Some(p + |alts[0]|)
    else
      var r := FirstAlternative(s, p, alts[1..]);
      assert forall t :: t in alts ==> t == alts[0] || t in alts[1..];
      if r.Some? then
        var k :| 0 <= k < |alts[1..]| && FoldPrefixAt(s, p, alts[1..][k])
                 && r.value == p + |alts[1..][k]|
                 && forall j :: 0 <= j < k ==> !FoldPrefixAt(s, p, alts[1..][j]);
        assert FoldPrefixAt(s, p, alts[k + 1]);
        r
      else
        r
  }

  /** The spans of the two groups of a match: group 1 (the number) ends at
      `numberEnd`; group 2 (the currency token) is present or not. */
  datatype Groups = Groups(numberEnd: nat, currency: Option<(nat, nat)>)

  /** `s[i..e]` is a text `[\d\s]+[,.]?\d*` accepts: the run ends at `p`, the
      optional separator at `q`. */
  ghost predicate NumberParse(s: Str, i: nat, p: nat, q: nat, e: nat) {
    && i < p
    && AllIn(s, i, p, IsDigitOrSpace)
    && (q == p || (q == p + 1 && p < |s| && IsDecimalSep(s[p])))
    && AllIn(s, q, e, IsDigit)
  }

  /** The groups of a match from `i` lie inside the text, the number
      first and the currency token after it. */
  predicate Bounded(s: Str, i: nat, g: Groups) {
    && i < g.numberEnd <= |s|
    && (g.currency.Some? ==> g.numberEnd <= g.currency.value.0 <= g.currency.value.1 <= |s|)
  }

  /** Where the currency group is tried after a number ending at `e`: `\s?`
      takes one whitespace character when there is one. */
  function CurrencyStart(s: Str, e: nat): nat {
    if e < |s| && IsSpace(s[e]) then e + 1 else e
  }

  /** The currency group tried at `c`: present exactly when one of the
      tokens is there, and then it spans that token. */
  ghost predicate CurrencyGroup(s: Str, c: nat, g: Option<(nat, nat)>) {
    && (g.None? <==> forall t :: t in Tokens ==> !FoldPrefixAt(s, c, t))
    && (g.Some? ==> g.value.0 == c && exists t :: t in Tokens && FoldPrefixAt(s, c, t) && g.value.1 == c + |t|)
  }

  /** The match of the pattern starting at `i`. It exists exactly when
      `s[i]` is a digit or whitespace; group 1 is the longest text from `i`
      that `[\d\s]+[,.]?\d*` accepts, and group 2 is the token found right
      after it, past at most one whitespace character. */
  function MatchAt(s: Str, i: nat): (r: Option<Groups>)
    ensures r.Some? <==> i < |s| && IsDigitOrSpace(s[i])
    ensures r.Some? ==> Bounded(s, i, r.value)
    ensures r.Some? ==> exists p: nat, q: nat :: NumberParse(s, i, p, q, r.value.numberEnd)
    ensures r.Some? ==> forall p: nat, q: nat, e: nat :: NumberParse(s, i, p, q, e) ==> e <= r.value.numberEnd
    ensures r.Some? ==> CurrencyGroup(s, CurrencyStart(s, r.value.numberEnd), r.value.currency)
  {
    if i > |s| then None
    else
      var p1 :- Plus(s, i, IsDigitOrSpace);
      var p2 := Opt(s, p1, IsDecimalSep);
      var p3 := Star(s, p2, IsDigit);
      var p4 := Opt(s, p3, IsSpace);
      var currency := match FirstAlternative(s, p4, Tokens)
        case Some(e) => Some((p4, e))
        case None => None;
      assert NumberParse(s, i, p1, p2, p3);
      NumberIsLongest(s, i, p1, p2, p3);
      Some(Groups(p3, currency))
  }

  /** The greedy path (maximal run, separator when present, maximal digits)
      yields the longest number any parse accepts. */
  lemma NumberIsLongest(s: Str, i: nat, p1: nat, p2: nat, p3: nat)
    requires NumberParse(s, i, p1, p2, p3)
    requires p1 == |s| || !IsDigitOrSpace(s[p1])
    requires p2 == Opt(s, p1, IsDecimalSep)
    requires p3 == |s| || !IsDigit(s[p3])
    ensures forall p: nat, q: nat, e: nat :: NumberParse(s, i, p, q, e) ==> e <= p3
  {
    forall p: nat, q: nat, e: nat | NumberParse(s, i, p, q, e) ensures e <= p3 {
      StopsAt(s, i, p, IsDigitOrSpace, p1);
      if q == p {
        // digits are in `[\d\s]` as well: the parse is one run inside the greedy one
        StopsAt(s, i, e, IsDigitOrSpace, p1);
      } else {
        // a separator is not in `[\d\s]`: the greedy run ends exactly there
        StopsAt(s, i, p1, IsDigitOrSpace, p);
        StopsAt(s, q, e, IsDigit, p3);
      }
    }
  }

  /** `s[i..]` starts a match of the pattern with groups `g`: group 1 is
      the longest accepted number, group 2 follows the currency rule. */
  ghost predicate IsMatch(s: Str, i: nat, g: Groups) {
    && i < |s| && IsDigitOrSpace(s[i])
    && Bounded(s, i, g)
    && (exists p: nat, q: nat :: NumberParse(s, i, p, q, g.numberEnd))
    && (forall p: nat, q: nat, e: nat :: NumberParse(s, i, p, q, e) ==> e <= g.numberEnd)
    && CurrencyGroup(s, CurrencyStart(s, g.numberEnd), g.currency)
  }

  /** `re.search` with the amount pattern: the start of the match and its
      groups. A match exists exactly when the text holds a digit or a
      whitespace character, and it starts at the first one. */
  function Find(s: Str): (r: Option<(nat, Groups)>)
    ensures r.None? <==> forall k :: 0 <= k < |s| ==> !IsDigitOrSpace(s[k])
    ensures r.Some? ==> IsMatch(s, r.value.0, r.value.1)
    ensures r.Some? ==> forall k :: 0 <= k < r.value.0 ==> !IsDigitOrSpace(s[k])
  {
    match Search(s, 0, MatchAt)
    case Some((i, g)) =>
      forall k | 0 <= k < i ensures !IsDigitOrSpace(s[k]) {
        assert MatchAt(s, k).None?;
      }
      Some((i, g))
    case None =>
      forall k | 0 <= k < |s| ensures !IsDigitOrSpace(s[k]) {
        assert MatchAt(s, k).None?;
      }
      None
  }

  /** `v` reads as `[\d\s]*[,.]?\d*`: digits and whitespace, then at most
      one decimal separator, and only digits after it. */
  ghost predicate NumberText(v: Str) {
    exists j: nat :: j <= |v| && AllIn(v, 0, j, IsDigitOrSpace)
      && (AllIn(v, j, |v|, IsDigit) || (j < |v| && IsDecimalSep(v[j]) && AllIn(v, j + 1, |v|, IsDigit)))
  }

  /** Removing the spaces from an accepted number leaves a number text. */
  lemma CleanNumberText(s: Str, i: nat, p: nat, q: nat, e: nat)
    requires NumberParse(s, i, p, q, e)
    ensures NumberText(RemoveAll(s[i..e], ' '))
  {
    var run, sep, digits := NumberPieces(s, i, p, q, e);
    SpacesOnlyInFirst(run, sep, digits);
    var kept := RemoveAll(run, ' ');
    assert forall c :: c in kept ==> IsDigitOrSpace(c);
    PiecesMakeNumberText(kept, sep, digits);
  }

  /** An accepted number cut at its parts: the run, the separator (empty or
      one character) and the digits after it. */
  lemma NumberPieces(s: Str, i: nat, p: nat, q: nat, e: nat) returns (run: Str, sep: Str, digits: Str)
    requires NumberParse(s, i, p, q, e)
    ensures s[i..e] == run + sep + digits
    ensures forall c :: c in run ==> IsDigitOrSpace(c)
    ensures sep == [] || (|sep| == 1 && IsDecimalSep(sep[0]))
    ensures forall k :: 0 <= k < |digits| ==> IsDigit(digits[k])
    ensures ' ' !in sep && ' ' !in digits
  {
    run, sep, digits := s[i..p], s[p..q], s[q..e];
    assert forall k :: 0 <= k < |digits| ==> digits[k] == s[q + k];
    assert forall k :: 0 <= k < |run| ==> run[k] == s[i + k];
  }

  lemma SpacesOnlyInFirst(a: Str, b: Str, c: Str)
    requires ' ' !in b && ' ' !in c
    ensures RemoveAll(a + b + c, ' ') == RemoveAll(a, ' ') + b + c
  {
    RemoveAllAppend(a + b, c, ' ');
    RemoveAllAppend(a, b, ' ');
    RemoveAllAbsent(c, ' ');
    RemoveAllAbsent(b, ' ');
  }

  lemma PiecesMakeNumberText(kept: Str, sep: Str, digits: Str)
    requires forall c :: c in kept ==> IsDigitOrSpace(c)
    requires sep == [] || (|sep| == 1 && IsDecimalSep(sep[0]))
    requires forall k :: 0 <= k < |digits| ==> IsDigit(digits[k])
    ensures NumberText(kept + sep + digits)
  {
    var v, j := kept + sep + digits, |kept|;
    assert AllIn(v, 0, j, IsDigitOrSpace) by {
      forall k | 0 <= k < j ensures IsDigitOrSpace(v[k]) {
        assert v[k] == kept[k];
      }
    }
    if sep == [] {
      assert AllIn(v, j, |v|, IsDigit) by {
        forall k | j <= k < |v| ensures IsDigit(v[k]) {
          assert v[k] == digits[k - j];
        }
      }
    } else {
      assert v[j] == sep[0];
      assert AllIn(v, j + 1, |v|, IsDigit) by {
        forall k | j + 1 <= k < |v| ensures IsDigit(v[k]) {
          assert v[k] == digits[k - j - 1];
        }
      }
    }
  }

  /** A token found in the text, cut out of it, matches on its own. */
  lemma TokenOnItsOwn(s: Str, c: nat, t: Str)
    requires FoldPrefixAt(s, c, t)
    ensures FoldPrefixAt(s[c..c + |t|], 0, t)
  {
    var v := s[c..c + |t|];
    assert forall k :: 0 <= k < |t| ==> v[k] == s[c + k];
  }

  /** Group 2, cut out of the text, is one of the tokens up to case. */
  lemma GroupTwoIsToken(s: Str, c: nat, g: Option<(nat, nat)>)
    requires CurrencyGroup(s, c, g) && g.Some?
    ensures c == g.value.0 <= g.value.1 <= |s|
    ensures exists t :: t in Tokens && |s[c..g.value.1]| == |t| && FoldPrefixAt(s[c..g.value.1], 0, t)
  {
    var t :| t in Tokens && FoldPrefixAt(s, c, t) && g.value.1 == c + |t|;
    TokenOnItsOwn(s, c, t);
  }

  /** No currency token starts at `p` when the character there, lowered,
      is not the first character of one. */
  lemma NoTokenAt(s: Str, p: nat)
    requires p < |s| ==> Lower(s[p]) !in "т₸kр₽"
    ensures FirstAlternative(s, p, Tokens).None?
  {
    forall t | t in Tokens ensures !FoldPrefixAt(s, p, t) {
      assert Lower(t[0]) in "т₸kр₽";
    }
  }
}
