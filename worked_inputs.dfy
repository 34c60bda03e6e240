/** Worked inputs for the rule-based extractor, each stated as the whole
    mapping it yields. */
module WorkedInputs {
  import opened Options
  import opened Chars
  import opened Strings
  import opened Scan
  import opened Extractor
  import DatePattern
  import AmountPattern
  import NamePattern

  /** The year is taken greedily up to four digits, and the amount search
      stops at the first digit run: `01.02.20245` gives the date
      `01.02.2024` and the amount `01.02`. */
  lemma GreedyYear(s: Str)
    requires s == "01.02.20245"
    ensures Fields(s) == map[DateKey := "01.02.2024", AmountKey := "01.02", CurrencyKey := "₸"]
  {
    GreedyYearEntries(s);
    Assemble(s, map[DateKey := "01.02.2024"], map[AmountKey := "01.02", CurrencyKey := "₸"], map[]);
    DateAndAmount("01.02.2024", "01.02", "₸");
  }

  lemma GreedyYearEntries(s: Str)
    requires s == "01.02.20245"
    ensures DateField(s) == map[DateKey := "01.02.2024"]
    ensures AmountFields(s) == map[AmountKey := "01.02", CurrencyKey := "₸"]
    ensures NameField(s) == map[]
  {
    assert s[..5] == "01.02" && IsDateSep(s[5]);
    DayMonthAmount(s);
    GreedyYearDate(s);
    GreedyYearName(s);
  }

  lemma GreedyYearDate(s: Str)
    requires s == "01.02.20245"
    ensures DateField(s) == map[DateKey := "01.02.2024"]
  {
    assert s[0..10] == "01.02.2024";
    assert DatePattern.MatchAt(s, 0) == Some(10);
  }

  lemma GreedyYearName(s: Str)
    requires s == "01.02.20245"
    ensures NameField(s) == map[]
  {
    assert 'Ф' !in s && 'И' !in s;
    NoName(s);
  }

  /** The two date separators are chosen independently: `01.02-2024` is a
      date. */
  lemma MixedSeparators(s: Str)
    requires s == "01.02-2024"
    ensures Fields(s) == map[DateKey := "01.02-2024", AmountKey := "01.02", CurrencyKey := "₸"]
  {
    MixedSeparatorsEntries(s);
    Assemble(s, map[DateKey := "01.02-2024"], map[AmountKey := "01.02", CurrencyKey := "₸"], map[]);
    DateAndAmount("01.02-2024", "01.02", "₸");
  }

  lemma MixedSeparatorsEntries(s: Str)
    requires s == "01.02-2024"
    ensures DateField(s) == map[DateKey := "01.02-2024"]
    ensures AmountFields(s) == map[AmountKey := "01.02", CurrencyKey := "₸"]
    ensures NameField(s) == map[]
  {
    assert s[..5] == "01.02" && IsDateSep(s[5]);
    DayMonthAmount(s);
    MixedSeparatorsDate(s);
    MixedSeparatorsName(s);
  }

  lemma MixedSeparatorsDate(s: Str)
    requires s == "01.02-2024"
    ensures DateField(s) == map[DateKey := "01.02-2024"]
  {
    assert s[0..10] == s;
    assert DatePattern.MatchAt(s, 0) == Some(10);
  }

  lemma MixedSeparatorsName(s: Str)
    requires s == "01.02-2024"
    ensures NameField(s) == map[]
  {
    assert 'Ф' !in s && 'И' !in s;
    NoName(s);
  }

  /** The amount entries of a text starting `01.02` and a date separator. */
  lemma DayMonthAmount(s: Str)
    requires |s| > 5 && s[..5] == "01.02" && IsDateSep(s[5])
    ensures AmountFields(s) == map[AmountKey := "01.02", CurrencyKey := DefaultCurrency]
  {
    DayMonthMatch(s);
    FirstAmount(s, 0, AmountPattern.Groups(5, None));
    assert RemoveAll(s[0..5], ' ') == "01.02" by {
      assert s[0..5] == "01.02";
      RemoveAllAbsent(s[0..5], ' ');
    }
    AmountFieldsAre(s, 0, AmountPattern.Groups(5, None), "01.02", DefaultCurrency);
  }

  lemma DayMonthMatch(s: Str)
    requires |s| > 5 && s[..5] == "01.02" && IsDateSep(s[5])
    ensures AmountPattern.MatchAt(s, 0) == Some(AmountPattern.Groups(5, None))
  {
    assert s[0] == '0' && s[1] == '1' && s[2] == '.' && s[3] == '0' && s[4] == '2' by {
      assert forall k :: 0 <= k < 5 ==> s[k] == s[..5][k];
    }
    assert !IsDigitOrSpace(s[5]) && Lower(s[5]) !in "т₸kр₽";
    assert Plus(s, 0, IsDigitOrSpace) == Some(2) by {
      RunIsLongest(s, 0, 2, IsDigitOrSpace, |s|);
    }
    assert Star(s, 3, IsDigit) == 5 by {
      RunIsLongest(s, 3, 5, IsDigit, |s| - 3);
    }
    AmountPattern.NoTokenAt(s, 5);
    AmountWithoutToken(s, 0, 2, 3, 5, 5);
  }

  /** The label is required and left out of the value; the amount search
      takes the whitespace after the colon, an amount with no digits. */
  lemma NameAfterLabel(s: Str)
    requires s == "ФИО: Иванов А.Б."
    ensures Fields(s) == map[AmountKey := "", CurrencyKey := "₸", NameKey := "Иванов А.Б."]
  {
    NameAfterLabelEntries(s);
    Assemble(s, map[], map[AmountKey := "", CurrencyKey := "₸"], map[NameKey := "Иванов А.Б."]);
    AmountAndName("", "₸", "Иванов А.Б.");
  }

  lemma NameAfterLabelEntries(s: Str)
    requires s == "ФИО: Иванов А.Б."
    ensures DateField(s) == map[]
    ensures AmountFields(s) == map[AmountKey := "", CurrencyKey := "₸"]
    ensures NameField(s) == map[NameKey := "Иванов А.Б."]
  {
    assert forall k :: 0 <= k < |s| ==> !IsDigit(s[k]);
    NoDate(s);
    NameAfterLabelAmount(s);
    NameAfterLabelName(s);
  }

  lemma NameAfterLabelAmount(s: Str)
    requires s == "ФИО: Иванов А.Б."
    ensures AmountFields(s) == map[AmountKey := "", CurrencyKey := DefaultCurrency]
  {
    assert RemoveAll(s[4..5], ' ') == "" by {
      assert s[4..5] == " ";
    }
    assert forall j :: 0 <= j < 4 ==> !IsDigitOrSpace(s[j]);
    NameAfterLabelMatch(s);
    FirstAmount(s, 4, AmountPattern.Groups(5, None));
    AmountFieldsAre(s, 4, AmountPattern.Groups(5, None), "", DefaultCurrency);
  }

  lemma NameAfterLabelMatch(s: Str)
    requires s == "ФИО: Иванов А.Б."
    ensures AmountPattern.MatchAt(s, 4) == Some(AmountPattern.Groups(5, None))
  {
    assert Plus(s, 4, IsDigitOrSpace) == Some(5) by {
      RunIsLongest(s, 4, 5, IsDigitOrSpace, |s| - 4);
    }
    assert Star(s, 5, IsDigit) == 5 by {
      RunIsLongest(s, 5, 5, IsDigit, |s| - 5);
    }
    AmountPattern.NoTokenAt(s, 5);
    AmountWithoutToken(s, 4, 5, 5, 5, 5);
  }

  lemma NameAfterLabelName(s: Str)
    requires s == "ФИО: Иванов А.Б."
    ensures NameField(s) == map[NameKey := "Иванов А.Б."]
  {
    assert s[5..16] == "Иванов А.Б.";
    assert NamePattern.LabelAt(s, 0) by {
      assert s[0..3] == "ФИО";
    }
    assert AllIn(s, 6, 11, IsLowerCyrillic);
    assert NamePattern.Parse(s, 0, 3, 4, 5, 11, 16);
    assert NamePattern.SpanAt(s, 0, 5, 16);
    SearchIsFirst(s, 0, NamePattern.MatchAt, 0, (5, 16));
  }

  /** Whitespace inside the number is kept by the pattern and its ASCII
      spaces removed afterwards; a trailing space belongs to the number, and
      the token is stored as written, here in lower case. */
  lemma SpacesAndToken(s: Str)
    requires s == "12 500 kzt"
    ensures Fields(s) == map[AmountKey := "12500", CurrencyKey := "kzt"]
  {
    SpacesAndTokenEntries(s);
    Assemble(s, map[], map[AmountKey := "12500", CurrencyKey := "kzt"], map[]);
    AmountOnly("12500", "kzt");
  }

  lemma SpacesAndTokenEntries(s: Str)
    requires s == "12 500 kzt"
    ensures DateField(s) == map[]
    ensures AmountFields(s) == map[AmountKey := "12500", CurrencyKey := "kzt"]
    ensures NameField(s) == map[]
  {
    SpacesAndTokenDate(s);
    SpacesAndTokenAmount(s);
    SpacesAndTokenName(s);
  }

  lemma SpacesAndTokenDate(s: Str)
    requires s == "12 500 kzt"
    ensures DateField(s) == map[]
  {
    assert !DatePattern.ShapeAt(s, 0) && !DatePattern.ShapeAt(s, 1) && !DatePattern.ShapeAt(s, 2);
  }

  lemma SpacesAndTokenName(s: Str)
    requires s == "12 500 kzt"
    ensures NameField(s) == map[]
  {
    assert 'Ф' !in s && 'И' !in s;
    NoName(s);
  }

  lemma SpacesAndTokenAmount(s: Str)
    requires s == "12 500 kzt"
    ensures AmountFields(s) == map[AmountKey := "12500", CurrencyKey := "kzt"]
  {
    SpacesAndTokenValues(s);
    SpacesAndTokenMatch(s);
    FirstAmount(s, 0, AmountPattern.Groups(7, Some((7, 10))));
    AmountFieldsAre(s, 0, AmountPattern.Groups(7, Some((7, 10))), "12500", "kzt");
  }

  lemma SpacesAndTokenValues(s: Str)
    requires s == "12 500 kzt"
    ensures s[7..10] == "kzt"
    ensures RemoveAll(s[0..7], ' ') == "12500"
  {
    assert s[0..7] == "12" + " " + "500" + " ";
    SpacesRemoved("12", "500");
    assert "12" + "500" == "12500";
  }

  lemma SpacesAndTokenMatch(s: Str)
    requires s == "12 500 kzt"
    ensures AmountPattern.MatchAt(s, 0) == Some(AmountPattern.Groups(7, Some((7, 10))))
  {
    SpacesAndTokenRun(s);
    assert Star(s, 7, IsDigit) == 7 by {
      RunIsLongest(s, 7, 7, IsDigit, |s| - 7);
    }
    KztAt(s, 7);
    AmountWithToken(s, 0, 7, 7, 7, 7, 10);
  }

  lemma SpacesAndTokenRun(s: Str)
    requires s == "12 500 kzt"
    ensures Plus(s, 0, IsDigitOrSpace) == Some(7)
    ensures s[7..10] == "kzt" && !IsSpace(s[7])
  {
    RunIsLongest(s, 0, 7, IsDigitOrSpace, |s|);
  }

  /** `KZT`, matched case-insensitively, is the first token that fits. */
  lemma KztAt(s: Str, p: nat)
    requires p + 3 <= |s| && s[p..p + 3] == "kzt"
    ensures AmountPattern.FirstAlternative(s, p, AmountPattern.Tokens) == Some(p + 3)
  {
    assert s[p] == 'k' && s[p + 1] == 'z' && s[p + 2] == 't' by {
      assert s[p..p + 3][0] == s[p];
      assert s[p..p + 3][1] == s[p + 1];
      assert s[p..p + 3][2] == s[p + 2];
    }
    var tokens := AmountPattern.Tokens;
    assert !AmountPattern.FoldPrefixAt(s, p, tokens[0]) by {
      assert !FoldEq(s[p], tokens[0][0]);
    }
    assert !AmountPattern.FoldPrefixAt(s, p, tokens[1]) by {
      assert !FoldEq(s[p], tokens[1][0]);
    }
    assert AmountPattern.FoldPrefixAt(s, p, tokens[2]);
    assert tokens[1..][1..][0] == tokens[2];
  }

  /** Two space-free pieces, each followed by a space, lose only the
      spaces. */
  lemma SpacesRemoved(a: Str, b: Str)
    requires ' ' !in a && ' ' !in b
    ensures RemoveAll(a + " " + b + " ", ' ') == a + b
  {
    SpaceAfter(a + " " + b);
    RemoveAllAppend(a + " ", b, ' ');
    SpaceAfter(a);
    RemoveAllAbsent(a, ' ');
    RemoveAllAbsent(b, ' ');
  }

  lemma SpaceAfter(a: Str)
    ensures RemoveAll(a + " ", ' ') == RemoveAll(a, ' ')
  {
    RemoveAllAppend(a, " ", ' ');
    assert RemoveAll(" ", ' ') == [];
  }

  /** The mapping is the three searches' entries side by side. */
  lemma Assemble(text: Str, date: map<Str, Str>, amount: map<Str, Str>, name: map<Str, Str>)
    requires DateField(text) == date && AmountFields(text) == amount && NameField(text) == name
    ensures Fields(text) == date + amount + name
  {
  }

  lemma DateAndAmount(date: Str, amount: Str, currency: Str)
    ensures map[DateKey := date] + map[AmountKey := amount, CurrencyKey := currency] + map[]
      == map[DateKey := date, AmountKey := amount, CurrencyKey := currency]
  {
    KeysAreDistinct();
  }

  lemma AmountAndName(amount: Str, currency: Str, name: Str)
    ensures map[] + map[AmountKey := amount, CurrencyKey := currency] + map[NameKey := name]
      == map[AmountKey := amount, CurrencyKey := currency, NameKey := name]
  {
    KeysAreDistinct();
  }

  lemma AmountOnly(amount: Str, currency: Str)
    ensures map[] + map[AmountKey := amount, CurrencyKey := currency] + map[]
      == map[AmountKey := amount, CurrencyKey := currency]
  {
  }

  /** Without a digit there is no date. */
  lemma NoDate(s: Str)
    requires forall k :: 0 <= k < |s| ==> !IsDigit(s[k])
    ensures DateField(s) == map[]
  {
  }

  /** Without the characters that begin the labels there is no name. */
  lemma NoName(s: Str)
    requires 'Ф' !in s && 'И' !in s
    ensures NameField(s) == map[]
  {
    forall i: nat ensures !NamePattern.LabelAt(s, i) {
      if i + 3 <= |s| {
        assert s[i..i + 3][0] in s;
      }
    }
    NamePattern.NoLabelNoMatch(s);
  }

  /** The amount search reports the first digit or whitespace character. */
  lemma FirstAmount(s: Str, i: nat, g: AmountPattern.Groups)
    requires AmountPattern.MatchAt(s, i) == Some(g)
    requires forall j :: 0 <= j < i ==> !IsDigitOrSpace(s[j])
    ensures AmountPattern.Find(s) == Some((i, g))
  {
    SearchIsFirst(s, 0, AmountPattern.MatchAt, i, g);
  }

  /** The amount entries once the search result and the two values are
      known. */
  lemma AmountFieldsAre(s: Str, i: nat, g: AmountPattern.Groups, amount: Str, currency: Str)
    requires AmountPattern.Find(s) == Some((i, g))
    requires RemoveAll(s[i..g.numberEnd], ' ') == amount && Currency(s, i, g) == currency
    ensures AmountFields(s) == map[AmountKey := amount, CurrencyKey := currency]
  {
  }

  /** An amount match without a currency token, from its greedy steps. */
  lemma AmountWithoutToken(s: Str, i: nat, p1: nat, p2: nat, p3: nat, p4: nat)
    requires i <= |s|
    requires Plus(s, i, IsDigitOrSpace) == Some(p1) && p1 <= |s|
    requires Opt(s, p1, IsDecimalSep) == p2 && p2 <= |s|
    requires Star(s, p2, IsDigit) == p3 && p3 <= |s|
    requires Opt(s, p3, IsSpace) == p4
    requires AmountPattern.FirstAlternative(s, p4, AmountPattern.Tokens).None?
    ensures AmountPattern.MatchAt(s, i) == Some(AmountPattern.Groups(p3, None))
  {
  }

  /** An amount match with a currency token ending at `e`. */
  lemma AmountWithToken(s: Str, i: nat, p1: nat, p2: nat, p3: nat, p4: nat, e: nat)
    requires i <= |s|
    requires Plus(s, i, IsDigitOrSpace) == Some(p1) && p1 <= |s|
    requires Opt(s, p1, IsDecimalSep) == p2 && p2 <= |s|
    requires Star(s, p2, IsDigit) == p3 && p3 <= |s|
    requires Opt(s, p3, IsSpace) == p4
    requires AmountPattern.FirstAlternative(s, p4, AmountPattern.Tokens) == Some(e)
    ensures AmountPattern.MatchAt(s, i) == Some(AmountPattern.Groups(p3, Some((p4, e))))
  {
  }
}
