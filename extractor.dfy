/** `simple_extract_fields`: the rule-based field extractor. Three
    independent searches over the recognised text fill a mapping with up to
    four keys: the date, the amount and its currency (set together), and
    the name. */
module Extractor {
  import opened Options
  import opened Chars
  import opened Strings
  import Scan
  import DatePattern
  import AmountPattern
  import NamePattern
  import OcrText

  const DateKey: Str := "Дата"
  const AmountKey: Str := "Сумма"
  const CurrencyKey: Str := "Валюта"
  const NameKey: Str := "ФИО"

  /** The currency stored when the amount match has no currency token: the
      tenge sign. */
  const DefaultCurrency: Str := "₸"

  /** The entry the date search contributes. */
  function DateField(text: Str): (r: map<Str, Str>)
    ensures r.Keys <= {DateKey}
    ensures DateKey in r <==> exists i: nat :: DatePattern.ShapeAt(text, i)
  {
    match DatePattern.Find(text)
    case Some((i, e)) => map[DateKey := text[i..e]]
    case None => map[]
  }

  /** The currency stored for an amount match: group 2 as it is written in
      the text, or the default when the group did not take part. The value
      follows `CurrencyRule`: a listed token as written, or the tenge sign
      exactly when no listed token follows the number. */
  function Currency(text: Str, i: nat, g: AmountPattern.Groups): (r: Str)
    requires AmountPattern.IsMatch(text, i, g)
    ensures CurrencyRule(text, g, r)
  {
    match g.currency
    case Some((c, e)) =>
      AmountPattern.GroupTwoIsToken(text, AmountPattern.CurrencyStart(text, g.numberEnd), g.currency);
      text[c..e]
    case None => DefaultCurrency
  }

  /** The currency `v` stored for an amount match with groups `g`: the token
      after the number, as written and equal to a listed token up to case,
      or the tenge sign when no listed token follows the number. */
  ghost predicate CurrencyRule(text: Str, g: AmountPattern.Groups, v: Str) {
    var c := AmountPattern.CurrencyStart(text, g.numberEnd);
    if g.currency.Some? then
      && c <= g.currency.value.1 <= |text|
      && v == text[c..g.currency.value.1]
      && exists t :: t in AmountPattern.Tokens && |v| == |t| && AmountPattern.FoldPrefixAt(v, 0, t)
    else
      && v == DefaultCurrency
      && forall t :: t in AmountPattern.Tokens ==> !AmountPattern.FoldPrefixAt(text, c, t)
  }

  /** The two entries the amount search contributes: group 1 without its
      ASCII spaces, and the currency. */
  function AmountFields(text: Str): (r: map<Str, Str>)
    ensures r.Keys <= {AmountKey, CurrencyKey}
    ensures AmountKey in r <==> CurrencyKey in r
    ensures AmountKey in r <==> exists k :: 0 <= k < |text| && IsDigitOrSpace(text[k])
  {
    match AmountPattern.Find(text)
    case Some((i, g)) =>
      map[AmountKey := RemoveAll(text[i..g.numberEnd], ' '), CurrencyKey := Currency(text, i, g)]
    case None => map[]
  }

  /** The entry the name search contributes: group 1, without the label. */
  function NameField(text: Str): (r: map<Str, Str>)
    ensures r.Keys <= {NameKey}
    ensures NameKey in r <==> exists i: nat, c: nat, e: nat :: NamePattern.SpanAt(text, i, c, e)
  {
    match NamePattern.Find(text)
    case Some((_, (c, e))) => map[NameKey := text[c..e]]
    case None => map[]
  }

  /** The mapping `simple_extract_fields` returns: the entries of the
      three searches side by side. It has no key besides the four, and the
      amount and the currency come and go together. */
  function Fields(text: Str): (data: map<Str, Str>)
    ensures data.Keys <= {DateKey, AmountKey, CurrencyKey, NameKey}
    ensures AmountKey in data <==> CurrencyKey in data
  {
    KeysAreDistinct();
    DateField(text) + AmountFields(text) + NameField(text)
  }

  lemma KeysAreDistinct()
    ensures DateKey !in {AmountKey, CurrencyKey, NameKey}
    ensures AmountKey !in {CurrencyKey, NameKey}
    ensures CurrencyKey != NameKey
  {
    assert DateKey[0] == 'Д' && AmountKey[0] == 'С' && CurrencyKey[0] == 'В' && NameKey[0] == 'Ф';
  }

  /** The extractor as the source runs it: an empty dictionary, then one
      insertion per search that matched. */
  method SimpleExtractFields(text: Str) returns (data: map<Str, Str>)
    ensures data == Fields(text)
  {
    data := map[];

    var dateMatch := DatePattern.Find(text);
    if dateMatch.Some? {
      var (i, e) := dateMatch.value;
      data := data[DateKey := text[i..e]];
    }
    DateInserted(text, data);
    ghost var withDate := data;

    var sumMatch := AmountPattern.Find(text);
    if sumMatch.Some? {
      var (i, g) := sumMatch.value;
      data := data[AmountKey := RemoveAll(text[i..g.numberEnd], ' ')];
      data := data[CurrencyKey := if g.currency.Some? then text[g.currency.value.0..g.currency.value.1] else DefaultCurrency];
    }
    AmountInserted(text, withDate, data);
    ghost var withAmount := data;

    var fioMatch := NamePattern.Find(text);
    if fioMatch.Some? {
      var (_, (c, e)) := fioMatch.value;
      data := data[NameKey := text[c..e]];
    }
    NameInserted(text, withAmount, data);
  }

  /** The first step of the method leaves the date entry, or nothing. */
  lemma DateInserted(text: Str, data: map<Str, Str>)
    requires var m := DatePattern.Find(text);
      && (m.Some? ==> data == map[DateKey := text[m.value.0..m.value.1]])
      && (m.None? ==> data == map[])
    ensures data == DateField(text)
  {
  }

  /** The second step adds the amount entries to what the first left. */
  lemma AmountInserted(text: Str, before: map<Str, Str>, data: map<Str, Str>)
    requires var m := AmountPattern.Find(text);
      && (m.Some? ==> var g := m.value.1;
            data == before[AmountKey := RemoveAll(text[m.value.0..g.numberEnd], ' ')]
                          [CurrencyKey := if g.currency.Some? then text[g.currency.value.0..g.currency.value.1] else DefaultCurrency])
      && (m.None? ==> data == before)
    ensures data == before + AmountFields(text)
  {
    var m := AmountPattern.Find(text);
    if m.Some? {
      var (i, g) := m.value;
      var currency := Currency(text, i, g);
      assert currency == if g.currency.Some? then text[g.currency.value.0..g.currency.value.1] else DefaultCurrency;
      assert AmountFields(text) == map[AmountKey := RemoveAll(text[i..g.numberEnd], ' '), CurrencyKey := currency];
      UpdatesAreUnion(before, RemoveAll(text[i..g.numberEnd], ' '), currency);
    }
  }

  /** Storing the two amount entries one after the other is the same as
      adding both at once. */
  lemma UpdatesAreUnion(before: map<Str, Str>, amount: Str, currency: Str)
    ensures before[AmountKey := amount][CurrencyKey := currency] == before + map[AmountKey := amount, CurrencyKey := currency]
  {
  }

  /** The third step adds the name entry. */
  lemma NameInserted(text: Str, before: map<Str, Str>, data: map<Str, Str>)
    requires var m := NamePattern.Find(text);
      && (m.Some? ==> data == before[NameKey := text[m.value.1.0..m.value.1.1]])
      && (m.None? ==> data == before)
    ensures data == before + NameField(text)
  {
    var m := NamePattern.Find(text);
    if m.Some? {
      var v := text[m.value.1.0..m.value.1.1];
      assert NameField(text) == map[NameKey := v];
      NameUpdateIsUnion(before, v);
    }
  }

  /** Storing the name entry is the same as adding it. */
  lemma NameUpdateIsUnion(before: map<Str, Str>, name: Str)
    ensures before[NameKey := name] == before + map[NameKey := name]
  {
  }

  /** Each search decides its own keys alone: the mapping holds exactly
      the entries of each search. */
  lemma FieldsAreIndependent(text: Str)
    ensures DateKey in Fields(text) <==> DateKey in DateField(text)
    ensures DateKey in Fields(text) ==> Fields(text)[DateKey] == DateField(text)[DateKey]
    ensures AmountKey in Fields(text) <==> AmountKey in AmountFields(text)
    ensures AmountKey in Fields(text) ==> Fields(text)[AmountKey] == AmountFields(text)[AmountKey]
    ensures CurrencyKey in Fields(text) ==> Fields(text)[CurrencyKey] == AmountFields(text)[CurrencyKey]
    ensures NameKey in Fields(text) <==> NameKey in NameField(text)
    ensures NameKey in Fields(text) ==> Fields(text)[NameKey] == NameField(text)[NameKey]
  {
    var date, amount, name := DateField(text), AmountFields(text), NameField(text);
    assert Fields(text) == date + amount + name;
    EntriesOfUnion(date, amount, name);
  }

  lemma EntriesOfUnion(date: map<Str, Str>, amount: map<Str, Str>, name: map<Str, Str>)
    requires date.Keys <= {DateKey}
    requires amount.Keys <= {AmountKey, CurrencyKey}
    requires name.Keys <= {NameKey}
    ensures var all := date + amount + name;
      && (DateKey in all <==> DateKey in date)
      && (DateKey in all ==> all[DateKey] == date[DateKey])
      && (AmountKey in all <==> AmountKey in amount)
      && (AmountKey in all ==> all[AmountKey] == amount[AmountKey])
      && (CurrencyKey in all ==> all[CurrencyKey] == amount[CurrencyKey])
      && (NameKey in all <==> NameKey in name)
      && (NameKey in all ==> all[NameKey] == name[NameKey])
  {
    KeysAreDistinct();
  }

  /** `Дата` is present exactly when the text holds two digits, a
      separator, two digits, a separator and two more digits, the two
      separators chosen independently. */
  lemma DatePresence(text: Str)
    ensures DateKey in Fields(text) <==> exists i: nat :: DatePattern.ShapeAt(text, i)
  {
    FieldsAreIndependent(text);
  }

  /** `Сумма` (and with it `Валюта`) is present exactly when the text holds
      a digit or a whitespace character. */
  lemma AmountPresence(text: Str)
    ensures AmountKey in Fields(text) <==> exists k :: 0 <= k < |text| && IsDigitOrSpace(text[k])
  {
    FieldsAreIndependent(text);
  }

  /** `ФИО` is present exactly when the pattern, label included, matches
      somewhere in the text. */
  lemma NamePresence(text: Str)
    ensures NameKey in Fields(text) <==> exists i: nat, c: nat, e: nat :: NamePattern.SpanAt(text, i, c, e)
  {
    FieldsAreIndependent(text);
  }

  /** Empty text yields an empty mapping: every pattern needs at least one
      character. */
  lemma EmptyTextHasNoFields()
    ensures Fields([]) == map[]
  {
    var data := Fields([]);
    assert DateKey !in data && AmountKey !in data && CurrencyKey !in data && NameKey !in data;
  }

  /** When the engine recognises nothing, the text is empty and so is the
      mapping. */
  lemma NoDetectionsHaveNoFields()
    ensures Fields(OcrText.ExtractText([])) == map[]
  {
    EmptyTextHasNoFields();
  }

  /** The date is the leftmost date-shaped text, with the year taken
      greedily up to four digits; on its own, the stored value is a text
      the date pattern accepts in full (so it is 8 to 10 characters long). */
  lemma DateValue(text: Str)
    requires DateKey in Fields(text)
    ensures var v := Fields(text)[DateKey];
      && DatePattern.SpanAt(v, 0, |v|)
      && exists i: nat, e: nat :: DatePattern.IsLeftmost(text, i, e) && v == text[i..e]
  {
    FieldsAreIndependent(text);
    var (i, e) := DatePattern.Find(text).value;
    var v := text[i..e];
    assert Fields(text)[DateKey] == v;
    assert DatePattern.IsLeftmost(text, i, e);
    DatePattern.SpanOnItsOwn(text, i, e);
  }

  /** The amount entries come from the leftmost amount match. */
  lemma AmountEntries(text: Str) returns (i: nat, g: AmountPattern.Groups)
    requires AmountKey in Fields(text)
    ensures AmountPattern.Find(text) == Some((i, g))
    ensures AmountPattern.Bounded(text, i, g)
    ensures Fields(text)[AmountKey] == RemoveAll(text[i..g.numberEnd], ' ')
    ensures CurrencyKey in Fields(text) && Fields(text)[CurrencyKey] == Currency(text, i, g)
  {
    FieldsAreIndependent(text);
    i, g := AmountPattern.Find(text).value.0, AmountPattern.Find(text).value.1;
  }

  /** `Сумма` is group 1 of the leftmost match (which starts at the first
      digit or whitespace character) with its ASCII spaces removed: it holds
      no ' ', but other whitespace such as a newline stays, and it may be
      empty. What is left still reads as digits and whitespace, at most one
      decimal separator, then digits. */
  lemma AmountValue(text: Str)
    requires AmountKey in Fields(text)
    ensures var v := Fields(text)[AmountKey];
      && ' ' !in v
      && AmountPattern.NumberText(v)
      && exists i: nat, g: AmountPattern.Groups ::
           && AmountPattern.IsMatch(text, i, g)
           && (forall k :: 0 <= k < i ==> !IsDigitOrSpace(text[k]))
           && v == RemoveAll(text[i..g.numberEnd], ' ')
  {
    var i, g := AmountEntries(text);
    var p: nat, q: nat :| AmountPattern.NumberParse(text, i, p, q, g.numberEnd);
    AmountPattern.CleanNumberText(text, i, p, q, g.numberEnd);
  }

  /** `Валюта` is the currency token as written in the text, found right
      after group 1 (past at most one whitespace character) and equal to
      one of тг, ₸, KZT, руб, ₽ up to case; when no token is there it is
      the tenge sign. */
  lemma CurrencyValue(text: Str)
    requires CurrencyKey in Fields(text)
    ensures exists i: nat, g: AmountPattern.Groups ::
      && AmountPattern.IsMatch(text, i, g)
      && (forall k :: 0 <= k < i ==> !IsDigitOrSpace(text[k]))
      && CurrencyRule(text, g, Fields(text)[CurrencyKey])
  {
    var i, g := AmountEntries(text);
  }

  /** `ФИО` is present only when the label occurs; the value is the group
      of the leftmost match, which excludes the label, and reads as a
      surname with two initials. */
  lemma NameValue(text: Str)
    requires NameKey in Fields(text)
    ensures var v := Fields(text)[NameKey];
      && NamePattern.NameText(v)
      && exists i: nat, c: nat, e: nat ::
           && NamePattern.IsLeftmost(text, i, c, e)
           && NamePattern.LabelAt(text, i) && i + 3 <= c
           && v == text[c..e]
  {
    FieldsAreIndependent(text);
    var (i, ce) := NamePattern.Find(text).value;
    var (c, e) := ce;
    assert Fields(text)[NameKey] == text[c..e];
    NamePattern.CapturedIsName(text, i, c, e);
  }
}
