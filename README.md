# Rule-based field extraction of the OCR 2.0 bank-document reader

The application reads a photographed receipt or bank document, turns the
OCR engine's detections into one text (one detection per line), and — when
the language model is not used — pulls four fields out of that text with
three regular expressions (`simple_extract_fields`):

* `Дата`: the first `dd?mm?yy..` date, `(\d{2}[./-]\d{2}[./-]\d{2,4})`;
* `Сумма` and `Валюта`: the first run of digits and whitespace with an
  optional decimal part and currency token,
  `([\d\s]+[,.]?\d*)\s?(тг|₸|KZT|руб|₽)?` under `re.IGNORECASE`; the
  amount loses its ASCII spaces, the currency defaults to `₸`;
* `ФИО`: a surname and two initials after the label `ФИО` or `Имя`,
  `(?:ФИО|Имя)\s*[:\-]?\s*([А-ЯЁ][а-яё]+\s[А-ЯЁ]\.[А-ЯЁ]\.)`.

This project models those searches and the dictionary they build, plus the
line joining of `extract_text`.

* `Chars` — the character classes of the three patterns: `\s` is every
  character `str.isspace` accepts, as in Python's `re` on `str` patterns;
  `\d` is the ASCII digits only, and case folding covers A–Z, А–Я and Ё
  only (both narrower than Python, see "Left out").
* `Strings` — `str.replace(" ", "")`, `"\n".join` and its inverse split.
* `Scan` — greedy quantifiers (`{m,n}`, `*`, `+`, `?`, one character) and
  `re.search` as "the first start position where the pattern matches".
* `DatePattern`, `AmountPattern`, `NamePattern` — one matcher per regular
  expression. Each is the greedy path of the backtracking engine. Each
  module proves what sets that path apart among all the texts the pattern
  accepts from the same start: the longest date (the year quantifier comes
  last), the longest number, and the only possible name parse (every
  quantifier is followed by a character it cannot take). That Python
  returns this path is an argument about the order in which its engine
  tries alternatives, not a proof: for the date and the name the greedy
  path is the first one tried that can succeed, and for the amount
  everything after `[\d\s]+` may be empty, so the first path tried
  succeeds.
* `OcrText` — `extract_text`'s joining of the recognised lines.
* `Extractor` — the result mapping as a function (`Fields`) and as the
  source's step-by-step method (`SimpleExtractFields`), with the presence
  and value properties of each key.
* `WorkedInputs` — whole mappings for a few concrete texts.

Three consequences of the patterns as written are worth knowing:

* the label group `(?:ФИО|Имя)` carries no `?` (app.py:67), so a name is
  found only after the label `ФИО` or `Имя`, and the label is not part of
  the value;
* `Сумма` comes from the first digit or whitespace character anywhere in
  the text (app.py:61-63), which is often the date or a single space rather
  than the sum: a text starting `01.02.2024` gives `Сумма` `01.02`, see
  `WorkedInputs.GreedyYear`;
* `\s` is any Unicode whitespace, and only ASCII spaces are removed
  (app.py:63), so `Сумма` may keep newlines and tabs.

## Model

| member | source | states |
|---|---|---|
| Strings.RemoveAll | app.py:63 | `replace(" ", "")` for one character: the result has no such character, keeps every other character of the input and no new ones, and is shorter by exactly the number removed |
| Strings.RemoveAllAppend | app.py:63 | removal distributes over concatenation, so the kept characters stay in order |
| Strings.RemoveAllAbsent | app.py:63 | a text without the character is returned unchanged |
| Strings.Split | app.py:26 | the inverse of joining: at least one piece, none containing the separator |
| Strings.JoinSplit | app.py:26 | `"\n".join` (`Strings.Join`) undoes the split: joining the pieces of a split restores the text |
| Strings.SplitJoin | app.py:26 | splitting a join of separator-free lines returns the lines |
| OcrText.ExtractText | app.py:23-27 | the page text, the detections' texts (`OcrText.Lines`) joined with newlines; no detections give the empty text |
| OcrText.LinesAreRecoverable | app.py:26 | when no detection contains a newline, splitting the page text at newlines gives back every detection's text |
| Scan.Run | app.py:56 | a greedy run of a character class, capped: every character taken is in the class, and the run stops only at the cap, the end, or a character outside the class |
| Scan.RunIsLongest | app.py:56 | any run of the class that ends at the cap, the end or an outside character is exactly the greedy run |
| Scan.Between | app.py:56 | `cls{min,max}`: what it takes is between `min` and `max` class characters and ends at the cap, the end of the text or a character outside the class; it succeeds whenever the first `min` characters are in the class |
| Scan.Star | app.py:61 | `cls*` takes only class characters and ends at the end or at a character outside the class |
| Scan.Plus | app.py:61 | `cls+` succeeds exactly when the first character is in the class, and then takes the maximal run |
| Scan.Search | app.py:56 | `re.search`: the reported position matches and every earlier one fails; no result means no position matches |
| Scan.SearchIsFirst | app.py:56 | a matcher succeeding at `i` and nowhere before makes the search report `i` with that match |
| DatePattern.MatchAt | app.py:56 | a date matches at `i` exactly when two digits, a separator, two digits, a separator and two digits are there (separators chosen independently); the match is accepted by the pattern and is the longest accepted one (greedy year of 2–4 digits) |
| DatePattern.YearIsLongest | app.py:56 | no accepted date from `i` is longer than the greedy year run |
| DatePattern.Find | app.py:56-58 | no date exactly when no position has the date shape; otherwise the leftmost shaped position, with its longest match |
| DatePattern.LeftmostIsUnique | app.py:56 | there is only one leftmost-longest date span |
| DatePattern.SpanOnItsOwn | app.py:58 | the captured date, cut out of the text, is accepted by the pattern in full |
| AmountPattern.FirstAlternative | app.py:61 | the alternation `тг\|₸\|KZT\|руб\|₽`: no result exactly when no token fits up to case; otherwise the end of the first token in that order that fits |
| AmountPattern.MatchAt | app.py:61 | an amount matches at `i` exactly when `s[i]` is a digit or whitespace; group 1 is a parse of `[\d\s]+[,.]?\d*` and the longest one, and group 2 is the token after it past at most one whitespace character, absent exactly when no token is there |
| AmountPattern.NumberIsLongest | app.py:61 | no parse of the number from `i` ends after the greedy one |
| AmountPattern.Find | app.py:61-62 | no amount exactly when the text has no digit or whitespace character; otherwise the match starts at the first such character |
| AmountPattern.CleanNumberText | app.py:63 | group 1 with its spaces removed still reads as digits and whitespace, at most one decimal separator, then digits |
| AmountPattern.NumberPieces | app.py:61 | an accepted number is a digit-or-whitespace run, an optional `,`/`.`, then digits |
| AmountPattern.TokenOnItsOwn | app.py:64 | a token found in the text, cut out, still equals that token up to case |
| AmountPattern.NoTokenAt | app.py:61 | no token starts at a character whose lower case is not the first character of one |
| NamePattern.AfterLabel | app.py:67 | `\s*[:\-]?\s*` run greedily after the label: what it skips is whitespace, at most one `:`/`-`, whitespace, and it stops only at the end or at a non-whitespace character |
| NamePattern.NameAt | app.py:67 | the group `[А-ЯЁ][а-яё]+\s[А-ЯЁ]\.[А-ЯЁ]\.` run greedily: it succeeds exactly when a name starts there (capital, lower-case letters, one whitespace, two capital initials with dots), and ends where that name ends |
| NamePattern.MatchAt | app.py:67 | the pattern tried at `i` returns the group span `(c, e)` exactly when the pattern accepts a text from `i` whose group is `s[c..e]` |
| NamePattern.MatchIsSound | app.py:67 | what the greedy path returns is a span the pattern accepts: label, whitespace, optional `:`/`-`, whitespace, then the name |
| NamePattern.MatchIsComplete | app.py:67 | every way the pattern accepts a text from `i` leads the greedy path to the same group start and end |
| NamePattern.AfterLabelIsGreedy | app.py:67 | `\s*[:\-]?\s*` skipped greedily lands exactly where any accepted gap followed by a capital letter ends |
| NamePattern.Find | app.py:67-69 | no name exactly when the pattern accepts nothing anywhere; otherwise the leftmost accepted span and its group |
| NamePattern.CapturedIsName | app.py:69 | the captured group follows a case-sensitive label and reads as a surname with two initials, without the label |
| NamePattern.NoLabelNoMatch | app.py:67 | without `ФИО` or `Имя` spelled exactly, nothing is found |
| Extractor.DateField | app.py:55-58 | the date entry is present exactly when some position has the date shape |
| Extractor.Currency | app.py:64 | `Валюта` for a match: group 2 as written, equal to a listed token up to case, or `₸` exactly when no listed token follows the number |
| Extractor.AmountFields | app.py:60-64 | the amount and currency entries come and go together, present exactly when the text has a digit or whitespace character |
| Extractor.NameField | app.py:66-69 | the name entry is present exactly when the pattern accepts some span |
| Extractor.Fields | app.py:51-71 | the result has no keys besides `Дата`, `Сумма`, `Валюта`, `ФИО`, and `Сумма` is present exactly when `Валюта` is |
| Extractor.SimpleExtractFields | app.py:51-71 | the method's three conditional insertions into an empty dictionary yield exactly `Fields` |
| Extractor.FieldsAreIndependent | app.py:53-71 | each key of the result is decided by its own search alone, with that search's value |
| Extractor.DatePresence | app.py:56-57 | `Дата` is present exactly when the text has two digits, a separator, two digits, a separator and two digits |
| Extractor.AmountPresence | app.py:61-62 | `Сумма` is present exactly when the text has a digit or whitespace character |
| Extractor.NamePresence | app.py:67-68 | `ФИО` is present exactly when the labelled name pattern occurs |
| Extractor.EmptyTextHasNoFields | app.py:51-71 | the empty text gives the empty mapping |
| Extractor.NoDetectionsHaveNoFields | app.py:26 | a page with no detections gives the empty mapping |
| Extractor.DateValue | app.py:58 | `Дата` is the leftmost date span, longest at that position, and on its own is a full date (8 to 10 characters) |
| Extractor.AmountEntries | app.py:61-64 | `Сумма` and `Валюта` are computed from the same leftmost amount match |
| Extractor.AmountValue | app.py:63 | `Сумма` has no ASCII space, reads as a number text, and is group 1 of the match at the first digit or whitespace character with its spaces removed |
| Extractor.CurrencyValue | app.py:64 | `Валюта` is the token as written right after the number (past at most one whitespace), equal to a listed token up to case, or `₸` when no token follows |
| Extractor.NameValue | app.py:69 | `ФИО` reads as a surname with two initials and is the group of the leftmost labelled match, without the label |
| WorkedInputs.GreedyYear | app.py:56-64 | `01.02.20245` gives `Дата` `01.02.2024`, `Сумма` `01.02`, `Валюта` `₸` and no `ФИО` |
| WorkedInputs.MixedSeparators | app.py:56-64 | `01.02-2024` is a date: the two separators are independent |
| WorkedInputs.NameAfterLabel | app.py:61-69 | `ФИО: Иванов А.Б.` gives `ФИО` `Иванов А.Б.`, and the space after the colon as an empty `Сумма` with `Валюта` `₸` |
| WorkedInputs.SpacesAndToken | app.py:61-64 | `12 500 kzt` gives `Сумма` `12500` and `Валюта` `kzt`, as written in lower case |

## Left out

- The language-model post-processing (`llm_postprocess`, app.py:29-49): a network call whose answer cannot be modelled.
- The OCR engine itself (app.py:11, app.py:25): its detections are an input of `OcrText.ExtractText`; the case where the engine returns no page (`result[0]` being `None`) is not modelled.
- The Streamlit interface and the temporary image file (app.py:76-100): user interface and file I/O.
- Dictionary insertion order: the result is a `map`, so the order in which the keys were inserted is not kept.
- Chars.IsDigit: `\d` is the ASCII digits only; Python also accepts other Unicode decimal digits.
- Chars.Lower: only A–Z, А–Я and Ё fold; Python's wider case-insensitive equivalences are not modelled (for example the Kelvin sign, which Python matches with `k`, and U+1C84 and U+1C85, Cyrillic small letters tall te and three-legged te, which it matches with `т`), so `AmountPattern.FirstAlternative` may miss such exotic spellings of `KZT` or `тг`.
