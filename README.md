# Heritage-text analyser

This project models the offline analyser of a small heritage-site assistant.
Both `server.js` and `index.js` contain a `clientAnalyze(text)` that turns a
free-text description into a `(year, summary, category)` triple in three
stages:

1. **Keyword scan.** The text is lowercased. The nine-record table is searched
   in order, and within each record its keys are tried in order. The first
   record that has a key occurring in the text supplies the triple.
2. **Year pattern.** If no key occurs, `/(\d{2,4})\s*years?/i` is matched
   against the original text. The captured number `n` produces
   `"<n> years (approx.)"` and category `"Historical"`.
3. **Default.** If neither stage matches, a fixed "Unknown" triple is returned.

In `server.js`, `analyzeWithChatGPT` first asks a remote chat model. The
remote answer is used only when it parses and has a non-empty summary and
category; in every other case the result is `clientAnalyze(text)`. The
`/analyze` route trims the request text and answers "No text provided."
without consulting the remote side when the trimmed text is empty. In
`index.js`, `/analyze` analyses `req.body.text` as given, with `''` standing
in for a missing text.

Files:

- `wrappers.dfy` (`Wrappers`): `Option`.
- `text.dfy` (`Text`): the JavaScript string primitives the analysers use.
  - `\s` and `String.prototype.trim` use the full ECMAScript WhiteSpace and
    LineTerminator set.
  - `\d` is ASCII digits.
  - `toLowerCase` is an ASCII map.
  - `includes` is a character-by-character comparison, proved equal to
    substring occurrence.
- `knowledge.dfy` (`Knowledge`): a table record, the answer triple, and the
  in-order table scan. The scan is specified by "first record with an
  occurring key".
- `year_pattern.dfy` (`YearPattern`): the regular expression as
  `String.prototype.match` runs it. It is a backtracking matcher with greedy
  `\d{2,4}` and `\s*`, tried at start positions from left to right. It is
  proved against a declarative definition of "leftmost match", and that match
  is shown to be unique.
- `server.dfy` (`Server`): the server's table and wording, its
  `clientAnalyze`, the fallback composition over an abstract remote outcome,
  and the `/analyze` handler.
- `index.dfy` (`Index`): the offline server's table and wording, its
  `clientAnalyze`, and its `/analyze` handler.

The remote call is a parameter. `RemoteOutcome` is either a failed request,
unparsable content, or a parsed object whose `year`, `summary` and `category`
are optional strings. The server handler receives the remote analyser as a
function from text to outcome. Its `Reply` records which text, if any, was
sent to that function.

`\d{2,4}` can start inside a longer run of digits, so "12345 years" matches
at position 1 and captures "2345" (`YearPattern.LongRunKeepsLastFour`).

## Model

| member | source | states |
|---|---|---|
| Text.Lower | server.js:35 | `toLowerCase` keeps the length and maps each character on its own |
| Text.LowerIdempotent | index.js:22 | lowercasing twice is lowercasing once |
| Text.Includes | server.js:37 | `t.includes(k)` holds exactly when `k` occurs in `t` at some position |
| Text.Trim | server.js:84 | the trimmed text is empty exactly when every character is whitespace; otherwise it starts and ends with non-whitespace and is a slice of the input with only whitespace cut off |
| Text.TrimNonBlank | server.js:84-85 | text with a non-whitespace character trims to a non-empty slice of itself that starts and ends with non-whitespace, so it gets past the empty check |
| Knowledge.AnyKeyIncluded | server.js:37 | the inner key loop succeeds exactly when some key of the record occurs in the text |
| Knowledge.FirstMatch | server.js:36-38 | the scan returns a record that matches with no earlier record matching, and returns nothing exactly when no record matches |
| Knowledge.FirstMatchDetermined | index.js:23-27 | whenever record `i` is the first matching record, the scan returns `i` |
| Knowledge.BlankMatchesNothing | index.js:22-27 | if every key starts with a letter, whitespace-only text matches no record |
| YearPattern.YearMatch | server.js:39 | `match` returns the leftmost match, which captures 2 to 4 ASCII digits, and returns nothing exactly when the pattern matches at no position |
| YearPattern.CaptureDetermined | server.js:39 | two matches at the same position capture the same digits and skip the same whitespace |
| YearPattern.LeftmostUnique | server.js:39 | the leftmost match is unique |
| YearPattern.LeftmostIsYearMatch | index.js:28 | any leftmost match is the one the matcher returns |
| YearPattern.YearMatchIgnoresCase | index.js:28 | with the `i` flag, a text and its lowercase form give the same match |
| YearPattern.MatchStartsWithDigits | index.js:28 | every match starts with two digits |
| YearPattern.NoMatchBefore | index.js:28 | no match starts before the first digit of the text |
| YearPattern.LongRunKeepsLastFour | server.js:39 | "12345 years" matches at position 1 with capture "2345" |
| YearPattern.SingleDigitNoMatch | server.js:39 | "1 year" does not match |
| YearPattern.HampiTextHasAge | server.js:39 | "hampi is 500 years old" matches at position 9 with capture "500" |
| Server.ClientAnalyze | server.js:34-42 | the answer is the first matching record's triple; or, with no record matching, the age answer for the leftmost year-pattern capture; or, with neither matching, the fixed "Unknown" triple. `KeywordStage`, `YearStage` and `DefaultStage` pin down which answer each case gives |
| Server.AnalyzeWithChatGPT | server.js:44-80 | no contract of its own; specified by `RemoteAnswerKept` (a usable remote answer is passed on), `FallbackIsLocal` (every other outcome gives `ClientAnalyze`) and `ComposedPopulated` |
| Server.HandleAnalyze | server.js:83-89 | no contract of its own; specified by `BlankInputShortCircuits` and `TrimmedTextAnalysed` |
| Server.KeysWellFormed | server.js:22-32 | every key of the server table is non-empty and starts with a lowercase letter |
| Server.RecordsFilled | server.js:22-32 | every record of the server table has a non-empty year, summary and category |
| Server.KeywordStage | server.js:35-37 | if record `i` is the first record with a key in the lowercased text, the answer is that record's triple |
| Server.YearStage | server.js:39-40 | with no key match and a leftmost year-pattern match, the answer is "`n` years (approx.)" / "Approximately `n` years old." / "Historical", where `n` is the 2-4 digit capture |
| Server.DefaultStage | server.js:41 | with no key match and no pattern match, the answer is the fixed "Unknown" triple |
| Server.HampiBeforeBadami | server.js:23-37 | text containing both "hampi" and "badami" gets the Hampi record |
| Server.KeywordBeatsYear | server.js:36-40 | "hampi is 500 years old" gets the Hampi record, even though the pattern matches "500" and the answer differs from the age answer |
| Server.AnswerPopulated | server.js:34-42 | every local answer has three non-empty fields |
| Server.IgnoresCase | server.js:35-39 | a text and its lowercase form get the same local answer |
| Server.RemoteAnswerKept | server.js:66-67 | a parsed answer with non-empty summary and category is passed on unchanged; only a missing year becomes "Unknown", and an empty year is kept |
| Server.FallbackIsLocal | server.js:70-79 | a failed request, unparsable content, or a missing or empty summary or category gives the local answer for the same text |
| Server.ComposedPopulated | server.js:63-79 | the composed answer always has a summary and a category; its year is empty only when a usable remote answer gave an empty year |
| Server.BlankInputShortCircuits | server.js:84-85 | the remote side is not consulted exactly when the text is missing or whitespace-only, and then the answer is "No text provided." |
| Server.TrimmedTextAnalysed | server.js:84-88 | otherwise the trimmed text is what is sent to the remote side, and the reply is the composed answer for that trimmed text |
| Index.ClientAnalyze | index.js:21-31 | the answer is the first matching record's triple; or, with no record matching, the age answer for the leftmost year-pattern capture; or, with neither matching, the fixed "Unknown" triple. `KeywordStage`, `YearStage` and `DefaultStage` pin down which answer each case gives |
| Index.HandleAnalyze | index.js:33-39 | no contract of its own; specified by `BlankTextIsDefault` (a missing text is analysed as "", and the text is not trimmed) |
| Index.KeysWellFormed | index.js:9-19 | every key of the offline table is non-empty and starts with a lowercase letter |
| Index.RecordsFilled | index.js:9-19 | every record of the offline table has a non-empty year, summary and category |
| Index.KeywordStage | index.js:22-27 | if record `i` is the first record with a key in the lowercased text, the answer is that record's triple |
| Index.YearStage | index.js:28-29 | with no key match and a leftmost year-pattern match, the answer is "`n` years (approx.)" / "This place is roughly `n` years old." / "Historical", where `n` is the 2-4 digit capture |
| Index.DefaultStage | index.js:30 | with no key match and no pattern match, the answer is the fixed "Unknown" triple |
| Index.ChennakesavaIsBelur | index.js:12-25 | "chennakesava" in any case contains Somanathapura's key "kesava" but gets the Belur record |
| Index.HoysaleshwaraIsHalebidu | index.js:12-25 | "hoysaleshwara" in any case gets the Halebidu record |
| Index.AnswerPopulated | index.js:21-31 | every answer has three non-empty fields |
| Index.IgnoresCase | index.js:22-28 | a text and its lowercase form get the same answer |
| Index.BlankTextIsDefault | index.js:35-38 | a missing, empty or whitespace-only text is analysed without trimming and gets the default "Unknown" triple |

## Left out

- HTTP and process plumbing is not modelled: Express, `cors`, `body-parser`, `dotenv`, `app.listen`, `/_health`, and console logging.
- The OpenAI chat request and its system prompt are not modelled. They are a foreign network call, represented only by `RemoteOutcome` and the `remote` parameter.
- `/speak` (text-to-speech) is not modelled. It is a foreign network call outside the analyser.
- `JSON.parse` is not modelled, and neither is truthiness of non-string JSON values (numbers, objects or booleans as fields). The parsed fields are optional strings.
- `toLowerCase` is ASCII only. JavaScript also lowercases non-ASCII letters, and a few of them (U+0130, U+212A) lower to ASCII letters that could complete a key.
- Strings are sequences of characters. UTF-16 code units and surrogate pairs are not distinguished.
- The optional `s` of `years?` is not modelled. It changes neither whether the pattern matches nor the captured group, and those are the only parts of the match the analysers read.
- `clientAnalyze(null)` is not modelled. It throws at `text.match`, which in `index.js` becomes the 500 "Server error" reply. The model's input is always a string, with a missing `text` becoming "".
- The `catch` in server.js at lines 90-92 is not modelled. It cannot be reached, because `analyzeWithChatGPT` catches every failure itself.
- The async `try`/`catch` and Promise machinery are not modelled. The composition is a plain function of the remote outcome.
- That every table key is already lowercase is not stated. The lemmas need only that every key is non-empty and starts with a lowercase letter.
