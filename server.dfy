/**
 * The analyser of `server.js`: the local keyword analyser with its own table
 * and wording, the fallback around the remote chat analyser, and the
 * `/analyze` handler that short-circuits blank input.
 */
module Server {
  import opened Wrappers
  import opened Text
  import opened Knowledge
  import opened YearPattern

  /** The local fallback table, in its authored order. */
  const KB: seq<Record> := [
    Record(["hampi"], "c. 14th–16th century (≈ 600 years)", "Vijayanagara / Historical",
      "Hampi was the capital of the Vijayanagara Empire — a vast group of ruined monuments and temples."),
    Record(["pattadakal"], "c. 7th–8th century (≈ 1200 years)", "Chalukya / UNESCO World Heritage",
      "Pattadakal is a UNESCO site known for Chalukya temple architecture and sculptural work."),
    Record(["belur", "chennakesava"], "c. 12th–13th century (≈ 900 years)", "Hoysala",
      "Belur's Chennakesava Temple is famed for intricate Hoysala soapstone carvings."),
    Record(["halebidu"], "c. 12th–13th century (≈ 900 years)", "Hoysala",
      "Halebidu houses the Hoysaleshwara Temples with exceptionally detailed relief work."),
    Record(["badami"], "c. 6th–8th century (≈ 1400 years)", "Early Chalukya",
      "Badami is famous for its rock-cut cave temples and Chalukya sculpture."),
    Record(["aihole"], "c. 5th–8th century (≈ 1500 years)", "Chalukya",
      "Aihole is a cradle of early temple architecture with many experimental styles."),
    Record(["somanathapura", "keshava"], "c. 13th–14th century (≈ 750 years)", "Hoysala",
      "Somanathapura's Keshava temple is an excellent example of Hoysala detail."),
    Record(["shravanabelagola"], "c. 10th–11th century (prominent c.1000 years)", "Jain Heritage",
      "Shravanabelagola is known for the monolithic Bahubali statue and Jain inscriptions."),
    Record(["banavasi"], "c. 3rd–4th century (≈ 1700+ years)", "Kadamba / Ancient",
      "Banavasi was an early Kadamba capital with ancient temple remains.")
  ]

  const NoMatchSummary := "No match in local KB. Paste a site name (e.g. 'Hampi') for a specific summary."

  /** The answer synthesised from the number captured by the year pattern. */
  function AgeAnswer(n: string): Analysis {
    Analysis(n + " years (approx.)", "Approximately " + n + " years old.", "Historical")
  }

  /** The answer when neither a keyword nor the year pattern matched. */
  function UnknownAnswer(): Analysis {
    Analysis("Unknown", NoMatchSummary, "Historical / Unknown")
  }

  /** `clientAnalyze(text)`: keyword scan on the lowercased text, then the year pattern on the original, then the default. */
  function ClientAnalyze(text: string): (r: Analysis)
    ensures || (exists i :: IsFirstMatch(KB, Lower(text), i) && r == Answer(KB[i]))
            || (NoMatch(KB, Lower(text)) && exists m :: IsLeftmost(text, m) && r == AgeAnswer(m.group))
            || (NoMatch(KB, Lower(text)) && (forall i: nat :: !MatchesAt(text, i)) && r == UnknownAnswer())
  {
    var t := Lower(text);
    match FirstMatch(KB, t)
    case Some(i) => Answer(KB[i])
    case None =>
      match YearMatch(text)
      case Some(m) => AgeAnswer(m.group)
      case None => UnknownAnswer()
  }

  /** Every key of the table starts with a letter. */
  lemma KeysWellFormed()
    ensures KeysStartWithLetter(KB)
  {
    forall i | 0 <= i < |KB|
      ensures forall k :: k in KB[i].keys ==> k != [] && 'a' <= k[0] <= 'z'
    {
    }
  }

  /** Every record of the table fills all three fields. */
  lemma RecordsFilled()
    ensures FieldsPopulated(KB)
  {
  }

  /** A key of some record inside the lowercased text: the earliest such record answers. */
  lemma KeywordStage(text: string, i: int)
    requires IsFirstMatch(KB, Lower(text), i)
    ensures ClientAnalyze(text) == Answer(KB[i])
  {
    FirstMatchDetermined(KB, Lower(text), i);
  }

  /** No key in the text but the year pattern matches: the answer quotes the two to four captured digits. */
  lemma {:induction false} YearStage(text: string, m: RegexMatch)
    requires NoMatch(KB, Lower(text)) && IsLeftmost(text, m)
    ensures ClientAnalyze(text) == AgeAnswer(m.group)
    ensures 2 <= |m.group| <= 4 && forall c :: c in m.group ==> IsDigit(c)
  {
    var j: nat :| PatternAt(text, m.index, |m.group|, j);
    assert MatchesAt(text, m.index);
    LeftmostUnique(text, m, YearMatch(text).value);
  }

  /** Neither stage matches: the fixed unknown answer. */
  lemma DefaultStage(text: string)
    requires NoMatch(KB, Lower(text)) && forall i: nat :: !MatchesAt(text, i)
    ensures ClientAnalyze(text) == UnknownAnswer()
  {
  }

  /** Table order decides ties: text naming both Hampi and Badami gets the Hampi record. */
  lemma {:induction false} HampiBeforeBadami(text: string)
    requires Occurs("hampi", Lower(text)) && Occurs("badami", Lower(text))
    ensures ClientAnalyze(text) == Answer(KB[0])
  {
    assert "hampi" in KB[0].keys;
    KeywordStage(text, 0);
  }

  /** The lowercase form of this text contains "hampi" at its start. */
  lemma HampiTextNamesHampi()
    ensures OccursAt("hampi", Lower("hampi is 500 years old"), 0)
  {
    var s := "hampi is 500 years old";
    assert s[..5] == "hampi";
    LowerKeepsLowercaseKey("hampi", s, 0);
  }

  /** A keyword beats the year pattern: this text gets the Hampi record, not "500 years (approx.)". */
  lemma KeywordBeatsYear()
    ensures YearMatch("hampi is 500 years old") == Some(RegexMatch(9, "500"))
    ensures ClientAnalyze("hampi is 500 years old") == Answer(KB[0]) != AgeAnswer("500")
  {
    HampiTextHasAge();
    HampiTextNamesHampi();
    var t := Lower("hampi is 500 years old");
    assert "hampi" in KB[0].keys && Occurs("hampi", t);
    KeywordStage("hampi is 500 years old", 0);
  }

  /** Every answer of the local analyser has three non-empty fields. */
  lemma AnswerPopulated(text: string)
    ensures var r := ClientAnalyze(text); r.year != [] && r.summary != [] && r.category != []
  {
    RecordsFilled();
  }

  /** The analyser is case-insensitive: a text and its lowercase form get the same answer. */
  lemma {:induction false} IgnoresCase(text: string)
    ensures ClientAnalyze(Lower(text)) == ClientAnalyze(text)
  {
    LowerIdempotent(text);
    YearMatchIgnoresCase(text);
  }

  /** What the remote chat analyser produced, as the fallback logic sees it. */
  datatype RemoteOutcome =
    | RequestFailed
      /** the completion call threw */
    | Unparsable
      /** `JSON.parse` threw on the returned content */
    | Parsed(year: Option<string>, summary: Option<string>, category: Option<string>)
      /** the parsed object; `None` for a field that is missing or `null` */

  /** A string field that JavaScript counts as truthy: present and non-empty. */
  predicate Truthy(field: Option<string>) {
    field.Some? && field.value != []
  }

  /** The remote answer is used as it is: it parsed and has a non-empty summary and category. */
  predicate Usable(outcome: RemoteOutcome) {
    outcome.Parsed? && Truthy(outcome.summary) && Truthy(outcome.category)
  }

  /** `analyzeWithChatGPT(text)` once the remote call has produced `outcome`. */
  function AnalyzeWithChatGPT(text: string, outcome: RemoteOutcome): Analysis {
    if Usable(outcome) then
      Analysis(outcome.year.GetOr("Unknown"), outcome.summary.value, outcome.category.value)
    else
      ClientAnalyze(text)
  }

  /**
   * A usable remote answer is passed on unchanged; only a missing or `null`
   * year becomes "Unknown", an empty one is kept.
   */
  lemma RemoteAnswerKept(text: string, year: Option<string>, summary: string, category: string)
    requires summary != [] && category != []
    ensures var r := AnalyzeWithChatGPT(text, Parsed(year, Some(summary), Some(category)));
            r.summary == summary && r.category == category
            && r.year == (if year.Some? then year.value else "Unknown")
  {
  }

  /** Any failure, or a missing or empty summary or category, gives the local analyser's answer. */
  lemma FallbackIsLocal(text: string, outcome: RemoteOutcome)
    requires outcome.RequestFailed? || outcome.Unparsable? || !Truthy(outcome.summary) || !Truthy(outcome.category)
    ensures AnalyzeWithChatGPT(text, outcome) == ClientAnalyze(text)
  {
  }

  /**
   * Whatever the remote side does, the answer has a summary and a category;
   * its year is empty only when the remote answer itself gave an empty year.
   */
  lemma ComposedPopulated(text: string, outcome: RemoteOutcome)
    ensures var r := AnalyzeWithChatGPT(text, outcome);
            r.summary != [] && r.category != []
            && (r.year == [] ==> Usable(outcome) && outcome.year == Some([]))
  {
    AnswerPopulated(text);
  }

  /** The reply of `/analyze`: the text sent to the remote analyser, if any, and the answer. */
  datatype Reply = Reply(asked: Option<string>, answer: Analysis)

  const NoTextAnswer := Analysis("Unknown", "No text provided.", "Unknown")

  /**
   * The `/analyze` handler: `bodyText` is `req.body.text` (`None` when missing
   * or `null`), `remote` what the chat analyser makes of a text.
   */
  function HandleAnalyze(bodyText: Option<string>, remote: string -> RemoteOutcome): Reply {
    var text := Trim(bodyText.GetOr(""));
    if text == [] then Reply(None, NoTextAnswer)
    else Reply(Some(text), AnalyzeWithChatGPT(text, remote(text)))
  }

  /**
   * Missing, empty or whitespace-only text is answered with "No text
   * provided." and the remote analyser is not asked; any other text is.
   */
  lemma BlankInputShortCircuits(bodyText: Option<string>, remote: string -> RemoteOutcome)
    ensures var raw := bodyText.GetOr("");
            var r := HandleAnalyze(bodyText, remote);
            && (r.asked.None? <==> forall i :: 0 <= i < |raw| ==> IsSpace(raw[i]))
            && (r.asked.None? ==> r.answer == NoTextAnswer)
  {
  }

  /**
   * Otherwise the trimmed text is sent to the remote analyser (by
   * `Text.TrimNonBlank` it is non-empty and starts and ends with
   * non-whitespace), and the reply is the composed answer for it.
   */
  lemma TrimmedTextAnalysed(bodyText: Option<string>, remote: string -> RemoteOutcome)
    requires exists i :: 0 <= i < |bodyText.GetOr("")| && !IsSpace(bodyText.GetOr("")[i])
    ensures var t := Trim(bodyText.GetOr(""));
            HandleAnalyze(bodyText, remote) == Reply(Some(t), AnalyzeWithChatGPT(t, remote(t)))
  {
    TrimNonBlank(bodyText.GetOr(""));
  }
}
