/**
 * The offline analyser of `index.js`: the same keyword-then-year-then-default
 * analyser as the server's, with its own table and wording, and an
 * `/analyze` handler that analyses the text as given.
 */
module Index {
  import opened Wrappers
  import opened Text
  import opened Knowledge
  import opened YearPattern

  /** The table, in its authored order. */
  const KB: seq<Record> := [
    Record(["hampi"], "c. 14th–16th century (≈ 600 years)", "Vijayanagara / Historical",
      "Hampi was the capital of the Vijayanagara Empire — a vast group of ruined monuments..."),
    Record(["pattadakal"], "c. 7th–8th century (≈ 1200 years)", "Chalukya / UNESCO World Heritage",
      "Pattadakal is a UNESCO site combining Dravidian and Nagara architectural styles..."),
    Record(["belur", "chennakesava"], "c. 12th–13th century (≈ 900 years)", "Hoysala",
      "Belur Chennakesava Temple is a masterpiece of Hoysala architecture..."),
    Record(["halebidu", "hoysaleshwara"], "c. 12th–13th century (≈ 900 years)", "Hoysala",
      "Halebidu, once the Hoysala capital, contains the Hoysaleshwara temple complex..."),
    Record(["badami"], "c. 6th–8th century (≈ 1400 years)", "Early Chalukya",
      "Badami is famed for rock-cut cave temples carved into sandstone cliffs..."),
    Record(["aihole"], "c. 5th–8th century (≈ 1500 years)", "Chalukya / Temple cradle",
      "Aihole has over a hundred temples showing early experimentation in style..."),
    Record(["somanathapura", "kesava"], "c. 13th–14th century (≈ 750 years)", "Hoysala",
      "Somanathapura (Keshava Temple) is a compact Hoysala temple famous for crisp sculptures..."),
    Record(["shravanabelagola"], "c. 10th–11th century (prominent 1000 years)", "Jain Heritage",
      "Shravanabelagola is an important Jain pilgrimage site, famous for the monolithic statue of Bahubali..."),
    Record(["banavasi"], "c. 3rd–4th century (≈ 1700+ years)", "Kadamba / Ancient",
      "Banavasi was an early Kadamba kingdom capital with a long history of temple-building...")
  ]

  const NoMatchSummary := "I don't have a direct match in the KB. Paste a place name or fuller description."

  /** The answer synthesised from the number captured by the year pattern. */
  function AgeAnswer(n: string): Analysis {
    Analysis(n + " years (approx.)", "This place is roughly " + n + " years old.", "Historical")
  }

  /** The answer when neither a keyword nor the year pattern matched. */
  function UnknownAnswer(): Analysis {
    Analysis("Unknown", NoMatchSummary, "Historical / Unknown")
  }

  /** `clientAnalyze(text)`: keyword scan on the lowercased text, then the year pattern on the original, then the default. */
  function ClientAnalyze(text: string): (r: Analysis)
    ensures || (exists i :: IsFirstMatch(KB, Lower(text), i) && r == Answer(KB[i]))
            || (NoMatch(KB, Lower(text)) && exists m :: IsLeftmost(text, m) && r == AgeAnswer(m.group))
            || (NoMatch(KB, Lower(text)) && (forall i: nat :: !MatchesAt(text, i)) && r == UnknownAnswer())
  {
    var t := Lower(text);
    match FirstMatch(KB, t)
    case Some(i) => Answer(KB[i])
    case None =>
      match YearMatch(text)
      case Some(m) => AgeAnswer(m.group)
      case None => UnknownAnswer()
  }

  /** Every key of the table starts with a letter. */
  lemma KeysWellFormed()
    ensures KeysStartWithLetter(KB)
  {
    forall i | 0 <= i < |KB|
      ensures forall k :: k in KB[i].keys ==> k != [] && 'a' <= k[0] <= 'z'
    {
    }
  }

  /** Every record of the table fills all three fields. */
  lemma RecordsFilled()
    ensures FieldsPopulated(KB)
  {
  }

  /** A key of some record inside the lowercased text: the earliest such record answers. */
  lemma KeywordStage(text: string, i: int)
    requires IsFirstMatch(KB, Lower(text), i)
    ensures ClientAnalyze(text) == Answer(KB[i])
  {
    FirstMatchDetermined(KB, Lower(text), i);
  }

  /** No key in the text but the year pattern matches: the answer quotes the two to four captured digits. */
  lemma {:induction false} YearStage(text: string, m: RegexMatch)
    requires NoMatch(KB, Lower(text)) && IsLeftmost(text, m)
    ensures ClientAnalyze(text) == AgeAnswer(m.group)
    ensures 2 <= |m.group| <= 4 && forall c :: c in m.group ==> IsDigit(c)
  {
    LeftmostIsYearMatch(text, m);
  }

  /** Neither stage matches: the fixed unknown answer. */
  lemma DefaultStage(text: string)
    requires NoMatch(KB, Lower(text)) && forall i: nat :: !MatchesAt(text, i)
    ensures ClientAnalyze(text) == UnknownAnswer()
  {
  }

  /** A text holding neither "hampi" nor "pattadakal" matches none of the first two records. */
  lemma FirstTwoMiss(t: string)
    requires !Occurs("hampi", t) && !Occurs("pattadakal", t)
    ensures !Matches(KB[0], t) && !Matches(KB[1], t)
  {
    assert KB[0].keys == ["hampi"] && KB[1].keys == ["pattadakal"];
  }

  /** A text holding neither "belur" nor "chennakesava" misses Belur's record. */
  lemma BelurMisses(t: string)
    requires !Occurs("belur", t) && !Occurs("chennakesava", t)
    ensures !Matches(KB[2], t)
  {
    assert KB[2].keys == ["belur", "chennakesava"];
  }

  /** "chennakesava" is Belur's second key. */
  lemma BelurMatches(t: string)
    requires Occurs("chennakesava", t)
    ensures Matches(KB[2], t)
  {
    assert "chennakesava" in KB[2].keys;
  }

  /** "hoysaleshwara" is Halebidu's second key. */
  lemma HalebiduMatches(t: string)
    requires Occurs("hoysaleshwara", t)
    ensures Matches(KB[3], t)
  {
    assert "hoysaleshwara" in KB[3].keys;
  }

  /** "chennakesava" holds neither "hampi" nor "pattadakal", but does hold "kesava". */
  lemma ChennakesavaKeys()
    ensures !Occurs("hampi", "chennakesava") && !Occurs("pattadakal", "chennakesava")
    ensures Occurs("kesava", "chennakesava") && Occurs("chennakesava", "chennakesava")
  {
    AbsentCharExcludes("hampi", "chennakesava", 2);
    AbsentCharExcludes("pattadakal", "chennakesava", 0);
    assert OccursAt("kesava", "chennakesava", 6);
    assert OccursAt("chennakesava", "chennakesava", 0);
  }

  /** In the text "chennakesava", Belur is the first record that matches. */
  lemma BelurFirst()
    ensures IsFirstMatch(KB, "chennakesava", 2)
  {
    var t := "chennakesava";
    ChennakesavaKeys();
    FirstTwoMiss(t);
    BelurMatches(t);
  }

  /**
   * "chennakesava" contains Somanathapura's key "kesava", but Belur comes
   * first in the table and also lists it, so Belur answers, in any
   * capitalisation.
   */
  lemma ChennakesavaIsBelur(text: string)
    requires Lower(text) == "chennakesava"
    ensures Occurs("kesava", Lower(text))
    ensures ClientAnalyze(text) == Answer(KB[2])
  {
    ChennakesavaKeys();
    BelurFirst();
    KeywordStage(text, 2);
  }

  /** "hoysaleshwara" holds neither "hampi" nor "pattadakal". */
  lemma HoysaleshwaraMissesFirstTwo()
    ensures !Occurs("hampi", "hoysaleshwara") && !Occurs("pattadakal", "hoysaleshwara")
  {
    AbsentCharExcludes("hampi", "hoysaleshwara", 2);
    AbsentCharExcludes("pattadakal", "hoysaleshwara", 0);
  }

  /** "hoysaleshwara" holds neither of Belur's keys, but holds itself. */
  lemma HoysaleshwaraMissesBelur()
    ensures !Occurs("belur", "hoysaleshwara") && !Occurs("chennakesava", "hoysaleshwara")
    ensures Occurs("hoysaleshwara", "hoysaleshwara")
  {
    AbsentCharExcludes("belur", "hoysaleshwara", 0);
    AbsentCharExcludes("chennakesava", "hoysaleshwara", 0);
    assert OccursAt("hoysaleshwara", "hoysaleshwara", 0);
  }

  /** In the text "hoysaleshwara", Halebidu is the first record that matches. */
  lemma HalebiduFirst()
    ensures IsFirstMatch(KB, "hoysaleshwara", 3)
  {
    var t := "hoysaleshwara";
    HoysaleshwaraMissesFirstTwo();
    HoysaleshwaraMissesBelur();
    FirstTwoMiss(t);
    BelurMisses(t);
    HalebiduMatches(t);
  }

  /** "hoysaleshwara", in any capitalisation, is Halebidu's second key and no earlier record matches it. */
  lemma HoysaleshwaraIsHalebidu(text: string)
    requires Lower(text) == "hoysaleshwara"
    ensures ClientAnalyze(text) == Answer(KB[3])
  {
    HalebiduFirst();
    KeywordStage(text, 3);
  }

  /** Every answer of the analyser has three non-empty fields. */
  lemma AnswerPopulated(text: string)
    ensures var r := ClientAnalyze(text); r.year != [] && r.summary != [] && r.category != []
  {
    RecordsFilled();
  }

  /** The analyser is case-insensitive: a text and its lowercase form get the same answer. */
  lemma {:induction false} IgnoresCase(text: string)
    ensures ClientAnalyze(Lower(text)) == ClientAnalyze(text)
  {
    LowerIdempotent(text);
    YearMatchIgnoresCase(text);
  }

  /** The `/analyze` handler: `bodyText` is `req.body.text`, `None` when it is missing. */
  function HandleAnalyze(bodyText: Option<string>): Analysis {
    ClientAnalyze(bodyText.GetOr(""))
  }

  /**
   * A missing text is analysed as "", and the text is not trimmed: missing,
   * empty and whitespace-only text all get the default answer.
   */
  lemma {:induction false} BlankTextIsDefault(bodyText: Option<string>)
    requires forall q :: 0 <= q < |bodyText.GetOr("")| ==> IsSpace(bodyText.GetOr("")[q])
    ensures HandleAnalyze(bodyText) == UnknownAnswer()
  {
    var text := bodyText.GetOr("");
    LowerKeepsBlank(text);
    KeysWellFormed();
    BlankMatchesNothing(KB, Lower(text));
    forall i: nat
      ensures !MatchesAt(text, i)
    {
      MatchStartsWithDigits(text, i);
    }
  }
}
