/**
 * The local knowledge base shared by both analysers: a table of records
 * scanned in order, each record answering for any of its trigger keys.
 */
module Knowledge {
  import opened Wrappers
  import opened Text

  /** One row of a `KB` table: lowercase trigger keys and the three fields it answers with. */
  datatype Record = Record(keys: seq<string>, year: string, category: string, summary: string)

  /** The `{ year, summary, category }` object every analysis path returns. */
  datatype Analysis = Analysis(year: string, summary: string, category: string)

  /** The answer built from a matching record. */
  function Answer(rec: Record): Analysis {
    Analysis(rec.year, rec.summary, rec.category)
  }

  /** Some key of `rec` is a substring of the (already lowercased) text `t`. */
  ghost predicate Matches(rec: Record, t: string) {
    exists k :: k in rec.keys && Occurs(k, t)
  }

  /** Record `i` matches `t` and no record before it does. */
  ghost predicate IsFirstMatch(kb: seq<Record>, t: string, i: int) {
    0 <= i < |kb| && Matches(kb[i], t) && forall j :: 0 <= j < i ==> !Matches(kb[j], t)
  }

  /** No record of `kb` matches `t`. */
  ghost predicate NoMatch(kb: seq<Record>, t: string) {
    forall j :: 0 <= j < |kb| ==> !Matches(kb[j], t)
  }

  /** The inner loop `for (const k of item.keys) if (t.includes(k)) …`, keys in listed order. */
  function AnyKeyIncluded(keys: seq<string>, t: string): (b: bool)
    ensures b <==> exists k :: k in keys && Occurs(k, t)
  {
    if keys == [] then false
    else Includes(t, keys[0]) || AnyKeyIncluded(keys[1..], t)
  }

  /** The outer loop `for (const item of KB)` from record `from` on, stopping at the first hit. */
  function FirstMatchFrom(kb: seq<Record>, t: string, from: nat): (r: Option<nat>)
    requires from <= |kb|
    ensures r.Some? ==> from <= r.value < |kb| && Matches(kb[r.value], t)
                        && forall j :: from <= j < r.value ==> !Matches(kb[j], t)
    ensures r.None? ==> forall j :: from <= j < |kb| ==> !Matches(kb[j], t)
    decreases |kb| - from
  {
    if from == |kb| then None
    else if AnyKeyIncluded(kb[from].keys, t) then Some(from)
    else FirstMatchFrom(kb, t, from + 1)
  }

  /**
   * The index of the record the keyword scan returns: the earliest record in
   * table order with a key inside `t`, and none when no record has one.
   */
  function FirstMatch(kb: seq<Record>, t: string): (r: Option<nat>)
    ensures r.Some? ==> IsFirstMatch(kb, t, r.value)
    ensures r.None? <==> NoMatch(kb, t)
  {
    FirstMatchFrom(kb, t, 0)
  }

  /** The first-match condition picks at most one record, so it decides the scan's result. */
  lemma {:induction false} FirstMatchDetermined(kb: seq<Record>, t: string, i: int)
    requires IsFirstMatch(kb, t, i)
    ensures FirstMatch(kb, t) == Some(i)
  {
  }

  /** Every record answers with three non-empty strings. */
  ghost predicate FieldsPopulated(kb: seq<Record>) {
    forall i :: 0 <= i < |kb| ==> kb[i].year != [] && kb[i].summary != [] && kb[i].category != []
  }

  /** Every key starts with a lowercase ASCII letter. */
  ghost predicate KeysStartWithLetter(kb: seq<Record>) {
    forall i :: 0 <= i < |kb| ==> forall k :: k in kb[i].keys ==> k != [] && 'a' <= k[0] <= 'z'
  }

  /** An occurrence of a non-empty key starts with the key's first character. */
  lemma OccursAtStart(k: string, t: string, p: int)
    requires k != []
    ensures OccursAt(k, t, p) ==> t[p] == k[0]
  {
    if OccursAt(k, t, p) {
      assert t[p..p + |k|][0] == k[0];
    }
  }

  /** Text made of whitespace alone matches no record whose keys start with a letter. */
  lemma {:induction false} BlankMatchesNothing(kb: seq<Record>, t: string)
    requires KeysStartWithLetter(kb)
    requires forall q :: 0 <= q < |t| ==> IsSpace(t[q])
    ensures NoMatch(kb, t)
  {
    forall j, k, p | 0 <= j < |kb| && k in kb[j].keys
      ensures !OccursAt(k, t, p)
    {
      OccursAtStart(k, t, p);
    }
  }
}
