/** Finding a pattern in a text, as `str.find` does. */
module Search {
  import opened Prelude

  predicate OccursAt(text: string, pattern: string, i: nat) {
    i + |pattern| <= |text| && text[i..i + |pattern|] == pattern
  }

  /** The first occurrence at or after `from`. */
  function Find(text: string, pattern: string, from: nat): (r: Option<nat>)
    ensures r.Some? ==> from <= r.value && r.value + |pattern| <= |text|
    decreases |text| - from
  {
    if from + |pattern| > |text| then None
    else if text[from..from + |pattern|] == pattern then Some(from)
    else Find(text, pattern, from + 1)
  }

  lemma {:induction false} FindIsFirst(text: string, pattern: string, from: nat)
    ensures var r := Find(text, pattern, from);
            && (r.Some? ==> OccursAt(text, pattern, r.value))
            && (r.Some? ==> forall i :: from <= i < r.value ==> !OccursAt(text, pattern, i))
            && (r.None? ==> forall i :: from <= i ==> !OccursAt(text, pattern, i))
    decreases |text| - from
  {
    if from + |pattern| <= |text| && text[from..from + |pattern|] != pattern {
      FindIsFirst(text, pattern, from + 1);
    }
  }
}
