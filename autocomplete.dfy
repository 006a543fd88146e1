/**
 * The autocomplete list: the fixed list of Indian states and the
 * case-insensitive substring filter `handleSearchChange` applies to it.
 */
module Autocomplete {
  import opened Text

  /** The candidate list, in the order the component declares it. */
  const States: seq<string> := [
    "Andhra Pradesh", "Arunachal Pradesh", "Assam", "Bihar", "Chhattisgarh",
    "Goa", "Gujarat", "Haryana", "Himachal Pradesh", "Jharkhand",
    "Karnataka", "Kerala", "Madhya Pradesh", "Maharashtra", "Manipur",
    "Meghalaya", "Mizoram", "Nagaland", "Odisha", "Punjab",
    "Rajasthan", "Sikkim", "Tamil Nadu", "Telangana", "Tripura",
    "Uttar Pradesh", "Uttarakhand", "West Bengal"
  ]

  /** An entry is suggested for a query when its lower-cased text contains the lower-cased query. */
  predicate Matches(entry: string, query: string)
  {
    Contains(Lower(entry), Lower(query))
  }

  /** `r` is obtained from `xs` by deleting elements, keeping the order of the rest. */
  predicate SubsequenceOf<T(==)>(r: seq<T>, xs: seq<T>)
    decreases |xs|
  {
    if |r| == 0 then true
    else if |xs| == 0 then false
    else (r[0] == xs[0] && SubsequenceOf(r[1..], xs[1..])) || SubsequenceOf(r, xs[1..])
  }

  /** `entries.filter(s => Matches(s, query))`. */
  function Filter(entries: seq<string>, query: string): (r: seq<string>)
    ensures SubsequenceOf(r, entries)
    ensures forall x {:trigger x in r} :: x in r <==> x in entries && Matches(x, query)
    ensures forall x :: multiset(r)[x] == if Matches(x, query) then multiset(entries)[x] else 0
  {
    if |entries| == 0 then []
    else
      assert entries == [entries[0]] + entries[1..];
      var rest := Filter(entries[1..], query);
      if Matches(entries[0], query) then [entries[0]] + rest else rest
  }

  /**
   * The suggestion list for the input value over the candidate list (the
   * component passes `States`): nothing for an empty value, else the
   * filtered candidates.
   */
  function Suggestions(candidates: seq<string>, value: string): (r: seq<string>)
    ensures SubsequenceOf(r, candidates)
    ensures |value| == 0 ==> r == []
  {
    if |value| == 0 then [] else Filter(candidates, value)
  }

  /** A candidate is suggested exactly when the value is non-empty and the candidate matches it. */
  lemma SuggestionsAreMatches(candidates: seq<string>, value: string)
    ensures forall x {:trigger x in Suggestions(candidates, value)} ::
              x in Suggestions(candidates, value) <==> |value| > 0 && x in candidates && Matches(x, value)
  {
  }

  /** Every state is listed once, so membership alone fixes how often a suggestion appears. */
  lemma StatesDistinct()
    ensures forall i, j :: 0 <= i < j < |States| ==> States[i] != States[j]
  {
  }

  /** No element occurs twice in `s`. */
  ghost predicate Distinct<T>(s: seq<T>)
  {
    forall i, j :: 0 <= i < j < |s| ==> s[i] != s[j]
  }

  /** Every element of a subsequence is an element of the sequence it was taken from. */
  lemma {:induction false} SubsequenceMembers<T>(r: seq<T>, xs: seq<T>)
    requires SubsequenceOf(r, xs)
    ensures forall y :: y in r ==> y in xs
    decreases |xs|
  {
    if |r| > 0 {
      if r[0] == xs[0] && SubsequenceOf(r[1..], xs[1..]) {
        SubsequenceMembers(r[1..], xs[1..]);
        assert r == [r[0]] + r[1..];
      } else {
        SubsequenceMembers(r, xs[1..]);
      }
    }
  }

  /** A subsequence of a list without repetitions has no repetitions. */
  lemma {:induction false} SubsequenceOfDistinct<T>(r: seq<T>, xs: seq<T>)
    requires SubsequenceOf(r, xs) && Distinct(xs)
    ensures Distinct(r)
    decreases |xs|
  {
    if |r| > 0 {
      assert Distinct(xs[1..]);
      if r[0] == xs[0] && SubsequenceOf(r[1..], xs[1..]) {
        SubsequenceOfDistinct(r[1..], xs[1..]);
        SubsequenceMembers(r[1..], xs[1..]);
        assert xs[0] !in xs[1..];
        forall i, j | 0 <= i < j < |r| ensures r[i] != r[j] {
          if i == 0 {
            assert r[j] == r[1..][j - 1];
          } else {
            assert r[i] == r[1..][i - 1] && r[j] == r[1..][j - 1];
          }
        }
      } else {
        SubsequenceOfDistinct(r, xs[1..]);
      }
    }
  }

  /** The suggestion list never shows a state twice. */
  lemma SuggestionsDistinct(value: string)
    ensures Distinct(Suggestions(States, value))
  {
    StatesDistinct();
    SubsequenceOfDistinct(Suggestions(States, value), States);
  }
}
