/**
 * The two string operations the component relies on: lower-casing
 * (`String.prototype.toLowerCase`, modelled on ASCII letters) and
 * substring search (`String.prototype.includes`).
 */
module Text {

  /** ASCII lower-casing of one character; every other character is kept. */
  function LowerChar(c: char): char
  {
    if 'A' <= c <= 'Z' then (c as int + 32) as char else c
  }

  /** Lower-cases a string character by character. */
  function Lower(s: string): (r: string)
    ensures |r| == |s|
    ensures forall i :: 0 <= i < |s| ==> r[i] == LowerChar(s[i])
  {
    if |s| == 0 then "" else [LowerChar(s[0])] + Lower(s[1..])
  }

  /** `text` begins with `part`. */
  predicate StartsWith(text: string, part: string)
  {
    |part| <= |text| && text[..|part|] == part
  }

  /** `text.includes(part)`: `part` occurs somewhere in `text`. */
  predicate Contains(text: string, part: string)
    decreases |text|
  {
    StartsWith(text, part) || (|text| > 0 && Contains(text[1..], part))
  }

  /** `part` occurs in `text` at offset `i`. */
  predicate OccursAt(text: string, part: string, i: int)
  {
    0 <= i <= |text| - |part| && text[i..i + |part|] == part
  }

  /** The scan agrees with the definition of a substring: an offset where `part` occurs. */
  lemma {:induction false} ContainsAt(text: string, part: string)
    ensures Contains(text, part) <==> exists i :: OccursAt(text, part, i)
    decreases |text|
  {
    if Contains(text, part) {
      if StartsWith(text, part) {
        assert OccursAt(text, part, 0);
      } else {
        ContainsAt(text[1..], part);
        var i :| OccursAt(text[1..], part, i);
        assert text[i + 1..i + 1 + |part|] == text[1..][i..i + |part|];
        assert OccursAt(text, part, i + 1);
      }
    }
    if exists i :: OccursAt(text, part, i) {
      var i :| OccursAt(text, part, i);
      if i == 0 {
        assert StartsWith(text, part);
      } else {
        assert text[1..][i - 1..i - 1 + |part|] == text[i..i + |part|];
        assert OccursAt(text[1..], part, i - 1);
        ContainsAt(text[1..], part);
      }
    }
  }
}
