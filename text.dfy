/** The two string operations the page uses: `toLowerCase` (ASCII letters
    only) and `includes` (substring test). */
module Text {

  /** Lower-cases one ASCII upper-case letter; every other character is kept. */
  function LowerChar(c: char): char {
    if 'A' <= c <= 'Z' then (c as int + 32) as char else c
  }

  /** `String.prototype.toLowerCase`, restricted to ASCII letters. */
  function ToLower(s: string): (r: string)
    ensures |r| == |s|
    ensures forall i :: 0 <= i < |s| ==> r[i] == LowerChar(s[i])
    decreases |s|
  {
    if s == "" then "" else [LowerChar(s[0])] + ToLower(s[1..])
  }

  /** No upper-case ASCII letter is left. */
  predicate IsLower(s: string) {
    forall i :: 0 <= i < |s| ==> !('A' <= s[i] <= 'Z')
  }

  lemma ToLowerIsLower(s: string)
    ensures IsLower(ToLower(s))
    ensures s == ToLower(s) <==> IsLower(s)
  {
  }

  /** Lower-casing twice is lower-casing once. */
  lemma ToLowerIdempotent(s: string)
    ensures ToLower(ToLower(s)) == ToLower(s)
  {
  }

  /** `term` occurs in `text` starting at index `i`. */
  predicate SubstringAt(text: string, term: string, i: int) {
    0 <= i && i + |term| <= |text| && text[i..i + |term|] == term
  }

  /** `String.prototype.includes`: tries every start position from the left. */
  function Includes(text: string, term: string): (r: bool)
    ensures r ==> |term| <= |text|
    ensures term == "" ==> r
    decreases |text|
  {
    if |term| > |text| then false
    else if text[..|term|] == term then true
    else Includes(text[1..], term)
  }

  /** `Includes` holds exactly when `term` occurs at some index of `text`. */
  lemma {:induction false} IncludesSpec(text: string, term: string)
    ensures Includes(text, term) <==> exists i :: SubstringAt(text, term, i)
    decreases |text|
  {
    if |term| > |text| {
      assert forall i :: !SubstringAt(text, term, i);
    } else if text[..|term|] == term {
      assert SubstringAt(text, term, 0);
    } else {
      IncludesSpec(text[1..], term);
      forall j | SubstringAt(text[1..], term, j)
        ensures SubstringAt(text, term, j + 1)
      {
        assert text[1..][j..j + |term|] == text[j + 1..j + 1 + |term|];
      }
      forall i | SubstringAt(text, term, i)
        ensures SubstringAt(text[1..], term, i - 1)
      {
        assert i != 0;
        assert text[1..][i - 1..i - 1 + |term|] == text[i..i + |term|];
      }
    }
  }

  /** Every string includes the empty string. */
  lemma IncludesEmpty(text: string)
    ensures Includes(text, "")
  {
  }
}
