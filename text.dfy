/** String helpers: Python truthiness of dialog results, `str.lower` and `in`. */
module Text {
  import opened Wrappers

  /** Python truthiness of a dialog result: `None` and `""` are both false. */
  predicate Given(s: Option<string>)
  {
    s.Some? && s.value != ""
  }

  /** `answer or "General"`, the default category of the add and edit dialogs. */
  function OrGeneral(s: Option<string>): string
  {
    if Given(s) then s.value else "General"
  }

  /** `str.lower` on one character, restricted to ASCII letters. */
  function LowerChar(ch: char): char
  {
    if 'A' <= ch <= 'Z' then (ch as int + 32) as char else ch
  }

  /** `str.lower`, character by character. */
  function Lower(s: string): (r: string)
    ensures |r| == |s|
    ensures forall i :: 0 <= i < |s| ==> r[i] == LowerChar(s[i]) && !('A' <= r[i] <= 'Z')
  {
    seq(|s|, i requires 0 <= i < |s| => LowerChar(s[i]))
  }

  /** Lowering twice is lowering once, so a lowered term is its own lowering. */
  lemma LowerIdempotent(s: string)
    ensures Lower(Lower(s)) == Lower(s)
  {
  }

  /** Python's `term in text` on strings: `term` occurs as a contiguous slice of `text`. */
  predicate Contains(text: string, term: string)
  {
    exists k :: 0 <= k <= |text| - |term| && term <= text[k..]
  }

  /** The empty string occurs in every string. */
  lemma ContainsEmpty(text: string)
    ensures Contains(text, "")
  {
    assert "" <= text[0..];
  }

  /** An occurrence of `term` is found in any text that extends the text around it. */
  lemma ContainsAt(text: string, term: string, k: nat)
    requires k + |term| <= |text| && text[k..k + |term|] == term
    ensures Contains(text, term)
  {
    assert term <= text[k..];
  }
}
