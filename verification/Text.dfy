/** Python string operations shared by several components. */
module Text {
  /** Python's `str.strip`; which characters count as space is a parameter. */
  function Strip(space: char -> bool, text: string): string
    decreases |text|
  {
    if text != "" && space(text[0]) then Strip(space, text[1..])
    else if text != "" && space(text[|text| - 1]) then Strip(space, text[..|text| - 1])
    else text
  }

  predicate AllSpace(space: char -> bool, text: string) { forall k :: 0 <= k < |text| ==> space(text[k]) }

  /** Stripping cuts only space, at the two ends, and leaves none there. */
  lemma {:induction false} StripIs(space: char -> bool, text: string) returns (front: string, back: string)
    ensures text == front + Strip(space, text) + back && AllSpace(space, front) && AllSpace(space, back)
    ensures var s := Strip(space, text); s != "" ==> !space(s[0]) && !space(s[|s| - 1])
    decreases |text|
  {
    front, back := "", "";
    if text != "" && space(text[0]) {
      front, back := StripIs(space, text[1..]);
      var mid := Strip(space, text[1..]);
      assert text == [text[0]] + (front + mid + back) == ([text[0]] + front) + mid + back;
      front := [text[0]] + front;
    } else if text != "" && space(text[|text| - 1]) {
      var last := text[|text| - 1];
      front, back := StripIs(space, text[..|text| - 1]);
      var mid := Strip(space, text[..|text| - 1]);
      assert text == (front + mid + back) + [last] == front + mid + (back + [last]);
      back := back + [last];
    }
  }
}
