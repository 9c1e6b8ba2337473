/**
  `getSpiritLabel`, defined identically by the ingredient-matching and the
  image-guessing pages: the short spirit name shown for a category, taken
  from the category name's leading run of letters and spaces
  (`/^[A-Za-z ]+/`).
 */
module Labels {
  import opened Text
  import opened Collections

  /** The character class `[A-Za-z ]`. */
  predicate IsLetterOrSpace(c: char) { IsAsciiLetter(c) || c == ' ' }

  /** Length of the longest prefix of `s` drawn from `[A-Za-z ]`. */
  function LeadingRun(s: string): (k: nat)
    ensures k <= |s|
    ensures forall i :: 0 <= i < k ==> IsLetterOrSpace(s[i])
    ensures k < |s| ==> !IsLetterOrSpace(s[k])
  {
    if |s| > 0 && IsLetterOrSpace(s[0]) then 1 + LeadingRun(s[1..]) else 0
  }

  /** `getSpiritLabel(categoryName)`: "Spirit" for a missing or empty name;
      otherwise the trimmed match of `/^[A-Za-z ]+/`, or the whole name when
      it does not start with a letter or a space. */
  function SpiritLabel(categoryName: Option<string>): (r: string)
    ensures categoryName.None? || categoryName == Some("") ==> r == "Spirit"
    ensures categoryName.Some? && |categoryName.value| > 0 && !IsLetterOrSpace(categoryName.value[0])
            ==> r == categoryName.value
    ensures categoryName.Some? && |categoryName.value| > 0 && IsLetterOrSpace(categoryName.value[0])
            ==> exists k :: 0 < k <= |categoryName.value|
                  && (forall i :: 0 <= i < k ==> IsLetterOrSpace(categoryName.value[i]))
                  && (k < |categoryName.value| ==> !IsLetterOrSpace(categoryName.value[k]))
                  && r == Trim(categoryName.value[..k])
  {
    match categoryName
    case None => "Spirit"
    case Some(name) =>
      if name == "" then "Spirit"
      else
        var k := LeadingRun(name);
        if k > 0 then Trim(name[..k]) else name
  }
}
