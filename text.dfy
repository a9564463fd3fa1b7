/** Ordinal, case-sensitive substring search, as String.Contains(string)
    performs it. */
module Text {

  /** `needle` occurs in `s` starting at index `i`. */
  predicate OccursAt(s: string, needle: string, i: int)
  {
    0 <= i && i + |needle| <= |s| && s[i..i + |needle|] == needle
  }

  /** True when `needle` is a substring of `s`, characters compared one by one
      with no case folding. The empty string is a substring of every string. */
  function Contains(s: string, needle: string): (r: bool)
    ensures r <==> exists i :: OccursAt(s, needle, i)
    decreases |s|
  {
    if needle <= s then
      assert OccursAt(s, needle, 0);
      true
    else if s == [] then
      false
    else
      var r := Contains(s[1..], needle);
      forall i
        ensures OccursAt(s[1..], needle, i) <==> OccursAt(s, needle, i + 1)
      {
        if 0 <= i && i + 1 + |needle| <= |s| {
          assert s[1..][i..i + |needle|] == s[i + 1..i + 1 + |needle|];
        }
      }
      assert !OccursAt(s, needle, 0);
      assert forall i :: OccursAt(s, needle, i) ==> i == 0 || OccursAt(s[1..], needle, i - 1);
      r
  }

  /** Every string contains the empty string, so an empty keyword would let
      every order through. */
  lemma ContainsEmpty(s: string)
    ensures Contains(s, "")
  {
  }

  /** A string contains itself and is contained in any extension of it on
      either side. */
  lemma {:induction false} ContainsWithin(prefix: string, needle: string, suffix: string)
    ensures Contains(prefix + needle + suffix, needle)
  {
    var s := prefix + needle + suffix;
    assert s[|prefix|..|prefix| + |needle|] == needle;
    assert OccursAt(s, needle, |prefix|);
  }
}
