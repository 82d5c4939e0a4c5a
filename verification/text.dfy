/** `String.prototype.includes`, the substring test behind the ownership marker. */
module Text {

  /** `needle` occurs in `s` starting at index `i`. */
  predicate OccursAt(s: string, needle: string, i: int) {
    0 <= i && i + |needle| <= |s| && s[i..i + |needle|] == needle
  }

  /** Scans the start positions `from`, `from + 1`, ... for an occurrence. */
  function IncludesFrom(s: string, needle: string, from: nat): (b: bool)
    ensures b <==> exists i :: from <= i && OccursAt(s, needle, i)
    decreases |s| - from
  {
    if from + |needle| > |s| then false
    else if s[from..from + |needle|] == needle then
      assert OccursAt(s, needle, from);
      true
    else IncludesFrom(s, needle, from + 1)
  }

  /** `s.includes(needle)`: true iff `needle` occurs somewhere in `s`; the empty
      string occurs in every string. */
  function Includes(s: string, needle: string): (b: bool)
    ensures b <==> exists i :: OccursAt(s, needle, i)
    ensures |needle| == 0 ==> b
    ensures |needle| > |s| ==> !b
  {
    assert |needle| == 0 ==> OccursAt(s, needle, 0);
    IncludesFrom(s, needle, 0)
  }

  /** A text built around a marker includes that marker. */
  lemma IncludesEmbedded(prefix: string, needle: string, suffix: string)
    ensures Includes(prefix + needle + suffix, needle)
  {
    var s := prefix + needle + suffix;
    assert s[|prefix|..|prefix| + |needle|] == needle;
    assert OccursAt(s, needle, |prefix|);
  }
}
