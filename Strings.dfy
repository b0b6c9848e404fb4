/** Searching a string for a doubled character: `std::string::find` of the
    two-character patterns "<<" and "::". */
module Strings {
  import opened Wrappers

  /** The first index `i >= k` at which `s` holds `c` twice in a row. */
  function FindDoubled(s: string, c: char, k: nat): (r: Option<nat>)
    requires k <= |s|
    ensures r.Some? ==> k <= r.value && r.value + 1 < |s| && s[r.value] == c && s[r.value + 1] == c
    ensures forall i :: k <= i < |s| - 1 && (r.None? || i < r.value) ==> !(s[i] == c && s[i + 1] == c)
    decreases |s| - k
  {
    if k + 1 >= |s| then None
    else if s[k] == c && s[k + 1] == c then Some(k)
    else FindDoubled(s, c, k + 1)
  }
}
