/**
 * First-occurrence search and replacement on strings, with the meaning of
 * JavaScript's `String.prototype.indexOf` (from index 0) and of
 * `String.prototype.replace` when its pattern is a plain string: the pattern
 * is matched literally and only its first occurrence is replaced. Indices
 * here count Unicode scalar values, while JavaScript counts UTF-16 code units;
 * the two agree on whether the index is 0, which is the only use the proxy
 * makes of `indexOf`, and `replace` does not expose indices at all.
 */
module Text {
  import opened Wrappers

  /** `p` occurs in `s` starting at index `i`. */
  predicate OccursAt(s: string, p: string, i: nat) {
    i + |p| <= |s| && s[i..i + |p|] == p
  }

  /** `p` occurs somewhere in `s`. */
  predicate Contains(s: string, p: string) {
    exists i: nat | i <= |s| :: OccursAt(s, p, i)
  }

  /** The first occurrence of `p` in `s` at or after index `k`. */
  function IndexFrom(s: string, p: string, k: nat): (r: Option<nat>)
    requires k <= |s|
    ensures r.Some? ==> k <= r.value && OccursAt(s, p, r.value)
    ensures r.Some? ==> forall j: nat :: k <= j < r.value ==> !OccursAt(s, p, j)
    ensures r.None? ==> forall j: nat :: k <= j ==> !OccursAt(s, p, j)
    decreases |s| - k
  {
    if k + |p| > |s| then None
    else if s[k..k + |p|] == p then Some(k)
    else IndexFrom(s, p, k + 1)
  }

  /** `s.indexOf(p)`, with `None` standing for the result -1. */
  function IndexOf(s: string, p: string): (r: Option<nat>)
    ensures r.Some? ==> OccursAt(s, p, r.value)
    ensures r.Some? ==> forall j: nat :: j < r.value ==> !OccursAt(s, p, j)
    ensures r.None? <==> !Contains(s, p)
  {
    IndexFrom(s, p, 0)
  }

  /** An occurrence with no earlier one is the one `IndexOf` finds. */
  lemma FirstOccurrence(s: string, p: string, i: nat)
    requires OccursAt(s, p, i)
    requires forall j: nat :: j < i ==> !OccursAt(s, p, j)
    ensures IndexOf(s, p) == Some(i)
  {
    assert Contains(s, p);
  }

  /** `s.indexOf(p) === 0` holds exactly when `p` is a prefix of `s`. */
  lemma IndexZeroIffPrefix(s: string, p: string)
    ensures IndexOf(s, p) == Some(0) <==> p <= s
  {
    if p <= s {
      assert OccursAt(s, p, 0);
      FirstOccurrence(s, p, 0);
    }
  }

  /**
   * `s.replace(pat, rep)` for a replacement without `$` (JavaScript expands
   * `$&`, `$$` and the like in the replacement; neither use here has one):
   * the first occurrence of `pat` in `s` is replaced by `rep`; the text before
   * and after it is kept, and a text without `pat` comes back unchanged.
   */
  function ReplaceFirst(s: string, pat: string, rep: string): (r: string)
    ensures !Contains(s, pat) ==> r == s
    ensures Contains(s, pat) ==> |r| == |s| - |pat| + |rep|
    ensures forall i: nat :: IndexOf(s, pat) == Some(i) ==>
              && i + |rep| <= |r|
              && r[..i] == s[..i]
              && r[i..i + |rep|] == rep
              && r[i + |rep|..] == s[i + |pat|..]
  {
    match IndexOf(s, pat)
    case None => s
    case Some(i) => s[..i] + rep + s[i + |pat|..]
  }

  /**
   * The replacement leaves the text unchanged exactly when the pattern is
   * absent (for a replacement that differs from the pattern).
   */
  lemma ReplaceFirstFixedIff(s: string, pat: string, rep: string)
    requires pat != rep
    ensures ReplaceFirst(s, pat, rep) == s <==> !Contains(s, pat)
  {
    if Contains(s, pat) {
      var i := IndexOf(s, pat).value;
      var r := ReplaceFirst(s, pat, rep);
      if |rep| == |pat| {
        assert r[i..i + |rep|] != s[i..i + |pat|];
      }
    }
  }
}
