/**
  The three predicates of Go's `strings` package that the image-name rule
  uses. Go strings are byte strings; all three predicates only compare
  elements, so they are stated here over any `string`.
 */
module GoStrings {

  /** strings.HasPrefix: `p` is an initial segment of `s`. */
  predicate HasPrefix(s: string, p: string)
  {
    |p| <= |s| && s[..|p|] == p
  }

  /** strings.HasSuffix: `q` is a final segment of `s`. */
  predicate HasSuffix(s: string, q: string)
  {
    |q| <= |s| && s[|s| - |q|..] == q
  }

  /** strings.Contains: `t` occurs somewhere in `s` (the empty string occurs everywhere). */
  predicate Contains(s: string, t: string)
    decreases |s|
  {
    HasPrefix(s, t) || (|s| > 0 && Contains(s[1..], t))
  }

  /** `t` occurs in `s` starting at offset `i`. */
  predicate OccursAt(s: string, t: string, i: int)
  {
    0 <= i <= |s| - |t| && s[i..i + |t|] == t
  }

  /** Contains means exactly that `t` occurs at some offset of `s`. */
  lemma {:induction false} ContainsAt(s: string, t: string)
    ensures Contains(s, t) <==> exists i :: OccursAt(s, t, i)
  {
    if HasPrefix(s, t) {
      assert OccursAt(s, t, 0);
    } else if |s| == 0 {
      assert forall i :: !OccursAt(s, t, i);
    } else {
      ContainsAt(s[1..], t);
      if exists i :: OccursAt(s, t, i) {
        var i :| OccursAt(s, t, i);
        assert i != 0;
        assert s[1..][i - 1..i - 1 + |t|] == s[i..i + |t|];
        assert OccursAt(s[1..], t, i - 1);
      }
      if Contains(s[1..], t) {
        var i :| OccursAt(s[1..], t, i);
        assert s[1..][i..i + |t|] == s[i + 1..i + 1 + |t|];
        assert OccursAt(s, t, i + 1);
      }
    }
  }

  /** The empty string is contained in every string, and every prefix is contained. */
  lemma PrefixContained(s: string, p: string)
    requires HasPrefix(s, p)
    ensures Contains(s, p) && Contains(s, "")
  {
  }

  /** Only a string no longer than `s` can occur in it, and each of its characters occurs in `s`. */
  lemma {:induction false} ContainedCharsOccur(s: string, t: string)
    requires Contains(s, t)
    ensures |t| <= |s|
    ensures forall k :: 0 <= k < |t| ==> t[k] in s
  {
    if HasPrefix(s, t) {
      forall k | 0 <= k < |t| ensures t[k] in s {
        assert t[k] == s[k];
      }
    } else {
      ContainedCharsOccur(s[1..], t);
      forall k | 0 <= k < |t| ensures t[k] in s {
        assert t[k] in s[1..];
      }
    }
  }

  /** A string with a character that `s` lacks does not occur in `s`. */
  lemma MissingCharNotContained(s: string, t: string, k: int)
    requires 0 <= k < |t| && t[k] !in s
    ensures !Contains(s, t)
  {
    if Contains(s, t) {
      ContainedCharsOccur(s, t);
    }
  }

  /** A concatenation starts with its first part and ends with its second. */
  lemma ConcatPrefixSuffix(p: string, t: string)
    ensures HasPrefix(p + t, p) && HasSuffix(p + t, t)
  {
    assert (p + t)[..|p|] == p;
    assert (p + t)[|p + t| - |t|..] == t;
  }
}
