/**
 * `strings.Replace(s, pat, "", -1)`, the call every get/delete path uses to strip a
 * resource-type prefix from an id: every non-overlapping occurrence of `pat` is removed,
 * scanning left to right, in a single pass.
 */
module Strings {

  /** `pat` occurs in `s` starting at position `i`. */
  predicate OccursAt(s: string, pat: string, i: nat) {
    i + |pat| <= |s| && s[i..i + |pat|] == pat
  }

  predicate Occurs(s: string, pat: string) {
    exists i: nat | i <= |s| :: OccursAt(s, pat, i)
  }

  /** Removes every non-overlapping occurrence of `pat` from `s`, left to right. */
  function RemoveAll(s: string, pat: string): (r: string)
    ensures |r| <= |s|
    decreases |s|
  {
    if pat == [] || |s| < |pat| then s
    else if s[..|pat|] == pat then RemoveAll(s[|pat|..], pat)
    else [s[0]] + RemoveAll(s[1..], pat)
  }

  /** Removal shortens an id only when the pattern is non-empty and occurs in it. */
  lemma {:induction false} RemoveAllShortensOnlyOnOccurrence(s: string, pat: string)
    requires |RemoveAll(s, pat)| < |s|
    ensures pat != [] && Occurs(s, pat)
    decreases |s|
  {
    if s[..|pat|] == pat {
      assert OccursAt(s, pat, 0);
    } else {
      RemoveAllShortensOnlyOnOccurrence(s[1..], pat);
      ShiftOccurs(s, pat);
    }
  }

  /** Occurrences in `s[1..]` are the occurrences in `s` shifted by one. */
  lemma ShiftOccursAt(s: string, pat: string, i: nat)
    requires |s| > 0
    ensures OccursAt(s[1..], pat, i) <==> OccursAt(s, pat, i + 1)
  {
    if i + 1 + |pat| <= |s| {
      assert s[1..][i..i + |pat|] == s[i + 1..i + 1 + |pat|];
    }
  }

  /** So a pattern occurring in `s[1..]` occurs in `s`. */
  lemma ShiftOccurs(s: string, pat: string)
    requires |s| > 0
    ensures Occurs(s[1..], pat) ==> Occurs(s, pat)
  {
    if Occurs(s[1..], pat) {
      var j: nat :| j <= |s[1..]| && OccursAt(s[1..], pat, j);
      ShiftOccursAt(s, pat, j);
    }
  }

  /** The first position at which `pat` occurs in `s`, or -1 (Go's `strings.Index`). */
  function IndexOf(s: string, pat: string): (k: int)
    ensures -1 <= k && (k >= 0 ==> k + |pat| <= |s|)
    decreases |s|
  {
    if |s| < |pat| then -1
    else if s[..|pat|] == pat then 0
    else
      var j := IndexOf(s[1..], pat);
      if j < 0 then -1 else j + 1
  }

  /** `IndexOf` finds the first occurrence, and -1 means the pattern does not occur at all. */
  lemma {:induction false} IndexOfFindsFirst(s: string, pat: string)
    ensures var k := IndexOf(s, pat);
      && (k >= 0 ==> OccursAt(s, pat, k) && forall j: nat | j < k :: !OccursAt(s, pat, j))
      && (k < 0 ==> !Occurs(s, pat))
    decreases |s|
  {
    if |pat| <= |s| && s[..|pat|] == pat {
      assert OccursAt(s, pat, 0);
    } else if |pat| <= |s| {
      var j := IndexOf(s[1..], pat);
      IndexOfFindsFirst(s[1..], pat);
      forall i: nat ensures OccursAt(s[1..], pat, i) <==> OccursAt(s, pat, i + 1) {
        ShiftOccursAt(s, pat, i);
      }
      assert !OccursAt(s, pat, 0);
      if j < 0 {
        forall i: nat | i <= |s| ensures !OccursAt(s, pat, i) {
          if i > 0 { assert !OccursAt(s[1..], pat, i - 1); }
        }
      } else {
        forall i: nat | i < j + 1 ensures !OccursAt(s, pat, i) {
          if i > 0 { assert !OccursAt(s[1..], pat, i - 1); }
        }
      }
    }
  }

  /**
   * The removal as Go's `strings.Replace` performs it: an empty pattern leaves `s` as it is;
   * otherwise `strings.Index` finds the next match, the text before it is kept, and the search
   * goes on after the match.
   */
  function RemoveAllByIndex(s: string, pat: string): string
    decreases |s|
  {
    if pat == [] then s
    else
      var k := IndexOf(s, pat);
      if k < 0 then s else s[..k] + RemoveAllByIndex(s[k + |pat|..], pat)
  }

  /** The scan keeps everything before the first match and goes on after it. */
  lemma {:induction false} RemoveAllAtFirstMatch(s: string, pat: string, k: nat)
    requires pat != [] && OccursAt(s, pat, k)
    requires forall i: nat | i < k :: !OccursAt(s, pat, i)
    ensures RemoveAll(s, pat) == s[..k] + RemoveAll(s[k + |pat|..], pat)
    decreases k
  {
    if k == 0 {
      assert s[..|pat|] == s[0..|pat|];
      EmptyFront(s, RemoveAll(s[|pat|..], pat));
    } else {
      var t := s[1..];
      var rest := s[k + |pat|..];
      assert s[..|pat|] != pat by {
        assert !OccursAt(s, pat, 0);
        assert s[..|pat|] == s[0..|pat|];
      }
      assert RemoveAll(s, pat) == [s[0]] + RemoveAll(t, pat);
      ShiftOccursAt(s, pat, k - 1);
      forall i: nat | i < k - 1 ensures !OccursAt(t, pat, i) {
        ShiftOccursAt(s, pat, i);
      }
      RemoveAllAtFirstMatch(t, pat, k - 1);
      assert t[k - 1 + |pat|..] == rest;
      KeepHead(s, k - 1, |pat|, RemoveAll(t, pat), RemoveAll(rest, pat));
    }
  }

  /** The same, at the position `strings.Index` reports. */
  lemma RemoveAllAtIndex(s: string, pat: string, k: nat)
    requires pat != [] && IndexOf(s, pat) == k
    ensures k + |pat| <= |s|
    ensures RemoveAll(s, pat) == s[..k] + RemoveAll(s[k + |pat|..], pat)
  {
    IndexOfFindsFirst(s, pat);
    RemoveAllAtFirstMatch(s, pat, k);
  }

  /** Nothing taken from the front of `s` adds nothing. */
  lemma EmptyFront(s: string, y: string)
    ensures s[..0] + y == y
  {
    assert s[..0] == [];
  }

  /** Putting the head of `s` back in front of a text that starts with a slice of the tail. */
  lemma KeepHead(s: string, j: nat, n: nat, x: string, y: string)
    requires 1 + j + n <= |s| && x == s[1..][..j] + y
    ensures [s[0]] + x == s[..j + 1] + y
  {
    assert [s[0]] + s[1..][..j] == s[..j + 1];
  }

  /** Where `strings.Index` finds no match, removal leaves the id as it is. */
  lemma RemoveAllWithoutMatch(s: string, pat: string)
    requires IndexOf(s, pat) < 0
    ensures RemoveAll(s, pat) == s
  {
    IndexOfFindsFirst(s, pat);
    RemoveAllAbsent(s, pat);
  }

  /** The left-to-right scan and the `strings.Index` loop remove the same occurrences. */
  lemma {:induction false} RemoveAllMatchesIndexLoop(s: string, pat: string)
    ensures RemoveAll(s, pat) == RemoveAllByIndex(s, pat)
    decreases |s|
  {
    if pat == [] {
      assert RemoveAll(s, pat) == s;
    } else {
      var k := IndexOf(s, pat);
      if k < 0 {
        assert RemoveAllByIndex(s, pat) == s;
        RemoveAllWithoutMatch(s, pat);
      } else {
        var rest := s[k + |pat|..];
        calc {
          RemoveAll(s, pat);
          { RemoveAllAtIndex(s, pat, k); }
          s[..k] + RemoveAll(rest, pat);
          { RemoveAllMatchesIndexLoop(rest, pat); }
          s[..k] + RemoveAllByIndex(rest, pat);
          RemoveAllByIndex(s, pat);
        }
      }
    }
  }

  /** An id in which the pattern does not occur is left as it is. */
  lemma {:induction false} RemoveAllAbsent(s: string, pat: string)
    requires !Occurs(s, pat)
    ensures RemoveAll(s, pat) == s
    decreases |s|
  {
    assert pat != [] by { if pat == [] { assert OccursAt(s, pat, 0); } }
    if |s| >= |pat| {
      assert s[..|pat|] != pat by { if s[..|pat|] == pat { assert OccursAt(s, pat, 0); } }
      assert !Occurs(s[1..], pat) by { ShiftOccurs(s, pat); }
      RemoveAllAbsent(s[1..], pat);
    }
  }

  /** A prefixed id loses exactly its prefix when the rest holds no further occurrence. */
  lemma {:induction false} StripLeadingPattern(pat: string, z: string)
    requires pat != [] && !Occurs(z, pat)
    ensures RemoveAll(pat + z, pat) == z
  {
    assert (pat + z)[..|pat|] == pat;
    assert (pat + z)[|pat|..] == z;
    RemoveAllAbsent(z, pat);
  }
}
