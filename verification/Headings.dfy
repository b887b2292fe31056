/** Matching the headings of a template against those of an artifact, greedily and in order. */
module Headings {
  import opened Core

  /** `k` is the length of the longest prefix of `expected` that is a subsequence of `observed`. */
  ghost predicate LongestMatchedPrefix(expected: seq<string>, observed: seq<string>, k: nat) {
    && k <= |expected|
    && Subsequence(expected[..k], observed)
    && forall j :: k < j <= |expected| ==> !Subsequence(expected[..j], observed)
  }

  /** Scans `observed` once; a heading that is not found leaves nothing to match the later ones against. */
  method MissingInOrder(expected: seq<string>, observed: seq<string>) returns (missing: seq<string>)
    ensures exists k: nat :: LongestMatchedPrefix(expected, observed, k) && missing == expected[k..]
    ensures missing == [] <==> Subsequence(expected, observed)
  {
    missing := [];
    var pos := 0;
    ghost var matched := 0;
    var i := 0;
    while i < |expected|
      invariant 0 <= i <= |expected| && 0 <= pos <= |observed| && 0 <= matched <= i
      invariant missing == expected[matched..i]
      invariant matched < i ==> pos == |observed|
      invariant Greedy(expected, observed, matched, pos)
      invariant matched < i ==> LongestMatchedPrefix(expected, observed, matched)
    {
      var found := false;
      ghost var start := pos;
      while pos < |observed| && !found
        invariant start <= pos <= |observed|
        invariant found ==> pos > start && observed[pos - 1] == expected[i] && expected[i] !in observed[start..pos - 1]
        invariant !found ==> expected[i] !in observed[start..pos]
        decreases |observed| - pos, !found
      {
        if observed[pos] == expected[i] {
          found := true;
        } else {
          assert observed[start..pos + 1] == observed[start..pos] + [observed[pos]];
        }
        pos := pos + 1;
      }
      if !found {
        if matched == i {
          GreedyStops(expected, observed, matched, start);
        }
        missing := missing + [expected[i]];
      } else {
        GreedyAdvances(expected, observed, matched, start, pos);
        matched := matched + 1;
      }
      i := i + 1;
    }
    assert expected[..|expected|] == expected;
    if matched == |expected| {
      GreedyMatches(expected, observed, matched, pos);
    }
    assert LongestMatchedPrefix(expected, observed, matched) && missing == expected[matched..];
  }

  /**
   The greedy scan has matched `expected[..k]` within `observed[..pos]`, and has not used up more of
   `observed` than any other way of matching it: whatever follows can still be matched from `pos` on.
   */
  ghost predicate Greedy(expected: seq<string>, observed: seq<string>, k: nat, pos: nat)
    requires k <= |expected| && pos <= |observed|
  {
    forall j :: k <= j <= |expected| ==>
      (Subsequence(expected[..j], observed) <==> Subsequence(expected[k..j], observed[pos..]))
  }

  /** Elements that differ from the first wanted one can be skipped. */
  lemma {:induction false} SkipMismatches(wanted: seq<string>, observed: seq<string>, start: nat, pos: nat)
    requires wanted != [] && start <= pos <= |observed|
    requires wanted[0] !in observed[start..pos]
    ensures Subsequence(wanted, observed[start..]) <==> Subsequence(wanted, observed[pos..])
    decreases pos - start
  {
    if start < pos {
      assert observed[start..pos][0] == observed[start] == observed[start..][0];
      assert observed[start..][1..] == observed[start + 1..];
      assert observed[start + 1..pos] == observed[start..pos][1..];
      SkipMismatches(wanted, observed, start + 1, pos);
    }
  }

  lemma {:induction false} DropFirst(a: seq<string>, b: seq<string>)
    requires a != [] && Subsequence(a, b)
    ensures Subsequence(a[1..], b)
    decreases |b|
  {
    if a[0] == b[0] && Subsequence(a[1..], b[1..]) {
    } else {
      DropFirst(a, b[1..]);
    }
  }

  /** Taking the first occurrence is never worse than waiting for a later one. */
  lemma TakeFirst(a: seq<string>, b: seq<string>)
    requires a != [] && b != [] && a[0] == b[0]
    ensures Subsequence(a, b) <==> Subsequence(a[1..], b[1..])
  {
    if Subsequence(a, b[1..]) {
      DropFirst(a, b[1..]);
    }
  }

  lemma GreedyAdvances(expected: seq<string>, observed: seq<string>, k: nat, start: nat, pos: nat)
    requires k < |expected| && start < pos <= |observed| && Greedy(expected, observed, k, start)
    requires observed[pos - 1] == expected[k] && expected[k] !in observed[start..pos - 1]
    ensures Greedy(expected, observed, k + 1, pos)
  {
    forall j | k + 1 <= j <= |expected|
      ensures Subsequence(expected[..j], observed) <==> Subsequence(expected[k + 1..j], observed[pos..])
    {
      var wanted := expected[k..j];
      SkipMismatches(wanted, observed, start, pos - 1);
      TakeFirst(wanted, observed[pos - 1..]);
      assert wanted[1..] == expected[k + 1..j] && observed[pos - 1..][1..] == observed[pos..];
    }
  }

  lemma GreedyStops(expected: seq<string>, observed: seq<string>, k: nat, start: nat)
    requires k < |expected| && start <= |observed| && Greedy(expected, observed, k, start)
    requires expected[k] !in observed[start..]
    ensures LongestMatchedPrefix(expected, observed, k) && Greedy(expected, observed, k, |observed|)
  {
    assert expected[k..k] == [];
    forall j | k < j <= |expected|
      ensures !Subsequence(expected[..j], observed) && !Subsequence(expected[k..j], observed[|observed|..])
    {
      assert observed[start..|observed|] == observed[start..];
      SkipMismatches(expected[k..j], observed, start, |observed|);
    }
  }

  lemma GreedyMatches(expected: seq<string>, observed: seq<string>, k: nat, pos: nat)
    requires k <= |expected| && pos <= |observed| && Greedy(expected, observed, k, pos)
    ensures Subsequence(expected[..k], observed)
  {
    assert expected[k..k] == [];
  }
}
