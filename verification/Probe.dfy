/**
 Reading a probe's output in chunks: a bounded sample of it, and which needles occur anywhere in it.
 Between chunks an end of the output is carried, whose exact length is proved: it is bounded when some
 needle has two bytes or more, and the whole output otherwise. Output and needles are ASCII byte strings.
 */
module Probe {
  import opened Text

  function Concat(chunks: seq<string>): string {
    if chunks == [] then "" else Concat(chunks[..|chunks| - 1]) + chunks[|chunks| - 1]
  }

  function Min(a: int, b: int): int {
    if a <= b then a else b
  }

  function Max(a: nat, b: nat): nat {
    if a >= b then a else b
  }

  // ---------------------------------------------------------------- the bounded sample

  class LimitBuffer {
    const limit: int
    var buf: string
    ghost var written: string

    /** The buffer holds the first bytes written, as many as the limit allows. */
    ghost predicate Valid()
      reads this
    {
      buf == if limit <= 0 then "" else written[..Min(limit, |written|)]
    }

    constructor (limit: int)
      ensures Valid() && this.limit == limit && written == ""
    {
      this.limit, buf, written := limit, "", "";
    }

    /** Always reports the whole chunk as written. */
    method Write(p: string) returns (n: nat)
      requires Valid()
      modifies this
      ensures Valid() && written == old(written) + p && n == |p|
    {
      n := |p|;
      written := written + p;
      if limit <= 0 {
        return;
      }
      if |buf| + |p| <= limit {
        buf := buf + p;
        return;
      }
      var remaining := limit - |buf|;
      if remaining > 0 {
        buf := buf + p[..remaining];
      }
    }
  }

  // ---------------------------------------------------------------- needles across chunks

  /** `needle` is one of the lowered, non-empty needles. */
  ghost predicate Wanted(needles: seq<string>, needle: string) {
    needle != "" && exists i :: 0 <= i < |needles| && Lower(needles[i]) == needle
  }

  predicate Found(matches: map<string, bool>, needle: string) {
    needle in matches && matches[needle]
  }

  /** The needles found are exactly the wanted ones that occur in the lowered text. */
  ghost predicate Matches(matches: map<string, bool>, needles: seq<string>, text: string) {
    forall needle :: Found(matches, needle) <==> Wanted(needles, needle) && Contains(text, needle)
  }

  /** `tail` is an end of `text` that is long enough to complete any needle begun in it. */
  ghost predicate TailOf(tail: string, text: string, maxNeedle: nat) {
    && |tail| <= |text| && tail == text[|text| - |tail|..]
    && (|tail| == |text| || |tail| >= maxNeedle - 1)
  }

  lemma OccurrenceMoves(outer: string, inner: string, from: nat, needle: string, at: nat)
    requires from + |inner| <= |outer| && outer[from..from + |inner|] == inner
    requires at + |needle| <= |inner|
    ensures OccursAt(inner, needle, at) <==> OccursAt(outer, needle, from + at)
  {
    var narrow, wide := inner[at..at + |needle|], outer[from + at..from + at + |needle|];
    forall k | 0 <= k < |needle|
      ensures narrow[k] == wide[k]
    {
      assert narrow[k] == inner[at + k];
      assert inner[at + k] == outer[from..from + |inner|][at + k];
    }
    assert narrow == wide;
  }

  /** A needle longer than its overlap with the tail cannot straddle the window's left edge. */
  lemma WindowFindsNewOccurrences(text: string, tail: string, chunk: string, needle: string, maxNeedle: nat)
    requires TailOf(tail, text, maxNeedle) && 0 < |needle| <= maxNeedle
    ensures Contains(text + chunk, needle) <==> Contains(text, needle) || Contains(tail + chunk, needle)
  {
    var all, window, cut := text + chunk, tail + chunk, |text| - |tail|;
    assert all[cut..cut + |window|] == window;
    assert all[0..|text|] == text;
    if at: nat :| at <= |all| && OccursAt(all, needle, at) {
      if at + |needle| <= |text| {
        OccurrenceMoves(all, text, 0, needle, at);
      } else {
        OccurrenceMoves(all, window, cut, needle, at - cut);
      }
    }
    if at: nat :| at <= |text| && OccursAt(text, needle, at) {
      OccurrenceMoves(all, text, 0, needle, at);
    }
    if at: nat :| at <= |window| && OccursAt(window, needle, at) {
      OccurrenceMoves(all, window, cut, needle, at);
    }
  }

  lemma TailAdvances(text: string, tail: string, chunk: string, maxNeedle: nat, next: string)
    requires TailOf(tail, text, maxNeedle)
    requires var window := tail + chunk;
             next == if maxNeedle > 1 && |window| >= maxNeedle - 1 then window[|window| - (maxNeedle - 1)..] else window
    ensures TailOf(next, text + chunk, maxNeedle)
  {
    var all, window := text + chunk, tail + chunk;
    assert all[|text| - |tail|..] == window;
    assert next == all[|all| - |next|..];
  }

  lemma LowerAppend(a: string, b: string)
    ensures Lower(a + b) == Lower(a) + Lower(b)
  {
  }

  /** The length of the longest needle. */
  function Longest(needles: seq<string>): nat {
    if needles == [] then 0 else Max(Longest(needles[..|needles| - 1]), |needles[|needles| - 1]|)
  }

  lemma {:induction false} LongestIsReached(needles: seq<string>)
    ensures forall i :: 0 <= i < |needles| ==> |needles[i]| <= Longest(needles)
    ensures Longest(needles) > 0 ==> exists i :: 0 <= i < |needles| && |needles[i]| == Longest(needles)
  {
    if needles != [] {
      var n := |needles| - 1;
      LongestIsReached(needles[..n]);
      assert forall i :: 0 <= i < n ==> needles[..n][i] == needles[i];
    }
  }

  method LowerNeedles(needles: seq<string>) returns (lowered: seq<string>, maxNeedle: nat)
    ensures forall needle :: needle in lowered <==> Wanted(needles, needle)
    ensures forall needle :: needle in lowered ==> 0 < |needle| <= maxNeedle
    ensures maxNeedle == Longest(needles)
  {
    lowered, maxNeedle := [], 0;
    hide Lower, Longest, Wanted;
    WantedSoFar(needles, 0);
    LongestSoFar(needles, 0);
    for i := 0 to |needles|
      invariant maxNeedle == Longest(needles[..i])
      invariant forall needle :: needle in lowered <==> Wanted(needles[..i], needle)
      invariant forall needle :: needle in lowered ==> 0 < |needle| <= maxNeedle
    {
      LongestSoFar(needles, i);
      WantedSoFar(needles, i);
      var needle := Lower(needles[i]);
      if needle != "" {
        lowered := lowered + [needle];
        if |needle| > maxNeedle {
          maxNeedle := |needle|;
        }
      }
    }
    assert needles[..|needles|] == needles;
  }

  lemma WantedSoFar(needles: seq<string>, i: nat)
    requires i <= |needles|
    ensures forall needle :: !Wanted(needles[..0], needle)
    ensures i < |needles| ==> forall needle ::
              Wanted(needles[..i + 1], needle) <==>
                Wanted(needles[..i], needle) || (needle != "" && needle == Lower(needles[i]))
  {
    hide Lower;
    if i < |needles| {
      var now, before := needles[..i + 1], needles[..i];
      forall needle
        ensures Wanted(now, needle) <==> Wanted(before, needle) || (needle != "" && needle == Lower(needles[i]))
      {
        assert now[i] == needles[i];
        assert forall j :: 0 <= j < i ==> now[j] == before[j];
      }
    }
  }

  lemma LongestSoFar(needles: seq<string>, i: nat)
    requires i <= |needles|
    ensures Longest(needles[..0]) == 0
    ensures i < |needles| ==>
              Longest(needles[..i + 1]) == Max(Longest(needles[..i]), |needles[i]|)
  {
    if i < |needles| {
      assert needles[..i + 1][..i] == needles[..i];
    }
  }

  method FindInWindow(lowered: seq<string>, window: string, before: map<string, bool>)
      returns (after: map<string, bool>)
    ensures forall needle :: Found(after, needle) <==>
              Found(before, needle) || (needle in lowered && Contains(window, needle))
  {
    after := before;
    for i := 0 to |lowered|
      invariant forall needle :: Found(after, needle) <==>
                  Found(before, needle) || (needle in lowered[..i] && Contains(window, needle))
    {
      if Contains(window, lowered[i]) {
        after := after[lowered[i] := true];
      }
      assert lowered[..i + 1] == lowered[..i] + [lowered[i]];
    }
    assert lowered[..|lowered|] == lowered;
  }

  lemma MatchesAdvance(needles: seq<string>, lowered: seq<string>, maxNeedle: nat, text: string, tail: string,
                       chunk: string,
                       before: map<string, bool>, after: map<string, bool>)
    requires forall needle :: needle in lowered <==> Wanted(needles, needle)
    requires forall needle :: needle in lowered ==> 0 < |needle| <= maxNeedle
    requires TailOf(tail, text, maxNeedle) && Matches(before, needles, text)
    requires forall needle :: Found(after, needle) <==>
               Found(before, needle) || (needle in lowered && Contains(tail + chunk, needle))
    ensures Matches(after, needles, text + chunk)
  {
    forall needle
      ensures Found(after, needle) <==> Wanted(needles, needle) && Contains(text + chunk, needle)
    {
      if needle in lowered {
        WindowFindsNewOccurrences(text, tail, chunk, needle, maxNeedle);
      }
    }
  }

  lemma NothingFoundYet(needles: seq<string>)
    ensures Matches(map[], needles, "")
  {
    forall needle | Wanted(needles, needle)
      ensures !Contains("", needle)
    {
    }
  }

  /** How much of the output is carried from one read to the next, after reading `total` bytes. */
  function CarriedLength(maxNeedle: nat, total: nat): nat {
    if maxNeedle > 1 && total > maxNeedle - 1 then maxNeedle - 1 else total
  }

  /** Never more than the bound is carried, whatever the process writes. */
  ghost predicate CarriesAtMost(needles: seq<string>, bound: nat) {
    forall total: nat :: CarriedLength(Longest(needles), total) <= bound
  }

  /** What is carried stays bounded exactly when some needle has two bytes or more. */
  lemma CarryIsBoundedIff(needles: seq<string>)
    ensures (exists bound: nat :: CarriesAtMost(needles, bound)) <==> exists i :: 0 <= i < |needles| && |needles[i]| > 1
  {
    var n := Longest(needles);
    LongestIsReached(needles);
    if n > 1 {
      assert CarriesAtMost(needles, n - 1);
    } else {
      forall bound: nat
        ensures !CarriesAtMost(needles, bound)
      {
        assert CarriedLength(n, bound + 1) > bound;
      }
    }
  }

  /** A probe without needles, as the health checks start it, carries all it has read. */
  lemma WithoutNeedlesAllIsCarried(total: nat)
    ensures CarriedLength(Longest([]), total) == total
  {
  }

  /** What the loop keeps between reads, after reading `text`. */
  ghost predicate Tracking(needles: seq<string>, maxNeedle: nat, tail: string, matches: map<string, bool>,
                           text: string) {
    && TailOf(tail, Lower(text), maxNeedle)
    && |tail| == CarriedLength(maxNeedle, |text|)
    && Matches(matches, needles, Lower(text))
  }

  lemma NothingTracked(needles: seq<string>, maxNeedle: nat)
    ensures Tracking(needles, maxNeedle, "", map[], "")
  {
    NothingFoundYet(needles);
  }

  /** One read: match in the window, then keep just enough of its end. */
  method ScanChunk(chunk: string, lowered: seq<string>, maxNeedle: nat, tail: string, matches: map<string, bool>,
                   ghost needles: seq<string>, ghost text: string)
      returns (nextTail: string, nextMatches: map<string, bool>)
    requires forall needle :: needle in lowered <==> Wanted(needles, needle)
    requires forall needle :: needle in lowered ==> 0 < |needle| <= maxNeedle
    requires Tracking(needles, maxNeedle, tail, matches, text)
    ensures Tracking(needles, maxNeedle, nextTail, nextMatches, text + chunk)
  {
    hide Matches, TailOf, Wanted, Found, Lower;
    var window := tail + Lower(chunk);
    nextMatches := FindInWindow(lowered, window, matches);
    nextTail := if maxNeedle > 1 && |window| >= maxNeedle - 1 then window[|window| - (maxNeedle - 1)..] else window;
    LowerAppend(text, chunk);
    MatchesAdvance(needles, lowered, maxNeedle, Lower(text), tail, Lower(chunk), matches, nextMatches);
    TailAdvances(Lower(text), tail, Lower(chunk), maxNeedle, nextTail);
  }

  /**
   However the reader splits the output into chunks, the needles found are exactly those that occur in
   the whole lowered output, and the sample is written the whole output in order.
   */
  method ScanProbeOutput(sample: LimitBuffer, chunks: seq<string>, needles: seq<string>)
      returns (total: nat, matches: map<string, bool>, ghost carried: nat)
    requires sample.Valid() && sample.written == ""
    modifies sample
    ensures sample.Valid() && sample.written == Concat(chunks)
    ensures total == |Concat(chunks)| && Matches(matches, needles, Lower(Concat(chunks)))
    ensures carried == CarriedLength(Longest(needles), total)
  {
    hide Tracking, Wanted, Matches, Lower, TailOf, CarriedLength, Longest;
    var lowered, maxNeedle := LowerNeedles(needles);
    var tail := "";
    total, matches := 0, map[];
    NothingTracked(needles, maxNeedle);
    var k := 0;
    while k < |chunks|
      invariant 0 <= k <= |chunks|
      invariant sample.Valid() && sample.written == Concat(chunks[..k]) && total == |Concat(chunks[..k])|
      invariant Tracking(needles, maxNeedle, tail, matches, Concat(chunks[..k]))
    {
      var chunk := chunks[k];
      ghost var text := Concat(chunks[..k]);
      assert chunks[..k + 1][..k] == chunks[..k];
      if |chunk| > 0 {
        total := total + |chunk|;
        var n := sample.Write(chunk);
        tail, matches := ScanChunk(chunk, lowered, maxNeedle, tail, matches, needles, text);
      } else {
        assert text + chunk == text;
      }
      k := k + 1;
    }
    assert chunks[..|chunks|] == chunks;
    carried := |tail|;
    TrackingMatches(needles, maxNeedle, tail, matches, Concat(chunks));
  }

  lemma TrackingMatches(needles: seq<string>, maxNeedle: nat, tail: string, matches: map<string, bool>, text: string)
    requires Tracking(needles, maxNeedle, tail, matches, text)
    ensures Matches(matches, needles, Lower(text)) && |tail| == CarriedLength(maxNeedle, |text|)
  {
  }

  /** What a probe keeps of one output stream. */
  datatype ProbeOutput = ProbeOutput(sample: string, matches: map<string, bool>)

  method ReadProbeOutput(chunks: seq<string>, limit: int, needles: seq<string>) returns (r: ProbeOutput)
    ensures r.sample == if limit <= 0 then "" else Concat(chunks)[..Min(limit, |Concat(chunks)|)]
    ensures Matches(r.matches, needles, Lower(Concat(chunks)))
  {
    var limited := new LimitBuffer(limit);
    var total, matches, _ := ScanProbeOutput(limited, chunks, needles);
    r := ProbeOutput(limited.buf, matches);
  }

  function MergeProbeMatches(a: map<string, bool>, b: map<string, bool>): (r: map<string, bool>)
    ensures forall needle :: Found(r, needle) <==> Found(a, needle) || Found(b, needle)
  {
    map key | key in a.Keys + b.Keys :: Found(a, key) || Found(b, key)
  }

  /** A probe reports a needle exactly when it occurs in what the process wrote to either stream. */
  lemma ProbeMatchesEitherStream(needles: seq<string>, stdout: seq<string>, stderr: seq<string>,
                                 out: map<string, bool>, err: map<string, bool>, needle: string)
    requires Matches(out, needles, Lower(Concat(stdout))) && Matches(err, needles, Lower(Concat(stderr)))
    ensures Found(MergeProbeMatches(out, err), needle) <==>
              Wanted(needles, needle) &&
              (Contains(Lower(Concat(stdout)), needle) || Contains(Lower(Concat(stderr)), needle))
  {
  }

  /** Two ways of splitting the same output find the same needles. */
  lemma ChunkingIsIrrelevant(needles: seq<string>, chunks: seq<string>, others: seq<string>,
                             a: map<string, bool>, b: map<string, bool>, needle: string)
    requires Concat(chunks) == Concat(others)
    requires Matches(a, needles, Lower(Concat(chunks))) && Matches(b, needles, Lower(Concat(others)))
    ensures Found(a, needle) <==> Found(b, needle)
  {
  }

  /**
   The case of letters does not matter: a text and needles that differ from others in the case of letters only
   give the same matches.
   */
  lemma CaseIsIrrelevant(text: string, variant: string, needles: seq<string>, variants: seq<string>,
                         a: map<string, bool>, b: map<string, bool>, needle: string)
    requires SameLetters(text, variant) && |needles| == |variants|
    requires forall i :: 0 <= i < |needles| ==> SameLetters(needles[i], variants[i])
    requires Matches(a, needles, Lower(text)) && Matches(b, variants, Lower(variant))
    ensures Found(a, needle) <==> Found(b, needle)
  {
    LowerIgnoresCaseOnly(text, variant);
    forall i | 0 <= i < |needles|
      ensures Lower(needles[i]) == Lower(variants[i])
    {
      LowerIgnoresCaseOnly(needles[i], variants[i]);
    }
    hide Lower, SameLetters, Contains;
  }

  predicate OccursInSomeCase(output: string, needle: string, at: nat) {
    at + |needle| <= |output| && SameLetters(output[at..at + |needle|], needle)
  }

  /** A needle is found under its lowered form exactly when the output holds it in some case of its letters. */
  lemma FoundInAnyCase(output: string, needles: seq<string>, matches: map<string, bool>, i: nat)
    requires i < |needles| && needles[i] != "" && Matches(matches, needles, Lower(output))
    ensures Found(matches, Lower(needles[i])) <==> exists at :: OccursInSomeCase(output, needles[i], at)
  {
    var needle := needles[i];
    assert Wanted(needles, Lower(needle));
    forall at: nat
      ensures OccursAt(Lower(output), Lower(needle), at) <==> OccursInSomeCase(output, needle, at)
    {
      if at + |needle| <= |output| {
        assert Lower(output)[at..at + |needle|] == Lower(output[at..at + |needle|]);
        LowerIgnoresCaseOnly(output[at..at + |needle|], needle);
      }
    }
    if at :| OccursInSomeCase(output, needle, at) {
      assert OccursAt(Lower(output), Lower(needle), at);
    }
    hide Lower, OccursAt, OccursInSomeCase;
  }
}
