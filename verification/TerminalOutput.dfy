/** Accumulating an assistant's terminal output under a byte bound; a string is a sequence of bytes here. */
module TerminalOutput {

  const MAX_TERMINAL_OUTPUT_BYTES: nat := 96 * 1024

  /** The last bytes of a value, as many as the bound allows. */
  function Bound(value: string): (r: string)
    ensures |r| <= MAX_TERMINAL_OUTPUT_BYTES && |r| <= |value|
    ensures r == value[|value| - |r|..] && (|r| < MAX_TERMINAL_OUTPUT_BYTES ==> r == value)
  {
    if |value| <= MAX_TERMINAL_OUTPUT_BYTES then value else value[|value| - MAX_TERMINAL_OUTPUT_BYTES..]
  }

  predicate HasSuffix(s: string, suffix: string) {
    |suffix| <= |s| && s[|s| - |suffix|..] == suffix
  }

  /** A chunk that extends the current value replaces it; one that ends it is dropped; others are appended. */
  function Append(current: string, next: string): string {
    if current == "" || current <= next then Bound(next)
    else if next == current || HasSuffix(current, next) then current
    else Bound(current + next)
  }

  function Fold(chunks: seq<string>): string {
    if chunks == [] then "" else Append(Fold(chunks[..|chunks| - 1]), chunks[|chunks| - 1])
  }

  lemma {:induction false} FoldIsBounded(chunks: seq<string>)
    ensures |Fold(chunks)| <= MAX_TERMINAL_OUTPUT_BYTES
  {
    if chunks != [] {
      FoldIsBounded(chunks[..|chunks| - 1]);
    }
  }

  /** Each chunk repeats the one before it and may add to it. */
  ghost predicate Cumulative(chunks: seq<string>) {
    forall i, j :: 0 <= i && j == i + 1 && j < |chunks| ==> chunks[i] <= chunks[j]
  }

  /**
   A cumulative stream ends with the last bytes of its last chunk, although truncation destroys the
   prefix relation the accumulation looks for.
   */
  lemma {:induction false} CumulativeStreamKeepsTheEnd(chunks: seq<string>)
    requires chunks != [] && Cumulative(chunks)
    ensures Fold(chunks) == Bound(chunks[|chunks| - 1])
  {
    var earlier, next := chunks[..|chunks| - 1], chunks[|chunks| - 1];
    if earlier != [] {
      var previous := earlier[|earlier| - 1];
      CumulativeStreamKeepsTheEnd(earlier);
      assert previous <= next;
      AppendExtension(previous, next);
    }
  }

  lemma AppendExtension(previous: string, next: string)
    requires previous <= next
    ensures Append(Bound(previous), next) == Bound(next)
  {
    var current := Bound(previous);
    if current != "" && !(current <= next) {
      assert |previous| > MAX_TERMINAL_OUTPUT_BYTES;
      assert |next| > |current|;
      var n := |current + next| - MAX_TERMINAL_OUTPUT_BYTES;
      assert (current + next)[n..] == next[n - |current|..];
    }
  }

  /** A delta the accumulation mistakes for a repetition of what it already has. */
  predicate Mistaken(current: string, next: string) {
    current != "" && next != "" &&
    if current <= next then |next| < MAX_TERMINAL_OUTPUT_BYTES
    else HasSuffix(current, next) && !Repeats(current, |next|)
  }

  /** A full buffer that is unchanged by appending its last `k` bytes again. */
  predicate Repeats(s: string, k: nat) {
    |s| == MAX_TERMINAL_OUTPUT_BYTES && k <= |s| && s[k..] == s[..|s| - k]
  }

  lemma ExtensionReplaces(current: string, next: string)
    requires current != "" && next != "" && current <= next
    ensures Append(current, next) == Bound(current + next) <==> |next| >= MAX_TERMINAL_OUTPUT_BYTES
  {
    var whole := current + next;
    if |next| >= MAX_TERMINAL_OUTPUT_BYTES {
      var n := |whole| - MAX_TERMINAL_OUTPUT_BYTES;
      assert whole[n..] == next[n - |current|..];
    } else {
      assert |Bound(whole)| > |next|;
    }
  }

  /** Appending a delta keeps the end of the concatenation exactly when the delta is not mistaken. */
  lemma DeltaIsAppendedIffNotMistaken(current: string, next: string)
    requires |current| <= MAX_TERMINAL_OUTPUT_BYTES
    ensures Append(current, next) == Bound(current + next) <==> !Mistaken(current, next)
  {
    if current == "" {
      assert current + next == next;
    } else if next == "" {
      assert current + next == current;
    } else if current <= next {
      ExtensionReplaces(current, next);
    } else if HasSuffix(current, next) {
      SuffixRepeated(current, next);
      hide Bound, Repeats, HasSuffix;
    }
  }

  lemma FoldExtends(chunks: seq<string>, next: string)
    ensures Fold(chunks + [next]) == Append(Fold(chunks), next)
  {
    assert (chunks + [next])[..|chunks|] == chunks;
  }

  /** A stream that sends "ab" and then another "b" is left with "ab". */
  lemma RepeatedLetterIsLost()
    ensures Fold(["ab", "b"]) == "ab" && Mistaken("ab", "b") && Fold(["ab", "b"]) != Bound("ab" + "b")
  {
    DeltaIsAppendedIffNotMistaken("ab", "b");
    FoldExtends([], "ab");
    FoldExtends(["ab"], "b");
    assert [] + ["ab"] == ["ab"] && ["ab"] + ["b"] == ["ab", "b"];
    FirstChunk("ab");
    LastLetter();
    hide Fold, Bound, HasSuffix, Repeats;
  }

  lemma FirstChunk(chunk: string)
    requires |chunk| <= MAX_TERMINAL_OUTPUT_BYTES
    ensures Fold([]) == "" && Append("", chunk) == chunk
  {
  }

  lemma LastLetter()
    ensures HasSuffix("ab", "b") && !("ab" <= "b") && !Repeats("ab", 1)
  {
    assert "ab"[1..] == "b";
  }

  lemma SuffixRepeated(current: string, next: string)
    requires next != "" && HasSuffix(current, next) && |current| <= MAX_TERMINAL_OUTPUT_BYTES
    ensures Bound(current + next) == current <==> Repeats(current, |next|)
  {
    var whole, k := current + next, |next|;
    if |current| == MAX_TERMINAL_OUTPUT_BYTES {
      assert Bound(whole) == whole[k..] == current[k..] + next;
      var cut := |current| - k;
      assert current == current[..cut] + next;
      if current[k..] + next == current {
        assert current[k..] == (current[k..] + next)[..cut] == current[..cut];
      }
    } else {
      assert |Bound(whole)| > |current|;
    }
  }

  /** The bound is 96 KiB, and a value keeps as much of its end as that allows. */
  lemma BoundIs96KiB(value: string)
    ensures |Bound(value)| == if |value| <= 98_304 then |value| else 98_304
    ensures Bound(value) == value[|value| - |Bound(value)|..]
  {
  }
}
