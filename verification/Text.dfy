/** Substring search and case folding on ASCII byte strings. */
module Text {

  /** `needle` occurs in `hay` at position `at`. */
  predicate OccursAt(hay: string, needle: string, at: nat) {
    at + |needle| <= |hay| && hay[at..at + |needle|] == needle
  }

  predicate Contains(hay: string, needle: string) {
    exists at: nat :: at <= |hay| && OccursAt(hay, needle, at)
  }

  function LowerByte(c: char): char {
    if 'A' <= c <= 'Z' then c - 'A' + 'a' else c
  }

  function Lower(s: string): (r: string)
    ensures |r| == |s| && forall i :: 0 <= i < |s| ==> r[i] == LowerByte(s[i])
  {
    seq(|s|, i requires 0 <= i < |s| => LowerByte(s[i]))
  }

  /** A needle is contained in a text exactly when the text is the needle with something before and after it. */
  lemma ContainsIffSurrounded(hay: string, needle: string)
    ensures Contains(hay, needle) <==> exists before: string, behind: string :: hay == before + needle + behind
  {
    if at: nat :| at <= |hay| && OccursAt(hay, needle, at) {
      assert hay == hay[..at] + needle + hay[at + |needle|..];
    }
    if before: string, behind: string :| hay == before + needle + behind {
      assert hay[|before|..|before| + |needle|] == needle;
      assert OccursAt(hay, needle, |before|);
    }
  }

  predicate IsUpper(c: char) {
    'A' as int <= c as int <= 'Z' as int
  }

  /** The same letter, in whatever case; every other character only equals itself. */
  predicate SameLetter(a: char, b: char) {
    a == b || (IsUpper(a) && b as int == a as int + 32) || (IsUpper(b) && a as int == b as int + 32)
  }

  predicate SameLetters(a: string, b: string) {
    |a| == |b| && forall i :: 0 <= i < |a| ==> SameLetter(a[i], b[i])
  }

  /** Lowering turns `A` to `Z` into `a` to `z` and changes nothing else. */
  lemma LoweringIsExact(s: string, i: nat)
    requires i < |s|
    ensures |Lower(s)| == |s|
    ensures Lower(s)[i] as int == if IsUpper(s[i]) then s[i] as int + 32 else s[i] as int
  {
  }

  /** So two texts are lowered to the same exactly when they differ in the case of letters at most. */
  lemma LowerIgnoresCaseOnly(a: string, b: string)
    ensures Lower(a) == Lower(b) <==> SameLetters(a, b)
  {
    if Lower(a) == Lower(b) {
      forall i | 0 <= i < |a|
        ensures SameLetter(a[i], b[i])
      {
        LoweringIsExact(a, i);
        LoweringIsExact(b, i);
      }
    } else if |a| == |b| {
      var i :| 0 <= i < |a| && Lower(a)[i] != Lower(b)[i];
      LoweringIsExact(a, i);
      LoweringIsExact(b, i);
      assert !SameLetter(a[i], b[i]);
    }
  }
}
