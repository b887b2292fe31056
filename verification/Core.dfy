/** Vocabulary shared by every part of the supervision layer. */
module Core {

  datatype Option<+T> = None | Some(value: T)

  datatype Result<+T, +E> = Success(value: T) | Failure(error: E)

  /** Caller-visible run phases; the last three end a run. */
  datatype RunStatus =
    | Starting
    | Running
    | Validating
    | Repairing
    | Completed
    | Failed
    | Cancelled
  {
    predicate Terminal() {
      Completed? || Failed? || Cancelled?
    }
  }

  datatype ErrorCategory =
    | Configuration
    | Health
    | RuntimeUnavailable
    | ProviderUnavailable
    | ModelUnavailable
    | Authentication
    | Permission
    | RateLimit
    | Timeout
    | Cancellation
    | MalformedEvent
    | RuntimeExit
    | ValidationFailed
    | RepairExhausted
    | Cleanup
    | Unknown

  /** A classified error: the category and a user-facing detail. */
  datatype SdkError = SdkError(category: ErrorCategory, detail: string)

  /** Why a context has ended. */
  datatype ContextError = Canceled | DeadlineExceeded

  /** `a` can be obtained from `b` by leaving elements out. */
  ghost predicate Subsequence<T>(a: seq<T>, b: seq<T>) {
    a == [] || (b != [] && ((a[0] == b[0] && Subsequence(a[1..], b[1..])) || Subsequence(a, b[1..])))
  }

  /** A subsequence of a sequence is one of every longer sequence, and both can end with the same element. */
  lemma {:induction false} SubsequenceExtends<T>(a: seq<T>, b: seq<T>, x: T)
    requires Subsequence(a, b)
    ensures Subsequence(a, b + [x]) && Subsequence(a + [x], b + [x])
    decreases |b|
  {
    if b == [] {
      assert a + [x] == [x] && b + [x] == [x];
    } else {
      assert (b + [x])[1..] == b[1..] + [x];
      if a == [] {
        SubsequenceExtends(a, b[1..], x);
      } else if a[0] == b[0] && Subsequence(a[1..], b[1..]) {
        assert (a + [x])[1..] == a[1..] + [x];
        SubsequenceExtends(a[1..], b[1..], x);
      } else {
        SubsequenceExtends(a, b[1..], x);
      }
    }
  }

  /** Positions in `b`, from left to right, at which the elements of `a` stand. */
  ghost predicate Embeds<T>(positions: seq<nat>, a: seq<T>, b: seq<T>) {
    && |positions| == |a|
    && (forall i, j :: 0 <= i < j < |a| ==> positions[i] < positions[j])
    && forall i :: 0 <= i < |a| ==> positions[i] < |b| && b[positions[i]] == a[i]
  }

  lemma EmbedsLater<T>(p: seq<nat>, a: seq<T>, b: seq<T>)
    requires b != [] && Embeds(p, a, b[1..])
    ensures Embeds(Shifted(p), a, b)
  {
  }

  lemma EmbedsFirst<T>(p: seq<nat>, a: seq<T>, b: seq<T>)
    requires a != [] && b != [] && a[0] == b[0] && Embeds(p, a[1..], b[1..])
    ensures Embeds([0] + Shifted(p), a, b)
  {
    var q := [0] + Shifted(p);
    assert forall i :: 0 < i < |a| ==> q[i] == p[i - 1] + 1 && a[i] == a[1..][i - 1];
    forall i, j | 0 <= i < j < |a|
      ensures q[i] < q[j]
    {
      if i > 0 {
        assert p[i - 1] < p[j - 1];
      }
    }
    forall i | 0 <= i < |a|
      ensures q[i] < |b| && b[q[i]] == a[i]
    {
      if i > 0 {
        assert b[1..][p[i - 1]] == b[q[i]];
      }
    }
  }

  lemma EmbeddedFurtherOn<T>(p: seq<nat>, a: seq<T>, b: seq<T>)
    requires a != [] && Embeds(p, a, b)
    ensures b != []
    ensures p[0] > 0 ==> Embeds(Unshifted(p), a, b[1..])
    ensures p[0] == 0 ==> a[0] == b[0] && Embeds(Unshifted(p[1..]), a[1..], b[1..])
  {
    assert forall i :: 0 < i < |a| ==> p[i] > p[0];
    if p[0] == 0 {
      var q := Unshifted(p[1..]);
      forall i | 0 <= i < |a[1..]|
        ensures q[i] < |b[1..]| && b[1..][q[i]] == a[1..][i]
      {
        assert q[i] == p[i + 1] - 1 && a[1..][i] == a[i + 1];
      }
      forall i, j | 0 <= i < j < |a[1..]|
        ensures q[i] < q[j]
      {
        assert q[i] == p[i + 1] - 1 && q[j] == p[j + 1] - 1;
      }
    }
  }

  /** A subsequence is found at some such positions, and what is found at some is a subsequence. */
  lemma {:induction false} SubsequenceIffEmbedded<T>(a: seq<T>, b: seq<T>)
    ensures Subsequence(a, b) <==> exists positions :: Embeds(positions, a, b)
    decreases |b|
  {
    if a == [] {
      assert Embeds([], a, b);
    } else {
      hide Embeds;
      if b != [] {
        SubsequenceIffEmbedded(a, b[1..]);
        SubsequenceIffEmbedded(a[1..], b[1..]);
        if p :| Embeds(p, a, b[1..]) {
          EmbedsLater(p, a, b);
        }
        if p :| a[0] == b[0] && Embeds(p, a[1..], b[1..]) {
          EmbedsFirst(p, a, b);
        }
      }
      if p :| Embeds(p, a, b) {
        EmbeddedFurtherOn(p, a, b);
      }
    }
  }

  function Shifted(positions: seq<nat>): (r: seq<nat>)
    ensures |r| == |positions| && forall i :: 0 <= i < |r| ==> r[i] == positions[i] + 1
  {
    seq(|positions|, i requires 0 <= i < |positions| => positions[i] + 1)
  }

  function Unshifted(positions: seq<nat>): (r: seq<nat>)
    ensures |r| == |positions| && forall i :: 0 <= i < |r| && positions[i] > 0 ==> r[i] == positions[i] - 1
  {
    seq(|positions|, i requires 0 <= i < |positions| => if positions[i] > 0 then positions[i] - 1 else 0)
  }

  /** Sequences without repeated elements. */
  ghost predicate Distinct<T>(s: seq<T>) {
    s != [] ==> s[0] !in s[1..] && Distinct(s[1..])
  }

  lemma {:induction false} DistinctAppend<T>(s: seq<T>, x: T)
    requires Distinct(s) && x !in s
    ensures Distinct(s + [x])
  {
    if s == [] {
      assert s + [x] == [x];
    } else {
      DistinctAppend(s[1..], x);
      assert (s + [x])[1..] == s[1..] + [x];
    }
  }

  lemma {:induction false} DistinctIff<T>(s: seq<T>)
    ensures Distinct(s) <==> forall i, j :: 0 <= i < j < |s| ==> s[i] != s[j]
  {
    if s != [] {
      var rest := s[1..];
      DistinctIff(rest);
      assert forall i :: 0 <= i < |rest| ==> rest[i] == s[i + 1];
      if Distinct(s) {
        forall i, j | 0 <= i < j < |s|
          ensures s[i] != s[j]
        {
          assert s[j] == rest[j - 1] && (i > 0 ==> s[i] == rest[i - 1]);
        }
      }
    }
  }
}
