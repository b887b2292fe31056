/** Generated event identifiers: a run id, a marker for the kind of event, and a decimal number. */
module EventIds {

  const MIN_INT64: int := -0x8000_0000_0000_0000
  const MAX_INT64: int := 0x7FFF_FFFF_FFFF_FFFF

  function Digit(d: nat): char
    requires d < 10
  {
    '0' + d as char
  }

  /** The decimal numeral of a number, without leading zeros. */
  function Decimal(v: nat): (s: string)
    ensures s != ""
  {
    if v < 10 then [Digit(v)] else Decimal(v / 10) + [Digit(v % 10)]
  }

  function Parse(s: string): int {
    if s == "" then 0 else 10 * Parse(s[..|s| - 1]) + (s[|s| - 1] as int - '0' as int)
  }

  lemma {:induction false} ParseDecimal(v: nat)
    ensures Parse(Decimal(v)) == v
  {
    if v >= 10 {
      ParseDecimal(v / 10);
      assert Decimal(v)[..|Decimal(v)| - 1] == Decimal(v / 10);
    } else {
      assert Parse("") == 0;
      assert Decimal(v)[..0] == "";
    }
  }

  /** Different numbers have different numerals. */
  lemma DecimalIsInjective(v: nat, w: nat)
    requires Decimal(v) == Decimal(w)
    ensures v == w
  {
    ParseDecimal(v);
    ParseDecimal(w);
  }

  function Power10(k: nat): (p: nat)
    ensures p >= 1
  {
    if k == 0 then 1 else 10 * Power10(k - 1)
  }

  lemma {:induction false} DecimalLength(v: nat, k: nat)
    requires k >= 1 && v < Power10(k)
    ensures |Decimal(v)| <= k
  {
    assert Power10(1) == 10;
    if v >= 10 {
      DecimalLength(v / 10, k - 1);
    }
  }

  /** No non-negative 64-bit number needs more than 19 digits, one less than the buffer holds. */
  lemma Int64Fits(v: nat)
    requires v <= MAX_INT64
    ensures |Decimal(v)| <= 19
  {
    Power10Squares();
    DecimalLength(v, 19);
  }

  lemma Power10Squares()
    ensures Power10(19) == 10_000_000_000_000_000_000
  {
    assert Power10(4) == 10_000;
    assert Power10(8) == 100_000_000;
    assert Power10(12) == 1_000_000_000_000;
    assert Power10(16) == 10_000_000_000_000_000;
  }

  /**
   Fills a 20-byte buffer backwards with the digits of `v`. It is the numeral of every non-negative
   64-bit number, and empty for a negative one.
   */
  method Itoa64(v: int) returns (s: string)
    requires MIN_INT64 <= v <= MAX_INT64
    ensures v >= 0 ==> s == Decimal(v) && Parse(s) == v
    ensures v < 0 ==> s == ""
  {
    if v >= 0 {
      ParseDecimal(v);
      Int64Fits(v);
    }
    if v == 0 {
      return "0";
    }
    var buf := new char[20];
    var i := 20;
    var rest := v;
    while rest > 0
      invariant 0 <= i <= 20 && rest <= v
      invariant v < 0 ==> i == 20 && rest == v
      invariant v > 0 ==> rest >= 0 && Decimal(v) == (if rest > 0 then Decimal(rest) else "") + buf[i..]
      decreases rest
    {
      assert |Decimal(v)| == |Decimal(rest)| + (20 - i);
      ghost var written := buf[i..];
      i := i - 1;
      buf[i] := Digit(rest % 10);
      assert buf[i..] == [Digit(rest % 10)] + written;
      rest := rest / 10;
    }
    s := buf[i..];
  }

  datatype IdKind = Lifecycle | Session | Native

  function Marker(kind: IdKind): string {
    match kind
    case Lifecycle => "-lifecycle-"
    case Session => "-session-"
    case Native => ":"
  }

  function EventId(run: string, kind: IdKind, number: nat): string {
    run + Marker(kind) + Decimal(number)
  }

  /** Within a run, an identifier determines the kind and the number of its event. */
  lemma EventIdIsInjective(run: string, kind: IdKind, number: nat, kind': IdKind, number': nat)
    requires EventId(run, kind, number) == EventId(run, kind', number')
    ensures kind == kind' && number == number'
  {
    hide Decimal;
    var a, b := Marker(kind) + Decimal(number), Marker(kind') + Decimal(number');
    assert EventId(run, kind, number)[|run|..] == a;
    assert EventId(run, kind', number')[|run|..] == b;
    assert a[0] == b[0] && (|a| > 1 && |b| > 1 ==> a[1] == b[1]);
    assert kind == kind';
    assert a[|Marker(kind)|..] == Decimal(number) && b[|Marker(kind)|..] == Decimal(number');
    DecimalIsInjective(number, number');
  }

  /** What identifiers look like. */
  lemma IdentifiersLookLikeThis()
    ensures EventId("run", Lifecycle, 12) == "run-lifecycle-12"
    ensures EventId("run", Session, 3) == "run-session-3"
    ensures EventId("run", Native, 407) == "run:407"
  {
    assert Decimal(12) == "12";
    assert Decimal(3) == "3";
    assert Decimal(40) == "40" && Decimal(407) == "407";
  }
}
