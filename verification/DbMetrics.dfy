/**
 Summing token counts over the adapter's durable message rows: a JSON tree in which the outermost
 finished assistant messages are counted and nothing beneath them is.
 */
module DbMetrics {
  import Text
  import opened Core

  datatype Field = Field(key: string, value: Json)

  /**
   A decoded tree. The fields of an object stand in the order a traversal happens to visit them; a text
   whose content is itself an object carries it decoded.
   */
  datatype Json =
    | Null
    | Bool(b: bool)
    | Number(n: real)
    | Str(text: string, decoded: Option<Json>)
    | Array(items: seq<Json>)
    | Object(fields: seq<Field>)

  datatype Metrics = Metrics(
    turns: int, input: int, output: int, total: int, reasoning: int, cacheRead: int, cacheWrite: int,
    cost: real, costKnown: bool)

  const ZERO := Metrics(0, 0, 0, 0, 0, 0, 0, 0.0, false)

  function Add(a: Metrics, b: Metrics): Metrics {
    Metrics(a.turns + b.turns, a.input + b.input, a.output + b.output, a.total + b.total, a.reasoning + b.reasoning,
            a.cacheRead + b.cacheRead, a.cacheWrite + b.cacheWrite, a.cost + b.cost, a.costKnown || b.costKnown)
  }

  lemma AddLaws(a: Metrics, b: Metrics, c: Metrics)
    ensures Add(Add(a, b), c) == Add(a, Add(b, c)) && Add(a, b) == Add(b, a)
    ensures Add(ZERO, a) == a && Add(a, ZERO) == a
  {
  }

  // ---------------------------------------------------------------- one message

  function Lookup(fields: seq<Field>, key: string): (r: Option<Json>)
    ensures r.Some? ==> exists i :: 0 <= i < |fields| && fields[i].key == key && fields[i].value == r.value
    ensures r.None? ==> forall i :: 0 <= i < |fields| ==> fields[i].key != key
    ensures r.Some? ==> r.value < Object(fields)
  {
    if fields == [] then None
    else if fields[0].key == key then Some(fields[0].value)
    else
      var r := Lookup(fields[1..], key);
      assert forall i :: 0 <= i < |fields[1..]| ==> fields[1..][i] == fields[i + 1];
      r
  }

  function StringAt(fields: seq<Field>, key: string): string {
    match Lookup(fields, key)
    case Some(Str(text, _)) => text
    case _ => ""
  }

  /** The fields of a nested object, if there is one. */
  function ObjectAt(fields: seq<Field>, key: string): Option<seq<Field>> {
    match Lookup(fields, key)
    case Some(Object(inner)) => Some(inner)
    case _ => None
  }

  /** Conversion to an integer truncates toward zero. */
  function Truncate(n: real): int {
    if n >= 0.0 then n.Floor else -((-n).Floor)
  }

  function NumberAt(fields: seq<Field>, key: string): Option<real> {
    match Lookup(fields, key)
    case Some(Number(n)) => Some(n)
    case _ => None
  }

  function CountAt(fields: seq<Field>, key: string): int {
    match NumberAt(fields, key)
    case Some(n) => Truncate(n)
    case None => 0
  }

  function EitherCount(fields: seq<Field>, key: string, other: string): int {
    if NumberAt(fields, key).Some? then CountAt(fields, key) else CountAt(fields, other)
  }

  const FINISH_KEYS: seq<string> := ["finish_reason", "finishReason", "stopReason", "stop_reason", "reason", "finish"]

  function FirstString(fields: seq<Field>, keys: seq<string>): string {
    if keys == [] then ""
    else if StringAt(fields, keys[0]) != "" then StringAt(fields, keys[0])
    else FirstString(fields, keys[1..])
  }

  function FinishReason(fields: seq<Field>): string {
    var own := FirstString(fields, FINISH_KEYS);
    if own != "" then own
    else
      match ObjectAt(fields, "part")
      case Some(part) => FirstString(part, FINISH_KEYS)
      case None => ""
  }

  /** A finished assistant message. */
  predicate Finished(v: Json)
    ensures Finished(v) ==> v.Object?
  {
    v.Object? && Text.Lower(StringAt(v.fields, "role")) == "assistant" && FinishReason(v.fields) != ""
  }

  function TokenMetrics(fields: seq<Field>): (m: Metrics)
    ensures m.turns == 1
  {
    match ObjectAt(fields, "tokens")
    case Some(tokens) =>
      var cache := match ObjectAt(tokens, "cache") case Some(c) => c case None => [];
      Metrics(1, CountAt(tokens, "input"), CountAt(tokens, "output"), CountAt(tokens, "total"),
              CountAt(tokens, "reasoning"),
              CountAt(cache, "read"), CountAt(cache, "write"), 0.0, false)
    case None =>
      Metrics(1, EitherCount(fields, "input_tokens", "inputTokens"),
              EitherCount(fields, "output_tokens", "outputTokens"),
              EitherCount(fields, "total_tokens", "totalTokens"), 0, 0, 0, 0.0, false)
  }

  /** What one finished message adds. */
  function Contribution(fields: seq<Field>): (m: Metrics)
    ensures m.turns == 1
  {
    var m := TokenMetrics(fields);
    match NumberAt(fields, "cost")
    case Some(c) => m.(cost := c, costKnown := true)
    case None => m
  }

  // ---------------------------------------------------------------- the traversal

  function ChildCount(v: Json): nat {
    match v
    case Str(_, decoded) => if decoded.Some? then 1 else 0
    case Array(items) => |items|
    case Object(fields) => |fields|
    case _ => 0
  }

  function Child(v: Json, i: nat): (c: Json)
    requires i < ChildCount(v)
    ensures c < v
  {
    match v
    case Str(_, decoded) => decoded.value
    case Array(items) => items[i]
    case Object(fields) => fields[i].value
  }

  function Total(v: Json): Metrics
    decreases v, ChildCount(v) + 1
  {
    if Finished(v) then Contribution(v.fields) else TotalFrom(v, 0)
  }

  function TotalFrom(v: Json, i: nat): Metrics
    requires i <= ChildCount(v)
    decreases v, ChildCount(v) - i
  {
    if i == ChildCount(v) then ZERO else Add(Total(Child(v, i)), TotalFrom(v, i + 1))
  }

  class Accumulator {
    var metrics: Metrics

    constructor ()
      ensures metrics == ZERO
    {
      metrics := ZERO;
    }

    /** Adds the messages under `value` to the running totals. */
    method Collect(value: Json)
      modifies this
      ensures metrics == Add(old(metrics), Total(value))
      decreases value
    {
      hide Finished, Contribution, Add;
      if Finished(value) {
        metrics := Add(metrics, Contribution(value.fields));
        return;
      }
      var i := 0;
      while i < ChildCount(value)
        invariant 0 <= i <= ChildCount(value)
        invariant Add(metrics, TotalFrom(value, i)) == Add(old(metrics), TotalFrom(value, 0))
      {
        AddLaws(metrics, Total(Child(value, i)), TotalFrom(value, i + 1));
        Collect(Child(value, i));
        i := i + 1;
      }
      AddLaws(metrics, ZERO, ZERO);
    }
  }

  // ---------------------------------------------------------------- exactly the outermost finished messages

  /** A way down a tree: the child to take at each level. */
  type Path = seq<nat>

  function At(v: Json, path: Path): Option<Json> {
    if path == [] then Some(v)
    else if path[0] < ChildCount(v) then At(Child(v, path[0]), path[1..])
    else None
  }

  /** The node at the path is a finished message, and none above it is. */
  ghost predicate Outermost(v: Json, path: Path) {
    && At(v, path).Some? && Finished(At(v, path).value)
    && forall k :: 0 <= k < |path| ==> At(v, path[..k]).Some? && !Finished(At(v, path[..k]).value)
  }

  function Below(i: nat, paths: seq<Path>): (r: seq<Path>)
    ensures |r| == |paths| && forall k :: 0 <= k < |r| ==> r[k] == [i] + paths[k]
  {
    seq(|paths|, k requires 0 <= k < |paths| => [i] + paths[k])
  }

  /** The paths the traversal counts, in the order it visits them. */
  function Counted(v: Json): seq<Path>
    decreases v, ChildCount(v) + 1
  {
    if Finished(v) then [[]] else CountedFrom(v, 0)
  }

  function CountedFrom(v: Json, i: nat): seq<Path>
    requires i <= ChildCount(v)
    decreases v, ChildCount(v) - i
  {
    if i == ChildCount(v) then [] else Below(i, Counted(Child(v, i))) + CountedFrom(v, i + 1)
  }

  lemma {:induction false} CountedFromMember(v: Json, i: nat, path: Path)
    requires i <= ChildCount(v)
    ensures path in CountedFrom(v, i) <==>
              path != [] && i <= path[0] < ChildCount(v) && path[1..] in Counted(Child(v, path[0]))
    decreases ChildCount(v) - i
  {
    hide Finished;
    if i < ChildCount(v) {
      CountedFromMember(v, i + 1, path);
      var here := Below(i, Counted(Child(v, i)));
      if path in here {
        var k :| 0 <= k < |here| && here[k] == path;
        assert path[1..] == Counted(Child(v, i))[k];
      }
      if path != [] && path[0] == i && path[1..] in Counted(Child(v, i)) {
        var k :| 0 <= k < |here| && Counted(Child(v, i))[k] == path[1..];
        assert here[k] == [i] + path[1..] == path;
      }
    }
  }

  lemma OutermostBelow(v: Json, path: Path)
    requires !Finished(v) && path != [] && path[0] < ChildCount(v)
    ensures Outermost(v, path) <==> Outermost(Child(v, path[0]), path[1..])
  {
    var c := Child(v, path[0]);
    forall k | 1 <= k <= |path|
      ensures At(v, path[..k]) == At(c, path[1..][..k - 1])
    {
      assert path[..k][1..] == path[1..][..k - 1];
    }
    assert path[..|path|] == path && path[1..][..|path| - 1] == path[1..];
    if Outermost(c, path[1..]) {
      forall k | 0 <= k < |path|
        ensures At(v, path[..k]).Some? && !Finished(At(v, path[..k]).value)
      {
        if k > 0 {
          assert At(v, path[..k]) == At(c, path[1..][..k - 1]);
        }
      }
    }
    if Outermost(v, path) {
      forall k | 0 <= k < |path[1..]|
        ensures At(c, path[1..][..k]).Some? && !Finished(At(c, path[1..][..k]).value)
      {
        assert At(v, path[..k + 1]) == At(c, path[1..][..k]);
      }
    }
  }

  /** The traversal counts exactly the outermost finished messages. */
  lemma {:induction false} CountedAreOutermost(v: Json, path: Path)
    ensures path in Counted(v) <==> Outermost(v, path)
    decreases |path|
  {
    if Finished(v) {
      if path != [] {
        assert path[..0] == [];
      }
    } else {
      CountedFromMember(v, 0, path);
      if path != [] && path[0] < ChildCount(v) {
        CountedAreOutermost(Child(v, path[0]), path[1..]);
        OutermostBelow(v, path);
      }
    }
  }

  function SumAt(v: Json, paths: seq<Path>): Metrics {
    if paths == [] then ZERO
    else
      Add(match At(v, paths[0]) case Some(Object(fields)) => Contribution(fields) case _ => ZERO, SumAt(v, paths[1..]))
  }

  lemma {:induction false} SumAtAppend(v: Json, a: seq<Path>, b: seq<Path>)
    ensures SumAt(v, a + b) == Add(SumAt(v, a), SumAt(v, b))
  {
    hide Add, Contribution;
    if a == [] {
      assert a + b == b;
      AddLaws(SumAt(v, b), ZERO, ZERO);
    } else {
      assert (a + b)[1..] == a[1..] + b;
      SumAtAppend(v, a[1..], b);
      AddLaws(match At(v, a[0]) case Some(Object(fields)) => Contribution(fields) case _ => ZERO, SumAt(v, a[1..]),
              SumAt(v, b));
    }
  }

  lemma {:induction false} SumBelow(v: Json, i: nat, paths: seq<Path>)
    requires i < ChildCount(v)
    ensures SumAt(v, Below(i, paths)) == SumAt(Child(v, i), paths)
  {
    hide Add, Contribution;
    if paths != [] {
      assert Below(i, paths)[0][1..] == paths[0];
      assert Below(i, paths)[1..] == Below(i, paths[1..]);
      SumBelow(v, i, paths[1..]);
    }
  }

  /** The totals are the sum of the contributions of the counted messages. */
  lemma {:induction false} TotalSumsCounted(v: Json)
    ensures Total(v) == SumAt(v, Counted(v))
    decreases v, ChildCount(v) + 1
  {
    hide Finished, Contribution, Add;
    if Finished(v) {
      assert SumAt(v, [[]]) == Add(Contribution(v.fields), SumAt(v, [[]][1..]));
      AddLaws(Contribution(v.fields), ZERO, ZERO);
    } else {
      TotalFromSumsCounted(v, 0);
    }
  }

  lemma {:induction false} TotalFromSumsCounted(v: Json, i: nat)
    requires i <= ChildCount(v)
    ensures TotalFrom(v, i) == SumAt(v, CountedFrom(v, i))
    decreases v, ChildCount(v) - i
  {
    hide Finished, Contribution, Add;
    if i < ChildCount(v) {
      TotalSumsCounted(Child(v, i));
      SumBelow(v, i, Counted(Child(v, i)));
      TotalFromSumsCounted(v, i + 1);
      SumAtAppend(v, Below(i, Counted(Child(v, i))), CountedFrom(v, i + 1));
    }
  }

  /** No message is counted twice. */
  lemma {:induction false} CountedIsDistinct(v: Json)
    ensures Distinct(Counted(v))
    decreases v, ChildCount(v) + 1
  {
    if !Finished(v) {
      CountedFromIsDistinct(v, 0);
    }
  }

  lemma {:induction false} CountedFromIsDistinct(v: Json, i: nat)
    requires i <= ChildCount(v)
    ensures Distinct(CountedFrom(v, i))
    decreases v, ChildCount(v) - i
  {
    hide Finished;
    if i < ChildCount(v) {
      var paths, later := Counted(Child(v, i)), CountedFrom(v, i + 1);
      CountedIsDistinct(Child(v, i));
      CountedFromIsDistinct(v, i + 1);
      BelowIsDistinct(i, paths);
      forall p | p in Below(i, paths)
        ensures p !in later
      {
        CountedFromMember(v, i + 1, p);
      }
      DistinctConcat(Below(i, paths), later);
    }
  }

  lemma {:induction false} BelowIsDistinct(i: nat, paths: seq<Path>)
    requires Distinct(paths)
    ensures Distinct(Below(i, paths))
  {
    if paths != [] {
      var below := Below(i, paths);
      assert below[1..] == Below(i, paths[1..]);
      BelowIsDistinct(i, paths[1..]);
      forall k | 0 <= k < |paths[1..]|
        ensures below[1..][k] != below[0]
      {
        assert below[1..][k][1..] == paths[1..][k] && below[0][1..] == paths[0];
        assert paths[1..][k] in paths[1..];
      }
    }
  }

  lemma {:induction false} DistinctConcat(a: seq<Path>, b: seq<Path>)
    requires Distinct(a) && Distinct(b) && forall p :: p in a ==> p !in b
    ensures Distinct(a + b)
  {
    if a == [] {
      assert a + b == b;
    } else {
      assert (a + b)[1..] == a[1..] + b;
      DistinctConcat(a[1..], b);
    }
  }

  lemma {:induction false} TurnsCountPaths(v: Json, paths: seq<Path>)
    requires forall k :: 0 <= k < |paths| ==> At(v, paths[k]).Some? && At(v, paths[k]).value.Object?
    ensures SumAt(v, paths).turns == |paths|
  {
    hide Contribution;
    if paths != [] {
      TurnsCountPaths(v, paths[1..]);
    }
  }

  lemma {:induction false} FinishedHasOutermost(v: Json, path: Path) returns (outer: Path)
    requires At(v, path).Some? && Finished(At(v, path).value)
    ensures Outermost(v, outer)
    decreases |path|
  {
    if Finished(v) {
      outer := [];
    } else {
      var inner := FinishedHasOutermost(Child(v, path[0]), path[1..]);
      outer := [path[0]] + inner;
      assert outer[1..] == inner;
      OutermostBelow(v, outer);
    }
  }

  /** The number of turns is the number of counted messages; it is zero only if the tree holds none. */
  lemma TurnsAreExact(v: Json)
    ensures Total(v).turns == |Counted(v)|
    ensures Total(v).turns > 0 <==> exists path :: At(v, path).Some? && Finished(At(v, path).value)
  {
    TotalSumsCounted(v);
    forall k | 0 <= k < |Counted(v)|
      ensures Outermost(v, Counted(v)[k])
    {
      CountedAreOutermost(v, Counted(v)[k]);
    }
    TurnsCountPaths(v, Counted(v));
    if path :| At(v, path).Some? && Finished(At(v, path).value) {
      var outer := FinishedHasOutermost(v, path);
      CountedAreOutermost(v, outer);
    }
    if Total(v).turns > 0 {
      assert Outermost(v, Counted(v)[0]);
    }
  }

  // ---------------------------------------------------------------- arrays add up

  lemma {:induction false} TotalFromSuffix(items: seq<Json>, others: seq<Json>, i: nat)
    requires i <= |items|
    ensures TotalFrom(Array(items + others), i) ==
              Add(TotalFrom(Array(items), i), TotalFrom(Array(items + others), |items|))
    decreases |items| - i
  {
    hide Finished, Contribution, Add;
    if i < |items| {
      TotalFromSuffix(items, others, i + 1);
      AddLaws(Total(items[i]), TotalFrom(Array(items), i + 1), TotalFrom(Array(items + others), |items|));
    } else {
      AddLaws(TotalFrom(Array(items + others), |items|), ZERO, ZERO);
    }
  }

  lemma {:induction false} TotalFromShift(items: seq<Json>, others: seq<Json>, i: nat)
    requires i <= |others|
    ensures TotalFrom(Array(items + others), |items| + i) == TotalFrom(Array(others), i)
    decreases |others| - i
  {
    hide Finished, Contribution, Add;
    if i < |others| {
      TotalFromShift(items, others, i + 1);
    }
  }

  lemma TotalIsAdditive(items: seq<Json>, others: seq<Json>)
    ensures Total(Array(items + others)) == Add(Total(Array(items)), Total(Array(others)))
  {
    hide Add;
    TotalFromSuffix(items, others, 0);
    TotalFromShift(items, others, 0);
  }

  // ---------------------------------------------------------------- the visiting order of fields

  ghost predicate KeysDistinct(fields: seq<Field>) {
    forall i, j :: 0 <= i < j < |fields| ==> fields[i].key != fields[j].key
  }

  /** The same tree, except that the fields of objects may stand in another order, at any depth. */
  ghost predicate Same(v: Json, w: Json)
    decreases v
  {
    match v
    case Null => w.Null?
    case Bool(_) => w == v
    case Number(n) => w == v
    case Str(text, decoded) =>
      w.Str? && w.text == text && (decoded.None? <==> w.decoded.None?)
        && (decoded.Some? ==> Same(decoded.value, w.decoded.value))
    case Array(items) =>
      w.Array? && |w.items| == |items| && forall i :: 0 <= i < |items| ==> Same(items[i], w.items[i])
    case Object(fields) =>
      && w.Object? && |w.fields| == |fields| && KeysDistinct(fields) && KeysDistinct(w.fields)
      && (forall i :: 0 <= i < |fields| ==>
            Lookup(w.fields, fields[i].key).Some? && Same(fields[i].value, Lookup(w.fields, fields[i].key).value))
      && (forall j :: 0 <= j < |w.fields| ==> Lookup(fields, w.fields[j].key).Some?)
  }

  ghost predicate SameFields(a: seq<Field>, b: seq<Field>) {
    Same(Object(a), Object(b))
  }

  lemma SameLookup(a: seq<Field>, b: seq<Field>, key: string)
    requires SameFields(a, b)
    ensures Lookup(a, key).Some? <==> Lookup(b, key).Some?
    ensures Lookup(a, key).Some? ==> Same(Lookup(a, key).value, Lookup(b, key).value)
  {
    if Lookup(a, key).Some? {
      var i :| 0 <= i < |a| && a[i].key == key && a[i].value == Lookup(a, key).value;
    }
    if Lookup(b, key).Some? {
      var j :| 0 <= j < |b| && b[j].key == key && b[j].value == Lookup(b, key).value;
    }
  }

  /** Everything read from a message by key is the same in either order. */
  lemma SameReads(a: seq<Field>, b: seq<Field>, key: string)
    requires SameFields(a, b)
    ensures StringAt(a, key) == StringAt(b, key) && NumberAt(a, key) == NumberAt(b, key)
    ensures ObjectAt(a, key).Some? <==> ObjectAt(b, key).Some?
    ensures ObjectAt(a, key).Some? ==> SameFields(ObjectAt(a, key).value, ObjectAt(b, key).value)
  {
    SameLookup(a, b, key);
  }

  lemma {:induction false} SameFirstString(a: seq<Field>, b: seq<Field>, keys: seq<string>)
    requires SameFields(a, b)
    ensures FirstString(a, keys) == FirstString(b, keys)
  {
    if keys != [] {
      SameReads(a, b, keys[0]);
      SameFirstString(a, b, keys[1..]);
    }
  }

  lemma SameFinished(v: Json, w: Json)
    requires Same(v, w)
    ensures Finished(v) <==> Finished(w)
  {
    if v.Object? {
      hide Same, FirstString;
      assert SameFields(v.fields, w.fields);
      SameReads(v.fields, w.fields, "role");
      SameFirstString(v.fields, w.fields, FINISH_KEYS);
      SameReads(v.fields, w.fields, "part");
      if ObjectAt(v.fields, "part").Some? {
        SameFirstString(ObjectAt(v.fields, "part").value, ObjectAt(w.fields, "part").value, FINISH_KEYS);
      }
    }
  }

  lemma SameCounts(a: seq<Field>, b: seq<Field>)
    requires SameFields(a, b)
    ensures forall key :: CountAt(a, key) == CountAt(b, key) && NumberAt(a, key) == NumberAt(b, key)
  {
    forall key: string
      ensures CountAt(a, key) == CountAt(b, key) && NumberAt(a, key) == NumberAt(b, key)
    {
      SameReads(a, b, key);
    }
  }

  lemma SameContribution(a: seq<Field>, b: seq<Field>)
    requires SameFields(a, b)
    ensures Contribution(a) == Contribution(b)
  {
    hide SameFields, Same, NumberAt, TokenMetrics;
    SameTokens(a, b);
    SameReads(a, b, "cost");
  }

  lemma SameTokens(a: seq<Field>, b: seq<Field>)
    requires SameFields(a, b)
    ensures TokenMetrics(a) == TokenMetrics(b)
  {
    hide SameFields, Same, NumberAt, CountAt, ObjectAt;
    SameCounts(a, b);
    SameReads(a, b, "tokens");
    if ObjectAt(a, "tokens").Some? {
      var ta, tb := ObjectAt(a, "tokens").value, ObjectAt(b, "tokens").value;
      SameCounts(ta, tb);
      SameReads(ta, tb, "cache");
      if ObjectAt(ta, "cache").Some? {
        SameCounts(ObjectAt(ta, "cache").value, ObjectAt(tb, "cache").value);
      }
    }
  }

  /** Totals by key, in visiting order, and their sum. */
  datatype Entry = Entry(key: string, total: Metrics)

  function Entries(fields: seq<Field>): (r: seq<Entry>)
    ensures |r| == |fields| && forall i :: 0 <= i < |r| ==> r[i] == Entry(fields[i].key, Total(fields[i].value))
  {
    seq(|fields|, i requires 0 <= i < |fields| => Entry(fields[i].key, Total(fields[i].value)))
  }

  function Sum(entries: seq<Entry>): Metrics {
    if entries == [] then ZERO else Add(entries[0].total, Sum(entries[1..]))
  }

  lemma {:induction false} TotalFromIsSum(fields: seq<Field>, i: nat)
    requires i <= |fields|
    ensures TotalFrom(Object(fields), i) == Sum(Entries(fields)[i..])
    decreases |fields| - i
  {
    hide Finished, Contribution, Add;
    if i < |fields| {
      TotalFromIsSum(fields, i + 1);
      assert Entries(fields)[i..][1..] == Entries(fields)[i + 1..];
    }
  }

  lemma {:induction false} SumWithout(entries: seq<Entry>, j: nat)
    requires j < |entries|
    ensures Sum(entries) == Add(entries[j].total, Sum(entries[..j] + entries[j + 1..]))
  {
    hide Add;
    if j > 0 {
      SumWithout(entries[1..], j - 1);
      var rest := Sum(entries[1..j] + entries[j + 1..]);
      AddLaws(entries[0].total, entries[j].total, rest);
      AddLaws(entries[j].total, entries[0].total, rest);
      assert entries[1..][..j - 1] + entries[1..][j..] == entries[1..j] + entries[j + 1..];
      assert (entries[..j] + entries[j + 1..])[1..] == entries[1..j] + entries[j + 1..];
    } else {
      assert entries[..0] + entries[1..] == entries[1..];
    }
  }

  ghost predicate EntryKeysDistinct(entries: seq<Entry>) {
    forall i, j :: 0 <= i < j < |entries| ==> entries[i].key != entries[j].key
  }

  /** Two lists with the same entries have the same sum. */
  lemma {:induction false} SumIsOrderIndependent(a: seq<Entry>, b: seq<Entry>)
    requires |a| == |b| && EntryKeysDistinct(a) && EntryKeysDistinct(b)
    requires forall i :: 0 <= i < |a| ==> a[i] in b
    ensures Sum(a) == Sum(b)
  {
    hide Add;
    if a != [] {
      assert a[0] in b;
      var j :| 0 <= j < |b| && b[j] == a[0];
      var rest := b[..j] + b[j + 1..];
      SumWithout(b, j);
      forall i | 0 <= i < |a[1..]|
        ensures a[1..][i] in rest
      {
        assert a[1..][i] == a[i + 1] && a[i + 1].key != a[0].key;
        var k :| 0 <= k < |b| && b[k] == a[i + 1];
        assert k != j;
        assert rest[if k < j then k else k - 1] == b[k];
      }
      forall i, k | 0 <= i < k < |rest|
        ensures rest[i].key != rest[k].key
      {
        assert rest[i] == b[if i < j then i else i + 1] && rest[k] == b[if k < j then k else k + 1];
      }
      SumIsOrderIndependent(a[1..], rest);
    }
  }

  /** However the traversal happens to visit the fields of objects, the totals are the same. */
  lemma {:induction false} VisitingOrderIsIrrelevant(v: Json, w: Json)
    requires Same(v, w)
    ensures Total(v) == Total(w)
    decreases v, 1
  {
    SameFinished(v, w);
    hide Finished, Contribution, Add;
    if Finished(v) {
      SameContribution(v.fields, w.fields);
    } else if v.Object? {
      FieldOrderIsIrrelevant(v.fields, w.fields);
    } else if v.Array? {
      ItemsInOrder(v.items, w.items, 0);
    } else if v.Str? && v.decoded.Some? {
      VisitingOrderIsIrrelevant(v.decoded.value, w.decoded.value);
      assert TotalFrom(v, 0) == Add(Total(v.decoded.value), TotalFrom(v, 1));
      assert TotalFrom(w, 0) == Add(Total(w.decoded.value), TotalFrom(w, 1));
    }
  }

  lemma {:induction false} ItemsInOrder(items: seq<Json>, others: seq<Json>, i: nat)
    requires i <= |items| == |others| && forall k :: 0 <= k < |items| ==> Same(items[k], others[k])
    ensures TotalFrom(Array(items), i) == TotalFrom(Array(others), i)
    decreases Array(items), 0, |items| - i
  {
    hide Same, Finished, Contribution, Add;
    if i < |items| {
      assert items[i] < Array(items);
      VisitingOrderIsIrrelevant(items[i], others[i]);
      ItemsInOrder(items, others, i + 1);
    }
  }

  lemma {:induction false} FieldOrderIsIrrelevant(fields: seq<Field>, others: seq<Field>)
    requires SameFields(fields, others)
    ensures TotalFrom(Object(fields), 0) == TotalFrom(Object(others), 0)
    decreases Object(fields), 0, 0
  {
    var a, b := Entries(fields), Entries(others);
    forall i | 0 <= i < |a|
      ensures a[i] in b
    {
      var j :| 0 <= j < |others| && others[j].key == fields[i].key
        && others[j].value == Lookup(others, fields[i].key).value;
      assert fields[i].value < Object(fields);
      VisitingOrderIsIrrelevant(fields[i].value, others[j].value);
      assert b[j] == a[i];
    }
    SumIsOrderIndependent(a, b);
    TotalFromIsSum(fields, 0);
    TotalFromIsSum(others, 0);
    assert a[0..] == a && b[0..] == b;
  }

  // ---------------------------------------------------------------- spelled out

  /** The whole part of a number, toward zero. */
  predicate WholePart(n: real, v: int) {
    (n >= 0.0 ==> v as real <= n < v as real + 1.0) && (n < 0.0 ==> v as real - 1.0 < n <= v as real)
  }

  /** What a field holds as a count: the whole part of a number, and nothing otherwise. */
  predicate Shows(fields: seq<Field>, key: string, v: int) {
    match Lookup(fields, key)
    case Some(Number(n)) => WholePart(n, v)
    case _ => v == 0
  }

  predicate HasNumber(fields: seq<Field>, key: string) {
    match Lookup(fields, key)
    case Some(Number(_)) => true
    case _ => false
  }

  /** The first of two spellings of a field, if it holds a number, and else the second. */
  predicate ShowsEither(fields: seq<Field>, key: string, other: string, v: int) {
    Shows(fields, if HasNumber(fields, key) then key else other, v)
  }

  lemma CountIsShown(fields: seq<Field>, key: string)
    ensures Shows(fields, key, CountAt(fields, key))
  {
  }

  lemma EitherIsShown(fields: seq<Field>, key: string, other: string)
    ensures ShowsEither(fields, key, other, EitherCount(fields, key, other))
  {
    CountIsShown(fields, key);
    CountIsShown(fields, other);
  }

  /** Which fields of a message feed which totals. */
  lemma ContributionInWords(fields: seq<Field>)
    ensures var m := Contribution(fields);
            && m.turns == 1
            && (match Lookup(fields, "tokens")
                case Some(Object(tokens)) =>
                  && Shows(tokens, "input", m.input) && Shows(tokens, "output", m.output)
                  && Shows(tokens, "reasoning", m.reasoning) && Shows(tokens, "total", m.total)
                  && (match Lookup(tokens, "cache")
                      case Some(Object(cache)) => Shows(cache, "read", m.cacheRead)
                        && Shows(cache, "write", m.cacheWrite)
                      case _ => m.cacheRead == 0 && m.cacheWrite == 0)
                case _ =>
                  && ShowsEither(fields, "input_tokens", "inputTokens", m.input)
                  && ShowsEither(fields, "output_tokens", "outputTokens", m.output)
                  && ShowsEither(fields, "total_tokens", "totalTokens", m.total)
                  && m.reasoning == 0 && m.cacheRead == 0 && m.cacheWrite == 0)
            && (match Lookup(fields, "cost")
                case Some(Number(c)) => m.costKnown && m.cost == c
                case _ => !m.costKnown && m.cost == 0.0)
  {
    match Lookup(fields, "tokens") {
      case Some(Object(tokens)) =>
        CountIsShown(tokens, "input");
        CountIsShown(tokens, "output");
        CountIsShown(tokens, "reasoning");
        CountIsShown(tokens, "total");
        match Lookup(tokens, "cache") {
          case Some(Object(cache)) =>
            CountIsShown(cache, "read");
            CountIsShown(cache, "write");
          case _ =>
            assert Lookup([], "read") == None && Lookup([], "write") == None;
        }
      case _ =>
        EitherIsShown(fields, "input_tokens", "inputTokens");
        EitherIsShown(fields, "output_tokens", "outputTokens");
        EitherIsShown(fields, "total_tokens", "totalTokens");
    }
    hide Shows, ShowsEither;
  }

  predicate HasText(fields: seq<Field>, key: string) {
    match Lookup(fields, key)
    case Some(Str(text, _)) => text != ""
    case _ => false
  }

  /** The message says why it ended, under one of six spellings. */
  predicate SaysWhyItEnded(fields: seq<Field>) {
    || HasText(fields, "finish_reason") || HasText(fields, "finishReason") || HasText(fields, "stopReason")
    || HasText(fields, "stop_reason") || HasText(fields, "reason") || HasText(fields, "finish")
  }

  lemma FirstReason(fields: seq<Field>)
    ensures FirstString(fields, FINISH_KEYS) != "" <==> SaysWhyItEnded(fields)
  {
    ReasonsFrom(fields, FINISH_KEYS);
    var keys := FINISH_KEYS;
    assert |keys| == 6 && keys[0] == "finish_reason" && keys[1] == "finishReason" && keys[2] == "stopReason";
    assert keys[3] == "stop_reason" && keys[4] == "reason" && keys[5] == "finish";
    hide HasText, FirstString, Lookup;
  }

  lemma {:induction false} ReasonsFrom(fields: seq<Field>, keys: seq<string>)
    ensures FirstString(fields, keys) != "" <==> exists i :: 0 <= i < |keys| && HasText(fields, keys[i])
  {
    if keys != [] {
      ReasonsFrom(fields, keys[1..]);
      assert forall i :: 0 <= i < |keys| - 1 ==> keys[1..][i] == keys[i + 1];
      if i :| 0 <= i < |keys| && HasText(fields, keys[i]) {
        assert i > 0 ==> HasText(fields, keys[1..][i - 1]);
      }
    }
  }

  /** Which nodes are finished assistant messages. */
  lemma FinishedInWords(v: Json)
    ensures Finished(v) <==>
              && v.Object?
              && (match Lookup(v.fields, "role")
                  case Some(Str(text, _)) => Text.SameLetters(text, "assistant")
                  case _ => false)
              && (SaysWhyItEnded(v.fields) ||
                  match Lookup(v.fields, "part")
                  case Some(Object(part)) => SaysWhyItEnded(part)
                  case _ => false)
  {
    if v.Object? {
      FirstReason(v.fields);
      AssistantInWords(StringAt(v.fields, "role"));
      match Lookup(v.fields, "part") {
        case Some(Object(part)) => FirstReason(part);
        case _ =>
      }
      hide FirstString, SaysWhyItEnded, Text.SameLetters, Text.Lower;
    }
  }

  lemma AssistantInWords(text: string)
    ensures Text.Lower(text) == "assistant" <==> Text.SameLetters(text, "assistant")
    ensures !Text.SameLetters("", "assistant")
  {
    Text.LowerIgnoresCaseOnly(text, "assistant");
    assert Text.Lower("assistant") == "assistant";
  }

  /** Where the traversal goes: into arrays, the values of objects that are no finished message, and decoded texts. */
  lemma TraversalInWords(v: Json, items: seq<Json>, fields: seq<Field>, text: string)
    ensures Total(Str(text, Some(v))) == Total(v) && Total(Str(text, None)) == ZERO
    ensures items != [] ==> Total(Array(items)) == Add(Total(items[0]), Total(Array(items[1..])))
    ensures Total(Array([])) == ZERO
    ensures Finished(Object(fields)) ==> Total(Object(fields)) == Contribution(fields)
    ensures !Finished(Object(fields)) ==>
              Total(Object(fields)) == Sum(Entries(fields))
    ensures !v.Str? && !v.Array? && !v.Object? ==> Total(v) == ZERO
  {
    hide Finished, Contribution, Add;
    AddLaws(Total(v), ZERO, ZERO);
    assert TotalFrom(Str(text, Some(v)), 1) == ZERO;
    if items != [] {
      assert items == [items[0]] + items[1..];
      TotalIsAdditive([items[0]], items[1..]);
      AddLaws(Total(items[0]), ZERO, ZERO);
      assert TotalFrom(Array([items[0]]), 1) == ZERO;
    }
    if !Finished(Object(fields)) {
      TotalFromIsSum(fields, 0);
      assert Entries(fields)[0..] == Entries(fields);
    }
  }
}
