/**
 The environment handed to the adapter's process: a list of `KEY=value` entries, one of which carries a
 JSON document. The JSON codec is a parameter; what is assumed of it is that the one document a stage
 renders and a later stage reads comes back as itself.
 */
module ProcessEnv {
  import opened Core

  /** The stages look into objects and write flags; any other value is carried along as its text. */
  datatype Value = Flag(on: bool) | Nested(fields: Document) | Other(text: string)

  type Document = map<string, Value>

  /** Decoding into a map: malformed or not an object, the literal null, or fields. */
  datatype Parsed = Unreadable | NullDocument | Fields(fields: Document)

  datatype Codec = Codec(parse: string -> Parsed, render: Document -> string)

  /** `NilMapWrite` is the crash of writing to the map that decoding a null leaves behind. */
  datatype EnvError = InvalidConfig | NilMapWrite | BadDatabasePath | TempDirFailed

  /** The keys the stages set. */
  datatype Key = Config | DatabaseKey | TmpDir | Tmp | TempKey

  function Name(key: Key): string {
    match key
    case Config => "OPENCODE_CONFIG_CONTENT"
    case DatabaseKey => "OPENCODE_DB"
    case TmpDir => "TMPDIR"
    case Tmp => "TMP"
    case TempKey => "TEMP"
  }

  // ---------------------------------------------------------------- entries by key

  predicate IsEntry(item: string, key: Key) {
    Name(key) + "=" <= item
  }

  function Entry(key: Key, value: string): string {
    Name(key) + "=" + value
  }

  function ValueIn(item: string, key: Key): string
    requires IsEntry(item, key)
  {
    item[|Name(key)| + 1..]
  }

  function Without(env: seq<string>, key: Key): seq<string> {
    if env == [] then []
    else Without(env[..|env| - 1], key) + if IsEntry(env[|env| - 1], key) then [] else [env[|env| - 1]]
  }

  /** The values a list gives to a key, in order. */
  function ValuesOf(env: seq<string>, key: Key): seq<string> {
    if env == [] then []
    else
      var last := env[|env| - 1];
      ValuesOf(env[..|env| - 1], key) + if IsEntry(last, key) then [ValueIn(last, key)] else []
  }

  predicate IsManaged(item: string) {
    exists key: Key :: IsEntry(item, key)
  }

  /** The entries no stage manages. */
  function Unmanaged(env: seq<string>): seq<string> {
    if env == [] then []
    else Unmanaged(env[..|env| - 1]) + if IsManaged(env[|env| - 1]) then [] else [env[|env| - 1]]
  }

  // ---------------------------------------------------------------- reading the document

  /** Decoding one more document into a map that may be nil: fields overlay, null makes it nil. */
  function ReadInto(codec: Codec, target: Option<Document>, content: string): Result<Option<Document>, EnvError> {
    match codec.parse(content)
    case Unreadable => Failure(InvalidConfig)
    case NullDocument => Success(None)
    case Fields(fields) => Success(Some(if target.Some? then target.value + fields else fields))
  }

  function ReadAll(codec: Codec, contents: seq<string>): Result<Option<Document>, EnvError> {
    if contents == [] then Success(Some(map[]))
    else
      var earlier := ReadAll(codec, contents[..|contents| - 1]);
      if earlier.Failure? then earlier else ReadInto(codec, earlier.value, contents[|contents| - 1])
  }

  /** Overlays permissions on a document's own, which must be an object if present. */
  function WithPermissions(d: Document, permissions: Document): Result<Document, EnvError> {
    if "permission" !in d then Success(d["permission" := Nested(permissions)])
    else if d["permission"].Nested? then Success(d["permission" := Nested(d["permission"].fields + permissions)])
    else Failure(InvalidConfig)
  }

  /** Splits a list into the entries of other keys and the document its config entries add up to. */
  method ReadConfig(codec: Codec, env: seq<string>)
      returns (others: seq<string>, document: Result<Option<Document>, EnvError>)
    ensures document == ReadAll(codec, ValuesOf(env, Config))
    ensures document.Success? ==> others == Without(env, Config)
  {
    hide IsEntry, ValueIn, ReadInto;
    others, document := [], Success(Some(map[]));
    for i := 0 to |env|
      invariant others == Without(env[..i], Config)
      invariant document.Success? && document == ReadAll(codec, ValuesOf(env[..i], Config))
    {
      ReadOneMore(codec, env, i);
      if IsEntry(env[i], Config) {
        document := ReadInto(codec, document.value, ValueIn(env[i], Config));
        if document.Failure? {
          ReadFailureStays(codec, env, i + 1);
          return;
        }
      } else {
        others := others + [env[i]];
      }
    }
    assert env[..|env|] == env;
  }

  lemma ReadOneMore(codec: Codec, env: seq<string>, i: nat)
    requires i < |env|
    ensures var earlier := ReadAll(codec, ValuesOf(env[..i], Config));
            ReadAll(codec, ValuesOf(env[..i + 1], Config)) ==
              if earlier.Failure? || !IsEntry(env[i], Config) then earlier
              else ReadInto(codec, earlier.value, ValueIn(env[i], Config))
    ensures Without(env[..i + 1], Config) == Without(env[..i], Config)
              + if IsEntry(env[i], Config) then [] else [env[i]]
  {
    hide IsEntry, ValueIn, ReadInto;
    assert env[..i + 1][..i] == env[..i];
    var values := ValuesOf(env[..i], Config);
    if IsEntry(env[i], Config) {
      var content := ValueIn(env[i], Config);
      assert (values + [content])[..|values|] == values;
    } else {
      assert values + [] == values;
    }
  }

  lemma {:induction false} ReadFailureStays(codec: Codec, env: seq<string>, i: nat)
    requires i <= |env| && ReadAll(codec, ValuesOf(env[..i], Config)).Failure?
    ensures ReadAll(codec, ValuesOf(env, Config)) == ReadAll(codec, ValuesOf(env[..i], Config))
    decreases |env| - i
  {
    if i < |env| {
      ReadOneMore(codec, env, i);
      ReadFailureStays(codec, env, i + 1);
    } else {
      assert env[..i] == env;
    }
  }

  method MergeEnv(codec: Codec, base: seq<string>, permissions: Document) returns (r: Result<seq<string>, EnvError>)
    ensures |permissions| == 0 ==> r == Success(base)
    ensures |permissions| > 0 ==>
              var read := ReadAll(codec, ValuesOf(base, Config));
              var merged := if read.Failure? then Failure(read.error)
                            else if read.value.None? then Failure(NilMapWrite)
                              else WithPermissions(read.value.value, permissions);
              r == if merged.Failure? then Failure(merged.error)
                   else Success(Without(base, Config) + [Entry(Config, codec.render(merged.value))])
  {
    if |permissions| == 0 {
      return Success(base);
    }
    var others, document := ReadConfig(codec, base);
    if document.Failure? {
      return Failure(document.error);
    }
    if document.value.None? {
      return Failure(NilMapWrite);
    }
    var merged := WithPermissions(document.value.value, permissions);
    if merged.Failure? {
      return Failure(merged.error);
    }
    r := Success(others + [Entry(Config, codec.render(merged.value))]);
  }

  method WithSnapshotConfig(codec: Codec, env: seq<string>, enabled: bool) returns (r: Result<seq<string>, EnvError>)
    ensures var read := ReadAll(codec, ValuesOf(env, Config));
            r == if read.Failure? then Failure(read.error)
                 else if read.value.None? then Failure(NilMapWrite)
                 else
                   var written := read.value.value["snapshot" := Flag(enabled)];
                   Success(Without(env, Config) + [Entry(Config, codec.render(written))])
  {
    var others, document := ReadConfig(codec, env);
    if document.Failure? {
      return Failure(document.error);
    }
    if document.value.None? {
      return Failure(NilMapWrite);
    }
    r := Success(others + [Entry(Config, codec.render(document.value.value["snapshot" := Flag(enabled)]))]);
  }

  method SetEnvValue(env: seq<string>, key: Key, value: string) returns (r: seq<string>)
    ensures r == Without(env, key) + [Entry(key, value)]
  {
    r := [];
    for i := 0 to |env|
      invariant r == Without(env[..i], key)
    {
      assert env[..i + 1][..i] == env[..i];
      if !IsEntry(env[i], key) {
        r := r + [env[i]];
      }
    }
    assert env[..|env|] == env;
    r := r + [Entry(key, value)];
  }

  // ---------------------------------------------------------------- the stages do not disturb each other

  lemma NamesHaveNoEquals(key: Key)
    ensures '=' !in Name(key)
  {
  }

  lemma NamesAreDistinct(key: Key, other: Key)
    requires Name(key) == Name(other)
    ensures key == other
  {
    assert Name(key)[|Name(key)| - 1] == Name(other)[|Name(other)| - 1];
    assert |Name(key)| == |Name(other)|;
  }

  /** No name contains `=`, so an entry belongs to one key only. */
  lemma EntryHasOneKey(key: Key, value: string, other: Key)
    ensures IsEntry(Entry(key, value), other) <==> other == key
    ensures IsEntry(Entry(key, value), key) && ValueIn(Entry(key, value), key) == value
  {
    var item, name, otherName := Entry(key, value), Name(key), Name(other);
    NamesHaveNoEquals(key);
    NamesHaveNoEquals(other);
    assert item == (name + "=") + value;
    if IsEntry(item, other) {
      hide Name;
      assert item[|name|] == '=' && item[|otherName|] == (otherName + "=")[|otherName|] == '=';
      assert forall i :: 0 <= i < |name| ==> item[i] == name[i];
      assert forall i :: 0 <= i < |otherName| ==> item[i] == (otherName + "=")[i] == otherName[i];
      assert |otherName| == |name|;
      assert otherName == item[..|name|] == name;
      NamesAreDistinct(key, other);
    }
  }

  lemma EntriesOfTwoKeys(item: string, key: Key, other: Key)
    requires IsEntry(item, key) && IsEntry(item, other)
    ensures key == other
  {
    assert item == Entry(key, ValueIn(item, key));
    EntryHasOneKey(key, ValueIn(item, key), other);
  }

  lemma {:induction false} WithoutAndValues(env: seq<string>, key: Key, other: Key)
    ensures ValuesOf(Without(env, key), other) == if key == other then [] else ValuesOf(env, other)
  {
    hide IsEntry, ValueIn;
    if env != [] {
      var earlier, last := env[..|env| - 1], env[|env| - 1];
      var kept := Without(earlier, key);
      WithoutAndValues(earlier, key, other);
      if IsEntry(last, key) {
        assert Without(env, key) == kept + [] == kept;
        if IsEntry(last, other) {
          EntriesOfTwoKeys(last, key, other);
        } else {
          assert ValuesOf(env, other) == ValuesOf(earlier, other) + [] == ValuesOf(earlier, other);
        }
      } else {
        assert (kept + [last])[..|kept|] == kept;
      }
    }
  }

  lemma {:induction false} WithoutAndUnmanaged(env: seq<string>, key: Key)
    ensures Unmanaged(Without(env, key)) == Unmanaged(env)
  {
    hide IsEntry;
    if env != [] {
      var earlier, last := env[..|env| - 1], env[|env| - 1];
      var kept := Without(earlier, key);
      WithoutAndUnmanaged(earlier, key);
      if IsEntry(last, key) {
        assert IsManaged(last);
        assert Without(env, key) == kept + [] == kept;
        assert Unmanaged(env) == Unmanaged(earlier) + [] == Unmanaged(earlier);
      } else {
        assert (kept + [last])[..|kept|] == kept;
      }
    }
  }

  /** What putting one entry in place of all others of its key changes: that key's values, and nothing else. */
  lemma ReplacingIsLocal(env: seq<string>, key: Key, value: string)
    ensures var r := Without(env, key) + [Entry(key, value)];
            && Unmanaged(r) == Unmanaged(env)
            && forall other :: ValuesOf(r, other) == if other == key then [value] else ValuesOf(env, other)
  {
    var kept := Without(env, key);
    var r := kept + [Entry(key, value)];
    assert r[..|kept|] == kept;
    EntryHasOneKey(key, value, key);
    assert IsManaged(Entry(key, value));
    assert Unmanaged(kept) + [] == Unmanaged(kept);
    WithoutAndUnmanaged(env, key);
    hide Without, IsEntry, ValueIn, Entry;
    forall other: Key
      ensures ValuesOf(r, other) == if other == key then [value] else ValuesOf(env, other)
    {
      WithoutAndValues(env, key, other);
      EntryHasOneKey(key, value, other);
      assert ValuesOf(kept, other) + [] == ValuesOf(kept, other);
    }
  }

  // ---------------------------------------------------------------- the pipeline

  datatype DatabasePath = NoDatabase | BadPath | Database(path: string)

  datatype TempDir = NoTemp | TempFailed | Temp(dir: string)

  /** The config document the process should see: the base document, permissions overlaid, snapshots set. */
  function ExpectedDocument(codec: Codec, base: seq<string>, permissions: Document,
                            snapshots: Option<bool>): Result<Document, EnvError> {
    var read := ReadAll(codec, ValuesOf(base, Config));
    if read.Failure? then Failure(read.error)
    else if read.value.None? then Failure(NilMapWrite)
    else
      var permitted := if |permissions| == 0 then Success(read.value.value)
        else WithPermissions(read.value.value, permissions);
      if permitted.Failure? || snapshots.None? then permitted
      else Success(permitted.value["snapshot" := Flag(snapshots.value)])
  }

  /** The document the permission stage renders comes back as itself when the snapshot stage reads it. */
  ghost predicate Rereads(codec: Codec, base: seq<string>, permissions: Document, snapshots: Option<bool>) {
    var rendered := ExpectedDocument(codec, base, permissions, None);
    |permissions| > 0 && snapshots.Some? && rendered.Success? ==>
      codec.parse(codec.render(rendered.value)) == Fields(rendered.value)
  }

  /** A config stage applies. */
  predicate Configured(permissions: Document, snapshots: Option<bool>) {
    |permissions| > 0 || snapshots.Some?
  }

  /** What the finished environment gives each managed key, and that it leaves the rest alone. */
  ghost predicate EnvFor(codec: Codec, base: seq<string>, permissions: Document, snapshots: Option<bool>,
                         database: DatabasePath, temp: TempDir, env: seq<string>)
  {
    && Unmanaged(env) == Unmanaged(base)
    && (if Configured(permissions, snapshots)
        then ExpectedDocument(codec, base, permissions, snapshots).Success? &&
             ValuesOf(env, Config) == [codec.render(ExpectedDocument(codec, base, permissions, snapshots).value)]
        else ValuesOf(env, Config) == ValuesOf(base, Config))
    && ValuesOf(env, DatabaseKey) == (if database.Database? then [database.path] else ValuesOf(base, DatabaseKey))
    && forall key :: key == TmpDir || key == Tmp || key == TempKey ==>
         ValuesOf(env, key) == if temp.Temp? then [temp.dir] else ValuesOf(base, key)
  }

  method ConfigStages(codec: Codec, base: seq<string>, permissions: Document, snapshots: Option<bool>)
      returns (r: Result<seq<string>, EnvError>)
    requires Rereads(codec, base, permissions, snapshots)
    ensures r.Failure? <==>
              Configured(permissions, snapshots) && ExpectedDocument(codec, base, permissions, snapshots).Failure?
    ensures r.Failure? ==> r.error == ExpectedDocument(codec, base, permissions, snapshots).error
    ensures r.Success? ==> EnvFor(codec, base, permissions, snapshots, NoDatabase, NoTemp, r.value)
  {
    hide Without, ValuesOf, Unmanaged, ReadAll, WithPermissions, Entry;
    r := MergeEnv(codec, base, permissions);
    if r.Failure? {
      return;
    }
    ghost var merged := r.value;
    if |permissions| > 0 {
      ghost var document := ExpectedDocument(codec, base, permissions, None).value;
      ReplacingIsLocal(base, Config, codec.render(document));
      if snapshots.Some? {
        OneDocument(codec, document);
      }
    }
    if snapshots.Some? {
      r := WithSnapshotConfig(codec, r.value, snapshots.value);
      if r.Failure? {
        return;
      }
      ReplacingIsLocal(merged, Config, codec.render(ExpectedDocument(codec, base, permissions, snapshots).value));
    }
  }

  lemma OneDocument(codec: Codec, d: Document)
    requires codec.parse(codec.render(d)) == Fields(d)
    ensures ReadAll(codec, [codec.render(d)]) == Success(Some(d))
  {
    assert [codec.render(d)][..0] == [];
    assert map[] + d == d;
  }

  /**
   What keeps the environment from being built: the first stage that fails. A config stage fails on an
   unreadable document, on a permission entry that is no object, and by writing to a nil map.
   */
  function Obstacle(codec: Codec, base: seq<string>, permissions: Document, snapshots: Option<bool>,
                    database: DatabasePath, temp: TempDir): Option<EnvError>
  {
    if Configured(permissions, snapshots) && ExpectedDocument(codec, base, permissions, snapshots).Failure?
    then Some(ExpectedDocument(codec, base, permissions, snapshots).error)
    else if database.BadPath? then Some(BadDatabasePath)
    else if temp.TempFailed? then Some(TempDirFailed)
    else None
  }

  /**
   The environment fails to build exactly when a stage meets its obstacle, and with that error. Otherwise
   each key that is set appears exactly once with its value, and every other entry is kept in order.
   */
  method BuildEnv(codec: Codec, base: seq<string>, permissions: Document, snapshots: Option<bool>,
                  database: DatabasePath, temp: TempDir) returns (r: Result<seq<string>, EnvError>)
    requires Rereads(codec, base, permissions, snapshots)
    ensures r.Failure? <==> Obstacle(codec, base, permissions, snapshots, database, temp).Some?
    ensures r.Failure? ==> Some(r.error) == Obstacle(codec, base, permissions, snapshots, database, temp)
    ensures r == Failure(NilMapWrite) <==>
              Configured(permissions, snapshots) && ExpectedDocument(codec, base, permissions, snapshots) ==
                Failure(NilMapWrite)
    ensures r.Success? ==> EnvFor(codec, base, permissions, snapshots, database, temp, r.value)
  {
    hide Rereads, ExpectedDocument, Unmanaged, ValuesOf, Without, Entry, Configured;
    r := ConfigStages(codec, base, permissions, snapshots);
    if r.Failure? {
      return;
    }
    var env := r.value;
    if database.BadPath? {
      return Failure(BadDatabasePath);
    }
    if database.Database? {
      ReplacingIsLocal(env, DatabaseKey, database.path);
      env := SetEnvValue(env, DatabaseKey, database.path);
    }
    if temp.TempFailed? {
      return Failure(TempDirFailed);
    }
    if temp.Temp? {
      ReplacingIsLocal(env, TmpDir, temp.dir);
      env := SetEnvValue(env, TmpDir, temp.dir);
      ReplacingIsLocal(env, Tmp, temp.dir);
      env := SetEnvValue(env, Tmp, temp.dir);
      ReplacingIsLocal(env, TempKey, temp.dir);
      env := SetEnvValue(env, TempKey, temp.dir);
    }
    r := Success(env);
  }

  /** A field as a document has it, if it does. */
  function FieldOf(d: Document, field: string): Option<Value> {
    if field in d then Some(d[field]) else None
  }

  /** The entries of a document's own permission object. */
  function PermissionsOf(d: Document): Document {
    if "permission" in d && d["permission"].Nested? then d["permission"].fields else map[]
  }

  /**
   Every field is kept unless its stage applies: the snapshot stage sets its flag and nothing else, and
   the permission stage overlays entry by entry, keeping the entries it does not name.
   */
  lemma DocumentKeepsTheRest(codec: Codec, base: seq<string>, permissions: Document, snapshots: Option<bool>,
                             field: string)
    requires ExpectedDocument(codec, base, permissions, snapshots).Success?
    ensures var d := ExpectedDocument(codec, base, permissions, snapshots).value;
            var read := ReadAll(codec, ValuesOf(base, Config)).value.value;
            && ((field == "permission" ==> |permissions| == 0) && (field == "snapshot" ==> snapshots.None?) ==>
                  FieldOf(d, field) == FieldOf(read, field))
            && (|permissions| > 0 ==>
                  && "permission" in d && d["permission"].Nested?
                  && FieldOf(PermissionsOf(d), field) ==
                     if field in permissions then Some(permissions[field]) else FieldOf(PermissionsOf(read), field))
            && (snapshots.Some? ==> FieldOf(d, "snapshot") == Some(Flag(snapshots.value)))
  {
  }

  /** A config stage crashes exactly when every document can be read and the last one is null. */
  lemma CrashesIffLastDocumentIsNull(codec: Codec, base: seq<string>, permissions: Document, snapshots: Option<bool>)
    ensures ExpectedDocument(codec, base, permissions, snapshots) == Failure(NilMapWrite) <==>
              var values := ValuesOf(base, Config);
              && (forall i :: 0 <= i < |values| ==> !codec.parse(values[i]).Unreadable?)
              && values != [] && codec.parse(values[|values| - 1]).NullDocument?
  {
    ReadsIffReadable(codec, ValuesOf(base, Config));
  }

  lemma {:induction false} ReadsIffReadable(codec: Codec, contents: seq<string>)
    ensures var read := ReadAll(codec, contents);
            && (read.Success? <==> forall i :: 0 <= i < |contents| ==> !codec.parse(contents[i]).Unreadable?)
            && (read.Failure? ==> read.error == InvalidConfig)
            && (read.Success? ==>
                (read.value.None? <==> contents != [] && codec.parse(contents[|contents| - 1]).NullDocument?))
  {
    if contents != [] {
      var n := |contents| - 1;
      ReadsIffReadable(codec, contents[..n]);
      assert forall i :: 0 <= i < n ==> contents[..n][i] == contents[i];
    }
  }

  /** A codec that reads `null` as null, and an environment with that document alone. */
  lemma NullDocumentCrashes(codec: Codec, permissions: Document)
    requires codec.parse("null").NullDocument? && |permissions| > 0
    ensures var base := [Entry(Config, "null")];
            && Rereads(codec, base, permissions, Some(true))
            && Obstacle(codec, base, permissions, None, NoDatabase, NoTemp) == Some(NilMapWrite)
            && Obstacle(codec, base, map[], Some(true), NoDatabase, NoTemp) == Some(NilMapWrite)
  {
    var base := [Entry(Config, "null")];
    EntryHasOneKey(Config, "null", Config);
    assert base[..0] == [];
    assert ValuesOf(base, Config) == ["null"];
    CrashesIffLastDocumentIsNull(codec, base, permissions, None);
    CrashesIffLastDocumentIsNull(codec, base, map[], Some(true));
  }

  /** What is asked of the codec can be had, here over a document with permissions of its own. */
  lemma PermissionsAreOverlaid()
    ensures var read: Document := map["model" := Other("m"),
                                      "permission" := Nested(map["bash" := Other("deny"), "edit" := Other("ask")])];
            var permissions: Document := map["bash" := Other("allow")];
            var written := read["permission" := Nested(map["bash" := Other("allow"), "edit" := Other("ask")])];
            var codec := Codec(text => if text == "in" then Fields(read)
                                       else if text == "out" then Fields(written) else Unreadable,
                               d => if d == written then "out" else "in");
            var base := ["HOME=/", Entry(Config, "in")];
            && Rereads(codec, base, permissions, Some(false))
            && ExpectedDocument(codec, base, permissions, None) == Success(written)
            && ExpectedDocument(codec, base, permissions, Some(false)) == Success(written["snapshot" := Flag(false)])
  {
    var read: Document := map["model" := Other("m"),
                              "permission" := Nested(map["bash" := Other("deny"), "edit" := Other("ask")])];
    var permissions: Document := map["bash" := Other("allow")];
    var written := read["permission" := Nested(map["bash" := Other("allow"), "edit" := Other("ask")])];
    var codec := Codec(text => if text == "in" then Fields(read)
                               else if text == "out" then Fields(written) else Unreadable,
                       d => if d == written then "out" else "in");
    var base := ["HOME=/", Entry(Config, "in")];
    EntryHasOneKey(Config, "in", Config);
    assert base[..1] == ["HOME=/"] && base[..1][..0] == [];
    assert ValuesOf(base[..1], Config) == [];
    assert ValuesOf(base, Config) == ["in"];
    assert ["in"][..0] == [] && ReadAll(codec, []) == Success(Some(map[]));
    assert map[] + read == read;
    assert ReadAll(codec, ["in"]) == Success(Some(read));
    assert read["permission"].fields + permissions == map["bash" := Other("allow"), "edit" := Other("ask")];
  }

  // ---------------------------------------------------------------- spelled out

  /** The variables the stages set. */
  lemma EntriesLookLikeThis(value: string)
    ensures Entry(Config, value) == "OPENCODE_CONFIG_CONTENT=" + value
              && Entry(DatabaseKey, value) == "OPENCODE_DB=" + value
    ensures Entry(TmpDir, value) == "TMPDIR=" + value && Entry(Tmp, value) == "TMP=" + value
              && Entry(TempKey, value) == "TEMP=" + value
  {
  }

  /** Fields of a later document win over those of earlier ones; a null document forgets them all. */
  lemma LaterDocumentsWin(codec: Codec, contents: seq<string>, last: string, field: string)
    requires ReadAll(codec, contents).Success?
    ensures var earlier, read := ReadAll(codec, contents).value, ReadAll(codec, contents + [last]);
            match codec.parse(last)
            case Unreadable => read == Failure(InvalidConfig)
            case NullDocument => read == Success(None)
            case Fields(fields) =>
              && read.Success? && read.value.Some?
              && FieldOf(read.value.value, field) ==
                   if field in fields then Some(fields[field])
                   else if earlier.Some? then FieldOf(earlier.value, field) else None
  {
    assert (contents + [last])[..|contents|] == contents;
  }

  /** A config stage rejects exactly an unreadable document, and a permission entry that is no object. */
  lemma RejectsIff(codec: Codec, base: seq<string>, permissions: Document, snapshots: Option<bool>)
    ensures ExpectedDocument(codec, base, permissions, snapshots) == Failure(InvalidConfig) <==>
              var values, read := ValuesOf(base, Config), ReadAll(codec, ValuesOf(base, Config));
              || (exists i :: 0 <= i < |values| && codec.parse(values[i]) == Unreadable)
              || (|permissions| > 0 && read.Success? && read.value.Some? &&
                  "permission" in read.value.value && !read.value.value["permission"].Nested?)
  {
    ReadsIffReadable(codec, ValuesOf(base, Config));
  }
}
