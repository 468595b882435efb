/** The config store (crates/nkdhrd/src/backends/config_store.rs): one cached
    tree and one file a namespace, addressed by dotted keys. */
module ConfigStore {
  import opened Wrappers
  import opened DottedKeys
  import opened ConfigTree

  datatype ConfigError =
    | UnknownNamespace(namespace: string)
    | UnknownKey(key: string)
    | NotALeaf(key: string)
    | Invalid(reason: string)
    | Io

  /** A registered namespace; `parse` materializes a tree or rejects it. */
  datatype Schema = Schema(name: string, parse: Json -> Result<Json, string>)

  /** What a namespace's file holds: nothing, no TOML, or a tree. */
  datatype File = Missing | Unparsable | Tree(root: Json)

  /** What a schema owes the store: its trees are tables whose every value a
      dotted key can name, and materializing one again changes nothing. */
  ghost predicate GoodSchema(schema: Schema) {
    && IsSegment(schema.name)
    && forall value ::
         schema.parse(value).Ok? ==> IsMaterialized(schema, schema.parse(value).value)
  }

  ghost predicate IsMaterialized(schema: Schema, value: Json) {
    value.Object? && Addressable(value) && schema.parse(value) == Ok(value)
  }

  ghost predicate GoodSchemas(schemas: seq<Schema>) {
    && (forall i :: 0 <= i < |schemas| ==> GoodSchema(schemas[i]) && schemas[i].parse(Object(map[])).Ok?)
    && forall i, j :: 0 <= i < j < |schemas| ==> schemas[i].name != schemas[j].name
  }

  function FindSchema(schemas: seq<Schema>, name: string): (r: Option<Schema>)
    ensures r.Some? ==> r.value in schemas && r.value.name == name
    ensures r.None? ==> forall schema <- schemas :: schema.name != name
  {
    if schemas == [] then None
    else if schemas[0].name == name then Some(schemas[0])
    else FindSchema(schemas[1..], name)
  }

  // ---- Keys and values -------------------------------------------------------------

  /** `split_key`: the namespace and the path within it. */
  function SplitKey(key: string): Result<(string, seq<string>), ConfigError> {
    var segments := Split(key);
    if segments[0] == "" || "" in segments[1..] then Err(UnknownKey(key)) else Ok((segments[0], segments[1..]))
  }

  /** `navigate_leaf`. */
  function NavigateLeaf(root: Json, path: seq<string>, key: string): Result<Json, ConfigError> {
    match Navigate(root, path)
    case None => Err(UnknownKey(key))
    case Some(value) => if path == [] || value.Object? then Err(NotALeaf(key)) else Ok(value)
  }

  /** `ConfigStore::get`. */
  function Get(cache: map<string, Json>, key: string): Result<Json, ConfigError> {
    var split :- SplitKey(key);
    if split.0 !in cache then Err(UnknownNamespace(split.0)) else NavigateLeaf(cache[split.0], split.1, key)
  }

  /** The directory and the cache. */
  datatype Store = Store(cache: map<string, Json>, files: map<string, File>)

  /** `ConfigStore::set`; `writes` says whether the file could be written. */
  function SetValue(schemas: seq<Schema>, s: Store, key: string, value: Json, writes: bool): (Store, Result<Json, ConfigError>) {
    match SplitKey(key)
    case Err(error) => (s, Err(error))
    case Ok((namespace, path)) =>
      var schema := FindSchema(schemas, namespace);
      if schema.None? || namespace !in s.cache then (s, Err(UnknownNamespace(namespace)))
      else if path == [] then (s, Err(NotALeaf(key)))
      else match SetLeaf(s.cache[namespace], path, value)
        case None => (s, Err(UnknownKey(key)))
        case Some(candidate) =>
          match schema.value.parse(candidate)
          case Err(reason) => (s, Err(Invalid(reason)))
          case Ok(materialized) =>
            match NavigateLeaf(materialized, path, key)
            case Err(error) => (s, Err(error))
            case Ok(stored) =>
              if !writes then (s, Err(Io))
              else (Store(s.cache[namespace := materialized], s.files[namespace := Tree(materialized)]), Ok(stored))
  }

  /** What `reload` makes of a file it has read. */
  function Materialized(schema: Schema, file: File): Result<Json, ConfigError> {
    match file
    case Missing => Err(Io)
    case Unparsable => Err(Invalid("TOML"))
    case Tree(root) =>
      match schema.parse(root)
      case Err(reason) => Err(Invalid(reason))
      case Ok(materialized) => Ok(materialized)
  }

  // ---- The flattened view --------------------------------------------------------------

  /** The key is that of a single value of the tree. */
  ghost predicate NamesLeaf(prefix: string, value: Json, key: string) {
    exists path :: LeafAt(value, path).Some? && Extend(prefix, path) == key
  }

  /** `r` is `out` with every single value of the tree under its dotted key. */
  ghost predicate Collects(r: map<string, Json>, out: map<string, Json>, prefix: string, value: Json) {
    && (forall path :: LeafAt(value, path).Some? ==> Holds(r, Extend(prefix, path), LeafAt(value, path).value))
    && (forall key <- r :: NamesLeaf(prefix, value, key) || Holds(out, key, r[key]))
    && (forall key <- out :: key in r)
  }

  predicate Holds(m: map<string, Json>, key: string, value: Json) {
    key in m && m[key] == value
  }

  /** As `Collects`, for the entries of a table named in `done`. */
  ghost predicate CollectsEntries(
    r: map<string, Json>, out: map<string, Json>, prefix: string, entries: map<string, Json>, done: set<string>)
    requires done <= entries.Keys
  {
    && (forall name, path :: name in done && LeafAt(entries[name], path).Some? ==>
          Holds(r, Extend(prefix + "." + name, path), LeafAt(entries[name], path).value))
    && (forall key <- r :: (exists name <- done :: NamesLeaf(prefix + "." + name, entries[name], key)) || Holds(out, key, r[key]))
    && (forall key <- out :: key in r)
  }

  /** `flatten`. */
  method Flatten(prefix: string, value: Json, out: map<string, Json>) returns (r: map<string, Json>)
    requires Addressable(value)
    ensures Collects(r, out, prefix, value)
    decreases value
  {
    if !value.Object? {
      r := out[prefix := value];
      assert LeafAt(value, []) == Some(value) && Extend(prefix, []) == prefix;
      return;
    }
    r := out;
    var todo := value.entries.Keys;
    while todo != {}
      invariant todo <= value.entries.Keys
      invariant CollectsEntries(r, out, prefix, value.entries, value.entries.Keys - todo)
    {
      var name :| name in todo;
      ghost var before := r;
      r := Flatten(prefix + "." + name, value.entries[name], r);
      OneMoreEntry(r, before, out, prefix, value.entries, value.entries.Keys - todo, name);
      todo := todo - {name};
      assert value.entries.Keys - todo == value.entries.Keys - (todo + {name}) + {name};
    }
    EntriesMakeTheTree(r, out, prefix, value);
  }

  lemma OneMoreEntry(
    r: map<string, Json>, before: map<string, Json>, out: map<string, Json>,
    prefix: string, entries: map<string, Json>, done: set<string>, name: string)
    requires Addressable(Object(entries)) && done <= entries.Keys && name in entries && name !in done
    requires CollectsEntries(before, out, prefix, entries, done)
    requires Collects(r, before, prefix + "." + name, entries[name])
    ensures CollectsEntries(r, out, prefix, entries, done + {name})
  {
    forall other, path | other in done + {name} && LeafAt(entries[other], path).Some?
      ensures Holds(r, Extend(prefix + "." + other, path), LeafAt(entries[other], path).value)
    {
      if other != name { EntriesDoNotClash(r, before, prefix, entries, name, other, path); }
    }
    forall key <- r ensures (exists other <- done + {name} :: NamesLeaf(prefix + "." + other, entries[other], key)) || Holds(out, key, r[key]) {
      if !NamesLeaf(prefix + "." + name, entries[name], key) {
        assert Holds(before, key, r[key]);
        if other :| other in done && NamesLeaf(prefix + "." + other, entries[other], key) {
          assert other in done + {name};
        }
      }
    }
  }

  /** Collecting one entry leaves what another one collected. */
  lemma EntriesDoNotClash(
    r: map<string, Json>, before: map<string, Json>,
    prefix: string, entries: map<string, Json>, name: string, other: string, path: seq<string>)
    requires Addressable(Object(entries)) && name in entries && other in entries && name != other
    requires LeafAt(entries[other], path).Some?
    requires Holds(before, Extend(prefix + "." + other, path), LeafAt(entries[other], path).value)
    requires Collects(r, before, prefix + "." + name, entries[name])
    ensures Holds(r, Extend(prefix + "." + other, path), LeafAt(entries[other], path).value)
  {
    var key := Extend(prefix + "." + other, path);
    if NamesLeaf(prefix + "." + name, entries[name], key) {
      var clash :| LeafAt(entries[name], clash).Some? && Extend(prefix + "." + name, clash) == key;
      PathsAreSegments(entries[name], clash);
      PathsAreSegments(entries[other], path);
      assert key == Extend(prefix, [name] + clash) && key == Extend(prefix, [other] + path);
      assert ([name] + clash)[0] == name && ([other] + path)[0] == other;
      ExtensionIsInjective(prefix, [name] + clash, [other] + path);
    }
  }

  lemma EntriesMakeTheTree(r: map<string, Json>, out: map<string, Json>, prefix: string, value: Json)
    requires value.Object? && CollectsEntries(r, out, prefix, value.entries, value.entries.Keys)
    ensures Collects(r, out, prefix, value)
  {
    forall path | LeafAt(value, path).Some? ensures Holds(r, Extend(prefix, path), LeafAt(value, path).value) {
      assert path != [] && LeafAt(value, path) == LeafAt(value.entries[path[0]], path[1..]);
    }
    forall key <- r ensures NamesLeaf(prefix, value, key) || Holds(out, key, r[key]) {
      if name :| name in value.entries && NamesLeaf(prefix + "." + name, value.entries[name], key) {
        var path :| LeafAt(value.entries[name], path).Some? && Extend(prefix + "." + name, path) == key;
        assert ([name] + path)[1..] == path;
        assert LeafAt(value, [name] + path) == LeafAt(value.entries[name], path);
      }
    }
  }

  // ---- The view agrees with the values --------------------------------------------------

  /** Each registered namespace has its materialized tree. */
  ghost predicate GoodCache(schemas: seq<Schema>, cache: map<string, Json>) {
    && (forall schema <- schemas :: schema.name in cache && IsMaterialized(schema, cache[schema.name]))
    && (forall name <- cache :: exists schema <- schemas :: schema.name == name)
  }

  ghost predicate TablesByName(cache: map<string, Json>) {
    forall name <- cache :: IsSegment(name) && cache[name].Object? && Addressable(cache[name])
  }

  lemma GoodCachesAreTables(schemas: seq<Schema>, cache: map<string, Json>)
    requires GoodSchemas(schemas) && GoodCache(schemas, cache)
    ensures TablesByName(cache)
  {
    forall name <- cache ensures IsSegment(name) && cache[name].Object? && Addressable(cache[name]) {
      var schema :| schema in schemas && schema.name == name;
      var i :| 0 <= i < |schemas| && schemas[i] == schema;
      assert GoodSchema(schemas[i]);
    }
  }

  /** `get` succeeds exactly on the dotted key of a single value, with it. */
  lemma GetReadsLeaves(cache: map<string, Json>, key: string, value: Json)
    requires TablesByName(cache)
    ensures Get(cache, key) == Ok(value) <==>
              exists name, path :: name in cache && LeafAt(cache[name], path) == Some(value) && key == Extend(name, path)
  {
    ExtensionOfSplit(key);
    if Get(cache, key) == Ok(value) {
      assert LeafAt(cache[Split(key)[0]], Split(key)[1..]) == Some(value);
    }
    if name, path :| name in cache && LeafAt(cache[name], path) == Some(value) && key == Extend(name, path) {
      PathsAreSegments(cache[name], path);
      SplitOfSegment(name);
      SplitOfExtension(name, path);
      assert Split(key) == [name] + path;
      assert Split(key)[1..] == path;
    }
  }

  /** What `get_all` answers. */
  ghost predicate IsViewOf(r: map<string, Json>, cache: map<string, Json>, prefix: string) {
    forall key, value :: Holds(r, key, value) <==> Get(cache, key) == Ok(value) && (prefix == "" || AtOrUnder(prefix, key))
  }

  /** The subtree a nonempty prefix names, if any. */
  function Subtree(cache: map<string, Json>, prefix: string): Result<Json, ConfigError> {
    var split :- SplitKey(prefix);
    if split.0 !in cache then Err(UnknownNamespace(split.0))
    else match Navigate(cache[split.0], split.1)
      case None => Err(UnknownKey(prefix))
      case Some(value) => Ok(value)
  }

  lemma SubtreeIsTheView(cache: map<string, Json>, prefix: string, r: map<string, Json>)
    requires TablesByName(cache) && Subtree(cache, prefix).Ok?
    requires Collects(r, map[], prefix, Subtree(cache, prefix).value)
    ensures IsViewOf(r, cache, prefix)
  {
    var subtree := Subtree(cache, prefix).value;
    var name, path := Split(prefix)[0], Split(prefix)[1..];
    ExtensionOfSplit(prefix);
    PathsAreSegments(cache[name], path);
    forall key, value ensures Holds(r, key, value) <==> Get(cache, key) == Ok(value) && AtOrUnder(prefix, key) {
      if Holds(r, key, value) {
        var below :| LeafAt(subtree, below).Some? && Extend(prefix, below) == key;
        assert Holds(r, Extend(prefix, below), LeafAt(subtree, below).value);
        NavigateTwice(cache[name], path, below);
        ExtendTwice(name, path, below);
        GetReadsLeaves(cache, key, value);
        ExtendBegins(prefix, below);
      }
      if Get(cache, key) == Ok(value) && AtOrUnder(prefix, key) {
        AtOrUnderIsAPrefix(prefix, key);
        ExtensionOfSplit(key);
        var below := Split(key)[|Split(prefix)|..];
        assert Split(key)[1..] == path + below;
        NavigateTwice(cache[name], path, below);
        ExtendTwice(name, path, below);
        assert LeafAt(subtree, below) == Some(value);
      }
    }
  }

  /** The view of the first namespaces of the registry. */
  ghost predicate IsViewOfFirst(r: map<string, Json>, cache: map<string, Json>, schemas: seq<Schema>) {
    && (forall schema, path :: schema in schemas && schema.name in cache && LeafAt(cache[schema.name], path).Some? ==>
          Holds(r, Extend(schema.name, path), LeafAt(cache[schema.name], path).value))
    && (forall key <- r :: Get(cache, key) == Ok(r[key]))
  }

  lemma OneMoreNamespace(
    r: map<string, Json>, before: map<string, Json>, cache: map<string, Json>, schemas: seq<Schema>, next: Schema)
    requires TablesByName(cache) && IsViewOfFirst(before, cache, schemas) && next.name in cache
    requires Collects(r, before, next.name, cache[next.name])
    ensures IsViewOfFirst(r, cache, schemas + [next])
  {
    forall key <- r ensures Get(cache, key) == Ok(r[key]) {
      if NamesLeaf(next.name, cache[next.name], key) {
        var path :| LeafAt(cache[next.name], path).Some? && Extend(next.name, path) == key;
        assert Holds(r, Extend(next.name, path), LeafAt(cache[next.name], path).value);
        GetReadsLeaves(cache, key, r[key]);
      } else {
        assert Holds(before, key, r[key]);
      }
    }
    forall schema, path | schema in schemas && schema.name in cache && LeafAt(cache[schema.name], path).Some?
      ensures Holds(r, Extend(schema.name, path), LeafAt(cache[schema.name], path).value)
    {
      var key := Extend(schema.name, path);
      assert Holds(before, key, LeafAt(cache[schema.name], path).value);
      assert key in r && Get(cache, key) == Ok(r[key]) && Get(cache, key) == Ok(before[key]);
    }
  }

  lemma AllNamespacesAreTheView(r: map<string, Json>, cache: map<string, Json>, schemas: seq<Schema>)
    requires GoodSchemas(schemas) && GoodCache(schemas, cache) && IsViewOfFirst(r, cache, schemas)
    ensures IsViewOf(r, cache, "")
  {
    GoodCachesAreTables(schemas, cache);
    forall key, value ensures Holds(r, key, value) <==> Get(cache, key) == Ok(value) {
      if Get(cache, key) == Ok(value) {
        GetReadsLeaves(cache, key, value);
        var name, path :| name in cache && LeafAt(cache[name], path) == Some(value) && key == Extend(name, path);
        var schema :| schema in schemas && schema.name == name;
        assert Holds(r, Extend(schema.name, path), LeafAt(cache[schema.name], path).value);
      }
    }
  }

  /** The values of a namespace that `reload` reports: new, or not as before. */
  ghost predicate IsDifference(changed: map<string, Json>, before: map<string, Json>, after: map<string, Json>) {
    forall key, value :: Holds(changed, key, value) <==> Get(after, key) == Ok(value) && Get(before, key) != Ok(value)
  }

  /** Replaying what `reload` reports on the view before it gives every value
      that survives, and invents none. */
  lemma ReplayedChangesAgree(
    view: map<string, Json>, changed: map<string, Json>, before: map<string, Json>, after: map<string, Json>)
    requires IsViewOf(view, before, "") && IsDifference(changed, before, after)
    ensures forall key, value :: Get(after, key) == Ok(value) ==> Holds(view + changed, key, value)
    ensures forall key <- (view + changed) :: Get(after, key).Ok? ==> Get(after, key) == Ok((view + changed)[key])
  {
    forall key, value | Get(after, key) == Ok(value) ensures Holds(view + changed, key, value) {
      if Get(before, key) == Ok(value) {
        assert Holds(view, key, value);
        if key in changed { assert Holds(changed, key, changed[key]); }
      } else {
        assert Holds(changed, key, value);
      }
    }
  }

  /** The namespace's tree as the store opens it. */
  function OpenedAs(schema: Schema, file: File): (r: Json)
    requires schema.parse(Object(map[])).Ok?
  {
    var read := Materialized(schema, file);
    if read.Ok? then read.value else schema.parse(Object(map[])).value
  }

  function FileOf(files: map<string, File>, name: string): File {
    if name in files then files[name] else Missing
  }

  lemma OnlyItsNamespaceReads(cache: map<string, Json>, name: string, tree: Json, key: string)
    ensures SplitKey(key).Ok? && SplitKey(key).value.0 != name ==> Get(cache[name := tree], key) == Get(cache, key)
  {
  }

  ghost predicate IsLoaded(schema: Schema, files: map<string, File>, cache: map<string, Json>, written: map<string, File>) {
    && schema.parse(Object(map[])).Ok?
    && schema.name in cache && cache[schema.name] == OpenedAs(schema, FileOf(files, schema.name))
    && FileOf(written, schema.name) == Tree(cache[schema.name])
  }

  ghost function Names(schemas: seq<Schema>): set<string> {
    set i | 0 <= i < |schemas| :: schemas[i].name
  }

  /** The first `i` namespaces have been loaded, and only their files written. */
  ghost predicate LoadedFirst(
    schemas: seq<Schema>, i: int, files: map<string, File>, cache: map<string, Json>, written: map<string, File>)
  {
    && 0 <= i <= |schemas|
    && (forall j :: 0 <= j < i ==> IsLoaded(schemas[j], files, cache, written))
    && cache.Keys == Names(schemas[..i])
    && (forall name :: name !in Names(schemas[..i]) ==> FileOf(written, name) == FileOf(files, name))
    && (forall name <- files :: name in Names(schemas[..i]) || Keeps(written, files, name))
  }

  lemma LoadOneMore(
    schemas: seq<Schema>, i: nat, files: map<string, File>, cache: map<string, Json>, written: map<string, File>)
    requires i < |schemas| && schemas[i].parse(Object(map[])).Ok?
    requires forall j :: 0 <= j < i ==> schemas[j].name != schemas[i].name
    requires LoadedFirst(schemas, i, files, cache, written)
    ensures var tree := OpenedAs(schemas[i], FileOf(written, schemas[i].name));
      LoadedFirst(schemas, i + 1, files, cache[schemas[i].name := tree], written[schemas[i].name := Tree(tree)])
  {
    NamesGrow(schemas, i);
    var name := schemas[i].name;
    assert name !in Names(schemas[..i]);
    var tree := OpenedAs(schemas[i], FileOf(written, name));
    var cache', written' := cache[name := tree], written[name := Tree(tree)];
    forall j | 0 <= j < i + 1 ensures IsLoaded(schemas[j], files, cache', written') {
      if j < i { assert IsLoaded(schemas[j], files, cache, written); }
    }
  }

  lemma NamesGrow(schemas: seq<Schema>, i: nat)
    requires i < |schemas|
    ensures Names(schemas[..i + 1]) == Names(schemas[..i]) + {schemas[i].name}
  {
    forall name ensures name in Names(schemas[..i + 1]) <==> name in Names(schemas[..i]) || name == schemas[i].name {
      if name == schemas[i].name { assert schemas[..i + 1][i].name == name; }
      if name in Names(schemas[..i]) {
        var j :| 0 <= j < i && schemas[..i][j].name == name;
        assert schemas[..i + 1][j].name == name;
      }
      if name in Names(schemas[..i + 1]) && name != schemas[i].name {
        var j :| 0 <= j < i + 1 && schemas[..i + 1][j].name == name;
        assert schemas[..i][j].name == name;
      }
    }
  }

  lemma LoadedCacheIsGood(
    schemas: seq<Schema>, files: map<string, File>, cache: map<string, Json>, written: map<string, File>)
    requires GoodSchemas(schemas) && LoadedFirst(schemas, |schemas|, files, cache, written)
    ensures GoodCache(schemas, cache) && forall schema <- schemas :: IsLoaded(schema, files, cache, written)
    ensures forall name <- files :: name in Names(schemas) || Keeps(written, files, name)
  {
    assert schemas[..|schemas|] == schemas;
    forall schema <- schemas ensures IsLoaded(schema, files, cache, written) && IsMaterialized(schema, cache[schema.name]) {
      var i :| 0 <= i < |schemas| && schemas[i] == schema;
      assert GoodSchema(schemas[i]) && IsLoaded(schemas[i], files, cache, written);
      OpenedTreeIsMaterialized(schema, FileOf(files, schema.name));
    }
    forall name <- cache ensures exists schema <- schemas :: schema.name == name {
      var i :| 0 <= i < |schemas| && schemas[i].name == name;
      assert schemas[i] in schemas;
    }
  }

  lemma OpenedTreeIsMaterialized(schema: Schema, file: File)
    requires GoodSchema(schema) && schema.parse(Object(map[])).Ok?
    ensures IsMaterialized(schema, OpenedAs(schema, file))
  {
  }

  /** The store: the cache is updated in place, and so is the directory. */
  class ConfigStore {
    const schemas: seq<Schema>
    var cache: map<string, Json>
    var files: map<string, File>

    function State(): Store
      reads this
    {
      Store(cache, files)
    }

    ghost predicate Valid()
      reads this
    {
      GoodSchemas(schemas) && GoodCache(schemas, cache)
    }

    /** `open`: an absent or invalid file is replaced by the defaults. */
    constructor (schemas: seq<Schema>, files: map<string, File>)
      requires GoodSchemas(schemas)
      ensures Valid() && this.schemas == schemas
      ensures forall schema <- schemas :: IsLoaded(schema, files, cache, this.files)
      ensures forall name <- files :: name in Names(schemas) || Keeps(this.files, files, name)
    {
      this.schemas := schemas;
      var loaded: map<string, Json> := map[];
      var written := files;
      for i := 0 to |schemas|
        invariant LoadedFirst(schemas, i, files, loaded, written)
      {
        assert GoodSchema(schemas[i]);
        var tree := OpenedAs(schemas[i], FileOf(written, schemas[i].name));
        LoadOneMore(schemas, i, files, loaded, written);
        loaded := loaded[schemas[i].name := tree];
        written := written[schemas[i].name := Tree(tree)];
      }
      LoadedCacheIsGood(schemas, files, loaded, written);
      cache := loaded;
      this.files := written;
    }

    /** `navigate`. */
    method NavigateTo(root: Json, path: seq<string>) returns (r: Option<Json>)
      ensures r == Navigate(root, path)
    {
      var current := root;
      for i := 0 to |path|
        invariant Navigate(root, path) == Navigate(current, path[i..])
      {
        assert path[i..][1..] == path[i + 1..];
        if !current.Object? || path[i] !in current.entries { return None; }
        current := current.entries[path[i]];
      }
      r := Some(current);
    }

    method GetLeaf(key: string) returns (r: Result<Json, ConfigError>)
      ensures r == Get(cache, key)
    {
      var split :- SplitKey(key);
      if split.0 !in cache { return Err(UnknownNamespace(split.0)); }
      var value := NavigateTo(cache[split.0], split.1);
      match value
      case None => r := Err(UnknownKey(key));
      case Some(found) => r := if split.1 == [] || found.Object? then Err(NotALeaf(key)) else Ok(found);
    }

    /** `get_all`: exactly the values at or under the prefix, or an error when
        a nonempty prefix leads nowhere. */
    method GetAll(prefix: string) returns (r: Result<map<string, Json>, ConfigError>)
      requires Valid()
      ensures r.Ok? ==> IsViewOf(r.value, cache, prefix)
      ensures r.Ok? <==> prefix == "" || Subtree(cache, prefix).Ok?
      ensures r.Err? ==> r.error == Subtree(cache, prefix).error
    {
      GoodCachesAreTables(schemas, cache);
      var out: map<string, Json> := map[];
      if prefix == "" {
        for i := 0 to |schemas|
          invariant IsViewOfFirst(out, cache, schemas[..i])
        {
          ghost var before := out;
          assert schemas[i] in schemas;
          if schemas[i].name in cache { out := Flatten(schemas[i].name, cache[schemas[i].name], out); }
          OneMoreNamespace(out, before, cache, schemas[..i], schemas[i]);
          assert schemas[..i + 1] == schemas[..i] + [schemas[i]];
        }
        assert schemas[..|schemas|] == schemas;
        AllNamespacesAreTheView(out, cache, schemas);
        return Ok(out);
      }
      var split :- SplitKey(prefix);
      if split.0 !in cache { return Err(UnknownNamespace(split.0)); }
      var subtree := NavigateTo(cache[split.0], split.1);
      if subtree.None? { return Err(UnknownKey(prefix)); }
      PathsAreSegments(cache[split.0], split.1);
      out := Flatten(prefix, subtree.value, out);
      SubtreeIsTheView(cache, prefix, out);
      r := Ok(out);
    }

    method Set(key: string, value: Json, writes: bool) returns (r: Result<Json, ConfigError>)
      requires Valid()
      modifies this
      ensures Valid()
      ensures (State(), r) == SetValue(schemas, old(State()), key, value, writes)
    {
      var split :- SplitKey(key);
      var (namespace, path) := split;
      var schema := FindSchema(schemas, namespace);
      if schema.None? || namespace !in cache { return Err(UnknownNamespace(namespace)); }
      if path == [] { return Err(NotALeaf(key)); }
      var candidate := SetLeaf(cache[namespace], path, value);
      if candidate.None? { return Err(UnknownKey(key)); }
      var parsed := schema.value.parse(candidate.value);
      if parsed.Err? { return Err(Invalid(parsed.error)); }
      var stored :- NavigateLeaf(parsed.value, path, key);
      if !writes { return Err(Io); }
      ReplacedCacheIsGood(schemas, cache, schema.value, parsed.value);
      files := files[namespace := Tree(parsed.value)];
      cache := cache[namespace := parsed.value];
      r := Ok(stored);
    }

    /** `reload`: a valid file replaces the cached tree, and the answer is what
        differs from before; any other file changes nothing. */
    method Reload(namespace: string) returns (r: Result<map<string, Json>, ConfigError>)
      requires Valid()
      modifies this`cache
      ensures Valid()
      ensures r.Ok? <==> FindSchema(schemas, namespace).Some?
                         && Materialized(FindSchema(schemas, namespace).value, FileOf(files, namespace)).Ok?
      ensures r.Err? ==> cache == old(cache)
      ensures r.Ok? ==> Materialized(FindSchema(schemas, namespace).value, FileOf(files, namespace)) == Ok(cache[namespace])
      ensures r.Ok? ==> cache == old(cache)[namespace := cache[namespace]] && IsDifference(r.value, old(cache), cache)
    {
      var schema := FindSchema(schemas, namespace);
      if schema.None? { return Err(UnknownNamespace(namespace)); }
      var materialized :- Materialized(schema.value, FileOf(files, namespace));
      ReplacedCacheIsGood(schemas, cache, schema.value, materialized);
      var changed := Changes(namespace, materialized);
      cache := cache[namespace := materialized];
      r := Ok(changed);
    }

    /** The values of a new tree that differ from the cached one's. */
    method Changes(namespace: string, tree: Json) returns (changed: map<string, Json>)
      requires Valid() && namespace in cache && GoodCache(schemas, cache[namespace := tree])
      ensures IsDifference(changed, cache, cache[namespace := tree])
    {
      GoodCachesAreTables(schemas, cache);
      GoodCachesAreTables(schemas, cache[namespace := tree]);
      var before := Flatten(namespace, cache[namespace], map[]);
      var now := Flatten(namespace, tree, map[]);
      changed := map key | key in now && !Holds(before, key, now[key]) :: now[key];
      NamespaceIsItsSubtree(cache, namespace, before);
      NamespaceIsItsSubtree(cache[namespace := tree], namespace, now);
      FilteredChangesAreTheDifference(cache, namespace, tree, before, now, changed);
    }
  }

  predicate Keeps(written: map<string, File>, files: map<string, File>, name: string) {
    name in files && name in written && written[name] == files[name]
  }

  lemma ReplacedCacheIsGood(schemas: seq<Schema>, cache: map<string, Json>, schema: Schema, tree: Json)
    requires GoodSchemas(schemas) && GoodCache(schemas, cache) && schema in schemas
    requires exists value :: schema.parse(value) == Ok(tree)
    ensures GoodCache(schemas, cache[schema.name := tree])
  {
    var i :| 0 <= i < |schemas| && schemas[i] == schema;
    var value :| schema.parse(value) == Ok(tree);
    assert GoodSchema(schemas[i]);
    forall other <- schemas ensures other.name == schema.name ==> IsMaterialized(other, tree) {
      var j :| 0 <= j < |schemas| && schemas[j] == other;
    }
  }

  lemma NamespaceIsItsSubtree(cache: map<string, Json>, name: string, r: map<string, Json>)
    requires TablesByName(cache) && name in cache && Collects(r, map[], name, cache[name])
    ensures IsViewOf(r, cache, name)
  {
    SplitOfSegment(name);
    SubtreeIsTheView(cache, name, r);
  }

  lemma FilteredChangesAreTheDifference(
    cache: map<string, Json>, name: string, tree: Json,
    before: map<string, Json>, now: map<string, Json>, changed: map<string, Json>)
    requires IsSegment(name) && IsViewOf(before, cache, name) && IsViewOf(now, cache[name := tree], name)
    requires changed == map key | key in now && !Holds(before, key, now[key]) :: now[key]
    ensures IsDifference(changed, cache, cache[name := tree])
  {
    var after := cache[name := tree];
    forall key, value ensures Holds(changed, key, value) <==> Get(after, key) == Ok(value) && Get(cache, key) != Ok(value) {
      SplitOfSegment(name);
      AtOrUnderIsAPrefix(name, key);
      OnlyItsNamespaceReads(cache, name, tree, key);
      assert Holds(now, key, value) <==> Get(after, key) == Ok(value) && AtOrUnder(name, key);
      assert Holds(before, key, value) <==> Get(cache, key) == Ok(value) && AtOrUnder(name, key);
    }
  }
}
