/** The store under concurrency (crates/nkdhrd/src/modules/config.rs with
    backends/config_store.rs): `set` runs under the mutex, the watcher's
    `reload` reads the file outside it, and others edit the file at any time.

    Of the file system and inotify only this is assumed: a rename into place is
    reported when it happens, a write when its writer closes the file, and equal
    reports in a row may be merged, but none is lost. A deletion is not
    reported. */
module ConfigSync {
  import opened Wrappers
  import opened DottedKeys
  import opened ConfigTree
  import opened ConfigStore

  /** Where the watcher's thread is: between events, in a `reload` that has yet
      to read the file, or in one that has read it. */
  datatype Watcher = Idle | Reloading | HasRead(content: File)

  /** One namespace's part of the system. */
  datatype System = System(store: Store, events: nat, writers: nat, watcher: Watcher)

  datatype Step =
    | SetRequest(key: string, value: Json, writes: bool)
    | OpenForWriting
    | Write(content: File)
    | Close
    | RenameInto(content: File)
    | Delete
    | MergeEvents
    | TakeEvent
    | ReadFile
    | Commit

  datatype Registry = Registry(schemas: seq<Schema>, schema: Schema) {
    ghost predicate Valid() {
      GoodSchemas(schemas) && FindSchema(schemas, schema.name) == Some(schema)
    }
  }

  function ContentOf(s: System, name: string): File {
    FileOf(s.store.files, name)
  }

  function Committed(registry: Registry, store: Store, content: File): Store {
    match Materialized(registry.schema, content)
    case Ok(tree) => store.(cache := store.cache[registry.schema.name := tree])
    case Err(_) => store
  }

  predicate Enabled(s: System, step: Step) {
    match step
    case Write(_) => s.writers > 0
    case Close => s.writers > 0
    case MergeEvents => s.events > 1
    case TakeEvent => s.watcher.Idle? && s.events > 0
    case ReadFile => s.watcher.Reloading?
    case Commit => s.watcher.HasRead?
    case _ => true
  }

  function Next(registry: Registry, s: System, step: Step): System
    requires Enabled(s, step)
  {
    var name := registry.schema.name;
    match step
    case SetRequest(key, value, writes) =>
      var (store, answer) := SetValue(registry.schemas, s.store, key, value, writes);
      var reported := answer.Ok? && SplitKey(key).Ok? && SplitKey(key).value.0 == name;
      s.(store := store, events := if reported then s.events + 1 else s.events)
    case OpenForWriting => s.(writers := s.writers + 1)
    case Write(content) => s.(store := s.store.(files := s.store.files[name := content]))
    case Close => s.(writers := s.writers - 1, events := s.events + 1)
    case RenameInto(content) => s.(store := s.store.(files := s.store.files[name := content]), events := s.events + 1)
    case Delete => s.(store := s.store.(files := s.store.files[name := Missing]))
    case MergeEvents => s.(events := s.events - 1)
    case TakeEvent => s.(events := s.events - 1, watcher := Reloading)
    case ReadFile => s.(watcher := HasRead(ContentOf(s, name)))
    case Commit => s.(store := Committed(registry, s.store, s.watcher.content), watcher := Idle)
  }

  /** No writer has the file open, no event is unread and no reload under way. */
  predicate IsQuiescent(s: System) {
    s.writers == 0 && s.events == 0 && s.watcher.Idle?
  }

  /** The cached tree is what the file, if it is valid, materializes to. */
  predicate Agrees(registry: Registry, s: System) {
    var read := Materialized(registry.schema, ContentOf(s, registry.schema.name));
    read.Ok? ==> registry.schema.name in s.store.cache && s.store.cache[registry.schema.name] == read.value
  }

  /** Unless something is still to be reported or read, the cache agrees with
      the file, or is about to. */
  ghost predicate Invariant(registry: Registry, s: System) {
    && registry.Valid() && GoodCache(registry.schemas, s.store.cache)
    && (s.writers > 0 || s.events > 0
        || match s.watcher
           case Idle => Agrees(registry, s)
           case Reloading => true
           case HasRead(content) =>
             var now := Materialized(registry.schema, ContentOf(s, registry.schema.name));
             now.Ok? ==> Materialized(registry.schema, content) == now)
  }

  /** A successful `set` replaces one namespace's tree, in the cache and in the
      file alike, by one its schema has materialized. */
  ghost predicate ReplacesOneTree(schemas: seq<Schema>, before: Store, after: Store, namespace: string) {
    && FindSchema(schemas, namespace).Some? && namespace in after.cache
    && after.cache == before.cache[namespace := after.cache[namespace]]
    && after.files == before.files[namespace := Tree(after.cache[namespace])]
    && exists value :: FindSchema(schemas, namespace).value.parse(value) == Ok(after.cache[namespace])
  }

  lemma SetReplacesOneTree(schemas: seq<Schema>, store: Store, key: string, value: Json, writes: bool)
    ensures var (after, answer) := SetValue(schemas, store, key, value, writes);
      && (answer.Err? ==> after == store)
      && (answer.Ok? ==> SplitKey(key).Ok? && ReplacesOneTree(schemas, store, after, SplitKey(key).value.0))
  {
  }

  lemma SetKeepsTheCacheGood(registry: Registry, store: Store, key: string, value: Json, writes: bool)
    requires registry.Valid() && GoodCache(registry.schemas, store.cache)
    ensures var (after, answer) := SetValue(registry.schemas, store, key, value, writes);
      GoodCache(registry.schemas, after.cache)
  {
    SetReplacesOneTree(registry.schemas, store, key, value, writes);
    var (after, answer) := SetValue(registry.schemas, store, key, value, writes);
    if answer.Ok? {
      var namespace := SplitKey(key).value.0;
      ReplacedCacheIsGood(registry.schemas, store.cache, FindSchema(registry.schemas, namespace).value, after.cache[namespace]);
    }
  }

  lemma ReplacementKeepsInvariant(registry: Registry, s: System, after: Store, namespace: string)
    requires Invariant(registry, s) && ReplacesOneTree(registry.schemas, s.store, after, namespace)
    requires GoodCache(registry.schemas, after.cache)
    ensures Invariant(registry, s.(store := after, events := if namespace == registry.schema.name then s.events + 1 else s.events))
  {
    if namespace != registry.schema.name {
      assert FileOf(after.files, registry.schema.name) == FileOf(s.store.files, registry.schema.name);
    }
  }

  lemma SetKeepsInvariant(registry: Registry, s: System, key: string, value: Json, writes: bool)
    requires Invariant(registry, s)
    ensures Invariant(registry, Next(registry, s, SetRequest(key, value, writes)))
  {
    SetReplacesOneTree(registry.schemas, s.store, key, value, writes);
    SetKeepsTheCacheGood(registry, s.store, key, value, writes);
    var (after, answer) := SetValue(registry.schemas, s.store, key, value, writes);
    if answer.Ok? {
      ReplacementKeepsInvariant(registry, s, after, SplitKey(key).value.0);
    } else {
      assert Next(registry, s, SetRequest(key, value, writes)) == s;
    }
  }

  lemma StepKeepsInvariant(registry: Registry, s: System, step: Step)
    requires Invariant(registry, s) && Enabled(s, step)
    ensures Invariant(registry, Next(registry, s, step))
  {
    if step.SetRequest? { SetKeepsInvariant(registry, s, step.key, step.value, step.writes); }
    if step.Commit? && Materialized(registry.schema, s.watcher.content).Ok? {
      CommittedTreeIsParsed(registry.schema, s.watcher.content);
      ReplacedCacheIsGood(registry.schemas, s.store.cache, registry.schema, Materialized(registry.schema, s.watcher.content).value);
    }
  }

  lemma CommittedTreeIsParsed(schema: Schema, content: File)
    requires Materialized(schema, content).Ok?
    ensures exists value :: schema.parse(value) == Ok(Materialized(schema, content).value)
  {
    assert schema.parse(content.root) == Ok(Materialized(schema, content).value);
  }

  function Run(registry: Registry, s: System, steps: seq<Step>): System
    requires Legal(registry, s, steps)
    decreases steps
  {
    if steps == [] then s else Run(registry, Next(registry, s, steps[0]), steps[1..])
  }

  predicate Legal(registry: Registry, s: System, steps: seq<Step>)
    decreases steps
  {
    steps == [] || (Enabled(s, steps[0]) && Legal(registry, Next(registry, s, steps[0]), steps[1..]))
  }

  /** The store as `open` leaves it, watched. */
  ghost predicate IsInitial(registry: Registry, s: System) {
    && registry.Valid() && GoodCache(registry.schemas, s.store.cache)
    && IsQuiescent(s) && Agrees(registry, s)
  }

  /** The store as its constructor leaves it is such a start. */
  lemma OpenedStoresAreInitial(registry: Registry, files: map<string, File>, store: ConfigStore)
    requires store.Valid() && store.schemas == registry.schemas && registry.Valid()
    requires forall schema <- store.schemas :: IsLoaded(schema, files, store.cache, store.files)
    ensures IsInitial(registry, System(store.State(), 0, 0, Idle))
  {
    var schema := registry.schema;
    assert schema in store.schemas;
    assert IsLoaded(schema, files, store.cache, store.files) && IsMaterialized(schema, store.cache[schema.name]);
  }

  lemma {:induction false} RunKeepsInvariant(registry: Registry, s: System, steps: seq<Step>)
    requires Invariant(registry, s) && Legal(registry, s, steps)
    ensures Invariant(registry, Run(registry, s, steps))
    decreases steps
  {
    if steps != [] {
      StepKeepsInvariant(registry, s, steps[0]);
      RunKeepsInvariant(registry, Next(registry, s, steps[0]), steps[1..]);
    }
  }

  /** However sets, reloads and external edits interleave, once nothing is
      outstanding and the file is valid, the cache is the materialized file. */
  lemma QuiescentCachesAgree(registry: Registry, s: System, steps: seq<Step>)
    requires IsInitial(registry, s) && Legal(registry, s, steps) && IsQuiescent(Run(registry, s, steps))
    ensures Agrees(registry, Run(registry, s, steps))
  {
    RunKeepsInvariant(registry, s, steps);
  }

  /** A cached tree is replaced only by an accepted `set` or by what a valid
      file materialized to, so an invalid file never changes it. */
  lemma InvalidFilesNeverChangeTheCache(registry: Registry, s: System, step: Step)
    requires Enabled(s, step) && Next(registry, s, step).store.cache != s.store.cache
    ensures || (step.SetRequest? && SetValue(registry.schemas, s.store, step.key, step.value, step.writes).1.Ok?)
            || (step.Commit? && Materialized(registry.schema, s.watcher.content).Ok?)
  {
  }

  // ---- The watcher catches up --------------------------------------------------------------

  /** The watcher's own next step, while it has one. */
  function WatcherStep(s: System): Step
    requires s.events > 0 || !s.watcher.Idle?
  {
    match s.watcher
    case Idle => TakeEvent
    case Reloading => ReadFile
    case HasRead(_) => Commit
  }

  function Backlog(s: System): nat {
    3 * s.events + match s.watcher case Idle => 0 case Reloading => 2 case HasRead(_) => 1
  }

  /** The system once the watcher has handled all there is. */
  function CaughtUp(registry: Registry, s: System): System
    decreases Backlog(s)
  {
    if s.events == 0 && s.watcher.Idle? then s else CaughtUp(registry, Next(registry, s, WatcherStep(s)))
  }

  /** Left alone, the watcher makes any reachable state agree, and leaves the
      file as it is. */
  lemma {:induction false} TheWatcherConverges(registry: Registry, s: System)
    requires Invariant(registry, s) && s.writers == 0
    ensures var t := CaughtUp(registry, s);
      IsQuiescent(t) && Agrees(registry, t) && t.store.files == s.store.files
    decreases Backlog(s)
  {
    if s.events > 0 || !s.watcher.Idle? {
      StepKeepsInvariant(registry, s, WatcherStep(s));
      TheWatcherConverges(registry, Next(registry, s, WatcherStep(s)));
    }
  }
}
