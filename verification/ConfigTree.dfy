/** Config trees addressed by paths
    (crates/nkdhrd/src/backends/config_store.rs, `navigate`, `set_leaf`). */
module ConfigTree {
  import opened Wrappers
  import opened DottedKeys

  /** `serde_json::Value`. Floating-point numbers are finite. */
  datatype Json =
    | Null
    | Bool(b: bool)
    | Int(n: int)
    | Float(x: real)
    | Text(s: string)
    | List(items: seq<Json>)
    | Object(entries: map<string, Json>)

  function Navigate(root: Json, path: seq<string>): Option<Json> {
    if path == [] then Some(root)
    else if root.Object? && path[0] in root.entries then Navigate(root.entries[path[0]], path[1..])
    else None
  }

  /** The single value at a path, not a table. */
  function LeafAt(root: Json, path: seq<string>): Option<Json> {
    var value := Navigate(root, path);
    if value.Some? && !value.value.Object? then value else None
  }

  /** Every table names its entries with segments a dotted key can carry. */
  ghost predicate Addressable(value: Json) {
    value.Object? ==> forall name <- value.entries :: IsSegment(name) && Addressable(value.entries[name])
  }

  /** Overwrites what is at a path, which must exist already. */
  function SetLeaf(root: Json, path: seq<string>, value: Json): Option<Json>
    requires path != []
  {
    if !root.Object? || path[0] !in root.entries then None
    else if |path| == 1 then Some(Object(root.entries[path[0] := value]))
    else
      var changed := SetLeaf(root.entries[path[0]], path[1..], value);
      if changed.None? then None else Some(Object(root.entries[path[0] := changed.value]))
  }

  lemma {:induction false} NavigateTwice(root: Json, first: seq<string>, second: seq<string>)
    ensures Navigate(root, first + second)
         == if Navigate(root, first).Some? then Navigate(Navigate(root, first).value, second) else None
  {
    if first == [] {
      assert first + second == second;
    } else {
      assert (first + second)[1..] == first[1..] + second;
      if root.Object? && first[0] in root.entries { NavigateTwice(root.entries[first[0]], first[1..], second); }
    }
  }

  lemma {:induction false} PathsAreSegments(root: Json, path: seq<string>)
    requires Addressable(root) && Navigate(root, path).Some?
    ensures AreSegments(path) && Addressable(Navigate(root, path).value)
  {
    if path != [] { PathsAreSegments(root.entries[path[0]], path[1..]); }
  }

  /** Setting succeeds exactly where something is, changes what is at the path,
      and changes nothing at any path that neither leads to it nor goes on from
      it. */
  lemma {:induction false} SetLeafChangesOnePath(root: Json, path: seq<string>, value: Json, other: seq<string>)
    requires path != []
    ensures SetLeaf(root, path, value).Some? <==> Navigate(root, path).Some?
    ensures SetLeaf(root, path, value).Some? ==>
              var changed := SetLeaf(root, path, value).value;
              && Navigate(changed, path) == Some(value)
              && (!(path <= other) && !(other <= path) ==> Navigate(changed, other) == Navigate(root, other))
  {
    if root.Object? && path[0] in root.entries && |path| > 1 {
      if other != [] && other[0] == path[0] {
        assert path[1..] <= other[1..] ==> path <= other;
        assert other[1..] <= path[1..] ==> other <= path;
        SetLeafChangesOnePath(root.entries[path[0]], path[1..], value, other[1..]);
      } else {
        SetLeafChangesOnePath(root.entries[path[0]], path[1..], value, []);
      }
    }
  }
}
