/** Dotted keys and the segments they are made of
    (crates/nkdhrd/src/backends/config_store.rs, `split_key`). */
module DottedKeys {

  /** `str::split('.')`: always at least one segment. */
  function Split(key: string): (segments: seq<string>)
    ensures segments != []
  {
    if key == "" then [""]
    else if key[0] == '.' then [""] + Split(key[1..])
    else
      var rest := Split(key[1..]);
      [[key[0]] + rest[0]] + rest[1..]
  }

  /** A key extended by a path, one `format!("{prefix}.{key}")` at a time. */
  function Extend(prefix: string, path: seq<string>): string
    decreases path
  {
    if path == [] then prefix else Extend(prefix + "." + path[0], path[1..])
  }

  predicate IsSegment(name: string) {
    name != "" && '.' !in name
  }

  ghost predicate AreSegments(path: seq<string>) {
    forall i :: 0 <= i < |path| ==> IsSegment(path[i])
  }

  /** The key itself, or one that goes on after it with a dot. */
  predicate AtOrUnder(prefix: string, key: string) {
    key == prefix || prefix + "." <= key
  }

  // ---- Splitting undoes extending --------------------------------------------------

  lemma {:induction false} SplitOfConcatenation(a: string, b: string)
    ensures Split(a + "." + b) == Split(a) + Split(b)
  {
    if a == "" {
      assert (a + "." + b)[1..] == b;
    } else {
      assert (a + "." + b)[1..] == a[1..] + "." + b;
      SplitOfConcatenation(a[1..], b);
    }
  }

  lemma {:induction false} SplitOfSegment(name: string)
    requires '.' !in name
    ensures Split(name) == [name]
  {
    if name != "" {
      SplitOfSegment(name[1..]);
      assert [name[0]] + name[1..] == name;
    }
  }

  lemma {:induction false} SplitOfExtension(prefix: string, path: seq<string>)
    requires AreSegments(path)
    ensures Split(Extend(prefix, path)) == Split(prefix) + path
    decreases path
  {
    if path != [] {
      SplitOfConcatenation(prefix, path[0]);
      SplitOfSegment(path[0]);
      SplitOfExtension(prefix + "." + path[0], path[1..]);
      assert path == [path[0]] + path[1..];
    }
  }

  lemma {:induction false} ExtendTwice(prefix: string, first: seq<string>, second: seq<string>)
    ensures Extend(Extend(prefix, first), second) == Extend(prefix, first + second)
    decreases first
  {
    if first == [] {
      assert first + second == second;
    } else {
      assert (first + second)[1..] == first[1..] + second;
      ExtendTwice(prefix + "." + first[0], first[1..], second);
    }
  }

  /** A key is its first segment extended by the others. */
  lemma {:induction false} ExtensionOfSplit(key: string)
    ensures Extend(Split(key)[0], Split(key)[1..]) == key
    ensures forall segment <- Split(key) :: '.' !in segment
  {
    if key != "" {
      ExtensionOfSplit(key[1..]);
      var rest := Split(key[1..]);
      if key[0] == '.' {
        assert Split(key)[1..] == rest;
        PrependExtends(".", rest[0], rest[1..]);
        assert "" + "." + rest[0] == "." + rest[0];
        assert "." + key[1..] == key;
      } else {
        assert Split(key)[1..] == rest[1..];
        PrependExtends([key[0]], rest[0], rest[1..]);
        assert [key[0]] + key[1..] == key;
      }
    }
  }

  lemma {:induction false} PrependExtends(a: string, prefix: string, path: seq<string>)
    ensures Extend(a + prefix, path) == a + Extend(prefix, path)
    decreases path
  {
    if path != [] {
      assert a + prefix + "." + path[0] == a + (prefix + "." + path[0]);
      PrependExtends(a, prefix + "." + path[0], path[1..]);
    }
  }

  /** Different paths of segments extend a key differently. */
  lemma ExtensionIsInjective(prefix: string, p: seq<string>, q: seq<string>)
    requires AreSegments(p) && AreSegments(q) && Extend(prefix, p) == Extend(prefix, q)
    ensures p == q
  {
    SplitOfExtension(prefix, p);
    SplitOfExtension(prefix, q);
    assert p == (Split(prefix) + p)[|Split(prefix)|..];
    assert q == (Split(prefix) + q)[|Split(prefix)|..];
  }

  /** Being at or under a key is having its segments first. */
  lemma AtOrUnderIsAPrefix(prefix: string, key: string)
    ensures AtOrUnder(prefix, key) <==> Split(prefix) <= Split(key)
  {
    ExtensionOfSplit(prefix);
    ExtensionOfSplit(key);
    if prefix + "." <= key {
      var rest := key[|prefix| + 1..];
      assert key == prefix + "." + rest;
      SplitOfConcatenation(prefix, rest);
    }
    if Split(prefix) <= Split(key) {
      var more := Split(key)[|Split(prefix)|..];
      assert Split(key)[1..] == Split(prefix)[1..] + more;
      ExtendTwice(Split(prefix)[0], Split(prefix)[1..], more);
      ExtendBegins(prefix, more);
    }
  }

  lemma {:induction false} ExtendBegins(prefix: string, path: seq<string>)
    ensures AtOrUnder(prefix, Extend(prefix, path))
    decreases path
  {
    if path != [] {
      ExtendBegins(prefix + "." + path[0], path[1..]);
      assert prefix + "." <= prefix + "." + path[0];
    }
  }
}
