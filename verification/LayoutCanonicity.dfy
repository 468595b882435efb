/** The layout does not depend on the order in which the connected outputs are
    listed, and holds exactly those outputs. */
module LayoutCanonicity {
  import opened Wrappers
  import opened Geometry
  import opened Outputs

  ghost predicate DistinctNames(outputs: seq<ConnectedOutput>) {
    forall i, j :: 0 <= i < j < |outputs| ==> outputs[i].name != outputs[j].name
  }

  ghost predicate SortedByName(outputs: seq<ConnectedOutput>) {
    forall i, j :: 0 <= i < j < |outputs| ==> StringLeq(outputs[i].name, outputs[j].name)
  }

  ghost predicate SameElements(a: seq<ConnectedOutput>, b: seq<ConnectedOutput>) {
    forall output :: output in a <==> output in b
  }

  // ---- The order of names ---------------------------------------------------

  lemma {:induction false} NameOrderIsTotal(a: string, b: string)
    ensures StringLeq(a, b) || StringLeq(b, a)
    ensures StringLeq(a, b) && StringLeq(b, a) ==> a == b
  {
    if a != [] && b != [] {
      NameOrderIsTotal(a[1..], b[1..]);
      assert a == [a[0]] + a[1..] && b == [b[0]] + b[1..];
    }
  }

  lemma {:induction false} NameOrderIsTransitive(a: string, b: string, c: string)
    requires StringLeq(a, b) && StringLeq(b, c)
    ensures StringLeq(a, c)
  {
    if a != [] && a[0] == b[0] && b[0] == c[0] {
      NameOrderIsTransitive(a[1..], b[1..], c[1..]);
    }
  }

  // ---- Sorting ---------------------------------------------------------------

  lemma {:induction false} InsertSorts(output: ConnectedOutput, sorted: seq<ConnectedOutput>)
    requires SortedByName(sorted)
    ensures SortedByName(Insert(output, sorted))
  {
    if sorted != [] {
      NameOrderIsTotal(output.name, sorted[0].name);
      if StringLeq(output.name, sorted[0].name) {
        forall other <- sorted ensures StringLeq(output.name, other.name) {
          if other != sorted[0] { NameOrderIsTransitive(output.name, sorted[0].name, other.name); }
        }
      } else {
        InsertSorts(output, sorted[1..]);
        InsertKeepsElements(output, sorted[1..]);
        forall other <- Insert(output, sorted[1..]) ensures StringLeq(sorted[0].name, other.name) {
          assert other in multiset(Insert(output, sorted[1..]));
        }
      }
    }
  }

  lemma {:induction false} SortSorts(outputs: seq<ConnectedOutput>)
    ensures SortedByName(SortByName(outputs))
  {
    if outputs != [] {
      SortSorts(outputs[1..]);
      InsertSorts(outputs[0], SortByName(outputs[1..]));
    }
  }

  /** A list with distinct names is determined by its elements once sorted. */
  lemma {:induction false} SortedIsUnique(a: seq<ConnectedOutput>, b: seq<ConnectedOutput>)
    requires SortedByName(a) && SortedByName(b)
    requires DistinctNames(a) && DistinctNames(b)
    requires SameElements(a, b)
    ensures a == b
  {
    assert a != [] ==> a[0] in b;
    assert b != [] ==> b[0] in a;
    if a != [] {
      NameOrderIsTotal(a[0].name, b[0].name);
      forall output ensures output in a[1..] <==> output in b[1..] {
        assert output in a <==> output in b;
      }
      SortedIsUnique(a[1..], b[1..]);
    }
  }

  lemma {:induction false} SelectKeepsDistinct(config: Placements, connected: seq<ConnectedOutput>, named: bool)
    requires DistinctNames(connected)
    ensures DistinctNames(Select(config, connected, named))
  {
    if connected != [] {
      SelectKeepsDistinct(config, connected[1..], named);
      SelectedAreNamed(config, connected[1..], named);
    }
  }

  lemma {:induction false} MultisetKeepsDistinct(a: seq<ConnectedOutput>, b: seq<ConnectedOutput>)
    requires DistinctNames(a) && multiset(a) == multiset(b)
    ensures DistinctNames(b)
  {
    forall i, j | 0 <= i < j < |b| ensures b[i].name != b[j].name {
      var rest := b[..i] + b[i + 1..];
      assert b == b[..i] + [b[i]] + b[i + 1..];
      assert multiset(b) == multiset{b[i]} + multiset(rest);
      assert rest[j - 1] == b[j];
      assert b[j] in multiset(rest);
      assert multiset{b[i], b[j]} <= multiset(a);
      assert b[i] in multiset(a) && b[j] in multiset(a);
      if b[i] == b[j] {
        assert multiset(a)[b[i]] >= 2;
        DistinctHasNoDuplicate(a, b[i]);
      } else {
        assert b[i] in a && b[j] in a;
      }
    }
  }

  lemma {:induction false} DistinctHasNoDuplicate(a: seq<ConnectedOutput>, output: ConnectedOutput)
    requires DistinctNames(a)
    ensures multiset(a)[output] <= 1
  {
    if a != [] {
      assert a == [a[0]] + a[1..];
      DistinctHasNoDuplicate(a[1..], output);
      assert multiset(a[1..])[output] > 0 ==> output in a[1..];
    }
  }

  lemma SelectedSortIsCanonical(config: Placements, a: seq<ConnectedOutput>, b: seq<ConnectedOutput>, named: bool)
    requires DistinctNames(a) && DistinctNames(b) && SameElements(a, b)
    ensures SortByName(Select(config, a, named)) == SortByName(Select(config, b, named))
  {
    var sa, sb := Select(config, a, named), Select(config, b, named);
    SelectKeepsDistinct(config, a, named);
    SelectKeepsDistinct(config, b, named);
    SelectedAreNamed(config, a, named);
    SelectedAreNamed(config, b, named);
    SortSorts(sa);
    SortSorts(sb);
    SortKeepsElements(sa);
    SortKeepsElements(sb);
    MultisetKeepsDistinct(sa, SortByName(sa));
    MultisetKeepsDistinct(sb, SortByName(sb));
    SortedIsUnique(SortByName(sa), SortByName(sb));
  }

  lemma ResolveDependsOnElements(config: Placements, a: seq<ConnectedOutput>, b: seq<ConnectedOutput>)
    requires DistinctNames(a) && DistinctNames(b) && SameElements(a, b)
    ensures ResolvedLayout(config, a) == ResolvedLayout(config, b)
  {
    SelectedSortIsCanonical(config, a, b, true);
    SelectedSortIsCanonical(config, a, b, false);
  }

  /** The same connectors listed in any order resolve to the same layout. */
  lemma ResolveIsCanonical(config: Placements, a: seq<ConnectedOutput>, b: seq<ConnectedOutput>)
    requires DistinctNames(a) && multiset(a) == multiset(b)
    ensures ResolvedLayout(config, a) == ResolvedLayout(config, b)
  {
    MultisetKeepsDistinct(a, b);
    forall output ensures output in a <==> output in b {
      assert output in multiset(a) <==> output in multiset(b);
    }
    ResolveDependsOnElements(config, a, b);
  }

  // ---- Nothing is lost or invented --------------------------------------------

  function Unresolved(outputs: Layout): (connected: seq<ConnectedOutput>)
    ensures |connected| == |outputs|
  {
    seq(|outputs|, i requires 0 <= i < |outputs| => ConnectedOutput(outputs[i].name, outputs[i].physicalSize))
  }

  lemma {:induction false} PackedConnectors(outputs: seq<ConnectedOutput>, next: Point)
    ensures Unresolved(Pack(outputs, next)) == outputs
  {
    if outputs != [] {
      var first := Resolved(outputs[0], DEFAULT_PLACEMENT.scale, next);
      var after := Point(SatAdd(next.x, first.logicalSize.w), next.y);
      PackedConnectors(outputs[1..], after);
      assert Unresolved(Pack(outputs, next)) == [outputs[0]] + Unresolved(Pack(outputs[1..], after));
    }
  }

  lemma {:induction false} SelectSplits(config: Placements, connected: seq<ConnectedOutput>)
    ensures multiset(Select(config, connected, true)) + multiset(Select(config, connected, false)) == multiset(connected)
  {
    if connected != [] {
      SelectSplits(config, connected[1..]);
      assert connected == [connected[0]] + connected[1..];
    }
  }

  lemma UnresolvedConcat(a: Layout, b: Layout)
    ensures Unresolved(a + b) == Unresolved(a) + Unresolved(b)
  {
  }

  lemma ConfiguredConnectors(config: Placements, connected: seq<ConnectedOutput>)
    ensures Unresolved(ConfiguredOutputs(config, connected)) == SortByName(Select(config, connected, true))
  {
    SelectedAreNamed(config, connected, true);
    SortKeepsElements(Select(config, connected, true));
  }

  lemma RawLayoutConnectors(config: Placements, connected: seq<ConnectedOutput>)
    ensures Unresolved(RawLayout(config, connected))
         == SortByName(Select(config, connected, true)) + SortByName(Select(config, connected, false))
  {
    var configured := ConfiguredOutputs(config, connected);
    var unconfigured := SortByName(Select(config, connected, false));
    ConfiguredConnectors(config, connected);
    PackedConnectors(unconfigured, PackingStart(configured));
    UnresolvedConcat(configured, Pack(unconfigured, PackingStart(configured)));
  }

  lemma NormalizeKeepsConnectors(outputs: Layout)
    ensures Unresolved(Normalize(outputs)) == Unresolved(outputs)
  {
  }

  /** Layout order: configured outputs by name, then packed ones by name; and
      together they are a permutation of the connected outputs. */
  lemma ResolveIsAPermutation(config: Placements, connected: seq<ConnectedOutput>)
    ensures var configured, packed := SortByName(Select(config, connected, true)), SortByName(Select(config, connected, false));
      && Unresolved(ResolvedLayout(config, connected)) == configured + packed
      && SortedByName(configured) && SortedByName(packed)
      && (forall output <- configured :: output.name in config)
      && (forall output <- packed :: output.name !in config)
    ensures multiset(Unresolved(ResolvedLayout(config, connected))) == multiset(connected)
  {
    RawLayoutConnectors(config, connected);
    NormalizeKeepsConnectors(RawLayout(config, connected));
    SelectSplits(config, connected);
    SortKeepsElements(Select(config, connected, true));
    SortKeepsElements(Select(config, connected, false));
    SortSorts(Select(config, connected, true));
    SortSorts(Select(config, connected, false));
    SelectedAreNamed(config, connected, true);
    SelectedAreNamed(config, connected, false);
  }

  lemma ResolvedNames(config: Placements, connected: seq<ConnectedOutput>)
    ensures Names(ResolvedLayout(config, connected)) == set output <- connected :: output.name
  {
    var layout := ResolvedLayout(config, connected);
    ResolveIsAPermutation(config, connected);
    forall name ensures name in Names(layout) <==> name in (set output <- connected :: output.name) {
      if name in Names(layout) {
        var i :| 0 <= i < |layout| && layout[i].name == name;
        assert Unresolved(layout)[i] in multiset(connected);
      }
      if output :| output in connected && output.name == name {
        assert output in multiset(Unresolved(layout));
        var i :| 0 <= i < |layout| && Unresolved(layout)[i] == output;
        assert layout[i] in layout;
      }
    }
  }
}
