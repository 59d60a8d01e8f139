/**
 `_collect_single_name_snapshot`: the collector that reads one name field and ignores the
 other.  A conflict removes the id for good, so here nothing at all depends on node order.
 */
module SingleFieldCollector {
  import opened Wrappers
  import opened NodeNames
  import opened SnapshotCollector

  datatype Single = Single(complete: bool, ids: set<string>, state: map<string, Name>, skipped: set<string>)

  const NOTHING := Single(true, {}, map[], {})

  function AddSingle(c: Single, n: Node, which: Which): Single {
    if !n.Usable() then c.(complete := false)
    else if n.id in c.skipped then c
    else
      var c := c.(ids := c.ids + {n.id});
      if n.Raw(which).NotAString? then c.(complete := false)
      else
        var existing := if n.id in c.state then c.state[n.id] else None;
        var merged := MergeNames(existing, Normalize(n.Raw(which)));
        if merged.Conflict? then
          c.(complete := false, state := c.state - {n.id}, skipped := c.skipped + {n.id})
        else c.(state := c.state[n.id := merged.name])
  }

  function CollectSingle(nodes: seq<Node>, which: Which): Single {
    if nodes == [] then NOTHING
    else AddSingle(CollectSingle(nodes[..|nodes| - 1], which), nodes[|nodes| - 1], which)
  }

  ghost predicate Conflicted(nodes: seq<Node>, which: Which, id: string) {
    exists v, w :: v != w && Carries(nodes, which, id, v) && Carries(nodes, which, id, w)
  }

  /** Some node of `id` has a usable value, empty or not. */
  ghost predicate Typed(nodes: seq<Node>, which: Which, id: string) {
    exists n :: n in nodes && n.Entry? && n.id == id && id != "" && !(if which.Long? then n.long else n.short).NotAString?
  }

  ghost predicate AllTyped(nodes: seq<Node>, which: Which) {
    forall n :: n in nodes ==> n.Entry? && n.id != "" && !(if which.Long? then n.long else n.short).NotAString?
  }

  /** What the collector yields for one id, in terms of which nodes occur. */
  ghost predicate DescribesId(nodes: seq<Node>, which: Which, c: Single, id: string) {
    && (id in c.ids <==> Carried(nodes, id))
    && (id in c.skipped <==> Conflicted(nodes, which, id))
    && (id in c.state <==> Typed(nodes, which, id) && !Conflicted(nodes, which, id))
    && (id in c.state ==> forall v :: c.state[id] == Some(v) <==> Carries(nodes, which, id, v))
  }

  ghost predicate FlagDescribes(nodes: seq<Node>, which: Which, c: Single) {
    c.complete <==> AllTyped(nodes, which) && forall id :: !Conflicted(nodes, which, id)
  }

  ghost predicate Describes(nodes: seq<Node>, which: Which, c: Single) {
    FlagDescribes(nodes, which, c) && forall id :: DescribesId(nodes, which, c, id)
  }

  lemma AppendTyped(before: seq<Node>, n: Node, which: Which, id: string)
    ensures Typed(before + [n], which, id) <==>
      Typed(before, which, id) || (n.Usable() && n.id == id && !n.Raw(which).NotAString?)
    ensures AllTyped(before + [n], which) <==>
      AllTyped(before, which) && n.Usable() && !n.Raw(which).NotAString?
    ensures forall v :: Carries(before, which, id, v) ==> Typed(before, which, id)
  {
    assert forall m :: m in before + [n] <==> m in before || m == n;
  }

  /** A node breaks consistency of its id exactly when its value differs from one already carried. */
  lemma AppendConflicted(before: seq<Node>, n: Node, which: Which, id: string)
    ensures Conflicted(before + [n], which, id) <==>
      || Conflicted(before, which, id)
      || (n.Usable() && n.id == id && Normalize(n.Raw(which)).Some?
          && exists v :: v != Normalize(n.Raw(which)).value && Carries(before, which, id, v))
  {
    forall v { AppendCarries(before, n, which, id, v); }
    if n.Usable() && n.id == id && Normalize(n.Raw(which)).Some? {
      assert Carries(before + [n], which, id, Normalize(n.Raw(which)).value);
    }
    hide Carries;
  }

  lemma StepDescribesId(before: seq<Node>, n: Node, which: Which, c: Single, id: string)
    requires DescribesId(before, which, c, id)
    ensures DescribesId(before + [n], which, AddSingle(c, n, which), id)
  {
    AppendCarried(before, n, id);
    AppendTyped(before, n, which, id);
    AppendConflicted(before, n, which, id);
    forall v { AppendCarries(before, n, which, id, v); }
    hide Carried, Carries, Typed, AllTyped;
    if n.Usable() && n.id == id && id !in c.state && !Conflicted(before, which, id) {
      assert !Typed(before, which, id);
      assert forall v :: !Carries(before, which, id, v);
    }
  }

  lemma StepFlag(before: seq<Node>, n: Node, which: Which, c: Single)
    requires Describes(before, which, c)
    ensures FlagDescribes(before + [n], which, AddSingle(c, n, which))
  {
    forall id { AppendConflicted(before, n, which, id); }
    AppendTyped(before, n, which, if n.Entry? then n.id else "");
    if n.Usable() {
      assert DescribesId(before, which, c, n.id);
    }
    hide Carried, Carries, Typed, AllTyped;
  }

  lemma {:induction false} SingleIsDescribed(nodes: seq<Node>, which: Which)
    ensures Describes(nodes, which, CollectSingle(nodes, which))
  {
    if nodes != [] {
      var before, n := nodes[..|nodes| - 1], nodes[|nodes| - 1];
      SingleIsDescribed(before, which);
      assert nodes == before + [n];
      var c := CollectSingle(before, which);
      StepFlag(before, n, which, c);
      forall id ensures DescribesId(nodes, which, AddSingle(c, n, which), id) {
        assert DescribesId(before, which, c, id);
        StepDescribesId(before, n, which, c, id);
      }
    }
  }

  /** State, id set and completeness depend on which nodes occur, and on nothing else: neither
      on their order nor on how often each is repeated. */
  lemma SingleIgnoresOrder(a: seq<Node>, b: seq<Node>, which: Which)
    requires forall n :: n in a <==> n in b
    ensures CollectSingle(a, which) == CollectSingle(b, which)
  {
    var c, d := CollectSingle(a, which), CollectSingle(b, which);
    SingleIsDescribed(a, which);
    SingleIsDescribed(b, which);
    assert forall id, v :: Carries(a, which, id, v) <==> Carries(b, which, id, v);
    hide Carries, CollectSingle;
    assert forall id :: Conflicted(a, which, id) <==> Conflicted(b, which, id);
    forall id
      ensures id in c.ids <==> id in d.ids
      ensures id in c.skipped <==> id in d.skipped
      ensures id in c.state <==> id in d.state
      ensures id in c.state ==> c.state[id] == d.state[id]
    {
      assert DescribesId(a, which, c, id) && DescribesId(b, which, d, id);
      if id in c.state {
        assert forall v :: c.state[id] == Some(v) <==> d.state[id] == Some(v);
        assert c.state[id] == None || c.state[id] == Some(c.state[id].value);
        assert d.state[id] == None || d.state[id] == Some(d.state[id].value);
      }
    }
    assert c.ids == d.ids && c.skipped == d.skipped && c.state == d.state;
    assert FlagDescribes(a, which, c) && FlagDescribes(b, which, d);
    assert AllTyped(a, which) <==> AllTyped(b, which);
    assert (forall id :: !Conflicted(a, which, id)) <==> (forall id :: !Conflicted(b, which, id));
  }

  method CollectSingleNameSnapshot(nodes: seq<Node>, which: Which)
    returns (stateById: map<string, Name>, currentIds: set<string>, complete: bool)
    ensures var c := CollectSingle(nodes, which);
      stateById == c.state && currentIds == c.ids && complete == c.complete
  {
    complete, currentIds, stateById := true, {}, map[];
    var skippedIds: set<string> := {};
    for i := 0 to |nodes|
      invariant CollectSingle(nodes[..i], which) == Single(complete, currentIds, stateById, skippedIds)
    {
      var node := nodes[i];
      assert nodes[..i + 1][..i] == nodes[..i];
      if node.Malformed? || node.id == "" {
        complete := false;
        continue;
      }
      if node.id in skippedIds {
        continue;
      }
      currentIds := currentIds + {node.id};
      if node.Raw(which).NotAString? {
        complete := false;
        continue;
      }
      var name := Normalize(node.Raw(which));
      var existing := if node.id in stateById then stateById[node.id] else None;
      if existing == None {
        stateById := stateById[node.id := name];
        continue;
      }
      var merged := MergeNames(existing, name);
      if merged.Conflict? {
        complete := false;
        stateById := stateById - {node.id};
        skippedIds := skippedIds + {node.id};
        continue;
      }
      stateById := stateById[node.id := merged.name];
    }
    assert nodes[..|nodes|] == nodes;
  }
}
