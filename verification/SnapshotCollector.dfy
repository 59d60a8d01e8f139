/**
 The collector that turns an unordered snapshot of nodes into a name state for both fields
 (`_collect_node_name_snapshot`).  It is a fold over the nodes; the facts below say what the
 fold yields in terms of which nodes occur, and how far it depends on their order.
 */
module SnapshotCollector {
  import opened Wrappers
  import opened NodeNames

  // ---------- the two-field collector ----------

  datatype Snapshot = Snapshot(complete: bool, ids: set<string>, state: State, skipped: set<string>)

  const EMPTY := Snapshot(true, {}, map[], {})

  function NamesOf(n: Node): Names
    requires n.Usable()
  {
    Names(Normalize(n.long), Normalize(n.short))
  }

  /** What a conflict in one field leaves of it: unknown. */
  function Resolved(m: Merged): Name {
    if m.Conflict? then None else m.name
  }

  function AddNode(c: Snapshot, n: Node): Snapshot {
    if !n.Usable() then c.(complete := false)
    else if n.id in c.skipped then c
    else
      var c := c.(ids := c.ids + {n.id}, complete := c.complete && n.WellFormed());
      var incoming := NamesOf(n);
      if n.id !in c.state then c.(state := c.state[n.id := incoming])
      else
        var long := MergeNames(c.state[n.id].long, incoming.long);
        var short := MergeNames(c.state[n.id].short, incoming.short);
        var merged := Names(Resolved(long), Resolved(short));
        if long.Value? && short.Value? then c.(state := c.state[n.id := merged])
        else if merged == Names(None, None) then
          c.(complete := false, state := c.state - {n.id}, skipped := c.skipped + {n.id})
        else c.(complete := false, state := c.state[n.id := merged])
  }

  function Collect(nodes: seq<Node>): Snapshot {
    if nodes == [] then EMPTY else AddNode(Collect(nodes[..|nodes| - 1]), nodes[|nodes| - 1])
  }

  /** Some node of the snapshot carries `id`. */
  ghost predicate Carried(nodes: seq<Node>, id: string) {
    exists n :: n in nodes && n.Entry? && n.id == id && id != ""
  }

  /** The node gives the non-empty string `v` as this name of `id`. */
  ghost predicate Gives(n: Node, which: Which, id: string, v: string) {
    n.Entry? && n.id == id && id != "" && v != "" && (if which.Long? then n.long == Str(v) else n.short == Str(v))
  }

  /** Some node of the snapshot carries the non-empty value `v` for `id`. */
  ghost predicate Carries(nodes: seq<Node>, which: Which, id: string, v: string) {
    exists n :: n in nodes && Gives(n, which, id, v)
  }

  /** No id carries two different non-empty values in either field. */
  ghost predicate Consistent(nodes: seq<Node>) {
    forall which, id, v, w :: Carries(nodes, which, id, v) && Carries(nodes, which, id, w) ==> v == w
  }

  ghost predicate AllWellFormed(nodes: seq<Node>) {
    forall n :: n in nodes ==> n.Entry? && n.id != "" && !n.long.NotAString? && !n.short.NotAString?
  }

  /** Every id is there, and has in each field the value its nodes carry, if any does. */
  ghost predicate Reports(nodes: seq<Node>, state: State) {
    && (forall id :: id in state <==> Carried(nodes, id))
    && (forall which, id, v :: id in state ==>
          (state[id].Get(which) == Some(v) <==> Carries(nodes, which, id, v)))
  }

  ghost predicate Accounted(nodes: seq<Node>, c: Snapshot) {
    && (forall id :: id in c.ids <==> Carried(nodes, id))
    && c.state.Keys + c.skipped == c.ids && c.state.Keys !! c.skipped
    && (forall which, id, v :: id in c.state && c.state[id].Get(which) == Some(v) ==>
          Carries(nodes, which, id, v))
  }

  lemma AppendCarried(before: seq<Node>, n: Node, id: string)
    ensures Carried(before + [n], id) <==> Carried(before, id) || (n.Usable() && n.id == id)
  {
    assert forall m :: m in before + [n] <==> m in before || m == n;
  }

  lemma AppendCarries(before: seq<Node>, n: Node, which: Which, id: string, v: string)
    ensures Carries(before + [n], which, id, v) <==>
      Carries(before, which, id, v) || (n.Usable() && n.id == id && Normalize(n.Raw(which)) == Some(v))
    ensures Carries(before, which, id, v) ==> Carried(before, id)
  {
    assert forall m :: m in before + [n] <==> m in before || m == n;
    assert Gives(n, which, id, v) <==> n.Usable() && n.id == id && Normalize(n.Raw(which)) == Some(v);
    if Carries(before, which, id, v) {
      var m :| m in before && Gives(m, which, id, v);
      assert m in before + [n] && m.Entry? && m.id == id;
    }
    if Carries(before + [n], which, id, v) {
      var m :| m in before + [n] && Gives(m, which, id, v);
    }
  }

  lemma StepAccounts(before: seq<Node>, n: Node, c: Snapshot)
    requires Accounted(before, c)
    ensures Accounted(before + [n], AddNode(c, n))
  {
    hide Carried, Carries;
    var c' := AddNode(c, n);
    forall id ensures id in c'.ids <==> Carried(before + [n], id) { AppendCarried(before, n, id); }
    forall which, id, v | id in c'.state && c'.state[id].Get(which) == Some(v)
      ensures Carries(before + [n], which, id, v)
    {
      AppendCarries(before, n, which, id, v);
    }
  }

  lemma {:induction false} CollectAccounts(nodes: seq<Node>)
    ensures Accounted(nodes, Collect(nodes))
  {
    if nodes != [] {
      var before, n := nodes[..|nodes| - 1], nodes[|nodes| - 1];
      CollectAccounts(before);
      assert nodes == before + [n];
      StepAccounts(before, n, Collect(before));
    }
  }

  lemma ConsistentPrefix(before: seq<Node>, n: Node)
    requires Consistent(before + [n])
    ensures Consistent(before)
  {
    hide Carries;
    forall which, id, v, w | Carries(before, which, id, v) && Carries(before, which, id, w) ensures v == w {
      AppendCarries(before, n, which, id, v);
      AppendCarries(before, n, which, id, w);
    }
  }

  /** `n` contradicts no value of the state. */
  predicate Fits(n: Node, state: State)
    requires n.Usable()
  {
    n.id in state ==> forall which: Which :: Agree(state[n.id].Get(which), Normalize(n.Raw(which)))
  }

  /** Against a state that reports `before`, the next node conflicts exactly when it breaks consistency. */
  lemma ConsistentStep(before: seq<Node>, n: Node, state: State)
    requires Reports(before, state) && Consistent(before) && n.Usable()
    ensures Consistent(before + [n]) <==> Fits(n, state)
  {
    hide Carries;
    if Fits(n, state) {
      forall which, id, v, w | Carries(before + [n], which, id, v) && Carries(before + [n], which, id, w)
        ensures v == w
      {
        AppendCarries(before, n, which, id, v);
        AppendCarries(before, n, which, id, w);
        if id == n.id && id in state {
          assert Agree(state[id].Get(which), Normalize(n.Raw(which)));
        }
      }
    } else {
      var which: Which :| !Agree(state[n.id].Get(which), Normalize(n.Raw(which)));
      var v, w := state[n.id].Get(which).value, Normalize(n.Raw(which)).value;
      AppendCarries(before, n, which, n.id, v);
      AppendCarries(before, n, which, n.id, w);
    }
  }

  lemma ReportsStep(before: seq<Node>, n: Node, c: Snapshot)
    requires c.skipped == {} && Reports(before, c.state) && n.Usable() && Fits(n, c.state)
    ensures AddNode(c, n).skipped == {} && Reports(before + [n], AddNode(c, n).state)
  {
    hide Carried, Carries;
    if n.id in c.state {
      assert Agree(c.state[n.id].Get(Long), Normalize(n.Raw(Long)));
      assert Agree(c.state[n.id].Get(Short), Normalize(n.Raw(Short)));
    }
    var state := AddNode(c, n).state;
    forall id ensures id in state <==> Carried(before + [n], id) { AppendCarried(before, n, id); }
    forall which, id, v | id in state
      ensures state[id].Get(which) == Some(v) <==> Carries(before + [n], which, id, v)
    {
      AppendCarries(before, n, which, id, v);
    }
  }

  ghost predicate CompleteExactly(nodes: seq<Node>, c: Snapshot) {
    && (c.complete <==> AllWellFormed(nodes) && Consistent(nodes))
    && (c.complete ==> c.skipped == {} && Reports(nodes, c.state))
  }

  lemma StepCompletes(before: seq<Node>, n: Node, c: Snapshot)
    requires CompleteExactly(before, c)
    ensures CompleteExactly(before + [n], AddNode(c, n))
  {
    assert AllWellFormed(before + [n]) <==> AllWellFormed(before) && n.WellFormed() by {
      assert forall m :: m in before + [n] <==> m in before || m == n;
    }
    hide AllWellFormed, Reports, Consistent;
    if Consistent(before + [n]) {
      ConsistentPrefix(before, n);
    }
    if c.complete && n.Usable() {
      ConsistentStep(before, n, c.state);
      if Fits(n, c.state) {
        ReportsStep(before, n, c);
        if n.id in c.state {
          assert Agree(c.state[n.id].Get(Long), Normalize(n.Raw(Long)));
          assert Agree(c.state[n.id].Get(Short), Normalize(n.Raw(Short)));
        }
      }
    }
  }

  /** Completeness, without reference to order: every node is well formed and no id carries two
      different values; and then the state is exactly what the nodes report. */
  lemma {:induction false} CompleteIff(nodes: seq<Node>)
    ensures Collect(nodes).complete <==> AllWellFormed(nodes) && Consistent(nodes)
    ensures Collect(nodes).complete ==> Collect(nodes).skipped == {} && Reports(nodes, Collect(nodes).state)
  {
    if nodes != [] {
      var before, n := nodes[..|nodes| - 1], nodes[|nodes| - 1];
      CompleteIff(before);
      assert nodes == before + [n];
      StepCompletes(before, n, Collect(before));
    }
  }

  // ---------- order ----------

  ghost predicate Reordering(a: seq<Node>, b: seq<Node>) {
    multiset(a) == multiset(b)
  }

  lemma SameNodes(a: seq<Node>, b: seq<Node>)
    requires Reordering(a, b)
    ensures forall n :: n in a <==> n in b
  {
    forall n ensures n in a <==> n in b {
      assert n in a <==> n in multiset(a);
      assert n in b <==> n in multiset(b);
    }
  }

  /** The completeness flag and the id set do not depend on the order of the nodes. */
  lemma FlagAndIdsIgnoreOrder(a: seq<Node>, b: seq<Node>)
    requires Reordering(a, b)
    ensures Collect(a).complete == Collect(b).complete
    ensures Collect(a).ids == Collect(b).ids
  {
    SameNodes(a, b);
    CollectAccounts(a);
    CollectAccounts(b);
    CompleteIff(a);
    CompleteIff(b);
    assert forall id :: Carried(a, id) <==> Carried(b, id);
    assert forall which, id, v :: Carries(a, which, id, v) <==> Carries(b, which, id, v);
  }

  /** Nor does the state of a complete snapshot. */
  lemma CompleteStateIgnoresOrder(a: seq<Node>, b: seq<Node>)
    requires Reordering(a, b) && Collect(a).complete
    ensures Collect(a).state == Collect(b).state
  {
    SameNodes(a, b);
    FlagAndIdsIgnoreOrder(a, b);
    CompleteIff(a);
    CompleteIff(b);
    var s, t := Collect(a).state, Collect(b).state;
    assert forall id :: Carried(a, id) <==> Carried(b, id);
    assert forall which, id, v :: Carries(a, which, id, v) <==> Carries(b, which, id, v);
    hide Carries, Carried, Collect;
    forall id | id in s ensures id in t && s[id] == t[id] {
      SameValue(a, b, s, t, id, Long);
      SameValue(a, b, s, t, id, Short);
    }
  }

  lemma SameValue(a: seq<Node>, b: seq<Node>, s: State, t: State, id: string, which: Which)
    requires Reports(a, s) && Reports(b, t) && id in s && id in t
    requires forall v :: Carries(a, which, id, v) <==> Carries(b, which, id, v)
    ensures s[id].Get(which) == t[id].Get(which)
  {
    if s[id].Get(which).Some? {
      assert Carries(a, which, id, s[id].Get(which).value);
    } else if t[id].Get(which).Some? {
      assert Carries(b, which, id, t[id].Get(which).value);
    }
  }

  // ---------- one id at a time ----------

  /** What the fold has decided about one id. */
  datatype Fate = Unseen | Kept(names: Names) | Dropped

  function FateOf(c: Snapshot, id: string): Fate {
    if id in c.skipped then Dropped else if id in c.state then Kept(c.state[id]) else Unseen
  }

  function NextFate(f: Fate, incoming: Names): Fate {
    match f
    case Dropped => Dropped
    case Unseen => Kept(incoming)
    case Kept(names) =>
      var long := MergeNames(names.long, incoming.long);
      var short := MergeNames(names.short, incoming.short);
      var merged := Names(Resolved(long), Resolved(short));
      if (long.Conflict? || short.Conflict?) && merged == Names(None, None) then Dropped else Kept(merged)
  }

  function FoldFate(values: seq<Names>): Fate {
    if values == [] then Unseen else NextFate(FoldFate(values[..|values| - 1]), values[|values| - 1])
  }

  /** The values reported for one id, in order. */
  function ValuesOf(nodes: seq<Node>, id: string): seq<Names> {
    if nodes == [] then []
    else
      var n := nodes[|nodes| - 1];
      ValuesOf(nodes[..|nodes| - 1], id) + (if n.Usable() && n.id == id then [NamesOf(n)] else [])
  }

  lemma FateStep(c: Snapshot, n: Node, id: string)
    requires c.state.Keys !! c.skipped
    ensures FateOf(AddNode(c, n), id)
         == if n.Usable() && n.id == id then NextFate(FateOf(c, id), NamesOf(n)) else FateOf(c, id)
  {
  }

  /** The ids of a snapshot do not influence each other. */
  lemma {:induction false} FatesAreIndependent(nodes: seq<Node>, id: string)
    ensures FateOf(Collect(nodes), id) == FoldFate(ValuesOf(nodes, id))
  {
    if nodes != [] {
      var before, n := nodes[..|nodes| - 1], nodes[|nodes| - 1];
      FatesAreIndependent(before, id);
      CollectAccounts(before);
      FateStep(Collect(before), n, id);
      hide AddNode, FateOf, NextFate;
      if n.Usable() && n.id == id {
        assert ValuesOf(nodes, id)[..|ValuesOf(nodes, id)| - 1] == ValuesOf(before, id);
      } else {
        assert ValuesOf(nodes, id) == ValuesOf(before, id);
      }
    }
  }

  lemma {:induction false} ValuesOfConcat(a: seq<Node>, b: seq<Node>, id: string)
    ensures ValuesOf(a + b, id) == ValuesOf(a, id) + ValuesOf(b, id)
  {
    if b == [] {
      assert a + b == a;
    } else {
      assert (a + b)[..|a + b| - 1] == a + b[..|b| - 1];
      ValuesOfConcat(a, b[..|b| - 1], id);
    }
  }

  lemma RemoveAt(b: seq<Node>, j: nat)
    requires j < |b|
    ensures multiset(b[..j] + b[j + 1..]) == multiset(b) - multiset{b[j]}
  {
    assert b == b[..j] + ([b[j]] + b[j + 1..]);
  }

  lemma ValuesWithout(b: seq<Node>, j: nat, id: string)
    requires j < |b|
    ensures multiset(ValuesOf(b, id))
         == multiset(ValuesOf(b[..j] + b[j + 1..], id)) + multiset(ValuesOf([b[j]], id))
  {
    var left, n, right := b[..j], b[j], b[j + 1..];
    assert b == left + ([n] + right);
    ValuesOfConcat(left, [n] + right, id);
    ValuesOfConcat([n], right, id);
    ValuesOfConcat(left, right, id);
    hide ValuesOf;
  }

  lemma {:induction false} ReorderingKeepsValues(a: seq<Node>, b: seq<Node>, id: string)
    requires Reordering(a, b)
    ensures multiset(ValuesOf(a, id)) == multiset(ValuesOf(b, id))
    decreases |a|
  {
    if a == [] {
      assert |b| == |multiset(b)| == |multiset(a)| == 0;
    } else {
      hide ValuesOf;
      var last := |a| - 1;
      assert a[last] in multiset(b);
      var j :| 0 <= j < |b| && b[j] == a[last];
      RemoveAt(a, last);
      RemoveAt(b, j);
      ReorderingKeepsValues(a[..last] + a[last + 1..], b[..j] + b[j + 1..], id);
      ValuesWithout(a, last, id);
      ValuesWithout(b, j, id);
    }
  }

  /** No id occurs more than `k` times. */
  ghost predicate AtMost(nodes: seq<Node>, k: nat) {
    forall id :: |ValuesOf(nodes, id)| <= k
  }

  lemma TwoValuesCommute(x: Names, y: Names)
    ensures FoldFate([x, y]) == FoldFate([y, x])
  {
    assert [x, y][..1] == [x] && [y, x][..1] == [y] && [x][..0] == [] && [y][..0] == [];
    assert FoldFate([x]) == Kept(x) && FoldFate([y]) == Kept(y);
    assert FoldFate([x, y]) == NextFate(Kept(x), y) && FoldFate([y, x]) == NextFate(Kept(y), x);
  }

  /** With at most two nodes for every id, the state does not depend on their order either. */
  lemma PairsIgnoreOrder(a: seq<Node>, b: seq<Node>)
    requires Reordering(a, b) && AtMost(a, 2)
    ensures Collect(a).state == Collect(b).state
  {
    forall id ensures FateOf(Collect(a), id) == FateOf(Collect(b), id) {
      FatesAreIndependent(a, id);
      FatesAreIndependent(b, id);
      ReorderingKeepsValues(a, b, id);
      SmallPermutation(ValuesOf(a, id), ValuesOf(b, id));
    }
    StateFromFates(a, b);
  }

  lemma SmallPermutation(v: seq<Names>, w: seq<Names>)
    requires |v| <= 2 && multiset(v) == multiset(w)
    ensures FoldFate(v) == FoldFate(w)
  {
    assert |v| == |multiset(v)| == |multiset(w)| == |w|;
    if |v| == 1 {
      assert v[0] in multiset(w);
    } else if |v| == 2 {
      assert v == [v[0], v[1]] && w == [w[0], w[1]];
      assert multiset(v) == multiset{v[0], v[1]} && multiset(w) == multiset{w[0], w[1]};
      assert v[0] in multiset(w) && v[1] in multiset(w) && w[0] in multiset(v) && w[1] in multiset(v);
      TwoValuesCommute(v[0], v[1]);
    }
  }

  lemma StateFromFates(a: seq<Node>, b: seq<Node>)
    requires forall id :: FateOf(Collect(a), id) == FateOf(Collect(b), id)
    ensures Collect(a).state == Collect(b).state
  {
    CollectAccounts(a);
    CollectAccounts(b);
    hide Accounted, Collect;
    var s, t := Collect(a).state, Collect(b).state;
    assert forall id :: id in s ==> FateOf(Collect(a), id) == Kept(s[id]);
    assert forall id :: id in t ==> FateOf(Collect(b), id) == Kept(t[id]);
  }

  /** Three nodes of one id, short name always "s": long names A, B, A end as A but A, A, B as unknown. */
  lemma TriplesDependOnOrder()
    ensures var a := [Entry("n", Str("A"), Str("s")), Entry("n", Str("B"), Str("s")), Entry("n", Str("A"), Str("s"))];
            var b := [Entry("n", Str("A"), Str("s")), Entry("n", Str("A"), Str("s")), Entry("n", Str("B"), Str("s"))];
      && Reordering(a, b) && AtMost(a, 3)
      && Collect(a).state == map["n" := Names(Some("A"), Some("s"))]
      && Collect(b).state == map["n" := Names(None, Some("s"))]
  {
    var x, y := Entry("n", Str("A"), Str("s")), Entry("n", Str("B"), Str("s"));
    var c1 := Collect([x]);
    assert [x][..0] == [] && Collect([]) == EMPTY;
    assert c1 == AddNode(EMPTY, x);
    var known := map["n" := Names(Some("A"), Some("s"))];
    var unknown := map["n" := Names(None, Some("s"))];
    assert c1.state == known;
    assert [x, y][..1] == [x] && Collect([x, y]) == AddNode(c1, y);
    assert Collect([x, y]).state == unknown;
    assert [x, x][..1] == [x] && Collect([x, x]) == AddNode(c1, x);
    assert Collect([x, x]).state == known;
    assert [x, y, x][..2] == [x, y] && Collect([x, y, x]) == AddNode(Collect([x, y]), x);
    assert [x, x, y][..2] == [x, x] && Collect([x, x, y]) == AddNode(Collect([x, x]), y);
    assert multiset([x, y, x]) == multiset([x, x, y]);
    forall id ensures |ValuesOf([x, y, x], id)| <= 3 { ValuesAreNoMore([x, y, x], id); }
  }

  lemma {:induction false} ValuesAreNoMore(nodes: seq<Node>, id: string)
    ensures |ValuesOf(nodes, id)| <= |nodes|
  {
    if nodes != [] {
      ValuesAreNoMore(nodes[..|nodes| - 1], id);
    }
  }

  ghost predicate OrderFreeUpTo(k: nat) {
    forall a, b :: Reordering(a, b) && AtMost(a, k) ==> Collect(a).state == Collect(b).state
  }

  /** Two nodes for an id are exactly as many as the collector merges independently of order. */
  lemma OrderFreeIffPairs(k: nat)
    ensures OrderFreeUpTo(k) <==> k <= 2
  {
    hide Collect;
    if k <= 2 {
      forall a, b | Reordering(a, b) && AtMost(a, k) ensures Collect(a).state == Collect(b).state {
        PairsIgnoreOrder(a, b);
      }
    } else {
      TriplesDependOnOrder();
      var x, y := Entry("n", Str("A"), Str("s")), Entry("n", Str("B"), Str("s"));
      assert AtMost([x, y, x], k);
      assert Collect([x, y, x]).state["n"].long != Collect([x, x, y]).state["n"].long;
    }
  }

  /** The tuple handed out: sorted, each id once, and one and the same for every ordering of a
      snapshot that is complete or has at most two nodes for every id. */
  lemma TupleIgnoresOrder(a: seq<Node>, b: seq<Node>)
    requires Reordering(a, b) && (Collect(a).complete || AtMost(a, 2))
    ensures Tuple(Collect(a).state) == Tuple(Collect(b).state)
    ensures StrictlySorted(Tuple(Collect(a).state))
    ensures var t := Tuple(Collect(a).state); forall i, j | 0 <= i < j < |t| :: t[i].id != t[j].id
  {
    if Collect(a).complete { CompleteStateIgnoresOrder(a, b); } else { PairsIgnoreOrder(a, b); }
    SortedIdsDiffer(Tuple(Collect(a).state));
  }

  /** `_collect_node_name_snapshot`, for a nodes dictionary with these values. */
  method CollectNodeNameSnapshot(nodes: seq<Node>)
    returns (entries: seq<NameEntry>, currentIds: set<string>, complete: bool)
    ensures var c := Collect(nodes);
      entries == Tuple(c.state) && currentIds == c.ids && complete == c.complete
  {
    complete, currentIds := true, {};
    var stateById: State := map[];
    var skippedIds: set<string> := {};
    for i := 0 to |nodes|
      invariant Collect(nodes[..i]) == Snapshot(complete, currentIds, stateById, skippedIds)
    {
      var node := nodes[i];
      assert nodes[..i + 1][..i] == nodes[..i];
      if node.Malformed? {
        complete := false;
        continue;
      }
      if node.id == "" {
        complete := false;
        continue;
      }
      if node.id in skippedIds {
        continue;
      }
      currentIds := currentIds + {node.id};
      if node.long.NotAString? {
        complete := false;
      }
      if node.short.NotAString? {
        complete := false;
      }
      var long, short := Normalize(node.long), Normalize(node.short);
      if node.id !in stateById {
        stateById := stateById[node.id := Names(long, short)];
        continue;
      }
      var existing := stateById[node.id];
      var mergedLong, mergedShort := MergeNames(existing.long, long), MergeNames(existing.short, short);
      if mergedLong.Conflict? && mergedShort.Conflict? {
        complete := false;
        stateById := stateById - {node.id};
        skippedIds := skippedIds + {node.id};
        continue;
      }
      if mergedLong.Conflict? || mergedShort.Conflict? {
        complete := false;
        var resolvedLong := if mergedLong.Conflict? then None else mergedLong.name;
        var resolvedShort := if mergedShort.Conflict? then None else mergedShort.name;
        if resolvedLong == None && resolvedShort == None {
          stateById := stateById - {node.id};
          skippedIds := skippedIds + {node.id};
          continue;
        }
        stateById := stateById[node.id := Names(resolvedLong, resolvedShort)];
        continue;
      }
      stateById := stateById[node.id := Names(mergedLong.name, mergedShort.name)];
    }
    assert nodes[..|nodes|] == nodes;
    entries := Tuple(stateById);
  }
}
