/**
 Orders of the values of one id that is contradicted in both fields: how to keep the id unless it
 is doomed.  A position is the names the fold holds and the multiset of values still to come.
 */
module ConflictOrders {
  import opened Wrappers
  import opened NodeNames
  import opened SnapshotCollector
  import opened OrderDependence

  const BLANK := Names(None, None)

  predicate Full(x: Names) {
    x.long.Some? && x.short.Some?
  }

  ghost predicate AllFull(values: multiset<Names>) {
    forall x | x in values :: Full(x)
  }

  /** Values of this field only. */
  ghost predicate Only(values: multiset<Names>, which: Which) {
    forall x | x in values :: Lacks(x, which)
  }

  lemma Part(values: multiset<Names>, part: multiset<Names>)
    requires part <= values
    ensures AllFull(values) ==> AllFull(part)
    ensures forall which :: Only(values, which) ==> Only(part, which)
  {
    assert forall x | x in part :: x in values;
  }

  function Set(z: Names, which: Which, name: Name): Names {
    if which.Long? then z.(long := name) else z.(short := name)
  }

  // ---------- positions ----------

  function Run(z: Names, w: seq<Names>): Fate
    decreases |w|
  {
    if w == [] then Kept(z)
    else
      match NextFate(Kept(z), w[0])
      case Kept(n) => Run(n, w[1..])
      case other => other
  }

  lemma {:induction false} RunAppends(z: Names, p: seq<Names>, q: seq<Names>)
    ensures Run(z, p + q) == match Run(z, p)
                             case Kept(n) => Run(n, q)
                             case other => other
    decreases |p|
  {
    if p == [] {
      assert p + q == q;
    } else {
      assert (p + q)[1..] == p[1..] + q;
      if NextFate(Kept(z), p[0]).Kept? { RunAppends(NextFate(Kept(z), p[0]).names, p[1..], q); }
    }
  }

  lemma FirstValue(x: Names)
    ensures NextFate(Unseen, x) == NextFate(Kept(BLANK), x) == Kept(x) && NextFate(Dropped, x) == Dropped
  {
  }

  lemma {:induction false} FoldIsRun(w: seq<Names>)
    requires w != []
    ensures FoldFate(w) == Run(BLANK, w)
  {
    hide NextFate;
    var p, x := w[..|w| - 1], w[|w| - 1];
    assert w == p + [x];
    RunAppends(BLANK, p, [x]);
    FirstValue(x);
    KeptFields(BLANK, p, Long);
    Append(p, x, Long);
    if p != [] { FoldIsRun(p); }
    assert [x][1..] == [];
  }

  /** Some order of the values leads from `z` to `n` without dropping the id. */
  ghost predicate Reach(z: Names, values: multiset<Names>, n: Names) {
    exists w :: multiset(w) == values && Run(z, w) == Kept(n)
  }

  ghost predicate Lives(z: Names, values: multiset<Names>) {
    exists n :: Reach(z, values, n)
  }

  lemma Join(z: Names, a: multiset<Names>, n: Names, b: multiset<Names>, k: Names)
    requires Reach(z, a, n) && Reach(n, b, k)
    ensures Reach(z, a + b, k)
  {
    var p :| multiset(p) == a && Run(z, p) == Kept(n);
    var q :| multiset(q) == b && Run(n, q) == Kept(k);
    RunAppends(z, p, q);
    assert multiset(p + q) == a + b;
  }

  lemma Then(z: Names, a: multiset<Names>, n: Names, b: multiset<Names>)
    requires Reach(z, a, n) && Lives(n, b)
    ensures Lives(z, a + b)
  {
    var k :| Reach(n, b, k);
    Join(z, a, n, b, k);
  }

  /** One value first, then the others. */
  lemma Step(z: Names, x: Names, n: Names, rest: multiset<Names>)
    requires NextFate(Kept(z), x) == Kept(n) && Lives(n, rest)
    ensures Lives(z, multiset{x} + rest)
  {
    StepReach(z, x, n);
    Then(z, multiset{x}, n, rest);
  }

  lemma StepReach(z: Names, x: Names, n: Names)
    requires NextFate(Kept(z), x) == Kept(n)
    ensures Reach(z, multiset{x}, n)
  {
    assert multiset([x]) == multiset{x} && [x][1..] == [] && Run(z, [x]) == Kept(n);
  }

  lemma {:induction false} Listing(values: multiset<Names>) returns (w: seq<Names>)
    ensures multiset(w) == values
    decreases |values|
  {
    if values == multiset{} {
      w := [];
    } else {
      var x :| x in values;
      var rest := Listing(values - multiset{x});
      w := rest + [x];
    }
  }

  // ---------- one field of a position ----------

  function FieldRun(name: Name, w: seq<Names>, which: Which): Name
    decreases |w|
  {
    if w == [] then name else FieldRun(Resolved(MergeNames(name, w[0].Get(which))), w[1..], which)
  }

  lemma {:induction false} FieldAppends(name: Name, p: seq<Names>, q: seq<Names>, which: Which)
    ensures FieldRun(name, p + q, which) == FieldRun(FieldRun(name, p, which), q, which)
    decreases |p|
  {
    if p == [] {
      assert p + q == q;
    } else {
      assert (p + q)[1..] == p[1..] + q;
      FieldAppends(Resolved(MergeNames(name, p[0].Get(which))), p[1..], q, which);
    }
  }

  lemma FieldOne(name: Name, x: Names, which: Which)
    ensures FieldRun(name, [x], which) == Resolved(MergeNames(name, x.Get(which)))
  {
    assert [x][1..] == [];
  }

  lemma FieldTwo(name: Name, x: Names, y: Names, which: Which)
    ensures FieldRun(name, [x, y], which) == Resolved(MergeNames(Resolved(MergeNames(name, x.Get(which))), y.Get(which)))
  {
    assert [x, y][1..] == [y];
    FieldOne(Resolved(MergeNames(name, x.Get(which))), y, which);
  }

  ghost predicate FieldReach(name: Name, values: multiset<Names>, which: Which, result: Name) {
    exists w :: multiset(w) == values && FieldRun(name, w, which) == result
  }

  /** As long as the id is kept, its fields run independently. */
  lemma {:induction false} KeptFields(z: Names, w: seq<Names>, which: Which)
    ensures Run(z, w).Kept? ==> Run(z, w).names.Get(which) == FieldRun(z.Get(which), w, which)
    ensures !Run(z, w).Unseen?
    decreases |w|
  {
    if w != [] && NextFate(Kept(z), w[0]).Kept? {
      KeptFields(NextFate(Kept(z), w[0]).names, w[1..], which);
    }
  }

  /** The values do not disturb this field. */
  ghost predicate Steady(values: multiset<Names>, name: Name, which: Which) {
    forall x | x in values :: x.Get(which) == None || x.Get(which) == name
  }

  lemma {:induction false} HoldRun(z: Names, w: seq<Names>, which: Which)
    requires z.Get(which).Some? && forall x | x in w :: x.Get(which) == None || x.Get(which) == z.Get(which)
    ensures Run(z, w) == Kept(Set(z, Other(which), FieldRun(z.Get(Other(which)), w, Other(which))))
    decreases |w|
  {
    if w != [] {
      var n := Set(z, Other(which), Resolved(MergeNames(z.Get(Other(which)), w[0].Get(Other(which)))));
      assert w[0] in w;
      assert NextFate(Kept(z), w[0]) == Kept(n);
      HoldRun(n, w[1..], which);
    }
  }

  /** While one field is held, the other may run as it likes. */
  lemma Hold(z: Names, values: multiset<Names>, which: Which, result: Name)
    requires z.Get(which).Some? && Steady(values, z.Get(which), which)
    requires FieldReach(z.Get(Other(which)), values, Other(which), result)
    ensures Reach(z, values, Set(z, Other(which), result))
  {
    var w :| multiset(w) == values && FieldRun(z.Get(Other(which)), w, Other(which)) == result;
    forall x | x in w ensures x in values { assert x in multiset(w); }
    HoldRun(z, w, which);
  }

  lemma HoldThen(z: Names, values: multiset<Names>, which: Which, result: Name, rest: multiset<Names>)
    requires z.Get(which).Some? && Only(values, Other(which))
    requires FieldReach(z.Get(Other(which)), values, Other(which), result)
    requires Lives(Set(z, Other(which), result), rest)
    ensures Lives(z, values + rest)
  {
    Hold(z, values, which, result);
    Then(z, values, Set(z, Other(which), result), rest);
  }

  lemma HoldLives(z: Names, values: multiset<Names>, which: Which)
    requires z.Get(which).Some? && Steady(values, z.Get(which), which)
    ensures Lives(z, values)
  {
    var w := Listing(values);
    Hold(z, values, which, FieldRun(z.Get(Other(which)), w, Other(which)));
  }

  /** Full values never drop an id that holds one name. */
  lemma {:induction false} Greedy(z: Names, values: multiset<Names>, which: Which)
    requires z.Get(which).Some? && z.Get(Other(which)) == None
    requires AllFull(values)
    ensures Lives(z, values)
    decreases |values|
  {
    if Steady(values, z.Get(which), which) {
      HoldLives(z, values, which);
    } else {
      var x :| x in values && x.Get(which) != z.Get(which);
      var n := Set(BLANK, Other(which), x.Get(Other(which)));
      Greedy(n, values - multiset{x}, Other(which));
      Step(z, x, n, values - multiset{x});
      assert multiset{x} + (values - multiset{x}) == values;
    }
  }

  // ---------- where a field can end ----------

  /** Each value has the field, and all are different, and different from `name`. */
  ghost predicate Apart(name: Name, values: multiset<Names>, which: Which) {
    && (forall x | x in values :: x.Get(which).Some? && x.Get(which) != name && values[x] == 1)
    && (forall x, y | x in values && y in values && x.Get(which) == y.Get(which) :: x == y)
  }

  function Occupied(name: Name): nat {
    if name.Some? then 1 else 0
  }

  lemma {:induction false} Parity(name: Name, w: seq<Names>, which: Which)
    requires Apart(name, multiset(w), which)
    ensures FieldRun(name, w, which) == None <==> (|w| + Occupied(name)) % 2 == 0
    decreases |w|
  {
    hide Apart;
    if w != [] {
      var x, rest := w[0], w[1..];
      assert w == [x] + rest;
      ApartRest(name, x, rest, which);
      Parity(Resolved(MergeNames(name, x.Get(which))), rest, which);
    }
  }

  lemma ApartRest(name: Name, x: Names, rest: seq<Names>, which: Which)
    requires Apart(name, multiset([x] + rest), which)
    ensures x.Get(which).Some? && x.Get(which) != name
    ensures Apart(Resolved(MergeNames(name, x.Get(which))), multiset(rest), which)
  {
    assert multiset([x] + rest) == multiset{x} + multiset(rest);
    assert x in multiset([x] + rest);
    forall y | y in multiset(rest) ensures y in multiset([x] + rest) && y != x && multiset(rest)[y] == 1 {
      assert multiset([x] + rest)[y] == 1;
    }
  }

  lemma ParityReach(name: Name, values: multiset<Names>, which: Which) returns (result: Name)
    requires Apart(name, values, which)
    ensures FieldReach(name, values, which, result)
    ensures result == None <==> (|values| + Occupied(name)) % 2 == 0
  {
    var w := Listing(values);
    result := FieldRun(name, w, which);
    assert |w| == |multiset(w)|;
    Parity(name, w, which);
  }

  ghost predicate Constant(values: multiset<Names>) {
    forall x, y | x in values && y in values :: x == y
  }

  /** Two equal values and a different one, in that order, empty the field. */
  lemma PairThenOther(name: Name, p: seq<Names>, r: Names, v: Names, which: Which)
    requires r.Get(which).Some? && v.Get(which).Some? && r.Get(which) != v.Get(which)
    ensures FieldRun(name, p + [r, r, v], which) == None
  {
    FieldAppends(name, p, [r, r, v], which);
    var t := FieldRun(name, p, which);
    assert [r, r, v][1..] == [r, v];
    FieldTwo(Resolved(MergeNames(t, r.Get(which))), r, v, which);
  }

  /** Values of one field only that are not apart: one is repeated, or is the name. */
  lemma NotApart(name: Name, values: multiset<Names>, which: Which)
    requires Only(values, which) && !Apart(name, values, which)
    ensures exists r :: r in values && (values[r] >= 2 || r.Get(which) == name)
  {
    assert forall x, y | x in values && y in values && x.Get(which) == y.Get(which) :: x == y;
    assert exists x :: x in values && !(x.Get(which) != name && values[x] == 1);
  }

  /** The field can be emptied, unless its values are all the same, or different and of the wrong number. */
  lemma CanEmpty(name: Name, values: multiset<Names>, which: Which)
    requires Only(values, which) && values != multiset{}
    ensures || FieldReach(name, values, which, None)
            || (Constant(values) && (|values| >= 2 || exists x :: x in values && (name == None || x.Get(which) == name)))
            || (Apart(name, values, which) && (|values| + Occupied(name)) % 2 == 1)
  {
    if Apart(name, values, which) {
      var result := ParityReach(name, values, which);
    } else {
      NotApart(name, values, which);
      var r :| r in values && (values[r] >= 2 || r.Get(which) == name);
      if Constant(values) {
        if values[r] >= 2 {
          assert multiset{r, r} <= values;
          assert values == multiset{r, r} + (values - multiset{r, r});
        }
      } else {
        var a, b :| a in values && b in values && a != b;
        var v := if a == r then b else a;
        if c :| c in values && values[c] >= 2 {
          RepeatEmpties(name, values, which, c, if a == c then b else a);
        } else {
          NameEmpties(name, values, which, r, v);
        }
      }
    }
  }

  lemma RepeatEmpties(name: Name, values: multiset<Names>, which: Which, r: Names, v: Names)
    requires Only(values, which) && values[r] >= 2 && v in values && v != r
    ensures FieldReach(name, values, which, None)
  {
    assert r in values;
    var p := Listing(values - multiset{r, r, v});
    PairThenOther(name, p, r, v, which);
    assert multiset(p + [r, r, v]) == values;
  }

  /** The name itself is among different values: it can be absorbed first or used last. */
  lemma NameEmpties(name: Name, values: multiset<Names>, which: Which, r: Names, v: Names)
    requires Only(values, which) && forall x | x in values :: values[x] == 1
    requires r in values && r.Get(which) == name && v in values && v != r
    ensures FieldReach(name, values, which, None)
  {
    OthersAreApart(name, values, which, r);
    OneOfTwoOrders(name, values, which, r, v);
  }

  lemma OneOfTwoOrders(name: Name, values: multiset<Names>, which: Which, r: Names, v: Names)
    requires r in values && v in values - multiset{r} && Apart(name, values - multiset{r}, which)
    requires r.Get(which) == name && name.Some?
    ensures FieldReach(name, values, which, None)
  {
    hide Apart;
    var p := Listing(values - multiset{r} - multiset{v});
    TwoOrders(values, p, r, v);
    EmptiesEither(name, p, r, v, which);
    var w, w' := [r] + (p + [v]), p + [r, v];
    hide FieldRun;
    assert multiset(w) == values && multiset(w') == values;
  }

  lemma TwoOrders(values: multiset<Names>, p: seq<Names>, r: Names, v: Names)
    requires r in values && v in values - multiset{r} && multiset(p) == values - multiset{r} - multiset{v}
    ensures multiset([r] + (p + [v])) == values && multiset(p + [r, v]) == values
    ensures multiset(p + [v]) == values - multiset{r}
  {
    Snoc(p, v);
    Snoc(p, r);
    Snoc(p + [r], v);
    Cons(r, p + [v]);
    assert p + [r, v] == p + [r] + [v];
    TwoBack(values, r, v);
  }

  lemma TwoBack(values: multiset<Names>, r: Names, v: Names)
    requires r in values && v in values - multiset{r}
    ensures multiset{r} + (values - multiset{r} - multiset{v} + multiset{v}) == values
    ensures values - multiset{r} - multiset{v} + multiset{r} + multiset{v} == values
    ensures values - multiset{r} - multiset{v} + multiset{v} == values - multiset{r}
    ensures multiset{r} + (multiset{v} + (values - multiset{r} - multiset{v})) == values
  {
  }

  lemma Snoc(p: seq<Names>, x: Names)
    ensures multiset(p + [x]) == multiset(p) + multiset{x}
  {
  }

  lemma Cons(x: Names, p: seq<Names>)
    ensures multiset([x] + p) == multiset{x} + multiset(p)
  {
  }

  lemma EmptiesEither(name: Name, p: seq<Names>, r: Names, v: Names, which: Which)
    requires Apart(name, multiset(p + [v]), which) && r.Get(which) == name && name.Some?
    ensures FieldRun(name, [r] + (p + [v]), which) == None || FieldRun(name, p + [r, v], which) == None
  {
    if FieldRun(name, p + [v], which) == None {
      FieldAppends(name, [r], p + [v], which);
      FieldOne(name, r, which);
    } else {
      LastEmpties(name, p, r, v, which);
    }
  }

  /** Where `v` alone would not empty the field, the name before it does. */
  lemma LastEmpties(name: Name, p: seq<Names>, r: Names, v: Names, which: Which)
    requires Apart(name, multiset(p + [v]), which) && r.Get(which) == name && name.Some?
    requires FieldRun(name, p + [v], which).Some?
    ensures FieldRun(name, p + [r, v], which) == None
  {
    assert v in multiset(p + [v]);
    FieldAppends(name, p, [r, v], which);
    FieldTwo(FieldRun(name, p, which), r, v, which);
    Parity(name, p + [v], which);
    PrefixApart(name, p, v, which);
    Parity(name, p, which);
  }

  lemma PrefixApart(name: Name, p: seq<Names>, v: Names, which: Which)
    requires Apart(name, multiset(p + [v]), which)
    ensures Apart(name, multiset(p), which)
  {
    assert multiset(p + [v]) == multiset(p) + multiset{v};
    forall x | x in multiset(p) ensures x in multiset(p + [v]) && multiset(p)[x] == 1 {
      assert multiset(p + [v])[x] == 1;
    }
  }

  /** The field can end with a name, unless its values are different and of the wrong number. */
  lemma CanFill(name: Name, values: multiset<Names>, which: Which) returns (result: Name)
    requires Only(values, which)
    ensures || (result.Some? && FieldReach(name, values, which, result))
            || (Apart(name, values, which) && (|values| + Occupied(name)) % 2 == 0)
  {
    result := None;
    if Apart(name, values, which) {
      result := ParityReach(name, values, which);
    } else if r :| r in values && values[r] >= 2 {
      var p := Listing(values - multiset{r, r});
      RepeatFills(name, values, which, p, r);
      result := r.Get(which);
    } else {
      NotApart(name, values, which);
      var r :| r in values && r.Get(which) == name;
      result := FillWithName(name, values, which, r);
    }
  }

  lemma RepeatFills(name: Name, values: multiset<Names>, which: Which, p: seq<Names>, r: Names)
    requires r.Get(which).Some? && values[r] >= 2 && multiset(p) == values - multiset{r, r}
    ensures FieldReach(name, values, which, r.Get(which))
  {
    FieldAppends(name, p, [r, r], which);
    FieldTwo(FieldRun(name, p, which), r, r, which);
    assert multiset(p + [r, r]) == values;
  }

  lemma OthersAreApart(name: Name, values: multiset<Names>, which: Which, r: Names)
    requires Only(values, which) && forall x | x in values :: values[x] == 1
    requires r in values && r.Get(which) == name
    ensures var others := values - multiset{r}; Apart(name, others, which) && values == others + multiset{r}
  {
    var others := values - multiset{r};
    assert others[r] == 0;
    assert forall x | x in others :: x in values && others[x] == values[x] && x != r;
    assert forall x | x in others :: x.Get(which) != name;
  }

  lemma FillWithName(name: Name, values: multiset<Names>, which: Which, r: Names) returns (result: Name)
    requires Only(values, which) && forall x | x in values :: values[x] == 1
    requires r in values && r.Get(which) == name
    ensures result.Some? && FieldReach(name, values, which, result)
  {
    var others := values - multiset{r};
    OthersAreApart(name, values, which, r);
    var p := Listing(others);
    Parity(name, p, which);
    if FieldRun(name, p, which).Some? {
      assert multiset([r] + p) == values;
      FieldAppends(name, [r], p, which);
      FieldOne(name, r, which);
      result := FieldRun(name, p, which);
    } else {
      assert multiset(p + [r]) == values;
      FieldAppends(name, p, [r], which);
      FieldOne(None, r, which);
      result := name;
    }
  }
}
