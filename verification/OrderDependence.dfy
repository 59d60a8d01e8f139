/**
 When the two-field collector depends on the order of the nodes.  A conflict leaves the field
 unknown, and a later value is merged into the unknown field, so duplicates may or may not cancel.
 This module deals with ids contradicted in one field, and reduces snapshots to their ids.
 */
module OrderDependence {
  import opened Wrappers
  import opened NodeNames
  import opened SnapshotCollector

  function Other(which: Which): Which {
    if which.Long? then Short else Long
  }

  /** No two values for the id contradict each other in this field. */
  ghost predicate Unopposed(v: seq<Names>, which: Which) {
    forall x, y | x in v && y in v :: Agree(x.Get(which), y.Get(which))
  }

  ghost predicate Absent(v: seq<Names>, which: Which) {
    forall x | x in v :: x.Get(which) == None
  }

  ghost predicate Permutation(v: seq<Names>, w: seq<Names>) {
    multiset(v) == multiset(w)
  }

  /** The fate of the id is the same in every order. */
  ghost predicate Free(v: seq<Names>) {
    forall w | Permutation(v, w) :: FoldFate(w) == FoldFate(v)
  }

  // ---------- one field ----------

  /** The non-empty values of a field. */
  function Given(v: seq<Names>, which: Which): multiset<string> {
    if v == [] then multiset{}
    else
      var x := v[|v| - 1].Get(which);
      Given(v[..|v| - 1], which) + (if x.Some? then multiset{x.value} else multiset{})
  }

  /** The field as the fold computes it as long as the id is kept. */
  function FoldField(v: seq<Names>, which: Which): Name {
    if v == [] then None
    else Resolved(MergeNames(FoldField(v[..|v| - 1], which), v[|v| - 1].Get(which)))
  }

  lemma Append(v: seq<Names>, x: Names, which: Which)
    ensures FoldFate(v + [x]) == NextFate(FoldFate(v), x)
    ensures FoldField(v + [x], which) == Resolved(MergeNames(FoldField(v, which), x.Get(which)))
    ensures Given(v + [x], which)
         == Given(v, which) + (if x.Get(which).Some? then multiset{x.Get(which).value} else multiset{})
  {
    assert (v + [x])[..|v + [x]| - 1] == v;
  }

  lemma {:induction false} GivenIff(v: seq<Names>, which: Which, a: string)
    ensures a in Given(v, which) <==> exists x :: x in v && x.Get(which) == Some(a)
  {
    if v != [] {
      var p, x := v[..|v| - 1], v[|v| - 1];
      assert v == p + [x];
      GivenIff(p, which, a);
      assert forall y :: y in v <==> y in p || y == x;
    }
  }

  lemma {:induction false} FieldIsGiven(v: seq<Names>, which: Which)
    ensures FoldField(v, which).Some? ==> FoldField(v, which).value in Given(v, which)
  {
    if v != [] {
      FieldIsGiven(v[..|v| - 1], which);
    }
  }

  /** Without contradiction the field is the value given for it, if any. */
  lemma {:induction false} FieldUnopposed(v: seq<Names>, which: Which)
    requires Unopposed(v, which)
    ensures FoldField(v, which) == None <==> Absent(v, which)
    ensures forall x | x in v :: Agree(x.Get(which), FoldField(v, which))
  {
    if v != [] {
      var p, x := v[..|v| - 1], v[|v| - 1];
      assert v == p + [x];
      assert forall y :: y in v <==> y in p || y == x;
      FieldUnopposed(p, which);
      FieldIsGiven(p, which);
      if FoldField(p, which).Some? { GivenIff(p, which, FoldField(p, which).value); }
    }
  }

  ghost predicate Distinct(v: seq<Names>, which: Which) {
    forall a :: Given(v, which)[a] <= 1
  }

  /** Different values cancel in pairs. */
  lemma {:induction false} FieldParity(v: seq<Names>, which: Which)
    requires Distinct(v, which)
    ensures FoldField(v, which) == None <==> |Given(v, which)| % 2 == 0
  {
    if v != [] {
      var p, x := v[..|v| - 1], v[|v| - 1];
      assert v == p + [x];
      Append(p, x, which);
      DistinctPrefix(p, x, which);
      FieldParity(p, which);
      FieldIsGiven(p, which);
      hide Given, FoldField, Distinct;
      if x.Get(which).Some? {
        assert FoldField(p, which) != x.Get(which);
        assert |Given(v, which)| == |Given(p, which)| + 1;
      } else {
        assert Given(v, which) == Given(p, which);
      }
    }
  }

  lemma DistinctPrefix(p: seq<Names>, x: Names, which: Which)
    requires Distinct(p + [x], which)
    ensures Distinct(p, which) && (x.Get(which).Some? ==> x.Get(which).value !in Given(p, which))
  {
    Append(p, x, which);
    hide Given;
    var before, after := Given(p, which), Given(p + [x], which);
    assert forall a :: before[a] <= after[a];
    if x.Get(which).Some? {
      assert after[x.Get(which).value] == before[x.Get(which).value] + 1;
    }
  }

  // ---------- reordering the values ----------

  lemma TakeOut(v: seq<Names>, i: nat) returns (rest: seq<Names>)
    requires i < |v|
    ensures Permutation(v, rest + [v[i]]) && Permutation(v, [v[i]] + rest) && |rest| == |v| - 1
  {
    rest := v[..i] + v[i + 1..];
    assert v == v[..i] + [v[i]] + v[i + 1..];
  }

  lemma {:induction false} SameGiven(v: seq<Names>, w: seq<Names>, which: Which)
    requires Permutation(v, w)
    ensures Given(v, which) == Given(w, which)
    decreases |v|
  {
    assert |v| == |multiset(v)| == |multiset(w)| == |w|;
    if v != [] {
      var p, x := v[..|v| - 1], v[|v| - 1];
      assert v == p + [x];
      assert x in multiset(w);
      var i :| 0 <= i < |w| && w[i] == x;
      var before, after := w[..i], w[i + 1..];
      assert w == before + ([x] + after);
      assert multiset(p) == multiset(v) - multiset{x} && multiset(before + after) == multiset(w) - multiset{x};
      SameGiven(p, before + after, which);
      GivenAround(before, x, after, which);
      Append(p, x, which);
    }
  }

  lemma GivenAround(before: seq<Names>, x: Names, after: seq<Names>, which: Which)
    ensures Given(before + ([x] + after), which)
         == Given(before + after, which) + (if x.Get(which).Some? then multiset{x.Get(which).value} else multiset{})
  {
    assert before + ([x] + after) == (before + [x]) + after;
    GivenConcat(before + [x], after, which);
    GivenConcat(before, after, which);
    Append(before, x, which);
    hide Given;
  }

  lemma {:induction false} GivenConcat(v: seq<Names>, w: seq<Names>, which: Which)
    ensures Given(v + w, which) == Given(v, which) + Given(w, which)
  {
    if w == [] {
      assert v + w == v;
    } else {
      var p, x := w[..|w| - 1], w[|w| - 1];
      assert v + w == (v + p) + [x];
      GivenConcat(v, p, which);
      Append(v + p, x, which);
    }
  }

  /** The node values with `a` can be moved to the end. */
  lemma MoveLast(v: seq<Names>, which: Which, a: string) returns (rest: seq<Names>, x: Names)
    requires a in Given(v, which)
    ensures x.Get(which) == Some(a) && Permutation(v, rest + [x])
    ensures Given(v, which) == Given(rest, which) + multiset{a}
  {
    GivenIff(v, which, a);
    x :| x in v && x.Get(which) == Some(a);
    var i :| 0 <= i < |v| && v[i] == x;
    rest := TakeOut(v, i);
    SameGiven(v, rest + [x], which);
    Append(rest, x, which);
  }

  lemma SamePresence(v: seq<Names>, w: seq<Names>)
    requires Permutation(v, w)
    ensures forall x :: x in v <==> x in w
    ensures |v| == |w|
  {
    assert |v| == |multiset(v)| == |multiset(w)| == |w|;
    assert forall x :: x in v <==> x in multiset(v);
    assert forall x :: x in w <==> x in multiset(w);
  }

  // ---------- the fate of an id ----------

  lemma {:induction false} KeptIsField(v: seq<Names>)
    ensures v != [] && !FoldFate(v).Dropped? ==>
      FoldFate(v) == Kept(Names(FoldField(v, Long), FoldField(v, Short)))
  {
    if v != [] {
      KeptIsField(v[..|v| - 1]);
    }
  }

  lemma {:induction false} DroppedStays(v: seq<Names>, w: seq<Names>)
    requires FoldFate(v).Dropped?
    ensures FoldFate(v + w).Dropped?
  {
    if w == [] {
      assert v + w == v;
    } else {
      var p, x := w[..|w| - 1], w[|w| - 1];
      assert v + w == (v + p) + [x];
      DroppedStays(v, p);
      Append(v + p, x, Long);
    }
  }

  /** While the other field has not shown up, this one must not be contradicted. */
  ghost predicate Guarded(v: seq<Names>, which: Which) {
    forall n | 0 <= n <= |v| :: Absent(v[..n], Other(which)) ==> Unopposed(v[..n], which)
  }

  lemma {:induction false} GuardedIsKept(v: seq<Names>, which: Which)
    requires Unopposed(v, Other(which)) && Guarded(v, which)
    ensures !FoldFate(v).Dropped?
  {
    if v != [] {
      var p, x := v[..|v| - 1], v[|v| - 1];
      assert v == p + [x] && v[..|v|] == v;
      assert forall n | 0 <= n <= |p| :: p[..n] == v[..n];
      assert forall y :: y in v <==> y in p || y == x;
      GuardedIsKept(p, which);
      KeptIsField(p);
      FieldUnopposed(p, Other(which));
      if Absent(v, Other(which)) {
        FieldUnopposed(p, which);
        FieldUnopposed(v, which);
      }
      FieldUnopposed(v, Other(which));
      FieldIsGiven(p, which);
      if FoldField(p, which).Some? { GivenIff(p, which, FoldField(p, which).value); }
      FieldIsGiven(p, Other(which));
      if FoldField(p, Other(which)).Some? { GivenIff(p, Other(which), FoldField(p, Other(which)).value); }
    }
  }

  /** Without the other field, a contradiction leaves nothing. */
  lemma {:induction false} BareIsDropped(v: seq<Names>, which: Which)
    requires Absent(v, Other(which)) && !Unopposed(v, which)
    ensures FoldFate(v).Dropped?
  {
    var p, x := v[..|v| - 1], v[|v| - 1];
    assert v == p + [x];
    assert forall y :: y in v <==> y in p || y == x;
    Append(p, x, which);
    hide FoldField, FoldFate;
    if !Unopposed(p, which) {
      BareIsDropped(p, which);
    } else {
      KeptIsField(p);
      FieldUnopposed(p, which);
      FieldUnopposed(p, Other(which));
    }
  }

  // ---------- exactly when one contradicted field does no harm ----------

  /** The value has this field and not the other. */
  predicate Lacks(x: Names, which: Which) {
    x.Get(which).Some? && x.Get(Other(which)) == None
  }

  /** An even number of different values, at most one of them without the other field. */
  ghost predicate Balanced(v: seq<Names>, which: Which) {
    && Distinct(v, which) && |Given(v, which)| % 2 == 0
    && forall x, y | x in v && y in v && Lacks(x, which) && Lacks(y, which) :: x == y
  }

  /** This field is not contradicted, or the other never occurs, or the contradictions balance. */
  ghost predicate Settled(v: seq<Names>, which: Which) {
    Unopposed(v, which) || Absent(v, Other(which)) || Balanced(v, which)
  }

  lemma SettledIsGuarded(v: seq<Names>, which: Which)
    requires Unopposed(v, which) || Balanced(v, which)
    ensures Guarded(v, which)
  {
    forall n | 0 <= n <= |v| && Absent(v[..n], Other(which)) ensures Unopposed(v[..n], which) {
      assert forall x | x in v[..n] :: x in v;
    }
  }

  lemma SettledReorders(v: seq<Names>, w: seq<Names>, which: Which)
    requires Permutation(v, w)
    ensures Unopposed(v, which) == Unopposed(w, which)
    ensures Absent(v, which) == Absent(w, which)
    ensures Balanced(v, which) == Balanced(w, which)
  {
    SamePresence(v, w);
    SameGiven(v, w, which);
  }

  /** An uncontradicted field is the same in every order. */
  lemma UnopposedIsFree(v: seq<Names>, w: seq<Names>, which: Which)
    requires Permutation(v, w) && Unopposed(v, which)
    ensures FoldField(v, which) == FoldField(w, which)
  {
    SettledReorders(v, w, which);
    FieldUnopposed(v, which);
    FieldUnopposed(w, which);
    FieldIsGiven(v, which);
    FieldIsGiven(w, which);
    SameGiven(v, w, which);
    if FoldField(v, which).Some? { GivenIff(w, which, FoldField(v, which).value); }
  }

  lemma SettledIsFree(v: seq<Names>, w: seq<Names>, which: Which)
    requires Permutation(v, w) && Unopposed(v, Other(which)) && Settled(v, which)
    ensures FoldFate(v) == FoldFate(w)
  {
    SamePresence(v, w);
    SettledReorders(v, w, which);
    SettledReorders(v, w, Other(which));
    if v == [] {
      assert w == [];
    } else if !Unopposed(v, which) && Absent(v, Other(which)) {
      BareIsDropped(v, which);
      BareIsDropped(w, which);
    } else {
      SettledIsGuarded(v, which);
      SettledIsGuarded(w, which);
      GuardedIsKept(v, which);
      GuardedIsKept(w, which);
      KeptIsField(v);
      KeptIsField(w);
      UnopposedIsFree(v, w, Other(which));
      if Unopposed(v, which) {
        UnopposedIsFree(v, w, which);
      } else {
        FieldParity(v, which);
        FieldParity(w, which);
      }
    }
  }

  /** If the contradicted field comes out the same in every order, its values differ and are even in number. */
  lemma FreeFieldIsEven(v: seq<Names>, which: Which)
    requires !Unopposed(v, which)
    requires forall w | Permutation(v, w) :: FoldField(w, which) == FoldField(v, which)
    ensures Distinct(v, which) && |Given(v, which)| % 2 == 0
  {
    var x, y :| x in v && y in v && !Agree(x.Get(which), y.Get(which));
    var a, b := x.Get(which).value, y.Get(which).value;
    GivenIff(v, which, a);
    GivenIff(v, which, b);
    if !Distinct(v, which) {
      var c :| Given(v, which)[c] > 1;
      var w := TwiceAtTheEnd(v, which, c);
      var w' := OnceAtTheEnd(v, which, if c == a then b else a);
    } else if |Given(v, which)| % 2 == 1 {
      var w := OddEndsWithLast(v, which, a);
      var w' := OddEndsWithLast(v, which, b);
    }
  }

  /** Two equal values at the end win. */
  lemma TwiceAtTheEnd(v: seq<Names>, which: Which, c: string) returns (w: seq<Names>)
    requires Given(v, which)[c] > 1
    ensures Permutation(v, w) && FoldField(w, which) == Some(c)
  {
    var rest, x := MoveLast(v, which, c);
    assert c in Given(rest, which);
    hide Given;
    var rest', y := MoveLast(rest, which, c);
    hide FoldField;
    w := rest' + [y] + [x];
    EndsWithTwo(rest', y, x, which, c);
    SameBefore(rest, rest' + [y], x);
  }

  lemma EndsWithTwo(p: seq<Names>, x: Names, y: Names, which: Which, c: string)
    requires x.Get(which) == Some(c) && y.Get(which) == Some(c)
    ensures FoldField(p + [x] + [y], which) == Some(c)
  {
    Append(p, x, which);
    Append(p + [x], y, which);
    hide Given, FoldField, FoldFate;
  }

  lemma SameBefore(v: seq<Names>, w: seq<Names>, x: Names)
    requires Permutation(v, w)
    ensures Permutation(v + [x], w + [x])
  {
  }

  /** A value at the end excludes every other value. */
  lemma OnceAtTheEnd(v: seq<Names>, which: Which, c: string) returns (w: seq<Names>)
    requires c in Given(v, which)
    ensures Permutation(v, w) && (FoldField(w, which) == Some(c) || FoldField(w, which) == None)
  {
    var rest, x := MoveLast(v, which, c);
    w := rest + [x];
    Append(rest, x, which);
  }

  lemma OddEndsWithLast(v: seq<Names>, which: Which, c: string) returns (w: seq<Names>)
    requires Distinct(v, which) && |Given(v, which)| % 2 == 1 && c in Given(v, which)
    ensures Permutation(v, w) && FoldField(w, which) == Some(c)
  {
    var rest, x := MoveLast(v, which, c);
    w := rest + [x];
    SameGiven(v, rest + [x], which);
    hide Given, FoldField, FoldFate;
    DistinctPrefix(rest, x, which);
    FieldParity(rest, which);
    Append(rest, x, which);
  }

  /** Putting a value first that has the other field keeps the id. */
  lemma SomeOrderKeeps(v: seq<Names>, which: Which) returns (w: seq<Names>)
    requires Unopposed(v, Other(which)) && !Absent(v, Other(which))
    ensures Permutation(v, w) && w != [] && !FoldFate(w).Dropped?
  {
    var z :| z in v && z.Get(Other(which)) != None;
    var i :| 0 <= i < |v| && v[i] == z;
    var rest := TakeOut(v, i);
    w := [z] + rest;
    SamePresence(v, w);
    forall n | 0 < n <= |w| ensures !Absent(w[..n], Other(which)) {
      assert w[..n][0] == z && z in w[..n];
    }
    GuardedIsKept(w, which);
  }

  /** Putting two contradicting values first that both lack the other field drops the id. */
  lemma SomeOrderDrops(v: seq<Names>, which: Which, x: Names, y: Names) returns (w: seq<Names>)
    requires x in v && y in v && x != y && Lacks(x, which) && Lacks(y, which)
    ensures Permutation(v, w) && FoldFate(w).Dropped?
  {
    var i :| 0 <= i < |v| && v[i] == x;
    var rest := TakeOut(v, i);
    SamePresence(v, [x] + rest);
    assert y in rest;
    var j :| 0 <= j < |rest| && rest[j] == y;
    var rest' := TakeOut(rest, j);
    w := [x, y] + rest';
    assert w == [x] + ([y] + rest');
    assert x in [x, y] && y in [x, y];
    BareIsDropped([x, y], which);
    DroppedStays([x, y], rest');
  }

  lemma FreeIsSettled(v: seq<Names>, which: Which)
    requires Unopposed(v, Other(which)) && Free(v)
    ensures Settled(v, which)
  {
    if !Unopposed(v, which) && !Absent(v, Other(which)) {
      var kept := SomeOrderKeeps(v, which);
      assert !FoldFate(v).Dropped?;
      forall w | Permutation(v, w) ensures FoldField(w, which) == FoldField(v, which) {
        SamePresence(v, w);
        KeptIsField(v);
        KeptIsField(w);
      }
      FreeFieldIsEven(v, which);
      forall x, y | x in v && y in v && Lacks(x, which) && Lacks(y, which) ensures x == y {
        if x != y {
          var dropped := SomeOrderDrops(v, which, x, y);
        }
      }
    }
  }

  /** An id contradicted in both fields can only come out the same in every order by being skipped. */
  lemma TwiceOpposedIsDropped(v: seq<Names>)
    requires !Unopposed(v, Long) && !Unopposed(v, Short) && Free(v)
    ensures FoldFate(v).Dropped?
  {
    if !FoldFate(v).Dropped? {
      forall w | Permutation(v, w)
        ensures FoldField(w, Long) == FoldField(v, Long) && FoldField(w, Short) == FoldField(v, Short)
      {
        SamePresence(v, w);
        KeptIsField(v);
        KeptIsField(w);
      }
      FreeFieldIsEven(v, Long);
      FreeFieldIsEven(v, Short);
      var x, y :| x in v && y in v && !Agree(x.long, y.long);
      GivenIff(v, Long, x.long.value);
      var w := EvenValuesDrop(v, x.long.value);
    }
  }

  /** When the values of both fields cancel, the last one leaves nothing. */
  lemma EvenValuesDrop(v: seq<Names>, c: string) returns (w: seq<Names>)
    requires Distinct(v, Long) && |Given(v, Long)| % 2 == 0 && Distinct(v, Short) && |Given(v, Short)| % 2 == 0
    requires c in Given(v, Long)
    ensures Permutation(v, w) && FoldFate(w).Dropped?
  {
    var rest, z := MoveLast(v, Long, c);
    w := rest + [z];
    SameGiven(v, w, Long);
    SameGiven(v, w, Short);
    FieldParity(w, Long);
    FieldParity(w, Short);
    DistinctPrefix(rest, z, Long);
    FieldParity(rest, Long);
    FieldIsGiven(rest, Long);
    KeptIsField(rest);
    Append(rest, z, Long);
    Append(rest, z, Short);
    hide Given, FoldField, FoldFate, Distinct, Permutation;
    assert FoldField(rest, Long).Some? && FoldField(rest, Long) != z.long;
  }

  // ---------- whole snapshots ----------

  /** A field that is not contradicted is reported exactly, whatever happens to the other field,
      and an id is skipped only if some field is contradicted. */
  lemma UnopposedIsExact(nodes: seq<Node>, id: string, which: Which)
    requires Carried(nodes, id) && Unopposed(ValuesOf(nodes, id), which)
    ensures var c := Collect(nodes);
            var v := ValuesOf(nodes, id);
      && (id in c.state ==> forall a :: c.state[id].Get(which) == Some(a) <==> a in Given(v, which))
      && (Unopposed(v, Other(which)) ==> id in c.state)
  {
    var v := ValuesOf(nodes, id);
    FatesAreIndependent(nodes, id);
    CollectAccounts(nodes);
    KeptIsField(v);
    FieldUnopposed(v, which);
    FieldIsGiven(v, which);
    forall a { GivenIff(v, which, a); }
    if Unopposed(v, Other(which)) {
      SettledIsGuarded(v, which);
      GuardedIsKept(v, which);
    }
  }

  ghost predicate OrderFree(a: seq<Node>) {
    forall b | Reordering(a, b) :: Collect(a).state == Collect(b).state
  }

  /** Any order of the values of one id comes from an order of the nodes. */
  lemma {:induction false} Arrange(a: seq<Node>, id: string, w: seq<Names>) returns (b: seq<Node>)
    requires Permutation(ValuesOf(a, id), w)
    ensures Reordering(a, b) && ValuesOf(b, id) == w
    decreases |w|
  {
    SamePresence(ValuesOf(a, id), w);
    if w == [] {
      b := a;
    } else {
      var p, x := w[..|w| - 1], w[|w| - 1];
      assert w == p + [x];
      var rest, n := TakeOutNode(a, id, x);
      hide ValuesOf;
      CancelLast(ValuesOf(a, id), ValuesOf(rest, id), p, x);
      var before := Arrange(rest, id, p);
      b := before + [n];
      ValuesOfConcat(before, [n], id);
      SameNodesBefore(rest, before, n);
    }
  }

  lemma CancelLast(v: seq<Names>, q: seq<Names>, p: seq<Names>, x: Names)
    requires multiset(v) == multiset(q) + multiset{x} && Permutation(v, p + [x])
    ensures Permutation(q, p)
  {
    assert multiset(p) == multiset(p + [x]) - multiset{x};
    assert multiset(q) == multiset(v) - multiset{x};
  }

  lemma SameNodesBefore(a: seq<Node>, b: seq<Node>, n: Node)
    requires Reordering(a, b)
    ensures Reordering(a + [n], b + [n])
  {
  }

  lemma TakeOutNode(a: seq<Node>, id: string, x: Names) returns (rest: seq<Node>, n: Node)
    requires x in ValuesOf(a, id)
    ensures Reordering(a, rest + [n]) && ValuesOf([n], id) == [x]
    ensures multiset(ValuesOf(a, id)) == multiset(ValuesOf(rest, id)) + multiset{x}
  {
    var j := Source(a, id, x);
    rest, n := a[..j] + a[j + 1..], a[j];
    OneValue(n, id);
    hide ValuesOf;
    RemoveAt(a, j);
    ValuesWithout(a, j, id);
    assert multiset(rest + [n]) == multiset(rest) + multiset{n};
  }

  lemma OneValue(n: Node, id: string)
    requires n.Usable() && n.id == id
    ensures ValuesOf([n], id) == [NamesOf(n)]
  {
    assert [n][..0] == [] && ValuesOf([], id) == [];
  }

  lemma {:induction false} Source(a: seq<Node>, id: string, x: Names) returns (j: nat)
    requires x in ValuesOf(a, id)
    ensures j < |a| && a[j].Usable() && a[j].id == id && NamesOf(a[j]) == x
  {
    var last := |a| - 1;
    if a[last].Usable() && a[last].id == id && NamesOf(a[last]) == x {
      j := last;
    } else {
      j := Source(a[..last], id, x);
    }
  }

  ghost predicate AllFree(a: seq<Node>) {
    forall id :: Free(ValuesOf(a, id))
  }

  /** A snapshot is collected alike in every order exactly when each of its ids is. */
  lemma OrderFreeByIds(a: seq<Node>)
    ensures OrderFree(a) <==> AllFree(a)
  {
    hide FoldFate, Collect;
    if OrderFree(a) {
      forall id ensures Free(ValuesOf(a, id)) { OrderFreeId(a, id); }
    }
    if AllFree(a) {
      forall b | Reordering(a, b) ensures Collect(a).state == Collect(b).state { AllFreeReorders(a, b); }
    }
  }

  lemma AllFreeReorders(a: seq<Node>, b: seq<Node>)
    requires AllFree(a) && Reordering(a, b)
    ensures Collect(a).state == Collect(b).state
  {
    hide ValuesOf, FoldFate, Collect;
    forall id ensures FateOf(Collect(a), id) == FateOf(Collect(b), id) {
      FatesAreIndependent(a, id);
      FatesAreIndependent(b, id);
      ReorderingKeepsValues(a, b, id);
      assert Free(ValuesOf(a, id));
    }
    StateFromFates(a, b);
  }

  lemma OrderFreeId(a: seq<Node>, id: string)
    requires OrderFree(a)
    ensures Free(ValuesOf(a, id))
  {
    hide ValuesOf, FoldFate, Collect;
    forall w | Permutation(ValuesOf(a, id), w) ensures FoldFate(w) == FoldFate(ValuesOf(a, id)) {
      var b := Arrange(a, id, w);
      FatesAreIndependent(a, id);
      FatesAreIndependent(b, id);
      FlagAndIdsIgnoreOrder(a, b);
      CollectAccounts(a);
      CollectAccounts(b);
    }
  }

  /** The condition for values that are contradicted in one field at most. */
  ghost predicate OnceSettled(v: seq<Names>) {
    if Unopposed(v, Short) then Settled(v, Long) else Settled(v, Short)
  }

  lemma FreeIffSettled(v: seq<Names>)
    requires Unopposed(v, Long) || Unopposed(v, Short)
    ensures Free(v) <==> OnceSettled(v)
  {
    var which := if Unopposed(v, Short) then Long else Short;
    assert Unopposed(v, Other(which));
    hide Settled, Unopposed;
    if Free(v) { FreeIsSettled(v, which); }
    if Settled(v, which) {
      forall w | Permutation(v, w) ensures FoldFate(w) == FoldFate(v) { SettledIsFree(v, w, which); }
    }
  }

  /** An id contradicted in both fields must be skipped, in every order. */
  lemma TwiceContradictedIsSkipped(a: seq<Node>, b: seq<Node>, id: string)
    requires OrderFree(a) && Reordering(a, b)
    requires !Unopposed(ValuesOf(a, id), Long) && !Unopposed(ValuesOf(a, id), Short)
    ensures id in Collect(b).skipped
  {
    OrderFreeByIds(a);
    assert Free(ValuesOf(a, id));
    TwiceOpposedIsDropped(ValuesOf(a, id));
    ReorderingKeepsValues(a, b, id);
    FatesAreIndependent(b, id);
  }
}
