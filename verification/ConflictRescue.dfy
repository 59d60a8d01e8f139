/**
 How to order the values of an id that is contradicted in both fields so that the id is kept: the
 full values, those with a long name only and those with a short name only are taken in turn.
 Whatever cannot be kept in one of these ways is doomed.
 */
module ConflictRescue {
  import opened Wrappers
  import opened NodeNames
  import opened SnapshotCollector
  import opened OrderDependence
  import opened ConflictOrders

  /** Both values, twice if they are equal. */
  ghost predicate Both(x: Names, y: Names, values: multiset<Names>) {
    x in values && y in values - multiset{x}
  }

  lemma Without(values: multiset<Names>, x: Names)
    requires x in values
    ensures values == multiset{x} + (values - multiset{x}) && |values - multiset{x}| == |values| - 1
  {
  }

  lemma ApartWithout(name: Name, values: multiset<Names>, which: Which, x: Names)
    requires x in values && Apart(name, values, which)
    ensures Apart(name, values - multiset{x}, which) && Apart(x.Get(which), values - multiset{x}, which)
  {
    var rest := values - multiset{x};
    assert forall y | y in rest :: y in values && rest[y] == 1 && y != x;
  }

  /** What a field is after different values. */
  lemma ReachParity(z: Names, values: multiset<Names>, n: Names, which: Which)
    requires Reach(z, values, n) && Apart(z.Get(which), values, which)
    ensures n.Get(which) == None <==> (|values| + Occupied(z.Get(which))) % 2 == 0
  {
    var w :| multiset(w) == values && Run(z, w) == Kept(n);
    assert |w| == |multiset(w)|;
    KeptFields(z, w, which);
    Parity(z.Get(which), w, which);
  }

  // ---------- no full value ----------

  lemma Alternate(a: multiset<Names>, b: multiset<Names>, which: Which, name: Name)
    requires Only(a, which) && Only(b, Other(which)) && a != multiset{}
    requires name.Some? && FieldReach(None, b, Other(which), name)
    ensures Lives(BLANK, a + b)
  {
    var x :| x in a;
    var rest := a - multiset{x};
    HoldLives(Set(x, Other(which), name), rest, Other(which));
    HoldThen(x, b, which, name, rest);
    Step(BLANK, x, x, b + rest);
    assert multiset{x} + (b + rest) == a + b;
  }

  lemma NoFull(l: multiset<Names>, s: multiset<Names>)
    requires Only(l, Long) && Only(s, Short) && l != multiset{} && s != multiset{}
    ensures Lives(BLANK, l + s)
         || (Apart(None, l, Long) && |l| % 2 == 0 && Apart(None, s, Short) && |s| % 2 == 0)
  {
    var name := CanFill(None, s, Short);
    var name' := CanFill(None, l, Long);
    if name.Some? && FieldReach(None, s, Short, name) {
      Alternate(l, s, Long, name);
    } else if name'.Some? && FieldReach(None, l, Long, name') {
      Alternate(s, l, Short, name');
      assert s + l == l + s;
    }
  }

  // ---------- full values only ----------

  /** Two that share one name exactly leave one field empty. */
  lemma SharedName(f: multiset<Names>, x: Names, y: Names, which: Which)
    requires AllFull(f) && Both(x, y, f) && x.Get(which) == y.Get(which) && x.Get(Other(which)) != y.Get(Other(which))
    ensures Lives(BLANK, f)
  {
    hide Lives, Reach;
    var rest := f - multiset{x} - multiset{y};
    Part(f, rest);
    assert y in f && Full(x) && Full(y);
    hide AllFull;
    Greedy(Set(x, Other(which), None), rest, which);
    Step(x, y, Set(x, Other(which), None), rest);
    Step(BLANK, x, x, multiset{y} + rest);
    TwoBack(f, x, y);
  }

  // ---------- full values, and values with the other field only ----------

  lemma EmptyOther(f: multiset<Names>, s: multiset<Names>, which: Which, x: Names)
    requires AllFull(f) && Only(s, Other(which)) && x in f
    requires FieldReach(x.Get(Other(which)), s, Other(which), None)
    ensures Lives(BLANK, f + s)
  {
    var rest := f - multiset{x};
    Greedy(Set(x, Other(which), None), rest, which);
    HoldThen(x, s, which, None, rest);
    Step(BLANK, x, x, s + rest);
    assert multiset{x} + (s + rest) == f + s;
  }

  /** Equal values are absorbed one by one. */
  lemma Absorb(z: Names, s: multiset<Names>, which: Which)
    requires z.Get(which).Some? && Only(s, which) && forall x | x in s :: x.Get(which) == z.Get(which)
    ensures Reach(z, s, z)
  {
    var w := Listing(s);
    Unchanged(z.Get(Other(which)), w, Other(which));
    Hold(z, s, which, z.Get(Other(which)));
  }

  lemma {:induction false} Unchanged(name: Name, w: seq<Names>, which: Which)
    requires forall x | x in multiset(w) :: x.Get(which) == None
    ensures FieldRun(name, w, which) == name
    decreases |w|
  {
    if w != [] {
      assert w == [w[0]] + w[1..];
      assert w[0] in multiset(w);
      Unchanged(name, w[1..], which);
    }
  }

  lemma ConstantFirst(f: multiset<Names>, s: multiset<Names>, which: Which, x: Names, y: Names)
    requires AllFull(f) && Only(s, Other(which)) && Constant(s) && x in f && y in s
    requires x.Get(Other(which)) != y.Get(Other(which))
    ensures Lives(BLANK, f + s)
  {
    hide Lives, Reach, FieldReach;
    var rest := f - multiset{x};
    var n := Set(x, Other(which), None);
    Greedy(n, rest, which);
    Step(y, x, n, rest);
    Absorb(y, s - multiset{y}, Other(which));
    Then(y, s - multiset{y}, y, multiset{x} + rest);
    Step(BLANK, y, y, (s - multiset{y}) + (multiset{x} + rest));
    assert multiset{y} + ((s - multiset{y}) + (multiset{x} + rest)) == f + s;
  }

  /** Different values, an even number of them, and none the name of a full value. */
  ghost predicate Crowd(s: multiset<Names>, which: Which, x: Names) {
    Only(s, which) && Apart(x.Get(which), s, which) && |s| % 2 == 0 && |s| >= 2
  }

  lemma CrowdCancels(s: multiset<Names>, which: Which, x: Names)
    requires Crowd(s, which, x)
    ensures FieldReach(None, s, which, None)
  {
    var result := ParityReach(None, s, which);
  }

  lemma CrowdMember(s: multiset<Names>, which: Which, x: Names, y: Names)
    requires Crowd(s, which, x) && y in s
    ensures Lacks(y, which) && y.Get(which) != x.Get(which)
  {
  }

  /** All but one of a crowd cancel against the name. */
  lemma CrowdEmpties(s: multiset<Names>, which: Which, x: Names, y: Names)
    requires Crowd(s, which, x) && y in s
    ensures FieldReach(x.Get(which), s - multiset{y}, which, if x.Get(which).Some? then None else FieldRun(None, [y], which))
         || x.Get(which) == None
  {
    ApartWithout(x.Get(which), s, which, y);
    Without(s, y);
    var result := ParityReach(x.Get(which), s - multiset{y}, which);
  }

  lemma SameHeld(f: multiset<Names>, s: multiset<Names>, which: Which, x: Names, y: Names)
    requires AllFull(f) && Both(x, y, f) && x.Get(which) == y.Get(which)
    requires Crowd(s, Other(which), x) && Crowd(s, Other(which), y)
    ensures Lives(BLANK, f + s)
  {
    hide Lives, Reach, FieldReach, Apart;
    var other := Other(which);
    var rest, n := f - multiset{x} - multiset{y}, Set(x, other, None);
    assert y.Get(other) != None && forall v | v in rest :: v in f;
    Greedy(n, rest, which);
    if x.Get(other) != y.Get(other) {
      CrowdCancels(s, other, x);
      HoldThen(n, s, which, None, rest);
      Step(x, y, n, s + rest);
      Step(BLANK, x, x, multiset{y} + (s + rest));
      assert multiset{x} + (multiset{y} + (s + rest)) == f + s;
    } else {
      var c :| c in s;
      CrowdMember(s, other, x, c);
      CrowdEmpties(s, other, x, c);
      HoldThen(x, s - multiset{c}, which, None, rest);
      Step(n, y, x, (s - multiset{c}) + rest);
      Step(x, c, n, multiset{y} + ((s - multiset{c}) + rest));
      Step(BLANK, x, x, multiset{c} + (multiset{y} + ((s - multiset{c}) + rest)));
      assert multiset{x} + (multiset{c} + (multiset{y} + ((s - multiset{c}) + rest))) == f + s;
    }
  }

  /** After different full values, an even number of them, the held field is held by another
      name, and values of the other field only may follow. */
  lemma HeldAgain(z: Names, f: multiset<Names>, s: multiset<Names>, which: Which)
    requires z.Get(which).Some? && z.Get(Other(which)) == None
    requires AllFull(f) && Apart(z.Get(which), f, which) && |f| % 2 == 0 && Only(s, Other(which))
    ensures Lives(z, f + s)
  {
    Greedy(z, f, which);
    var k :| Reach(z, f, k);
    ReachParity(z, f, k, which);
    hide Reach, FieldReach, Apart;
    HoldLives(k, s, which);
    Then(z, f, k, s);
  }

  lemma OddFull(f: multiset<Names>, s: multiset<Names>, which: Which, x: Names)
    requires AllFull(f) && x in f && Apart(None, f, which) && |f| % 2 == 1 && Crowd(s, Other(which), x)
    ensures Lives(BLANK, f + s)
  {
    hide Lives, Reach, FieldReach;
    var other := Other(which);
    var rest, n := f - multiset{x}, Set(x, other, None);
    var c :| c in s;
    var s' := s - multiset{c};
    CrowdMember(s, other, x, c);
    ApartWithout(None, f, which, x);
    Without(f, x);
    hide Apart;
    HeldAgain(n, rest, s', which);
    Step(x, c, n, rest + s');
    Step(BLANK, x, x, multiset{c} + (rest + s'));
    assert multiset{x} + (multiset{c} + (rest + s')) == f + s;
  }

  /** Two full values that fork, and a third one. */
  lemma ForkAndMore(f: multiset<Names>, s: multiset<Names>, which: Which, x: Names, y: Names, h: Names)
    requires AllFull(f) && Both(x, y, f) && h in f - multiset{x} - multiset{y}
    requires x.Get(which) != y.Get(which) && x.Get(Other(which)) == y.Get(Other(which))
    requires Crowd(s, Other(which), x) && Crowd(s, Other(which), h)
    ensures Lives(BLANK, f + s)
  {
    hide Lives, Reach, FieldReach, Apart;
    var other := Other(which);
    var rest := f - multiset{x} - multiset{y} - multiset{h};
    assert h in f && Full(h) && forall v | v in rest :: v in f;
    var n := Set(h, other, None);
    Greedy(n, rest, which);
    if h.Get(other) != x.Get(other) {
      CrowdCancels(s, other, x);
      HoldThen(n, s, which, None, rest);
      Step(Set(x, which, None), h, n, s + rest);
      Step(x, y, Set(x, which, None), multiset{h} + (s + rest));
      Step(BLANK, x, x, multiset{y} + (multiset{h} + (s + rest)));
      assert multiset{x} + (multiset{y} + (multiset{h} + (s + rest))) == f + s;
    } else {
      var c :| c in s;
      var s' := s - multiset{c};
      CrowdMember(s, other, x, c);
      CrowdEmpties(s, other, h, c);
      HoldThen(h, s', which, None, rest);
      Step(Set(x, which, None), h, h, s' + rest);
      Step(Set(x, other, None), y, Set(x, which, None), multiset{h} + (s' + rest));
      Step(x, c, Set(x, other, None), multiset{y} + (multiset{h} + (s' + rest)));
      Step(BLANK, x, x, multiset{c} + (multiset{y} + (multiset{h} + (s' + rest))));
      assert multiset{x} + (multiset{c} + (multiset{y} + (multiset{h} + (s' + rest)))) == f + s;
    }
  }

  /** Different long and different short names, an even number of each. */
  ghost predicate Even(f: multiset<Names>, l: multiset<Names>, s: multiset<Names>) {
    Apart(None, f + l, Long) && |f + l| % 2 == 0 && Apart(None, f + s, Short) && |f + s| % 2 == 0
  }

  /** Two full values that share the other field, and a crowd of different values for it. */
  ghost predicate Fork(f: multiset<Names>, s: multiset<Names>, which: Which) {
    exists x, y ::
      && f == multiset{x, y} && x.Get(which) != y.Get(which) && x.Get(Other(which)) == y.Get(Other(which))
      && Crowd(s, Other(which), x)
  }

  lemma DifferentNames(f: multiset<Names>, which: Which) returns (x: Names, y: Names)
    requires AllFull(f) && !Apart(None, f, which)
    ensures Both(x, y, f) && x.Get(which) == y.Get(which)
  {
    if r :| r in f && f[r] >= 2 {
      x, y := r, r;
    } else {
      x, y :| x in f && y in f && x != y && x.Get(which) == y.Get(which);
    }
  }

  lemma ApartUnion(f: multiset<Names>, s: multiset<Names>, which: Which)
    requires Apart(None, f, which) && Apart(None, s, which)
    requires forall x | x in f :: Apart(x.Get(which), s, which)
    ensures Apart(None, f + s, which)
  {
    assert forall x, y | x in f && y in s :: x.Get(which) != y.Get(which) by {
      forall x, y | x in f && y in s ensures x.Get(which) != y.Get(which) {
        assert Apart(x.Get(which), s, which);
      }
    }
    forall x | x in f + s ensures x.Get(which).Some? && (f + s)[x] == 1 {}
  }

  lemma FullAndOthers(f: multiset<Names>, s: multiset<Names>, which: Which)
    requires AllFull(f) && Only(s, Other(which)) && s != multiset{}
    requires exists x, y :: x in f && y in f && x.Get(which) != y.Get(which)
    requires exists x, y :: x in f + s && y in f + s && x.Get(Other(which)) != y.Get(Other(which))
    ensures || Lives(BLANK, f + s) || Fork(f, s, which)
            || (Apart(None, f, which) && |f| % 2 == 0 && Apart(None, f + s, Other(which)) && |f + s| % 2 == 0)
  {
    var other := Other(which);
    if Constant(s) {
      var c :| c in s;
      var x :| x in f && x.Get(other) != c.Get(other);
      ConstantFirst(f, s, which, x, c);
    } else if x :| x in f && FieldReach(x.Get(other), s, other, None) {
      EmptyOther(f, s, which, x);
    } else {
      forall x | x in f ensures Crowd(s, other, x) {
        CanEmpty(x.Get(other), s, other);
        ManyValues(s);
      }
      AllCrowded(f, s, which);
    }
  }

  lemma ManyValues(s: multiset<Names>)
    requires !Constant(s)
    ensures |s| >= 2
  {
    var x, y :| x in s && y in s && x != y;
    assert s == multiset{x, y} + (s - multiset{x, y});
  }

  lemma AllCrowded(f: multiset<Names>, s: multiset<Names>, which: Which)
    requires AllFull(f) && (forall x | x in f :: Crowd(s, Other(which), x))
    requires exists x, y :: x in f && y in f && x.Get(which) != y.Get(which)
    ensures || Lives(BLANK, f + s) || Fork(f, s, which)
            || (Apart(None, f, which) && |f| % 2 == 0 && Apart(None, f + s, Other(which)) && |f + s| % 2 == 0)
  {
    hide Lives, FieldReach;
    var other := Other(which);
    var any :| any in f;
    assert Crowd(s, other, any);
    assert Apart(None, s, other);
    if !Apart(None, f, which) {
      var x, y := DifferentNames(f, which);
      SameHeld(f, s, which, x, y);
    } else if |f| % 2 == 1 {
      OddFull(f, s, which, any);
    } else if Apart(None, f, other) {
      ApartUnion(f, s, other);
    } else {
      ForkOrMore(f, s, which);
    }
  }

  lemma ForkOrMore(f: multiset<Names>, s: multiset<Names>, which: Which)
    requires AllFull(f) && (forall x | x in f :: Crowd(s, Other(which), x))
    requires Apart(None, f, which) && !Apart(None, f, Other(which))
    ensures Lives(BLANK, f + s) || Fork(f, s, which)
  {
    var x, y := DifferentNames(f, Other(which));
    assert f[x] == 1 && x != y && y in f && x.Get(which) != y.Get(which);
    assert Crowd(s, Other(which), x);
    hide Lives, Apart;
    if f == multiset{x, y} {
      hide Crowd;
      assert Fork(f, s, which);
    } else {
      var h := Third(f, x, y);
      assert Crowd(s, Other(which), h);
      hide Crowd;
      ForkAndMore(f, s, which, x, y, h);
    }
  }

  lemma Third(f: multiset<Names>, x: Names, y: Names) returns (h: Names)
    requires Both(x, y, f) && f != multiset{x, y}
    ensures h in f - multiset{x} - multiset{y} && h in f
  {
    assert f == multiset{x} + multiset{y} + (f - multiset{x} - multiset{y});
    h :| h in f - multiset{x} - multiset{y};
  }
}
