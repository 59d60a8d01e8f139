/**
 Keeping an id contradicted in both fields when all three kinds of values occur: full ones, ones
 with a long name only, and ones with a short name only.
 */
module ConflictKinds {
  import opened Wrappers
  import opened NodeNames
  import opened SnapshotCollector
  import opened OrderDependence
  import opened ConflictOrders
  import opened ConflictRescue

  lemma FillThenEmpty(f: multiset<Names>, a: multiset<Names>, b: multiset<Names>, which: Which, x: Names, name: Name)
    requires AllFull(f) && Only(a, which) && Only(b, Other(which)) && x in f && name.Some?
    requires FieldReach(x.Get(which), a, which, name) && FieldReach(x.Get(Other(which)), b, Other(which), None)
    ensures Lives(BLANK, f + a + b)
  {
    hide Lives, Reach, FieldReach;
    var rest, n := f - multiset{x}, Set(x, which, name);
    Greedy(Set(n, Other(which), None), rest, which);
    HoldThen(n, b, which, None, rest);
    HoldThen(x, a, Other(which), name, b + rest);
    Step(BLANK, x, x, a + (b + rest));
    assert multiset{x} + (a + (b + rest)) == f + a + b;
  }

  /** Different values, an odd number of them: with the name of `x` they always cancel. */
  ghost predicate Cancelling(values: multiset<Names>, which: Which, x: Names) {
    Apart(x.Get(which), values, which) && |values| % 2 == 1
  }

  /** With the name of `x` the values never cancel. */
  ghost predicate Lasting(values: multiset<Names>, which: Which, x: Names) {
    || (Constant(values) && (|values| >= 2 || exists y :: y in values && y.Get(which) == x.Get(which)))
    || (Apart(x.Get(which), values, which) && |values| % 2 == 0)
  }

  /** With the name of `x` the values can fill the field, or empty it, or both. */
  lemma FillOrEmpty(values: multiset<Names>, which: Which, x: Names) returns (name: Name)
    requires Only(values, which) && values != multiset{} && x.Get(which).Some?
    ensures || (name.Some? && FieldReach(x.Get(which), values, which, name))
            || (Cancelling(values, which, x) && FieldReach(x.Get(which), values, which, None))
    ensures FieldReach(x.Get(which), values, which, None) || Lasting(values, which, x)
  {
    name := CanFill(x.Get(which), values, which);
    CanEmpty(x.Get(which), values, which);
    if Cancelling(values, which, x) { var result := ParityReach(x.Get(which), values, which); }
  }

  lemma Classify(f: multiset<Names>, l: multiset<Names>, s: multiset<Names>, x: Names)
    requires AllFull(f) && Only(l, Long) && Only(s, Short) && l != multiset{} && s != multiset{} && x in f
    ensures || Lives(BLANK, f + l + s)
            || (Cancelling(l, Long, x) && Cancelling(s, Short, x))
            || (Lasting(l, Long, x) && Lasting(s, Short, x))
  {
    var name := FillOrEmpty(l, Long, x);
    var name' := FillOrEmpty(s, Short, x);
    hide Lives, FieldReach, Cancelling, Lasting;
    if name.Some? && FieldReach(x.long, l, Long, name) && FieldReach(x.short, s, Short, None) {
      FillThenEmpty(f, l, s, Long, x, name);
    } else if name'.Some? && FieldReach(x.short, s, Short, name') && FieldReach(x.long, l, Long, None) {
      FillThenEmpty(f, s, l, Short, x, name');
      assert f + s + l == f + l + s;
    }
  }

  // ---------- every full value cancels with the others ----------

  lemma SameNameSchedule(rest: multiset<Names>, a: multiset<Names>, b: multiset<Names>, which: Which, x: Names, y: Names)
    requires AllFull(rest) && Only(a, which) && Only(b, Other(which)) && Full(x) && Full(y) && x.Get(which) == y.Get(which)
    requires FieldReach(x.Get(Other(which)), b, Other(which), None) && FieldReach(y.Get(which), a, which, None)
    ensures Lives(BLANK, multiset{x} + (b + (multiset{y} + (a + rest))))
  {
    hide Lives, Reach, FieldReach, Apart, Only, AllFull;
    var other := Other(which);
    Greedy(Set(y, which, None), rest, other);
    HoldThen(y, a, other, None, rest);
    Step(Set(x, other, None), y, y, a + rest);
    HoldThen(x, b, which, None, multiset{y} + (a + rest));
    Step(BLANK, x, x, b + (multiset{y} + (a + rest)));
  }

  lemma SameNameCancels(f: multiset<Names>, a: multiset<Names>, b: multiset<Names>, which: Which, x: Names, y: Names)
    requires AllFull(f) && Only(a, which) && Only(b, Other(which))
    requires Both(x, y, f) && x.Get(which) == y.Get(which)
    requires Cancelling(b, Other(which), x) && Cancelling(a, which, y)
    ensures Lives(BLANK, f + a + b)
  {
    var none := ParityReach(x.Get(Other(which)), b, Other(which));
    var none' := ParityReach(y.Get(which), a, which);
    hide Lives, Reach, FieldReach, Apart, Only;
    var rest := f - multiset{x} - multiset{y};
    Part(f, rest);
    SameNameSchedule(rest, a, b, which, x, y);
    assert multiset{x} + (b + (multiset{y} + (a + rest))) == f + a + b;
  }

  lemma EvenFullSchedule(rest: multiset<Names>, l: multiset<Names>, s: multiset<Names>, x: Names, y: Names)
    requires AllFull(rest) && Only(l, Long) && Only(s, Short) && Full(x) && Full(y) && x.long != y.long
    requires Apart(y.short, rest, Short) && |rest| % 2 == 0 && FieldReach(x.short, s, Short, None)
    ensures Lives(BLANK, multiset{x} + (s + (multiset{y} + (rest + l))))
  {
    hide Lives, Reach, FieldReach, Apart, Only, AllFull;
    var n, k := Set(x, Short, None), Set(y, Long, None);
    HeldAgain(k, rest, l, Short);
    Step(n, y, k, rest + l);
    HoldThen(x, s, Long, None, multiset{y} + (rest + l));
    Step(BLANK, x, x, s + (multiset{y} + (rest + l)));
  }

  lemma ApartWithoutTwo(f: multiset<Names>, which: Which, x: Names, y: Names)
    requires Both(x, y, f) && Apart(None, f, which)
    ensures var rest := f - multiset{x} - multiset{y};
      Apart(y.Get(which), rest, which) && |rest| == |f| - 2 && x.Get(which) != y.Get(which)
  {
    ApartWithout(None, f, which, x);
    ApartWithout(None, f - multiset{x}, which, y);
    Without(f, x);
    Without(f - multiset{x}, y);
  }

  lemma EvenFullCancels(f: multiset<Names>, l: multiset<Names>, s: multiset<Names>, x: Names, y: Names)
    requires AllFull(f) && Only(l, Long) && Only(s, Short) && Both(x, y, f) && |f| % 2 == 0
    requires Apart(None, f, Long) && Apart(None, f, Short) && Cancelling(s, Short, x) && Full(x)
    ensures Lives(BLANK, f + l + s)
  {
    hide Lives, Reach, FieldReach, Apart, Only, Cancelling, AllFull;
    CancellingEmpties(s, Short, x);
    var rest := TwoOut(f, x, y);
    EvenFullSchedule(rest, l, s, x, y);
    TwoFirst(f, l, s, x, y);
  }

  lemma CancellingEmpties(values: multiset<Names>, which: Which, x: Names)
    requires Cancelling(values, which, x) && x.Get(which).Some?
    ensures FieldReach(x.Get(which), values, which, None)
  {
    var none := ParityReach(x.Get(which), values, which);
  }

  lemma TwoOut(f: multiset<Names>, x: Names, y: Names) returns (rest: multiset<Names>)
    requires AllFull(f) && Both(x, y, f) && |f| % 2 == 0 && Apart(None, f, Long) && Apart(None, f, Short)
    ensures rest == f - multiset{x} - multiset{y} && AllFull(rest) && |rest| % 2 == 0
    ensures Apart(y.short, rest, Short) && Full(x) && Full(y) && x.long != y.long
  {
    ApartWithoutTwo(f, Long, x, y);
    ApartWithoutTwo(f, Short, x, y);
    rest := f - multiset{x} - multiset{y};
    hide Apart;
    Part(f, rest);
    assert y in f;
    EvenRest(f, rest);
  }

  lemma EvenRest(f: multiset<Names>, rest: multiset<Names>)
    requires |f| % 2 == 0 && |rest| == |f| - 2
    ensures |rest| % 2 == 0
  {
  }

  lemma TwoFirst(f: multiset<Names>, l: multiset<Names>, s: multiset<Names>, x: Names, y: Names)
    requires Both(x, y, f)
    ensures multiset{x} + (s + (multiset{y} + (f - multiset{x} - multiset{y} + l))) == f + l + s
  {
  }

  lemma TwoOf(f: multiset<Names>) returns (x: Names, y: Names)
    requires f != multiset{} && |f| % 2 == 0
    ensures Both(x, y, f)
  {
    x :| x in f;
    Without(f, x);
    y :| y in f - multiset{x};
  }

  lemma AllCancelling(f: multiset<Names>, l: multiset<Names>, s: multiset<Names>)
    requires AllFull(f) && Only(l, Long) && Only(s, Short) && f != multiset{}
    requires forall x | x in f :: Cancelling(l, Long, x) && Cancelling(s, Short, x)
    ensures Lives(BLANK, f + l + s) || Even(f, l, s)
  {
    hide Lives, Only;
    if !Apart(None, f, Long) {
      var x, y := DifferentNames(f, Long);
      hide Apart, Cancelling;
      assert y in f;
      SameNameCancels(f, l, s, Long, x, y);
    } else if !Apart(None, f, Short) {
      var x, y := DifferentNames(f, Short);
      hide Apart, Cancelling;
      assert y in f;
      SameNameCancels(f, s, l, Short, x, y);
      assert f + s + l == f + l + s;
    } else {
      AllDifferentCancel(f, l, s);
    }
  }

  lemma AllDifferentCancel(f: multiset<Names>, l: multiset<Names>, s: multiset<Names>)
    requires AllFull(f) && Only(l, Long) && Only(s, Short) && f != multiset{}
    requires forall x | x in f :: Cancelling(l, Long, x) && Cancelling(s, Short, x)
    requires Apart(None, f, Long) && Apart(None, f, Short)
    ensures Lives(BLANK, f + l + s) || Even(f, l, s)
  {
    hide Lives, Only, Apart;
    if |f| % 2 == 0 {
      hide Cancelling;
      var x, y := TwoOf(f);
      assert Full(x);
      EvenFullCancels(f, l, s, x, y);
    } else {
      OddWithCancelling(f, l, Long);
      OddWithCancelling(f, s, Short);
    }
  }

  lemma OddWithCancelling(f: multiset<Names>, a: multiset<Names>, which: Which)
    requires f != multiset{} && Apart(None, f, which) && |f| % 2 == 1 && forall x | x in f :: Cancelling(a, which, x)
    ensures Apart(None, f + a, which) && |f + a| % 2 == 0
  {
    hide Apart;
    var any :| any in f;
    assert Cancelling(a, which, any);
    AllEven(f, a, which);
  }

  lemma AllEven(f: multiset<Names>, a: multiset<Names>, which: Which)
    requires f != multiset{} && Apart(None, f, which) && (|f| + |a|) % 2 == 0
    requires forall x | x in f :: Apart(x.Get(which), a, which)
    ensures Apart(None, f + a, which) && |f + a| % 2 == 0
  {
    var any :| any in f;
    assert Apart(any.Get(which), a, which);
    ApartUnion(f, a, which);
  }

  // ---------- some full value cancels, another does not ----------

  lemma Single(values: multiset<Names>, which: Which, x: Names, h: Names) returns (c: Names)
    requires values != multiset{} && Cancelling(values, which, x) && Lasting(values, which, h)
    ensures values == multiset{c} && c.Get(which) == h.Get(which) && c.Get(which) != x.Get(which)
  {
    c :| c in values;
    assert values[c] == 1 && Constant(values);
    assert forall d :: d !in values - multiset{c};
    assert values - multiset{c} == multiset{};
    assert values == multiset{c} + (values - multiset{c});
  }

  /** The values `c` and `q` have one name each, and `h` has both. */
  lemma Mixed(f: multiset<Names>, c: Names, q: Names, x: Names, h: Names)
    requires AllFull(f) && Lacks(c, Long) && Lacks(q, Short) && Both(x, h, f)
    requires h == Names(c.long, q.short)
    requires forall y | y in f :: y == h || (y.long != c.long && y.short != q.short)
    requires x != h
    ensures Lives(BLANK, f + multiset{c} + multiset{q})
  {
    hide Lives, Reach, FieldReach;
    var rest, n := f - multiset{x} - multiset{h}, Set(x, Long, None);
    assert h in f && forall v | v in rest :: v in f;
    if y :| y in rest && y != h {
      MixedMore(f, c, q, x, h, y);
    } else {
      HoldLives(c, multiset{q} + rest, Long);
      Step(n, h, c, multiset{q} + rest);
      Step(x, c, n, multiset{h} + (multiset{q} + rest));
      Step(BLANK, x, x, multiset{c} + (multiset{h} + (multiset{q} + rest)));
      assert multiset{x} + (multiset{c} + (multiset{h} + (multiset{q} + rest))) == f + multiset{c} + multiset{q};
    }
  }

  lemma MixedMore(f: multiset<Names>, c: Names, q: Names, x: Names, h: Names, y: Names)
    requires AllFull(f) && Lacks(c, Long) && Lacks(q, Short) && Both(x, h, f)
    requires h == Names(c.long, q.short) && y in f - multiset{x} - multiset{h}
    requires x.long != c.long && x.short != q.short && y.long != c.long && y.short != q.short
    ensures Lives(BLANK, f + multiset{c} + multiset{q})
  {
    hide Lives, Reach, FieldReach;
    var rest, n := f - multiset{x} - multiset{h} - multiset{y}, Set(x, Long, None);
    assert y in f && h in f && forall v | v in rest :: v in f;
    if y.short == x.short {
      Greedy(Set(y, Short, None), multiset{h} + rest, Long);
      Step(y, q, Set(y, Short, None), multiset{h} + rest);
      Step(n, y, y, multiset{q} + (multiset{h} + rest));
      Step(x, c, n, multiset{y} + (multiset{q} + (multiset{h} + rest)));
      Step(BLANK, x, x, multiset{c} + (multiset{y} + (multiset{q} + (multiset{h} + rest))));
      assert multiset{x} + (multiset{c} + (multiset{y} + (multiset{q} + (multiset{h} + rest))))
          == f + multiset{c} + multiset{q};
    } else {
      var k := Names(y.long, q.short);
      Greedy(q, rest, Short);
      Step(k, h, q, rest);
      Step(Set(y, Short, None), q, k, multiset{h} + rest);
      Step(n, y, Set(y, Short, None), multiset{q} + (multiset{h} + rest));
      Step(x, c, n, multiset{y} + (multiset{q} + (multiset{h} + rest)));
      Step(BLANK, x, x, multiset{c} + (multiset{y} + (multiset{q} + (multiset{h} + rest))));
      assert multiset{x} + (multiset{c} + (multiset{y} + (multiset{q} + (multiset{h} + rest))))
          == f + multiset{c} + multiset{q};
    }
  }

  lemma SomeCancelling(f: multiset<Names>, l: multiset<Names>, s: multiset<Names>, x: Names, h: Names)
    requires AllFull(f) && Only(l, Long) && Only(s, Short) && l != multiset{} && s != multiset{} && x in f && h in f
    requires forall y | y in f :: (Cancelling(l, Long, y) && Cancelling(s, Short, y)) || (Lasting(l, Long, y) && Lasting(s, Short, y))
    requires Cancelling(l, Long, x) && Cancelling(s, Short, x) && Lasting(l, Long, h) && Lasting(s, Short, h)
    ensures Lives(BLANK, f + l + s)
  {
    hide Lives;
    var c := Single(l, Long, x, h);
    var q := Single(s, Short, x, h);
    assert c in l && q in s;
    forall y | y in f ensures y == h || (y.long != c.long && y.short != q.short) {
      if Cancelling(l, Long, y) && Cancelling(s, Short, y) {
        assert Apart(y.long, l, Long) && Apart(y.short, s, Short);
      } else {
        var c' := Single(l, Long, x, y);
        var q' := Single(s, Short, x, y);
        assert multiset{c'}[c] == 1 && multiset{q'}[q] == 1;
      }
    }
    assert x != h && h in f - multiset{x};
    hide Cancelling, Lasting;
    Mixed(f, c, q, x, h);
  }

  // ---------- no full value cancels with the others ----------

  lemma ConstantSchedule(f: multiset<Names>, a: multiset<Names>, b: multiset<Names>, which: Which, c: Names)
    requires AllFull(f) && Only(a, which) && Only(b, Other(which)) && Lacks(c, which)
    requires (forall y | y in a :: y.Get(which) == c.Get(which)) && FieldReach(None, b, Other(which), None)
    ensures Lives(BLANK, multiset{c} + (a + (b + f)))
  {
    hide Lives, Reach, FieldReach, Only, AllFull;
    Greedy(c, f, which);
    HoldThen(c, b, which, None, f);
    Absorb(c, a, which);
    Then(c, a, c, b + f);
    Step(BLANK, c, c, a + (b + f));
  }

  lemma ConstantThenCrowd(f: multiset<Names>, a: multiset<Names>, b: multiset<Names>, which: Which)
    requires AllFull(f) && Only(a, which) && Only(b, Other(which)) && a != multiset{} && Constant(a)
    requires Apart(None, b, Other(which)) && |b| % 2 == 0
    ensures Lives(BLANK, f + a + b)
  {
    var none := ParityReach(None, b, Other(which));
    hide Lives, Reach, FieldReach, Apart;
    var c :| c in a;
    var rest := a - multiset{c};
    assert forall y | y in rest :: y in a && y == c;
    Part(a, rest);
    ConstantSchedule(f, rest, b, which, c);
    OneOut(f, a, b, c);
  }

  lemma OneOut(f: multiset<Names>, a: multiset<Names>, b: multiset<Names>, c: Names)
    requires c in a
    ensures multiset{c} + (a - multiset{c} + (b + f)) == f + a + b
  {
  }

  /** Equal values leave their name, if the field has it or is empty, or if there are at least two. */
  lemma ConstantReach(name: Name, values: multiset<Names>, which: Which, c: Names)
    requires Only(values, which) && Constant(values) && c in values
    requires name == None || name == c.Get(which) || |values| >= 2
    ensures FieldReach(name, values, which, c.Get(which))
  {
    if |values| >= 2 {
      var p := Listing(values - multiset{c, c});
      Without(values, c);
      var d :| d in values - multiset{c};
      assert values[c] >= 2;
      RepeatFills(name, values, which, p, c);
    } else {
      assert |values - multiset{c}| == 0;
      assert values == multiset{c} + (values - multiset{c});
      FieldOne(name, c, which);
      assert multiset([c]) == values;
    }
  }

  lemma TouchSchedule(rest: multiset<Names>, a: multiset<Names>, b: multiset<Names>, which: Which, c: Names, x: Names, name: Name)
    requires AllFull(rest) && Only(a, which) && Only(b, Other(which)) && Lacks(c, which) && Full(x)
    requires (forall y | y in a :: y.Get(which) == c.Get(which)) && name.Some? && FieldReach(None, b, Other(which), name)
    requires x.Get(which) == c.Get(which) && x.Get(Other(which)) != name
    ensures Lives(BLANK, multiset{c} + (a + (b + (multiset{x} + rest))))
  {
    hide Lives, Reach, FieldReach, Only, AllFull;
    Greedy(c, rest, which);
    Step(Set(c, Other(which), name), x, c, rest);
    HoldThen(c, b, which, name, multiset{x} + rest);
    Absorb(c, a, which);
    Then(c, a, c, b + (multiset{x} + rest));
    Step(BLANK, c, c, a + (b + (multiset{x} + rest)));
  }

  /** A full value that shares exactly one name with the equal values of the two kinds. */
  lemma TouchesOne(f: multiset<Names>, a: multiset<Names>, b: multiset<Names>, which: Which, c: Names, q: Names, x: Names)
    requires AllFull(f) && Only(a, which) && Only(b, Other(which)) && Constant(a) && Constant(b) && c in a && q in b
    requires x in f && x.Get(which) == c.Get(which) && x.Get(Other(which)) != q.Get(Other(which))
    ensures Lives(BLANK, f + a + b)
  {
    ConstantReach(None, b, Other(which), q);
    hide Lives, Reach, FieldReach;
    var rest, rest' := f - multiset{x}, a - multiset{c};
    Part(f, rest);
    Part(a, rest');
    assert forall y | y in rest' :: y in a && y == c;
    TouchSchedule(rest, rest', b, which, c, x, q.Get(Other(which)));
    assert multiset{c} + (rest' + (b + (multiset{x} + rest))) == f + a + b;
  }

  lemma DisjointSchedule(rest: multiset<Names>, l: multiset<Names>, s: multiset<Names>, c: Names, q: Names, x: Names, y: Names)
    requires AllFull(rest) && Only(l, Long) && Only(s, Short) && Lacks(c, Long) && Lacks(q, Short) && Full(x) && Full(y)
    requires forall v | v in l :: v.long == c.long
    requires FieldReach(Resolved(MergeNames(x.short, y.short)), s, Short, q.short)
    requires x.long != c.long && y.long != c.long
    ensures Lives(BLANK, multiset{c} + (l + (multiset{x} + (multiset{y} + (s + (multiset{c} + rest))))))
  {
    hide Lives, Reach, FieldReach, Only, AllFull;
    var n := Set(y, Short, Resolved(MergeNames(x.short, y.short)));
    Greedy(q, rest, Short);
    Step(Set(y, Short, q.short), c, q, rest);
    HoldThen(n, s, Long, q.short, multiset{c} + rest);
    Step(Set(x, Long, None), y, n, s + (multiset{c} + rest));
    Step(c, x, Set(x, Long, None), multiset{y} + (s + (multiset{c} + rest)));
    Absorb(c, l, Long);
    Then(c, l, c, multiset{x} + (multiset{y} + (s + (multiset{c} + rest))));
    Step(BLANK, c, c, l + (multiset{x} + (multiset{y} + (s + (multiset{c} + rest)))));
  }

  lemma TwoCopies(values: multiset<Names>, c: Names) returns (rest: multiset<Names>)
    requires Constant(values) && c in values && |values| >= 2
    ensures values == multiset{c} + multiset{c} + rest && forall v | v in rest :: v == c
  {
    Without(values, c);
    var e :| e in values - multiset{c};
    assert e in values && e == c;
    rest := values - multiset{c} - multiset{c};
    assert forall v | v in rest :: v in values;
  }

  /** Two full values that share no name with the equal values. */
  lemma TwoDisjoint(f: multiset<Names>, l: multiset<Names>, s: multiset<Names>, c: Names, q: Names, x: Names, y: Names)
    requires AllFull(f) && Only(l, Long) && Only(s, Short) && Constant(l) && Constant(s) && c in l && q in s
    requires |l| >= 2 && |s| >= 2 && Both(x, y, f)
    requires x.long != c.long && x.short != q.short && y.long != c.long && y.short != q.short
    ensures Lives(BLANK, f + l + s)
  {
    ConstantReach(Resolved(MergeNames(x.short, y.short)), s, Short, q);
    var l' := TwoCopies(l, c);
    hide Lives, Reach, FieldReach;
    var rest := f - multiset{x} - multiset{y};
    Part(f, rest);
    Part(l, l');
    assert y in f;
    DisjointSchedule(rest, l', s, c, q, x, y);
    assert multiset{c} + (l' + (multiset{x} + (multiset{y} + (s + (multiset{c} + rest))))) == f + l + s;
  }

  /** One full value that shares no name with the equal values; all others have both. */
  lemma OneDisjoint(f: multiset<Names>, l: multiset<Names>, s: multiset<Names>, c: Names, q: Names, x: Names)
    requires AllFull(f) && Only(l, Long) && Only(s, Short) && Constant(l) && Constant(s) && c in l && q in s
    requires |l| >= 2 && x in f && x.long != c.long && x.short != q.short
    requires forall y | y in f - multiset{x} :: y == Names(c.long, q.short)
    ensures Lives(BLANK, f + l + s)
  {
    hide Lives, Reach, FieldReach;
    Without(l, c);
    var rest, rest' := f - multiset{x}, l - multiset{c};
    var e :| e in rest';
    assert e == c;
    var l' := rest' - multiset{c};
    HoldLives(Set(x, Long, c.long), s + rest, Long);
    Step(Set(x, Long, None), c, Set(x, Long, c.long), s + rest);
    Step(c, x, Set(x, Long, None), multiset{c} + (s + rest));
    Absorb(c, l', Long);
    Then(c, l', c, multiset{x} + (multiset{c} + (s + rest)));
    Step(BLANK, c, c, l' + (multiset{x} + (multiset{c} + (s + rest))));
    assert multiset{c} + (l' + (multiset{x} + (multiset{c} + (s + rest)))) == f + l + s;
  }

  lemma BothConstant(f: multiset<Names>, l: multiset<Names>, s: multiset<Names>, c: Names, q: Names)
    requires AllFull(f) && Only(l, Long) && Only(s, Short) && Constant(l) && Constant(s) && c in l && q in s
    requires (exists x :: x in f && x.long != c.long) && (exists x :: x in f && x.short != q.short)
    requires forall x | x in f :: Lasting(l, Long, x) && Lasting(s, Short, x)
    ensures Lives(BLANK, f + l + s)
  {
    hide Lives;
    var x :| x in f && x.long != c.long;
    var y :| y in f && y.short != q.short;
    TwoOrMore(l, Long, c, x);
    TwoOrMore(s, Short, q, y);
    if z :| z in f && z.long == c.long && z.short != q.short {
      TouchesOne(f, l, s, Long, c, q, z);
    } else if z :| z in f && z.short == q.short && z.long != c.long {
      TouchesOne(f, s, l, Short, q, c, z);
      assert f + s + l == f + l + s;
    } else if z :| z in f - multiset{x} && z.long != c.long {
      assert z in f;
      TwoDisjoint(f, l, s, c, q, x, z);
    } else {
      assert forall v | v in f - multiset{x} :: v in f;
      OneDisjoint(f, l, s, c, q, x);
    }
  }

  lemma TwoOrMore(values: multiset<Names>, which: Which, c: Names, x: Names)
    requires Only(values, which) && Constant(values) && c in values && Lasting(values, which, x) && x.Get(which) != c.Get(which)
    ensures |values| >= 2
  {
    Without(values, c);
  }

  /** After an odd number of full values with different names in the other field, that field holds one. */
  lemma OtherHeld(z: Names, f: multiset<Names>, a: multiset<Names>, which: Which)
    requires z.Get(which).Some? && z.Get(Other(which)) == None && AllFull(f) && Only(a, which)
    requires Apart(None, f, Other(which)) && |f| % 2 == 1
    ensures Lives(z, f + a)
  {
    Greedy(z, f, which);
    var k :| Reach(z, f, k);
    ReachParity(z, f, k, Other(which));
    hide Reach, FieldReach, Apart;
    HoldLives(k, a, Other(which));
    Then(z, f, k, a);
  }

  /** A run of values ends with the name it began with, or with one of theirs. */
  lemma {:induction false} EndsWithGiven(name: Name, w: seq<Names>, which: Which)
    ensures var end := FieldRun(name, w, which); end == None || end == name || exists x :: x in multiset(w) && x.Get(which) == end
    decreases |w|
  {
    if w != [] {
      var next := Resolved(MergeNames(name, w[0].Get(which)));
      EndsWithGiven(next, w[1..], which);
      assert w == [w[0]] + w[1..];
      assert multiset(w) == multiset{w[0]} + multiset(w[1..]);
      var end := FieldRun(next, w[1..], which);
      if end != None && end != next {
        var x :| x in multiset(w[1..]) && x.Get(which) == end;
        assert x in multiset(w);
      } else if end == next && next != name {
        assert w[0] in multiset(w);
      }
    }
  }

  lemma CrowdFills(a: multiset<Names>, which: Which, x: Names, c: Names) returns (name: Name)
    requires Crowd(a, which, x) && c in a
    ensures FieldReach(None, a - multiset{c}, which, name) && name.Some? && name != x.Get(which)
  {
    ApartWithout(x.Get(which), a, which, c);
    Without(a, c);
    var rest := a - multiset{c};
    assert Apart(None, rest, which);
    var w := Listing(rest);
    assert |w| == |multiset(w)|;
    Parity(None, w, which);
    name := FieldRun(None, w, which);
    EndsWithGiven(None, w, which);
  }

  lemma SameOtherSchedule(rest: multiset<Names>, a: multiset<Names>, b: multiset<Names>, which: Which, x: Names, y: Names, c: Names, name: Name)
    requires AllFull(rest) && Only(a, which) && Only(b, Other(which)) && Lacks(c, which) && Full(x) && Full(y)
    requires FieldReach(None, b, Other(which), None) && FieldReach(None, a, which, name) && name.Some?
    requires x.Get(Other(which)) == y.Get(Other(which)) && x.Get(which) != c.Get(which) && y.Get(which) != name
    ensures Lives(BLANK, multiset{c} + (b + (multiset{x} + (a + (multiset{y} + rest)))))
  {
    hide Lives, Reach, FieldReach, Only, AllFull;
    var other, n := Other(which), Set(x, which, None);
    Greedy(n, rest, other);
    Step(Set(x, which, name), y, n, rest);
    HoldThen(n, a, other, name, multiset{y} + rest);
    Step(c, x, n, a + (multiset{y} + rest));
    HoldThen(c, b, which, None, multiset{x} + (a + (multiset{y} + rest)));
    Step(BLANK, c, c, b + (multiset{x} + (a + (multiset{y} + rest))));
  }

  lemma SameOtherCrowds(f: multiset<Names>, a: multiset<Names>, b: multiset<Names>, which: Which, x: Names, y: Names)
    requires AllFull(f) && Only(a, which) && Both(x, y, f) && x.Get(Other(which)) == y.Get(Other(which))
    requires Crowd(a, which, x) && Crowd(a, which, y) && Crowd(b, Other(which), x)
    ensures Lives(BLANK, f + a + b)
  {
    var c :| c in a;
    CrowdMember(a, which, x, c);
    CrowdCancels(b, Other(which), x);
    var name := CrowdFills(a, which, y, c);
    assert Only(b, Other(which));
    hide Lives, Reach, FieldReach, Crowd, Apart, Only;
    var rest, a' := f - multiset{x} - multiset{y}, a - multiset{c};
    Part(f, rest);
    Part(a, a');
    assert y in f;
    SameOtherSchedule(rest, a', b, which, x, y, c, name);
    OneFirst(f, a, b, x, y, c);
  }

  lemma OneFirst(f: multiset<Names>, a: multiset<Names>, b: multiset<Names>, x: Names, y: Names, c: Names)
    requires Both(x, y, f) && c in a
    ensures multiset{c} + (b + (multiset{x} + (a - multiset{c} + (multiset{y} + (f - multiset{x} - multiset{y}))))) == f + a + b
  {
  }

  lemma OddBothCrowds(f: multiset<Names>, l: multiset<Names>, s: multiset<Names>, x: Names)
    requires AllFull(f) && x in f && Apart(None, f, Short) && |f| % 2 == 1
    requires Crowd(l, Long, x) && Crowd(s, Short, x)
    ensures Lives(BLANK, f + l + s)
  {
    var c :| c in l;
    CrowdMember(l, Long, x, c);
    CrowdCancels(s, Short, x);
    var rest := l - multiset{c};
    OtherHeld(c, f, rest, Long);
    hide Lives, Reach, FieldReach, Apart;
    HoldThen(c, s, Long, None, f + rest);
    Step(BLANK, c, c, s + (f + rest));
    assert multiset{c} + (s + (f + rest)) == f + l + s;
  }

  lemma BothCrowds(f: multiset<Names>, l: multiset<Names>, s: multiset<Names>)
    requires AllFull(f) && f != multiset{} && forall x | x in f :: Crowd(l, Long, x) && Crowd(s, Short, x)
    ensures Lives(BLANK, f + l + s) || Even(f, l, s)
  {
    hide Lives, Apart;
    var any :| any in f;
    assert Crowd(l, Long, any) && Crowd(s, Short, any);
    assert Only(l, Long) && Only(s, Short);
    if !Apart(None, f, Short) {
      var x, y := DifferentNames(f, Short);
      assert y in f;
      hide Crowd;
      SameOtherCrowds(f, l, s, Long, x, y);
    } else if !Apart(None, f, Long) {
      var x, y := DifferentNames(f, Long);
      assert y in f;
      hide Crowd;
      SameOtherCrowds(f, s, l, Short, x, y);
      assert f + s + l == f + l + s;
    } else if |f| % 2 == 1 {
      hide Crowd;
      OddBothCrowds(f, l, s, any);
    } else {
      EvenWithCrowd(f, l, Long);
      EvenWithCrowd(f, s, Short);
    }
  }

  lemma EvenWithCrowd(f: multiset<Names>, a: multiset<Names>, which: Which)
    requires f != multiset{} && Apart(None, f, which) && |f| % 2 == 0 && forall x | x in f :: Crowd(a, which, x)
    ensures Apart(None, f + a, which) && |f + a| % 2 == 0
  {
    hide Apart;
    var any :| any in f;
    assert Crowd(a, which, any);
    AllEven(f, a, which);
  }

  lemma NoneCancelling(f: multiset<Names>, l: multiset<Names>, s: multiset<Names>)
    requires AllFull(f) && f != multiset{} && Only(l, Long) && Only(s, Short) && l != multiset{} && s != multiset{}
    requires exists x, y :: x in f + l && y in f + l && x.long != y.long
    requires exists x, y :: x in f + s && y in f + s && x.short != y.short
    requires forall x | x in f :: Lasting(l, Long, x) && Lasting(s, Short, x)
    ensures Lives(BLANK, f + l + s) || Even(f, l, s)
  {
    hide Lives;
    var any :| any in f;
    var c :| c in l;
    var q :| q in s;
    assert Lasting(l, Long, any) && Lasting(s, Short, any);
    if Constant(l) && Constant(s) {
      BothConstant(f, l, s, c, q);
    } else if Constant(l) {
      ConstantThenCrowd(f, l, s, Long);
    } else if Constant(s) {
      ConstantThenCrowd(f, s, l, Short);
      assert f + s + l == f + l + s;
    } else {
      ManyValues(l);
      ManyValues(s);
      BothCrowds(f, l, s);
    }
  }

  /** All three kinds: the id can be kept, or the names of each field differ and are even in number. */
  lemma AllKinds(f: multiset<Names>, l: multiset<Names>, s: multiset<Names>)
    requires AllFull(f) && f != multiset{} && Only(l, Long) && Only(s, Short) && l != multiset{} && s != multiset{}
    requires exists x, y :: x in f + l && y in f + l && x.long != y.long
    requires exists x, y :: x in f + s && y in f + s && x.short != y.short
    ensures Lives(BLANK, f + l + s) || Even(f, l, s)
  {
    if !Lives(BLANK, f + l + s) {
      forall x | x in f
        ensures (Cancelling(l, Long, x) && Cancelling(s, Short, x)) || (Lasting(l, Long, x) && Lasting(s, Short, x))
      {
        Classify(f, l, s, x);
      }
      hide Lives, Cancelling, Lasting;
      if h :| h in f && Lasting(l, Long, h) && Lasting(s, Short, h) {
        if x :| x in f && Cancelling(l, Long, x) && Cancelling(s, Short, x) {
          SomeCancelling(f, l, s, x, h);
        } else {
          NoneCancelling(f, l, s);
        }
      } else {
        AllCancelling(f, l, s);
      }
    }
  }
}
