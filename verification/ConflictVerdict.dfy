/**
 The exact condition under which the two-field collector does not depend on the order of the
 nodes, ids contradicted in both fields included.
 */
module ConflictVerdict {
  import opened Wrappers
  import opened NodeNames
  import opened SnapshotCollector
  import opened OrderDependence
  import opened ConflictOrders
  import opened ConflictRescue
  import opened ConflictKinds

  /** The values that give at least one name. */
  function Filled(v: seq<Names>): multiset<Names> {
    multiset(v)[BLANK := 0]
  }

  /** Contradictory in both fields. */
  predicate Clash(x: Names, y: Names) {
    Full(x) && Full(y) && x.long != y.long && x.short != y.short
  }

  /** Any two values are equal or contradict each other in both fields. */
  ghost predicate Clashing(v: seq<Names>) {
    forall x, y | x in Filled(v) && y in Filled(v) :: x == y || Clash(x, y)
  }

  /** In each field the given names differ and are even in number. */
  ghost predicate EvenNames(v: seq<Names>) {
    forall which: Which :: Distinct(v, which) && |Given(v, which)| % 2 == 0
  }

  /** Two full values with the same name in the other field, and for that field an even number of
      further values, all with different names. */
  ghost predicate Forked(v: seq<Names>, which: Which) {
    exists x, y :: ForkedAt(v, which, x, y)
  }

  ghost predicate ForkedAt(v: seq<Names>, which: Which, x: Names, y: Names) {
    && Full(x) && Full(y) && x.Get(which) != y.Get(which) && x.Get(Other(which)) == y.Get(Other(which))
    && x in Filled(v) && y in Filled(v)
    && Crowd(Filled(v) - multiset{x, y}, Other(which), x)
  }

  /** No order keeps the id. */
  ghost predicate Doomed(v: seq<Names>) {
    Clashing(v) || EvenNames(v) || Forked(v, Long) || Forked(v, Short)
  }

  // ---------- what is not doomed can be kept ----------

  lemma {:induction false} Split(values: multiset<Names>) returns (f: multiset<Names>, l: multiset<Names>, s: multiset<Names>)
    requires BLANK !in values
    ensures values == f + l + s && AllFull(f) && Only(l, Long) && Only(s, Short)
    decreases |values|
  {
    if values == multiset{} {
      f, l, s := multiset{}, multiset{}, multiset{};
    } else {
      var x :| x in values;
      f, l, s := Split(values - multiset{x});
      f, l, s := Sorted(values, f, l, s, x);
    }
  }

  /** Put the value with those of its kind. */
  lemma Sorted(values: multiset<Names>, f: multiset<Names>, l: multiset<Names>, s: multiset<Names>, x: Names)
    returns (f': multiset<Names>, l': multiset<Names>, s': multiset<Names>)
    requires x in values && x != BLANK && values - multiset{x} == f + l + s
    requires AllFull(f) && Only(l, Long) && Only(s, Short)
    ensures values == f' + l' + s' && AllFull(f') && Only(l', Long) && Only(s', Short)
  {
    f', l', s' := f, l, s;
    hide AllFull, Only;
    Sums(values, f, l, s, x);
    if Full(x) {
      OneMore(f, x);
      f' := f + multiset{x};
    } else if x.long.Some? {
      OneMore(l, x);
      l' := l + multiset{x};
    } else {
      OneMore(s, x);
      s' := s + multiset{x};
    }
  }

  lemma Sums(values: multiset<Names>, f: multiset<Names>, l: multiset<Names>, s: multiset<Names>, x: Names)
    requires x in values && values - multiset{x} == f + l + s
    ensures values == f + multiset{x} + l + s == f + (l + multiset{x}) + s == f + l + (s + multiset{x})
  {
    assert values == multiset{x} + (values - multiset{x});
  }

  lemma OneMore(values: multiset<Names>, x: Names)
    ensures AllFull(values) && Full(x) ==> AllFull(values + multiset{x})
    ensures forall which :: Only(values, which) && Lacks(x, which) ==> Only(values + multiset{x}, which)
  {
  }

  ghost predicate Opposed(values: multiset<Names>, which: Which) {
    exists x, y :: x in values && y in values && x.Get(which).Some? && y.Get(which).Some? && x.Get(which) != y.Get(which)
  }

  lemma OpposedHaving(f: multiset<Names>, a: multiset<Names>, b: multiset<Names>, which: Which)
    requires Opposed(f + a + b, which) && Only(b, Other(which))
    ensures exists x, y :: x in f + a && y in f + a && x.Get(which) != y.Get(which)
  {
    var x, y :| x in f + a + b && y in f + a + b && x.Get(which).Some? && y.Get(which).Some? && x.Get(which) != y.Get(which);
    assert x in f + a && y in f + a;
  }

  /** Full values only. */
  lemma FullOnly(f: multiset<Names>)
    requires AllFull(f) && f != multiset{}
    ensures Lives(BLANK, f) || forall x, y | x in f && y in f :: x == y || Clash(x, y)
  {
    if x, y :| x in f && y in f && x != y && !Clash(x, y) {
      var which := if x.long == y.long then Long else Short;
      assert y in f - multiset{x};
      SharedName(f, x, y, which);
    }
  }

  lemma AllRescued(f: multiset<Names>, l: multiset<Names>, s: multiset<Names>)
    requires AllFull(f) && Only(l, Long) && Only(s, Short)
    requires Opposed(f + l + s, Long) && Opposed(f + l + s, Short)
    ensures || Lives(BLANK, f + l + s) || Even(f, l, s)
            || (l == multiset{} && Fork(f, s, Long)) || (s == multiset{} && Fork(f, l, Short))
            || (l == multiset{} && s == multiset{} && forall x, y | x in f && y in f :: x == y || Clash(x, y))
  {
    OpposedHaving(f, l, s, Long);
    assert f + l + s == f + s + l;
    OpposedHaving(f, s, l, Short);
    hide Lives, Apart, Opposed;
    if f == multiset{} {
      assert f + l == l && f + s == s && f + l + s == l + s;
      NoFull(l, s);
    } else if l == multiset{} && s == multiset{} {
      assert f + l + s == f;
      FullOnly(f);
    } else if l == multiset{} {
      assert f + l == f && f + l + s == f + s;
      FullAndOthers(f, s, Long);
    } else if s == multiset{} {
      assert f + s == f && f + l + s == f + l;
      FullAndOthers(f, l, Short);
    } else {
      AllKinds(f, l, s);
    }
  }

  /** Values that are different in the field give as many names. */
  lemma {:induction false} GivenApart(u: seq<Names>, which: Which)
    requires Apart(None, multiset(u), which)
    ensures Distinct(u, which) && |Given(u, which)| == |u|
  {
    if u != [] {
      var p, x := u[..|u| - 1], u[|u| - 1];
      assert u == p + [x];
      PrefixApart(None, p, x, which);
      Snoc(p, x);
      assert x in multiset(u) && multiset(u)[x] == 1;
      GivenApart(p, which);
      Append(p, x, which);
      GivenIff(p, which, x.Get(which).value);
      assert forall y :: y in p <==> y in multiset(p);
      assert forall y | y in multiset(p) :: y in multiset(u) && y != x;
    }
  }

  lemma {:induction false} GivenNone(u: seq<Names>, which: Which)
    requires forall x | x in multiset(u) :: x.Get(which) == None
    ensures Given(u, which) == multiset{}
  {
    if u != [] {
      var p, x := u[..|u| - 1], u[|u| - 1];
      assert u == p + [x];
      Snoc(p, x);
      GivenNone(p, which);
      Append(p, x, which);
    }
  }

  function Blanks(v: seq<Names>): seq<Names> {
    seq(multiset(v)[BLANK], _ => BLANK)
  }

  lemma {:induction false} BlankCount(n: nat)
    ensures multiset(seq(n, _ => BLANK)) == multiset{}[BLANK := n]
    ensures Run(BLANK, seq(n, _ => BLANK)) == Kept(BLANK)
  {
    if n > 0 {
      BlankCount(n - 1);
      var rest := seq(n - 1, _ => BLANK);
      assert seq(n, _ => BLANK) == [BLANK] + rest;
      Cons(BLANK, rest);
      assert ([BLANK] + rest)[1..] == rest;
    }
  }

  /** The filled values in any order, after the blank ones, are all values. */
  lemma BlanksFirst(v: seq<Names>, w: seq<Names>)
    requires multiset(w) == Filled(v)
    ensures Permutation(v, Blanks(v) + w)
  {
    BlankCount(multiset(v)[BLANK]);
    assert multiset(Blanks(v) + w) == multiset(Blanks(v)) + multiset(w);
  }

  /** Only the values that have the field give names. */
  lemma GivenByHaving(v: seq<Names>, u: seq<Names>, w: seq<Names>, which: Which)
    requires Filled(v) == multiset(u) + multiset(w) && Only(multiset(w), Other(which))
    ensures Given(v, which) == Given(u, which)
  {
    var blanks := Blanks(v);
    BlankCount(multiset(v)[BLANK]);
    GivenNone(w, which);
    GivenNone(blanks, which);
    hide Only, Given;
    assert multiset(u + w) == multiset(u) + multiset(w);
    BlanksFirst(v, u + w);
    SameGiven(v, blanks + (u + w), which);
    GivenConcat(blanks, u + w, which);
    GivenConcat(u, w, which);
  }

  lemma EvenIsEven(v: seq<Names>, having: multiset<Names>, lacking: multiset<Names>, which: Which)
    requires Filled(v) == having + lacking && Apart(None, having, which) && |having| % 2 == 0 && Only(lacking, Other(which))
    ensures Distinct(v, which) && |Given(v, which)| % 2 == 0
  {
    hide Apart, Only, Filled, Given;
    var u := Listing(having);
    var w := Listing(lacking);
    GivenByHaving(v, u, w, which);
    GivenApart(u, which);
    assert |multiset(u)| == |u|;
  }

  lemma OpposedFilled(v: seq<Names>, which: Which)
    requires !Unopposed(v, which)
    ensures Opposed(Filled(v), which)
  {
    var x, y :| x in v && y in v && !Agree(x.Get(which), y.Get(which));
    assert x in multiset(v) && y in multiset(v);
    assert x in Filled(v) && y in Filled(v);
  }

  lemma ForkIsForked(v: seq<Names>, f: multiset<Names>, s: multiset<Names>, which: Which)
    requires Filled(v) == f + s && AllFull(f) && Fork(f, s, which)
    ensures Forked(v, which)
  {
    var x, y :| f == multiset{x, y} && x.Get(which) != y.Get(which) && x.Get(Other(which)) == y.Get(Other(which))
                && Crowd(s, Other(which), x);
    assert x in f && y in f;
    assert Filled(v) - multiset{x, y} == s;
    assert ForkedAt(v, which, x, y);
  }

  lemma LivesOrDoomed(v: seq<Names>)
    requires !Unopposed(v, Long) && !Unopposed(v, Short)
    ensures Lives(BLANK, Filled(v)) || Doomed(v)
  {
    OpposedFilled(v, Long);
    OpposedFilled(v, Short);
    var f, l, s := Split(Filled(v));
    hide Lives, Opposed;
    AllRescued(f, l, s);
    if !Lives(BLANK, f + l + s) { FormsAreDoomed(v, f, l, s); }
    hide Even, Fork, Doomed;
  }

  lemma FormsAreDoomed(v: seq<Names>, f: multiset<Names>, l: multiset<Names>, s: multiset<Names>)
    requires Filled(v) == f + l + s && AllFull(f) && Only(l, Long) && Only(s, Short)
    requires || Even(f, l, s)
             || (l == multiset{} && Fork(f, s, Long)) || (s == multiset{} && Fork(f, l, Short))
             || (l == multiset{} && s == multiset{} && forall x, y | x in f && y in f :: x == y || Clash(x, y))
    ensures Doomed(v)
  {
    hide Apart, Only, Fork, Forked, AllFull, EvenNames, Even, Filled;
    if Even(f, l, s) {
      EvenForm(v, f, l, s);
    } else if l == multiset{} && Fork(f, s, Long) {
      assert Filled(v) == f + s;
      ForkIsForked(v, f, s, Long);
    } else if s == multiset{} && Fork(f, l, Short) {
      assert Filled(v) == f + l;
      ForkIsForked(v, f, l, Short);
    } else {
      assert Filled(v) == f;
    }
  }

  lemma EvenForm(v: seq<Names>, f: multiset<Names>, l: multiset<Names>, s: multiset<Names>)
    requires Filled(v) == f + l + s && Only(l, Long) && Only(s, Short) && Even(f, l, s)
    ensures EvenNames(v)
  {
    hide Apart, Only, Filled, Distinct;
    assert f + l + s == f + s + l;
    EvenIsEven(v, f + l, s, Long);
    EvenIsEven(v, f + s, l, Short);
    forall which: Which ensures Distinct(v, which) && |Given(v, which)| % 2 == 0 {
      if which.Long? {} else {}
    }
  }

  lemma KeptSomehow(v: seq<Names>) returns (w: seq<Names>)
    requires Lives(BLANK, Filled(v)) && v != []
    ensures Permutation(v, w) && !FoldFate(w).Dropped?
  {
    var n :| Reach(BLANK, Filled(v), n);
    var u :| multiset(u) == Filled(v) && Run(BLANK, u) == Kept(n);
    BlanksFirst(v, u);
    w := Blanks(v) + u;
    BlankCount(multiset(v)[BLANK]);
    RunAppends(BLANK, Blanks(v), u);
    SamePresence(v, w);
    FoldIsRun(w);
  }

  // ---------- what is doomed is dropped in every order ----------

  lemma DoomedReorders(v: seq<Names>, w: seq<Names>)
    requires Permutation(v, w) && Doomed(v)
    ensures Doomed(w)
  {
    assert Filled(v) == Filled(w);
    if EvenNames(v) { EvenReorders(v, w); }
    hide Filled, EvenNames;
    if Forked(v, Long) { ForkedReorders(v, w, Long); }
    if Forked(v, Short) { ForkedReorders(v, w, Short); }
    hide Forked;
  }

  lemma EvenReorders(v: seq<Names>, w: seq<Names>)
    requires Permutation(v, w) && EvenNames(v)
    ensures EvenNames(w)
  {
    forall which: Which ensures Distinct(w, which) && |Given(w, which)| % 2 == 0 {
      assert Distinct(v, which);
      SameGiven(v, w, which);
      hide Given;
    }
  }

  lemma ForkedReorders(v: seq<Names>, w: seq<Names>, which: Which)
    requires Filled(v) == Filled(w) && Forked(v, which)
    ensures Forked(w, which)
  {
    var x, y :| ForkedAt(v, which, x, y);
    hide Crowd, Filled;
    assert ForkedAt(w, which, x, y);
  }

  lemma FilledIff(v: seq<Names>)
    ensures forall x :: x in Filled(v) <==> x in v && x != BLANK
  {
    assert forall x :: x in v <==> x in multiset(v);
  }

  /** As long as no two different values have come, the id has the one that has. */
  lemma {:induction false} ClashingFate(v: seq<Names>)
    requires forall x, y | x in v && y in v && x != BLANK && y != BLANK :: x == y || Clash(x, y)
    ensures match FoldFate(v)
            case Unseen => v == []
            case Kept(n) => forall x | x in v && x != BLANK :: x == n
            case Dropped => true
    ensures FoldFate(v).Kept? && FoldFate(v).names != BLANK ==> FoldFate(v).names in v
  {
    if v != [] {
      var p, x := v[..|v| - 1], v[|v| - 1];
      assert v == p + [x];
      assert forall y :: y in v <==> y in p || y == x;
      ClashingFate(p);
      Append(p, x, Long);
      var f := FoldFate(p);
      if f.Kept? && f.names != BLANK && x != BLANK {
        assert f.names in v && x in v;
        assert x == f.names || Clash(f.names, x);
      }
    }
  }

  lemma LearnsNothing(f: Fate, x: Names)
    ensures NextFate(f, x) == Kept(BLANK) ==> x == BLANK && (f == Unseen || f == Kept(BLANK))
    ensures NextFate(f, x) != Unseen
  {
  }

  /** A kept id that knows nothing was given nothing. */
  lemma {:induction false} KnowsNothing(v: seq<Names>)
    ensures FoldFate(v) == Unseen ==> v == []
    ensures FoldFate(v) == Kept(BLANK) ==> forall x | x in v :: x == BLANK
  {
    if v != [] {
      var p, x := v[..|v| - 1], v[|v| - 1];
      assert v == p + [x];
      Append(p, x, Long);
      LearnsNothing(FoldFate(p), x);
      KnowsNothing(p);
      hide FoldFate, NextFate;
      assert forall y :: y in v <==> y in p || y == x;
    }
  }

  lemma EvenIsDropped(v: seq<Names>)
    requires EvenNames(v) && !Unopposed(v, Long)
    ensures FoldFate(v).Dropped?
  {
    var x :| x in v && x != BLANK;
    KeptIsField(v);
    FieldParity(v, Long);
    FieldParity(v, Short);
    KnowsNothing(v);
  }

  lemma FilledSnoc(p: seq<Names>, x: Names)
    ensures Filled(p + [x]) == if x == BLANK then Filled(p) else Filled(p) + multiset{x}
  {
    Snoc(p, x);
  }

  /** What the fold holds after some values of a fork: `k` counts those beside the full ones. */
  predicate ForkHolds(n: Names, which: Which, x: Names, y: Names, hasX: bool, hasY: bool, k: nat, rest: multiset<Names>) {
    var own, name := n.Get(which), n.Get(Other(which));
    if hasX && hasY then own == None && name == x.Get(Other(which)) && (k == 0 || k % 2 == 1)
    else if !hasX && !hasY then own == None && (if k == 0 then name == None else k == 1 && name.Some? && n in rest)
    else
      && own == (if hasX then x else y).Get(which)
      && (if k == 0 then name == x.Get(Other(which))
          else if k % 2 == 1 then name == None
          else name.Some? && name != x.Get(Other(which)) && Set(BLANK, Other(which), name) in rest)
  }

  ghost predicate IsFork(which: Which, x: Names, y: Names, s: multiset<Names>) {
    && Full(x) && Full(y) && x.Get(which) != y.Get(which) && x.Get(Other(which)) == y.Get(Other(which))
    && Only(s, Other(which)) && Apart(x.Get(Other(which)), s, Other(which))
  }

  /** One more value beside the full ones. */
  lemma BesideStep(n: Names, v: Names, which: Which, x: Names, y: Names, s: multiset<Names>, hasX: bool, hasY: bool, rest: multiset<Names>)
    requires IsFork(which, x, y, s) && rest <= s && ForkHolds(n, which, x, y, hasX, hasY, |rest|, rest)
    requires v in s - rest
    ensures match NextFate(Kept(n), v)
            case Kept(n') => ForkHolds(n', which, x, y, hasX, hasY, |rest| + 1, rest + multiset{v})
            case Unseen => false
            case Dropped => true
  {
    assert Lacks(v, Other(which)) && v.Get(Other(which)) != x.Get(Other(which)) && s[v] == 1;
    assert v !in rest && v == Set(BLANK, Other(which), v.Get(Other(which)));
    assert forall e | e in rest :: e in s && e != v;
    hide Apart, Only;
  }

  /** One of the two full values. */
  lemma FullStep(n: Names, v: Names, which: Which, x: Names, y: Names, s: multiset<Names>, hasX: bool, hasY: bool, rest: multiset<Names>)
    requires IsFork(which, x, y, s) && rest <= s && ForkHolds(n, which, x, y, hasX, hasY, |rest|, rest)
    requires (v == x && !hasX) || (v == y && !hasY)
    ensures match NextFate(Kept(n), v)
            case Kept(n') => ForkHolds(n', which, x, y, hasX || v == x, hasY || v == y, |rest|, rest)
            case Unseen => false
            case Dropped => true
  {
    assert forall e | e in rest :: e in s && e.Get(Other(which)) != x.Get(Other(which));
    hide Apart, Only;
  }

  lemma NotBeside(which: Which, x: Names, y: Names, s: multiset<Names>)
    requires IsFork(which, x, y, s)
    ensures x !in s && y !in s && BLANK !in s && x != BLANK && y != BLANK && x != y
  {
  }

  /** One more value. */
  lemma ForkStep(n: Names, v: Names, which: Which, x: Names, y: Names, s: multiset<Names>, hasX: bool, hasY: bool, rest: multiset<Names>)
    requires IsFork(which, x, y, s) && rest <= s && ForkHolds(n, which, x, y, hasX, hasY, |rest|, rest)
    requires v == BLANK || (v == x && !hasX) || (v == y && !hasY) || v in s - rest
    ensures var rest' := if v in s then rest + multiset{v} else rest;
      match NextFate(Kept(n), v)
      case Kept(n') => ForkHolds(n', which, x, y, hasX || v == x, hasY || v == y, |rest'|, rest')
      case Unseen => false
      case Dropped => true
  {
    NotBeside(which, x, y, s);
    if v == BLANK {
      assert NextFate(Kept(n), v) == Kept(n);
    } else if v in s {
      hide IsFork, ForkHolds, NextFate;
      BesideStep(n, v, which, x, y, s, hasX, hasY, rest);
    } else {
      hide IsFork, ForkHolds, NextFate;
      FullStep(n, v, which, x, y, s, hasX, hasY, rest);
    }
  }

  lemma RestSnoc(q: seq<Names>, v: Names, s: multiset<Names>)
    requires v in s ==> s[v] == 1 && v !in q
    ensures multiset(q + [v]) * s == if v in s then multiset(q) * s + multiset{v} else multiset(q) * s
    ensures v in s ==> v in s - multiset(q) * s
  {
    Snoc(q, v);
    assert v !in q ==> multiset(q)[v] == 0;
  }

  /** A value comes no more often in the order than in the fork. */
  lemma AtMostOnce(q: seq<Names>, v: Names, which: Which, x: Names, y: Names, s: multiset<Names>)
    requires IsFork(which, x, y, s) && Filled(q + [v]) <= multiset{x, y} + s && v != BLANK
    ensures v !in q && (v == x || v == y || (v in s && s[v] == 1))
    ensures Filled(q) <= multiset{x, y} + s
  {
    FilledSnoc(q, v);
    assert x !in s && y !in s;
    assert (multiset{x, y} + s)[v] <= 1;
    assert Filled(q + [v])[v] == Filled(q)[v] + 1;
    assert multiset(q)[v] == 0;
  }

  lemma {:induction false} ForkFate(p: seq<Names>, which: Which, x: Names, y: Names, s: multiset<Names>)
    requires IsFork(which, x, y, s) && Filled(p) <= multiset{x, y} + s
    ensures match FoldFate(p)
            case Unseen => p == []
            case Dropped => true
            case Kept(n) => ForkHolds(n, which, x, y, x in p, y in p, |multiset(p) * s|, multiset(p) * s)
  {
    if p != [] {
      var q, v := p[..|p| - 1], p[|p| - 1];
      assert p == q + [v];
      FilledSnoc(q, v);
      assert BLANK !in s;
      if v != BLANK { AtMostOnce(q, v, which, x, y, s); }
      ForkFate(q, which, x, y, s);
      RestSnoc(q, v, s);
      hide IsFork, ForkHolds, Filled;
      ForkNext(q, v, which, x, y, s);
    }
  }

  lemma ForkNext(q: seq<Names>, v: Names, which: Which, x: Names, y: Names, s: multiset<Names>)
    requires IsFork(which, x, y, s)
    requires v == BLANK || (v !in q && (v == x || v == y || (v in s && v in s - multiset(q) * s)))
    requires match FoldFate(q)
             case Unseen => q == []
             case Dropped => true
             case Kept(n) => ForkHolds(n, which, x, y, x in q, y in q, |multiset(q) * s|, multiset(q) * s)
    ensures var rest := if v in s then multiset(q) * s + multiset{v} else multiset(q) * s;
      match FoldFate(q + [v])
      case Unseen => false
      case Dropped => true
      case Kept(n) => ForkHolds(n, which, x, y, x in q + [v], y in q + [v], |rest|, rest)
  {
    Append(q, v, Long);
    FirstValue(v);
    assert forall e :: e in q + [v] <==> e in q || e == v;
    if q == [] {
      assert multiset(q) * s == multiset{};
      assert ForkHolds(BLANK, which, x, y, false, false, 0, multiset{});
      hide ForkHolds, IsFork;
      ForkStep(BLANK, v, which, x, y, s, false, false, multiset{});
    } else if FoldFate(q).Kept? {
      hide ForkHolds, IsFork;
      ForkStep(FoldFate(q).names, v, which, x, y, s, x in q, y in q, multiset(q) * s);
    }
  }

  lemma ForkedIsDropped(v: seq<Names>, which: Which)
    requires Forked(v, which)
    ensures FoldFate(v).Dropped?
  {
    var x, y :| ForkedAt(v, which, x, y);
    var s := Filled(v) - multiset{x, y};
    assert multiset{x, y} + s == Filled(v);
    ForkFate(v, which, x, y, s);
    FilledIff(v);
    RestOfFork(v, x, y, s);
  }

  lemma RestOfFork(v: seq<Names>, x: Names, y: Names, s: multiset<Names>)
    requires Filled(v) == multiset{x, y} + s
    ensures multiset(v) * s == s
  {
    assert forall e :: s[e] <= Filled(v)[e] <= multiset(v)[e];
  }

  lemma ClashingIsDropped(v: seq<Names>)
    requires Clashing(v) && !Unopposed(v, Long)
    ensures FoldFate(v).Dropped?
  {
    FilledIff(v);
    var x, y :| x in v && y in v && !Agree(x.long, y.long);
    assert x in Filled(v) && y in Filled(v);
    ClashingFate(v);
  }

  lemma DoomedIsDropped(v: seq<Names>)
    requires Doomed(v) && !Unopposed(v, Long)
    ensures FoldFate(v).Dropped?
  {
    if Forked(v, Long) {
      ForkedIsDropped(v, Long);
    } else if Forked(v, Short) {
      ForkedIsDropped(v, Short);
    } else if EvenNames(v) {
      EvenIsDropped(v);
    } else {
      ClashingIsDropped(v);
    }
  }

  // ---------- the exact condition ----------

  /** For values contradicted in both fields: the same in every order, if and only if doomed. */
  lemma FreeIffDoomed(v: seq<Names>)
    requires !Unopposed(v, Long) && !Unopposed(v, Short)
    ensures Free(v) <==> Doomed(v)
  {
    if Free(v) {
      LivesOrDoomed(v);
      TwiceOpposedIsDropped(v);
      if Lives(BLANK, Filled(v)) {
        var w := KeptSomehow(v);
      }
    }
    if Doomed(v) {
      forall w | Permutation(v, w) ensures FoldFate(w) == FoldFate(v) {
        DoomedReorders(v, w);
        SettledReorders(v, w, Long);
        DoomedIsDropped(v);
        DoomedIsDropped(w);
      }
    }
  }

  ghost predicate OrderSafe(v: seq<Names>) {
    if Unopposed(v, Long) || Unopposed(v, Short) then OnceSettled(v) else Doomed(v)
  }

  ghost predicate AllSafe(a: seq<Node>) {
    forall id :: OrderSafe(ValuesOf(a, id))
  }

  /** The exact condition, for every snapshot: the state is the same in every order if and only if
      for each id the contradictions of its one contradicted field balance, or the id is
      contradicted in both fields and doomed. */
  lemma OrderFreeIff(a: seq<Node>)
    ensures OrderFree(a) <==> AllSafe(a)
  {
    OrderFreeByIds(a);
    hide Free, OrderFree, OrderSafe;
    if AllFree(a) {
      forall id ensures OrderSafe(ValuesOf(a, id)) { FreeIffSafe(ValuesOf(a, id)); }
    }
    if AllSafe(a) {
      forall id ensures Free(ValuesOf(a, id)) { FreeIffSafe(ValuesOf(a, id)); }
    }
  }

  lemma FreeIffSafe(v: seq<Names>)
    ensures Free(v) <==> OrderSafe(v)
  {
    hide Free, Doomed, OnceSettled;
    if Unopposed(v, Long) || Unopposed(v, Short) {
      FreeIffSettled(v);
    } else {
      FreeIffDoomed(v);
    }
  }
}
