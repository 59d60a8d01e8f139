/**
 Node names as a snapshot reports them, and the order in which states are written down.
 */
module NodeNames {
  import opened Wrappers

  type Name = Option<string>

  /** A raw `longName` / `shortName` value: absent, of the wrong type, or a string. */
  datatype Field = Missing | NotAString | Str(s: string)

  /** A value of the nodes dictionary.  `Malformed` stands for every entry that has no usable
      `user.id` (not a dict, no user, id missing or of the wrong type); an integer id appears
      here as its `str()`. */
  datatype Node = Malformed | Entry(id: string, long: Field, short: Field) {
    predicate Usable() {
      Entry? && id != ""
    }

    function Raw(which: Which): Field
      requires Entry?
    {
      if which.Long? then long else short
    }

    predicate WellFormed() {
      Usable() && !long.NotAString? && !short.NotAString?
    }
  }

  /** The two name fields, `longName` and `shortName`. */
  datatype Which = Long | Short

  datatype Names = Names(long: Name, short: Name) {
    function Get(which: Which): Name {
      if which.Long? then long else short
    }
  }

  function Normalize(f: Field): Name {
    if f.Str? && f.s != "" then Some(f.s) else None
  }

  /** `_merge_node_name_values`: the merged value, or a conflict. */
  datatype Merged = Value(name: Name) | Conflict

  function MergeNames(existing: Name, incoming: Name): Merged {
    if existing == None then Value(incoming)
    else if incoming == None || existing == incoming then Value(existing)
    else Conflict
  }

  /** Two values do not contradict each other. */
  predicate Agree(a: Name, b: Name) {
    a == None || b == None || a == b
  }

  lemma MergeIsCommutativeJoin(a: Name, b: Name)
    ensures MergeNames(a, b) == MergeNames(b, a)
    ensures MergeNames(a, b).Value? <==> Agree(a, b)
  {
  }

  // ---------- lexicographic order on ids, and the sorted state tuple ----------

  predicate Before(a: string, b: string) {
    if b == "" then false
    else if a == "" then true
    else a[0] < b[0] || (a[0] == b[0] && Before(a[1..], b[1..]))
  }

  /** At the first position where two ids differ, the smaller one ends or has the smaller character. */
  lemma {:induction false} BeforeIff(a: string, b: string)
    ensures Before(a, b) <==> exists k :: BeforeAt(a, b, k)
  {
    if b == "" {
    } else if a == "" {
      assert BeforeAt(a, b, 0);
    } else {
      BeforeIff(a[1..], b[1..]);
      if a[0] < b[0] { assert BeforeAt(a, b, 0); }
      if k :| BeforeAt(a, b, k) {
        if k > 0 {
          assert a[..k][0] == b[..k][0] && a[..k][1..] == a[1..][..k - 1] && b[..k][1..] == b[1..][..k - 1];
          assert BeforeAt(a[1..], b[1..], k - 1);
        }
      }
      if k :| BeforeAt(a[1..], b[1..], k) {
        if a[0] == b[0] {
          assert a[..k + 1] == [a[0]] + a[1..][..k] && b[..k + 1] == [b[0]] + b[1..][..k];
          assert BeforeAt(a, b, k + 1);
        }
      }
    }
  }

  predicate BeforeAt(a: string, b: string, k: int) {
    0 <= k <= |a| && k < |b| && a[..k] == b[..k] && (k == |a| || a[k] < b[k])
  }

  lemma {:induction false} BeforeIsTotal(a: string, b: string)
    ensures !Before(a, a)
    ensures Before(a, b) || a == b || Before(b, a)
  {
    if a != "" {
      BeforeIsTotal(a[1..], if b == "" then "" else b[1..]);
      if b != "" && a[0] == b[0] && a[1..] == b[1..] {
        assert a == [a[0]] + a[1..] && b == [b[0]] + b[1..];
      }
    }
  }

  lemma {:induction false} BeforeIsTransitive(a: string, b: string, c: string)
    requires Before(a, b) && Before(b, c)
    ensures Before(a, c)
  {
    if a != "" && a[0] == b[0] && b[0] == c[0] {
      BeforeIsTransitive(a[1..], b[1..], c[1..]);
    }
  }

  predicate IsLeast(k: string, keys: set<string>) {
    k in keys && forall other | other in keys :: other == k || Before(k, other)
  }

  lemma {:induction false} LeastExists(keys: set<string>)
    requires keys != {}
    ensures exists k :: IsLeast(k, keys)
    decreases |keys|
  {
    var x :| x in keys;
    if keys == {x} {
      assert IsLeast(x, keys);
    } else {
      LeastExists(keys - {x});
      var k :| IsLeast(k, keys - {x});
      BeforeIsTotal(x, k);
      if Before(x, k) {
        forall other | other in keys ensures other == x || Before(x, other) {
          if other != x && other != k { BeforeIsTransitive(x, k, other); }
        }
        assert IsLeast(x, keys);
      } else {
        assert IsLeast(k, keys);
      }
    }
  }

  function Least(keys: set<string>): string
    requires keys != {}
  {
    LeastExists(keys);
    LeastIsUnique(keys);
    var k :| IsLeast(k, keys);
    k
  }

  lemma LeastIsUnique(keys: set<string>)
    ensures forall a, b | IsLeast(a, keys) && IsLeast(b, keys) :: a == b
  {
    forall a, b | IsLeast(a, keys) && IsLeast(b, keys) ensures a == b {
      if a != b {
        BeforeIsTransitive(a, b, a);
        BeforeIsTotal(a, a);
      }
    }
  }

  type State = map<string, Names>

  datatype NameEntry = NameEntry(id: string, names: Names)

  predicate StrictlySorted(entries: seq<NameEntry>) {
    forall i, j | 0 <= i < j < |entries| :: Before(entries[i].id, entries[j].id)
  }

  /** The state as the sorted tuple the program keeps. */
  function Tuple(state: State): (entries: seq<NameEntry>)
    ensures StrictlySorted(entries)
    ensures forall e :: e in entries <==> e.id in state && e.names == state[e.id]
    decreases |state|
  {
    if state == map[] then []
    else
      var k := Least(state.Keys);
      assert k in state;
      [NameEntry(k, state[k])] + Tuple(state - {k})
  }

  /** The dictionary a sorted tuple stands for. */
  function FromTuple(entries: seq<NameEntry>): State
    requires StrictlySorted(entries)
  {
    SortedIdsDiffer(entries);
    map e | e in entries :: e.id := e.names
  }

  lemma SortedIdsDiffer(entries: seq<NameEntry>)
    requires StrictlySorted(entries)
    ensures forall i, j | 0 <= i < j < |entries| :: entries[i].id != entries[j].id
  {
    forall i, j | 0 <= i < j < |entries| ensures entries[i].id != entries[j].id {
      BeforeIsTotal(entries[i].id, entries[j].id);
    }
  }

  /** A state and its tuple determine each other. */
  lemma TupleRoundTrip(state: State)
    ensures FromTuple(Tuple(state)) == state
  {
    var entries := Tuple(state);
    SortedIdsDiffer(entries);
    var back := FromTuple(entries);
    hide Tuple, StrictlySorted;
    forall id | id in state ensures id in back && back[id] == state[id] {
      assert NameEntry(id, state[id]) in entries;
    }
    forall id | id in back ensures id in state {
      var e :| e in entries && e.id == id;
    }
  }
}
