/** The component list and its sort (objectStatuses in controllers/application_controller.go). */
module Ordering {
  import opened Text
  import Readiness

  datatype ObjectStatus = ObjectStatus(group: string, kind: string, name: string, status: Readiness.Verdict)

  /** The sort key, group/kind/name. */
  function Key(o: ObjectStatus): string {
    o.group + "/" + o.kind + "/" + o.name
  }

  predicate SlashFree(o: ObjectStatus) {
    Without(o.group, '/') && Without(o.kind, '/')
  }

  /** For slash-free groups and kinds the joined key identifies the component, whatever its name is. */
  lemma KeyInjective(a: ObjectStatus, b: ObjectStatus)
    requires SlashFree(a) && SlashFree(b) && Key(a) == Key(b)
    ensures a.group == b.group && a.kind == b.kind && a.name == b.name
  {
    assert Key(a) == a.group + "/" + (a.kind + "/" + a.name);
    assert Key(b) == b.group + "/" + (b.kind + "/" + b.name);
    SplitUnique(a.group, a.kind + "/" + a.name, b.group, b.kind + "/" + b.name, '/');
    SplitUnique(a.kind, a.name, b.kind, b.name, '/');
  }

  /** Without that premise two components of different kinds can share a key. */
  lemma KeyCollision()
    ensures exists a, b: ObjectStatus :: Key(a) == Key(b) && a.kind != b.kind
  {
    var a := ObjectStatus("g", "K", "L/n", Readiness.Ready);
    var b := ObjectStatus("g", "K/L", "n", Readiness.Ready);
    assert Key(a) == "g/K/L/n" == Key(b);
  }

  lemma SlashEnds(a: string, b: string)
    requires Without(a, '/') && Without(b, '/') && a + "/" <= b + "/"
    ensures a == b
  {
    var x, y := a + "/", b + "/";
    assert x[|a|] == '/' && y[|a|] == x[|a|];
    assert |a| == |b|;
    assert a == x[..|a|] && b == y[..|b|];
  }

  lemma NotPrefixes(a: string, b: string)
    requires Without(a, '/') && Without(b, '/') && a != b
    ensures !(a + "/" <= b + "/") && !(b + "/" <= a + "/")
  {
    if a + "/" <= b + "/" { SlashEnds(a, b); }
    if b + "/" <= a + "/" { SlashEnds(b, a); }
  }

  /** The listing goes by group, then by kind, then by name, each ended by a slash and in byte order. */
  lemma KeyOrder(a: ObjectStatus, b: ObjectStatus)
    requires SlashFree(a) && SlashFree(b)
    ensures LexLess(Key(a), Key(b)) <==>
            if a.group != b.group then LexLess(a.group + "/", b.group + "/")
            else if a.kind != b.kind then LexLess(a.kind + "/", b.kind + "/")
            else LexLess(a.name, b.name)
  {
    var ka, kb := a.kind + "/", b.kind + "/";
    assert Key(a) == (a.group + "/") + (ka + a.name) && Key(b) == (b.group + "/") + (kb + b.name);
    if a.group != b.group {
      NotPrefixes(a.group, b.group);
      LexDecided(a.group + "/", b.group + "/", ka + a.name, kb + b.name);
    } else {
      LexPrefix(a.group + "/", ka + a.name, kb + b.name);
      if a.kind != b.kind {
        NotPrefixes(a.kind, b.kind);
        LexDecided(ka, kb, a.name, b.name);
      } else {
        LexPrefix(ka, a.name, b.name);
      }
    }
    hide LexLess, Without;
  }

  predicate Sorted(os: seq<ObjectStatus>) {
    forall i, j :: 0 <= i < j < |os| ==> !LexLess(Key(os[j]), Key(os[i]))
  }

  /** What sort.Slice may return: some sorted permutation. It is not stable, so nothing more is promised. */
  ghost predicate SortOf(listed: seq<ObjectStatus>, sorted: seq<ObjectStatus>) {
    Sorted(sorted) && multiset(sorted) == multiset(listed)
  }

  /** Entries with one key are equal entries. */
  ghost predicate TieFree(os: seq<ObjectStatus>) {
    forall i, j :: 0 <= i < |os| && 0 <= j < |os| && Key(os[i]) == Key(os[j]) ==> os[i] == os[j]
  }

  lemma TieFreePermutes(a: seq<ObjectStatus>, b: seq<ObjectStatus>)
    requires TieFree(a) && multiset(a) == multiset(b)
    ensures TieFree(b)
  {
    forall i, j | 0 <= i < |b| && 0 <= j < |b| && Key(b[i]) == Key(b[j])
      ensures b[i] == b[j]
    {
      var k := Readiness.SameElements(b, a, i);
      var l := Readiness.SameElements(b, a, j);
    }
  }

  lemma TailElements<T>(a: seq<T>)
    requires a != []
    ensures multiset(a[1..]) == multiset(a) - multiset{a[0]}
  {
    assert a == [a[0]] + a[1..];
  }

  lemma SameLeast(a: seq<ObjectStatus>, b: seq<ObjectStatus>)
    requires Sorted(a) && Sorted(b) && multiset(a) == multiset(b) && TieFree(a) && a != [] && b != []
    ensures a[0] == b[0]
  {
    hide Key, LexLess;
    var i := Readiness.SameElements(a, b, 0);
    var j := Readiness.SameElements(b, a, 0);
    LexTotal(Key(a[0]), Key(b[0]));
    assert Key(a[0]) == Key(b[0]);
    assert a[j] == b[0];
  }

  /** Two sorted permutations of a tie-free list are the same list. */
  lemma {:induction false} SortUnique(a: seq<ObjectStatus>, b: seq<ObjectStatus>)
    requires Sorted(a) && Sorted(b) && multiset(a) == multiset(b) && TieFree(a)
    ensures a == b
  {
    hide Key, LexLess;
    assert |a| == |b| by { assert |multiset(a)| == |multiset(b)|; }
    if a != [] {
      SameLeast(a, b);
      TailElements(a);
      TailElements(b);
      SortUnique(a[1..], b[1..]);
      assert a == [a[0]] + a[1..] && b == [b[0]] + b[1..];
    }
  }

  lemma TieFreeCanonical(listed: seq<ObjectStatus>, a: seq<ObjectStatus>, b: seq<ObjectStatus>)
    requires TieFree(listed) && SortOf(listed, a) && SortOf(listed, b)
    ensures a == b
  {
    TieFreePermutes(listed, a);
    SortUnique(a, b);
  }

  /** Swapping two different entries with one key gives another sorted permutation. */
  lemma TieSwaps(listed: seq<ObjectStatus>, a: seq<ObjectStatus>, i: nat, j: nat)
    requires SortOf(listed, a) && i < |a| && j < |a| && Key(a[i]) == Key(a[j]) && a[i] != a[j]
    ensures SortOf(listed, a[i := a[j]][j := a[i]]) && a[i := a[j]][j := a[i]] != a
  {
    hide Key, LexLess;
    var b := a[i := a[j]][j := a[i]];
    Readiness.SwapKeepsElements(a, i, j);
    assert forall k :: 0 <= k < |a| ==> Key(b[k]) == Key(a[k]);
    assert b[i] != a[i];
  }

  /** The order written to the status is canonical exactly when no two entries with one key differ. */
  lemma CanonicalOrderIff(listed: seq<ObjectStatus>)
    ensures TieFree(listed) <==> forall a, b :: SortOf(listed, a) && SortOf(listed, b) ==> a == b
  {
    if TieFree(listed) {
      forall a, b | SortOf(listed, a) && SortOf(listed, b) ensures a == b {
        TieFreeCanonical(listed, a, b);
      }
    } else {
      var a := SortedCopy(listed);
      if TieFree(a) { TieFreePermutes(a, listed); }
      var i, j :| 0 <= i < |a| && 0 <= j < |a| && Key(a[i]) == Key(a[j]) && a[i] != a[j];
      TieSwaps(listed, a, i, j);
      hide SortOf, TieFree, Key;
    }
  }

  // ----- a sort, standing for the library call -----

  function Insert(o: ObjectStatus, os: seq<ObjectStatus>): seq<ObjectStatus> {
    if os == [] || !LexLess(Key(os[0]), Key(o)) then [o] + os else [os[0]] + Insert(o, os[1..])
  }

  lemma {:induction false} InsertSorts(o: ObjectStatus, os: seq<ObjectStatus>)
    requires Sorted(os)
    ensures Sorted(Insert(o, os)) && multiset(Insert(o, os)) == multiset(os) + multiset{o}
  {
    if os == [] {
    } else if !LexLess(Key(os[0]), Key(o)) {
      var r := [o] + os;
      forall j | 0 < j < |r| ensures !LexLess(Key(r[j]), Key(r[0])) {
        if LexLess(Key(r[j]), Key(o)) {
          LexTotal(Key(os[0]), Key(o));
          if Key(os[0]) != Key(o) { LexTransitive(Key(r[j]), Key(o), Key(os[0])); }
        }
      }
    } else {
      InsertSorts(o, os[1..]);
      assert os == [os[0]] + os[1..];
      var t := Insert(o, os[1..]);
      var r := [os[0]] + t;
      forall j | 0 < j < |r| ensures !LexLess(Key(r[j]), Key(r[0])) {
        assert r[j] in multiset(t);
        if r[j] == o {
          LexAsymmetric(Key(o), Key(os[0]));
        } else {
          assert r[j] in os[1..];
        }
      }
    }
  }

  method SortStatuses(listed: seq<ObjectStatus>) returns (sorted: seq<ObjectStatus>)
    ensures SortOf(listed, sorted)
  {
    sorted := [];
    for i := 0 to |listed|
      invariant Sorted(sorted) && multiset(sorted) == multiset(listed[..i])
    {
      InsertSorts(listed[i], sorted);
      sorted := Insert(listed[i], sorted);
      assert listed[..i + 1] == listed[..i] + [listed[i]];
    }
    assert listed[..|listed|] == listed;
  }

  lemma {:induction false} SortedCopy(listed: seq<ObjectStatus>) returns (sorted: seq<ObjectStatus>)
    ensures SortOf(listed, sorted)
  {
    if listed == [] {
      sorted := [];
    } else {
      var t := SortedCopy(listed[1..]);
      InsertSorts(listed[0], t);
      sorted := Insert(listed[0], t);
      assert listed == [listed[0]] + listed[1..];
    }
  }
}
