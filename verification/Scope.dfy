/** Which namespaces a connection covers (ParseNamespaces, inScope and listApps in push/pusher.go). */
module Scope {
  import opened Text

  datatype Key = Key(namespace: string, name: string)

  /** An Application object; `content` stands for everything but its identity. */
  datatype App = App(key: Key, content: int)

  /** The trimmed, non-blank parts. */
  function Entries(parts: seq<string>): seq<string> {
    if parts == [] then []
    else
      var n := |parts| - 1;
      var ns := TrimSpace(parts[n]);
      Entries(parts[..n]) + if ns != "" then [ns] else []
  }

  lemma {:induction false} EntriesClean(parts: seq<string>)
    ensures forall i :: 0 <= i < |Entries(parts)| ==> Entries(parts)[i] != "" && Trimmed(Entries(parts)[i])
  {
    if parts != [] {
      var n := |parts| - 1;
      EntriesClean(parts[..n]);
      assert Trimmed(TrimSpace(parts[n]));
      hide TrimSpace, Trimmed;
    }
  }

  lemma {:induction false} EntriesWithout(parts: seq<string>, c: char)
    requires forall i :: 0 <= i < |parts| ==> Without(parts[i], c)
    ensures forall i :: 0 <= i < |Entries(parts)| ==> Without(Entries(parts)[i], c)
  {
    hide TrimSpace, Trimmed;
    if parts != [] {
      var n := |parts| - 1;
      EntriesWithout(parts[..n], c);
      var t := TrimSpace(parts[n]);
      forall i | 0 <= i < |t| ensures t[i] != c { assert t[i] in parts[n]; }
    }
  }

  function Namespaces(s: string): seq<string> {
    Entries(Split(s, ','))
  }

  method ParseNamespaces(s: string) returns (out: seq<string>)
    ensures out == Namespaces(s)
    ensures forall i :: 0 <= i < |out| ==> out[i] != "" && Trimmed(out[i]) && Without(out[i], ',')
  {
    hide TrimSpace;
    out := [];
    var parts := Split(s, ',');
    for i := 0 to |parts|
      invariant out == Entries(parts[..i])
    {
      assert parts[..i + 1][..i] == parts[..i];
      var ns := TrimSpace(parts[i]);
      if ns != "" {
        out := out + [ns];
      }
    }
    assert parts[..|parts|] == parts;
    EntriesWithout(parts, ',');
    EntriesClean(parts);
  }

  /** A name with blanks around it; an empty one stands for an all-blank part. */
  datatype Padded = Padded(left: string, name: string, right: string)

  predicate Clean(p: Padded) {
    Blank(p.left) && Blank(p.right) && Trimmed(p.name) && Without(p.name, ',')
  }

  function Texts(ps: seq<Padded>): (ts: seq<string>)
    ensures |ts| == |ps| && forall i :: 0 <= i < |ps| ==> ts[i] == ps[i].left + ps[i].name + ps[i].right
  {
    seq(|ps|, i requires 0 <= i < |ps| => ps[i].left + ps[i].name + ps[i].right)
  }

  /** The names that are there, in order. */
  function Names(ps: seq<Padded>): seq<string> {
    if ps == [] then []
    else
      var p := ps[|ps| - 1];
      if p.name == "" then Names(ps[..|ps| - 1]) else Names(ps[..|ps| - 1]) + [p.name]
  }

  lemma {:induction false} EntriesOfTexts(ps: seq<Padded>)
    requires forall i :: 0 <= i < |ps| ==> Clean(ps[i])
    ensures Entries(Texts(ps)) == Names(ps)
  {
    hide TrimSpace, Trimmed, Blank, Without;
    if ps != [] {
      var n := |ps| - 1;
      EntriesOfTexts(ps[..n]);
      TrimSpacePadded(ps[n].left, ps[n].name, ps[n].right);
      assert Texts(ps) == Texts(ps[..n]) + [ps[n].left + ps[n].name + ps[n].right];
      EntriesSnoc(Texts(ps[..n]), ps[n].left + ps[n].name + ps[n].right);
      hide Entries, Texts;
    }
  }

  lemma NoComma(p: Padded)
    requires Clean(p)
    ensures Without(p.left + p.name + p.right, ',')
  {
    assert !IsSpace(',');
    hide IsSpace, Trimmed;
  }

  /** Parsing undoes joining: for any names, with any blanks around each and any all-blank parts in between,
      the joined text parses back to the names in order. */
  lemma ParseJoin(ps: seq<Padded>)
    requires ps != [] && forall i :: 0 <= i < |ps| ==> Clean(ps[i])
    ensures Namespaces(Join(Texts(ps), ',')) == Names(ps)
  {
    forall i | 0 <= i < |ps| ensures Without(Texts(ps)[i], ',') {
      NoComma(ps[i]);
    }
    SplitJoin(Texts(ps), ',');
    EntriesOfTexts(ps);
    hide Clean, Names, Texts, Entries, Split, Join;
  }

  lemma ExampleTrims()
    ensures TrimSpace("ops") == "ops" && TrimSpace(" dev") == "dev"
  {
    assert "" + "ops" + "" == "ops" && " " + "dev" + "" == " dev";
    hide TrimSpace;
    TrimSpacePadded("", "ops", "");
    TrimSpacePadded(" ", "dev", "");
  }

  lemma ExampleSplits()
    ensures Split("ops, dev", ',') == ["ops"] + [" dev"]
  {
    assert "ops, dev" == "ops" + [','] + " dev";
    hide Split;
    SplitStep("ops", " dev", ',');
    SplitOne(" dev", ',');
  }

  /** An input that the source's own comment names. */
  lemma ParseExample()
    ensures Namespaces("ops, dev") == ["ops", "dev"]
  {
    hide Split, TrimSpace, Entries;
    ExampleTrims();
    ExampleSplits();
    TwoEntries("ops", " dev");
  }

  lemma TwoEntries(a: string, b: string)
    requires TrimSpace(a) != "" && TrimSpace(b) != ""
    ensures Entries([a] + [b]) == [TrimSpace(a), TrimSpace(b)]
  {
    hide TrimSpace;
    EntriesSnoc([], a);
    EntriesSnoc([a], b);
    assert [] + [a] == [a];
  }

  lemma EntriesSnoc(parts: seq<string>, s: string)
    ensures Entries(parts + [s]) == Entries(parts) + if TrimSpace(s) != "" then [TrimSpace(s)] else []
  {
    assert (parts + [s])[..|parts|] == parts;
  }

  // ----- scope -----

  predicate Covers(namespaces: seq<string>, ns: string) {
    namespaces == [] || ns in namespaces
  }

  method InScope(namespaces: seq<string>, ns: string) returns (r: bool)
    ensures r == Covers(namespaces, ns)
    ensures r <==> |namespaces| == 0 || exists i :: 0 <= i < |namespaces| && namespaces[i] == ns
  {
    if |namespaces| == 0 {
      return true;
    }
    for i := 0 to |namespaces|
      invariant ns !in namespaces[..i]
    {
      if namespaces[i] == ns {
        return true;
      }
      assert namespaces[..i + 1] == namespaces[..i] + [namespaces[i]];
    }
    assert namespaces[..|namespaces|] == namespaces;
    return false;
  }

  /** What one List call returns: all namespaces for "". */
  predicate Listed(ns: string, a: App) {
    ns == "" || a.key.namespace == ns
  }

  predicate ListedBy(namespaces: seq<string>, a: App) {
    if namespaces == [] then true else exists ns :: ns in namespaces && Listed(ns, a)
  }

  method ListNamespace(cache: seq<App>, ns: string) returns (items: seq<App>)
    ensures forall a :: a in items <==> a in cache && Listed(ns, a)
  {
    items := [];
    for i := 0 to |cache|
      invariant forall a :: a in items <==> a in cache[..i] && Listed(ns, a)
    {
      assert cache[..i + 1] == cache[..i] + [cache[i]];
      if Listed(ns, cache[i]) {
        items := items + [cache[i]];
      }
    }
    assert cache[..|cache|] == cache;
  }

  method ListApps(namespaces: seq<string>, cache: seq<App>) returns (out: seq<App>)
    ensures forall a :: a in out <==> a in cache && ListedBy(namespaces, a)
    ensures forall a :: a in out <==>
              a in cache && (namespaces == [] || "" in namespaces || a.key.namespace in namespaces)
  {
    var nss := namespaces;
    if |nss| == 0 {
      nss := [""];
    }
    out := [];
    for i := 0 to |nss|
      invariant forall a :: a in out <==> a in cache && exists ns :: ns in nss[..i] && Listed(ns, a)
    {
      ghost var before := out;
      var items := ListNamespace(cache, nss[i]);
      out := out + items;
      assert nss[..i + 1] == nss[..i] + [nss[i]];
      forall a
        ensures a in out <==> a in cache && exists ns :: ns in nss[..i + 1] && Listed(ns, a)
      {
        assert a in out <==> a in before || a in items;
        assert nss[i] in nss[..i + 1];
      }
    }
    assert nss[..|nss|] == nss;
    assert namespaces == [] ==> "" in nss;
  }

  lemma {:induction false} LongestBound(names: seq<string>) returns (n: nat)
    ensures forall x :: x in names ==> |x| < n
  {
    if names == [] {
      n := 0;
    } else {
      var m := LongestBound(names[1..]);
      n := if |names[0]| < m then m else |names[0]| + 1;
      assert names == [names[0]] + names[1..];
    }
  }

  /** The snapshot path and the delta path cover the same Applications exactly when no entry is blank. */
  lemma ScopeAgreesIff(namespaces: seq<string>)
    ensures "" !in namespaces <==>
            forall a: App :: a.key.namespace != "" ==> ListedBy(namespaces, a) == Covers(namespaces, a.key.namespace)
  {
    if "" in namespaces {
      var n := LongestBound(namespaces);
      var a := App(Key(seq(n + 1, _ => 'x'), ""), 0);
      assert |a.key.namespace| == n + 1;
      assert Listed("", a);
    } else {
      forall a: App | a.key.namespace != ""
        ensures ListedBy(namespaces, a) == Covers(namespaces, a.key.namespace)
      {
        if Covers(namespaces, a.key.namespace) && namespaces != [] {
          assert Listed(a.key.namespace, a);
        }
      }
    }
  }

  /** Scope agreement: for every input string, what listApps lists of a cache is what inScope accepts. */
  lemma ScopeAgrees(s: string, a: App)
    ensures ListedBy(Namespaces(s), a) == Covers(Namespaces(s), a.key.namespace)
  {
    var nss := Namespaces(s);
    EntriesClean(Split(s, ','));
    hide Entries, Split;
    if nss != [] && Covers(nss, a.key.namespace) {
      assert Listed(a.key.namespace, a);
    }
  }
}
