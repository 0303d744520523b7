/** The table of stored configurations and the dependency graph it carries: each
    configuration records the set of those that rely on it. */
module ConfigTable {
  import opened Json

  datatype Category =
    | FileFilter | PathFilter | Command | Repo | Compress | ConfSave | ConfTest | ConfDiff
    | ConfList | ConfRest | ConfMerge | ConfRepair | ConfCommon | Slicing | Ciphering
    | DeltaSig | OverPolicy | ConfRead | ConfIsolate

  datatype Coordinates = Coordinates(cat: Category, confname: string)

  type UsingSet = set<Coordinates>

  /** A configuration and the set of those that depend on it. */
  datatype LinkedConfig = LinkedConfig(config: Value, dependency: UsingSet)

  type Asso = map<string, LinkedConfig>

  type Table = map<Category, Asso>

  predicate Has(t: Table, c: Coordinates) {
    c.cat in t && c.confname in t[c.cat]
  }

  function Entry(t: Table, c: Coordinates): LinkedConfig
    requires Has(t, c)
  {
    t[c.cat][c.confname]
  }

  function Known(t: Table): (s: set<Coordinates>)
    ensures forall c :: c in s <==> Has(t, c)
  {
    set cat, name | cat in t && name in t[cat] :: Coordinates(cat, name)
  }

  /** Every category has its entry, be it empty. */
  predicate Complete(t: Table) {
    forall cat: Category :: cat in t
  }

  /** user relies on used. */
  predicate Uses(t: Table, user: Coordinates, used: Coordinates) {
    Has(t, used) && user in Entry(t, used).dependency
  }

  function DirectDependencies(t: Table, user: Coordinates): (s: UsingSet)
    ensures forall c :: c in s <==> Uses(t, user, c)
  {
    set c | c in Known(t) && Uses(t, user, c)
  }

  /** The table once user is recorded at each of refs. */
  function WithUser(t: Table, user: Coordinates, refs: UsingSet): Table {
    map cat | cat in t :: map name | name in t[cat] ::
      var l := t[cat][name];
      if Coordinates(cat, name) in refs then l.(dependency := l.dependency + {user}) else l
  }

  function AssoWithoutUser(a: Asso, user: Coordinates): Asso {
    map name | name in a :: a[name].(dependency := a[name].dependency - {user})
  }

  /** The table once user is recorded nowhere. */
  function WithoutUser(t: Table, user: Coordinates): Table {
    map cat | cat in t :: AssoWithoutUser(t[cat], user)
  }

  lemma WithUserEdges(t: Table, user: Coordinates, refs: UsingSet)
    ensures forall c :: Has(WithUser(t, user, refs), c) <==> Has(t, c)
    ensures forall u, c :: Uses(WithUser(t, user, refs), u, c) <==>
      Uses(t, u, c) || (u == user && c in refs && Has(t, c))
  {
  }

  lemma WithoutUserEdges(t: Table, user: Coordinates)
    ensures forall c :: Has(WithoutUser(t, user), c) <==> Has(t, c)
    ensures forall u, c :: Uses(WithoutUser(t, user), u, c) <==> Uses(t, u, c) && u != user
  {
  }

  lemma WithNobody(t: Table, user: Coordinates)
    ensures WithUser(t, user, {}) == t
  {
    var w := WithUser(t, user, {});
    forall cat | cat in t ensures w[cat] == t[cat] {
      forall name | name in t[cat] ensures w[cat][name] == t[cat][name] {
      }
    }
  }

  /** Taking a user away undoes having recorded it, wherever that was. */
  lemma WithoutWithUser(t: Table, user: Coordinates, refs: UsingSet)
    ensures WithoutUser(WithUser(t, user, refs), user) == WithoutUser(t, user)
  {
    var a, b := WithoutUser(WithUser(t, user, refs), user), WithoutUser(t, user);
    forall cat | cat in t ensures a[cat] == b[cat] {
      forall name | name in t[cat] ensures a[cat][name] == b[cat][name] {
      }
    }
  }

  /** A user recorded nowhere is taken away without effect. */
  lemma WithoutStranger(t: Table, user: Coordinates)
    requires forall c :: !Uses(t, user, c)
    ensures WithoutUser(t, user) == t
  {
    var a := WithoutUser(t, user);
    forall cat | cat in t ensures a[cat] == t[cat] {
      forall name | name in t[cat] ensures a[cat][name] == t[cat][name] {
        assert !Uses(t, user, Coordinates(cat, name));
      }
    }
  }

  // ------------------------------------------------------------------ invariants

  /** Every recorded user is itself stored. */
  ghost predicate Integrity(t: Table) {
    forall user, used :: Uses(t, user, used) ==> Has(t, user)
  }

  ghost predicate Walk(t: Table, p: seq<Coordinates>) {
    |p| > 0 && forall i :: 0 <= i < |p| - 1 ==> Uses(t, p[i], p[i + 1])
  }

  function Last<T>(p: seq<T>): T
    requires |p| > 0
  {
    p[|p| - 1]
  }

  ghost predicate Acyclic(t: Table) {
    forall p :: Walk(t, p) && |p| >= 2 ==> p[0] != Last(p)
  }

  /** A walk from source that ends on one of its own earlier steps or on one of seen. */
  ghost predicate BadWalk(t: Table, source: Coordinates, seen: UsingSet, p: seq<Coordinates>) {
    Walk(t, p) && p[0] == source && (Last(p) in seen || Last(p) in p[..|p| - 1])
  }

  ghost predicate FindsCycle(t: Table, source: Coordinates, seen: UsingSet) {
    exists p :: BadWalk(t, source, seen, p)
  }

  // ------------------------------------------------------------------ the search

  lemma SeenIsBad(t: Table, source: Coordinates, seen: UsingSet)
    requires source in seen
    ensures FindsCycle(t, source, seen)
  {
    assert BadWalk(t, source, seen, [source]);
  }

  /** A cycle found below a direct dependency is one found from the source. */
  lemma BadChild(t: Table, source: Coordinates, child: Coordinates, seen: UsingSet)
    requires Uses(t, source, child)
    requires FindsCycle(t, child, seen + {source})
    ensures FindsCycle(t, source, seen)
  {
    var q :| BadWalk(t, child, seen + {source}, q);
    var p := [source] + q;
    assert p[..|p| - 1] == [source] + q[..|q| - 1];
    assert Walk(t, p) by {
      forall i | 0 <= i < |p| - 1 ensures Uses(t, p[i], p[i + 1]) {
        if i > 0 { assert Uses(t, q[i - 1], q[i]); }
      }
    }
    assert BadWalk(t, source, seen, p);
  }

  /** Conversely, when neither the source nor any direct dependency finds one, there is none. */
  lemma NoBadChild(t: Table, source: Coordinates, seen: UsingSet)
    requires source !in seen
    requires forall child :: Uses(t, source, child) ==> !FindsCycle(t, child, seen + {source})
    ensures !FindsCycle(t, source, seen)
  {
    if p :| BadWalk(t, source, seen, p) {
      assert |p| > 1;
      var q := p[1..];
      assert p[..|p| - 1] == [source] + q[..|q| - 1];
      assert Uses(t, p[0], p[1]);
      assert Walk(t, q) by {
        forall i | 0 <= i < |q| - 1 ensures Uses(t, q[i], q[i + 1]) {
          assert Uses(t, p[i + 1], p[i + 2]);
        }
      }
      assert BadWalk(t, q[0], seen + {source}, q);
    }
  }

  // ------------------------------------------------------------------ what the search says of the graph

  /** A walk cut at i and resumed with r, which starts there. */
  lemma Joined(t: Table, p: seq<Coordinates>, r: seq<Coordinates>) returns (w: seq<Coordinates>)
    requires Walk(t, p) && Walk(t, r) && Last(p) == r[0]
    ensures w == p + r[1..] && Walk(t, w) && w[0] == p[0] && Last(w) == Last(r)
  {
    w := p + r[1..];
    forall i | 0 <= i < |w| - 1 ensures Uses(t, w[i], w[i + 1]) {
      if i < |p| - 1 {
        assert Uses(t, p[i], p[i + 1]);
      } else {
        assert w[i] == r[i - |p| + 1] && w[i + 1] == r[i - |p| + 2];
        assert Uses(t, r[i - |p| + 1], r[i - |p| + 2]);
      }
    }
  }

  lemma SubWalk(t: Table, p: seq<Coordinates>, from: nat, to: nat)
    requires Walk(t, p) && from < to <= |p|
    ensures Walk(t, p[from..to])
  {
    forall i | 0 <= i < to - from - 1 ensures Uses(t, p[from..to][i], p[from..to][i + 1]) {
      assert Uses(t, p[from + i], p[from + i + 1]);
    }
  }

  /** Finding a cycle from any source means that the graph has one. */
  lemma FoundIsCyclic(t: Table, source: Coordinates)
    requires FindsCycle(t, source, {})
    ensures !Acyclic(t)
  {
    var p :| BadWalk(t, source, {}, p);
    var i :| 0 <= i < |p| - 1 && p[i] == Last(p);
    SubWalk(t, p, i, |p|);
    assert p[i..][0] == Last(p[i..]);
  }

  /** A walk all of whose steps are taken from nodes with no new edge is one of the former graph. */
  lemma FormerWalk(before: Table, after: Table, p: seq<Coordinates>)
    requires Walk(after, p)
    requires forall user, used :: user in p[..|p| - 1] && Uses(after, user, used) ==> Uses(before, user, used)
    ensures Walk(before, p)
  {
    forall i | 0 <= i < |p| - 1 ensures Uses(before, p[i], p[i + 1]) {
      assert p[i] == p[..|p| - 1][i];
      assert Uses(after, p[i], p[i + 1]);
    }
  }

  lemma CycleThroughSource(t: Table, source: Coordinates, p: seq<Coordinates>, i: nat)
    requires Walk(t, p) && p[0] == Last(p) && i < |p| - 1 && p[i] == source
    ensures FindsCycle(t, source, {})
  {
    SubWalk(t, p, i, |p|);
    SubWalk(t, p, 0, i + 1);
    var w := Joined(t, p[i..], p[..i + 1]);
    assert w[0] in w[..|w| - 1];
    assert BadWalk(t, source, {}, w);
  }

  /** If the graph was acyclic before the edges out of source changed, the search from source
      is complete: it finds a cycle exactly when the whole graph has one. */
  lemma SearchDecidesAcyclicity(before: Table, after: Table, source: Coordinates)
    requires Acyclic(before)
    requires forall user, used :: user != source && Uses(after, user, used) ==> Uses(before, user, used)
    ensures FindsCycle(after, source, {}) <==> !Acyclic(after)
  {
    if FindsCycle(after, source, {}) {
      FoundIsCyclic(after, source);
    }
    forall p | Walk(after, p) && |p| >= 2 && p[0] == Last(p)
      ensures FindsCycle(after, source, {})
    {
      if source !in p[..|p| - 1] {
        FormerWalk(before, after, p);
      } else {
        var i :| 0 <= i < |p| - 1 && p[i] == source;
        CycleThroughSource(after, source, p, i);
      }
    }
  }

  /** Fewer edges make no new cycle. */
  lemma FewerEdgesAcyclic(before: Table, after: Table)
    requires Acyclic(before)
    requires forall user, used :: Uses(after, user, used) ==> Uses(before, user, used)
    ensures Acyclic(after)
  {
    forall p | Walk(after, p) && |p| >= 2 ensures p[0] != Last(p) {
      FormerWalk(before, after, p);
    }
  }

  // ------------------------------------------------------------------ names of categories

  function CategoryToString(cat: Category): string {
    match cat
    case FileFilter => "filefilter"
    case PathFilter => "pathfilter"
    case Command => "command"
    case Repo => "repo"
    case Compress => "compress"
    case ConfSave => "confsave"
    case ConfTest => "conftest"
    case ConfDiff => "confdiff"
    case ConfList => "conflist"
    case ConfRest => "confrest"
    case ConfMerge => "confmerge"
    case ConfRepair => "confrepair"
    case ConfCommon => "confcommon"
    case Slicing => "slicing"
    case Ciphering => "ciphering"
    case DeltaSig => "delta-sig"
    case OverPolicy => "over-policy"
    case ConfRead => "confread"
    case ConfIsolate => "confisolate"
  }

  function StringToCategory(s: string): (cat: Option<Category>)
    ensures forall c: Category :: cat == Some(c) <==> s == CategoryToString(c)
  {
    if s == "filefilter" then Some(FileFilter)
    else if s == "pathfilter" then Some(PathFilter)
    else if s == "command" then Some(Command)
    else if s == "repo" then Some(Repo)
    else if s == "compress" then Some(Compress)
    else if s == "confsave" then Some(ConfSave)
    else if s == "conftest" then Some(ConfTest)
    else if s == "confdiff" then Some(ConfDiff)
    else if s == "conflist" then Some(ConfList)
    else if s == "confrest" then Some(ConfRest)
    else if s == "confmerge" then Some(ConfMerge)
    else if s == "confrepair" then Some(ConfRepair)
    else if s == "confcommon" then Some(ConfCommon)
    else if s == "slicing" then Some(Slicing)
    else if s == "ciphering" then Some(Ciphering)
    else if s == "delta-sig" then Some(DeltaSig)
    else if s == "over-policy" then Some(OverPolicy)
    else if s == "confread" then Some(ConfRead)
    else if s == "confisolate" then Some(ConfIsolate)
    else None
  }
}
