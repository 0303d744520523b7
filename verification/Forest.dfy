/** The adoption relation, kept in four places by each node: its parent, the order of its
    children, and the two maps between its children and their names. */
module Forest {
  import opened Json

  datatype Links<N> = Links(parent: Option<N>, order: seq<N>, children: map<string, N>, revert: map<N, string>)

  /** All the nodes there are, each with its links. */
  type Family<N> = map<N, Links<N>>

  ghost predicate Distinct<N>(s: seq<N>) {
    forall i, j :: 0 <= i < j < |s| ==> s[i] != s[j]
  }

  /** The two maps are inverse of each other and name just the nodes of the ordered list. */
  ghost predicate NamesAgree<N>(l: Links<N>) {
    && Distinct(l.order)
    && l.revert.Keys == (set c | c in l.order)
    && (forall c :: c in l.revert ==> l.revert[c] in l.children && l.children[l.revert[c]] == c)
    && (forall name :: name in l.children ==> l.children[name] in l.revert && l.revert[l.children[name]] == name)
  }

  /** The parent of a node lists it. */
  ghost predicate ListedByParent<N>(f: Family<N>, c: N)
    requires c in f
  {
    f[c].parent.Some? ==> f[c].parent.value in f && c in f[f[c].parent.value].order
  }

  /** A node lists its own children only. */
  ghost predicate ListsItsOwn<N>(f: Family<N>, p: N)
    requires p in f
  {
    forall c :: c in f[p].order ==> c in f && f[c].parent == Some(p)
  }

  /** Parents and ordered lists tell the same adoptions, and names follow them. */
  ghost predicate Coherent<N>(f: Family<N>) {
    && (forall p {:trigger NamesAgree(f[p])} :: p in f ==> NamesAgree(f[p]))
    && (forall p {:trigger ListsItsOwn(f, p)} :: p in f ==> ListsItsOwn(f, p))
    && (forall c {:trigger ListedByParent(f, c)} :: c in f ==> ListedByParent(f, c))
  }

  type Rank<N> = map<N, nat>

  ghost predicate BelowParent<N>(f: Family<N>, rank: Rank<N>, c: N)
    requires c in f && rank.Keys == f.Keys
  {
    f[c].parent.Some? ==> f[c].parent.value in f && rank[c] < rank[f[c].parent.value]
  }

  /** A height for each node, less than that of its parent: no node is above itself. */
  ghost predicate Ranked<N>(f: Family<N>, rank: Rank<N>) {
    && rank.Keys == f.Keys
    && forall c {:trigger BelowParent(f, rank, c)} :: c in f ==> BelowParent(f, rank, c)
  }

  // ------------------------------------------------------------------ above and below

  ghost function Higher<N>(rank: Rank<N>, n: N): set<N>
    requires n in rank
  {
    set m | m in rank && rank[m] >= rank[n]
  }

  lemma HigherShrinks<N>(rank: Rank<N>, n: N, p: N)
    requires n in rank && p in rank && rank[n] < rank[p]
    ensures Higher(rank, p) < Higher(rank, n)
  {
    assert n in Higher(rank, n) && n !in Higher(rank, p);
  }

  /** The nodes met on the way up from n, n included, as long as they are in left. */
  ghost function Climb<N>(f: Family<N>, left: set<N>, n: N): set<N>
    decreases left
  {
    if n !in left || n !in f then {}
    else
      match f[n].parent
      case None => {n}
      case Some(p) => {n} + Climb(f, left - {n}, p)
  }

  ghost function Ancestors<N>(f: Family<N>, n: N): set<N> {
    Climb(f, f.Keys, n)
  }

  ghost predicate Under<N>(f: Family<N>, m: N, n: N) {
    n in Ancestors(f, m)
  }

  /** In a ranked family climbing is not cut short: it does not matter what is left below. */
  lemma {:induction false} ClimbWhole<N>(f: Family<N>, rank: Rank<N>, l1: set<N>, l2: set<N>, n: N)
    requires Ranked(f, rank) && n in f
    requires forall m :: m in f && rank[m] >= rank[n] ==> m in l1 && m in l2
    ensures Climb(f, l1, n) == Climb(f, l2, n)
    decreases l1
  {
    assert BelowParent(f, rank, n);
    match f[n].parent
    case None =>
    case Some(p) => ClimbWhole(f, rank, l1 - {n}, l2 - {n}, p);
  }

  lemma AncestorsStep<N>(f: Family<N>, rank: Rank<N>, n: N)
    requires Ranked(f, rank) && n in f
    ensures Ancestors(f, n) == {n} + match f[n].parent case None => {} case Some(p) => Ancestors(f, p)
  {
    assert BelowParent(f, rank, n);
    match f[n].parent
    case None =>
    case Some(p) => ClimbWhole(f, rank, f.Keys - {n}, f.Keys, p);
  }

  /** The nodes above n are nodes, higher than n. */
  lemma {:induction false} AncestorsHigher<N>(f: Family<N>, rank: Rank<N>, left: set<N>, n: N, a: N)
    requires Ranked(f, rank) && n in f && a in Climb(f, left, n)
    ensures a in f && rank[a] >= rank[n] && (a != n ==> rank[a] > rank[n])
    decreases left
  {
    assert BelowParent(f, rank, n);
    if a != n {
      AncestorsHigher(f, rank, left - {n}, f[n].parent.value, a);
    }
  }

  /** Above an ancestor of n is above n. */
  lemma {:induction false} AncestorsClosed<N>(f: Family<N>, rank: Rank<N>, n: N, a: N)
    requires Ranked(f, rank) && n in f && a in Ancestors(f, n)
    ensures a in f && Ancestors(f, a) <= Ancestors(f, n)
    decreases Higher(rank, n)
  {
    AncestorsHigher(f, rank, f.Keys, n, a);
    AncestorsStep(f, rank, n);
    assert BelowParent(f, rank, n);
    if a != n {
      var p := f[n].parent.value;
      HigherShrinks(rank, n, p);
      AncestorsClosed(f, rank, p, a);
    }
  }

  /** What is under one child is not under another. */
  lemma {:induction false} OneBranch<N>(f: Family<N>, rank: Rank<N>, m: N, c: N, d: N)
    requires Ranked(f, rank) && m in f && c in f && d in f
    requires f[c].parent.Some? && f[c].parent == f[d].parent
    requires Under(f, m, c) && Under(f, m, d)
    ensures c == d
    decreases Higher(rank, m)
  {
    AncestorsStep(f, rank, m);
    assert BelowParent(f, rank, m) && BelowParent(f, rank, c) && BelowParent(f, rank, d);
    if m == c || m == d {
      var q := f[c].parent.value;
      if c != d {
        var other := if m == c then d else c;
        AncestorsHigher(f, rank, f.Keys, q, other);
      }
    } else {
      var p := f[m].parent.value;
      HigherShrinks(rank, m, p);
      OneBranch(f, rank, p, c, d);
    }
  }

  // ------------------------------------------------------------------ the path of a node

  /** Where the roots are. */
  type Prefixes<N> = map<N, seq<string>>

  /** The name a node has in the list of its parent. */
  ghost function NameOf<N>(f: Family<N>, p: N, n: N): string {
    if p in f && n in f[p].revert then f[p].revert[n] else ""
  }

  /** The path of n, read on the way up as long as the nodes met are in left. */
  ghost function PlaceIn<N>(f: Family<N>, prefix: Prefixes<N>, left: set<N>, n: N): seq<string>
    decreases left
  {
    if n !in left || n !in f then []
    else
      match f[n].parent
      case None => if n in prefix then prefix[n] else []
      case Some(p) => PlaceIn(f, prefix, left - {n}, p) + [NameOf(f, p, n)]
  }

  /** The path of n: the prefix of its root, then the names on the way down to it. */
  ghost function Place<N>(f: Family<N>, prefix: Prefixes<N>, n: N): seq<string> {
    PlaceIn(f, prefix, f.Keys, n)
  }

  lemma {:induction false} PlaceWhole<N>(f: Family<N>, prefix: Prefixes<N>, rank: Rank<N>, l1: set<N>, l2: set<N>, n: N)
    requires Ranked(f, rank) && n in f
    requires forall m :: m in f && rank[m] >= rank[n] ==> m in l1 && m in l2
    ensures PlaceIn(f, prefix, l1, n) == PlaceIn(f, prefix, l2, n)
    decreases l1
  {
    assert BelowParent(f, rank, n);
    match f[n].parent
    case None =>
    case Some(p) => PlaceWhole(f, prefix, rank, l1 - {n}, l2 - {n}, p);
  }

  lemma PlaceStep<N>(f: Family<N>, prefix: Prefixes<N>, rank: Rank<N>, n: N)
    requires Ranked(f, rank) && n in f
    ensures Place(f, prefix, n) ==
      match f[n].parent
      case None => if n in prefix then prefix[n] else []
      case Some(p) => Place(f, prefix, p) + [NameOf(f, p, n)]
  {
    assert BelowParent(f, rank, n);
    match f[n].parent
    case None =>
    case Some(p) => PlaceWhole(f, prefix, rank, f.Keys - {n}, f.Keys, p);
  }

  /** The two families and prefixes tell the same of n, but for the names of its children. */
  ghost predicate SameClimb<N>(f: Family<N>, prefix: Prefixes<N>, f': Family<N>, prefix': Prefixes<N>, n: N)
    requires n in f && n in f'
  {
    && f'[n].parent == f[n].parent
    && (n in prefix' <==> n in prefix) && (n in prefix ==> prefix'[n] == prefix[n])
    && (f[n].parent.Some? ==> NameOf(f', f[n].parent.value, n) == NameOf(f, f[n].parent.value, n))
  }

  /** A path is the same in both if all the nodes met on the way up are. */
  lemma {:induction false} SamePlace<N>(f: Family<N>, prefix: Prefixes<N>, rank: Rank<N>, f': Family<N>,
                                        prefix': Prefixes<N>, rank': Rank<N>, n: N)
    requires Ranked(f, rank) && Ranked(f', rank') && n in f'
    requires forall m :: m in Ancestors(f', n) ==> m in f && m in f' && SameClimb(f, prefix, f', prefix', m)
    ensures Place(f', prefix', n) == Place(f, prefix, n)
    decreases Higher(rank', n)
  {
    AncestorsStep(f', rank', n);
    PlaceStep(f', prefix', rank', n);
    PlaceStep(f, prefix, rank, n);
    if f'[n].parent.Some? {
      assert BelowParent(f', rank', n);
      HigherShrinks(rank', n, f'[n].parent.value);
      SamePlace(f, prefix, rank, f', prefix', rank', f'[n].parent.value);
    }
  }

  // ------------------------------------------------------------------ adopting and letting go

  /** The checks made before adopting. */
  predicate MayAdopt<N(==)>(f: Family<N>, p: N, c: N)
    requires p in f && c in f
  {
    c != p && c !in f[p].revert && f[c].parent.None?
  }

  ghost function AfterAdopt<N>(f: Family<N>, p: N, c: N, name: string): Family<N>
    requires p in f && c in f && p != c
  {
    f[p := Links(f[p].parent, f[p].order + [c], f[p].children[name := c], f[p].revert[c := name])]
     [c := f[c].(parent := Some(p))]
  }

  function Dropped<N(==)>(s: seq<N>, c: N): seq<N> {
    if s == [] then [] else if s[0] == c then s[1..] else [s[0]] + Dropped(s[1..], c)
  }

  ghost function AfterForesake<N>(f: Family<N>, p: N, c: N): Family<N>
    requires p in f && c in f && p != c && c in f[p].revert
  {
    f[p := Links(f[p].parent, Dropped(f[p].order, c), f[p].children - {f[p].revert[c]}, f[p].revert - {c})]
     [c := f[c].(parent := None)]
  }

  /** The adopted node comes last, under the name given; the other children stay where they are, under the
      names they have, and no other node is concerned. */
  lemma AdoptedLast<N>(f: Family<N>, p: N, c: N, name: string)
    requires Coherent(f) && p in f && c in f && MayAdopt(f, p, c) && name !in f[p].children
    ensures var f' := AfterAdopt(f, p, c, name); var l, l' := f[p], f'[p];
      && l'.order == l.order + [c] && l'.children[name] == c && l'.revert[c] == name && f'[c].parent == Some(p)
      && (forall d :: d in l.order ==> d in l'.revert && d in l.revert && l'.revert[d] == l.revert[d])
      && l'.parent == l.parent && f'[c] == f[c].(parent := Some(p))
      && f'.Keys == f.Keys && forall d :: d in f && d != p && d != c ==> f'[d] == f[d]
  {
    assert NamesAgree(f[p]);
  }

  lemma {:induction false} DroppedIs<N>(a: seq<N>, c: N, b: seq<N>)
    requires c !in a
    ensures Dropped(a + [c] + b, c) == a + b
  {
    if a == [] {
      assert [c] + b == a + [c] + b;
    } else {
      assert (a + [c] + b)[1..] == a[1..] + [c] + b;
      DroppedIs(a[1..], c, b);
    }
  }

  /** The child let go is taken out of the list; those before and after it stay in order, under the names
      they have, and no other node is concerned. */
  lemma ForesakenLeaves<N>(f: Family<N>, p: N, c: N, i: nat)
    requires Coherent(f) && p in f && c in f && p != c && i < |f[p].order| && f[p].order[i] == c
    ensures c in f[p].revert
    ensures var f' := AfterForesake(f, p, c); var l, l' := f[p], f'[p];
      && l'.order == l.order[..i] + l.order[i + 1..] && c !in l'.revert && f'[c] == f[c].(parent := None)
      && (forall d :: d in l.order && d != c ==> d in l'.revert && d in l.revert && l'.revert[d] == l.revert[d])
      && l'.parent == l.parent && f'.Keys == f.Keys && forall d :: d in f && d != p && d != c ==> f'[d] == f[d]
  {
    assert NamesAgree(f[p]);
    var o := f[p].order;
    assert o == o[..i] + [c] + o[i + 1..];
    DroppedIs(o[..i], c, o[i + 1..]);
  }

  lemma AdoptNames<N>(l: Links<N>, c: N, name: string)
    requires NamesAgree(l) && c !in l.revert && name !in l.children
    ensures NamesAgree(Links(l.parent, l.order + [c], l.children[name := c], l.revert[c := name]))
  {
    var l' := Links(l.parent, l.order + [c], l.children[name := c], l.revert[c := name]);
    assert l'.revert.Keys == l.revert.Keys + {c};
    assert (set x | x in l'.order) == (set x | x in l.order) + {c};
  }

  lemma AdoptLists<N>(f: Family<N>, p: N, c: N, name: string, q: N)
    requires Coherent(f) && p in f && c in f && MayAdopt(f, p, c) && q in f
    ensures ListsItsOwn(AfterAdopt(f, p, c, name), q)
  {
    var f' := AfterAdopt(f, p, c, name);
    assert ListsItsOwn(f, q);
    forall d | d in f'[q].order ensures d in f' && f'[d].parent == Some(q) {
      if d != c {
        assert d in f[q].order;
      }
    }
  }

  lemma AdoptListed<N>(f: Family<N>, p: N, c: N, name: string, d: N)
    requires Coherent(f) && p in f && c in f && MayAdopt(f, p, c) && d in f
    ensures ListedByParent(AfterAdopt(f, p, c, name), d)
  {
    var f' := AfterAdopt(f, p, c, name);
    assert ListedByParent(f, d);
    if d == c {
      assert f'[p].order[|f[p].order|] == c;
    } else if f[d].parent.Some? {
      var q := f[d].parent.value;
      var i :| 0 <= i < |f[q].order| && f[q].order[i] == d;
      assert f'[q].order[i] == d;
    }
  }

  /** Adopting under an unused name keeps the four views in agreement. */
  lemma AdoptCoherent<N>(f: Family<N>, p: N, c: N, name: string)
    requires Coherent(f) && p in f && c in f && MayAdopt(f, p, c) && name !in f[p].children
    ensures Coherent(AfterAdopt(f, p, c, name))
  {
    var f' := AfterAdopt(f, p, c, name);
    AdoptNames(f[p], c, name);
    forall q | q in f' ensures NamesAgree(f'[q]) && ListsItsOwn(f', q) && ListedByParent(f', q) {
      assert NamesAgree(f[q]);
      AdoptLists(f, p, c, name, q);
      AdoptListed(f, p, c, name, q);
    }
  }

  /** The heights once p and all above it are raised over c. */
  ghost function Raised<N>(f: Family<N>, rank: Rank<N>, p: N, c: N): Rank<N>
    requires Ranked(f, rank) && c in f
  {
    map n | n in rank :: if n in Ancestors(f, p) then rank[n] + rank[c] + 1 else rank[n]
  }

  /** Adopting keeps the nodes a forest if the adopted node is not above its adopter. */
  lemma AdoptRanked<N>(f: Family<N>, rank: Rank<N>, p: N, c: N, name: string)
    requires Coherent(f) && Ranked(f, rank) && p in f && c in f && MayAdopt(f, p, c)
    requires !Under(f, p, c)
    ensures Ranked(AfterAdopt(f, p, c, name), Raised(f, rank, p, c))
  {
    var f', rank' := AfterAdopt(f, p, c, name), Raised(f, rank, p, c);
    AncestorsStep(f, rank, p);
    forall d | d in f' ensures BelowParent(f', rank', d) {
      assert BelowParent(f, rank, d);
      if d != c && f[d].parent.Some? {
        AncestorsStep(f, rank, d);
        AncestorsStep(f, rank, f[d].parent.value);
        if d in Ancestors(f, p) {
          AncestorsClosed(f, rank, p, d);
        }
      }
    }
  }

  lemma {:induction false} RankAlong<N>(f: Family<N>, f': Family<N>, rank': Rank<N>, left: set<N>, n: N, a: N)
    requires f'.Keys == f.Keys && Ranked(f', rank') && n in f && a in Climb(f, left, n)
    requires forall m :: m in f && f[m].parent.Some? ==> f'[m].parent == f[m].parent
    ensures a in f && rank'[n] <= rank'[a]
    decreases left
  {
    assert BelowParent(f', rank', n);
    if a != n {
      RankAlong(f, f', rank', left - {n}, f[n].parent.value, a);
    }
  }

  /** And only if: the checks made before adopting let through the root of the adopter's own
      tree, after which no heights are possible, the tree having become a ring. */
  lemma AdoptedAncestorIsRing<N>(f: Family<N>, p: N, c: N, name: string, rank': Rank<N>)
    requires p in f && c in f && MayAdopt(f, p, c) && Under(f, p, c)
    ensures !Ranked(AfterAdopt(f, p, c, name), rank')
  {
    if Ranked(AfterAdopt(f, p, c, name), rank') {
      assert BelowParent(AfterAdopt(f, p, c, name), rank', c);
      RankAlong(f, AfterAdopt(f, p, c, name), rank', f.Keys, p, c);
    }
  }

  /** A call made for n, then for each of its children and so on, has gone down that many nodes. */
  ghost predicate Descends<N>(f: Family<N>, n: N, depth: nat) {
    depth == 0 || (n in f && exists k :: k in f[n].order && Descends(f, k, depth - 1))
  }

  lemma {:induction false} DescendsBelow<N>(f: Family<N>, rank: Rank<N>, n: N, depth: nat)
    requires Coherent(f) && Ranked(f, rank) && n in f && Descends(f, n, depth)
    ensures depth <= rank[n]
    decreases depth
  {
    if depth > 0 {
      var k :| k in f[n].order && Descends(f, k, depth - 1);
      ChildBelow(f, rank, n, k);
      DescendsBelow(f, rank, k, depth - 1);
    }
  }

  /** Of the nodes met on the way up from n each but n is the parent of another. */
  lemma {:induction false} MetBefore<N>(f: Family<N>, left: set<N>, n: N, a: N) returns (x: N)
    requires a in Climb(f, left, n) && a != n
    ensures x in Climb(f, left, n) && x in f && f[x].parent == Some(a)
    decreases left
  {
    var p := f[n].parent.value;
    if a == p {
      x := n;
    } else {
      x := MetBefore(f, left - {n}, p, a);
    }
  }

  lemma {:induction false} RingDescends<N>(f: Family<N>, p: N, c: N, name: string, a: N, depth: nat)
    requires Coherent(f) && p in f && c in f && MayAdopt(f, p, c) && Under(f, p, c)
    requires a in Ancestors(f, p) && a in f
    ensures Descends(AfterAdopt(f, p, c, name), a, depth)
    decreases depth
  {
    if depth > 0 {
      var f' := AfterAdopt(f, p, c, name);
      var k := c;
      if a == p {
        assert f'[p].order[|f[p].order|] == c;
      } else {
        k := MetBefore(f, f.Keys, p, a);
        AdoptListed(f, p, c, name, k);
        assert ListedByParent(f', k);
      }
      assert k in f'[a].order;
      RingDescends(f, p, c, name, k, depth - 1);
    }
  }

  /** So the call that tells the adopted node, its children and so on that their paths have changed
      ends if and only if the adopted node is not above its adopter. */
  lemma AdoptEndsIff<N>(f: Family<N>, rank: Rank<N>, p: N, c: N, name: string)
    requires Coherent(f) && Ranked(f, rank) && p in f && c in f && MayAdopt(f, p, c) && name !in f[p].children
    ensures (forall depth: nat :: Descends(AfterAdopt(f, p, c, name), c, depth)) <==> Under(f, p, c)
  {
    var f', rank' := AfterAdopt(f, p, c, name), Raised(f, rank, p, c);
    if Under(f, p, c) {
      forall depth: nat ensures Descends(f', c, depth) {
        RingDescends(f, p, c, name, c, depth);
      }
    } else {
      AdoptRanked(f, rank, p, c, name);
      AdoptCoherent(f, p, c, name);
      var depth: nat := rank'[c] + 1;
      if Descends(f', c, depth) {
        DescendsBelow(f', rank', c, depth);
      }
      assert !Descends(f', c, depth);
    }
  }

  lemma {:induction false} DroppedElements<N>(s: seq<N>, c: N)
    requires Distinct(s)
    ensures Distinct(Dropped(s, c))
    ensures forall x :: x in s ==> (x in Dropped(s, c) <==> x != c)
    ensures forall x :: x in Dropped(s, c) ==> x in s && x != c
    ensures |Dropped(s, c)| == if c in s then |s| - 1 else |s|
  {
    if s != [] && s[0] != c {
      assert s == [s[0]] + s[1..];
      assert Distinct(s[1..]);
      DroppedElements(s[1..], c);
      var d := Dropped(s[1..], c);
      assert Dropped(s, c) == [s[0]] + d;
      forall i, j | 0 <= i < j < |d| + 1 ensures ([s[0]] + d)[i] != ([s[0]] + d)[j] {
        if i == 0 {
          assert d[j - 1] in s[1..];
        }
      }
    }
  }

  lemma ForesakeNames<N>(l: Links<N>, c: N)
    requires NamesAgree(l) && c in l.order
    ensures c in l.revert
    ensures NamesAgree(Links(l.parent, Dropped(l.order, c), l.children - {l.revert[c]}, l.revert - {c}))
  {
    DroppedElements(l.order, c);
    var l' := Links(l.parent, Dropped(l.order, c), l.children - {l.revert[c]}, l.revert - {c});
    assert l'.revert.Keys == l.revert.Keys - {c};
    assert (set x | x in l'.order) == (set x | x in l.order) - {c};
  }

  lemma ChildIsNamed<N>(f: Family<N>, rank: Rank<N>, p: N, c: N)
    requires Coherent(f) && Ranked(f, rank) && p in f && c in f[p].order
    ensures c in f && p != c && c in f[p].revert && f[c].parent == Some(p)
  {
    assert ListsItsOwn(f, p) && NamesAgree(f[p]);
    assert BelowParent(f, rank, c);
  }

  lemma ChildBelow<N>(f: Family<N>, rank: Rank<N>, p: N, c: N)
    requires Coherent(f) && Ranked(f, rank) && p in f && c in f[p].order
    ensures c in f && f[c].parent == Some(p) && rank[c] < rank[p]
  {
    assert ListsItsOwn(f, p);
    assert BelowParent(f, rank, c);
  }

  lemma ForesakeLists<N>(f: Family<N>, p: N, c: N, q: N)
    requires Coherent(f) && p in f && c in f && p != c && c in f[p].revert && f[c].parent == Some(p) && q in f
    ensures ListsItsOwn(AfterForesake(f, p, c), q)
  {
    var f' := AfterForesake(f, p, c);
    assert NamesAgree(f[p]) && ListsItsOwn(f, q);
    DroppedElements(f[p].order, c);
  }

  lemma ForesakeListed<N>(f: Family<N>, p: N, c: N, d: N)
    requires Coherent(f) && p in f && c in f && p != c && c in f[p].revert && f[c].parent == Some(p) && d in f
    ensures ListedByParent(AfterForesake(f, p, c), d)
  {
    assert NamesAgree(f[p]) && ListedByParent(f, d);
    DroppedElements(f[p].order, c);
  }

  /** Letting a child go keeps the four views in agreement and the nodes a forest. */
  lemma ForesakeCoherent<N>(f: Family<N>, rank: Rank<N>, p: N, c: N)
    requires Coherent(f) && Ranked(f, rank) && p in f && c in f && p != c && c in f[p].revert
    ensures Coherent(AfterForesake(f, p, c)) && Ranked(AfterForesake(f, p, c), rank)
  {
    assert NamesAgree(f[p]);
    ChildIsNamed(f, rank, p, c);
    ForesakeNames(f[p], c);
    var f' := AfterForesake(f, p, c);
    forall q | q in f'
      ensures NamesAgree(f'[q]) && ListsItsOwn(f', q) && ListedByParent(f', q) && BelowParent(f', rank, q) {
      assert NamesAgree(f[q]) && BelowParent(f, rank, q);
      ForesakeLists(f, p, c, q);
      ForesakeListed(f, p, c, q);
    }
  }
}
