/** The path of a node, made of the names its ancestors were adopted under, and the descent that
    follows a path. */
module Paths {
  import opened Json
  import opened Forest
  import opened Adoptions
  import opened Chemins

  /** The length of the names drawn at adoption. */
  const NAME_WIDTH: nat := 4

  lemma ParentNames<N>(f: Family<N>, rank: Rank<N>, n: N)
    requires Coherent(f) && Ranked(f, rank) && n in f && f[n].parent.Some?
    ensures var p := f[n].parent.value;
      p in f && n in f[p].revert && f[p].revert[n] in f[p].children && f[p].children[f[p].revert[n]] == n &&
        rank[n] < rank[p]
  {
    assert ListedByParent(f, n) && BelowParent(f, rank, n);
    assert NamesAgree(f[f[n].parent.value]);
  }

  /** The names from the root down to n. */
  ghost function PathOf<N>(f: Family<N>, rank: Rank<N>, n: N): seq<string>
    requires Coherent(f) && Ranked(f, rank) && n in f
    decreases Higher(rank, n)
  {
    match f[n].parent
    case None => []
    case Some(p) =>
      ParentNames(f, rank, n);
      HigherShrinks(rank, n, p);
      PathOf(f, rank, p) + [f[p].revert[n]]
  }

  ghost function RootOf<N>(f: Family<N>, rank: Rank<N>, n: N): (r: N)
    requires Coherent(f) && Ranked(f, rank) && n in f
    ensures r in f && f[r].parent == None
    decreases Higher(rank, n)
  {
    match f[n].parent
    case None => n
    case Some(p) =>
      ParentNames(f, rank, n);
      HigherShrinks(rank, n, p);
      RootOf(f, rank, p)
  }

  /** The path of a node in the tree is the prefix of its root, then the names. */
  lemma {:induction false} PlaceIsPath<N>(f: Family<N>, prefix: Prefixes<N>, rank: Rank<N>, n: N)
    requires Coherent(f) && Ranked(f, rank) && n in f && prefix.Keys == f.Keys
    ensures Place(f, prefix, n) == prefix[RootOf(f, rank, n)] + PathOf(f, rank, n)
    decreases Higher(rank, n)
  {
    PlaceStep(f, prefix, rank, n);
    if f[n].parent.Some? {
      ParentNames(f, rank, n);
      HigherShrinks(rank, n, f[n].parent.value);
      PlaceIsPath(f, prefix, rank, f[n].parent.value);
    }
  }

  /** Each node hands what is left of the path to the child its first name tells, if any. */
  function Descend<N>(f: Family<N>, n: N, path: seq<string>): Option<N>
    decreases |path|
  {
    if path == [] then Some(n)
    else if n in f && path[0] in f[n].children then Descend(f, f[n].children[path[0]], path[1..])
    else None
  }

  lemma {:induction false} DescendOneMore<N>(f: Family<N>, n: N, path: seq<string>, name: string, m: N)
    requires Descend(f, n, path) == Some(m)
    ensures Descend(f, n, path + [name]) == if m in f && name in f[m].children then Some(f[m].children[name]) else None
    decreases |path|
  {
    if path == [] {
      assert (path + [name])[1..] == [];
    } else {
      assert (path + [name])[1..] == path[1..] + [name];
      DescendOneMore(f, f[n].children[path[0]], path[1..], name, m);
    }
  }

  /** Following the path of a node from its root leads to that node. */
  lemma {:induction false} PathLeadsTo<N>(f: Family<N>, rank: Rank<N>, n: N)
    requires Coherent(f) && Ranked(f, rank) && n in f
    ensures Descend(f, RootOf(f, rank, n), PathOf(f, rank, n)) == Some(n)
    decreases Higher(rank, n)
  {
    match f[n].parent
    case None =>
    case Some(p) =>
      ParentNames(f, rank, n);
      HigherShrinks(rank, n, p);
      PathLeadsTo(f, rank, p);
      DescendOneMore(f, RootOf(f, rank, p), PathOf(f, rank, p), f[p].revert[n], p);
  }

  lemma ChildrenAreOwn<N>(f: Family<N>, rank: Rank<N>, p: N, name: string)
    requires Coherent(f) && Ranked(f, rank) && p in f && name in f[p].children
    ensures var c := f[p].children[name]; c in f && f[c].parent == Some(p) && c in f[p].revert && f[p].revert[c] == name
  {
    var c := f[p].children[name];
    assert NamesAgree(f[p]) && ListsItsOwn(f, p);
    assert c in f[p].revert.Keys;
    assert c in f[p].order;
  }

  /** And only its path does: a descent from a root ends at the node whose path was followed. */
  lemma {:induction false} OnlyPathLeadsTo<N>(f: Family<N>, rank: Rank<N>, root: N, path: seq<string>)
    requires Coherent(f) && Ranked(f, rank) && root in f && f[root].parent == None
    requires Descend(f, root, path).Some?
    ensures var n := Descend(f, root, path).value; n in f && RootOf(f, rank, n) == root && PathOf(f, rank, n) == path
    decreases |path|
  {
    if path != [] {
      var front, name := path[..|path| - 1], path[|path| - 1];
      assert path == front + [name];
      FrontDescends(f, root, front, name);
      OnlyPathLeadsTo(f, rank, root, front);
      var p := Descend(f, root, front).value;
      DescendOneMore(f, root, front, name, p);
      ChildrenAreOwn(f, rank, p, name);
    }
  }

  lemma {:induction false} FrontDescends<N>(f: Family<N>, n: N, front: seq<string>, name: string)
    requires Descend(f, n, front + [name]).Some?
    ensures Descend(f, n, front).Some?
    decreases |front|
  {
    if front != [] {
      assert (front + [name])[1..] == front[1..] + [name];
      FrontDescends(f, f[n].children[front[0]], front[1..], name);
    }
  }

  /** No two nodes of one tree have the same path. */
  lemma PathsTellApart<N>(f: Family<N>, rank: Rank<N>, m: N, n: N)
    requires Coherent(f) && Ranked(f, rank) && m in f && n in f
    requires RootOf(f, rank, m) == RootOf(f, rank, n) && PathOf(f, rank, m) == PathOf(f, rank, n)
    ensures m == n
  {
    PathLeadsTo(f, rank, m);
    PathLeadsTo(f, rank, n);
  }

  /** All children have names of the width that is drawn. */
  ghost predicate NamesAreWide<N>(f: Family<N>, width: nat) {
    forall p, name :: p in f && name in f[p].children ==> |name| == width
  }

  lemma {:induction false} PathIsWide<N>(f: Family<N>, rank: Rank<N>, n: N, width: nat)
    requires Coherent(f) && Ranked(f, rank) && n in f && NamesAreWide(f, width)
    ensures Wide(PathOf(f, rank, n), width)
    decreases Higher(rank, n)
  {
    if f[n].parent.Some? {
      ParentNames(f, rank, n);
      HigherShrinks(rank, n, f[n].parent.value);
      PathIsWide(f, rank, f[n].parent.value, width);
    }
  }

  /** Nor the same identifier, whatever the prefix of the root, if all names have the width they are drawn
      with. */
  lemma FormIdsTellApart<N>(f: Family<N>, rank: Rank<N>, prefix: seq<string>, m: N, n: N, width: nat)
    requires Coherent(f) && Ranked(f, rank) && m in f && n in f && NamesAreWide(f, width) && width > 0
    requires RootOf(f, rank, m) == RootOf(f, rank, n) && m != n
    ensures Namified(prefix + PathOf(f, rank, m)) != Namified(prefix + PathOf(f, rank, n))
  {
    PathIsWide(f, rank, m, width);
    PathIsWide(f, rank, n, width);
    if Namified(prefix + PathOf(f, rank, m)) == Namified(prefix + PathOf(f, rank, n)) {
      NamifyTellsApart(prefix, PathOf(f, rank, m), PathOf(f, rank, n), width);
      PathsTellApart(f, rank, m, n);
    }
  }

  /** Names of one width are given at adoption, and no other way. */
  lemma {:induction false} RunKeepsNamesWide<N>(f: Family<N>, moves: seq<Move<N>>, width: nat)
    requires NamesAreWide(f, width)
    requires forall i :: 0 <= i < |moves| && moves[i].Adopt? ==> |moves[i].name| == width
    ensures NamesAreWide(AfterMoves(f, moves), width)
  {
    if moves != [] {
      var last := |moves| - 1;
      assert forall i :: 0 <= i < last ==> moves[..last][i] == moves[i];
      RunKeepsNamesWide(f, moves[..last], width);
      MoveKeepsNamesWide(AfterMoves(f, moves[..last]), moves[last], width);
    }
  }

  lemma MoveKeepsNamesWide<N>(f: Family<N>, move: Move<N>, width: nat)
    requires NamesAreWide(f, width) && (move.Adopt? ==> |move.name| == width)
    ensures NamesAreWide(AfterMove(f, move), width)
  {
  }
}
