/** What a tree of nodes displays, told with no cache at all, and how far a change reaches. */
module Rendering {
  import opened Json
  import opened Forest

  /** What is asked of a node: the path below it, and the resource and body of the request. The
      method of the request is not part of it: it says whether events are expected, and the
      cache does not look at it. */
  datatype Query = Query(path: seq<string>, uri: string, body: string)

  datatype Ask = Ask(child: nat, query: Query)

  /** How an inheriting class builds its part: from its own state, its own path and the names of
      its children it decides which of them to ask what, then puts their answers together. */
  datatype Renderer = Renderer(
    plan: (string, seq<string>, seq<string>, Query) -> seq<Ask>,
    compose: (string, seq<string>, seq<string>, Query, seq<string>) -> string)

  /** All that the part of a node depends on, apart from its children. place is its path. */
  datatype Look<N> = Look(
    renderer: Renderer, state: string, visible: bool, anchor: string, place: seq<string>,
    order: seq<N>, revert: map<N, string>)

  /** The names of the children, in order. */
  function NamesOf<N(==)>(l: Look<N>): (names: seq<string>)
    ensures |names| == |l.order|
  {
    seq(|l.order|, i requires 0 <= i < |l.order| => if l.order[i] in l.revert then l.revert[l.order[i]] else "")
  }

  type Scene<N> = map<N, Look<N>>

  predicate DistinctAsks(asks: seq<Ask>) {
    forall i, j :: 0 <= i < j < |asks| ==> asks[i].child != asks[j].child
  }

  /** A class asks children that exist, each at most once. */
  ghost predicate WellPlanned(r: Renderer) {
    forall state, place, names, q {:trigger r.plan(state, place, names, q)} ::
      var asks := r.plan(state, place, names, q);
      DistinctAsks(asks) && forall i :: 0 <= i < |asks| ==> asks[i].child < |names|
  }

  ghost predicate GoodLook<N>(sc: Scene<N>, rank: Rank<N>, n: N)
    requires n in sc && sc.Keys == rank.Keys
  {
    && WellPlanned(sc[n].renderer)
    && forall i :: 0 <= i < |sc[n].order| ==> sc[n].order[i] in sc && rank[sc[n].order[i]] < rank[n]
  }

  ghost predicate GoodScene<N>(sc: Scene<N>, rank: Rank<N>) {
    && sc.Keys == rank.Keys
    && forall n {:trigger GoodLook(sc, rank, n)} :: n in sc ==> GoodLook(sc, rank, n)
  }

  function Anchored(anchor: string, part: string): string {
    if anchor == "" then part else "<a name=\"" + anchor + "\">\n" + part + "</a>\n"
  }

  function PlanOf<N(==)>(l: Look<N>, q: Query): seq<Ask> {
    l.renderer.plan(l.state, l.place, NamesOf(l), q)
  }

  function ComposeOf<N(==)>(l: Look<N>, q: Query, answers: seq<string>): string {
    l.renderer.compose(l.state, l.place, NamesOf(l), q, answers)
  }

  /** The part of a node, all its children rendered afresh. */
  ghost function Core<N>(sc: Scene<N>, rank: Rank<N>, n: N, q: Query): string
    requires GoodScene(sc, rank) && n in sc
    decreases rank[n], 1, 0
  {
    assert GoodLook(sc, rank, n);
    if !sc[n].visible then ""
    else ComposeOf(sc[n], q, Answers(sc, rank, n, PlanOf(sc[n], q)))
  }

  ghost function Render<N>(sc: Scene<N>, rank: Rank<N>, n: N, q: Query): string
    requires GoodScene(sc, rank) && n in sc
    decreases rank[n], 2, 0
  {
    Anchored(sc[n].anchor, Core(sc, rank, n, q))
  }

  ghost function Answers<N>(sc: Scene<N>, rank: Rank<N>, n: N, asks: seq<Ask>): seq<string>
    requires GoodScene(sc, rank) && n in sc
    requires forall i :: 0 <= i < |asks| ==> asks[i].child < |sc[n].order|
    decreases rank[n], 0, |asks|
  {
    if asks == [] then []
    else
      assert GoodLook(sc, rank, n);
      var last := asks[|asks| - 1];
      Answers(sc, rank, n, asks[..|asks| - 1]) + [Render(sc, rank, sc[n].order[last.child], last.query)]
  }

  /** A hidden node shows nothing but its anchor, if it has one, which comes before what the node shows. */
  lemma ShownWithAnchor<N>(sc: Scene<N>, rank: Rank<N>, n: N, q: Query)
    requires GoodScene(sc, rank) && n in sc
    ensures !sc[n].visible ==> Core(sc, rank, n, q) == ""
    ensures sc[n].anchor == "" ==> Render(sc, rank, n, q) == Core(sc, rank, n, q)
    ensures sc[n].anchor != "" ==>
      Render(sc, rank, n, q) == "<a name=\"" + sc[n].anchor + "\">\n" + Core(sc, rank, n, q) + "</a>\n"
  {
  }

  /** What a node is answered, in the order of its asks, is what the children asked render. */
  lemma {:induction false} AnswerAt<N>(sc: Scene<N>, rank: Rank<N>, n: N, asks: seq<Ask>, i: nat)
    requires GoodScene(sc, rank) && n in sc && i < |asks|
    requires forall j :: 0 <= j < |asks| ==> asks[j].child < |sc[n].order|
    ensures |Answers(sc, rank, n, asks)| == |asks| && sc[n].order[asks[i].child] in sc
    ensures Answers(sc, rank, n, asks)[i] == Render(sc, rank, sc[n].order[asks[i].child], asks[i].query)
    decreases |asks|
  {
    assert GoodLook(sc, rank, n);
    var last := |asks| - 1;
    if i < last {
      AnswerAt(sc, rank, n, asks[..last], i);
    } else if last > 0 {
      AnswerAt(sc, rank, n, asks[..last], 0);
    }
  }

  // ------------------------------------------------------------------ how far a change reaches

  /** Nothing seen of a node differs, or it is hidden before and after. */
  ghost predicate SameLook<N>(sc: Scene<N>, sc': Scene<N>, n: N)
    requires n in sc && n in sc'
  {
    sc'[n].anchor == sc[n].anchor && (sc'[n] == sc[n] || (!sc[n].visible && !sc'[n].visible))
  }

  ghost predicate SameRender<N>(sc: Scene<N>, sc': Scene<N>, rank: Rank<N>, n: N)
    requires GoodScene(sc, rank) && GoodScene(sc', rank) && n in sc
  {
    SameLook(sc, sc', n) && forall q :: Core(sc', rank, n, q) == Core(sc, rank, n, q)
  }

  /** A set of marked nodes that covers a change: any node left out looks the same, and if it
      shows, all its children are left out too. */
  ghost predicate Covers<N>(sc: Scene<N>, sc': Scene<N>, marked: set<N>) {
    && sc.Keys == sc'.Keys
    && forall n :: n in sc && n !in marked ==>
        SameLook(sc, sc', n) && (sc'[n].visible ==> forall i :: 0 <= i < |sc'[n].order| ==> sc'[n].order[i] !in marked)
  }

  /** A node that a covering set leaves out is rendered as before. */
  lemma {:induction false} UnmarkedSame<N>(sc: Scene<N>, sc': Scene<N>, rank: Rank<N>, marked: set<N>, n: N, q: Query)
    requires GoodScene(sc, rank) && GoodScene(sc', rank) && Covers(sc, sc', marked)
    requires n in sc && n !in marked
    ensures Core(sc', rank, n, q) == Core(sc, rank, n, q)
    decreases rank[n], 1, 0
  {
    if sc[n].visible {
      assert GoodLook(sc, rank, n);
      UnmarkedAnswers(sc, sc', rank, marked, n, PlanOf(sc[n], q));
    }
  }

  lemma {:induction false} UnmarkedAnswers<N>(sc: Scene<N>, sc': Scene<N>, rank: Rank<N>, marked: set<N>, n: N,
                                              asks: seq<Ask>)
    requires GoodScene(sc, rank) && GoodScene(sc', rank) && Covers(sc, sc', marked)
    requires n in sc && n !in marked && sc[n].visible && sc'[n] == sc[n]
    requires forall i :: 0 <= i < |asks| ==> asks[i].child < |sc[n].order|
    ensures Answers(sc', rank, n, asks) == Answers(sc, rank, n, asks)
    decreases rank[n], 0, |asks|
  {
    if asks != [] {
      assert GoodLook(sc, rank, n);
      var last := asks[|asks| - 1];
      UnmarkedAnswers(sc, sc', rank, marked, n, asks[..|asks| - 1]);
      UnmarkedSame(sc, sc', rank, marked, sc[n].order[last.child], last.query);
    }
  }

  lemma UnmarkedSameRender<N>(sc: Scene<N>, sc': Scene<N>, rank: Rank<N>, marked: set<N>, n: N)
    requires GoodScene(sc, rank) && GoodScene(sc', rank) && Covers(sc, sc', marked)
    requires n in sc && n !in marked
    ensures SameRender(sc, sc', rank, n)
  {
    forall q ensures Core(sc', rank, n, q) == Core(sc, rank, n, q) {
      UnmarkedSame(sc, sc', rank, marked, n, q);
    }
  }

  // ------------------------------------------------------------------ marking

  /** The nodes that signalling a change at n marks: from n up to the first hidden one, which
      is left out. */
  ghost function MarkSet<N>(sc: Scene<N>, f: Family<N>, rank: Rank<N>, n: N): set<N>
    requires sc.Keys == f.Keys && Ranked(f, rank) && n in f
    decreases Higher(rank, n)
  {
    if !sc[n].visible then {}
    else
      match f[n].parent
      case None => {n}
      case Some(p) =>
        assert BelowParent(f, rank, n);
        HigherShrinks(rank, n, p);
        {n} + MarkSet(sc, f, rank, p)
  }

  /** The scene shows the children that the family lists. */
  ghost predicate Pictures<N>(sc: Scene<N>, f: Family<N>) {
    sc.Keys == f.Keys && forall n :: n in sc ==> sc[n].order == f[n].order
  }

  lemma {:induction false} MarkClosed<N>(sc: Scene<N>, f: Family<N>, rank: Rank<N>, n: N, k: N)
    requires sc.Keys == f.Keys && Ranked(f, rank) && n in f
    requires k in MarkSet(sc, f, rank, n)
    ensures k in f && sc[k].visible
    ensures f[k].parent.Some? ==>
      f[k].parent.value in f && (sc[f[k].parent.value].visible ==> f[k].parent.value in MarkSet(sc, f, rank, n))
    decreases Higher(rank, n)
  {
    assert BelowParent(f, rank, n);
    if k != n {
      HigherShrinks(rank, n, f[n].parent.value);
      MarkClosed(sc, f, rank, f[n].parent.value, k);
    }
  }

  /** Signalling covers a change made at one node: if that node shows when it is signalled, or
      does not show at all. */
  lemma MarkCovers<N>(sc: Scene<N>, sc': Scene<N>, marking: Scene<N>, f: Family<N>, rank: Rank<N>, d: N)
    requires Coherent(f) && Ranked(f, rank) && d in f && Pictures(sc', f)
    requires sc.Keys == f.Keys && marking.Keys == f.Keys
    requires forall n :: n in f && n != d ==> sc'[n] == sc[n] == marking[n]
    requires marking[d].visible || (!sc[d].visible && !sc'[d].visible && sc[d].anchor == sc'[d].anchor)
    ensures Covers(sc, sc', MarkSet(marking, f, rank, d))
  {
    var marked := MarkSet(marking, f, rank, d);
    forall n | n in sc && n !in marked
      ensures SameLook(sc, sc', n)
      ensures sc'[n].visible ==> forall i :: 0 <= i < |sc'[n].order| ==> sc'[n].order[i] !in marked
    {
      if sc'[n].visible {
        assert n != d;
        assert ListsItsOwn(f, n);
        forall i | 0 <= i < |sc'[n].order| ensures sc'[n].order[i] !in marked {
          var k := sc'[n].order[i];
          assert k in f[n].order && f[k].parent == Some(n);
          if k in marked {
            MarkClosed(marking, f, rank, d, k);
          }
        }
      }
    }
  }

  // ------------------------------------------------------------------ how a tree evolves

  /** What shows and which nodes are known to have changed since they were rendered. */
  datatype Snap<N> = Snap(scene: Scene<N>, dirty: set<N>)

  ghost predicate SameTree<N>(sc: Scene<N>, sc': Scene<N>) {
    sc.Keys == sc'.Keys && forall n :: n in sc ==> sc'[n].order == sc[n].order && sc'[n].revert == sc[n].revert
  }

  /** From s to s', for the nodes in keep: none is forgotten to have changed, one that is not
      known to have changed is rendered the same, and the parent that shows of a node newly
      known to have changed is known to have changed as well. */
  ghost predicate Evolves<N>(s: Snap<N>, s': Snap<N>, rank: Rank<N>, keep: set<N>) {
    && GoodScene(s.scene, rank) && GoodScene(s'.scene, rank) && SameTree(s.scene, s'.scene)
    && (forall n :: n in keep && n in s.dirty ==> n in s'.dirty)
    && (forall n :: n in keep && n in s.scene && n !in s'.dirty ==> SameRender(s.scene, s'.scene, rank, n))
    && (forall p, i :: p in keep && p in s'.scene && 0 <= i < |s'.scene[p].order| ==>
       Raises(s, s', keep, p, s'.scene[p].order[i]))
  }

  ghost predicate Raises<N>(s: Snap<N>, s': Snap<N>, keep: set<N>, p: N, k: N)
    requires p in s'.scene
  {
    k in keep && k in s'.dirty && k !in s.dirty && s'.scene[p].visible ==> p in s'.dirty
  }

  lemma EvolvesNot<N>(s: Snap<N>, rank: Rank<N>, keep: set<N>)
    requires GoodScene(s.scene, rank)
    ensures Evolves(s, s, rank, keep)
  {
  }

  lemma EvolvesOn<N>(s0: Snap<N>, s1: Snap<N>, s2: Snap<N>, rank: Rank<N>, keep: set<N>)
    requires Evolves(s0, s1, rank, keep) && Evolves(s1, s2, rank, keep)
    ensures Evolves(s0, s2, rank, keep)
  {
    forall n | n in keep && n in s0.scene && n !in s2.dirty ensures SameRender(s0.scene, s2.scene, rank, n) {
      assert SameRender(s0.scene, s1.scene, rank, n) && SameRender(s1.scene, s2.scene, rank, n);
    }
    forall p, i | p in keep && p in s2.scene && 0 <= i < |s2.scene[p].order|
      ensures Raises(s0, s2, keep, p, s2.scene[p].order[i])
    {
      var k := s2.scene[p].order[i];
      assert s1.scene[p].order[i] == k;
      assert Raises(s0, s1, keep, p, s1.scene[p].order[i]) && Raises(s1, s2, keep, p, s2.scene[p].order[i]);
      if p !in s2.dirty {
        assert SameRender(s1.scene, s2.scene, rank, p);
      }
    }
  }

  lemma EvolvesLess<N>(s: Snap<N>, s': Snap<N>, rank: Rank<N>, keep: set<N>, less: set<N>)
    requires Evolves(s, s', rank, keep) && less <= keep
    ensures Evolves(s, s', rank, less)
  {
    forall p, i | p in less && p in s'.scene && 0 <= i < |s'.scene[p].order|
      ensures Raises(s, s', less, p, s'.scene[p].order[i])
    {
      assert Raises(s, s', keep, p, s'.scene[p].order[i]);
    }
  }

  /** A change that is signalled makes the whole tree evolve. */
  lemma ChangeEvolves<N>(s: Snap<N>, s': Snap<N>, rank: Rank<N>, marked: set<N>, keep: set<N>)
    requires GoodScene(s.scene, rank) && GoodScene(s'.scene, rank) && SameTree(s.scene, s'.scene)
    requires Covers(s.scene, s'.scene, marked) && s'.dirty == s.dirty + marked
    ensures Evolves(s, s', rank, keep)
  {
    forall n | n in keep && n in s.scene && n !in s'.dirty ensures SameRender(s.scene, s'.scene, rank, n) {
      UnmarkedSameRender(s.scene, s'.scene, rank, marked, n);
    }
  }

  ghost predicate WellMade<N>(sc: Scene<N>) {
    forall n :: n in sc ==> WellPlanned(sc[n].renderer)
  }

  /** A picture of a family of well planned nodes is a scene that can be rendered. */
  lemma GoodFrom<N>(f: Family<N>, sc: Scene<N>, rank: Rank<N>)
    requires Coherent(f) && Ranked(f, rank) && Pictures(sc, f) && WellMade(sc)
    ensures GoodScene(sc, rank)
  {
    forall n | n in sc ensures GoodLook(sc, rank, n) {
      assert ListsItsOwn(f, n);
      forall i | 0 <= i < |sc[n].order| ensures sc[n].order[i] in sc && rank[sc[n].order[i]] < rank[n] {
        var k := sc[n].order[i];
        assert k in f[n].order;
        assert BelowParent(f, rank, k);
      }
    }
  }

  /** Nodes in good order: their links agree, they have heights, and they can be rendered. */
  ghost predicate IsTree<N>(f: Family<N>, sc: Scene<N>, rank: Rank<N>) {
    Coherent(f) && Ranked(f, rank) && Pictures(sc, f) && WellMade(sc)
  }

  /** Only the state and the visibility of d differ. */
  ghost predicate ChangedAt<N>(sc: Scene<N>, sc': Scene<N>, d: N) {
    && d in sc && d in sc'
    && sc' == sc[d := sc[d].(state := sc'[d].state, visible := sc'[d].visible)]
  }

  lemma ChangedTree<N>(f: Family<N>, sc: Scene<N>, sc': Scene<N>, rank: Rank<N>, d: N)
    requires IsTree(f, sc, rank) && ChangedAt(sc, sc', d)
    ensures IsTree(f, sc', rank)
  {
  }

  /** A change of one node d, signalled in a scene where it showed if it ever does, makes the
      tree evolve. */
  lemma SignalledEvolves<N>(f: Family<N>, s: Snap<N>, s': Snap<N>, marking: Scene<N>, rank: Rank<N>, d: N)
    requires IsTree(f, s.scene, rank) && d in f && ChangedAt(s.scene, s'.scene, d)
    requires marking == s.scene || marking == s'.scene
    requires marking[d].visible || (!s.scene[d].visible && !s'.scene[d].visible)
    requires s'.dirty == s.dirty + MarkSet(marking, f, rank, d)
    ensures Evolves(s, s', rank, f.Keys) && IsTree(f, s'.scene, rank)
  {
    GoodFrom(f, s.scene, rank);
    GoodFrom(f, s'.scene, rank);
    MarkCovers(s.scene, s'.scene, marking, f, rank, d);
    ChangeEvolves(s, s', rank, MarkSet(marking, f, rank, d), f.Keys);
  }

  /** What showing or hiding n does: nothing if it already is so; else the signal is given while
      n shows, before the switch or after it. */
  ghost predicate Switched<N>(f: Family<N>, rank: Rank<N>, s: Snap<N>, s': Snap<N>, n: N, mode: bool)
    requires Ranked(f, rank) && n in f && s.scene.Keys == f.Keys && s'.scene.Keys == f.Keys
  {
    if s.scene[n].visible == mode then s' == s
    else
      && s'.scene == s.scene[n := s.scene[n].(visible := mode)]
      && s'.dirty == s.dirty + MarkSet(if mode then s'.scene else s.scene, f, rank, n)
  }

  lemma SwitchedEvolves<N>(f: Family<N>, rank: Rank<N>, s: Snap<N>, s': Snap<N>, n: N, mode: bool)
    requires IsTree(f, s.scene, rank) && n in f && s'.scene.Keys == f.Keys && Switched(f, rank, s, s', n, mode)
    ensures Evolves(s, s', rank, f.Keys) && IsTree(f, s'.scene, rank)
  {
    GoodFrom(f, s.scene, rank);
    if s.scene[n].visible == mode {
      EvolvesNot(s, rank, f.Keys);
    } else {
      SignalledEvolves(f, s, s', if mode then s'.scene else s.scene, rank, n);
    }
  }

  /** What a change of the state of n does. */
  ghost predicate Changed<N>(f: Family<N>, rank: Rank<N>, s: Snap<N>, s': Snap<N>, n: N, newState: string)
    requires Ranked(f, rank) && n in f && s.scene.Keys == f.Keys && s'.scene.Keys == f.Keys
  {
    && s'.scene == s.scene[n := s.scene[n].(state := newState)]
    && s'.dirty == s.dirty + MarkSet(s'.scene, f, rank, n)
  }

  lemma ChangedEvolves<N>(f: Family<N>, rank: Rank<N>, s: Snap<N>, s': Snap<N>, n: N, newState: string)
    requires IsTree(f, s.scene, rank) && n in f && s'.scene.Keys == f.Keys && Changed(f, rank, s, s', n, newState)
    ensures Evolves(s, s', rank, f.Keys) && IsTree(f, s'.scene, rank)
  {
    SignalledEvolves(f, s, s', s'.scene, rank, n);
  }

  /** One signalled change of n. */
  datatype Act = NewState(state: string) | Switch(mode: bool)

  ghost predicate Acted<N>(f: Family<N>, rank: Rank<N>, s: Snap<N>, s': Snap<N>, n: N, act: Act)
    requires Ranked(f, rank) && n in f && s.scene.Keys == f.Keys && s'.scene.Keys == f.Keys
  {
    match act
    case NewState(newState) => Changed(f, rank, s, s', n, newState)
    case Switch(mode) => Switched(f, rank, s, s', n, mode)
  }

  lemma ActedEvolves<N>(f: Family<N>, rank: Rank<N>, s: Snap<N>, s': Snap<N>, n: N, act: Act)
    requires IsTree(f, s.scene, rank) && n in f && s'.scene.Keys == f.Keys && Acted(f, rank, s, s', n, act)
    ensures Evolves(s, s', rank, f.Keys) && IsTree(f, s'.scene, rank)
  {
    match act
    case NewState(newState) => ChangedEvolves(f, rank, s, s', n, newState);
    case Switch(mode) => SwitchedEvolves(f, rank, s, s', n, mode);
  }

  // ------------------------------------------------------------------ pictures of a family

  /** What a node has of its own. */
  datatype Own = Own(renderer: Renderer, state: string, visible: bool, anchor: string)

  /** What a family shows: each node looks as its own state, its path and its children make it. */
  ghost function Picture<N>(f: Family<N>, prefix: Prefixes<N>, own: map<N, Own>): Scene<N> {
    map n | n in f && n in own ::
      Look(own[n].renderer, own[n].state, own[n].visible, own[n].anchor, Place(f, prefix, n), f[n].order, f[n].revert)
  }

  /** A change of the state or of the visibility of one node changes the picture there. */
  lemma PictureAt<N>(f: Family<N>, prefix: Prefixes<N>, own: map<N, Own>, d: N, state: string, visible: bool)
    requires own.Keys == f.Keys && d in f
    ensures var sc := Picture(f, prefix, own);
      Picture(f, prefix, own[d := own[d].(state := state, visible := visible)]) ==
      sc[d := sc[d].(state := state, visible := visible)]
  {
  }

  /** The scene shows the links and the paths of the family. */
  ghost predicate Drawn<N>(sc: Scene<N>, f: Family<N>, prefix: Prefixes<N>) {
    && sc.Keys == f.Keys
    && forall n :: n in sc ==>
       sc[n].order == f[n].order && sc[n].revert == f[n].revert && sc[n].place == Place(f, prefix, n)
  }

  /** The names that a class is given are, place by place, those under which its children are found. */
  lemma NamesLeadTo<N>(sc: Scene<N>, f: Family<N>, prefix: Prefixes<N>, n: N, i: nat)
    requires Coherent(f) && Drawn(sc, f, prefix) && n in f && i < |f[n].order|
    ensures |NamesOf(sc[n])| == |f[n].order| && NamesOf(sc[n])[i] in f[n].children
    ensures f[n].children[NamesOf(sc[n])[i]] == f[n].order[i]
  {
    assert NamesAgree(f[n]);
  }

  /** The same nodes as another family links them. */
  ghost function Redrawn<N>(sc: Scene<N>, f: Family<N>, prefix: Prefixes<N>): Scene<N>
    requires sc.Keys == f.Keys
  {
    map n | n in sc :: sc[n].(order := f[n].order, revert := f[n].revert, place := Place(f, prefix, n))
  }

  lemma PictureRedrawn<N>(f: Family<N>, prefix: Prefixes<N>, f': Family<N>, prefix': Prefixes<N>, own: map<N, Own>)
    requires own.Keys == f.Keys == f'.Keys
    ensures Picture(f', prefix', own) == Redrawn(Picture(f, prefix, own), f', prefix')
    ensures Drawn(Picture(f, prefix, own), f, prefix)
  {
  }

  /** The same nodes, each at the path that another family gives it, and nothing else changed. */
  ghost function Relocated<N>(sc: Scene<N>, f: Family<N>, prefix: Prefixes<N>): Scene<N> {
    map n | n in sc :: sc[n].(place := Place(f, prefix, n))
  }
}
