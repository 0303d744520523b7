/** Whole runs of a page tree: signalled changes, requests and moves of nodes in any order, and when
    its caches can be trusted all along. */
module PageRuns {
  import opened Json
  import opened Forest
  import opened Rendering
  import opened RenderPass
  import opened Adoptions

  // ------------------------------------------------------------------ anchors

  /** The anchor of one node is assigned or released, which nothing signals. */
  ghost function WithAnchor<N>(s: Full<N>, n: N, anchor: string): Full<N>
    requires n in s.snap.scene
  {
    s.(snap := s.snap.(scene := s.snap.scene[n := s.snap.scene[n].(anchor := anchor)]))
  }

  /** The anchor comes before the part of the node, so the part itself is the same. */
  lemma AnchoredCore<N>(f: Family<N>, rank: Rank<N>, sc: Scene<N>, sc': Scene<N>, n: N, q: Query)
    requires GoodScene(sc, rank) && GoodScene(sc', rank) && n in sc && sc' == sc[n := sc[n].(anchor := sc'[n].anchor)]
    requires Covers(sc, sc', Ancestors(f, n)) && forall k :: k in sc[n].order ==> k !in Ancestors(f, n)
    ensures Core(sc', rank, n, q) == Core(sc, rank, n, q)
  {
    assert NamesOf(sc'[n]) == NamesOf(sc[n]);
    assert PlanOf(sc'[n], q) == PlanOf(sc[n], q);
    if sc[n].visible {
      assert GoodLook(sc, rank, n);
      AnchoredAnswers(f, rank, sc, sc', n, PlanOf(sc[n], q));
    }
  }

  lemma {:induction false} AnchoredAnswers<N>(f: Family<N>, rank: Rank<N>, sc: Scene<N>, sc': Scene<N>, n: N,
                                              asks: seq<Ask>)
    requires GoodScene(sc, rank) && GoodScene(sc', rank) && n in sc && sc' == sc[n := sc[n].(anchor := sc'[n].anchor)]
    requires Covers(sc, sc', Ancestors(f, n)) && forall k :: k in sc[n].order ==> k !in Ancestors(f, n)
    requires forall i :: 0 <= i < |asks| ==> asks[i].child < |sc[n].order|
    ensures Answers(sc', rank, n, asks) == Answers(sc, rank, n, asks)
    decreases |asks|
  {
    if asks != [] {
      assert GoodLook(sc, rank, n);
      var last := asks[|asks| - 1];
      AnchoredAnswers(f, rank, sc, sc', n, asks[..|asks| - 1]);
      UnmarkedSame(sc, sc', rank, Ancestors(f, n), sc[n].order[last.child], last.query);
    }
  }

  lemma AnchorCovers<N>(f: Family<N>, rank: Rank<N>, s: Full<N>, n: N, anchor: string)
    requires IsState(f, rank, s) && n in f
    ensures IsState(f, rank, WithAnchor(s, n, anchor))
    ensures Covers(s.snap.scene, WithAnchor(s, n, anchor).snap.scene, Ancestors(f, n))
    ensures forall k :: k in s.snap.scene[n].order ==> k !in Ancestors(f, n)
  {
    var sc, sc' := s.snap.scene, WithAnchor(s, n, anchor).snap.scene;
    GoodFrom(f, sc', rank);
    AncestorsStep(f, rank, n);
    forall m, i | m in sc && (m !in Ancestors(f, n) || m == n) && 0 <= i < |sc[m].order|
      ensures sc[m].order[i] !in Ancestors(f, n)
    {
      assert sc[m].order[i] in f[m].order;
      ChildBelow(f, rank, m, sc[m].order[i]);
      if sc[m].order[i] in Ancestors(f, n) {
        AncestorsHigher(f, rank, f.Keys, n, sc[m].order[i]);
        AncestorsClosed(f, rank, n, sc[m].order[i]);
        AncestorsStep(f, rank, sc[m].order[i]);
        AncestorsStep(f, rank, m);
      }
    }
  }

  /** What the nodes above n keep, where it can be used, is what they would produce with the anchor. */
  ghost predicate AnchorShows<N>(f: Family<N>, rank: Rank<N>, s: Full<N>, n: N, anchor: string)
    requires IsState(f, rank, s) && n in f
  {
    GoodScene(WithAnchor(s, n, anchor).snap.scene, rank) &&
    forall m :: m in Ancestors(f, n) && m in f && m != n ==> CacheValid(WithAnchor(s, n, anchor), rank, m)
  }

  /** Caches that were all right still are once an anchor is assigned or released if and only if what
      is kept above the node takes it into account: its own cache and all others do not matter. */
  lemma AnchorTrustIff<N>(f: Family<N>, rank: Rank<N>, s: Full<N>, n: N, anchor: string)
    requires Trusty(f, rank, s) && n in f
    ensures Trusty(f, rank, WithAnchor(s, n, anchor)) <==> AnchorShows(f, rank, s, n, anchor)
  {
    var s' := WithAnchor(s, n, anchor);
    AnchorCovers(f, rank, s, n, anchor);
    forall m | m in f.Keys && !(m in Ancestors(f, n) && m != n) ensures CacheValid(s', rank, m) {
      assert CacheValid(s, rank, m);
      if m == n {
        AnchoredCore(f, rank, s.snap.scene, s'.snap.scene, n, s.caches[n].query);
      } else {
        UnmarkedSame(s.snap.scene, s'.snap.scene, rank, Ancestors(f, n), m, s.caches[m].query);
      }
    }
  }

  // ------------------------------------------------------------------ one step of a run

  /** All there is: how the nodes are linked, where the roots are, heights that show the nodes to be a
      forest, and what the nodes display and keep. */
  datatype World<N> = World(family: Family<N>, prefix: Prefixes<N>, rank: Rank<N>, full: Full<N>)

  /** In good order, and displaying what the links and paths are. */
  ghost predicate Good<N>(w: World<N>) {
    && IsState(w.family, w.rank, w.full) && Drawn(w.full.snap.scene, w.family, w.prefix)
    && w.prefix.Keys == w.family.Keys
  }

  ghost predicate AllTrusted<N>(w: World<N>) {
    Trusty(w.family, w.rank, w.full)
  }

  /** What may happen. cut is what there is once a node has let all its links go. */
  datatype Happening<N> =
    | Act(node: N, act: Act) | Request(node: N, post: bool) | Anchor(node: N, anchor: string)
    | Create(node: N, look: Look<N>, cache: Cache) | Adopt(parent: N, child: N, name: string)
    | Foresake(parent: N, child: N) | Orphan(node: N) | SetPrefix(root: N, at: seq<string>)
    | Assign(node: N, cut: Full<N>) | Destroy(node: N, cut: Full<N>)

  /** The links, the paths and the heights are as they were. */
  ghost predicate Stays<N>(w: World<N>, w': World<N>) {
    w' == w.(full := w'.full)
  }

  /** n has let its children go and left its parent. */
  ghost function CutFamily<N>(f: Family<N>, n: N): Family<N> {
    if n in f then Released(Orphaned(f, n), n) else f
  }

  /** And cut is what there is then. */
  ghost predicate Cut<N>(w: World<N>, n: N, cut: Full<N>) {
    && n in w.family && LetGo(w.family, w.prefix, w.rank, w.full, cut, n)
    && IsState(CutFamily(w.family, n), w.rank, cut)
    && CutFamily(w.family, n)[n].parent == None && CutFamily(w.family, n)[n].order == []
  }

  // What each happening makes of w.

  ghost predicate ByAct<N>(w: World<N>, n: N, act: Act, w': World<N>) {
    && Stays(w, w') && n in w.family && w'.full == w.full.(snap := w'.full.snap)
    && w'.full.snap.scene.Keys == w.family.Keys && IsState(w.family, w.rank, w.full)
    && Acted(w.family, w.rank, w.full.snap, w'.full.snap, n, act)
  }

  ghost predicate ByRequest<N>(w: World<N>, n: N, post: bool, w': World<N>) {
    Stays(w, w') && Passed(w.family, w.rank, w.full, w'.full, n, post)
  }

  ghost predicate ByAnchor<N>(w: World<N>, n: N, anchor: string, w': World<N>) {
    Stays(w, w') && n in w.full.snap.scene && w'.full == WithAnchor(w.full, n, anchor)
  }

  ghost predicate ByCreate<N>(w: World<N>, n: N, look: Look<N>, cache: Cache, w': World<N>) {
    && n !in w.family && look.order == [] && WellPlanned(look.renderer) && w'.full == With(w.full, n, look, cache, 0)
    && w'.family == AfterMove(w.family, Move<N>.Create(n)) && w'.rank == w.rank[n := 0]
  }

  ghost predicate ByAdopt<N>(w: World<N>, p: N, c: N, name: string, w': World<N>) {
    && p in w.family && c in w.family && MayAdopt(w.family, p, c) && name !in w.family[p].children
    && w'.family == AfterAdopt(w.family, p, c, name) && w'.prefix == w.prefix
    && Relinked(w'.family, w.prefix, w'.rank, w.full, w'.full, p)
  }

  ghost predicate ByForesake<N>(w: World<N>, p: N, c: N, w': World<N>) {
    && p in w.family && c in w.family && p != c && c in w.family[p].revert
    && w'.family == AfterForesake(w.family, p, c) && w'.prefix == w.prefix && w'.rank == w.rank
    && Relinked(w'.family, w.prefix, w.rank, w.full, w'.full, p)
  }

  ghost predicate ByOrphan<N>(w: World<N>, n: N, w': World<N>) {
    && n in w.family && w'.family == Orphaned(w.family, n) && w'.prefix == w.prefix && w'.rank == w.rank
    && IsState(w'.family, w.rank, w'.full)
    && LettingGo(w.family, w.prefix, w.rank, w.full, w'.family, w'.full, n)
  }

  ghost predicate ByPrefix<N>(w: World<N>, r: N, at: seq<string>, w': World<N>) {
    && r in w.family && w.family[r].parent == None
    && w'.family == w.family && w'.rank == w.rank && w'.prefix == w.prefix[r := at]
    && Relinked(w.family, w'.prefix, w.rank, w.full, w'.full, r)
  }

  ghost predicate ByAssign<N>(w: World<N>, n: N, cut: Full<N>, w': World<N>) {
    && Cut(w, n, cut) && w'.family == CutFamily(w.family, n) && w'.prefix == w.prefix && w'.rank == w.rank
    && ChangedAt(cut.snap.scene, w'.full.snap.scene, n) && w'.full.snap.dirty == cut.snap.dirty + {n}
    && w'.full.posts == cut.posts && w'.full.caches.Keys == w.family.Keys
    && forall m :: m in w.family && m != n ==> w'.full.caches[m] == cut.caches[m]
  }

  ghost predicate ByDestroy<N>(w: World<N>, n: N, cut: Full<N>, w': World<N>) {
    && Cut(w, n, cut) && w'.family == CutFamily(w.family, n) - {n}
    && w'.prefix == w.prefix - {n} && w'.rank == w.rank - {n} && w'.full == Without(cut, n)
  }

  /** h leads from w to w'. */
  ghost predicate Leads<N>(w: World<N>, h: Happening<N>, w': World<N>) {
    && Drawn(w'.full.snap.scene, w'.family, w'.prefix) && w'.prefix.Keys == w'.family.Keys
    && match h
       case Act(n, act) => ByAct(w, n, act, w')
       case Request(n, post) => ByRequest(w, n, post, w')
       case Anchor(n, anchor) => ByAnchor(w, n, anchor, w')
       case Create(n, look, cache) => ByCreate(w, n, look, cache, w')
       case Adopt(p, c, name) => ByAdopt(w, p, c, name, w')
       case Foresake(p, c) => ByForesake(w, p, c, w')
       case Orphan(n) => ByOrphan(w, n, w')
       case SetPrefix(r, at) => ByPrefix(w, r, at, w')
       case Assign(n, cut) => ByAssign(w, n, cut, w')
       case Destroy(n, cut) => ByDestroy(w, n, cut, w')
  }

  /** The nodes that h moves keep parts that are the same at their new paths, and what is kept above a
      node whose anchor changes takes it into account. */
  ghost predicate Free<N>(w: World<N>, h: Happening<N>, w': World<N>)
    requires Good(w)
  {
    var f, r, s := w.family, w.rank, w.full;
    match h
    case Act(_, _) => true
    case Request(_, _) => true
    case Create(_, _, _) => true
    case Anchor(n, anchor) => n in f && AnchorShows(f, r, s, n, anchor)
    case Adopt(p, c, _) => AllPathFree(s, w'.rank, w'.family, w'.prefix, UnderSet(w'.family, c))
    case Foresake(p, c) => AllPathFree(s, r, w'.family, w'.prefix, UnderSet(w'.family, c))
    case Orphan(n) => AllPathFree(s, r, w'.family, w'.prefix, UnderSet(f, n) - {n})
    case SetPrefix(n, _) => AllPathFree(s, r, f, w'.prefix, UnderSet(f, n) - {n})
    case Assign(n, _) => AllPathFree(s, r, CutFamily(f, n), w.prefix, UnderSet(f, n) - {n})
    case Destroy(n, _) => AllPathFree(s, r, CutFamily(f, n), w.prefix, UnderSet(f, n) - {n})
  }

  /** What follows from a step: good order, and trust if and only if it is free. */
  ghost predicate Follows<N>(w: World<N>, h: Happening<N>, w': World<N>)
    requires Good(w)
  {
    || (!AllTrusted(w) && Good(w'))
    || (Good(w') && (AllTrusted(w') <==> Free(w, h, w')))
  }

  lemma AdoptKeeps<N>(w: World<N>, h: Happening<N>, w': World<N>)
    requires Good(w) && Leads(w, h, w') && h.Adopt?
    ensures Follows(w, h, w')
  {
    Adopted(w.family, w.prefix, w.rank, w'.rank, w.full, w'.full, h.parent, h.child, h.name);
  }

  lemma ForesakeKeeps<N>(w: World<N>, h: Happening<N>, w': World<N>)
    requires Good(w) && Leads(w, h, w') && h.Foresake?
    ensures Follows(w, h, w')
  {
    ForesakeCoherent(w.family, w.rank, h.parent, h.child);
    RelinkedState(w.family, w.rank, w'.family, w.prefix, w.rank, w.full, w'.full, h.parent);
    if AllTrusted(w) {
      ForesakeTrustIff(w.family, w.prefix, w.rank, w.full, w'.full, h.parent, h.child);
    }
  }

  lemma PrefixKeeps<N>(w: World<N>, h: Happening<N>, w': World<N>)
    requires Good(w) && Leads(w, h, w') && h.SetPrefix?
    ensures Follows(w, h, w')
  {
    RelinkedState(w.family, w.rank, w.family, w'.prefix, w.rank, w.full, w'.full, h.root);
    if AllTrusted(w) {
      PrefixTrustIff(w.family, w.prefix, w'.prefix, w.rank, w.full, w'.full, h.root);
    }
  }

  lemma OrphanKeeps<N>(w: World<N>, h: Happening<N>, w': World<N>)
    requires Good(w) && Leads(w, h, w') && h.Orphan?
    ensures Follows(w, h, w')
  {
    if AllTrusted(w) {
      OrphanTrustIff(w.family, w.prefix, w.rank, w.full, w'.full, h.node);
    }
  }

  lemma AssignKeeps<N>(w: World<N>, h: Happening<N>, w': World<N>)
    requires Good(w) && Leads(w, h, w') && h.Assign?
    ensures Follows(w, h, w')
  {
    ResetTrustIff(w'.family, w.rank, h.cut, w'.full, h.node);
    if AllTrusted(w) {
      LetGoTrustIff(w.family, w.prefix, w.rank, w.full, h.cut, h.node);
    }
  }

  lemma DestroyKeeps<N>(w: World<N>, h: Happening<N>, w': World<N>)
    requires Good(w) && Leads(w, h, w') && h.Destroy?
    ensures Follows(w, h, w')
  {
    RemoveTrustIff(CutFamily(w.family, h.node), w.rank, h.cut, h.node);
    if AllTrusted(w) {
      LetGoTrustIff(w.family, w.prefix, w.rank, w.full, h.cut, h.node);
    }
  }

  lemma OtherKeeps<N>(w: World<N>, h: Happening<N>, w': World<N>)
    requires Good(w) && Leads(w, h, w') && (h.Act? || h.Request? || h.Create?)
    ensures Follows(w, h, w')
  {
    match h
    case Act(n, act) => ActKeepsState(w.family, w.rank, w.full, w'.full, n, act);
    case Request(n, post) =>
      if AllTrusted(w) {
        PassKeepsCaches(w.family, w.rank, w.full, w'.full, n, post);
      }
    case Create(n, look, cache) =>
      CreatedInOrder(w.family, w.rank, w.full, n, look, cache, 0);
      if AllTrusted(w) {
        CreateKeepsTrust(w.family, w.rank, w.full, n, look, cache, 0);
      }
  }

  lemma AnchorKeeps<N>(w: World<N>, h: Happening<N>, w': World<N>)
    requires Good(w) && Leads(w, h, w') && h.Anchor?
    ensures Follows(w, h, w')
  {
    AnchorCovers(w.family, w.rank, w.full, h.node, h.anchor);
    if AllTrusted(w) {
      AnchorTrustIff(w.family, w.rank, w.full, h.node, h.anchor);
    }
  }

  lemma MoveFollows<N>(w: World<N>, h: Happening<N>, w': World<N>)
    requires Good(w) && Leads(w, h, w') && (h.Adopt? || h.Foresake? || h.SetPrefix?)
    ensures Follows(w, h, w')
  {
    match h
    case Adopt(_, _, _) => AdoptKeeps(w, h, w');
    case Foresake(_, _) => ForesakeKeeps(w, h, w');
    case SetPrefix(_, _) => PrefixKeeps(w, h, w');
  }

  lemma CutFollows<N>(w: World<N>, h: Happening<N>, w': World<N>)
    requires Good(w) && Leads(w, h, w') && (h.Orphan? || h.Assign? || h.Destroy?)
    ensures Follows(w, h, w')
  {
    match h
    case Orphan(_) => OrphanKeeps(w, h, w');
    case Assign(_, _) => AssignKeeps(w, h, w');
    case Destroy(_, _) => DestroyKeeps(w, h, w');
  }

  /** Whatever happens the nodes stay in good order, and caches that could all be trusted still can if
      and only if it is free. */
  lemma StepTrustIff<N>(w: World<N>, h: Happening<N>, w': World<N>)
    requires Good(w) && Leads(w, h, w')
    ensures Follows(w, h, w')
  {
    if h.Adopt? || h.Foresake? || h.SetPrefix? {
      MoveFollows(w, h, w');
    } else if h.Orphan? || h.Assign? || h.Destroy? {
      CutFollows(w, h, w');
    } else if h.Anchor? {
      AnchorKeeps(w, h, w');
    } else {
      OtherKeeps(w, h, w');
    }
  }

  // ------------------------------------------------------------------ whole runs

  ghost predicate LeadsAt<N>(ws: seq<World<N>>, hs: seq<Happening<N>>, i: nat)
    requires i < |hs| && |ws| == |hs| + 1
  {
    Leads(ws[i], hs[i], ws[i + 1])
  }

  /** The run goes through these worlds. */
  ghost predicate Goes<N>(ws: seq<World<N>>, hs: seq<Happening<N>>) {
    |ws| == |hs| + 1 && Good(ws[0]) && forall i :: 0 <= i < |hs| ==> LeadsAt(ws, hs, i)
  }

  lemma GoodNext<N>(ws: seq<World<N>>, hs: seq<Happening<N>>, i: nat)
    requires Goes(ws, hs) && i < |hs| && Good(ws[i])
    ensures Good(ws[i + 1])
  {
    assert LeadsAt(ws, hs, i);
    StepTrustIff(ws[i], hs[i], ws[i + 1]);
  }

  lemma {:induction false} GoodAlong<N>(ws: seq<World<N>>, hs: seq<Happening<N>>, i: nat)
    requires Goes(ws, hs) && i < |ws|
    ensures Good(ws[i])
  {
    if i > 0 {
      GoodAlong(ws, hs, i - 1);
      GoodNext(ws, hs, i - 1);
    }
  }

  /** What happens at i is free. */
  ghost predicate FreeAt<N>(ws: seq<World<N>>, hs: seq<Happening<N>>, i: nat)
    requires i < |hs| && i < |ws| - 1
  {
    Good(ws[i]) && Free(ws[i], hs[i], ws[i + 1])
  }

  lemma FollowsAt<N>(ws: seq<World<N>>, hs: seq<Happening<N>>, i: nat)
    requires Goes(ws, hs) && i < |hs|
    ensures Good(ws[i + 1]) && (AllTrusted(ws[i]) ==> (AllTrusted(ws[i + 1]) <==> FreeAt(ws, hs, i)))
  {
    GoodAlong(ws, hs, i);
    assert LeadsAt(ws, hs, i);
    StepTrustIff(ws[i], hs[i], ws[i + 1]);
  }

  lemma {:induction false} AllAlong(trusted: seq<bool>, free: seq<bool>)
    requires |trusted| == |free| + 1 && trusted[0]
    requires forall i :: 0 <= i < |free| && trusted[i] ==> (trusted[i + 1] <==> free[i])
    ensures (forall i :: 0 <= i < |trusted| ==> trusted[i]) <==> forall i :: 0 <= i < |free| ==> free[i]
    decreases |free|
  {
    var n := |free|;
    if n > 0 {
      AllAlong(trusted[..n], free[..n - 1]);
      assert trusted[n - 1] ==> (trusted[n] <==> free[n - 1]);
      assert trusted == trusted[..n] + [trusted[n]] && free == free[..n - 1] + [free[n - 1]];
    }
  }

  ghost function TrustedIn<N>(ws: seq<World<N>>): (b: seq<bool>)
    ensures |b| == |ws| && forall i :: 0 <= i < |ws| ==> (b[i] <==> AllTrusted(ws[i]))
  {
    seq(|ws|, i requires 0 <= i < |ws| => AllTrusted(ws[i]))
  }

  ghost function FreeIn<N>(ws: seq<World<N>>, hs: seq<Happening<N>>): (b: seq<bool>)
    requires |ws| == |hs| + 1
    ensures |b| == |hs| && forall i :: 0 <= i < |hs| ==> (b[i] <==> FreeAt(ws, hs, i))
  {
    seq(|hs|, i requires 0 <= i < |hs| && |ws| == |hs| + 1 => FreeAt(ws, hs, i))
  }

  /** Over any run, requests, changes and moves in any order, the nodes stay in good order, and caches
      that can be trusted at first can be all along if and only if all that happens is free when its
      turn comes. */
  lemma RunTrustIff<N>(ws: seq<World<N>>, hs: seq<Happening<N>>)
    requires Goes(ws, hs) && AllTrusted(ws[0])
    ensures forall i :: 0 <= i < |ws| ==> Good(ws[i])
    ensures (forall i :: 0 <= i < |ws| ==> AllTrusted(ws[i])) <==> forall i :: 0 <= i < |hs| ==> FreeAt(ws, hs, i)
  {
    forall i | 0 <= i < |ws| ensures Good(ws[i]) {
      GoodAlong(ws, hs, i);
    }
    var trusted, free := TrustedIn(ws), FreeIn(ws, hs);
    forall i | 0 <= i < |free| && trusted[i] ensures trusted[i + 1] <==> free[i] {
      FollowsAt(ws, hs, i);
    }
    AllAlong(trusted, free);
    SameAlong(ws, hs, trusted, free);
  }

  lemma SameAlong<N>(ws: seq<World<N>>, hs: seq<Happening<N>>, trusted: seq<bool>, free: seq<bool>)
    requires |ws| == |hs| + 1 && trusted == TrustedIn(ws) && free == FreeIn(ws, hs)
    ensures (forall i :: 0 <= i < |ws| ==> AllTrusted(ws[i])) <==> forall i :: 0 <= i < |trusted| ==> trusted[i]
    ensures (forall i :: 0 <= i < |hs| ==> FreeAt(ws, hs, i)) <==> forall i :: 0 <= i < |free| ==> free[i]
  {
  }

  /** No node at all. */
  ghost function Nowhere<N>(): World<N> {
    World(map[], map[], map[], Full(Snap(map[], {}), map[], map[]))
  }

  /** So it is of any run from no node at all. */
  lemma AlwaysTrustIff<N>(ws: seq<World<N>>, hs: seq<Happening<N>>)
    requires Goes(ws, hs) && ws[0] == Nowhere()
    ensures forall i :: 0 <= i < |ws| ==> Good(ws[i])
    ensures (forall i :: 0 <= i < |ws| ==> AllTrusted(ws[i])) <==> forall i :: 0 <= i < |hs| ==> FreeAt(ws, hs, i)
  {
    assert AllTrusted(ws[0]);
    RunTrustIff(ws, hs);
  }
}
