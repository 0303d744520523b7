/** What the part of a node may hold of its own path: the classes that never look at it, and the
    fields of a form, whose identifier is made of it. */
module Fields {
  import opened Json
  import opened Forest
  import opened Rendering
  import opened RenderPass
  import opened Adoptions
  import opened Chemins
  import opened Paths

  // ------------------------------------------------------------------ classes that do not look at their path

  ghost predicate PlansBlindly(r: Renderer) {
    forall state, place, place', names, q {:trigger r.plan(state, place, names, q), r.plan(state, place', names, q)} ::
      r.plan(state, place, names, q) == r.plan(state, place', names, q)
  }

  ghost predicate ComposesBlindly(r: Renderer) {
    forall state, place, place', names, q, answers
      {:trigger r.compose(state, place, names, q, answers), r.compose(state, place', names, q, answers)} ::
      r.compose(state, place, names, q, answers) == r.compose(state, place', names, q, answers)
  }

  /** What the class builds is the same wherever it is. */
  ghost predicate Blind(r: Renderer) {
    PlansBlindly(r) && ComposesBlindly(r)
  }

  /** What n and all under it display is the same wherever they are, if they do not look. */
  lemma {:induction false} BlindCore<N>(sc: Scene<N>, rank: Rank<N>, f: Family<N>, prefix: Prefixes<N>, moved: set<N>,
                                        n: N, q: Query)
    requires GoodScene(sc, rank) && GoodScene(Relocated(sc, f, prefix), rank) && moved <= sc.Keys && n in moved
    requires forall m :: m in moved ==> Blind(sc[m].renderer) && forall i :: 0 <= i < |sc[m].order| ==>
      sc[m].order[i] in moved
    ensures Core(Relocated(sc, f, prefix), rank, n, q) == Core(sc, rank, n, q)
    decreases rank[n], 1, 0
  {
    var l, l' := sc[n], Relocated(sc, f, prefix)[n];
    if l.visible {
      assert GoodLook(sc, rank, n);
      assert NamesOf(l') == NamesOf(l);
      assert PlanOf(l', q) == PlanOf(l, q);
      BlindAnswers(sc, rank, f, prefix, moved, n, PlanOf(l, q));
    }
  }

  lemma {:induction false} BlindAnswers<N>(sc: Scene<N>, rank: Rank<N>, f: Family<N>, prefix: Prefixes<N>,
                                           moved: set<N>, n: N, asks: seq<Ask>)
    requires GoodScene(sc, rank) && GoodScene(Relocated(sc, f, prefix), rank) && moved <= sc.Keys && n in moved
    requires forall m :: m in moved ==> Blind(sc[m].renderer) && forall i :: 0 <= i < |sc[m].order| ==>
      sc[m].order[i] in moved
    requires forall i :: 0 <= i < |asks| ==> asks[i].child < |sc[n].order|
    ensures Answers(Relocated(sc, f, prefix), rank, n, asks) == Answers(sc, rank, n, asks)
    decreases rank[n], 0, |asks|
  {
    if asks != [] {
      assert GoodLook(sc, rank, n);
      var last := asks[|asks| - 1];
      BlindAnswers(sc, rank, f, prefix, moved, n, asks[..|asks| - 1]);
      BlindCore(sc, rank, f, prefix, moved, sc[n].order[last.child], last.query);
    }
  }

  /** Moving whole subtrees that do not look at their paths is no harm. */
  lemma BlindIsPathFree<N>(s: Full<N>, rank: Rank<N>, f: Family<N>, prefix: Prefixes<N>, moved: set<N>)
    requires GoodScene(s.snap.scene, rank) && moved <= s.snap.scene.Keys && moved <= s.caches.Keys
    requires forall m :: m in moved ==>
      Blind(s.snap.scene[m].renderer) && forall i :: 0 <= i < |s.snap.scene[m].order| ==>
        s.snap.scene[m].order[i] in moved
    ensures AllPathFree(s, rank, f, prefix, moved)
  {
    RelocatedGood(s.snap.scene, rank, f, prefix);
    forall n | n in moved ensures n in s.snap.scene && n in s.caches && PathFree(s, rank, f, prefix, n) {
      BlindCore(s.snap.scene, rank, f, prefix, moved, n, s.caches[n].query);
    }
  }

  // ------------------------------------------------------------------ the fields of a form

  function NoAsks(state: string, place: seq<string>, names: seq<string>, q: Query): seq<Ask> {
    []
  }

  function Labelled(state: string, place: seq<string>, names: seq<string>, q: Query, answers: seq<string>): string {
    Namified(place) + ("=" + state)
  }

  /** A field of a form: what it displays tells its identifier, made of its path, and its value. */
  const FIELD := Renderer(NoAsks, Labelled)

  lemma FieldCore<N>(sc: Scene<N>, rank: Rank<N>, n: N, q: Query)
    requires GoodScene(sc, rank) && n in sc && sc[n].renderer == FIELD && sc[n].visible
    ensures Core(sc, rank, n, q) == Namified(sc[n].place) + ("=" + sc[n].state)
  {
    assert GoodLook(sc, rank, n);
    assert PlanOf(sc[n], q) == [];
  }

  /** What a field keeps tells its identifier: it is right as long as it is the identifier. */
  lemma FieldKeeps<N>(s: Full<N>, rank: Rank<N>, s': Full<N>, rank': Rank<N>, n: N)
    requires GoodScene(s.snap.scene, rank) && n in s.snap.scene && n in s.caches && CacheValid(s, rank, n)
    requires GoodScene(s'.snap.scene, rank') && n in s'.snap.scene && n in s'.caches && s'.caches[n] == s.caches[n]
    requires var l, l' := s.snap.scene[n], s'.snap.scene[n];
      l.renderer == FIELD && l.visible && l'.renderer == FIELD && l'.visible && l'.state == l.state
    requires n !in s.snap.dirty && n !in s'.snap.dirty
    ensures CacheValid(s', rank', n) <==> Namified(s'.snap.scene[n].place) == Namified(s.snap.scene[n].place)
  {
    FieldCore(s.snap.scene, rank, n, s.caches[n].query);
    FieldCore(s'.snap.scene, rank', n, s.caches[n].query);
    SameEnd(Namified(s'.snap.scene[n].place), Namified(s.snap.scene[n].place), "=" + s.snap.scene[n].state);
  }

  lemma SameEnd(a: string, b: string, end: string)
    ensures a + end == b + end <==> a == b
  {
    if a + end == b + end {
      assert (a + end)[..|a|] == a && (b + end)[..|b|] == b;
    }
  }

  /** The cache of a field that shows and is not known to have changed survives a move if and only
      if its identifier does. */
  lemma FieldPathFree<N>(s: Full<N>, rank: Rank<N>, f: Family<N>, prefix: Prefixes<N>, n: N)
    requires GoodScene(s.snap.scene, rank) && GoodScene(Relocated(s.snap.scene, f, prefix), rank)
    requires n in s.snap.scene && n in s.caches && n !in s.snap.dirty
    requires s.snap.scene[n].renderer == FIELD && s.snap.scene[n].visible
    ensures PathFree(s, rank, f, prefix, n) <==> Namified(Place(f, prefix, n)) == Namified(s.snap.scene[n].place)
  {
    FieldCore(s.snap.scene, rank, n, s.caches[n].query);
    FieldCore(Relocated(s.snap.scene, f, prefix), rank, n, s.caches[n].query);
    SameEnd(Namified(Place(f, prefix, n)), Namified(s.snap.scene[n].place), "=" + s.snap.scene[n].state);
  }

  /** c, let go by p and adopted by q under some name, is in the end where it is told here. */
  lemma MovedPlace<N>(f: Family<N>, prefix: Prefixes<N>, rank: Rank<N>, rank': Rank<N>, p: N, q: N, c: N, name: string)
    requires Coherent(f) && Ranked(f, rank) && prefix.Keys == f.Keys
    requires p in f && q in f && c in f && p != c && q != c && c in f[p].revert
    requires Ranked(AfterAdopt(AfterForesake(f, p, c), q, c, name), rank')
    ensures var f' := AfterAdopt(AfterForesake(f, p, c), q, c, name);
      Place(f', prefix, c) == Place(f, prefix, q) + [name]
    ensures Place(f, prefix, c) == Place(f, prefix, p) + [f[p].revert[c]]
  {
    var f' := AfterAdopt(AfterForesake(f, p, c), q, c, name);
    assert NamesAgree(f[p]);
    ChildIsNamed(f, rank, p, c);
    PlaceStep(f, prefix, rank, c);
    PlaceStep(f', prefix, rank', c);
    assert BelowParent(f', rank', c);
    PlaceAbove(f, prefix, rank, rank', p, q, c, name);
  }

  lemma PlaceAbove<N>(f: Family<N>, prefix: Prefixes<N>, rank: Rank<N>, rank': Rank<N>, p: N, q: N, c: N, name: string)
    requires Ranked(f, rank) && p in f && q in f && c in f && p != c && q != c && c in f[p].revert
    requires Ranked(AfterAdopt(AfterForesake(f, p, c), q, c, name), rank')
    ensures Place(AfterAdopt(AfterForesake(f, p, c), q, c, name), prefix, q) == Place(f, prefix, q)
  {
    var f' := AfterAdopt(AfterForesake(f, p, c), q, c, name);
    assert BelowParent(f', rank', c);
    forall m | m in Ancestors(f', q) ensures m in f && m in f' && SameClimb(f, prefix, f', prefix, m) {
      AncestorsHigher(f', rank', f'.Keys, q, m);
    }
    SamePlace(f, prefix, rank, f', prefix, rank', q);
  }

  /** Within one tree, and names being of one width, two nodes are to have the same identifier if
      and only if they have the same parent and the same name. */
  lemma SameIdentifier<N>(f: Family<N>, prefix: Prefixes<N>, rank: Rank<N>, p: N, q: N, name: string, name': string)
    requires Coherent(f) && Ranked(f, rank) && prefix.Keys == f.Keys && NamesAreWide(f, NAME_WIDTH)
    requires p in f && q in f && RootOf(f, rank, p) == RootOf(f, rank, q) && |name| == |name'| == NAME_WIDTH
    ensures Namified(Place(f, prefix, p) + [name]) == Namified(Place(f, prefix, q) + [name']) <==>
      p == q && name == name'
  {
    var at, pp, pq := prefix[RootOf(f, rank, p)], PathOf(f, rank, p), PathOf(f, rank, q);
    PlaceIsPath(f, prefix, rank, p);
    PlaceIsPath(f, prefix, rank, q);
    PathIsWide(f, rank, p, NAME_WIDTH);
    PathIsWide(f, rank, q, NAME_WIDTH);
    assert at + pp + [name] == at + (pp + [name]) && at + pq + [name'] == at + (pq + [name']);
    if Namified(at + (pp + [name])) == Namified(at + (pq + [name'])) {
      NamifyTellsApart(at, pp + [name], pq + [name'], NAME_WIDTH);
      assert (pp + [name])[..|pp|] == pp && (pq + [name'])[..|pq|] == pq;
      assert (pp + [name])[|pp|] == name && (pq + [name'])[|pq|] == name';
      PathsTellApart(f, rank, p, q);
    }
  }

  /** A field that shows and is not known to have changed is let go by p and adopted by q, of the
      same tree, under a name of the usual width: it is still not known to have changed, and what
      it keeps is wrong unless it is back under the same parent and the same name. */
  lemma MovedFieldIsStale<N>(f: Family<N>, prefix: Prefixes<N>, rank: Rank<N>, rank': Rank<N>, s: Full<N>, s1: Full<N>,
                             s2: Full<N>, p: N, q: N, c: N, name: string)
    requires Trusty(f, rank, s) && Drawn(s.snap.scene, f, prefix) && prefix.Keys == f.Keys &&
      NamesAreWide(f, NAME_WIDTH)
    requires p in f && q in f && c in f && p != c && q != c && c in f[p].revert &&
      RootOf(f, rank, p) == RootOf(f, rank, q)
    requires s.snap.scene[c].renderer == FIELD && s.snap.scene[c].visible && c !in s.snap.dirty
    requires Relinked(AfterForesake(f, p, c), prefix, rank, s, s1, p)
    requires name !in AfterForesake(f, p, c)[q].children && |name| == NAME_WIDTH
    requires Relinked(AfterAdopt(AfterForesake(f, p, c), q, c, name), prefix, rank', s1, s2, q)
    ensures IsState(AfterAdopt(AfterForesake(f, p, c), q, c, name), rank', s2)
    ensures c !in s2.snap.dirty && s2.caches[c] == s.caches[c]
    ensures CacheValid(s2, rank', c) <==> p == q && name == f[p].revert[c]
  {
    MovedInOrder(f, prefix, rank, rank', s, s1, s2, p, q, c, name);
    MovedUnmarked(f, prefix, rank, rank', s, s1, s2, p, q, c, name);
    assert CacheValid(s, rank, c);
    MovedLook(f, prefix, rank, rank', s, s1, s2, p, q, c, name);
    FieldKeeps(s, rank, s2, rank', c);
    OwnNameIsWide(f, rank, p, c);
    SameIdentifier(f, prefix, rank, p, q, f[p].revert[c], name);
  }

  lemma OwnNameIsWide<N>(f: Family<N>, rank: Rank<N>, p: N, c: N)
    requires Coherent(f) && p in f && c in f[p].revert && NamesAreWide(f, NAME_WIDTH)
    ensures |f[p].revert[c]| == NAME_WIDTH
  {
    assert NamesAgree(f[p]);
  }

  lemma MovedLook<N>(f: Family<N>, prefix: Prefixes<N>, rank: Rank<N>, rank': Rank<N>, s: Full<N>, s1: Full<N>,
                     s2: Full<N>, p: N, q: N, c: N, name: string)
    requires Coherent(f) && Ranked(f, rank) && Drawn(s.snap.scene, f, prefix) && prefix.Keys == f.Keys
    requires p in f && q in f && c in f && p != c && q != c && c in f[p].revert
    requires Relinked(AfterForesake(f, p, c), prefix, rank, s, s1, p)
    requires Relinked(AfterAdopt(AfterForesake(f, p, c), q, c, name), prefix, rank', s1, s2, q)
    ensures c in s.snap.scene && c in s2.snap.scene && s2.caches == s.caches
    ensures var l, l' := s.snap.scene[c], s2.snap.scene[c];
      && l'.renderer == l.renderer && l'.visible == l.visible && l'.state == l.state
      && l.place == Place(f, prefix, p) + [f[p].revert[c]] && l'.place == Place(f, prefix, q) + [name]
  {
    MovedPlace(f, prefix, rank, rank', p, q, c, name);
  }

  lemma MovedInOrder<N>(f: Family<N>, prefix: Prefixes<N>, rank: Rank<N>, rank': Rank<N>, s: Full<N>, s1: Full<N>,
                        s2: Full<N>, p: N, q: N, c: N, name: string)
    requires IsState(f, rank, s) && p in f && q in f && c in f && p != c && q != c && c in f[p].revert
    requires Relinked(AfterForesake(f, p, c), prefix, rank, s, s1, p) && name !in AfterForesake(f, p, c)[q].children
    requires Relinked(AfterAdopt(AfterForesake(f, p, c), q, c, name), prefix, rank', s1, s2, q)
    ensures IsState(AfterAdopt(AfterForesake(f, p, c), q, c, name), rank', s2)
  {
    var f1 := AfterForesake(f, p, c);
    ForesakeCoherent(f, rank, p, c);
    RelinkedState(f, rank, f1, prefix, rank, s, s1, p);
    NotNamed(f1, q, c);
    AdoptCoherent(f1, q, c, name);
    RelinkedState(f1, rank, AfterAdopt(f1, q, c, name), prefix, rank', s1, s2, q);
  }

  /** A node without a parent is named by no other. */
  lemma NotNamed<N>(f: Family<N>, q: N, c: N)
    requires Coherent(f) && q in f && c in f && f[c].parent == None && q != c
    ensures MayAdopt(f, q, c)
  {
    assert NamesAgree(f[q]) && ListsItsOwn(f, q);
  }

  lemma MovedUnmarked<N>(f: Family<N>, prefix: Prefixes<N>, rank: Rank<N>, rank': Rank<N>, s: Full<N>, s1: Full<N>,
                         s2: Full<N>, p: N, q: N, c: N, name: string)
    requires Coherent(f) && Ranked(f, rank) && p in f && q in f && c in f && p != c && q != c && c in f[p].revert
    requires c !in s.snap.dirty && Relinked(AfterForesake(f, p, c), prefix, rank, s, s1, p)
    requires Relinked(AfterAdopt(AfterForesake(f, p, c), q, c, name), prefix, rank', s1, s2, q)
    ensures c !in s2.snap.dirty
  {
    assert NamesAgree(f[p]);
    ChildBelow(f, rank, p, c);
    MovedNotMarked(AfterForesake(f, p, c), prefix, rank, s, s1, p, {c});
    var f2 := AfterAdopt(AfterForesake(f, p, c), q, c, name);
    assert BelowParent(f2, rank', c);
    MovedNotMarked(f2, prefix, rank', s1, s2, q, {c});
  }

  // ------------------------------------------------------------------ one such move

  const PLAIN := Renderer(NoAsks, (state: string, place: seq<string>, names: seq<string>, q: Query,
    answers: seq<string>) => state)

  /** A page 0 that holds a field 1. */
  function Page(): Family<nat> {
    map[0 := Links(None, [1], map["name" := 1], map[1 := "name"]), 1 := Links(Some(0), [], map[], map[])]
  }

  /** The page and the field as they look. */
  function Looks(): Scene<nat> {
    map[0 := Look(PLAIN, "", true, "", [], [1], map[1 := "name"]),
      1 := Look(FIELD, "42", true, "", ["name"], [], map[])]
  }

  /** The field has been displayed, and all but the page is as it was then. */
  function OnceShown(): Full<nat> {
    Full(Snap(Looks(), {0}), map[0 := Cache(Query([], "/", ""), ""), 1 := Cache(Query([], "/", ""), "name=42")],
      map[0 := 0, 1 := 0])
  }

  lemma PageIsForest(f: Family<nat>, rank: Rank<nat>)
    requires f == Page() && rank == map[0 := 1, 1 := 0]
    ensures Coherent(f) && Ranked(f, rank) && NamesAreWide(f, NAME_WIDTH) && RootOf(f, rank, 0) == 0
  {
    assert NamesAgree(f[0]) && NamesAgree(f[1]);
    assert ListsItsOwn(f, 0) && ListsItsOwn(f, 1);
    assert f[0].order[0] == 1 && ListedByParent(f, 0) && ListedByParent(f, 1);
    assert BelowParent(f, rank, 0) && BelowParent(f, rank, 1);
  }

  lemma LooksAreDrawn(f: Family<nat>, prefix: Prefixes<nat>, rank: Rank<nat>, s: Full<nat>)
    requires f == Page() && s == OnceShown() && rank == map[0 := 1, 1 := 0] && prefix == map[0 := [], 1 := []] &&
      Ranked(f, rank)
    ensures Drawn(s.snap.scene, f, prefix) && prefix.Keys == f.Keys
  {
    PlaceStep(f, prefix, rank, 0);
    PlaceStep(f, prefix, rank, 1);
  }

  lemma FieldDisplayed(rank: Rank<nat>, s: Full<nat>)
    requires s == OnceShown() && GoodScene(s.snap.scene, rank)
    ensures CacheValid(s, rank, 1)
  {
    FieldCore(s.snap.scene, rank, 1, s.caches[1].query);
    assert Namified(["name"]) + ("=" + "42") == "name=42";
  }

  lemma PageInOrder(f: Family<nat>, rank: Rank<nat>, s: Full<nat>)
    requires f == Page() && rank == map[0 := 1, 1 := 0] && s == OnceShown() && Coherent(f) && Ranked(f, rank)
    ensures IsState(f, rank, s)
  {
    assert WellMade(s.snap.scene);
    GoodFrom(f, s.snap.scene, rank);
  }

  lemma DisplayedIsTrusty(f: Family<nat>, rank: Rank<nat>, s: Full<nat>)
    requires f == Page() && rank == map[0 := 1, 1 := 0] && s == OnceShown() && Coherent(f) && Ranked(f, rank)
    ensures Trusty(f, rank, s)
  {
    PageInOrder(f, rank, s);
    FieldDisplayed(rank, s);
    assert f.Keys == {0, 1};
    assert 0 in s.snap.dirty && 0 in s.caches && 1 in s.caches;
  }

  /** The state after a move at p, its signal included. */
  lemma Sign<N>(s: Full<N>, f: Family<N>, prefix: Prefixes<N>, rank: Rank<N>, p: N) returns (s': Full<N>)
    requires s.snap.scene.Keys == f.Keys && Ranked(f, rank) && p in f
    ensures Relinked(f, prefix, rank, s, s', p)
  {
    var sc := Redrawn(s.snap.scene, f, prefix);
    s' := Full(Snap(sc, s.snap.dirty + MarkSet(sc, f, rank, p)), s.caches, s.posts);
  }

  lemma SignTwice<N>(s: Full<N>, f1: Family<N>, f2: Family<N>, prefix: Prefixes<N>, rank: Rank<N>, p: N)
    returns (s1: Full<N>, s2: Full<N>)
    requires s.snap.scene.Keys == f1.Keys == f2.Keys && Ranked(f1, rank) && Ranked(f2, rank) && p in f1
    ensures Relinked(f1, prefix, rank, s, s1, p) && Relinked(f2, prefix, rank, s1, s2, p)
  {
    s1 := Sign(s, f1, prefix, rank, p);
    s2 := Sign(s1, f2, prefix, rank, p);
  }

  lemma FieldOnPage() returns (f: Family<nat>, prefix: Prefixes<nat>, rank: Rank<nat>, s: Full<nat>)
    ensures Trusty(f, rank, s) && Drawn(s.snap.scene, f, prefix) && prefix.Keys == f.Keys && NamesAreWide(f, NAME_WIDTH)
    ensures 0 in f && 1 in f && 1 in f[0].revert && "next" !in f[0].children
    ensures s.snap.scene[1].renderer == FIELD && s.snap.scene[1].visible && 1 !in s.snap.dirty
  {
    f, prefix, rank, s := Page(), map[0 := [], 1 := []], map[0 := 1, 1 := 0], OnceShown();
    PageIsForest(f, rank);
    DisplayedIsTrusty(f, rank, s);
    LooksAreDrawn(f, prefix, rank, s);
    FieldIsDisplayed(f, s);
  }

  lemma FieldIsDisplayed(f: Family<nat>, s: Full<nat>)
    requires f == Page() && s == OnceShown()
    ensures s.snap.scene.Keys == f.Keys && 0 in f && 1 in f && 1 in f[0].revert && "next" !in f[0].children
    ensures s.snap.scene[1].renderer == FIELD && s.snap.scene[1].visible && 1 !in s.snap.dirty
  {
  }

  /** Such a page, all of whose caches are right, lets the field go and adopts it again under
      another name: asked as before, the field would answer with its former identifier. */
  lemma FieldAdoptedAgain()
    returns (f: Family<nat>, prefix: Prefixes<nat>, rank: Rank<nat>, s: Full<nat>, s1: Full<nat>, s2: Full<nat>)
    ensures Trusty(f, rank, s) && Drawn(s.snap.scene, f, prefix) && 0 in f && 1 in f && 1 in f[0].revert
    ensures Relinked(AfterForesake(f, 0, 1), prefix, rank, s, s1, 0)
    ensures Relinked(AfterAdopt(AfterForesake(f, 0, 1), 0, 1, "next"), prefix, rank, s1, s2, 0)
    ensures IsState(AfterAdopt(AfterForesake(f, 0, 1), 0, 1, "next"), rank, s2)
    ensures 1 !in s2.snap.dirty && !CacheValid(s2, rank, 1)
  {
    f, prefix, rank, s := FieldOnPage();
    s1, s2 := AdoptedAgain(f, prefix, rank, s, 0, 1, "next");
  }

  lemma SameHeights<N>(f: Family<N>, rank: Rank<N>, p: N, c: N, name: string)
    requires Coherent(f) && Ranked(f, rank) && p in f && c in f && p != c && c in f[p].revert
    ensures Ranked(AfterForesake(f, p, c), rank) && Ranked(AfterAdopt(AfterForesake(f, p, c), p, c, name), rank)
    ensures name !in f[p].children ==> name !in AfterForesake(f, p, c)[p].children && name != f[p].revert[c]
  {
    var f1 := AfterForesake(f, p, c);
    assert NamesAgree(f[p]);
    ForesakeCoherent(f, rank, p, c);
    ChildBelow(f, rank, p, c);
    forall n | n in f ensures BelowParent(AfterAdopt(f1, p, c, name), rank, n) {
      assert BelowParent(f1, rank, n);
    }
  }

  /** The same of any field. */
  lemma AdoptedAgain<N>(f: Family<N>, prefix: Prefixes<N>, rank: Rank<N>, s: Full<N>, p: N, c: N, name: string)
    returns (s1: Full<N>, s2: Full<N>)
    requires Trusty(f, rank, s) && Drawn(s.snap.scene, f, prefix) && prefix.Keys == f.Keys &&
      NamesAreWide(f, NAME_WIDTH)
    requires p in f && c in f && p != c && c in f[p].revert && name !in f[p].children && |name| == NAME_WIDTH
    requires s.snap.scene[c].renderer == FIELD && s.snap.scene[c].visible && c !in s.snap.dirty
    ensures Relinked(AfterForesake(f, p, c), prefix, rank, s, s1, p)
    ensures Relinked(AfterAdopt(AfterForesake(f, p, c), p, c, name), prefix, rank, s1, s2, p)
    ensures IsState(AfterAdopt(AfterForesake(f, p, c), p, c, name), rank, s2)
    ensures c !in s2.snap.dirty && s2.caches[c] == s.caches[c] && !CacheValid(s2, rank, c)
  {
    SameHeights(f, rank, p, c, name);
    s1, s2 := SignTwice(s, AfterForesake(f, p, c), AfterAdopt(AfterForesake(f, p, c), p, c, name), prefix, rank, p);
    MovedFieldIsStale(f, prefix, rank, rank, s, s1, s2, p, p, c, name);
  }
}
