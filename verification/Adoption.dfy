/** What adopting and letting go do to what nodes display and keep, and the family over whole
    runs. */
module Adoptions {
  import opened Json
  import opened Forest
  import opened Rendering
  import opened RenderPass

  // ------------------------------------------------------------------ heights do not matter

  /** A rendering does not depend on the heights that show the nodes to be a forest. */
  lemma {:induction false} RerankCore<N>(sc: Scene<N>, r1: Rank<N>, r2: Rank<N>, n: N, q: Query)
    requires GoodScene(sc, r1) && GoodScene(sc, r2) && n in sc
    ensures Core(sc, r1, n, q) == Core(sc, r2, n, q)
    decreases r1[n], 1, 0
  {
    if sc[n].visible {
      assert GoodLook(sc, r1, n);
      RerankAnswers(sc, r1, r2, n, PlanOf(sc[n], q));
    }
  }

  lemma {:induction false} RerankAnswers<N>(sc: Scene<N>, r1: Rank<N>, r2: Rank<N>, n: N, asks: seq<Ask>)
    requires GoodScene(sc, r1) && GoodScene(sc, r2) && n in sc
    requires forall i :: 0 <= i < |asks| ==> asks[i].child < |sc[n].order|
    ensures Answers(sc, r1, n, asks) == Answers(sc, r2, n, asks)
    decreases r1[n], 0, |asks|
  {
    if asks != [] {
      assert GoodLook(sc, r1, n) && GoodLook(sc, r2, n);
      var last := asks[|asks| - 1];
      RerankAnswers(sc, r1, r2, n, asks[..|asks| - 1]);
      RerankCore(sc, r1, r2, sc[n].order[last.child], last.query);
    }
  }

  /** All caches of a family in good order can be trusted. */
  ghost predicate Trusty<N>(f: Family<N>, rank: Rank<N>, s: Full<N>) {
    IsState(f, rank, s) && CachesValid(s, rank, f.Keys)
  }

  lemma Reranked<N>(f: Family<N>, r1: Rank<N>, r2: Rank<N>, s: Full<N>)
    requires Trusty(f, r1, s) && Ranked(f, r2)
    ensures Trusty(f, r2, s)
  {
    GoodFrom(f, s.snap.scene, r2);
    forall n | n in f.Keys ensures n in s.snap.scene && n in s.caches && CacheValid(s, r2, n) {
      assert CacheValid(s, r1, n);
      RerankCore(s.snap.scene, r1, r2, n, s.caches[n].query);
    }
  }

  // ------------------------------------------------------------------ from one family to another

  /** For the nodes in over not known to have changed: their caches are those they had, and those
      not in moved are rendered as they were. */
  ghost predicate Shifted<N>(s: Full<N>, s': Full<N>, rank: Rank<N>, over: set<N>, moved: set<N>) {
    && GoodScene(s.snap.scene, rank) && GoodScene(s'.snap.scene, rank)
    && s.caches.Keys == s.snap.scene.Keys && s'.caches.Keys == s'.snap.scene.Keys && s.snap.dirty <= s'.snap.dirty
    && forall n {:trigger StaysAt(s, s', rank, moved, n)} :: n in over && n in s.snap.scene && n !in s'.snap.dirty ==>
        StaysAt(s, s', rank, moved, n)
  }

  ghost predicate StaysAt<N>(s: Full<N>, s': Full<N>, rank: Rank<N>, moved: set<N>, n: N)
    requires GoodScene(s.snap.scene, rank) && GoodScene(s'.snap.scene, rank)
    requires n in s.snap.scene && n in s.caches && n in s'.caches
  {
    && n in s'.snap.scene && s'.caches[n] == s.caches[n] && s'.snap.scene[n].visible == s.snap.scene[n].visible
    && (n !in moved ==> SameRender(s.snap.scene, s'.snap.scene, rank, n))
  }

  lemma ShiftedNot<N>(s: Full<N>, rank: Rank<N>, over: set<N>, moved: set<N>)
    requires GoodScene(s.snap.scene, rank) && s.caches.Keys == s.snap.scene.Keys
    ensures Shifted(s, s, rank, over, moved)
  {
  }

  lemma ShiftedOn<N>(s0: Full<N>, s1: Full<N>, s2: Full<N>, rank: Rank<N>, over: set<N>, moved1: set<N>, moved2: set<N>)
    requires Shifted(s0, s1, rank, over, moved1) && Shifted(s1, s2, rank, over, moved2)
    ensures Shifted(s0, s2, rank, over, moved1 + moved2)
  {
    forall n | n in over && n in s0.snap.scene && n !in s2.snap.dirty
      ensures StaysAt(s0, s2, rank, moved1 + moved2, n) {
      assert StaysAt(s0, s1, rank, moved1, n) && StaysAt(s1, s2, rank, moved2, n);
      if n !in moved1 + moved2 {
        assert SameRender(s0.snap.scene, s1.snap.scene, rank, n) && SameRender(s1.snap.scene, s2.snap.scene, rank, n);
      }
    }
  }

  lemma ShiftedLess<N>(s: Full<N>, s': Full<N>, rank: Rank<N>, over: set<N>, moved: set<N>, over': set<N>,
                       moved': set<N>)
    requires Shifted(s, s', rank, over, moved) && over' <= over
    requires forall n :: n in moved && n in over' ==> n in moved' || n in s'.snap.dirty
    ensures Shifted(s, s', rank, over', moved')
  {
    forall n | n in over' && n in s.snap.scene && n !in s'.snap.dirty ensures StaysAt(s, s', rank, moved', n) {
      assert StaysAt(s, s', rank, moved, n);
    }
  }

  /** The part that n keeps, if it can be used, does not depend on the path of any node: it is the
      same with the paths that the other family gives. */
  ghost predicate PathFree<N>(s: Full<N>, rank: Rank<N>, f: Family<N>, prefix: Prefixes<N>, n: N)
    requires GoodScene(s.snap.scene, rank) && GoodScene(Relocated(s.snap.scene, f, prefix), rank)
    requires n in s.snap.scene && n in s.caches
  {
    s.snap.scene[n].visible && n !in s.snap.dirty ==>
      Core(Relocated(s.snap.scene, f, prefix), rank, n, s.caches[n].query) ==
        Core(s.snap.scene, rank, n, s.caches[n].query)
  }

  ghost predicate AllPathFree<N>(s: Full<N>, rank: Rank<N>, f: Family<N>, prefix: Prefixes<N>, moved: set<N>) {
    && GoodScene(s.snap.scene, rank) && GoodScene(Relocated(s.snap.scene, f, prefix), rank)
    && forall n {:trigger PathFree(s, rank, f, prefix, n)} :: n in moved ==>
        n in s.snap.scene && n in s.caches && PathFree(s, rank, f, prefix, n)
  }

  lemma RelocatedGood<N>(sc: Scene<N>, rank: Rank<N>, f: Family<N>, prefix: Prefixes<N>)
    requires GoodScene(sc, rank)
    ensures GoodScene(Relocated(sc, f, prefix), rank)
  {
    forall n | n in sc ensures GoodLook(Relocated(sc, f, prefix), rank, n) {
      assert GoodLook(sc, rank, n);
    }
  }

  /** All that differs in moved is the paths, and moved is whole subtrees. */
  ghost predicate OnlyPlaces<N>(sc: Scene<N>, sc': Scene<N>, f: Family<N>, prefix: Prefixes<N>, moved: set<N>) {
    && moved <= sc.Keys == sc'.Keys
    && forall n :: n in moved ==>
        sc'[n] == Relocated(sc, f, prefix)[n] && forall i :: 0 <= i < |sc'[n].order| ==> sc'[n].order[i] in moved
  }

  /** There the new rendering is that of the old scene with the new paths. */
  lemma MovedPart<N>(sc: Scene<N>, sc': Scene<N>, rank: Rank<N>, f: Family<N>, prefix: Prefixes<N>, moved: set<N>, n: N,
                     q: Query)
    requires GoodScene(sc, rank) && GoodScene(sc', rank) && GoodScene(Relocated(sc, f, prefix), rank)
    requires OnlyPlaces(sc, sc', f, prefix, moved) && n in moved
    ensures Core(sc', rank, n, q) == Core(Relocated(sc, f, prefix), rank, n, q)
  {
    UnmarkedSame(Relocated(sc, f, prefix), sc', rank, sc.Keys - moved, n, q);
  }

  /** After nodes have moved, and what is above them has been marked, all caches can be trusted if
      and only if the parts that the moved nodes keep do not depend on their paths. */
  lemma MovedTrust<N>(s: Full<N>, s': Full<N>, rank: Rank<N>, f: Family<N>, prefix: Prefixes<N>, over: set<N>,
                      moved: set<N>)
    requires Shifted(s, s', rank, over, moved) && CachesValid(s, rank, over) && moved <= over <= s.snap.scene.Keys
    requires OnlyPlaces(s.snap.scene, s'.snap.scene, f, prefix, moved)
    requires SameMarks(s, s', moved)
    ensures CachesValid(s', rank, over) <==> AllPathFree(s, rank, f, prefix, moved)
  {
    RelocatedGood(s.snap.scene, rank, f, prefix);
    forall n | n in over ensures CacheValid(s', rank, n) <==> n in moved ==> PathFree(s, rank, f, prefix, n) {
      assert CacheValid(s, rank, n);
      if n in moved {
        MovedPart(s.snap.scene, s'.snap.scene, rank, f, prefix, moved, n, s.caches[n].query);
      }
      if n !in s'.snap.dirty {
        assert StaysAt(s, s', rank, moved, n);
        if n !in moved {
          assert SameRender(s.snap.scene, s'.snap.scene, rank, n);
        }
      }
    }
    forall n | n in moved && CachesValid(s', rank, over) ensures PathFree(s, rank, f, prefix, n) {
      assert CacheValid(s', rank, n);
    }
  }

  /** The heights after an adoption were good ones before it. */
  lemma RankedBefore<N>(f: Family<N>, rank': Rank<N>, p: N, c: N, name: string)
    requires p in f && c in f && MayAdopt(f, p, c) && Ranked(AfterAdopt(f, p, c, name), rank')
    ensures Ranked(f, rank')
  {
    forall d | d in f ensures BelowParent(f, rank', d) {
      assert BelowParent(AfterAdopt(f, p, c, name), rank', d);
    }
  }

  // ------------------------------------------------------------------ moving one node

  /** Only p lists other children than before. */
  ghost predicate OnlyAt<N>(f: Family<N>, f': Family<N>, p: N) {
    f'.Keys == f.Keys && p in f && forall n :: n in f && n != p ==>
      f'[n].order == f[n].order && f'[n].revert == f[n].revert
  }

  /** Only c is elsewhere, if anything is. */
  ghost predicate MovesOnly<N>(f: Family<N>, prefix: Prefixes<N>, f': Family<N>, prefix': Prefixes<N>, c: N) {
    f'.Keys == f.Keys && c in f && forall n :: n in f && n != c ==> SameClimb(f, prefix, f', prefix', n)
  }

  /** Only the nodes under c have other paths. */
  lemma PlaceOutside<N>(f: Family<N>, prefix: Prefixes<N>, f': Family<N>, prefix': Prefixes<N>, rank: Rank<N>, c: N,
                        n: N)
    requires Ranked(f, rank) && Ranked(f', rank) && MovesOnly(f, prefix, f', prefix', c) && n in f && !Under(f', n, c)
    ensures Place(f', prefix', n) == Place(f, prefix, n)
  {
    forall m | m in Ancestors(f', n) ensures m in f && m in f' && SameClimb(f, prefix, f', prefix', m) {
      AncestorsHigher(f', rank, f'.Keys, n, m);
    }
    SamePlace(f, prefix, rank, f', prefix', rank, n);
  }

  /** p has other children and has signalled it. */
  ghost predicate Relinked<N>(f': Family<N>, prefix': Prefixes<N>, rank: Rank<N>, s: Full<N>, s': Full<N>, p: N) {
    && Ranked(f', rank) && p in f' && s.snap.scene.Keys == f'.Keys
    && s'.snap.scene == Redrawn(s.snap.scene, f', prefix')
    && s'.snap.dirty == s.snap.dirty + MarkSet(s'.snap.scene, f', rank, p)
    && s'.caches == s.caches && s'.posts == s.posts
  }

  lemma RelinkedState<N>(f: Family<N>, rank: Rank<N>, f': Family<N>, prefix': Prefixes<N>, rank': Rank<N>,
                         s: Full<N>, s': Full<N>, p: N)
    requires IsState(f, rank, s) && f'.Keys == f.Keys && Coherent(f') && Relinked(f', prefix', rank', s, s', p)
    ensures IsState(f', rank', s')
  {
    GoodFrom(f', s'.snap.scene, rank');
  }

  /** What a node lists is where it is: under c if it is, and not c unless it is its parent. */
  lemma ListedUnder<N>(f: Family<N>, rank: Rank<N>, c: N, n: N, k: N)
    requires Coherent(f) && Ranked(f, rank) && n in f && k in f[n].order
    ensures k in f && f[k].parent == Some(n)
    ensures Under(f, k, c) <==> k == c || Under(f, n, c)
  {
    assert ListsItsOwn(f, n);
    AncestorsStep(f, rank, k);
  }

  /** The marks cover all of a move but the moved node and what is under it. */
  lemma MoveCovers<N>(f: Family<N>, prefix: Prefixes<N>, f': Family<N>, prefix': Prefixes<N>, rank: Rank<N>,
                      sc: Scene<N>, p: N, c: N)
    requires Drawn(sc, f, prefix) && Ranked(f, rank) && Coherent(f') && Ranked(f', rank)
    requires MovesOnly(f, prefix, f', prefix', c) && OnlyAt(f, f', p)
    requires f'[c].parent == None || f'[c].parent == Some(p)
    ensures var sc' := Redrawn(sc, f', prefix'); Covers(sc, sc', MarkSet(sc', f', rank, p) + UnderSet(f', c))
  {
    var sc' := Redrawn(sc, f', prefix');
    var marked := MarkSet(sc', f', rank, p);
    forall n | n in sc && n !in marked + UnderSet(f', c)
      ensures SameLook(sc, sc', n)
      ensures sc'[n].visible ==> forall i :: 0 <= i < |sc'[n].order| ==> sc'[n].order[i] !in marked + UnderSet(f', c)
    {
      PlaceOutside(f, prefix, f', prefix', rank, c, n);
      if sc'[n].visible {
        assert n != p;
        forall i | 0 <= i < |sc'[n].order| ensures sc'[n].order[i] !in marked + UnderSet(f', c) {
          var k := sc'[n].order[i];
          assert k in f'[n].order;
          ListedUnder(f', rank, c, n, k);
          if k in marked {
            MarkClosed(sc', f', rank, p, k);
          }
        }
      }
    }
  }

  lemma MoveShifts<N>(f: Family<N>, prefix: Prefixes<N>, f': Family<N>, prefix': Prefixes<N>, rank: Rank<N>,
                      s: Full<N>, s': Full<N>, p: N, c: N)
    requires IsState(f, rank, s) && Drawn(s.snap.scene, f, prefix) && Coherent(f') &&
      Relinked(f', prefix', rank, s, s', p)
    requires MovesOnly(f, prefix, f', prefix', c) && OnlyAt(f, f', p)
    requires f'[c].parent == None || f'[c].parent == Some(p)
    ensures Shifted(s, s', rank, f.Keys, UnderSet(f', c))
  {
    RelinkedState(f, rank, f', prefix', rank, s, s', p);
    MoveCovers(f, prefix, f', prefix', rank, s.snap.scene, p, c);
    var marked := MarkSet(s'.snap.scene, f', rank, p) + UnderSet(f', c);
    forall n | n in f.Keys && n !in s'.snap.dirty ensures StaysAt(s, s', rank, UnderSet(f', c), n) {
      if n !in UnderSet(f', c) {
        UnmarkedSameRender(s.snap.scene, s'.snap.scene, rank, marked, n);
      }
    }
  }

  /** The marks are given above, so that they touch no node that is moved. */
  lemma {:induction false} MarksAbove<N>(sc: Scene<N>, f: Family<N>, rank: Rank<N>, n: N, k: N)
    requires sc.Keys == f.Keys && Ranked(f, rank) && n in f && k in MarkSet(sc, f, rank, n)
    ensures k in f && rank[k] >= rank[n]
    decreases Higher(rank, n)
  {
    assert BelowParent(f, rank, n);
    if k != n {
      HigherShrinks(rank, n, f[n].parent.value);
      MarksAbove(sc, f, rank, f[n].parent.value, k);
    }
  }

  lemma MovedNotMarked<N>(f': Family<N>, prefix': Prefixes<N>, rank: Rank<N>, s: Full<N>, s': Full<N>, p: N,
                          moved: set<N>)
    requires Relinked(f', prefix', rank, s, s', p) && forall n :: n in moved ==> n in f' && rank[n] < rank[p]
    ensures SameMarks(s, s', moved)
  {
    forall n | n in MarkSet(s'.snap.scene, f', rank, p) ensures n !in moved {
      MarksAbove(s'.snap.scene, f', rank, p, n);
    }
  }

  lemma UnderIsLower<N>(f: Family<N>, rank: Rank<N>, c: N)
    requires Ranked(f, rank) && c in f
    ensures forall n :: n in UnderSet(f, c) ==> n in f && rank[n] <= rank[c]
  {
    forall n | n in UnderSet(f, c) ensures rank[n] <= rank[c] {
      AncestorsHigher(f, rank, f.Keys, n, c);
    }
  }

  lemma MovedOnlyPlaces<N>(f: Family<N>, prefix: Prefixes<N>, f': Family<N>, prefix': Prefixes<N>, rank: Rank<N>,
                           sc: Scene<N>, p: N, c: N)
    requires Drawn(sc, f, prefix) && OnlyAt(f, f', p) && Coherent(f') && Ranked(f', rank) && c in f && rank[c] < rank[p]
    ensures OnlyPlaces(sc, Redrawn(sc, f', prefix'), f', prefix', UnderSet(f', c))
  {
    var sc' := Redrawn(sc, f', prefix');
    UnderIsLower(f', rank, c);
    forall n, i | n in UnderSet(f', c) && 0 <= i < |sc'[n].order| ensures sc'[n].order[i] in UnderSet(f', c) {
      assert sc'[n].order[i] in f'[n].order;
      ListedUnder(f', rank, c, n, sc'[n].order[i]);
    }
  }

  /** After c has moved under or from p, all caches can be trusted if and only if the parts kept by
      c and by what is under it do not depend on their paths. */
  lemma MoveTrustIff<N>(f: Family<N>, prefix: Prefixes<N>, f': Family<N>, prefix': Prefixes<N>, rank: Rank<N>,
                        s: Full<N>, s': Full<N>, p: N, c: N)
    requires Trusty(f, rank, s) && Drawn(s.snap.scene, f, prefix) && Coherent(f') &&
      Relinked(f', prefix', rank, s, s', p)
    requires MovesOnly(f, prefix, f', prefix', c) && OnlyAt(f, f', p) && rank[c] < rank[p]
    requires f'[c].parent == None || f'[c].parent == Some(p)
    ensures Trusty(f', rank, s') <==> AllPathFree(s, rank, f', prefix', UnderSet(f', c))
  {
    var moved := UnderSet(f', c);
    RelinkedState(f, rank, f', prefix', rank, s, s', p);
    assert Shifted(s, s', rank, f.Keys, moved) by {
      MoveShifts(f, prefix, f', prefix', rank, s, s', p, c);
    }
    assert SameMarks(s, s', moved) by {
      UnderIsLower(f', rank, c);
      MovedNotMarked(f', prefix', rank, s, s', p, moved);
    }
    assert OnlyPlaces(s.snap.scene, s'.snap.scene, f', prefix', moved) by {
      MovedOnlyPlaces(f, prefix, f', prefix', rank, s.snap.scene, p, c);
    }
    MovedTrust(s, s', rank, f', prefix', f.Keys, moved);
  }

  lemma AdoptMoves<N>(f: Family<N>, prefix: Prefixes<N>, p: N, c: N, name: string)
    requires p in f && c in f && MayAdopt(f, p, c)
    ensures OnlyAt(f, AfterAdopt(f, p, c, name), p) && MovesOnly(f, prefix, AfterAdopt(f, p, c, name), prefix, c)
  {
  }

  lemma ForesakeMoves<N>(f: Family<N>, prefix: Prefixes<N>, p: N, c: N)
    requires p in f && c in f && p != c && c in f[p].revert
    ensures OnlyAt(f, AfterForesake(f, p, c), p) && MovesOnly(f, prefix, AfterForesake(f, p, c), prefix, c)
  {
  }

  lemma AdoptTrustIff<N>(f: Family<N>, prefix: Prefixes<N>, rank: Rank<N>, rank': Rank<N>, s: Full<N>, s': Full<N>,
                         p: N, c: N, name: string)
    requires Trusty(f, rank, s) && Drawn(s.snap.scene, f, prefix) && p in f && c in f && MayAdopt(f, p, c)
    requires name !in f[p].children && Relinked(AfterAdopt(f, p, c, name), prefix, rank', s, s', p)
    ensures var f' := AfterAdopt(f, p, c, name);
      Trusty(f', rank', s') <==> AllPathFree(s, rank', f', prefix, UnderSet(f', c))
  {
    var f' := AfterAdopt(f, p, c, name);
    assert Trusty(f, rank', s) by {
      RankedBefore(f, rank', p, c, name);
      Reranked(f, rank, rank', s);
    }
    assert Coherent(f') by {
      AdoptCoherent(f, p, c, name);
    }
    AdoptMoves(f, prefix, p, c, name);
    assert f'[c].parent == Some(p) && BelowParent(f', rank', c);
    MoveTrustIff(f, prefix, f', prefix, rank', s, s', p, c);
  }

  /** All that follows from an adoption. */
  lemma Adopted<N>(f: Family<N>, prefix: Prefixes<N>, rank: Rank<N>, rank': Rank<N>, s: Full<N>, s': Full<N>,
                   p: N, c: N, name: string)
    requires IsState(f, rank, s) && Drawn(s.snap.scene, f, prefix) && p in f && c in f && MayAdopt(f, p, c)
    requires name !in f[p].children && Relinked(AfterAdopt(f, p, c, name), prefix, rank', s, s', p)
    ensures var f' := AfterAdopt(f, p, c, name);
      && IsState(f', rank', s')
      && (Trusty(f, rank, s) ==> (Trusty(f', rank', s') <==> AllPathFree(s, rank', f', prefix, UnderSet(f', c))))
  {
    var f' := AfterAdopt(f, p, c, name);
    AdoptCoherent(f, p, c, name);
    RelinkedState(f, rank, f', prefix, rank', s, s', p);
    if Trusty(f, rank, s) {
      AdoptTrustIff(f, prefix, rank, rank', s, s', p, c, name);
    }
  }

  lemma ForesakeTrustIff<N>(f: Family<N>, prefix: Prefixes<N>, rank: Rank<N>, s: Full<N>, s': Full<N>, p: N, c: N)
    requires Trusty(f, rank, s) && Drawn(s.snap.scene, f, prefix) && p in f && c in f && p != c && c in f[p].revert
    requires Relinked(AfterForesake(f, p, c), prefix, rank, s, s', p)
    ensures var f' := AfterForesake(f, p, c);
      Trusty(f', rank, s') <==> AllPathFree(s, rank, f', prefix, UnderSet(f', c))
  {
    ForesakeCoherent(f, rank, p, c);
    ForesakeMoves(f, prefix, p, c);
    assert NamesAgree(f[p]);
    ChildBelow(f, rank, p, c);
    MoveTrustIff(f, prefix, AfterForesake(f, p, c), prefix, rank, s, s', p, c);
  }

  // ------------------------------------------------------------------ moving a whole tree

  /** A root is told where it is: what is under it has other paths. */
  lemma PrefixTrustIff<N>(f: Family<N>, prefix: Prefixes<N>, prefix': Prefixes<N>, rank: Rank<N>, s: Full<N>,
                          s': Full<N>, r: N)
    requires Trusty(f, rank, s) && Drawn(s.snap.scene, f, prefix) && r in f && f[r].parent == None && r in prefix
    requires r in prefix' && prefix' == prefix[r := prefix'[r]] && Relinked(f, prefix', rank, s, s', r)
    ensures Trusty(f, rank, s') <==> AllPathFree(s, rank, f, prefix', UnderSet(f, r) - {r})
  {
    var moved := UnderSet(f, r) - {r};
    RelinkedState(f, rank, f, prefix', rank, s, s', r);
    MoveShifts(f, prefix, f, prefix', rank, s, s', r, r);
    RootShifts(s, s', rank, f.Keys, UnderSet(f, r), r);
    UnderBelow(f, rank, r);
    MovedNotMarked(f, prefix', rank, s, s', r, moved);
    SubtreesOnlyPlaces(f, f, prefix', rank, s.snap.scene, r);
    MovedTrust(s, s', rank, f, prefix', f.Keys, moved);
  }

  /** A node that has signalled its change, or that does not show, need not count as moved. */
  lemma RootShifts<N>(s: Full<N>, s': Full<N>, rank: Rank<N>, over: set<N>, moved: set<N>, r: N)
    requires Shifted(s, s', rank, over, moved) && r in s.snap.scene && r in s'.snap.scene
    requires s'.snap.scene[r].anchor == s.snap.scene[r].anchor && s'.snap.scene[r].visible == s.snap.scene[r].visible
    requires s.snap.scene[r].visible ==> r in s'.snap.dirty
    ensures Shifted(s, s', rank, over, moved - {r})
  {
    forall n | n in over && n in s.snap.scene && n !in s'.snap.dirty ensures StaysAt(s, s', rank, moved - {r}, n) {
      assert StaysAt(s, s', rank, moved, n);
    }
  }

  lemma UnderBelow<N>(f: Family<N>, rank: Rank<N>, n: N)
    requires Ranked(f, rank) && n in f
    ensures forall m :: m in UnderSet(f, n) - {n} ==> m in f && rank[m] < rank[n]
  {
    forall m | m in UnderSet(f, n) - {n} ensures rank[m] < rank[n] {
      AncestorsHigher(f, rank, f.Keys, m, n);
    }
  }

  /** What is under n keeps its children, whatever becomes of n. */
  lemma SubtreesOnlyPlaces<N>(f: Family<N>, f': Family<N>, prefix': Prefixes<N>, rank: Rank<N>, sc: Scene<N>, n: N)
    requires sc.Keys == f.Keys == f'.Keys && Coherent(f) && Ranked(f, rank) && n in f
    requires forall m :: m in f ==> sc[m].order == f[m].order && sc[m].revert == f[m].revert
    requires forall m :: m in UnderSet(f, n) - {n} ==> f'[m].order == f[m].order && f'[m].revert == f[m].revert
    ensures OnlyPlaces(sc, Redrawn(sc, f', prefix'), f', prefix', UnderSet(f, n) - {n})
  {
    var sc', moved := Redrawn(sc, f', prefix'), UnderSet(f, n) - {n};
    UnderBelow(f, rank, n);
    forall m, i | m in moved && 0 <= i < |sc'[m].order| ensures sc'[m].order[i] in moved {
      var k := sc'[m].order[i];
      assert k in f[m].order;
      ListedUnder(f, rank, n, m, k);
      ChildBelow(f, rank, m, k);
    }
  }

  ghost predicate SameMarks<N>(s: Full<N>, s': Full<N>, moved: set<N>) {
    forall m :: m in moved ==> (m in s'.snap.dirty <==> m in s.snap.dirty)
  }

  /** On the way from f0 to f, n has let some of its children go and signalled it. */
  ghost predicate LettingGo<N>(f0: Family<N>, prefix: Prefixes<N>, rank: Rank<N>, s0: Full<N>, f: Family<N>, s: Full<N>,
                               n: N)
    requires n in f0
  {
    var moved := UnderSet(f0, n) - {n};
    && f.Keys == f0.Keys && s0.snap.scene.Keys == f0.Keys
    && s.snap.scene == Redrawn(s0.snap.scene, f, prefix) && s.posts == s0.posts && s.caches == s0.caches
    && Shifted(s0, s, rank, f0.Keys, moved) && UnderSet(f, n) <= UnderSet(f0, n)
    && SameMarks(s0, s, moved)
  }

  lemma LettingGoStarts<N>(f: Family<N>, prefix: Prefixes<N>, rank: Rank<N>, s: Full<N>, n: N)
    requires IsState(f, rank, s) && Drawn(s.snap.scene, f, prefix) && n in f
    ensures LettingGo(f, prefix, rank, s, f, s, n)
  {
    ShiftedNot(s, rank, f.Keys, UnderSet(f, n) - {n});
  }

  /** Some nodes have no parent any more. */
  ghost predicate LessLinks<N>(f: Family<N>, f': Family<N>) {
    f'.Keys == f.Keys && forall m :: m in f ==> f'[m].parent == f[m].parent || f'[m].parent == None
  }

  /** With fewer links there is less above a node. */
  lemma {:induction false} LessAbove<N>(f: Family<N>, f': Family<N>, left: set<N>, n: N)
    requires LessLinks(f, f')
    ensures Climb(f', left, n) <= Climb(f, left, n)
    decreases left
  {
    if n in left && n in f && f'[n].parent.Some? {
      LessAbove(f, f', left - {n}, f'[n].parent.value);
    }
  }

  lemma LessUnder<N>(f: Family<N>, f': Family<N>, n: N)
    requires LessLinks(f, f')
    ensures UnderSet(f', n) <= UnderSet(f, n)
  {
    forall m | m in UnderSet(f', n) ensures m in UnderSet(f, n) {
      LessAbove(f, f', f.Keys, m);
    }
  }

  lemma RedrawnTwice<N>(sc: Scene<N>, f: Family<N>, f': Family<N>, prefix: Prefixes<N>)
    requires sc.Keys == f.Keys == f'.Keys
    ensures Redrawn(Redrawn(sc, f, prefix), f', prefix) == Redrawn(sc, f', prefix)
  {
  }

  lemma RedrawnIsDrawn<N>(sc: Scene<N>, f: Family<N>, prefix: Prefixes<N>)
    requires sc.Keys == f.Keys
    ensures Drawn(Redrawn(sc, f, prefix), f, prefix)
  {
  }

  /** c is let go by p: what a move needs, and fewer links. */
  ghost predicate Loses<N>(f: Family<N>, prefix: Prefixes<N>, f': Family<N>, p: N, c: N) {
    LessLinks(f, f') && OnlyAt(f, f', p) && MovesOnly(f, prefix, f', prefix, c) && f'[c].parent == None && Coherent(f')
  }

  lemma ForesakeLoses<N>(f: Family<N>, prefix: Prefixes<N>, rank: Rank<N>, p: N, c: N)
    requires Coherent(f) && Ranked(f, rank) && p in f && c in f && p != c && c in f[p].revert
    ensures Loses(f, prefix, AfterForesake(f, p, c), p, c)
    ensures c in f[p].order && f[c].parent == Some(p) && UnderSet(f, c) <= UnderSet(f, p) - {p}
  {
    ForesakeCoherent(f, rank, p, c);
    ForesakeMoves(f, prefix, p, c);
    assert NamesAgree(f[p]);
    SubtreeOfChild(f, rank, p, c);
  }

  lemma LettingGoOn<N>(f0: Family<N>, prefix: Prefixes<N>, rank: Rank<N>, s0: Full<N>, f: Family<N>, s: Full<N>,
                       f': Family<N>, s': Full<N>, n: N, c: N)
    requires n in f0 && Ranked(f0, rank) && LettingGo(f0, prefix, rank, s0, f, s, n) && IsState(f, rank, s)
    requires Loses(f, prefix, f', n, c) && UnderSet(f, c) <= UnderSet(f, n) - {n} &&
      Relinked(f', prefix, rank, s, s', n)
    ensures LettingGo(f0, prefix, rank, s0, f', s', n)
  {
    var moved := UnderSet(f0, n) - {n};
    UnderBelow(f0, rank, n);
    MovedNotMarked(f', prefix, rank, s, s', n, moved);
    RedrawnTwice(s0.snap.scene, f, f', prefix);
    LoseOn(f0, prefix, rank, s0, f, s, f', s', n, c, moved);
    LessUnder(f, f', n);
  }

  lemma LoseOn<N>(f0: Family<N>, prefix: Prefixes<N>, rank: Rank<N>, s0: Full<N>, f: Family<N>, s: Full<N>,
                  f': Family<N>, s': Full<N>, n: N, c: N, moved: set<N>)
    requires s0.snap.scene.Keys == f0.Keys == f.Keys && s.snap.scene == Redrawn(s0.snap.scene, f, prefix)
    requires Shifted(s0, s, rank, f0.Keys, moved) && IsState(f, rank, s) && n in f
    requires Loses(f, prefix, f', n, c) && UnderSet(f, c) <= moved && Relinked(f', prefix, rank, s, s', n)
    ensures Shifted(s0, s', rank, f0.Keys, moved)
  {
    RedrawnIsDrawn(s0.snap.scene, f, prefix);
    LoseShifts(f, prefix, rank, f', s, s', n, c, moved);
    ShiftedOn(s0, s, s', rank, f0.Keys, moved, moved);
    assert moved + moved == moved;
  }

  lemma LoseShifts<N>(f: Family<N>, prefix: Prefixes<N>, rank: Rank<N>, f': Family<N>, s: Full<N>, s': Full<N>,
                      n: N, c: N, moved: set<N>)
    requires IsState(f, rank, s) && Drawn(s.snap.scene, f, prefix) && n in f
    requires Loses(f, prefix, f', n, c) && UnderSet(f, c) <= moved && Relinked(f', prefix, rank, s, s', n)
    ensures Shifted(s, s', rank, f.Keys, moved)
  {
    MoveShifts(f, prefix, f', prefix, rank, s, s', n, c);
    LessUnder(f, f', c);
    ShiftedLess(s, s', rank, f.Keys, UnderSet(f', c), f.Keys, moved);
  }

  /** Once n has let all its children go, all caches can be trusted if and only if the parts kept
      by what was under it do not depend on their paths. */
  lemma OrphanTrustIff<N>(f: Family<N>, prefix: Prefixes<N>, rank: Rank<N>, s: Full<N>, s': Full<N>, n: N)
    requires Trusty(f, rank, s) && Drawn(s.snap.scene, f, prefix) && n in f
    requires LettingGo(f, prefix, rank, s, Orphaned(f, n), s', n) && IsState(Orphaned(f, n), rank, s')
    ensures Trusty(Orphaned(f, n), rank, s') <==> AllPathFree(s, rank, Orphaned(f, n), prefix, UnderSet(f, n) - {n})
  {
    SubtreesOnlyPlaces(f, Orphaned(f, n), prefix, rank, s.snap.scene, n);
    MovedTrust(s, s', rank, Orphaned(f, n), prefix, f.Keys, UnderSet(f, n) - {n});
  }

  /** n has also left its parent, if it had one. */
  ghost predicate LetGo<N>(f: Family<N>, prefix: Prefixes<N>, rank: Rank<N>, s: Full<N>, s': Full<N>, n: N)
    requires n in f
  {
    var f', moved := Released(Orphaned(f, n), n), UnderSet(f, n) - {n};
    && s.snap.scene.Keys == f.Keys == f'.Keys && s'.snap.scene == Redrawn(s.snap.scene, f', prefix)
    && Shifted(s, s', rank, f.Keys - {n}, moved) && s'.caches == s.caches
    && SameMarks(s, s', moved)
  }

  lemma LetGoAlone<N>(f: Family<N>, prefix: Prefixes<N>, rank: Rank<N>, s: Full<N>, s': Full<N>, n: N)
    requires n in f && LettingGo(f, prefix, rank, s, Orphaned(f, n), s', n) && Orphaned(f, n)[n].parent == None
    ensures LetGo(f, prefix, rank, s, s', n)
  {
    ShiftedLess(s, s', rank, f.Keys, UnderSet(f, n) - {n}, f.Keys - {n}, UnderSet(f, n) - {n});
  }

  lemma LetGoByParent<N>(f: Family<N>, prefix: Prefixes<N>, rank: Rank<N>, s: Full<N>, s1: Full<N>, s': Full<N>, n: N,
                         p: N)
    requires n in f && Ranked(f, rank) && LettingGo(f, prefix, rank, s, Orphaned(f, n), s1, n) &&
      IsState(Orphaned(f, n), rank, s1)
    requires p in f && p != n && Orphaned(f, n)[n].parent == Some(p) && n in Orphaned(f, n)[p].revert
    requires Relinked(Released(Orphaned(f, n), n), prefix, rank, s1, s', p)
    ensures LetGo(f, prefix, rank, s, s', n)
  {
    var f1, f' := Orphaned(f, n), Released(Orphaned(f, n), n);
    ForesakeLoses(f1, prefix, rank, p, n);
    ChildlessUnder(f1, rank, n);
    assert BelowParent(f1, rank, n);
    LastLetGo(f, prefix, rank, s, f1, s1, f', s', n, p);
  }

  lemma LastLetGo<N>(f: Family<N>, prefix: Prefixes<N>, rank: Rank<N>, s: Full<N>, f1: Family<N>, s1: Full<N>,
                     f': Family<N>, s': Full<N>, n: N, p: N)
    requires n in f && Ranked(f, rank) && LettingGo(f, prefix, rank, s, f1, s1, n) && IsState(f1, rank, s1)
    requires f' == Released(Orphaned(f, n), n) && p in f && rank[n] < rank[p]
    requires Loses(f1, prefix, f', p, n) && UnderSet(f1, n) == {n} && Relinked(f', prefix, rank, s1, s', p)
    ensures LetGo(f, prefix, rank, s, s', n)
  {
    var moved := UnderSet(f, n) - {n};
    RedrawnTwice(s.snap.scene, f1, f', prefix);
    LastShifts(f, prefix, rank, s, f1, s1, f', s', n, p, moved);
    UnderBelow(f, rank, n);
    MovedNotMarked(f', prefix, rank, s1, s', p, moved);
  }

  lemma LastShifts<N>(f: Family<N>, prefix: Prefixes<N>, rank: Rank<N>, s: Full<N>, f1: Family<N>, s1: Full<N>,
                      f': Family<N>, s': Full<N>, n: N, p: N, moved: set<N>)
    requires s.snap.scene.Keys == f.Keys == f1.Keys && s1.snap.scene == Redrawn(s.snap.scene, f1, prefix)
    requires Shifted(s, s1, rank, f.Keys, moved) && IsState(f1, rank, s1) && p in f
    requires Loses(f1, prefix, f', p, n) && UnderSet(f1, n) == {n} && Relinked(f', prefix, rank, s1, s', p)
    ensures Shifted(s, s', rank, f.Keys - {n}, moved)
  {
    RedrawnIsDrawn(s.snap.scene, f1, prefix);
    LoseShifts(f1, prefix, rank, f', s1, s', p, n, {n});
    ShiftedLess(s1, s', rank, f.Keys, {n}, f.Keys - {n}, moved);
    ShiftedLess(s, s1, rank, f.Keys, moved, f.Keys - {n}, moved);
    ShiftedOn(s, s1, s', rank, f.Keys - {n}, moved, moved);
    assert moved + moved == moved;
  }

  lemma ChildlessUnder<N>(f: Family<N>, rank: Rank<N>, n: N)
    requires Coherent(f) && Ranked(f, rank) && n in f && f[n].order == []
    ensures UnderSet(f, n) == {n}
  {
    UnderAll(f, rank, n);
  }

  /** Then the caches of all other nodes can be trusted if and only if the parts kept by what was
      under it do not depend on their paths. */
  lemma LetGoTrustIff<N>(f: Family<N>, prefix: Prefixes<N>, rank: Rank<N>, s: Full<N>, s': Full<N>, n: N)
    requires Trusty(f, rank, s) && Drawn(s.snap.scene, f, prefix) && n in f && LetGo(f, prefix, rank, s, s', n)
    ensures var f' := Released(Orphaned(f, n), n);
      CachesValid(s', rank, f.Keys - {n}) <==> AllPathFree(s, rank, f', prefix, UnderSet(f, n) - {n})
  {
    var f', moved := Released(Orphaned(f, n), n), UnderSet(f, n) - {n};
    UnderBelow(f, rank, n);
    ReleasedOrders(f, rank, n);
    SubtreesOnlyPlaces(f, f', prefix, rank, s.snap.scene, n);
    MovedTrust(s, s', rank, f', prefix, f.Keys - {n}, moved);
  }

  lemma ReleasedOrders<N>(f: Family<N>, rank: Rank<N>, n: N)
    requires Coherent(f) && Ranked(f, rank) && n in f
    ensures var f' := Released(Orphaned(f, n), n);
      forall m :: m in UnderSet(f, n) - {n} ==> m in f' && f'[m].order == f[m].order && f'[m].revert == f[m].revert
  {
    assert BelowParent(f, rank, n);
    UnderBelow(f, rank, n);
  }

  /** Emptying the cache of a node that has no parent and is known to have changed, and changing
      how it looks, matters to no other. */
  lemma ResetTrustIff<N>(f: Family<N>, rank: Rank<N>, s: Full<N>, s': Full<N>, n: N)
    requires IsState(f, rank, s) && n in f && f[n].parent == None
    requires ChangedAt(s.snap.scene, s'.snap.scene, n) && s'.snap.dirty == s.snap.dirty + {n}
    requires s'.caches.Keys == f.Keys && s'.posts.Keys == f.Keys && forall m :: m in f && m != n ==>
      s'.caches[m] == s.caches[m]
    ensures IsState(f, rank, s') && (Trusty(f, rank, s') <==> CachesValid(s, rank, f.Keys - {n}))
  {
    ChangedTree(f, s.snap.scene, s'.snap.scene, rank, n);
    GoodFrom(f, s'.snap.scene, rank);
    assert Covers(s.snap.scene, s'.snap.scene, {n}) by {
      forall m, i | m in f && 0 <= i < |f[m].order| ensures f[m].order[i] != n {
        assert ListsItsOwn(f, m) && f[m].order[i] in f[m].order;
      }
    }
    forall m | m in f.Keys - {n} ensures CacheValid(s', rank, m) <==> CacheValid(s, rank, m) {
      UnmarkedSame(s.snap.scene, s'.snap.scene, rank, {n}, m, s.caches[m].query);
    }
    assert CacheValid(s', rank, n);
  }

  // ------------------------------------------------------------------ removing a node

  ghost predicate Unlisted<N>(sc: Scene<N>, n: N) {
    forall m, i :: m in sc && 0 <= i < |sc[m].order| ==> sc[m].order[i] != n
  }

  lemma {:induction false} RemovedCore<N>(sc: Scene<N>, rank: Rank<N>, n: N, m: N, q: Query)
    requires GoodScene(sc, rank) && GoodScene(sc - {n}, rank - {n}) && Unlisted(sc, n) && m in sc && m != n
    ensures Core(sc - {n}, rank - {n}, m, q) == Core(sc, rank, m, q)
    decreases rank[m], 1, 0
  {
    if sc[m].visible {
      assert GoodLook(sc, rank, m);
      RemovedAnswers(sc, rank, n, m, PlanOf(sc[m], q));
    }
  }

  lemma {:induction false} RemovedAnswers<N>(sc: Scene<N>, rank: Rank<N>, n: N, m: N, asks: seq<Ask>)
    requires GoodScene(sc, rank) && GoodScene(sc - {n}, rank - {n}) && Unlisted(sc, n) && m in sc && m != n
    requires forall i :: 0 <= i < |asks| ==> asks[i].child < |sc[m].order|
    ensures Answers(sc - {n}, rank - {n}, m, asks) == Answers(sc, rank, m, asks)
    decreases rank[m], 0, |asks|
  {
    if asks != [] {
      assert GoodLook(sc, rank, m);
      var last := asks[|asks| - 1];
      RemovedAnswers(sc, rank, n, m, asks[..|asks| - 1]);
      RemovedCore(sc, rank, n, sc[m].order[last.child], last.query);
    }
  }

  ghost function Without<N>(s: Full<N>, n: N): Full<N> {
    Full(Snap(s.snap.scene - {n}, s.snap.dirty - {n}), s.caches - {n}, s.posts - {n})
  }

  /** Once a node without links is gone, all caches can be trusted if and only if those of the
      others could. */
  lemma RemoveTrustIff<N>(f: Family<N>, rank: Rank<N>, s: Full<N>, n: N)
    requires IsState(f, rank, s) && n in f && f[n].parent == None && f[n].order == []
    ensures IsState(f - {n}, rank - {n}, Without(s, n))
    ensures Trusty(f - {n}, rank - {n}, Without(s, n)) <==> CachesValid(s, rank, f.Keys - {n})
  {
    RemovedCoherent(f, rank, n);
    var s' := Without(s, n);
    GoodFrom(f - {n}, s'.snap.scene, rank - {n});
    assert Unlisted(s.snap.scene, n) by {
      forall m, i | m in f && 0 <= i < |f[m].order| ensures f[m].order[i] != n {
        assert ListsItsOwn(f, m) && f[m].order[i] in f[m].order;
      }
    }
    forall m | m in f.Keys - {n} ensures CacheValid(s', rank - {n}, m) <==> CacheValid(s, rank, m) {
      RemovedCore(s.snap.scene, rank, n, m, s.caches[m].query);
    }
    assert (f - {n}).Keys == f.Keys - {n};
  }

  // ------------------------------------------------------------------ whole runs

  ghost function Orphaned<N>(f: Family<N>, n: N): Family<N>
    requires n in f
  {
    map m | m in f ::
      if m == n then Links(f[n].parent, [], map[], map[])
      else if f[m].parent == Some(n) then f[m].(parent := None) else f[m]
  }

  ghost function Released<N>(f: Family<N>, n: N): Family<N>
    requires n in f
  {
    match f[n].parent
    case None => f
    case Some(p) => if p in f && p != n && n in f[p].revert then AfterForesake(f, p, n) else f
  }

  lemma OrphanCoherent<N>(f: Family<N>, rank: Rank<N>, n: N)
    requires Coherent(f) && Ranked(f, rank) && n in f
    ensures Coherent(Orphaned(f, n)) && Ranked(Orphaned(f, n), rank)
  {
    var f' := Orphaned(f, n);
    assert BelowParent(f, rank, n);
    forall q | q in f'
      ensures NamesAgree(f'[q]) && ListsItsOwn(f', q) && ListedByParent(f', q) && BelowParent(f', rank, q) {
      assert NamesAgree(f[q]) && ListsItsOwn(f, q) && ListedByParent(f, q) && BelowParent(f, rank, q);
    }
  }

  lemma ReleaseCoherent<N>(f: Family<N>, rank: Rank<N>, n: N)
    requires Coherent(f) && Ranked(f, rank) && n in f
    ensures Coherent(Released(f, n)) && Ranked(Released(f, n), rank) && Released(f, n)[n].parent == None
    ensures Released(f, n)[n].order == f[n].order
  {
    assert ListedByParent(f, n) && BelowParent(f, rank, n);
    match f[n].parent
    case None =>
    case Some(p) =>
      assert NamesAgree(f[p]);
      ForesakeCoherent(f, rank, p, n);
  }

  /** Letting one child go is a step towards having none. */
  lemma OrphanStep<N>(f: Family<N>, rank: Rank<N>, n: N, c: N)
    requires Coherent(f) && Ranked(f, rank) && n in f && c in f && c != n && c in f[n].revert
    ensures Orphaned(AfterForesake(f, n, c), n) == Orphaned(f, n)
    ensures |AfterForesake(f, n, c)[n].children| < |f[n].children|
  {
    assert NamesAgree(f[n]);
    ChildIsNamed(f, rank, n, c);
    var name := f[n].revert[c];
    assert name in f[n].children && name !in (f[n].children - {name});
    assert f[n].children == (f[n].children - {name})[name := c];
  }

  lemma ListedIsNamed<N>(l: Links<N>, c: N)
    requires NamesAgree(l) && c in l.order
    ensures c in l.revert && l.revert[c] in l.children
  {
  }

  lemma ListedFrom<N>(l: Links<N>, name: string)
    requires NamesAgree(l) && name in l.children
    ensures l.children[name] in l.order && l.children[name] in l.revert
  {
    assert l.children[name] in l.revert.Keys;
  }

  lemma OrphanEnd<N>(f: Family<N>, n: N)
    requires Coherent(f) && n in f && f[n].children == map[]
    ensures Orphaned(f, n) == f && f[n].order == [] && f[n].revert == map[]
  {
    assert NamesAgree(f[n]);
    assert |f[n].order| > 0 ==> f[n].order[0] in f[n].order;
    forall c ensures c !in f[n].order {
      if c in f[n].order {
        ListedIsNamed(f[n], c);
      }
    }
    forall m | m in f ensures f[m].parent != Some(n) {
      assert ListedByParent(f, m);
    }
    assert Orphaned(f, n)[n] == f[n];
  }

  /** A node without parent nor children can be removed. */
  lemma RemovedCoherent<N>(f: Family<N>, rank: Rank<N>, n: N)
    requires Coherent(f) && Ranked(f, rank) && n in f && f[n].parent == None && f[n].order == []
    ensures Coherent(f - {n}) && Ranked(f - {n}, rank - {n})
  {
    var f' := f - {n};
    forall q | q in f'
      ensures NamesAgree(f'[q]) && ListsItsOwn(f', q) && ListedByParent(f', q) && BelowParent(f', rank - {n}, q) {
      assert NamesAgree(f[q]) && ListsItsOwn(f, q) && ListedByParent(f, q) && BelowParent(f, rank, q);
    }
  }

  /** All that happens to the nodes: one is created, adopted, let go, loses all its children,
      is assigned from another or is destroyed. */
  datatype Move<N> =
    | Create(node: N) | Adopt(parent: N, child: N, name: string) | Foresake(parent: N, child: N)
    | Orphan(node: N) | Assign(node: N) | Destroy(node: N)

  ghost function AfterMove<N>(f: Family<N>, move: Move<N>): Family<N> {
    match move
    case Create(n) => if n in f then f else f[n := Links(None, [], map[], map[])]
    case Adopt(p, c, name) =>
      if p in f && c in f && MayAdopt(f, p, c) && name !in f[p].children then AfterAdopt(f, p, c, name) else f
    case Foresake(p, c) =>
      if p in f && c in f && p != c && c in f[p].order && c in f[p].revert then AfterForesake(f, p, c) else f
    case Orphan(n) => if n in f then Orphaned(f, n) else f
    case Assign(n) => if n in f then Released(Orphaned(f, n), n) else f
    case Destroy(n) => if n in f then Released(Orphaned(f, n), n) - {n} else f
  }

  lemma MovesCut<N>(f: Family<N>, n: N)
    requires n in f
    ensures AfterMove(f, Move<N>.Assign(n)) == Released(Orphaned(f, n), n)
    ensures AfterMove(f, Move<N>.Destroy(n)) == AfterMove(f, Move<N>.Assign(n)) - {n}
  {
  }

  /** No node adopts one above itself. */
  ghost predicate Proper<N>(f: Family<N>, move: Move<N>) {
    move.Adopt? ==> !Under(f, move.parent, move.child)
  }

  /** The heights that show the nodes to be a forest still. */
  lemma MoveKeepsForest<N>(f: Family<N>, rank: Rank<N>, move: Move<N>) returns (rank': Rank<N>)
    requires Coherent(f) && Ranked(f, rank) && Proper(f, move)
    ensures Coherent(AfterMove(f, move)) && Ranked(AfterMove(f, move), rank')
  {
    rank' := rank;
    match move
    case Create(n) =>
      if n !in f {
        rank' := rank[n := 0];
        CreateCoherent(f, rank, n);
      }
    case Adopt(p, c, name) =>
      if p in f && c in f && MayAdopt(f, p, c) && name !in f[p].children {
        rank' := Raised(f, rank, p, c);
        AdoptCoherent(f, p, c, name);
        AdoptRanked(f, rank, p, c, name);
      }
    case Foresake(p, c) =>
      if p in f && c in f && p != c && c in f[p].order && c in f[p].revert {
        ForesakeCoherent(f, rank, p, c);
      }
    case Orphan(n) =>
      if n in f {
        OrphanCoherent(f, rank, n);
      }
    case Assign(n) =>
      if n in f {
        OrphanCoherent(f, rank, n);
        ReleaseCoherent(Orphaned(f, n), rank, n);
      }
    case Destroy(n) =>
      if n in f {
        OrphanCoherent(f, rank, n);
        ReleaseCoherent(Orphaned(f, n), rank, n);
        RemovedCoherent(Released(Orphaned(f, n), n), rank, n);
        rank' := rank - {n};
      }
  }

  lemma CreateCoherent<N>(f: Family<N>, rank: Rank<N>, n: N)
    requires Coherent(f) && Ranked(f, rank) && n !in f
    ensures Coherent(f[n := Links(None, [], map[], map[])]) &&
      Ranked(f[n := Links(None, [], map[], map[])], rank[n := 0])
  {
    var f' := f[n := Links(None, [], map[], map[])];
    forall q | q in f'
      ensures NamesAgree(f'[q]) && ListsItsOwn(f', q) && ListedByParent(f', q) && BelowParent(f', rank[n := 0], q) {
      if q != n {
        assert NamesAgree(f[q]) && ListsItsOwn(f, q) && ListedByParent(f, q) && BelowParent(f, rank, q);
      }
    }
  }

  ghost function AfterMoves<N>(f: Family<N>, moves: seq<Move<N>>): Family<N> {
    if moves == [] then f else AfterMove(AfterMoves(f, moves[..|moves| - 1]), moves[|moves| - 1])
  }

  /** Each move is proper when its turn comes. */
  ghost predicate AllProper<N>(f: Family<N>, moves: seq<Move<N>>) {
    forall i :: 0 <= i < |moves| ==> Proper(AfterMoves(f, moves[..i]), moves[i])
  }

  /** From no node at all, after any run the nodes are a forest and their four views of it
      agree. */
  lemma {:induction false} RunIsForest<N>(moves: seq<Move<N>>) returns (rank: Rank<N>)
    requires AllProper(map[], moves)
    ensures Coherent(AfterMoves(map[], moves)) && Ranked(AfterMoves(map[], moves), rank)
  {
    if moves == [] {
      rank := map[];
    } else {
      var before := moves[..|moves| - 1];
      forall i | 0 <= i < |before| ensures Proper(AfterMoves(map[], before[..i]), before[i]) {
        assert before[..i] == moves[..i];
      }
      var r := RunIsForest(before);
      rank := MoveKeepsForest(AfterMoves(map[], before), r, moves[|moves| - 1]);
    }
  }

  ghost function With<N>(s: Full<N>, n: N, look: Look<N>, cache: Cache, posted: nat): Full<N> {
    Full(Snap(s.snap.scene[n := look], s.snap.dirty + {n}), s.caches[n := cache], s.posts[n := posted])
  }

  lemma CreatedInOrder<N>(f: Family<N>, rank: Rank<N>, s: Full<N>, n: N, look: Look<N>, cache: Cache, posted: nat)
    requires IsState(f, rank, s) && n !in f && look.order == [] && WellPlanned(look.renderer)
    ensures IsState(AfterMove(f, Move<N>.Create(n)), rank[n := 0], With(s, n, look, cache, posted))
    ensures Unlisted(s.snap.scene[n := look], n)
  {
    CreateCoherent(f, rank, n);
    GoodFrom(AfterMove(f, Move<N>.Create(n)), s.snap.scene[n := look], rank[n := 0]);
    forall m, i | m in f && 0 <= i < |f[m].order| ensures f[m].order[i] != n {
      assert ListsItsOwn(f, m) && f[m].order[i] in f[m].order;
    }
  }

  lemma CreatedCacheValid<N>(s: Full<N>, rank: Rank<N>, n: N, look: Look<N>, cache: Cache, posted: nat, m: N)
    requires GoodScene(s.snap.scene, rank) && n !in s.snap.scene && n !in rank && m in s.snap.scene && m in s.caches
    requires GoodScene(s.snap.scene[n := look], rank[n := 0]) && Unlisted(s.snap.scene[n := look], n)
    requires CacheValid(s, rank, m)
    ensures CacheValid(With(s, n, look, cache, posted), rank[n := 0], m)
  {
    var sc', rank' := s.snap.scene[n := look], rank[n := 0];
    assert sc' - {n} == s.snap.scene && rank' - {n} == rank;
    RemovedCore(sc', rank', n, m, s.caches[m].query);
  }

  /** A new node, known to have changed, leaves all caches right. */
  lemma CreateKeepsTrust<N>(f: Family<N>, rank: Rank<N>, s: Full<N>, n: N, look: Look<N>, cache: Cache, posted: nat)
    requires Trusty(f, rank, s) && n !in f && look.order == [] && WellPlanned(look.renderer)
    ensures Trusty(AfterMove(f, Move<N>.Create(n)), rank[n := 0], With(s, n, look, cache, posted))
  {
    var f', rank', s' := AfterMove(f, Move<N>.Create(n)), rank[n := 0], With(s, n, look, cache, posted);
    CreatedInOrder(f, rank, s, n, look, cache, posted);
    forall m | m in f'.Keys ensures m in s'.snap.scene && m in s'.caches && CacheValid(s', rank', m) {
      if m != n {
        assert CacheValid(s, rank, m);
        CreatedCacheValid(s, rank, n, look, cache, posted, m);
      }
    }
  }
}
