/** One pass over a tree that renders or takes from the caches while any node may change, and
    the invariants that make its outcome right. */
module RenderPass {
  import opened Json
  import opened Forest
  import opened Rendering

  datatype Cache = Cache(query: Query, part: string)

  /** The whole state: what shows, what is known to have changed, what each node last produced,
      and how many times each was asked with the POST method. */
  datatype Full<N> = Full(snap: Snap<N>, caches: map<N, Cache>, posts: map<N, nat>)

  /** Nodes in good order, of which all four views of the state tell. */
  ghost predicate IsState<N>(f: Family<N>, rank: Rank<N>, s: Full<N>) {
    IsTree(f, s.snap.scene, rank) && GoodScene(s.snap.scene, rank) && s.caches.Keys == f.Keys && s.posts.Keys == f.Keys
  }

  /** What the cache of n would answer, if n shows and is not known to have changed, is what
      rendering n afresh gives. */
  ghost predicate CacheValid<N>(s: Full<N>, rank: Rank<N>, n: N)
    requires GoodScene(s.snap.scene, rank) && n in s.snap.scene && n in s.caches
  {
    s.snap.scene[n].visible && n !in s.snap.dirty ==>
      Core(s.snap.scene, rank, n, s.caches[n].query) == s.caches[n].part
  }

  ghost predicate CachesValid<N>(s: Full<N>, rank: Rank<N>, over: set<N>)
    requires GoodScene(s.snap.scene, rank)
  {
    forall n {:trigger CacheValid(s, rank, n)} {:trigger n in over} :: n in over ==>
      n in s.snap.scene && n in s.caches && CacheValid(s, rank, n)
  }

  ghost function UnderSet<N>(f: Family<N>, n: N): set<N> {
    set m | m in f && Under(f, m, n)
  }

  /** Changes that are signalled, touching no cache. */
  ghost predicate Disturbed<N>(f: Family<N>, rank: Rank<N>, s: Full<N>, s': Full<N>) {
    && IsState(f, rank, s') && Evolves(s.snap, s'.snap, rank, f.Keys)
    && s'.caches == s.caches && s'.posts == s.posts
  }

  lemma DisturbedFurther<N>(f: Family<N>, rank: Rank<N>, s0: Full<N>, s: Full<N>, s': Full<N>, n: N, act: Act)
    requires Disturbed(f, rank, s0, s) && s' == s.(snap := s'.snap)
    requires n in f && s'.snap.scene.Keys == f.Keys && Acted(f, rank, s.snap, s'.snap, n, act)
    ensures Disturbed(f, rank, s0, s')
  {
    ActedEvolves(f, rank, s.snap, s'.snap, n, act);
    EvolvesOn(s0.snap, s.snap, s'.snap, rank, f.Keys);
  }

  lemma DisturbedNot<N>(f: Family<N>, rank: Rank<N>, s: Full<N>)
    requires IsState(f, rank, s)
    ensures Disturbed(f, rank, s, s)
  {
    EvolvesNot(s.snap, rank, f.Keys);
  }

  lemma CacheCarried<N>(s: Full<N>, s': Full<N>, rank: Rank<N>, keep: set<N>, n: N)
    requires Evolves(s.snap, s'.snap, rank, keep) && n in keep && n in s.snap.scene
    requires n in s.caches && n in s'.caches && s'.caches[n] == s.caches[n] && CacheValid(s, rank, n)
    ensures CacheValid(s', rank, n)
  {
    if n !in s'.snap.dirty {
      assert SameRender(s.snap.scene, s'.snap.scene, rank, n);
    }
  }

  lemma CachesCarried<N>(s: Full<N>, s': Full<N>, rank: Rank<N>, keep: set<N>, over: set<N>)
    requires Evolves(s.snap, s'.snap, rank, keep) && over <= keep && CachesValid(s, rank, over)
    requires forall n :: n in over ==> n in s'.caches && n in s.caches && s'.caches[n] == s.caches[n]
    ensures CachesValid(s', rank, over)
  {
    forall n | n in over ensures n in s'.snap.scene && n in s'.caches && CacheValid(s', rank, n) {
      assert CacheValid(s, rank, n);
      CacheCarried(s, s', rank, keep, n);
    }
  }

  ghost predicate PostsBounded<N>(s: Full<N>, s': Full<N>, n: N, post: bool)
    requires n in s.posts && n in s'.posts
  {
    s.posts[n] <= s'.posts[n] <= s.posts[n] + (if post then 1 else 0)
  }

  ghost predicate TellsParent<N>(f: Family<N>, s: Full<N>, s': Full<N>, n: N)
    requires n in f && s.snap.scene.Keys == f.Keys
  {
    match f[n].parent
    case None => true
    case Some(p) => p in f && (p in s.snap.dirty || s.snap.scene[p].visible) ==> p in s'.snap.dirty
  }

  /** What asking node n amounts to: outside its subtree the tree evolves and keeps its caches;
      unless n is known to have changed meanwhile, the answer is what rendering it afresh now
      would give; if it is, its parent knows too; nobody in the subtree was asked twice. */
  ghost predicate Asked<N>(f: Family<N>, rank: Rank<N>, s: Full<N>, s': Full<N>, n: N, q: Query, post: bool,
                           r: string) {
    && IsState(f, rank, s) && IsState(f, rank, s') && n in f
    && CachesValid(s', rank, UnderSet(f, n))
    && Evolves(s.snap, s'.snap, rank, f.Keys - UnderSet(f, n))
    && (forall m :: m in f && m !in UnderSet(f, n) ==> s'.caches[m] == s.caches[m] && s'.posts[m] == s.posts[m])
    && (forall m :: m in f ==> PostsBounded(s, s', m, post))
    && (n !in s'.snap.dirty ==> r == Render(s'.snap.scene, rank, n, q))
    && (n in s'.snap.dirty ==> TellsParent(f, s, s', n))
  }

  // ------------------------------------------------------------------ while a node is composing its part

  ghost predicate Reached<N>(f: Family<N>, order: seq<N>, asked: set<nat>, m: N) {
    exists k :: k in asked && k < |order| && Under(f, m, order[k])
  }

  /** Where node n stands while it composes its part: s0 is the state when it began, asked the
      positions of the children it has asked, outs their answers as long as n followed its plan. */
  ghost predicate Composing<N>(f: Family<N>, rank: Rank<N>, s0: Full<N>, s: Full<N>, n: N, q: Query, post: bool,
                               asked: set<nat>, outs: seq<string>) {
    && IsState(f, rank, s0) && IsState(f, rank, s) && n in f
    && s0.snap.scene[n].visible && n !in s0.snap.dirty
    && CachesValid(s, rank, UnderSet(f, n) - {n})
    && Evolves(s0.snap, s.snap, rank, f.Keys - (UnderSet(f, n) - {n}))
    && (forall m :: m in f && m !in UnderSet(f, n) - {n} ==> s.caches[m] == s0.caches[m])
    && (forall m :: m in f && !Reached(f, f[n].order, asked, m) ==> s.posts[m] == s0.posts[m])
    && (forall m :: m in f ==> PostsBounded(s0, s, m, post))
    && (n !in s.snap.dirty ==> Following(s, rank, n, q, asked, outs))
  }

  /** n is not known to have changed since it began: all answers so far are still right. */
  ghost predicate Following<N>(s: Full<N>, rank: Rank<N>, n: N, q: Query, asked: set<nat>, outs: seq<string>)
    requires GoodScene(s.snap.scene, rank) && n in s.snap.scene
  {
    assert GoodLook(s.snap.scene, rank, n);
    var plan := PlanOf(s.snap.scene[n], q);
    && s.snap.scene[n].visible && |outs| <= |plan|
    && asked == (set i | 0 <= i < |outs| :: plan[i].child)
    && forall i :: 0 <= i < |outs| ==> AnswerHolds(s, rank, n, plan[i], outs[i])
  }

  /** The child asked is not known to have changed, and its answer is still right. */
  ghost predicate AnswerHolds<N>(s: Full<N>, rank: Rank<N>, n: N, ask: Ask, out: string)
    requires GoodScene(s.snap.scene, rank) && n in s.snap.scene && ask.child < |s.snap.scene[n].order|
  {
    assert GoodLook(s.snap.scene, rank, n);
    var k := s.snap.scene[n].order[ask.child];
    k !in s.snap.dirty && out == Render(s.snap.scene, rank, k, ask.query)
  }

  lemma {:induction false} AnswersAre<N>(sc: Scene<N>, rank: Rank<N>, n: N, asks: seq<Ask>, outs: seq<string>)
    requires GoodScene(sc, rank) && n in sc && |outs| == |asks|
    requires forall i :: 0 <= i < |asks| ==> asks[i].child < |sc[n].order| && sc[n].order[asks[i].child] in sc
    requires forall i :: 0 <= i < |asks| ==> outs[i] == Render(sc, rank, sc[n].order[asks[i].child], asks[i].query)
    ensures Answers(sc, rank, n, asks) == outs
  {
    if asks != [] {
      assert GoodLook(sc, rank, n);
      var last := |asks| - 1;
      AnswersAre(sc, rank, n, asks[..last], outs[..last]);
      assert outs[last] == Render(sc, rank, sc[n].order[asks[last].child], asks[last].query);
      assert outs == outs[..last] + [outs[last]];
    }
  }

  /** Having followed its plan to the end without change, n has composed its part afresh. */
  lemma ComposedAfresh<N>(s: Full<N>, rank: Rank<N>, n: N, q: Query, asked: set<nat>, outs: seq<string>)
    requires GoodScene(s.snap.scene, rank) && n in s.snap.scene && Following(s, rank, n, q, asked, outs)
    requires |outs| == |PlanOf(s.snap.scene[n], q)|
    ensures ComposeOf(s.snap.scene[n], q, outs) == Core(s.snap.scene, rank, n, q)
  {
    assert GoodLook(s.snap.scene, rank, n);
    var plan := PlanOf(s.snap.scene[n], q);
    forall i | 0 <= i < |plan|
      ensures outs[i] == Render(s.snap.scene, rank, s.snap.scene[n].order[plan[i].child], plan[i].query)
    {
      assert AnswerHolds(s, rank, n, plan[i], outs[i]);
    }
    AnswersAre(s.snap.scene, rank, n, plan, outs);
  }

  // ------------------------------------------------------------------ the steps of composing

  /** An answer stays right as long as neither n nor the child asked is known to have changed
      and the child's subtree is not asked again. */
  lemma AnswerStays<N>(s: Full<N>, s': Full<N>, rank: Rank<N>, keep: set<N>, n: N, ask: Ask, out: string)
    requires Evolves(s.snap, s'.snap, rank, keep) && n in keep && n in s.snap.scene
    requires s.snap.scene[n].visible && n !in s'.snap.dirty && ask.child < |s.snap.scene[n].order|
    requires s.snap.scene[n].order[ask.child] in keep
    requires AnswerHolds(s, rank, n, ask, out)
    ensures s'.snap.scene[n] == s.snap.scene[n] && AnswerHolds(s', rank, n, ask, out)
  {
    assert SameRender(s.snap.scene, s'.snap.scene, rank, n);
    assert GoodLook(s.snap.scene, rank, n);
    var k := s.snap.scene[n].order[ask.child];
    assert Raises(s.snap, s'.snap, keep, n, s'.snap.scene[n].order[ask.child]);
    assert SameRender(s.snap.scene, s'.snap.scene, rank, k);
  }

  /** The subtree of a child is a part of the subtree of its parent that leaves out the parent
      and the other children. */
  lemma SubtreeOfChild<N>(f: Family<N>, rank: Rank<N>, n: N, k: N)
    requires Coherent(f) && Ranked(f, rank) && n in f && k in f[n].order
    ensures k in f && f[k].parent == Some(n) && k in UnderSet(f, k)
    ensures UnderSet(f, k) <= UnderSet(f, n) - {n}
  {
    assert ListsItsOwn(f, n);
    AncestorsStep(f, rank, k);
    AncestorsStep(f, rank, n);
    assert BelowParent(f, rank, k);
    forall m | m in UnderSet(f, k) ensures m in UnderSet(f, n) && m != n {
      AncestorsClosed(f, rank, m, k);
      if m == n {
        AncestorsHigher(f, rank, f.Keys, n, k);
      }
    }
  }

  lemma OtherChild<N>(f: Family<N>, rank: Rank<N>, n: N, i: nat, j: nat)
    requires Coherent(f) && Ranked(f, rank) && n in f && i < |f[n].order| && j < |f[n].order| && i != j
    ensures f[n].order[i] !in UnderSet(f, f[n].order[j])
  {
    assert NamesAgree(f[n]);
    var c, d := f[n].order[i], f[n].order[j];
    SubtreeOfChild(f, rank, n, c);
    SubtreeOfChild(f, rank, n, d);
    if Under(f, c, d) {
      OneBranch(f, rank, c, c, d);
    }
  }

  lemma EvolvesThrough<N>(s0: Snap<N>, s: Snap<N>, s': Snap<N>, rank: Rank<N>, wide: set<N>, keep: set<N>)
    requires Evolves(s0, s, rank, keep) && Evolves(s, s', rank, wide) && keep <= wide
    ensures Evolves(s0, s', rank, keep)
  {
    EvolvesLess(s, s', rank, wide, keep);
    EvolvesOn(s0, s, s', rank, keep);
  }

  lemma DisturbStep<N>(f: Family<N>, rank: Rank<N>, s0: Full<N>, s: Full<N>, s': Full<N>, n: N, q: Query, post: bool,
                       asked: set<nat>, outs: seq<string>)
    requires Composing(f, rank, s0, s, n, q, post, asked, outs) && Disturbed(f, rank, s, s')
    ensures Composing(f, rank, s0, s', n, q, post, asked, outs)
  {
    var keep := f.Keys - (UnderSet(f, n) - {n});
    assert Evolves(s0.snap, s'.snap, rank, keep) by {
      EvolvesThrough(s0.snap, s.snap, s'.snap, rank, f.Keys, keep);
    }
    assert CachesValid(s', rank, UnderSet(f, n) - {n}) by {
      CachesCarried(s, s', rank, f.Keys, UnderSet(f, n) - {n});
    }
    if n !in s'.snap.dirty {
      DisturbFollowing(f, rank, s, s', n, q, asked, outs);
    }
    DisturbFrame(f, s0, s, s', n, post, asked);
  }

  lemma DisturbFrame<N>(f: Family<N>, s0: Full<N>, s: Full<N>, s': Full<N>, n: N, post: bool, asked: set<nat>)
    requires n in f && s0.posts.Keys == s.posts.Keys == f.Keys && s0.caches.Keys == s.caches.Keys == f.Keys
    requires s'.caches == s.caches && s'.posts == s.posts
    requires forall m :: m in f && m !in UnderSet(f, n) - {n} ==> s.caches[m] == s0.caches[m]
    requires forall m :: m in f && !Reached(f, f[n].order, asked, m) ==> s.posts[m] == s0.posts[m]
    requires forall m :: m in f ==> PostsBounded(s0, s, m, post)
    ensures forall m :: m in f && m !in UnderSet(f, n) - {n} ==> s'.caches[m] == s0.caches[m]
    ensures forall m :: m in f && !Reached(f, f[n].order, asked, m) ==> s'.posts[m] == s0.posts[m]
    ensures forall m :: m in f ==> PostsBounded(s0, s', m, post)
  {
    forall m | m in f ensures PostsBounded(s0, s', m, post) {
      assert PostsBounded(s0, s, m, post);
    }
  }

  lemma DisturbFollowing<N>(f: Family<N>, rank: Rank<N>, s: Full<N>, s': Full<N>, n: N, q: Query, asked: set<nat>,
                            outs: seq<string>)
    requires IsState(f, rank, s) && IsState(f, rank, s') && n in f && n !in s'.snap.dirty
    requires Evolves(s.snap, s'.snap, rank, f.Keys) && Following(s, rank, n, q, asked, outs)
    ensures Following(s', rank, n, q, asked, outs)
  {
    assert GoodLook(s.snap.scene, rank, n);
    assert SameRender(s.snap.scene, s'.snap.scene, rank, n);
    var plan := PlanOf(s.snap.scene[n], q);
    forall i | 0 <= i < |outs| ensures AnswerHolds(s', rank, n, plan[i], outs[i]) {
      AnswerStays(s, s', rank, f.Keys, n, plan[i], outs[i]);
    }
  }

  /** The child at position j has answered: n goes on. */
  lemma AskStep<N>(f: Family<N>, rank: Rank<N>, s0: Full<N>, s: Full<N>, s': Full<N>, n: N, q: Query, post: bool,
                   asked: set<nat>, outs: seq<string>, ask: Ask, r: string)
    requires Composing(f, rank, s0, s, n, q, post, asked, outs)
    requires ask.child < |f[n].order| && ask.child !in asked
    requires n !in s.snap.dirty ==> NextAsk(s, n, q, outs, ask)
    requires Asked(f, rank, s, s', f[n].order[ask.child], ask.query, post, r)
    ensures Composing(f, rank, s0, s', n, q, post, asked + {ask.child}, if n in s.snap.dirty then outs else outs + [r])
  {
    var k := f[n].order[ask.child];
    var keep, keepK := f.Keys - (UnderSet(f, n) - {n}), f.Keys - UnderSet(f, k);
    SubtreeOfChild(f, rank, n, k);
    EvolvesThrough(s0.snap, s.snap, s'.snap, rank, keepK, keep);
    AskCaches(f, rank, s, s', n, k);
    AskPosts(f, rank, s0, s, s', n, post, asked, ask.child);
    if n !in s'.snap.dirty {
      AskFollowing(f, rank, s, s', n, q, post, asked, outs, ask, r);
    }
  }

  /** The ask that the plan of n comes to after the answers already received. */
  ghost predicate NextAsk<N>(s: Full<N>, n: N, q: Query, outs: seq<string>, ask: Ask)
    requires n in s.snap.scene
  {
    |outs| < |PlanOf(s.snap.scene[n], q)| && PlanOf(s.snap.scene[n], q)[|outs|] == ask
  }

  lemma AskCaches<N>(f: Family<N>, rank: Rank<N>, s: Full<N>, s': Full<N>, n: N, k: N)
    requires IsState(f, rank, s) && IsState(f, rank, s') && UnderSet(f, k) <= UnderSet(f, n) - {n}
    requires CachesValid(s, rank, UnderSet(f, n) - {n}) && CachesValid(s', rank, UnderSet(f, k))
    requires Evolves(s.snap, s'.snap, rank, f.Keys - UnderSet(f, k))
    requires forall m :: m in f && m !in UnderSet(f, k) ==> s'.caches[m] == s.caches[m]
    ensures CachesValid(s', rank, UnderSet(f, n) - {n})
  {
    CachesCarried(s, s', rank, f.Keys - UnderSet(f, k), UnderSet(f, n) - {n} - UnderSet(f, k));
    forall m | m in UnderSet(f, n) - {n} ensures m in s'.snap.scene && m in s'.caches && CacheValid(s', rank, m) {
      if m !in UnderSet(f, k) {
        assert m in UnderSet(f, n) - {n} - UnderSet(f, k);
      }
    }
  }

  lemma AskPosts<N>(f: Family<N>, rank: Rank<N>, s0: Full<N>, s: Full<N>, s': Full<N>, n: N, post: bool,
                    asked: set<nat>, j: nat)
    requires Coherent(f) && Ranked(f, rank) && n in f && j < |f[n].order| && j !in asked
    requires s0.posts.Keys == f.Keys && s.posts.Keys == f.Keys && s'.posts.Keys == f.Keys
    requires forall m :: m in f && !Reached(f, f[n].order, asked, m) ==> s.posts[m] == s0.posts[m]
    requires forall m :: m in f ==> PostsBounded(s0, s, m, post)
    requires forall m :: m in f ==> PostsBounded(s, s', m, post)
    requires forall m :: m in f && m !in UnderSet(f, f[n].order[j]) ==> s'.posts[m] == s.posts[m]
    ensures forall m :: m in f && !Reached(f, f[n].order, asked + {j}, m) ==> s'.posts[m] == s0.posts[m]
    ensures forall m :: m in f ==> PostsBounded(s0, s', m, post)
  {
    var k := f[n].order[j];
    SubtreeOfChild(f, rank, n, k);
    forall m | m in f
      ensures !Reached(f, f[n].order, asked + {j}, m) ==> s'.posts[m] == s0.posts[m]
      ensures PostsBounded(s0, s', m, post)
    {
      assert PostsBounded(s0, s, m, post) && PostsBounded(s, s', m, post);
      if m in UnderSet(f, k) {
        assert j in asked + {j} && Under(f, m, f[n].order[j]);
        NotReachedTwice(f, rank, n, asked, j, m);
      } else if Reached(f, f[n].order, asked, m) {
        var i :| i in asked && i < |f[n].order| && Under(f, m, f[n].order[i]);
        assert i in asked + {j};
      }
    }
  }

  lemma NotReachedTwice<N>(f: Family<N>, rank: Rank<N>, n: N, asked: set<nat>, j: nat, m: N)
    requires Coherent(f) && Ranked(f, rank) && n in f && j < |f[n].order| && j !in asked
    requires m in f && Under(f, m, f[n].order[j])
    ensures !Reached(f, f[n].order, asked, m)
  {
    assert NamesAgree(f[n]);
    SubtreeOfChild(f, rank, n, f[n].order[j]);
    forall i | i in asked && i < |f[n].order| ensures !Under(f, m, f[n].order[i]) {
      SubtreeOfChild(f, rank, n, f[n].order[i]);
      if Under(f, m, f[n].order[i]) {
        OneBranch(f, rank, m, f[n].order[i], f[n].order[j]);
      }
    }
  }

  lemma AskFollowing<N>(f: Family<N>, rank: Rank<N>, s: Full<N>, s': Full<N>, n: N, q: Query, post: bool,
                        asked: set<nat>, outs: seq<string>, ask: Ask, r: string)
    requires IsState(f, rank, s) && n in f && n !in s'.snap.dirty && n !in s.snap.dirty
    requires Following(s, rank, n, q, asked, outs) && ask.child < |f[n].order| && ask.child !in asked
    requires NextAsk(s, n, q, outs, ask)
    requires Asked(f, rank, s, s', f[n].order[ask.child], ask.query, post, r)
    ensures Following(s', rank, n, q, asked + {ask.child}, outs + [r])
  {
    var k := f[n].order[ask.child];
    var keep := f.Keys - UnderSet(f, k);
    SubtreeOfChild(f, rank, n, k);
    assert GoodLook(s.snap.scene, rank, n);
    assert SameRender(s.snap.scene, s'.snap.scene, rank, n);
    var plan := PlanOf(s.snap.scene[n], q);
    forall i | 0 <= i < |outs| ensures AnswerHolds(s', rank, n, plan[i], outs[i]) {
      assert plan[i].child in asked;
      OtherChild(f, rank, n, plan[i].child, ask.child);
      AnswerStays(s, s', rank, keep, n, plan[i], outs[i]);
    }
    assert k !in s'.snap.dirty;
    assert AnswerHolds(s', rank, n, plan[|outs|], r);
    OneMoreAnswer(s', rank, n, q, asked, outs, plan, r);
  }

  lemma OneMoreAnswer<N>(s: Full<N>, rank: Rank<N>, n: N, q: Query, asked: set<nat>, outs: seq<string>, plan: seq<Ask>,
                         r: string)
    requires GoodScene(s.snap.scene, rank) && n in s.snap.scene && s.snap.scene[n].visible
    requires plan == PlanOf(s.snap.scene[n], q) && |outs| < |plan|
    requires asked == (set i | 0 <= i < |outs| :: plan[i].child)
    requires forall i :: 0 <= i < |outs| ==>
      plan[i].child < |s.snap.scene[n].order| && AnswerHolds(s, rank, n, plan[i], outs[i])
    requires plan[|outs|].child < |s.snap.scene[n].order| && AnswerHolds(s, rank, n, plan[|outs|], r)
    ensures Following(s, rank, n, q, asked + {plan[|outs|].child}, outs + [r])
  {
    assert asked + {plan[|outs|].child} == set i | 0 <= i < |outs| + 1 :: plan[i].child;
    forall i | 0 <= i < |outs| + 1 ensures AnswerHolds(s, rank, n, plan[i], (outs + [r])[i]) {
    }
  }

  // ------------------------------------------------------------------ beginning and ending

  /** n is about to compose its part: it is no longer known to have changed. */
  ghost function Begun<N>(s: Full<N>, n: N, post: bool): Full<N>
    requires n in s.posts
  {
    Full(Snap(s.snap.scene, s.snap.dirty - {n}), s.caches, if post then s.posts[n := s.posts[n] + 1] else s.posts)
  }

  /** Counts of posts do not go down while a node composes its part, or over passes. */
  lemma ComposingCounts<N>(f: Family<N>, rank: Rank<N>, s0: Full<N>, s: Full<N>, n: N, q: Query, post: bool,
                           asked: set<nat>, outs: seq<string>)
    requires Composing(f, rank, s0, s, n, q, post, asked, outs)
    ensures n in s0.posts && n in s.posts && s.posts[n] >= s0.posts[n]
  {
    assert PostsBounded(s0, s, n, post);
  }

  lemma AskedCounts<N>(f: Family<N>, rank: Rank<N>, s: Full<N>, s': Full<N>, n: N, q: Query, post: bool, r: string)
    requires Asked(f, rank, s, s', n, q, post, r)
    ensures n in s.posts && n in s'.posts && s.posts[n] <= s'.posts[n] <= s.posts[n] + (if post then 1 else 0)
  {
    assert PostsBounded(s, s', n, post);
  }

  lemma PassedCounts<N>(f: Family<N>, rank: Rank<N>, s: Full<N>, s': Full<N>, n: N, post: bool)
    requires Passed(f, rank, s, s', n, post)
    ensures n in s.posts && n in s'.posts && s.posts[n] <= s'.posts[n] <= s.posts[n] + (if post then 1 else 0)
  {
    assert PostsBounded(s, s', n, post);
  }

  lemma BeginComposing<N>(f: Family<N>, rank: Rank<N>, s: Full<N>, n: N, q: Query, post: bool)
    requires IsState(f, rank, s) && n in f && s.snap.scene[n].visible && CachesValid(s, rank, UnderSet(f, n))
    ensures Composing(f, rank, Begun(s, n, post), Begun(s, n, post), n, q, post, {}, [])
  {
    var s0 := Begun(s, n, post);
    EvolvesNot(s0.snap, rank, f.Keys - (UnderSet(f, n) - {n}));
    forall m | m in UnderSet(f, n) - {n} ensures m in s0.snap.scene && m in s0.caches && CacheValid(s0, rank, m) {
      assert CacheValid(s, rank, m);
    }
    assert GoodLook(s.snap.scene, rank, n);
  }

  /** What was so of the nodes outside the subtree since n began was so since n was asked. */
  lemma SinceAsked<N>(f: Family<N>, rank: Rank<N>, s: Full<N>, s': Full<N>, n: N, post: bool)
    requires IsState(f, rank, s) && n in f && n in UnderSet(f, n)
    requires Evolves(Begun(s, n, post).snap, s'.snap, rank, f.Keys - (UnderSet(f, n) - {n}))
    ensures Evolves(s.snap, s'.snap, rank, f.Keys - UnderSet(f, n))
  {
    var keep := f.Keys - UnderSet(f, n);
    EvolvesLess(Begun(s, n, post).snap, s'.snap, rank, f.Keys - (UnderSet(f, n) - {n}), keep);
    forall p, i | p in keep && p in s'.snap.scene && 0 <= i < |s'.snap.scene[p].order|
      ensures Raises(s.snap, s'.snap, keep, p, s'.snap.scene[p].order[i])
    {
      assert Raises(Begun(s, n, post).snap, s'.snap, keep, p, s'.snap.scene[p].order[i]);
    }
  }

  lemma ParentIsTold<N>(f: Family<N>, rank: Rank<N>, s: Full<N>, s': Full<N>, n: N, post: bool)
    requires IsState(f, rank, s) && IsState(f, rank, s') && n in f && n in s'.snap.dirty
    requires Evolves(Begun(s, n, post).snap, s'.snap, rank, f.Keys - (UnderSet(f, n) - {n}))
    ensures TellsParent(f, s, s', n)
  {
    if f[n].parent.Some? {
      var p := f[n].parent.value;
      var keep := f.Keys - (UnderSet(f, n) - {n});
      assert ListedByParent(f, n) && BelowParent(f, rank, n);
      NotUnderChild(f, rank, n, p);
      var i :| 0 <= i < |f[p].order| && f[p].order[i] == n;
      assert Raises(Begun(s, n, post).snap, s'.snap, keep, p, s'.snap.scene[p].order[i]);
      if p !in s'.snap.dirty {
        assert SameRender(Begun(s, n, post).snap.scene, s'.snap.scene, rank, p);
      }
    }
  }

  lemma NotUnderChild<N>(f: Family<N>, rank: Rank<N>, n: N, p: N)
    requires Ranked(f, rank) && n in f && p in f && rank[n] < rank[p]
    ensures p !in UnderSet(f, n)
  {
    if n in Ancestors(f, p) {
      AncestorsHigher(f, rank, f.Keys, p, n);
    }
  }

  /** The posts seen since n began, plus the one n itself was asked with. */
  lemma PostsSinceAsked<N>(f: Family<N>, rank: Rank<N>, s: Full<N>, s': Full<N>, n: N, post: bool, asked: set<nat>)
    requires IsState(f, rank, s) && IsState(f, rank, s') && n in f
    requires forall m :: m in f ==> PostsBounded(Begun(s, n, post), s', m, post)
    requires forall m :: m in f && !Reached(f, f[n].order, asked, m) ==> s'.posts[m] == Begun(s, n, post).posts[m]
    ensures forall m :: m in f ==> PostsBounded(s, s', m, post)
    ensures forall m :: m in f && m !in UnderSet(f, n) ==> s'.posts[m] == s.posts[m]
  {
    forall m | m in f
      ensures PostsBounded(s, s', m, post)
      ensures m !in UnderSet(f, n) ==> s'.posts[m] == s.posts[m]
    {
      assert PostsBounded(Begun(s, n, post), s', m, post);
      if Reached(f, f[n].order, asked, m) {
        var k :| k in asked && k < |f[n].order| && Under(f, m, f[n].order[k]);
        SubtreeOfChild(f, rank, n, f[n].order[k]);
        assert m in UnderSet(f, f[n].order[k]);
      } else {
        AncestorsStep(f, rank, n);
      }
    }
  }

  /** What n recorded once composed without change. */
  ghost function Recorded<N>(s: Full<N>, n: N, q: Query, part: string): Full<N> {
    s.(caches := s.caches[n := Cache(q, part)])
  }

  lemma EndCaches<N>(f: Family<N>, rank: Rank<N>, s': Full<N>, end: Full<N>, n: N, q: Query, part: string)
    requires IsState(f, rank, s') && n in f && CachesValid(s', rank, UnderSet(f, n) - {n})
    requires n !in s'.snap.dirty ==> part == Core(s'.snap.scene, rank, n, q)
    requires end == if n in s'.snap.dirty then s' else Recorded(s', n, q, part)
    ensures CachesValid(end, rank, UnderSet(f, n))
  {
    forall m | m in UnderSet(f, n) ensures m in end.snap.scene && m in end.caches && CacheValid(end, rank, m) {
      if m != n {
        assert m in UnderSet(f, n) - {n};
        assert CacheValid(s', rank, m);
      }
    }
  }

  /** n has ended: it records its part if it is not known to have changed, and answers. */
  lemma EndComposing<N>(f: Family<N>, rank: Rank<N>, s: Full<N>, s': Full<N>, end: Full<N>, n: N, q: Query, post: bool,
                        asked: set<nat>, outs: seq<string>, part: string)
    requires IsState(f, rank, s) && n in f
    requires Composing(f, rank, Begun(s, n, post), s', n, q, post, asked, outs)
    requires n !in s'.snap.dirty ==> part == Core(s'.snap.scene, rank, n, q)
    requires end == if n in s'.snap.dirty then s' else Recorded(s', n, q, part)
    ensures Asked(f, rank, s, end, n, q, post, Anchored(s'.snap.scene[n].anchor, part))
  {
    EndCaches(f, rank, s', end, n, q, part);
    EndAsked(f, rank, s, s', end, n, q, post, asked, part);
  }

  lemma EndAsked<N>(f: Family<N>, rank: Rank<N>, s: Full<N>, s': Full<N>, end: Full<N>, n: N, q: Query, post: bool,
                    asked: set<nat>, part: string)
    requires IsState(f, rank, s) && IsState(f, rank, s') && n in f
    requires Evolves(Begun(s, n, post).snap, s'.snap, rank, f.Keys - (UnderSet(f, n) - {n}))
    requires forall m :: m in f && m !in UnderSet(f, n) - {n} ==> s'.caches[m] == Begun(s, n, post).caches[m]
    requires forall m :: m in f && !Reached(f, f[n].order, asked, m) ==> s'.posts[m] == Begun(s, n, post).posts[m]
    requires forall m :: m in f ==> PostsBounded(Begun(s, n, post), s', m, post)
    requires n !in s'.snap.dirty ==> part == Core(s'.snap.scene, rank, n, q)
    requires end == if n in s'.snap.dirty then s' else Recorded(s', n, q, part)
    requires GoodScene(end.snap.scene, rank) && CachesValid(end, rank, UnderSet(f, n))
    ensures Asked(f, rank, s, end, n, q, post, Anchored(s'.snap.scene[n].anchor, part))
  {
    AncestorsStep(f, rank, n);
    assert n in UnderSet(f, n);
    assert Evolves(s.snap, end.snap, rank, f.Keys - UnderSet(f, n)) by {
      SinceAsked(f, rank, s, s', n, post);
    }
    assert n in end.snap.dirty ==> TellsParent(f, s, end, n) by {
      if n in s'.snap.dirty {
        ParentIsTold(f, rank, s, s', n, post);
      }
    }
    EndFrame(f, rank, s, s', end, n, q, post, asked, part);
    assert n !in end.snap.dirty ==> Anchored(s'.snap.scene[n].anchor, part) == Render(end.snap.scene, rank, n, q);
  }

  lemma EndFrame<N>(f: Family<N>, rank: Rank<N>, s: Full<N>, s': Full<N>, end: Full<N>, n: N, q: Query, post: bool,
                    asked: set<nat>, part: string)
    requires IsState(f, rank, s) && IsState(f, rank, s') && n in f && n in UnderSet(f, n)
    requires forall m :: m in f && m !in UnderSet(f, n) - {n} ==> s'.caches[m] == Begun(s, n, post).caches[m]
    requires forall m :: m in f && !Reached(f, f[n].order, asked, m) ==> s'.posts[m] == Begun(s, n, post).posts[m]
    requires forall m :: m in f ==> PostsBounded(Begun(s, n, post), s', m, post)
    requires end == if n in s'.snap.dirty then s' else Recorded(s', n, q, part)
    ensures IsState(f, rank, end)
    ensures forall m :: m in f && m !in UnderSet(f, n) ==> end.caches[m] == s.caches[m] && end.posts[m] == s.posts[m]
    ensures forall m :: m in f ==> PostsBounded(s, end, m, post)
  {
    PostsSinceAsked(f, rank, s, s', n, post, asked);
    forall m | m in f ensures PostsBounded(s, end, m, post) {
      assert PostsBounded(s, s', m, post);
    }
  }

  /** A cache hit, or a node that does not show: nothing but n's own mark may change. */
  lemma AnswerAtOnce<N>(f: Family<N>, rank: Rank<N>, s: Full<N>, s': Full<N>, n: N, q: Query, post: bool, part: string)
    requires IsState(f, rank, s) && n in f && CachesValid(s, rank, UnderSet(f, n))
    requires s' == s.(snap := Snap(s.snap.scene, s.snap.dirty - {n}))
    requires s.snap.scene[n].visible ==> n !in s.snap.dirty && s.caches[n] == Cache(q, part)
    requires !s.snap.scene[n].visible ==> part == ""
    ensures Asked(f, rank, s, s', n, q, post, Anchored(s.snap.scene[n].anchor, part))
  {
    AncestorsStep(f, rank, n);
    assert CacheValid(s, rank, n);
    forall m | m in UnderSet(f, n) ensures m in s'.snap.scene && m in s'.caches && CacheValid(s', rank, m) {
      assert CacheValid(s, rank, m);
    }
    EvolvesNot(s'.snap, rank, f.Keys - (UnderSet(f, n) - {n}));
    SinceAsked(f, rank, s, s', n, false);
  }

  /** What n may ask next: its plan's next ask as long as it is not known to have changed, any
      child not asked yet otherwise. */
  ghost predicate MayAsk<N>(f: Family<N>, s: Full<N>, n: N, q: Query, asked: set<nat>, outs: seq<string>, ask: Ask)
    requires n in f && n in s.snap.scene
  {
    && ask.child < |f[n].order| && ask.child !in asked
    && (n !in s.snap.dirty ==> NextAsk(s, n, q, outs, ask))
  }

  lemma PlanMayBeAsked<N>(f: Family<N>, rank: Rank<N>, s0: Full<N>, s: Full<N>, n: N, q: Query, post: bool,
                          asked: set<nat>, outs: seq<string>)
    requires Composing(f, rank, s0, s, n, q, post, asked, outs) && n !in s.snap.dirty
    requires |outs| < |PlanOf(s.snap.scene[n], q)|
    ensures MayAsk(f, s, n, q, asked, outs, PlanOf(s.snap.scene[n], q)[|outs|])
  {
    assert GoodLook(s.snap.scene, rank, n);
    var plan := PlanOf(s.snap.scene[n], q);
    assert DistinctAsks(plan);
  }

  // ------------------------------------------------------------------ several passes

  /** What any number of passes from n amount to. */
  ghost predicate Passed<N>(f: Family<N>, rank: Rank<N>, s: Full<N>, s': Full<N>, n: N, post: bool) {
    && IsState(f, rank, s) && IsState(f, rank, s') && n in f
    && CachesValid(s', rank, UnderSet(f, n))
    && Evolves(s.snap, s'.snap, rank, f.Keys - UnderSet(f, n))
    && (forall m :: m in f && m !in UnderSet(f, n) ==> s'.caches[m] == s.caches[m] && s'.posts[m] == s.posts[m])
    && (forall m :: m in f ==> PostsBounded(s, s', m, post))
  }

  /** As long as one of them only is made with the POST method, no node sees it twice. */
  lemma PassedOn<N>(f: Family<N>, rank: Rank<N>, s0: Full<N>, s1: Full<N>, s2: Full<N>, n: N, post1: bool, post2: bool)
    requires Passed(f, rank, s0, s1, n, post1) && Passed(f, rank, s1, s2, n, post2) && !(post1 && post2)
    ensures Passed(f, rank, s0, s2, n, post1 || post2)
  {
    EvolvesOn(s0.snap, s1.snap, s2.snap, rank, f.Keys - UnderSet(f, n));
    forall m | m in f ensures PostsBounded(s0, s2, m, post1 || post2) {
      assert PostsBounded(s0, s1, m, post1) && PostsBounded(s1, s2, m, post2);
    }
  }

  /** A round more. */
  lemma AskedPasses<N>(f: Family<N>, rank: Rank<N>, s0: Full<N>, s1: Full<N>, s2: Full<N>, n: N, q: Query, seen: bool,
                       post: bool, r: string)
    requires Passed(f, rank, s0, s1, n, seen) && Asked(f, rank, s1, s2, n, q, post, r) && !(seen && post)
    ensures Passed(f, rank, s0, s2, n, seen || post)
  {
    PassedOn(f, rank, s0, s1, s2, n, seen, post);
  }

  /** Every node under n is known to have changed. */
  ghost function Flushed<N>(f: Family<N>, s: Full<N>, n: N): Full<N> {
    s.(snap := Snap(s.snap.scene, s.snap.dirty + UnderSet(f, n)))
  }

  /** Once all is flushed nothing is required of the caches. */
  lemma FlushPasses<N>(f: Family<N>, rank: Rank<N>, s: Full<N>, n: N)
    requires IsState(f, rank, s) && n in f
    ensures Passed(f, rank, s, Flushed(f, s, n), n, false)
  {
    var s' := Flushed(f, s, n);
    forall m | m in UnderSet(f, n) ensures m in s'.snap.scene && m in s'.caches && CacheValid(s', rank, m) {
    }
  }

  /** If all the caches could be trusted before, they all still can. */
  lemma PassKeepsCaches<N>(f: Family<N>, rank: Rank<N>, s: Full<N>, s': Full<N>, n: N, post: bool)
    requires Passed(f, rank, s, s', n, post) && CachesValid(s, rank, f.Keys)
    ensures CachesValid(s', rank, f.Keys)
  {
    CachesCarried(s, s', rank, f.Keys - UnderSet(f, n), f.Keys - UnderSet(f, n));
    forall m | m in f.Keys ensures m in s'.snap.scene && m in s'.caches && CacheValid(s', rank, m) {
      if m !in UnderSet(f, n) {
        assert m in f.Keys - UnderSet(f, n);
      }
    }
  }

  /** And so they can after a signalled change. */
  lemma ActKeepsState<N>(f: Family<N>, rank: Rank<N>, s: Full<N>, s': Full<N>, n: N, act: Act)
    requires IsState(f, rank, s) && n in f && s' == s.(snap := s'.snap)
    requires s'.snap.scene.Keys == f.Keys && Acted(f, rank, s.snap, s'.snap, n, act)
    ensures IsState(f, rank, s') && (CachesValid(s, rank, f.Keys) ==> CachesValid(s', rank, f.Keys))
  {
    ActedEvolves(f, rank, s.snap, s'.snap, n, act);
    if CachesValid(s, rank, f.Keys) {
      CachesCarried(s, s', rank, f.Keys, f.Keys);
    }
  }

  /** The nodes under n are n and the nodes under its children. */
  lemma UnderChildren<N>(f: Family<N>, rank: Rank<N>, n: N, m: N)
    requires Coherent(f) && Ranked(f, rank) && n in f && m in f
    ensures Under(f, m, n) <==> m == n || exists k :: 0 <= k < |f[n].order| && Under(f, m, f[n].order[k])
  {
    if m != n && Under(f, m, n) {
      BranchTo(f, rank, n, m);
    }
    AncestorsStep(f, rank, n);
    if k :| 0 <= k < |f[n].order| && Under(f, m, f[n].order[k]) {
      SubtreeOfChild(f, rank, n, f[n].order[k]);
      assert m in UnderSet(f, f[n].order[k]);
    }
  }

  lemma {:induction false} BranchTo<N>(f: Family<N>, rank: Rank<N>, n: N, m: N)
    requires Coherent(f) && Ranked(f, rank) && n in f && m in f && m != n && Under(f, m, n)
    ensures exists k :: 0 <= k < |f[n].order| && Under(f, m, f[n].order[k])
    decreases Higher(rank, m)
  {
    AncestorsStep(f, rank, m);
    assert BelowParent(f, rank, m);
    var p := f[m].parent.value;
    if p == n {
      assert ListedByParent(f, m);
      var k :| 0 <= k < |f[n].order| && f[n].order[k] == m;
      assert Under(f, m, f[n].order[k]);
    } else {
      HigherShrinks(rank, m, p);
      BranchTo(f, rank, n, p);
      var k :| 0 <= k < |f[n].order| && Under(f, p, f[n].order[k]);
      assert Under(f, m, f[n].order[k]);
    }
  }

  /** The nodes under the first k of some nodes. */
  ghost function UnderFirst<N>(f: Family<N>, order: seq<N>, k: nat): set<N>
    requires k <= |order|
  {
    if k == 0 then {} else UnderFirst(f, order, k - 1) + UnderSet(f, order[k - 1])
  }

  lemma {:induction false} InUnderFirst<N>(f: Family<N>, order: seq<N>, k: nat, m: N)
    requires k <= |order|
    ensures m in UnderFirst(f, order, k) <==> m in f && exists i :: 0 <= i < k && Under(f, m, order[i])
  {
    if k > 0 {
      InUnderFirst(f, order, k - 1, m);
      if m in UnderSet(f, order[k - 1]) {
        assert Under(f, m, order[k - 1]);
      }
    }
  }

  lemma UnderAll<N>(f: Family<N>, rank: Rank<N>, n: N)
    requires Coherent(f) && Ranked(f, rank) && n in f
    ensures UnderSet(f, n) == {n} + UnderFirst(f, f[n].order, |f[n].order|)
  {
    var all := UnderFirst(f, f[n].order, |f[n].order|);
    AncestorsStep(f, rank, n);
    forall m | m in f ensures m in UnderSet(f, n) <==> m == n || m in all {
      InUnderFirst(f, f[n].order, |f[n].order|, m);
      UnderChildren(f, rank, n, m);
    }
    forall m | m in all ensures m in f {
      InUnderFirst(f, f[n].order, |f[n].order|, m);
    }
  }
}
