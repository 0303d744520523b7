/** The nodes that build a page: adoption, visibility, signalling of changes and the cache of
    what each node last produced. peers is always the set of all the nodes there are, rank a
    height for each of them, and st what they hold. */
module BodyBuilders {
  import opened Json
  import opened Forest
  import opened Rendering
  import opened RenderPass
  import opened Adoptions
  import opened PageRuns
  import opened Paths

  datatype Outcome = Done | Bug

  /** What a page request ends with. */
  datatype Page = Page(text: string) | TooManyRounds

  const MAXLOOP: nat := 100
  const NO_QUERY := Query([], "", "")

  type Nodes = set<BodyBuilder>
  type Heights = Rank<BodyBuilder>
  type Whole = Full<BodyBuilder>

  // ------------------------------------------------------------------ the nodes as values

  /** All that a node holds. */
  datatype Node = Node(links: Links<BodyBuilder>, prefix: seq<string>, own: Own, dirty: bool, cache: Cache, posts: nat)

  type Store = map<BodyBuilder, Node>

  /** st is just what the nodes hold. */
  ghost predicate Holds(peers: Nodes, st: Store)
    reads peers
  {
    st.Keys == peers && forall n :: n in peers ==> n.Is(st[n])
  }

  ghost function FamilyOf(st: Store): (f: Family<BodyBuilder>)
    ensures f.Keys == st.Keys
  {
    map n | n in st :: st[n].links
  }

  ghost function PrefixOf(st: Store): Prefixes<BodyBuilder> {
    map n | n in st :: st[n].prefix
  }

  ghost function OwnOf(st: Store): map<BodyBuilder, Own> {
    map n | n in st :: st[n].own
  }

  ghost function DirtyOf(st: Store): Nodes {
    set n | n in st && st[n].dirty
  }

  ghost function SceneOf(st: Store): (sc: Scene<BodyBuilder>)
    ensures sc.Keys == st.Keys
  {
    Picture(FamilyOf(st), PrefixOf(st), OwnOf(st))
  }

  ghost function CachesOf(st: Store): map<BodyBuilder, Cache> {
    map n | n in st :: st[n].cache
  }

  ghost function PostsOf(st: Store): map<BodyBuilder, nat> {
    map n | n in st :: st[n].posts
  }

  ghost function WholeOf(st: Store): Whole {
    Full(Snap(SceneOf(st), DirtyOf(st)), CachesOf(st), PostsOf(st))
  }

  ghost predicate InOrder(st: Store, rank: Heights) {
    IsState(FamilyOf(st), rank, WholeOf(st))
  }

  /** All there is, as a world that runs go through. */
  ghost function WorldOf(st: Store, rank: Heights): World<BodyBuilder> {
    World(FamilyOf(st), PrefixOf(st), rank, WholeOf(st))
  }

  /** A step of a run. */
  ghost predicate IsStep(st: Store, rank: Heights, h: Happening<BodyBuilder>, st': Store, rank': Heights) {
    Good(WorldOf(st, rank)) && Leads(WorldOf(st, rank), h, WorldOf(st', rank'))
  }

  /** No link and no prefix has changed. */
  ghost predicate SameLinks(st: Store, st': Store) {
    FamilyOf(st') == FamilyOf(st) && PrefixOf(st') == PrefixOf(st)
  }

  /** Some nodes are marked as well. */
  ghost function Marked(st: Store, marks: Nodes): Store {
    map n | n in st :: if n in marks then st[n].(dirty := true) else st[n]
  }

  lemma MarkedLinks(st: Store, marks: Nodes)
    ensures SameLinks(st, Marked(st, marks)) && SceneOf(Marked(st, marks)) == SceneOf(st)
  {
    assert OwnOf(Marked(st, marks)) == OwnOf(st);
  }

  lemma MarkedWhole(st: Store, marks: Nodes)
    requires marks <= st.Keys
    ensures SameLinks(st, Marked(st, marks)) && SceneOf(Marked(st, marks)) == SceneOf(st)
    ensures WholeOf(Marked(st, marks)) == WholeOf(st).(snap := Snap(SceneOf(st), DirtyOf(st) + marks))
  {
    var st' := Marked(st, marks);
    MarkedLinks(st, marks);
    assert CachesOf(st') == CachesOf(st) && PostsOf(st') == PostsOf(st);
  }

  /** What signalling a change at n does. */
  ghost function Signalled(st: Store, rank: Heights, n: BodyBuilder): Store
    requires Ranked(FamilyOf(st), rank) && n in st
  {
    Marked(st, MarkSet(SceneOf(st), FamilyOf(st), rank, n))
  }

  lemma SignalledWhole(st: Store, rank: Heights, n: BodyBuilder)
    requires Ranked(FamilyOf(st), rank) && n in st
    ensures var st' := Signalled(st, rank, n);
      && SameLinks(st, st') && SceneOf(st') == SceneOf(st) && st'.Keys == st.Keys &&
         st'[n] == st[n].(dirty := st'[n].dirty)
      && WholeOf(st') == WholeOf(st).(snap := Snap(SceneOf(st),
         DirtyOf(st) + MarkSet(SceneOf(st), FamilyOf(st), rank, n)))
  {
    var marks := MarkSet(SceneOf(st), FamilyOf(st), rank, n);
    forall k | k in marks ensures k in st {
      MarksAbove(SceneOf(st), FamilyOf(st), rank, n, k);
    }
    MarkedWhole(st, marks);
  }

  /** A node that shows marks itself, then its parent signals. */
  lemma SignalStep(st: Store, rank: Heights, n: BodyBuilder)
    requires Ranked(FamilyOf(st), rank) && n in st && st[n].own.visible
    ensures var st1 := st[n := st[n].(dirty := true)];
      match st[n].links.parent
      case None => Signalled(st, rank, n) == st1
      case Some(p) =>
        && p in st && rank[n] < rank[p] && FamilyOf(st1) == FamilyOf(st)
        && Signalled(st1, rank, p) == Signalled(st, rank, n)
  {
    assert BelowParent(FamilyOf(st), rank, n);
    MarkedOne(st, n);
    if st[n].links.parent.Some? {
      var p := st[n].links.parent.value;
      MarkedWhole(st, {n});
      MarkedTwice(st, {n}, MarkSet(SceneOf(st), FamilyOf(st), rank, p));
      HigherShrinks(rank, n, p);
    }
  }

  lemma MarkedTwice(st: Store, marks: Nodes, more: Nodes)
    ensures Marked(Marked(st, marks), more) == Marked(st, marks + more)
  {
  }

  lemma MarkedOne(st: Store, n: BodyBuilder)
    requires n in st
    ensures Marked(st, {n}) == st[n := st[n].(dirty := true)]
    ensures Marked(st, {}) == st
  {
  }

  lemma LinksKept(st: Store, n: BodyBuilder, node: Node)
    requires n in st && node.links == st[n].links && node.prefix == st[n].prefix && node.own == st[n].own
    ensures SameLinks(st, st[n := node]) && SceneOf(st[n := node]) == SceneOf(st)
  {
    assert OwnOf(st[n := node]) == OwnOf(st);
  }

  lemma RestKept(st: Store, n: BodyBuilder, node: Node)
    requires n in st
    ensures DirtyOf(st[n := node]) == if node.dirty then DirtyOf(st) + {n} else DirtyOf(st) - {n}
    ensures st[n].dirty == node.dirty ==> DirtyOf(st[n := node]) == DirtyOf(st)
    ensures CachesOf(st[n := node]) == CachesOf(st)[n := node.cache]
    ensures st[n].cache == node.cache ==> CachesOf(st[n := node]) == CachesOf(st)
    ensures PostsOf(st[n := node]) == PostsOf(st)[n := node.posts]
    ensures st[n].posts == node.posts ==> PostsOf(st[n := node]) == PostsOf(st)
  {
  }

  function WithOwn(st: Store, n: BodyBuilder, state: string, visible: bool): Store
    requires n in st
  {
    st[n := st[n].(own := st[n].own.(state := state, visible := visible))]
  }

  /** One node has another state, or shows or hides. */
  lemma OwnChanged(st: Store, n: BodyBuilder, state: string, visible: bool)
    requires n in st
    ensures var st' := WithOwn(st, n, state, visible);
      && FamilyOf(st') == FamilyOf(st) && PrefixOf(st') == PrefixOf(st) && DirtyOf(st') == DirtyOf(st)
      && CachesOf(st') == CachesOf(st) && PostsOf(st') == PostsOf(st)
      && OwnOf(st') == OwnOf(st)[n := OwnOf(st)[n].(state := state, visible := visible)]
  {
  }

  lemma ChangedOwn(st: Store, n: BodyBuilder, state: string, visible: bool)
    requires n in st
    ensures var st' := WithOwn(st, n, state, visible);
      && SameLinks(st, st') && SceneOf(st') == SceneOf(st)[n := SceneOf(st)[n].(state := state, visible := visible)]
      && WholeOf(st') == WholeOf(st).(snap := Snap(SceneOf(st'), DirtyOf(st)))
  {
    OwnChanged(st, n, state, visible);
    PictureAt(FamilyOf(st), PrefixOf(st), OwnOf(st), n, state, visible);
  }

  lemma ChangeSignalled(st: Store, rank: Heights, n: BodyBuilder, state: string)
    requires Ranked(FamilyOf(st), rank) && n in st
    ensures var st1 := WithOwn(st, n, state, st[n].own.visible);
      && FamilyOf(st1) == FamilyOf(st)
      && var st' := Signalled(st1, rank, n);
         && SameLinks(st, st') && WholeOf(st') == WholeOf(st).(snap := WholeOf(st').snap)
         && Changed(FamilyOf(st), rank, WholeOf(st).snap, WholeOf(st').snap, n, state)
  {
    ChangedOwn(st, n, state, st[n].own.visible);
    SignalledWhole(WithOwn(st, n, state, st[n].own.visible), rank, n);
  }

  lemma ShownSignalled(st: Store, rank: Heights, n: BodyBuilder)
    requires Ranked(FamilyOf(st), rank) && n in st && !st[n].own.visible
    ensures var st1 := WithOwn(st, n, st[n].own.state, true);
      && FamilyOf(st1) == FamilyOf(st)
      && var st' := Signalled(st1, rank, n);
         && SameLinks(st, st') && WholeOf(st') == WholeOf(st).(snap := WholeOf(st').snap)
         && Switched(FamilyOf(st), rank, WholeOf(st).snap, WholeOf(st').snap, n, true)
  {
    ChangedOwn(st, n, st[n].own.state, true);
    SignalledWhole(WithOwn(st, n, st[n].own.state, true), rank, n);
  }

  lemma SignalledHidden(st: Store, rank: Heights, n: BodyBuilder)
    requires Ranked(FamilyOf(st), rank) && n in st && st[n].own.visible
    ensures var st1 := Signalled(st, rank, n);
      && n in st1 && st1[n] == st[n].(dirty := st1[n].dirty)
      && var st' := WithOwn(st1, n, st[n].own.state, false);
         && SameLinks(st, st') && WholeOf(st') == WholeOf(st).(snap := WholeOf(st').snap)
         && Switched(FamilyOf(st), rank, WholeOf(st).snap, WholeOf(st').snap, n, false)
  {
    SignalledWhole(st, rank, n);
    ChangedOwn(Signalled(st, rank, n), n, st[n].own.state, false);
  }

  class BodyBuilder {
    const renderer: Renderer
    /** What the inheriting class holds. */
    var state: string
    var visible: bool
    const anchor: string
    /** Where the page is in the server, which counts for a root only. */
    var prefix: seq<string>
    var parent: BodyBuilder?
    var order: seq<BodyBuilder>
    var children: map<string, BodyBuilder>
    var revertChild: map<BodyBuilder, string>
    var lastQuery: Query
    var lastBodyPart: string
    var bodyChanged: bool
    /** How many times the class was asked to build its part for a POST request. */
    ghost var posted: nat

    /** node is just what this node holds. */
    ghost predicate Is(node: Node)
      reads this
    {
      && node.links.parent == Maybe(parent)
      && order == node.links.order && children == node.links.children && revertChild == node.links.revert
      && prefix == node.prefix && node.own == Own(renderer, state, visible, anchor)
      && bodyChanged == node.dirty && node.cache == Cache(lastQuery, lastBodyPart) && posted == node.posts
    }

    /** How this node looks at a path. */
    function LookAt(place: seq<string>): Look<BodyBuilder>
      reads this`state, this`visible, this`order, this`revertChild
    {
      Look(renderer, state, visible, anchor, place, order, revertChild)
    }

    constructor (renderer: Renderer, state: string, anchor: string)
      ensures Is(Node(Links(None, [], map[], map[]), [], Own(renderer, state, true, anchor), true,
        Cache(NO_QUERY, ""), 0))
    {
      this.renderer, this.state, this.anchor := renderer, state, anchor;
      visible := true;
      parent, order, children, revertChild := null, [], map[], map[];
      prefix := [];
      lastQuery, lastBodyPart := NO_QUERY, "";
      bodyChanged := true;
      posted := 0;
    }

    // ---------------------------------------------------------------- writing to one node

    method Mark(changed: bool, ghost peers: Nodes, ghost st: Store)
      requires this in peers && Holds(peers, st)
      modifies this`bodyChanged
      ensures Holds(peers, st[this := st[this].(dirty := changed)]) && bodyChanged == changed
    {
      bodyChanged := changed;
    }

    method Become(newState: string, mode: bool, ghost peers: Nodes, ghost st: Store)
      requires this in peers && Holds(peers, st)
      modifies this`state, this`visible
      ensures Holds(peers, WithOwn(st, this, newState, mode)) && state == newState && visible == mode
    {
      state, visible := newState, mode;
    }

    method Keep(q: Query, part: string, ghost peers: Nodes, ghost st: Store)
      requires this in peers && Holds(peers, st)
      modifies this`lastQuery, this`lastBodyPart
      ensures Holds(peers, st[this := st[this].(cache := Cache(q, part))])
    {
      lastQuery, lastBodyPart := q, part;
    }

    ghost method CountPost(peers: Nodes, st: Store)
      requires this in peers && Holds(peers, st)
      modifies this`posted
      ensures Holds(peers, st[this := st[this].(posts := st[this].posts + 1)])
    {
      posted := posted + 1;
    }

    // ---------------------------------------------------------------- signalling changes

    /** Records that this node would not produce the same part again, and tells its ancestors,
        up to the first hidden one. */
    method MyBodyPartHasChanged(ghost peers: Nodes, ghost rank: Heights, ghost st: Store) returns (ghost st': Store)
      requires this in peers && Holds(peers, st) && Ranked(FamilyOf(st), rank)
      modifies peers`bodyChanged
      ensures Holds(peers, st') && st' == Signalled(st, rank, this)
      decreases Higher(rank, this)
    {
      assert Is(st[this]);
      if !visible {
        MarkedOne(st, this);
        return st;
      }
      Mark(true, peers, st);
      st' := st[this := st[this].(dirty := true)];
      SignalStep(st, rank, this);
      if parent != null {
        var p: BodyBuilder := parent;
        HigherShrinks(rank, this, p);
        st' := p.MyBodyPartHasChanged(peers, rank, st');
      }
    }

    /** Any change an inheriting class makes to itself, signalled as it has to be. */
    method ChangeState(newState: string, ghost peers: Nodes, ghost rank: Heights, ghost st: Store)
      returns (ghost st': Store)
      requires this in peers && Holds(peers, st) && Ranked(FamilyOf(st), rank)
      modifies this`state, this`visible, peers`bodyChanged
      ensures Holds(peers, st') && SameLinks(st, st') && WholeOf(st') == WholeOf(st).(snap := WholeOf(st').snap)
      ensures Changed(FamilyOf(st), rank, WholeOf(st).snap, WholeOf(st').snap, this, newState)
    {
      assert Is(st[this]);
      Become(newState, visible, peers, st);
      ChangeSignalled(st, rank, this, newState);
      st' := MyBodyPartHasChanged(peers, rank, WithOwn(st, this, newState, st[this].own.visible));
    }

    /** Hiding signals before the switch and showing after it, so that the signal goes through. */
    method SetVisible(mode: bool, ghost peers: Nodes, ghost rank: Heights, ghost st: Store) returns (ghost st': Store)
      requires this in peers && Holds(peers, st) && Ranked(FamilyOf(st), rank)
      modifies this`state, this`visible, peers`bodyChanged
      ensures Holds(peers, st') && SameLinks(st, st') && WholeOf(st') == WholeOf(st).(snap := WholeOf(st').snap)
      ensures Switched(FamilyOf(st), rank, WholeOf(st).snap, WholeOf(st').snap, this, mode)
    {
      assert Is(st[this]);
      if visible == mode {
        return st;
      }
      if visible {
        SignalledHidden(st, rank, this);
        st' := MyBodyPartHasChanged(peers, rank, st);
        Become(state, mode, peers, st');
        st' := WithOwn(st', this, st[this].own.state, false);
      } else {
        Become(state, mode, peers, st);
        ShownSignalled(st, rank, this);
        st' := MyBodyPartHasChanged(peers, rank, WithOwn(st, this, st[this].own.state, true));
      }
    }

    /** A signalled change: every cache that can still be used is right if all were. */
    method Perform(act: Act, ghost peers: Nodes, ghost rank: Heights, ghost st: Store) returns (ghost st': Store)
      requires this in peers && Holds(peers, st) && InOrder(st, rank)
      modifies this`state, this`visible, peers`bodyChanged
      ensures Holds(peers, st') && SameLinks(st, st') && WholeOf(st') == WholeOf(st).(snap := WholeOf(st').snap)
      ensures Acted(FamilyOf(st), rank, WholeOf(st).snap, WholeOf(st').snap, this, act) && InOrder(st', rank)
      ensures Trusty(FamilyOf(st), rank, WholeOf(st)) ==> Trusty(FamilyOf(st'), rank, WholeOf(st'))
      ensures IsStep(st, rank, Happening<BodyBuilder>.Act(this, act), st', rank)
    {
      match act {
        case NewState(newState) => st' := ChangeState(newState, peers, rank, st);
        case Switch(mode) => st' := SetVisible(mode, peers, rank, st);
      }
      ActKeepsState(FamilyOf(st), rank, WholeOf(st), WholeOf(st'), this, act);
      ActIsStep(st, st', rank, this, act);
    }

    // ---------------------------------------------------------------- building the page

    /** Anything that event handlers may do while a page is built: nodes change, show and hide,
        always through the calls that signal it. */
    method Disturb(peers: Nodes, ghost rank: Heights, ghost st: Store) returns (ghost st': Store)
      requires this in peers && Holds(peers, st) && InOrder(st, rank)
      modifies peers`state, peers`visible, peers`bodyChanged
      ensures Holds(peers, st') && SameLinks(st, st')
      ensures Disturbed(FamilyOf(st), rank, WholeOf(st), WholeOf(st'))
    {
      st' := st;
      var count: nat := *;
      DisturbedNot(FamilyOf(st), rank, WholeOf(st));
      while count > 0
        invariant Holds(peers, st') && SameLinks(st, st')
        invariant Disturbed(FamilyOf(st), rank, WholeOf(st), WholeOf(st'))
      {
        st' := DisturbOnce(peers, rank, st, st');
        count := count - 1;
      }
    }

    method DisturbOnce(peers: Nodes, ghost rank: Heights, ghost st0: Store, ghost st: Store) returns (ghost st': Store)
      requires this in peers && Holds(peers, st) && SameLinks(st0, st)
      requires InOrder(st0, rank) && Disturbed(FamilyOf(st0), rank, WholeOf(st0), WholeOf(st))
      modifies peers`state, peers`visible, peers`bodyChanged
      ensures Holds(peers, st') && SameLinks(st0, st')
      ensures Disturbed(FamilyOf(st0), rank, WholeOf(st0), WholeOf(st'))
    {
      var d :| d in peers;
      var act: Act := *;
      st' := d.Perform(act, peers, rank, st);
      DisturbedFurther(FamilyOf(st0), rank, WholeOf(st0), WholeOf(st), WholeOf(st'), d, act);
    }

    /** Any class that inherits from this one: it asks its children according to its plan, with
        any signalled changes in between; once it is known to have changed it may ask whichever
        children it has not asked yet and answer anything. */
    method InheritedGetBodyPart(q: Query, post: bool, peers: Nodes, ghost rank: Heights, ghost s0: Whole,
                                ghost st: Store)
      returns (part: string, ghost st': Store, ghost asked: set<nat>, ghost outs: seq<string>)
      requires this in peers && Holds(peers, st)
      requires Composing(FamilyOf(st), rank, s0, WholeOf(st), this, q, post, {}, [])
      modifies peers
      ensures Holds(peers, st') && SameLinks(st, st')
      ensures Composing(FamilyOf(st), rank, s0, WholeOf(st'), this, q, post, asked, outs)
      ensures this !in DirtyOf(st') ==> part == Core(SceneOf(st'), rank, this, q)
      decreases rank[this], 3
    {
      var chosen, answers;
      chosen, answers, st' := AskAll(q, post, peers, rank, s0, st);
      part := Compose(q, post, peers, rank, s0, chosen, answers, st');
      asked, outs := chosen, answers;
    }

    method AskAll(q: Query, post: bool, peers: Nodes, ghost rank: Heights, ghost s0: Whole, ghost st: Store)
      returns (chosen: set<nat>, answers: seq<string>, ghost st': Store)
      requires this in peers && Holds(peers, st)
      requires Composing(FamilyOf(st), rank, s0, WholeOf(st), this, q, post, {}, [])
      modifies peers
      ensures Holds(peers, st') && SameLinks(st, st') && Planned(st', q, answers)
      ensures Composing(FamilyOf(st), rank, s0, WholeOf(st'), this, q, post, chosen, answers)
      decreases rank[this], 2
    {
      chosen, answers, st' := {}, [], st;
      var goOn := true;
      ghost var all := Places(|FamilyOf(st)[this].order|);
      while goOn
        invariant Holds(peers, st') && SameLinks(st, st')
        invariant Composing(FamilyOf(st), rank, s0, WholeOf(st'), this, q, post, chosen, answers)
        invariant !goOn ==> Planned(st', q, answers)
        decreases goOn, all - chosen
      {
        goOn, chosen, answers, st' := OneMore(q, post, peers, rank, s0, chosen, answers, all, st');
      }
    }

    /** Unless it is known to have changed, all that this node planned to ask is answered. */
    ghost predicate Planned(st: Store, q: Query, answers: seq<string>) {
      this in st && this !in DirtyOf(st) ==> |answers| == |PlanOf(SceneOf(st)[this], q)|
    }

    /** One round of building a part: whatever happens first, then perhaps a child is asked. */
    method OneMore(q: Query, post: bool, peers: Nodes, ghost rank: Heights, ghost s0: Whole, asked: set<nat>,
                   outs: seq<string>, ghost all: set<nat>, ghost st: Store)
      returns (goOn: bool, chosen: set<nat>, answers: seq<string>, ghost st': Store)
      requires this in peers && Holds(peers, st)
      requires Composing(FamilyOf(st), rank, s0, WholeOf(st), this, q, post, asked, outs)
      requires ArePlaces(all, |FamilyOf(st)[this].order|)
      modifies peers
      ensures Holds(peers, st') && SameLinks(st, st')
      ensures Composing(FamilyOf(st), rank, s0, WholeOf(st'), this, q, post, chosen, answers)
      ensures !goOn ==> Planned(st', q, answers)
      ensures goOn ==> all - chosen < all - asked
      decreases rank[this], 1
    {
      st' := DisturbWhileComposing(q, post, peers, rank, s0, asked, outs, st);
      var ask;
      goOn, ask := NextOf(q, outs, asked, peers, rank, s0, post, st');
      if !goOn {
        return false, asked, outs, st';
      }
      OneLess(all, |FamilyOf(st)[this].order|, asked, ask.child);
      chosen := asked + {ask.child};
      answers, st' := AskChild(ask, q, post, peers, rank, s0, asked, outs, st');
    }

    method DisturbWhileComposing(ghost q: Query, ghost post: bool, peers: Nodes, ghost rank: Heights, ghost s0: Whole,
                                 ghost asked: set<nat>, ghost outs: seq<string>,
                                   ghost st: Store) returns (ghost st': Store)
      requires this in peers && Holds(peers, st)
      requires Composing(FamilyOf(st), rank, s0, WholeOf(st), this, q, post, asked, outs)
      modifies peers`state, peers`visible, peers`bodyChanged
      ensures Holds(peers, st') && SameLinks(st, st')
      ensures Composing(FamilyOf(st), rank, s0, WholeOf(st'), this, q, post, asked, outs)
    {
      st' := Disturb(peers, rank, st);
      DisturbStep(FamilyOf(st), rank, s0, WholeOf(st), WholeOf(st'), this, q, post, asked, outs);
    }

    /** Whether to ask one more child, and what. */
    method NextOf(q: Query, answers: seq<string>, chosen: set<nat>, ghost peers: Nodes, ghost rank: Heights,
                  ghost s0: Whole, ghost post: bool, ghost st: Store) returns (goOn: bool, ask: Ask)
      requires this in peers && Holds(peers, st)
      requires Composing(FamilyOf(st), rank, s0, WholeOf(st), this, q, post, chosen, answers)
      ensures Holds(peers, st)
      ensures goOn ==> MayAsk(FamilyOf(st), WholeOf(st), this, q, chosen, answers, ask)
      ensures !goOn ==> Planned(st, q, answers)
    {
      assert Is(st[this]);
      if bodyChanged {
        goOn := *;
        var child: nat := *;
        var query: Query := *;
        ask := Ask(child, query);
        if child >= |order| || child in chosen {
          goOn := false;
        }
      } else {
        var plan := OwnPlan(q, peers, rank, st);
        goOn := |answers| < |plan|;
        ask := if goOn then plan[|answers|] else Ask(0, q);
        if goOn {
          PlanMayBeAsked(FamilyOf(st), rank, s0, WholeOf(st), this, q, post, chosen, answers);
        }
      }
    }

    method OwnPlan(q: Query, ghost peers: Nodes, ghost rank: Heights, ghost st: Store) returns (plan: seq<Ask>)
      requires this in peers && Holds(peers, st) && InOrder(st, rank)
      ensures Holds(peers, st) && plan == PlanOf(SceneOf(st)[this], q)
    {
      var place := GetPath(peers, rank, st);
      assert Is(st[this]);
      plan := PlanOf(LookAt(place), q);
    }

    /** The answers put together, or anything once the node is known to have changed. */
    method Compose(q: Query, ghost post: bool, ghost peers: Nodes, ghost rank: Heights, ghost s0: Whole,
                   ghost asked: set<nat>, answers: seq<string>, ghost st: Store) returns (part: string)
      requires this in peers && Holds(peers, st) && Planned(st, q, answers)
      requires Composing(FamilyOf(st), rank, s0, WholeOf(st), this, q, post, asked, answers)
      ensures Holds(peers, st)
      ensures this !in DirtyOf(st) ==> part == Core(SceneOf(st), rank, this, q)
    {
      part := *;
      assert Is(st[this]);
      if !bodyChanged {
        var place := GetPath(peers, rank, st);
        part := ComposeOf(LookAt(place), q, answers);
        ComposedAfresh(WholeOf(st), rank, this, q, asked, answers);
      }
    }

    /** Asks one child. Its answer is kept unless this node is known to have changed. */
    method AskChild(ask: Ask, ghost q: Query, post: bool, peers: Nodes, ghost rank: Heights, ghost s0: Whole,
                    ghost asked: set<nat>, outs: seq<string>, ghost st: Store)
      returns (answers: seq<string>, ghost st': Store)
      requires this in peers && Holds(peers, st)
      requires Composing(FamilyOf(st), rank, s0, WholeOf(st), this, q, post, asked, outs)
      requires MayAsk(FamilyOf(st), WholeOf(st), this, q, asked, outs, ask)
      modifies peers
      ensures Holds(peers, st') && SameLinks(st, st')
      ensures Composing(FamilyOf(st), rank, s0, WholeOf(st'), this, q, post, asked + {ask.child}, answers)
      decreases rank[this], 0
    {
      assert Is(st[this]);
      var k := order[ask.child];
      var follows := !bodyChanged;
      ChildInOrder(st, rank, s0, this, q, post, asked, outs, k);
      var r;
      r, st' := k.GetBodyPartOrCache(ask.query, post, peers, rank, st);
      answers := if follows then outs + [r] else outs;
      AskStep(FamilyOf(st), rank, s0, WholeOf(st), WholeOf(st'), this, q, post, asked, outs, ask, r);
    }

    /** Answers from the cache if it can be used, or else asks the class, if the node shows. */
    method GetBodyPartOrCache(q: Query, post: bool, peers: Nodes, ghost rank: Heights, ghost st: Store)
      returns (r: string, ghost st': Store)
      requires this in peers && Holds(peers, st) && InOrder(st, rank)
      requires CachesValid(WholeOf(st), rank, UnderSet(FamilyOf(st), this))
      modifies peers
      ensures Holds(peers, st') && SameLinks(st, st')
      ensures Asked(FamilyOf(st), rank, WholeOf(st), WholeOf(st'), this, q, post, r)
      ensures st[this].cache.query == q && !st[this].dirty ==> st' == st
      ensures post && st[this].dirty && st[this].own.visible ==> st'[this].posts == st[this].posts + 1
      decreases rank[this], 5
    {
      var part := "";
      assert Is(st[this]);
      if q == lastQuery && !bodyChanged {
        if visible {
          part := lastBodyPart;
        }
        st' := st;
        AnsweredAtOnce(st, st, rank, this, q, post, part);
      } else if visible {
        part, st' := Rebuild(q, post, peers, rank, st);
      } else {
        Mark(false, peers, st);
        st' := st[this := st[this].(dirty := false)];
        AnsweredAtOnce(st, st', rank, this, q, post, part);
      }
      r := Anchored(anchor, part);
    }

    /** The cache is of no use: the class is asked anew. The part is kept unless a change was
        signalled while it was built. */
    method Rebuild(q: Query, post: bool, peers: Nodes, ghost rank: Heights, ghost st: Store)
      returns (part: string, ghost st': Store)
      requires this in peers && Holds(peers, st) && InOrder(st, rank) && st[this].own.visible
      requires CachesValid(WholeOf(st), rank, UnderSet(FamilyOf(st), this))
      modifies peers
      ensures Holds(peers, st') && SameLinks(st, st')
      ensures Asked(FamilyOf(st), rank, WholeOf(st), WholeOf(st'), this, q, post, Anchored(anchor, part))
      ensures post ==> st'[this].posts == st[this].posts + 1
      decreases rank[this], 4
    {
      ghost var st1 := Begin(post, peers, st);
      BeginningComposes(st, st1, rank, this, q, post);
      ghost var asked, outs;
      part, st', asked, outs := InheritedGetBodyPart(q, post, peers, rank, WholeOf(st1), st1);
      st' := End(q, part, peers, rank, st, post, asked, outs, st');
    }

    method Begin(post: bool, ghost peers: Nodes, ghost st: Store) returns (ghost st': Store)
      requires this in peers && Holds(peers, st)
      modifies this`bodyChanged, this`posted
      ensures Holds(peers, st')
      ensures st' == st[this := st[this].(dirty := false, posts := st[this].posts + if post then 1 else 0)]
    {
      Mark(false, peers, st);
      st' := st[this := st[this].(dirty := false)];
      if post {
        CountPost(peers, st');
        st' := st'[this := st'[this].(posts := st'[this].posts + 1)];
      }
    }

    method End(q: Query, part: string, ghost peers: Nodes, ghost rank: Heights, ghost st0: Store, ghost post: bool,
               ghost asked: set<nat>, ghost outs: seq<string>, ghost st: Store) returns (ghost st': Store)
      requires this in peers && Holds(peers, st) && InOrder(st0, rank) && this in st0 && SameLinks(st0, st)
      requires Composing(FamilyOf(st0), rank, Begun(WholeOf(st0), this, post), WholeOf(st), this, q, post, asked, outs)
      requires this !in DirtyOf(st) ==> part == Core(SceneOf(st), rank, this, q)
      modifies this`lastQuery, this`lastBodyPart
      ensures Holds(peers, st') && SameLinks(st0, st')
      ensures Asked(FamilyOf(st0), rank, WholeOf(st0), WholeOf(st'), this, q, post, Anchored(anchor, part))
      ensures post ==> st'[this].posts == st0[this].posts + 1
    {
      assert Is(st[this]);
      st' := st;
      if !bodyChanged {
        Keep(q, part, peers, st);
        st' := st[this := st[this].(cache := Cache(q, part))];
      }
      Ended(st0, st, st', rank, this, q, post, asked, outs, part);
      EndedCounts(st0, st, rank, this, q, post, asked, outs);
      AskedOnce(st0, st', rank, this, q, post, Anchored(anchor, part));
    }

    // ---------------------------------------------------------------- the page of a root

    method FlushAllCachedBodyPart(ghost peers: Nodes, ghost rank: Heights, ghost st: Store) returns (ghost st': Store)
      requires this in peers && Holds(peers, st) && Coherent(FamilyOf(st)) && Ranked(FamilyOf(st), rank)
      modifies peers`bodyChanged
      ensures Holds(peers, st') && st' == Marked(st, UnderSet(FamilyOf(st), this))
      decreases rank[this], 1
    {
      MarkedOne(st, this);
      MarkedLinks(st, {this});
      Mark(true, peers, st);
      FlushedNode(st, rank, this);
      st' := FlushChildren(peers, rank, Marked(st, {this}));
    }

    method FlushChildren(ghost peers: Nodes, ghost rank: Heights, ghost st: Store) returns (ghost st': Store)
      requires this in peers && Holds(peers, st) && Coherent(FamilyOf(st)) && Ranked(FamilyOf(st), rank)
      modifies peers`bodyChanged
      ensures Holds(peers, st') && st' == FlushedFirst(st, st[this].links.order, |st[this].links.order|)
      decreases rank[this], 0
    {
      assert Is(st[this]);
      st' := st;
      var nodes := order;
      FlushedNone(st, nodes);
      var i := 0;
      while i < |nodes|
        invariant 0 <= i <= |nodes| && nodes == st[this].links.order
        invariant Holds(peers, st') && st' == FlushedFirst(st, nodes, i)
      {
        FlushedOneMore(st, rank, this, i);
        st' := nodes[i].FlushAllCachedBodyPart(peers, rank, st');
        i := i + 1;
      }
    }

    /** The page asked of a root. If it comes at all, it is what rendering the final state with
        no cache gives, whatever changed on the way and whatever the caches held; nothing is then
        known to have changed, and no node was asked with the POST method more than once.
        changed tells for each round whether the root was known to have changed after it. */
    method GetPage(q: Query, post: bool, peers: Nodes, ghost rank: Heights, ghost st: Store)
      returns (page: Page, ghost st': Store, ghost changed: seq<bool>)
      requires this in peers && Holds(peers, st) && InOrder(st, rank) && st[this].links.parent == None
      modifies peers
      ensures Holds(peers, st') && SameLinks(st, st')
      ensures Passed(FamilyOf(st), rank, WholeOf(st), WholeOf(st'), this, post)
      ensures page.Page? ==> !bodyChanged && page.text == Render(SceneOf(st'), rank, this, q)
      ensures post && st[this].own.visible ==> st'[this].posts == st[this].posts + 1
      ensures Reported(changed, page.Page?, bodyChanged)
    {
      FlushedWhole(st, rank, this);
      ghost var st1 := FlushAllCachedBodyPart(peers, rank, st);
      var came, text;
      came, text, st', changed := Rounds(q, post, peers, rank, WholeOf(st), st1);
      page := if came then Page(text) else TooManyRounds;
      PassedCounts(FamilyOf(st), rank, WholeOf(st), WholeOf(st'), this, post);
      assert Is(st'[this]);
    }

    /** Rounds until nothing has changed any more, with POST turned into GET as soon as one of
        them has changed something. */
    method Rounds(q: Query, post: bool, peers: Nodes, ghost rank: Heights, ghost s0: Whole, ghost st: Store)
      returns (came: bool, text: string, ghost st': Store, ghost changed: seq<bool>)
      requires this in peers && Holds(peers, st) && st[this].dirty && RoundsFrom(st, st, rank, s0, false)
      modifies peers
      ensures Holds(peers, st') && RoundsOver(st, st', rank, s0, q, post, text, came, changed)
    {
      var loop: nat := 0;
      var localPost, goOn := post, true;
      text, st', changed := "", st, [];
      RoundsBegin(st, rank, s0, q, post);
      while goOn && loop < MAXLOOP
        invariant Holds(peers, st') && Standing(st, st', rank, s0, q, post, text, localPost, goOn, loop, changed)
        decreases MAXLOOP - loop
      {
        text, goOn, localPost, st' := OneRound(q, post, text, localPost, peers, rank, s0, st, st', loop, changed);
        loop, changed := loop + 1, changed + [goOn];
      }
      came := loop < MAXLOOP;
      RoundsEnd(st, st', rank, s0, q, post, text, localPost, goOn, loop, changed);
    }

    /** Where the rounds stand, before the first and later on. */
    ghost predicate Standing(st0: Store, st: Store, rank: Heights, s0: Whole, q: Query, post: bool, text: string,
                             localPost: bool, goOn: bool, loop: nat, changed: seq<bool>) {
      || (loop == 0 && goOn && localPost == post && st == st0 && changed == [] && RoundsFrom(st0, st, rank, s0, false))
      || (0 < loop <= MAXLOOP && HistoryOf(changed, loop, goOn) && RoundsFrom(st0, st, rank, s0, post)
          && goOn == st[this].dirty && !(goOn && localPost) && (goOn || UpToDate(text, q, rank, st)))
    }

    ghost predicate RoundsOver(st0: Store, st: Store, rank: Heights, s0: Whole, q: Query, post: bool, text: string,
                               came: bool, changed: seq<bool>) {
      || (came && RoundsFrom(st0, st, rank, s0, post) && Reported(changed, came, st[this].dirty) &&
         UpToDate(text, q, rank, st))
      || (!came && RoundsFrom(st0, st, rank, s0, post) && Reported(changed, came, st[this].dirty))
    }

    lemma RoundsBegin(st: Store, rank: Heights, s0: Whole, q: Query, post: bool)
      requires RoundsFrom(st, st, rank, s0, false)
      ensures Standing(st, st, rank, s0, q, post, "", post, true, 0, [])
    {
    }

    lemma RoundsEnd(st0: Store, st: Store, rank: Heights, s0: Whole, q: Query, post: bool, text: string,
                    localPost: bool, goOn: bool, loop: nat, changed: seq<bool>)
      requires Standing(st0, st, rank, s0, q, post, text, localPost, goOn, loop, changed) && (goOn ==> loop == MAXLOOP)
      ensures RoundsOver(st0, st, rank, s0, q, post, text, loop < MAXLOOP, changed)
    {
      HistoryReports(changed, loop, goOn);
    }

    /** The rounds so far: POST, once one of them was made with it, has reached this node if it
        showed then. */
    ghost predicate RoundsFrom(st: Store, st': Store, rank: Heights, s0: Whole, seen: bool) {
      && SameLinks(st, st') && Passed(FamilyOf(st), rank, s0, WholeOf(st'), this, seen)
      && this in st && this in st' && (seen && st[this].own.visible ==> st'[this].posts > st[this].posts)
    }

    ghost predicate UpToDate(text: string, q: Query, rank: Heights, st: Store) {
      this in st && GoodScene(SceneOf(st), rank) && !st[this].dirty && text == Render(SceneOf(st), rank, this, q)
    }

    method OneRound(q: Query, ghost post: bool, ghost text: string, localPost: bool, peers: Nodes, ghost rank: Heights,
                    ghost s0: Whole, ghost st0: Store, ghost st: Store, ghost loop: nat, ghost changed: seq<bool>)
      returns (r: string, goOn: bool, nextPost: bool, ghost st': Store)
      requires this in peers && Holds(peers, st) && this in st0 && st0[this].dirty && loop < MAXLOOP
      requires Standing(st0, st, rank, s0, q, post, text, localPost, true, loop, changed)
      modifies peers
      ensures Holds(peers, st') && Standing(st0, st', rank, s0, q, post, r, nextPost, goOn, loop + 1, changed + [goOn])
    {
      ghost var seen := post && loop > 0;
      MayGoOn(st0, st, rank, s0, seen);
      r, goOn, st' := AnswerOnce(q, localPost, peers, rank, st);
      nextPost := localPost && !goOn;
      StandingOn(st0, st, st', rank, s0, q, post, text, r, localPost, nextPost, goOn, loop, changed);
    }

    method AnswerOnce(q: Query, post: bool, peers: Nodes, ghost rank: Heights, ghost st: Store)
      returns (r: string, changed: bool, ghost st': Store)
      requires this in peers && Holds(peers, st) && InOrder(st, rank)
      requires CachesValid(WholeOf(st), rank, UnderSet(FamilyOf(st), this))
      modifies peers
      ensures Holds(peers, st') && SameLinks(st, st') && this in st' && changed == st'[this].dirty
      ensures Asked(FamilyOf(st), rank, WholeOf(st), WholeOf(st'), this, q, post, r)
      ensures post && st[this].dirty && st[this].own.visible ==> st'[this].posts == st[this].posts + 1
    {
      r, st' := GetBodyPartOrCache(q, post, peers, rank, st);
      assert Is(st'[this]);
      changed := bodyChanged;
    }

    lemma StandingOn(st0: Store, st: Store, st': Store, rank: Heights, s0: Whole, q: Query, post: bool, text: string,
                     r: string, localPost: bool, nextPost: bool, goOn: bool, loop: nat, changed: seq<bool>)
      requires this in st0 && st0[this].dirty && loop < MAXLOOP
      requires Standing(st0, st, rank, s0, q, post, text, localPost, true, loop, changed)
      requires SameLinks(st, st') && Asked(FamilyOf(st), rank, WholeOf(st), WholeOf(st'), this, q, localPost, r)
      requires this in st' && goOn == st'[this].dirty && nextPost == (localPost && !goOn)
      requires localPost && st[this].dirty && st[this].own.visible ==> st'[this].posts == st[this].posts + 1
      ensures Standing(st0, st', rank, s0, q, post, r, nextPost, goOn, loop + 1, changed + [goOn])
    {
      HistoryOn(changed, loop, goOn);
      RoundOn(st0, st, st', rank, s0, q, r, post && loop > 0, localPost);
      AskedUpToDate(st, st', rank, q, localPost, r);
    }

    lemma MayGoOn(st0: Store, st: Store, rank: Heights, s0: Whole, seen: bool)
      requires RoundsFrom(st0, st, rank, s0, seen)
      ensures InOrder(st, rank) && CachesValid(WholeOf(st), rank, UnderSet(FamilyOf(st), this))
    {
    }

    lemma RoundOn(st0: Store, st: Store, st': Store, rank: Heights, s0: Whole, q: Query, r: string, seen: bool,
                  post: bool)
      requires RoundsFrom(st0, st, rank, s0, seen) && !(seen && post) && (post ==> st == st0 && st[this].dirty)
      requires SameLinks(st, st') && Asked(FamilyOf(st), rank, WholeOf(st), WholeOf(st'), this, q, post, r)
      requires this in st'
      requires post && st[this].dirty && st[this].own.visible ==> st'[this].posts == st[this].posts + 1
      ensures RoundsFrom(st0, st', rank, s0, seen || post)
    {
      AskedCounts(FamilyOf(st), rank, WholeOf(st), WholeOf(st'), this, q, post, r);
      AskedPasses(FamilyOf(st), rank, s0, WholeOf(st), WholeOf(st'), this, q, seen, post, r);
    }

    lemma AskedUpToDate(st: Store, st': Store, rank: Heights, q: Query, post: bool, r: string)
      requires this in st && this in st' && SameLinks(st, st')
      requires Asked(FamilyOf(st), rank, WholeOf(st), WholeOf(st'), this, q, post, r)
      ensures st'[this].dirty || UpToDate(r, q, rank, st')
    {
    }

    /** What a node answers when asked for its part: by itself if it is a root, once nothing
        changes any more; as a part of the page of its root otherwise. */
    method GetBodyPart(q: Query, post: bool, peers: Nodes, ghost rank: Heights, ghost st: Store)
      returns (page: Page, ghost st': Store)
      requires this in peers && Holds(peers, st) && InOrder(st, rank)
      requires st[this].links.parent.Some? ==> CachesValid(WholeOf(st), rank, UnderSet(FamilyOf(st), this))
      modifies peers
      ensures Holds(peers, st') && SameLinks(st, st')
      ensures Passed(FamilyOf(st), rank, WholeOf(st), WholeOf(st'), this, post)
      ensures page.Page? && !bodyChanged ==> page.text == Render(SceneOf(st'), rank, this, q)
      ensures if parent == null then page.Page? ==> !bodyChanged else page.Page?
      ensures Trusted(st, rank) ==> Trusted(st', rank)
      ensures IsStep(st, rank, Happening<BodyBuilder>.Request(this, post), st', rank)
    {
      assert Is(st[this]);
      if parent != null {
        var text;
        text, st' := GetBodyPartOrCache(q, post, peers, rank, st);
        page := Page(text);
      } else {
        ghost var changed;
        page, st', changed := GetPage(q, post, peers, rank, st);
      }
      assert Is(st'[this]);
      RequestEnds(st, st', rank, this, post);
    }

    // ---------------------------------------------------------------- adopting and letting go

    method ListChildren(order: seq<BodyBuilder>, children: map<string, BodyBuilder>,
                        revertChild: map<BodyBuilder, string>, ghost peers: Nodes, ghost st: Store)
      requires this in peers && Holds(peers, st)
      modifies this`order, this`children, this`revertChild
      ensures Holds(peers, WithLinks(st, this, Links(st[this].links.parent, order, children, revertChild)))
    {
      this.order, this.children, this.revertChild := order, children, revertChild;
    }

    method SetParent(p: BodyBuilder?, ghost peers: Nodes, ghost st: Store)
      requires this in peers && Holds(peers, st)
      modifies this`parent
      ensures Holds(peers, WithLinks(st, this, st[this].links.(parent := Maybe(p))))
    {
      parent := p;
    }

    /** Adopts c under a name that no child has. The checks let through the root of this node's own
        tree, with which the call would never end: not to adopt it is left to the caller. Caches that
        were all right still are if and only if the parts kept under c do not depend on their paths. */
    method Adopt(c: BodyBuilder, name: string, ghost peers: Nodes, ghost rank: Heights, ghost st: Store)
      returns (out: Outcome, ghost rank': Heights, ghost st': Store)
      requires this in peers && c in peers && Holds(peers, st) && InOrder(st, rank) && name !in st[this].links.children
      requires MayAdopt(FamilyOf(st), this, c) ==> !Under(FamilyOf(st), this, c)
      modifies this`order, this`children, this`revertChild, c`parent, peers`bodyChanged
      ensures Holds(peers, st') && InOrder(st', rank') && PrefixOf(st') == PrefixOf(st)
      ensures out.Done? <==> MayAdopt(FamilyOf(st), this, c)
      ensures out.Bug? ==> st' == st && rank' == rank
      ensures out.Done? ==> FamilyOf(st') == AfterAdopt(FamilyOf(st), this, c, name) && Moved(st, st', rank', this)
      ensures out.Done? && Trusted(st, rank) ==>
        (Trusted(st', rank') <==> SameElsewhere(st, rank', st', UnderSet(FamilyOf(st'), c)))
      ensures out.Done? ==> IsStep(st, rank, Happening<BodyBuilder>.Adopt(this, c, name), st', rank')
    {
      assert Is(st[this]) && c.Is(st[c]);
      if c == this || c in revertChild || c.parent != null {
        return Bug, rank, st;
      }
      rank' := Raised(FamilyOf(st), rank, this, c);
      AdoptRanked(FamilyOf(st), rank, this, c, name);
      ghost var st1 := Link(c, name, peers, st);
      st' := Signal(peers, rank', st, AfterAdopt(FamilyOf(st), this, c, name), PrefixOf(st), st1);
      AdoptEnds(st, st', rank, rank', this, c, name);
      AdoptIsStep(st, st', rank, rank', this, c, name);
      out := Done;
    }

    method Link(c: BodyBuilder, name: string, ghost peers: Nodes, ghost st: Store) returns (ghost st': Store)
      requires this in peers && c in peers && c != this && Holds(peers, st)
      modifies this`order, this`children, this`revertChild, c`parent
      ensures Holds(peers, st') && st' == Rearranged(st, AfterAdopt(FamilyOf(st), this, c, name), PrefixOf(st))
    {
      assert Is(st[this]);
      ListChildren(order + [c], children[name := c], revertChild[c := name], peers, st);
      st' := WithLinks(st, this, Links(st[this].links.parent, order, children, revertChild));
      c.SetParent(this, peers, st');
      st' := LinkRearranges(st, st', this, c, name);
    }

    /** The links or the paths have changed since st0: this is signalled. */
    method Signal(ghost peers: Nodes, ghost rank: Heights, ghost st0: Store, ghost f: Family<BodyBuilder>,
                  ghost prefix: Prefixes<BodyBuilder>, ghost st: Store) returns (ghost st': Store)
      requires this in peers && Holds(peers, st) && Ranked(f, rank) && f.Keys == prefix.Keys == st0.Keys
      requires st == Rearranged(st0, f, prefix)
      modifies peers`bodyChanged
      ensures Holds(peers, st') && FamilyOf(st') == f && PrefixOf(st') == prefix && Moved(st0, st', rank, this)
    {
      RearrangedWhole(st0, f, prefix);
      st' := MyBodyPartHasChanged(peers, rank, st);
      SignalMoves(st0, st, st', rank, f, prefix, this);
    }

    /** Lets c go, which has to be a child of this node. Caches that were all right still are if
        and only if the parts kept under c do not depend on their paths. */
    method Foresake(c: BodyBuilder, ghost peers: Nodes, ghost rank: Heights, ghost st: Store)
      returns (out: Outcome, ghost st': Store)
      requires this in peers && c in peers && Holds(peers, st) && InOrder(st, rank)
      modifies this`order, this`children, this`revertChild, c`parent, peers`bodyChanged
      ensures Holds(peers, st') && InOrder(st', rank)
      ensures out.Done? <==> c in st[this].links.order
      ensures out.Bug? ==> st' == st
      ensures out.Done? ==> c != this && c in st[this].links.revert
      ensures out.Done? ==> FamilyOf(st') == AfterForesake(FamilyOf(st), this, c) && Moved(st, st', rank, this)
      ensures PrefixOf(st') == PrefixOf(st)
      ensures out.Done? && Trusted(st, rank) ==>
        (Trusted(st', rank) <==> SameElsewhere(st, rank, st', UnderSet(FamilyOf(st'), c)))
      ensures out.Done? ==> IsStep(st, rank, Happening<BodyBuilder>.Foresake(this, c), st', rank)
    {
      assert Is(st[this]);
      if c !in order {
        return Bug, st;
      }
      ChildIsNamed(FamilyOf(st), rank, this, c);
      ForesakeCoherent(FamilyOf(st), rank, this, c);
      ghost var st1 := Unlink(c, peers, st);
      st' := Signal(peers, rank, st, AfterForesake(FamilyOf(st), this, c), PrefixOf(st), st1);
      ForesakeEnds(st, st', rank, this, c);
      ForesakeIsStep(st, st', rank, this, c);
      out := Done;
    }

    method Unlink(c: BodyBuilder, ghost peers: Nodes, ghost st: Store) returns (ghost st': Store)
      requires this in peers && c in peers && c != this && Holds(peers, st) && c in st[this].links.revert
      modifies this`order, this`children, this`revertChild, c`parent
      ensures Holds(peers, st') && st' == Rearranged(st, AfterForesake(FamilyOf(st), this, c), PrefixOf(st))
    {
      assert Is(st[this]);
      ListChildren(Dropped(order, c), children - {revertChild[c]}, revertChild - {c}, peers, st);
      st' := WithLinks(st, this, Links(st[this].links.parent, order, children, revertChild));
      c.SetParent(null, peers, st');
      st' := UnlinkRearranges(st, st', this, c);
    }

    /** Lets all the children go, one after the other, in any order of their names. */
    method OrphanAllChildren(peers: Nodes, ghost rank: Heights, ghost st: Store) returns (ghost st': Store)
      requires this in peers && Holds(peers, st) && InOrder(st, rank)
      modifies this`order, this`children, this`revertChild, peers`parent, peers`bodyChanged
      ensures Holds(peers, st') && InOrder(st', rank) && OrphanedFrom(st, st', rank, this)
      ensures order == [] && children == map[] && revertChild == map[]
      ensures Trusted(st, rank) ==>
        (Trusted(st', rank) <==> SameElsewhere(st, rank, st', UnderSet(FamilyOf(st), this) - {this}))
      ensures IsStep(st, rank, Happening<BodyBuilder>.Orphan(this), st', rank)
    {
      st' := st;
      OrphaningStarts(st, rank, this);
      while children != map[]
        invariant Holds(peers, st') && Orphaning(st, st', rank, this)
        decreases |children|
      {
        st' := ForesakeOne(peers, rank, st, st');
      }
      assert Is(st'[this]);
      OrphanEnds(st, st', rank, this);
      OrphanIsStep(st, st', rank, this);
    }

    method ForesakeOne(peers: Nodes, ghost rank: Heights, ghost st0: Store, ghost st: Store) returns (ghost st': Store)
      requires this in peers && Holds(peers, st) && Orphaning(st0, st, rank, this) && children != map[]
      modifies this`order, this`children, this`revertChild, peers`parent, peers`bodyChanged
      ensures Holds(peers, st') && Orphaning(st0, st', rank, this)
      ensures |children| < old(|children|)
    {
      assert Is(st[this]) && NamesAgree(FamilyOf(st)[this]);
      var name :| name in children;
      var c := children[name];
      ListedFrom(FamilyOf(st)[this], name);
      ChildIsNamed(FamilyOf(st), rank, this, c);
      var out;
      out, st' := Foresake(c, peers, rank, st);
      OrphaningOn(st0, st, st', rank, this, c);
      assert Is(st'[this]);
    }

    /** Leaves the parent, if any. */
    method LeaveParent(peers: Nodes, ghost rank: Heights, ghost st: Store) returns (ghost st': Store)
      requires this in peers && Holds(peers, st) && InOrder(st, rank)
      modifies peers`order, peers`children, peers`revertChild, this`parent, peers`bodyChanged
      ensures Holds(peers, st') && InOrder(st', rank) && PrefixOf(st') == PrefixOf(st)
      ensures Left(st, st', rank, this) && parent == null
    {
      assert Is(st[this]);
      st' := st;
      ParentLists(st, rank, this);
      if parent != null {
        var p: BodyBuilder := parent;
        var out;
        out, st' := p.Foresake(this, peers, rank, st);
        LeftByParent(st, st', rank, this, p);
      }
      assert Is(st'[this]);
    }

    method CutLoose(peers: Nodes, ghost rank: Heights, ghost st: Store) returns (ghost st': Store)
      requires this in peers && Holds(peers, st) && InOrder(st, rank)
      modifies peers`order, peers`children, peers`revertChild, peers`parent, peers`bodyChanged
      ensures Holds(peers, st') && CutFrom(st, st', rank, this)
      ensures Trusted(st, rank) ==>
        (OthersTrusted(st', rank, this) <==> SameElsewhere(st, rank, st', UnderSet(FamilyOf(st), this) - {this}))
    {
      ghost var st1 := OrphanAllChildren(peers, rank, st);
      st' := LeaveParent(peers, rank, st1);
      CutEnds(st, st1, st', rank, this);
    }

    /** Is assigned from another node: its own links are all cut, and nothing of what it had
        produced is kept. The caches of its former children stay right if and only if the parts
        kept by what was under it do not depend on their paths. */
    method AssignFrom(ref: BodyBuilder, newState: string, peers: Nodes, ghost rank: Heights, ghost st: Store)
      returns (ghost st': Store, ghost cut: Store)
      requires this in peers && ref in peers && Holds(peers, st) && InOrder(st, rank)
      modifies this`state, this`visible, peers`order, peers`children, peers`revertChild, peers`parent, peers`bodyChanged
      modifies this`lastQuery, this`lastBodyPart
      ensures Holds(peers, st') && InOrder(st', rank) && PrefixOf(st') == PrefixOf(st)
      ensures FamilyOf(st') == AfterMove(FamilyOf(st), Move<BodyBuilder>.Assign(this))
      ensures visible == old(ref.visible) && state == newState && bodyChanged
      ensures lastQuery == Query([], "", "") && lastBodyPart == "" && parent == null && order == []
      ensures Trusted(st, rank) ==>
        (Trusted(st', rank) <==> SameElsewhere(st, rank, st', UnderSet(FamilyOf(st), this) - {this}))
      ensures IsStep(st, rank, Happening<BodyBuilder>.Assign(this, WholeOf(cut)), st', rank)
    {
      var mode := ref.visible;
      cut := CutLoose(peers, rank, st);
      st' := Reset(mode, newState, peers, cut);
      AssignEnds(st, cut, st', rank, this, newState, mode);
      AssignIsStep(st, cut, st', rank, this, newState, mode);
    }

    method Reset(mode: bool, newState: string, ghost peers: Nodes, ghost st: Store) returns (ghost st': Store)
      requires this in peers && Holds(peers, st)
      modifies this`state, this`visible, this`bodyChanged, this`lastQuery, this`lastBodyPart
      ensures Holds(peers, st') && st' == Emptied(st, this, newState, mode)
      ensures visible == mode && state == newState && bodyChanged
    {
      Become(newState, mode, peers, st);
      ghost var st1 := WithOwn(st, this, newState, mode);
      Mark(true, peers, st1);
      ghost var st2 := st1[this := st1[this].(dirty := true)];
      Keep(NO_QUERY, "", peers, st2);
      st' := EmptiedBySteps(st, st1, st2, this, newState, mode);
    }

    /** Is about to be destroyed: the nodes that remain are in good order without it. */
    method Destroy(peers: Nodes, ghost rank: Heights, ghost st: Store) returns (ghost st': Store, ghost cut: Store)
      requires this in peers && Holds(peers, st) && InOrder(st, rank)
      modifies peers`order, peers`children, peers`revertChild, peers`parent, peers`bodyChanged
      ensures Holds(peers - {this}, st') && InOrder(st', rank - {this}) && PrefixOf(st') == PrefixOf(st) - {this}
      ensures FamilyOf(st') == AfterMove(FamilyOf(st), Move<BodyBuilder>.Destroy(this))
      ensures Trusted(st, rank) ==>
        (Trusted(st', rank - {this}) <==>
         AllPathFree(WholeOf(st), rank, AfterMove(FamilyOf(st), Move<BodyBuilder>.Assign(this)), PrefixOf(st),
                     UnderSet(FamilyOf(st), this) - {this}))
      ensures IsStep(st, rank, Happening<BodyBuilder>.Destroy(this, WholeOf(cut)), st', rank - {this})
    {
      cut := CutLoose(peers, rank, st);
      st' := cut - {this};
      DestroyEnds(st, cut, rank, this);
      DestroyIsStep(st, cut, rank, this);
    }

    /** Only a root may be told where it is. Caches that were all right still are if and only if
        the parts kept below it do not depend on their paths. */
    method SetPrefix(newPrefix: seq<string>, ghost peers: Nodes, ghost rank: Heights, ghost st: Store)
      returns (out: Outcome, ghost st': Store)
      requires this in peers && Holds(peers, st) && InOrder(st, rank)
      modifies this`prefix, peers`bodyChanged
      ensures Holds(peers, st') && InOrder(st', rank) && FamilyOf(st') == FamilyOf(st)
      ensures out.Bug? <==> st[this].links.parent.Some?
      ensures out.Bug? ==> st' == st
      ensures out.Done? ==> PrefixOf(st') == PrefixOf(st)[this := newPrefix] && Moved(st, st', rank, this)
      ensures out.Done? && Trusted(st, rank) ==>
        (Trusted(st', rank) <==> SameElsewhere(st, rank, st', UnderSet(FamilyOf(st), this) - {this}))
      ensures out.Done? ==> IsStep(st, rank, Happening<BodyBuilder>.SetPrefix(this, newPrefix), st', rank)
    {
      assert Is(st[this]);
      if parent != null {
        return Bug, st;
      }
      st' := MoveTo(newPrefix, peers, rank, st);
      PrefixEnds(st, st', rank, this, newPrefix);
      PrefixIsStep(st, st', rank, this, newPrefix);
      out := Done;
    }

    method MoveTo(newPrefix: seq<string>, ghost peers: Nodes, ghost rank: Heights, ghost st: Store)
      returns (ghost st': Store)
      requires this in peers && Holds(peers, st) && Ranked(FamilyOf(st), rank)
      modifies this`prefix, peers`bodyChanged
      ensures Holds(peers, st') && FamilyOf(st') == FamilyOf(st) && PrefixOf(st') == PrefixOf(st)[this := newPrefix]
      ensures Moved(st, st', rank, this)
    {
      Prefix(newPrefix, peers, st);
      ghost var st1 := PrefixRearranges(st, this, newPrefix);
      st' := Signal(peers, rank, st, FamilyOf(st), PrefixOf(st)[this := newPrefix], st1);
    }

    method Prefix(newPrefix: seq<string>, ghost peers: Nodes, ghost st: Store)
      requires this in peers && Holds(peers, st)
      modifies this`prefix
      ensures Holds(peers, st[this := st[this].(prefix := newPrefix)])
    {
      prefix := newPrefix;
    }

    /** Whether this node and all above it show. */
    method GetVisibleRecursively(ghost peers: Nodes, ghost rank: Heights, ghost st: Store) returns (ret: bool)
      requires this in peers && Holds(peers, st) && Ranked(FamilyOf(st), rank)
      ensures ret <==> forall m :: m in Ancestors(FamilyOf(st), this) ==> m in st && st[m].own.visible
      decreases Higher(rank, this)
    {
      assert Is(st[this]);
      assert BelowParent(FamilyOf(st), rank, this);
      AncestorsStep(FamilyOf(st), rank, this);
      ret := visible;
      if parent != null {
        var p: BodyBuilder := parent;
        HigherShrinks(rank, this, p);
        var above := p.GetVisibleRecursively(peers, rank, st);
        ret := ret && above;
      }
    }

    /** The prefix of the root, then the names on the way down. */
    method GetPath(ghost peers: Nodes, ghost rank: Heights, ghost st: Store) returns (ret: seq<string>)
      requires this in peers && Holds(peers, st) && Coherent(FamilyOf(st)) && Ranked(FamilyOf(st), rank)
      ensures Holds(peers, st) && ret == Place(FamilyOf(st), PrefixOf(st), this)
      decreases Higher(rank, this)
    {
      assert Is(st[this]);
      PlaceStep(FamilyOf(st), PrefixOf(st), rank, this);
      if parent != null {
        var p: BodyBuilder := parent;
        ParentNames(FamilyOf(st), rank, this);
        HigherShrinks(rank, this, p);
        ret := p.GetPath(peers, rank, st);
        assert p.Is(st[p]);
        ret := ret + [p.revertChild[this]];
      } else {
        ret := prefix;
      }
    }
  }

  // ------------------------------------------------------------------ other links

  ghost function Maybe(p: BodyBuilder?): Option<BodyBuilder> {
    if p == null then None else var q: BodyBuilder := p; Some(q)
  }

  ghost function WithLinks(st: Store, n: BodyBuilder, links: Links<BodyBuilder>): Store
    requires n in st
  {
    st[n := st[n].(links := links)]
  }

  /** The same nodes with other links and other prefixes. */
  ghost function Rearranged(st: Store, f: Family<BodyBuilder>, prefix: Prefixes<BodyBuilder>): Store
    requires f.Keys == prefix.Keys == st.Keys
  {
    map n | n in st :: st[n].(links := f[n], prefix := prefix[n])
  }

  /** All caches can be trusted. */
  ghost predicate Trusted(st: Store, rank: Heights) {
    Trusty(FamilyOf(st), rank, WholeOf(st))
  }

  ghost predicate OthersTrusted(st: Store, rank: Heights, n: BodyBuilder) {
    GoodScene(SceneOf(st), rank) && CachesValid(WholeOf(st), rank, st.Keys - {n})
  }

  /** Links or prefixes have changed at p, and this was signalled. */
  ghost predicate Moved(st: Store, st': Store, rank: Heights, p: BodyBuilder) {
    Relinked(FamilyOf(st'), PrefixOf(st'), rank, WholeOf(st), WholeOf(st'), p)
  }

  /** The parts that the nodes of moved keep and can use are what they would produce at the paths
      they have in st'. */
  ghost predicate SameElsewhere(st: Store, rank: Heights, st': Store, moved: Nodes) {
    AllPathFree(WholeOf(st), rank, FamilyOf(st'), PrefixOf(st'), moved)
  }

  lemma WorldGood(st: Store, rank: Heights)
    requires InOrder(st, rank)
    ensures Good(WorldOf(st, rank))
  {
    StoreDrawn(st);
  }

  lemma WorldDrawn(st: Store, rank: Heights)
    ensures var w := WorldOf(st, rank);
      Drawn(w.full.snap.scene, w.family, w.prefix) && w.prefix.Keys == w.family.Keys
  {
    StoreDrawn(st);
  }

  lemma ActIsStep(st: Store, st': Store, rank: Heights, n: BodyBuilder, act: Act)
    requires n in st && InOrder(st, rank) && SameLinks(st, st') &&
      WholeOf(st') == WholeOf(st).(snap := WholeOf(st').snap)
    requires Acted(FamilyOf(st), rank, WholeOf(st).snap, WholeOf(st').snap, n, act)
    ensures IsStep(st, rank, Happening<BodyBuilder>.Act(n, act), st', rank)
  {
    WorldGood(st, rank);
    WorldDrawn(st', rank);
    assert ByAct(WorldOf(st, rank), n, act, WorldOf(st', rank));
  }

  lemma RequestEnds(st: Store, st': Store, rank: Heights, n: BodyBuilder, post: bool)
    requires InOrder(st, rank) && SameLinks(st, st')
    requires Passed(FamilyOf(st), rank, WholeOf(st), WholeOf(st'), n, post)
    ensures Trusted(st, rank) ==> Trusted(st', rank)
    ensures IsStep(st, rank, Happening<BodyBuilder>.Request(n, post), st', rank)
  {
    if Trusted(st, rank) {
      PassKeepsCaches(FamilyOf(st), rank, WholeOf(st), WholeOf(st'), n, post);
    }
    RequestIsStep(st, st', rank, n, post);
  }

  lemma RequestIsStep(st: Store, st': Store, rank: Heights, n: BodyBuilder, post: bool)
    requires InOrder(st, rank) && SameLinks(st, st')
    requires Passed(FamilyOf(st), rank, WholeOf(st), WholeOf(st'), n, post)
    ensures IsStep(st, rank, Happening<BodyBuilder>.Request(n, post), st', rank)
  {
    WorldGood(st, rank);
    WorldDrawn(st', rank);
    assert ByRequest(WorldOf(st, rank), n, post, WorldOf(st', rank));
  }

  lemma RearrangedWhole(st: Store, f: Family<BodyBuilder>, prefix: Prefixes<BodyBuilder>)
    requires f.Keys == prefix.Keys == st.Keys
    ensures var st' := Rearranged(st, f, prefix);
      && FamilyOf(st') == f && PrefixOf(st') == prefix
      && WholeOf(st') == WholeOf(st).(snap := Snap(Redrawn(SceneOf(st), f, prefix), DirtyOf(st)))
  {
    var st' := Rearranged(st, f, prefix);
    assert OwnOf(st') == OwnOf(st) && DirtyOf(st') == DirtyOf(st);
    assert CachesOf(st') == CachesOf(st) && PostsOf(st') == PostsOf(st) && FamilyOf(st') == f &&
      PrefixOf(st') == prefix;
    PictureRedrawn(FamilyOf(st), PrefixOf(st), f, prefix, OwnOf(st));
  }

  lemma LinkRearranges(st: Store, st1: Store, p: BodyBuilder, c: BodyBuilder, name: string) returns (st': Store)
    requires p in st && c in st && c != p
    requires st1 == WithLinks(st, p, Links(st[p].links.parent, st[p].links.order + [c], st[p].links.children[name := c],
                                           st[p].links.revert[c := name]))
    ensures c in st1 && st' == WithLinks(st1, c, st1[c].links.(parent := Some(p)))
    ensures st' == Rearranged(st, AfterAdopt(FamilyOf(st), p, c, name), PrefixOf(st))
  {
    st' := WithLinks(st1, c, st1[c].links.(parent := Some(p)));
  }

  lemma UnlinkRearranges(st: Store, st1: Store, p: BodyBuilder, c: BodyBuilder) returns (st': Store)
    requires p in st && c in st && c != p && c in st[p].links.revert
    requires st1 == WithLinks(st, p, Links(st[p].links.parent, Dropped(st[p].links.order, c),
                                           st[p].links.children - {st[p].links.revert[c]}, st[p].links.revert - {c}))
    ensures c in st1 && st' == WithLinks(st1, c, st1[c].links.(parent := None))
    ensures st' == Rearranged(st, AfterForesake(FamilyOf(st), p, c), PrefixOf(st))
  {
    st' := WithLinks(st1, c, st1[c].links.(parent := None));
  }

  lemma StoreDrawn(st: Store)
    ensures Drawn(SceneOf(st), FamilyOf(st), PrefixOf(st))
  {
    PictureRedrawn(FamilyOf(st), PrefixOf(st), FamilyOf(st), PrefixOf(st), OwnOf(st));
  }

  lemma SignalMoves(st0: Store, st: Store, st': Store, rank: Heights, f: Family<BodyBuilder>,
                    prefix: Prefixes<BodyBuilder>, p: BodyBuilder)
    requires f.Keys == prefix.Keys == st0.Keys && st == Rearranged(st0, f, prefix) && Ranked(f, rank) && p in st0
    requires FamilyOf(st) == f && st' == Signalled(st, rank, p)
    ensures FamilyOf(st') == f && PrefixOf(st') == prefix && Moved(st0, st', rank, p)
  {
    RearrangedWhole(st0, f, prefix);
    SignalledWhole(st, rank, p);
  }

  lemma AdoptEnds(st: Store, st': Store, rank: Heights, rank': Heights, p: BodyBuilder, c: BodyBuilder, name: string)
    requires InOrder(st, rank) && p in st && c in st && MayAdopt(FamilyOf(st), p, c) && name !in st[p].links.children
    requires FamilyOf(st') == AfterAdopt(FamilyOf(st), p, c, name) && PrefixOf(st') == PrefixOf(st) &&
      Moved(st, st', rank', p)
    ensures InOrder(st', rank')
    ensures Trusted(st, rank) ==> (Trusted(st', rank') <==> SameElsewhere(st, rank', st', UnderSet(FamilyOf(st'), c)))
  {
    StoreDrawn(st);
    Adopted(FamilyOf(st), PrefixOf(st), rank, rank', WholeOf(st), WholeOf(st'), p, c, name);
  }

  lemma AdoptIsStep(st: Store, st': Store, rank: Heights, rank': Heights, p: BodyBuilder, c: BodyBuilder, name: string)
    requires InOrder(st, rank) && p in st && c in st && MayAdopt(FamilyOf(st), p, c) && name !in st[p].links.children
    requires FamilyOf(st') == AfterAdopt(FamilyOf(st), p, c, name) && PrefixOf(st') == PrefixOf(st) &&
      Moved(st, st', rank', p)
    ensures IsStep(st, rank, Happening<BodyBuilder>.Adopt(p, c, name), st', rank')
  {
    WorldGood(st, rank);
    WorldDrawn(st', rank');
    assert ByAdopt(WorldOf(st, rank), p, c, name, WorldOf(st', rank'));
  }

  lemma ForesakeEnds(st: Store, st': Store, rank: Heights, p: BodyBuilder, c: BodyBuilder)
    requires InOrder(st, rank) && p in st && c in st && p != c && c in st[p].links.revert
    requires FamilyOf(st') == AfterForesake(FamilyOf(st), p, c) && PrefixOf(st') == PrefixOf(st) &&
      Moved(st, st', rank, p)
    ensures InOrder(st', rank)
    ensures Trusted(st, rank) ==> (Trusted(st', rank) <==> SameElsewhere(st, rank, st', UnderSet(FamilyOf(st'), c)))
  {
    StoreDrawn(st);
    ForesakeCoherent(FamilyOf(st), rank, p, c);
    RelinkedState(FamilyOf(st), rank, FamilyOf(st'), PrefixOf(st), rank, WholeOf(st), WholeOf(st'), p);
    if Trusted(st, rank) {
      ForesakeTrustIff(FamilyOf(st), PrefixOf(st), rank, WholeOf(st), WholeOf(st'), p, c);
    }
  }

  lemma ForesakeIsStep(st: Store, st': Store, rank: Heights, p: BodyBuilder, c: BodyBuilder)
    requires InOrder(st, rank) && p in st && c in st && p != c && c in st[p].links.revert
    requires FamilyOf(st') == AfterForesake(FamilyOf(st), p, c) && PrefixOf(st') == PrefixOf(st) &&
      Moved(st, st', rank, p)
    ensures IsStep(st, rank, Happening<BodyBuilder>.Foresake(p, c), st', rank)
  {
    WorldGood(st, rank);
    WorldDrawn(st', rank);
    assert ByForesake(WorldOf(st, rank), p, c, WorldOf(st', rank));
  }

  /** n is losing its children one by one. */
  ghost predicate Orphaning(st0: Store, st: Store, rank: Heights, n: BodyBuilder) {
    && n in st0 && n in st && InOrder(st0, rank) && InOrder(st, rank) && PrefixOf(st) == PrefixOf(st0)
    && Orphaned(FamilyOf(st), n) == Orphaned(FamilyOf(st0), n)
    && LettingGo(FamilyOf(st0), PrefixOf(st0), rank, WholeOf(st0), FamilyOf(st), WholeOf(st), n)
  }

  ghost predicate OrphanedFrom(st0: Store, st: Store, rank: Heights, n: BodyBuilder) {
    && n in st0 && FamilyOf(st) == Orphaned(FamilyOf(st0), n) && PrefixOf(st) == PrefixOf(st0)
    && LettingGo(FamilyOf(st0), PrefixOf(st0), rank, WholeOf(st0), FamilyOf(st), WholeOf(st), n)
  }

  lemma OrphaningStarts(st: Store, rank: Heights, n: BodyBuilder)
    requires n in st && InOrder(st, rank)
    ensures Orphaning(st, st, rank, n)
  {
    StoreDrawn(st);
    LettingGoStarts(FamilyOf(st), PrefixOf(st), rank, WholeOf(st), n);
  }

  lemma OrphaningOn(st0: Store, st: Store, st': Store, rank: Heights, n: BodyBuilder, c: BodyBuilder)
    requires Orphaning(st0, st, rank, n) && c in st && c != n && c in st[n].links.revert && InOrder(st', rank)
    requires FamilyOf(st') == AfterForesake(FamilyOf(st), n, c) && PrefixOf(st') == PrefixOf(st) &&
      Moved(st, st', rank, n)
    ensures Orphaning(st0, st', rank, n) && |st'[n].links.children| < |st[n].links.children|
  {
    OrphanStep(FamilyOf(st), rank, n, c);
    ForesakeLoses(FamilyOf(st), PrefixOf(st), rank, n, c);
    LettingGoOn(FamilyOf(st0), PrefixOf(st0), rank, WholeOf(st0), FamilyOf(st), WholeOf(st), FamilyOf(st'),
      WholeOf(st'), n, c);
  }

  lemma OrphanEnds(st0: Store, st: Store, rank: Heights, n: BodyBuilder)
    requires Orphaning(st0, st, rank, n) && st[n].links.children == map[]
    ensures OrphanedFrom(st0, st, rank, n) && st[n].links.order == [] && st[n].links.revert == map[]
    ensures Trusted(st0, rank) ==>
      (Trusted(st, rank) <==> SameElsewhere(st0, rank, st, UnderSet(FamilyOf(st0), n) - {n}))
  {
    StoreDrawn(st0);
    OrphanEnd(FamilyOf(st), n);
    if Trusted(st0, rank) {
      OrphanTrustIff(FamilyOf(st0), PrefixOf(st0), rank, WholeOf(st0), WholeOf(st), n);
    }
  }

  lemma OrphanIsStep(st0: Store, st: Store, rank: Heights, n: BodyBuilder)
    requires InOrder(st0, rank) && InOrder(st, rank) && OrphanedFrom(st0, st, rank, n)
    ensures IsStep(st0, rank, Happening<BodyBuilder>.Orphan(n), st, rank)
  {
    WorldGood(st0, rank);
    WorldDrawn(st, rank);
    assert ByOrphan(WorldOf(st0, rank), n, WorldOf(st, rank));
  }

  /** n has left its parent, if it had one. */
  ghost predicate Left(st: Store, st': Store, rank: Heights, n: BodyBuilder) {
    && n in st && FamilyOf(st') == Released(FamilyOf(st), n)
    && match st[n].links.parent case None => st' == st case Some(p) => p in st && Moved(st, st', rank, p)
  }

  lemma ParentLists(st: Store, rank: Heights, n: BodyBuilder)
    requires n in st && InOrder(st, rank)
    ensures match st[n].links.parent
      case None => Left(st, st, rank, n)
      case Some(p) => p in st && n in st[p].links.order
  {
    assert ListedByParent(FamilyOf(st), n);
  }

  lemma LeftByParent(st: Store, st': Store, rank: Heights, n: BodyBuilder, p: BodyBuilder)
    requires n in st && p in st && st[n].links.parent == Some(p) && p != n && n in st[p].links.revert
    requires FamilyOf(st') == AfterForesake(FamilyOf(st), p, n) && Moved(st, st', rank, p)
    ensures Left(st, st', rank, n) && n in st' && st'[n].links.parent == None
  {
  }

  /** n has neither parent nor children any more. */
  ghost predicate CutFrom(st: Store, st': Store, rank: Heights, n: BodyBuilder) {
    && n in st && InOrder(st', rank) && PrefixOf(st') == PrefixOf(st)
    && LetGo(FamilyOf(st), PrefixOf(st), rank, WholeOf(st), WholeOf(st'), n)
    && FamilyOf(st') == AfterMove(FamilyOf(st), Move<BodyBuilder>.Assign(n))
    && n in st' && st'[n].links.parent == None && st'[n].links.order == []
  }

  lemma CutEnds(st: Store, st1: Store, st': Store, rank: Heights, n: BodyBuilder)
    requires n in st && InOrder(st, rank) && InOrder(st1, rank) && OrphanedFrom(st, st1, rank, n)
    requires InOrder(st', rank) && PrefixOf(st') == PrefixOf(st1) && Left(st1, st', rank, n)
    ensures CutFrom(st, st', rank, n)
    ensures Trusted(st, rank) ==>
      (OthersTrusted(st', rank, n) <==> SameElsewhere(st, rank, st', UnderSet(FamilyOf(st), n) - {n}))
  {
    assert CutFrom(st, st', rank, n) by {
      MovesCut(FamilyOf(st), n);
      ReleaseCoherent(FamilyOf(st1), rank, n);
      CutLetsGo(st, st1, st', rank, n);
    }
    if Trusted(st, rank) {
      StoreDrawn(st);
      LetGoTrustIff(FamilyOf(st), PrefixOf(st), rank, WholeOf(st), WholeOf(st'), n);
    }
  }

  lemma CutLetsGo(st: Store, st1: Store, st': Store, rank: Heights, n: BodyBuilder)
    requires n in st && InOrder(st, rank) && InOrder(st1, rank) && OrphanedFrom(st, st1, rank, n)
    requires PrefixOf(st') == PrefixOf(st1) && Left(st1, st', rank, n)
    ensures LetGo(FamilyOf(st), PrefixOf(st), rank, WholeOf(st), WholeOf(st'), n)
  {
    match st1[n].links.parent
    case None => LetGoAlone(FamilyOf(st), PrefixOf(st), rank, WholeOf(st), WholeOf(st'), n);
    case Some(p) =>
      assert ListedByParent(FamilyOf(st1), n);
      ChildIsNamed(FamilyOf(st1), rank, p, n);
      LetGoByParent(FamilyOf(st), PrefixOf(st), rank, WholeOf(st), WholeOf(st1), WholeOf(st'), n, p);
  }

  /** n has another state and has forgotten what it had produced. */
  ghost function Emptied(st: Store, n: BodyBuilder, state: string, visible: bool): Store
    requires n in st
  {
    st[n := st[n].(own := st[n].own.(state := state, visible := visible), dirty := true, cache := Cache(NO_QUERY, ""))]
  }

  lemma EmptiedWhole(st: Store, n: BodyBuilder, state: string, visible: bool)
    requires n in st
    ensures var st' := Emptied(st, n, state, visible);
      && SameLinks(st, st') && SceneOf(st') == SceneOf(st)[n := SceneOf(st)[n].(state := state, visible := visible)]
      && WholeOf(st') == Full(Snap(SceneOf(st'), DirtyOf(st) + {n}), CachesOf(st)[n := Cache(NO_QUERY, "")],
         PostsOf(st))
  {
    ChangedOwn(st, n, state, visible);
    var st1 := EmptiedTwice(st, n, state, visible);
    ForgottenWhole(st1, n);
  }

  lemma EmptiedBySteps(st: Store, st1: Store, st2: Store, n: BodyBuilder, state: string, visible: bool)
    returns (st': Store)
    requires n in st && st1 == WithOwn(st, n, state, visible) && st2 == st1[n := st1[n].(dirty := true)]
    ensures st' == st2[n := st2[n].(cache := Cache(NO_QUERY, ""))] && st' == Emptied(st, n, state, visible)
  {
    st' := st2[n := st2[n].(cache := Cache(NO_QUERY, ""))];
  }

  lemma EmptiedTwice(st: Store, n: BodyBuilder, state: string, visible: bool) returns (st1: Store)
    requires n in st
    ensures st1 == WithOwn(st, n, state, visible)
    ensures Emptied(st, n, state, visible) == st1[n := st1[n].(dirty := true, cache := Cache(NO_QUERY, ""))]
  {
    st1 := WithOwn(st, n, state, visible);
  }

  lemma ForgottenWhole(st: Store, n: BodyBuilder)
    requires n in st
    ensures var st' := st[n := st[n].(dirty := true, cache := Cache(NO_QUERY, ""))];
      && SameLinks(st, st') && SceneOf(st') == SceneOf(st)
      && WholeOf(st') == Full(Snap(SceneOf(st), DirtyOf(st) + {n}), CachesOf(st)[n := Cache(NO_QUERY, "")], PostsOf(st))
  {
    LinksKept(st, n, st[n].(dirty := true, cache := Cache(NO_QUERY, "")));
    RestKept(st, n, st[n].(dirty := true, cache := Cache(NO_QUERY, "")));
  }

  lemma AssignEnds(st: Store, st1: Store, st': Store, rank: Heights, n: BodyBuilder, state: string, visible: bool)
    requires CutFrom(st, st1, rank, n) && n in st1 && st' == Emptied(st1, n, state, visible)
    requires Trusted(st, rank) ==>
      (OthersTrusted(st1, rank, n) <==> SameElsewhere(st, rank, st1, UnderSet(FamilyOf(st), n) - {n}))
    ensures InOrder(st', rank) && PrefixOf(st') == PrefixOf(st)
    ensures FamilyOf(st') == AfterMove(FamilyOf(st), Move<BodyBuilder>.Assign(n))
    ensures Trusted(st, rank) ==>
      (Trusted(st', rank) <==> SameElsewhere(st, rank, st', UnderSet(FamilyOf(st), n) - {n}))
  {
    EmptiedWhole(st1, n, state, visible);
    ResetTrustIff(FamilyOf(st1), rank, WholeOf(st1), WholeOf(st'), n);
  }

  lemma CutIsCut(st: Store, st1: Store, rank: Heights, n: BodyBuilder)
    requires CutFrom(st, st1, rank, n)
    ensures Cut(WorldOf(st, rank), n, WholeOf(st1)) && FamilyOf(st1) == CutFamily(FamilyOf(st), n)
  {
    MovesCut(FamilyOf(st), n);
  }

  lemma AssignIsStep(st: Store, st1: Store, st': Store, rank: Heights, n: BodyBuilder, state: string, visible: bool)
    requires InOrder(st, rank) && CutFrom(st, st1, rank, n) && n in st1 && st' == Emptied(st1, n, state, visible)
    ensures IsStep(st, rank, Happening<BodyBuilder>.Assign(n, WholeOf(st1)), st', rank)
  {
    WorldGood(st, rank);
    WorldDrawn(st', rank);
    ByAssignment(st, st1, st', rank, n, state, visible);
  }

  lemma ByAssignment(st: Store, st1: Store, st': Store, rank: Heights, n: BodyBuilder, state: string, visible: bool)
    requires CutFrom(st, st1, rank, n) && n in st1 && st' == Emptied(st1, n, state, visible)
    ensures ByAssign(WorldOf(st, rank), n, WholeOf(st1), WorldOf(st', rank))
  {
    CutIsCut(st, st1, rank, n);
    EmptiedWhole(st1, n, state, visible);
  }

  lemma DestroyIsStep(st: Store, st1: Store, rank: Heights, n: BodyBuilder)
    requires InOrder(st, rank) && CutFrom(st, st1, rank, n)
    ensures IsStep(st, rank, Happening<BodyBuilder>.Destroy(n, WholeOf(st1)), st1 - {n}, rank - {n})
  {
    WorldGood(st, rank);
    WorldDrawn(st1 - {n}, rank - {n});
    ByDestruction(st, st1, rank, n);
  }

  lemma ByDestruction(st: Store, st1: Store, rank: Heights, n: BodyBuilder)
    requires CutFrom(st, st1, rank, n)
    ensures ByDestroy(WorldOf(st, rank), n, WholeOf(st1), WorldOf(st1 - {n}, rank - {n}))
  {
    CutIsCut(st, st1, rank, n);
    WholeWithout(st1, rank, n);
  }

  lemma PrefixRearranges(st: Store, r: BodyBuilder, prefix: seq<string>) returns (st': Store)
    requires r in st
    ensures st' == st[r := st[r].(prefix := prefix)] && st' == Rearranged(st, FamilyOf(st), PrefixOf(st)[r := prefix])
  {
    st' := st[r := st[r].(prefix := prefix)];
  }

  lemma PrefixEnds(st: Store, st': Store, rank: Heights, r: BodyBuilder, prefix: seq<string>)
    requires r in st && InOrder(st, rank) && st[r].links.parent == None && Moved(st, st', rank, r)
    requires FamilyOf(st') == FamilyOf(st) && PrefixOf(st') == PrefixOf(st)[r := prefix]
    ensures InOrder(st', rank)
    ensures Trusted(st, rank) ==>
      (Trusted(st', rank) <==> SameElsewhere(st, rank, st', UnderSet(FamilyOf(st), r) - {r}))
  {
    StoreDrawn(st);
    RelinkedState(FamilyOf(st), rank, FamilyOf(st'), PrefixOf(st'), rank, WholeOf(st), WholeOf(st'), r);
    if Trusted(st, rank) {
      PrefixTrustIff(FamilyOf(st), PrefixOf(st), PrefixOf(st'), rank, WholeOf(st), WholeOf(st'), r);
    }
  }

  lemma PrefixIsStep(st: Store, st': Store, rank: Heights, r: BodyBuilder, prefix: seq<string>)
    requires r in st && InOrder(st, rank) && st[r].links.parent == None && Moved(st, st', rank, r)
    requires FamilyOf(st') == FamilyOf(st) && PrefixOf(st') == PrefixOf(st)[r := prefix]
    ensures IsStep(st, rank, Happening<BodyBuilder>.SetPrefix(r, prefix), st', rank)
  {
    WorldGood(st, rank);
    WorldDrawn(st', rank);
    assert ByPrefix(WorldOf(st, rank), r, prefix, WorldOf(st', rank));
  }

  // ------------------------------------------------------------------ fewer and more nodes

  /** Without a node that has no children, the others are where they were. */
  lemma PlaceWithout(f: Family<BodyBuilder>, prefix: Prefixes<BodyBuilder>, rank: Heights, n: BodyBuilder,
                     m: BodyBuilder)
    requires Coherent(f) && Ranked(f, rank) && n in f && f[n].order == [] && m in f && m != n &&
      Ranked(f - {n}, rank - {n})
    ensures Place(f - {n}, prefix - {n}, m) == Place(f, prefix, m)
  {
    forall k | k in Ancestors(f - {n}, m)
      ensures k in f && k in f - {n} && SameClimb(f, prefix, f - {n}, prefix - {n}, k)
    {
      AncestorsHigher(f - {n}, rank - {n}, (f - {n}).Keys, m, k);
      assert BelowParent(f - {n}, rank - {n}, k);
    }
    SamePlace(f, prefix, rank, f - {n}, prefix - {n}, rank - {n}, m);
  }

  lemma StoreWithout(st: Store, n: BodyBuilder)
    requires n in st
    ensures FamilyOf(st - {n}) == FamilyOf(st) - {n} && PrefixOf(st - {n}) == PrefixOf(st) - {n}
    ensures OwnOf(st - {n}) == OwnOf(st) - {n} && DirtyOf(st - {n}) == DirtyOf(st) - {n}
    ensures CachesOf(st - {n}) == CachesOf(st) - {n} && PostsOf(st - {n}) == PostsOf(st) - {n}
  {
  }

  lemma PictureWithout(f: Family<BodyBuilder>, prefix: Prefixes<BodyBuilder>, own: map<BodyBuilder, Own>, rank: Heights,
                       n: BodyBuilder)
    requires own.Keys == f.Keys && Coherent(f) && Ranked(f, rank) && n in f && f[n].parent == None && f[n].order == []
    ensures Picture(f - {n}, prefix - {n}, own - {n}) == Picture(f, prefix, own) - {n}
  {
    RemovedCoherent(f, rank, n);
    forall m | m in f - {n} ensures Place(f - {n}, prefix - {n}, m) == Place(f, prefix, m) {
      PlaceWithout(f, prefix, rank, n, m);
    }
  }

  lemma WholeWithout(st: Store, rank: Heights, n: BodyBuilder)
    requires n in st && InOrder(st, rank) && st[n].links.parent == None && st[n].links.order == []
    ensures FamilyOf(st - {n}) == FamilyOf(st) - {n} && PrefixOf(st - {n}) == PrefixOf(st) - {n}
    ensures WholeOf(st - {n}) == Without(WholeOf(st), n)
  {
    StoreWithout(st, n);
    PictureWithout(FamilyOf(st), PrefixOf(st), OwnOf(st), rank, n);
  }

  lemma DestroyEnds(st: Store, st1: Store, rank: Heights, n: BodyBuilder)
    requires CutFrom(st, st1, rank, n)
    requires Trusted(st, rank) ==>
      (OthersTrusted(st1, rank, n) <==> SameElsewhere(st, rank, st1, UnderSet(FamilyOf(st), n) - {n}))
    ensures InOrder(st1 - {n}, rank - {n}) && PrefixOf(st1 - {n}) == PrefixOf(st) - {n}
    ensures FamilyOf(st1 - {n}) == AfterMove(FamilyOf(st), Move<BodyBuilder>.Destroy(n))
    ensures Trusted(st, rank) ==>
      (Trusted(st1 - {n}, rank - {n}) <==> SameElsewhere(st, rank, st1, UnderSet(FamilyOf(st), n) - {n}))
  {
    WholeWithout(st1, rank, n);
    MovesCut(FamilyOf(st), n);
    RemoveTrustIff(FamilyOf(st1), rank, WholeOf(st1), n);
  }

  /** A node made after all the others: they are where they were, and what could be trusted still
      can be. */
  method NewBodyBuilder(renderer: Renderer, state: string, anchor: string, ghost peers: Nodes, ghost rank: Heights,
                        ghost st: Store)
    returns (n: BodyBuilder, ghost st': Store)
    requires Holds(peers, st) && InOrder(st, rank) && WellPlanned(renderer)
    ensures fresh(n) && Holds(peers + {n}, st') && InOrder(st', rank[n := 0])
    ensures n.visible && n.bodyChanged && n.state == state && n.parent == null && n.order == [] && n.prefix == []
    ensures n.renderer == renderer && n.anchor == anchor && n.lastBodyPart == ""
    ensures FamilyOf(st') == AfterMove(FamilyOf(st), Move<BodyBuilder>.Create(n))
    ensures PrefixOf(st') == PrefixOf(st)[n := []]
    ensures Trusted(st, rank) ==> Trusted(st', rank[n := 0])
    ensures n in st' && n in SceneOf(st')
    ensures IsStep(st, rank, Happening<BodyBuilder>.Create(n, SceneOf(st')[n], st'[n].cache), st', rank[n := 0])
  {
    ghost var node := Node(Links(None, [], map[], map[]), [], Own(renderer, state, true, anchor), true,
      Cache(NO_QUERY, ""), 0);
    n := Allocate(renderer, state, anchor, node, peers, st);
    st' := st[n := node];
    CreateEnds(st, rank, n, node);
    CreateIsStep(st, rank, n, node);
  }

  method Allocate(renderer: Renderer, state: string, anchor: string, ghost node: Node, ghost peers: Nodes,
                  ghost st: Store)
    returns (n: BodyBuilder)
    requires Holds(peers, st)
    requires node == Node(Links(None, [], map[], map[]), [], Own(renderer, state, true, anchor), true,
      Cache(NO_QUERY, ""), 0)
    ensures fresh(n) && n !in st && Holds(peers + {n}, st[n := node])
  {
    n := new BodyBuilder(renderer, state, anchor);
    assert forall k :: k in peers ==> k.Is(st[k]);
  }

  lemma CreateEnds(st: Store, rank: Heights, n: BodyBuilder, node: Node)
    requires InOrder(st, rank) && n !in st && WellPlanned(node.own.renderer)
    requires node.links == Links(None, [], map[], map[]) && node.dirty
    ensures InOrder(st[n := node], rank[n := 0])
    ensures FamilyOf(st[n := node]) == AfterMove(FamilyOf(st), Move<BodyBuilder>.Create(n))
    ensures PrefixOf(st[n := node]) == PrefixOf(st)[n := node.prefix]
    ensures Trusted(st, rank) ==> Trusted(st[n := node], rank[n := 0])
  {
    var look := WholeWith(st, rank, n, node);
    CreatedInOrder(FamilyOf(st), rank, WholeOf(st), n, look, node.cache, node.posts);
    if Trusted(st, rank) {
      CreateKeepsTrust(FamilyOf(st), rank, WholeOf(st), n, look, node.cache, node.posts);
    }
  }

  lemma CreateIsStep(st: Store, rank: Heights, n: BodyBuilder, node: Node)
    requires InOrder(st, rank) && n !in st && WellPlanned(node.own.renderer)
    requires node.links == Links(None, [], map[], map[]) && node.dirty && node.posts == 0
    ensures IsStep(st, rank, Happening<BodyBuilder>.Create(n, SceneOf(st[n := node])[n], node.cache), st[n := node],
      rank[n := 0])
  {
    WorldGood(st, rank);
    WorldDrawn(st[n := node], rank[n := 0]);
    ByCreation(st, rank, n, node);
  }

  lemma ByCreation(st: Store, rank: Heights, n: BodyBuilder, node: Node)
    requires InOrder(st, rank) && n !in st && WellPlanned(node.own.renderer)
    requires node.links == Links(None, [], map[], map[]) && node.dirty && node.posts == 0
    ensures ByCreate(WorldOf(st, rank), n, SceneOf(st[n := node])[n], node.cache, WorldOf(st[n := node], rank[n := 0]))
  {
    var look := WholeWith(st, rank, n, node);
    assert WholeOf(st[n := node]).snap.scene[n] == look;
  }

  lemma StoreWith(st: Store, n: BodyBuilder, node: Node)
    requires n !in st && node.dirty
    ensures FamilyOf(st[n := node]) == FamilyOf(st)[n := node.links] &&
      PrefixOf(st[n := node]) == PrefixOf(st)[n := node.prefix]
    ensures OwnOf(st[n := node]) == OwnOf(st)[n := node.own]
  {
  }

  lemma KeptWith(st: Store, n: BodyBuilder, node: Node)
    requires n !in st && node.dirty
    ensures DirtyOf(st[n := node]) == DirtyOf(st) + {n}
    ensures CachesOf(st[n := node]) == CachesOf(st)[n := node.cache] &&
      PostsOf(st[n := node]) == PostsOf(st)[n := node.posts]
  {
  }

  lemma PictureWith(f: Family<BodyBuilder>, prefix: Prefixes<BodyBuilder>, own: map<BodyBuilder, Own>, rank: Heights,
                    n: BodyBuilder, links: Links<BodyBuilder>, at: seq<string>, o: Own)
    requires own.Keys == f.Keys && Coherent(f) && Ranked(f, rank) && n !in f && links == Links(None, [], map[], map[])
    ensures var sc' := Picture(f[n := links], prefix[n := at], own[n := o]);
      n in sc' && sc' == Picture(f, prefix, own)[n := sc'[n]] && sc'[n].order == [] && sc'[n].renderer == o.renderer
  {
    CreateCoherent(f, rank, n);
    forall m | m in f ensures Place(f[n := links], prefix[n := at], m) == Place(f, prefix, m) {
      PlaceWith(f, prefix, rank, n, links, at, m);
    }
  }

  lemma WholeWith(st: Store, rank: Heights, n: BodyBuilder, node: Node) returns (look: Look<BodyBuilder>)
    requires InOrder(st, rank) && n !in st && node.links == Links(None, [], map[], map[]) && node.dirty
    ensures FamilyOf(st[n := node]) == AfterMove(FamilyOf(st), Move<BodyBuilder>.Create(n))
    ensures PrefixOf(st[n := node]) == PrefixOf(st)[n := node.prefix]
    ensures WholeOf(st[n := node]) == With(WholeOf(st), n, look, node.cache, node.posts)
    ensures look.order == [] && look.renderer == node.own.renderer
  {
    StoreWith(st, n, node);
    KeptWith(st, n, node);
    PictureWith(FamilyOf(st), PrefixOf(st), OwnOf(st), rank, n, node.links, node.prefix, node.own);
    look := SceneOf(st[n := node])[n];
  }

  lemma PlaceWith(f: Family<BodyBuilder>, prefix: Prefixes<BodyBuilder>, rank: Heights, n: BodyBuilder,
                  links: Links<BodyBuilder>, at: seq<string>, m: BodyBuilder)
    requires Ranked(f, rank) && n !in f && m in f && Ranked(f[n := links], rank[n := 0]) && links.parent == None
    ensures Place(f[n := links], prefix[n := at], m) == Place(f, prefix, m)
  {
    var f', prefix' := f[n := links], prefix[n := at];
    forall k | k in Ancestors(f', m) ensures k in f && k in f' && SameClimb(f, prefix, f', prefix', k) {
      AncestorsHigher(f', rank[n := 0], f'.Keys, m, k);
      AboveOld(f, rank, n, links, f'.Keys, m, k);
      assert BelowParent(f, rank, k);
    }
    SamePlace(f, prefix, rank, f', prefix', rank[n := 0], m);
  }

  /** A node that has no children is above no other. */
  lemma {:induction false} AboveOld(f: Family<BodyBuilder>, rank: Heights, n: BodyBuilder, links: Links<BodyBuilder>,
                                    left: Nodes, m: BodyBuilder, k: BodyBuilder)
    requires Ranked(f, rank) && n !in f && m in f && k in Climb(f[n := links], left, m)
    ensures k in f
    decreases left
  {
    assert BelowParent(f, rank, m);
    if k != m {
      AboveOld(f, rank, n, links, left - {m}, f[m].parent.value, k);
    }
  }

  // ------------------------------------------------------------------ rounds and places

  /** The rounds of a page, a hundred at most, which came if and only if one of the first ninety-nine
      left the root not known to have changed. */
  ghost predicate Reported(changed: seq<bool>, came: bool, last: bool) {
    && 0 < |changed| <= 100 && (forall i :: 0 <= i < |changed| - 1 ==> changed[i]) && changed[|changed| - 1] == last
    && (came <==> exists i :: 0 <= i < |changed| && i < 99 && !changed[i]) && (came || |changed| == 100)
  }

  /** So a page comes with the first round that leaves the root not known to have changed, if this is not
      the hundredth; no page comes just when the first ninety-nine all left it changed. */
  lemma PageCameIff(changed: seq<bool>, came: bool, last: bool)
    requires Reported(changed, came, last)
    ensures came <==> |changed| <= 99 && !last
    ensures !came <==> |changed| == 100 && forall i :: 0 <= i < 99 ==> changed[i]
  {
    if came {
      var i :| 0 <= i < |changed| && i < 99 && !changed[i];
      assert i == |changed| - 1;
    }
  }

  /** The rounds so far: they go on as long as the root is known to have changed. */
  ghost predicate HistoryOf(changed: seq<bool>, rounds: nat, goOn: bool) {
    && |changed| == rounds
    && (forall i :: 0 <= i < |changed| - 1 ==> changed[i])
    && (|changed| > 0 ==> changed[|changed| - 1] == goOn)
  }

  lemma HistoryOn(changed: seq<bool>, rounds: nat, last: bool)
    requires HistoryOf(changed, rounds, true)
    ensures HistoryOf(changed + [last], rounds + 1, last)
  {
  }

  lemma HistoryReports(changed: seq<bool>, rounds: nat, goOn: bool)
    requires HistoryOf(changed, rounds, goOn) && 0 < rounds <= MAXLOOP && (goOn ==> rounds == MAXLOOP)
    ensures Reported(changed, rounds < MAXLOOP, goOn)
  {
    if rounds < MAXLOOP {
      assert !changed[rounds - 1];
    }
  }

  /** The places in a list. */
  ghost predicate ArePlaces(all: set<nat>, n: nat) {
    forall k :: 0 <= k < n ==> k in all
  }

  lemma Places(n: nat) returns (all: set<nat>)
    ensures ArePlaces(all, n)
  {
    all := if n == 0 then {} else {n - 1};
    if n > 0 {
      var before := Places(n - 1);
      all := all + before;
    }
  }

  lemma OneLess(all: set<nat>, n: nat, asked: set<nat>, k: nat)
    requires ArePlaces(all, n) && k < n && k !in asked
    ensures all - (asked + {k}) < all - asked
  {
    assert k in all - asked && k !in all - (asked + {k});
  }

  // ------------------------------------------------------------------ passes over what the nodes hold

  lemma ChildInOrder(st: Store, rank: Heights, s0: Whole, n: BodyBuilder, q: Query, post: bool, asked: set<nat>,
                     outs: seq<string>, k: BodyBuilder)
    requires n in st && Composing(FamilyOf(st), rank, s0, WholeOf(st), n, q, post, asked, outs)
    requires k in st[n].links.order
    ensures k in st && rank[k] < rank[n] && InOrder(st, rank)
    ensures CachesValid(WholeOf(st), rank, UnderSet(FamilyOf(st), k))
  {
    SubtreeOfChild(FamilyOf(st), rank, n, k);
    ChildBelow(FamilyOf(st), rank, n, k);
  }

  lemma AnsweredAtOnce(st: Store, st': Store, rank: Heights, n: BodyBuilder, q: Query, post: bool, part: string)
    requires n in st && InOrder(st, rank) && CachesValid(WholeOf(st), rank, UnderSet(FamilyOf(st), n))
    requires st' == st[n := st[n].(dirty := false)]
    requires st[n].own.visible ==> !st[n].dirty && st[n].cache == Cache(q, part)
    requires !st[n].own.visible ==> part == ""
    ensures SameLinks(st, st')
    ensures Asked(FamilyOf(st), rank, WholeOf(st), WholeOf(st'), n, q, post, Anchored(st[n].own.anchor, part))
  {
    UnmarkedWhole(st, n);
    AnswerAtOnce(FamilyOf(st), rank, WholeOf(st), WholeOf(st'), n, q, post, part);
  }

  lemma UnmarkedWhole(st: Store, n: BodyBuilder)
    requires n in st
    ensures var st' := st[n := st[n].(dirty := false)];
      && SameLinks(st, st') && SceneOf(st') == SceneOf(st)
      && WholeOf(st') == WholeOf(st).(snap := Snap(SceneOf(st), DirtyOf(st) - {n}))
  {
    LinksKept(st, n, st[n].(dirty := false));
    RestKept(st, n, st[n].(dirty := false));
  }

  lemma KeptWhole(st: Store, n: BodyBuilder, cache: Cache)
    requires n in st
    ensures var st' := st[n := st[n].(cache := cache)];
      SameLinks(st, st') && WholeOf(st') == WholeOf(st).(caches := CachesOf(st)[n := cache])
  {
    LinksKept(st, n, st[n].(cache := cache));
    RestKept(st, n, st[n].(cache := cache));
  }

  /** What is under the first k of some nodes is marked. */
  ghost function FlushedFirst(st: Store, order: seq<BodyBuilder>, k: nat): Store
    requires k <= |order|
  {
    Marked(st, UnderFirst(FamilyOf(st), order, k))
  }

  lemma FlushedNone(st: Store, order: seq<BodyBuilder>)
    ensures FlushedFirst(st, order, 0) == st
  {
  }

  lemma FlushedOneMore(st: Store, rank: Heights, n: BodyBuilder, i: nat)
    requires n in st && Coherent(FamilyOf(st)) && Ranked(FamilyOf(st), rank) && i < |st[n].links.order|
    ensures var order := st[n].links.order;
      && order[i] in st && rank[order[i]] < rank[n] && FamilyOf(FlushedFirst(st, order, i)) == FamilyOf(st)
      && Marked(FlushedFirst(st, order, i), UnderSet(FamilyOf(st), order[i])) == FlushedFirst(st, order, i + 1)
  {
    var order := st[n].links.order;
    ChildBelow(FamilyOf(st), rank, n, order[i]);
    MarkedLinks(st, UnderFirst(FamilyOf(st), order, i));
    MarkedTwice(st, UnderFirst(FamilyOf(st), order, i), UnderSet(FamilyOf(st), order[i]));
  }

  lemma FlushedNode(st: Store, rank: Heights, n: BodyBuilder)
    requires n in st && Coherent(FamilyOf(st)) && Ranked(FamilyOf(st), rank)
    ensures var order := st[n].links.order;
      FlushedFirst(Marked(st, {n}), order, |order|) == Marked(st, UnderSet(FamilyOf(st), n))
  {
    var order := st[n].links.order;
    MarkedLinks(st, {n});
    MarkedTwice(st, {n}, UnderFirst(FamilyOf(st), order, |order|));
    UnderAll(FamilyOf(st), rank, n);
  }

  lemma FlushedWhole(st: Store, rank: Heights, n: BodyBuilder)
    requires n in st && InOrder(st, rank)
    ensures var st' := Marked(st, UnderSet(FamilyOf(st), n));
      && SameLinks(st, st') && n in st' && st'[n] == st[n].(dirty := true)
      && Passed(FamilyOf(st), rank, WholeOf(st), WholeOf(st'), n, false)
  {
    MarkedWhole(st, UnderSet(FamilyOf(st), n));
    AncestorsStep(FamilyOf(st), rank, n);
    FlushPasses(FamilyOf(st), rank, WholeOf(st), n);
  }

  lemma BeginningComposes(st: Store, st': Store, rank: Heights, n: BodyBuilder, q: Query, post: bool)
    requires n in st && InOrder(st, rank) && st[n].own.visible &&
      CachesValid(WholeOf(st), rank, UnderSet(FamilyOf(st), n))
    requires st' == st[n := st[n].(dirty := false, posts := st[n].posts + if post then 1 else 0)]
    ensures SameLinks(st, st') && WholeOf(st') == Begun(WholeOf(st), n, post)
    ensures Composing(FamilyOf(st), rank, WholeOf(st'), WholeOf(st'), n, q, post, {}, [])
  {
    BegunWhole(st, st', n, post);
    BeginComposing(FamilyOf(st), rank, WholeOf(st), n, q, post);
  }

  lemma BegunWhole(st: Store, st': Store, n: BodyBuilder, post: bool)
    requires n in st
    requires st' == st[n := st[n].(dirty := false, posts := st[n].posts + if post then 1 else 0)]
    ensures SameLinks(st, st') && WholeOf(st') == Begun(WholeOf(st), n, post)
  {
    LinksKept(st, n, st'[n]);
    RestKept(st, n, st'[n]);
  }

  lemma Ended(st0: Store, st: Store, st': Store, rank: Heights, n: BodyBuilder, q: Query, post: bool, asked: set<nat>,
              outs: seq<string>, part: string)
    requires n in st0 && n in st && InOrder(st0, rank) && SameLinks(st0, st)
    requires Composing(FamilyOf(st0), rank, Begun(WholeOf(st0), n, post), WholeOf(st), n, q, post, asked, outs)
    requires n !in DirtyOf(st) ==> part == Core(SceneOf(st), rank, n, q)
    requires st' == if st[n].dirty then st else st[n := st[n].(cache := Cache(q, part))]
    ensures SameLinks(st0, st')
    ensures Asked(FamilyOf(st0), rank, WholeOf(st0), WholeOf(st'), n, q, post, Anchored(st[n].own.anchor, part))
  {
    var f, s0, s, s' := FamilyOf(st0), WholeOf(st0), WholeOf(st), WholeOf(st');
    KeptWhole(st, n, Cache(q, part));
    EndComposing(f, rank, s0, s, s', n, q, post, asked, outs, part);
  }

  /** n was asked with the POST method at least once if it was at all. */
  lemma EndedCounts(st0: Store, st: Store, rank: Heights, n: BodyBuilder, q: Query, post: bool, asked: set<nat>,
                    outs: seq<string>)
    requires n in st0 && n in st && SameLinks(st0, st)
    requires Composing(FamilyOf(st0), rank, Begun(WholeOf(st0), n, post), WholeOf(st), n, q, post, asked, outs)
    ensures st[n].posts >= st0[n].posts + if post then 1 else 0
  {
    ComposingCounts(FamilyOf(st0), rank, Begun(WholeOf(st0), n, post), WholeOf(st), n, q, post, asked, outs);
  }

  lemma AskedOnce(st0: Store, st': Store, rank: Heights, n: BodyBuilder, q: Query, post: bool, r: string)
    requires n in st0 && n in st' && Asked(FamilyOf(st0), rank, WholeOf(st0), WholeOf(st'), n, q, post, r)
    ensures st'[n].posts <= st0[n].posts + if post then 1 else 0
  {
    AskedCounts(FamilyOf(st0), rank, WholeOf(st0), WholeOf(st'), n, q, post, r);
  }
}
