/** What each action of the lifetime protocol does, written out: the native calls it makes, the
    holders it leaves and the counts it changes. */
module LifetimeEffects {
  import opened Text
  import opened Lifetime
  import opened LifetimeProofs
  import opened LifetimeSteps
  import opened LifetimeRuns

  /** The native calls of an action, in order. */
  function CallsOf(s: State, a: Action): seq<Call>
    requires Closed(s) && Enabled(s, a)
  {
    match a
    case NewBuilder => []
    case SetLogger(t) =>
      [Create(s.next, None)] + if s.holders[t].box.Some? then [Release(s.holders[t].box.value)] else []
    case CreateEnv(t) => [Create(s.next, s.holders[t].box)]
    case FailBuild(t) => if s.holders[t].box.Some? then [Release(s.holders[t].box.value)] else []
    case Clone(_) => []
    case Discover(t, _) => [Use(s.holders[t].node)]
    case OpenStream(t) => [Create(s.next, Some(s.holders[t].node))]
    case OpenSession(t) => [Create(s.next, Some(s.holders[t].node))]
    case OpenAllocator(t) => [Create(s.next, Some(s.holders[t].node))]
    case NativeCall(t) => [Use(if s.holders[t].Alloc? then s.holders[t].alloc else s.holders[t].node)]
    case LogCallback(e) => [Use(s.nodes[e].logger.value)]
    case ReleaseAllocator(t) => [Release(s.holders[t].alloc)]
    case DropRef(_) => []
    case ReleaseNode(n) => [Release(n)]
    case DropFields(n) =>
      if s.nodes[n].kind.Env? && s.nodes[n].logger.Some? then [Release(s.nodes[n].logger.value)] else []
  }

  /** The holders behind an action: who holds what, and nobody else's holding changes. */
  function HoldersAfter(s: State, a: Action): Holders
    requires Closed(s) && Enabled(s, a)
  {
    match a
    case NewBuilder => s.holders[s.next := Builder(None)]
    case SetLogger(t) => s.holders[t := Builder(Some(s.next))]
    case CreateEnv(t) => s.holders[t := Handle(Environment, s.next)]
    case FailBuild(t) => s.holders - {t}
    case Clone(t) => s.holders[s.next := s.holders[t]]
    case Discover(t, r) => s.holders[s.next := Handle(r, s.holders[t].node)]
    case OpenStream(_) => s.holders[s.next + 1 := Handle(SyncStream, s.next)]
    case OpenSession(_) => s.holders[s.next + 1 := Handle(SessionRef, s.next)]
    case OpenAllocator(t) => s.holders[s.next + 1 := Alloc(s.next, s.holders[t].node)]
    case NativeCall(_) => s.holders
    case LogCallback(_) => s.holders
    case ReleaseAllocator(t) => s.holders[t := Handle(Guard, s.holders[t].node)]
    case DropRef(t) => s.holders - {t}
    case ReleaseNode(_) => s.holders
    case DropFields(n) =>
      if !s.nodes[n].kind.Env? && s.nodes[n].parent.Some? then
        s.holders[s.next := Handle(Guard, s.nodes[n].parent.value)]
      else s.holders
  }

  /** The nodes behind an action: one more or one fewer reference, a new node, or the next phase. */
  function NodesAfter(s: State, a: Action): Nodes
    requires Closed(s) && Enabled(s, a)
  {
    match a
    case NewBuilder => s.nodes
    case SetLogger(_) => s.nodes
    case CreateEnv(t) => s.nodes[s.next := Node(Env, None, s.holders[t].box, 1, Live)]
    case FailBuild(_) => s.nodes
    case Clone(t) => OneMore(s.nodes, s.holders[t].node, s.nodes)
    case Discover(t, _) => OneMore(s.nodes, s.holders[t].node, s.nodes)
    case OpenStream(t) =>
      OneMore(s.nodes, s.holders[t].node, s.nodes[s.next := Node(Stream, Some(s.holders[t].node), None, 1, Live)])
    case OpenSession(t) =>
      OneMore(s.nodes, s.holders[t].node, s.nodes[s.next := Node(Session, Some(s.holders[t].node), None, 1, Live)])
    case OpenAllocator(t) => OneMore(s.nodes, s.holders[t].node, s.nodes)
    case NativeCall(_) => s.nodes
    case LogCallback(_) => s.nodes
    case ReleaseAllocator(_) => s.nodes
    case DropRef(t) => OneFewer(s.nodes, s.holders[t].node)
    case ReleaseNode(n) => s.nodes[n := s.nodes[n].(phase := Released)]
    case DropFields(n) => s.nodes[n := s.nodes[n].(phase := Dead)]
  }

  /** In `ns'`, node `n` has one reference more than it had in `ns`. */
  function OneMore(ns: Nodes, n: nat, ns': Nodes): Nodes
    requires n in ns
  {
    ns'[n := ns[n].(count := ns[n].count + 1)]
  }

  /** The last reference gone, the node starts to die. */
  function OneFewer(ns: Nodes, n: nat): Nodes
    requires n in ns
  {
    if ns[n].count <= 1 then ns[n := ns[n].(count := 0, phase := Dying)]
    else ns[n := ns[n].(count := ns[n].count - 1, phase := Live)]
  }

  /** Every step makes exactly these calls, whatever state it starts from. */
  lemma {:induction false} StepCalls(s: State, a: Action)
    requires Closed(s) && Enabled(s, a)
    ensures Next(s, a).trace == s.trace + CallsOf(s, a)
  {
    match a
    case SetLogger(t) =>
      var b := s.holders[t].box;
      assert b.Some? ==> s.trace + [Create(s.next, None)] + [Release(b.value)] ==
                         s.trace + ([Create(s.next, None)] + [Release(b.value)]);
      assert [Create(s.next, None)] + [] == [Create(s.next, None)];
    case _ =>
  }

  /** Every step leaves exactly these holders. */
  lemma {:induction false} StepHolders(s: State, a: Action)
    requires Closed(s) && Enabled(s, a)
    ensures Next(s, a).holders == HoldersAfter(s, a)
  {
  }

  /** Every step leaves exactly these nodes. */
  lemma {:induction false} StepNodes(s: State, a: Action)
    requires Closed(s) && Enabled(s, a)
    ensures Next(s, a).nodes == NodesAfter(s, a)
  {
  }

  /** Identifiers are handed out in order, one or two at a time. */
  lemma {:induction false} StepNext(s: State, a: Action)
    requires Closed(s) && Enabled(s, a)
    ensures Next(s, a).next == s.next +
            match a
            case NewBuilder => 1
            case SetLogger(_) => 1
            case CreateEnv(_) => 1
            case Clone(_) => 1
            case Discover(_, _) => 1
            case OpenStream(_) => 2
            case OpenSession(_) => 2
            case OpenAllocator(_) => 2
            case DropFields(n) => if !s.nodes[n].kind.Env? && s.nodes[n].parent.Some? then 1 else 0
            case _ => 0
  {
  }

  // ── What can be done with what is held ───────────────────────────────────────────────

  /** Everything a held handle or allocator is for can be done with it. */
  lemma {:induction false} HeldCanBeUsed(s: State, t: nat)
    requires t in s.holders
    ensures match s.holders[t]
            case Builder(_) => Enabled(s, SetLogger(t)) && Enabled(s, CreateEnv(t)) && Enabled(s, FailBuild(t))
            case Alloc(_, _) => Enabled(s, NativeCall(t)) && Enabled(s, ReleaseAllocator(t))
            case Handle(r, _) =>
              && Enabled(s, DropRef(t))
              && (r != Guard ==> Enabled(s, Clone(t)) && Enabled(s, NativeCall(t)))
              && (r == Environment ==> Enabled(s, Discover(t, EpDevice)) && Enabled(s, Discover(t, HardwareDevice)))
              && (r == Environment ==> Enabled(s, OpenSession(t)) && Enabled(s, OpenAllocator(t)))
              && (r == EpDevice ==> Enabled(s, OpenStream(t)) && Enabled(s, Discover(t, HardwareDevice)))
              && (r == SessionRef ==> Enabled(s, OpenAllocator(t)))
  {
  }

  // ── A run from beginning to end ──────────────────────────────────────────────────────

  lemma {:induction false} RunSnoc(ss: seq<State>, acts: seq<Action>, a: Action)
    requires IsRun(ss, acts) && Enabled(ss[|acts|], a)
    ensures Closed(ss[|acts|]) && IsRun(ss + [Next(ss[|acts|], a)], acts + [a])
  {
    ReachableIsClosed(ss, acts, |acts|);
    var l, m := ss + [Next(ss[|acts|], a)], acts + [a];
    forall k | 0 <= k < |m|
      ensures Step(l[k], m[k], l[k + 1])
    {
      if k < |acts| {
        assert Step(ss[k], acts[k], ss[k + 1]);
      }
    }
  }

  /** The state a run has reached, as far as clients and the engine see it. */
  ghost predicate Reached(s: State, hs: Holders, ns: Nodes, next: nat, tr: seq<Call>) {
    s.holders == hs && s.nodes == ns && s.next == next && s.trace == tr
  }

  /** One more step of a run, with everything it changes. */
  lemma {:induction false} Extend(ss: seq<State>, acts: seq<Action>, a: Action)
    returns (ss': seq<State>, acts': seq<Action>)
    requires IsRun(ss, acts) && Enabled(ss[|acts|], a)
    ensures Closed(ss[|acts|]) && IsRun(ss', acts') && acts' == acts + [a]
    ensures var s := ss[|acts|];
            Reached(ss'[|acts'|], HoldersAfter(s, a), NodesAfter(s, a), Next(s, a).next, s.trace + CallsOf(s, a))
  {
    var s := ss[|acts|];
    RunSnoc(ss, acts, a);
    StepHolders(s, a);
    StepNodes(s, a);
    StepCalls(s, a);
    ss', acts' := ss + [Next(s, a)], acts + [a];
  }

  /** A builder with a logger becomes an environment. */
  lemma {:induction false} ExampleCreate() returns (ss: seq<State>, acts: seq<Action>)
    ensures IsRun(ss, acts)
    ensures Reached(ss[|acts|], map[0 := Handle(Environment, 2)], map[2 := Node(Env, None, Some(1), 1, Live)], 3,
                    [Create(1, None), Create(2, Some(1))])
  {
    ss, acts := [INIT], [];
    ss, acts := Extend(ss, acts, NewBuilder);
    assert Reached(ss[|acts|], map[0 := Builder(None)], map[], 1, []);
    ss, acts := Extend(ss, acts, SetLogger(0));
    assert Reached(ss[|acts|], map[0 := Builder(Some(1))], map[], 2, [Create(1, None)]);
    ss, acts := Extend(ss, acts, CreateEnv(0));
  }

  /** A device is discovered and a stream opened on it. */
  lemma {:induction false} ExampleOpen() returns (ss: seq<State>, acts: seq<Action>)
    ensures IsRun(ss, acts)
    ensures Reached(ss[|acts|],
                    map[0 := Handle(Environment, 2), 3 := Handle(EpDevice, 2), 5 := Handle(SyncStream, 4)],
                    map[2 := Node(Env, None, Some(1), 3, Live), 4 := Node(Stream, Some(2), None, 1, Live)], 6,
                    [Create(1, None), Create(2, Some(1)), Use(2), Create(4, Some(2))])
  {
    ss, acts := ExampleCreate();
    ss, acts := Extend(ss, acts, Discover(0, EpDevice));
    assert Reached(ss[|acts|], map[0 := Handle(Environment, 2), 3 := Handle(EpDevice, 2)],
                   map[2 := Node(Env, None, Some(1), 2, Live)], 4, [Create(1, None), Create(2, Some(1)), Use(2)]);
    ss, acts := Extend(ss, acts, OpenStream(3));
  }

  /** The stream is used. */
  lemma {:induction false} ExampleUse() returns (ss: seq<State>, acts: seq<Action>)
    ensures IsRun(ss, acts)
    ensures Reached(ss[|acts|],
                    map[0 := Handle(Environment, 2), 3 := Handle(EpDevice, 2), 5 := Handle(SyncStream, 4)],
                    map[2 := Node(Env, None, Some(1), 3, Live), 4 := Node(Stream, Some(2), None, 1, Live)], 6,
                    [Create(1, None), Create(2, Some(1)), Use(2), Create(4, Some(2)), Use(4)])
  {
    ss, acts := ExampleOpen();
    ss, acts := Extend(ss, acts, NativeCall(5));
  }

  /** The environment and the device are dropped; the stream keeps everything alive. */
  lemma {:induction false} ExampleStreamOnly() returns (ss: seq<State>, acts: seq<Action>)
    ensures IsRun(ss, acts)
    ensures Reached(ss[|acts|], map[5 := Handle(SyncStream, 4)],
                    map[2 := Node(Env, None, Some(1), 1, Live), 4 := Node(Stream, Some(2), None, 1, Live)], 6,
                    [Create(1, None), Create(2, Some(1)), Use(2), Create(4, Some(2)), Use(4)])
  {
    ss, acts := ExampleUse();
    ss, acts := Extend(ss, acts, DropRef(0));
    assert Reached(ss[|acts|], map[3 := Handle(EpDevice, 2), 5 := Handle(SyncStream, 4)],
                   map[2 := Node(Env, None, Some(1), 2, Live), 4 := Node(Stream, Some(2), None, 1, Live)], 6,
                   [Create(1, None), Create(2, Some(1)), Use(2), Create(4, Some(2)), Use(4)]);
    ss, acts := Extend(ss, acts, DropRef(3));
  }

  /** The stream is dropped as well. */
  lemma {:induction false} ExampleDrop() returns (ss: seq<State>, acts: seq<Action>)
    ensures IsRun(ss, acts)
    ensures Reached(ss[|acts|], map[],
                    map[2 := Node(Env, None, Some(1), 1, Live), 4 := Node(Stream, Some(2), None, 0, Dying)], 6,
                    [Create(1, None), Create(2, Some(1)), Use(2), Create(4, Some(2)), Use(4)])
  {
    ss, acts := ExampleStreamOnly();
    ss, acts := Extend(ss, acts, DropRef(5));
  }

  /** The stream is released; only then does its reference to the environment go. */
  lemma {:induction false} ExampleStreamGone() returns (ss: seq<State>, acts: seq<Action>)
    ensures IsRun(ss, acts)
    ensures Reached(ss[|acts|], map[],
                    map[2 := Node(Env, None, Some(1), 0, Dying), 4 := Node(Stream, Some(2), None, 0, Dead)], 7,
                    [Create(1, None), Create(2, Some(1)), Use(2), Create(4, Some(2)), Use(4), Release(4)])
  {
    ss, acts := ExampleDrop();
    ss, acts := Extend(ss, acts, ReleaseNode(4));
    assert Reached(ss[|acts|], map[],
                   map[2 := Node(Env, None, Some(1), 1, Live), 4 := Node(Stream, Some(2), None, 0, Released)], 6,
                   [Create(1, None), Create(2, Some(1)), Use(2), Create(4, Some(2)), Use(4), Release(4)]);
    ss, acts := Extend(ss, acts, DropFields(4));
    assert Reached(ss[|acts|], map[6 := Handle(Guard, 2)],
                   map[2 := Node(Env, None, Some(1), 1, Live), 4 := Node(Stream, Some(2), None, 0, Dead)], 7,
                   [Create(1, None), Create(2, Some(1)), Use(2), Create(4, Some(2)), Use(4), Release(4)]);
    ss, acts := Extend(ss, acts, DropRef(6));
  }

  /** A whole life: the stream, the environment and the logger are released in this order, although
      the environment handle was the first to be dropped. */
  lemma {:induction false} ExampleRun() returns (ss: seq<State>, acts: seq<Action>)
    ensures IsRun(ss, acts) && ss[|acts|].holders == map[]
    ensures ss[|acts|].trace == [Create(1, None), Create(2, Some(1)), Use(2), Create(4, Some(2)), Use(4),
                                 Release(4), Release(2), Release(1)]
  {
    ss, acts := ExampleStreamGone();
    ss, acts := Extend(ss, acts, ReleaseNode(2));
    assert Reached(ss[|acts|], map[],
                   map[2 := Node(Env, None, Some(1), 0, Released), 4 := Node(Stream, Some(2), None, 0, Dead)], 7,
                   [Create(1, None), Create(2, Some(1)), Use(2), Create(4, Some(2)), Use(4), Release(4), Release(2)]);
    ss, acts := Extend(ss, acts, DropFields(2));
  }
}
