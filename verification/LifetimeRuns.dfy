/** What holds over every run of the lifetime protocol. */
module LifetimeRuns {
  import opened Text
  import opened Lifetime
  import opened LifetimeProofs
  import opened LifetimeSteps

  // ── What a safe trace guarantees, position by position ───────────────────────────────

  lemma {:induction false} ReplayStep(tr: seq<Call>, k: nat)
    requires k < |tr|
    ensures Replay(tr[..k + 1]) ==
            var o := Replay(tr[..k]);
            match tr[k]
            case Create(i, p) => Objects(o.born[i := p], o.alive + {i})
            case Use(_) => o
            case Release(i) => Objects(o.born, o.alive - {i})
  {
    assert tr[..k + 1][..k] == tr[..k];
  }

  lemma {:induction false} AliveIsBorn(tr: seq<Call>, k: nat)
    requires k <= |tr|
    ensures Replay(tr[..k]).alive <= Replay(tr[..k]).born.Keys
  {
    if k > 0 {
      AliveIsBorn(tr, k - 1);
      ReplayStep(tr, k - 1);
    }
  }

  lemma {:induction false} BornStays(tr: seq<Call>, j: nat, k: nat, i: nat)
    requires SafeTrace(tr) && j <= k <= |tr| && i in Replay(tr[..j]).born
    ensures i in Replay(tr[..k]).born && Replay(tr[..k]).born[i] == Replay(tr[..j]).born[i]
  {
    if j < k {
      BornStays(tr, j, k - 1, i);
      assert Allowed(Replay(tr[..k - 1]), tr[k - 1]);
      BornStep(tr, k - 1, i);
    }
  }

  lemma {:induction false} BornStep(tr: seq<Call>, k: nat, i: nat)
    requires k < |tr| && Allowed(Replay(tr[..k]), tr[k]) && i in Replay(tr[..k]).born
    ensures i in Replay(tr[..k + 1]).born && Replay(tr[..k + 1]).born[i] == Replay(tr[..k]).born[i]
  {
    ReplayStep(tr, k);
  }

  /** A released object never lives again. */
  lemma {:induction false} DeadStays(tr: seq<Call>, j: nat, k: nat, i: nat)
    requires SafeTrace(tr) && j < k <= |tr| && tr[j] == Release(i)
    ensures i in Replay(tr[..k]).born && i !in Replay(tr[..k]).alive
  {
    if j + 1 == k {
      ReplayStep(tr, j);
      AliveIsBorn(tr, j);
      assert Allowed(Replay(tr[..j]), tr[j]);
    } else {
      DeadStays(tr, j, k - 1, i);
      ReplayStep(tr, k - 1);
      assert Allowed(Replay(tr[..k - 1]), tr[k - 1]);
    }
  }

  predicate Mentions(c: Call, i: nat) { c.id == i || (c.Create? && c.parent == Some(i)) }

  /** After its release an object is not released again, not used, not recreated, and nothing is
      created below it. */
  lemma {:induction false} ReleaseIsFinal(tr: seq<Call>, j: nat, k: nat, i: nat)
    requires SafeTrace(tr) && j < k < |tr| && tr[j] == Release(i)
    ensures !Mentions(tr[k], i)
  {
    DeadStays(tr, j, k, i);
    assert Allowed(Replay(tr[..k]), tr[k]);
  }

  /** An object alive at `j` and not at `k` was released in between. */
  lemma {:induction false} DiedBetween(tr: seq<Call>, j: nat, k: nat, i: nat) returns (q: nat)
    requires j <= k <= |tr| && i in Replay(tr[..j]).alive && i !in Replay(tr[..k]).alive
    ensures j <= q < k && tr[q] == Release(i)
  {
    ReplayStep(tr, k - 1);
    if i in Replay(tr[..k - 1]).alive {
      q := k - 1;
    } else {
      q := DiedBetween(tr, j, k - 1, i);
    }
  }

  /** Children first: whatever was created below `p` is released before `p` is. */
  lemma {:induction false} ChildrenFirst(tr: seq<Call>, a: nat, r: nat, c: nat, p: nat) returns (q: nat)
    requires SafeTrace(tr) && a < |tr| && r < |tr| && tr[a] == Create(c, Some(p)) && tr[r] == Release(p)
    ensures a < q < r && tr[q] == Release(c)
  {
    if r < a {
      ReleaseIsFinal(tr, r, a, p);
    }
    ReplayStep(tr, a);
    BornStays(tr, a + 1, r, c);
    assert Allowed(Replay(tr[..r]), tr[r]);
    q := DiedBetween(tr, a + 1, r, c);
  }

  /** Whatever is created below `p`, is used as `p` or releases `p` comes after `p`'s creation. */
  lemma {:induction false} CreatedBefore(tr: seq<Call>, k: nat, p: nat) returns (a: nat)
    requires k <= |tr| && p in Replay(tr[..k]).alive
    ensures a < k && tr[a].Create? && tr[a].id == p
  {
    ReplayStep(tr, k - 1);
    if tr[k - 1].Create? && tr[k - 1].id == p {
      a := k - 1;
    } else {
      a := CreatedBefore(tr, k - 1, p);
    }
  }

  // ── Runs ─────────────────────────────────────────────────────────────────────────────

  /** A run visits `ss`, taking `acts[k]` from `ss[k]` to `ss[k + 1]`. */
  predicate Step(s: State, a: Action, s': State) { Closed(s) && Enabled(s, a) && s' == Next(s, a) }

  predicate IsRun(ss: seq<State>, acts: seq<Action>) {
    |ss| == |acts| + 1 && ss[0] == INIT && forall k | 0 <= k < |acts| :: Step(ss[k], acts[k], ss[k + 1])
  }

  lemma {:induction false} InitInv()
    ensures Inv(INIT)
  {
    assert Replay([]) == Objects(map[], {});
  }

  /** In every state of every run: the invariant, and a safe sequence of native calls so far. */
  lemma {:induction false} EveryRunIsSafe(ss: seq<State>, acts: seq<Action>, k: nat)
    requires IsRun(ss, acts) && k < |ss|
    ensures Inv(ss[k]) && SafeTrace(ss[k].trace)
  {
    if k == 0 {
      InitInv();
    } else {
      EveryRunIsSafe(ss, acts, k - 1);
      assert Step(ss[k - 1], acts[k - 1], ss[k]);
      StepKeepsInv(ss[k - 1], acts[k - 1]);
    }
  }

  /** No run is stuck on a dangling reference: an enabled action can always be taken. */
  lemma {:induction false} ReachableIsClosed(ss: seq<State>, acts: seq<Action>, k: nat)
    requires IsRun(ss, acts) && k < |ss|
    ensures Closed(ss[k])
  {
    EveryRunIsSafe(ss, acts, k);
    InvClosed(ss[k]);
  }

  /** A node is released natively only when no holder and no field refers to it and nothing
      created below it is alive. */
  lemma {:induction false} ReleaseNeedsNoHolder(ss: seq<State>, acts: seq<Action>, k: nat, n: nat)
    requires IsRun(ss, acts) && k < |acts| && acts[k] == ReleaseNode(n)
    ensures forall t | t in ss[k].holders :: !Refers(ss[k].holders[t], n)
    ensures forall m | m in ss[k].nodes :: ss[k].nodes[m].parent == Some(n) ==> ss[k].nodes[m].phase.Dead?
    ensures var o := Replay(ss[k].trace); forall j | j in o.alive :: j in o.born ==> o.born[j] != Some(n)
    ensures ss[k + 1].trace == ss[k].trace + [Release(n)]
  {
    var s := ss[k];
    EveryRunIsSafe(ss, acts, k);
    assert Step(s, acts[k], ss[k + 1]);
    assert CountOk(s.nodes, s.holders, n);
    assert Holding(s.holders, n) == {} && Fields(s.nodes, n) == {};
    NoRefs(s, n);
    assert Responsible(s.nodes, s.holders, Itself, n);
    Childless(s, n);
  }

  lemma {:induction false} NoRefs(s: State, n: nat)
    requires Holding(s.holders, n) == {} && Fields(s.nodes, n) == {}
    ensures forall t | t in s.holders :: !Refers(s.holders[t], n)
    ensures forall m | m in s.nodes :: s.nodes[m].parent == Some(n) ==> s.nodes[m].phase.Dead?
  {
    forall t | t in s.holders
      ensures !Refers(s.holders[t], n)
    {
      assert t !in Holding(s.holders, n);
    }
    forall m | m in s.nodes
      ensures s.nodes[m].parent == Some(n) ==> s.nodes[m].phase.Dead?
    {
      assert m !in Fields(s.nodes, n);
    }
  }

  /** Whatever a living object was created below is alive, so are all its ancestors. */
  predicate UpwardAlive(o: Objects) {
    forall j | j in o.alive :: j in o.born && (o.born[j].Some? ==> o.born[j].value in o.alive)
  }

  /** While any clone, device, stream, session or allocator of a node is held, the node's native
      object is alive, and so is every object it was created below, however far up. */
  lemma {:induction false} HeldIsAlive(ss: seq<State>, acts: seq<Action>, k: nat, t: nat)
    requires IsRun(ss, acts) && k < |ss| && t in ss[k].holders && !ss[k].holders[t].Builder?
    ensures ss[k].holders[t].node in Replay(ss[k].trace).alive && UpwardAlive(Replay(ss[k].trace))
  {
    var s := ss[k];
    EveryRunIsSafe(ss, acts, k);
    HandleIsAlive(s, t);
    forall j | j in s.owner
      ensures j in s.born && (s.born[j].Some? ==> s.born[j].value in s.owner)
    {
      if s.born[j].Some? {
        ParentIsHeld(s, j, s.born[j].value);
      }
    }
  }

  // ── Draining ─────────────────────────────────────────────────────────────────────────

  /** Steps that only give things up. */
  predicate Giving(a: Action) {
    a.FailBuild? || a.ReleaseAllocator? || a.DropRef? || a.ReleaseNode? || a.DropFields?
  }

  /** Nothing is held and no drop is under way. */
  predicate Quiet(s: State) {
    s.holders == map[] && forall n | n in s.nodes :: s.nodes[n].phase.Live? || s.nodes[n].phase.Dead?
  }

  /** A live node that no holder refers to is kept by a field; only an environment can be. */
  lemma {:induction false} KeptByField(s: State, n: nat) returns (m: nat)
    requires Inv(s) && n in s.nodes && s.nodes[n].phase.Live? && Holding(s.holders, n) == {}
    ensures m in s.nodes && !s.nodes[m].phase.Dead? && !s.nodes[m].kind.Env? && s.nodes[n].kind.Env?
  {
    assert CountOk(s.nodes, s.holders, n);
    m :| m in Fields(s.nodes, n);
    assert NodeOk(s.nodes, s.born, m);
  }

  lemma {:induction false} QuietNodesAreDead(s: State, n: nat)
    requires Inv(s) && Quiet(s) && n in s.nodes
    ensures s.nodes[n].phase.Dead?
  {
    if s.nodes[n].phase.Live? {
      assert Holding(s.holders, n) == {};
      var m := KeptByField(s, n);
      assert Holding(s.holders, m) == {};
      var _ := KeptByField(s, m);
      assert false;
    }
  }

  /** Once nothing is held, every native object and logger ever created has been released. */
  lemma {:induction false} QuietMeansAllReleased(ss: seq<State>, acts: seq<Action>, k: nat)
    requires IsRun(ss, acts) && k < |ss| && Quiet(ss[k])
    ensures Replay(ss[k].trace).alive == {}
  {
    var s := ss[k];
    EveryRunIsSafe(ss, acts, k);
    forall j | j in s.owner
      ensures false
    {
      assert Responsible(s.nodes, s.holders, s.owner[j], j);
      if s.owner[j].Itself? {
        QuietNodesAreDead(s, j);
      } else {
        QuietNodesAreDead(s, s.owner[j].e);
      }
    }
  }

  /** So each was released exactly once, after its creation. */
  lemma {:induction false} ReleasedExactlyOnce(ss: seq<State>, acts: seq<Action>, k: nat, a: nat) returns (q: nat)
    requires IsRun(ss, acts) && k < |ss| && Quiet(ss[k]) && a < |ss[k].trace| && ss[k].trace[a].Create?
    ensures a < q < |ss[k].trace|
    ensures forall r | 0 <= r < |ss[k].trace| :: ss[k].trace[r] == Release(ss[k].trace[a].id) <==> r == q
  {
    var tr := ss[k].trace;
    var i := tr[a].id;
    QuietMeansAllReleased(ss, acts, k);
    EveryRunIsSafe(ss, acts, k);
    ReplayStep(tr, a);
    assert tr[..|tr|] == tr;
    q := DiedBetween(tr, a + 1, |tr|, i);
    forall r | 0 <= r < |tr| && tr[r] == Release(i)
      ensures r == q
    {
      if r < q {
        ReleaseIsFinal(tr, r, q, i);
      } else if q < r {
        ReleaseIsFinal(tr, q, r, i);
      }
    }
  }

  /** The boxed logger is allocated before its environment is created and freed after it is
      released; whoever created the environment, in whatever order its clones were dropped. */
  lemma {:induction false} LoggerOutlivesEnv(tr: seq<Call>, c: nat, f: nat, e: nat, b: nat) returns (a: nat, q: nat)
    requires SafeTrace(tr) && c < |tr| && f < |tr| && tr[c] == Create(e, Some(b)) && tr[f] == Release(b)
    ensures a < c < q < f && tr[a].Create? && tr[a].id == b && tr[q] == Release(e)
  {
    assert Allowed(Replay(tr[..c]), tr[c]);
    a := CreatedBefore(tr, c, b);
    q := ChildrenFirst(tr, c, f, e, b);
  }

  // ── Every way of giving up ends ──────────────────────────────────────────────────────

  function Unfreed(ns: Nodes): set<nat> { set n | n in ns && Unreleased(ns[n]) }

  function Halfway(ns: Nodes): set<nat> { set n | n in ns && ns[n].phase.Released? }

  function Allocs(hs: Holders): set<nat> { set t | t in hs && hs[t].Alloc? }

  /** How many steps of giving up are left at most. */
  function Weight(ns: Nodes, hs: Holders): nat {
    3 * |Unfreed(ns)| + 2 * |Halfway(ns)| + |Allocs(hs)| + |hs.Keys|
  }

  lemma {:induction false} ReleaseShrinks(ns: Nodes, hs: Holders, n: nat)
    requires n in ns && ns[n].phase.Dying?
    ensures Weight(ns[n := ns[n].(phase := Released)], hs) < Weight(ns, hs)
  {
    var ns' := ns[n := ns[n].(phase := Released)];
    assert n in Unfreed(ns) && Unfreed(ns') == Unfreed(ns) - {n};
    assert n !in Halfway(ns) && Halfway(ns') == Halfway(ns) + {n};
  }

  lemma {:induction false} DeadSets(ns: Nodes, n: nat)
    requires n in ns && ns[n].phase.Released?
    ensures var ns' := ns[n := ns[n].(phase := Dead)];
            Unfreed(ns') == Unfreed(ns) && |Halfway(ns')| == |Halfway(ns)| - 1
  {
    var ns' := ns[n := ns[n].(phase := Dead)];
    assert Unfreed(ns') == Unfreed(ns);
    assert n in Halfway(ns) && Halfway(ns') == Halfway(ns) - {n};
  }

  lemma {:induction false} GuardAdded(hs: Holders, t: nat, p: nat)
    requires t !in hs
    ensures var hs' := hs[t := Handle(Guard, p)]; Allocs(hs') == Allocs(hs) && |hs'.Keys| == |hs.Keys| + 1
  {
    var hs' := hs[t := Handle(Guard, p)];
    assert hs'.Keys == hs.Keys + {t};
  }

  lemma {:induction false} FieldsShrink(s: State, n: nat)
    requires Inv(s) && Closed(s) && Enabled(s, DropFields(n))
    ensures var s' := Next(s, DropFields(n)); Weight(s'.nodes, s'.holders) < Weight(s.nodes, s.holders)
  {
    DeadSets(s.nodes, n);
    if !s.nodes[n].kind.Env? && s.nodes[n].parent.Some? {
      GuardAdded(s.holders, s.next, s.nodes[n].parent.value);
    }
  }

  lemma {:induction false} AllocShrinks(ns: Nodes, hs: Holders, t: nat, h: Holder)
    requires t in hs && hs[t].Alloc? && !h.Alloc?
    ensures Weight(ns, hs[t := h]) < Weight(ns, hs)
  {
    assert t in Allocs(hs) && Allocs(hs[t := h]) == Allocs(hs) - {t};
    assert hs[t := h].Keys == hs.Keys;
  }

  lemma {:induction false} HolderShrinks(ns: Nodes, hs: Holders, ns': Nodes, t: nat)
    requires t in hs && !hs[t].Alloc? && Unfreed(ns') == Unfreed(ns) && Halfway(ns') == Halfway(ns)
    ensures Weight(ns', hs - {t}) < Weight(ns, hs)
  {
    assert Allocs(hs - {t}) == Allocs(hs);
    assert t in hs.Keys && (hs - {t}).Keys == hs.Keys - {t};
  }

  lemma {:induction false} SameSets(ns: Nodes, d: nat, x: Node)
    requires d in ns && Unreleased(ns[d]) && Unreleased(x)
    ensures Unfreed(ns[d := x]) == Unfreed(ns) && Halfway(ns[d := x]) == Halfway(ns)
  {
  }

  lemma {:induction false} DropShrinks(s: State, t: nat)
    requires Inv(s) && Closed(s) && Enabled(s, DropRef(t))
    ensures var s' := Next(s, DropRef(t)); Weight(s'.nodes, s'.holders) < Weight(s.nodes, s.holders)
  {
    var s', d := Next(s, DropRef(t)), s.holders[t].node;
    HandleIsAlive(s, t);
    SameSets(s.nodes, d, s'.nodes[d]);
    HolderShrinks(s.nodes, s.holders, s'.nodes, t);
  }

  /** Every step that gives something up makes the state smaller. */
  lemma {:induction false} GivingShrinks(s: State, a: Action)
    requires Inv(s) && Closed(s) && Enabled(s, a) && Giving(a)
    ensures var s' := Next(s, a); Weight(s'.nodes, s'.holders) < Weight(s.nodes, s.holders)
  {
    match a
    case FailBuild(t) => HolderShrinks(s.nodes, s.holders, s.nodes, t);
    case ReleaseAllocator(t) => AllocShrinks(s.nodes, s.holders, t, Handle(Guard, s.holders[t].node));
    case DropRef(t) => DropShrinks(s, t);
    case ReleaseNode(n) => ReleaseShrinks(s.nodes, s.holders, n);
    case DropFields(n) => FieldsShrink(s, n);
  }

  function GiveUp(h: Holder, t: nat): Action {
    match h
    case Builder(_) => FailBuild(t)
    case Alloc(_, _) => ReleaseAllocator(t)
    case Handle(_, _) => DropRef(t)
  }

  /** A state that is not quiet has something left to give up. */
  lemma {:induction false} CanGive(s: State) returns (a: Action)
    requires !Quiet(s)
    ensures Giving(a) && Enabled(s, a)
  {
    if s.holders.Keys != {} {
      var t :| t in s.holders.Keys;
      a := GiveUp(s.holders[t], t);
    } else {
      assert s.holders == map[];
      var n :| n in s.nodes && !s.nodes[n].phase.Live? && !s.nodes[n].phase.Dead?;
      a := if s.nodes[n].phase.Dying? then ReleaseNode(n) else DropFields(n);
    }
  }

  /** A sequence of steps that only give things up. */
  predicate IsDrain(ss: seq<State>, acts: seq<Action>) {
    |ss| == |acts| + 1 && forall k | 0 <= k < |acts| :: GivesAt(ss, acts, k)
  }

  predicate GivesAt(ss: seq<State>, acts: seq<Action>, k: nat)
    requires k < |acts| < |ss|
  {
    Giving(acts[k]) && Step(ss[k], acts[k], ss[k + 1])
  }

  lemma {:induction false} DrainInv(ss: seq<State>, acts: seq<Action>, k: nat)
    requires IsDrain(ss, acts) && Inv(ss[0]) && k < |ss|
    ensures Inv(ss[k])
  {
    if k > 0 {
      DrainInv(ss, acts, k - 1);
      assert GivesAt(ss, acts, k - 1);
      StepKeepsInv(ss[k - 1], acts[k - 1]);
    }
  }

  lemma {:induction false} OneGiving(s: State, a: Action, s': State)
    requires Inv(s) && Giving(a) && Step(s, a, s')
    ensures Weight(s'.nodes, s'.holders) < Weight(s.nodes, s.holders)
  {
    GivingShrinks(s, a);
  }

  lemma {:induction false} DrainStepShrinks(ss: seq<State>, acts: seq<Action>, k: nat)
    requires IsDrain(ss, acts) && Inv(ss[0]) && k < |acts|
    ensures Weight(ss[k + 1].nodes, ss[k + 1].holders) < Weight(ss[k].nodes, ss[k].holders)
  {
    DrainInv(ss, acts, k);
    assert GivesAt(ss, acts, k);
    OneGiving(ss[k], acts[k], ss[k + 1]);
  }

  /** A strictly falling sequence of naturals is no longer than its first element allows. */
  lemma {:induction false} Falling(ws: seq<nat>, k: nat)
    requires k < |ws| && forall i, j | 0 <= i && j == i + 1 < |ws| :: ws[j] < ws[i]
    ensures ws[k] + k <= ws[0]
  {
    if k > 0 {
      Falling(ws, k - 1);
    }
  }

  lemma {:induction false} DrainLength(ss: seq<State>, acts: seq<Action>)
    requires IsDrain(ss, acts) && Inv(ss[0])
    ensures |acts| <= Weight(ss[0].nodes, ss[0].holders)
  {
    var ws: seq<nat> := seq(|ss|, i requires 0 <= i < |ss| => Weight(ss[i].nodes, ss[i].holders));
    forall i, j | 0 <= i && j == i + 1 < |ws|
      ensures ws[j] < ws[i]
    {
      DrainStepShrinks(ss, acts, i);
    }
    Falling(ws, |acts|);
  }

  /** Giving things up, in whatever order, takes a bounded number of steps, and where it cannot go
      on, everything has been given up. */
  lemma {:induction false} Drain(ss: seq<State>, acts: seq<Action>)
    requires IsDrain(ss, acts) && Inv(ss[0])
    ensures |acts| <= Weight(ss[0].nodes, ss[0].holders)
    ensures (forall a | Giving(a) :: !Enabled(ss[|acts|], a)) ==> Quiet(ss[|acts|])
    ensures !Quiet(ss[|acts|]) ==> exists a, s :: Giving(a) && Step(ss[|acts|], a, s)
  {
    DrainLength(ss, acts);
    DrainInv(ss, acts, |acts|);
    var s := ss[|acts|];
    if !Quiet(s) {
      var a := CanGive(s);
      InvClosed(s);
      assert Giving(a) && Step(s, a, Next(s, a));
    }
  }
}
