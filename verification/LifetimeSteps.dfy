/** Every action keeps the invariant. */
module LifetimeSteps {
  import opened Text
  import opened Lifetime
  import opened LifetimeProofs

  // ── The tables: nodes, holders and boxes agree with what was created ─────────────────

  predicate Tables(ns: Nodes, hs: Holders, born: Born) {
    NodesInv(ns, born) && HoldersInv(ns, hs, born) && BoxInv(ns, hs, born)
  }

  lemma {:induction false} TablesGrow(ns: Nodes, hs: Holders, born: Born, i: nat, p: Option<nat>)
    requires Tables(ns, hs, born) && i !in born
    ensures Tables(ns, hs, born[i := p])
  {
    forall n | n in ns
      ensures NodeOk(ns, born[i := p], n)
    {
      assert NodeOk(ns, born, n);
    }
    forall t | t in hs
      ensures HolderOk(ns, hs[t], born[i := p])
    {
      assert HolderOk(ns, hs[t], born);
    }
  }

  /** A node changes its count or phase only. */
  lemma {:induction false} TablesNode(ns: Nodes, hs: Holders, born: Born, d: nat, x: Node)
    requires Tables(ns, hs, born)
    requires d in ns && x.kind == ns[d].kind && x.parent == ns[d].parent && x.logger == ns[d].logger
    ensures Tables(ns[d := x], hs, born)
  {
    var ns' := ns[d := x];
    forall n | n in ns'
      ensures NodeOk(ns', born, n)
    {
      assert NodeOk(ns, born, n);
    }
    forall t | t in hs
      ensures HolderOk(ns', hs[t], born)
    {
      assert HolderOk(ns, hs[t], born);
    }
  }

  lemma {:induction false} TablesBorn(ns: Nodes, hs: Holders, born: Born, i: nat, x: Node)
    requires Tables(ns, hs, born) && i !in ns && NodeOk(ns[i := x], born, i)
    requires x.logger.Some? ==> x.logger.value in born && born[x.logger.value].None?
    ensures Tables(ns[i := x], hs, born)
  {
    var ns' := ns[i := x];
    forall n | n in ns'
      ensures NodeOk(ns', born, n)
    {
      assert n != i ==> NodeOk(ns, born, n);
    }
    forall t | t in hs
      ensures HolderOk(ns', hs[t], born)
    {
      assert HolderOk(ns, hs[t], born);
    }
  }

  lemma {:induction false} TablesHolder(ns: Nodes, hs: Holders, born: Born, t: nat, h: Holder)
    requires Tables(ns, hs, born) && HolderOk(ns, h, born)
    requires h.Builder? && h.box.Some? ==> h.box.value in born && born[h.box.value].None?
    ensures Tables(ns, hs[t := h], born) && Tables(ns, hs - {t}, born)
  {
  }

  /** Identifiers in use stay below the next one. */
  lemma {:induction false} FreshSet(ns: Nodes, hs: Holders, born: Born, next: nat, i: nat, x: Node, t: nat, h: Holder)
    requires FreshInv(ns, hs, born, next) && i < next && t < next
    ensures FreshInv(ns[i := x], hs[t := h], born, next) && FreshInv(ns[i := x], hs, born, next)
    ensures FreshInv(ns, hs[t := h], born, next) && FreshInv(ns[i := x], hs - {t}, born, next)
    ensures FreshInv(ns, hs - {t}, born, next)
  {
  }

  lemma {:induction false} FreshBorn(ns: Nodes, hs: Holders, born: Born, next: nat, next': nat, i: nat, p: Option<nat>)
    requires FreshInv(ns, hs, born, next) && next <= next' && i < next'
    ensures FreshInv(ns, hs, born[i := p], next') && FreshInv(ns, hs, born, next')
  {
  }

  /** The invariant, by parts. */
  lemma {:induction false} Assemble(s: State)
    requires TraceInv(s.trace, s.born, s.owner) && FreshInv(s.nodes, s.holders, s.born, s.next)
    requires Tables(s.nodes, s.holders, s.born) && CountInv(s.nodes, s.holders) && OwnerInv(s.nodes, s.holders, s.owner)
    ensures Inv(s)
  {
  }

  lemma {:induction false} TablesShare(ns: Nodes, hs: Holders, born: Born, n: nat, t: nat, h: Holder)
    requires Tables(ns, hs, born) && n in ns && HolderOk(ns, h, born) && !h.Builder?
    ensures Tables(ns[n := More(ns[n])], hs[t := h], born)
  {
    TablesNode(ns, hs, born, n, More(ns[n]));
    TablesHolder(ns[n := More(ns[n])], hs, born, t, h);
  }

  lemma {:induction false} OwnerShare(ns: Nodes, hs: Holders, owner: Owners, n: nat, t: nat, h: Holder)
    requires OwnerInv(ns, hs, owner) && n in ns && h.Handle? && t !in hs
    ensures OwnerInv(ns[n := More(ns[n])], hs[t := h], owner)
  {
    OwnerNode(ns, hs, owner, n, More(ns[n]));
    OwnerSilent(ns[n := More(ns[n])], hs, owner, t, h);
  }

  lemma {:induction false} OwnerAlloc(ns: Nodes, hs: Holders, owner: Owners, n: nat, t: nat, a: nat)
    requires OwnerInv(ns, hs, owner) && n in ns && t !in hs && a !in owner
    ensures OwnerInv(ns[n := More(ns[n])], hs[t := Alloc(a, n)], owner[a := ByHolder(t)])
  {
    OwnerNode(ns, hs, owner, n, More(ns[n]));
    OwnerTake(ns[n := More(ns[n])], hs, owner, t, Alloc(a, n), a);
  }

  lemma {:induction false} Unborn(s: State, i: nat)
    requires Inv(s) && i >= s.next
    ensures i !in s.born && i !in s.owner && i !in s.nodes && i !in s.holders
  {
  }

  /** Nothing refers to or lies below an object that does not exist yet. */
  lemma {:induction false} Unreferred(ns: Nodes, hs: Holders, born: Born, next: nat)
    requires Tables(ns, hs, born) && FreshInv(ns, hs, born, next)
    ensures forall u | u in hs :: !Refers(hs[u], next)
    ensures forall m | m in ns :: ns[m].parent != Some(next)
  {
    forall u | u in hs
      ensures !Refers(hs[u], next)
    {
      assert HolderOk(ns, hs[u], born);
    }
    forall m | m in ns
      ensures ns[m].parent != Some(next)
    {
      assert NodeOk(ns, born, m);
    }
  }

  /** A living object that is not its own owner may be released, unless it is the logger of an
      unreleased environment. */
  lemma {:induction false} FreeOwned(s: State, i: nat)
    requires Inv(s) && i in s.owner && !s.owner[i].Itself?
    requires s.owner[i].ByEnv? && s.owner[i].e in s.nodes ==> !Unreleased(s.nodes[s.owner[i].e])
    ensures TraceInv(s.trace + [Release(i)], s.born, s.owner - {i})
  {
    if i in s.nodes && s.nodes[i].phase.Live? {
      assert Responsible(s.nodes, s.holders, Itself, i);
    }
    Childless(s, i);
    TraceFree(s.trace, s.born, s.owner, i);
  }

  // ── References ───────────────────────────────────────────────────────────────────────

  lemma {:induction false} KeepTouch(s: State, i: nat)
    requires Inv(s) && i in s.owner
    ensures Inv(Touch(s, i))
  {
    TraceTouch(s.trace, s.born, s.owner, i);
  }

  lemma {:induction false} KeepShare(s: State, r: Role, n: nat)
    requires Inv(s) && n in s.nodes && s.nodes[n].phase.Live?
    requires KindOf(r).Some? ==> s.nodes[n].kind == KindOf(r).value
    ensures Inv(Share(s, s.next, Handle(r, n), n).(next := s.next + 1))
  {
    var h := Handle(r, n);
    CountShare(s.nodes, s.holders, s.next, h);
    TablesShare(s.nodes, s.holders, s.born, n, s.next, h);
    OwnerShare(s.nodes, s.holders, s.owner, n, s.next, h);
    FreshBorn(s.nodes, s.holders, s.born, s.next, s.next + 1, 0, None);
    FreshSet(s.nodes, s.holders, s.born, s.next + 1, n, More(s.nodes[n]), s.next, h);
    Assemble(Share(s, s.next, h, n).(next := s.next + 1));
  }

  lemma {:induction false} KeepDropRef(s: State, t: nat)
    requires Inv(s) && Closed(s) && Enabled(s, DropRef(t))
    ensures Inv(Next(s, DropRef(t)))
  {
    var d := s.holders[t].node;
    HandleIsAlive(s, t);
    var x := s.nodes[d].(count := s.nodes[d].count - 1, phase := if s.nodes[d].count == 1 then Dying else Live);
    CountDrop(s.nodes, s.holders, t, x);
    TablesNode(s.nodes, s.holders, s.born, d, x);
    TablesHolder(s.nodes[d := x], s.holders, s.born, t, Builder(None));
    OwnerNode(s.nodes, s.holders, s.owner, d, x);
    OwnerSilent(s.nodes[d := x], s.holders, s.owner, t, Builder(None));
  }

  lemma {:induction false} KeepClone(s: State, t: nat)
    requires Inv(s) && Closed(s) && Enabled(s, Clone(t))
    ensures Inv(Next(s, Clone(t)))
  {
    HandleIsAlive(s, t);
    KeepShare(s, s.holders[t].role, s.holders[t].node);
  }

  lemma {:induction false} EnvironmentHandle(s: State, t: nat)
    requires Inv(s) && (HasRole(s, t, Environment) || HasRole(s, t, EpDevice))
    ensures s.holders[t].node in s.nodes && s.nodes[s.holders[t].node].kind.Env?
  {
    assert HolderOk(s.nodes, s.holders[t], s.born);
  }

  lemma {:induction false} KeepDiscover(s: State, t: nat, r: Role)
    requires Inv(s) && Closed(s) && Enabled(s, Discover(t, r))
    ensures Inv(Next(s, Discover(t, r)))
  {
    HandleIsAlive(s, t);
    EnvironmentHandle(s, t);
    KeepTouch(s, s.holders[t].node);
    KeepShare(Touch(s, s.holders[t].node), r, s.holders[t].node);
  }

  lemma {:induction false} KeepNativeCall(s: State, t: nat)
    requires Inv(s) && Closed(s) && Enabled(s, NativeCall(t))
    ensures Inv(Next(s, NativeCall(t)))
  {
    HandleIsAlive(s, t);
    if s.holders[t].Alloc? {
      assert Responsible(s.nodes, s.holders, ByHolder(t), s.holders[t].alloc);
      KeepTouch(s, s.holders[t].alloc);
    } else {
      KeepTouch(s, s.holders[t].node);
    }
  }

  /** While an environment lives natively, its logger may be called. */
  lemma {:induction false} KeepLogCallback(s: State, e: nat)
    requires Inv(s) && Closed(s) && Enabled(s, LogCallback(e))
    ensures Inv(Next(s, LogCallback(e)))
  {
    var b := s.nodes[e].logger.value;
    assert NodeOk(s.nodes, s.born, e);
    ParentIsHeld(s, e, b);
    KeepTouch(s, b);
  }

  // ── Allocators ───────────────────────────────────────────────────────────────────────

  lemma {:induction false} OpenAllocTrace(s: State, t: nat)
    requires Inv(s) && t in s.holders && s.holders[t].Handle? && s.holders[t].node in s.nodes
    ensures var s' := OpenAlloc(s, t);
            TraceInv(s'.trace, s'.born, s'.owner) && FreshInv(s'.nodes, s'.holders, s'.born, s'.next)
  {
    var n, a := s.holders[t].node, s.next;
    HandleIsAlive(s, t);
    TraceSpawn(s.trace, s.born, s.owner, a, Some(n), ByHolder(a + 1));
    FreshBorn(s.nodes, s.holders, s.born, a, a + 2, a, Some(n));
    FreshSet(s.nodes, s.holders, s.born[a := Some(n)], a + 2, n, More(s.nodes[n]), a + 1, Alloc(a, n));
  }

  lemma {:induction false} OpenAllocCount(s: State, t: nat)
    requires Inv(s) && t in s.holders && s.holders[t].Handle? && s.holders[t].node in s.nodes
    ensures var s' := OpenAlloc(s, t); CountInv(s'.nodes, s'.holders)
  {
    HandleIsAlive(s, t);
    OpenAllocCountLive(s, t);
  }

  lemma {:induction false} OpenAllocCountLive(s: State, t: nat)
    requires CountInv(s.nodes, s.holders) && FreshInv(s.nodes, s.holders, s.born, s.next)
    requires t in s.holders && s.holders[t].Handle? && s.holders[t].node in s.nodes
    requires s.nodes[s.holders[t].node].phase.Live?
    ensures var s' := OpenAlloc(s, t); CountInv(s'.nodes, s'.holders)
  {
    CountShare(s.nodes, s.holders, s.next + 1, Alloc(s.next, s.holders[t].node));
  }

  lemma {:induction false} OpenAllocTables(s: State, t: nat)
    requires Tables(s.nodes, s.holders, s.born) && FreshInv(s.nodes, s.holders, s.born, s.next)
    requires t in s.holders && s.holders[t].Handle? && s.holders[t].node in s.nodes
    ensures var s' := OpenAlloc(s, t); Tables(s'.nodes, s'.holders, s'.born)
  {
    var n, a := s.holders[t].node, s.next;
    TablesGrow(s.nodes, s.holders, s.born, a, Some(n));
    TablesShare(s.nodes, s.holders, s.born[a := Some(n)], n, a + 1, Alloc(a, n));
  }

  lemma {:induction false} OpenAllocOwner(s: State, t: nat)
    requires OwnerInv(s.nodes, s.holders, s.owner) && s.next !in s.owner && s.next + 1 !in s.holders
    requires t in s.holders && s.holders[t].Handle? && s.holders[t].node in s.nodes
    ensures var s' := OpenAlloc(s, t); OwnerInv(s'.nodes, s'.holders, s'.owner)
  {
    OwnerAlloc(s.nodes, s.holders, s.owner, s.holders[t].node, s.next + 1, s.next);
  }

  lemma {:induction false} KeepOpenAllocator(s: State, t: nat)
    requires Inv(s) && t in s.holders && s.holders[t].Handle? && s.holders[t].node in s.nodes
    ensures Inv(OpenAlloc(s, t))
  {
    OpenAllocTrace(s, t);
    OpenAllocCount(s, t);
    OpenAllocTables(s, t);
    Unborn(s, s.next);
    OpenAllocOwner(s, t);
    Assemble(OpenAlloc(s, t));
  }

  lemma {:induction false} HeldIsLeaf(s: State, t: nat, i: nat)
    requires Inv(s) && t in s.holders && Owns(s.holders[t], i)
    ensures i in s.owner && forall j | j in s.owner :: s.born[j] != Some(i)
  {
    assert Responsible(s.nodes, s.holders, ByHolder(t), i);
    if i in s.nodes && s.nodes[i].phase.Live? {
      assert Responsible(s.nodes, s.holders, Itself, i);
    }
    Childless(s, i);
  }

  /** What a holder owns may be released. */
  lemma {:induction false} FreeHeld(s: State, t: nat, i: nat)
    requires Inv(s) && t in s.holders && Owns(s.holders[t], i)
    ensures TraceInv(s.trace + [Release(i)], s.born, s.owner - {i})
  {
    assert Responsible(s.nodes, s.holders, ByHolder(t), i);
    FreeOwned(s, i);
  }

  lemma {:induction false} FreeAllocOwner(s: State, t: nat)
    requires Inv(s) && t in s.holders && s.holders[t].Alloc?
    ensures var s' := FreeAlloc(s, t); TraceInv(s'.trace, s'.born, s'.owner) && OwnerInv(s'.nodes, s'.holders, s'.owner)
  {
    OwnerGive(s.nodes, s.holders, s.owner, t, Handle(Guard, s.holders[t].node), s.holders[t].alloc);
    FreeHeld(s, t, s.holders[t].alloc);
  }

  lemma {:induction false} FreeAllocTables(s: State, t: nat)
    requires FreshInv(s.nodes, s.holders, s.born, s.next) && Tables(s.nodes, s.holders, s.born)
    requires CountInv(s.nodes, s.holders) && t in s.holders && s.holders[t].Alloc?
    ensures var s' := FreeAlloc(s, t);
            && CountInv(s'.nodes, s'.holders) && Tables(s'.nodes, s'.holders, s'.born)
            && FreshInv(s'.nodes, s'.holders, s'.born, s'.next)
  {
    var h := Handle(Guard, s.holders[t].node);
    CountRetag(s.nodes, s.holders, t, h);
    assert HolderOk(s.nodes, s.holders[t], s.born);
    TablesHolder(s.nodes, s.holders, s.born, t, h);
  }

  lemma {:induction false} KeepReleaseAllocator(s: State, t: nat)
    requires Inv(s) && t in s.holders && s.holders[t].Alloc?
    ensures Inv(FreeAlloc(s, t))
  {
    FreeAllocOwner(s, t);
    FreeAllocTables(s, t);
    Assemble(FreeAlloc(s, t));
  }

  // ── Nodes ────────────────────────────────────────────────────────────────────────────

  lemma {:induction false} KeepReleaseNode(s: State, d: nat)
    requires Inv(s) && Closed(s) && Enabled(s, ReleaseNode(d))
    ensures Inv(Next(s, ReleaseNode(d)))
  {
    var x := s.nodes[d].(phase := Released);
    OwnerReleased(s.nodes, s.holders, s.owner, d);
    assert CountOk(s.nodes, s.holders, d);
    Childless(s, d);
    TraceFree(s.trace, s.born, s.owner, d);
    CountPhase(s.nodes, s.holders, d, Released);
    TablesNode(s.nodes, s.holders, s.born, d, x);
  }

  lemma {:induction false} KeepDropEnvFields(s: State, d: nat)
    requires Inv(s) && Closed(s) && Enabled(s, DropFields(d)) && s.nodes[d].kind.Env?
    ensures Inv(Next(s, DropFields(d)))
  {
    var b := s.nodes[d].logger;
    assert CountOk(s.nodes, s.holders, d) && NodeOk(s.nodes, s.born, d);
    OwnerDead(s.nodes, s.holders, s.owner, d);
    CountPhase(s.nodes, s.holders, d, Dead);
    TablesNode(s.nodes, s.holders, s.born, d, s.nodes[d].(phase := Dead));
    if b.Some? {
      FreeOwned(s, b.value);
    }
  }

  lemma {:induction false} KeepDropChildFields(s: State, d: nat)
    requires Inv(s) && Closed(s) && Enabled(s, DropFields(d)) && !s.nodes[d].kind.Env?
    ensures Inv(Next(s, DropFields(d)))
  {
    assert NodeOk(s.nodes, s.born, d) && CountOk(s.nodes, s.holders, d);
    Unborn(s, s.next);
    CountToGuard(s.nodes, s.holders, d, s.next);
    GuardTables(s.nodes, s.holders, s.born, s.next, d);
    GuardOwner(s.nodes, s.holders, s.owner, s.next, d);
  }

  /** A dropped node's parent reference turned into a guard. */
  lemma {:induction false} GuardTables(ns: Nodes, hs: Holders, born: Born, t: nat, d: nat)
    requires Tables(ns, hs, born) && FreshInv(ns, hs, born, t)
    requires d in ns && ns[d].parent.Some? && ns[d].parent.value in ns
    ensures var ns', hs' := ns[d := ns[d].(phase := Dead)], hs[t := Handle(Guard, ns[d].parent.value)];
            Tables(ns', hs', born) && FreshInv(ns', hs', born, t + 1)
  {
    var x, h := ns[d].(phase := Dead), Handle(Guard, ns[d].parent.value);
    TablesNode(ns, hs, born, d, x);
    TablesHolder(ns[d := x], hs, born, t, h);
    FreshBorn(ns, hs, born, t, t + 1, 0, None);
    FreshSet(ns, hs, born, t + 1, d, x, t, h);
  }

  lemma {:induction false} GuardOwner(ns: Nodes, hs: Holders, owner: Owners, t: nat, d: nat)
    requires OwnerInv(ns, hs, owner) && t !in hs && d in ns && ns[d].phase.Released? && ns[d].logger.None?
    requires ns[d].parent.Some?
    ensures OwnerInv(ns[d := ns[d].(phase := Dead)], hs[t := Handle(Guard, ns[d].parent.value)], owner)
  {
    OwnerDead(ns, hs, owner, d);
    OwnerSilent(ns[d := ns[d].(phase := Dead)], hs, owner, t, Handle(Guard, ns[d].parent.value));
  }

  lemma {:induction false} TablesOpen(ns: Nodes, hs: Holders, born: Born, i: nat, e: nat, u: nat, k: Kind, r: Role)
    requires Tables(ns, hs, born) && i !in born && i !in ns && e in ns && ns[e].kind.Env?
    requires !k.Env? && KindOf(r) == Some(k)
    ensures Tables(ns[i := Child(k, e)][e := More(ns[e])], hs[u := Handle(r, i)], born[i := Some(e)])
  {
    TablesGrow(ns, hs, born, i, Some(e));
    TablesBorn(ns, hs, born[i := Some(e)], i, Child(k, e));
    TablesShare(ns[i := Child(k, e)], hs, born[i := Some(e)], e, u, Handle(r, i));
  }

  lemma {:induction false} OwnerOpen(ns: Nodes, hs: Holders, owner: Owners, i: nat, e: nat, u: nat, k: Kind, r: Role)
    requires OwnerInv(ns, hs, owner) && i !in ns && i !in owner && e in ns && u !in hs
    ensures OwnerInv(ns[i := Child(k, e)][e := More(ns[e])], hs[u := Handle(r, i)], owner[i := Itself])
  {
    OwnerBorn(ns, hs, owner, i, Child(k, e));
    OwnerShare(ns[i := Child(k, e)], hs, owner[i := Itself], e, u, Handle(r, i));
  }

  lemma {:induction false} FreshOpen(ns: Nodes, hs: Holders, born: Born, i: nat, e: nat, k: Kind, r: Role)
    requires FreshInv(ns, hs, born, i) && e in ns
    ensures FreshInv(ns[i := Child(k, e)][e := More(ns[e])], hs[i + 1 := Handle(r, i)], born[i := Some(e)], i + 2)
  {
    FreshBorn(ns, hs, born, i, i + 2, i, Some(e));
    FreshSet(ns, hs, born[i := Some(e)], i + 2, i, Child(k, e), i + 1, Handle(r, i));
    FreshSet(ns[i := Child(k, e)], hs[i + 1 := Handle(r, i)], born[i := Some(e)], i + 2,
             e, More(ns[e]), i + 1, Handle(r, i));
  }

  lemma {:induction false} OpenTrace(s: State, t: nat, k: Kind, r: Role)
    requires Inv(s) && t in s.holders && s.holders[t].Handle? && s.holders[t].node in s.nodes
    ensures var s' := Open(s, t, k, r); TraceInv(s'.trace, s'.born, s'.owner)
  {
    HandleIsAlive(s, t);
    TraceSpawn(s.trace, s.born, s.owner, s.next, Some(s.holders[t].node), Itself);
  }

  lemma {:induction false} CountBelow(ns: Nodes, hs: Holders, born: Born, i: nat, e: nat, k: Kind, r: Role)
    requires Tables(ns, hs, born) && FreshInv(ns, hs, born, i) && CountInv(ns, hs) && e in ns && ns[e].phase.Live?
    ensures CountInv(ns[i := Child(k, e)][e := More(ns[e])], hs[i + 1 := Handle(r, i)])
  {
    Unreferred(ns, hs, born, i);
    CountOpen(ns, hs, i, i + 1, e, k, r);
  }

  lemma {:induction false} OpenOwner(s: State, t: nat, k: Kind, r: Role)
    requires Inv(s) && t in s.holders && s.holders[t].Handle? && s.holders[t].node in s.nodes
    ensures var s' := Open(s, t, k, r); OwnerInv(s'.nodes, s'.holders, s'.owner)
  {
    Unborn(s, s.next);
    OwnerOpen(s.nodes, s.holders, s.owner, s.next, s.holders[t].node, s.next + 1, k, r);
  }

  lemma {:induction false} OpenCountLive(s: State, t: nat, k: Kind, r: Role)
    requires Tables(s.nodes, s.holders, s.born) && FreshInv(s.nodes, s.holders, s.born, s.next)
    requires CountInv(s.nodes, s.holders) && t in s.holders && s.holders[t].Handle? && s.holders[t].node in s.nodes
    requires s.nodes[s.holders[t].node].phase.Live?
    ensures var s' := Open(s, t, k, r); CountInv(s'.nodes, s'.holders)
  {
    CountBelow(s.nodes, s.holders, s.born, s.next, s.holders[t].node, k, r);
  }

  lemma {:induction false} OpenCount(s: State, t: nat, k: Kind, r: Role)
    requires Inv(s) && t in s.holders && s.holders[t].Handle? && s.holders[t].node in s.nodes
    ensures var s' := Open(s, t, k, r); CountInv(s'.nodes, s'.holders)
  {
    HandleIsAlive(s, t);
    OpenCountLive(s, t, k, r);
  }

  lemma {:induction false} OpenTables(s: State, t: nat, k: Kind, r: Role)
    requires Tables(s.nodes, s.holders, s.born) && FreshInv(s.nodes, s.holders, s.born, s.next)
    requires t in s.holders && s.holders[t].Handle? && s.holders[t].node in s.nodes
    requires s.nodes[s.holders[t].node].kind.Env? && !k.Env? && KindOf(r) == Some(k)
    ensures var s' := Open(s, t, k, r);
            Tables(s'.nodes, s'.holders, s'.born) && FreshInv(s'.nodes, s'.holders, s'.born, s'.next)
  {
    TablesOpen(s.nodes, s.holders, s.born, s.next, s.holders[t].node, s.next + 1, k, r);
    FreshOpen(s.nodes, s.holders, s.born, s.next, s.holders[t].node, k, r);
  }

  lemma {:induction false} KeepOpen(s: State, t: nat, k: Kind, r: Role)
    requires Inv(s) && t in s.holders && s.holders[t].Handle? && s.holders[t].node in s.nodes
    requires s.nodes[s.holders[t].node].kind.Env? && !k.Env? && KindOf(r) == Some(k)
    ensures Inv(Open(s, t, k, r))
  {
    OpenTrace(s, t, k, r);
    OpenCount(s, t, k, r);
    OpenTables(s, t, k, r);
    OpenOwner(s, t, k, r);
    Assemble(Open(s, t, k, r));
  }

  // ── Construction ─────────────────────────────────────────────────────────────────────

  lemma {:induction false} KeepNewBuilder(s: State)
    requires Inv(s) && Closed(s)
    ensures Inv(Next(s, NewBuilder))
  {
    Unborn(s, s.next);
    CountBuilder(s.nodes, s.holders, s.next, None);
    TablesHolder(s.nodes, s.holders, s.born, s.next, Builder(None));
    OwnerSilent(s.nodes, s.holders, s.owner, s.next, Builder(None));
  }

  lemma {:induction false} KeepFailBuild(s: State, t: nat)
    requires Inv(s) && Closed(s) && Enabled(s, FailBuild(t))
    ensures Inv(Next(s, FailBuild(t)))
  {
    var b := s.holders[t].box;
    CountBuilder(s.nodes, s.holders, t, None);
    TablesHolder(s.nodes, s.holders, s.born, t, Builder(None));
    if b.Some? {
      OwnerGive(s.nodes, s.holders, s.owner, t, Builder(None), b.value);
      FreeOwned(s, b.value);
    } else {
      OwnerSilent(s.nodes, s.holders, s.owner, t, Builder(None));
    }
  }

  /** The logger of a builder is replaced: the new box is made before the old one is freed. */
  lemma {:induction false} SetLoggerOwner(s: State, t: nat)
    requires Inv(s) && Closed(s) && Enabled(s, SetLogger(t))
    ensures var s' := Next(s, SetLogger(t)); OwnerInv(s'.nodes, s'.holders, s'.owner)
  {
    var i, b := s.next, s.holders[t].box;
    Unborn(s, i);
    if b.Some? {
      OwnerGive(s.nodes, s.holders, s.owner, t, Builder(None), b.value);
      OwnerTake(s.nodes, s.holders[t := Builder(None)], s.owner - {b.value}, t, Builder(Some(i)), i);
      assert s.holders[t := Builder(None)][t := Builder(Some(i))] == s.holders[t := Builder(Some(i))];
      assert (s.owner - {b.value})[i := ByHolder(t)] == s.owner[i := ByHolder(t)] - {b.value};
    } else {
      OwnerTake(s.nodes, s.holders, s.owner, t, Builder(Some(i)), i);
    }
  }

  lemma {:induction false} SetLoggerTrace(s: State, t: nat)
    requires Inv(s) && Closed(s) && Enabled(s, SetLogger(t))
    ensures var s' := Next(s, SetLogger(t)); TraceInv(s'.trace, s'.born, s'.owner)
  {
    var i, b := s.next, s.holders[t].box;
    Unborn(s, i);
    TraceSpawn(s.trace, s.born, s.owner, i, None, ByHolder(t));
    if b.Some? {
      HeldIsLeaf(s, t, b.value);
      TraceFree(s.trace + [Create(i, None)], s.born[i := None], s.owner[i := ByHolder(t)], b.value);
    }
  }

  lemma {:induction false} SetLoggerTables(s: State, t: nat)
    requires Inv(s) && Closed(s) && Enabled(s, SetLogger(t))
    ensures var s' := Next(s, SetLogger(t));
            Tables(s'.nodes, s'.holders, s'.born) && FreshInv(s'.nodes, s'.holders, s'.born, s'.next)
  {
    var i := s.next;
    TablesGrow(s.nodes, s.holders, s.born, i, None);
    TablesHolder(s.nodes, s.holders, s.born[i := None], t, Builder(Some(i)));
    FreshBorn(s.nodes, s.holders, s.born, i, i + 1, i, None);
    FreshSet(s.nodes, s.holders, s.born[i := None], i + 1, 0, Child(Env, 0), t, Builder(Some(i)));
  }

  lemma {:induction false} KeepSetLogger(s: State, t: nat)
    requires Inv(s) && Closed(s) && Enabled(s, SetLogger(t))
    ensures Inv(Next(s, SetLogger(t)))
  {
    SetLoggerOwner(s, t);
    SetLoggerTrace(s, t);
    SetLoggerTables(s, t);
    CountBuilder(s.nodes, s.holders, t, Some(s.next));
    Assemble(Next(s, SetLogger(t)));
  }

  /** A created environment takes the logger over from its builder. */
  lemma {:induction false} EnvOwner(ns: Nodes, hs: Holders, owner: Owners, e: nat, t: nat, b: nat)
    requires OwnerInv(ns, hs, owner) && e !in ns && e !in owner && t in hs && hs[t] == Builder(Some(b))
    ensures OwnerInv(ns[e := Node(Env, None, Some(b), 1, Live)], hs[t := Handle(Environment, e)],
                     owner[e := Itself][b := ByEnv(e)])
  {
    var h, y, z := Handle(Environment, e), Node(Env, None, None, 1, Live), Node(Env, None, Some(b), 1, Live);
    OwnerGive(ns, hs, owner, t, h, b);
    OwnerBorn(ns, hs[t := h], owner - {b}, e, y);
    OwnerLogger(ns[e := y], hs[t := h], (owner - {b})[e := Itself], e, z, b);
    assert ns[e := y][e := z] == ns[e := z];
    assert (owner - {b})[e := Itself][b := ByEnv(e)] == owner[e := Itself][b := ByEnv(e)];
  }

  lemma {:induction false} CreateEnvOwner(s: State, t: nat)
    requires Inv(s) && Closed(s) && Enabled(s, CreateEnv(t))
    ensures var s' := Next(s, CreateEnv(t)); OwnerInv(s'.nodes, s'.holders, s'.owner)
  {
    var e, b := s.next, s.holders[t].box;
    Unborn(s, e);
    if b.Some? {
      EnvOwner(s.nodes, s.holders, s.owner, e, t, b.value);
    } else {
      OwnerBorn(s.nodes, s.holders, s.owner, e, Node(Env, None, None, 1, Live));
      OwnerSilent(s.nodes[e := Node(Env, None, None, 1, Live)], s.holders, s.owner[e := Itself],
                  t, Handle(Environment, e));
    }
  }

  lemma {:induction false} CreateEnvTrace(s: State, t: nat)
    requires Inv(s) && Closed(s) && Enabled(s, CreateEnv(t))
    ensures var s' := Next(s, CreateEnv(t)); TraceInv(s'.trace, s'.born, s'.owner)
  {
    var e, b := s.next, s.holders[t].box;
    Unborn(s, e);
    if b.Some? {
      assert Responsible(s.nodes, s.holders, ByHolder(t), b.value);
    }
    TraceSpawn(s.trace, s.born, s.owner, e, b, Itself);
    if b.Some? {
      TraceReowned(s.trace + [Create(e, b)], s.born[e := b], s.owner[e := Itself], b.value, ByEnv(e));
    }
  }

  lemma {:induction false} CreateEnvTables(s: State, t: nat)
    requires Inv(s) && Closed(s) && Enabled(s, CreateEnv(t))
    ensures var s' := Next(s, CreateEnv(t)); Tables(s'.nodes, s'.holders, s'.born)
  {
    var e, b := s.next, s.holders[t].box;
    var y := Node(Env, None, b, 1, Live);
    Unborn(s, e);
    TablesGrow(s.nodes, s.holders, s.born, e, b);
    TablesBorn(s.nodes, s.holders, s.born[e := b], e, y);
    TablesHolder(s.nodes[e := y], s.holders, s.born[e := b], t, Handle(Environment, e));
  }

  lemma {:induction false} CreateEnvCount(s: State, t: nat)
    requires Inv(s) && Closed(s) && Enabled(s, CreateEnv(t))
    ensures var s' := Next(s, CreateEnv(t));
            CountInv(s'.nodes, s'.holders) && FreshInv(s'.nodes, s'.holders, s'.born, s'.next)
  {
    var e, b := s.next, s.holders[t].box;
    Unreferred(s.nodes, s.holders, s.born, e);
    CountNewEnv(s.nodes, s.holders, e, t, b, Environment);
    FreshBorn(s.nodes, s.holders, s.born, e, e + 1, e, b);
    FreshSet(s.nodes, s.holders, s.born[e := b], e + 1, e, Node(Env, None, b, 1, Live), t, Handle(Environment, e));
  }

  lemma {:induction false} KeepCreateEnv(s: State, t: nat)
    requires Inv(s) && Closed(s) && Enabled(s, CreateEnv(t))
    ensures Inv(Next(s, CreateEnv(t)))
  {
    CreateEnvOwner(s, t);
    CreateEnvTrace(s, t);
    CreateEnvTables(s, t);
    CreateEnvCount(s, t);
    Assemble(Next(s, CreateEnv(t)));
  }

  // ── Every action, every run ──────────────────────────────────────────────────────────

  lemma {:induction false} StepKeepsInv(s: State, a: Action)
    requires Inv(s) && Closed(s) && Enabled(s, a)
    ensures Inv(Next(s, a))
  {
    match a
    case NewBuilder => KeepNewBuilder(s);
    case SetLogger(t) => KeepSetLogger(s, t);
    case CreateEnv(t) => KeepCreateEnv(s, t);
    case FailBuild(t) => KeepFailBuild(s, t);
    case Clone(t) => KeepClone(s, t);
    case Discover(t, r) => KeepDiscover(s, t, r);
    case OpenStream(t) => EnvironmentHandle(s, t); KeepOpen(s, t, Stream, SyncStream);
    case OpenSession(t) => EnvironmentHandle(s, t); KeepOpen(s, t, Session, SessionRef);
    case OpenAllocator(t) => KeepOpenAllocator(s, t);
    case NativeCall(t) => KeepNativeCall(s, t);
    case LogCallback(e) => KeepLogCallback(s, e);
    case ReleaseAllocator(t) => KeepReleaseAllocator(s, t);
    case DropRef(t) => KeepDropRef(s, t);
    case ReleaseNode(n) => KeepReleaseNode(s, n);
    case DropFields(n) => if s.nodes[n].kind.Env? { KeepDropEnvFields(s, n); } else { KeepDropChildFields(s, n); }
  }
}
