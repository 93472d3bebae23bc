/** Every action of the lifetime protocol keeps its invariant, so every run is safe. */
module LifetimeProofs {
  import opened Text
  import opened Lifetime

  type Born = map<nat, Option<nat>>
  type Owners = map<nat, Owner>

  // ── Traces ───────────────────────────────────────────────────────────────────────────

  lemma {:induction false} TraceSpawn(tr: seq<Call>, born: Born, owner: Owners, i: nat, p: Option<nat>, o: Owner)
    requires TraceInv(tr, born, owner) && i !in born && (p.Some? ==> p.value in owner)
    ensures TraceInv(tr + [Create(i, p)], born[i := p], owner[i := o])
  {
    SafeSnoc(tr, Create(i, p));
    assert owner[i := o].Keys == owner.Keys + {i};
  }

  lemma {:induction false} TraceTouch(tr: seq<Call>, born: Born, owner: Owners, i: nat)
    requires TraceInv(tr, born, owner) && i in owner
    ensures TraceInv(tr + [Use(i)], born, owner)
  {
    SafeSnoc(tr, Use(i));
  }

  lemma {:induction false} TraceFree(tr: seq<Call>, born: Born, owner: Owners, i: nat)
    requires TraceInv(tr, born, owner) && i in owner && forall j | j in owner :: born[j] != Some(i)
    ensures TraceInv(tr + [Release(i)], born, owner - {i})
  {
    SafeSnoc(tr, Release(i));
    assert (owner - {i}).Keys == owner.Keys - {i};
  }

  lemma {:induction false} TraceReowned(tr: seq<Call>, born: Born, owner: Owners, i: nat, o: Owner)
    requires TraceInv(tr, born, owner) && i in owner
    ensures TraceInv(tr, born, owner[i := o])
  {
    assert owner[i := o].Keys == owner.Keys;
  }

  // ── Counts ───────────────────────────────────────────────────────────────────────────

  lemma {:induction false} ReferredIsLive(ns: Nodes, hs: Holders, n: nat, r: nat)
    requires CountInv(ns, hs) && n in ns && (r in Holding(hs, n) || r in Fields(ns, n))
    ensures ns[n].phase.Live?
  {
    assert CountOk(ns, hs, n);
    if r in Holding(hs, n) {
      assert Holding(hs, n) == {r} + (Holding(hs, n) - {r});
    } else {
      assert Fields(ns, n) == {r} + (Fields(ns, n) - {r});
    }
  }

  lemma {:induction false} HoldingAdd(hs: Holders, t: nat, h: Holder, n: nat)
    requires t !in hs
    ensures |Holding(hs[t := h], n)| == |Holding(hs, n)| + if Refers(h, n) then 1 else 0
  {
    var hs' := hs[t := h];
    assert t !in Holding(hs, n);
    forall u
      ensures u in Holding(hs', n) <==> u in Holding(hs, n) || (u == t && Refers(h, n))
    {
    }
    assert Holding(hs', n) == Holding(hs, n) + if Refers(h, n) then {t} else {};
  }

  /** A node whose parent field and deadness stay put. */
  lemma {:induction false} FieldsSame(ns: Nodes, d: nat, x: Node, n: nat)
    requires d in ns && x.parent == ns[d].parent && (x.phase.Dead? <==> ns[d].phase.Dead?)
    ensures Fields(ns[d := x], n) == Fields(ns, n)
  {
  }

  lemma {:induction false} FieldsAdd(ns: Nodes, i: nat, x: Node, n: nat)
    requires i !in ns && !x.phase.Dead?
    ensures |Fields(ns[i := x], n)| == |Fields(ns, n)| + if x.parent == Some(n) then 1 else 0
  {
    assert i !in Fields(ns, n);
    if x.parent == Some(n) {
      assert Fields(ns[i := x], n) == Fields(ns, n) + {i};
    } else {
      assert Fields(ns[i := x], n) == Fields(ns, n);
    }
  }

  lemma {:induction false} FieldsKill(ns: Nodes, d: nat, n: nat)
    requires d in ns && !ns[d].phase.Dead?
    ensures |Fields(ns[d := ns[d].(phase := Dead)], n)| == |Fields(ns, n)| - if ns[d].parent == Some(n) then 1 else 0
  {
    var ns' := ns[d := ns[d].(phase := Dead)];
    if ns[d].parent == Some(n) {
      assert d in Fields(ns, n);
      assert Fields(ns', n) == Fields(ns, n) - {d};
    } else {
      assert Fields(ns', n) == Fields(ns, n);
    }
  }

  /** Holders that refer to the same nodes count alike. */
  lemma {:induction false} CountSameRefs(ns: Nodes, hs: Holders, hs': Holders)
    requires CountInv(ns, hs) && forall n | n in ns :: Holding(hs', n) == Holding(hs, n)
    ensures CountInv(ns, hs')
  {
    forall n | n in ns
      ensures CountOk(ns, hs', n)
    {
      assert CountOk(ns, hs, n);
    }
  }

  lemma {:induction false} CountBuilder(ns: Nodes, hs: Holders, t: nat, b: Option<nat>)
    requires CountInv(ns, hs) && (t in hs ==> hs[t].Builder?)
    ensures CountInv(ns, hs[t := Builder(b)]) && CountInv(ns, hs - {t})
  {
    forall n | n in ns
      ensures Holding(hs[t := Builder(b)], n) == Holding(hs, n) && Holding(hs - {t}, n) == Holding(hs, n)
    {
    }
    CountSameRefs(ns, hs, hs[t := Builder(b)]);
    CountSameRefs(ns, hs, hs - {t});
  }

  lemma {:induction false} CountRetag(ns: Nodes, hs: Holders, t: nat, h: Holder)
    requires CountInv(ns, hs) && t in hs && !hs[t].Builder? && !h.Builder? && h.node == hs[t].node
    ensures CountInv(ns, hs[t := h])
  {
    forall n | n in ns
      ensures Holding(hs[t := h], n) == Holding(hs, n)
    {
    }
    CountSameRefs(ns, hs, hs[t := h]);
  }

  lemma {:induction false} CountShare(ns: Nodes, hs: Holders, t: nat, h: Holder)
    requires CountInv(ns, hs) && t !in hs && !h.Builder? && h.node in ns && ns[h.node].phase.Live?
    ensures CountInv(ns[h.node := More(ns[h.node])], hs[t := h])
  {
    var ns', hs' := ns[h.node := More(ns[h.node])], hs[t := h];
    forall n | n in ns'
      ensures CountOk(ns', hs', n)
    {
      assert CountOk(ns, hs, n);
      FieldsSame(ns, h.node, More(ns[h.node]), n);
      HoldingAdd(hs, t, h, n);
    }
  }

  lemma {:induction false} CountDrop(ns: Nodes, hs: Holders, t: nat, x: Node)
    requires CountInv(ns, hs) && t in hs && !hs[t].Builder? && hs[t].node in ns
    requires ns[hs[t].node].count > 0
    requires var y := ns[hs[t].node]; x == y.(count := y.count - 1, phase := if y.count == 1 then Dying else Live)
    ensures CountInv(ns[hs[t].node := x], hs - {t})
  {
    var d := hs[t].node;
    var ns', hs' := ns[d := x], hs - {t};
    assert CountOk(ns, hs, d);
    forall n | n in ns'
      ensures CountOk(ns', hs', n)
    {
      assert CountOk(ns, hs, n);
      assert Fields(ns', n) == Fields(ns, n);
      assert Holding(hs', n) == if n == d then Holding(hs, n) - {t} else Holding(hs, n);
      assert n == d ==> t in Holding(hs, n);
    }
  }

  /** Moving on from a zero count changes no count, until the fields are dropped. */
  lemma {:induction false} CountPhase(ns: Nodes, hs: Holders, d: nat, ph: Phase)
    requires CountInv(ns, hs) && d in ns && ns[d].count == 0 && !ph.Live? && !ns[d].phase.Dead?
    requires ph.Dead? ==> ns[d].parent.None?
    ensures CountInv(ns[d := ns[d].(phase := ph)], hs)
  {
    var ns' := ns[d := ns[d].(phase := ph)];
    forall n | n in ns'
      ensures CountOk(ns', hs, n)
    {
      assert CountOk(ns, hs, n);
      assert Fields(ns', n) == Fields(ns, n);
    }
  }

  /** Dropping the fields of a stream or session turns its reference into a guard. */
  lemma {:induction false} CountToGuard(ns: Nodes, hs: Holders, d: nat, t: nat)
    requires CountInv(ns, hs) && d in ns && ns[d].count == 0 && !ns[d].phase.Dead? && ns[d].parent.Some? && t !in hs
    ensures CountInv(ns[d := ns[d].(phase := Dead)], hs[t := Handle(Guard, ns[d].parent.value)])
  {
    var p := ns[d].parent.value;
    var ns', hs' := ns[d := ns[d].(phase := Dead)], hs[t := Handle(Guard, p)];
    forall n | n in ns'
      ensures CountOk(ns', hs', n)
    {
      assert CountOk(ns, hs, n);
      FieldsKill(ns, d, n);
      HoldingAdd(hs, t, Handle(Guard, p), n);
    }
  }

  /** A new node with one reference, held by `t`. */
  lemma {:induction false} CountNewEnv(ns: Nodes, hs: Holders, e: nat, t: nat, b: Option<nat>, r: Role)
    requires CountInv(ns, hs) && e !in ns && (t in hs ==> hs[t].Builder?)
    requires forall u | u in hs :: !Refers(hs[u], e)
    requires forall m | m in ns :: ns[m].parent != Some(e)
    ensures CountInv(ns[e := Node(Env, None, b, 1, Live)], hs[t := Handle(r, e)])
  {
    var ns', hs' := ns[e := Node(Env, None, b, 1, Live)], hs[t := Handle(r, e)];
    forall n | n in ns'
      ensures CountOk(ns', hs', n)
    {
      if n == e {
        assert Holding(hs', e) == {t} && Fields(ns', e) == {};
      } else {
        assert CountOk(ns, hs, n);
        assert Holding(hs', n) == Holding(hs, n) && Fields(ns', n) == Fields(ns, n);
      }
    }
  }

  /** A new stream or session below a live environment. */
  lemma {:induction false} CountOpen(ns: Nodes, hs: Holders, i: nat, t: nat, e: nat, k: Kind, r: Role)
    requires CountInv(ns, hs) && i !in ns && t !in hs && e in ns && ns[e].phase.Live?
    requires forall u | u in hs :: !Refers(hs[u], i)
    requires forall m | m in ns :: ns[m].parent != Some(i)
    ensures CountInv(ns[i := Child(k, e)][e := More(ns[e])], hs[t := Handle(r, i)])
  {
    var ns' := ns[i := Child(k, e)][e := More(ns[e])];
    var hs' := hs[t := Handle(r, i)];
    forall n | n in ns'
      ensures CountOk(ns', hs', n)
    {
      HoldingAdd(hs, t, Handle(r, i), n);
      FieldsAdd(ns, i, Child(k, e), n);
      FieldsSame(ns[i := Child(k, e)], e, More(ns[e]), n);
      if n == i {
        assert Holding(hs, i) == {} && Fields(ns, i) == {};
      } else {
        assert CountOk(ns, hs, n);
      }
    }
  }

  // ── Who is below whom ────────────────────────────────────────────────────────────────

  /** A living object's parent is a live node it keeps referenced, or the logger it owns. */
  lemma {:induction false} ParentIsHeld(s: State, j: nat, i: nat)
    requires Inv(s) && j in s.owner && s.born[j] == Some(i)
    ensures (i in s.nodes && s.nodes[i].phase.Live? && i in s.owner && s.owner[i] == Itself) ||
            (i in s.owner && s.owner[i] == ByEnv(j) && j in s.nodes && Unreleased(s.nodes[j]))
  {
    assert Responsible(s.nodes, s.holders, s.owner[j], j);
    match s.owner[j]
    case Itself =>
      assert NodeOk(s.nodes, s.born, j);
      if s.nodes[j].kind.Env? {
        assert Responsible(s.nodes, s.holders, ByEnv(j), i);
      } else {
        assert j in Fields(s.nodes, i);
        ReferredIsLive(s.nodes, s.holders, i, j);
        assert Responsible(s.nodes, s.holders, Itself, i);
      }
    case ByHolder(t) =>
      assert HolderOk(s.nodes, s.holders[t], s.born);
      assert t in Holding(s.holders, i);
      ReferredIsLive(s.nodes, s.holders, i, t);
      assert Responsible(s.nodes, s.holders, Itself, i);
    case ByEnv(e) =>
  }

  lemma {:induction false} HandleIsAlive(s: State, t: nat)
    requires Inv(s) && t in s.holders && !s.holders[t].Builder?
    ensures var n := s.holders[t].node;
            && n in s.nodes && s.nodes[n].phase.Live? && s.nodes[n].count > 0 && n in s.owner
            && HolderOk(s.nodes, s.holders[t], s.born)
  {
    var n := s.holders[t].node;
    assert HolderOk(s.nodes, s.holders[t], s.born);
    assert t in Holding(s.holders, n);
    ReferredIsLive(s.nodes, s.holders, n, t);
    assert CountOk(s.nodes, s.holders, n);
    assert Responsible(s.nodes, s.holders, Itself, n);
  }

  lemma {:induction false} InvClosed(s: State)
    requires Inv(s)
    ensures Closed(s)
  {
    forall t | t in s.holders && !s.holders[t].Builder?
      ensures s.holders[t].node in s.nodes
    {
      assert HolderOk(s.nodes, s.holders[t], s.born);
    }
  }

  /** Nothing lives below `i`, unless `i` is a live node or the logger of an unreleased one. */
  lemma {:induction false} Childless(s: State, i: nat)
    requires Inv(s) && i in s.owner
    requires i in s.nodes ==> !s.nodes[i].phase.Live?
    requires s.owner[i].ByEnv? && s.owner[i].e in s.nodes ==> !Unreleased(s.nodes[s.owner[i].e])
    ensures forall j | j in s.owner :: s.born[j] != Some(i)
  {
    forall j | j in s.owner
      ensures s.born[j] != Some(i)
    {
      if s.born[j] == Some(i) {
        ParentIsHeld(s, j, i);
      }
    }
  }

  // ── Ownership ────────────────────────────────────────────────────────────────────────

  /** Two views of the same responsibilities. */
  lemma {:induction false} OwnerSame(ns: Nodes, hs: Holders, owner: Owners, ns': Nodes, hs': Holders)
    requires OwnerInv(ns, hs, owner)
    requires forall o, j :: Responsible(ns', hs', o, j) <==> Responsible(ns, hs, o, j)
    ensures OwnerInv(ns', hs', owner)
  {
    forall j | j in owner
      ensures Responsible(ns', hs', owner[j], j)
    {
      assert Responsible(ns, hs, owner[j], j);
    }
  }

  /** One responsibility fewer. */
  lemma {:induction false} OwnerLess(ns: Nodes, hs: Holders, owner: Owners, ns': Nodes, hs': Holders, i: nat)
    requires OwnerInv(ns, hs, owner) && i in owner
    requires forall o, j :: Responsible(ns', hs', o, j) <==> Responsible(ns, hs, o, j) && j != i
    ensures OwnerInv(ns', hs', owner - {i})
  {
    forall j | j in owner - {i}
      ensures Responsible(ns', hs', (owner - {i})[j], j)
    {
      assert Responsible(ns, hs, owner[j], j);
    }
  }

  /** One more, for a new object or taking over an owned one. */
  lemma {:induction false} OwnerMore(ns: Nodes, hs: Holders, owner: Owners, ns': Nodes, hs': Holders, i: nat, o': Owner)
    requires OwnerInv(ns, hs, owner)
    requires forall o, j :: Responsible(ns', hs', o, j) <==> (if j == i then o == o' else Responsible(ns, hs, o, j))
    ensures OwnerInv(ns', hs', owner[i := o'])
  {
    var w := owner[i := o'];
    forall j | j in w
      ensures Responsible(ns', hs', w[j], j)
    {
      assert j != i ==> Responsible(ns, hs, owner[j], j);
    }
  }

  // ── Ownership under single updates ───────────────────────────────────────────────────

  /** A holder that owns nothing. */
  predicate Silent(h: Holder) { h.Handle? || (h.Builder? && h.box.None?) }

  lemma {:induction false} OwnerNode(ns: Nodes, hs: Holders, owner: Owners, d: nat, x: Node)
    requires OwnerInv(ns, hs, owner) && d in ns && x.logger == ns[d].logger
    requires Unreleased(x) == Unreleased(ns[d]) && (x.phase.Dead? <==> ns[d].phase.Dead?)
    ensures OwnerInv(ns[d := x], hs, owner)
  {
    forall o, j
      ensures Responsible(ns[d := x], hs, o, j) <==> Responsible(ns, hs, o, j)
    {
    }
    OwnerSame(ns, hs, owner, ns[d := x], hs);
  }

  lemma {:induction false} OwnerSilent(ns: Nodes, hs: Holders, owner: Owners, t: nat, h: Holder)
    requires OwnerInv(ns, hs, owner) && Silent(h) && (t in hs ==> Silent(hs[t]))
    ensures OwnerInv(ns, hs[t := h], owner) && OwnerInv(ns, hs - {t}, owner)
  {
    forall o, j
      ensures Responsible(ns, hs[t := h], o, j) <==> Responsible(ns, hs, o, j)
      ensures Responsible(ns, hs - {t}, o, j) <==> Responsible(ns, hs, o, j)
    {
    }
    OwnerSame(ns, hs, owner, ns, hs[t := h]);
    OwnerSame(ns, hs, owner, ns, hs - {t});
  }

  /** A holder comes to own a new object. */
  lemma {:induction false} OwnerTake(ns: Nodes, hs: Holders, owner: Owners, t: nat, h: Holder, i: nat)
    requires OwnerInv(ns, hs, owner) && Owns(h, i) && (t in hs ==> Silent(hs[t])) && i !in owner
    ensures OwnerInv(ns, hs[t := h], owner[i := ByHolder(t)])
  {
    forall o, j
      ensures Responsible(ns, hs[t := h], o, j) <==> (if j == i then o == ByHolder(t) else Responsible(ns, hs, o, j))
    {
      assert !Responsible(ns, hs, o, i);
    }
    OwnerMore(ns, hs, owner, ns, hs[t := h], i, ByHolder(t));
  }

  /** A holder gives up the object it owned. */
  lemma {:induction false} OwnerGive(ns: Nodes, hs: Holders, owner: Owners, t: nat, h: Holder, i: nat)
    requires OwnerInv(ns, hs, owner) && t in hs && Owns(hs[t], i) && Silent(h)
    ensures i in owner && owner[i] == ByHolder(t)
    ensures OwnerInv(ns, hs[t := h], owner - {i}) && OwnerInv(ns, hs - {t}, owner - {i})
  {
    assert Responsible(ns, hs, ByHolder(t), i);
    forall o, j
      ensures Responsible(ns, hs[t := h], o, j) <==> Responsible(ns, hs, o, j) && j != i
      ensures Responsible(ns, hs - {t}, o, j) <==> Responsible(ns, hs, o, j) && j != i
    {
      assert Responsible(ns, hs, o, i) ==> o == ByHolder(t);
    }
    OwnerLess(ns, hs, owner, ns, hs[t := h], i);
    OwnerLess(ns, hs, owner, ns, hs - {t}, i);
  }

  lemma {:induction false} OwnerReleased(ns: Nodes, hs: Holders, owner: Owners, d: nat)
    requires OwnerInv(ns, hs, owner) && d in ns && ns[d].phase.Dying?
    ensures d in owner && owner[d] == Itself
    ensures OwnerInv(ns[d := ns[d].(phase := Released)], hs, owner - {d})
  {
    var ns' := ns[d := ns[d].(phase := Released)];
    assert Responsible(ns, hs, Itself, d);
    forall o, j
      ensures Responsible(ns', hs, o, j) <==> Responsible(ns, hs, o, j) && j != d
    {
      assert Responsible(ns, hs, o, d) ==> o == Itself;
    }
    OwnerLess(ns, hs, owner, ns', hs, d);
  }

  lemma {:induction false} OwnerDead(ns: Nodes, hs: Holders, owner: Owners, d: nat)
    requires OwnerInv(ns, hs, owner) && d in ns && ns[d].phase.Released?
    ensures ns[d].logger.None? ==> OwnerInv(ns[d := ns[d].(phase := Dead)], hs, owner)
    ensures ns[d].logger.Some? ==> ns[d].logger.value in owner && owner[ns[d].logger.value] == ByEnv(d)
    ensures ns[d].logger.Some? ==> OwnerInv(ns[d := ns[d].(phase := Dead)], hs, owner - {ns[d].logger.value})
  {
    var ns', b := ns[d := ns[d].(phase := Dead)], ns[d].logger;
    if b.None? {
      forall o, j
        ensures Responsible(ns', hs, o, j) <==> Responsible(ns, hs, o, j)
      {
      }
      OwnerSame(ns, hs, owner, ns', hs);
    } else {
      assert Responsible(ns, hs, ByEnv(d), b.value);
      forall o, j
        ensures Responsible(ns', hs, o, j) <==> Responsible(ns, hs, o, j) && j != b.value
      {
        assert Responsible(ns, hs, o, b.value) ==> o == ByEnv(d);
      }
      OwnerLess(ns, hs, owner, ns', hs, b.value);
    }
  }

  /** A new node, without or with a logger nobody owns. */
  lemma {:induction false} OwnerBorn(ns: Nodes, hs: Holders, owner: Owners, i: nat, y: Node)
    requires OwnerInv(ns, hs, owner) && i !in ns && i !in owner && y.phase.Live? && y.logger.None?
    ensures OwnerInv(ns[i := y], hs, owner[i := Itself])
  {
    forall o, j
      ensures Responsible(ns[i := y], hs, o, j) <==> (if j == i then o == Itself else Responsible(ns, hs, o, j))
    {
      assert !Responsible(ns, hs, o, i);
    }
    OwnerMore(ns, hs, owner, ns[i := y], hs, i, Itself);
  }

  lemma {:induction false} OwnerLogger(ns: Nodes, hs: Holders, owner: Owners, i: nat, y: Node, b: nat)
    requires OwnerInv(ns, hs, owner) && i in ns && ns[i] == y.(logger := None) && y.logger == Some(b) && b !in owner
    requires !y.phase.Dead?
    ensures OwnerInv(ns[i := y], hs, owner[b := ByEnv(i)])
  {
    forall o, j
      ensures Responsible(ns[i := y], hs, o, j) <==> (if j == b then o == ByEnv(i) else Responsible(ns, hs, o, j))
    {
      assert !Responsible(ns, hs, o, b);
    }
    OwnerMore(ns, hs, owner, ns[i := y], hs, b, ByEnv(i));
  }
}
