/** The native-handle lifetime protocol. Environments, streams and sessions are reference
    counted; every handle that needs one of them holds a reference; dropping the last reference
    releases the native object and then drops what that object held. Threads interleave at the
    granularity of the actions below. */
module Lifetime {
  import opened Text

  // ── Native calls, and what makes a sequence of them safe ─────────────────────────────

  /** A native object (or the boxed logger) is created below another one, used, released. */
  datatype Call = Create(id: nat, parent: Option<nat>) | Use(id: nat) | Release(id: nat)

  /** Objects ever created, with the object each was created below, and those still alive. */
  datatype Objects = Objects(born: map<nat, Option<nat>>, alive: set<nat>)

  function Replay(tr: seq<Call>): Objects {
    if tr == [] then Objects(map[], {})
    else
      var o := Replay(tr[..|tr| - 1]);
      match tr[|tr| - 1]
      case Create(i, p) => Objects(o.born[i := p], o.alive + {i})
      case Use(_) => o
      case Release(i) => Objects(o.born, o.alive - {i})
  }

  /** Nothing is created twice or below a dead object, used when dead, released twice, or
      released while something created below it lives. */
  predicate Allowed(o: Objects, c: Call) {
    match c
    case Create(i, p) => i !in o.born && (p.Some? ==> p.value in o.alive)
    case Use(i) => i in o.alive
    case Release(i) => i in o.alive && forall j | j in o.alive :: j in o.born ==> o.born[j] != Some(i)
  }

  predicate SafeTrace(tr: seq<Call>) {
    forall k | 0 <= k < |tr| :: Allowed(Replay(tr[..k]), tr[k])
  }

  lemma {:induction false} SafeSnoc(tr: seq<Call>, c: Call)
    requires SafeTrace(tr) && Allowed(Replay(tr), c)
    ensures SafeTrace(tr + [c])
    ensures Replay(tr + [c]) ==
            var o := Replay(tr);
            match c
            case Create(i, p) => Objects(o.born[i := p], o.alive + {i})
            case Use(_) => o
            case Release(i) => Objects(o.born, o.alive - {i})
  {
    var l := tr + [c];
    assert l[..|tr|] == tr;
    forall k | 0 <= k < |l|
      ensures Allowed(Replay(l[..k]), l[k])
    {
      if k < |tr| {
        assert l[..k] == tr[..k] && l[k] == tr[k];
      } else {
        assert l[..k] == tr;
      }
    }
  }

  // ── State ────────────────────────────────────────────────────────────────────────────

  datatype Kind = Env | Stream | Session

  /** Counted; count reached zero; native release done; fields dropped. */
  datatype Phase = Live | Dying | Released | Dead

  /** A reference-counted inner object: a stream or session keeps a reference to its
      environment, an environment owns its boxed logger. */
  datatype Node = Node(kind: Kind, parent: Option<nat>, logger: Option<nat>, count: nat, phase: Phase)

  datatype Role = Environment | EpDevice | HardwareDevice | SyncStream | SessionRef | Guard

  /** Values held by client code: an environment under construction (with its logger), a counted
      reference, or an owned allocator together with the reference that keeps it usable. */
  datatype Holder =
    | Builder(box: Option<nat>)
    | Handle(role: Role, node: nat)
    | Alloc(alloc: nat, node: nat)

  /** Which drop will release a native object. */
  datatype Owner = Itself | ByHolder(t: nat) | ByEnv(e: nat)

  datatype State = State(nodes: map<nat, Node>, holders: map<nat, Holder>, owner: map<nat, Owner>,
                         born: map<nat, Option<nat>>, next: nat, trace: seq<Call>)

  const INIT := State(map[], map[], map[], map[], 0, [])

  function Above(n: Node): Option<nat> { if n.kind.Env? then n.logger else n.parent }

  function KindOf(r: Role): Option<Kind> {
    match r
    case Environment => Some(Env)
    case EpDevice => Some(Env)
    case HardwareDevice => Some(Env)
    case SyncStream => Some(Stream)
    case SessionRef => Some(Session)
    case Guard => None
  }

  predicate Refers(h: Holder, n: nat) { !h.Builder? && h.node == n }

  /** The references to a node: by holders, and by fields of nodes that still have them. */
  function Holding(hs: map<nat, Holder>, n: nat): set<nat> { set t | t in hs && Refers(hs[t], n) }

  function Fields(ns: map<nat, Node>, n: nat): set<nat> {
    set m | m in ns && ns[m].parent == Some(n) && !ns[m].phase.Dead?
  }

  // ── Building blocks of the actions ───────────────────────────────────────────────────

  function Spawn(s: State, i: nat, p: Option<nat>, o: Owner): State {
    s.(born := s.born[i := p], owner := s.owner[i := o], trace := s.trace + [Create(i, p)])
  }

  function Touch(s: State, i: nat): State { s.(trace := s.trace + [Use(i)]) }

  function FreeNative(s: State, i: nat): State { s.(owner := s.owner - {i}, trace := s.trace + [Release(i)]) }

  function FreeBox(s: State, b: Option<nat>): State { if b.Some? then FreeNative(s, b.value) else s }

  function SetNode(s: State, n: nat, x: Node): State { s.(nodes := s.nodes[n := x]) }

  function SetHolder(s: State, t: nat, h: Holder): State { s.(holders := s.holders[t := h]) }

  function More(x: Node): Node { x.(count := x.count + 1) }

  /** One more reference to `n`, held by the new holder `t`. */
  function Share(s: State, t: nat, h: Holder, n: nat): State
    requires n in s.nodes
  {
    SetHolder(SetNode(s, n, More(s.nodes[n])), t, h)
  }

  /** A new stream or session, with one reference. */
  function Child(k: Kind, e: nat): Node { Node(k, Some(e), None, 1, Live) }

  // ── Actions ──────────────────────────────────────────────────────────────────────────

  datatype Action =
    | NewBuilder
    | SetLogger(t: nat)
    | CreateEnv(t: nat)
    | FailBuild(t: nat)
    | Clone(t: nat)
    | Discover(t: nat, role: Role)
    | OpenStream(t: nat)
    | OpenSession(t: nat)
    | OpenAllocator(t: nat)
    | NativeCall(t: nat)
    | LogCallback(e: nat)
    | ReleaseAllocator(t: nat)
    | DropRef(t: nat)
    | ReleaseNode(n: nat)
    | DropFields(n: nat)

  predicate HasRole(s: State, t: nat, r: Role) {
    t in s.holders && s.holders[t].Handle? && s.holders[t].role == r
  }

  predicate Enabled(s: State, a: Action) {
    match a
    case NewBuilder => true
    case SetLogger(t) => t in s.holders && s.holders[t].Builder?
    case CreateEnv(t) => t in s.holders && s.holders[t].Builder?
    case FailBuild(t) => t in s.holders && s.holders[t].Builder?
    case Clone(t) => t in s.holders && s.holders[t].Handle? && !s.holders[t].role.Guard?
    case Discover(t, r) =>
      || (HasRole(s, t, Environment) && (r.EpDevice? || r.HardwareDevice?))
      || (HasRole(s, t, EpDevice) && r.HardwareDevice?)
    case OpenStream(t) => HasRole(s, t, EpDevice)
    case OpenSession(t) => HasRole(s, t, Environment)
    case OpenAllocator(t) => HasRole(s, t, Environment) || HasRole(s, t, SessionRef)
    case NativeCall(t) => t in s.holders && (s.holders[t].Alloc? || (s.holders[t].Handle? && !s.holders[t].role.Guard?))
    case LogCallback(e) => e in s.owner && e in s.nodes && s.nodes[e].kind.Env? && s.nodes[e].logger.Some?
    case ReleaseAllocator(t) => t in s.holders && s.holders[t].Alloc?
    case DropRef(t) => t in s.holders && s.holders[t].Handle?
    case ReleaseNode(n) => n in s.nodes && s.nodes[n].phase.Dying?
    case DropFields(n) => n in s.nodes && s.nodes[n].phase.Released?
  }

  /** A stream or session below the environment of `t`, and the holder of its first reference. */
  function Open(s: State, t: nat, k: Kind, r: Role): State
    requires t in s.holders && s.holders[t].Handle? && s.holders[t].node in s.nodes
  {
    var e, i := s.holders[t].node, s.next;
    State(s.nodes[i := Child(k, e)][e := More(s.nodes[e])], s.holders[i + 1 := Handle(r, i)],
          s.owner[i := Itself], s.born[i := Some(e)], i + 2, s.trace + [Create(i, Some(e))])
  }

  /** An owned allocator below the environment or session of `t`, with its own reference. */
  function OpenAlloc(s: State, t: nat): State
    requires t in s.holders && s.holders[t].Handle? && s.holders[t].node in s.nodes
  {
    var n, a := s.holders[t].node, s.next;
    State(s.nodes[n := More(s.nodes[n])], s.holders[a + 1 := Alloc(a, n)],
          s.owner[a := ByHolder(a + 1)], s.born[a := Some(n)], a + 2, s.trace + [Create(a, Some(n))])
  }

  /** The native release comes first; the reference is then a guard about to be dropped. */
  function FreeAlloc(s: State, t: nat): State
    requires t in s.holders && s.holders[t].Alloc?
  {
    SetHolder(FreeNative(s, s.holders[t].alloc), t, Handle(Guard, s.holders[t].node))
  }

  /** The fields of a released node: the logger is freed, or the environment reference becomes
      a guard about to be dropped. */
  function Drop(s: State, n: nat): State
    requires n in s.nodes
  {
    var s1 := SetNode(s, n, s.nodes[n].(phase := Dead));
    if s.nodes[n].kind.Env? then FreeBox(s1, s.nodes[n].logger)
    else if s.nodes[n].parent.Some? then
      SetHolder(s1, s.next, Handle(Guard, s.nodes[n].parent.value)).(next := s.next + 1)
    else s1
  }

  /** References never dangle. */
  predicate Closed(s: State) {
    forall t | t in s.holders && !s.holders[t].Builder? :: s.holders[t].node in s.nodes
  }

  function Next(s: State, a: Action): State
    requires Closed(s) && Enabled(s, a)
  {
    match a
    case NewBuilder => SetHolder(s, s.next, Builder(None)).(next := s.next + 1)
    case SetLogger(t) =>
      var s1 := SetHolder(Spawn(s, s.next, None, ByHolder(t)), t, Builder(Some(s.next)));
      FreeBox(s1, s.holders[t].box).(next := s.next + 1)
    case CreateEnv(t) =>
      var b := s.holders[t].box;
      var s1 := SetNode(Spawn(s, s.next, b, Itself), s.next, Node(Env, None, b, 1, Live));
      var s2 := SetHolder(s1, t, Handle(Environment, s.next)).(next := s.next + 1);
      if b.Some? then s2.(owner := s2.owner[b.value := ByEnv(s.next)]) else s2
    case FailBuild(t) => FreeBox(s.(holders := s.holders - {t}), s.holders[t].box)
    case Clone(t) => Share(s, s.next, s.holders[t], s.holders[t].node).(next := s.next + 1)
    case Discover(t, r) =>
      var e := s.holders[t].node;
      Share(Touch(s, e), s.next, Handle(r, e), e).(next := s.next + 1)
    case OpenStream(t) => Open(s, t, Stream, SyncStream)
    case OpenSession(t) => Open(s, t, Session, SessionRef)
    case OpenAllocator(t) => OpenAlloc(s, t)
    case NativeCall(t) => Touch(s, if s.holders[t].Alloc? then s.holders[t].alloc else s.holders[t].node)
    case LogCallback(e) => Touch(s, s.nodes[e].logger.value)
    case ReleaseAllocator(t) => FreeAlloc(s, t)
    case DropRef(t) =>
      var n := s.holders[t].node;
      var c := if s.nodes[n].count > 0 then s.nodes[n].count - 1 else 0;
      SetNode(s.(holders := s.holders - {t}), n, s.nodes[n].(count := c, phase := if c == 0 then Dying else Live))
    case ReleaseNode(n) => SetNode(FreeNative(s, n), n, s.nodes[n].(phase := Released))
    case DropFields(n) => Drop(s, n)
  }

  // ── Invariant ────────────────────────────────────────────────────────────────────────

  type Nodes = map<nat, Node>
  type Holders = map<nat, Holder>

  predicate TraceInv(tr: seq<Call>, born: map<nat, Option<nat>>, owner: map<nat, Owner>) {
    Replay(tr) == Objects(born, owner.Keys) && SafeTrace(tr) && owner.Keys <= born.Keys
  }

  predicate FreshInv(ns: Nodes, hs: Holders, born: map<nat, Option<nat>>, next: nat) {
    (forall i | i in ns :: i < next) && (forall i | i in hs :: i < next) && (forall i | i in born :: i < next)
  }

  predicate NodeOk(ns: Nodes, born: map<nat, Option<nat>>, n: nat)
    requires n in ns
  {
    var x := ns[n];
    && n in born && born[n] == Above(x)
    && (x.kind.Env? ==> x.parent.None?)
    && (!x.kind.Env? ==> x.logger.None? && x.parent.Some? && x.parent.value in ns && ns[x.parent.value].kind.Env?)
  }

  predicate NodesInv(ns: Nodes, born: map<nat, Option<nat>>) {
    forall n | n in ns :: NodeOk(ns, born, n)
  }

  predicate HolderOk(ns: Nodes, h: Holder, born: map<nat, Option<nat>>) {
    match h
    case Builder(_) => true
    case Handle(r, n) => n in ns && (KindOf(r).Some? ==> ns[n].kind == KindOf(r).value)
    case Alloc(a, n) => n in ns && a in born && born[a] == Some(n)
  }

  predicate HoldersInv(ns: Nodes, hs: Holders, born: map<nat, Option<nat>>) {
    forall t | t in hs :: HolderOk(ns, hs[t], born)
  }

  /** The count is the number of references, and only a live node has any. */
  predicate CountOk(ns: Nodes, hs: Holders, n: nat)
    requires n in ns
  {
    && ns[n].count == |Holding(hs, n)| + |Fields(ns, n)|
    && (ns[n].phase.Live? <==> ns[n].count > 0)
  }

  predicate CountInv(ns: Nodes, hs: Holders) {
    forall n | n in ns :: CountOk(ns, hs, n)
  }

  predicate Owns(h: Holder, j: nat) {
    match h
    case Builder(b) => b == Some(j)
    case Handle(_, _) => false
    case Alloc(a, _) => a == j
  }

  predicate Unreleased(x: Node) { x.phase.Live? || x.phase.Dying? }

  /** `o` is responsible for the living native object `j`. */
  predicate Responsible(ns: Nodes, hs: Holders, o: Owner, j: nat) {
    match o
    case Itself => j in ns && Unreleased(ns[j])
    case ByHolder(t) => t in hs && Owns(hs[t], j)
    case ByEnv(e) => e in ns && ns[e].logger == Some(j) && !ns[e].phase.Dead?
  }

  /** Exactly the responsible one is recorded as the owner of each living object. */
  ghost predicate OwnerInv(ns: Nodes, hs: Holders, owner: map<nat, Owner>) {
    && (forall j | j in owner :: Responsible(ns, hs, owner[j], j))
    && (forall o, j | Responsible(ns, hs, o, j) :: j in owner && owner[j] == o)
  }

  /** A logger box lies below nothing. */
  predicate BoxInv(ns: Nodes, hs: Holders, born: map<nat, Option<nat>>) {
    && (forall t | t in hs && hs[t].Builder? && hs[t].box.Some? ::
          hs[t].box.value in born && born[hs[t].box.value].None?)
    && (forall n | n in ns && ns[n].logger.Some? :: ns[n].logger.value in born && born[ns[n].logger.value].None?)
  }

  ghost predicate Inv(s: State) {
    && TraceInv(s.trace, s.born, s.owner) && FreshInv(s.nodes, s.holders, s.born, s.next)
    && NodesInv(s.nodes, s.born) && HoldersInv(s.nodes, s.holders, s.born)
    && CountInv(s.nodes, s.holders) && OwnerInv(s.nodes, s.holders, s.owner) && BoxInv(s.nodes, s.holders, s.born)
  }
}
