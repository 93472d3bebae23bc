/** Discovered devices and the environments they belong to. A device value carries the identity
    of the environment that discovered it; every operation that hands devices to the engine
    checks that identity first. The engine's answers are parameters. */
module Devices {
  import opened Text

  /** Device pointers as the engine reports them; 0 is the null pointer. */
  type Ptr = nat

  datatype EpDevice = EpDevice(ptr: Ptr, env: nat)

  datatype HardwareDevice = HardwareDevice(ptr: Ptr, env: nat)

  datatype Error =
    | NullPointer
    | NoDevice
    | ForeignEnvironment
    | MixedProviders
    | NulByte
    | BadName
    | Native(code: int)
    | UnknownVerdict(value: int)

  datatype Result<+T> = Ok(value: T) | Err(error: Error)

  /** A queued attach; authored devices carry no environment. */
  datatype Attach = Attach(devices: seq<Ptr>, options: seq<(string, string)>, env: Option<nat>)

  /** The native calls that take devices. */
  datatype Call =
    | Append(opts: nat, env: nat, attach: Attach)
    | CreateShared(env: nat, device: Ptr)
    | ReleaseShared(env: nat, device: Ptr)
    | Probe(env: nat, name: string, device: Ptr)
    | Compat(devices: seq<Ptr>, info: string)

  predicate HasNul(s: string) { '\0' in s }

  // ── Provenance ───────────────────────────────────────────────────────────────────────

  /** What discovery reported, per environment, and the devices authored by the client. */
  datatype Provenance = Provenance(eps: set<(nat, Ptr)>, hws: set<(nat, Ptr)>, authored: set<Ptr>)

  predicate Within(p: Provenance, q: Provenance) { p.eps <= q.eps && p.hws <= q.hws && p.authored <= q.authored }

  const NOTHING := Provenance({}, {}, {})

  function Plus(p: Provenance, q: Provenance): Provenance {
    Provenance(p.eps + q.eps, p.hws + q.hws, p.authored + q.authored)
  }

  /** An answer of discovery. */
  function EpsFound(env: nat, ds: seq<Ptr>): Provenance { Provenance(set d | d in ds :: (env, d), {}, {}) }

  function HwsFound(env: nat, ds: seq<Ptr>): Provenance { Provenance({}, set d | d in ds :: (env, d), {}) }

  predicate AllFound(p: Provenance, env: nat, ds: seq<Ptr>) { forall d | d in ds :: (env, d) in p.eps }

  predicate GoodAttach(p: Provenance, a: Attach) {
    if a.env.Some? then AllFound(p, a.env.value, a.devices) else forall d | d in a.devices :: d in p.authored
  }

  /** Session options under construction: the attaches queued so far. */
  predicate GoodQueue(p: Provenance, q: seq<Attach>) { forall a | a in q :: GoodAttach(p, a) }

  predicate SameProvider(names: Ptr -> Result<string>, ds: seq<Ptr>) {
    |ds| > 0 && names(ds[0]).Ok? && forall d | d in ds :: names(d) == names(ds[0])
  }

  /** A discovered device goes to the engine only together with the environment that discovered
      it, and a compatibility query only for devices of one environment and one provider. */
  ghost predicate GoodCall(p: Provenance, names: Ptr -> Result<string>, c: Call) {
    match c
    case Append(_, e, a) => GoodAttach(p, a) && (a.env.Some? ==> a.env.value == e)
    case CreateShared(e, d) => (e, d) in p.eps
    case ReleaseShared(e, d) => (e, d) in p.eps
    case Probe(e, _, d) => (e, d) in p.hws
    case Compat(ds, _) => SameProvider(names, ds) && exists e :: AllFound(p, e, ds)
  }

  lemma {:induction false} ProvenanceGrows(p: Provenance, q: Provenance, names: Ptr -> Result<string>, c: Call)
    requires Within(p, q) && GoodCall(p, names, c)
    ensures GoodCall(q, names, c)
  {
    if c.Compat? {
      var e :| AllFound(p, e, c.devices);
      assert AllFound(q, e, c.devices);
    }
  }

  // ── Pure pieces ──────────────────────────────────────────────────────────────────────

  datatype Compatibility = NotApplicable | SupportedOptimal | SupportedPreferRecompilation | Unsupported

  function FromCode(v: int): Result<Compatibility> {
    if v == 0 then Ok(NotApplicable)
    else if v == 1 then Ok(SupportedOptimal)
    else if v == 2 then Ok(SupportedPreferRecompilation)
    else if v == 3 then Ok(Unsupported)
    else Err(UnknownVerdict(v))
  }

  /** The numbers the engine uses for the verdicts. */
  function Code(c: Compatibility): int {
    match c
    case NotApplicable => 0
    case SupportedOptimal => 1
    case SupportedPreferRecompilation => 2
    case Unsupported => 3
  }

  /** The model can run, at once or after a recompilation. */
  predicate IsSupported(c: Compatibility) { c.SupportedOptimal? || c.SupportedPreferRecompilation? }

  /** Every verdict is read back from its number, any other number is an error that names it, and
      exactly the answers 1 and 2 mean that the model can run. */
  lemma {:induction false} VerdictReadBack(v: int)
    ensures forall c :: FromCode(v) == Ok(c) <==> v == Code(c)
    ensures !(0 <= v <= 3) <==> FromCode(v).Err?
    ensures FromCode(v).Err? ==> FromCode(v).error == UnknownVerdict(v)
    ensures FromCode(v).Ok? && IsSupported(FromCode(v).value) <==> v == 1 || v == 2
    ensures FromCode(v) == Ok(SupportedOptimal) <==> v == 1
    ensures FromCode(v) == Ok(Unsupported) <==> v == 3
  {
    forall c: Compatibility
      ensures FromCode(v) == Ok(c) <==> v == Code(c)
    {
      match c
      case NotApplicable =>
      case SupportedOptimal =>
      case SupportedPreferRecompilation =>
      case Unsupported =>
    }
  }

  function Pointers(ds: seq<EpDevice>): (r: seq<Ptr>)
    ensures |r| == |ds| && forall i | 0 <= i < |ds| :: r[i] == ds[i].ptr
  {
    seq(|ds|, i requires 0 <= i < |ds| => ds[i].ptr)
  }

  /** The first complaint about the devices after the first, in order. */
  function Complaint(names: Ptr -> Result<string>, env: nat, name: string, ds: seq<EpDevice>): Option<Error> {
    if ds == [] then None
    else if ds[0].env != env then Some(ForeignEnvironment)
    else if names(ds[0].ptr).Err? then Some(names(ds[0].ptr).error)
    else if names(ds[0].ptr).value != name then Some(MixedProviders)
    else Complaint(names, env, name, ds[1..])
  }

  predicate NoComplaint(names: Ptr -> Result<string>, ds: seq<EpDevice>) {
    ds != [] && names(ds[0].ptr).Ok? && Complaint(names, ds[0].env, names(ds[0].ptr).value, ds[1..]).None?
  }

  /** Where applying the attaches stops: at the first foreign one or the first one refused. */
  function Stop(env: nat, attaches: seq<Attach>, status: nat -> Option<int>, i: nat): nat
    requires i <= |attaches|
    decreases |attaches| - i
  {
    if i == |attaches| || Foreign(env, attaches[i]) || status(i).Some? then i else Stop(env, attaches, status, i + 1)
  }

  predicate Foreign(env: nat, a: Attach) { a.env.Some? && a.env.value != env }

  /** Everything before the stop is the environment's own and was accepted; the stop itself is
      past the end, foreign or refused. */
  lemma {:induction false} StopIsFirst(env: nat, attaches: seq<Attach>, status: nat -> Option<int>, i: nat)
    requires i <= |attaches|
    ensures var k := Stop(env, attaches, status, i);
            && i <= k <= |attaches|
            && (forall j | i <= j < k :: !Foreign(env, attaches[j]) && status(j).None?)
            && (k < |attaches| ==> Foreign(env, attaches[k]) || status(k).Some?)
    decreases |attaches| - i
  {
    if !(i == |attaches| || Foreign(env, attaches[i]) || status(i).Some?) {
      StopIsFirst(env, attaches, status, i + 1);
    }
  }

  function Appends(opts: nat, env: nat, attaches: seq<Attach>): (r: seq<Call>)
    ensures |r| == |attaches| && forall i | 0 <= i < |attaches| :: r[i] == Append(opts, env, attaches[i])
  {
    seq(|attaches|, i requires 0 <= i < |attaches| => Append(opts, env, attaches[i]))
  }

  /** No complaint means one environment and one provider, and conversely. */
  lemma {:induction false} ComplaintIff(names: Ptr -> Result<string>, env: nat, name: string, ds: seq<EpDevice>)
    ensures Complaint(names, env, name, ds).None? <==>
            forall i | 0 <= i < |ds| :: ds[i].env == env && names(ds[i].ptr) == Ok(name)
  {
    if ds != [] {
      ComplaintIff(names, env, name, ds[1..]);
      forall i | 0 < i < |ds|
        ensures ds[i] == ds[1..][i - 1]
      {
      }
      if forall i | 0 <= i < |ds| :: ds[i].env == env && names(ds[i].ptr) == Ok(name) {
        assert ds[0].env == env;
        forall i | 0 <= i < |ds[1..]|
          ensures ds[1..][i].env == env && names(ds[1..][i].ptr) == Ok(name)
        {
          assert ds[1..][i] == ds[i + 1];
        }
      }
    }
  }

  /** The device is of that environment and has that provider name. */
  predicate Fits(names: Ptr -> Result<string>, env: nat, name: string, d: EpDevice) {
    d.env == env && names(d.ptr) == Ok(name)
  }

  /** The complaint is about the first device that does not fit: its environment if that differs,
      else its unreadable name, else its provider. */
  lemma {:induction false} ComplaintIsFirst(names: Ptr -> Result<string>, env: nat, name: string, ds: seq<EpDevice>,
                                            k: nat)
    requires k < |ds| && (forall i | 0 <= i < k :: Fits(names, env, name, ds[i])) && !Fits(names, env, name, ds[k])
    ensures ds[k].env != env ==> Complaint(names, env, name, ds) == Some(ForeignEnvironment)
    ensures ds[k].env == env && names(ds[k].ptr).Err? ==>
      Complaint(names, env, name, ds) == Some(names(ds[k].ptr).error)
    ensures ds[k].env == env && names(ds[k].ptr).Ok? ==> Complaint(names, env, name, ds) == Some(MixedProviders)
  {
    if k > 0 {
      assert Fits(names, env, name, ds[0]);
      forall i | 0 <= i < k - 1
        ensures Fits(names, env, name, ds[1..][i])
      {
        assert ds[1..][i] == ds[i + 1];
      }
      ComplaintIsFirst(names, env, name, ds[1..], k - 1);
    }
  }

  predicate AnyNul(opts: seq<(string, string)>) { exists o | o in opts :: HasNul(o.0) || HasNul(o.1) }

  /** One environment, one readable provider name, and an info string without NUL. */
  predicate Queried(names: Ptr -> Result<string>, ds: seq<EpDevice>, info: string) {
    && |ds| > 0 && names(ds[0].ptr).Ok? && !HasNul(info)
    && forall d | d in ds :: d.env == ds[0].env && names(d.ptr) == names(ds[0].ptr)
  }

  class Runtime {
    /** The provider name the engine gives for a device, or its decoding error. */
    const names: Ptr -> Result<string>
    ghost var prov: Provenance
    var eps: set<EpDevice>
    var hws: set<HardwareDevice>
    var drafts: set<seq<Attach>>
    var options: map<nat, seq<Attach>>
    var calls: seq<Call>

    /** Every value the client holds names the environment that discovered it, and every call made
        so far was good. */
    ghost predicate Valid()
      reads this
    {
      && (forall d | d in eps :: (d.env, d.ptr) in prov.eps)
      && (forall d | d in hws :: (d.env, d.ptr) in prov.hws)
      && (forall q | q in drafts :: GoodQueue(prov, q))
      && (forall c | c in calls :: GoodCall(prov, names, c))
    }

    constructor (names: Ptr -> Result<string>)
      ensures Valid() && this.names == names && calls == [] && prov == NOTHING
      ensures eps == {} && hws == {} && drafts == {[]} && options == map[]
    {
      this.names := names;
      prov := NOTHING;
      eps, hws, drafts, options, calls := {}, {}, {[]}, map[], [];
    }

    /** Provenance of a discovery call's answer. */
    ghost method Learn(more: Provenance)
      requires Valid()
      modifies this`prov
      ensures Valid() && prov == Plus(old(prov), more)
    {
      var q := Plus(prov, more);
      forall d | d in drafts
        ensures GoodQueue(q, d)
      {
        assert GoodQueue(prov, d);
      }
      forall c | c in calls
        ensures GoodCall(q, names, c)
      {
        ProvenanceGrows(prov, q, names, c);
      }
      prov := q;
    }

    // ── Discovery ──────────────────────────────────────────────────────────────────────

    /** All devices of `env`, or an error when the engine fails or reports a null pointer. */
    method GetEpDevices(env: nat, answer: Result<seq<Ptr>>) returns (r: Result<seq<EpDevice>>)
      requires Valid()
      modifies this`prov, this`eps
      ensures Valid() && Within(old(prov), prov)
      ensures prov == Plus(old(prov), if answer.Ok? then EpsFound(env, answer.value) else NOTHING)
      ensures answer.Err? ==> r == Err(answer.error)
      ensures answer.Ok? && 0 in answer.value ==> r == Err(NullPointer)
      ensures answer.Ok? && 0 !in answer.value ==> r.Ok? && |r.value| == |answer.value|
      ensures r.Ok? ==> forall i | 0 <= i < |r.value| :: r.value[i] == EpDevice(answer.value[i], env)
      ensures r.Ok? ==> eps == old(eps) + (set d | d in r.value)
      ensures r.Err? ==> eps == old(eps)
    {
      if answer.Err? {
        return Err(answer.error);
      }
      var ptrs := answer.value;
      Learn(EpsFound(env, ptrs));
      var out: seq<EpDevice>, i := [], 0;
      while i < |ptrs|
        invariant 0 <= i <= |ptrs| && |out| == i && 0 !in ptrs[..i]
        invariant forall j | 0 <= j < i :: out[j] == EpDevice(ptrs[j], env)
      {
        if ptrs[i] == 0 {
          return Err(NullPointer);
        }
        out := out + [EpDevice(ptrs[i], env)];
        i := i + 1;
      }
      assert ptrs[..i] == ptrs;
      eps := eps + set d | d in out;
      r := Ok(out);
    }

    /** The same for hardware devices: a count first, then as many pointers. */
    method HardwareDevices(env: nat, count: Result<nat>, answer: nat -> Result<seq<Ptr>>)
      returns (r: Result<seq<HardwareDevice>>)
      requires Valid()
      requires forall n :: answer(n).Ok? ==> |answer(n).value| == n
      modifies this`prov, this`hws
      ensures Valid() && Within(old(prov), prov)
      ensures prov == Plus(old(prov), if count.Ok? && count.value > 0 && answer(count.value).Ok?
                                      then HwsFound(env, answer(count.value).value) else NOTHING)
      ensures count.Err? ==> r == Err(count.error)
      ensures count == Ok(0) ==> r == Ok([])
      ensures r.Ok? ==> count.Ok? && |r.value| == count.value
      ensures r.Ok? && count.value > 0 ==> answer(count.value).Ok? && forall i | 0 <= i < count.value ::
        answer(count.value).value[i] != 0 && r.value[i] == HardwareDevice(answer(count.value).value[i], env)
      ensures count.Ok? && count.value > 0 && answer(count.value).Ok? ==>
        (r.Ok? <==> 0 !in answer(count.value).value) && (r.Err? ==> r == Err(NullPointer))
      ensures count.Ok? && count.value > 0 && answer(count.value).Err? ==> r == Err(answer(count.value).error)
      ensures r.Ok? ==> hws == old(hws) + (set d | d in r.value)
      ensures r.Err? ==> hws == old(hws)
    {
      if count.Err? {
        return Err(count.error);
      }
      if count.value == 0 {
        return Ok([]);
      }
      if answer(count.value).Err? {
        return Err(answer(count.value).error);
      }
      var ptrs := answer(count.value).value;
      Learn(HwsFound(env, ptrs));
      var out: seq<HardwareDevice>, i := [], 0;
      while i < |ptrs|
        invariant 0 <= i <= |ptrs| && |out| == i && 0 !in ptrs[..i]
        invariant forall j | 0 <= j < i :: out[j] == HardwareDevice(ptrs[j], env)
      {
        if ptrs[i] == 0 {
          return Err(NullPointer);
        }
        out := out + [HardwareDevice(ptrs[i], env)];
        i := i + 1;
      }
      assert ptrs[..i] == ptrs;
      hws := hws + set d | d in out;
      r := Ok(out);
    }

    /** The hardware below a discovered device belongs to the same environment. */
    method Device(d: EpDevice, answer: Ptr) returns (r: Result<HardwareDevice>)
      requires Valid() && d in eps
      modifies this`prov, this`hws
      ensures Valid() && Within(old(prov), prov)
      ensures prov == Plus(old(prov), if answer == 0 then NOTHING else HwsFound(d.env, [answer]))
      ensures r == if answer == 0 then Err(NullPointer) else Ok(HardwareDevice(answer, d.env))
      ensures hws == old(hws) + if r.Ok? then {r.value} else {}
    {
      if answer == 0 {
        return Err(NullPointer);
      }
      Learn(HwsFound(d.env, [answer]));
      hws := hws + {HardwareDevice(answer, d.env)};
      r := Ok(HardwareDevice(answer, d.env));
    }

    // ── One device, one environment ────────────────────────────────────────────────────

    method CreateSharedAllocator(env: nat, d: EpDevice, answer: Result<Ptr>) returns (r: Result<Ptr>)
      requires Valid() && d in eps
      modifies this`calls
      ensures Valid()
      ensures d.env != env ==> r == Err(ForeignEnvironment) && calls == old(calls)
      ensures d.env == env ==> calls == old(calls) + [CreateShared(env, d.ptr)] &&
                               r == if answer == Ok(0) then Err(NullPointer) else answer
    {
      if d.env != env {
        return Err(ForeignEnvironment);
      }
      calls := calls + [CreateShared(env, d.ptr)];
      r := if answer == Ok(0) then Err(NullPointer) else answer;
    }

    method ReleaseSharedAllocator(env: nat, d: EpDevice, answer: Result<()>) returns (r: Result<()>)
      requires Valid() && d in eps
      modifies this`calls
      ensures Valid()
      ensures d.env != env ==> r == Err(ForeignEnvironment) && calls == old(calls)
      ensures d.env == env ==> r == answer && calls == old(calls) + [ReleaseShared(env, d.ptr)]
    {
      if d.env != env {
        return Err(ForeignEnvironment);
      }
      calls := calls + [ReleaseShared(env, d.ptr)];
      r := answer;
    }

    method IncompatibilityDetails(env: nat, name: string, d: HardwareDevice, answer: Result<Ptr>)
      returns (r: Result<Option<Ptr>>)
      requires Valid() && d in hws
      modifies this`calls
      ensures Valid()
      ensures d.env != env ==> r == Err(ForeignEnvironment)
      ensures d.env == env && HasNul(name) ==> r == Err(NulByte)
      ensures d.env == env && !HasNul(name) && answer.Ok? ==>
        r == Ok(if answer.value == 0 then None else Some(answer.value))
      ensures d.env == env && !HasNul(name) && answer.Err? ==> r == Err(answer.error)
      ensures calls == old(calls) + if d.env == env && !HasNul(name) then [Probe(env, name, d.ptr)] else []
    {
      if d.env != env {
        return Err(ForeignEnvironment);
      }
      if HasNul(name) {
        return Err(NulByte);
      }
      calls := calls + [Probe(env, name, d.ptr)];
      if answer.Err? {
        return Err(answer.error);
      }
      r := Ok(if answer.value == 0 then None else Some(answer.value));
    }

    // ── Several devices ────────────────────────────────────────────────────────────────

    /** Queueing succeeds exactly for devices of one environment and one provider, with options the
        engine can read; the pointers are queued in order together with that environment. */
    method AppendDevices(draft: seq<Attach>, ds: seq<EpDevice>, opts: seq<(string, string)>)
      returns (r: Result<seq<Attach>>)
      requires Valid() && draft in drafts && forall d | d in ds :: d in eps
      modifies this`drafts
      ensures Valid()
      ensures r.Ok? <==>
        !AnyNul(opts) && |ds| > 0 && (forall d | d in ds :: d.env == ds[0].env) && SameProvider(names, Pointers(ds))
      ensures r.Ok? ==> r.value == draft + [Attach(Pointers(ds), opts, Some(ds[0].env))]
      ensures AnyNul(opts) ==> r == Err(NulByte)
      ensures !AnyNul(opts) && ds == [] ==> r == Err(NoDevice)
      ensures !AnyNul(opts) && ds != [] && (exists d | d in ds :: d.env != ds[0].env) ==> r == Err(ForeignEnvironment)
      ensures !AnyNul(opts) && ds != [] && (forall d | d in ds :: d.env == ds[0].env) ==>
        if names(ds[0].ptr).Err? then r == Err(names(ds[0].ptr).error)
        else
          var c := Complaint(names, ds[0].env, names(ds[0].ptr).value, ds[1..]);
          c.Some? ==> r == Err(c.value)
      ensures drafts == old(drafts) + if r.Ok? then {r.value} else {}
    {
      if AnyNul(opts) {
        return Err(NulByte);
      }
      if |ds| == 0 {
        return Err(NoDevice);
      }
      var env, ps := ds[0].env, Pointers(ds);
      var i := 0;
      while i < |ds|
        invariant 0 <= i <= |ds| && forall j | 0 <= j < i :: ds[j].env == env
      {
        if ds[i].env != env {
          return Err(ForeignEnvironment);
        }
        i := i + 1;
      }
      if names(ps[0]).Err? {
        return Err(names(ps[0]).error);
      }
      ghost var name := names(ps[0]).value;
      i := 1;
      while i < |ds|
        invariant 1 <= i <= |ds| && forall j | 0 <= j < i :: names(ps[j]) == names(ps[0])
        invariant Complaint(names, env, name, ds[1..]) == Complaint(names, env, name, ds[i..])
      {
        assert ds[i..][1..] == ds[i + 1..] && ds[i] in ds;
        if names(ds[i].ptr).Err? {
          assert names(ps[i]) != names(ps[0]);
          return Err(names(ds[i].ptr).error);
        }
        if names(ds[i].ptr) != names(ps[0]) {
          assert names(ps[i]) != names(ps[0]);
          return Err(MixedProviders);
        }
        i := i + 1;
      }
      var a := Attach(ps, opts, Some(env));
      assert GoodQueue(prov, draft) && GoodAttach(prov, a);
      drafts := drafts + {draft + [a]};
      r := Ok(draft + [a]);
    }

    /** An authored device is queued without an environment. */
    method AppendAuthored(draft: seq<Attach>, device: Ptr, opts: seq<(string, string)>) returns (r: Result<seq<Attach>>)
      requires Valid() && draft in drafts
      modifies this`drafts, this`prov
      ensures Valid() && Within(old(prov), prov)
      ensures prov == Plus(old(prov), if AnyNul(opts) then NOTHING else Provenance({}, {}, {device}))
      ensures r == if AnyNul(opts) then Err(NulByte) else Ok(draft + [Attach([device], opts, None)])
      ensures drafts == old(drafts) + if r.Ok? then {r.value} else {}
    {
      if AnyNul(opts) {
        return Err(NulByte);
      }
      Learn(Provenance({}, {}, {device}));
      var a := Attach([device], opts, None);
      assert GoodQueue(prov, draft) && GoodAttach(prov, a);
      drafts := drafts + {draft + [a]};
      r := Ok(draft + [a]);
    }

    /** Applying stops at the first foreign or refused attach. Exactly the ones before it are then in
        the native options; a foreign one never reaches the engine, a refused one does. */
    method ApplyDeviceAttach(env: nat, opts: nat, attaches: seq<Attach>, status: nat -> Option<int>)
      returns (r: Result<()>)
      requires Valid() && attaches in drafts && opts in options
      modifies this`calls, this`options
      ensures Valid()
      ensures var k := Stop(env, attaches, status, 0);
              && k <= |attaches|
              && options == old(options)[opts := old(options)[opts] + attaches[..k]]
              && (r.Ok? <==> k == |attaches|)
              && (k < |attaches| && Foreign(env, attaches[k]) ==> r == Err(ForeignEnvironment))
              && (k < |attaches| && !Foreign(env, attaches[k]) ==> status(k).Some? && r == Err(Native(status(k).value)))
              && calls == old(calls) + Appends(opts, env, attaches[..if r.Err? && r.error.Native? then k + 1 else k])
    {
      StopIsFirst(env, attaches, status, 0);
      ghost var before := calls;
      assert GoodQueue(prov, attaches);
      var i := 0;
      ghost var was := options;
      while i < |attaches|
        invariant 0 <= i <= |attaches| && Stop(env, attaches, status, i) == Stop(env, attaches, status, 0)
        invariant options.Keys == was.Keys && options[opts] == was[opts] + attaches[..i]
        invariant options == was[opts := options[opts]]
        invariant calls == before + Appends(opts, env, attaches[..i])
        invariant forall c | c in calls :: GoodCall(prov, names, c)
      {
        if Foreign(env, attaches[i]) {
          return Err(ForeignEnvironment);
        }
        calls := calls + [Append(opts, env, attaches[i])];
        assert attaches[..i + 1] == attaches[..i] + [attaches[i]];
        assert Appends(opts, env, attaches[..i + 1]) ==
               Appends(opts, env, attaches[..i]) + [Append(opts, env, attaches[i])];
        if status(i).Some? {
          return Err(Native(status(i).value));
        }
        options := options[opts := options[opts] + [attaches[i]]];
        i := i + 1;
      }
      r := Ok(());
    }

    /** A query goes out exactly when the devices are of one environment and one provider and the
        info string can be passed; otherwise the first complaint in order is returned. */
    method CompatibilityForEpDevices(ds: seq<EpDevice>, info: string, answer: Result<int>)
      returns (r: Result<Compatibility>)
      requires Valid() && forall d | d in ds :: d in eps
      modifies this`calls
      ensures Valid()
      ensures ds == [] ==> r == Err(NoDevice)
      ensures ds != [] && names(ds[0].ptr).Err? ==> r == Err(names(ds[0].ptr).error)
      ensures ds != [] && names(ds[0].ptr).Ok? && Complaint(names, ds[0].env, names(ds[0].ptr).value, ds[1..]).Some? ==>
        r == Err(Complaint(names, ds[0].env, names(ds[0].ptr).value, ds[1..]).value)
      ensures NoComplaint(names, ds) && HasNul(info) ==> r == Err(NulByte)
      ensures Queried(names, ds, info) && answer.Ok? ==> forall c :: r == Ok(c) <==> answer.value == Code(c)
      ensures Queried(names, ds, info) && answer.Ok? && !(0 <= answer.value <= 3) ==>
        r == Err(UnknownVerdict(answer.value))
      ensures Queried(names, ds, info) && answer.Err? ==> r == Err(answer.error)
      ensures calls == old(calls) + if Queried(names, ds, info) then [Compat(Pointers(ds), info)] else []
    {
      if |ds| == 0 {
        return Err(NoDevice);
      }
      var first := ds[0];
      if names(first.ptr).Err? {
        return Err(names(first.ptr).error);
      }
      var name := names(first.ptr).value;
      var i := 1;
      while i < |ds|
        invariant 1 <= i <= |ds|
        invariant forall j | 0 <= j < i :: ds[j].env == first.env && names(ds[j].ptr) == Ok(name)
        invariant Complaint(names, first.env, name, ds[1..]) == Complaint(names, first.env, name, ds[i..])
      {
        if ds[i].env != first.env {
          return Err(ForeignEnvironment);
        }
        if names(ds[i].ptr).Err? {
          return Err(names(ds[i].ptr).error);
        }
        if names(ds[i].ptr).value != name {
          return Err(MixedProviders);
        }
        assert ds[i..][1..] == ds[i + 1..];
        i := i + 1;
      }
      if HasNul(info) {
        return Err(NulByte);
      }
      assert AllFound(prov, first.env, Pointers(ds));
      calls := calls + [Compat(Pointers(ds), info)];
      if answer.Err? {
        return Err(answer.error);
      }
      VerdictReadBack(answer.value);
      r := FromCode(answer.value);
    }

    /** A session's native options hold the whole queue, or the handle is gone again. The stream
        guards are validated first, before there is a handle. */
    method BuildSessionOptions(env: nat, draft: seq<Attach>, guards: Result<()>, handle: Result<nat>,
                               status: nat -> Option<int>, late: Option<int>)
      returns (r: Result<nat>)
      requires Valid() && draft in drafts && (handle.Ok? ==> handle.value !in options)
      modifies this`calls, this`options
      ensures Valid()
      ensures r.Ok? <==> guards.Ok? && handle.Ok? && late.None? && Stop(env, draft, status, 0) == |draft|
      ensures guards.Err? ==> r == Err(guards.error) && calls == old(calls)
      ensures guards.Ok? && handle.Err? ==> r == Err(handle.error) && calls == old(calls)
      ensures r.Ok? ==> r == handle && options == old(options)[handle.value := draft]
      ensures r.Err? ==> options == old(options)
      ensures r.Ok? ==> forall a | a in draft :: !Foreign(env, a)
      ensures var k := Stop(env, draft, status, 0);
              guards.Ok? && handle.Ok? ==>
                && k <= |draft|
                && (k == |draft| && late.Some? ==> r == Err(Native(late.value)))
                && (k < |draft| && Foreign(env, draft[k]) ==> r == Err(ForeignEnvironment))
                && (k < |draft| && !Foreign(env, draft[k]) ==> status(k).Some? && r == Err(Native(status(k).value)))
                && (k == |draft| || Foreign(env, draft[k]) ==>
                    calls == old(calls) + Appends(handle.value, env, draft[..k]))
                && (k < |draft| && !Foreign(env, draft[k]) ==>
                    calls == old(calls) + Appends(handle.value, env, draft[..k + 1]))
    {
      if guards.Err? {
        return Err(guards.error);
      }
      if handle.Err? {
        return Err(handle.error);
      }
      var h := handle.value;
      options := options[h := []];
      var applied := ApplyDeviceAttach(env, h, draft, status);
      StopIsFirst(env, draft, status, 0);
      if applied.Err? {
        r := Err(applied.error);
      } else if late.Some? {
        r := Err(Native(late.value));
      } else {
        assert [] + draft[..|draft|] == draft;
        r := Ok(h);
      }
      if r.Err? {
        options := options - {h};
      }
    }
  }

  // ── Any sequence of requests ─────────────────────────────────────────────────────────

  datatype Request =
    | DiscoverEp(env: nat, found: Result<seq<Ptr>>)
    | DiscoverHw(env: nat, count: Result<nat>, hw: Result<seq<Ptr>>)
    | Hardware(d: EpDevice, below: Ptr)
    | CreateAllocator(env: nat, d: EpDevice, handle: Result<Ptr>)
    | ReleaseAllocator(env: nat, d: EpDevice, done: Result<()>)
    | Explain(env: nat, name: string, h: HardwareDevice, handle: Result<Ptr>)
    | Queue(draft: seq<Attach>, ds: seq<EpDevice>, opts: seq<(string, string)>)
    | QueueAuthored(draft: seq<Attach>, device: Ptr, opts: seq<(string, string)>)
    | Build(env: nat, draft: seq<Attach>, guards: Result<()>, handle: Result<nat>, status: nat -> Option<int>,
            late: Option<int>)
    | Compare(ds: seq<EpDevice>, info: string, verdict: Result<int>)

  /** What a request can tell about where devices come from. */
  function Told(q: Request): Provenance {
    match q
    case DiscoverEp(env, found) => if found.Ok? then EpsFound(env, found.value) else NOTHING
    case DiscoverHw(env, _, hw) => if hw.Ok? then HwsFound(env, hw.value) else NOTHING
    case Hardware(d, below) => HwsFound(d.env, [below])
    case QueueAuthored(_, device, _) => Provenance({}, {}, {device})
    case _ => NOTHING
  }

  /** Everything known was told by one of the requests. */
  predicate AllTold(p: Provenance, qs: seq<Request>) {
    && (forall x | x in p.eps :: exists i | 0 <= i < |qs| :: x in Told(qs[i]).eps)
    && (forall x | x in p.hws :: exists i | 0 <= i < |qs| :: x in Told(qs[i]).hws)
    && (forall x | x in p.authored :: exists i | 0 <= i < |qs| :: x in Told(qs[i]).authored)
  }

  lemma {:induction false} ToldOneMore(p: Provenance, q: Provenance, qs: seq<Request>, n: nat)
    requires n < |qs| && AllTold(p, qs[..n]) && Within(q, Plus(p, Told(qs[n])))
    ensures AllTold(q, qs[..n + 1])
  {
    assert qs[..n + 1][n] == qs[n] && forall i | 0 <= i < n :: qs[..n + 1][i] == qs[..n][i];
  }

  /** One request of a client, which can only name values it was given. */
  method Serve(rt: Runtime, q: Request)
    requires rt.Valid()
    modifies rt
    ensures rt.Valid() && Within(rt.prov, Plus(old(rt.prov), Told(q)))
  {
    match q
    case DiscoverEp(env, found) => var _ := rt.GetEpDevices(env, found);
    case DiscoverHw(env, count, hw) =>
      var _ := rt.HardwareDevices(env, count, n => if hw.Ok? && |hw.value| == n then hw else Err(Native(0)));
    case Hardware(d, below) => if d in rt.eps { var _ := rt.Device(d, below); }
    case CreateAllocator(env, d, handle) => if d in rt.eps { var _ := rt.CreateSharedAllocator(env, d, handle); }
    case ReleaseAllocator(env, d, done) => if d in rt.eps { var _ := rt.ReleaseSharedAllocator(env, d, done); }
    case Explain(env, name, h, handle) => if h in rt.hws { var _ := rt.IncompatibilityDetails(env, name, h, handle); }
    case Queue(draft, ds, opts) =>
      if draft in rt.drafts && forall d | d in ds :: d in rt.eps { var _ := rt.AppendDevices(draft, ds, opts); }
    case QueueAuthored(draft, device, opts) =>
      if draft in rt.drafts { var _ := rt.AppendAuthored(draft, device, opts); }
    case Build(env, draft, guards, handle, status, late) =>
      if draft in rt.drafts && (handle.Ok? ==> handle.value !in rt.options) {
        var _ := rt.BuildSessionOptions(env, draft, guards, handle, status, late);
      }
    case Compare(ds, info, verdict) =>
      if forall d | d in ds :: d in rt.eps { var _ := rt.CompatibilityForEpDevices(ds, info, verdict); }
  }

  /** Whatever a client asks, in whatever order and whatever the engine answers: every native call
      made paired devices only with the environment that discovered them, in one of the requests. */
  method ServeAll(names: Ptr -> Result<string>, qs: seq<Request>) returns (rt: Runtime)
    ensures forall c | c in rt.calls :: GoodCall(rt.prov, names, c)
    ensures AllTold(rt.prov, qs)
  {
    rt := new Runtime(names);
    for i := 0 to |qs|
      invariant rt.Valid() && rt.names == names && fresh(rt) && AllTold(rt.prov, qs[..i])
    {
      ghost var before := rt.prov;
      Serve(rt, qs[i]);
      ToldOneMore(before, rt.prov, qs, i);
    }
    assert qs[..|qs|] == qs;
  }
}
