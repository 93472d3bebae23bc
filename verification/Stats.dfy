/** Snapshots of allocator counters and their differences. */
module Stats {
  import opened Text

  /** A snapshot: counters as the engine reports them, in its order. */
  type Snapshot = seq<(string, string)>

  type Delta = seq<(string, int)>

  function Get(s: Snapshot, key: string): Option<string> {
    if s == [] then None else if s[0].0 == key then Some(s[0].1) else Get(s[1..], key)
  }

  function GetDelta(d: Delta, key: string): Option<int> {
    if d == [] then None else if d[0].0 == key then Some(d[0].1) else GetDelta(d[1..], key)
  }

  /** Changed integer counters present in both, in the order of `before`. */
  function Diff(parse: string -> Option<int>, before: Snapshot, after: Snapshot): Delta {
    if before == [] then []
    else
      var rest := Diff(parse, before[1..], after);
      match Counter(parse, [before[0]], after, before[0].0)
      case None => rest
      case Some(x) => if x == 0 then rest else [(before[0].0, x)] + rest
  }

  /** The change of one counter that both snapshots hold as an integer. */
  function Counter(parse: string -> Option<int>, before: Snapshot, after: Snapshot, key: string): Option<int> {
    match (Value(parse, before, key), Value(parse, after, key))
    case (Some(x), Some(y)) => Some(y - x)
    case _ => None
  }

  function Value(parse: string -> Option<int>, s: Snapshot, key: string): Option<int> {
    match Get(s, key)
    case None => None
    case Some(v) => parse(v)
  }

  predicate Unique(s: Snapshot) { forall i, j | 0 <= i < j < |s| :: s[i].0 != s[j].0 }

  function Or0(o: Option<int>): int { if o.Some? then o.value else 0 }

  /** A key that is there several times counts as its first entry. */
  lemma {:induction false} GetIsFirst(s: Snapshot, i: nat)
    requires i < |s| && forall j | 0 <= j < i :: s[j].0 != s[i].0
    ensures Get(s, s[i].0) == Some(s[i].1)
  {
    if i > 0 {
      assert s[1..][i - 1] == s[i];
      GetIsFirst(s[1..], i - 1);
    }
  }

  lemma {:induction false} GetAbsent(s: Snapshot, key: string)
    requires forall i | 0 <= i < |s| :: s[i].0 != key
    ensures Get(s, key).None?
  {
    if s != [] {
      GetAbsent(s[1..], key);
    }
  }

  lemma {:induction false} DiffKeys(parse: string -> Option<int>, before: Snapshot, after: Snapshot, key: string)
    requires Get(before, key).None?
    ensures GetDelta(Diff(parse, before, after), key).None?
  {
    if before != [] {
      DiffKeys(parse, before[1..], after, key);
    }
  }

  /** With unique keys, looking a key up in the difference gives the change of that counter, and
      nothing for a counter that did not change or is not an integer in both. */
  lemma {:induction false} DiffIsChange(parse: string -> Option<int>, before: Snapshot, after: Snapshot, key: string)
    requires Unique(before)
    ensures GetDelta(Diff(parse, before, after), key) ==
            match Counter(parse, before, after, key)
            case Some(x) => if x == 0 then None else Some(x)
            case None => None
  {
    if before != [] {
      var rest := before[1..];
      forall i, j | 0 <= i < j < |rest|
        ensures rest[i].0 != rest[j].0
      {
        assert rest[i] == before[i + 1] && rest[j] == before[j + 1];
      }
      if before[0].0 == key {
        GetAbsent(rest, key);
        DiffKeys(parse, rest, after, key);
      } else {
        DiffIsChange(parse, rest, after, key);
      }
    }
  }

  /** Duplicates or not: the difference of a snapshot is that of its parts, in order, and one counter
      contributes its change if both readings are integers and differ, and nothing otherwise. */
  lemma {:induction false} DiffInOrder(parse: string -> Option<int>, a: Snapshot, k: string, v: string, b: Snapshot,
                                       after: Snapshot)
    ensures Diff(parse, a + [(k, v)] + b, after) ==
            Diff(parse, a, after) + Diff(parse, [(k, v)], after) + Diff(parse, b, after)
    ensures (exists x, y :: parse(v) == Some(x) && Value(parse, after, k) == Some(y) && x != y &&
                            Diff(parse, [(k, v)], after) == [(k, y - x)]) ||
            ((parse(v).None? || Value(parse, after, k).None? || parse(v) == Value(parse, after, k)) &&
             Diff(parse, [(k, v)], after) == [])
  {
    DiffAppend(parse, a + [(k, v)], b, after);
    DiffAppend(parse, a, [(k, v)], after);
    assert [(k, v)][1..] == [];
    assert Value(parse, [(k, v)], k) == parse(v);
    var d := Diff(parse, [(k, v)], after);
    if parse(v).Some? && Value(parse, after, k).Some? && parse(v) != Value(parse, after, k) {
      assert d == [(k, Value(parse, after, k).value - parse(v).value)];
    } else {
      assert d == [];
    }
  }

  lemma {:induction false} DiffAppend(parse: string -> Option<int>, a: Snapshot, b: Snapshot, after: Snapshot)
    ensures Diff(parse, a + b, after) == Diff(parse, a, after) + Diff(parse, b, after)
  {
    if a == [] {
      assert a + b == b;
    } else {
      assert (a + b)[1..] == a[1..] + b;
      DiffAppend(parse, a[1..], b, after);
    }
  }

  /** Swapping the snapshots negates every change. */
  lemma {:induction false} SwapNegates(parse: string -> Option<int>, a: Snapshot, b: Snapshot, key: string)
    requires Unique(a) && Unique(b)
    ensures Or0(GetDelta(Diff(parse, a, b), key)) == -Or0(GetDelta(Diff(parse, b, a), key))
    ensures GetDelta(Diff(parse, a, b), key).Some? <==> GetDelta(Diff(parse, b, a), key).Some?
  {
    DiffIsChange(parse, a, b, key);
    DiffIsChange(parse, b, a, key);
  }

  /** The sum of the successive changes of one counter. */
  function Total(parse: string -> Option<int>, ss: seq<Snapshot>, key: string): int {
    if |ss| <= 1 then 0 else Or0(GetDelta(Diff(parse, ss[0], ss[1]), key)) + Total(parse, ss[1..], key)
  }

  /** Successive differences telescope to the difference of the first and the last snapshot. */
  lemma {:induction false} Telescope(parse: string -> Option<int>, ss: seq<Snapshot>, key: string)
    requires |ss| > 0 && forall s | s in ss :: Unique(s) && Value(parse, s, key).Some?
    ensures Total(parse, ss, key) == Or0(GetDelta(Diff(parse, ss[0], ss[|ss| - 1]), key))
  {
    var a, z := ss[0], ss[|ss| - 1];
    DiffIsChange(parse, a, z, key);
    if |ss| > 1 {
      Telescope(parse, ss[1..], key);
      DiffIsChange(parse, a, ss[1], key);
      DiffIsChange(parse, ss[1], z, key);
    }
  }

  /** The counter in each snapshot. */
  function Values(parse: string -> Option<int>, ss: seq<Snapshot>, key: string): (r: seq<Option<int>>)
    ensures |r| == |ss| && forall i | 0 <= i < |ss| :: r[i] == Value(parse, ss[i], key)
  {
    if ss == [] then [] else [Value(parse, ss[0], key)] + Values(parse, ss[1..], key)
  }

  /** Changes between neighbours that both have the counter. */
  function Steps(vs: seq<Option<int>>): int {
    if |vs| <= 1 then 0
    else (if vs[0].Some? && vs[1].Some? then vs[1].value - vs[0].value else 0) + Steps(vs[1..])
  }

  /** What happens while the counter is missing: over every such stretch, the value behind it minus
      the last one known before it. */
  function Lost(vs: seq<Option<int>>, known: int, missing: bool): int {
    if vs == [] then 0
    else if vs[0].None? then Lost(vs[1..], known, true)
    else (if missing then vs[0].value - known else 0) + Lost(vs[1..], vs[0].value, false)
  }

  lemma {:induction false} StepsCons(p: Option<int>, vs: seq<Option<int>>)
    requires vs != []
    ensures Steps([p] + vs) == (if p.Some? && vs[0].Some? then vs[0].value - p.value else 0) + Steps(vs)
  {
    assert ([p] + vs)[1..] == vs;
  }

  /** The whole change is the visible part plus the lost part. */
  lemma {:induction false} Conservation(vs: seq<Option<int>>, known: int, missing: bool)
    requires vs != [] && vs[|vs| - 1].Some?
    ensures vs[|vs| - 1].value - known ==
            Steps([if missing then None else Some(known)] + vs) + Lost(vs, known, missing)
  {
    var rest := vs[1..];
    StepsCons(if missing then None else Some(known), vs);
    if rest != [] {
      assert rest[|rest| - 1] == vs[|vs| - 1];
      assert vs == [vs[0]] + rest;
      if vs[0].None? {
        Conservation(rest, known, true);
      } else {
        Conservation(rest, vs[0].value, false);
      }
    }
  }

  lemma {:induction false} TotalIsSteps(parse: string -> Option<int>, ss: seq<Snapshot>, key: string)
    requires forall s | s in ss :: Unique(s)
    ensures Total(parse, ss, key) == Steps(Values(parse, ss, key))
  {
    if |ss| > 1 {
      DiffIsChange(parse, ss[0], ss[1], key);
      TotalIsSteps(parse, ss[1..], key);
      assert Values(parse, ss, key)[1..] == Values(parse, ss[1..], key);
    }
  }

  /** Successive differences sum to the difference of first and last exactly when nothing is lost
      on balance while the counter is missing. */
  lemma {:induction false} TelescopeIff(parse: string -> Option<int>, ss: seq<Snapshot>, key: string)
    requires |ss| > 0 && (forall s | s in ss :: Unique(s))
    requires Value(parse, ss[0], key).Some? && Value(parse, ss[|ss| - 1], key).Some?
    ensures Total(parse, ss, key) == Or0(GetDelta(Diff(parse, ss[0], ss[|ss| - 1]), key)) <==>
            Lost(Values(parse, ss, key), 0, false) == 0
  {
    var vs := Values(parse, ss, key);
    TotalIsSteps(parse, ss, key);
    DiffIsChange(parse, ss[0], ss[|ss| - 1], key);
    Conservation(vs, vs[0].value, false);
    StepsCons(Some(vs[0].value), vs);
  }

  /** A counter missing in between breaks the sum: 0, then absent, then 5. */
  lemma {:induction false} GapBreaksTheSum(parse: string -> Option<int>)
    requires parse("0") == Some(0) && parse("5") == Some(5)
    ensures var ss := [[("k", "0")], [], [("k", "5")]];
            Total(parse, ss, "k") == 0 && Or0(GetDelta(Diff(parse, ss[0], ss[2]), "k")) == 5
  {
    var a, b, c: Snapshot := [("k", "0")], [], [("k", "5")];
    DiffIsChange(parse, a, b, "k");
    DiffIsChange(parse, b, c, "k");
    DiffIsChange(parse, a, c, "k");
    assert [a, b, c][1..] == [b, c] && [b, c][1..] == [c];
  }
}
