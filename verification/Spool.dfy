/** Temporary model files inside the external-data directory. Any number of calls run at the same
    time, in this process and others; each system call is one step. */
module Spool {
  import opened Text

  type Bytes = seq<bv8>

  const TRIES := 32
  const COUNTER_WRAP := 0x1_0000_0000_0000_0000

  datatype Error = NotWritable | WriteFailed | NoFreeName

  /** How far one call has come: still looking for a name, writing the file it created, holding
      the finished file, or over. */
  datatype Job =
    | Searching(sequence: nat, left: nat, bytes: Bytes)
    | Writing(path: string, bytes: Bytes, written: nat)
    | Guarded(path: string, bytes: Bytes)
    | Failed(error: Error)
    | Dropped

  predicate Owns(j: Job, path: string) { (j.Writing? || j.Guarded?) && j.path == path }

  const PREFIX := ".st-zrt-spooled-"

  function SpoolName(pid: nat, sequence: nat, nanos: nat): string {
    PREFIX + Decimal(pid) + "-" + Decimal(sequence) + "-" + Decimal(nanos) + ".onnx"
  }

  function Digits(s: string): int {
    if s == "" then 0 else 10 * Digits(s[..|s| - 1]) + (s[|s| - 1] as int - '0' as int)
  }

  lemma {:induction false} DecimalReadsBack(n: nat)
    ensures Digits(Decimal(n)) == n && '-' !in Decimal(n) && '.' !in Decimal(n)
  {
    var s := Decimal(n);
    if n >= 10 {
      DecimalReadsBack(n / 10);
      assert s[..|s| - 1] == Decimal(n / 10);
      assert s == s[..|s| - 1] + [s[|s| - 1]];
    } else {
      assert s[..0] == "";
    }
  }

  lemma {:induction false} SameFront(a: string, c: char, x: string, b: string, y: string)
    requires a + [c] + x == b + [c] + y && c !in a && c !in b
    ensures a == b && x == y
  {
    FindAt(a, c, x);
    FindAt(b, c, y);
    assert (a + [c] + x)[..|a|] == a && (b + [c] + y)[..|b|] == b;
    assert (a + [c] + x)[|a| + 1..] == x && (b + [c] + y)[|b| + 1..] == y;
  }

  /** Different counter values, process ids or times give different names. */
  lemma {:induction false} SpoolNamesDiffer(p: nat, s: nat, n: nat, p': nat, s': nat, n': nat)
    requires SpoolName(p, s, n) == SpoolName(p', s', n')
    ensures p == p' && s == s' && n == n'
  {
    NameParts(p, s, n);
    NameParts(p', s', n');
    var a, a' := Decimal(s) + "-" + (Decimal(n) + "." + "onnx"), Decimal(s') + "-" + (Decimal(n') + "." + "onnx");
    DecimalReadsBack(p);
    DecimalReadsBack(p');
    DecimalReadsBack(s);
    DecimalReadsBack(s');
    DecimalReadsBack(n);
    DecimalReadsBack(n');
    SameTail(PREFIX, Decimal(p) + "-" + a, Decimal(p') + "-" + a');
    SameFront(Decimal(p), '-', a, Decimal(p'), a');
    SameFront(Decimal(s), '-', Decimal(n) + "." + "onnx", Decimal(s'), Decimal(n') + "." + "onnx");
    SameFront(Decimal(n), '.', "onnx", Decimal(n'), "onnx");
  }

  lemma {:induction false} SameTail(a: string, x: string, y: string)
    requires a + x == a + y
    ensures x == y
  {
    assert (a + x)[|a|..] == x && (a + y)[|a|..] == y;
  }

  lemma {:induction false} NameParts(p: nat, s: nat, n: nat)
    ensures SpoolName(p, s, n) == PREFIX + (Decimal(p) + "-" + (Decimal(s) + "-" + (Decimal(n) + "." + "onnx")))
  {
    Reassociate(PREFIX, Decimal(p), Decimal(s), Decimal(n), "-", ".", "onnx");
    assert "." + "onnx" == ".onnx";
  }

  lemma {:induction false} Reassociate(a: string, p: string, s: string, n: string, d: string, e: string, x: string)
    ensures a + p + d + s + d + n + (e + x) == a + (p + d + (s + d + (n + e + x)))
  {
  }

  /** One step of one call, or of another program, which may do anything to any file. */
  datatype Event =
    | Start(t: nat, bytes: Bytes)
    | Attempt(t: nat, nanos: nat, refused: bool)
    | WriteSome(t: nat, upTo: nat)
    | WriteFails(t: nat, removed: bool)
    | Drop(t: nat, removed: bool)
    | Outside(path: string, data: Option<Bytes>)

  function Under(dir: string, file: string): string { dir + "/" + file }

  /** Where a call with this counter value looks, at a given time. */
  function PathIn(dir: string, pid: nat): (nat, nat) -> string {
    (s: nat, n: nat) => Under(dir, SpoolName(pid, s, n))
  }

  /** Calls with different counter values never look at the same path. */
  ghost predicate Distinguishes(path: (nat, nat) -> string) {
    forall s, n, s', n' :: path(s, n) == path(s', n') ==> s == s'
  }

  lemma {:induction false} PathsDistinguish(dir: string, pid: nat)
    ensures Distinguishes(PathIn(dir, pid))
  {
    var path := PathIn(dir, pid);
    forall s: nat, n: nat, s': nat, n': nat | path(s, n) == path(s', n')
      ensures s == s'
    {
      SameTail(dir + "/", SpoolName(pid, s, n), SpoolName(pid, s', n'));
      SpoolNamesDiffer(pid, s, n, pid, s', n');
    }
  }

  /** The calls other than `t` whose file is at `path`. */
  function OthersAt(jobs: map<nat, Job>, t: nat, path: string): set<nat> {
    set u | u in jobs && u != t && Owns(jobs[u], path)
  }

  function OwnersAt(jobs: map<nat, Job>, path: string): set<nat> { set u | u in jobs && Owns(jobs[u], path) }

  /** Until the counter goes round, the calls have different counter values. */
  ghost predicate Numbered(jobs: map<nat, Job>, seqs: map<nat, nat>, started: nat) {
    && (forall t | t in jobs :: t in seqs)
    && (started <= COUNTER_WRAP ==> forall t | t in jobs :: seqs[t] < started)
    && (started <= COUNTER_WRAP ==> forall t, u | t in jobs && u in jobs && t != u :: seqs[t] != seqs[u])
  }

  /** Unless disturbed, a call's file exists and holds what it has written so far, all of it once
      finished. */
  ghost predicate JobOk(files: map<string, Bytes>, seqs: map<nat, nat>, disturbed: set<nat>, t: nat, j: Job) {
    match j
    case Searching(s, left, _) => left <= TRIES && t !in disturbed && t in seqs && s == seqs[t]
    case Writing(p, b, n) => n <= |b| && (t !in disturbed ==> p in files && files[p] == b[..n])
    case Guarded(p, b) => t !in disturbed ==> p in files && files[p] == b
    case Failed(_) => true
    case Dropped => true
  }

  ghost predicate JobsOk(files: map<string, Bytes>, seqs: map<nat, nat>, disturbed: set<nat>, jobs: map<nat, Job>) {
    forall t | t in jobs :: JobOk(files, seqs, disturbed, t, jobs[t])
  }

  /** A call's file carries its own name, and did not exist when the call created it. */
  ghost predicate OwnFile(path: (nat, nat) -> string, seqs: map<nat, nat>, seen: map<nat, set<string>>, t: nat,
                          j: Job)
  {
    j.Writing? || j.Guarded? ==>
      t in seen && j.path !in seen[t] && t in seqs && exists n :: j.path == path(seqs[t], n)
  }

  ghost predicate OwnFiles(path: (nat, nat) -> string, seqs: map<nat, nat>, seen: map<nat, set<string>>,
                           jobs: map<nat, Job>)
  {
    forall t | t in jobs :: OwnFile(path, seqs, seen, t, jobs[t])
  }

  /** Two calls share a path only after the counter went round, and only if somebody removed the
      file of one of them. */
  ghost predicate Apart(jobs: map<nat, Job>, started: nat, disturbed: set<nat>) {
    forall t, u, p | t in jobs && u in jobs && t != u && Owns(jobs[t], p) && Owns(jobs[u], p) ::
      started > COUNTER_WRAP && (t in disturbed || u in disturbed)
  }

  // ── What one update keeps ────────────────────────────────────────────────────────────

  lemma {:induction false} WrapStep(n: nat)
    ensures (n + 1) % COUNTER_WRAP == (n % COUNTER_WRAP + 1) % COUNTER_WRAP
  {
  }

  lemma {:induction false} NextNumber(jobs: map<nat, Job>, seqs: map<nat, nat>, started: nat, t: nat, j: Job)
    requires Numbered(jobs, seqs, started) && t !in jobs
    ensures Numbered(jobs[t := j], seqs[t := started % COUNTER_WRAP], started + 1)
  {
    assert started + 1 <= COUNTER_WRAP ==> started % COUNTER_WRAP == started;
  }

  lemma {:induction false} StillApart(jobs: map<nat, Job>, started: nat, disturbed: set<nat>, t: nat, j: Job)
    requires Apart(jobs, started, disturbed) && t !in jobs && j.Searching?
    ensures Apart(jobs[t := j], started + 1, disturbed)
  {
  }

  lemma {:induction false} KeepOthers(files: map<string, Bytes>, path: (nat, nat) -> string, seqs: map<nat, nat>,
                                      seen: map<nat, set<string>>, disturbed: set<nat>, jobs: map<nat, Job>,
                                      t: nat, c: nat, j: Job)
    requires JobsOk(files, seqs, disturbed, jobs) && OwnFiles(path, seqs, seen, jobs)
    requires t !in jobs && t !in disturbed && j.Searching? && j.sequence == c && j.left <= TRIES
    ensures JobsOk(files, seqs[t := c], disturbed, jobs[t := j]) && OwnFiles(path, seqs[t := c], seen, jobs[t := j])
  {
    var jobs', seqs' := jobs[t := j], seqs[t := c];
    forall u | u in jobs'
      ensures JobOk(files, seqs', disturbed, u, jobs'[u]) && OwnFile(path, seqs', seen, u, jobs'[u])
    {
      assert u != t ==> JobOk(files, seqs, disturbed, u, jobs[u]) && OwnFile(path, seqs, seen, u, jobs[u]);
    }
  }

  lemma {:induction false} CreateKeeps(files: map<string, Bytes>, path: (nat, nat) -> string, seqs: map<nat, nat>,
                                       seen: map<nat, set<string>>, disturbed: set<nat>, jobs: map<nat, Job>,
                                       started: nat, t: nat, n: nat, bytes: Bytes)
    requires JobsOk(files, seqs, disturbed, jobs) && OwnFiles(path, seqs, seen, jobs) && Apart(jobs, started, disturbed)
    requires t in jobs && t in seqs && t !in disturbed && path(seqs[t], n) !in files
    requires forall u | u in jobs && u != t && Owns(jobs[u], path(seqs[t], n)) ::
      u in disturbed && started > COUNTER_WRAP
    ensures var p := path(seqs[t], n);
            var jobs' := jobs[t := Writing(p, bytes, 0)];
            && JobsOk(files[p := []], seqs, disturbed, jobs') && OwnFiles(path, seqs, seen[t := files.Keys], jobs')
            && Apart(jobs', started, disturbed)
  {
    var p := path(seqs[t], n);
    var jobs', seen' := jobs[t := Writing(p, bytes, 0)], seen[t := files.Keys];
    forall u | u in jobs'
      ensures JobOk(files[p := []], seqs, disturbed, u, jobs'[u]) && OwnFile(path, seqs, seen', u, jobs'[u])
    {
      assert JobOk(files, seqs, disturbed, u, jobs[u]) && OwnFile(path, seqs, seen, u, jobs[u]);
      assert u != t && Owns(jobs[u], p) ==> u in disturbed;
    }
  }

  /** A call touches its own file, whoever else claims that path is disturbed. */
  lemma {:induction false} TouchKeeps(files: map<string, Bytes>, path: (nat, nat) -> string, seqs: map<nat, nat>,
                                      seen: map<nat, set<string>>, disturbed: set<nat>, jobs: map<nat, Job>,
                                      started: nat, t: nat, k: Job, files': map<string, Bytes>)
    requires JobsOk(files, seqs, disturbed, jobs) && OwnFiles(path, seqs, seen, jobs) && Apart(jobs, started, disturbed)
    requires t in jobs && (jobs[t].Writing? || jobs[t].Guarded?)
    requires k.Failed? || k.Dropped? || ((k.Writing? || k.Guarded?) && k.path == jobs[t].path)
    requires JobOk(files', seqs, disturbed, t, k)
    requires forall p | p != jobs[t].path :: (p in files' <==> p in files) && (p in files ==> files'[p] == files[p])
    ensures var d := disturbed + OthersAt(jobs, t, jobs[t].path);
            && JobsOk(files', seqs, d, jobs[t := k]) && OwnFiles(path, seqs, seen, jobs[t := k])
            && Apart(jobs[t := k], started, d)
  {
    var d, jobs' := disturbed + OthersAt(jobs, t, jobs[t].path), jobs[t := k];
    forall u | u in jobs'
      ensures JobOk(files', seqs, d, u, jobs'[u]) && OwnFile(path, seqs, seen, u, jobs'[u])
    {
      assert JobOk(files, seqs, disturbed, u, jobs[u]) && OwnFile(path, seqs, seen, u, jobs[u]);
    }
  }

  lemma {:induction false} OutsideKeeps(files: map<string, Bytes>, seqs: map<nat, nat>, disturbed: set<nat>,
                                        jobs: map<nat, Job>, started: nat, p: string, files': map<string, Bytes>)
    requires JobsOk(files, seqs, disturbed, jobs) && Apart(jobs, started, disturbed)
    requires forall q | q != p :: (q in files' <==> q in files) && (q in files ==> files'[q] == files[q])
    ensures JobsOk(files', seqs, disturbed + OwnersAt(jobs, p), jobs)
    ensures Apart(jobs, started, disturbed + OwnersAt(jobs, p))
  {
    var d := disturbed + OwnersAt(jobs, p);
    forall u | u in jobs
      ensures JobOk(files', seqs, d, u, jobs[u])
    {
      assert JobOk(files, seqs, disturbed, u, jobs[u]);
    }
  }

  class Directory {
    const path: (nat, nat) -> string
    var files: map<string, Bytes>
    var counter: nat
    var jobs: map<nat, Job>
    ghost var started: nat                 // how many calls began so far
    ghost var seqs: map<nat, nat>          // the counter value of each call
    ghost var seen: map<nat, set<string>>  // the files that existed when a call created its own
    ghost var disturbed: set<nat>          // calls whose file somebody else touched
    ghost var tried: map<nat, seq<bool>>   // for each name a call tried: was it taken at that moment

    ghost predicate Valid()
      reads this
    {
      && Distinguishes(path) && counter == started % COUNTER_WRAP && disturbed <= jobs.Keys <= tried.Keys
      && Numbered(jobs, seqs, started) && Apart(jobs, started, disturbed)
      && JobsOk(files, seqs, disturbed, jobs) && OwnFiles(path, seqs, seen, jobs)
    }

    constructor (dir: string, pid: nat, files: map<string, Bytes>)
      ensures Valid() && this.files == files && jobs == map[] && started == 0
      ensures forall s, n :: path(s, n) == Under(dir, SpoolName(pid, s, n))
    {
      this.path, this.files := PathIn(dir, pid), files;
      counter, jobs, started, seqs, seen, disturbed, tried := 0, map[], 0, map[], map[], {}, map[];
      PathsDistinguish(dir, pid);
    }

    method Begin(t: nat, bytes: Bytes)
      requires Valid() && t !in jobs
      modifies this`counter, this`jobs, this`started, this`seqs, this`tried
      ensures Valid() && jobs == old(jobs)[t := Searching(old(counter), TRIES, bytes)]
      ensures started == old(started) + 1 && tried == old(tried)[t := []]
    {
      tried := tried[t := []];
      NextNumber(jobs, seqs, started, t, Searching(counter, TRIES, bytes));
      KeepOthers(files, path, seqs, seen, disturbed, jobs, t, counter, Searching(counter, TRIES, bytes));
      StillApart(jobs, started, disturbed, t, Searching(counter, TRIES, bytes));
      WrapStep(started);
      jobs := jobs[t := Searching(counter, TRIES, bytes)];
      seqs := seqs[t := counter];
      counter := (counter + 1) % COUNTER_WRAP;
      started := started + 1;
    }

    /** A path that does not exist belongs to no undisturbed call, and to no call at all while the
        counter has not gone round. */
    lemma FreePath(t: nat, nanos: nat)
      requires Valid() && t in jobs && jobs[t].Searching? && path(seqs[t], nanos) !in files
      ensures forall u | u in jobs && u != t && Owns(jobs[u], path(seqs[t], nanos)) ::
        u in disturbed && started > COUNTER_WRAP
    {
      var p := path(seqs[t], nanos);
      forall u | u in jobs && u != t && Owns(jobs[u], p)
        ensures u in disturbed && started > COUNTER_WRAP
      {
        assert JobOk(files, seqs, disturbed, u, jobs[u]) && OwnFile(path, seqs, seen, u, jobs[u]);
      }
    }

    /** Try one name. The file is created only if no such file exists; a taken name uses up one of
        the tries, any other refusal ends the call. */
    method TryName(t: nat, nanos: nat, refused: bool)
      requires Valid() && t in jobs && jobs[t].Searching?
      modifies this`files, this`jobs, this`seen, this`tried
      ensures Valid()
      ensures tried == if old(jobs)[t].left == 0 then old(tried)
                       else old(tried)[t := old(tried)[t] + [path(old(jobs)[t].sequence, nanos) in old(files)]]
      ensures t in jobs && seen == if jobs[t].Writing? then old(seen)[t := old(files).Keys] else old(seen)
      ensures var j, p := old(jobs)[t], path(old(jobs)[t].sequence, nanos);
              && jobs.Keys == old(jobs).Keys && jobs == old(jobs)[t := jobs[t]]
              && (j.left == 0 ==> files == old(files) && jobs[t] == Failed(NoFreeName))
              && (j.left > 0 && refused ==> files == old(files) && jobs[t] == Failed(NotWritable))
              && (j.left > 0 && !refused && p in old(files) ==>
                  files == old(files) && jobs[t] == j.(left := j.left - 1))
              && (j.left > 0 && !refused && p !in old(files) ==>
                  files == old(files)[p := []] && jobs[t] == Writing(p, j.bytes, 0))
    {
      var j := jobs[t];
      assert JobOk(files, seqs, disturbed, t, j);
      var p := path(j.sequence, nanos);
      if j.left == 0 {
        Lose(t, Failed(NoFreeName));
        return;
      }
      tried := tried[t := tried[t] + [p in files]];
      if refused {
        Lose(t, Failed(NotWritable));
      } else if p in files {
        Lose(t, j.(left := j.left - 1));
      } else {
        FreePath(t, nanos);
        CreateKeeps(files, path, seqs, seen, disturbed, jobs, started, t, nanos, j.bytes);
        seen := seen[t := files.Keys];
        files := files[p := []];
        jobs := jobs[t := Writing(p, j.bytes, 0)];
      }
    }

    /** A call that owns no file moves on without one. */
    method Lose(t: nat, after: Job)
      requires Valid() && t in jobs && jobs[t].Searching?
      requires after.Failed? || (after.Searching? && after.left <= TRIES && after.sequence == jobs[t].sequence)
      modifies this`jobs
      ensures Valid() && jobs == old(jobs)[t := after]
    {
      assert JobOk(files, seqs, disturbed, t, jobs[t]);
      jobs := jobs[t := after];
    }

    /** More of the bytes reach the file, unless it was replaced; with all of them written the call
        succeeds. */
    method Write(t: nat, upTo: nat, reaches: bool)
      requires Valid() && t in jobs && jobs[t].Writing? && jobs[t].written <= upTo <= |jobs[t].bytes|
      requires t !in disturbed ==> reaches
      modifies this`files, this`jobs, this`disturbed
      ensures Valid()
      ensures var j := old(jobs)[t];
              && files == (if reaches then old(files)[j.path := j.bytes[..upTo]] else old(files))
              && jobs == old(jobs)[t := if upTo == |j.bytes| then Guarded(j.path, j.bytes) else j.(written := upTo)]
              && disturbed == old(disturbed) + OthersAt(old(jobs), t, j.path)
    {
      var j := jobs[t];
      var k := if upTo == |j.bytes| then Guarded(j.path, j.bytes) else j.(written := upTo);
      assert upTo == |j.bytes| ==> j.bytes[..upTo] == j.bytes;
      TouchKeeps(files, path, seqs, seen, disturbed, jobs, started, t, k,
                 if reaches then files[j.path := j.bytes[..upTo]] else files);
      disturbed := disturbed + OthersAt(jobs, t, j.path);
      if reaches {
        files := files[j.path := j.bytes[..upTo]];
      }
      jobs := jobs[t := k];
    }

    /** A failed write or a dropped guard removes the call's own file, if the removal succeeds. */
    method Finish(t: nat, after: Job, removed: bool)
      requires Valid() && t in jobs && (jobs[t].Writing? || jobs[t].Guarded?) && (after.Failed? || after.Dropped?)
      modifies this`files, this`jobs, this`disturbed
      ensures Valid() && jobs == old(jobs)[t := after]
      ensures files == if removed then old(files) - {old(jobs)[t].path} else old(files)
      ensures disturbed == old(disturbed) + OthersAt(old(jobs), t, old(jobs)[t].path)
    {
      var p := jobs[t].path;
      TouchKeeps(files, path, seqs, seen, disturbed, jobs, started, t, after, if removed then files - {p} else files);
      disturbed := disturbed + OthersAt(jobs, t, p);
      jobs := jobs[t := after];
      if removed {
        files := files - {p};
      }
    }

    /** Other programs create, change or remove files, spooled ones included. */
    method Elsewhere(p: string, data: Option<Bytes>)
      requires Valid()
      modifies this`files, this`disturbed
      ensures Valid() && files == if data.Some? then old(files)[p := data.value] else old(files) - {p}
      ensures disturbed == old(disturbed) + OwnersAt(jobs, p)
    {
      OutsideKeeps(files, seqs, disturbed, jobs, started, p,
                   if data.Some? then files[p := data.value] else files - {p});
      disturbed := disturbed + OwnersAt(jobs, p);
      files := if data.Some? then files[p := data.value] else files - {p};
    }

    /** While fewer than 2^64 calls began, no two calls share a path, whatever others do. */
    lemma OwnPath(t: nat)
      requires Valid() && t in jobs && (jobs[t].Writing? || jobs[t].Guarded?) && started <= COUNTER_WRAP
      ensures OthersAt(jobs, t, jobs[t].path) == {}
    {
    }

    // ── Interleavings ──────────────────────────────────────────────────────────────────

    predicate Possible(e: Event)
      reads this
    {
      match e
      case Start(t, _) => t !in jobs
      case Attempt(t, _, _) => t in jobs && jobs[t].Searching?
      case WriteSome(t, n) => t in jobs && jobs[t].Writing? && jobs[t].written <= n <= |jobs[t].bytes|
      case WriteFails(t, _) => t in jobs && jobs[t].Writing?
      case Drop(t, _) => t in jobs && jobs[t].Guarded?
      case Outside(_, _) => true
    }

    /** A step of one call leaves every other call where it was, and every existing file that is not
        its own as it was; and until the counter goes round only other programs disturb a call. */
    method Step(e: Event)
      requires Valid() && Possible(e)
      modifies this
      ensures Valid() && old(started) <= started
      ensures forall u | e.Outside? || u != e.t ::
        (u in jobs <==> u in old(jobs)) && (u in jobs ==> jobs[u] == old(jobs)[u])
      ensures !e.Outside? ==> forall p | p in old(files) && !(e.t in old(jobs) && Owns(old(jobs)[e.t], p)) ::
        p in files && files[p] == old(files)[p]
      ensures old(started) <= COUNTER_WRAP ==>
        disturbed == old(disturbed) + if e.Outside? then OwnersAt(old(jobs), e.path) else {}
      ensures forall u | u in old(jobs) && (e.Outside? || u != e.t) :: u in tried && tried[u] == old(tried)[u]
    {
      if e.Outside? {
        Elsewhere(e.path, e.data);
      } else {
        OwnStep(e);
      }
    }

    /** A step of one call. */
    method OwnStep(e: Event)
      requires Valid() && Possible(e) && !e.Outside?
      modifies this
      ensures Valid() && old(started) <= started
      ensures e.t in jobs && jobs == old(jobs)[e.t := jobs[e.t]]
      ensures forall p | p in old(files) && !(e.t in old(jobs) && Owns(old(jobs)[e.t], p)) ::
        p in files && files[p] == old(files)[p]
      ensures old(started) <= COUNTER_WRAP ==> disturbed == old(disturbed)
      ensures forall u | u in old(jobs) && u != e.t :: u in tried && tried[u] == old(tried)[u]
    {
      if e.Start? {
        Begin(e.t, e.bytes);
      } else if e.Attempt? {
        TryName(e.t, e.nanos, e.refused);
      } else {
        FileStep(e);
      }
    }

    /** A step on the call's own file. */
    method FileStep(e: Event)
      requires Valid() && Possible(e) && (e.WriteSome? || e.WriteFails? || e.Drop?)
      modifies this`files, this`jobs, this`disturbed
      ensures Valid() && e.t in jobs && jobs == old(jobs)[e.t := jobs[e.t]]
      ensures forall p | p in old(files) && !Owns(old(jobs)[e.t], p) :: p in files && files[p] == old(files)[p]
      ensures started <= COUNTER_WRAP ==> disturbed == old(disturbed)
    {
      Own(e.t);
      match e
      case WriteSome(t, n) => Write(t, n, true);
      case WriteFails(t, removed) => Finish(t, Failed(WriteFailed), removed);
      case Drop(t, removed) => Finish(t, Dropped, removed);
    }

    lemma Own(t: nat)
      requires Valid() && t in jobs && (jobs[t].Writing? || jobs[t].Guarded?)
      ensures started <= COUNTER_WRAP ==> OthersAt(jobs, t, jobs[t].path) == {}
    {
      if started <= COUNTER_WRAP {
        OwnPath(t);
      }
    }

    /** Some event of another program touches the file of call `me`. */
    ghost predicate TouchedBy(es: seq<Event>, j: Job) {
      exists i | 0 <= i < |es| :: es[i].Outside? && Owns(j, es[i].path)
    }

    /** Whatever happens next, in any order, call `me` stays where it is, and its file as well unless
        another program touches it or the counter goes round. */
    method Meanwhile(me: nat, es: seq<Event>)
      requires Valid() && forall e | e in es :: e.Outside? || e.t != me
      modifies this
      ensures Valid() && old(started) <= started
      ensures me in jobs <==> me in old(jobs)
      ensures me in jobs ==> jobs[me] == old(jobs)[me] && me in tried && tried[me] == old(tried)[me]
      ensures me in disturbed && me in jobs ==>
        me in old(disturbed) || started > COUNTER_WRAP || TouchedBy(es, jobs[me])
    {
      for i := 0 to |es|
        invariant Valid() && old(started) <= started
        invariant (me in jobs <==> me in old(jobs)) && (me in jobs ==> jobs[me] == old(jobs)[me])
        invariant me in jobs ==> me in tried && tried[me] == old(tried)[me]
        invariant me in disturbed && me in jobs ==>
          me in old(disturbed) || started > COUNTER_WRAP || TouchedBy(es, jobs[me])
      {
        if Possible(es[i]) {
          Step(es[i]);
        }
      }
    }

    /** The end of a call: out of names, refused, or with a file to fill. */
    method Conclude(me: nat, bytes: Bytes, fails: bool, removed: bool) returns (r: Option<string>)
      requires Valid() && me in jobs
      requires (jobs[me].Searching? && jobs[me].left == 0) || jobs[me] == Failed(NotWritable) ||
               (jobs[me].Writing? && jobs[me].bytes == bytes)
      modifies this
      ensures Valid() && me in jobs && started == old(started) && tried == old(tried)
      ensures r.Some? <==> old(jobs)[me].Writing? && !fails
      ensures r.Some? ==> old(jobs)[me].Writing? && r.value == old(jobs)[me].path && jobs[me] == Guarded(r.value, bytes)
      ensures me in disturbed <==> me in old(disturbed)
      ensures r.None? ==> jobs[me] == Failed(if old(jobs)[me].Searching? then NoFreeName
                                             else if old(jobs)[me].Writing? then WriteFailed else NotWritable)
    {
      if jobs[me].Searching? {
        TryName(me, 0, false);
      } else if jobs[me].Writing? {
        if fails {
          Finish(me, Failed(WriteFailed), removed);
        } else {
          var p := jobs[me].path;
          assert JobOk(files, seqs, disturbed, me, jobs[me]);
          Write(me, |bytes|, true);
          return Some(p);
        }
      }
      r := None;
    }

    lemma GuardedFacts(t: nat)
      requires Valid() && t in jobs && jobs[t].Guarded?
      ensures var j := jobs[t];
              && (t !in disturbed ==> j.path in files && files[j.path] == j.bytes) && t in seen && j.path !in seen[t]
              && (started <= COUNTER_WRAP ==> forall u | u in jobs && u != t :: !Owns(jobs[u], j.path))
    {
      assert JobOk(files, seqs, disturbed, t, jobs[t]) && OwnFile(path, seqs, seen, t, jobs[t]);
      if started <= COUNTER_WRAP {
        OwnPath(t);
        assert forall u | u in jobs && u != t && Owns(jobs[u], jobs[t].path) :: u in OthersAt(jobs, t, jobs[t].path);
      }
    }

    /** Where the search stands after `n` names: every one before the last was taken, and the last
        was refused, taken, or free and now the call's own. */
    ghost predicate Standing(me: nat, bytes: Bytes, refused: nat -> bool, n: nat)
      reads this
    {
      && me in jobs && me in tried && |tried[me]| == n
      && (forall i | 0 <= i < n - 1 :: tried[me][i] && !refused(i))
      && match jobs[me]
         case Searching(_, left, b) =>
           b == bytes && left == TRIES - n && (n > 0 ==> tried[me][n - 1] && !refused(n - 1))
         case Writing(_, b, _) => b == bytes && n > 0 && !tried[me][n - 1] && !refused(n - 1)
         case Failed(e) => e == NotWritable && n > 0 && refused(n - 1)
         case _ => false
    }

    /** One more try, with other steps before it. */
    method TryNext(me: nat, bytes: Bytes, nanos: nat, refused: nat -> bool, es: seq<Event>, n: nat)
      requires Valid() && n < TRIES && Standing(me, bytes, refused, n) && jobs[me].Searching?
      requires forall e | e in es :: e.Outside? || e.t != me
      modifies this
      ensures Valid() && Standing(me, bytes, refused, n + 1)
      ensures jobs[me].Writing? ==> me !in disturbed
    {
      Meanwhile(me, es);
      assert JobOk(files, seqs, disturbed, me, jobs[me]);
      TryName(me, nanos, refused(n));
    }

    /** The search for a name, with other steps before each try. */
    method Search(me: nat, bytes: Bytes, nanos: nat -> nat, refused: nat -> bool, others: nat -> seq<Event>)
      returns (tries: nat)
      requires Valid() && Standing(me, bytes, refused, 0)
      requires forall i, e | e in others(i) :: e.Outside? || e.t != me
      modifies this
      ensures Valid() && tries <= 32 && Standing(me, bytes, refused, tries)
      ensures jobs[me].Searching? ==> tries == 32
      ensures jobs[me].Writing? ==> me !in disturbed
    {
      tries := 0;
      while tries < TRIES && jobs[me].Searching?
        invariant Valid() && tries <= TRIES && Standing(me, bytes, refused, tries)
        invariant jobs[me].Writing? ==> me !in disturbed
        decreases TRIES - tries
      {
        TryNext(me, bytes, nanos(tries), refused, others(tries), tries);
        tries := tries + 1;
      }
    }

    /** A whole call, with other steps in between: at most 32 names are tried, each further one only
        because the one before was taken; the call succeeds exactly when the last one tried was free,
        creating it was not refused and writing does not fail. On success the call
        has a file that did not exist when it created it, that no other call has while fewer than
        2^64 calls began, and that holds exactly the bytes unless another program touched it. */
    method SpoolModelBytes(me: nat, bytes: Bytes, nanos: nat -> nat, refused: nat -> bool, fails: bool, removed: bool,
                           others: nat -> seq<Event>)
      returns (r: Option<string>, tries: nat)
      requires Valid() && me !in jobs
      requires forall i, e | e in others(i) :: e.Outside? || e.t != me
      modifies this
      ensures Valid() && me in jobs && me in tried && 1 <= |tried[me]| == tries <= 32
      ensures forall i | 0 <= i < tries - 1 :: tried[me][i] && !refused(i)
      ensures r.Some? <==> !refused(tries - 1) && !tried[me][tries - 1] && !fails
      ensures refused(tries - 1) ==> jobs[me] == Failed(NotWritable)
      ensures !refused(tries - 1) && tried[me][tries - 1] ==> tries == 32 && jobs[me] == Failed(NoFreeName)
      ensures !refused(tries - 1) && !tried[me][tries - 1] && fails ==> jobs[me] == Failed(WriteFailed)
      ensures r.Some? ==> jobs[me] == Guarded(r.value, bytes) && me in seen && r.value !in seen[me]
      ensures r.Some? && me !in disturbed ==> r.value in files && files[r.value] == bytes
      ensures r.Some? && me in disturbed ==> started > COUNTER_WRAP || TouchedBy(others(TRIES), jobs[me])
      ensures r.Some? && started <= COUNTER_WRAP ==> forall u | u in jobs && u != me :: !Owns(jobs[u], r.value)
    {
      Begin(me, bytes);
      tries := Search(me, bytes, nanos, refused, others);
      Meanwhile(me, others(TRIES));
      ghost var j := jobs[me];
      r := Conclude(me, bytes, fails, removed);
      if r.Some? {
        GuardedFacts(me);
        SameTouch(others(TRIES), j, jobs[me]);
      }
    }

    lemma SameTouch(es: seq<Event>, j: Job, k: Job)
      requires j.Writing? && k.Guarded? && j.path == k.path
      ensures TouchedBy(es, j) ==> TouchedBy(es, k)
    {
    }
  }
}
