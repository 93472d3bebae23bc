/** Acquiring the native library: download, verification, extraction and the done marker, for
    one fixed release asset in one output directory. Every step may fail, and the build may be
    killed before any step: `fate` says how each step ends, and is arbitrary. */
module Archive {
  import opened Text

  newtype Byte = x: int | 0 <= x < 256

  type Bytes = seq<Byte>

  datatype Node = Dir | File(data: Bytes) | Link(target: string)

  type Tree = map<string, Node>

  datatype Entry = Entry(path: string, node: Node)

  /** What is outside the program: the digest, the archive format, and the pinned digest. */
  datatype World = World(sha: Bytes -> string, untar: Bytes -> seq<Entry>, pin: string)

  /** A step succeeds, fails, or the process is killed before it. */
  datatype Outcome = Done | Failed | Killed

  datatype Event = Attempted | Streamed(body: Bytes) | Renamed(body: Bytes) | Discarded | Extracting(body: Bytes)

  const ATTEMPTS := 3

  // ── Trees ────────────────────────────────────────────────────────────────────────────

  const SO_LINK := "lib/libonnxruntime.so"

  /** `lib` is a directory of the tree. */
  predicate HasLib(t: Tree) {
    || ("lib" in t && t["lib"].Dir?)
    || exists p | p in t :: "lib/" <= p
  }

  /** Writing the entries over a tree, later ones over earlier ones. */
  function Unpack(es: seq<Entry>, t: Tree): Tree {
    if es == [] then t
    else Unpack(es[..|es| - 1], t)[es[|es| - 1].path := es[|es| - 1].node]
  }

  predicate Written(es: seq<Entry>, p: string, n: Node) {
    exists i | 0 <= i < |es| :: es[i] == Entry(p, n)
  }

  /** What an archive unpacks to in an empty directory. */
  function Content(w: World, b: Bytes): Tree { Unpack(w.untar(b), map[]) }

  /** The path belongs to some archive with the pinned digest. */
  ghost predicate Known(w: World, p: string) {
    exists b: Bytes :: w.sha(b) == w.pin && p in Content(w, b)
  }

  /** Whatever the files hold: nothing is there but paths of pinned archives and the link added
      later. */
  ghost predicate PathsKnown(w: World, t: Tree) {
    forall p | p in t :: Known(w, p) || (p == SO_LINK && t[p].Link?)
  }

  /** Everything archive `b` unpacks to is there, with its content. */
  predicate Holds(w: World, t: Tree, b: Bytes) {
    w.sha(b) == w.pin && forall p | p in Content(w, b) :: p in t && t[p] == Content(w, b)[p]
  }

  /** The complete extraction of an archive whose digest is the pin. */
  ghost predicate Complete(w: World, t: Tree) {
    PathsKnown(w, t) && exists b: Bytes :: Holds(w, t, b)
  }

  lemma {:induction false} UnpackOver(es: seq<Entry>, t: Tree)
    ensures forall p | p in Unpack(es, map[]) :: p in Unpack(es, t) && Unpack(es, t)[p] == Unpack(es, map[])[p]
    ensures forall p | p in Unpack(es, t) :: (p in t && t[p] == Unpack(es, t)[p]) || Written(es, p, Unpack(es, t)[p])
    ensures t.Keys <= Unpack(es, t).Keys
  {
    if es != [] {
      var n := |es| - 1;
      UnpackOver(es[..n], t);
      forall p | p in Unpack(es, t)
        ensures (p in t && t[p] == Unpack(es, t)[p]) || Written(es, p, Unpack(es, t)[p])
      {
        if p == es[n].path {
          assert es[n] == Entry(p, Unpack(es, t)[p]);
        } else if Written(es[..n], p, Unpack(es, t)[p]) {
          var i :| 0 <= i < n && es[..n][i] == Entry(p, Unpack(es, t)[p]);
          assert es[i] == Entry(p, Unpack(es, t)[p]);
        }
      }
    }
  }

  /** Unpacking a verified archive over leftovers, whatever these hold, gives a complete tree. */
  lemma {:induction false} UnpackCompletes(w: World, b: Bytes, t: Tree)
    requires w.sha(b) == w.pin && PathsKnown(w, t)
    ensures Complete(w, Unpack(w.untar(b), t))
  {
    var es := w.untar(b);
    var u := Unpack(es, t);
    UnpackOver(es, t);
    forall p | p in u
      ensures Known(w, p) || (p == SO_LINK && u[p].Link?)
    {
      if Written(es, p, u[p]) {
        var i :| 0 <= i < |es| && es[i] == Entry(p, u[p]);
        PathUnpacked(es, i);
      } else {
        assert p in t && t[p] == u[p];
      }
    }
    assert Holds(w, u, b);
  }

  lemma {:induction false} UnpackHolds(w: World, b: Bytes, t: Tree)
    requires w.sha(b) == w.pin
    ensures Holds(w, Unpack(w.untar(b), t), b)
  {
    UnpackOver(w.untar(b), t);
  }

  lemma {:induction false} EntriesKnown(w: World, b: Bytes)
    requires w.sha(b) == w.pin
    ensures forall e | e in w.untar(b) :: Known(w, e.path)
  {
    var es := w.untar(b);
    forall e | e in es
      ensures Known(w, e.path)
    {
      var i :| 0 <= i < |es| && es[i] == e;
      PathUnpacked(es, i);
      assert e.path in Content(w, b);
    }
  }

  /** `t` is exactly what archive `b` unpacks to, apart from the added link. */
  predicate Exact(w: World, b: Bytes, t: Tree) {
    && (forall p | p in Content(w, b) :: p in t && t[p] == Content(w, b)[p])
    && (forall p | p in t :: p in Content(w, b) || (p == SO_LINK && t[p].Link?))
  }

  /** Only archive `b` has the pinned digest. */
  ghost predicate OnlyArchive(w: World, b: Bytes) { forall c: Bytes :: w.sha(c) == w.pin ==> c == b }

  /** If only one archive has the pinned digest, a complete tree is exactly its extraction. */
  lemma {:induction false} UniquePinMeansExact(w: World, b: Bytes, t: Tree)
    requires Complete(w, t) && OnlyArchive(w, b)
    ensures Exact(w, b, t)
  {
    var c: Bytes :| Holds(w, t, c);
    assert c == b;
    forall p | p in t
      ensures p in Content(w, b) || (p == SO_LINK && t[p].Link?)
    {
      if !(p == SO_LINK && t[p].Link?) {
        assert Known(w, p);
      }
    }
  }

  /** Of several entries with one path the last one stays. */
  lemma {:induction false} LastEntryStays(es: seq<Entry>, t: Tree, i: nat)
    requires i < |es| && forall j | i < j < |es| :: es[j].path != es[i].path
    ensures es[i].path in Unpack(es, t) && Unpack(es, t)[es[i].path] == es[i].node
  {
    if i < |es| - 1 {
      LastEntryStays(es[..|es| - 1], t, i);
    }
  }

  lemma {:induction false} PathUnpacked(es: seq<Entry>, i: nat)
    requires i < |es|
    ensures es[i].path in Unpack(es, map[])
  {
    if i < |es| - 1 {
      PathUnpacked(es[..|es| - 1], i);
    }
  }

  /** Part of a tree, nothing changed. */
  predicate SubTree(t': Tree, t: Tree) { forall p | p in t' :: p in t && t'[p] == t[p] }

  /** When the guard is right about a complete directory that lost some files: exactly when the
      marker or the library directory went too, or none of the archive's own files is missing. */
  lemma {:induction false} GuardRightIff(w: World, b: Bytes, marker: bool, t: Tree, t': Tree)
    requires Complete(w, t) && OnlyArchive(w, b) && SubTree(t', t)
    ensures (Promised(marker, Some(t')) ==> Complete(w, t')) <==>
            !marker || !HasLib(t') || forall p | p in Content(w, b) :: p in t'
  {
    var c: Bytes :| Holds(w, t, c);
    assert c == b;
    assert PathsKnown(w, t');
    if forall p | p in Content(w, b) :: p in t' {
      assert Holds(w, t', b);
    }
    if Complete(w, t') {
      var d: Bytes :| Holds(w, t', d);
      assert d == b;
    }
  }

  // ── What every reachable directory satisfies ─────────────────────────────────────────

  /** The marker is believed only when it and the library directory are there. */
  predicate Promised(marker: bool, tree: Option<Tree>) {
    marker && tree.Some? && HasLib(tree.value)
  }

  ghost predicate Safe(w: World, marker: bool, staging: Option<Tree>, tree: Option<Tree>) {
    && (staging.Some? ==> PathsKnown(w, staging.value))
    && (Promised(marker, tree) ==> Complete(w, tree.value))
  }

  /** Only verified bytes are unpacked, and an archive is put in place only by renaming a
      download that was just streamed to its end. */
  ghost predicate GoodLog(w: World, log: seq<Event>) {
    forall i | 0 <= i < |log| :: GoodEvent(w, log, i)
  }

  ghost predicate GoodEvent(w: World, log: seq<Event>, i: nat)
    requires i < |log|
  {
    && (log[i].Extracting? ==> w.sha(log[i].body) == w.pin)
    && (log[i].Renamed? ==> i > 0 && log[i - 1] == Streamed(log[i].body))
  }

  lemma {:induction false} GoodLogSnoc(w: World, log: seq<Event>, e: Event)
    requires GoodLog(w, log)
    requires e.Extracting? ==> w.sha(e.body) == w.pin
    requires e.Renamed? ==> log != [] && log[|log| - 1] == Streamed(e.body)
    ensures GoodLog(w, log + [e])
  {
    var l := log + [e];
    forall i | 0 <= i < |l|
      ensures GoodEvent(w, l, i)
    {
      if i < |log| {
        assert GoodEvent(w, log, i);
      }
    }
  }

  function Attempts(log: seq<Event>): nat {
    if log == [] then 0 else Attempts(log[..|log| - 1]) + (if log[|log| - 1].Attempted? then 1 else 0)
  }

  lemma {:induction false} AttemptsSnoc(log: seq<Event>, e: Event)
    ensures Attempts(log + [e]) == Attempts(log) + if e.Attempted? then 1 else 0
  {
    assert (log + [e])[..|log|] == log;
  }

  lemma {:induction false} AttemptsGrow(a: seq<Event>, b: seq<Event>)
    requires a <= b
    ensures Attempts(a) <= Attempts(b)
  {
    if |a| < |b| {
      AttemptsGrow(a, b[..|b| - 1]);
    } else {
      assert a == b;
    }
  }

  /** The archive stayed, went, or was put in place by a rename since. */
  predicate ArchiveOnlyRenamed(before: Option<Bytes>, after: Option<Bytes>, a: seq<Event>, b: seq<Event>) {
    after == before || after == None || (a <= b && Renamed(after.value) in b[|a|..])
  }

  lemma {:induction false} LaterLog(before: Option<Bytes>, after: Option<Bytes>, a: seq<Event>, b: seq<Event>,
                                    c: seq<Event>)
    requires b <= c && ArchiveOnlyRenamed(before, after, a, b)
    ensures ArchiveOnlyRenamed(before, after, a, c)
  {
    if after.Some? && a <= b && Renamed(after.value) in b[|a|..] {
      var i :| 0 <= i < |b[|a|..]| && b[|a|..][i] == Renamed(after.value);
      assert c[|a|..][i] == Renamed(after.value);
    }
  }

  lemma {:induction false} EarlierLog(after: Option<Bytes>, a: seq<Event>, b: seq<Event>, c: seq<Event>)
    requires a <= b <= c && ArchiveOnlyRenamed(None, after, b, c)
    ensures ArchiveOnlyRenamed(None, after, a, c)
  {
    if after.Some? {
      var i :| 0 <= i < |c[|b|..]| && c[|b|..][i] == Renamed(after.value);
      assert c[|a|..][|b| - |a| + i] == Renamed(after.value);
    }
  }

  /** A cached archive with the pinned digest. */
  predicate Cached(w: World, archive: Option<Bytes>) { archive.Some? && w.sha(archive.value) == w.pin }

  // ── Steps ────────────────────────────────────────────────────────────────────────────

  /** Between two points of time the process was killed only at the end, and then exactly if that is
      the outcome. */
  predicate Ran(fate: nat -> Outcome, o: Outcome, a: nat, b: nat) {
    && a <= b
    && (o == Killed <==> a < b && fate(b - 1) == Killed)
    && forall t: nat | a <= t < b - 1 :: fate(t) != Killed
  }

  /** Some step failed. */
  predicate Trouble(fate: nat -> Outcome, a: nat, b: nat) {
    exists t: nat | a <= t < b :: fate(t) == Failed
  }

  /** The chunks of a response, one after the other. */
  function Body(chunks: seq<Bytes>): Bytes {
    if chunks == [] then [] else Body(chunks[..|chunks| - 1]) + chunks[|chunks| - 1]
  }

  /** The response to some request in that time. */
  predicate Served(serves: nat -> seq<Bytes>, a: nat, b: nat, body: Bytes) {
    exists t: nat | a <= t < b :: Body(serves(t)) == body
  }

  predicate NoneStreamed(log: seq<Event>, from: nat) {
    forall i | from <= i < |log| :: !log[i].Streamed?
  }

  /** The archive that was fetched has another digest. */
  predicate Rejected(w: World, serves: nat -> seq<Bytes>, a: nat, b: nat, archive: Option<Bytes>) {
    archive.Some? && w.sha(archive.value) != w.pin && Served(serves, a, b, archive.value)
  }

  /** What linking needs is missing: the directory, or on Linux any file of the library. */
  predicate Unlinkable(t: Tree, linux: bool) {
    !HasLib(t) || (linux && SO_LINK !in t && !HasVersioned(t))
  }

  predicate HasVersioned(t: Tree) { exists p | p in t :: SO_LINK + "." <= p }

  /** The output directory: the cached archive, its `.part`, the marker, the directory being
      extracted, and the directory that is linked. */
  class OutDir {
    const w: World
    const fate: nat -> Outcome         // how each step ends
    const serves: nat -> seq<Bytes>    // the chunks with which a request made then is answered
    var tick: nat
    var archive: Option<Bytes>
    var part: Option<Bytes>
    var marker: bool
    var staging: Option<Tree>
    var tree: Option<Tree>
    ghost var log: seq<Event>
    ghost var stuck: bool  // the last removal of the `.part` in this build failed

    constructor (w: World, fate: nat -> Outcome, serves: nat -> seq<Bytes>)
      ensures Valid() && this.w == w && this.fate == fate && this.serves == serves && tick == 0
      ensures archive == None && part == None && !marker && staging == None && tree == None && log == []
    {
      this.w, this.fate, this.serves, tick := w, fate, serves, 0;
      archive, part, marker, staging, tree := None, None, false, None, None;
      log, stuck := [], false;
    }

    ghost predicate Valid()
      reads this
    {
      Safe(w, marker, staging, tree) && GoodLog(w, log)
    }

    /** One step. */
    method Step() returns (o: Outcome)
      modifies this`tick
      ensures o == fate(old(tick)) && tick == old(tick) + 1
    {
      o := fate(tick);
      tick := tick + 1;
    }

    /** Digest of a file, opened and read in pieces of at most 64 KiB. */
    method HashFile(content: Bytes) returns (o: Outcome, digest: string)
      modifies this`tick
      ensures Ran(fate, o, old(tick), tick) && old(tick) < tick
      ensures o == Failed <==> Trouble(fate, old(tick), tick)
      ensures o == Done ==> digest == w.sha(content)
    {
      digest := "";
      o := Step();
      if o != Done { return; }
      var absorbed: Bytes := [];
      while |absorbed| < |content|
        invariant absorbed <= content && old(tick) < tick
        invariant forall t: nat | old(tick) <= t < tick :: fate(t) == Done
        decreases |content| - |absorbed|
      {
        o := Step();
        if o != Done { return; }
        var left := |content| - |absorbed|;
        var n: nat :| 0 < n <= 65536 && n <= left;
        absorbed := absorbed + content[|absorbed|..|absorbed| + n];
      }
      assert absorbed == content;
      return Done, w.sha(absorbed);
    }

    /** Removal of the `.part`, whose failure the caller ignores. */
    method RemovePart() returns (o: Outcome)
      modifies this`tick, this`part, this`stuck
      ensures o == fate(old(tick)) && tick == old(tick) + 1
      ensures o == Killed ==> part == old(part) && stuck == old(stuck)
      ensures o == Done ==> part == None && !stuck
      ensures o == Failed ==> part == old(part) && (stuck <==> part.Some?)
    {
      o := Step();
      if o == Done {
        part, stuck := None, false;
      } else if o == Failed {
        stuck := part.Some?;
      }
    }

    /** The event that just happened. */
    ghost method Note(e: Event)
      requires GoodLog(w, log) && (e.Extracting? ==> w.sha(e.body) == w.pin)
      requires e.Renamed? ==> log != [] && log[|log| - 1] == Streamed(e.body)
      modifies this`log
      ensures log == old(log) + [e] && GoodLog(w, log)
      ensures Attempts(log) == Attempts(old(log)) + if e.Attempted? then 1 else 0
    {
      GoodLogSnoc(w, log, e);
      AttemptsSnoc(log, e);
      log := log + [e];
    }

    /** Streaming the chunks of a response into the `.part`, then flushing and syncing it. */
    method Stream(chunks: seq<Bytes>) returns (o: Outcome)
      modifies this`tick, this`part
      ensures Ran(fate, o, old(tick), tick) && old(tick) < tick
      ensures o == Failed <==> Trouble(fate, old(tick), tick)
      ensures o == Done ==> part == Some(Body(chunks))
    {
      part := Some([]);
      var i := 0;
      while i < |chunks|
        invariant 0 <= i <= |chunks| && part == Some(Body(chunks[..i])) && old(tick) <= tick
        invariant forall t: nat | old(tick) <= t < tick :: fate(t) == Done
      {
        o := Step();
        if o != Done { return; }
        assert chunks[..i + 1][..i] == chunks[..i];
        part := Some(part.value + chunks[i]);
        i := i + 1;
      }
      assert chunks[..i] == chunks;
      o := Step();
    }

    /** Request, create, stream. */
    method Fetch() returns (o: Outcome)
      modifies this`tick, this`part
      ensures Ran(fate, o, old(tick), tick) && old(tick) < tick
      ensures o == Failed <==> Trouble(fate, old(tick), tick)
      ensures o == Done ==> part == Some(Body(serves(old(tick))))
    {
      var chunks := serves(tick);
      o := Step();
      if o != Done { return; }
      o := Step();
      if o != Done { return; }
      o := Stream(chunks);
    }

    /** One attempt: request, create, stream every chunk, flush and sync. It fails exactly when one of
        these steps does. */
    method DownloadOnce() returns (o: Outcome)
      requires GoodLog(w, log) && archive == None
      modifies this`tick, this`part, this`log
      ensures GoodLog(w, log) && Attempts(log) == Attempts(old(log)) + 1
      ensures Ran(fate, o, old(tick), tick) && old(tick) < tick
      ensures o == Failed <==> Trouble(fate, old(tick), tick)
      ensures o == Done ==> part == Some(Body(serves(old(tick))))
      ensures log == old(log) + if o == Done then [Attempted, Streamed(part.value)] else [Attempted]
    {
      Note(Attempted);
      o := Fetch();
      if o == Done { Note(Streamed(part.value)); }
    }

    /** Rename the complete `.part` into place; a failing rename removes it and ends the build. */
    method Commit() returns (o: Outcome)
      requires GoodLog(w, log) && archive == None && part.Some?
      requires log != [] && log[|log| - 1] == Streamed(part.value)
      modifies this`tick, this`part, this`archive, this`log, this`stuck
      ensures GoodLog(w, log) && Attempts(log) == Attempts(old(log))
      ensures Ran(fate, o, old(tick), tick) && old(tick) < tick && (o == Done <==> fate(old(tick)) == Done)
      ensures o == Done ==> archive == old(part) && part == None && log == old(log) + [Renamed(archive.value)]
      ensures o != Done ==> archive == None && log == old(log)
      ensures o == Failed ==> tick == old(tick) + 2 && fate(old(tick)) == Failed
      ensures o != Killed ==> (part.Some? <==> stuck)
    {
      o := Step();
      if o == Killed { return; }
      if o == Failed {
        o := RemovePart();
        return if o == Killed then Killed else Failed;
      }
      Note(Renamed(part.value));
      archive, part, stuck := part, None, false;
    }

    /** One attempt and what follows it: a finished download is renamed, a failed one is removed. It is
        over unless the attempt failed. */
    method Attempt() returns (o: Outcome, over: bool)
      requires GoodLog(w, log) && archive == None
      modifies this`tick, this`part, this`archive, this`log, this`stuck
      ensures GoodLog(w, log) && old(log) < log && Attempts(log) == Attempts(old(log)) + 1
      ensures Ran(fate, o, old(tick), tick) && old(tick) < tick
      ensures o == Failed ==> Trouble(fate, old(tick), tick)
      ensures !over ==> o == Failed && log == old(log) + [Attempted]
      ensures over && o == Failed ==> log[|log| - 1].Streamed? && tick >= 2 && fate(tick - 2) == Failed
      ensures o == Done ==> archive.Some? && part == None && log[|log| - 1] == Renamed(archive.value)
      ensures o == Done ==> archive.value == Body(serves(old(tick)))
      ensures o != Done ==> archive == None
      ensures o != Killed ==> (part.Some? <==> stuck)
    {
      o := DownloadOnce();
      over := o != Failed;
      if o == Done {
        o := Commit();
      } else if o == Failed {
        o := RemovePart();
        if o == Killed { over := true; } else { o := Failed; }
      }
    }

    /** At most three attempts. The archive appears only by renaming what a request was answered with;
        the download fails only when three attempts did, or when a finished one could not be renamed;
        and a `.part` is left behind exactly when its last removal failed. */
    method DownloadWithRetries() returns (o: Outcome)
      requires GoodLog(w, log) && archive == None
      modifies this`tick, this`part, this`archive, this`log, this`stuck
      ensures GoodLog(w, log) && old(log) <= log
      ensures Attempts(log) <= Attempts(old(log)) + 3
      ensures Ran(fate, o, old(tick), tick)
      ensures o == Failed ==> Trouble(fate, old(tick), tick)
      ensures o == Failed ==>
        || (Attempts(log) == Attempts(old(log)) + 3 && NoneStreamed(log, |old(log)|))
        || (|old(log)| < |log| && log[|log| - 1].Streamed? && tick >= 2 && fate(tick - 2) == Failed)
      ensures o == Done ==> archive.Some? && part == None && log != old(log) && log[|log| - 1] == Renamed(archive.value)
      ensures o == Done ==> Served(serves, old(tick), tick, archive.value)
      ensures o != Done ==> archive == None
      ensures o != Killed ==> Attempts(log) > Attempts(old(log)) && (part.Some? <==> stuck)
    {
      o := RemovePart();
      if o == Killed { return; }
      var attempt := 1;
      while attempt <= ATTEMPTS
        invariant 1 <= attempt <= ATTEMPTS + 1
        invariant GoodLog(w, log) && archive == None && old(log) <= log && NoneStreamed(log, |old(log)|)
        invariant Attempts(old(log)) + attempt - 1 == Attempts(log)
        invariant old(tick) < tick && Ran(fate, Done, old(tick), tick)
        invariant attempt > 1 ==> Trouble(fate, old(tick), tick)
        invariant part.Some? <==> stuck
      {
        var over;
        o, over := Attempt();
        if over { return; }
        attempt := attempt + 1;
      }
      return Failed;
    }

    /** A fresh archive, checked. */
    method DownloadVerified() returns (o: Outcome)
      requires GoodLog(w, log) && archive == None
      modifies this`tick, this`part, this`archive, this`log, this`stuck
      ensures GoodLog(w, log) && old(log) <= log
      ensures Attempts(log) <= Attempts(old(log)) + 3
      ensures Ran(fate, o, old(tick), tick)
      ensures o == Failed ==> Trouble(fate, old(tick), tick) || Rejected(w, serves, old(tick), tick, archive)
      ensures o == Done ==> archive.Some? && w.sha(archive.value) == w.pin
      ensures ArchiveOnlyRenamed(None, archive, old(log), log)
      ensures o != Killed ==> Attempts(log) > Attempts(old(log)) && (part.Some? <==> stuck)
    {
      o := DownloadWithRetries();
      if o != Done { return; }
      assert log[|log| - 1] == log[|old(log)|..][|log| - 1 - |old(log)|];
      var got: string;
      o, got := HashFile(archive.value);
      if o == Done && got != w.pin { o := Failed; }
    }

    /** A verified archive in place, or a failed build. A cached archive with another digest is
        removed and fetched once more; it is never accepted. Without a failing step, only a
        response with another digest fails the build. */
    method AcquireVerifiedArchive() returns (o: Outcome)
      requires GoodLog(w, log)
      modifies this`tick, this`part, this`archive, this`log, this`stuck
      ensures GoodLog(w, log) && old(log) <= log
      ensures Attempts(log) <= Attempts(old(log)) + 3
      ensures Ran(fate, o, old(tick), tick)
      ensures o == Failed ==> Trouble(fate, old(tick), tick) || Rejected(w, serves, old(tick), tick, archive)
      ensures o == Done ==> archive.Some? && w.sha(archive.value) == w.pin
      ensures ArchiveOnlyRenamed(old(archive), archive, old(log), log)
      ensures Cached(w, old(archive)) ==> archive == old(archive) && log == old(log)
      ensures old(archive).Some? && w.sha(old(archive).value) != w.pin && log != old(log) ==>
                log[|old(log)|] == Discarded
      ensures o == Done && Attempts(log) == Attempts(old(log)) ==> Cached(w, old(archive))
      ensures o != Killed && Attempts(log) == Attempts(old(log)) ==> part == old(part) && stuck == old(stuck)
      ensures o != Killed && Attempts(log) > Attempts(old(log)) ==> (part.Some? <==> stuck)
    {
      if archive.Some? {
        var got: string;
        o, got := HashFile(archive.value);
        if o != Done || got == w.pin { return; }
        o := Step();
        if o != Done { return; }
        archive := None;
        Note(Discarded);
      }
      ghost var begun := log;
      o := DownloadVerified();
      EarlierLog(archive, old(log), begun, log);
    }

    /** Deleting the linked directory node by node; stopping early is ignored by the caller. */
    method RemoveTree() returns (o: Outcome)
      requires Safe(w, marker, staging, tree) && !Promised(marker, tree)
      modifies this`tick, this`tree
      ensures Safe(w, marker, staging, tree) && !Promised(marker, tree)
      ensures Ran(fate, o, old(tick), tick)
      ensures o == Failed <==> Trouble(fate, old(tick), tick)
      ensures o == Done ==> tree == None
    {
      if tree.None? { return Done; }
      while tree.value != map[]
        invariant tree.Some? && Safe(w, marker, staging, tree) && !Promised(marker, tree)
        invariant old(tick) <= tick && forall t: nat | old(tick) <= t < tick :: fate(t) == Done
        decreases tree.value.Keys
      {
        o := Step();
        if o != Done { return; }
        var p :| p in tree.value;
        var rest := tree.value - {p};
        assert HasLib(rest) ==> HasLib(tree.value);
        assert rest.Keys < tree.value.Keys by { assert p in tree.value.Keys && p !in rest.Keys; }
        tree := Some(rest);
      }
      o := Step();
      if o == Done { tree := None; }
    }

    /** Writing one file over whatever is at its path, in pieces; stopping leaves it short. */
    method WriteFile(path: string, data: Bytes) returns (o: Outcome)
      requires staging.Some? && PathsKnown(w, staging.value) && Known(w, path)
      modifies this`tick, this`staging
      ensures staging.Some? && PathsKnown(w, staging.value)
      ensures Ran(fate, o, old(tick), tick) && (o == Failed <==> Trouble(fate, old(tick), tick))
      ensures o == Done ==> staging == Some(old(staging).value[path := File(data)])
    {
      ghost var before := staging.value;
      o := Step();
      if o != Done { return; }
      staging := Some(staging.value[path := File([])]);
      var n := 0;
      while n < |data|
        invariant 0 <= n <= |data| && staging == Some(before[path := File(data[..n])])
        invariant old(tick) < tick && forall t: nat | old(tick) <= t < tick :: fate(t) == Done
      {
        o := Step();
        if o != Done { return; }
        var m: nat :| n < m <= |data|;
        staging := Some(staging.value[path := File(data[..m])]);
        assert before[path := File(data[..n])][path := File(data[..m])] == before[path := File(data[..m])];
        n := m;
      }
      assert data[..n] == data;
      return Done;
    }

    /** Unpacking one entry. */
    method WriteEntry(e: Entry) returns (o: Outcome)
      requires staging.Some? && PathsKnown(w, staging.value) && Known(w, e.path)
      modifies this`tick, this`staging
      ensures staging.Some? && PathsKnown(w, staging.value)
      ensures Ran(fate, o, old(tick), tick) && (o == Failed <==> Trouble(fate, old(tick), tick))
      ensures o == Done ==> staging == Some(old(staging).value[e.path := e.node])
    {
      if e.node.File? {
        o := WriteFile(e.path, e.node.data);
      } else {
        o := Step();
        if o == Done { staging := Some(staging.value[e.path := e.node]); }
      }
    }

    /** Unpacking the entries in order. */
    method WriteEntries(es: seq<Entry>) returns (o: Outcome)
      requires staging.Some? && PathsKnown(w, staging.value) && forall e | e in es :: Known(w, e.path)
      modifies this`tick, this`staging
      ensures staging.Some? && PathsKnown(w, staging.value)
      ensures Ran(fate, o, old(tick), tick) && (o == Failed <==> Trouble(fate, old(tick), tick))
      ensures o == Done ==> staging == Some(Unpack(es, old(staging).value))
    {
      ghost var base := staging.value;
      var i := 0;
      while i < |es|
        invariant 0 <= i <= |es| && old(tick) <= tick && Ran(fate, Done, old(tick), tick)
        invariant !Trouble(fate, old(tick), tick)
        invariant staging == Some(Unpack(es[..i], base)) && PathsKnown(w, staging.value)
      {
        assert es[..i + 1][..i] == es[..i] && es[..i + 1][i] == es[i];
        o := WriteEntry(es[i]);
        if o != Done { return; }
        i := i + 1;
      }
      assert es[..|es|] == es;
      return Done;
    }

    /** Unpacking the verified archive over whatever an earlier build left, half-written files
        included. */
    method Extract() returns (o: Outcome)
      requires Valid() && !Promised(marker, tree)
      requires archive.Some? && w.sha(archive.value) == w.pin
      modifies this`tick, this`staging, this`log
      ensures Valid() && old(log) <= log && Attempts(log) == Attempts(old(log))
      ensures Ran(fate, o, old(tick), tick) && (o == Failed <==> Trouble(fate, old(tick), tick))
      ensures o == Done ==> staging.Some? && Complete(w, staging.value) && Holds(w, staging.value, archive.value)
      ensures o == Done || staging != old(staging) ==> log == old(log) + [Extracting(archive.value)]
    {
      o := Step();
      if o != Done { return; }
      Note(Extracting(archive.value));
      var es := w.untar(archive.value);
      if staging.None? { staging := Some(map[]); }
      ghost var base := staging.value;
      EntriesKnown(w, archive.value);
      o := WriteEntries(es);
      if o == Done {
        UnpackCompletes(w, archive.value, base);
        UnpackHolds(w, archive.value, base);
      }
    }

    /** The fresh directory takes the linked name in one step, which fails on a leftover. */
    method RenameStaging() returns (o: Outcome)
      requires Valid() && !Promised(marker, tree)
      requires staging.Some? && Complete(w, staging.value)
      modifies this`tick, this`staging, this`tree
      ensures Valid()
      ensures Ran(fate, o, old(tick), tick)
      ensures o == Failed <==>
        Trouble(fate, old(tick), tick) || (o != Killed && old(tree).Some? && old(tree).value != map[])
      ensures o == Done ==> tree == old(staging) && Complete(w, tree.value)
      ensures o != Done ==> tree == old(tree) && staging == old(staging)
    {
      o := Step();
      if o != Done { return; }
      if tree.Some? && tree.value != map[] { return Failed; }
      tree, staging := staging, None;
    }

    /** From the verified archive to the marked directory. A leftover that cannot be removed fails
        the build; a marker that cannot be written does not. */
    method Install() returns (o: Outcome)
      requires Valid() && !Promised(marker, tree)
      requires archive.Some? && w.sha(archive.value) == w.pin
      modifies this`tick, this`tree, this`staging, this`marker, this`log
      ensures Valid() && old(log) <= log && Attempts(log) == Attempts(old(log))
      ensures Ran(fate, o, old(tick), tick)
      ensures o == Failed ==> Trouble(fate, old(tick), tick)
      ensures o == Done ==> tree.Some? && Complete(w, tree.value) && Holds(w, tree.value, archive.value)
      ensures o == Done && !marker ==> Trouble(fate, old(tick), tick)
      ensures o != Done ==> marker == old(marker)
    {
      o := RemoveTree();
      if o == Killed { return; }
      o := Extract();
      if o != Done { return; }
      o := RenameStaging();
      if o != Done { return; }
      o := Step();
      if o == Killed { return; }
      if o == Done { marker := true; }
      return Done;
    }

    /** A verified archive, then the directory made from it. */
    method Renew() returns (o: Outcome)
      requires Valid() && !Promised(marker, tree)
      modifies this
      ensures Valid() && old(log) <= log && Attempts(log) <= Attempts(old(log)) + 3
      ensures Ran(fate, o, old(tick), tick)
      ensures o == Failed ==> Trouble(fate, old(tick), tick) || Rejected(w, serves, old(tick), tick, archive)
      ensures o == Done ==> tree.Some? && Complete(w, tree.value)
      ensures o == Done && !marker ==> Trouble(fate, old(tick), tick)
      ensures o != Done ==> marker == old(marker)
      ensures o == Done ==> archive.Some? && Holds(w, tree.value, archive.value)
      ensures ArchiveOnlyRenamed(old(archive), archive, old(log), log)
      ensures Cached(w, old(archive)) ==> Attempts(log) == Attempts(old(log))
      ensures o == Done && Attempts(log) == Attempts(old(log)) ==> Cached(w, old(archive))
      ensures o != Killed && Attempts(log) == Attempts(old(log)) ==> part == old(part) && stuck == old(stuck)
      ensures o != Killed && Attempts(log) > Attempts(old(log)) ==> (part.Some? <==> stuck)
    {
      o := AcquireVerifiedArchive();
      if o != Done { return; }
      ghost var acquired := log;
      o := Install();
      LaterLog(old(archive), archive, old(log), acquired, log);
    }

    /** The branch that downloads: reuse a promised directory, or build one and then mark it. */
    method Provide() returns (o: Outcome)
      requires Valid()
      modifies this
      ensures Valid() && old(log) <= log && Attempts(log) <= Attempts(old(log)) + 3
      ensures Ran(fate, o, old(tick), tick)
      ensures o == Failed ==> Trouble(fate, old(tick), tick) || Rejected(w, serves, old(tick), tick, archive)
      ensures o == Done ==> tree.Some? && Complete(w, tree.value)
      ensures o == Done && !marker ==> Trouble(fate, old(tick), tick)
      ensures o == Failed && marker ==> Trouble(fate, old(tick), tick)
      ensures o == Done && !Promised(old(marker), old(tree)) ==> archive.Some? && Holds(w, tree.value, archive.value)
      ensures Promised(old(marker), old(tree)) ==> o == Done && tree == old(tree) && log == old(log)
      ensures ArchiveOnlyRenamed(old(archive), archive, old(log), log)
      ensures Promised(old(marker), old(tree)) || Cached(w, old(archive)) ==> Attempts(log) == Attempts(old(log))
      ensures o == Done && Attempts(log) == Attempts(old(log)) ==>
        Promised(old(marker), old(tree)) || Cached(w, old(archive))
      ensures o != Killed ==> (part.Some? <==> stuck || (Attempts(log) == Attempts(old(log)) && old(part).Some?))
      ensures o != Killed && Attempts(log) == Attempts(old(log)) ==> part == old(part) && !stuck
    {
      stuck := false;
      if Promised(marker, tree) { return Done; }
      o := Step();
      if o == Killed { return; }
      if o == Done { marker := false; }
      o := Renew();
      AttemptsGrow(old(log), log);
    }

    /** Linking needs the library directory and, on Linux, an unversioned link inside it; it fails
        without a failing step only when the directory or the library is missing. */
    method Link(linux: bool) returns (o: Outcome)
      requires Valid() && tree.Some? && Complete(w, tree.value)
      modifies this`tick, this`tree
      ensures Valid() && tree.Some? && Complete(w, tree.value)
      ensures Ran(fate, o, old(tick), tick)
      ensures o == Failed ==> tree == old(tree) && (Trouble(fate, old(tick), tick) || Unlinkable(tree.value, linux))
      ensures o == Done ==> HasLib(tree.value)
      ensures o == Done && linux && SO_LINK !in tree.value ==> Trouble(fate, old(tick), tick)
      ensures tree == old(tree) || (linux && SO_LINK !in old(tree.value) && exists p | p in old(tree.value) ::
        SO_LINK + "." <= p && tree.value == old(tree.value)[SO_LINK := Node.Link(p[4..])])
    {
      if !HasLib(tree.value) { return Failed; }
      if !linux || SO_LINK in tree.value { return Done; }
      o := Step();
      if o == Killed { return; }
      if o == Failed { return Done; }
      if !HasVersioned(tree.value) { return Failed; }
      o := AddVersioned();
    }

    /** The unversioned link to one of the versioned files. */
    method AddVersioned() returns (o: Outcome)
      requires Valid() && tree.Some? && Complete(w, tree.value) && HasLib(tree.value) && HasVersioned(tree.value)
      requires SO_LINK !in tree.value
      modifies this`tick, this`tree
      ensures Valid() && tree.Some? && Complete(w, tree.value) && HasLib(tree.value)
      ensures o == fate(old(tick)) && tick == old(tick) + 1
      ensures o != Done ==> tree == old(tree)
      ensures o == Done ==> exists p | p in old(tree.value) ::
        SO_LINK + "." <= p && tree.value == old(tree.value)[SO_LINK := Node.Link(p[4..])]
    {
      var p :| p in tree.value && SO_LINK + "." <= p;
      o := Step();
      if o != Done { return; }
      AddLink(w, tree.value, Node.Link(p[4..]));
      HasLibKept(tree.value, tree.value[SO_LINK := Node.Link(p[4..])]);
      tree := Some(tree.value[SO_LINK := Node.Link(p[4..])]);
    }

    /** One build, from any directory an earlier one left behind. A finished build leaves a `.part`
        exactly when its last removal failed, or when one was there and nothing was downloaded;
        a build that succeeds downloads nothing exactly when it reuses the promised directory or
        a cached archive with the pinned digest. Without a failing step, a build fails only over
        a response with another digest or a directory without the library. */
    method Build(linux: bool) returns (o: Outcome)
      requires Valid()
      modifies this
      ensures Valid() && old(log) <= log && Attempts(log) <= Attempts(old(log)) + 3
      ensures Ran(fate, o, old(tick), tick)
      ensures o == Failed ==> Trouble(fate, old(tick), tick) || Rejected(w, serves, old(tick), tick, archive) ||
                              (tree.Some? && Complete(w, tree.value) && Unlinkable(tree.value, linux))
      ensures o == Done ==> tree.Some? && HasLib(tree.value) && Complete(w, tree.value)
      ensures o == Done && !(marker && (linux ==> SO_LINK in tree.value)) ==> Trouble(fate, old(tick), tick)
      ensures ArchiveOnlyRenamed(old(archive), archive, old(log), log)
      ensures Promised(old(marker), old(tree)) || Cached(w, old(archive)) ==> Attempts(log) == Attempts(old(log))
      ensures Promised(old(marker), old(tree)) ==> log == old(log)
      ensures o == Done && Attempts(log) == Attempts(old(log)) ==>
        Promised(old(marker), old(tree)) || Cached(w, old(archive))
      ensures o != Killed ==> (part.Some? <==> stuck || (Attempts(log) == Attempts(old(log)) && old(part).Some?))
      ensures o != Killed && Attempts(log) == Attempts(old(log)) ==> part == old(part) && !stuck
    {
      o := Provide();
      if o != Done { return; }
      o := Link(linux);
    }

    /** What others may do between builds. */
    method Interfere(b: Bytes, archive': Option<Bytes>, part': Option<Bytes>, marker': bool,
                     staging': Option<Tree>, tree': Option<Tree>)
      requires Valid() && Tampered(w, b, marker, tree, marker', staging', tree')
      modifies this
      ensures Valid() && log == old(log)
      ensures archive == archive' && part == part' && marker == marker' && staging == staging' && tree == tree'
    {
      TamperedIsSafe(w, b, marker, tree, marker', staging', tree');
      archive, part, marker, staging, tree := archive', part', marker', staging', tree';
    }
  }

  /** Downloads may rot, vanish or appear, beside each other or not. The directory being extracted
      may hold anything at the archive's paths. The linked directory may become anything, as long
      as the marker or its library directory goes with it, or no file of the archive is lost. */
  predicate Tampered(w: World, b: Bytes, marker: bool, tree: Option<Tree>, marker': bool,
                     staging': Option<Tree>, tree': Option<Tree>)
  {
    && (staging'.Some? ==> w.sha(b) == w.pin && forall p | p in staging'.value :: p in Content(w, b))
    && (!marker' || tree'.None? || !HasLib(tree'.value) ||
        (Promised(marker, tree) && Holds(w, tree.value, b) && SubTree(tree'.value, tree.value) &&
         forall p | p in Content(w, b) :: p in tree'.value))
  }

  lemma {:induction false} TamperedIsSafe(w: World, b: Bytes, marker: bool, tree: Option<Tree>, marker': bool,
                                          staging': Option<Tree>, tree': Option<Tree>)
    requires Promised(marker, tree) ==> Complete(w, tree.value)
    requires Tampered(w, b, marker, tree, marker', staging', tree')
    ensures Safe(w, marker', staging', tree')
  {
    if Promised(marker', tree') {
      assert Holds(w, tree'.value, b);
      assert PathsKnown(w, tree'.value);
    }
  }

  /** A stale `.part` outlives a build that needs no download: one left by a killed build, beside
      an archive that somebody put in place. */
  method StalePartStays(w: World, fate: nat -> Outcome, serves: nat -> seq<Bytes>, b: Bytes, stale: Bytes)
    returns (d: OutDir, o: Outcome)
    requires w.sha(b) == w.pin
    ensures fresh(d) && (o != Killed ==> d.part == Some(stale) && !d.stuck)
  {
    d := new OutDir(w, fate, serves);
    d.Interfere(b, Some(b), Some(stale), false, None, None);
    o := d.Build(true);
  }

  /** The guard looks for the library directory only: a complete directory that lost some of its
      files but not that one, with the marker kept, is believed although it is not complete. */
  lemma {:induction false} PartialDirectoryBelieved() returns (w: World, b: Bytes, t: Tree, t': Tree)
    ensures OnlyArchive(w, b) && Complete(w, t) && SubTree(t', t)
    ensures Promised(true, Some(t')) && !Complete(w, t')
  {
    var es := [Entry("lib/a", File([])), Entry("lib/b", File([]))];
    w := World((x: Bytes) => if x == [] then "digest" else "other", _ => es, "digest");
    b, t, t' := [], Unpack(es, map[]), map["lib/a" := File([])];
    UnpackCompletes(w, b, map[]);
    PathUnpacked(es, 0);
    PathUnpacked(es, 1);
    assert es[..1] == [es[0]] && es[..1][..0] == [];
    assert Unpack(es[..1], map[]) == map["lib/a" := File([])];
    assert t["lib/a"] == File([]);
    assert "lib/a" in t' && "lib/" <= "lib/a";
    GuardRightIff(w, b, true, t, t');
  }

  /** Any number of builds, each possibly interrupted, with interference in between: every
      build that reaches linking links a complete extraction of a pinned archive, which is
      exactly that archive's content if no other archive has the digest. */
  method Builds(d: OutDir, n: nat, linux: bool) returns (ghost linked: seq<Tree>)
    requires d.Valid()
    modifies d
    ensures d.Valid()
    ensures forall i | 0 <= i < |linked| :: HasLib(linked[i]) && Complete(d.w, linked[i])
    ensures forall b, i | OnlyArchive(d.w, b) && 0 <= i < |linked| :: Exact(d.w, b, linked[i])
    ensures Attempts(d.log) <= Attempts(old(d.log)) + 3 * n
  {
    linked := [];
    for k := 0 to n
      invariant d.Valid()
      invariant forall i | 0 <= i < |linked| :: HasLib(linked[i]) && Complete(d.w, linked[i])
      invariant Attempts(d.log) <= Attempts(old(d.log)) + 3 * k
    {
      var b: Bytes, archive: Option<Bytes>, part: Option<Bytes> := *, *, *;
      var marker: bool, staging: Option<Tree>, tree: Option<Tree> := *, *, *;
      if Tampered(d.w, b, d.marker, d.tree, marker, staging, tree) {
        d.Interfere(b, archive, part, marker, staging, tree);
      }
      var o := d.Build(linux);
      if o == Done {
        linked := linked + [d.tree.value];
      }
    }
    forall b, i | OnlyArchive(d.w, b) && 0 <= i < |linked|
      ensures Exact(d.w, b, linked[i])
    {
      UniquePinMeansExact(d.w, b, linked[i]);
    }
  }

  /** Every archive with the pinned digest holds the library. */
  ghost predicate Sound(w: World) {
    forall b: Bytes | w.sha(b) == w.pin :: HasLib(Content(w, b)) && HasVersioned(Content(w, b))
  }

  /** From this time on no step fails, and requests are answered with a pinned archive. */
  ghost predicate Quiet(w: World, fate: nat -> Outcome, serves: nat -> seq<Bytes>, now: nat) {
    && (forall t: nat | now <= t :: fate(t) == Done)
    && (forall t: nat | now <= t :: w.sha(Body(serves(t))) == w.pin)
  }

  lemma {:induction false} CompleteIsSound(w: World, t: Tree)
    requires Sound(w) && Complete(w, t)
    ensures HasLib(t) && HasVersioned(t)
  {
    var b: Bytes :| Holds(w, t, b);
    HasLibKept(Content(w, b), t);
    var p :| p in Content(w, b) && SO_LINK + "." <= p;
    assert p in t;
  }

  /** Whatever earlier builds and others left behind, once nothing fails any more a build succeeds;
      the next one finds everything in place and fetches and unpacks nothing. */
  method Recovers(d: OutDir, linux: bool) returns (first: Outcome, second: Outcome)
    requires d.Valid() && Sound(d.w) && Quiet(d.w, d.fate, d.serves, d.tick)
    modifies d
    ensures d.Valid() && first == Done && second == Done
    ensures Promised(d.marker, d.tree) && Complete(d.w, d.tree.value) && (linux ==> SO_LINK in d.tree.value)
    ensures Attempts(d.log) <= Attempts(old(d.log)) + 3
  {
    first := QuietBuild(d, linux);
    ghost var done := d.log;
    second := QuietBuild(d, linux);
    assert d.log == done;
  }

  method QuietBuild(d: OutDir, linux: bool) returns (o: Outcome)
    requires d.Valid() && Sound(d.w) && Quiet(d.w, d.fate, d.serves, d.tick)
    modifies d
    ensures d.Valid() && Quiet(d.w, d.fate, d.serves, d.tick) && o == Done
    ensures Promised(d.marker, d.tree) && Complete(d.w, d.tree.value) && (linux ==> SO_LINK in d.tree.value)
    ensures Attempts(d.log) <= Attempts(old(d.log)) + 3
    ensures Promised(old(d.marker), old(d.tree)) ==> d.log == old(d.log)
  {
    o := d.Build(linux);
    if d.tree.Some? && Complete(d.w, d.tree.value) {
      CompleteIsSound(d.w, d.tree.value);
    }
  }

  lemma {:induction false} HasLibKept(t: Tree, u: Tree)
    requires HasLib(t) && forall p | p in t :: p in u && u[p] == t[p]
    ensures HasLib(u)
  {
    if !("lib" in t && t["lib"].Dir?) {
      var p :| p in t && "lib/" <= p;
      assert p in u;
    }
  }

  lemma {:induction false} AddLink(w: World, t: Tree, n: Node)
    requires Complete(w, t) && SO_LINK !in t && n.Link?
    ensures Complete(w, t[SO_LINK := n])
  {
    var u := t[SO_LINK := n];
    var b: Bytes :| Holds(w, t, b);
    assert Holds(w, u, b);
    assert PathsKnown(w, u);
  }
}
