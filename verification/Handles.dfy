/** Collecting the opaque handle types that emitted code mentions. */
module Handles {
  import opened Text

  // ── Strings in the order of an ordered set ───────────────────────────────────────────

  predicate Less(a: string, b: string) {
    if b == "" then false
    else if a == "" then true
    else a[0] < b[0] || (a[0] == b[0] && Less(a[1..], b[1..]))
  }

  lemma {:induction false} LessTrans(a: string, b: string, c: string)
    requires Less(a, b) && Less(b, c)
    ensures Less(a, c)
  {
    if a != "" && a[0] == b[0] && b[0] == c[0] {
      LessTrans(a[1..], b[1..], c[1..]);
    }
  }

  lemma {:induction false} LessTotal(a: string, b: string)
    ensures Less(a, b) || a == b || Less(b, a)
    ensures !(Less(a, b) && Less(b, a))
    ensures !Less(a, a)
  {
    if a != "" {
      LessTotal(a[1..], a[1..]);
      if b != "" {
        LessTotal(a[1..], b[1..]);
        assert a == [a[0]] + a[1..] && b == [b[0]] + b[1..];
      }
    }
  }

  /** Strictly increasing, hence without duplicates. */
  predicate Sorted(xs: seq<string>) {
    forall i, j | 0 <= i < j < |xs| :: Less(xs[i], xs[j])
  }

  /** Ordered insertion; a present element stays single. */
  function Insert(xs: seq<string>, x: string): seq<string> {
    if xs == [] then [x]
    else if xs[0] == x then xs
    else if Less(x, xs[0]) then [x] + xs
    else [xs[0]] + Insert(xs[1..], x)
  }

  lemma {:induction false} InsertKeepsOrder(xs: seq<string>, x: string)
    requires Sorted(xs)
    ensures Sorted(Insert(xs, x))
    ensures forall y :: y in Insert(xs, x) <==> y == x || y in xs
  {
    if xs != [] && xs[0] != x {
      assert xs == [xs[0]] + xs[1..];
      LessTotal(x, xs[0]);
      if Less(x, xs[0]) {
        forall j | 0 < j < |xs|
          ensures Less(x, xs[j])
        {
          LessTrans(x, xs[0], xs[j]);
        }
      } else {
        var r := Insert(xs[1..], x);
        InsertKeepsOrder(xs[1..], x);
        forall j | 0 <= j < |r|
          ensures Less(xs[0], r[j])
        {
          assert r[j] in r;
          if r[j] != x {
            var k :| 0 <= k < |xs[1..]| && xs[1..][k] == r[j];
            assert xs[k + 1] == r[j];
          }
        }
      }
    }
  }

  /** A strictly sorted list is determined by its elements. */
  lemma {:induction false} SortedUnique(xs: seq<string>, ys: seq<string>)
    requires Sorted(xs) && Sorted(ys) && forall z :: z in xs <==> z in ys
    ensures xs == ys
  {
    assert ys != [] ==> ys[0] in ys;
    if xs != [] {
      assert xs[0] in xs && xs[0] in ys && ys[0] in xs;
      FirstIsLeast(xs, ys[0]);
      FirstIsLeast(ys, xs[0]);
      LessTotal(xs[0], ys[0]);
      assert xs == [xs[0]] + xs[1..] && ys == [ys[0]] + ys[1..];
      forall z
        ensures z in xs[1..] <==> z in ys[1..]
      {
        FirstNotLater(xs);
        FirstNotLater(ys);
        assert z in xs <==> z == xs[0] || z in xs[1..];
        assert z in ys <==> z == ys[0] || z in ys[1..];
      }
      SortedUnique(xs[1..], ys[1..]);
    }
  }

  lemma {:induction false} FirstIsLeast(xs: seq<string>, z: string)
    requires Sorted(xs) && z in xs
    ensures z == xs[0] || Less(xs[0], z)
  {
  }

  lemma {:induction false} FirstNotLater(xs: seq<string>)
    requires Sorted(xs) && xs != []
    ensures xs[0] !in xs[1..]
  {
    LessTotal(xs[0], xs[0]);
    forall k | 0 <= k < |xs| - 1
      ensures xs[1..][k] != xs[0]
    {
      assert Less(xs[0], xs[k + 1]);
    }
  }

  // ── Identifier runs ──────────────────────────────────────────────────────────────────

  const SUFFIX := "Handle"

  predicate EndsInHandle(t: string) {
    |SUFFIX| <= |t| && t[|t| - |SUFFIX|..] == SUFFIX
  }

  /** Types written by hand elsewhere, not declared as opaque handles. */
  const HAND_WRITTEN := ["CustomThreadHandle", "CustomCreateThreadFnHandle", "CustomJoinThreadFnHandle"]

  predicate Wanted(t: string) { EndsInHandle(t) && t !in HAND_WRITTEN }

  /** Wanted are the names ending in `Handle`, except the three that are written by hand. */
  lemma {:induction false} WantedIff(t: string)
    ensures Wanted(t) <==>
            && (exists x :: t == x + "Handle")
            && t != "CustomThreadHandle" && t != "CustomCreateThreadFnHandle" && t != "CustomJoinThreadFnHandle"
  {
    if EndsInHandle(t) {
      assert t == t[..|t| - |SUFFIX|] + "Handle";
    }
    forall x | t == x + "Handle"
      ensures EndsInHandle(t)
    {
      assert t[|x|..] == "Handle";
    }
  }

  /** `[a, b)` is a maximal run of word characters. */
  predicate Run(s: string, word: char -> bool, a: nat, b: nat) {
    && a < b <= |s|
    && (forall k | a <= k < b :: word(s[k]))
    && (a > 0 ==> !word(s[a - 1]))
    && (b < |s| ==> !word(s[b]))
  }

  /** `h` is a wanted run of `s` that ends before position `n`. */
  ghost predicate FoundBefore(s: string, word: char -> bool, n: nat, h: string) {
    exists a: nat, b: nat :: b < n && Run(s, word, a, b) && s[a..b] == h && Wanted(h)
  }

  ghost predicate FoundIn(s: string, word: char -> bool, h: string) {
    FoundBefore(s, word, |s| + 1, h)
  }

  /** What the collected list is: sorted, duplicate-free, exactly the wanted runs. */
  ghost predicate IsHandleList(hs: seq<string>, snips: seq<string>, word: char -> bool) {
    && Sorted(hs)
    && (forall h :: h in hs <==> exists k :: 0 <= k < |snips| && FoundIn(snips[k], word, h))
  }

  method CollectHandles(snips: seq<string>, word: char -> bool) returns (hs: seq<string>)
    ensures IsHandleList(hs, snips, word)
  {
    hs := [];
    var k := 0;
    while k < |snips|
      invariant 0 <= k <= |snips|
      invariant Sorted(hs)
      invariant forall h :: h in hs <==> exists j :: 0 <= j < k && FoundIn(snips[j], word, h)
    {
      ghost var before := hs;
      hs := CollectFrom(hs, snips[k], word);
      forall h
        ensures h in hs <==> exists j :: 0 <= j < k + 1 && FoundIn(snips[j], word, h)
      {
        assert h in hs <==> h in before || FoundIn(snips[k], word, h);
      }
      k := k + 1;
    }
  }

  /** One snippet: cut it at every non-word character and insert the wanted pieces. */
  method CollectFrom(hs0: seq<string>, s: string, word: char -> bool) returns (hs: seq<string>)
    requires Sorted(hs0)
    ensures Sorted(hs)
    ensures forall h :: h in hs <==> h in hs0 || FoundIn(s, word, h)
  {
    hs := hs0;
    var start, i := 0, 0;
    while i <= |s|
      invariant 0 <= start <= i <= |s| + 1 && (i == |s| + 1 ==> start == i)
      invariant forall k | start <= k < i && k < |s| :: word(s[k])
      invariant start > 0 && start <= |s| ==> !word(s[start - 1])
      invariant Sorted(hs)
      invariant forall h :: h in hs <==> h in hs0 || FoundBefore(s, word, start, h)
    {
      if i == |s| || !word(s[i]) {
        var tok := s[start..i];
        ghost var before := hs;
        if Wanted(tok) {
          InsertKeepsOrder(hs, tok);
          hs := Insert(hs, tok);
        }
        forall h
          ensures FoundBefore(s, word, i + 1, h) <==> FoundBefore(s, word, start, h) || (h == tok && Wanted(tok))
        {
          RunsUpTo(s, word, start, i, h);
        }
        start := i + 1;
      }
      i := i + 1;
    }
  }

  /** Between two cuts lies exactly one run, the text between them, unless that is empty. */
  lemma {:induction false} RunsUpTo(s: string, word: char -> bool, start: nat, i: nat, h: string)
    requires start <= i <= |s| && (i < |s| ==> !word(s[i]))
    requires forall k | start <= k < i :: word(s[k])
    requires start > 0 ==> !word(s[start - 1])
    ensures FoundBefore(s, word, i + 1, h) <==>
            FoundBefore(s, word, start, h) || (h == s[start..i] && Wanted(h))
  {
    if h == s[start..i] && Wanted(h) {
      assert Run(s, word, start, i);
    }
    if FoundBefore(s, word, i + 1, h) && !FoundBefore(s, word, start, h) {
      var a: nat, b: nat :| b < i + 1 && Run(s, word, a, b) && s[a..b] == h && Wanted(h);
      OnlyRun(s, word, start, i, a, b);
    }
  }

  lemma {:induction false} OnlyRun(s: string, word: char -> bool, start: nat, i: nat, a: nat, b: nat)
    requires start <= i <= |s| && (i < |s| ==> !word(s[i]))
    requires forall k | start <= k < i :: word(s[k])
    requires start > 0 ==> !word(s[start - 1])
    requires Run(s, word, a, b) && start <= b <= i
    ensures a == start && b == i
  {
  }

  /** Surrounding a text by non-word characters keeps its runs. */
  lemma {:induction false} FoundInContext(a: string, t: string, b: string, word: char -> bool, h: string)
    requires a == "" || !word(a[|a| - 1])
    requires b == "" || !word(b[0])
    requires FoundIn(t, word, h)
    ensures FoundIn(a + t + b, word, h)
  {
    var i: nat, j: nat :| j < |t| + 1 && Run(t, word, i, j) && t[i..j] == h && Wanted(h);
    RunShift(a, t, b, word, i, j);
  }

  lemma {:induction false} RunShift(a: string, t: string, b: string, word: char -> bool, i: nat, j: nat)
    requires a == "" || !word(a[|a| - 1])
    requires b == "" || !word(b[0])
    requires Run(t, word, i, j)
    ensures Run(a + t + b, word, |a| + i, |a| + j)
    ensures (a + t + b)[|a| + i..|a| + j] == t[i..j]
  {
    var s := a + t + b;
    Shifted(a, t, b);
    assert i == 0 && a != "" ==> s[|a| - 1] == a[|a| - 1];
    assert i > 0 ==> s[|a| + i - 1] == t[i - 1];
    assert j == |t| && b != "" ==> s[|a| + |t|] == b[0];
    assert j < |t| ==> s[|a| + j] == t[j];
  }

  lemma {:induction false} Shifted(a: string, t: string, b: string)
    ensures var s := a + t + b;
            && |s| == |a| + |t| + |b| && s[|a|..|a| + |t|] == t
            && forall k | |a| <= k < |a| + |t| :: s[k] == t[k - |a|]
  {
  }
}
