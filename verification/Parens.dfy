/** The depth-aware scanners of the binding compiler: finding the parenthesis that closes a
    group, and splitting a parameter list at its top-level commas. */
module Parens {
  import opened Text

  // ── Reference notions, stated without reference to the scanners ──────────────────────

  /** Read from nesting depth `d`, `s` never closes more than it opened and ends at depth 0. */
  predicate BalancedFrom(s: string, d: nat) {
    if s == "" then d == 0
    else if s[0] == '(' then BalancedFrom(s[1..], d + 1)
    else if s[0] == ')' then d > 0 && BalancedFrom(s[1..], d - 1)
    else BalancedFrom(s[1..], d)
  }

  predicate Balanced(s: string) { BalancedFrom(s, 0) }

  /** Balanced from depth `d`, and no comma stands at depth 0: one element of a list. */
  predicate ItemFrom(s: string, d: nat) {
    if s == "" then d == 0
    else if s[0] == '(' then ItemFrom(s[1..], d + 1)
    else if s[0] == ')' then d > 0 && ItemFrom(s[1..], d - 1)
    else if s[0] == ',' then d > 0 && ItemFrom(s[1..], d)
    else ItemFrom(s[1..], d)
  }

  predicate Item(s: string) { ItemFrom(s, 0) }

  /** Number of commas of `s` at depth 0, read from depth `d`. */
  function TopCommas(s: string, d: int): nat {
    if s == "" then 0
    else (if s[0] == ',' && d == 0 then 1 else 0) + TopCommas(s[1..], d + Shift(s[0]))
  }

  function Shift(c: char): int {
    if c == '(' then 1 else if c == ')' then -1 else 0
  }

  // ── Closing parenthesis ──────────────────────────────────────────────────────────────

  /** Position of the parenthesis closing the group that `s` continues at depth `d`. */
  function CloseFrom(s: string, d: nat): Option<nat> {
    if s == "" then None
    else if s[0] == ')' && d == 0 then Some(0)
    else
      var r := CloseFrom(s[1..], if s[0] == ')' then d - 1 else d + Shift(s[0]));
      if r.None? then None else Some(r.value + 1)
  }

  function MatchClose(s: string): Option<nat> { CloseFrom(s, 0) }

  method MatchCloseParen(s: string) returns (r: Option<nat>)
    ensures r == MatchClose(s)
  {
    var depth := 0;
    var i := 0;
    while i < |s|
      invariant 0 <= i <= |s| && 0 <= depth
      invariant MatchClose(s) ==
                var rest := CloseFrom(s[i..], depth);
                if rest.None? then None else Some(i + rest.value)
    {
      assert s[i..][0] == s[i] && s[i..][1..] == s[i + 1..];
      if s[i] == '(' {
        depth := depth + 1;
      } else if s[i] == ')' {
        if depth == 0 {
          return Some(i);
        }
        depth := depth - 1;
      }
      i := i + 1;
    }
    return None;
  }

  /** The closing parenthesis of a balanced group is found, whatever follows it. */
  lemma {:induction false} CloseAfterBalanced(p: string, d: nat, t: string)
    requires BalancedFrom(p, d)
    ensures CloseFrom(p + ")" + t, d) == Some(|p|)
  {
    if p != "" {
      var s := p + ")" + t;
      assert s[0] == p[0] && s[1..] == p[1..] + ")" + t;
      CloseAfterBalanced(p[1..], if p[0] == ')' then d - 1 else d + Shift(p[0]), t);
    }
  }

  /** Position `k` is returned exactly when it holds a `)` whose prefix is balanced; nothing is
      returned exactly when there is no such position. */
  lemma {:induction false} CloseIff(s: string, d: nat, k: nat)
    ensures CloseFrom(s, d) == Some(k) <==> k < |s| && s[k] == ')' && BalancedFrom(s[..k], d)
  {
    if s != "" && k > 0 {
      if k < |s| {
        assert s[..k][0] == s[0] && s[..k][1..] == s[1..][..k - 1];
      }
      if !(s[0] == ')' && d == 0) {
        CloseIff(s[1..], if s[0] == ')' then d - 1 else d + Shift(s[0]), k - 1);
      }
    }
  }

  // ── Splitting at top-level commas ────────────────────────────────────────────────────

  /** The untrimmed pieces of `s` between its depth-0 commas, read from depth `d`. */
  function RawSplit(s: string, d: int): (r: seq<string>)
    ensures r != []
  {
    if s == "" then [""]
    else
      var r := RawSplit(s[1..], d + Shift(s[0]));
      if s[0] == ',' && d == 0 then [""] + r else Glue([s[0]], r)
  }

  /** Put `a` in front of the first piece. */
  function Glue(a: string, r: seq<string>): (g: seq<string>)
    requires r != []
    ensures |g| == |r| && g[0] == a + r[0] && g[1..] == r[1..]
  {
    [a + r[0]] + r[1..]
  }

  /** Trimmed pieces, without the last one when that is blank. */
  function Finish(r: seq<string>): seq<string>
    requires r != []
  {
    var last := Trim(r[|r| - 1]);
    TrimAll(r[..|r| - 1]) + (if last == "" then [] else [last])
  }

  function SplitTop(s: string): seq<string> { Finish(RawSplit(s, 0)) }

  method SplitTopLevel(c: string) returns (out: seq<string>)
    ensures out == SplitTop(c)
  {
    out := [];
    var depth: int := 0;
    var cur := "";
    var i := 0;
    ghost var raw: seq<string> := [];
    assert c[0..] == c;
    GlueNothing(RawSplit(c, 0));
    while i < |c|
      invariant 0 <= i <= |c|
      invariant out == TrimAll(raw)
      invariant RawSplit(c, 0) == raw + Glue(cur, RawSplit(c[i..], depth))
    {
      var ch := c[i];
      NextChar(raw, cur, c[i..], depth);
      assert c[i..][1..] == c[i + 1..];
      if ch == ',' && depth == 0 {
        out := out + [Trim(cur)];
        raw := raw + [cur];
        cur := "";
      } else {
        cur := cur + [ch];
        depth := depth + Shift(ch);
      }
      i := i + 1;
    }
    LastPiece(raw, cur, RawSplit(c[i..], depth));
    if Trim(cur) != "" {
      out := out + [Trim(cur)];
    }
  }

  lemma {:induction false} LastPiece(raw: seq<string>, cur: string, rest: seq<string>)
    requires rest == [""]
    ensures Finish(raw + Glue(cur, rest)) == TrimAll(raw) + if Trim(cur) == "" then [] else [Trim(cur)]
  {
    CutPiece(raw, cur, rest);
  }

  lemma {:induction false} NextChar(raw: seq<string>, cur: string, s: string, depth: int)
    requires s != ""
    ensures TrimAll(raw + [cur]) == TrimAll(raw) + [Trim(cur)]
    ensures raw + Glue(cur, RawSplit(s, depth)) ==
            if s[0] == ',' && depth == 0 then (raw + [cur]) + Glue("", RawSplit(s[1..], depth))
            else raw + Glue(cur + [s[0]], RawSplit(s[1..], depth + Shift(s[0])))
  {
    var rest := RawSplit(s[1..], depth + Shift(s[0]));
    CutPiece(raw, cur, rest);
    GlueGlue(cur, [s[0]], rest);
  }

  /** Closing the current piece, in the loop of the splitter. */
  lemma {:induction false} CutPiece(raw: seq<string>, cur: string, rest: seq<string>)
    requires rest != []
    ensures raw + Glue(cur, [""] + rest) == (raw + [cur]) + Glue("", rest)
    ensures TrimAll(raw + [cur]) == TrimAll(raw) + [Trim(cur)]
    ensures Glue(cur, [""]) == [cur] && (raw + [cur])[..|raw|] == raw
  {
    assert cur + "" == cur;
    GlueNothing(rest);
    assert Glue(cur, [""] + rest) == [cur] + rest;
  }

  lemma {:induction false} GlueNothing(r: seq<string>)
    requires r != []
    ensures Glue("", r) == r
  {
    assert "" + r[0] == r[0];
  }

  lemma {:induction false} GlueGlue(a: string, b: string, r: seq<string>)
    requires r != []
    ensures Glue(a, Glue(b, r)) == Glue(a + b, r)
  {
    assert a + (b + r[0]) == (a + b) + r[0];
  }

  /** The pieces rejoin to the input, and there is one more of them than top-level commas. */
  lemma {:induction false} SplitRejoins(s: string, d: int)
    ensures Join(RawSplit(s, d), ",") == s
    ensures |RawSplit(s, d)| == TopCommas(s, d) + 1
  {
    if s != "" {
      var r := RawSplit(s[1..], d + Shift(s[0]));
      SplitRejoins(s[1..], d + Shift(s[0]));
      assert s == [s[0]] + s[1..];
      if s[0] == ',' && d == 0 {
        assert ([""] + r)[1..] == r;
      } else {
        JoinGlue([s[0]], r);
      }
    }
  }

  lemma {:induction false} JoinGlue(a: string, r: seq<string>)
    requires r != []
    ensures Join(Glue(a, r), ",") == a + Join(r, ",")
  {
    if |r| > 1 {
      assert a + (r[0] + "," + Join(r[1..], ",")) == (a + r[0]) + "," + Join(r[1..], ",");
    }
  }

  /** Every piece of a balanced string is balanced and has no top-level comma. */
  lemma {:induction false} PiecesAreItems(s: string, d: nat)
    requires BalancedFrom(s, d)
    ensures ItemFrom(RawSplit(s, d)[0], d)
    ensures forall i | 0 < i < |RawSplit(s, d)| :: Item(RawSplit(s, d)[i])
  {
    if s != "" {
      var d' := d + Shift(s[0]);
      var r := RawSplit(s[1..], d');
      PiecesAreItems(s[1..], d');
      if !(s[0] == ',' && d == 0) {
        assert ([s[0]] + r[0])[1..] == r[0];
        assert forall i | 0 < i < |r| :: Glue([s[0]], r)[i] == r[1..][i - 1] == r[i];
      }
    }
  }

  /** One item followed by a comma is one piece; an item alone is the only piece. */
  lemma {:induction false} SplitItem(p: string, d: nat, t: string)
    requires ItemFrom(p, d)
    ensures RawSplit(p + "," + t, d) == [p] + RawSplit(t, 0)
    ensures RawSplit(p, d) == [p]
  {
    if p == "" {
      assert p + "," + t == "," + t;
      assert ("," + t)[1..] == t;
    } else {
      var s := p + "," + t;
      assert s[0] == p[0] && s[1..] == p[1..] + "," + t;
      SplitItem(p[1..], d + Shift(p[0]), t);
      assert p == [p[0]] + p[1..];
      assert Glue([p[0]], [p[1..]] + RawSplit(t, 0)) == [p] + RawSplit(t, 0);
      assert Glue([p[0]], [p[1..]]) == [p];
    }
  }

  /** Splitting undoes joining: items joined by commas come back one by one. */
  lemma {:induction false} SplitInvertsJoin(ps: seq<string>)
    requires ps != [] && forall i | 0 <= i < |ps| :: Item(ps[i])
    ensures RawSplit(Join(ps, ","), 0) == ps
  {
    if |ps| == 1 {
      SplitItem(ps[0], 0, "");
    } else {
      SplitInvertsJoin(ps[1..]);
      SplitItem(ps[0], 0, Join(ps[1..], ","));
      assert ps == [ps[0]] + ps[1..];
    }
  }

  /** The whole splitter on a joined list whose last item is not blank. */
  lemma {:induction false} SplitTopOfJoin(ps: seq<string>)
    requires ps != [] && forall i | 0 <= i < |ps| :: Item(ps[i])
    requires !Blank(ps[|ps| - 1])
    ensures SplitTop(Join(ps, ",")) == TrimAll(ps)
  {
    SplitInvertsJoin(ps);
    FinishKeeps(ps);
  }

  lemma {:induction false} FinishKeeps(ps: seq<string>)
    requires ps != [] && !Blank(ps[|ps| - 1])
    ensures Finish(ps) == TrimAll(ps)
  {
    TrimBlank(ps[|ps| - 1]);
    assert TrimAll(ps) == TrimAll(ps[..|ps| - 1]) + [Trim(ps[|ps| - 1])];
  }

  /** A blank last item is dropped. */
  lemma {:induction false} BlankLastDropped(ps: seq<string>)
    requires ps != [] && forall i | 0 <= i < |ps| :: Item(ps[i])
    requires Blank(ps[|ps| - 1])
    ensures SplitTop(Join(ps, ",")) == TrimAll(ps[..|ps| - 1])
  {
    SplitInvertsJoin(ps);
    TrimBlank(ps[|ps| - 1]);
  }

  /** Rejoining up to trimming, for a balanced list with a non-blank last element: the pieces
      are the trimmed items of one decomposition of the text, one more than its commas. */
  lemma {:induction false} SplitTopIsInverse(s: string) returns (raw: seq<string>)
    requires Balanced(s)
    requires !Blank(RawSplit(s, 0)[|RawSplit(s, 0)| - 1])
    ensures Join(raw, ",") == s && SplitTop(s) == TrimAll(raw)
    ensures |SplitTop(s)| == TopCommas(s, 0) + 1
    ensures forall i | 0 <= i < |raw| :: Item(raw[i])
  {
    raw := RawSplit(s, 0);
    SplitRejoins(s, 0);
    PiecesAreItems(s, 0);
    SplitTopOfJoin(raw);
  }

  // ── Blank ends do not matter ─────────────────────────────────────────────────────────

  lemma {:induction false} SplitPlainPrefix(a: string, t: string, d: int)
    requires Free(a, "(),")
    ensures RawSplit(a + t, d) == Glue(a, RawSplit(t, d))
  {
    if a == "" {
      assert a + t == t;
      GlueNothing(RawSplit(t, d));
    } else {
      assert (a + t)[0] == a[0] && (a + t)[1..] == a[1..] + t;
      SplitPlainPrefix(a[1..], t, d);
      GlueGlue([a[0]], a[1..], RawSplit(t, d));
      assert a == [a[0]] + a[1..];
    }
  }

  /** Put `b` behind the last piece. */
  function GlueEnd(r: seq<string>, b: string): (g: seq<string>)
    requires r != []
    ensures |g| == |r|
  {
    r[..|r| - 1] + [r[|r| - 1] + b]
  }

  lemma {:induction false} GlueBothEnds(a: string, r: seq<string>, b: string)
    requires r != []
    ensures Glue(a, GlueEnd(r, b)) == GlueEnd(Glue(a, r), b)
  {
    if |r| == 1 {
      assert a + (r[0] + b) == (a + r[0]) + b;
    }
  }

  lemma {:induction false} SplitPlain(b: string, d: int)
    requires Free(b, "(),")
    ensures RawSplit(b, d) == [b] == GlueEnd([""], b)
  {
    SplitPlainPrefix(b, "", d);
    assert b == b + "" == "" + b;
  }

  lemma {:induction false} SplitPlainSuffix(t: string, b: string, d: int)
    requires Free(b, "(),")
    ensures RawSplit(t + b, d) == GlueEnd(RawSplit(t, d), b)
  {
    if t == "" {
      SplitPlain(b, d);
      assert t + b == b;
    } else {
      SplitPlainSuffix(t[1..], b, d + Shift(t[0]));
      SuffixCons(t[0], t[1..], b, d);
      assert t + b == [t[0]] + (t[1..] + b) && t == [t[0]] + t[1..];
    }
  }

  lemma {:induction false} SuffixCons(c: char, s: string, b: string, d: int)
    requires RawSplit(s + b, d + Shift(c)) == GlueEnd(RawSplit(s, d + Shift(c)), b)
    ensures RawSplit([c] + (s + b), d) == GlueEnd(RawSplit([c] + s, d), b)
  {
    var r := RawSplit(s, d + Shift(c));
    SplitCons(c, s + b, d);
    SplitCons(c, s, d);
    GlueBothEnds([c], r, b);
    assert GlueEnd([""] + r, b) == [""] + GlueEnd(r, b);
  }

  lemma {:induction false} SplitCons(c: char, s: string, d: int)
    ensures var r := RawSplit(s, d + Shift(c));
            RawSplit([c] + s, d) == if c == ',' && d == 0 then [""] + r else Glue([c], r)
  {
    assert ([c] + s)[1..] == s;
  }

  lemma {:induction false} FinishIgnoresBlankEnds(r: seq<string>, a: string)
    requires r != [] && Blank(a)
    ensures Finish(Glue(a, r)) == Finish(r)
    ensures Finish(GlueEnd(r, a)) == Finish(r)
  {
    var n := |r| - 1;
    TrimAround(a, r[0], "");
    assert a + r[0] + "" == a + r[0];
    TrimAround("", r[n], a);
    assert "" + r[n] + a == r[n] + a;
    var g := Glue(a, r);
    assert forall i | 0 < i <= n :: g[i] == g[1..][i - 1] == r[1..][i - 1] == r[i];
    assert TrimAll(g[..n]) == TrimAll(r[..n]);
    assert GlueEnd(r, a)[..n] == r[..n];
  }

  /** Trimming a list before splitting it changes nothing. */
  lemma {:induction false} SplitTopTrim(s: string)
    ensures SplitTop(Trim(s)) == SplitTop(s)
  {
    var a, b := TrimSplits(s);
    var t := Trim(s);
    assert s == a + (t + b);
    SplitPlainSuffix(t, b, 0);
    SplitPlainPrefix(a, t + b, 0);
    FinishIgnoresBlankEnds(RawSplit(t + b, 0), a);
    FinishIgnoresBlankEnds(RawSplit(t, 0), b);
  }

  // ── Building balanced text ───────────────────────────────────────────────────────────

  lemma {:induction false} PlainIsItem(s: string)
    requires Free(s, "(),")
    ensures Item(s) && Balanced(s)
  {
    if s != "" { PlainIsItem(s[1..]); }
  }

  lemma {:induction false} ItemConcat(a: string, d: nat, b: string)
    requires ItemFrom(a, d) && Item(b)
    ensures ItemFrom(a + b, d)
  {
    if a == "" {
      assert a + b == b;
    } else {
      assert (a + b)[0] == a[0] && (a + b)[1..] == a[1..] + b;
      ItemConcat(a[1..], d + Shift(a[0]), b);
    }
  }

  /** A balanced text between parentheses is one item, commas and all. */
  lemma {:induction false} GroupIsItem(x: string)
    requires Balanced(x)
    ensures Item("(" + x + ")")
  {
    assert ("(" + x + ")")[1..] == x + ")";
    Raise(x, 0);
  }

  lemma {:induction false} Raise(x: string, d: nat)
    requires BalancedFrom(x, d)
    ensures ItemFrom(x + ")", d + 1)
  {
    if x != "" {
      assert (x + ")")[0] == x[0] && (x + ")")[1..] == x[1..] + ")";
      Raise(x[1..], d + Shift(x[0]));
    } else {
      assert x + ")" == ")" && ")"[1..] == "";
    }
  }

  lemma {:induction false} ItemsJoinBalanced(ps: seq<string>)
    requires forall i | 0 <= i < |ps| :: Item(ps[i])
    ensures Balanced(Join(ps, ","))
  {
    if |ps| == 1 {
      ItemThenBalanced(ps[0], 0, "");
      assert ps[0] + "" == ps[0];
    } else if ps != [] {
      ItemsJoinBalanced(ps[1..]);
      var t := Join(ps[1..], ",");
      assert ("," + t)[1..] == t;
      ItemThenBalanced(ps[0], 0, "," + t);
      assert ps[0] + ("," + t) == ps[0] + "," + t;
    }
  }

  lemma {:induction false} ItemThenBalanced(a: string, d: nat, b: string)
    requires ItemFrom(a, d) && Balanced(b)
    ensures BalancedFrom(a + b, d)
  {
    if a == "" {
      assert a + b == b;
    } else {
      assert (a + b)[0] == a[0] && (a + b)[1..] == a[1..] + b;
      ItemThenBalanced(a[1..], d + Shift(a[0]), b);
    }
  }
}
