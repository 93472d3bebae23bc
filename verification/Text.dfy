/** Strings as the binding compiler sees them: whitespace, trimming and searching, with the
    laws its parsers rest on. A string is a sequence of characters; an index counts characters. */
module Text {

  datatype Option<+T> = None | Some(value: T)

  /** The Unicode White_Space property, which is what trimming and word splitting use. */
  predicate IsSpace(c: char) {
    || '\U{0009}' <= c <= '\U{000D}'
    || c == ' ' || c == '\U{0085}' || c == '\U{00A0}' || c == '\U{1680}'
    || '\U{2000}' <= c <= '\U{200A}'
    || c == '\U{2028}' || c == '\U{2029}' || c == '\U{202F}' || c == '\U{205F}' || c == '\U{3000}'
  }

  predicate Blank(s: string) {
    forall i | 0 <= i < |s| :: IsSpace(s[i])
  }

  /** Non-empty, with no whitespace at either end. */
  predicate Tight(s: string) {
    s != "" && !IsSpace(s[0]) && !IsSpace(s[|s| - 1])
  }

  /** None of the characters of `cs` occurs in `s`. */
  predicate Free(s: string, cs: string) {
    forall i | 0 <= i < |s| :: s[i] !in cs
  }

  function TrimStart(s: string): string {
    if s != "" && IsSpace(s[0]) then TrimStart(s[1..]) else s
  }

  function TrimEnd(s: string): string {
    if s != "" && IsSpace(s[|s| - 1]) then TrimEnd(s[..|s| - 1]) else s
  }

  function Trim(s: string): string {
    TrimEnd(TrimStart(s))
  }

  lemma {:induction false} TrimStartSkips(a: string, s: string)
    requires Blank(a)
    ensures TrimStart(a + s) == TrimStart(s)
  {
    if a == "" {
      assert a + s == s;
    } else {
      assert (a + s)[1..] == a[1..] + s;
      TrimStartSkips(a[1..], s);
    }
  }

  lemma {:induction false} TrimEndSkips(s: string, b: string)
    requires Blank(b)
    ensures TrimEnd(s + b) == TrimEnd(s)
  {
    if b == "" {
      assert s + b == s;
    } else {
      assert (s + b)[..|s + b| - 1] == s + b[..|b| - 1];
      TrimEndSkips(s, b[..|b| - 1]);
    }
  }

  /** Trimming removes exactly the blank ends around a tight core. */
  lemma {:induction false} TrimPadded(a: string, s: string, b: string)
    requires Blank(a) && Blank(b) && (Tight(s) || s == "")
    ensures Trim(a + s + b) == s
  {
    assert a + s + b == a + (s + b);
    TrimStartSkips(a, s + b);
    if s == "" {
      assert s + b == b == b + "";
      TrimStartSkips(b, "");
    } else {
      assert TrimStart(s + b) == s + b;
      TrimEndSkips(s, b);
    }
  }

  lemma {:induction false} TrimEndSplits(s: string) returns (b: string)
    ensures Blank(b) && s == TrimEnd(s) + b
    ensures TrimEnd(s) != "" ==> !IsSpace(TrimEnd(s)[|TrimEnd(s)| - 1])
  {
    if s != "" && IsSpace(s[|s| - 1]) {
      b := TrimEndSplits(s[..|s| - 1]);
      assert s == s[..|s| - 1] + [s[|s| - 1]];
      b := b + [s[|s| - 1]];
    } else {
      b := "";
    }
  }

  /** Every string is its trimmed core between two blank ends, and the core is tight or empty. */
  lemma {:induction false} TrimSplits(s: string) returns (a: string, b: string)
    ensures Blank(a) && Blank(b) && s == a + Trim(s) + b
    ensures Tight(Trim(s)) || Trim(s) == ""
  {
    if s != "" && IsSpace(s[0]) {
      a, b := TrimSplits(s[1..]);
      a := [s[0]] + a;
    } else {
      a := "";
      b := TrimEndSplits(s);
    }
  }

  lemma {:induction false} TrimAround(a: string, s: string, b: string)
    requires Blank(a) && Blank(b)
    ensures Trim(a + s + b) == Trim(s)
  {
    var x, y := TrimSplits(s);
    assert a + s + b == (a + x) + Trim(s) + (y + b);
    TrimPadded(a + x, Trim(s), y + b);
  }

  lemma {:induction false} TrimTight(s: string)
    requires Tight(s) || s == ""
    ensures Trim(s) == s
  {
    TrimPadded("", s, "");
    assert "" + s + "" == s;
  }

  lemma {:induction false} TrimBlank(s: string)
    ensures Trim(s) == "" <==> Blank(s)
  {
    var a, b := TrimSplits(s);
    assert Trim(s) != "" ==> s[|a|] == Trim(s)[0];
  }

  /** Index of the first `c`. */
  function Find(s: string, c: char): (r: Option<nat>)
    ensures r.Some? ==> r.value < |s| && s[r.value] == c && c !in s[..r.value]
    ensures r.None? ==> c !in s
  {
    if s == "" then None
    else if s[0] == c then Some(0)
    else
      var r := Find(s[1..], c);
      assert s == [s[0]] + s[1..];
      if r.None? then None
      else
        assert s[..r.value + 1] == [s[0]] + s[1..][..r.value];
        Some(r.value + 1)
  }

  /** Index of the last `c`. */
  function RFind(s: string, c: char): (r: Option<nat>)
    ensures r.Some? ==> r.value < |s| && s[r.value] == c && c !in s[r.value + 1..]
    ensures r.None? ==> c !in s
  {
    if s == "" then None
    else if s[|s| - 1] == c then Some(|s| - 1)
    else
      assert s == s[..|s| - 1] + [s[|s| - 1]];
      var r := RFind(s[..|s| - 1], c);
      if r.None? then None
      else
        assert s[r.value + 1..] == s[..|s| - 1][r.value + 1..] + [s[|s| - 1]];
        Some(r.value)
  }

  lemma {:induction false} FindAt(p: string, c: char, t: string)
    requires c !in p
    ensures Find(p + [c] + t, c) == Some(|p|)
  {
    if p == "" {
      assert p + [c] + t == [c] + t;
    } else {
      assert (p + [c] + t)[1..] == p[1..] + [c] + t;
      FindAt(p[1..], c, t);
    }
  }

  lemma {:induction false} RFindAt(p: string, c: char, t: string)
    requires c !in t
    ensures RFind(p + [c] + t, c) == Some(|p|)
  {
    var s := p + [c] + t;
    if t != "" {
      assert s[..|s| - 1] == p + [c] + t[..|t| - 1];
      RFindAt(p, c, t[..|t| - 1]);
    }
  }

  /** `pat` stands at position `k` of `s`. */
  predicate At(s: string, k: nat, pat: string) {
    k + |pat| <= |s| && s[k..k + |pat|] == pat
  }

  /** Index of the first occurrence of `pat`, from position `k` on. */
  function FindSubFrom(s: string, pat: string, k: nat): (r: Option<nat>)
    requires k <= |s|
    ensures r.Some? ==> k <= r.value && At(s, r.value, pat)
    ensures r.Some? ==> forall j: nat | k <= j < r.value :: !At(s, j, pat)
    ensures r.None? ==> forall j: nat | k <= j :: !At(s, j, pat)
    decreases |s| - k
  {
    if At(s, k, pat) then Some(k)
    else if k == |s| then None
    else FindSubFrom(s, pat, k + 1)
  }

  function FindSub(s: string, pat: string): (r: Option<nat>)
    ensures r.Some? ==> At(s, r.value, pat) && forall j: nat | j < r.value :: !At(s, j, pat)
    ensures r.None? ==> forall j: nat :: !At(s, j, pat)
  {
    FindSubFrom(s, pat, 0)
  }

  /** `pieces[0] + sep + pieces[1] + ...` */
  function Join(pieces: seq<string>, sep: string): string {
    if pieces == [] then ""
    else if |pieces| == 1 then pieces[0]
    else pieces[0] + sep + Join(pieces[1..], sep)
  }

  function Concat(pieces: seq<string>): string {
    if pieces == [] then "" else pieces[0] + Concat(pieces[1..])
  }

  function Repeat(s: string, n: nat): string {
    if n == 0 then "" else s + Repeat(s, n - 1)
  }

  /** Trim every piece. */
  function TrimAll(ps: seq<string>): (r: seq<string>)
    ensures |r| == |ps|
    ensures forall i | 0 <= i < |ps| :: r[i] == Trim(ps[i])
  {
    seq(|ps|, i requires 0 <= i < |ps| => Trim(ps[i]))
  }

  function Digit(d: nat): char
    requires d < 10
  {
    '0' + d as char
  }

  /** Decimal spelling of an index. */
  function Decimal(n: nat): string {
    if n < 10 then [Digit(n)] else Decimal(n / 10) + [Digit(n % 10)]
  }

  function Lower(c: char): char {
    if 'A' <= c <= 'Z' then c - 'A' + 'a' else c
  }

  function Upper(c: char): char {
    if 'a' <= c <= 'z' then c - 'a' + 'A' else c
  }

  function LowerAll(s: string): (r: string)
    ensures |r| == |s|
  {
    seq(|s|, i requires 0 <= i < |s| => Lower(s[i]))
  }

  function UpperAll(s: string): (r: string)
    ensures |r| == |s|
  {
    seq(|s|, i requires 0 <= i < |s| => Upper(s[i]))
  }
}
