/** Identifier transforms: word splitting, and the accessor, constant and type names. */
module Names {
  import opened Text

  predicate IsUpper(c: char) { 'A' <= c <= 'Z' }
  predicate IsLower(c: char) { 'a' <= c <= 'z' }

  /** The stateless rule: a word starts before position `i > 0` when that character is upper
      case and a neighbour is lower case. */
  predicate Cut(s: string, i: nat) {
    && 0 < i < |s| && IsUpper(s[i])
    && (IsLower(s[i - 1]) || (i + 1 < |s| && IsLower(s[i + 1])))
  }

  /** Words of `s` from position `i` on, the current word having started at `from`. */
  function WordsFrom(s: string, from: nat, i: nat): seq<string>
    requires from <= i <= |s|
    decreases |s| - i
  {
    if i == |s| then (if from < i then [s[from..i]] else [])
    else if from < i && Cut(s, i) then [s[from..i]] + WordsFrom(s, i, i + 1)
    else WordsFrom(s, from, i + 1)
  }

  function LowerEach(ws: seq<string>): (r: seq<string>)
    ensures |r| == |ws| && forall i | 0 <= i < |ws| :: r[i] == LowerAll(ws[i])
  {
    seq(|ws|, i requires 0 <= i < |ws| => LowerAll(ws[i]))
  }

  function UpperEach(ws: seq<string>): (r: seq<string>)
    ensures |r| == |ws| && forall i | 0 <= i < |ws| :: r[i] == UpperAll(ws[i])
  {
    seq(|ws|, i requires 0 <= i < |ws| => UpperAll(ws[i]))
  }

  function NameWords(name: string): seq<string> { LowerEach(WordsFrom(name, 0, 0)) }

  /** The loop looks only at the word under construction and the next character. */
  method SplitWords(name: string) returns (words: seq<string>)
    ensures words == NameWords(name)
  {
    var cur := "";
    var out: seq<string> := [];
    var i := 0;
    ghost var from := 0;
    while i < |name|
      invariant 0 <= from <= i <= |name|
      invariant cur == name[from..i] && (from == i ==> i == 0)
      invariant WordsFrom(name, 0, 0) == out + WordsFrom(name, from, i)
    {
      var c := name[i];
      if IsUpper(c) && cur != "" {
        var prevLower := IsLower(cur[|cur| - 1]);
        var nextLower := i + 1 < |name| && IsLower(name[i + 1]);
        if prevLower || nextLower {
          assert Cut(name, i);
          assert out + ([cur] + WordsFrom(name, i, i + 1)) == (out + [cur]) + WordsFrom(name, i, i + 1);
          out := out + [cur];
          cur := "";
          from := i;
        }
      }
      cur := cur + [c];
      i := i + 1;
    }
    if cur != "" {
      out := out + [cur];
    }
    words := LowerEach(out);
  }

  function ToSnake(name: string): string { Join(LowerEach(NameWords(name)), "_") }

  function ToScreamingSnake(name: string): string { Join(UpperEach(NameWords(name)), "_") }

  function Capital(w: string): string {
    if w == "" then "" else [Upper(w[0])] + w[1..]
  }

  function CapitalEach(ws: seq<string>): (r: seq<string>)
    ensures |r| == |ws| && forall i | 0 <= i < |ws| :: r[i] == Capital(ws[i])
  {
    seq(|ws|, i requires 0 <= i < |ws| => Capital(ws[i]))
  }

  function ToPascal(name: string): string { Concat(CapitalEach(NameWords(name))) }

  // ── The loop refines the rule ────────────────────────────────────────────────────────

  /** Positions where a word starts, for words laid out from position `at`. */
  function Starts(ws: seq<string>, at: nat): set<nat> {
    if ws == [] then {} else {at} + Starts(ws[1..], at + |ws[0]|)
  }

  lemma {:induction false} WordsConcat(s: string, from: nat, i: nat)
    requires from <= i <= |s| && (from == i ==> i == 0)
    ensures var ws := WordsFrom(s, from, i);
            && Concat(ws) == s[from..]
            && (forall w | w in ws :: w != "")
            && (from < |s| ==> ws != [])
    decreases |s| - i
  {
    if i == |s| {
      if from < i {
        assert Concat([s[from..i]]) == s[from..i] + "";
      }
    } else if from < i && Cut(s, i) {
      WordsConcat(s, i, i + 1);
      assert s[from..i] + s[i..] == s[from..];
      assert WordsFrom(s, from, i) == [s[from..i]] + WordsFrom(s, i, i + 1);
    } else {
      WordsConcat(s, from, i + 1);
    }
  }

  /** The cuts at or after `i` inside a word that starts at `from`. */
  function Cuts(s: string, from: nat, i: nat): set<nat> { set j | i <= j < |s| && from < j && Cut(s, j) }

  lemma {:induction false} CutsStep(s: string, from: nat, i: nat)
    requires from <= i < |s|
    ensures Cuts(s, from, i) == if from < i && Cut(s, i) then {i} + Cuts(s, i, i + 1) else Cuts(s, from, i + 1)
  {
  }

  lemma {:induction false} WordsStarts(s: string, from: nat, i: nat)
    requires from <= i <= |s| && (from == i ==> i == 0)
    ensures Starts(WordsFrom(s, from, i), from) == (if from < |s| then {from} else {}) + Cuts(s, from, i)
    decreases |s| - i
  {
    if i == |s| {
      assert Cuts(s, from, i) == {};
      if from < i {
        assert Starts([s[from..i]], from) == {from} + Starts([], i);
      }
    } else {
      CutsStep(s, from, i);
      if from < i && Cut(s, i) {
        WordsStarts(s, i, i + 1);
        assert WordsFrom(s, from, i)[1..] == WordsFrom(s, i, i + 1);
        assert from + |s[from..i]| == i;
      } else {
        WordsStarts(s, from, i + 1);
      }
    }
  }

  /** An ASCII capital behind or before an ASCII small letter. */
  predicate Boundary(s: string, i: nat)
    requires 0 < i < |s|
  {
    'A' <= s[i] <= 'Z' && ('a' <= s[i - 1] <= 'z' || (i + 1 < |s| && 'a' <= s[i + 1] <= 'z'))
  }

  /** Words are never empty, spell the lower-cased name, and start at 0 and at every cut. */
  lemma {:induction false} SplittingRefinesRule(name: string)
    ensures var ws := NameWords(name);
            && Concat(ws) == LowerAll(name)
            && (forall k | 0 <= k < |ws| :: ws[k] != "")
            && (name != "" ==> Starts(ws, 0) == {0} + (set j | 0 < j < |name| && Boundary(name, j)))
  {
    var ws := WordsFrom(name, 0, 0);
    WordsConcat(name, 0, 0);
    WordsStarts(name, 0, 0);
    assert name[0..] == name;
    forall k | 0 <= k < |ws|
      ensures ws[k] != ""
    {
      assert ws[k] in ws;
    }
    ConcatLower(ws);
    StartsByLength(ws, LowerEach(ws), 0);
    assert Cuts(name, 0, 0) == set j | 0 < j < |name| && Boundary(name, j);
  }

  lemma {:induction false} LowerConcat(a: string, b: string)
    ensures LowerAll(a + b) == LowerAll(a) + LowerAll(b)
    ensures UpperAll(a + b) == UpperAll(a) + UpperAll(b)
  {
  }

  lemma {:induction false} ConcatLower(ws: seq<string>)
    ensures Concat(LowerEach(ws)) == LowerAll(Concat(ws))
  {
    if ws != [] {
      ConcatLower(ws[1..]);
      assert LowerEach(ws)[1..] == LowerEach(ws[1..]);
      LowerConcat(ws[0], Concat(ws[1..]));
    }
  }

  lemma {:induction false} StartsByLength(a: seq<string>, b: seq<string>, at: nat)
    requires |a| == |b| && forall k | 0 <= k < |a| :: |a[k]| == |b[k]|
    ensures Starts(a, at) == Starts(b, at)
  {
    if a != [] {
      StartsByLength(a[1..], b[1..], at + |a[0]|);
    }
  }

  // ── The derived names, character by character ────────────────────────────────────────

  /** The accessor name from position `i` on: small letters, and `_` before each boundary. */
  function SnakeFrom(s: string, i: nat): string
    requires i <= |s|
    decreases |s| - i
  {
    if i == |s| then ""
    else (if i > 0 && Boundary(s, i) then "_" else "") + [Lower(s[i])] + SnakeFrom(s, i + 1)
  }

  /** The type name: a capital at the start and at each boundary, small letters elsewhere. */
  function PascalFrom(s: string, i: nat): string
    requires i <= |s|
    decreases |s| - i
  {
    if i == |s| then ""
    else [if i == 0 || Boundary(s, i) then Upper(s[i]) else Lower(s[i])] + PascalFrom(s, i + 1)
  }

  lemma {:induction false} LowerSnoc(s: string, from: nat, i: nat)
    requires from <= i < |s|
    ensures LowerAll(s[from..i + 1]) == LowerAll(s[from..i]) + [Lower(s[i])]
  {
    assert s[from..i + 1] == s[from..i] + [s[i]];
    LowerConcat(s[from..i], [s[i]]);
    assert LowerAll([s[i]]) == [Lower(s[i])];
  }

  lemma {:induction false} SnakeWords(s: string, from: nat, i: nat)
    requires from < i <= |s|
    ensures Join(LowerEach(WordsFrom(s, from, i)), "_") == LowerAll(s[from..i]) + SnakeFrom(s, i)
    decreases |s| - i
  {
    var ws := WordsFrom(s, from, i);
    if i == |s| {
      assert LowerEach(ws) == [LowerAll(s[from..i])];
    } else if Cut(s, i) {
      var rest := WordsFrom(s, i, i + 1);
      SnakeWords(s, i, i + 1);
      WordsConcat(s, i, i + 1);
      assert LowerEach(ws) == [LowerAll(s[from..i])] + LowerEach(rest);
      LowerSnoc(s, i, i);
      SnakeCut(LowerAll(s[from..i]), LowerEach(rest), LowerAll(s[i..i + 1]), [Lower(s[i])], SnakeFrom(s, i + 1));
    } else {
      SnakeWords(s, from, i + 1);
      LowerSnoc(s, from, i);
      assert "" + [Lower(s[i])] + SnakeFrom(s, i + 1) == [Lower(s[i])] + SnakeFrom(s, i + 1);
      assert LowerAll(s[from..i]) + [Lower(s[i])] + SnakeFrom(s, i + 1) ==
             LowerAll(s[from..i]) + ([Lower(s[i])] + SnakeFrom(s, i + 1));
    }
  }

  lemma {:induction false} SnakeCut(w: string, rest: seq<string>, x: string, c: string, t: string)
    requires rest != [] && Join(rest, "_") == x + t && x == "" + c
    ensures Join([w] + rest, "_") == w + ("_" + c + t)
  {
    assert ([w] + rest)[1..] == rest;
    assert x == c;
  }

  /** The accessor name is the lower-cased name with `_` exactly at the boundaries. */
  lemma {:induction false} SnakeSpelled(name: string)
    ensures ToSnake(name) == SnakeFrom(name, 0)
  {
    var ws := WordsFrom(name, 0, 0);
    forall k | 0 <= k < |ws|
      ensures LowerEach(NameWords(name))[k] == LowerEach(ws)[k]
    {
      CaseLaws(ws[k]);
    }
    assert LowerEach(NameWords(name)) == LowerEach(ws);
    if name != "" {
      SnakeWords(name, 0, 1);
      LowerSnoc(name, 0, 0);
      assert LowerAll(name[0..0]) == "";
    }
  }

  function PascalOf(ws: seq<string>): string { Concat(CapitalEach(LowerEach(ws))) }

  lemma {:induction false} PascalWords(s: string, from: nat, i: nat)
    requires from < i <= |s|
    ensures PascalOf(WordsFrom(s, from, i)) == Capital(LowerAll(s[from..i])) + PascalFrom(s, i)
    decreases |s| - i
  {
    if i == |s| {
      PascalLast(s[from..i]);
    } else if Cut(s, i) {
      PascalWords(s, i, i + 1);
      PascalAtCut(s, from, i);
    } else {
      PascalWords(s, from, i + 1);
      PascalInside(s, from, i);
    }
  }

  lemma {:induction false} PascalAtCut(s: string, from: nat, i: nat)
    requires from < i < |s| && Cut(s, i)
    requires PascalOf(WordsFrom(s, i, i + 1)) == Capital(LowerAll(s[i..i + 1])) + PascalFrom(s, i + 1)
    ensures PascalOf(WordsFrom(s, from, i)) == Capital(LowerAll(s[from..i])) + PascalFrom(s, i)
  {
    CapitalOne(s, i);
    PascalCut(s[from..i], WordsFrom(s, i, i + 1), [Upper(s[i])], PascalFrom(s, i + 1));
  }

  lemma {:induction false} PascalInside(s: string, from: nat, i: nat)
    requires from < i < |s| && !Cut(s, i)
    requires PascalOf(WordsFrom(s, from, i + 1)) == Capital(LowerAll(s[from..i + 1])) + PascalFrom(s, i + 1)
    ensures PascalOf(WordsFrom(s, from, i)) == Capital(LowerAll(s[from..i])) + PascalFrom(s, i)
  {
    PascalGrow(s, from, i, PascalFrom(s, i + 1));
  }

  lemma {:induction false} PascalGrow(s: string, from: nat, i: nat, t: string)
    requires from < i < |s|
    ensures Capital(LowerAll(s[from..i + 1])) + t == Capital(LowerAll(s[from..i])) + ([Lower(s[i])] + t)
  {
    LowerSnoc(s, from, i);
    CapitalSnoc(LowerAll(s[from..i]), Lower(s[i]), t);
  }

  lemma {:induction false} CapitalSnoc(w: string, c: char, t: string)
    requires w != ""
    ensures Capital(w + [c]) + t == Capital(w) + ([c] + t)
  {
  }

  lemma {:induction false} CapitalCons(w: string, rest: seq<string>)
    ensures CapitalEach(LowerEach([w] + rest)) == [Capital(LowerAll(w))] + CapitalEach(LowerEach(rest))
  {
    var a, b := CapitalEach(LowerEach([w] + rest)), [Capital(LowerAll(w))] + CapitalEach(LowerEach(rest));
    forall k | 0 <= k < |a|
      ensures a[k] == b[k]
    {
      assert ([w] + rest)[k] == if k == 0 then w else rest[k - 1];
    }
  }

  lemma {:induction false} CapitalOne(s: string, i: nat)
    requires i < |s|
    ensures Capital(LowerAll(s[i..i + 1])) == [Upper(s[i])]
  {
    LowerSnoc(s, i, i);
    assert LowerAll(s[i..i]) == "";
    assert Upper(Lower(s[i])) == Upper(s[i]);
  }

  lemma {:induction false} PascalCut(w: string, rest: seq<string>, x: string, t: string)
    requires PascalOf(rest) == x + t
    ensures PascalOf([w] + rest) == Capital(LowerAll(w)) + (x + t)
  {
    CapitalCons(w, rest);
    ConcatCons(Capital(LowerAll(w)), CapitalEach(LowerEach(rest)));
  }

  lemma {:induction false} PascalLast(w: string)
    ensures PascalOf([w]) == Capital(LowerAll(w)) + ""
  {
    assert [w] + [] == [w];
    CapitalCons(w, []);
    ConcatCons(Capital(LowerAll(w)), CapitalEach(LowerEach([])));
  }

  lemma {:induction false} ConcatCons(w: string, rest: seq<string>)
    ensures Concat([w] + rest) == w + Concat(rest)
  {
    assert ([w] + rest)[1..] == rest;
  }

  /** The type name is the name with capitals exactly at the start and at the boundaries. */
  lemma {:induction false} PascalSpelled(name: string)
    ensures ToPascal(name) == PascalFrom(name, 0)
  {
    if name == "" {
      assert CapitalEach(NameWords(name)) == [];
    } else {
      PascalWords(name, 0, 1);
      CapitalOne(name, 0);
    }
  }

  // ── Derived names agree ──────────────────────────────────────────────────────────────

  lemma {:induction false} CaseLaws(s: string)
    ensures LowerAll(LowerAll(s)) == LowerAll(s)
    ensures UpperAll(UpperAll(s)) == UpperAll(s)
    ensures LowerAll(UpperAll(s)) == LowerAll(s)
    ensures UpperAll(LowerAll(s)) == UpperAll(s)
  {
  }

  lemma {:induction false} JoinCases(ws: seq<string>)
    ensures Join(UpperEach(ws), "_") == UpperAll(Join(ws, "_"))
    ensures Join(LowerEach(ws), "_") == LowerAll(Join(ws, "_"))
  {
    if |ws| > 1 {
      JoinCases(ws[1..]);
      assert UpperEach(ws)[1..] == UpperEach(ws[1..]);
      assert LowerEach(ws)[1..] == LowerEach(ws[1..]);
      LowerConcat(ws[0] + "_", Join(ws[1..], "_"));
      LowerConcat(ws[0], "_");
    }
  }

  /** The constant name is the upper case of the accessor name, and lowers back to it. */
  lemma {:induction false} DerivedNamesAgree(name: string)
    ensures ToScreamingSnake(name) == UpperAll(ToSnake(name))
    ensures LowerAll(ToScreamingSnake(name)) == ToSnake(name)
    ensures LowerAll(ToSnake(name)) == ToSnake(name)
  {
    var ws := NameWords(name);
    JoinCases(ws);
    JoinCases(WordsFrom(name, 0, 0));
    var j := Join(ws, "_");
    CaseLaws(j);
    CaseLaws(UpperAll(j));
  }

  /** Two names clash as constants exactly when they clash as accessors. */
  lemma {:induction false} ClashesAgree(a: string, b: string)
    ensures ToScreamingSnake(a) == ToScreamingSnake(b) <==> ToSnake(a) == ToSnake(b)
  {
    DerivedNamesAgree(a);
    DerivedNamesAgree(b);
  }

  lemma {:induction false} UncutIsOneWord(s: string, i: nat)
    requires i <= |s| && s != "" && forall j: nat :: !Cut(s, j)
    ensures WordsFrom(s, 0, i) == [s]
    decreases |s| - i
  {
    if i < |s| {
      UncutIsOneWord(s, i + 1);
    } else {
      assert s[0..i] == s;
    }
  }

  lemma {:induction false} OneCaseName(s: string)
    requires s == LowerAll(s) || s == UpperAll(s)
    ensures ToSnake(s) == LowerAll(s) && ToScreamingSnake(s) == UpperAll(s)
  {
    if s != "" {
      forall j: nat
        ensures !Cut(s, j)
      {
        if 0 < j < |s| {
          OneCaseChar(s, j);
          OneCaseChar(s, j - 1);
          if j + 1 < |s| {
            OneCaseChar(s, j + 1);
          }
        }
      }
      UncutIsOneWord(s, 0);
      assert NameWords(s) == [LowerAll(s)];
      CaseLaws(s);
    }
  }

  lemma {:induction false} OneCaseChar(s: string, j: nat)
    requires j < |s|
    ensures s == LowerAll(s) ==> !IsUpper(s[j])
    ensures s == UpperAll(s) ==> !IsLower(s[j])
  {
    assert LowerAll(s)[j] == Lower(s[j]);
    assert UpperAll(s)[j] == Upper(s[j]);
  }

  /** Both transforms are idempotent. */
  lemma {:induction false} TransformsIdempotent(name: string)
    ensures ToSnake(ToSnake(name)) == ToSnake(name)
    ensures ToScreamingSnake(ToScreamingSnake(name)) == ToScreamingSnake(name)
  {
    DerivedNamesAgree(name);
    CaseLaws(ToSnake(name));
    OneCaseName(ToSnake(name));
    OneCaseName(ToScreamingSnake(name));
  }
}
