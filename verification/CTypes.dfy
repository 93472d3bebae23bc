/** Translating a C type to a Rust FFI type: tokens, their analysis, and the rebuilt type. */
module CTypes {
  import opened Text

  datatype Tok = Const | Struct | Enum | Star | Ident(name: string)

  /** Hand-written mappings of base names; every other name follows the general rules. */
  type BaseTable = map<string, string>

  // ── Tokens ───────────────────────────────────────────────────────────────────────────

  /** Every `*` becomes a word of its own. */
  function SpaceStars(s: string): string {
    if s == "" then "" else (if s[0] == '*' then " * " else [s[0]]) + SpaceStars(s[1..])
  }

  /** Length of the leading run of non-space characters. */
  function WordLength(s: string): (n: nat)
    ensures n <= |s| && (s != "" && !IsSpace(s[0]) ==> 0 < n)
  {
    if s == "" || IsSpace(s[0]) then 0 else 1 + WordLength(s[1..])
  }

  function Words(s: string): seq<string>
    decreases |s|
  {
    if s == "" then []
    else if IsSpace(s[0]) then Words(s[1..])
    else [s[..WordLength(s)]] + Words(s[WordLength(s)..])
  }

  function WordTok(w: string): Tok {
    if w == "const" then Const
    else if w == "struct" then Struct
    else if w == "enum" then Enum
    else if w == "*" then Star
    else Ident(w)
  }

  function WordToks(ws: seq<string>): (r: seq<Tok>)
    ensures |r| == |ws|
  {
    seq(|ws|, i requires 0 <= i < |ws| => WordTok(ws[i]))
  }

  function Tokenize(c: string): seq<Tok> { WordToks(Words(SpaceStars(c))) }

  // ── Analysis and construction ────────────────────────────────────────────────────────

  datatype Shape = Shape(base: string, isConst: bool, depth: nat)

  predicate Qualifier(t: Tok) { t.Const? || t.Struct? || t.Enum? }

  /** Number of qualifiers in front of the base. */
  function Lead(ts: seq<Tok>): (n: nat)
    ensures n <= |ts|
  {
    if ts == [] || !Qualifier(ts[0]) then 0 else 1 + Lead(ts[1..])
  }

  function Stars(ts: seq<Tok>): nat {
    if ts == [] then 0 else (if ts[0].Star? then 1 else 0) + Stars(ts[1..])
  }

  function ShapeOf(ts: seq<Tok>): Shape {
    var i := Lead(ts);
    Shape(if i < |ts| && ts[i].Ident? then ts[i].name else "void", Const in ts[..i], Stars(ts[i..]))
  }

  method Analyze(toks: seq<Tok>) returns (r: Shape)
    ensures r == ShapeOf(toks)
  {
    var baseConst := false;
    var i := 0;
    while i < |toks| && Qualifier(toks[i])
      invariant 0 <= i <= |toks|
      invariant Lead(toks) == i + Lead(toks[i..])
      invariant baseConst == (Const in toks[..i])
    {
      assert toks[i..][1..] == toks[i + 1..];
      assert toks[..i + 1] == toks[..i] + [toks[i]];
      if toks[i].Const? {
        baseConst := true;
      }
      i := i + 1;
    }
    var base := if i < |toks| && toks[i].Ident? then toks[i].name else "void";
    var depth := 0;
    var k := |toks|;
    while k > i
      invariant i <= k <= |toks|
      invariant depth == Stars(toks[k..])
    {
      k := k - 1;
      assert toks[k..][1..] == toks[k + 1..];
      if toks[k].Star? {
        depth := depth + 1;
      }
    }
    r := Shape(base, baseConst, depth);
  }

  const VOID := "core::ffi::c_void"

  /** Base names: the table first, then `OrtX` becomes `XHandle`, then an opaque pointee. */
  function MapBase(tab: BaseTable, b: string): string {
    if b in tab then tab[b]
    else if "Ort" <= b then b[3..] + "Handle"
    else VOID
  }

  function PointerWord(isConst: bool): string { if isConst then "*const " else "*mut " }

  /** `n` pointer levels, all of one constness, over `mapped`. */
  function Pointers(isConst: bool, n: nat, mapped: string): string {
    Repeat(PointerWord(isConst), n) + mapped
  }

  lemma {:induction false} OneMoreLevel(isConst: bool, n: nat, mapped: string)
    ensures PointerWord(isConst) + Pointers(isConst, n, mapped) == Pointers(isConst, n + 1, mapped)
    ensures Pointers(isConst, 0, mapped) == mapped
  {
    var p, q := PointerWord(isConst), Repeat(PointerWord(isConst), n);
    assert p + (q + mapped) == p + q + mapped;
    assert "" + mapped == mapped;
  }

  method BuildRust(tab: BaseTable, sh: Shape) returns (s: string)
    ensures s == Pointers(sh.isConst, sh.depth, MapBase(tab, sh.base))
  {
    var mapped := MapBase(tab, sh.base);
    s := mapped;
    OneMoreLevel(sh.isConst, 0, mapped);
    if sh.depth == 0 {
      return;
    }
    var ptr := PointerWord(sh.isConst);
    var k := 0;
    while k < sh.depth
      invariant 0 <= k <= sh.depth
      invariant s == Pointers(sh.isConst, k, mapped)
    {
      OneMoreLevel(sh.isConst, k, mapped);
      s := ptr + s;
      k := k + 1;
    }
  }

  function MapType(tab: BaseTable, c: string): string {
    var sh := ShapeOf(Tokenize(c));
    Pointers(sh.isConst, sh.depth, MapBase(tab, sh.base))
  }

  /** A bare `void` returns nothing; anything else is a type. */
  function MapReturn(tab: BaseTable, c: string): string {
    if Trim(c) == "void" then "()" else MapType(tab, Trim(c))
  }

  // ── C types as written: any qualifiers, one base word, any stars and inner consts ────

  datatype CType = CType(quals: seq<Tok>, base: string, suffix: seq<Tok>)

  predicate Word(w: string) {
    w != "" && !IsSpace(w[0]) && (forall i | 0 <= i < |w| :: !IsSpace(w[i])) && Free(w, "*")
  }

  predicate ValidType(ty: CType) {
    && (forall i | 0 <= i < |ty.quals| :: Qualifier(ty.quals[i]))
    && Word(ty.base) && WordTok(ty.base).Ident?
    && (forall i | 0 <= i < |ty.suffix| :: ty.suffix[i].Star? || ty.suffix[i].Const?)
  }

  function TypeToks(ty: CType): seq<Tok> { ty.quals + [Ident(ty.base)] + ty.suffix }

  /** What the C type means at the FFI boundary. */
  function Meaning(tab: BaseTable, ty: CType, extra: nat): string {
    Pointers(Const in ty.quals, Stars(ty.suffix) + extra, MapBase(tab, ty.base))
  }

  function ReturnMeaning(tab: BaseTable, ty: CType): string {
    if ty == CType([], "void", []) then "()" else Meaning(tab, ty, 0)
  }

  function Spell(t: Tok): string {
    match t
    case Const => "const"
    case Struct => "struct"
    case Enum => "enum"
    case Star => "*"
    case Ident(n) => n
  }

  predicate Spellable(t: Tok) {
    t.Ident? ==> Word(t.name) && WordTok(t.name) == t
  }

  /** Gaps are blank, and two adjacent words are kept apart. */
  predicate Spaced(ts: seq<Tok>, gaps: seq<string>) {
    && |gaps| == |ts|
    && (forall i | 0 <= i < |ts| :: Spellable(ts[i]) && Blank(gaps[i]))
    && (forall i | 0 < i < |ts| :: !ts[i - 1].Star? && !ts[i].Star? ==> gaps[i] != "")
  }

  /** The tokens written out, `gaps[i]` in front of token `i`. */
  function Write(ts: seq<Tok>, gaps: seq<string>): string
    requires |gaps| == |ts|
  {
    if ts == [] then "" else gaps[0] + Spell(ts[0]) + Write(ts[1..], gaps[1..])
  }

  // ── Lexing undoes writing, for every spacing ─────────────────────────────────────────

  lemma {:induction false} SpaceStarsConcat(a: string, b: string)
    ensures SpaceStars(a + b) == SpaceStars(a) + SpaceStars(b)
  {
    if a == "" {
      assert a + b == b;
    } else {
      assert (a + b)[1..] == a[1..] + b;
      SpaceStarsConcat(a[1..], b);
    }
  }

  lemma {:induction false} SpaceStarsFree(a: string)
    requires Free(a, "*")
    ensures SpaceStars(a) == a
  {
    if a != "" {
      SpaceStarsFree(a[1..]);
      assert a == [a[0]] + a[1..];
    }
  }

  lemma {:induction false} BlankHasNoStar(a: string)
    requires Blank(a)
    ensures Free(a, "*")
  {
  }

  lemma {:induction false} WordsSkip(a: string, s: string)
    requires Blank(a)
    ensures Words(a + s) == Words(s)
  {
    if a == "" {
      assert a + s == s;
    } else {
      assert (a + s)[1..] == a[1..] + s;
      WordsSkip(a[1..], s);
    }
  }

  lemma {:induction false} WordLengthOf(w: string, s: string)
    requires forall i | 0 <= i < |w| :: !IsSpace(w[i])
    requires s == "" || IsSpace(s[0])
    ensures WordLength(w + s) == |w|
  {
    if w == "" {
      assert w + s == s;
    } else {
      assert (w + s)[1..] == w[1..] + s;
      WordLengthOf(w[1..], s);
    }
  }

  lemma {:induction false} WordsTake(w: string, s: string)
    requires w != "" && forall i | 0 <= i < |w| :: !IsSpace(w[i])
    requires s == "" || IsSpace(s[0])
    ensures Words(w + s) == [w] + Words(s)
  {
    WordLengthOf(w, s);
    assert (w + s)[0] == w[0];
    assert (w + s)[..|w|] == w && (w + s)[|w|..] == s;
  }

  lemma {:induction false} WordsStepSpace(a: string, c: string)
    requires a != "" && IsSpace(a[0])
    ensures Words(a + c) == Words(a[1..] + c)
  {
    assert a + c == [a[0]] + (a[1..] + c);
    WordsSkip([a[0]], a[1..] + c);
  }

  lemma {:induction false} WordsStepWord(a: string, c: string)
    requires a != "" && !IsSpace(a[0]) && (c == "" || IsSpace(c[0]))
    ensures Words(a + c) == [a[..WordLength(a)]] + Words(a[WordLength(a)..] + c)
  {
    var n := WordLength(a);
    WordLengthMaximal(a);
    assert a + c == a[..n] + (a[n..] + c);
    WordsTake(a[..n], a[n..] + c);
  }

  /** Lexing splits at a space: the words of the two sides in order. */
  lemma {:induction false} WordsApart(a: string, c: string)
    requires c != "" && IsSpace(c[0])
    ensures Words(a + c) == Words(a) + Words(c)
    decreases |a|
  {
    if a == "" {
      assert a + c == c;
    } else if IsSpace(a[0]) {
      WordsStepSpace(a, c);
      WordsApart(a[1..], c);
    } else {
      var n := WordLength(a);
      WordsStepWord(a, c);
      WordsApart(a[n..], c);
      assert [a[..n]] + (Words(a[n..]) + Words(c)) == [a[..n]] + Words(a[n..]) + Words(c);
    }
  }

  lemma {:induction false} WordsAtSpace(a: string, b: string)
    ensures Words(a + " " + b) == Words(a) + Words(b)
  {
    assert a + " " + b == a + (" " + b);
    WordsApart(a, " " + b);
    WordsSkip(" ", b);
  }

  lemma {:induction false} WordLengthMaximal(a: string)
    ensures var n := WordLength(a);
            (forall i | 0 <= i < n :: !IsSpace(a[i])) && (n < |a| ==> IsSpace(a[n]))
  {
    if a != "" && !IsSpace(a[0]) {
      WordLengthMaximal(a[1..]);
    }
  }

  /** Tokens of two texts kept apart by a space. */
  lemma {:induction false} TokenizeAtSpace(a: string, b: string)
    ensures Tokenize(a + " " + b) == Tokenize(a) + Tokenize(b)
  {
    SpaceStarsConcat(a + " ", b);
    SpaceStarsConcat(a, " ");
    SpaceStarsFree(" ");
    WordsAtSpace(SpaceStars(a), SpaceStars(b));
  }

  lemma {:induction false} SpelledWord(t: Tok)
    requires Spellable(t)
    ensures WordTok(Spell(t)) == t
    ensures t.Star? || (Word(Spell(t)) && SpaceStars(Spell(t)) == Spell(t))
  {
    if !t.Star? {
      SpaceStarsFree(Spell(t));
    }
  }

  lemma {:induction false} LexOne(gap: string, t: Tok, r: string)
    requires Blank(gap) && Spellable(t)
    requires t.Star? || r == "" || IsSpace(r[0])
    ensures Words(gap + (SpaceStars(Spell(t)) + r)) == [Spell(t)] + Words(r)
  {
    SpelledWord(t);
    WordsSkip(gap, SpaceStars(Spell(t)) + r);
    if t.Star? {
      assert SpaceStars("*") + r == " " + ("*" + (" " + r));
      WordsSkip(" ", "*" + (" " + r));
      WordsTake("*", " " + r);
      WordsSkip(" ", r);
    } else {
      WordsTake(Spell(t), r);
    }
  }

  lemma {:induction false} SpaceStarsOfWrite(gap: string, w: string, rest: string)
    requires Blank(gap)
    ensures SpaceStars(gap + w + rest) == gap + (SpaceStars(w) + SpaceStars(rest))
  {
    SpaceStarsConcat(gap + w, rest);
    SpaceStarsConcat(gap, w);
    BlankHasNoStar(gap);
    SpaceStarsFree(gap);
  }

  /** The lexer recovers exactly the written tokens, for every spacing. */
  lemma {:induction false} LexUndoesWrite(ts: seq<Tok>, gaps: seq<string>)
    requires Spaced(ts, gaps)
    ensures Tokenize(Write(ts, gaps)) == ts
  {
    if ts != [] {
      var rest := Write(ts[1..], gaps[1..]);
      LexUndoesWrite(ts[1..], gaps[1..]);
      SpaceStarsOfWrite(gaps[0], Spell(ts[0]), rest);
      if !ts[0].Star? {
        RestStartsApart(ts, gaps);
      }
      LexOne(gaps[0], ts[0], SpaceStars(rest));
      ConsTok(ts[0], Words(SpaceStars(rest)));
    }
  }

  lemma {:induction false} ConsTok(t: Tok, ws: seq<string>)
    requires Spellable(t)
    ensures WordToks([Spell(t)] + ws) == [t] + WordToks(ws)
  {
    SpelledWord(t);
    WordToksCons(Spell(t), ws);
  }

  lemma {:induction false} WordToksCons(w: string, ws: seq<string>)
    ensures WordToks([w] + ws) == [WordTok(w)] + WordToks(ws)
  {
    var a, b := WordToks([w] + ws), [WordTok(w)] + WordToks(ws);
    forall i | 0 <= i < |a|
      ensures a[i] == b[i]
    {
      assert ([w] + ws)[i] == if i == 0 then w else ws[i - 1];
    }
  }

  lemma {:induction false} RestStartsApart(ts: seq<Tok>, gaps: seq<string>)
    requires ts != [] && Spaced(ts, gaps) && !ts[0].Star?
    ensures var r := SpaceStars(Write(ts[1..], gaps[1..])); r == "" || IsSpace(r[0])
  {
    if |ts| > 1 {
      var s := Write(ts[1..], gaps[1..]);
      if gaps[1] != "" {
        assert s[0] == gaps[1][0];
      } else {
        assert ts[1].Star?;
        assert s == "*" + Write(ts[1..][1..], gaps[1..][1..]);
      }
    }
  }

  // ── Meaning ──────────────────────────────────────────────────────────────────────────

  lemma {:induction false} LeadOfType(q: seq<Tok>, rest: seq<Tok>)
    requires forall i | 0 <= i < |q| :: Qualifier(q[i])
    requires rest != [] && !Qualifier(rest[0])
    ensures Lead(q + rest) == |q|
  {
    if q == [] {
      assert q + rest == rest;
    } else {
      assert (q + rest)[1..] == q[1..] + rest;
      LeadOfType(q[1..], rest);
    }
  }

  lemma {:induction false} StarsConcat(a: seq<Tok>, b: seq<Tok>)
    ensures Stars(a + b) == Stars(a) + Stars(b)
  {
    if a == [] {
      assert a + b == b;
    } else {
      assert (a + b)[1..] == a[1..] + b;
      StarsConcat(a[1..], b);
    }
  }

  /** A type followed by further tokens of its declarator: base, constness and star count. */
  lemma {:induction false} ShapeOfType(ty: CType, more: seq<Tok>)
    requires ValidType(ty)
    ensures ShapeOf(TypeToks(ty) + more) ==
            Shape(ty.base, Const in ty.quals, Stars(ty.suffix) + Stars(more))
  {
    var rest := [Ident(ty.base)] + ty.suffix + more;
    var ts := TypeToks(ty) + more;
    assert ts == ty.quals + rest;
    LeadOfType(ty.quals, rest);
    assert ts[..|ty.quals|] == ty.quals && ts[|ty.quals|..] == rest;
    assert rest[1..] == ty.suffix + more;
    StarsConcat(ty.suffix, more);
  }

  /** Type meaning is preserved: for any spacing, the Rust type is the mapped base under
      exactly the written pointer levels plus the array levels, const iff `const` precedes
      the base. */
  lemma {:induction false} MapTypePreservesMeaning(tab: BaseTable, ty: CType, gaps: seq<string>, arrays: nat)
    requires ValidType(ty) && Spaced(TypeToks(ty), gaps)
    ensures var c := Write(TypeToks(ty), gaps);
            MapType(tab, if arrays == 0 then c else c + " " + Repeat("*", arrays)) == Meaning(tab, ty, arrays)
  {
    var c := Write(TypeToks(ty), gaps);
    LexUndoesWrite(TypeToks(ty), gaps);
    if arrays == 0 {
      NothingBehind(c, ty);
      ShapeMapped(tab, ty, arrays, c);
    } else {
      StarsBehind(c, ty, arrays);
      ShapeMapped(tab, ty, arrays, c + " " + Repeat("*", arrays));
    }
  }

  lemma {:induction false} ShapeMapped(tab: BaseTable, ty: CType, arrays: nat, t: string)
    requires ShapeOf(Tokenize(t)) == Shape(ty.base, Const in ty.quals, Stars(ty.suffix) + arrays)
    ensures MapType(tab, t) == Meaning(tab, ty, arrays)
  {
  }

  lemma {:induction false} NothingBehind(c: string, ty: CType)
    requires ValidType(ty) && Tokenize(c) == TypeToks(ty)
    ensures ShapeOf(Tokenize(c)) == Shape(ty.base, Const in ty.quals, Stars(ty.suffix))
  {
    assert TypeToks(ty) + [] == TypeToks(ty);
    ShapeOfType(ty, []);
  }

  lemma {:induction false} StarsBehind(c: string, ty: CType, arrays: nat)
    requires ValidType(ty) && Tokenize(c) == TypeToks(ty)
    ensures ShapeOf(Tokenize(c + " " + Repeat("*", arrays))) ==
            Shape(ty.base, Const in ty.quals, Stars(ty.suffix) + arrays)
  {
    TokenizeAtSpace(c, Repeat("*", arrays));
    TokenizeStars(arrays);
    ShapeOfType(ty, Tokenize(Repeat("*", arrays)));
  }

  lemma {:induction false} TokenizeStars(n: nat)
    ensures Stars(Tokenize(Repeat("*", n))) == n
  {
    if n > 0 {
      var r := SpaceStars(Repeat("*", n - 1));
      TokenizeStars(n - 1);
      assert Repeat("*", n)[1..] == Repeat("*", n - 1);
      assert SpaceStars(Repeat("*", n)) == " " + ("*" + (" " + r));
      OneWordAhead("*", r);
      ConsTok(Star, Words(r));
    }
  }

  lemma {:induction false} OneWordAhead(w: string, r: string)
    requires w != "" && forall i | 0 <= i < |w| :: !IsSpace(w[i])
    ensures Words(" " + (w + (" " + r))) == [w] + Words(r)
  {
    WordsSkip(" ", w + (" " + r));
    WordsTake(w, " " + r);
    WordsSkip(" ", r);
  }

  /** What a type means, read back: under exactly the intended levels stands the table's type if the
      table has the base, the handle named after an `Ort` struct, or else an opaque pointee. */
  lemma {:induction false} BaseMapped(tab: BaseTable, ty: CType, extra: nat)
    requires Word(ty.base) && (ty.base in tab && tab[ty.base] != "" ==> tab[ty.base][0] != '*')
    ensures var r := ReadRust(Meaning(tab, ty, extra));
            r.consts == Levels(Const in ty.quals, Stars(ty.suffix) + extra) && StandsFor(tab, ty.base, r.pointee)
  {
    MeaningAs(tab, ty, extra, Const in ty.quals, Stars(ty.suffix) + extra);
  }

  lemma {:induction false} MeaningAs(tab: BaseTable, ty: CType, extra: nat, isConst: bool, n: nat)
    requires Word(ty.base) && (ty.base in tab && tab[ty.base] != "" ==> tab[ty.base][0] != '*')
    requires isConst == (Const in ty.quals) && n == Stars(ty.suffix) + extra
    ensures var r := ReadRust(Meaning(tab, ty, extra));
            r.consts == Levels(isConst, n) && StandsFor(tab, ty.base, r.pointee)
  {
    ReadBase(tab, ty.base, isConst, n, Meaning(tab, ty, extra));
  }

  lemma {:induction false} ReadBase(tab: BaseTable, b: string, isConst: bool, n: nat, t: string)
    requires Word(b) && (b in tab && tab[b] != "" ==> tab[b][0] != '*')
    requires t == Pointers(isConst, n, MapBase(tab, b))
    ensures var r := ReadRust(t); r.consts == Levels(isConst, n) && StandsFor(tab, b, r.pointee)
  {
    BaseStandsFor(tab, b);
    BaseStarts(tab, b);
    ReadAs(isConst, n, MapBase(tab, b), m => StandsFor(tab, b, m));
  }

  lemma {:induction false} ReadAs(isConst: bool, n: nat, m: string, p: string -> bool)
    requires p(m) && (m != "" ==> m[0] != '*')
    ensures var r := ReadRust(Pointers(isConst, n, m)); r.consts == Levels(isConst, n) && p(r.pointee)
  {
    ReadUndoesPointers(isConst, n, m);
  }

  ghost predicate StandsFor(tab: BaseTable, b: string, m: string) {
    && (b in tab ==> m == tab[b])
    && (b !in tab ==> forall x :: b == "Ort" + x ==> m == x + "Handle")
    && (b !in tab && !("Ort" <= b) ==> m == "core::ffi::c_void")
  }

  lemma {:induction false} BaseStandsFor(tab: BaseTable, b: string)
    ensures StandsFor(tab, b, MapBase(tab, b))
  {
    forall x | b !in tab && b == "Ort" + x
      ensures MapBase(tab, b) == x + "Handle"
    {
      assert "Ort" <= b && b[3..] == x;
    }
  }

  lemma {:induction false} BaseStarts(tab: BaseTable, b: string)
    requires Word(b) && (b in tab && tab[b] != "" ==> tab[b][0] != '*')
    ensures var m := MapBase(tab, b); m != "" ==> m[0] != '*'
  {
    if b !in tab && "Ort" <= b {
      assert b[3..] != "" ==> b[3..][0] == b[3];
    }
  }

  lemma {:induction false} MapReturnPreservesMeaning(tab: BaseTable, ty: CType, gaps: seq<string>, c: string)
    requires ValidType(ty) && Spaced(TypeToks(ty), gaps)
    requires Trim(c) == Write(TypeToks(ty), gaps)
    ensures MapReturn(tab, c) == ReturnMeaning(tab, ty)
  {
    OneWordIff(ty, gaps, "void", c);
    MapTypePreservesMeaning(tab, ty, gaps, 0);
  }

  /** Only the bare word itself is written as that word. */
  lemma {:induction false} OneWordIff(ty: CType, gaps: seq<string>, w: string, c: string)
    requires ValidType(ty) && Spaced(TypeToks(ty), gaps) && Trim(c) == Write(TypeToks(ty), gaps) && Spellable(Ident(w))
    ensures Trim(c) == w <==> ty == CType([], w, [])
  {
    LexUndoesWrite(TypeToks(ty), gaps);
    if Trim(c) == w {
      OneWordType(ty, w, Trim(c));
    } else if ty == CType([], w, []) {
      assert TypeToks(ty) == [Ident(w)];
      assert Write(TypeToks(ty), gaps) == gaps[0] + w;
      TrimOfOneWord(gaps[0], w, c);
    }
  }

  lemma {:induction false} OneWordType(ty: CType, w: string, c: string)
    requires c == w && TypeToks(ty) == Tokenize(c) && Spaced([Ident(w)], [""])
    ensures ty == CType([], w, [])
  {
    LexUndoesWrite([Ident(w)], [""]);
    assert Write([Ident(w)], [""]) == w;
    assert TypeToks(ty)[|ty.quals|] == Ident(ty.base);
  }

  lemma {:induction false} TrimOfOneWord(gap: string, w: string, c: string)
    requires Blank(gap) && Word(w)
    requires Trim(c) == gap + w
    ensures Trim(c) == w
  {
    assert gap == "" || IsSpace((gap + w)[0]);
    assert gap == "" ==> gap + w == w;
    var a, b := TrimSplits(c);
  }

  // ── Reading a Rust pointer type back ─────────────────────────────────────────────────

  datatype RustType = RustType(consts: seq<bool>, pointee: string)

  /** Strip the leading pointer words of a Rust type. */
  function ReadRust(s: string): RustType {
    if "*const " <= s then var r := ReadRust(s[7..]); RustType([true] + r.consts, r.pointee)
    else if "*mut " <= s then var r := ReadRust(s[5..]); RustType([false] + r.consts, r.pointee)
    else RustType([], s)
  }

  function Levels(isConst: bool, n: nat): seq<bool> { if n == 0 then [] else [isConst] + Levels(isConst, n - 1) }

  /** The printed type has exactly the intended levels, constness and pointee. */
  lemma {:induction false} ReadUndoesPointers(isConst: bool, n: nat, mapped: string)
    requires mapped != "" ==> mapped[0] != '*'
    ensures ReadRust(Pointers(isConst, n, mapped)) == RustType(Levels(isConst, n), mapped)
  {
    OneMoreLevel(isConst, if n == 0 then 0 else n - 1, mapped);
    if n == 0 {
      ReadPlain(mapped);
    } else {
      ReadOneLevel(isConst, Pointers(isConst, n - 1, mapped));
      ReadUndoesPointers(isConst, n - 1, mapped);
    }
  }

  /** Two types print alike exactly when they agree on pointee and levels and, if there are any
      levels, on constness; a constant that is passed by value looks like any other. */
  lemma {:induction false} PrintAlikeIff(c: bool, n: nat, x: string, c': bool, n': nat, x': string)
    requires (x != "" ==> x[0] != '*') && (x' != "" ==> x'[0] != '*')
    ensures Pointers(c, n, x) == Pointers(c', n', x') <==> n == n' && x == x' && (n == 0 || c == c')
  {
    ReadUndoesPointers(c, n, x);
    ReadUndoesPointers(c', n', x');
    LevelsLength(c, n);
    LevelsLength(c', n');
  }

  lemma {:induction false} LevelsLength(c: bool, n: nat)
    ensures |Levels(c, n)| == n && (n > 0 ==> Levels(c, n)[0] == c)
  {
    if n > 0 {
      LevelsLength(c, n - 1);
    }
  }

  lemma {:induction false} ReadPlain(s: string)
    requires s != "" ==> s[0] != '*'
    ensures ReadRust(s) == RustType([], s)
  {
  }

  lemma {:induction false} ReadOneLevel(isConst: bool, t: string)
    ensures ReadRust(PointerWord(isConst) + t) == var r := ReadRust(t); RustType([isConst] + r.consts, r.pointee)
  {
    var p := PointerWord(isConst);
    var s := p + t;
    assert s[..|p|] == p && s[|p|..] == t && s[1] == p[1];
  }
}
