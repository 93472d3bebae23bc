/** Parsing a written declaration gives back the declaration: parameters, callbacks, fields. */
module RoundTrip {
  import opened Text
  import opened Parens
  import opened CTypes
  import opened Decls

  // ── The text of a type ───────────────────────────────────────────────────────────────

  lemma {:induction false} FreeConcat(a: string, b: string, cs: string)
    requires Free(a, cs) && Free(b, cs)
    ensures Free(a + b, cs)
  {
  }

  lemma {:induction false} SpellShape(t: Tok)
    requires Spellable(t)
    ensures Tight(Spell(t))
    ensures (t.Ident? ==> Free(t.name, PUNCTUATION)) ==> Free(Spell(t), PUNCTUATION)
  {
  }

  /** A written type ends in a token, and has no punctuation of its own. */
  lemma {:induction false} WriteShape(ts: seq<Tok>, gaps: seq<string>)
    requires ts != [] && Spaced(ts, gaps)
    requires forall i | 0 <= i < |ts| :: ts[i].Ident? ==> Free(ts[i].name, PUNCTUATION)
    ensures var s := Write(ts, gaps);
            && s != "" && !IsSpace(s[|s| - 1]) && Free(s, PUNCTUATION)
            && (gaps[0] == "" ==> !IsSpace(s[0]))
            && (ts[|ts| - 1].Star? ==> s[|s| - 1] == '*')
  {
    var rest := Write(ts[1..], gaps[1..]);
    SpellShape(ts[0]);
    BlankFree(gaps[0]);
    if |ts| > 1 {
      WriteShape(ts[1..], gaps[1..]);
      assert ts[1..][|ts| - 2] == ts[|ts| - 1];
    }
    FreeConcat(gaps[0], Spell(ts[0]), PUNCTUATION);
    FreeConcat(gaps[0] + Spell(ts[0]), rest, PUNCTUATION);
  }

  lemma {:induction false} BlankFree(a: string)
    requires Blank(a)
    ensures Free(a, PUNCTUATION) && Free(a, "*") && Free(a, "(),")
  {
  }

  lemma {:induction false} TypeShape(ty: CType, gaps: seq<string>)
    requires ValidSpelling(ty, gaps)
    ensures var s := Write(TypeToks(ty), gaps);
            && Tight(s) && Free(s, PUNCTUATION)
            && (ty.suffix != [] && ty.suffix[|ty.suffix| - 1].Star? ==> s[|s| - 1] == '*')
  {
    var ts := TypeToks(ty);
    assert forall i | 0 <= i < |ts| :: ts[i].Ident? ==> Free(ts[i].name, PUNCTUATION);
    assert ty.suffix != [] ==> ts[|ts| - 1] == ty.suffix[|ty.suffix| - 1];
    WriteShape(ts, gaps);
  }

  lemma {:induction false} WriteLast(ts: seq<Tok>, gaps: seq<string>)
    requires ts != [] && |gaps| == |ts|
    ensures var n := |ts| - 1;
            Write(ts, gaps) == Write(ts[..n], gaps[..n]) + gaps[n] + Spell(ts[n])
  {
    if |ts| == 1 {
      assert gaps[0] + Spell(ts[0]) + "" == "" + gaps[0] + Spell(ts[0]);
    } else {
      var n := |ts| - 1;
      WriteLast(ts[1..], gaps[1..]);
      assert ts[1..][..n - 1] == ts[..n][1..] && gaps[1..][..n - 1] == gaps[..n][1..];
      var w := Write(ts[..n][1..], gaps[..n][1..]);
      assert (gaps[0] + Spell(ts[0])) + (w + gaps[n] + Spell(ts[n])) ==
             (gaps[0] + Spell(ts[0]) + w) + gaps[n] + Spell(ts[n]);
    }
  }

  // ── Names and arrays ─────────────────────────────────────────────────────────────────

  lemma {:induction false} SplitNamed(t: string, sep: string, n: string)
    requires Tight(t) && Blank(sep) && ' ' in sep && Name(n)
    ensures SplitName(t + sep + n) == Some(Split(t, n))
  {
    var i := RFind(sep, ' ').value;
    CutAt(sep, i);
    SplitBehind(t, sep[..i], sep[i + 1..], n);
  }

  lemma {:induction false} SplitBehind(t: string, a: string, b: string, n: string)
    requires Tight(t) && Blank(a) && Blank(b) && ' ' !in b && Name(n)
    ensures SplitName(t + (a + " " + b) + n) == Some(Split(t, n))
  {
    NamedCut(t, a, b, n);
    RFindAt(t + a, ' ', b + n);
    TrimPadded(b, n, "");
    TrimPadded("", t, a + " ");
  }

  lemma {:induction false} NamedCut(t: string, a: string, b: string, n: string)
    ensures var c, k := t + (a + " " + b) + n, |t + a|;
            c == (t + a) + " " + (b + n) && c[k + 1..] == b + n + "" && c[..k + 1] == "" + t + (a + " ")
  {
  }

  lemma {:induction false} StarSurvivesTrim(s: string)
    requires '*' in s
    ensures '*' in Trim(s) && Trim(s) != ""
  {
    var a, b := TrimSplits(s);
    BlankFree(a);
    BlankFree(b);
  }

  lemma {:induction false} StarlessTrim(s: string)
    requires '*' !in s
    ensures '*' !in Trim(s)
  {
    var a, b := TrimSplits(s);
    assert forall i | 0 <= i < |Trim(s)| :: Trim(s)[i] == s[|a| + i];
  }

  lemma {:induction false} SplitStarTail(c: string)
    requires EndsWith(c, '*')
    ensures SplitName(c) == None
  {
    var k := RFind(c, ' ');
    if k.Some? {
      var tail := c[k.value + 1..];
      assert tail[|tail| - 1] == '*';
      StarSurvivesTrim(tail);
    }
  }

  /** What follows the last space. */
  function SpaceTail(s: string): Option<string> {
    var k := RFind(s, ' ');
    if k.None? then None else Some(s[k.value + 1..])
  }

  lemma {:induction false} SpaceTailAt(p: string, t: string)
    requires ' ' !in t
    ensures SpaceTail(p + " " + t) == Some(t)
  {
    RFindAt(p, ' ', t);
    assert (p + " " + t)[|p| + 1..] == t;
  }

  lemma {:induction false} SpaceTailOfSecond(a: string, b: string)
    requires ' ' in b
    ensures SpaceTail(a + b) == SpaceTail(b)
  {
    var k := RFind(b, ' ').value;
    assert a + b == (a + b[..k]) + " " + b[k + 1..];
    SpaceTailAt(a + b[..k], b[k + 1..]);
  }

  lemma {:induction false} SpaceTailOfBoth(a: string, b: string)
    requires ' ' !in b
    ensures SpaceTail(a + b) == if SpaceTail(a).None? then None else Some(SpaceTail(a).value + b)
  {
    var i := RFind(a, ' ');
    if i.Some? {
      var t := a[i.value + 1..];
      assert a + b == a[..i.value] + " " + (t + b);
      SpaceTailAt(a[..i.value], t + b);
    } else {
      assert ' ' !in a + b;
    }
  }

  lemma {:induction false} SpaceTailConcat(a: string, b: string)
    ensures ' ' in b ==> SpaceTail(a + b) == SpaceTail(b)
    ensures ' ' !in b ==> SpaceTail(a + b) == if SpaceTail(a).None? then None else Some(SpaceTail(a).value + b)
  {
    if ' ' in b {
      SpaceTailOfSecond(a, b);
    } else {
      SpaceTailOfBoth(a, b);
    }
  }

  lemma {:induction false} SpellHasNoSpace(t: Tok)
    requires Spellable(t)
    ensures ' ' !in Spell(t) && Tight(Spell(t)) && (t.Star? || '*' !in Spell(t)) && (t.Star? ==> '*' in Spell(t))
  {
    SpelledWord(t);
  }

  lemma {:induction false} SpacedInit(ts: seq<Tok>, gaps: seq<string>)
    requires ts != [] && Spaced(ts, gaps)
    ensures Spaced(ts[..|ts| - 1], gaps[..|ts| - 1])
  {
  }

  /** The token-level condition is the text-level one. */
  lemma {:induction false} LooseIff(ts: seq<Tok>, gaps: seq<string>)
    requires Spaced(ts, gaps)
    ensures var t := SpaceTail(Write(ts, gaps)); Loose(ts, gaps) <==> t.None? || '*' in t.value
    ensures var s := Write(ts, gaps); ts != [] ==> s != "" && !IsSpace(s[|s| - 1])
    ensures var t := SpaceTail(Write(ts, gaps));
            ts != [] && t.Some? ==> t.value != "" && !IsSpace(t.value[|t.value| - 1])
  {
    if ts != [] {
      var n := |ts| - 1;
      var w, g, x := Write(ts[..n], gaps[..n]), gaps[n], Spell(ts[n]);
      WriteLast(ts, gaps);
      SpellHasNoSpace(ts[n]);
      SpacedInit(ts, gaps);
      LooseIff(ts[..n], gaps[..n]);
      SpaceTailConcat(w, g);
      SpaceTailConcat(w + g, x);
      TailIsBlank(g);
    }
  }

  lemma {:induction false} TailIsBlank(g: string)
    requires Blank(g)
    ensures '*' !in g && (SpaceTail(g).Some? ==> Blank(SpaceTail(g).value) && '*' !in SpaceTail(g).value)
  {
    BlankFree(g);
  }

  /** A text of two parts kept apart by blanks is no single word. */
  lemma {:induction false} TwoParts(t: string, g: string, x: string, w: string)
    requires t != "" && !IsSpace(t[|t| - 1]) && g != "" && Blank(g) && x != "" && !IsSpace(x[0])
    requires forall i | 0 <= i < |w| :: !IsSpace(w[i])
    ensures Trim(t + g + x) != w
  {
    var s := t + g + x;
    var a, b := TrimSplits(s);
    assert s[|t| - 1] == t[|t| - 1] && s[|t|] == g[0] && s[|t + g|] == x[0];
    var r := a + w + b;
    assert |a| <= |t| - 1 && |t + g| < |a| + |w| ==> r[|t|] == w[|t| - |a|];
    assert forall i | 0 <= i < |a| :: r[i] == a[i];
    assert forall i | |a| + |w| <= i < |r| :: r[i] == b[i - |a| - |w|];
  }

  lemma {:induction false} TypeWordsAreWords(w: string)
    requires w in TYPE_WORDS
    ensures w != "" && forall i | 0 <= i < |w| :: !IsSpace(w[i])
  {
  }

  /** The name splitter, by what follows the last space. */
  lemma {:induction false} SplitNameByTail(c: string)
    ensures var t := SpaceTail(c);
            SplitName(c).None? <==>
            t.None? || Trim(t.value) == "" || '*' in Trim(t.value) || Trim(t.value) in TYPE_WORDS
  {
  }

  /** A type is left whole exactly when it is one that may stand without a name. */
  lemma {:induction false} UnnamedIff(ty: CType, gaps: seq<string>)
    requires ValidSpelling(ty, gaps)
    ensures SplitName(Write(TypeToks(ty), gaps)).None? <==> Unnamed(ty, gaps)
  {
    var ts := TypeToks(ty);
    var n := |ts| - 1;
    var w, g, x := Write(ts[..n], gaps[..n]), gaps[n], Spell(ts[n]);
    WriteLast(ts, gaps);
    SpellHasNoSpace(ts[n]);
    if ts[n].Star? {
      assert EndsWith(w + g + x, '*');
      SplitStarTail(w + g + x);
    } else if ' ' in g {
      LastWordAlone(w, g, x);
    } else {
      SpacedInit(ts, gaps);
      LooseIff(ts[..n], gaps[..n]);
      LastWordJoined(w, g, x, n > 0 && !ts[n - 1].Star?);
    }
  }

  lemma {:induction false} LastWordAlone(w: string, g: string, x: string)
    requires Blank(g) && ' ' in g && Tight(x) && ' ' !in x && '*' !in x
    ensures SplitName(w + g + x).None? <==> x in TYPE_WORDS
  {
    SpaceTailConcat(w, g);
    SpaceTailConcat(w + g, x);
    TailIsBlank(g);
    var t := SpaceTail(g).value;
    TrimPadded(t, x, "");
    assert t + x + "" == t + x;
    SplitNameByTail(w + g + x);
  }

  lemma {:induction false} LastWordJoined(w: string, g: string, x: string, apart: bool)
    requires Blank(g) && ' ' !in g && Tight(x) && ' ' !in x && '*' !in x
    requires apart ==> g != ""
    requires SpaceTail(w).Some? ==> var t := SpaceTail(w).value; t != "" && !IsSpace(t[|t| - 1])
    requires SpaceTail(w).Some? && '*' !in SpaceTail(w).value ==> apart
    ensures SplitName(w + g + x).None? <==> SpaceTail(w).None? || '*' in SpaceTail(w).value
  {
    SpaceTailConcat(w, g);
    SpaceTailConcat(w + g, x);
    SplitNameByTail(w + g + x);
    if SpaceTail(w).Some? {
      var t := SpaceTail(w).value;
      var tail := t + g + x;
      if '*' in t {
        StarSurvivesTrim(tail);
      } else {
        BlankFree(g);
        StarlessTrim(tail);
        TrimBlank(tail);
        assert tail[|t| - 1] == t[|t| - 1];
        forall kw | kw in TYPE_WORDS
          ensures Trim(tail) != kw
        {
          TypeWordsAreWords(kw);
          TwoParts(t, g, x, kw);
        }
      }
    }
  }

  lemma {:induction false} ArrayTextEnds(xs: seq<ArraySuffix>)
    requires xs != []
    ensures EndsWith(ArrayText(xs), ']')
  {
  }

  lemma {:induction false} StripOne(front: string, pad: string, content: string)
    requires front != "" && !IsSpace(front[|front| - 1]) && Blank(pad) && '[' !in content
    ensures var r := StripArrays(front);
            StripArrays((front + pad) + "[" + (content + "]")) == Stripped(r.text, r.levels + 1)
  {
    var s := (front + pad) + "[" + (content + "]");
    RFindAt(front + pad, '[', content + "]");
    assert s[..|front + pad|] == front + pad;
    assert s[|s| - 1] == ']';
    TrimEndSkips(front, pad);
  }

  lemma {:induction false} ArrayRegroup(b: string, a: string, pad: string, content: string)
    ensures b + (a + pad + "[" + content + "]") == ((b + a) + pad) + "[" + (content + "]")
  {
  }

  /** Stripping removes exactly the written array declarators. */
  lemma {:induction false} StripUndoesArrays(b: string, xs: seq<ArraySuffix>)
    requires Tight(b) && Free(b, "[")
    requires forall i | 0 <= i < |xs| :: Blank(xs[i].pad) && Free(xs[i].content, "()[,")
    ensures StripArrays(b + ArrayText(xs)) == Stripped(b, |xs|)
  {
    if xs == [] {
      assert b + ArrayText(xs) == b;
      assert '[' !in b;
    } else {
      var n := |xs| - 1;
      var x := xs[n];
      var front := b + ArrayText(xs[..n]);
      StripUndoesArrays(b, xs[..n]);
      if n > 0 {
        ArrayTextEnds(xs[..n]);
        assert front[|front| - 1] == ']';
      } else {
        assert front == b;
      }
      StripOne(front, x.pad, x.content);
      ArrayRegroup(b, ArrayText(xs[..n]), x.pad, x.content);
    }
  }

  lemma {:induction false} ArrayTextPlain(xs: seq<ArraySuffix>)
    requires forall i | 0 <= i < |xs| :: Blank(xs[i].pad) && Free(xs[i].content, "()[,")
    ensures Free(ArrayText(xs), "(),")
  {
    if xs != [] {
      ArrayTextPlain(xs[..|xs| - 1]);
      BlankFree(xs[|xs| - 1].pad);
    }
  }

  // ── Ordinary parameters ──────────────────────────────────────────────────────────────

  lemma {:induction false} NamedShape(t: string, sep: string, n: string)
    requires Tight(t) && Free(t, PUNCTUATION) && Blank(sep) && Name(n)
    ensures var s := t + sep + n; Tight(s) && Free(s, PUNCTUATION) && (' ' in sep ==> ' ' in s)
  {
    BlankFree(sep);
    FreeConcat(t, sep, PUNCTUATION);
    FreeConcat(t + sep, n, PUNCTUATION);
    var s := t + sep + n;
    assert s[0] == t[0] && s[|s| - 1] == n[|n| - 1];
  }

  lemma {:induction false} StemShape(p: Plain)
    requires WrittenPlain(p)
    ensures Tight(StemText(p)) && Free(StemText(p), PUNCTUATION)
    ensures StemText(p) == "void" ==> p.ty == CType([], "void", []) && p.name.None?
  {
    TypeShape(p.ty, p.gaps);
    var t := TypeText(p);
    if p.name.Some? {
      NamedShape(t, p.sep, p.name.value);
    } else {
      TrimTight(t);
      OneWordIff(p.ty, p.gaps, "void", t);
    }
  }

  lemma {:induction false} PlainShape(p: Plain)
    requires WrittenPlain(p)
    ensures var s := PlainText(p);
            && Tight(s) && Free(s, "(),") && Item(s)
            && (s == "void" ==> BareVoid(p))
  {
    StemShape(p);
    ArrayTextPlain(p.arrays);
    var a, b := StemText(p), ArrayText(p.arrays);
    FreeConcat(a, b, "(),");
    if p.arrays != [] {
      ArrayTextEnds(p.arrays);
      assert (a + b)[|a + b| - 1] == ']';
    } else {
      assert a + b == a;
    }
    PlainIsItem(a + b);
  }

  lemma {:induction false} NoCallback(tab: BaseTable, c: string)
    requires Free(c, "(),")
    ensures FnPtrParam(tab, c) == None
  {
    forall j: nat
      ensures !At(c, j, "(*")
    {
      if j + 2 <= |c| {
        assert c[j..j + 2][0] == c[j];
      }
    }
  }

  /** The declarator of an ordinary parameter splits into its type and its name. */
  lemma {:induction false} SplitStem(p: Plain)
    requires WrittenPlain(p)
    ensures SplitName(StemText(p)) == if p.name.Some? then Some(Split(TypeText(p), p.name.value)) else None
  {
    TypeShape(p.ty, p.gaps);
    if p.name.Some? {
      SplitNamed(TypeText(p), p.sep, p.name.value);
    } else {
      UnnamedIff(p.ty, p.gaps);
    }
  }

  /** A written parameter parses to its meaning and its sanitized or positional name. */
  lemma {:induction false} ParsePlain(tab: BaseTable, p: Plain, idx: nat)
    requires ValidPlain(p)
    ensures ParseParam(tab, PlainText(p), idx) == PlainMeaning(tab, p, idx)
  {
    LevelsCounted(tab, p, idx);
  }

  /** Whatever the number of array declarators, the code adds one pointer level for each. */
  lemma {:induction false} LevelsCounted(tab: BaseTable, p: Plain, idx: nat)
    requires WrittenPlain(p)
    ensures ParseParam(tab, PlainText(p), idx) == PlainMeaning(tab, p, idx)
  {
    var c := PlainText(p);
    PlainShape(p);
    TrimTight(c);
    NoCallback(tab, c);
    StemShape(p);
    StripUndoesArrays(StemText(p), p.arrays);
    SplitStem(p);
    MapTypePreservesMeaning(tab, p.ty, p.gaps, |p.arrays|);
    SanitizeArg(idx);
  }

  lemma {:induction false} SanitizeArg(idx: nat)
    ensures Sanitize("_arg" + Decimal(idx)) == "_arg" + Decimal(idx)
  {
    assert ("_arg" + Decimal(idx))[0] == '_';
    assert forall w | w in RESERVED :: w[0] != '_';
  }

  /** Exactly which unnamed parameters are recovered: those whose type holds no space, or whose
      type has a star or just a type word behind its last space. Otherwise the last word is
      taken for a name. */
  lemma {:induction false} AnonymousRecoveredIff(tab: BaseTable, ty: CType, gaps: seq<string>, idx: nat)
    requires ValidSpelling(ty, gaps) && ty.base != "_arg" + Decimal(idx)
    ensures var c := Write(TypeToks(ty), gaps);
            ParseParam(tab, c, idx) == Param(Meaning(tab, ty, 0), "_arg" + Decimal(idx)) <==> Unnamed(ty, gaps)
  {
    var c := Write(TypeToks(ty), gaps);
    UnnamedIff(ty, gaps);
    TypeShape(ty, gaps);
    ParseBare(tab, c, idx);
    MapTypePreservesMeaning(tab, ty, gaps, 0);
    if SplitName(c).Some? {
      LastWordIsNotArg(ty, gaps, idx);
      NotSanitizedInto(SplitName(c).value.name, idx);
    }
  }

  /** A text without punctuation is split into type and name, or is a type as a whole. */
  lemma {:induction false} ParseBare(tab: BaseTable, c: string, idx: nat)
    requires Tight(c) && Free(c, PUNCTUATION)
    ensures ParseParam(tab, c, idx) ==
            match SplitName(c)
            case Some(sp) => Param(MapType(tab, sp.ty), Sanitize(sp.name))
            case None => Param(MapType(tab, c), "_arg" + Decimal(idx))
  {
    TrimTight(c);
    NoCallback(tab, c);
    StripUndoesArrays(c, []);
    assert c + ArrayText([]) == c;
    SanitizeArg(idx);
  }

  lemma {:induction false} LastWordIsNotArg(ty: CType, gaps: seq<string>, idx: nat)
    requires ValidSpelling(ty, gaps) && ty.base != "_arg" + Decimal(idx)
    requires SplitName(Write(TypeToks(ty), gaps)).Some?
    ensures SplitName(Write(TypeToks(ty), gaps)).value.name != "_arg" + Decimal(idx)
  {
    var c, n := Write(TypeToks(ty), gaps), "_arg" + Decimal(idx);
    if SplitName(c).value.name == n {
      ArgIsWord(idx);
      LastWordIsToken(c, n);
      LexUndoesWrite(TypeToks(ty), gaps);
      assert false;
    }
  }

  lemma {:induction false} DecimalDigits(n: nat)
    ensures forall i | 0 <= i < |Decimal(n)| :: '0' <= Decimal(n)[i] <= '9'
  {
    if n >= 10 {
      DecimalDigits(n / 10);
    }
  }

  lemma {:induction false} ArgIsWord(idx: nat)
    ensures var n := "_arg" + Decimal(idx); Word(n) && WordTok(n) == Ident(n)
  {
    DecimalDigits(idx);
    assert ("_arg" + Decimal(idx))[0] == '_';
  }

  lemma {:induction false} NotSanitizedInto(n: string, idx: nat)
    requires n != "_arg" + Decimal(idx)
    ensures Sanitize(n) != "_arg" + Decimal(idx)
  {
    assert ("_arg" + Decimal(idx))[0] == '_';
    assert forall w | w in RESERVED :: (w + "_")[0] == w[0] != '_';
  }

  lemma {:induction false} LastWordIsToken(c: string, n: string)
    requires SplitName(c).Some? && SplitName(c).value.name == n
    requires Word(n) && WordTok(n) == Ident(n)
    ensures Tokenize(c) != [] && Tokenize(c)[|Tokenize(c)| - 1] == Ident(n)
  {
    var k := RFind(c, ' ').value;
    CutAt(c, k);
    TailIsToken(c[..k], c[k + 1..], n);
  }

  lemma {:induction false} TailIsToken(front: string, tail: string, n: string)
    requires Trim(tail) == n && Word(n) && WordTok(n) == Ident(n)
    ensures var ts := Tokenize(front + " " + tail); ts != [] && ts[|ts| - 1] == Ident(n)
  {
    TokenizeAtSpace(front, tail);
    var a, b := TrimSplits(tail);
    LexPadded(a, n, b);
  }

  lemma {:induction false} LexPadded(a: string, n: string, b: string)
    requires Blank(a) && Blank(b) && Word(n) && WordTok(n) == Ident(n)
    ensures Tokenize(a + n + b) == [Ident(n)]
  {
    SpaceStarsOfWrite(a, n, b);
    BlankHasNoStar(b);
    SpaceStarsFree(b);
    LexOne(a, Ident(n), b);
    WordsSkip(b, "");
    assert b + "" == b;
  }

  /** Whatever the type and the last word: that word is taken for a name. */
  lemma {:induction false} LastWordTaken(tab: BaseTable, t: string, n: string, idx: nat)
    requires Tight(t) && Free(t, PUNCTUATION) && Name(n) && n !in RESERVED && n[0] != '_'
    ensures ParseParam(tab, t + " " + n, idx) == Param(MapType(tab, t), n)
    ensures n != "_arg" + Decimal(idx)
  {
    SplitNamed(t, " ", n);
    NamedShape(t, " ", n);
    ParseBare(tab, t + " " + n, idx);
    assert ("_arg" + Decimal(idx))[0] == '_';
  }

  /** Exactly which named parameters are recovered: those with a space in the gap before the name.
      Without one the name is lost, or comes back with part of the type in front of it. */
  lemma {:induction false} NamedRecoveredIff(tab: BaseTable, ty: CType, gaps: seq<string>, sep: string, n: string,
                                             idx: nat)
    requires ValidSpelling(ty, gaps) && Blank(sep) && Name(n) && n != "_arg" + Decimal(idx)
    ensures var t := Write(TypeToks(ty), gaps);
            ParseParam(tab, t + sep + n, idx) == Param(Meaning(tab, ty, 0), Sanitize(n)) <==> ' ' in sep
  {
    var t := Write(TypeToks(ty), gaps);
    TypeShape(ty, gaps);
    NamedShape(t, sep, n);
    ParseBare(tab, t + sep + n, idx);
    if ' ' in sep {
      SplitNamed(t, sep, n);
      MapTypePreservesMeaning(tab, ty, gaps, 0);
    } else {
      NameNotRecovered(t, sep, n, idx);
    }
  }

  lemma {:induction false} NameNotRecovered(t: string, sep: string, n: string, idx: nat)
    requires Tight(t) && Blank(sep) && ' ' !in sep && Name(n) && n != "_arg" + Decimal(idx)
    ensures BareName(SplitName(t + sep + n), idx) != Sanitize(n)
  {
    if SplitName(t + sep + n).Some? {
      NameGrows(t, sep, n);
    }
    NamesDiffer(SplitName(t + sep + n), n, idx);
  }

  function BareName(o: Option<Split>, idx: nat): string {
    if o.Some? then Sanitize(o.value.name) else "_arg" + Decimal(idx)
  }

  lemma {:induction false} NamesDiffer(o: Option<Split>, n: string, idx: nat)
    requires n != "" && n != "_arg" + Decimal(idx)
    requires o.Some? ==> var x := o.value.name; |x| > |n| && x[|x| - 1] == n[|n| - 1]
    ensures BareName(o, idx) != Sanitize(n)
  {
    NotSanitizedInto(n, idx);
    if o.Some? {
      SanitizeLonger(o.value.name, n);
    }
  }

  /** Without a space before it, a name that is still found has something in front of it. */
  lemma {:induction false} NameGrows(t: string, sep: string, n: string)
    requires Tight(t) && Blank(sep) && ' ' !in sep && Name(n) && SplitName(t + sep + n).Some?
    ensures var x := SplitName(t + sep + n).value.name; |x| > |n| && x[|x| - 1] == n[|n| - 1]
  {
    SpaceTailConcat(t, sep);
    SpaceTailConcat(t + sep, n);
    NameIsTail(t + sep + n);
    var u := SpaceTail(t).value;
    assert u != "" && u[|u| - 1] == t[|t| - 1];
    TrimGrows(u, sep, n);
  }

  lemma {:induction false} NameIsTail(c: string)
    requires SplitName(c).Some?
    ensures SpaceTail(c).Some? && SplitName(c).value.name == Trim(SpaceTail(c).value)
  {
  }

  lemma {:induction false} TrimGrows(u: string, sep: string, n: string)
    requires u != "" && !IsSpace(u[|u| - 1]) && n != "" && !IsSpace(n[|n| - 1])
    ensures var x := Trim(u + sep + n); |x| > |n| && x[|x| - 1] == n[|n| - 1]
  {
    var tail := u + sep + n;
    var a, b := TrimSplits(tail);
    assert u + (sep + n) == tail;
    TrimKeepsEnds(u, sep + n, a, Trim(tail), b);
  }

  lemma {:induction false} TrimKeepsEnds(u: string, r: string, a: string, x: string, b: string)
    requires u + r == a + x + b && Blank(a) && Blank(b)
    requires u != "" && !IsSpace(u[|u| - 1]) && r != "" && !IsSpace(r[|r| - 1])
    ensures |x| > |r| && x[|x| - 1] == r[|r| - 1]
  {
    ConcatEnds(a, x, b);
    ConcatEnds(u, "", r);
    assert u + "" + r == u + r;
    assert (u + r)[|u| - 1] == u[|u| - 1];
  }

  lemma {:induction false} ConcatEnds(a: string, x: string, b: string)
    ensures var s := a + x + b;
            && |s| == |a| + |x| + |b| && (forall i | 0 <= i < |a| :: s[i] == a[i])
            && (b != "" ==> s[|s| - 1] == b[|b| - 1]) && (b == "" && x != "" ==> s[|s| - 1] == x[|x| - 1])
  {
  }

  lemma {:induction false} SanitizeLonger(x: string, n: string)
    requires n != "" && |x| > |n| && x[|x| - 1] == n[|n| - 1]
    ensures Sanitize(x) != Sanitize(n)
  {
    assert forall w | w in RESERVED :: w[|w| - 1] != '_';
    assert (n + "_")[|n|] == '_';
  }

  /** The usual case: in `char *x` the star touches the name, and the name is lost. */
  lemma {:induction false} NameAtStarLost(tab: BaseTable, t: string, sep: string, n: string, idx: nat)
    requires Tight(t) && Free(t, PUNCTUATION) && EndsWith(t, '*') && Blank(sep) && ' ' !in sep && Name(n)
    ensures ParseParam(tab, t + sep + n, idx) == Param(MapType(tab, t + sep + n), "_arg" + Decimal(idx))
  {
    NamedShape(t, sep, n);
    NothingBehindStar(t, sep + n);
    assert t + sep + n == t + (sep + n);
    ParseBare(tab, t + sep + n, idx);
  }

  lemma {:induction false} NothingBehindStar(t: string, r: string)
    requires EndsWith(t, '*') && ' ' !in r
    ensures SplitName(t + r).None?
  {
    SpaceTailConcat(t, r);
    SplitNameByTail(t + r);
    if SpaceTail(t).Some? {
      var u := SpaceTail(t).value;
      assert u != "" && u[|u| - 1] == '*';
      assert (u + r)[|u| - 1] == '*';
      StarSurvivesTrim(u + r);
    }
  }

  /** An unnamed `const int` is misread: a parameter called `int` whose type is what `const`
      alone maps to, instead of an unnamed constant integer. */
  lemma {:induction false} AnonymousConstIntMisread(tab: BaseTable, idx: nat) returns (t: string, n: string)
    ensures t == "const" && n == "int" && ParseParam(tab, t + " " + n, idx) == Param(MapType(tab, t), n)
    ensures n != "_arg" + Decimal(idx)
  {
    t, n := "const", "int";
    assert n[0] == 'i' && n[1] == 'n' && n[2] == 't';
    LastWordTaken(tab, t, n, idx);
  }

  /** Inside a callback only the type of a parameter is kept. */
  lemma {:induction false} InnerTypeOnly(tab: BaseTable, p: Plain)
    requires WrittenPlain(p) && p.arrays == []
    ensures MapType(tab, TypeOnly(PlainText(p))) == Meaning(tab, p.ty, 0)
  {
    assert PlainText(p) == StemText(p);
    SplitStem(p);
    TypeShape(p.ty, p.gaps);
    TrimTight(TypeText(p));
    MapTypePreservesMeaning(tab, p.ty, p.gaps, 0);
  }

  // ── Lists ────────────────────────────────────────────────────────────────────────────

  /** A padded list of tight items splits into exactly its items. */
  lemma {:induction false} SplitPadded(texts: seq<string>, pads: seq<(string, string)>)
    requires texts != [] && |pads| == |texts|
    requires forall i | 0 <= i < |pads| :: Blank(pads[i].0) && Blank(pads[i].1)
    requires forall i | 0 <= i < |texts| :: Tight(texts[i]) && Item(texts[i])
    ensures SplitTop(Join(PadAll(texts, pads), ",")) == texts
    ensures Balanced(Join(PadAll(texts, pads), ","))
  {
    var ps := PadAll(texts, pads);
    forall i | 0 <= i < |texts|
      ensures Item(ps[i]) && Trim(ps[i]) == texts[i]
    {
      PaddedItem(pads[i].0, texts[i], pads[i].1);
    }
    ItemsJoinBalanced(ps);
    TrimBlank(ps[|ps| - 1]);
    SplitTopOfJoin(ps);
    assert TrimAll(ps) == texts;
  }

  lemma {:induction false} PaddedItem(a: string, s: string, b: string)
    requires Blank(a) && Blank(b) && Tight(s) && Item(s)
    ensures Item(a + s + b) && Trim(a + s + b) == s
  {
    BlankFree(a);
    BlankFree(b);
    PlainIsItem(a);
    PlainIsItem(b);
    ItemConcat(a, 0, s);
    ItemConcat(a + s, 0, b);
    TrimPadded(a, s, b);
  }

  /** A non-empty list is not mistaken for the empty one. */
  lemma {:induction false} ListNotEmpty(texts: seq<string>, pads: seq<(string, string)>)
    requires texts != [] && |pads| == |texts|
    requires forall i | 0 <= i < |pads| :: Blank(pads[i].0) && Blank(pads[i].1)
    requires forall i | 0 <= i < |texts| :: Tight(texts[i]) && Item(texts[i])
    requires texts != ["void"]
    ensures var c := Trim(Join(PadAll(texts, pads), ",")); c != "" && c != "void" && SplitTop(c) == texts
  {
    var c := Join(PadAll(texts, pads), ",");
    SplitPadded(texts, pads);
    SplitTopTrim(c);
    SplitsToMore(Trim(c), texts);
  }

  lemma {:induction false} SplitsToMore(c: string, texts: seq<string>)
    requires SplitTop(c) == texts && texts != [] && texts != ["void"]
    ensures c != "" && c != "void"
  {
    SplitOfNothing();
  }

  lemma {:induction false} SplitOfNothing()
    ensures SplitTop("") == [] && SplitTop("void") == ["void"]
  {
    PlainIsItem("");
    SplitItem("", 0, "");
    TrimTight("");
    SplitWord("void");
  }

  lemma {:induction false} SplitWord(w: string)
    requires Tight(w) && Free(w, "(),")
    ensures SplitTop(w) == [w]
  {
    PlainIsItem(w);
    SplitItem(w, 0, "");
    TrimTight(w);
  }

  // ── Callbacks ────────────────────────────────────────────────────────────────────────

  lemma {:induction false} InnerRoundTrip(tab: BaseTable, l: List<Plain>)
    requires ValidInner(l)
    ensures Balanced(InnerText(l))
    ensures CallbackTypes(tab, InnerText(l)) == InnerMeaning(tab, l)
  {
    match l
    case Empty(text) =>
      VoidBalanced(text);
    case Items(items, pads) =>
      InnerItemsRoundTrip(tab, items, pads);
  }

  lemma {:induction false} InnerItemsRoundTrip(tab: BaseTable, items: seq<Plain>, pads: seq<(string, string)>)
    requires ValidInner(Items(items, pads))
    ensures Balanced(Join(PadAll(PlainTexts(items), pads), ","))
    ensures CallbackTypes(tab, Join(PadAll(PlainTexts(items), pads), ",")) == InnerMeaning(tab, Items(items, pads))
  {
    var texts := PlainTexts(items);
    forall i | 0 <= i < |items|
      ensures Tight(texts[i]) && Item(texts[i])
      ensures MapType(tab, TypeOnly(texts[i])) == Meaning(tab, items[i].ty, 0)
    {
      PlainShape(items[i]);
      InnerTypeOnly(tab, items[i]);
    }
    InnerNotJustVoid(items);
    SplitPadded(texts, pads);
    ListNotEmpty(texts, pads);
    assert TypesOnly(tab, texts) == InnerMeaning(tab, Items(items, pads));
  }

  lemma {:induction false} InnerNotJustVoid(items: seq<Plain>)
    requires items != [] && forall i | 0 <= i < |items| :: WrittenPlain(items[i])
    requires |items| == 1 ==> !BareVoid(items[0])
    ensures PlainTexts(items) != ["void"]
  {
    PlainShape(items[0]);
    assert PlainText(items[0]) == PlainTexts(items)[0];
  }

  lemma {:induction false} VoidBalanced(text: string)
    requires Trim(text) == "" || Trim(text) == "void"
    ensures Balanced(text)
  {
    var a, b := TrimSplits(text);
    BlankFree(a);
    BlankFree(b);
    FreeConcat(a, Trim(text), "(),");
    FreeConcat(a + Trim(text), b, "(),");
    PlainIsItem(text);
  }

  lemma {:induction false} CallbackShape(ret: string, stem: string, mid: string, inner: string)
    requires ret != "" && !IsSpace(ret[0]) && Free(ret, "(),") && Free(stem, "(),") && Blank(mid)
    requires Balanced(inner)
    ensures var s := ret + ("(" + stem + ")") + mid + ("(" + inner + ")"); Tight(s) && Item(s)
  {
    BlankFree(mid);
    PlainIsItem(stem);
    PlainIsItem(ret);
    PlainIsItem(mid);
    GroupIsItem(stem);
    GroupIsItem(inner);
    var a, b := "(" + stem + ")", "(" + inner + ")";
    ItemConcat(ret, 0, a);
    ItemConcat(ret + a, 0, mid);
    ItemConcat(ret + a + mid, 0, b);
  }

  /** Reading back a padded name and the balanced group behind it. */
  lemma {:induction false} NameAndGroupOf(a: string, n: string, b: string, mid: string, g: string, t: string)
    requires Blank(a) && Blank(b) && Name(n) && Free(mid, "(") && Balanced(g)
    ensures NameAndGroup((a + n + b) + ")" + (mid + "(" + (g + ")" + t))) == Some(Group(n, g))
  {
    var rest := g + ")" + t;
    var after := mid + "(" + rest;
    var s := (a + n + b) + ")" + after;
    BlankFree(a);
    BlankFree(b);
    FreeConcat(a, n, "(),");
    FreeConcat(a + n, b, "(),");
    FindAt(a + n + b, ')', after);
    assert s[..|a + n + b|] == a + n + b && s[|a + n + b| + 1..] == after;
    TrimPadded(a, n, b);
    FindAt(mid, '(', rest);
    assert after[|mid| + 1..] == rest;
    CloseAfterBalanced(g, 0, t);
    assert rest[..|g|] == g;
  }

  lemma {:induction false} CallbackRegroup(ret: string, x: string, mid: string, inner: string)
    ensures ret + "(*" + x + ")" + mid + "(" + inner + ")" == ret + ("(" + ("*" + x) + ")") + mid + ("(" + inner + ")")
    ensures ret + "(*" + x + ")" + mid + "(" + inner + ")" == ret + "(*" + (x + ")" + (mid + "(" + (inner + ")" + "")))
  {
    var tail := mid + "(" + (inner + ")" + "");
    assert inner + ")" + "" == inner + ")";
    assert (x + ")") + mid + "(" + inner + ")" == x + ")" + tail;
    assert ret + "(*" + (x + ")" + tail) == ret + "(*" + x + ")" + tail;
    assert "(*" + x == "(" + ("*" + x);
  }

  lemma {:induction false} CallbackTextShape(d: ParamDecl)
    requires WrittenCallback(d)
    requires Balanced(InnerText(d.inner))
    ensures var s := CallbackText(d);
            && s == d.ret + "(*" + ((d.pre + d.name + d.post) + ")" + (d.mid + "(" + (InnerText(d.inner) + ")" + "")))
            && Tight(s) && Item(s) && '*' in s
  {
    var x := d.pre + d.name + d.post;
    BlankFree(d.pre);
    BlankFree(d.post);
    FreeConcat(d.pre, d.name, "(),");
    FreeConcat(d.pre + d.name, d.post, "(),");
    FreeConcat("*", x, "(),");
    CallbackShape(d.ret, "*" + x, d.mid, InnerText(d.inner));
    CallbackRegroup(d.ret, x, d.mid, InnerText(d.inner));
    assert (d.ret + "(*" + x)[|d.ret| + 1] == '*';
  }

  lemma {:induction false} CallbackRoundTrip(tab: BaseTable, d: ParamDecl, idx: nat)
    requires ValidParam(d) && d.Callback?
    ensures ParseParam(tab, ParamText(d), idx) == ParamMeaning(tab, d, idx)
    ensures Tight(ParamText(d)) && Item(ParamText(d)) && '*' in ParamText(d)
  {
    CallbackParsed(tab, d, idx);
  }

  /** A callback is recovered exactly when it returns nothing: the code drops any other result. */
  lemma {:induction false} CallbackRecoveredIff(tab: BaseTable, d: ParamDecl, idx: nat)
    requires WrittenCallback(d)
    ensures ParseParam(tab, CallbackText(d), idx) == Param(CallbackMeaning(tab, d), Sanitize(d.name)) <==>
            Trim(d.ret) == "void"
  {
    CallbackParsed(tab, d, idx);
    var j := Join(InnerMeaning(tab, d.inner), ", ");
    LongerTail("Option<unsafe extern \"C\" fn(" + j, ")>", ") -> " + MapReturn(tab, d.ret) + ">");
  }

  /** The function type of a callback lists the types of its elements in order. */
  lemma {:induction false} CallbackSpelled(tab: BaseTable, d: ParamDecl, idx: nat) returns (types: seq<string>)
    requires WrittenCallback(d) && Trim(d.ret) == "void" && d.inner.Items?
    ensures |types| == |d.inner.items|
    ensures forall k | 0 <= k < |types| :: types[k] == Meaning(tab, d.inner.items[k].ty, 0)
    ensures ParseParam(tab, CallbackText(d), idx).rustType ==
            "Option<unsafe extern \"C\" fn(" + Join(types, ", ") + ")>"
  {
    types := InnerMeaning(tab, d.inner);
    CallbackParsed(tab, d, idx);
  }

  lemma {:induction false} LongerTail(a: string, x: string, y: string)
    requires |x| < |y|
    ensures a + x != a + y
  {
    assert |a + x| < |a + y|;
  }

  lemma {:induction false} CallbackParsed(tab: BaseTable, d: ParamDecl, idx: nat)
    requires WrittenCallback(d)
    ensures ParseParam(tab, CallbackText(d), idx) == Param(CallbackType(InnerMeaning(tab, d.inner)), Sanitize(d.name))
    ensures Tight(CallbackText(d)) && Item(CallbackText(d)) && '*' in CallbackText(d)
  {
    InnerRoundTrip(tab, d.inner);
    CallbackTextShape(d);
    var c, inner := CallbackText(d), InnerText(d.inner);
    TrimTight(c);
    BlankFree(d.mid);
    var tail := (d.pre + d.name + d.post) + ")" + (d.mid + "(" + (inner + ")" + ""));
    FindOpener(d.ret, tail);
    assert c[|d.ret| + 2..] == tail;
    NameAndGroupOf(d.pre, d.name, d.post, d.mid, inner, "");
  }

  lemma {:induction false} CallbackOfTwo(ret: string, n: string, a: Plain, b: Plain)
    requires ret != "" && !IsSpace(ret[0]) && Free(ret, "(),") && Trim(ret) == "void" && Name(n)
    requires ValidPlain(a) && ValidPlain(b) && a.arrays == b.arrays == []
    ensures ValidParam(Callback(ret, "", n, "", "", Items([a, b], [("", ""), (" ", "")])))
  {
  }

  /** A callback with an unnamed word type among its parameters: `void (*fn)(void*, size_t)`. */
  lemma {:induction false} WordTypeInCallback() returns (a: Plain, b: Plain)
    ensures ValidPlain(a) && PlainText(a) == "void*" && ValidPlain(b) && PlainText(b) == "size_t"
    ensures ValidParam(Callback("void ", "", "fn", "", "", Items([a, b], [("", ""), (" ", "")])))
  {
    a := StarredVoid();
    b := SizeAlone();
    FnIsName();
    VoidHead();
    CallbackOfTwo("void ", "fn", a, b);
  }

  lemma {:induction false} VoidHead()
    ensures var s := "void "; s != "" && !IsSpace(s[0]) && Free(s, "(),") && Trim(s) == "void"
  {
    TrimPadded("", "void", " ");
    assert "" + "void" + " " == "void ";
  }

  lemma {:induction false} SizeAlone() returns (p: Plain)
    ensures ValidPlain(p) && PlainText(p) == "size_t" && p.arrays == []
  {
    var w := "size_t";
    assert w[0] == 's' && w[1] == 'i' && w[2] == 'z' && w[3] == 'e' && w[4] == '_' && w[5] == 't';
    p := Plain(CType([], w, []), [""], "", None, []);
    WordAlone(w);
  }

  lemma {:induction false} WordAlone(w: string)
    requires Word(w) && WordTok(w).Ident? && Free(w, PUNCTUATION)
    ensures var p := Plain(CType([], w, []), [""], "", None, []); ValidPlain(p) && PlainText(p) == w
  {
    assert TypeToks(CType([], w, [])) == [Ident(w)];
    assert Write([Ident(w)], [""]) == w;
  }

  lemma {:induction false} StarredVoid() returns (p: Plain)
    ensures ValidPlain(p) && PlainText(p) == "void*" && p.arrays == []
  {
    var w := "void";
    assert w[0] == 'v' && w[1] == 'o' && w[2] == 'i' && w[3] == 'd';
    p := Plain(CType([], w, [Star]), ["", ""], "", None, []);
    StarredWord(w);
    assert w + "*" == "void*";
  }

  lemma {:induction false} StarredWord(w: string)
    requires Word(w) && WordTok(w).Ident? && Free(w, PUNCTUATION)
    ensures var p := Plain(CType([], w, [Star]), ["", ""], "", None, []); ValidPlain(p) && PlainText(p) == w + "*"
  {
    var ts := [Ident(w), Star];
    assert TypeToks(CType([], w, [Star])) == ts;
    assert ts[1..] == [Star] && ["", ""][1..] == [""];
    assert Write([Star], [""]) == "*";
    assert Write(ts, ["", ""]) == w + "*";
  }

  lemma {:induction false} FnIsName()
    ensures Name("fn")
  {
    assert "fn"[0] == 'f' && "fn"[1] == 'n';
  }

  lemma {:induction false} FindOpener(ret: string, rest: string)
    requires Free(ret, "(),")
    ensures FindSub(ret + "(*" + rest, "(*") == Some(|ret|)
  {
    var c := ret + "(*" + rest;
    assert At(c, |ret|, "(*");
    var r := FindSub(c, "(*");
    assert c[r.value] == c[r.value..r.value + 2][0] == '(';
  }

  // ── Parameter lists and fields ───────────────────────────────────────────────────────

  lemma {:induction false} ParamRoundTrip(tab: BaseTable, d: ParamDecl, idx: nat)
    requires ValidParam(d)
    ensures ParseParam(tab, ParamText(d), idx) == ParamMeaning(tab, d, idx)
    ensures var s := ParamText(d); Tight(s) && Item(s) && (s == "void" ==> d.Ordinary? && BareVoid(d.p))
  {
    match d
    case Ordinary(p) =>
      ParsePlain(tab, p, idx);
      PlainShape(p);
    case Callback(_, _, _, _, _, _) =>
      CallbackRoundTrip(tab, d, idx);
  }

  lemma {:induction false} ParamsRoundTrip(tab: BaseTable, l: List<ParamDecl>)
    requires ValidParams(l)
    ensures Balanced(ParamsText(l))
    ensures ParseParams(tab, ParamsText(l)) == ParamsMeaning(tab, l)
  {
    match l
    case Empty(text) =>
      VoidBalanced(text);
    case Items(items, pads) =>
      var texts := ParamTexts(items);
      ItemsShape(tab, items);
      NotJustVoid(tab, l);
      SplitPadded(texts, pads);
      ListNotEmpty(texts, pads);
      ParsesAsList(tab, ParamsText(l), texts);
      EachMeans(tab, l);
  }

  lemma {:induction false} ParsesAsList(tab: BaseTable, c: string, texts: seq<string>)
    requires Trim(c) != "" && Trim(c) != "void" && SplitTop(Trim(c)) == texts
    ensures ParseParams(tab, c) == ParseEach(tab, texts)
  {
  }

  lemma {:induction false} EachMeans(tab: BaseTable, l: List<ParamDecl>)
    requires ValidParams(l) && l.Items?
    ensures ParseEach(tab, ParamTexts(l.items)) == ParamsMeaning(tab, l)
  {
    var a, b := ParseEach(tab, ParamTexts(l.items)), ParamsMeaning(tab, l);
    forall i | 0 <= i < |a|
      ensures a[i] == b[i]
    {
      ParamRoundTrip(tab, l.items[i], i);
    }
  }

  lemma {:induction false} NotJustVoid(tab: BaseTable, l: List<ParamDecl>)
    requires ValidParams(l) && l.Items?
    ensures ParamTexts(l.items) != ["void"]
  {
    var d := l.items[0];
    ParamRoundTrip(tab, d, 0);
    assert ParamText(d) == ParamTexts(l.items)[0];
  }

  lemma {:induction false} ItemsShape(tab: BaseTable, items: seq<ParamDecl>)
    requires forall i | 0 <= i < |items| :: ValidParam(items[i])
    ensures var texts := ParamTexts(items); forall i | 0 <= i < |texts| :: Tight(texts[i]) && Item(texts[i])
  {
    forall i | 0 <= i < |items|
      ensures var s := ParamText(items[i]); Tight(s) && Item(s)
    {
      ParamRoundTrip(tab, items[i], i);
    }
  }

  /** Parser undoes printer: a written field, with any attribute text behind its parameter
      list, parses to its name, the meaning of its return type and of every parameter. */
  lemma {:induction false} FieldRoundTrip(tab: BaseTable, f: FieldDecl, lead: string, trail: string, line: string)
    requires ValidField(f) && Blank(lead)
    requires line == lead + FieldText(f) + trail
    ensures ParseField(tab, line) == Some(Field(0, f.name, ReturnMeaning(tab, f.ret),
                                                ParamsMeaning(tab, f.params), DropSemicolons(Trim(line))))
  {
    var more := TrimEnd(trail);
    var declarator := (f.mid + f.name + f.post) + ")" + (f.between + "(" + (ParamsText(f.params) + ")" + more));
    FieldLine(f, lead, trail);
    HeadShape(f);
    ParseFieldSteps(tab, line, HeadText(f), f.pre, declarator);
    ParamsRoundTrip(tab, f.params);
    NameAndGroupOf(f.mid, f.name, f.post, f.between, ParamsText(f.params), more);
    MapReturnPreservesMeaning(tab, f.ret, f.retGaps, HeadText(f));
  }

  lemma {:induction false} ParseFieldSteps(tab: BaseTable, text: string, head: string, pre: string, declarator: string)
    requires Trim(text) == head + "(" + (pre + ("*" + declarator))
    requires '(' !in head && Blank(pre)
    ensures var g := NameAndGroup(declarator);
            ParseField(tab, text) ==
            if g.None? then None
            else Some(Field(0, g.value.name, MapReturn(tab, head), ParseParams(tab, g.value.body),
                            DropSemicolons(Trim(text))))
  {
    var line, rest := Trim(text), pre + ("*" + declarator);
    FindAt(head, '(', rest);
    assert line[|head| + 1..] == rest && line[..|head|] == head;
    TrimStartSkips(pre, "*" + declarator);
    assert ("*" + declarator)[1..] == declarator;
  }

  /** `NAME)...(BALANCED)...` */
  ghost predicate GroupShaped(s: string, nm: string, mid: string, g: string, t: string) {
    s == nm + ")" + (mid + "(" + (g + ")" + t)) && ')' !in nm && '(' !in mid && Balanced(g)
  }

  lemma {:induction false} GroupRead(s: string, nm: string, mid: string, g: string, t: string)
    requires GroupShaped(s, nm, mid, g, t)
    ensures NameAndGroup(s) == Some(Group(Trim(nm), g))
  {
    var rest := g + ")" + t;
    var after := mid + "(" + rest;
    FindAt(nm, ')', after);
    assert s[..|nm|] == nm && s[|nm| + 1..] == after;
    FindAt(mid, '(', rest);
    assert after[|mid| + 1..] == rest;
    CloseAfterBalanced(g, 0, t);
    assert rest[..|g|] == g;
  }

  lemma {:induction false} CutAt(s: string, k: nat)
    requires k < |s|
    ensures s == s[..k] + [s[k]] + s[k + 1..]
  {
  }

  lemma {:induction false} GroupFound(s: string) returns (nm: string, mid: string, g: string, t: string)
    requires NameAndGroup(s).Some?
    ensures GroupShaped(s, nm, mid, g, t)
  {
    var i := Find(s, ')').value;
    var after := s[i + 1..];
    var j := Find(after, '(').value;
    var rest := after[j + 1..];
    var k := MatchClose(rest).value;
    CloseIff(rest, 0, k);
    GroupCut(s, i, after, j, rest, k);
    nm, mid, g, t := s[..i], after[..j], rest[..k], rest[k + 1..];
  }

  lemma {:induction false} GroupCut(s: string, i: nat, after: string, j: nat, rest: string, k: nat)
    requires i < |s| && s[i] == ')' && ')' !in s[..i] && after == s[i + 1..]
    requires j < |after| && after[j] == '(' && '(' !in after[..j] && rest == after[j + 1..]
    requires k < |rest| && rest[k] == ')' && Balanced(rest[..k])
    ensures GroupShaped(s, s[..i], after[..j], rest[..k], rest[k + 1..])
  {
    CutAt(rest, k);
    CutAt(after, j);
    CutAt(s, i);
  }

  /** `HEAD ( * NAME)...(BALANCED)...`, where HEAD holds no parenthesis. */
  ghost predicate FieldShaped(line: string, head: string, pre: string, s: string) {
    line == head + "(" + (pre + ("*" + s)) && '(' !in head && Blank(pre) &&
    exists nm, mid, g, t :: GroupShaped(s, nm, mid, g, t)
  }

  lemma {:induction false} ShapedIfParsed(tab: BaseTable, text: string) returns (head: string, pre: string, s: string)
    requires ParseField(tab, text).Some?
    ensures FieldShaped(Trim(text), head, pre, s)
  {
    head, pre, s := ShapedFrom(Trim(text), Find(Trim(text), '(').value);
  }

  lemma {:induction false} ShapedFrom(line: string, i: nat) returns (head: string, pre: string, s: string)
    requires i < |line| && line[i] == '(' && '(' !in line[..i]
    requires var inner := TrimStart(line[i + 1..]); inner != "" && inner[0] == '*' && NameAndGroup(inner[1..]).Some?
    ensures FieldShaped(line, head, pre, s)
  {
    var inner := TrimStart(line[i + 1..]);
    head, s := line[..i], inner[1..];
    pre := TrimStartSplits(line[i + 1..]);
    var nm, mid, g, t := GroupFound(s);
    CutAt(line, i);
    assert inner == "*" + s;
  }

  lemma {:induction false} ParsedIfShaped(tab: BaseTable, text: string, head: string, pre: string, s: string)
    requires FieldShaped(Trim(text), head, pre, s)
    ensures ParseField(tab, text).Some?
  {
    var nm, mid, g, t :| GroupShaped(s, nm, mid, g, t);
    GroupRead(s, nm, mid, g, t);
    ParseFieldSteps(tab, text, head, pre, s);
  }

  /** Exactly which declarations are fields, by their text alone. */
  lemma {:induction false} ParsesIff(tab: BaseTable, text: string)
    ensures ParseField(tab, text).Some? <==> exists head, pre, s :: FieldShaped(Trim(text), head, pre, s)
  {
    if ParseField(tab, text).Some? {
      var head, pre, s := ShapedIfParsed(tab, text);
    }
    forall head, pre, s | FieldShaped(Trim(text), head, pre, s)
      ensures ParseField(tab, text).Some?
    {
      ParsedIfShaped(tab, text, head, pre, s);
    }
  }

  lemma {:induction false} TrimStartSplits(s: string) returns (a: string)
    ensures Blank(a) && s == a + TrimStart(s)
  {
    if s != "" && IsSpace(s[0]) {
      a := TrimStartSplits(s[1..]);
      assert s == [s[0]] + s[1..];
      a := [s[0]] + a;
    } else {
      a := "";
    }
  }

  lemma {:induction false} HeadShape(f: FieldDecl)
    requires ValidField(f)
    ensures Free(HeadText(f), "(),") && HeadText(f) != "" && !IsSpace(HeadText(f)[0])
    ensures Trim(HeadText(f)) == Write(TypeToks(f.ret), f.retGaps)
  {
    TypeShape(f.ret, f.retGaps);
    PaddedHead(Write(TypeToks(f.ret), f.retGaps), f.retPad);
  }

  lemma {:induction false} PaddedHead(t: string, pad: string)
    requires Tight(t) && Free(t, PUNCTUATION) && Blank(pad)
    ensures var h := t + pad; Free(h, "(),") && h != "" && !IsSpace(h[0]) && Trim(h) == t
  {
    BlankFree(pad);
    FreeConcat(t, pad, "(),");
    TrimPadded("", t, pad);
    assert "" + t + pad == t + pad;
  }

  /** The trimmed line: only its blank ends go. */
  lemma {:induction false} FieldLine(f: FieldDecl, lead: string, trail: string)
    requires ValidField(f) && Blank(lead)
    ensures Trim(lead + FieldText(f) + trail) ==
            HeadText(f) + "(" + (f.pre + ("*" + ((f.mid + f.name + f.post) + ")" +
            (f.between + "(" + (ParamsText(f.params) + ")" + TrimEnd(trail))))))
  {
    HeadShape(f);
    FieldEnds(f);
    TrimCore(lead, FieldText(f), trail);
    FieldTextSplit(f, TrimEnd(trail));
  }

  lemma {:induction false} TrimCore(lead: string, t: string, trail: string)
    requires Blank(lead) && Tight(t)
    ensures Trim(lead + t + trail) == t + TrimEnd(trail)
  {
    var more := TrimEnd(trail);
    var b := TrimEndSplits(trail);
    assert lead + t + trail == lead + (t + more) + b;
    assert (t + more)[|t + more| - 1] == if more == "" then t[|t| - 1] else more[|more| - 1];
    TrimPadded(lead, t + more, b);
  }

  lemma {:induction false} FieldEnds(f: FieldDecl)
    requires ValidField(f)
    ensures Tight(FieldText(f))
  {
    HeadShape(f);
    var t := f.pre + ("*" + ((f.mid + f.name + f.post) + ")" + (f.between + "(" + (ParamsText(f.params) + ")"))));
    assert t[|t| - 1] == ')';
    assert FieldText(f) == HeadText(f) + "(" + t;
  }

  lemma {:induction false} FieldTextSplit(f: FieldDecl, more: string)
    requires ValidField(f)
    ensures FieldText(f) + more ==
            HeadText(f) + "(" + (f.pre + ("*" + ((f.mid + f.name + f.post) + ")" +
            (f.between + "(" + (ParamsText(f.params) + ")" + more)))))
  {
    var p := ParamsText(f.params);
    var x := f.mid + f.name + f.post;
    Regroup(f.between, "(", p + ")", more);
    Regroup(x, ")", f.between + "(" + (p + ")"), more);
    Regroup("", "*", x + ")" + (f.between + "(" + (p + ")")), more);
    Regroup(f.pre, "", "*" + (x + ")" + (f.between + "(" + (p + ")"))), more);
    Regroup(HeadText(f), "(", f.pre + ("*" + (x + ")" + (f.between + "(" + (p + ")")))), more);
  }

  lemma {:induction false} Regroup(a: string, b: string, c: string, d: string)
    ensures (a + b + c) + d == a + b + (c + d)
    ensures a == "" ==> a + b == b
    ensures b == "" ==> a + b == a
  {
  }
}
