/** The layout of the emitted file: fields regrouped by feature gate, between fixed texts. */
module Regroup {
  import opened Text
  import opened Decls
  import opened Handles

  /** In the key order of the group map: no gate first, then gates by name. */
  datatype Gate = Core | CustomOps | Ep | ModelEditor | Training

  const GATES := [Core, CustomOps, Ep, ModelEditor, Training]

  function Rank(g: Gate): nat {
    match g
    case Core => 0
    case CustomOps => 1
    case Ep => 2
    case ModelEditor => 3
    case Training => 4
  }

  function GateName(g: Gate): string {
    match g
    case Core => ""
    case CustomOps => "custom-ops"
    case Ep => "ep"
    case ModelEditor => "model-editor"
    case Training => "training"
  }

  /** The ranks are the lexicographic order of the gate names. */
  lemma {:induction false} RankIsKeyOrder(g: Gate, h: Gate)
    ensures Rank(g) < Rank(h) <==> Less(GateName(g), GateName(h))
  {
    LessTotal(GateName(g), GateName(h));
    if !g.Core? && !h.Core? && g != h {
      assert GateName(g)[0] != GateName(h)[0];
    }
  }

  datatype SubApi = SubApi(rustName: string, fields: seq<Field>)

  /** How the file is written: the gate of a field name, the text of a field and of a sub-API,
      and the fixed texts between them. */
  datatype Style = Style(gateOf: string -> Gate, render: Field -> string, renderSub: SubApi -> string,
                         preamble: string, handleTitle: string, types: string,
                         title: Gate -> string, subTitle: string)

  // ── Grouping ─────────────────────────────────────────────────────────────────────────

  /** The fields of one gate, in their original order. */
  function Select(st: Style, fs: seq<Field>, g: Gate): seq<Field> {
    if fs == [] then []
    else Select(st, fs[..|fs| - 1], g) + (if st.gateOf(fs[|fs| - 1].name) == g then [fs[|fs| - 1]] else [])
  }

  method GroupFields(st: Style, fs: seq<Field>) returns (groups: map<Gate, seq<Field>>)
    ensures forall g :: g in groups <==> Select(st, fs, g) != []
    ensures forall g :: g in groups ==> groups[g] == Select(st, fs, g)
  {
    groups := map[];
    for i := 0 to |fs|
      invariant forall g :: g in groups <==> Select(st, fs[..i], g) != []
      invariant forall g :: g in groups ==> groups[g] == Select(st, fs[..i], g)
    {
      assert fs[..i + 1][..i] == fs[..i] && fs[..i + 1][i] == fs[i];
      var g := st.gateOf(fs[i].name);
      var known := if g in groups then groups[g] else [];
      assert known == Select(st, fs[..i], g);
      groups := groups[g := known + [fs[i]]];
    }
    assert fs[..|fs|] == fs;
  }

  /** The fields of the first `k` gates, gate by gate. */
  function OrderUpTo(st: Style, fs: seq<Field>, k: nat): seq<Field>
    requires k <= |GATES|
  {
    if k == 0 then [] else OrderUpTo(st, fs, k - 1) + Select(st, fs, GATES[k - 1])
  }

  /** The fields in the order of the emitted file. */
  function EmitOrder(st: Style, fs: seq<Field>): seq<Field> { OrderUpTo(st, fs, |GATES|) }

  /** How often `f` occurs among the selected fields: as often as in `fs`, or not at all. */
  lemma {:induction false} SelectCounts(st: Style, fs: seq<Field>, g: Gate, f: Field)
    ensures multiset(Select(st, fs, g))[f] == if st.gateOf(f.name) == g then multiset(fs)[f] else 0
  {
    if fs != [] {
      var n := |fs| - 1;
      SelectCounts(st, fs[..n], g, f);
      assert fs == fs[..n] + [fs[n]];
    }
  }

  lemma {:induction false} OrderCounts(st: Style, fs: seq<Field>, k: nat, f: Field)
    requires k <= |GATES|
    ensures multiset(OrderUpTo(st, fs, k))[f] == if Rank(st.gateOf(f.name)) < k then multiset(fs)[f] else 0
  {
    if k > 0 {
      OrderCounts(st, fs, k - 1, f);
      SelectCounts(st, fs, GATES[k - 1], f);
      assert Rank(GATES[k - 1]) == k - 1;
      assert st.gateOf(f.name) == GATES[k - 1] <==> Rank(st.gateOf(f.name)) == k - 1;
    }
  }

  /** Regrouping loses nothing, invents nothing and repeats nothing. */
  lemma {:induction false} RegroupingConserves(st: Style, fs: seq<Field>)
    ensures multiset(EmitOrder(st, fs)) == multiset(fs)
  {
    forall f: Field
      ensures multiset(EmitOrder(st, fs))[f] == multiset(fs)[f]
    {
      OrderCounts(st, fs, |GATES|, f);
    }
  }

  /** Fields numbered by position, as the reader numbers them. */
  predicate Numbered(fs: seq<Field>) {
    forall i | 0 <= i < |fs| :: fs[i].idx == i
  }

  /** Emission order: by gate, and by original index inside a gate. */
  predicate Before(st: Style, a: Field, b: Field) {
    var ra, rb := Rank(st.gateOf(a.name)), Rank(st.gateOf(b.name));
    ra < rb || (ra == rb && a.idx < b.idx)
  }

  predicate Ordered(st: Style, fs: seq<Field>) {
    forall i, j | 0 <= i < j < |fs| :: Before(st, fs[i], fs[j])
  }

  lemma {:induction false} SelectOrdered(st: Style, fs: seq<Field>, g: Gate)
    requires Numbered(fs)
    ensures Ordered(st, Select(st, fs, g))
    ensures forall f | f in Select(st, fs, g) :: st.gateOf(f.name) == g && f.idx < |fs|
  {
    if fs != [] {
      SelectOrdered(st, fs[..|fs| - 1], g);
      var s := Select(st, fs[..|fs| - 1], g);
      assert forall i | 0 <= i < |s| :: s[i] in s;
    }
  }

  lemma {:induction false} OrderUpToOrdered(st: Style, fs: seq<Field>, k: nat)
    requires k <= |GATES| && Numbered(fs)
    ensures Ordered(st, OrderUpTo(st, fs, k))
    ensures forall f | f in OrderUpTo(st, fs, k) :: Rank(st.gateOf(f.name)) < k
  {
    if k > 0 {
      OrderUpToOrdered(st, fs, k - 1);
      SelectOrdered(st, fs, GATES[k - 1]);
      var a, b := OrderUpTo(st, fs, k - 1), Select(st, fs, GATES[k - 1]);
      assert Rank(GATES[k - 1]) == k - 1;
      assert forall i | 0 <= i < |a| :: a[i] in a;
      assert forall i | 0 <= i < |b| :: b[i] in b;
    }
  }

  /** Core first, gates in key order, original order inside a gate. */
  lemma {:induction false} RegroupingOrders(st: Style, fs: seq<Field>)
    requires Numbered(fs)
    ensures var out := EmitOrder(st, fs);
            forall i, j | 0 <= i < j < |out| ::
              var g, h := st.gateOf(out[i].name), st.gateOf(out[j].name);
              (g == h && out[i].idx < out[j].idx) || Less(GateName(g), GateName(h))
  {
    forall g: Gate, h: Gate
      ensures Rank(g) < Rank(h) <==> Less(GateName(g), GateName(h))
    {
      RankIsKeyOrder(g, h);
    }
    OrderUpToOrdered(st, fs, |GATES|);
  }

  // ── The file ─────────────────────────────────────────────────────────────────────────

  function Texts(st: Style, fs: seq<Field>): (r: seq<string>)
    ensures |r| == |fs| && forall i | 0 <= i < |fs| :: r[i] == st.render(fs[i])
  {
    seq(|fs|, i requires 0 <= i < |fs| => st.render(fs[i]))
  }

  function SubTexts(st: Style, subs: seq<SubApi>): (r: seq<string>)
    ensures |r| == |subs| && forall i | 0 <= i < |subs| :: r[i] == st.renderSub(subs[i])
  {
    seq(|subs|, i requires 0 <= i < |subs| => st.renderSub(subs[i]))
  }

  /** Every snippet of the file, the text from which handle types are collected. */
  function Snippets(st: Style, fs: seq<Field>, subs: seq<SubApi>): seq<string> {
    Texts(st, EmitOrder(st, fs)) + SubTexts(st, subs)
  }

  function HandleLine(h: string): string { "opaque_handle!(" + h + ");\n" }

  function HandleLines(hs: seq<string>): (r: seq<string>)
    ensures |r| == |hs| && forall i | 0 <= i < |hs| :: r[i] == HandleLine(hs[i])
  {
    seq(|hs|, i requires 0 <= i < |hs| => HandleLine(hs[i]))
  }

  /** One group under its title; nothing at all for a gate without fields. */
  function Section(st: Style, fs: seq<Field>, g: Gate): string {
    var group := Select(st, fs, g);
    if group == [] then "" else st.title(g) + Concat(Texts(st, group))
  }

  function Sections(st: Style, fs: seq<Field>, k: nat): string
    requires k <= |GATES|
  {
    if k == 0 then "" else Sections(st, fs, k - 1) + Section(st, fs, GATES[k - 1])
  }

  function Front(st: Style, hs: seq<string>): string {
    st.preamble + st.handleTitle + Concat(HandleLines(hs)) + st.types
  }

  function Back(st: Style, subs: seq<SubApi>): string { st.subTitle + Concat(SubTexts(st, subs)) }

  function Document(st: Style, fs: seq<Field>, subs: seq<SubApi>, hs: seq<string>): string {
    Front(st, hs) + Sections(st, fs, |GATES|) + Back(st, subs)
  }

  /** The whole emitter: groups, snippets, handles, then the sections of the file. */
  method EmitFile(st: Style, fs: seq<Field>, subs: seq<SubApi>, word: char -> bool)
    returns (s: string, hs: seq<string>)
    ensures IsHandleList(hs, Snippets(st, fs, subs), word)
    ensures s == Document(st, fs, subs, hs)
  {
    var groups := GroupFields(st, fs);
    var snippets := CollectSnippets(st, fs, groups);
    hs := CollectHandles(snippets + SubTexts(st, subs), word);
    var sections := WriteSections(st, fs, groups);
    s := Front(st, hs) + sections + Back(st, subs);
  }

  method CollectSnippets(st: Style, fs: seq<Field>, groups: map<Gate, seq<Field>>) returns (r: seq<string>)
    requires forall g :: g in groups <==> Select(st, fs, g) != []
    requires forall g :: g in groups ==> groups[g] == Select(st, fs, g)
    ensures r == Texts(st, EmitOrder(st, fs))
  {
    r := [];
    for k := 0 to |GATES|
      invariant r == Texts(st, OrderUpTo(st, fs, k))
    {
      var g := GATES[k];
      var group := if g in groups then groups[g] else [];
      TextsConcat(st, OrderUpTo(st, fs, k), group);
      r := r + Texts(st, group);
    }
  }

  method WriteSections(st: Style, fs: seq<Field>, groups: map<Gate, seq<Field>>) returns (s: string)
    requires forall g :: g in groups <==> Select(st, fs, g) != []
    requires forall g :: g in groups ==> groups[g] == Select(st, fs, g)
    ensures s == Sections(st, fs, |GATES|)
  {
    s := "";
    for k := 0 to |GATES|
      invariant s == Sections(st, fs, k)
    {
      var g := GATES[k];
      if g in groups {
        s := s + (st.title(g) + Concat(Texts(st, groups[g])));
      } else {
        assert s + "" == s;
      }
    }
  }

  lemma {:induction false} TextsConcat(st: Style, a: seq<Field>, b: seq<Field>)
    ensures Texts(st, a + b) == Texts(st, a) + Texts(st, b)
  {
  }

  /** The sections in pieces: the title of a group, and each of its fields. */
  datatype Piece = Title(gate: Gate) | Rendered(field: Field)

  function Body(fs: seq<Field>): seq<Piece> { if fs == [] then [] else [Rendered(fs[0])] + Body(fs[1..]) }

  function Pieces(st: Style, fs: seq<Field>, k: nat): seq<Piece>
    requires k <= |GATES|
  {
    if k == 0 then []
    else
      var group := Select(st, fs, GATES[k - 1]);
      Pieces(st, fs, k - 1) + if group == [] then [] else [Title(GATES[k - 1])] + Body(group)
  }

  function PieceText(st: Style, p: Piece): string {
    match p
    case Title(g) => st.title(g)
    case Rendered(f) => st.render(f)
  }

  function PieceTexts(st: Style, ps: seq<Piece>): seq<string> {
    if ps == [] then [] else [PieceText(st, ps[0])] + PieceTexts(st, ps[1..])
  }

  /** The fields among the pieces, in order. */
  function PieceFields(ps: seq<Piece>): seq<Field> {
    if ps == [] then [] else (if ps[0].Rendered? then [ps[0].field] else []) + PieceFields(ps[1..])
  }

  lemma {:induction false} PiecesConcat(st: Style, a: seq<Piece>, b: seq<Piece>)
    ensures PieceTexts(st, a + b) == PieceTexts(st, a) + PieceTexts(st, b)
    ensures PieceFields(a + b) == PieceFields(a) + PieceFields(b)
  {
    if a == [] {
      assert a + b == b;
    } else {
      assert (a + b)[0] == a[0] && (a + b)[1..] == a[1..] + b;
      PiecesConcat(st, a[1..], b);
    }
  }

  lemma {:induction false} BodyPieces(st: Style, fs: seq<Field>)
    ensures PieceTexts(st, Body(fs)) == Texts(st, fs) && PieceFields(Body(fs)) == fs
  {
    if fs == [] {
      assert Texts(st, fs) == [];
    } else {
      BodyPieces(st, fs[1..]);
      assert Body(fs)[1..] == Body(fs[1..]);
      assert fs == [fs[0]] + fs[1..];
      TextsConcat(st, [fs[0]], fs[1..]);
      assert Texts(st, [fs[0]]) == [st.render(fs[0])];
    }
  }

  /** The written sections are titles and rendered fields, one after the other, and the fields
      among them are exactly the fields in emission order: each once, none twice. */
  lemma {:induction false} SectionsRenderOrder(st: Style, fs: seq<Field>, k: nat)
    requires k <= |GATES|
    ensures Sections(st, fs, k) == Concat(PieceTexts(st, Pieces(st, fs, k)))
    ensures PieceFields(Pieces(st, fs, k)) == OrderUpTo(st, fs, k)
  {
    if k > 0 {
      SectionsRenderOrder(st, fs, k - 1);
      SectionPieces(st, fs, GATES[k - 1], Pieces(st, fs, k - 1));
    }
  }

  lemma {:induction false} SectionPieces(st: Style, fs: seq<Field>, g: Gate, before: seq<Piece>)
    ensures var group := Select(st, fs, g);
            var ps := before + if group == [] then [] else [Title(g)] + Body(group);
            && Concat(PieceTexts(st, ps)) == Concat(PieceTexts(st, before)) + Section(st, fs, g)
            && PieceFields(ps) == PieceFields(before) + group
  {
    var group := Select(st, fs, g);
    if group == [] {
      assert before + [] == before;
      assert Concat(PieceTexts(st, before)) + "" == Concat(PieceTexts(st, before));
    } else {
      var own := [Title(g)] + Body(group);
      GroupPieces(st, g, group);
      PiecesConcat(st, before, own);
      ConcatSplits(PieceTexts(st, before), PieceTexts(st, own));
    }
  }

  lemma {:induction false} GroupPieces(st: Style, g: Gate, group: seq<Field>)
    ensures var own := [Title(g)] + Body(group);
            Concat(PieceTexts(st, own)) == st.title(g) + Concat(Texts(st, group)) && PieceFields(own) == group
  {
    var own := [Title(g)] + Body(group);
    BodyPieces(st, group);
    assert own[0] == Title(g) && own[1..] == Body(group);
    ConcatCons(st.title(g), Texts(st, group));
  }

  lemma {:induction false} ConcatCons(x: string, ps: seq<string>)
    ensures Concat([x] + ps) == x + Concat(ps)
  {
    assert ([x] + ps)[1..] == ps;
  }

  lemma {:induction false} ConcatSplits(a: seq<string>, b: seq<string>)
    ensures Concat(a + b) == Concat(a) + Concat(b)
  {
    if a == [] {
      assert a + b == b && "" + Concat(b) == Concat(b);
    } else {
      assert (a + b)[0] == a[0] && (a + b)[1..] == a[1..] + b;
      ConcatSplits(a[1..], b);
      assert a[0] + (Concat(a[1..]) + Concat(b)) == (a[0] + Concat(a[1..])) + Concat(b);
    }
  }

  // ── What the file contains ───────────────────────────────────────────────────────────

  lemma {:induction false} ConcatAround(ps: seq<string>, i: nat) returns (a: string, b: string)
    requires i < |ps|
    ensures Concat(ps) == a + ps[i] + b
  {
    if i == 0 {
      a, b := "", Concat(ps[1..]);
      assert "" + ps[0] + b == ps[0] + b;
    } else {
      a, b := ConcatAround(ps[1..], i - 1);
      assert ps[0] + (a + ps[i] + b) == (ps[0] + a) + ps[i] + b;
      a := ps[0] + a;
    }
  }

  lemma {:induction false} SectionsAround(st: Style, fs: seq<Field>, k: nat, i: nat) returns (l: string, r: string)
    requires i < k <= |GATES|
    ensures Sections(st, fs, k) == l + Section(st, fs, GATES[i]) + r
  {
    if i == k - 1 {
      l, r := Sections(st, fs, i), "";
      Shuffle(l, Section(st, fs, GATES[i]), "", "");
    } else {
      l, r := SectionsAround(st, fs, k - 1, i);
      var s, t := Section(st, fs, GATES[i]), Section(st, fs, GATES[k - 1]);
      Shuffle(l, s, r, t);
      r := r + t;
    }
  }

  lemma {:induction false} Shuffle(l: string, s: string, r: string, t: string)
    ensures (l + s + r) + t == l + s + (r + t)
    ensures l + s + "" == l + s
  {
  }

  lemma {:induction false} Nested(front: string, l: string, a: string, t: string, b: string, r: string, back: string)
    ensures front + (l + (a + t + b) + r) + back == (front + l + a) + t + (b + r + back)
  {
  }

  lemma {:induction false} SelectedIff(st: Style, fs: seq<Field>, f: Field)
    requires f in fs
    ensures f in Select(st, fs, st.gateOf(f.name))
  {
    SelectCounts(st, fs, st.gateOf(f.name), f);
    assert f in multiset(fs);
    assert f in multiset(Select(st, fs, st.gateOf(f.name)));
  }

  /** The text of a field inside the section of its own gate. */
  lemma {:induction false} FieldInSection(st: Style, fs: seq<Field>, f: Field) returns (a: string, b: string)
    requires f in fs
    ensures Section(st, fs, st.gateOf(f.name)) == a + st.render(f) + b
  {
    var g := st.gateOf(f.name);
    SelectedIff(st, fs, f);
    var group := Select(st, fs, g);
    var i :| 0 <= i < |group| && group[i] == f;
    a, b := ConcatAround(Texts(st, group), i);
    assert st.title(g) + (a + st.render(f) + b) == (st.title(g) + a) + st.render(f) + b;
    a := st.title(g) + a;
  }

  /** Every field is in the file, in the section of its gate. */
  lemma {:induction false} FieldEmitted(st: Style, fs: seq<Field>, subs: seq<SubApi>, hs: seq<string>, f: Field)
    returns (before: string, after: string)
    requires f in fs
    ensures Document(st, fs, subs, hs) == before + st.render(f) + after
  {
    var a, b := FieldInSection(st, fs, f);
    assert GATES[Rank(st.gateOf(f.name))] == st.gateOf(f.name);
    var l, r := SectionsAround(st, fs, |GATES|, Rank(st.gateOf(f.name)));
    Nested(Front(st, hs), l, a, st.render(f), b, r, Back(st, subs));
    before, after := Front(st, hs) + l + a, b + r + Back(st, subs);
  }

  /** Every sub-API is in the file. */
  lemma {:induction false} SubApiEmitted(st: Style, fs: seq<Field>, subs: seq<SubApi>, hs: seq<string>, m: nat)
    returns (before: string, after: string)
    requires m < |subs|
    ensures Document(st, fs, subs, hs) == before + st.renderSub(subs[m]) + after
  {
    var a, b := ConcatAround(SubTexts(st, subs), m);
    var front := Front(st, hs) + Sections(st, fs, |GATES|);
    LastPart(front, st.subTitle, a, st.renderSub(subs[m]), b);
    before, after := front + st.subTitle + a, b;
  }

  lemma {:induction false} LastPart(front: string, title: string, a: string, t: string, b: string)
    ensures front + (title + (a + t + b)) == (front + title + a) + t + b
  {
  }

  /** Handle closure, for any rendering that keeps the handle types of its signature visible. */
  lemma {:induction false} SnippetMentions(st: Style, fs: seq<Field>, subs: seq<SubApi>, word: char -> bool,
                                           hs: seq<string>, f: Field, h: string)
    requires IsHandleList(hs, Snippets(st, fs, subs), word)
    requires f in fs && FoundIn(st.render(f), word, h)
    ensures h in hs
  {
    RegroupingConserves(st, fs);
    var order := EmitOrder(st, fs);
    assert f in multiset(fs);
    assert f in multiset(order);
    var i :| 0 <= i < |order| && order[i] == f;
    assert Snippets(st, fs, subs)[i] == Texts(st, order)[i] == st.render(f);
  }

  lemma {:induction false} SubSnippetMentions(st: Style, fs: seq<Field>, subs: seq<SubApi>, word: char -> bool,
                                              hs: seq<string>, k: nat, h: string)
    requires IsHandleList(hs, Snippets(st, fs, subs), word)
    requires k < |subs| && FoundIn(st.renderSub(subs[k]), word, h)
    ensures h in hs
  {
    var n := |EmitOrder(st, fs)|;
    assert Snippets(st, fs, subs)[n + k] == SubTexts(st, subs)[k] == st.renderSub(subs[k]);
  }

  /** A collected handle has its declaration line in the file, and one line only. */
  lemma {:induction false} HandleDeclaredOnce(st: Style, fs: seq<Field>, subs: seq<SubApi>, hs: seq<string>,
                                              snips: seq<string>, word: char -> bool, h: string)
    returns (before: string, after: string, i: nat)
    requires IsHandleList(hs, snips, word) && h in hs
    ensures Document(st, fs, subs, hs) == before + HandleLine(h) + after
    ensures forall j | 0 <= j < |hs| :: hs[j] == h <==> j == i
  {
    i :| 0 <= i < |hs| && hs[i] == h;
    LessTotal(h, h);
    var a, b := ConcatAround(HandleLines(hs), i);
    var front, back := st.preamble + st.handleTitle, Sections(st, fs, |GATES|) + Back(st, subs);
    LineInFront(front, a, HandleLine(h), b, st.types, Sections(st, fs, |GATES|), Back(st, subs));
    before, after := front + a, b + st.types + back;
  }

  lemma {:induction false} LineInFront(front: string, a: string, l: string, b: string, types: string,
                                       x: string, y: string)
    ensures front + (a + l + b) + types + x + y == (front + a) + l + (b + types + (x + y))
  {
  }
}
