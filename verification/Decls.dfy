/** Parsing of function-pointer declarations: parameters, callbacks and whole fields. */
module Decls {
  import opened Text
  import opened Parens
  import opened CTypes

  datatype Param = Param(rustType: string, name: string)

  datatype Field = Field(idx: nat, name: string, ret: string, params: seq<Param>, cSig: string)

  datatype Stripped = Stripped(text: string, levels: nat)

  datatype Split = Split(ty: string, name: string)

  const RESERVED := ["type", "in", "out", "ref", "match", "move", "as", "fn", "where", "self"]

  /** C parameter names that Rust reserves get a trailing underscore. */
  function Sanitize(s: string): string {
    if s in RESERVED then s + "_" else s
  }

  /** No sanitized name is reserved, and only reserved ones change. */
  lemma {:induction false} SanitizeLaws(s: string)
    ensures Sanitize(s) !in RESERVED
    ensures s !in RESERVED ==> Sanitize(s) == s
    ensures s in ["type", "in", "out", "ref", "match", "move", "as", "fn", "where", "self"] ==> Sanitize(s) == s + "_"
  {
    assert forall w | w in RESERVED :: w[|w| - 1] != '_';
    assert (s + "_")[|s|] == '_';
  }

  predicate EndsWith(s: string, c: char) { s != "" && s[|s| - 1] == c }

  /** Trailing `[...]` declarators removed, and how many there were. */
  function StripArrays(s: string): Stripped
    decreases |s|
  {
    var o := RFind(s, '[');
    if o.Some? && EndsWith(s, ']') then
      TrimEndShrinks(s[..o.value]);
      var r := StripArrays(TrimEnd(s[..o.value]));
      Stripped(r.text, r.levels + 1)
    else Stripped(s, 0)
  }

  lemma {:induction false} TrimEndShrinks(s: string)
    ensures |TrimEnd(s)| <= |s|
  {
    var b := TrimEndSplits(s);
  }

  method StripArraySuffix(c: string) returns (r: Stripped)
    ensures r == StripArrays(Trim(c))
  {
    var s := Trim(c);
    var levels := 0;
    while RFind(s, '[').Some? && EndsWith(s, ']')
      invariant StripArrays(Trim(c)) == var rest := StripArrays(s); Stripped(rest.text, rest.levels + levels)
      decreases |s|
    {
      TrimEndShrinks(s[..RFind(s, '[').value]);
      s := TrimEnd(s[..RFind(s, '[').value]);
      levels := levels + 1;
    }
    r := Stripped(s, levels);
  }

  /** Words that end a type and are never taken for a parameter name. */
  const TYPE_WORDS := ["const", "enum", "struct", "void"]

  /** Type and trailing bare name of a declarator, if it has a name. */
  function SplitName(c: string): Option<Split> {
    var k := RFind(c, ' ');
    if k.None? then None
    else
      var tail := Trim(c[k.value + 1..]);
      if tail == "" || '*' in tail || tail in TYPE_WORDS then None
      else Some(Split(Trim(c[..k.value + 1]), tail))
  }

  function TypeOnly(c: string): string {
    var s := SplitName(c);
    if s.Some? then Trim(s.value.ty) else Trim(c)
  }

  function TypesOnly(tab: BaseTable, ps: seq<string>): (r: seq<string>)
    ensures |r| == |ps|
  {
    seq(|ps|, i requires 0 <= i < |ps| => MapType(tab, TypeOnly(ps[i])))
  }

  function CallbackType(types: seq<string>): string {
    "Option<unsafe extern \"C\" fn(" + Join(types, ", ") + ")>"
  }

  datatype Group = Group(name: string, body: string)

  /** Read `NAME)...(BODY)...`: the text up to the first `)`, and the group opened next. */
  function NameAndGroup(s: string): Option<Group> {
    var close := Find(s, ')');
    if close.None? then None else
    var after := s[close.value + 1..];
    var open := Find(after, '(');
    if open.None? then None else
    var rest := after[open.value + 1..];
    var end := MatchClose(rest);
    if end.None? then None else
    CloseIff(rest, 0, end.value);
    Some(Group(Trim(s[..close.value]), rest[..end.value]))
  }

  function CallbackTypes(tab: BaseTable, inner: string): seq<string> {
    if Trim(inner) == "" || Trim(inner) == "void" then [] else TypesOnly(tab, SplitTop(inner))
  }

  /** A parameter of the form `RET (*name)(INNER)`. */
  function FnPtrParam(tab: BaseTable, c: string): Option<Param> {
    var open := FindSub(c, "(*");
    if open.None? then None else
    var g := NameAndGroup(c[open.value + 2..]);
    if g.None? || g.value.name == "" || '*' in g.value.name then None
    else Some(Param(CallbackType(CallbackTypes(tab, g.value.body)), Sanitize(g.value.name)))
  }

  function ParseParam(tab: BaseTable, text: string, idx: nat): Param {
    var c := Trim(text);
    var p := FnPtrParam(tab, c);
    if p.Some? then p.value
    else
      var st := StripArrays(Trim(c));
      var sp := SplitName(st.text);
      var ty := if sp.Some? then sp.value.ty else st.text;
      Param(MapType(tab, if st.levels > 0 then ty + " " + Repeat("*", st.levels) else ty),
            Sanitize(if sp.Some? then sp.value.name else "_arg" + Decimal(idx)))
  }

  function ParseEach(tab: BaseTable, ps: seq<string>): (r: seq<Param>)
    ensures |r| == |ps|
  {
    seq(|ps|, i requires 0 <= i < |ps| => ParseParam(tab, ps[i], i))
  }

  function ParseParams(tab: BaseTable, text: string): seq<Param> {
    var c := Trim(text);
    if c == "" || c == "void" then [] else ParseEach(tab, SplitTop(c))
  }

  function DropSemicolons(s: string): string {
    if EndsWith(s, ';') then DropSemicolons(s[..|s| - 1]) else s
  }

  /** Exactly the semicolons at the end go. */
  lemma {:induction false} OnlySemicolonsDropped(s: string) returns (k: nat)
    ensures s == DropSemicolons(s) + Repeat(";", k) && !EndsWith(DropSemicolons(s), ';')
  {
    if EndsWith(s, ';') {
      var t := s[..|s| - 1];
      k := OnlySemicolonsDropped(t);
      RepeatSnoc(";", k);
      assert s == t + ";";
      assert DropSemicolons(t) + Repeat(";", k) + ";" == DropSemicolons(t) + (Repeat(";", k) + ";");
      k := k + 1;
    } else {
      k := 0;
      assert s + "" == s;
    }
  }

  lemma {:induction false} RepeatSnoc(s: string, n: nat)
    ensures Repeat(s, n) + s == Repeat(s, n + 1)
  {
    if n > 0 {
      RepeatSnoc(s, n - 1);
      assert s + Repeat(s, n - 1) + s == s + (Repeat(s, n - 1) + s);
    } else {
      assert "" + s == s == s + "";
    }
  }

  /** `RET (* NAME)(PARAMS) ATTRIBUTES;`; the index is assigned by position later. */
  function ParseField(tab: BaseTable, text: string): Option<Field> {
    var line := Trim(text);
    var open := Find(line, '(');
    if open.None? then None else
    var inner := TrimStart(line[open.value + 1..]);
    if inner == "" || inner[0] != '*' then None else
    var g := NameAndGroup(inner[1..]);
    if g.None? then None
    else Some(Field(0, g.value.name, MapReturn(tab, line[..open.value]),
                    ParseParams(tab, g.value.body), DropSemicolons(line)))
  }

  // ── Declarations as written ──────────────────────────────────────────────────────────

  const PUNCTUATION := "()[],"

  /** A bare name: one word of ordinary characters that is no keyword of the splitter. */
  predicate Name(n: string) {
    Word(n) && Free(n, PUNCTUATION) && n !in TYPE_WORDS
  }

  datatype ArraySuffix = ArraySuffix(pad: string, content: string)

  /** An ordinary parameter: a type, an optional name behind the gap `sep`, and array
      declarators. */
  datatype Plain = Plain(ty: CType, gaps: seq<string>, sep: string, name: Option<string>, arrays: seq<ArraySuffix>)

  predicate ValidSpelling(ty: CType, gaps: seq<string>) {
    ValidType(ty) && Spaced(TypeToks(ty), gaps) && gaps[0] == "" && Free(ty.base, PUNCTUATION)
  }

  /** The written tokens hold no space character, or a star behind the last one. */
  predicate Loose(ts: seq<Tok>, gaps: seq<string>)
    requires |gaps| == |ts|
  {
    if ts == [] then true
    else
      var n := |ts| - 1;
      ts[n].Star? || (' ' !in gaps[n] && Loose(ts[..n], gaps[..n]))
  }

  /** A type that may stand without a parameter name: it holds no space (`size_t`), or what
      follows its last space holds a star (`const char *`) or is a type word (`const void`). */
  predicate Unnamed(ty: CType, gaps: seq<string>)
    requires |gaps| == |TypeToks(ty)|
  {
    var ts := TypeToks(ty);
    var n := |ts| - 1;
    || ts[n].Star?
    || if ' ' in gaps[n] then Spell(ts[n]) in ["const", "enum", "struct", "void"] else Loose(ts[..n], gaps[..n])
  }

  /** A parameter that the code splits as it is written: a name stands behind a space. */
  predicate WrittenPlain(p: Plain) {
    && ValidSpelling(p.ty, p.gaps)
    && Blank(p.sep)
    && (p.name.Some? ==> Name(p.name.value) && ' ' in p.sep)
    && (p.name.None? ==> Unnamed(p.ty, p.gaps))
    && (forall i | 0 <= i < |p.arrays| :: Blank(p.arrays[i].pad) && Free(p.arrays[i].content, "()[,"))
  }

  /** With at most one array declarator the pointer level that the code adds is what C means. */
  predicate ValidPlain(p: Plain) { WrittenPlain(p) && |p.arrays| <= 1 }

  /** A list of just this reads as no parameters at all. */
  predicate BareVoid(p: Plain) { p.ty == CType([], "void", []) && p.name.None? && p.arrays == [] }

  function ArrayText(xs: seq<ArraySuffix>): string {
    if xs == [] then ""
    else ArrayText(xs[..|xs| - 1]) + xs[|xs| - 1].pad + "[" + xs[|xs| - 1].content + "]"
  }

  function TypeText(p: Plain): string
    requires WrittenPlain(p)
  {
    Write(TypeToks(p.ty), p.gaps)
  }

  function StemText(p: Plain): string
    requires WrittenPlain(p)
  {
    if p.name.Some? then TypeText(p) + p.sep + p.name.value else TypeText(p)
  }

  function PlainText(p: Plain): string
    requires WrittenPlain(p)
  {
    StemText(p) + ArrayText(p.arrays)
  }

  function PlainMeaning(tab: BaseTable, p: Plain, idx: nat): Param {
    Param(Meaning(tab, p.ty, |p.arrays|),
          if p.name.Some? then Sanitize(p.name.value) else "_arg" + Decimal(idx))
  }

  /** A list as written: padded elements between commas, or a text standing for no elements. */
  datatype List<T> = Empty(text: string) | Items(items: seq<T>, pads: seq<(string, string)>)

  predicate ValidPads<T(!new)>(l: List<T>) {
    match l
    case Empty(text) => Trim(text) == "" || Trim(text) == "void"
    case Items(items, pads) =>
      && items != [] && |pads| == |items|
      && (forall i | 0 <= i < |pads| :: Blank(pads[i].0) && Blank(pads[i].1))
  }

  function PadAll(texts: seq<string>, pads: seq<(string, string)>): (r: seq<string>)
    requires |pads| == |texts|
    ensures |r| == |texts|
  {
    seq(|texts|, i requires 0 <= i < |texts| => pads[i].0 + texts[i] + pads[i].1)
  }

  datatype ParamDecl =
    | Ordinary(p: Plain)
    | Callback(ret: string, pre: string, name: string, post: string, mid: string, inner: List<Plain>)

  /** Parameters of a callback: ordinary ones without array declarators. */
  predicate ValidInner(l: List<Plain>) {
    && ValidPads(l)
    && (l.Items? ==> forall i | 0 <= i < |l.items| :: WrittenPlain(l.items[i]) && l.items[i].arrays == [])
    && (l.Items? && |l.items| == 1 ==> !BareVoid(l.items[0]))
  }

  function PlainTexts(ps: seq<Plain>): (r: seq<string>)
    requires forall i | 0 <= i < |ps| :: WrittenPlain(ps[i])
    ensures |r| == |ps|
    ensures forall i | 0 <= i < |ps| :: r[i] == PlainText(ps[i])
  {
    seq(|ps|, i requires 0 <= i < |ps| => PlainText(ps[i]))
  }

  function InnerText(l: List<Plain>): string
    requires ValidInner(l)
  {
    match l
    case Empty(text) => text
    case Items(items, pads) => Join(PadAll(PlainTexts(items), pads), ",")
  }

  function InnerMeaning(tab: BaseTable, l: List<Plain>): seq<string> {
    match l
    case Empty(_) => []
    case Items(items, _) => seq(|items|, i requires 0 <= i < |items| => Meaning(tab, items[i].ty, 0))
  }

  /** A callback with any result. */
  predicate WrittenCallback(d: ParamDecl) {
    && d.Callback? && d.ret != "" && !IsSpace(d.ret[0]) && Free(d.ret, "(),")
    && Blank(d.pre) && Blank(d.post) && Blank(d.mid) && Name(d.name) && ValidInner(d.inner)
  }

  function CallbackText(d: ParamDecl): string
    requires WrittenCallback(d)
  {
    d.ret + "(*" + (d.pre + d.name + d.post) + ")" + d.mid + "(" + InnerText(d.inner) + ")"
  }

  /** The type of a callback, with its result unless that is `void`. */
  function CallbackMeaning(tab: BaseTable, d: ParamDecl): string
    requires WrittenCallback(d)
  {
    var types := InnerMeaning(tab, d.inner);
    if Trim(d.ret) == "void" then CallbackType(types)
    else "Option<unsafe extern \"C\" fn(" + Join(types, ", ") + (") -> " + MapReturn(tab, d.ret) + ">")
  }

  predicate ValidParam(d: ParamDecl) {
    match d
    case Ordinary(p) => ValidPlain(p)
    case Callback(_, _, _, _, _, _) => WrittenCallback(d) && Trim(d.ret) == "void"
  }

  function ParamText(d: ParamDecl): string
    requires ValidParam(d)
  {
    match d
    case Ordinary(p) => PlainText(p)
    case Callback(_, _, _, _, _, _) => CallbackText(d)
  }

  function ParamMeaning(tab: BaseTable, d: ParamDecl, idx: nat): Param
    requires ValidParam(d)
  {
    match d
    case Ordinary(p) => PlainMeaning(tab, p, idx)
    case Callback(_, _, name, _, _, _) => Param(CallbackMeaning(tab, d), Sanitize(name))
  }

  predicate ValidParams(l: List<ParamDecl>) {
    && ValidPads(l)
    && (l.Items? ==> forall i | 0 <= i < |l.items| :: ValidParam(l.items[i]))
    && (l.Items? && |l.items| == 1 && l.items[0].Ordinary? ==> !BareVoid(l.items[0].p))
  }

  function ParamTexts(ps: seq<ParamDecl>): (r: seq<string>)
    requires forall i | 0 <= i < |ps| :: ValidParam(ps[i])
    ensures |r| == |ps|
    ensures forall i | 0 <= i < |ps| :: r[i] == ParamText(ps[i])
  {
    seq(|ps|, i requires 0 <= i < |ps| => ParamText(ps[i]))
  }

  function ParamsText(l: List<ParamDecl>): string
    requires ValidParams(l)
  {
    match l
    case Empty(text) => text
    case Items(items, pads) => Join(PadAll(ParamTexts(items), pads), ",")
  }

  function ParamsMeaning(tab: BaseTable, l: List<ParamDecl>): seq<Param>
    requires ValidParams(l)
  {
    match l
    case Empty(_) => []
    case Items(items, _) => seq(|items|, i requires 0 <= i < |items| => ParamMeaning(tab, items[i], i))
  }

  /** A function-pointer field: every blank the header may contain is a component. */
  datatype FieldDecl = FieldDecl(ret: CType, retGaps: seq<string>, retPad: string,
                                 pre: string, mid: string, name: string, post: string,
                                 between: string, params: List<ParamDecl>)

  predicate ValidField(f: FieldDecl) {
    && ValidSpelling(f.ret, f.retGaps)
    && Blank(f.retPad) && Blank(f.pre) && Blank(f.mid) && Blank(f.post) && Free(f.between, "(")
    && Name(f.name) && ValidParams(f.params)
  }

  /** Return type and declarator, up to the parameter list. */
  function HeadText(f: FieldDecl): string
    requires ValidField(f)
  {
    Write(TypeToks(f.ret), f.retGaps) + f.retPad
  }

  function FieldText(f: FieldDecl): string
    requires ValidField(f)
  {
    HeadText(f) + "(" + (f.pre + ("*" + ((f.mid + f.name + f.post) + ")" +
    (f.between + "(" + (ParamsText(f.params) + ")")))))
  }
}
