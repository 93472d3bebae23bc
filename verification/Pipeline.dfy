/** From header text to binding file: what a written header guarantees about the emitted text. */
module Pipeline {
  import opened Text
  import opened CTypes
  import opened Decls
  import opened RoundTrip
  import opened Names
  import opened ApiStruct
  import opened Handles
  import opened Regroup
  import opened Emit
  import opened Spelled

  const TABLE := "OrtApi"
  const SUB_APIS := [("OrtModelEditorApi", "ModelEditorApi"), ("OrtCompileApi", "CompileApi"),
                     ("OrtInteropApi", "InteropApi"), ("OrtEpApi", "EpApi")]

  /** The fields of a struct of the header, if it has such a struct. */
  function Parsed(tab: BaseTable, pp: string, name: string): Option<seq<Field>> {
    var b := BodyOf(pp, name);
    if b.None? then None else Some(FieldsOf(tab, Lines(b.value), "", 0))
  }

  /** The sub-API structs in order, unless one of them is missing. */
  method ParseSubApis(tab: BaseTable, pp: string, names: seq<(string, string)>) returns (r: Option<seq<SubApi>>)
    ensures r.Some? <==> forall k | 0 <= k < |names| :: Parsed(tab, pp, names[k].0).Some?
    ensures r.Some? ==> |r.value| == |names| && forall k | 0 <= k < |names| ::
      r.value[k].rustName == names[k].1 && Parsed(tab, pp, names[k].0) == Some(r.value[k].fields)
  {
    var subs: seq<SubApi>, k := [], 0;
    while k < |names|
      invariant 0 <= k <= |names| && |subs| == k
      invariant forall j | 0 <= j < k ::
        subs[j].rustName == names[j].1 && Parsed(tab, pp, names[j].0) == Some(subs[j].fields)
    {
      var fs := ParseApiStruct(tab, pp, names[k].0);
      if fs.None? {
        return None;
      }
      subs := subs + [SubApi(names[k].1, fs.value)];
      k := k + 1;
    }
    r := Some(subs);
  }

  /** The binding file, or nothing where the generator panics: a struct is missing, or the table
      has no fields. */
  method Generate(tab: BaseTable, pp: string, word: char -> bool, preamble: string,
                  handleTitle: string, types: string, title: Gate -> string, subTitle: string)
    returns (r: Option<string>, hs: seq<string>, subs: Option<seq<SubApi>>, st: Style)
    ensures r.Some? <==> Parsed(tab, pp, TABLE).Some? && Parsed(tab, pp, TABLE).value != [] && subs.Some?
    ensures Parsed(tab, pp, TABLE).Some? && Parsed(tab, pp, TABLE).value != [] ==>
      (subs.Some? <==> forall k | 0 <= k < |SUB_APIS| :: Parsed(tab, pp, SUB_APIS[k].0).Some?)
    ensures subs.Some? ==> |subs.value| == |SUB_APIS| && forall k | 0 <= k < |SUB_APIS| ::
      subs.value[k].rustName == SUB_APIS[k].1 && Parsed(tab, pp, SUB_APIS[k].0) == Some(subs.value[k].fields)
    ensures r.Some? ==>
      && Bindings(st) && Framed(st, preamble, handleTitle, types, title, subTitle)
      && IsHandleList(hs, Snippets(st, Parsed(tab, pp, TABLE).value, subs.value), word)
      && r.value == Document(st, Parsed(tab, pp, TABLE).value, subs.value, hs)
  {
    hs := [];
    st := Style(Classify, (f: Field) => "", (a: SubApi) => "", preamble, handleTitle, types, title, subTitle);
    var fields := ParseApiStruct(tab, pp, TABLE);
    if fields.None? || fields.value == [] {
      return None, hs, None, st;
    }
    subs := ParseSubApis(tab, pp, SUB_APIS);
    if subs.None? {
      return None, hs, subs, st;
    }
    var s: string;
    s, hs, st := EmitBindings(fields.value, subs.value, word, preamble, handleTitle, types, title, subTitle);
    r := Some(s);
  }

  /** A struct body written out: rows of declarations and noise, the declarations being the
      fields `fs` followed by any trailing text, wrapped over lines in any way. */
  ghost predicate Written(pp: string, name: string, rows: seq<Row>, decls: seq<seq<string>>,
                          fs: seq<FieldDecl>, trails: seq<string>)
  {
    && BodyOf(pp, name) == Some(Join(RowTexts(rows), "\n"))
    && (forall i | 0 <= i < |rows| :: ValidRow(rows[i]))
    && (forall i | 0 <= i < |decls| :: ValidDecl(decls[i]))
    && Carried(rows) == Flatten(decls)
    && |fs| == |trails| == |decls|
    && (forall i | 0 <= i < |fs| :: ValidField(fs[i]) && Join(decls[i], " ") == FieldText(fs[i]) + trails[i])
  }

  lemma {:induction false} WrittenIsParsed(tab: BaseTable, pp: string, name: string, rows: seq<Row>,
                                           decls: seq<seq<string>>, fs: seq<FieldDecl>, trails: seq<string>, i: nat)
    requires Written(pp, name, rows, decls, fs, trails) && i < |fs|
    ensures Parsed(tab, pp, name).Some? && |Parsed(tab, pp, name).value| == |fs|
    ensures Parsed(tab, pp, name).value[i] == FieldMeaning(tab, fs[i], trails[i], i)
  {
    HeaderRoundTrip(tab, pp, name, rows, decls, fs, trails);
  }

  /** The constant that native calls index the table with. */
  function IndexConstant(name: string, i: nat): string {
    "pub const IDX_" + ToScreamingSnake(name) + ": usize = " + Decimal(i) + ";\n"
  }

  /** End to end: the i-th function of the C table, however the header lays it out and whatever its
      feature group, ends up in the binding file under index i. */
  lemma {:induction false} TableSlotPreserved(tab: BaseTable, pp: string, rows: seq<Row>, decls: seq<seq<string>>,
                                              fs: seq<FieldDecl>, trails: seq<string>, i: nat,
                                              st: Style, subs: seq<SubApi>, hs: seq<string>)
    returns (before: string, after: string)
    requires Written(pp, TABLE, rows, decls, fs, trails) && i < |fs| && Bindings(st)
    ensures Parsed(tab, pp, TABLE).Some?
    ensures Document(st, Parsed(tab, pp, TABLE).value, subs, hs) == before + IndexConstant(fs[i].name, i) + after
  {
    WrittenIsParsed(tab, pp, TABLE, rows, decls, fs, trails, i);
    var fields := Parsed(tab, pp, TABLE).value;
    before, after := IndexEmitted(st, fields, subs, hs, fields[i]);
  }

  /** End to end: the accessor of the i-th function reads the slot of the constant that bears its own
      name, which is the constant of value i. */
  lemma {:induction false} AccessorReadsSlot(tab: BaseTable, pp: string, rows: seq<Row>, decls: seq<seq<string>>,
                                             fs: seq<FieldDecl>, trails: seq<string>, i: nat,
                                             st: Style, subs: seq<SubApi>, hs: seq<string>)
    returns (before: string, after: string)
    requires Written(pp, TABLE, rows, decls, fs, trails) && i < |fs| && Bindings(st)
    ensures Parsed(tab, pp, TABLE).Some?
    ensures var n := fs[i].name;
            Document(st, Parsed(tab, pp, TABLE).value, subs, hs) ==
            before + ("pub unsafe fn " + ToSnake(n) + "(&self) -> " + ToPascal(n)
                      + "Fn { unsafe { self.f(IDX_" + ToScreamingSnake(n) + ") } }\n") + after
  {
    WrittenIsParsed(tab, pp, TABLE, rows, decls, fs, trails, i);
    var fields := Parsed(tab, pp, TABLE).value;
    var b, a := EntryInFile(st, fields, subs, hs, fields[i]);
    var _, _, b2, a2 := InsideEntry(fields[i], Gated(Classify(fields[i].name)), b, a);
    before, after := b2, a2;
  }

  /** End to end: the alias of the i-th function has its parameters in order, each with the name and
      the meaning of its type, and the meaning of the return type. */
  lemma {:induction false} AliasGivesSignature(tab: BaseTable, pp: string, rows: seq<Row>, decls: seq<seq<string>>,
                                               fs: seq<FieldDecl>, trails: seq<string>, i: nat,
                                               st: Style, subs: seq<SubApi>, hs: seq<string>)
    returns (before: string, after: string)
    requires Written(pp, TABLE, rows, decls, fs, trails) && i < |fs| && Bindings(st)
    ensures Parsed(tab, pp, TABLE).Some?
    ensures var n := fs[i].name;
            Document(st, Parsed(tab, pp, TABLE).value, subs, hs) ==
            before + ("pub type " + ToPascal(n) + "Fn = unsafe extern \"C\" fn("
                      + TypedNames(ParamsMeaning(tab, fs[i].params)) + ") -> " + ReturnMeaning(tab, fs[i].ret) + ";\n")
            + after
  {
    WrittenIsParsed(tab, pp, TABLE, rows, decls, fs, trails, i);
    var fields := Parsed(tab, pp, TABLE).value;
    var b, a := EntryInFile(st, fields, subs, hs, fields[i]);
    var b1, a1, _, _ := InsideEntry(fields[i], Gated(Classify(fields[i].name)), b, a);
    before, after := b1, a1;
  }

  /** End to end: everything the file says about the i-th function, under the feature its name
      belongs to. */
  lemma {:induction false} TableFunctionEmitted(tab: BaseTable, pp: string, rows: seq<Row>, decls: seq<seq<string>>,
                                                fs: seq<FieldDecl>, trails: seq<string>, i: nat,
                                                st: Style, subs: seq<SubApi>, hs: seq<string>)
    returns (before: string, after: string)
    requires Written(pp, TABLE, rows, decls, fs, trails) && i < |fs| && Bindings(st)
    ensures Parsed(tab, pp, TABLE).Some?
    ensures Document(st, Parsed(tab, pp, TABLE).value, subs, hs) ==
            before + TableEntry(FieldMeaning(tab, fs[i], trails[i], i), Gated(Classify(fs[i].name))) + after
  {
    WrittenIsParsed(tab, pp, TABLE, rows, decls, fs, trails, i);
    var fields := Parsed(tab, pp, TABLE).value;
    before, after := EntryInFile(st, fields, subs, hs, fields[i]);
  }

  /** A C type with an opaque base: not in the table of known bases, and not one of the types that
      are written by hand. */
  ghost predicate Opaque(tab: BaseTable, ty: CType, word: char -> bool) {
    && "Ort" <= ty.base && ty.base !in tab && ty.base[3..] + SUFFIX !in HAND_WRITTEN
    && forall i | 0 <= i < |ty.base| :: word(ty.base[i])
  }

  /** `ty` is the return type, the type of an ordinary parameter, or an element type of a callback. */
  predicate Uses(f: FieldDecl, ty: CType) {
    || f.ret == ty
    || (f.params.Items? && exists j | 0 <= j < |f.params.items| :: ParamUses(f.params.items[j], ty))
  }

  predicate ParamUses(d: ParamDecl, ty: CType) {
    match d
    case Ordinary(p) => p.ty == ty
    case Callback(_, _, _, _, _, inner) => inner.Items? && exists k | 0 <= k < |inner.items| :: inner.items[k].ty == ty
  }

  /** An opaque type of a parameter is visible in its Rust type. */
  lemma {:induction false} HandleInParam(tab: BaseTable, d: ParamDecl, idx: nat, ty: CType, word: char -> bool)
    requires WordChars(word) && ValidParam(d) && ParamUses(d, ty) && Opaque(tab, ty, word)
    ensures FoundIn(ParamMeaning(tab, d, idx).rustType, word, ty.base[3..] + SUFFIX)
  {
    match d
    case Ordinary(p) =>
      OpaqueTypeNamesHandle(tab, ty, |p.arrays|, word);
    case Callback(_, _, _, _, _, inner) =>
      var k :| 0 <= k < |inner.items| && inner.items[k].ty == ty;
      OpaqueTypeNamesHandle(tab, ty, 0, word);
      var types := InnerMeaning(tab, inner);
      assert types[k] == Meaning(tab, ty, 0);
      FoundInCallback(types, k, word, ty.base[3..] + SUFFIX);
  }

  /** An opaque type of a field is visible in its signature. */
  lemma {:induction false} HandleInSignature(tab: BaseTable, f: FieldDecl, trail: string, i: nat, ty: CType,
                                             word: char -> bool)
    returns (t: string)
    requires WordChars(word) && ValidField(f) && Uses(f, ty) && Opaque(tab, ty, word)
    ensures InSignature(FieldMeaning(tab, f, trail, i), t) && FoundIn(t, word, ty.base[3..] + SUFFIX)
  {
    if f.ret == ty {
      OpaqueTypeNamesHandle(tab, ty, 0, word);
      t := Meaning(tab, ty, 0);
      assert ty.base[0] == 'O';
    } else {
      var j :| 0 <= j < |f.params.items| && ParamUses(f.params.items[j], ty);
      HandleInParam(tab, f.params.items[j], j, ty, word);
      t := ParamMeaning(tab, f.params.items[j], j).rustType;
      assert FieldMeaning(tab, f, trail, i).params[j].rustType == t;
    }
  }

  /** The field is in the table or in one of the sub-APIs. */
  predicate Emitted(fields: seq<Field>, subs: seq<SubApi>, f: Field) {
    f in fields || exists k | 0 <= k < |subs| :: f in subs[k].fields
  }

  /** An opaque type anywhere in the signature of an emitted field, callbacks included, has its
      handle declared in the file, by exactly one line. */
  lemma {:induction false} OpaqueDeclared(tab: BaseTable, f: FieldDecl, trail: string, i: nat, ty: CType, st: Style,
                                          fields: seq<Field>, subs: seq<SubApi>, hs: seq<string>, word: char -> bool)
    returns (before: string, after: string, k: nat)
    requires Bindings(st) && WordChars(word) && ValidField(f) && Uses(f, ty) && Opaque(tab, ty, word)
    requires Emitted(fields, subs, FieldMeaning(tab, f, trail, i))
    requires IsHandleList(hs, Snippets(st, fields, subs), word)
    ensures var h := ty.base[3..] + SUFFIX;
            && Document(st, fields, subs, hs) == before + ("opaque_handle!(" + h + ");\n") + after
            && forall j | 0 <= j < |hs| :: hs[j] == h <==> j == k
  {
    var h := ty.base[3..] + SUFFIX;
    var t := HandleInSignature(tab, f, trail, i, ty, word);
    HandleClosure(st, fields, subs, word, hs, FieldMeaning(tab, f, trail, i), t, h);
    before, after, k := HandleDeclaredOnce(st, fields, subs, hs, Snippets(st, fields, subs), word, h);
  }

  /** End to end, for the functions of the written C table. */
  lemma {:induction false} OpaqueTypeDeclared(tab: BaseTable, pp: string, rows: seq<Row>, decls: seq<seq<string>>,
                                              fs: seq<FieldDecl>, trails: seq<string>, i: nat, ty: CType,
                                              st: Style, subs: seq<SubApi>, hs: seq<string>, word: char -> bool)
    returns (before: string, after: string, k: nat)
    requires Written(pp, TABLE, rows, decls, fs, trails) && i < |fs| && Bindings(st) && WordChars(word)
    requires Uses(fs[i], ty) && Opaque(tab, ty, word)
    requires Parsed(tab, pp, TABLE).Some? ==> IsHandleList(hs, Snippets(st, Parsed(tab, pp, TABLE).value, subs), word)
    ensures Parsed(tab, pp, TABLE).Some?
    ensures var h := ty.base[3..] + SUFFIX;
            && Document(st, Parsed(tab, pp, TABLE).value, subs, hs) == before + ("opaque_handle!(" + h + ");\n") + after
            && forall j | 0 <= j < |hs| :: hs[j] == h <==> j == k
  {
    WrittenIsParsed(tab, pp, TABLE, rows, decls, fs, trails, i);
    var fields := Parsed(tab, pp, TABLE).value;
    assert fields[i] in fields;
    before, after, k := OpaqueDeclared(tab, fs[i], trails[i], i, ty, st, fields, subs, hs, word);
  }

  /** End to end, for the functions of a written sub-API struct. */
  lemma {:induction false} SubOpaqueTypeDeclared(tab: BaseTable, pp: string, name: string, rows: seq<Row>,
                                                 decls: seq<seq<string>>, fs: seq<FieldDecl>, trails: seq<string>,
                                                 i: nat, ty: CType, st: Style, fields: seq<Field>, subs: seq<SubApi>,
                                                 m: nat, hs: seq<string>, word: char -> bool)
    returns (before: string, after: string, k: nat)
    requires Written(pp, name, rows, decls, fs, trails) && i < |fs| && Bindings(st) && WordChars(word)
    requires Uses(fs[i], ty) && Opaque(tab, ty, word)
    requires m < |subs| && Parsed(tab, pp, name) == Some(subs[m].fields)
    requires IsHandleList(hs, Snippets(st, fields, subs), word)
    ensures var h := ty.base[3..] + SUFFIX;
            && Document(st, fields, subs, hs) == before + ("opaque_handle!(" + h + ");\n") + after
            && forall j | 0 <= j < |hs| :: hs[j] == h <==> j == k
  {
    WrittenIsParsed(tab, pp, name, rows, decls, fs, trails, i);
    assert subs[m].fields[i] in subs[m].fields;
    before, after, k := OpaqueDeclared(tab, fs[i], trails[i], i, ty, st, fields, subs, hs, word);
  }

  /** End to end: the file holds the struct of a written sub-API, made of one line per written
      function, the i-th line for the i-th function. */
  lemma {:induction false} SubSlotPreserved(tab: BaseTable, pp: string, name: string, rows: seq<Row>,
                                            decls: seq<seq<string>>, fs: seq<FieldDecl>, trails: seq<string>,
                                            st: Style, fields: seq<Field>, subs: seq<SubApi>, m: nat,
                                            hs: seq<string>)
    returns (before: string, lines: seq<string>, after: string)
    requires Written(pp, name, rows, decls, fs, trails) && Bindings(st)
    requires m < |subs| && Parsed(tab, pp, name) == Some(subs[m].fields)
    ensures Document(st, fields, subs, hs) ==
            before + ("#[cfg(feature = \"model-editor\")]\n#[repr(C)]\npub struct " + subs[m].rustName + " {\n"
                      + Concat(lines) + "}\n") + after
    ensures |lines| == |fs| && forall i | 0 <= i < |fs| ::
              lines[i] == StructEntry(FieldMeaning(tab, fs[i], trails[i], i))
  {
    lines := StructEntries(subs[m].fields);
    HeaderRoundTrip(tab, pp, name, rows, decls, fs, trails);
    before, after := StructInFile(st, fields, subs, hs, m);
  }

  // ── Every list of fields can be written ──────────────────────────────────────────────

  /** A field that fits on a line of its own. */
  predicate OneLine(f: FieldDecl) {
    ValidField(f) && '\n' !in FieldText(f) && !("//" <= FieldText(f))
  }

  function LineRows(ls: seq<string>): (r: seq<Row>)
    ensures |r| == |ls| && forall i | 0 <= i < |ls| :: r[i] == Code(" ", ls[i], "")
  {
    if ls == [] then [] else [Code(" ", ls[0], "")] + LineRows(ls[1..])
  }

  function LineDecls(ls: seq<string>): (r: seq<seq<string>>)
    ensures |r| == |ls| && forall i | 0 <= i < |ls| :: r[i] == [ls[i]]
  {
    if ls == [] then [] else [[ls[0]]] + LineDecls(ls[1..])
  }

  lemma {:induction false} RowsCarryDecls(ls: seq<string>)
    ensures Carried(LineRows(ls)) == Flatten(LineDecls(ls)) == ls
  {
    if ls != [] {
      RowsCarryDecls(ls[1..]);
      assert LineRows(ls)[1..] == LineRows(ls[1..]) && LineDecls(ls)[1..] == LineDecls(ls[1..]);
      assert ls == [ls[0]] + ls[1..];
    }
  }

  /** Indented lines never look like the end of the struct. */
  lemma {:induction false} NoCloseInside(ls: seq<string>, tail: string, j: nat)
    requires ls != [] && forall l | l in ls :: '\n' !in l
    requires j < |Join(RowTexts(LineRows(ls)), "\n")|
    ensures Join(RowTexts(LineRows(ls)), "\n")[0] == ' '
    ensures !At(Join(RowTexts(LineRows(ls)), "\n") + tail, j, CLOSE)
  {
    var rows := RowTexts(LineRows(ls));
    var s := Join(rows, "\n");
    assert rows[0] == " " + ls[0] + "" && ls[0] in ls;
    var k := |rows[0]|;
    if |ls| > 1 {
      assert RowTexts(LineRows(ls))[1..] == RowTexts(LineRows(ls[1..])) by {
        assert LineRows(ls)[1..] == LineRows(ls[1..]);
      }
      var rest := Join(RowTexts(LineRows(ls[1..])), "\n");
      assert s == rows[0] + "\n" + rest;
      if j > k {
        NoCloseInside(ls[1..], tail, j - k - 1);
        assert (s + tail)[k + 1..] == rest + tail;
        AtShift(s + tail, k + 1, j - k - 1, CLOSE);
      } else {
        NoCloseInside(ls[1..], tail, 0);
        assert (s + tail)[k + 1] == ' ';
        NotClose(s + tail, j, k);
      }
    } else {
      NotClose(s + tail, j, k);
    }
  }

  lemma {:induction false} AtShift(s: string, k: nat, j: nat, pat: string)
    requires k <= |s|
    ensures At(s, k + j, pat) == At(s[k..], j, pat)
  {
    if k + j + |pat| <= |s| {
      assert s[k..][j..j + |pat|] == s[k + j..k + j + |pat|];
    }
  }

  lemma {:induction false} NotClose(s: string, j: nat, k: nat)
    requires j <= k && (forall i | 0 <= i < k && i < |s| :: s[i] != '\n') && (j == k ==> k + 1 < |s| && s[k + 1] != '}')
    ensures !At(s, j, CLOSE)
  {
    CloseAt(s, j);
  }

  lemma {:induction false} CloseAt(s: string, j: nat)
    ensures At(s, j, CLOSE) ==> j + 2 < |s| && s[j] == '\n' && s[j + 1] == '}'
  {
    if At(s, j, CLOSE) {
      var p := s[j..j + |CLOSE|];
      assert p[0] == CLOSE[0] && p[1] == CLOSE[1];
    }
  }

  lemma {:induction false} LinesFound(name: string, ls: seq<string>)
    requires ls != [] && forall l | l in ls :: '\n' !in l
    ensures var body := Join(RowTexts(LineRows(ls)), "\n");
            BodyOf("" + OpenText(name) + (body + CLOSE + ""), name) == Some(body)
  {
    var body := Join(RowTexts(LineRows(ls)), "\n");
    forall j: nat | j < |body|
      ensures !At(body + CLOSE + "", j, CLOSE)
    {
      NoCloseInside(ls, CLOSE + "", j);
      assert body + (CLOSE + "") == body + CLOSE + "";
    }
    BodyFound("", name, body, "");
  }

  lemma {:induction false} LineIsTight(f: FieldDecl)
    requires OneLine(f)
    ensures var l := FieldText(f) + ";"; Tight(l) && !Skipped(l) && '\n' !in l && EndsWith(l, ';')
  {
    FieldEnds(f);
    FieldHasGroup(f);
    PrefixKept(FieldText(f), ";", "//");
  }

  lemma {:induction false} PrefixKept(t: string, more: string, p: string)
    requires |p| <= |t|
    ensures p <= t + more <==> p <= t
  {
    assert (t + more)[..|p|] == t[..|p|];
  }

  lemma {:induction false} FieldHasGroup(f: FieldDecl)
    requires ValidField(f)
    ensures |FieldText(f)| >= 2
  {
  }

  /** One field on a line is one row and one declaration. */
  lemma {:induction false} LineIsRow(f: FieldDecl, l: string)
    requires OneLine(f) && l == FieldText(f) + ";"
    ensures ValidRow(Code(" ", l, "")) && ValidDecl([l]) && Join([l], " ") == l && '\n' !in l
  {
    LineIsTight(f);
  }

  function Semicolons(n: nat): (r: seq<string>)
    ensures |r| == n && forall i | 0 <= i < n :: r[i] == ";"
  {
    seq(n, i => ";")
  }

  /** Any fields, one per line, make a header the other results apply to. */
  lemma {:induction false} FieldsCanBeWritten(name: string, fs: seq<FieldDecl>, ls: seq<string>) returns (pp: string)
    requires fs != [] && |ls| == |fs| && forall i | 0 <= i < |fs| :: OneLine(fs[i]) && ls[i] == FieldText(fs[i]) + ";"
    ensures Written(pp, name, LineRows(ls), LineDecls(ls), fs, Semicolons(|fs|))
  {
    pp := "" + OpenText(name) + (Join(RowTexts(LineRows(ls)), "\n") + CLOSE + "");
    LineFacts(fs, ls);
    RowsCarryDecls(ls);
    LinesFound(name, ls);
  }

  lemma {:induction false} LineFacts(fs: seq<FieldDecl>, ls: seq<string>)
    requires |ls| == |fs| && forall i | 0 <= i < |fs| :: OneLine(fs[i]) && ls[i] == FieldText(fs[i]) + ";"
    ensures forall i | 0 <= i < |ls| :: ValidRow(LineRows(ls)[i])
    ensures forall i | 0 <= i < |ls| :: ValidDecl(LineDecls(ls)[i]) && Join(LineDecls(ls)[i], " ") == ls[i]
    ensures forall l | l in ls :: '\n' !in l
  {
    forall i | 0 <= i < |fs|
      ensures ValidRow(Code(" ", ls[i], "")) && ValidDecl([ls[i]]) && Join([ls[i]], " ") == ls[i] && '\n' !in ls[i]
    {
      LineIsRow(fs[i], ls[i]);
    }
  }

  /** The smallest field: `void ( * Go)()`. */
  lemma {:induction false} SmallestField() returns (f: FieldDecl)
    ensures ValidField(f) && f.name == "Go"
  {
    f := FieldDecl(CType([], "void", []), [""], " ", "", " ", "Go", "", "", Empty(""));
    VoidSpelled();
    GoIsName();
    NothingIsParams();
  }

  lemma {:induction false} VoidSpelled()
    ensures ValidSpelling(CType([], "void", []), [""])
  {
    assert TypeToks(CType([], "void", [])) == [Ident("void")];
  }

  lemma {:induction false} GoIsName()
    ensures Name("Go")
  {
    assert "Go"[0] == 'G' && "Go"[1] == 'o';
  }

  lemma {:induction false} NothingIsParams()
    ensures ValidParams(Empty(""))
  {
    TrimBlank("");
  }
}
