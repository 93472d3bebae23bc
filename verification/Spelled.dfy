/** The emitted text written out from its parts, apart from the emitter that puts it together. */
module Spelled {
  import opened Text
  import opened Decls
  import opened Names
  import opened Handles
  import opened Regroup
  import opened Emit

  /** The attribute line of a feature. */
  function Gated(g: Gate): string {
    match g
    case Core => ""
    case CustomOps => "#[cfg(feature = \"custom-ops\")]\n"
    case Ep => "#[cfg(feature = \"ep\")]\n"
    case ModelEditor => "#[cfg(feature = \"model-editor\")]\n"
    case Training => "#[cfg(feature = \"training\")]\n"
  }

  /** `name: type` for every parameter, in order. */
  function TypedNames(ps: seq<Param>): string {
    if ps == [] then ""
    else if |ps| == 1 then ps[0].name + ": " + ps[0].rustType
    else ps[0].name + ": " + ps[0].rustType + ", " + TypedNames(ps[1..])
  }

  /** The constant that native calls index the table with. */
  function ConstText(screaming: string, idx: string): string {
    "pub const IDX_" + screaming + ": usize = " + idx + ";\n"
  }

  function AliasText(pascal: string, params: string, ret: string): string {
    "pub type " + pascal + "Fn = unsafe extern \"C\" fn(" + params + ") -> " + ret + ";\n"
  }

  /** The accessor: it reads the slot whose constant bears the same name. */
  function AccessorText(snake: string, pascal: string, screaming: string): string {
    "pub unsafe fn " + snake + "(&self) -> " + pascal + "Fn { unsafe { self.f(IDX_" + screaming + ") } }\n"
  }

  /** Everything the file says about one table function. */
  function TableEntry(f: Field, cfg: string): string {
    var screaming, pascal, snake := ToScreamingSnake(f.name), ToPascal(f.name), ToSnake(f.name);
    "// " + f.cSig + "\n" + (cfg + ConstText(screaming, Decimal(f.idx)))
    + (cfg + AliasText(pascal, TypedNames(f.params), f.ret))
    + (cfg + "impl Api {\n  #[inline]\n  " + cfg + AccessorText(snake, pascal, screaming) + "}\n\n")
  }

  /** One line of a sub-API struct. */
  function StructEntry(f: Field): string {
    "    pub " + Sanitize(f.name) + ": Option<unsafe extern \"C\" fn(" + TypedNames(f.params) + ") -> " + f.ret + ">,\n"
  }

  function StructEntries(fs: seq<Field>): (r: seq<string>)
    ensures |r| == |fs| && forall i | 0 <= i < |fs| :: r[i] == StructEntry(fs[i])
  {
    if fs == [] then [] else [StructEntry(fs[0])] + StructEntries(fs[1..])
  }

  function StructText(name: string, lines: seq<string>): string {
    "#[cfg(feature = \"model-editor\")]\n#[repr(C)]\npub struct " + name + " {\n" + Concat(lines) + "}\n"
  }

  // ── The emitter writes exactly this ──────────────────────────────────────────────────

  lemma {:induction false} NamesJoined(ps: seq<Param>)
    ensures Join(Declared(ps), ", ") == TypedNames(ps)
  {
    var ds := Declared(ps);
    if |ps| > 1 {
      NamesJoined(ps[1..]);
      assert ds[1..] == Declared(ps[1..]);
    } else if |ps| == 1 {
      assert ds == [ps[0].name + ": " + ps[0].rustType];
    }
  }

  lemma {:induction false} CfgSpelled(g: Gate)
    ensures CfgLine(g) == Gated(g)
  {
  }

  lemma {:induction false} AliasJoined(cfg: string, head: string, p: string, mid: string, ps: string, arrow: string,
                                       ret: string)
    ensures (cfg + head + p + mid) + (ps + arrow + ret) + (";" + "\n") ==
            cfg + (head + p + mid + ps + arrow + ret + ";\n")
  {
    assert ";" + "\n" == ";\n";
  }

  lemma {:induction false} AccessorJoined(cfg: string, api: string, a: string, s: string, b: string, p: string,
                                          c: string, x: string)
    ensures cfg + api + cfg + a + s + b + p + c + x + (") } }\n" + "}\n\n") ==
            cfg + api + cfg + (a + s + b + p + c + x + ") } }\n") + "}\n\n"
  {
  }

  lemma {:induction false} PartsJoined(top: string, cfg: string, index: string, alias: string, sig: string, nl: string,
                                       accessor: string)
    ensures (top + cfg) + index + alias + sig + (";" + (nl + accessor)) ==
            top + (cfg + index) + (alias + sig + (";" + nl)) + accessor
  {
  }

  /** The text of a table function, its accessor and its alias included, is as spelled. */
  lemma {:induction false} EntrySpelled(f: Field, g: Gate)
    ensures EmitField(f, g) == TableEntry(f, Gated(g))
  {
    var cfg, ps := Gated(g), TypedNames(f.params);
    var screaming, pascal, snake := ToScreamingSnake(f.name), ToPascal(f.name), ToSnake(f.name);
    CfgSpelled(g);
    NamesJoined(f.params);
    AccessorSplit(f, g);
    AliasJoined(cfg, "pub type ", pascal, "Fn = unsafe extern \"C\" fn(", ps, ") -> ", f.ret);
    PartsJoined("// " + f.cSig + "\n", cfg, IndexLine(f), FieldAlias(f, g), Signature(f), "\n",
                cfg + "impl Api {\n  #[inline]\n  " + cfg + AccessorText(snake, pascal, screaming) + "}\n\n");
  }

  lemma {:induction false} AccessorSplit(f: Field, g: Gate)
    ensures FieldAccessor(f, g) ==
            "\n" + (Gated(g) + "impl Api {\n  #[inline]\n  " + Gated(g)
                    + AccessorText(ToSnake(f.name), ToPascal(f.name), ToScreamingSnake(f.name)) + "}\n\n")
  {
    CfgSpelled(g);
    var cfg, api := Gated(g), "impl Api {\n  #[inline]\n  ";
    AccessorJoined(cfg, api, "pub unsafe fn ", ToSnake(f.name), "(&self) -> ", ToPascal(f.name),
                   "Fn { unsafe { self.f(IDX_", ToScreamingSnake(f.name));
    assert ") } }\n" + "}\n\n" == ") } }\n}\n\n";
    NewlineFirst("\n", cfg, api, "pub unsafe fn ", ToSnake(f.name), "(&self) -> ", ToPascal(f.name),
                 "Fn { unsafe { self.f(IDX_", ToScreamingSnake(f.name), ") } }\n}\n\n");
  }

  lemma {:induction false} NewlineFirst(nl: string, cfg: string, api: string, a: string, s: string, b: string,
                                        p: string, c: string, x: string, z: string)
    ensures nl + cfg + api + cfg + a + s + b + p + c + x + z == nl + (cfg + api + cfg + a + s + b + p + c + x + z)
  {
  }

  /** The text of a sub-API struct: one spelled line per field, in declaration order. */
  lemma {:induction false} StructSpelled(a: SubApi)
    ensures SubText(a) == StructText(a.rustName, StructEntries(a.fields))
  {
    forall i | 0 <= i < |a.fields|
      ensures SubLines(a.fields)[i] == StructEntries(a.fields)[i]
    {
      LineSpelled(a.fields[i]);
    }
    assert SubLines(a.fields) == StructEntries(a.fields);
  }

  lemma {:induction false} LineSpelled(f: Field)
    ensures SubLine(f) == StructEntry(f)
  {
    NamesJoined(f.params);
    LineJoined("    pub ", Sanitize(f.name), ": Option<unsafe extern \"C\" fn(", TypedNames(f.params), ") -> ", f.ret,
               ">,\n");
  }

  lemma {:induction false} LineJoined(a: string, n: string, b: string, ps: string, c: string, ret: string, z: string)
    ensures (a + n + b) + (ps + c + ret) + z == a + n + b + ps + c + ret + z
  {
  }

  // ── In the file ──────────────────────────────────────────────────────────────────────

  /** The whole file, part by part. */
  lemma {:induction false} DocumentSpelled(st: Style, fs: seq<Field>, subs: seq<SubApi>, hs: seq<string>)
    ensures Document(st, fs, subs, hs) ==
            (st.preamble + st.handleTitle + Concat(HandleLines(hs)) + st.types)
            + Concat(PieceTexts(st, Pieces(st, fs, |GATES|)))
            + (st.subTitle + Concat(SubTexts(st, subs)))
    ensures forall i | 0 <= i < |hs| :: HandleLines(hs)[i] == "opaque_handle!(" + hs[i] + ");\n"
  {
    SectionsRenderOrder(st, fs, |GATES|);
  }

  /** A gate with fields has its section: its title, then its fields in order. */
  lemma {:induction false} SectionSpelled(st: Style, fs: seq<Field>, subs: seq<SubApi>, hs: seq<string>, g: Gate)
    returns (before: string, after: string)
    requires Select(st, fs, g) != []
    ensures Document(st, fs, subs, hs) == before + (st.title(g) + Concat(Texts(st, Select(st, fs, g)))) + after
  {
    assert GATES[Rank(g)] == g;
    var l, r := SectionsAround(st, fs, |GATES|, Rank(g));
    var t := st.title(g) + Concat(Texts(st, Select(st, fs, g)));
    MiddlePart(Front(st, hs), l, t, r, Back(st, subs));
    before, after := Front(st, hs) + l, r + Back(st, subs);
  }

  lemma {:induction false} MiddlePart(a: string, l: string, t: string, r: string, b: string)
    ensures a + (l + t + r) + b == (a + l) + t + (r + b)
  {
  }

  /** Every table function has its entry in the file. */
  lemma {:induction false} EntryInFile(st: Style, fs: seq<Field>, subs: seq<SubApi>, hs: seq<string>, f: Field)
    returns (before: string, after: string)
    requires Bindings(st) && f in fs
    ensures Document(st, fs, subs, hs) == before + TableEntry(f, Gated(Classify(f.name))) + after
  {
    EntrySpelled(f, Classify(f.name));
    before, after := FieldEmitted(st, fs, subs, hs, f);
  }

  /** What stands around the alias and the accessor inside an entry. */
  lemma {:induction false} InsideEntry(f: Field, cfg: string, before: string, after: string)
    returns (b1: string, a1: string, b2: string, a2: string)
    ensures var t := before + TableEntry(f, cfg) + after;
            && t == b1 + AliasText(ToPascal(f.name), TypedNames(f.params), f.ret) + a1
            && t == b2 + AccessorText(ToSnake(f.name), ToPascal(f.name), ToScreamingSnake(f.name)) + a2
  {
    var index := ConstText(ToScreamingSnake(f.name), Decimal(f.idx));
    var alias := AliasText(ToPascal(f.name), TypedNames(f.params), f.ret);
    var accessor := AccessorText(ToSnake(f.name), ToPascal(f.name), ToScreamingSnake(f.name));
    var top, api := "// " + f.cSig + "\n", "impl Api {\n  #[inline]\n  ";
    Unnest(before, top, cfg, index, alias, api, accessor, "}\n\n", after);
    b1, a1 := before + top + (cfg + index) + cfg, (cfg + api + cfg + accessor + "}\n\n") + after;
    b2, a2 := before + top + (cfg + index) + (cfg + alias) + (cfg + api + cfg), "}\n\n" + after;
  }

  lemma {:induction false} Unnest(before: string, top: string, cfg: string, index: string, alias: string, api: string,
                                  accessor: string, close: string, after: string)
    ensures var t := before + (top + (cfg + index) + (cfg + alias) + (cfg + api + cfg + accessor + close)) + after;
            && t == (before + top + (cfg + index) + cfg) + alias + ((cfg + api + cfg + accessor + close) + after)
            && t == (before + top + (cfg + index) + (cfg + alias) + (cfg + api + cfg)) + accessor + (close + after)
  {
  }

  /** Every sub-API has its struct in the file. */
  lemma {:induction false} StructInFile(st: Style, fs: seq<Field>, subs: seq<SubApi>, hs: seq<string>, m: nat)
    returns (before: string, after: string)
    requires Bindings(st) && m < |subs|
    ensures Document(st, fs, subs, hs) == before + StructText(subs[m].rustName, StructEntries(subs[m].fields)) + after
  {
    StructSpelled(subs[m]);
    before, after := SubTextEmitted(st, fs, subs, hs, m);
  }
}
