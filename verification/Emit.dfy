/** The text of emitted fields and sub-API structs, feature classification, and the closure of
    the emitted file under the opaque handle types its signatures mention. */
module Emit {
  import opened Text
  import opened CTypes
  import opened Decls
  import opened Names
  import opened Handles
  import opened Regroup

  const PROVIDERS := ["cuda", "cudnn", "tensorrt", "rocm", "openvino", "migraphx", "dnnl", "cann", "coreml",
                      "armnn", "acl", "apex", "xnnpack", "nnapi", "rknpu", "tvm", "vitisai", "qnn", "directml"]
  const TRAINING_WORDS := ["train", "gradient", "optimizer", "loss", "checkpoint", "loradapter"]
  const GATEWAYS := ["getepapi", "getmodeleditorapi", "getcompileapi", "getinteropapi"]
  const KERNEL_OPS := ["createop", "addattribute", "releaseop", "createkernelinfo", "releasekernelinfo"]

  predicate Mentions(n: string, keys: seq<string>) {
    exists k | 0 <= k < |keys| :: FindSub(n, keys[k]).Some?
  }

  /** The gate of a field, by its name alone. */
  function Classify(name: string): Gate {
    var n := LowerAll(name);
    if Mentions(n, PROVIDERS) then Ep
    else if Mentions(n, TRAINING_WORDS) || n == "gettrainingapi" then Training
    else if n in GATEWAYS then ModelEditor
    else if "kernelcontext_" <= n || "kernelinfo" <= n || n in KERNEL_OPS || "customopdomain" <= n then CustomOps
    else Core
  }

  /** One of the words occurs in the text. */
  ghost predicate Within(n: string, keys: seq<string>) {
    exists a, k, b :: k in keys && n == a + k + b
  }

  lemma {:induction false} MentionsIff(n: string, keys: seq<string>)
    ensures Mentions(n, keys) <==> Within(n, keys)
  {
    if Mentions(n, keys) {
      var k :| 0 <= k < |keys| && FindSub(n, keys[k]).Some?;
      var i := FindSub(n, keys[k]).value;
      assert n == n[..i] + keys[k] + n[i + |keys[k]|..];
    }
    if Within(n, keys) {
      var a, k, b :| k in keys && n == a + k + b;
      assert At(n, |a|, k);
      var i :| 0 <= i < |keys| && keys[i] == k;
      assert FindSub(n, keys[i]).Some?;
    }
  }

  /** The gate is decided by what the lower-cased name contains, is or starts with, in this order. */
  lemma {:induction false} ClassifyIff(name: string)
    ensures var n := LowerAll(name);
            var ep := Within(n, ["cuda", "cudnn", "tensorrt", "rocm", "openvino", "migraphx", "dnnl", "cann", "coreml",
                                 "armnn", "acl", "apex", "xnnpack", "nnapi", "rknpu", "tvm", "vitisai", "qnn",
                                 "directml"]);
            var training := n == "gettrainingapi" ||
                            Within(n, ["train", "gradient", "optimizer", "loss", "checkpoint", "loradapter"]);
            var gateway := n in ["getepapi", "getmodeleditorapi", "getcompileapi", "getinteropapi"];
            var kernel := "kernelcontext_" <= n || "kernelinfo" <= n || "customopdomain" <= n ||
                          n in ["createop", "addattribute", "releaseop", "createkernelinfo", "releasekernelinfo"];
            && (Classify(name) == Ep <==> ep)
            && (Classify(name) == Training <==> !ep && training)
            && (Classify(name) == ModelEditor <==> !ep && !training && gateway)
            && (Classify(name) == CustomOps <==> !ep && !training && !gateway && kernel)
            && (Classify(name) == Core <==> !ep && !training && !gateway && !kernel)
  {
    MentionsIff(LowerAll(name), PROVIDERS);
    MentionsIff(LowerAll(name), TRAINING_WORDS);
  }

  /** Capitals never matter. */
  lemma {:induction false} ClassifyIgnoresCase(a: string, b: string)
    requires LowerAll(a) == LowerAll(b)
    ensures Classify(a) == Classify(b)
  {
  }

  // ── One field ────────────────────────────────────────────────────────────────────────

  function Declared(ps: seq<Param>): (r: seq<string>)
    ensures |r| == |ps| && forall i | 0 <= i < |ps| :: r[i] == ps[i].name + ": " + ps[i].rustType
  {
    seq(|ps|, i requires 0 <= i < |ps| => ps[i].name + ": " + ps[i].rustType)
  }

  /** `NAME: TYPE, NAME: TYPE) -> RET` */
  function Signature(f: Field): string { Join(Declared(f.params), ", ") + ") -> " + f.ret }

  function CfgLine(g: Gate): string {
    if g.Core? then "" else "#[cfg(feature = \"" + GateName(g) + "\")]\n"
  }

  function IndexLine(f: Field): string {
    "pub const IDX_" + ToScreamingSnake(f.name) + ": usize = " + Decimal(f.idx) + ";\n"
  }

  /** Text of a field before its index line, between that and the signature, and behind it. */
  function FieldTop(f: Field, g: Gate): string { "// " + f.cSig + "\n" + CfgLine(g) }

  function FieldAlias(f: Field, g: Gate): string {
    CfgLine(g) + "pub type " + ToPascal(f.name) + "Fn = unsafe extern \"C\" fn("
  }

  /** Behind the signature, after its semicolon. */
  function FieldAccessor(f: Field, g: Gate): string {
    "\n" + CfgLine(g) + "impl Api {\n  #[inline]\n  " + CfgLine(g) + "pub unsafe fn " + ToSnake(f.name)
    + "(&self) -> " + ToPascal(f.name) + "Fn { unsafe { self.f(IDX_" + ToScreamingSnake(f.name) + ") } }\n}\n\n"
  }

  function Around(top: string, index: string, alias: string, signature: string, accessor: string): string {
    top + index + alias + signature + (";" + accessor)
  }

  function EmitField(f: Field, g: Gate): string {
    Around(FieldTop(f, g), IndexLine(f), FieldAlias(f, g), Signature(f), FieldAccessor(f, g))
  }

  // ── Sub-API structs ──────────────────────────────────────────────────────────────────

  function SubHead(f: Field): string { "    pub " + Sanitize(f.name) + ": Option<unsafe extern \"C\" fn(" }

  function SubLine(f: Field): string { SubHead(f) + Signature(f) + ">,\n" }

  function SubLines(fs: seq<Field>): (r: seq<string>)
    ensures |r| == |fs| && forall i | 0 <= i < |fs| :: r[i] == SubLine(fs[i])
  {
    seq(|fs|, i requires 0 <= i < |fs| => SubLine(fs[i]))
  }

  function SubOpen(name: string): string {
    "#[cfg(feature = \"model-editor\")]\n#[repr(C)]\npub struct " + name + " {\n"
  }

  /** The struct holds one line per field, in declaration order. */
  function SubText(a: SubApi): string { SubOpen(a.rustName) + Concat(SubLines(a.fields)) + "}\n" }

  method EmitSubApi(a: SubApi) returns (s: string)
    ensures s == SubText(a)
  {
    s := SubOpen(a.rustName);
    var i := 0;
    while i < |a.fields|
      invariant 0 <= i <= |a.fields|
      invariant SubOpen(a.rustName) + Concat(SubLines(a.fields)) == s + Concat(SubLines(a.fields)[i..])
    {
      var rest := SubLines(a.fields)[i..];
      assert rest[0] == SubLine(a.fields[i]) && rest[1..] == SubLines(a.fields)[i + 1..];
      assert s + (rest[0] + Concat(rest[1..])) == (s + rest[0]) + Concat(rest[1..]);
      s := s + SubLine(a.fields[i]);
      i := i + 1;
    }
    assert SubLines(a.fields)[i..] == [];
    assert s + "" == s;
    s := s + "}\n";
  }

  /** The binding file: classification and the two renderings, around any fixed texts. */
  ghost predicate Bindings(st: Style) {
    && (forall n :: st.gateOf(n) == Classify(n))
    && (forall f :: st.render(f) == EmitField(f, Classify(f.name)))
    && (forall a :: st.renderSub(a) == SubText(a))
  }

  /** The fixed texts of the file. */
  ghost predicate Framed(st: Style, preamble: string, handleTitle: string, types: string, title: Gate -> string,
                         subTitle: string)
  {
    && st.preamble == preamble && st.handleTitle == handleTitle && st.types == types && st.subTitle == subTitle
    && forall g :: st.title(g) == title(g)
  }

  /** Emitting the bindings, with every part of the text fixed by the parsed fields. */
  method EmitBindings(fs: seq<Field>, subs: seq<SubApi>, word: char -> bool, preamble: string, handleTitle: string,
                      types: string, title: Gate -> string, subTitle: string)
    returns (s: string, hs: seq<string>, st: Style)
    ensures Bindings(st) && Framed(st, preamble, handleTitle, types, title, subTitle)
    ensures IsHandleList(hs, Snippets(st, fs, subs), word) && s == Document(st, fs, subs, hs)
  {
    st := Style(Classify, (f: Field) => EmitField(f, Classify(f.name)), SubText,
                preamble, handleTitle, types, title, subTitle);
    s, hs := EmitFile(st, fs, subs, word);
  }

  // ── Handle closure ───────────────────────────────────────────────────────────────────

  /** Letters, digits and `_` make words; the separators of the templates do not. */
  ghost predicate WordChars(word: char -> bool) {
    && (forall c | 'a' <= c <= 'z' || 'A' <= c <= 'Z' || '0' <= c <= '9' || c == '_' :: word(c))
    && !word(' ') && !word(',') && !word('(') && !word(')') && !word(';') && !word('>')
  }

  /** `ty` is the return type or a parameter type of the field. */
  predicate InSignature(f: Field, ty: string) {
    ty == f.ret || exists i | 0 <= i < |f.params| :: ty == f.params[i].rustType
  }

  /** A joined list around one of its pieces. */
  lemma {:induction false} JoinAround(ps: seq<string>, i: nat) returns (a: string, b: string)
    requires i < |ps|
    ensures Join(ps, ", ") == a + ps[i] + b
    ensures a == "" || a[|a| - 1] == ' '
    ensures b == "" || b[0] == ','
  {
    if i == 0 {
      a := "";
      b := if |ps| == 1 then "" else ", " + Join(ps[1..], ", ");
    } else {
      a, b := JoinAround(ps[1..], i - 1);
      assert ps[0] + ", " + (a + ps[i] + b) == (ps[0] + ", " + a) + ps[i] + b;
      a := ps[0] + ", " + a;
    }
  }

  lemma {:induction false} AroundType(a: string, n: string, ty: string, b: string, tail: string)
    ensures (a + (n + ": " + ty) + b) + tail == (a + n + ": ") + ty + (b + tail)
  {
  }

  /** Where a type of the signature stands: between a space and a separator. */
  lemma {:induction false} TypeInSignature(f: Field, ty: string) returns (a: string, b: string)
    requires InSignature(f, ty)
    ensures Signature(f) == a + ty + b
    ensures a != "" && a[|a| - 1] == ' '
    ensures b == "" || b[0] == ',' || b[0] == ')'
  {
    if ty == f.ret {
      a, b := Join(Declared(f.params), ", ") + ") -> ", "";
      assert a + ty + b == a + ty;
    } else {
      var i :| 0 <= i < |f.params| && ty == f.params[i].rustType;
      a, b := JoinAround(Declared(f.params), i);
      var n := f.params[i].name;
      var tail := ") -> " + f.ret;
      AroundType(a, n, ty, b, tail);
      assert Signature(f) == Join(Declared(f.params), ", ") + tail;
      a, b := a + n + ": ", b + tail;
    }
  }

  lemma {:induction false} FoundInSignature(f: Field, ty: string, word: char -> bool, h: string,
                                            head: string, tail: string)
    requires WordChars(word) && InSignature(f, ty) && FoundIn(ty, word, h)
    requires tail != "" && (tail[0] == ';' || tail[0] == '>')
    ensures FoundIn(head + Signature(f) + tail, word, h)
  {
    var a, b := TypeInSignature(f, ty);
    var l, r := head + a, b + tail;
    assert head + (a + ty + b) + tail == l + ty + r;
    assert l[|l| - 1] == ' ' && r[0] == if b == "" then tail[0] else b[0];
    FoundInContext(l, ty, r, word, h);
  }

  lemma {:induction false} FoundInField(f: Field, g: Gate, ty: string, word: char -> bool, h: string)
    requires WordChars(word) && InSignature(f, ty) && FoundIn(ty, word, h)
    ensures FoundIn(EmitField(f, g), word, h)
  {
    FoundInSignature(f, ty, word, h, FieldTop(f, g) + IndexLine(f) + FieldAlias(f, g), ";" + FieldAccessor(f, g));
  }

  lemma {:induction false} FoundInSubApi(a: SubApi, f: Field, ty: string, word: char -> bool, h: string)
    requires WordChars(word) && f in a.fields && InSignature(f, ty) && FoundIn(ty, word, h)
    ensures FoundIn(SubText(a), word, h)
  {
    var i :| 0 <= i < |a.fields| && a.fields[i] == f;
    var x, y := ConcatAround(SubLines(a.fields), i);
    SubTextAround(SubOpen(a.rustName), x, SubHead(f), Signature(f), y);
    FoundInSignature(f, ty, word, h, SubOpen(a.rustName) + x + SubHead(f), ">,\n" + y + "}\n");
  }

  lemma {:induction false} SubTextAround(open: string, x: string, head: string, s: string, y: string)
    ensures open + (x + (head + s + ">,\n") + y) + "}\n" == (open + x + head) + s + (">,\n" + y + "}\n")
  {
  }

  /** Handle closure: every handle type in the signature of an emitted field, or of a sub-API
      field, is in the collected list, so it is declared. */
  lemma {:induction false} HandleClosure(st: Style, fs: seq<Field>, subs: seq<SubApi>, word: char -> bool,
                                         hs: seq<string>, f: Field, ty: string, h: string)
    requires Bindings(st) && WordChars(word) && IsHandleList(hs, Snippets(st, fs, subs), word)
    requires f in fs || exists k | 0 <= k < |subs| :: f in subs[k].fields
    requires InSignature(f, ty) && FoundIn(ty, word, h)
    ensures h in hs
  {
    if f in fs {
      FoundInField(f, Classify(f.name), ty, word, h);
      SnippetMentions(st, fs, subs, word, hs, f, h);
    } else {
      var k :| 0 <= k < |subs| && f in subs[k].fields;
      FoundInSubApi(subs[k], f, ty, word, h);
      SubSnippetMentions(st, fs, subs, word, hs, k, h);
    }
  }

  /** The type of an opaque C struct names its handle, at any pointer depth. */
  lemma {:induction false} OpaqueTypeNamesHandle(tab: BaseTable, ty: CType, extra: nat, word: char -> bool)
    requires WordChars(word)
    requires "Ort" <= ty.base && ty.base !in tab
    requires forall i | 0 <= i < |ty.base| :: word(ty.base[i])
    requires ty.base[3..] + SUFFIX !in HAND_WRITTEN
    ensures FoundIn(Meaning(tab, ty, extra), word, ty.base[3..] + SUFFIX)
  {
    HandleIsRun(ty.base[3..], word);
    FoundUnderPointers(Const in ty.quals, Stars(ty.suffix) + extra, ty.base[3..] + SUFFIX, word);
  }

  /** A handle in an element type of a callback is one of the callback type. */
  lemma {:induction false} FoundInCallback(types: seq<string>, k: nat, word: char -> bool, h: string)
    requires WordChars(word) && k < |types| && FoundIn(types[k], word, h)
    ensures FoundIn(CallbackType(types), word, h)
  {
    var a, b := JoinAround(types, k);
    CallbackContext(CALLBACK_OPEN, a, types[k], b, word, h);
  }

  const CALLBACK_OPEN := "Option<unsafe extern \"C\" fn("

  lemma {:induction false} CallbackContext(open: string, a: string, t: string, b: string, word: char -> bool, h: string)
    requires WordChars(word) && FoundIn(t, word, h) && open != "" && open[|open| - 1] == '('
    requires (a == "" || a[|a| - 1] == ' ') && (b == "" || b[0] == ',')
    ensures FoundIn(open + (a + t + b) + ")>", word, h)
  {
    var l, r := open + a, b + ")>";
    assert open + (a + t + b) + ")>" == l + t + r;
    assert l[|l| - 1] == if a == "" then '(' else ' ';
    assert r[0] == if b == "" then ')' else ',';
    FoundInContext(l, t, r, word, h);
  }

  lemma {:induction false} FoundUnderPointers(isConst: bool, n: nat, h: string, word: char -> bool)
    requires WordChars(word) && FoundIn(h, word, h)
    ensures FoundIn(Pointers(isConst, n, h), word, h)
  {
    var p := Repeat(PointerWord(isConst), n);
    PointersEndInSpace(isConst, n);
    FoundInContext(p, h, "", word, h);
    assert p + h + "" == p + h;
  }

  lemma {:induction false} HandleIsRun(x: string, word: char -> bool)
    requires WordChars(word) && (forall i | 0 <= i < |x| :: word(x[i])) && x + SUFFIX !in HAND_WRITTEN
    ensures FoundIn(x + SUFFIX, word, x + SUFFIX)
  {
    var h := x + SUFFIX;
    assert h[|h| - |SUFFIX|..] == SUFFIX;
    assert forall i | 0 <= i < |SUFFIX| :: 'a' <= SUFFIX[i] <= 'z' || 'A' <= SUFFIX[i] <= 'Z';
    assert forall i | |x| <= i < |h| :: h[i] == SUFFIX[i - |x|];
    assert Run(h, word, 0, |h|);
    assert h[0..|h|] == h;
  }

  lemma {:induction false} PointersEndInSpace(isConst: bool, n: nat)
    ensures var p := Repeat(PointerWord(isConst), n); p == "" || p[|p| - 1] == ' '
  {
    if n > 0 {
      PointersEndInSpace(isConst, n - 1);
    }
  }

  /** The index constant of every field is in the file, under its original table position. */
  lemma {:induction false} IndexEmitted(st: Style, fs: seq<Field>, subs: seq<SubApi>, hs: seq<string>, f: Field)
    returns (before: string, after: string)
    requires Bindings(st) && f in fs
    ensures Document(st, fs, subs, hs) == before + IndexLine(f) + after
  {
    var g := Classify(f.name);
    before, after := FieldEmitted(st, fs, subs, hs, f);
    IndexAround(before, FieldTop(f, g), IndexLine(f), FieldAlias(f, g), Signature(f), FieldAccessor(f, g), after);
    before, after := before + FieldTop(f, g), FieldAlias(f, g) + Signature(f) + (";" + FieldAccessor(f, g)) + after;
  }

  /** The struct of every sub-API is in the file. */
  lemma {:induction false} SubTextEmitted(st: Style, fs: seq<Field>, subs: seq<SubApi>, hs: seq<string>, m: nat)
    returns (before: string, after: string)
    requires Bindings(st) && m < |subs|
    ensures Document(st, fs, subs, hs) == before + SubText(subs[m]) + after
  {
    before, after := SubApiEmitted(st, fs, subs, hs, m);
  }

  lemma {:induction false} IndexAround(before: string, top: string, index: string, alias: string, s: string,
                                       accessor: string, after: string)
    ensures before + Around(top, index, alias, s, accessor) + after ==
            (before + top) + index + (alias + s + (";" + accessor) + after)
  {
  }
}
