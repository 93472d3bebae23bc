/** Reading one function-table struct: locating its body, joining wrapped lines into
    declarations, and numbering the fields by position. */
module ApiStruct {
  import opened Text
  import opened CTypes
  import opened Decls
  import opened RoundTrip

  /** A line without its terminator: a carriage return before the newline goes too. */
  function DropReturn(s: string): string {
    if EndsWith(s, '\r') then s[..|s| - 1] else s
  }

  /** Lines of a text; a final line need not be terminated, and an empty one is no line. */
  function Lines(s: string): seq<string>
    decreases |s|
  {
    var k := Find(s, '\n');
    if k.Some? then [DropReturn(s[..k.value])] + Lines(s[k.value + 1..])
    else if s == "" then []
    else [s]
  }

  predicate Skipped(line: string) { line == "" || "//" <= line }

  /** Fields of the remaining lines, given the text collected so far and the next index. */
  function FieldsOf(tab: BaseTable, lines: seq<string>, buf: string, n: nat): seq<Field> {
    if lines == [] then []
    else
      var line := Trim(lines[0]);
      if Skipped(line) then FieldsOf(tab, lines[1..], buf, n)
      else
        var buf' := buf + line + " ";
        if !EndsWith(line, ';') then FieldsOf(tab, lines[1..], buf', n)
        else
          var f := ParseField(tab, Trim(buf'));
          if f.Some? then [f.value.(idx := n)] + FieldsOf(tab, lines[1..], "", n + 1)
          else FieldsOf(tab, lines[1..], "", n)
  }

  function OpenText(name: string): string { "struct " + name + " {" }

  const CLOSE := "\n};"

  /** The body of `struct name { ... };`, if the text has one. */
  function BodyOf(pp: string, name: string): Option<string> {
    var start := FindSub(pp, OpenText(name));
    if start.None? then None
    else
      var rest := pp[start.value + |OpenText(name)|..];
      var end := FindSub(rest, CLOSE);
      if end.None? then None else Some(rest[..end.value])
  }

  /** `None` stands for the panic on a missing struct. */
  method ParseApiStruct(tab: BaseTable, pp: string, name: string) returns (r: Option<seq<Field>>)
    ensures r == var b := BodyOf(pp, name);
                 if b.None? then None else Some(FieldsOf(tab, Lines(b.value), "", 0))
  {
    var start := FindSub(pp, OpenText(name));
    if start.None? { return None; }
    var rest := pp[start.value + |OpenText(name)|..];
    var end := FindSub(rest, CLOSE);
    if end.None? { return None; }
    var fields := ReadFields(tab, Lines(rest[..end.value]));
    return Some(fields);
  }

  method ReadFields(tab: BaseTable, lines: seq<string>) returns (fields: seq<Field>)
    ensures fields == FieldsOf(tab, lines, "", 0)
  {
    fields := [];
    var buf := "";
    var i := 0;
    assert lines[0..] == lines;
    while i < |lines|
      invariant 0 <= i <= |lines|
      invariant FieldsOf(tab, lines, "", 0) == fields + FieldsOf(tab, lines[i..], buf, |fields|)
    {
      FieldsOfStep(tab, lines, i, buf, |fields|);
      var line := Trim(lines[i]);
      i := i + 1;
      if Skipped(line) { continue; }
      buf := buf + line + " ";
      if EndsWith(line, ';') {
        var f := ParseField(tab, Trim(buf));
        if f.Some? {
          var numbered := f.value.(idx := |fields|);
          Snoc(fields, numbered, FieldsOf(tab, lines[i..], "", |fields| + 1));
          fields := fields + [numbered];
        }
        buf := "";
      }
    }
    assert lines[i..] == [];
  }

  lemma {:induction false} Snoc<T>(a: seq<T>, x: T, b: seq<T>)
    ensures a + ([x] + b) == (a + [x]) + b
  {
  }

  lemma {:induction false} FieldsOfStep(tab: BaseTable, lines: seq<string>, i: nat, buf: string, n: nat)
    requires i < |lines|
    ensures FieldsOf(tab, lines[i..], buf, n) ==
            var line := Trim(lines[i]);
            var buf' := buf + line + " ";
            var rest := lines[i + 1..];
            if Skipped(line) then FieldsOf(tab, rest, buf, n)
            else if !EndsWith(line, ';') then FieldsOf(tab, rest, buf', n)
            else
              var f := ParseField(tab, Trim(buf'));
              if f.Some? then [f.value.(idx := n)] + FieldsOf(tab, rest, "", n + 1)
              else FieldsOf(tab, rest, "", n)
  {
    assert lines[i..][0] == lines[i] && lines[i..][1..] == lines[i + 1..];
  }

  // ── Layout ───────────────────────────────────────────────────────────────────────────

  /** One declaration as its trimmed source lines; only the last one ends in a semicolon. */
  predicate ValidDecl(ls: seq<string>) {
    && ls != []
    && (forall i | 0 <= i < |ls| :: Tight(ls[i]) && !Skipped(ls[i]) && '\n' !in ls[i])
    && (forall i | 0 <= i < |ls| - 1 :: !EndsWith(ls[i], ';'))
    && EndsWith(ls[|ls| - 1], ';')
  }

  /** A physical line: skipped by the reader, or one source line between blanks. */
  datatype Row = Noise(raw: string) | Code(left: string, text: string, right: string)

  predicate ValidRow(r: Row) {
    match r
    case Noise(raw) => '\n' !in raw && Skipped(Trim(raw))
    case Code(left, text, right) =>
      && Blank(left) && Blank(right) && '\n' !in left && '\n' !in right
      && Tight(text) && !Skipped(text) && '\n' !in text
  }

  function RowText(r: Row): string {
    match r
    case Noise(raw) => raw
    case Code(left, text, right) => left + text + right
  }

  function RowTexts(rows: seq<Row>): (r: seq<string>)
    ensures |r| == |rows|
  {
    seq(|rows|, i requires 0 <= i < |rows| => RowText(rows[i]))
  }

  /** The source lines that the rows carry, in order. */
  function Carried(rows: seq<Row>): seq<string> {
    if rows == [] then []
    else (if rows[0].Code? then [rows[0].text] else []) + Carried(rows[1..])
  }

  function Flatten(decls: seq<seq<string>>): seq<string> {
    if decls == [] then [] else decls[0] + Flatten(decls[1..])
  }

  /** The declarations on one line each, parsed in order and numbered by what parses. */
  function Number(tab: BaseTable, decls: seq<seq<string>>, n: nat): seq<Field> {
    if decls == [] then []
    else
      var f := ParseField(tab, Join(decls[0], " "));
      if f.Some? then [f.value.(idx := n)] + Number(tab, decls[1..], n + 1)
      else Number(tab, decls[1..], n)
  }

  /** Skipped lines and blank ends of lines never matter. */
  lemma {:induction false} NoiseIgnored(tab: BaseTable, rows: seq<Row>, buf: string, n: nat)
    requires forall i | 0 <= i < |rows| :: ValidRow(rows[i])
    ensures FieldsOf(tab, RowTexts(rows), buf, n) == FieldsOf(tab, Carried(rows), buf, n)
  {
    if rows != [] {
      var r := rows[0];
      assert RowTexts(rows)[1..] == RowTexts(rows[1..]);
      if r.Noise? {
        NoiseIgnored(tab, rows[1..], buf, n);
        assert Carried(rows) == Carried(rows[1..]);
      } else {
        TrimPadded(r.left, r.text, r.right);
        TrimTight(r.text);
        assert Carried(rows)[1..] == Carried(rows[1..]);
        var buf' := buf + r.text + " ";
        NoiseIgnored(tab, rows[1..], buf', n);
        NoiseIgnored(tab, rows[1..], "", n + 1);
        NoiseIgnored(tab, rows[1..], "", n);
      }
    }
  }

  /** Collected text of the first lines of a declaration. */
  function Collected(ls: seq<string>): string {
    if ls == [] then "" else Collected(ls[..|ls| - 1]) + ls[|ls| - 1] + " "
  }

  lemma {:induction false} CollectedIsJoin(ls: seq<string>)
    requires ls != []
    ensures Collected(ls) == Join(ls, " ") + " "
  {
    if |ls| > 1 {
      var n := |ls| - 1;
      CollectedIsJoin(ls[..n]);
      JoinLast(ls);
    } else {
      assert Collected(ls[..0]) == "";
      assert "" + ls[0] + " " == ls[0] + " ";
    }
  }

  lemma {:induction false} JoinLast(ls: seq<string>)
    requires |ls| > 1
    ensures Join(ls, " ") == Join(ls[..|ls| - 1], " ") + " " + ls[|ls| - 1]
  {
    var n := |ls| - 1;
    if n > 1 {
      JoinLast(ls[1..]);
      assert ls[1..][..n - 1] == ls[..n][1..];
      var j := Join(ls[..n][1..], " ");
      assert ls[0] + " " + (j + " " + ls[n]) == (ls[0] + " " + j) + " " + ls[n];
    }
  }

  lemma {:induction false} JoinTight(ls: seq<string>)
    requires ls != [] && forall i | 0 <= i < |ls| :: Tight(ls[i])
    ensures Tight(Join(ls, " "))
  {
    if |ls| > 1 {
      JoinTight(ls[1..]);
    }
  }

  /** The reader inside a declaration: `k` lines collected, the rest still to come. */
  lemma {:induction false} OneDecl(tab: BaseTable, d: seq<string>, k: nat, rest: seq<string>, n: nat)
    requires ValidDecl(d) && k < |d|
    ensures FieldsOf(tab, d[k..] + rest, Collected(d[..k]), n) ==
            var f := ParseField(tab, Join(d, " "));
            if f.Some? then [f.value.(idx := n)] + FieldsOf(tab, rest, "", n + 1)
            else FieldsOf(tab, rest, "", n)
    decreases |d| - k
  {
    var lines := d[k..] + rest;
    TrimTight(d[k]);
    assert lines[0] == d[k] && lines[1..] == d[k + 1..] + rest;
    assert d[..k + 1][..k] == d[..k];
    assert Collected(d[..k + 1]) == Collected(d[..k]) + d[k] + " ";
    if k + 1 < |d| {
      OneDecl(tab, d, k + 1, rest, n);
    } else {
      assert d[..k + 1] == d && lines[1..] == rest;
      CollectedIsJoin(d);
      JoinTight(d);
      TrimPadded("", Join(d, " "), " ");
      assert "" + Join(d, " ") + " " == Join(d, " ") + " ";
    }
  }

  lemma {:induction false} DeclsInOrder(tab: BaseTable, decls: seq<seq<string>>, n: nat)
    requires forall i | 0 <= i < |decls| :: ValidDecl(decls[i])
    ensures FieldsOf(tab, Flatten(decls), "", n) == Number(tab, decls, n)
  {
    if decls != [] {
      OneDecl(tab, decls[0], 0, Flatten(decls[1..]), n);
      assert decls[0][0..] == decls[0];
      DeclsInOrder(tab, decls[1..], n);
      DeclsInOrder(tab, decls[1..], n + 1);
    }
  }

  lemma {:induction false} OnlyTrimmedLinesCount(tab: BaseTable, a: seq<string>, b: seq<string>, buf: string, n: nat)
    requires TrimAll(a) == TrimAll(b)
    ensures FieldsOf(tab, a, buf, n) == FieldsOf(tab, b, buf, n)
  {
    if a != [] {
      assert TrimAll(a)[0] == TrimAll(b)[0];
      assert TrimAll(a[1..]) == TrimAll(a)[1..] == TrimAll(b)[1..] == TrimAll(b[1..]);
      OnlyTrimmedLinesCount(tab, a[1..], b[1..], buf, n);
      OnlyTrimmedLinesCount(tab, a[1..], b[1..], buf + Trim(a[0]) + " ", n);
      OnlyTrimmedLinesCount(tab, a[1..], b[1..], "", n);
      OnlyTrimmedLinesCount(tab, a[1..], b[1..], "", n + 1);
    }
  }

  lemma {:induction false} LastBlankLineIgnored(tab: BaseTable, a: seq<string>, buf: string, n: nat)
    ensures FieldsOf(tab, a + [""], buf, n) == FieldsOf(tab, a, buf, n)
  {
    if a == [] {
      TrimTight("");
      assert a + [""] == [""];
    } else {
      assert (a + [""])[1..] == a[1..] + [""];
      LastBlankLineIgnored(tab, a[1..], buf, n);
      LastBlankLineIgnored(tab, a[1..], buf + Trim(a[0]) + " ", n);
      LastBlankLineIgnored(tab, a[1..], "", n);
      LastBlankLineIgnored(tab, a[1..], "", n + 1);
    }
  }

  lemma {:induction false} LinesOfJoin(ls: seq<string>)
    requires ls != [] && forall i | 0 <= i < |ls| :: '\n' !in ls[i]
    ensures var l := Lines(Join(ls, "\n"));
            TrimAll(l) == TrimAll(ls) || TrimAll(l + [""]) == TrimAll(ls)
  {
    if |ls| == 1 {
      assert ls == [ls[0]];
    } else {
      var t := Join(ls[1..], "\n");
      LinesStep(ls[0], t);
      DropReturnTrims(ls[0]);
      LinesOfJoin(ls[1..]);
      var l, d := Lines(t), DropReturn(ls[0]);
      TrimAllCons(d, l);
      TrimAllCons(d, l + [""]);
      TrimAllCons(ls[0], ls[1..]);
      assert [d] + l + [""] == [d] + (l + [""]);
      assert ls == [ls[0]] + ls[1..];
    }
  }

  lemma {:induction false} TrimAllCons(x: string, l: seq<string>)
    ensures TrimAll([x] + l) == [Trim(x)] + TrimAll(l)
  {
  }

  lemma {:induction false} LinesStep(a: string, t: string)
    requires '\n' !in a
    ensures Lines(a + "\n" + t) == [DropReturn(a)] + Lines(t)
  {
    var s := a + "\n" + t;
    FindAt(a, '\n', t);
    assert s[..|a|] == a && s[|a| + 1..] == t;
  }

  lemma {:induction false} LinesOfRows(tab: BaseTable, ls: seq<string>, buf: string, n: nat)
    requires forall i | 0 <= i < |ls| :: '\n' !in ls[i]
    ensures FieldsOf(tab, Lines(Join(ls, "\n")), buf, n) == FieldsOf(tab, ls, buf, n)
  {
    if ls != [] {
      var l := Lines(Join(ls, "\n"));
      LinesOfJoin(ls);
      LastBlankLineIgnored(tab, l, buf, n);
      OnlyTrimmedLinesCount(tab, if TrimAll(l) == TrimAll(ls) then l else l + [""], ls, buf, n);
    }
  }

  lemma {:induction false} DropReturnTrims(s: string)
    ensures Trim(DropReturn(s)) == Trim(s)
  {
    if EndsWith(s, '\r') {
      var t := s[..|s| - 1];
      TrimAround("", t, "\r");
      assert s == "" + t + "\r";
    }
  }

  /** Layout invariance: however the declarations are wrapped, indented and interleaved with
      blank or comment lines, the fields are those of the one-line declarations, in order. */
  lemma {:induction false} LayoutInvariance(tab: BaseTable, rows: seq<Row>, decls: seq<seq<string>>)
    requires forall i | 0 <= i < |rows| :: ValidRow(rows[i])
    requires forall i | 0 <= i < |decls| :: ValidDecl(decls[i])
    requires Carried(rows) == Flatten(decls)
    ensures FieldsOf(tab, Lines(Join(RowTexts(rows), "\n")), "", 0) == Number(tab, decls, 0)
  {
    forall i | 0 <= i < |rows|
      ensures '\n' !in RowTexts(rows)[i]
    {
      assert ValidRow(rows[i]);
    }
    LinesOfRows(tab, RowTexts(rows), "", 0);
    NoiseIgnored(tab, rows, "", 0);
    DeclsInOrder(tab, decls, 0);
  }

  /** Two layouts of the same one-line declarations read alike, wherever each one breaks lines. */
  lemma {:induction false} WrappingInvariance(tab: BaseTable, rows: seq<Row>, decls: seq<seq<string>>,
                                              rows': seq<Row>, decls': seq<seq<string>>)
    requires forall i | 0 <= i < |rows| :: ValidRow(rows[i])
    requires forall i | 0 <= i < |rows'| :: ValidRow(rows'[i])
    requires forall i | 0 <= i < |decls| :: ValidDecl(decls[i])
    requires forall i | 0 <= i < |decls'| :: ValidDecl(decls'[i])
    requires Carried(rows) == Flatten(decls) && Carried(rows') == Flatten(decls')
    requires |decls| == |decls'| && forall i | 0 <= i < |decls| :: Join(decls[i], " ") == Join(decls'[i], " ")
    ensures FieldsOf(tab, Lines(Join(RowTexts(rows), "\n")), "", 0) ==
            FieldsOf(tab, Lines(Join(RowTexts(rows'), "\n")), "", 0)
  {
    LayoutInvariance(tab, rows, decls);
    LayoutInvariance(tab, rows', decls');
    NumberByText(tab, decls, decls', 0);
  }

  lemma {:induction false} NumberByText(tab: BaseTable, decls: seq<seq<string>>, decls': seq<seq<string>>, n: nat)
    requires |decls| == |decls'| && forall i | 0 <= i < |decls| :: Join(decls[i], " ") == Join(decls'[i], " ")
    ensures Number(tab, decls, n) == Number(tab, decls', n)
  {
    if decls != [] {
      assert Join(decls[0], " ") == Join(decls'[0], " ");
      forall i | 0 <= i < |decls| - 1
        ensures Join(decls[1..][i], " ") == Join(decls'[1..][i], " ")
      {
        assert decls[1..][i] == decls[i + 1] && decls'[1..][i] == decls'[i + 1];
      }
      NumberByText(tab, decls[1..], decls'[1..], n);
      NumberByText(tab, decls[1..], decls'[1..], n + 1);
    }
  }

  // ── Positional indices ───────────────────────────────────────────────────────────────

  /** Whatever the declarations are, field `i` carries index `n + i`. */
  lemma {:induction false} IndexIsPosition(tab: BaseTable, decls: seq<seq<string>>, n: nat)
    ensures var fs := Number(tab, decls, n);
            |fs| <= |decls| && forall i | 0 <= i < |fs| :: fs[i].idx == n + i
  {
    if decls != [] {
      IndexIsPosition(tab, decls[1..], n);
      IndexIsPosition(tab, decls[1..], n + 1);
    }
  }

  /** The outcomes that are fields, numbered from `n`. */
  function Keep(os: seq<Option<Field>>, n: nat): seq<Field> {
    if os == [] then []
    else if os[0].Some? then [os[0].value.(idx := n)] + Keep(os[1..], n + 1)
    else Keep(os[1..], n)
  }

  /** What each declaration parses to. */
  function Outcomes(tab: BaseTable, decls: seq<seq<string>>): (r: seq<Option<Field>>)
    ensures |r| == |decls| && forall i | 0 <= i < |decls| :: r[i] == ParseField(tab, Join(decls[i], " "))
  {
    if decls == [] then [] else [ParseField(tab, Join(decls[0], " "))] + Outcomes(tab, decls[1..])
  }

  lemma {:induction false} NumberKeeps(tab: BaseTable, decls: seq<seq<string>>, n: nat)
    ensures Number(tab, decls, n) == Keep(Outcomes(tab, decls), n)
  {
    if decls != [] {
      NumberKeeps(tab, decls[1..], n);
      NumberKeeps(tab, decls[1..], n + 1);
      assert Outcomes(tab, decls)[1..] == Outcomes(tab, decls[1..]);
    }
  }

  lemma {:induction false} KeepLength(os: seq<Option<Field>>, n: nat)
    ensures |Keep(os, n)| <= |os|
    ensures |Keep(os, n)| == |os| <==> forall o | o in os :: o.Some?
  {
    if os != [] {
      KeepLength(os[1..], if os[0].Some? then n + 1 else n);
      assert os == [os[0]] + os[1..];
    }
  }

  lemma {:induction false} KeepAll(os: seq<Option<Field>>, n: nat, i: nat)
    requires i < |os| && forall o | o in os :: o.Some?
    ensures |Keep(os, n)| == |os| && Keep(os, n)[i] == os[i].value.(idx := n + i)
  {
    KeepLength(os, n);
    KeepLength(os[1..], n + 1);
    if i > 0 {
      KeepAll(os[1..], n + 1, i - 1);
    }
  }

  /** As many fields come out as there are declarations exactly when every declaration parses. */
  lemma {:induction false} NoneDroppedIff(tab: BaseTable, decls: seq<seq<string>>, n: nat)
    ensures (forall i | 0 <= i < |decls| :: ParseField(tab, Join(decls[i], " ")).Some?) <==>
            |Number(tab, decls, n)| == |decls|
    ensures |Number(tab, decls, n)| == |decls| ==>
            forall i | 0 <= i < |decls| ::
              && ParseField(tab, Join(decls[i], " ")).Some?
              && Number(tab, decls, n)[i] == ParseField(tab, Join(decls[i], " ")).value.(idx := n + i)
  {
    var os := Outcomes(tab, decls);
    NumberKeeps(tab, decls, n);
    KeepLength(os, n);
    if |Number(tab, decls, n)| == |decls| {
      forall i | 0 <= i < |decls|
        ensures os[i].Some? && Keep(os, n)[i] == os[i].value.(idx := n + i)
      {
        KeepAll(os, n, i);
      }
    }
  }

  /** How many of the first `i` outcomes are fields. */
  function Kept(os: seq<Option<Field>>, i: nat): nat
    requires i <= |os|
  {
    if i == 0 then 0 else (if os[0].Some? then 1 else 0) + Kept(os[1..], i - 1)
  }

  lemma {:induction false} KeepSlot(os: seq<Option<Field>>, n: nat, i: nat)
    requires i < |os| && os[i].Some?
    ensures var k := Kept(os, i); k < |Keep(os, n)| && Keep(os, n)[k] == os[i].value.(idx := n + k)
  {
    if i > 0 {
      KeepSlot(os[1..], if os[0].Some? then n + 1 else n, i - 1);
    }
  }

  lemma {:induction false} KeptAll(os: seq<Option<Field>>, i: nat)
    requires i <= |os|
    ensures Kept(os, i) <= i
    ensures Kept(os, i) == i <==> forall j | 0 <= j < i :: os[j].Some?
  {
    if i > 0 {
      KeptAll(os[1..], i - 1);
      assert forall j | 0 < j < i :: os[j] == os[1..][j - 1];
      if forall j | 0 <= j < i :: os[j].Some? {
        assert forall j | 0 <= j < i - 1 :: os[1..][j] == os[j + 1];
      }
    }
  }

  /** Exactly which slots survive: a declaration that parses becomes the field behind the earlier
      ones that parse, and keeps its position in the C table if and only if all of those do. */
  lemma {:induction false} SlotKeptIff(tab: BaseTable, decls: seq<seq<string>>, n: nat, i: nat) returns (k: nat)
    requires i < |decls| && Outcomes(tab, decls)[i].Some?
    ensures k == Kept(Outcomes(tab, decls), i) <= i && k < |Number(tab, decls, n)|
    ensures Number(tab, decls, n)[k] == Outcomes(tab, decls)[i].value.(idx := n + k)
    ensures Number(tab, decls, n)[k].idx == n + i <==> forall j | 0 <= j < i :: Outcomes(tab, decls)[j].Some?
  {
    var os := Outcomes(tab, decls);
    k := Kept(os, i);
    NumberKeeps(tab, decls, n);
    KeepSlot(os, n, i);
    KeptAll(os, i);
  }

  /** One declaration that is no function pointer, between two that are: it is dropped, and the
      second function gets the slot that the dropped one has in the C table. */
  lemma {:induction false} DroppedFieldShifts(tab: BaseTable, a: seq<string>, x: seq<string>, b: seq<string>, n: nat)
    requires ParseField(tab, Join(a, " ")).Some? && ParseField(tab, Join(b, " ")).Some? && '(' !in Join(x, " ")
    ensures Number(tab, [a, x, b], n) == [ParseField(tab, Join(a, " ")).value.(idx := n),
                                          ParseField(tab, Join(b, " ")).value.(idx := n + 1)]
  {
    NoParenthesisNoField(tab, Join(x, " "));
    NumberOfThree(tab, a, x, b, n);
    KeepAround(ParseField(tab, Join(a, " ")), None, ParseField(tab, Join(b, " ")), n);
  }

  lemma {:induction false} NumberOfThree(tab: BaseTable, a: seq<string>, x: seq<string>, b: seq<string>, n: nat)
    ensures Number(tab, [a, x, b], n) ==
            Keep([ParseField(tab, Join(a, " ")), ParseField(tab, Join(x, " ")), ParseField(tab, Join(b, " "))], n)
  {
    NumberKeeps(tab, [a, x, b], n);
    var os := Outcomes(tab, [a, x, b]);
    assert os == [os[0], os[1], os[2]];
  }

  lemma {:induction false} KeepAround(f: Option<Field>, x: Option<Field>, g: Option<Field>, n: nat)
    requires f.Some? && x.None? && g.Some?
    ensures Keep([f, x, g], n) == [f.value.(idx := n), g.value.(idx := n + 1)]
  {
    assert [f, x, g][1..] == [x, g] && [x, g][1..] == [g] && [g][1..] == [];
    assert Keep([g], n + 1) == [g.value.(idx := n + 1)];
    assert Keep([x, g], n + 1) == Keep([g], n + 1);
  }

  lemma {:induction false} NoParenthesisNoField(tab: BaseTable, text: string)
    requires '(' !in text
    ensures ParseField(tab, text).None?
  {
    var a, b := TrimSplits(text);
    assert forall i | 0 <= i < |Trim(text)| :: Trim(text)[i] == text[|a| + i];
  }

  /** Such a declaration: `int version;`. */
  lemma {:induction false} VersionIsDropped(tab: BaseTable)
    ensures ValidDecl(["int version;"]) && ParseField(tab, "int version;").None?
  {
    var s := "int version;";
    assert s[0] == 'i' && s[|s| - 1] == ';';
    OneLineDecl(s);
    NoParenthesisNoField(tab, s);
  }

  lemma {:induction false} OneLineDecl(s: string)
    requires s != "" && !IsSpace(s[0]) && s[0] != '/' && s[|s| - 1] == ';' && '\n' !in s
    ensures ValidDecl([s])
  {
  }

  /** The intended field at position `i`. */
  function FieldMeaning(tab: BaseTable, f: FieldDecl, trail: string, i: nat): Field
    requires ValidField(f)
  {
    Field(i, f.name, ReturnMeaning(tab, f.ret), ParamsMeaning(tab, f.params),
          DropSemicolons(Trim(FieldText(f) + trail)))
  }

  /** The whole reader: a header holding a struct of written fields, in any layout, yields
      exactly those fields, each under its own table position. */
  lemma {:induction false} HeaderRoundTrip(tab: BaseTable, pp: string, name: string, rows: seq<Row>,
                                           decls: seq<seq<string>>, fs: seq<FieldDecl>, trails: seq<string>)
    requires BodyOf(pp, name) == Some(Join(RowTexts(rows), "\n"))
    requires forall i | 0 <= i < |rows| :: ValidRow(rows[i])
    requires forall i | 0 <= i < |decls| :: ValidDecl(decls[i])
    requires Carried(rows) == Flatten(decls)
    requires |fs| == |trails| == |decls|
    requires forall i | 0 <= i < |fs| :: ValidField(fs[i]) && Join(decls[i], " ") == FieldText(fs[i]) + trails[i]
    ensures var r := FieldsOf(tab, Lines(BodyOf(pp, name).value), "", 0);
            |r| == |fs| && forall i | 0 <= i < |fs| :: r[i] == FieldMeaning(tab, fs[i], trails[i], i)
  {
    LayoutInvariance(tab, rows, decls);
    FieldsFromDecls(tab, decls, fs, trails);
  }

  lemma {:induction false} FieldsFromDecls(tab: BaseTable, decls: seq<seq<string>>,
                                           fs: seq<FieldDecl>, trails: seq<string>)
    requires |fs| == |trails| == |decls|
    requires forall i | 0 <= i < |fs| :: ValidField(fs[i]) && Join(decls[i], " ") == FieldText(fs[i]) + trails[i]
    ensures var r := Number(tab, decls, 0);
            |r| == |fs| && forall i | 0 <= i < |fs| :: r[i] == FieldMeaning(tab, fs[i], trails[i], i)
  {
    forall i | 0 <= i < |fs|
      ensures var f := ParseField(tab, Join(decls[i], " "));
              f.Some? && f.value.(idx := i) == FieldMeaning(tab, fs[i], trails[i], i)
    {
      OneField(tab, fs[i], trails[i], i);
    }
    NoneDroppedIff(tab, decls, 0);
  }

  lemma {:induction false} OneField(tab: BaseTable, f: FieldDecl, trail: string, i: nat)
    requires ValidField(f)
    ensures var r := ParseField(tab, FieldText(f) + trail);
            r.Some? && r.value.(idx := i) == FieldMeaning(tab, f, trail, i)
  {
    var t := FieldText(f);
    assert "" + t + trail == t + trail;
    FieldRoundTrip(tab, f, "", trail, t + trail);
  }

  /** Lines that never matter: blank ones, and those whose first characters are two slashes. */
  lemma {:induction false} NoiseSpelled(raw: string)
    requires '\n' !in raw && (Blank(raw) || "//" <= Trim(raw))
    ensures ValidRow(Noise(raw))
  {
    TrimBlank(raw);
  }

  /** Where the struct is found: at the first opening text, up to the first closing line. */
  lemma {:induction false} BodyFound(before: string, name: string, body: string, after: string)
    requires forall j: nat | j < |before| ::
      !At(before + ("struct " + name + " {") + (body + "\n};" + after), j, "struct " + name + " {")
    requires forall j: nat | j < |body| :: !At(body + "\n};" + after, j, "\n};")
    ensures BodyOf(before + ("struct " + name + " {") + (body + "\n};" + after), name) == Some(body)
  {
    var rest := body + CLOSE + after;
    var pp := before + OpenText(name) + rest;
    assert At(pp, |before|, OpenText(name));
    assert pp[|before| + |OpenText(name)|..] == rest;
    assert At(rest, |body|, CLOSE);
    assert rest[..|body|] == body;
  }
}
