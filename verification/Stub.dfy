/** `extract_schemas`: the import-only stub of a KCL package, its schema blocks and the
    imports those blocks refer to. */
module Stub {
  import opened Text
  import opened Lexer
  import opened ModuleReference
  import Decorators

  // ----- what one line is -----

  predicate IsIndented(line: string) { StartsWith(line, " ") || StartsWith(line, "\t") }

  predicate IsComment(line: string) { StartsWith(TrimStart(line), "#") }

  predicate IsImport(line: string) { !IsIndented(line) && StartsWith(TrimStart(line), "import ") }

  predicate IsHeader(line: string) {
    !IsIndented(line) && (StartsWith(TrimStart(line), "schema ") || StartsWith(TrimStart(line), "protocol "))
  }

  function FirstWord(s: string): Option<string> {
    var t := TrimStart(s);
    if t == "" then None else Some(WordPrefix(t))
  }

  function WordPrefix(s: string): string {
    if s == [] || IsWhitespace(s[0]) then [] else [s[0]] + WordPrefix(s[1..])
  }

  /** What follows the last `p`, as `rsplit_once` finds it. */
  function AfterLast(s: string, p: string): Option<string> {
    if s == [] then (if p == [] then Some([]) else None)
    else match AfterLast(s[1..], p)
      case Some(rest) => Some(rest)
      case None => if StartsWith(s, p) then Some(s[|p|..]) else None
  }

  /** The name an import line binds: its alias, or the last segment of the module path. */
  function ImportedName(importLine: string): Option<string> {
    var withoutComment := Trim(importLine[..IndexOf(importLine, '#')]);
    if !StartsWith(withoutComment, "import ") then None
    else
      var target := Trim(withoutComment[|"import "|..]);
      match AfterLast(target, " as ")
      case Some(alias) => FirstWord(alias)
      case None =>
        match FirstWord(target)
        case None => None
        case Some(path) => Some(match AfterLast(path, ".") case Some(last) => last case None => path)
  }

  /** The name bound by a line the scan records as an import. */
  function BoundName(line: string): Option<string> {
    if IsImport(line) && !StartsWith(TrimStart(line), "import charts.") then ImportedName(TrimStart(line)) else None
  }

  /** What the scan takes a line for. `Inner` is an indented or comment line. */
  datatype Kind = Blank | Inner | Import(name: Option<string>) | Header | Other

  datatype Line = Line(text: string, kind: Kind)

  function Classify(text: string): Line {
    Line(text,
         if IsBlank(text) then Blank
         else if IsIndented(text) || IsComment(text) then Inner
         else if IsImport(text) then Import(BoundName(text))
         else if IsHeader(text) then Header
         else Other)
  }

  const EMPTY := Line("", Blank)

  // ----- the scan -----

  datatype Scan = Scan(inSchema: bool, imports: seq<Line>, schemas: seq<Line>)

  const START := Scan(false, [], [])

  /** A line that stays in the schema block it follows. */
  predicate Continues(kind: Kind) { kind.Blank? || kind.Inner? }

  /** The collected text ends with an empty line (`ends_with("\n\n")`). */
  predicate EndsBlank(ls: seq<Line>) { |ls| >= 2 && ls[|ls| - 1].text == "" }

  function Step(s: Scan, line: Line): Scan {
    if s.inSchema && Continues(line.kind) then s.(schemas := s.schemas + [line])
    else match line.kind
      case Blank => Scan(false, s.imports, if EndsBlank(s.schemas) then s.schemas else s.schemas + [EMPTY])
      case Import(Some(_)) => Scan(false, s.imports + [line], s.schemas)
      case Header => Scan(true, s.imports, s.schemas + [line])
      case _ => s.(inSchema := false)
  }

  function ScanAll(s: Scan, ls: seq<Line>): Scan
    decreases |ls|
  {
    if ls == [] then s else ScanAll(Step(s, ls[0]), ls[1..])
  }

  function ClassifyAll(ls: seq<string>): (cs: seq<Line>)
    ensures |cs| == |ls| && forall i :: 0 <= i < |ls| ==> cs[i] == Classify(ls[i])
  {
    if ls == [] then [] else [Classify(ls[0])] + ClassifyAll(ls[1..])
  }

  function Texts(ls: seq<Line>): (ts: seq<string>)
    ensures |ts| == |ls| && forall i :: 0 <= i < |ls| ==> ts[i] == ls[i].text
  {
    if ls == [] then [] else [ls[0].text] + Texts(ls[1..])
  }

  predicate IsReferred(line: Line, schemas: string) {
    line.kind.Import? && line.kind.name.Some? && References(schemas, line.kind.name.value)
  }

  /** The imports whose name the schema text refers to, in order. */
  function Referred(imports: seq<Line>, schemas: string): seq<Line> {
    if imports == [] then []
    else (if IsReferred(imports[0], schemas) then [imports[0]] else []) + Referred(imports[1..], schemas)
  }

  predicate AllBlank(ls: seq<string>) { forall i :: 0 <= i < |ls| ==> IsBlank(ls[i]) }

  function Kept(s: Scan): seq<Line> { Referred(s.imports, Unlines(Texts(s.schemas))) }

  /** The lines of the stub. */
  function Render(s: Scan): seq<Line> { Assemble(Kept(s), s.schemas) }

  function Assemble(kept: seq<Line>, schemas: seq<Line>): seq<Line> {
    var out := kept + (if kept != [] && !AllBlank(Texts(schemas)) then [EMPTY] else []) + schemas;
    if out == [] then [EMPTY] else out
  }

  function ScanText(source: string): Scan {
    ScanAll(START, ClassifyAll(Lines(Decorators.StripText(source))))
  }

  function Extract(source: string): string { Unlines(Texts(Render(ScanText(source)))) }

  lemma {:induction false} TextsAppend(a: seq<Line>, b: seq<Line>)
    ensures Texts(a + b) == Texts(a) + Texts(b)
  {
  }

  // ----- the loop, over the growing text -----

  lemma {:induction false} ScanSnoc(s: Scan, ls: seq<Line>, line: Line)
    ensures ScanAll(s, ls + [line]) == Step(ScanAll(s, ls), line)
    decreases |ls|
  {
    if ls == [] {
      assert ls + [line] == [line];
      assert ScanAll(Step(s, line), []) == Step(s, line);
    } else {
      assert (ls + [line])[1..] == ls[1..] + [line];
      ScanSnoc(Step(s, ls[0]), ls[1..], line);
    }
  }

  lemma {:induction false} BlankAppend(a: string, b: string)
    ensures IsBlank(a + b) == (IsBlank(a) && IsBlank(b))
  {
    if a == [] {
      assert a + b == b;
    } else {
      assert (a + b)[1..] == a[1..] + b && (a + b)[0] == a[0];
      if IsWhitespace(a[0]) { BlankAppend(a[1..], b); }
    }
  }

  lemma {:induction false} UnlinesBlank(ls: seq<string>)
    ensures IsBlank(Unlines(ls)) == AllBlank(ls)
  {
    if ls != [] {
      UnlinesBlank(ls[1..]);
      BlankAppend(ls[0] + "\n", Unlines(ls[1..]));
      BlankAppend(ls[0], "\n");
      assert TrimStart("\n") == TrimStart("");
      AllBlankCons(ls);
    }
  }

  lemma {:induction false} AllBlankCons(ls: seq<string>)
    requires ls != []
    ensures AllBlank(ls) == (IsBlank(ls[0]) && AllBlank(ls[1..]))
  {
    if IsBlank(ls[0]) && AllBlank(ls[1..]) {
      forall i | 0 <= i < |ls| ensures IsBlank(ls[i]) {
        assert i == 0 || ls[i] == ls[1..][i - 1];
      }
    }
  }

  /** What the loop carries stands for the scan so far. */
  ghost predicate Carries(s: Scan, inSchema: bool, imports: seq<Line>, schemas: string) {
    && s.inSchema == inSchema && s.imports == imports
    && Unlines(Texts(s.schemas)) == schemas && NewlineFree(Texts(s.schemas))
  }

  /** What appending to the collected text, or leaving it, stands for. */
  lemma {:induction false} StepText(s: Scan, line: Line, schemas: string)
    requires NewlineFree(Texts(s.schemas)) && Unlines(Texts(s.schemas)) == schemas && '\n' !in line.text
    ensures EndsWith(schemas, "\n\n") == EndsBlank(s.schemas)
    ensures Unlines(Texts(s.schemas + [line])) == schemas + line.text + "\n"
    ensures Unlines(Texts(s.schemas + [EMPTY])) == schemas + "\n"
    ensures NewlineFree(Texts(Step(s, line).schemas))
  {
    var ts := Texts(s.schemas);
    UnlinesEndsBlank(ts);
    TextsSnoc(s.schemas, line);
    TextsSnoc(s.schemas, EMPTY);
  }

  /** One line, case by case as the loop distinguishes them. */
  lemma {:induction false} StepOutcome(s: Scan, text: string, inSchema: bool, imports: seq<Line>, schemas: string)
    requires Carries(s, inSchema, imports, schemas) && '\n' !in text
    ensures
      var t, trimmed := Step(s, Classify(text)), TrimStart(text);
      if inSchema && (trimmed == "" || IsIndented(text) || StartsWith(trimmed, "#")) then
        Carries(t, true, imports, schemas + text + "\n")
      else if trimmed == "" then
        Carries(t, false, imports, if EndsWith(schemas, "\n\n") then schemas else schemas + "\n")
      else if IsIndented(text) then Carries(t, false, imports, schemas)
      else if StartsWith(trimmed, "import ") then
        Carries(t, false, if BoundName(text).Some? then imports + [Classify(text)] else imports, schemas)
      else if StartsWith(trimmed, "schema ") || StartsWith(trimmed, "protocol ") then
        Carries(t, true, imports, schemas + text + "\n")
      else Carries(t, false, imports, schemas)
  {
    StepText(s, Classify(text), schemas);
    var trimmed := TrimStart(text);
    if trimmed != "" {
      FirstCharacter(trimmed);
    }
  }

  /** Comments, imports and headers differ in their first character. */
  lemma {:induction false} FirstCharacter(trimmed: string)
    requires trimmed != ""
    ensures StartsWith(trimmed, "#") ==> trimmed[0] == '#'
    ensures StartsWith(trimmed, "import ") ==> trimmed[0] == 'i'
    ensures StartsWith(trimmed, "schema ") || StartsWith(trimmed, "protocol ") ==>
              trimmed[0] == 's' || trimmed[0] == 'p'
  {
    assert "#"[0] == '#' && "import "[0] == 'i' && "schema "[0] == 's' && "protocol "[0] == 'p';
  }

  lemma {:induction false} TextsSnoc(ls: seq<Line>, line: Line)
    ensures Texts(ls + [line]) == Texts(ls) + [line.text]
    ensures Unlines(Texts(ls + [line])) == Unlines(Texts(ls)) + line.text + "\n"
  {
    assert Texts(ls + [line]) == Texts(ls) + [line.text];
    UnlinesSnoc(Texts(ls), line.text);
  }

  /** The first loop: one line after another into imports and schema text. */
  method ScanLines(lines: seq<string>) returns (imports: seq<Line>, schemas: string)
    requires NewlineFree(lines)
    ensures var s := ScanAll(START, ClassifyAll(lines));
      imports == s.imports && schemas == Unlines(Texts(s.schemas))
  {
    imports, schemas := [], "";
    var inSchema := false;
    ghost var s, cs := START, ClassifyAll(lines);
    var i := 0;
    while i < |lines|
      invariant i <= |lines|
      invariant s == ScanAll(START, cs[..i])
      invariant Carries(s, inSchema, imports, schemas)
    {
      var line := lines[i];
      var trimmedStart := TrimStart(line);
      var isBlank := trimmedStart == "";
      var isIndented := IsIndented(line);
      var isComment := StartsWith(trimmedStart, "#");
      assert cs[..i + 1] == cs[..i] + [cs[i]];
      ScanSnoc(START, cs[..i], cs[i]);
      StepOutcome(s, line, inSchema, imports, schemas);
      s := Step(s, cs[i]);
      i := i + 1;
      if inSchema {
        if isBlank || isIndented || isComment {
          schemas := schemas + line + "\n";
          continue;
        }
        inSchema := false;
      }
      if isBlank {
        if !EndsWith(schemas, "\n\n") {
          schemas := schemas + "\n";
        }
        continue;
      }
      if !isIndented {
        if StartsWith(trimmedStart, "import ") {
          if StartsWith(trimmedStart, "import charts.") {
            continue;
          }
          var alias := ImportedName(trimmedStart);
          if alias.Some? {
            imports := imports + [Classify(line)];
          }
          continue;
        }
        if StartsWith(trimmedStart, "schema ") || StartsWith(trimmedStart, "protocol ") {
          inSchema := true;
          schemas := schemas + line + "\n";
          continue;
        }
      }
    }
    assert cs[..i] == cs;
  }

  /** The second loop: the imports the schema text refers to, a line each. */
  method WriteImports(imports: seq<Line>, schemas: string) returns (out: string)
    requires AllNamed(imports)
    ensures out == Unlines(Texts(Referred(imports, schemas)))
  {
    out := "";
    ghost var kept: seq<Line> := [];
    var j := 0;
    while j < |imports|
      invariant j <= |imports|
      invariant out == Unlines(Texts(kept))
      invariant Referred(imports, schemas) == kept + Referred(imports[j..], schemas)
    {
      var line := imports[j];
      var referenced := ContainsModuleReference(schemas, line.kind.name.value);
      assert imports[j..][1..] == imports[j + 1..];
      if referenced {
        TextsSnoc(kept, line);
        kept := kept + [line];
        out := out + line.text + "\n";
      }
      j := j + 1;
    }
    assert kept + Referred(imports[j..], schemas) == kept;
  }

  ghost predicate AllNamed(imports: seq<Line>) {
    forall i :: 0 <= i < |imports| ==> imports[i].kind.Import? && imports[i].kind.name.Some?
  }

  lemma {:induction false} ImportsAreNamed(s: Scan, ls: seq<Line>)
    requires AllNamed(s.imports)
    ensures AllNamed(ScanAll(s, ls).imports)
    decreases |ls|
  {
    if ls != [] { ImportsAreNamed(Step(s, ls[0]), ls[1..]); }
  }

  method ExtractSchemas(source: string) returns (out: string)
    ensures out == Extract(source)
  {
    var stripped := Decorators.StripAkuaDecorators(source);
    var lines := Lines(stripped);
    var imports, schemas := ScanLines(lines);
    ghost var s := ScanText(source);
    ImportsAreNamed(START, ClassifyAll(lines));
    out := WriteImports(imports, schemas);
    AssembleText(Kept(s), s.schemas);
    if out != "" && !IsBlank(schemas) {
      out := out + "\n";
    }
    out := out + schemas;
    if !EndsWith(out, "\n") {
      out := out + "\n";
    }
  }

  lemma {:induction false} AssembleText(kept: seq<Line>, schemas: seq<Line>)
    ensures
      var a, b := Unlines(Texts(kept)), Unlines(Texts(schemas));
      var t := (if a != "" && !IsBlank(b) then a + "\n" else a) + b;
      Unlines(Texts(Assemble(kept, schemas))) == if EndsWith(t, "\n") then t else t + "\n"
  {
    UnlinesBlank(Texts(schemas));
    var blank := AllBlank(Texts(schemas));
    UnlinesIsEmpty(Texts(kept));
    if kept != [] && !blank {
      TextsSnoc(kept, EMPTY);
      assert Unlines(Texts(kept + [EMPTY])) == Unlines(Texts(kept)) + "\n";
      AssembleFrom(kept + [EMPTY], schemas);
    } else {
      assert kept + [] == kept;
      AssembleFrom(kept, schemas);
    }
  }

  lemma {:induction false} UnlinesIsEmpty(ls: seq<string>)
    ensures (Unlines(ls) == "") == (ls == [])
  {
  }

  lemma {:induction false} AssembleFrom(head: seq<Line>, schemas: seq<Line>)
    ensures
      var t := Unlines(Texts(head)) + Unlines(Texts(schemas));
      var out := head + schemas;
      Unlines(Texts(if out == [] then [EMPTY] else out)) == if EndsWith(t, "\n") then t else t + "\n"
  {
    TextsAppend(head, schemas);
    UnlinesAppend(Texts(head), Texts(schemas));
    UnlinesEndsWithNewline(Texts(head + schemas));
    TextsSnoc([], EMPTY);
    assert [] + [EMPTY] == [EMPTY];
  }
}
