/** The stub of a package in terms of the text of its lines: which name an import binds, and
    which lines survive. */
module StubForms {
  import opened Text
  import opened ModuleReference
  import opened Stub
  import opened StubProperties

  // ----- words and trimming -----

  /** Something without whitespace or a comment sign in it. */
  predicate IsWord(s: string) {
    s != "" && forall i :: 0 <= i < |s| ==> !IsWhitespace(s[i]) && s[i] != '#'
  }

  lemma {:induction false} TrimEndOfSpace(t: string, space: string)
    requires AllSpace(space) && (t == "" || !IsWhitespace(t[|t| - 1]))
    ensures TrimEnd(t + space) == t
  {
    if space == "" {
      assert t + space == t;
    } else {
      var s := t + space;
      assert s[..|s| - 1] == t + space[..|space| - 1];
      TrimEndOfSpace(t, space[..|space| - 1]);
    }
  }

  lemma {:induction false} TrimOfSpace(before: string, t: string, after: string)
    requires AllSpace(before) && AllSpace(after)
    requires t != "" && !IsWhitespace(t[0]) && !IsWhitespace(t[|t| - 1])
    ensures Trim(before + t + after) == t
  {
    assert before + t + after == before + (t + after);
    TrimStartOfSpace(before, t + after);
    TrimEndOfSpace(t, after);
  }

  lemma {:induction false} FirstWordIs(space: string, word: string)
    requires AllSpace(space) && IsWord(word)
    ensures FirstWord(space + word) == Some(word)
  {
    TrimStartOfSpace(space, word);
    WordPrefixOfWord(word);
  }

  lemma {:induction false} WordPrefixOfWord(word: string)
    requires forall i :: 0 <= i < |word| ==> !IsWhitespace(word[i])
    ensures WordPrefix(word) == word
  {
    if word != "" {
      WordPrefixOfWord(word[1..]);
    }
  }

  lemma {:induction false} AfterLastIs(a: string, p: string, b: string)
    requires p != "" && AfterLast((p + b)[1..], p) == None
    ensures AfterLast(a + (p + b), p) == Some(b)
  {
    if a == "" {
      assert a + (p + b) == p + b && (p + b)[|p|..] == b;
    } else {
      assert (a + (p + b))[1..] == a[1..] + (p + b);
      AfterLastIs(a[1..], p, b);
    }
  }

  lemma {:induction false} NothingAfterLast(s: string, p: string)
    requires p != "" && forall i :: 0 <= i < |s| ==> !StartsWith(s[i..], p)
    ensures AfterLast(s, p) == None
  {
    if s != "" {
      forall i | 0 <= i < |s[1..]| ensures !StartsWith(s[1..][i..], p) {
        assert s[1..][i..] == s[i + 1..];
      }
      assert s[0..] == s;
      NothingAfterLast(s[1..], p);
    }
  }

  const AS := " as "

  lemma {:induction false} NoAsInWord(space: string, word: string)
    requires AllSpace(space) && forall i :: 0 <= i < |word| ==> !IsWhitespace(word[i])
    ensures AfterLast(space + word, AS) == None
  {
    var s := space + word;
    forall i | 0 <= i < |s| ensures !StartsWith(s[i..], AS) {
      if StartsWith(s[i..], AS) {
        assert s[i + 1] == s[i..][1] == AS[1] && s[i + 3] == s[i..][3] == AS[3];
        assert !IsWhitespace(AS[1]) && IsWhitespace(AS[3]);
      }
    }
    NothingAfterLast(s, AS);
  }

  lemma {:induction false} AfterAs(path: string, space: string, alias: string)
    requires AllSpace(space) && IsWord(alias)
    ensures AfterLast(path + (AS + (space + alias)), AS) == Some(space + alias)
  {
    var rest := AS + (space + alias);
    NoAsInWord([' '] + space, alias);
    var tail := ([' '] + space) + alias;
    assert AS[0] == ' ' && AS[1] == 'a' && AS[2] == 's' && AS[3] == ' ';
    assert rest[1..] == ['a'] + (['s'] + tail);
    assert (['a'] + (['s'] + tail))[1..] == ['s'] + tail && (['s'] + tail)[1..] == tail;
    assert !StartsWith(['s'] + tail, AS) && !StartsWith(['a'] + (['s'] + tail), AS);
    assert AfterLast(['s'] + tail, AS) == None;
    AfterLastIs(path, AS, space + alias);
  }

  // ----- import lines -----

  const IMPORT := "import "

  /** A comment, or none. */
  predicate IsRemark(s: string) { s == "" || s[0] == '#' }

  /** What stands behind `import `, without the comment and the whitespace around it. */
  lemma {:induction false} TargetIs(gap: string, target: string, space: string, remark: string)
    requires AllSpace(gap) && AllSpace(space) && IsRemark(remark) && target != "" && '#' !in target
    requires !IsWhitespace(target[0]) && !IsWhitespace(target[|target| - 1])
    ensures
      var line := IMPORT + gap + target + space + remark;
      var core := Trim(line[..IndexOf(line, '#')]);
      StartsWith(core, IMPORT) && Trim(core[|IMPORT|..]) == target
  {
    var core := IMPORT + gap + target;
    var line := IMPORT + gap + target + space + remark;
    assert line == core + space + remark;
    forall k | 0 <= k < |core + space| ensures line[k] != '#' {
      assert line[k] == (core + space)[k];
      assert forall i :: 0 <= i < |target| ==> target[i] != '#';
      assert !IsWhitespace('#') && '#' !in IMPORT;
    }
    IndexOfUnique(line, '#', |core + space|);
    assert line[..|core + space|] == "" + core + space;
    assert core[0] == IMPORT[0] == 'i' && core[|core| - 1] == target[|target| - 1];
    TrimOfSpace("", core, space);
    assert core[|IMPORT|..] == gap + target + "";
    TrimOfSpace(gap, target, "");
  }

  /** An import with an alias binds the alias. */
  lemma {:induction false} AliasIsBound(gap: string, path: string, wide: string, alias: string, space: string,
                                        remark: string)
    requires AllSpace(gap) && AllSpace(wide) && AllSpace(space) && IsRemark(remark) && IsWord(path) && IsWord(alias)
    ensures ImportedName(IMPORT + gap + (path + (" as " + (wide + alias))) + space + remark) == Some(alias)
  {
    var target := path + (AS + (wide + alias));
    assert target[0] == path[0] && target[|target| - 1] == alias[|alias| - 1];
    forall i | 0 <= i < |target| ensures target[i] != '#' {
      assert !IsWhitespace('#') && AS[0] != '#' && AS[1] != '#' && AS[2] != '#' && AS[3] != '#';
    }
    TargetIs(gap, target, space, remark);
    AfterAs(path, wide, alias);
    FirstWordIs(wide, alias);
  }

  lemma {:induction false} PathIsBound(gap: string, path: string, space: string, remark: string)
    requires AllSpace(gap) && AllSpace(space) && IsRemark(remark) && IsWord(path)
    ensures ImportedName(IMPORT + gap + path + space + remark)
         == Some(match AfterLast(path, ".") case Some(last) => last case None => path)
  {
    TargetIs(gap, path, space, remark);
    NoAsInWord("", path);
    assert "" + path == path;
    FirstWordIs("", path);
  }

  /** One without binds the last segment of the module's path, */
  lemma {:induction false} SegmentIsBound(gap: string, pre: string, last: string, space: string, remark: string)
    requires AllSpace(gap) && AllSpace(space) && IsRemark(remark) && IsWord(pre + ("." + last)) && '.' !in last
    ensures ImportedName(IMPORT + gap + (pre + ("." + last)) + space + remark) == Some(last)
  {
    PathIsBound(gap, pre + ("." + last), space, remark);
    assert ("." + last)[1..] == last;
    NoDotNoSegment(last);
    AfterLastIs(pre, ".", last);
  }

  /** or the path, where that is one segment. */
  lemma {:induction false} WholePathIsBound(gap: string, path: string, space: string, remark: string)
    requires AllSpace(gap) && AllSpace(space) && IsRemark(remark) && IsWord(path) && '.' !in path
    ensures ImportedName(IMPORT + gap + path + space + remark) == Some(path)
  {
    PathIsBound(gap, path, space, remark);
    NoDotNoSegment(path);
  }

  lemma {:induction false} NoDotNoSegment(s: string)
    requires '.' !in s
    ensures AfterLast(s, ".") == None
  {
    forall i | 0 <= i < |s| ensures !StartsWith(s[i..], ".") {
      assert s[i..][0] == s[i] && s[i] in s;
    }
    NothingAfterLast(s, ".");
  }

  // ----- which imports survive -----

  lemma {:induction false} ImportIsClassified(line: string, rest: string)
    requires line == IMPORT + rest
    ensures Classify(line).kind == Import(if StartsWith(line, "import charts.") then None else ImportedName(line))
  {
    assert line[0] == IMPORT[0] == 'i';
    assert " "[0] == ' ' && "\t"[0] == '\t' && "#"[0] == '#';
    assert TrimStart(line) == line;
  }

  /** An import line is a line of the stub if and only if the name it binds is referred to in
      the schema text. */
  lemma {:induction false} NamedImportSurvivesExactly(source: string, line: string, rest: string, name: string)
    requires line in SourceLines(source) && line == IMPORT + rest && !StartsWith(line, "import charts.")
    requires ImportedName(line) == Some(name)
    ensures line in Lines(Extract(source)) <==> References(SchemaText(source), name)
  {
    ImportIsClassified(line, rest);
    var ls := SourceLines(source);
    var i :| 0 <= i < |ls| && ls[i] == line;
    assert ClassifyAll(ls)[i] == Classify(line);
    ImportSurvivesIffReferred(source, Classify(line));
  }

  function AliasedImport(path: string, alias: string, space: string, remark: string): string {
    "import " + path + " as " + alias + space + remark
  }

  function PlainImport(path: string, space: string, remark: string): string { "import " + path + space + remark }

  lemma {:induction false} Regroup(a: string, b: string, c: string, d: string, e: string, f: string)
    ensures a + b + c + d + e + f == a + (b + (c + d + e + f))
    ensures a + b + c + d + e + f == a + "" + (b + (c + ("" + d))) + e + f
  {
  }

  lemma {:induction false} AliasedImportIs(path: string, alias: string, space: string, remark: string)
    requires IsWord(path) && IsWord(alias) && AllSpace(space) && IsRemark(remark)
    ensures ImportedName(AliasedImport(path, alias, space, remark)) == Some(alias)
    ensures AliasedImport(path, alias, space, remark) == IMPORT + (path + (" as " + alias + space + remark))
  {
    AliasIsBound("", path, "", alias, space, remark);
    Regroup(IMPORT, path, " as ", alias, space, remark);
  }

  lemma {:induction false} RegroupPlain(a: string, b: string, c: string, d: string)
    ensures a + b + c + d == a + (b + (c + d)) && a + b + c + d == a + "" + b + c + d
  {
  }

  lemma {:induction false} PlainImportIs(path: string, name: string, space: string, remark: string)
    requires IsWord(path) && '.' !in name && (path == name || exists pre :: path == pre + ("." + name))
    requires AllSpace(space) && IsRemark(remark)
    ensures ImportedName(PlainImport(path, space, remark)) == Some(name)
    ensures PlainImport(path, space, remark) == IMPORT + (path + (space + remark))
  {
    RegroupPlain(IMPORT, path, space, remark);
    if path == name {
      WholePathIsBound("", path, space, remark);
    } else {
      var pre :| path == pre + ("." + name);
      SegmentIsBound("", pre, name, space, remark);
    }
  }

  /** With an alias the alias decides, whatever the module is called. */
  lemma {:induction false} AliasedImportSurvivesExactly(source: string, path: string, alias: string, space: string,
                                                        remark: string)
    requires AllSpace(space) && IsRemark(remark) && IsWord(path) && IsWord(alias) && !StartsWith(path, "charts.")
    requires AliasedImport(path, alias, space, remark) in SourceLines(source)
    ensures AliasedImport(path, alias, space, remark) in Lines(Extract(source)) <==>
            References(SchemaText(source), alias)
  {
    var line, rest := AliasedImport(path, alias, space, remark), " as " + alias + space + remark;
    AliasedImportIs(path, alias, space, remark);
    NotOfCharts(path, rest, line);
    NamedImportSurvivesExactly(source, line, path + rest, alias);
  }

  /** Without one the last segment of the path does. */
  lemma {:induction false} PlainImportSurvivesExactly(source: string, path: string, name: string, space: string,
                                                      remark: string)
    requires AllSpace(space) && IsRemark(remark) && IsWord(path) && !StartsWith(path, "charts.")
    requires '.' !in name && (path == name || exists pre :: path == pre + ("." + name))
    requires PlainImport(path, space, remark) in SourceLines(source)
    ensures PlainImport(path, space, remark) in Lines(Extract(source)) <==> References(SchemaText(source), name)
  {
    var line, rest := PlainImport(path, space, remark), space + remark;
    PlainImportIs(path, name, space, remark);
    NotOfCharts(path, rest, line);
    NamedImportSurvivesExactly(source, line, path + rest, name);
  }

  lemma {:induction false} NotOfCharts(path: string, rest: string, line: string)
    requires IsWord(path) && !StartsWith(path, "charts.") && line == IMPORT + (path + rest)
    requires rest == "" || IsWhitespace(rest[0]) || rest[0] == '#'
    ensures !StartsWith(line, "import charts.")
  {
    if StartsWith(line, "import charts.") {
      assert line[7..] == path + rest && "import charts."[7..] == "charts.";
      forall i | 0 <= i < 7 ensures (path + rest)[i] == "charts."[i] {
        assert line[i + 7] == "import charts."[i + 7];
      }
      ChartsIsInWord(path, rest);
    }
  }

  lemma {:induction false} ChartsIsInWord(path: string, rest: string)
    requires rest == "" || IsWhitespace(rest[0]) || rest[0] == '#'
    requires |path + rest| >= 7 && forall i :: 0 <= i < 7 ==> (path + rest)[i] == "charts."[i]
    ensures StartsWith(path, "charts.")
  {
    var charts := "charts.";
    assert forall i :: 0 <= i < 7 ==> !IsWhitespace(charts[i]) && charts[i] != '#';
    var n := if |path| < 7 then |path| else 0;
    assert (path + rest)[n] == charts[n];
    assert path[..7] == charts;
  }

  /** Imports of charts never survive. */
  lemma {:induction false} ChartsNeverSurvive(source: string, rest: string)
    ensures "import charts." + rest !in Lines(Extract(source))
  {
    var line := "import charts." + rest;
    assert line == IMPORT + ("charts." + rest);
    ImportIsClassified(line, "charts." + rest);
    var kept, blanks, tail := ExtractIsNormal(source);
    var n := Shown(kept, blanks, tail);
    NormalIsCleanAndFaithful(kept, n, tail);
    LinesOfUnlines(Texts(Normal(kept, n, tail)));
    TextInNormal(kept, n, tail, Classify(line));
    KeptAre(source);
  }

  /** But a second space in front of `charts.` hides it from the check: such an import survives
      like any other. */
  lemma {:induction false} WideChartsImportSurvives(source: string, last: string)
    requires IsWord("charts" + ("." + last)) && '.' !in last
    requires "import " + (" " + ("charts" + ("." + last))) in SourceLines(source)
    ensures "import " + (" " + ("charts" + ("." + last))) in Lines(Extract(source)) <==>
            References(SchemaText(source), last)
  {
    var path := "charts" + ("." + last);
    WideImportIs(path);
    SegmentIsBound(" ", "charts", last, "", "");
    NamedImportSurvivesExactly(source, "import " + (" " + path), " " + path, last);
  }

  lemma {:induction false} WideImportIs(path: string)
    ensures IMPORT + (" " + path) == IMPORT + " " + path + "" + ""
    ensures !StartsWith(IMPORT + (" " + path), "import charts.")
  {
    assert (IMPORT + (" " + path))[7] == ' ' && "import charts."[7] == 'c';
  }

  // ----- which other lines survive -----

  predicate StartsIndented(line: string) { line != "" && (line[0] == ' ' || line[0] == '\t') }

  /** Not indented, and `schema ` or `protocol ` in front. */
  ghost predicate OpensBlock(line: string) {
    !StartsIndented(line) && (Leads(line, "schema ") || Leads(line, "protocol "))
  }

  /** Blank, indented, or a comment. */
  ghost predicate StaysInBlock(line: string) { AllSpace(line) || StartsIndented(line) || Leads(line, "#") }

  lemma {:induction false} BlankIsAllSpace(line: string)
    ensures IsBlank(line) <==> AllSpace(line)
  {
    var space := TrimStartSplits(line);
    assert TrimStart(line) == "" ==> line == space;
    if AllSpace(line) {
      assert line + "" == line;
      TrimStartOfSpace(line, "");
    }
  }

  lemma {:induction false} KindsAre(line: string)
    ensures Classify(line).kind.Blank? <==> AllSpace(line)
    ensures Classify(line).kind.Header? <==> !AllSpace(line) && OpensBlock(line)
    ensures Continues(Classify(line).kind) <==> StaysInBlock(line)
    ensures Classify(line).kind.Import? <==> !AllSpace(line) && !StartsIndented(line) && Leads(line, "import ")
  {
    BlankIsAllSpace(line);
    assert " "[0] == ' ' && "\t"[0] == '\t' && "#"[0] == '#' && "import "[0] == 'i';
    assert "schema "[0] == 's' && "protocol "[0] == 'p';
    LeadsExactly(line, "#");
    LeadsExactly(line, "import ");
    LeadsExactly(line, "schema ");
    LeadsExactly(line, "protocol ");
    if TrimStart(line) != "" {
      FirstCharacter(TrimStart(line));
    }
  }

  /** Line `i` belongs to a block: one opens at it or before, and nothing ends it since. */
  ghost predicate IsBlockLine(ls: seq<string>, i: nat) {
    i < |ls| && exists j :: 0 <= j <= i && OpensBlock(ls[j]) && forall k :: j < k <= i ==> StaysInBlock(ls[k])
  }

  lemma {:induction false} BlockKindsAre(line: string)
    ensures Classify(line).kind.Header? <==> OpensBlock(line)
    ensures Continues(Classify(line).kind) <==> StaysInBlock(line)
  {
    KindsAre(line);
    LeadsExactly(line, "schema ");
    LeadsExactly(line, "protocol ");
    BlankIsAllSpace(line);
    assert "schema "[0] == 's' && "protocol "[0] == 'p';
  }

  lemma {:induction false} BlockLinesAre(ls: seq<string>, i: nat)
    requires i < |ls|
    ensures InBlock(ClassifyAll(ls), i) <==> IsBlockLine(ls, i)
  {
    var cs := ClassifyAll(ls);
    forall k | 0 <= k <= i
      ensures cs[k].kind.Header? <==> OpensBlock(ls[k])
      ensures Continues(cs[k].kind) <==> StaysInBlock(ls[k])
    {
      BlockKindsAre(ls[k]);
    }
    SameBlocks(ls, cs, i);
  }

  lemma {:induction false} SameBlocks(ls: seq<string>, cs: seq<Line>, i: nat)
    requires i < |ls| == |cs|
    requires forall k :: 0 <= k <= i ==> (cs[k].kind.Header? <==> OpensBlock(ls[k]))
    requires forall k :: 0 <= k <= i ==> (Continues(cs[k].kind) <==> StaysInBlock(ls[k]))
    ensures InBlock(cs, i) <==> IsBlockLine(ls, i)
  {
    if InBlock(cs, i) {
      var j :| 0 <= j <= i && cs[j].kind.Header? && forall k :: j < k <= i ==> Continues(cs[k].kind);
      assert OpensBlock(ls[j]) && forall k :: j < k <= i ==> StaysInBlock(ls[k]);
    }
    if IsBlockLine(ls, i) {
      var j :| 0 <= j <= i && OpensBlock(ls[j]) && forall k :: j < k <= i ==> StaysInBlock(ls[k]);
      assert cs[j].kind.Header? && forall k :: j < k <= i ==> Continues(cs[k].kind);
    }
  }

  lemma {:induction false} BlockLinesContain(ls: seq<Line>, n: nat, line: Line)
    requires n <= |ls|
    ensures line in BlockLines(ls, n) <==>
      exists i :: 0 <= i < n && ls[i] == line && InBlock(ls, i) && !line.kind.Blank?
  {
    if n > 0 {
      BlockLinesContain(ls, n - 1, line);
    }
  }

  lemma {:induction false} NonBlankContain(ls: seq<Line>, line: Line)
    ensures line in NonBlank(ls) <==> line in ls && !line.kind.Blank?
  {
    if ls != [] {
      NonBlankContain(ls[..|ls| - 1], line);
      assert ls == ls[..|ls| - 1] + [ls[|ls| - 1]];
    }
  }

  lemma {:induction false} TextInTail(kept: seq<Line>, n: nat, tail: seq<Line>, line: Line)
    requires IsNormal(kept, tail) && line == Classify(line.text) && !line.kind.Import? && !line.kind.Blank?
    ensures line.text in Texts(Normal(kept, n, tail)) <==> line in tail
  {
    var out := Normal(kept, n, tail);
    if line in tail {
      var i :| 0 <= i < |tail| && tail[i] == line;
      assert out[|kept| + n + i] == line && Texts(out)[|kept| + n + i] == line.text;
    }
    if line.text in Texts(out) {
      var i :| 0 <= i < |out| && Texts(out)[i] == line.text;
      NormalAt(kept, n, tail, i);
      assert EMPTY == Classify("");
    }
  }

  lemma {:induction false} TailHolds(blanks: nat, tail: seq<Line>, line: Line)
    requires !line.kind.Blank?
    ensures line in tail <==> line in NonBlank(Blanks(blanks) + tail)
  {
    var ls := Blanks(blanks) + tail;
    NonBlankContain(ls, line);
    if line in Blanks(blanks) {
      var i :| 0 <= i < blanks && Blanks(blanks)[i] == line;
      BlanksAreEmpty(blanks, i);
    }
  }

  lemma {:induction false} SchemaLinesSurvive(source: string, line: string)
    requires !Classify(line).kind.Import? && !Classify(line).kind.Blank?
    ensures line in Lines(Extract(source)) <==> Classify(line) in NonBlank(ScanText(source).schemas)
  {
    var kept, blanks, tail := ExtractIsNormal(source);
    var n := Shown(kept, blanks, tail);
    NormalIsCleanAndFaithful(kept, n, tail);
    LinesOfUnlines(Texts(Normal(kept, n, tail)));
    TextInTail(kept, n, tail, Classify(line));
    TailHolds(blanks, tail, Classify(line));
  }

  lemma {:induction false} BlockLinesHold(ls: seq<string>, line: string)
    requires !Classify(line).kind.Blank?
    ensures Classify(line) in BlockLines(ClassifyAll(ls), |ls|) <==>
      exists i :: 0 <= i < |ls| && ls[i] == line && IsBlockLine(ls, i)
  {
    var cs := ClassifyAll(ls);
    BlockLinesContain(cs, |ls|, Classify(line));
    forall i | 0 <= i < |ls| ensures InBlock(cs, i) <==> IsBlockLine(ls, i) {
      BlockLinesAre(ls, i);
    }
    assert forall i :: 0 <= i < |ls| ==> (cs[i] == Classify(line) <==> ls[i] == line);
  }

  /** A line with something on it that is no import is a line of the stub if and only if it is one
      of a schema or protocol block. */
  lemma {:induction false} BlockLinesSurviveExactly(source: string, line: string)
    requires !AllSpace(line) && (StartsIndented(line) || !Leads(line, "import "))
    ensures var ls := SourceLines(source);
      line in Lines(Extract(source)) <==> exists i :: 0 <= i < |ls| && ls[i] == line && IsBlockLine(ls, i)
  {
    KindsAre(line);
    SchemaLinesSurvive(source, line);
    StubKeepsSchemaBlocks(source);
    BlockLinesHold(SourceLines(source), line);
  }
}
