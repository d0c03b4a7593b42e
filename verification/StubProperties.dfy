/** What `extract_schemas` keeps, and what a second extraction does to a stub. */
module StubProperties {
  import opened Text
  import opened Lexer
  import opened ModuleReference
  import opened Stub
  import Decorators

  function SourceLines(source: string): seq<string> { Lines(Decorators.StripText(source)) }

  function Min(a: nat, b: nat): nat { if a < b then a else b }

  function Blanks(n: nat): (ls: seq<Line>)
    ensures |ls| == n
  {
    if n == 0 then [] else [EMPTY] + Blanks(n - 1)
  }

  function Lead(ls: seq<Line>): (n: nat)
    ensures n <= |ls|
  {
    if ls != [] && ls[0] == EMPTY then 1 + Lead(ls[1..]) else 0
  }

  // ----- the shape of a scan -----

  /** Every line carries the class its text has. */
  ghost predicate Faithful(ls: seq<Line>) {
    forall i :: 0 <= i < |ls| ==> ls[i] == Classify(ls[i].text)
  }

  /** Schema blocks and nothing else. */
  ghost predicate SchemaTail(ls: seq<Line>) {
    (ls != [] ==> ls[0].kind.Header?) && forall i :: 0 <= i < |ls| ==> ls[i].kind.Header? || Continues(ls[i].kind)
  }

  /** A scan has collected at most two empty lines, then schema blocks. */
  ghost predicate Shaped(s: Scan, blanks: nat, tail: seq<Line>) {
    && blanks <= 2
    && s.schemas == Blanks(blanks) + tail
    && SchemaTail(tail)
    && (s.inSchema ==> tail != [])
    && AllNamed(s.imports)
  }

  lemma {:induction false} BlanksSnoc(n: nat)
    ensures Blanks(n) + [EMPTY] == Blanks(n + 1)
  {
    if n > 0 { BlanksSnoc(n - 1); }
  }

  lemma {:induction false} BlanksAreEmpty(n: nat, i: nat)
    requires i < n
    ensures Blanks(n)[i] == EMPTY
  {
    if i > 0 { BlanksAreEmpty(n - 1, i - 1); }
  }

  /** One more line: where the empty lines and the blocks collected so far go. */
  function NextBlanks(s: Scan, blanks: nat, tail: seq<Line>, line: Line): nat {
    if line.kind.Blank? && tail == [] then Min(2, blanks + 1) else blanks
  }

  function NextTail(s: Scan, tail: seq<Line>, line: Line): seq<Line> {
    if line.kind.Header? || (s.inSchema && Continues(line.kind)) then tail + [line]
    else if line.kind.Blank? && tail != [] && !EndsBlank(s.schemas) then tail + [EMPTY]
    else tail
  }

  lemma {:induction false} StepShaped(s: Scan, blanks: nat, tail: seq<Line>, line: Line)
    requires Shaped(s, blanks, tail)
    ensures Shaped(Step(s, line), NextBlanks(s, blanks, tail, line), NextTail(s, tail, line))
  {
    if line.kind.Blank? && tail == [] {
      LeadingBlankShaped(s, blanks, line);
    } else {
      assert Blanks(blanks) + (tail + [line]) == s.schemas + [line];
      assert Blanks(blanks) + (tail + [EMPTY]) == s.schemas + [EMPTY];
    }
  }

  lemma {:induction false} LeadingBlankShaped(s: Scan, blanks: nat, line: Line)
    requires Shaped(s, blanks, []) && line.kind.Blank?
    ensures Shaped(Step(s, line), Min(2, blanks + 1), [])
  {
    assert s.schemas == Blanks(blanks);
    BlanksSnoc(blanks);
    if blanks > 0 { BlanksAreEmpty(blanks, blanks - 1); }
    assert Blanks(blanks + 1) + [] == s.schemas + [EMPTY];
  }

  lemma {:induction false} ScanShaped(s: Scan, blanks: nat, tail: seq<Line>, ls: seq<Line>)
      returns (blanks': nat, tail': seq<Line>)
    requires Shaped(s, blanks, tail)
    ensures Shaped(ScanAll(s, ls), blanks', tail')
    ensures tail == [] ==> blanks' == Min(2, blanks + BlanksBeforeHeader(ls))
    ensures tail != [] ==> blanks' == blanks
    decreases |ls|
  {
    blanks', tail' := blanks, tail;
    if ls != [] {
      StepShaped(s, blanks, tail, ls[0]);
      var next, k, more := Step(s, ls[0]), NextBlanks(s, blanks, tail, ls[0]), NextTail(s, tail, ls[0]);
      blanks', tail' := ScanShaped(next, k, more, ls[1..]);
    }
  }

  /** Blank lines of a source in front of its first schema header. */
  function BlanksBeforeHeader(ls: seq<Line>): nat {
    if ls == [] || ls[0].kind.Header? then 0
    else (if ls[0].kind.Blank? then 1 else 0) + BlanksBeforeHeader(ls[1..])
  }

  lemma {:induction false} ScanAppend(s: Scan, a: seq<Line>, b: seq<Line>)
    ensures ScanAll(s, a + b) == ScanAll(ScanAll(s, a), b)
    decreases |a|
  {
    if a == [] {
      assert a + b == b;
    } else {
      assert (a + b)[1..] == a[1..] + b;
      ScanAppend(Step(s, a[0]), a[1..], b);
    }
  }

  // ----- names and references -----

  lemma {:induction false} WordPrefixHasNoSpace(s: string)
    ensures forall c :: c in WordPrefix(s) ==> !IsWhitespace(c)
  {
    if s != [] && !IsWhitespace(s[0]) { WordPrefixHasNoSpace(s[1..]); }
  }

  lemma {:induction false} AfterLastIsSuffix(s: string, p: string)
    requires AfterLast(s, p).Some?
    ensures forall c :: c in AfterLast(s, p).value ==> c in s
  {
    if s != [] && AfterLast(s[1..], p).Some? { AfterLastIsSuffix(s[1..], p); }
  }

  lemma {:induction false} BoundNameHasNoNewline(line: string)
    requires BoundName(line).Some?
    ensures '\n' !in BoundName(line).value
  {
    var importLine := TrimStart(line);
    var withoutComment := Trim(importLine[..IndexOf(importLine, '#')]);
    var target := Trim(withoutComment[|"import "|..]);
    match AfterLast(target, " as ")
    case Some(alias) => WordPrefixHasNoSpace(TrimStart(alias));
    case None =>
      var path := WordPrefix(TrimStart(target));
      WordPrefixHasNoSpace(TrimStart(target));
      if AfterLast(path, ".").Some? { AfterLastIsSuffix(path, "."); }
  }

  lemma {:induction false} TextAfterBlank(ls: seq<Line>)
    ensures Unlines(Texts([EMPTY] + ls)) == "\n" + Unlines(Texts(ls))
  {
    var ts := Texts(ls);
    assert Texts([EMPTY] + ls) == [""] + ts;
    assert ([""] + ts)[1..] == ts;
    assert "" + "\n" + Unlines(ts) == "\n" + Unlines(ts);
  }

  lemma {:induction false} ReferencesPastBlank(ls: seq<Line>, identifier: string)
    requires '\n' !in identifier
    ensures References(Unlines(Texts([EMPTY] + ls)), identifier) == References(Unlines(Texts(ls)), identifier)
  {
    TextAfterBlank(ls);
    ReferencesAfterNewline(Unlines(Texts(ls)), identifier);
  }

  lemma {:induction false} ReferencesPastBlanks(n: nat, ls: seq<Line>, identifier: string)
    requires '\n' !in identifier
    ensures References(Unlines(Texts(Blanks(n) + ls)), identifier) == References(Unlines(Texts(ls)), identifier)
  {
    if n == 0 {
      assert Blanks(0) + ls == ls;
    } else {
      ReferencesPastBlanks(n - 1, ls, identifier);
      assert Blanks(n) + ls == [EMPTY] + (Blanks(n - 1) + ls);
      ReferencesPastBlank(Blanks(n - 1) + ls, identifier);
    }
  }

  // ----- extracting twice -----

  lemma {:induction false} ScanImports(s: Scan, imports: seq<Line>)
    requires !s.inSchema && AllNamed(imports)
    ensures ScanAll(s, imports) == s.(imports := s.imports + imports)
    decreases |imports|
  {
    if imports == [] {
      assert s.imports + imports == s.imports;
    } else {
      ScanImports(Step(s, imports[0]), imports[1..]);
      assert s.imports + [imports[0]] + imports[1..] == s.imports + imports;
    }
  }

  lemma {:induction false} ScanBlanks(s: Scan, k: nat, n: nat)
    requires !s.inSchema && s.schemas == Blanks(k) && k <= 2
    ensures ScanAll(s, Blanks(n)) == s.(schemas := Blanks(Min(2, k + n)))
    decreases n
  {
    if n > 0 {
      BlanksSnoc(k);
      if k > 0 { BlanksAreEmpty(k, k - 1); }
      assert Step(s, EMPTY) == s.(schemas := Blanks(Min(2, k + 1)));
      ScanBlanks(Step(s, EMPTY), Min(2, k + 1), n - 1);
      assert Blanks(n)[1..] == Blanks(n - 1);
    }
  }

  /** Once inside a schema, schema lines are taken over verbatim. */
  lemma {:induction false} ScanVerbatim(s: Scan, ls: seq<Line>)
    requires s.inSchema && forall i :: 0 <= i < |ls| ==> ls[i].kind.Header? || Continues(ls[i].kind)
    ensures ScanAll(s, ls) == s.(schemas := s.schemas + ls)
    decreases |ls|
  {
    if ls == [] {
      assert s.schemas + ls == s.schemas;
    } else {
      ScanVerbatim(Step(s, ls[0]), ls[1..]);
      assert s.schemas + [ls[0]] + ls[1..] == s.schemas + ls;
    }
  }

  lemma {:induction false} ScanTail(s: Scan, tail: seq<Line>)
    requires !s.inSchema && SchemaTail(tail)
    ensures ScanAll(s, tail) == Scan(tail != [], s.imports, s.schemas + tail)
  {
    if tail == [] {
      assert s.schemas + tail == s.schemas;
    } else {
      ScanVerbatim(Step(s, tail[0]), tail[1..]);
      assert s.schemas + [tail[0]] + tail[1..] == s.schemas + tail;
    }
  }

  lemma {:induction false} ReferredAll(imports: seq<Line>, schemas: string)
    requires forall i :: 0 <= i < |imports| ==> IsReferred(imports[i], schemas)
    ensures Referred(imports, schemas) == imports
    decreases |imports|
  {
    if imports != [] { ReferredAll(imports[1..], schemas); }
  }

  lemma {:induction false} ReferredOnly(imports: seq<Line>, schemas: string)
    ensures forall i :: 0 <= i < |Referred(imports, schemas)| ==> IsReferred(Referred(imports, schemas)[i], schemas)
    ensures forall line :: line in Referred(imports, schemas) <==> line in imports && IsReferred(line, schemas)
    decreases |imports|
  {
    if imports != [] { ReferredOnly(imports[1..], schemas); }
  }

  /** A stub in normal form: kept imports, then empty lines, then schema blocks. */
  function Normal(kept: seq<Line>, blanks: nat, tail: seq<Line>): seq<Line> {
    kept + Blanks(blanks) + tail
  }

  /** The parts of a normal form that a scan keeps as they are. */
  ghost predicate IsNormal(kept: seq<Line>, tail: seq<Line>) {
    && SchemaTail(tail)
    && Faithful(kept) && Faithful(tail)
    && (forall i :: 0 <= i < |kept| ==> IsReferred(kept[i], Unlines(Texts(tail))))
  }

  lemma {:induction false} KeptAcrossBlanks(imports: seq<Line>, n: nat, tail: seq<Line>)
    requires Faithful(imports)
    ensures forall i :: 0 <= i < |imports| ==>
      IsReferred(imports[i], Unlines(Texts(Blanks(n) + tail))) == IsReferred(imports[i], Unlines(Texts(tail)))
  {
    forall i | 0 <= i < |imports|
      ensures IsReferred(imports[i], Unlines(Texts(Blanks(n) + tail))) == IsReferred(imports[i], Unlines(Texts(tail)))
    {
      if imports[i].kind.Import? && imports[i].kind.name.Some? {
        BoundNameHasNoNewline(imports[i].text);
        ReferencesPastBlanks(n, tail, imports[i].kind.name.value);
      }
    }
  }

  /** Scanning a stub finds its own imports and schema blocks again. */
  lemma {:induction false} ScanNormal(kept: seq<Line>, blanks: nat, tail: seq<Line>)
    requires IsNormal(kept, tail)
    ensures var t := ScanAll(START, Normal(kept, blanks, tail));
      t.schemas == Blanks(Min(2, blanks)) + tail && Kept(t) == kept
  {
    ScanAppend(START, kept + Blanks(blanks), tail);
    ScanAppend(START, kept, Blanks(blanks));
    ScanImports(START, kept);
    assert START.imports + kept == kept;
    ScanBlanks(Scan(false, kept, []), 0, blanks);
    ScanTail(Scan(false, kept, Blanks(Min(2, blanks))), tail);
    KeptAcrossBlanks(kept, Min(2, blanks), tail);
    ReferredAll(kept, Unlines(Texts(Blanks(Min(2, blanks)) + tail)));
  }

  /** Lines a stub may hold without the next pass touching them. */
  ghost predicate Clean(ls: seq<Line>) {
    forall i :: 0 <= i < |ls| ==> '\n' !in ls[i].text && !Decorators.IsUi(ls[i].text)
  }

  /** Reading a stub back gives the lines it was written from. */
  lemma {:induction false} ReadBack(ls: seq<Line>)
    requires Clean(ls) && Faithful(ls)
    ensures ClassifyAll(SourceLines(Unlines(Texts(ls)))) == ls
  {
    var ts := Texts(ls);
    LinesOfUnlines(ts);
    Decorators.LinesOfStripText(Unlines(ts));
    Decorators.StripFixesPlainLines(ts);
  }

  /** Empty lines written before the schema blocks when `blanks` were collected. */
  function Shown(kept: seq<Line>, blanks: nat, tail: seq<Line>): nat {
    if kept != [] then blanks + 1 else if blanks == 0 && tail == [] then 1 else blanks
  }

  lemma {:induction false} ReferenceIsNotBlank(s: string, identifier: string)
    requires References(s, identifier)
    ensures !IsBlank(s)
  {
    var k :| 0 <= k < |s| && ReferenceAt(s, identifier, k);
    HasNonSpace(s, k + |identifier|);
  }

  lemma {:induction false} HasNonSpace(s: string, k: nat)
    requires k < |s| && !IsWhitespace(s[k])
    ensures !IsBlank(s)
  {
    if IsWhitespace(s[0]) { HasNonSpace(s[1..], k - 1); }
  }

  lemma {:induction false} AssembleNormal(kept: seq<Line>, blanks: nat, tail: seq<Line>)
    requires IsNormal(kept, tail)
    ensures Assemble(kept, Blanks(blanks) + tail) == Normal(kept, Shown(kept, blanks, tail), tail)
  {
    var schemas := Blanks(blanks) + tail;
    if kept != [] {
      var text := Unlines(Texts(tail));
      assert IsReferred(kept[0], text);
      KeptAcrossBlanks(kept, blanks, tail);
      ReferenceIsNotBlank(Unlines(Texts(schemas)), kept[0].kind.name.value);
      UnlinesBlank(Texts(schemas));
      assert [EMPTY] + Blanks(blanks) == Blanks(blanks + 1);
      assert kept + [EMPTY] + schemas == kept + Blanks(blanks + 1) + tail;
    } else {
      assert kept + [] + schemas == schemas == kept + Blanks(blanks) + tail;
      assert Blanks(1) == [EMPTY] + Blanks(0) == [EMPTY];
    }
  }

  lemma {:induction false} NormalIsCleanAndFaithful(kept: seq<Line>, n: nat, tail: seq<Line>)
    requires Clean(kept) && Clean(tail) && Faithful(kept) && Faithful(tail)
    ensures Clean(Normal(kept, n, tail)) && Faithful(Normal(kept, n, tail))
  {
    forall i | 0 <= i < n ensures Blanks(n)[i] == EMPTY { BlanksAreEmpty(n, i); }
    assert EMPTY == Classify("");
  }

  /** Extracting from a stub in normal form: same imports, same blocks, and a number of
      empty lines between them that only the number before decides. */
  lemma {:induction false} ExtractNormal(kept: seq<Line>, n: nat, tail: seq<Line>)
    requires IsNormal(kept, tail) && Clean(kept) && Clean(tail)
    ensures Extract(Unlines(Texts(Normal(kept, n, tail)))) ==
            Unlines(Texts(Normal(kept, Shown(kept, Min(2, n), tail), tail)))
  {
    NormalIsCleanAndFaithful(kept, n, tail);
    ReadBack(Normal(kept, n, tail));
    ScanNormal(kept, n, tail);
    AssembleNormal(kept, Min(2, n), tail);
  }

  /** Every extraction yields a normal form. */
  lemma {:induction false} ExtractIsNormal(source: string) returns (kept: seq<Line>, blanks: nat, tail: seq<Line>)
    ensures IsNormal(kept, tail) && Clean(kept) && Clean(tail)
    ensures kept == Kept(ScanText(source))
    ensures blanks == Min(2, BlanksBeforeHeader(ClassifyAll(SourceLines(source))))
    ensures ScanText(source).schemas == Blanks(blanks) + tail
    ensures Extract(source) == Unlines(Texts(Normal(kept, Shown(kept, blanks, tail), tail)))
  {
    var s := ScanText(source);
    blanks, tail := ScanIsShaped(source);
    kept := Kept(s);
    ReferredOnly(s.imports, Unlines(Texts(s.schemas)));
    SubsetIsGood(kept, s.imports);
    KeptAcrossBlanks(kept, blanks, tail);
    AssembleNormal(kept, blanks, tail);
  }

  lemma {:induction false} ScanIsShaped(source: string) returns (blanks: nat, tail: seq<Line>)
    ensures Shaped(ScanText(source), blanks, tail)
    ensures blanks == Min(2, BlanksBeforeHeader(ClassifyAll(SourceLines(source))))
    ensures Clean(tail) && Faithful(tail) && Clean(ScanText(source).imports) && Faithful(ScanText(source).imports)
  {
    var ls := ClassifyAll(SourceLines(source));
    assert START.schemas == Blanks(0) + [];
    blanks, tail := ScanShaped(START, 0, [], ls);
    SourceIsClean(source);
    ScanCollects(START, ls);
    TailIsGood(blanks, tail);
  }

  lemma {:induction false} TailIsGood(blanks: nat, tail: seq<Line>)
    requires Clean(Blanks(blanks) + tail) && Faithful(Blanks(blanks) + tail)
    ensures Clean(tail) && Faithful(tail)
  {
    forall i | 0 <= i < |tail| ensures tail[i] == (Blanks(blanks) + tail)[blanks + i] {}
  }

  lemma {:induction false} SubsetIsGood(part: seq<Line>, whole: seq<Line>)
    requires Clean(whole) && Faithful(whole) && forall line :: line in part ==> line in whole
    ensures Clean(part) && Faithful(part)
  {
    forall i | 0 <= i < |part| ensures part[i] in whole {}
  }

  /** Everything collected is a line of the source or an empty line. */
  lemma {:induction false} ScanCollects(s: Scan, ls: seq<Line>)
    requires Clean(ls) && Faithful(ls)
    requires Clean(s.schemas) && Faithful(s.schemas) && Clean(s.imports) && Faithful(s.imports)
    ensures var t := ScanAll(s, ls);
      Clean(t.schemas) && Faithful(t.schemas) && Clean(t.imports) && Faithful(t.imports)
    decreases |ls|
  {
    if ls != [] {
      assert EMPTY == Classify("");
      ScanCollects(Step(s, ls[0]), ls[1..]);
    }
  }

  lemma {:induction false} SourceIsClean(source: string)
    ensures Clean(ClassifyAll(SourceLines(source)))
  {
    Decorators.LinesOfStripText(source);
    Decorators.StripPreservesLines(Lines(source));
    assert NewlineFree(SourceLines(source));
  }

  lemma {:induction false} NormalLength(kept: seq<Line>, a: nat, b: nat, tail: seq<Line>)
    requires Clean(kept) && Clean(tail) && Faithful(kept) && Faithful(tail)
    ensures (Unlines(Texts(Normal(kept, a, tail))) == Unlines(Texts(Normal(kept, b, tail)))) == (a == b)
  {
    NormalIsCleanAndFaithful(kept, a, tail);
    NormalIsCleanAndFaithful(kept, b, tail);
    ReadBack(Normal(kept, a, tail));
    ReadBack(Normal(kept, b, tail));
    assert |Normal(kept, a, tail)| == |kept| + a + |tail|;
  }

  /** A second extraction keeps the same imports in the same order and reproduces every
      schema line verbatim; at most the number of empty lines between them changes. */
  lemma {:induction false} SecondExtraction(source: string)
      returns (kept: seq<Line>, tail: seq<Line>, first: nat, second: nat)
    ensures SchemaTail(tail) && kept == Kept(ScanText(source))
    ensures Extract(source) == Unlines(Texts(Normal(kept, first, tail)))
    ensures Extract(Extract(source)) == Unlines(Texts(Normal(kept, second, tail)))
    ensures Kept(ScanText(Extract(source))) == kept
  {
    var blanks;
    kept, blanks, tail := ExtractIsNormal(source);
    first := Shown(kept, blanks, tail);
    second := Shown(kept, Min(2, first), tail);
    ExtractNormal(kept, first, tail);
    NormalIsCleanAndFaithful(kept, first, tail);
    ReadBack(Normal(kept, first, tail));
    ScanNormal(kept, first, tail);
  }

  /** Extraction is not idempotent as text: it is exactly when the stub keeps no import,
      or at least two blank lines stand before the first schema header of the source. */
  lemma {:induction false} ExtractIdempotentExactly(source: string)
    ensures Extract(Extract(source)) == Extract(source) <==>
            (Kept(ScanText(source)) == [] || BlanksBeforeHeader(ClassifyAll(SourceLines(source))) >= 2)
  {
    var kept, blanks, tail := ExtractIsNormal(source);
    var first := Shown(kept, blanks, tail);
    ExtractNormal(kept, first, tail);
    NormalLength(kept, first, Shown(kept, Min(2, first), tail), tail);
  }

  /** Three extractions reach a fixed point. */
  lemma {:induction false} ThirdExtractionIsFinal(source: string)
    ensures var third := Extract(Extract(Extract(source))); Extract(third) == third
  {
    var kept, blanks, tail := ExtractIsNormal(source);
    var n1 := Shown(kept, blanks, tail);
    var n2 := Shown(kept, Min(2, n1), tail);
    var n3 := Shown(kept, Min(2, n2), tail);
    ExtractNormal(kept, n1, tail);
    ExtractNormal(kept, n2, tail);
    ExtractNormal(kept, n3, tail);
  }

  // ----- what a stub keeps -----

  predicate IsNamedImport(line: Line) { line.kind.Import? && line.kind.name.Some? }

  function NamedImports(ls: seq<Line>): seq<Line> {
    if ls == [] then [] else (if IsNamedImport(ls[0]) then [ls[0]] else []) + NamedImports(ls[1..])
  }

  lemma {:induction false} ScanFindsImports(s: Scan, ls: seq<Line>)
    ensures ScanAll(s, ls).imports == s.imports + NamedImports(ls)
    decreases |ls|
  {
    if ls == [] {
      assert s.imports + [] == s.imports;
    } else {
      ScanFindsImports(Step(s, ls[0]), ls[1..]);
      assert s.imports + [ls[0]] + NamedImports(ls[1..]) == s.imports + ([ls[0]] + NamedImports(ls[1..]));
      assert s.imports + NamedImports(ls[1..]) == s.imports + ([] + NamedImports(ls[1..]));
    }
  }

  /** Line `i` belongs to a schema block: some header at or before it, with only blank,
      indented and comment lines since. */
  ghost predicate InBlock(ls: seq<Line>, i: nat) {
    i < |ls| && exists j :: 0 <= j <= i && ls[j].kind.Header? && forall k :: j < k <= i ==> Continues(ls[k].kind)
  }

  ghost function BlockLines(ls: seq<Line>, n: nat): seq<Line>
    requires n <= |ls|
  {
    if n == 0 then []
    else BlockLines(ls, n - 1) + if InBlock(ls, n - 1) && !ls[n - 1].kind.Blank? then [ls[n - 1]] else []
  }

  function NonBlank(ls: seq<Line>): seq<Line> {
    if ls == [] then []
    else NonBlank(ls[..|ls| - 1]) + if ls[|ls| - 1].kind.Blank? then [] else [ls[|ls| - 1]]
  }

  lemma {:induction false} InBlockNext(ls: seq<Line>, n: nat)
    requires n < |ls|
    ensures InBlock(ls, n) == (ls[n].kind.Header? || (Continues(ls[n].kind) && n > 0 && InBlock(ls, n - 1)))
  {
    if n > 0 && InBlock(ls, n - 1) && Continues(ls[n].kind) {
      var j :| 0 <= j <= n - 1 && ls[j].kind.Header? && forall k :: j < k <= n - 1 ==> Continues(ls[k].kind);
      assert forall k :: j < k <= n ==> Continues(ls[k].kind);
    }
  }

  /** The scan keeps the lines of the schema blocks, in order, and no other line with
      anything on it. */
  lemma {:induction false} ScanKeepsBlocks(ls: seq<Line>, n: nat)
    requires n <= |ls|
    ensures NonBlank(ScanAll(START, ls[..n]).schemas) == BlockLines(ls, n)
    ensures ScanAll(START, ls[..n]).inSchema == (n > 0 && InBlock(ls, n - 1))
  {
    if n > 0 {
      ScanKeepsBlocks(ls, n - 1);
      InBlockNext(ls, n - 1);
      var s := ScanAll(START, ls[..n - 1]);
      assert ls[..n] == ls[..n - 1] + [ls[n - 1]];
      ScanSnoc(START, ls[..n - 1], ls[n - 1]);
      StepKeepsBlocks(s, ls[n - 1]);
    }
  }

  /** One line: it is kept, or nothing but an empty line is added. */
  lemma {:induction false} StepKeepsBlocks(s: Scan, line: Line)
    ensures
      var inBlock := line.kind.Header? || (s.inSchema && Continues(line.kind));
      && Step(s, line).inSchema == inBlock
      && NonBlank(Step(s, line).schemas) == NonBlank(s.schemas) + if inBlock && !line.kind.Blank? then [line] else []
  {
    NonBlankSnoc(s.schemas, line);
    NonBlankSnoc(s.schemas, EMPTY);
    assert NonBlank(s.schemas) + [] == NonBlank(s.schemas);
  }

  lemma {:induction false} NonBlankSnoc(ls: seq<Line>, line: Line)
    ensures NonBlank(ls + [line]) == NonBlank(ls) + if line.kind.Blank? then [] else [line]
  {
    assert (ls + [line])[..|ls|] == ls;
  }

  /** The schema text of a stub. */
  function SchemaText(source: string): string { Unlines(Texts(ScanText(source).schemas)) }

  lemma {:induction false} StubKeepsSchemaBlocks(source: string)
    ensures var ls := ClassifyAll(SourceLines(source));
      NonBlank(ScanText(source).schemas) == BlockLines(ls, |ls|)
  {
    var ls := ClassifyAll(SourceLines(source));
    ScanKeepsBlocks(ls, |ls|);
    assert ls[..|ls|] == ls;
  }

  /** A named import of the source, `charts.*` imports being unnamed here, survives in the
      stub exactly when its name is referred to from code of the kept schema text. */
  lemma {:induction false} ImportSurvivesIffReferred(source: string, line: Line)
    requires line in ClassifyAll(SourceLines(source)) && IsNamedImport(line)
    ensures line.text in Lines(Extract(source)) <==> References(SchemaText(source), line.kind.name.value)
  {
    var kept, blanks, tail := ExtractIsNormal(source);
    var n := Shown(kept, blanks, tail);
    NormalIsCleanAndFaithful(kept, n, tail);
    LinesOfUnlines(Texts(Normal(kept, n, tail)));
    KeptAre(source);
    TextInNormal(kept, n, tail, line);
  }

  lemma {:induction false} KeptAre(source: string)
    ensures forall line :: line in Kept(ScanText(source)) <==>
      line in ClassifyAll(SourceLines(source)) && IsReferred(line, SchemaText(source))
  {
    var ls := ClassifyAll(SourceLines(source));
    ScanFindsImports(START, ls);
    NamedImportsAre(ls);
    assert START.imports + NamedImports(ls) == NamedImports(ls);
    ReferredOnly(ScanText(source).imports, SchemaText(source));
  }

  lemma {:induction false} NamedImportsAre(ls: seq<Line>)
    ensures forall line :: line in NamedImports(ls) <==> line in ls && IsNamedImport(line)
  {
    if ls != [] { NamedImportsAre(ls[1..]); }
  }

  lemma {:induction false} TextInNormal(kept: seq<Line>, n: nat, tail: seq<Line>, line: Line)
    requires IsNormal(kept, tail) && line == Classify(line.text) && line.kind.Import?
    ensures line.text in Texts(Normal(kept, n, tail)) <==> line in kept
  {
    var out := Normal(kept, n, tail);
    if line in kept {
      var i :| 0 <= i < |kept| && kept[i] == line;
      assert out[i] == line && Texts(out)[i] == line.text;
    }
    if line.text in Texts(out) {
      var i :| 0 <= i < |out| && Texts(out)[i] == line.text;
      NormalAt(kept, n, tail, i);
      assert EMPTY == Classify("");
    }
  }

  lemma {:induction false} NormalAt(kept: seq<Line>, n: nat, tail: seq<Line>, i: nat)
    requires i < |Normal(kept, n, tail)|
    ensures var line := Normal(kept, n, tail)[i];
      line in kept || line == EMPTY || exists j :: 0 <= j < |tail| && tail[j] == line
  {
    var out := Normal(kept, n, tail);
    if |kept| <= i < |kept| + n {
      BlanksAreEmpty(n, i - |kept|);
      assert out[i] == Blanks(n)[i - |kept|];
    } else if i >= |kept| + n {
      assert out[i] == tail[i - |kept| - n];
    }
  }
}
