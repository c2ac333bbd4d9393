/**
 * What the generated index text promises, read back out of the written
 * lines: which imports, resource registrations and exports it holds, and
 * in what order.
 */
module RenderFacts {
  import opened Wrappers
  import opened JsText
  import opened Configuration
  import opened Naming
  import opened Render

  predicate StartsWith(c: string, p: string) {
    |p| <= |c| && c[..|p|] == p
  }

  predicate EndsWith(c: string, q: string) {
    |q| <= |c| && c[|c| - |q|..] == q
  }

  /** The text between the prefix `p` and the suffix `q`, when `c` has both. */
  function Strip(c: string, p: string, q: string): (r: Option<string>)
    ensures r.Some? ==> c == p + r.value + q
  {
    if |p| + |q| <= |c| && StartsWith(c, p) && EndsWith(c, q) then
      assert c == c[..|p|] + c[|p|..|c| - |q|] + c[|c| - |q|..];
      Some(c[|p|..|c| - |q|])
    else None
  }

  lemma StripOf(p: string, x: string, q: string)
    ensures Strip(p + x + q, p, q) == Some(x)
  {
    var c := p + x + q;
    assert c[..|p|] == p;
    assert c[|c| - |q|..] == q;
    assert c[|p|..|c| - |q|] == x;
  }

  lemma StripPrefixMismatch(c: string, p: string, q: string, k: nat)
    requires k < |p| && k < |c| && c[k] != p[k]
    ensures Strip(c, p, q).None?
  {
    if |p| <= |c| {
      assert c[..|p|][k] == c[k];
    }
  }

  lemma StripSuffixMismatch(c: string, p: string, q: string, k: nat)
    requires 1 <= k <= |q| && k <= |c| && c[|c| - k] != q[|q| - k]
    ensures Strip(c, p, q).None?
  {
    if |q| <= |c| {
      assert c[|c| - |q|..][|q| - k] == c[|c| - k];
    }
  }

  /** The values `f` reads out of the chunks it recognises, in order. */
  function Parsed(f: string -> Option<string>, cs: seq<string>): seq<string> {
    if |cs| == 0 then []
    else
      var r := f(cs[|cs| - 1]);
      Parsed(f, cs[..|cs| - 1]) + (if r.Some? then [r.value] else [])
  }

  lemma {:induction false} ParsedAppend(f: string -> Option<string>, a: seq<string>, b: seq<string>)
    ensures Parsed(f, a + b) == Parsed(f, a) + Parsed(f, b)
    decreases |b|
  {
    if |b| > 0 {
      ParsedAppend(f, a, b[..|b| - 1]);
      assert (a + b)[..|a + b| - 1] == a + b[..|b| - 1];
    } else {
      assert a + b == a;
    }
  }

  lemma {:induction false} ParsedNone(f: string -> Option<string>, a: seq<string>)
    requires forall i :: 0 <= i < |a| ==> f(a[i]).None?
    ensures Parsed(f, a) == []
    decreases |a|
  {
    if |a| > 0 {
      ParsedNone(f, a[..|a| - 1]);
    }
  }

  lemma {:induction false} ParsedAll(f: string -> Option<string>, a: seq<string>, r: seq<string>)
    requires |a| == |r| && forall i :: 0 <= i < |a| ==> f(a[i]) == Some(r[i])
    ensures Parsed(f, a) == r
    decreases |a|
  {
    if |a| > 0 {
      ParsedAll(f, a[..|a| - 1], r[..|r| - 1]);
      assert r == r[..|r| - 1] + [r[|r| - 1]];
    }
  }

  /** Every wrapped module name ends in a quote or a closing parenthesis. */
  lemma WrapLast(id: string, config: Config)
    ensures var w := WrapModuleName(id, config); |w| > 0 && (w[|w| - 1] == '\'' || w[|w| - 1] == ')')
    ensures var w := WrapModuleName(id, config); w[0] == '\'' || w[0] == 'P'
  {
  }

  // The characters that tell the kinds of line apart.

  lemma ImportLineShape(name: string)
    ensures var c := ImportLine(name); |c| >= 2 && c[0] == 'i' && c[|c| - 2] == ';'
  {
  }

  lemma ArrayEntryShape(id: string, config: Config, comma: bool)
    ensures var c := ArrayEntry(id, config, comma);
      |c| >= 3 && c[0] == ' ' && c[1] == ' ' && (c[2] == '\'' || c[2] == 'P')
      && (c[|c| - 2] == ',' || c[|c| - 2] == '\'' || c[|c| - 2] == ')')
  {
    WrapLast(id, config);
    var w := WrapModuleName(id, config);
    var c := ArrayEntry(id, config, comma);
    assert c[2] == w[0];
  }

  lemma ForEachLineShape(name: string)
    ensures var c := ForEachLine(name); |c| >= 2 && c[|c| - 2] == '{'
  {
  }

  lemma PushLineShape(name: string, level: int)
    ensures var c := PushLine(name, level); |c| >= 3 && c[0] == ' ' && c[2] == 'r' && c[|c| - 2] == ';'
  {
  }

  lemma GlobalCallShape(id: string, config: Config)
    ensures var c := GlobalCall(id, config);
      |c| >= 4 && c[0] == ' ' && c[2] == 'c' && c[|c| - 2] == ';' && (c[|c| - 4] == '\'' || c[|c| - 4] == ')')
  {
    WrapLast(id, config);
  }

  lemma ConfigCallShape(name: string)
    ensures var c := ConfigCall(name); |c| >= 4 && c[0] == ' ' && c[|c| - 2] == ';' && c[|c| - 4] == 'g'
  {
  }

  /** The chunks before the body, and the body, as parts of the whole. */
  lemma ChunksParts(header: bool, imports: seq<string>, ids: seq<string>, config: Config, level: int)
    ensures Chunks(header, imports, ids, config, level)
         == HeaderChunks(header) + PalChunks(ids, config) + ImportChunks(imports) + Body(imports, ids, config, level)
  {
  }

  /**
   * The class version differs from the folder-function version only by the
   * generated-file comment in front.
   */
  lemma ClassAddsHeader(imports: seq<string>, ids: seq<string>, config: Config, level: int)
    ensures Chunks(true, imports, ids, config, level) == [Header] + Chunks(false, imports, ids, config, level)
    ensures IndexText(true, imports, ids, config, level) == Header + IndexText(false, imports, ids, config, level)
  {
    ChunksParts(true, imports, ids, config, level);
    ChunksParts(false, imports, ids, config, level);
    PrependParts([Header], PalChunks(ids, config), ImportChunks(imports), Body(imports, ids, config, level));
    var rest := Chunks(false, imports, ids, config, level);
    ConcatAppend([Header], rest);
    assert Concat([Header]) == Header + Concat([]);
  }

  lemma PrependParts(h: seq<string>, p: seq<string>, m: seq<string>, b: seq<string>)
    ensures h + p + m + b == h + ([] + p + m + b)
  {
  }

  function MatchLine(line: string): string -> Option<string> {
    c => if c == line then Some(c) else None
  }

  /**
   * Reads the subfolder back out of an import line: the text after the
   * first '/' and before `/index';`.
   */
  function ParseImportLine(c: string): Option<string> {
    match Strip(c, "import ", "/index';\n")
    case Some(m) => if '/' in m then Some(m[IndexOf(m, '/') + 1..]) else None
    case None => None
  }

  /** Subfolder names hold no '/', so the import line gives its subfolder back. */
  lemma ImportLineParses(name: string)
    requires '/' !in name
    ensures ParseImportLine(ImportLine(name)) == Some(name)
  {
    var camel := ToCamelCase(name);
    ToCamelCaseKeeps(name, '/');
    var a := camel + " from '.";
    var m := a + "/" + name;
    ImportLineText(camel, name);
    StripOf("import ", m, "/index';\n");
    assert '/' !in a by {
      assert forall i :: 0 <= i < |a| ==> a[i] == if i < |camel| then camel[i] else " from '."[i - |camel|];
    }
    AfterFirstSlash(a, name);
  }

  lemma ImportLineText(camel: string, name: string)
    ensures "import " + camel + " from './" + name + "/index';\n"
         == "import " + (camel + " from '." + "/" + name) + "/index';\n"
  {
    assert " from './" == " from '." + "/";
  }

  /** The text after the first '/' of `a + "/" + b`, where `a` holds no '/', is `b`. */
  lemma AfterFirstSlash(a: string, b: string)
    requires '/' !in a
    ensures var m := a + "/" + b; '/' in m && m[IndexOf(m, '/') + 1..] == b
  {
    var m := a + "/" + b;
    assert m[|a|] == '/';
    var k := IndexOf(m, '/');
    assert m[..|a|] == a;
    assert k == |a|;
    assert m[k + 1..] == b;
  }

  lemma NotImportLine(c: string)
    requires |c| == 0 || c[0] != 'i' || |c| < 2 || c[|c| - 2] != ';'
    ensures ParseImportLine(c).None?
  {
    if |c| > 0 && c[0] != 'i' {
      StripPrefixMismatch(c, "import ", "/index';\n", 0);
    } else if |c| >= 2 && c[|c| - 2] != ';' {
      StripSuffixMismatch(c, "import ", "/index';\n", 2);
    }
  }

  lemma BodyNotImport(imports: seq<string>, ids: seq<string>, config: Config, level: int)
    ensures Parsed(ParseImportLine, Body(imports, ids, config, level)) == []
  {
    var f := ParseImportLine;
    forall i | 0 <= i < |imports|
      ensures f(ForEachLine(imports[i])).None? && f(PushLine(imports[i], level)).None? && f(ConfigCall(imports[i])).None?
    {
      ForEachLineShape(imports[i]);
      PushLineShape(imports[i], level);
      ConfigCallShape(imports[i]);
      NotImportLine(ForEachLine(imports[i]));
      NotImportLine(PushLine(imports[i], level));
      NotImportLine(ConfigCall(imports[i]));
    }
    forall i | 0 <= i < |ids|
      ensures f(ArrayEntry(ids[i], config, i + 1 < |ids|)).None? && f(GlobalCall(ids[i], config)).None?
    {
      ArrayEntryShape(ids[i], config, i + 1 < |ids|);
      GlobalCallShape(ids[i], config);
      NotImportLine(ArrayEntry(ids[i], config, i + 1 < |ids|));
      NotImportLine(GlobalCall(ids[i], config));
    }
    if IsSingle(config) {
      NotImportLine(ArrayOpen);
      NotImportLine(ArrayClose);
      NotImportLine(EmptyArray);
      NotImportLine(ForEachClose);
      NotImportLine(ExportResources);
      NotImportLine(ConfigureOpen);
      NotImportLine(ConfigureAll);
      NotImportLine(ConfigureClose);
      ArrayChunksNone(f, ids, config);
      FlattenNone(f, imports, level);
      SingleEndParsed(f, level);
      BodySingle(f, imports, ids, config, level);
    } else {
      NotImportLine(MultiOpen);
      NotImportLine(MultiClose);
      NotImportLine(ExportConfigure);
      GlobalCallsNone(f, ids, config);
      ConfigCallsNone(f, imports);
      MultiEndsParsed(f);
      BodyMulti(f, imports, ids, config, level);
    }
  }

  /** What a parser reads out of the whole index is what it reads out of each part, in order. */
  lemma ParsedSections(f: string -> Option<string>, header: bool, imports: seq<string>, ids: seq<string>,
                       config: Config, level: int)
    ensures Parsed(f, Chunks(header, imports, ids, config, level))
         == Parsed(f, HeaderChunks(header)) + Parsed(f, PalChunks(ids, config))
            + Parsed(f, ImportChunks(imports)) + Parsed(f, Body(imports, ids, config, level))
  {
    var h := HeaderChunks(header);
    var p := PalChunks(ids, config);
    var m := ImportChunks(imports);
    var b := Body(imports, ids, config, level);
    ChunksParts(header, imports, ids, config, level);
    ParsedAppend(f, h, p);
    ParsedAppend(f, h + p, m);
    ParsedAppend(f, h + p + m, b);
  }

  lemma PreambleNotImport(header: bool, ids: seq<string>, config: Config)
    ensures Parsed(ParseImportLine, HeaderChunks(header)) == []
    ensures Parsed(ParseImportLine, PalChunks(ids, config)) == []
  {
    NotImportLine(Header);
    NotImportLine(PalImport);
    ParsedNone(ParseImportLine, HeaderChunks(header));
    ParsedNone(ParseImportLine, PalChunks(ids, config));
  }

  lemma ImportChunksParse(imports: seq<string>)
    requires forall i :: 0 <= i < |imports| ==> '/' !in imports[i]
    ensures Parsed(ParseImportLine, ImportChunks(imports)) == imports
  {
    if |imports| > 0 {
      var m := ImportLines(imports);
      forall i | 0 <= i < |imports|
        ensures ParseImportLine(m[i]) == Some(imports[i])
      {
        ImportLineParses(imports[i]);
      }
      ParsedAll(ParseImportLine, m, imports);
      NotImportLine("\n");
      ParsedNone(ParseImportLine, ["\n"]);
      ParsedAppend(ParseImportLine, m, ["\n"]);
    }
  }

  /**
   * Reading the import lines back out of the index gives exactly the
   * subfolders, each once, in listing order.
   */
  lemma ImportLinesAreSubfolders(header: bool, imports: seq<string>, ids: seq<string>, config: Config, level: int)
    requires forall i :: 0 <= i < |imports| ==> '/' !in imports[i]
    ensures Parsed(ParseImportLine, Chunks(header, imports, ids, config, level)) == imports
  {
    PreambleNotImport(header, ids, config);
    ImportChunksParse(imports);
    BodyNotImport(imports, ids, config, level);
    ParsedSections(ParseImportLine, header, imports, ids, config, level);
  }

  // Generic facts about the sections of the index.

  lemma BodySingle(f: string -> Option<string>, imports: seq<string>, ids: seq<string>, config: Config, level: int)
    requires IsSingle(config)
    ensures Parsed(f, Body(imports, ids, config, level))
         == Parsed(f, ArrayChunks(ids, config)) + Parsed(f, FlattenBlocks(imports, level)) + Parsed(f, SingleEnd(level))
  {
    var a := ArrayChunks(ids, config);
    var b := FlattenBlocks(imports, level);
    ParsedAppend(f, a, b);
    ParsedAppend(f, a + b, SingleEnd(level));
  }

  lemma BodyMulti(f: string -> Option<string>, imports: seq<string>, ids: seq<string>, config: Config, level: int)
    requires !IsSingle(config)
    ensures Parsed(f, Body(imports, ids, config, level))
         == Parsed(f, [MultiOpen]) + Parsed(f, GlobalCalls(ids, config)) + Parsed(f, ConfigCalls(imports))
            + Parsed(f, [MultiClose, ExportConfigure])
  {
    var a := [MultiOpen];
    var b := GlobalCalls(ids, config);
    var c := ConfigCalls(imports);
    ParsedAppend(f, a, b);
    ParsedAppend(f, a + b, c);
    ParsedAppend(f, a + b + c, [MultiClose, ExportConfigure]);
  }

  lemma ImportChunksNone(f: string -> Option<string>, imports: seq<string>)
    requires f("\n").None?
    requires forall i :: 0 <= i < |imports| ==> f(ImportLine(imports[i])).None?
    ensures Parsed(f, ImportChunks(imports)) == []
  {
    if |imports| > 0 {
      ParsedNone(f, ImportLines(imports));
      ParsedOne(f, "\n");
      ParsedAppend(f, ImportLines(imports), ["\n"]);
    }
  }

  /** The array lines that do not depend on the module ids. */
  function FixedArray(ids: seq<string>): seq<string> {
    if |ids| > 0 then [ArrayOpen, ArrayClose] else [EmptyArray]
  }

  lemma ArrayEntriesNone(f: string -> Option<string>, ids: seq<string>, config: Config)
    requires forall i :: 0 <= i < |ids| ==> f(ArrayEntry(ids[i], config, i + 1 < |ids|)).None?
    ensures Parsed(f, ArrayChunks(ids, config)) == Parsed(f, FixedArray(ids))
  {
    if |ids| > 0 {
      var e := ArrayEntries(ids, config);
      ParsedNone(f, e);
      ParsedAppend(f, [ArrayOpen], e);
      ParsedAppend(f, [ArrayOpen] + e, [ArrayClose]);
      ParsedAppend(f, [ArrayOpen], [ArrayClose]);
      assert [ArrayOpen] + [ArrayClose] == [ArrayOpen, ArrayClose];
    }
  }

  lemma ArrayChunksNone(f: string -> Option<string>, ids: seq<string>, config: Config)
    requires f(ArrayOpen).None? && f(ArrayClose).None? && f(EmptyArray).None?
    requires forall i :: 0 <= i < |ids| ==> f(ArrayEntry(ids[i], config, i + 1 < |ids|)).None?
    ensures Parsed(f, ArrayChunks(ids, config)) == []
  {
    ArrayEntriesNone(f, ids, config);
    ParsedNone(f, FixedArray(ids));
  }

  lemma {:induction false} FlattenNone(f: string -> Option<string>, imports: seq<string>, level: int)
    requires f(ForEachClose).None?
    requires forall i :: 0 <= i < |imports| ==> f(ForEachLine(imports[i])).None? && f(PushLine(imports[i], level)).None?
    ensures Parsed(f, FlattenBlocks(imports, level)) == []
    decreases |imports|
  {
    if |imports| > 0 {
      var p := imports[..|imports| - 1];
      var n := imports[|imports| - 1];
      assert forall i :: 0 <= i < |p| ==> p[i] == imports[i];
      FlattenNone(f, p, level);
      ParsedNone(f, FlattenBlock(n, level));
      ParsedAppend(f, FlattenBlocks(p, level), FlattenBlock(n, level));
    }
  }

  lemma GlobalCallsNone(f: string -> Option<string>, ids: seq<string>, config: Config)
    requires forall i :: 0 <= i < |ids| ==> f(GlobalCall(ids[i], config)).None?
    ensures Parsed(f, GlobalCalls(ids, config)) == []
  {
    ParsedNone(f, GlobalCalls(ids, config));
  }

  lemma ConfigCallsNone(f: string -> Option<string>, imports: seq<string>)
    requires forall i :: 0 <= i < |imports| ==> f(ConfigCall(imports[i])).None?
    ensures Parsed(f, ConfigCalls(imports)) == []
  {
    ParsedNone(f, ConfigCalls(imports));
  }

  // `config.globalResources(resources)` at the top level.

  function Opt(o: Option<string>): seq<string> {
    if o.Some? then [o.value] else []
  }

  lemma ParsedOne(f: string -> Option<string>, a: string)
    ensures Parsed(f, [a]) == Opt(f(a))
  {
    assert [a][..0] == [];
  }

  lemma ParsedTwo(f: string -> Option<string>, a: string, b: string)
    ensures Parsed(f, [a, b]) == Opt(f(a)) + Opt(f(b))
  {
    assert [a, b][..1] == [a];
    ParsedOne(f, a);
  }

  lemma ParsedThree(f: string -> Option<string>, a: string, b: string, c: string)
    ensures Parsed(f, [a, b, c]) == Opt(f(a)) + Opt(f(b)) + Opt(f(c))
  {
    assert [a, b, c][..2] == [a, b];
    ParsedTwo(f, a, b);
  }

  lemma SingleEndParsed(f: string -> Option<string>, level: int)
    ensures Parsed(f, SingleEnd(level))
         == if level != 0 then Opt(f(ExportResources))
            else Opt(f(ConfigureOpen)) + Opt(f(ConfigureAll)) + Opt(f(ConfigureClose))
  {
    if level != 0 {
      ParsedOne(f, ExportResources);
    } else {
      ParsedThree(f, ConfigureOpen, ConfigureAll, ConfigureClose);
    }
  }

  lemma MultiEndsParsed(f: string -> Option<string>)
    ensures Parsed(f, [MultiOpen]) == Opt(f(MultiOpen))
    ensures Parsed(f, [MultiClose, ExportConfigure]) == Opt(f(MultiClose)) + Opt(f(ExportConfigure))
  {
    ParsedOne(f, MultiOpen);
    ParsedTwo(f, MultiClose, ExportConfigure);
  }

  lemma PreambleParsed(f: string -> Option<string>, header: bool, ids: seq<string>, config: Config)
    ensures Parsed(f, HeaderChunks(header)) == if header then Opt(f(Header)) else []
    ensures Parsed(f, PalChunks(ids, config)) == if |ids| > 0 && config.pal then Opt(f(PalImport)) else []
  {
    ParsedOne(f, Header);
    ParsedOne(f, PalImport);
  }

  /** The lines of the body that do not depend on the subfolders or the module ids. */
  function FixedBody(ids: seq<string>, config: Config, level: int): seq<string> {
    if IsSingle(config) then FixedArray(ids) + SingleEnd(level) else [MultiOpen, MultiClose, ExportConfigure]
  }

  /** A parser that reads none of the per-name lines reads from the body what it reads from its fixed lines. */
  lemma BodyNone(f: string -> Option<string>, imports: seq<string>, ids: seq<string>, config: Config, level: int)
    requires f(ForEachClose).None?
    requires forall i :: 0 <= i < |imports| ==>
      f(ForEachLine(imports[i])).None? && f(PushLine(imports[i], level)).None? && f(ConfigCall(imports[i])).None?
    requires forall i :: 0 <= i < |ids| ==>
      f(ArrayEntry(ids[i], config, i + 1 < |ids|)).None? && f(GlobalCall(ids[i], config)).None?
    ensures Parsed(f, Body(imports, ids, config, level)) == Parsed(f, FixedBody(ids, config, level))
  {
    if IsSingle(config) {
      SingleBodyNone(f, imports, ids, config, level);
    } else {
      MultiBodyNone(f, imports, ids, config, level);
    }
  }

  lemma SingleBodyNone(f: string -> Option<string>, imports: seq<string>, ids: seq<string>, config: Config, level: int)
    requires IsSingle(config) && f(ForEachClose).None?
    requires forall i :: 0 <= i < |imports| ==> f(ForEachLine(imports[i])).None? && f(PushLine(imports[i], level)).None?
    requires forall i :: 0 <= i < |ids| ==> f(ArrayEntry(ids[i], config, i + 1 < |ids|)).None?
    ensures Parsed(f, Body(imports, ids, config, level)) == Parsed(f, FixedBody(ids, config, level))
  {
    ArrayEntriesNone(f, ids, config);
    FlattenNone(f, imports, level);
    BodySingle(f, imports, ids, config, level);
    ParsedAppend(f, FixedArray(ids), SingleEnd(level));
    DropEmpty(Parsed(f, ArrayChunks(ids, config)), Parsed(f, FlattenBlocks(imports, level)), Parsed(f, SingleEnd(level)));
  }

  lemma DropEmpty(x: seq<string>, y: seq<string>, z: seq<string>)
    requires y == []
    ensures x + y + z == x + z
  {
  }

  lemma MultiBodyNone(f: string -> Option<string>, imports: seq<string>, ids: seq<string>, config: Config, level: int)
    requires !IsSingle(config)
    requires forall i :: 0 <= i < |imports| ==> f(ConfigCall(imports[i])).None?
    requires forall i :: 0 <= i < |ids| ==> f(GlobalCall(ids[i], config)).None?
    ensures Parsed(f, Body(imports, ids, config, level)) == Parsed(f, FixedBody(ids, config, level))
  {
    GlobalCallsNone(f, ids, config);
    ConfigCallsNone(f, imports);
    BodyMulti(f, imports, ids, config, level);
    DropMiddle(Parsed(f, [MultiOpen]), Parsed(f, GlobalCalls(ids, config)), Parsed(f, ConfigCalls(imports)),
               Parsed(f, [MultiClose, ExportConfigure]));
    ParsedAppend(f, [MultiOpen], [MultiClose, ExportConfigure]);
    assert [MultiOpen] + [MultiClose, ExportConfigure] == [MultiOpen, MultiClose, ExportConfigure];
  }

  lemma DropMiddle(a: seq<string>, b: seq<string>, c: seq<string>, d: seq<string>)
    requires b == [] && c == []
    ensures a + b + c + d == a + d
  {
  }

  /** No per-name line equals a line that has none of their shapes. */
  lemma MatchLineLines(line: string, imports: seq<string>, ids: seq<string>, config: Config, level: int)
    requires |line| >= 4 && line[|line| - 2] != '{'
    requires line[0] != 'i' || line[|line| - 2] != ';'
    requires line[0] != ' ' || (&& line[2] != 'r' && line[2] != '\'' && line[2] != 'P'
                                && line[|line| - 4] != 'g' && line[|line| - 4] != '\'' && line[|line| - 4] != ')')
    ensures forall i :: 0 <= i < |imports| ==>
      && ForEachLine(imports[i]) != line && PushLine(imports[i], level) != line
      && ConfigCall(imports[i]) != line && ImportLine(imports[i]) != line
    ensures forall i :: 0 <= i < |ids| ==> ArrayEntry(ids[i], config, i + 1 < |ids|) != line && GlobalCall(ids[i], config) != line
  {
    forall i | 0 <= i < |imports|
      ensures ForEachLine(imports[i]) != line && PushLine(imports[i], level) != line
      ensures ConfigCall(imports[i]) != line && ImportLine(imports[i]) != line
    {
      ForEachLineShape(imports[i]);
      PushLineShape(imports[i], level);
      ConfigCallShape(imports[i]);
      ImportLineShape(imports[i]);
    }
    forall i | 0 <= i < |ids|
      ensures ArrayEntry(ids[i], config, i + 1 < |ids|) != line && GlobalCall(ids[i], config) != line
    {
      ArrayEntryShape(ids[i], config, i + 1 < |ids|);
      GlobalCallShape(ids[i], config);
    }
  }

  /**
   * Matching one line that has none of the per-name lines' shapes, the
   * body reads only its fixed lines and the import block nothing.
   */
  lemma MatchLineBody(line: string, imports: seq<string>, ids: seq<string>, config: Config, level: int)
    requires |line| >= 4 && line != ForEachClose && line[|line| - 2] != '{'
    requires line[0] != 'i' || line[|line| - 2] != ';'
    requires line[0] != ' ' || (&& line[2] != 'r' && line[2] != '\'' && line[2] != 'P'
                                && line[|line| - 4] != 'g' && line[|line| - 4] != '\'' && line[|line| - 4] != ')')
    ensures Parsed(MatchLine(line), Body(imports, ids, config, level)) == Parsed(MatchLine(line), FixedBody(ids, config, level))
    ensures Parsed(MatchLine(line), ImportChunks(imports)) == []
  {
    MatchLineLines(line, imports, ids, config, level);
    BodyNone(MatchLine(line), imports, ids, config, level);
    ImportChunksNone(MatchLine(line), imports);
  }

  lemma AllEmpty(a: seq<string>, b: seq<string>, c: seq<string>)
    requires a == [] && b == [] && c == []
    ensures a + b + c == []
  {
  }

  /** What matching `line` reads out of the whole index, from what it reads out of each part. */
  lemma MatchLineSections(line: string, header: bool, imports: seq<string>, ids: seq<string>, config: Config, level: int)
    requires |line| >= 4 && line != ForEachClose && line[|line| - 2] != '{'
    requires line[0] != 'i' || line[|line| - 2] != ';'
    requires line[0] != ' ' || (&& line[2] != 'r' && line[2] != '\'' && line[2] != 'P'
                                && line[|line| - 4] != 'g' && line[|line| - 4] != '\'' && line[|line| - 4] != ')')
    requires line != Header
    ensures Parsed(MatchLine(line), Chunks(header, imports, ids, config, level))
         == Parsed(MatchLine(line), PalChunks(ids, config)) + Parsed(MatchLine(line), FixedBody(ids, config, level))
  {
    var f := MatchLine(line);
    MatchLineBody(line, imports, ids, config, level);
    ParsedSections(f, header, imports, ids, config, level);
    ParsedNone(f, HeaderChunks(header));
    DropTwo(Parsed(f, HeaderChunks(header)), Parsed(f, PalChunks(ids, config)), Parsed(f, ImportChunks(imports)),
            Parsed(f, Body(imports, ids, config, level)));
  }

  lemma DropTwo(h: seq<string>, p: seq<string>, m: seq<string>, b: seq<string>)
    requires h == [] && m == []
    ensures h + p + m + b == p + b
  {
  }

  lemma FixedBodyNone(line: string, ids: seq<string>, config: Config, level: int)
    requires line !in [ArrayOpen, ArrayClose, EmptyArray, ExportResources, ConfigureOpen, ConfigureAll, ConfigureClose,
                       MultiOpen, MultiClose, ExportConfigure]
    ensures Parsed(MatchLine(line), FixedBody(ids, config, level)) == []
  {
    var f := MatchLine(line);
    if IsSingle(config) {
      ParsedNone(f, FixedArray(ids));
      ParsedNone(f, SingleEnd(level));
      ParsedAppend(f, FixedArray(ids), SingleEnd(level));
    } else {
      ParsedNone(f, FixedBody(ids, config, level));
    }
  }

  /**
   * The PLATFORM import is written once when `pal` is set and there is at
   * least one resource, and not at all otherwise.
   */
  lemma PalImportOnlyWithResources(header: bool, imports: seq<string>, ids: seq<string>, config: Config, level: int)
    ensures Parsed(MatchLine(PalImport), Chunks(header, imports, ids, config, level))
         == if config.pal && |ids| > 0 then [PalImport] else []
  {
    var f := MatchLine(PalImport);
    MatchLineSections(PalImport, header, imports, ids, config, level);
    PalNotFixed();
    FixedBodyNone(PalImport, ids, config, level);
    ParsedAll(f, PalChunks(ids, config), PalChunks(ids, config));
    DropEmpty(Parsed(f, PalChunks(ids, config)), [], []);
  }

  lemma PalNotFixed()
    ensures PalImport !in [ArrayOpen, ArrayClose, EmptyArray, ExportResources, ConfigureOpen, ConfigureAll, ConfigureClose,
                           MultiOpen, MultiClose, ExportConfigure]
  {
  }

  lemma ConfigureAllFixed(ids: seq<string>, config: Config, level: int)
    ensures Parsed(MatchLine(ConfigureAll), FixedBody(ids, config, level))
         == if IsSingle(config) && level == 0 then [ConfigureAll] else []
  {
    var f := MatchLine(ConfigureAll);
    if IsSingle(config) {
      ParsedNone(f, FixedArray(ids));
      if level != 0 {
        ParsedNone(f, SingleEnd(level));
      } else {
        ParsedThree(f, ConfigureOpen, ConfigureAll, ConfigureClose);
      }
      ParsedAppend(f, FixedArray(ids), SingleEnd(level));
    } else {
      ParsedNone(f, FixedBody(ids, config, level));
    }
  }

  /**
   * The resources are registered with `config.globalResources(resources)`
   * once in a single-mode top-level index and nowhere else.
   */
  lemma ConfigureRegistersOnce(header: bool, imports: seq<string>, ids: seq<string>, config: Config, level: int)
    ensures Parsed(MatchLine(ConfigureAll), Chunks(header, imports, ids, config, level))
         == if IsSingle(config) && level == 0 then [ConfigureAll] else []
  {
    var f := MatchLine(ConfigureAll);
    MatchLineSections(ConfigureAll, header, imports, ids, config, level);
    ParsedNone(f, PalChunks(ids, config));
    ConfigureAllFixed(ids, config, level);
  }

  // The empty array.

  lemma EmptyArrayFixed(ids: seq<string>, config: Config, level: int)
    ensures Parsed(MatchLine(EmptyArray), FixedBody(ids, config, level))
         == if IsSingle(config) && |ids| == 0 then [EmptyArray] else []
  {
    var f := MatchLine(EmptyArray);
    if IsSingle(config) {
      ParsedNone(f, SingleEnd(level));
      if |ids| > 0 {
        ParsedNone(f, FixedArray(ids));
      } else {
        ParsedOne(f, EmptyArray);
      }
      ParsedAppend(f, FixedArray(ids), SingleEnd(level));
    } else {
      ParsedNone(f, FixedBody(ids, config, level));
    }
  }

  /** `let resources = [];` is written once in single mode without resources, and not otherwise. */
  lemma EmptyArrayWithoutResources(header: bool, imports: seq<string>, ids: seq<string>, config: Config, level: int)
    ensures Parsed(MatchLine(EmptyArray), Chunks(header, imports, ids, config, level))
         == if IsSingle(config) && |ids| == 0 then [EmptyArray] else []
  {
    var f := MatchLine(EmptyArray);
    MatchLineSections(EmptyArray, header, imports, ids, config, level);
    ParsedNone(f, PalChunks(ids, config));
    EmptyArrayFixed(ids, config, level);
  }

  // Any other mode: the calls inside `configure`.

  /** Reads the module id back out of a `config.globalResources(...)` line. */
  function ParseGlobalCall(config: Config, c: string): Option<string> {
    match Strip(c, "  config.globalResources(", ");\n")
    case Some(w) => UnwrapModuleName(w, config)
    case None => None
  }

  function GlobalCallReader(config: Config): string -> Option<string> {
    c => ParseGlobalCall(config, c)
  }

  lemma GlobalCallParses(id: string, config: Config)
    ensures ParseGlobalCall(config, GlobalCall(id, config)) == Some(id)
  {
    StripOf("  config.globalResources(", WrapModuleName(id, config), ");\n");
    UnwrapWrap(id, config);
  }

  /** Outside single mode every wrapped module name holds a '/'. */
  lemma UnwrapNeedsSlash(text: string, config: Config)
    requires !IsSingle(config) && UnwrapModuleName(text, config).Some?
    ensures '/' in text
  {
    if config.pal {
      assert text[..23][22] == '/';
    } else {
      assert text[..3][2] == '/';
    }
  }

  lemma NotGlobalCall(config: Config, c: string)
    requires || (|c| > 0 && c[0] != ' ') || (|c| > 2 && c[2] != 'c') || (|c| >= 2 && c[|c| - 2] != ';')
             || |c| < 28 || (!IsSingle(config) && '/' !in c)
    ensures ParseGlobalCall(config, c).None?
  {
    var p := "  config.globalResources(";
    var q := ");\n";
    if |c| > 0 && c[0] != ' ' {
      StripPrefixMismatch(c, p, q, 0);
    } else if |c| > 2 && c[2] != 'c' {
      StripPrefixMismatch(c, p, q, 2);
    } else if |c| >= 2 && c[|c| - 2] != ';' {
      StripSuffixMismatch(c, p, q, 2);
    } else if |c| >= 28 && Strip(c, p, q).Some? {
      var w := Strip(c, p, q).value;
      if UnwrapModuleName(w, config).Some? {
        UnwrapNeedsSlash(w, config);
      }
    }
  }

  lemma ConfigCallSlashFree(name: string)
    requires '/' !in name
    ensures '/' !in ConfigCall(name)
  {
    ToCamelCaseKeeps(name, '/');
  }

  lemma GlobalCallSections(imports: seq<string>, ids: seq<string>, config: Config)
    requires !IsSingle(config)
    requires forall i :: 0 <= i < |imports| ==> '/' !in imports[i]
    ensures var f := GlobalCallReader(config);
      && Parsed(f, ImportChunks(imports)) == []
      && Parsed(f, GlobalCalls(ids, config)) == ids
      && Parsed(f, ConfigCalls(imports)) == []
  {
    var f := GlobalCallReader(config);
    forall i | 0 <= i < |imports|
      ensures f(ImportLine(imports[i])).None? && f(ConfigCall(imports[i])).None?
    {
      ImportLineShape(imports[i]);
      NotGlobalCall(config, ImportLine(imports[i]));
      ConfigCallSlashFree(imports[i]);
      NotGlobalCall(config, ConfigCall(imports[i]));
    }
    NotGlobalCall(config, "\n");
    ImportChunksNone(f, imports);
    forall i | 0 <= i < |ids|
      ensures f(GlobalCalls(ids, config)[i]) == Some(ids[i])
    {
      GlobalCallParses(ids[i], config);
    }
    ParsedAll(f, GlobalCalls(ids, config), ids);
    ConfigCallsNone(f, imports);
  }

  lemma GlobalCallFixed(header: bool, ids: seq<string>, config: Config)
    ensures var f := GlobalCallReader(config);
      && Parsed(f, HeaderChunks(header)) == [] && Parsed(f, PalChunks(ids, config)) == []
      && Parsed(f, [MultiOpen]) == [] && Parsed(f, [MultiClose, ExportConfigure]) == []
  {
    var f := GlobalCallReader(config);
    PreambleParsed(f, header, ids, config);
    MultiEndsParsed(f);
    NotGlobalCall(config, Header);
    NotGlobalCall(config, PalImport);
    NotGlobalCall(config, MultiOpen);
    NotGlobalCall(config, MultiClose);
    NotGlobalCall(config, ExportConfigure);
  }

  /**
   * Outside single mode, the `config.globalResources` calls register the
   * module ids of the resources, each once, in key order.
   */
  lemma GlobalCallsAreResources(header: bool, imports: seq<string>, ids: seq<string>, config: Config, level: int)
    requires !IsSingle(config)
    requires forall i :: 0 <= i < |imports| ==> '/' !in imports[i]
    ensures Parsed(GlobalCallReader(config), Chunks(header, imports, ids, config, level)) == ids
  {
    var f := GlobalCallReader(config);
    GlobalCallFixed(header, ids, config);
    GlobalCallSections(imports, ids, config);
    BodyMulti(f, imports, ids, config, level);
    ParsedSections(f, header, imports, ids, config, level);
  }

  /** Reads the called function's name back out of a `<name>(config);` line. */
  function ParseConfigCall(c: string): Option<string> {
    Strip(c, "  ", "(config);\n")
  }

  lemma NotConfigCall(c: string)
    requires || (|c| > 0 && c[0] != ' ') || (|c| >= 4 && c[|c| - 4] != 'g') || (|c| >= 2 && c[|c| - 2] != ';')
             || |c| < 12
    ensures ParseConfigCall(c).None?
  {
    var p := "  ";
    var q := "(config);\n";
    if |c| > 0 && c[0] != ' ' {
      StripPrefixMismatch(c, p, q, 0);
    } else if |c| >= 4 && c[|c| - 4] != 'g' {
      StripSuffixMismatch(c, p, q, 4);
    } else if |c| >= 2 && c[|c| - 2] != ';' {
      StripSuffixMismatch(c, p, q, 2);
    }
  }

  function CamelNames(imports: seq<string>): (r: seq<string>)
    ensures |r| == |imports|
  {
    seq(|imports|, i requires 0 <= i < |imports| => ToCamelCase(imports[i]))
  }

  lemma ConfigCallSections(imports: seq<string>, ids: seq<string>, config: Config)
    ensures var f := ParseConfigCall;
      && Parsed(f, ImportChunks(imports)) == []
      && Parsed(f, GlobalCalls(ids, config)) == []
      && Parsed(f, ConfigCalls(imports)) == CamelNames(imports)
  {
    var f := ParseConfigCall;
    forall i | 0 <= i < |imports|
      ensures f(ImportLine(imports[i])).None?
    {
      ImportLineShape(imports[i]);
      NotConfigCall(ImportLine(imports[i]));
    }
    NotConfigCall("\n");
    ImportChunksNone(f, imports);
    forall i | 0 <= i < |ids|
      ensures f(GlobalCall(ids[i], config)).None?
    {
      GlobalCallShape(ids[i], config);
      NotConfigCall(GlobalCall(ids[i], config));
    }
    GlobalCallsNone(f, ids, config);
    forall i | 0 <= i < |imports|
      ensures f(ConfigCalls(imports)[i]) == Some(CamelNames(imports)[i])
    {
      StripOf("  ", ToCamelCase(imports[i]), "(config);\n");
    }
    ParsedAll(f, ConfigCalls(imports), CamelNames(imports));
  }

  lemma ConfigCallFixed(header: bool, ids: seq<string>, config: Config)
    ensures var f := ParseConfigCall;
      && Parsed(f, HeaderChunks(header)) == [] && Parsed(f, PalChunks(ids, config)) == []
      && Parsed(f, [MultiOpen]) == [] && Parsed(f, [MultiClose, ExportConfigure]) == []
  {
    var f := ParseConfigCall;
    PreambleParsed(f, header, ids, config);
    MultiEndsParsed(f);
    NotConfigCall(Header);
    NotConfigCall(PalImport);
    NotConfigCall(MultiOpen);
    NotConfigCall(MultiClose);
    NotConfigCall(ExportConfigure);
  }

  lemma ConfigCallsParsed(header: bool, imports: seq<string>, ids: seq<string>, config: Config, level: int)
    requires !IsSingle(config)
    ensures Parsed(ParseConfigCall, Chunks(header, imports, ids, config, level)) == CamelNames(imports)
  {
    var f := ParseConfigCall;
    ConfigCallFixed(header, ids, config);
    BodyConfigCalls(imports, ids, config, level);
    ParsedSections(f, header, imports, ids, config, level);
  }

  /**
   * Outside single mode, `configure` calls each subfolder's imported
   * `configure`, under its camel-cased name, once and in listing order.
   */
  lemma ConfigCallsAreSubfolders(header: bool, imports: seq<string>, ids: seq<string>, config: Config, level: int)
    requires !IsSingle(config)
    ensures var r := Parsed(ParseConfigCall, Chunks(header, imports, ids, config, level));
      |r| == |imports| && forall i :: 0 <= i < |r| ==> r[i] == ToCamelCase(imports[i])
  {
    ConfigCallsParsed(header, imports, ids, config, level);
  }

  lemma BodyConfigCalls(imports: seq<string>, ids: seq<string>, config: Config, level: int)
    requires !IsSingle(config)
    ensures Parsed(ParseConfigCall, ImportChunks(imports)) == []
    ensures Parsed(ParseConfigCall, Body(imports, ids, config, level)) == CamelNames(imports)
  {
    var f := ParseConfigCall;
    ConfigCallFixed(false, ids, config);
    ConfigCallSections(imports, ids, config);
    BodyMulti(f, imports, ids, config, level);
  }

  // Single mode: the flatten blocks.

  /** Reads the pushed path back out of a `resources.push(...)` line. */
  function ParsePush(c: string): Option<string> {
    Strip(c, "  resources.push('", "/' + module);\n")
  }

  lemma NotPush(c: string)
    requires || (|c| > 0 && c[0] != ' ') || (|c| > 2 && c[2] != 'r') || (|c| >= 2 && c[|c| - 2] != ';')
             || |c| < 32
    ensures ParsePush(c).None?
  {
    var p := "  resources.push('";
    var q := "/' + module);\n";
    if |c| > 0 && c[0] != ' ' {
      StripPrefixMismatch(c, p, q, 0);
    } else if |c| > 2 && c[2] != 'r' {
      StripPrefixMismatch(c, p, q, 2);
    } else if |c| >= 2 && c[|c| - 2] != ';' {
      StripSuffixMismatch(c, p, q, 2);
    }
  }

  /** The path each subfolder's block pushes its resources under. */
  function PushTargets(imports: seq<string>, level: int): (r: seq<string>)
    ensures |r| == |imports|
  {
    seq(|imports|, i requires 0 <= i < |imports| => PushPrefix(level) + imports[i])
  }

  lemma BlockPushes(name: string, level: int)
    ensures Parsed(ParsePush, FlattenBlock(name, level)) == [PushPrefix(level) + name]
  {
    ForEachLineShape(name);
    NotPush(ForEachLine(name));
    NotPush(ForEachClose);
    PushLineParses(name, level);
    ParsedThree(ParsePush, ForEachLine(name), PushLine(name, level), ForEachClose);
    OnlyMiddle(Opt(ParsePush(ForEachLine(name))), Opt(ParsePush(PushLine(name, level))), Opt(ParsePush(ForEachClose)));
  }

  lemma PushLineParses(name: string, level: int)
    ensures ParsePush(PushLine(name, level)) == Some(PushPrefix(level) + name)
  {
    StripOf("  resources.push('", PushPrefix(level) + name, "/' + module);\n");
    assert PushLine(name, level) == "  resources.push('" + (PushPrefix(level) + name) + "/' + module);\n";
  }

  lemma OnlyMiddle(a: seq<string>, b: seq<string>, c: seq<string>)
    requires a == [] && c == []
    ensures a + b + c == b
  {
  }

  lemma PushTargetsStep(imports: seq<string>, level: int)
    requires |imports| > 0
    ensures PushTargets(imports, level)
         == PushTargets(imports[..|imports| - 1], level) + [PushPrefix(level) + imports[|imports| - 1]]
  {
    var p := imports[..|imports| - 1];
    var a := PushTargets(imports, level);
    var b := PushTargets(p, level) + [PushPrefix(level) + imports[|imports| - 1]];
    forall i | 0 <= i < |a|
      ensures a[i] == b[i]
    {
      if i < |p| {
        assert p[i] == imports[i];
      }
    }
  }

  lemma ParsedJoin(f: string -> Option<string>, a: seq<string>, b: seq<string>, ra: seq<string>, rb: seq<string>)
    requires Parsed(f, a) == ra && Parsed(f, b) == rb
    ensures Parsed(f, a + b) == ra + rb
  {
    ParsedAppend(f, a, b);
  }

  lemma {:induction false} FlattenPushes(imports: seq<string>, level: int)
    ensures Parsed(ParsePush, FlattenBlocks(imports, level)) == PushTargets(imports, level)
    decreases |imports|
  {
    if |imports| > 0 {
      var p := imports[..|imports| - 1];
      var n := imports[|imports| - 1];
      FlattenPushes(p, level);
      BlockPushes(n, level);
      ParsedJoin(ParsePush, FlattenBlocks(p, level), FlattenBlock(n, level), PushTargets(p, level), [PushPrefix(level) + n]);
      PushTargetsStep(imports, level);
    }
  }

  lemma PushPreamble(header: bool, imports: seq<string>, ids: seq<string>, config: Config)
    ensures var f := ParsePush;
      && Parsed(f, HeaderChunks(header)) == [] && Parsed(f, PalChunks(ids, config)) == []
      && Parsed(f, ImportChunks(imports)) == []
  {
    var f := ParsePush;
    PreambleParsed(f, header, ids, config);
    NotPush(Header);
    NotPush(PalImport);
    forall i | 0 <= i < |imports|
      ensures f(ImportLine(imports[i])).None?
    {
      ImportLineShape(imports[i]);
      NotPush(ImportLine(imports[i]));
    }
    NotPush("\n");
    ImportChunksNone(f, imports);
  }

  lemma PushArrayAndEnd(ids: seq<string>, config: Config, level: int)
    ensures Parsed(ParsePush, ArrayChunks(ids, config)) == [] && Parsed(ParsePush, SingleEnd(level)) == []
  {
    PushArray(ids, config);
    PushEnd(level);
  }

  lemma PushArray(ids: seq<string>, config: Config)
    ensures Parsed(ParsePush, ArrayChunks(ids, config)) == []
  {
    var f := ParsePush;
    NotPush(ArrayOpen);
    NotPush(ArrayClose);
    NotPush(EmptyArray);
    forall i | 0 <= i < |ids|
      ensures f(ArrayEntry(ids[i], config, i + 1 < |ids|)).None?
    {
      ArrayEntryShape(ids[i], config, i + 1 < |ids|);
      NotPush(ArrayEntry(ids[i], config, i + 1 < |ids|));
    }
    ArrayChunksNone(f, ids, config);
  }

  lemma PushEnd(level: int)
    ensures Parsed(ParsePush, SingleEnd(level)) == []
  {
    SingleEndParsed(ParsePush, level);
    if level != 0 {
      NotPush(ExportResources);
    } else {
      ConfigureNotPush();
      AllEmpty(Opt(ParsePush(ConfigureOpen)), Opt(ParsePush(ConfigureAll)), Opt(ParsePush(ConfigureClose)));
    }
  }

  lemma ConfigureNotPush()
    ensures ParsePush(ConfigureOpen).None? && ParsePush(ConfigureAll).None? && ParsePush(ConfigureClose).None?
  {
    NotPush(ConfigureOpen);
    NotPush(ConfigureAll);
    NotPush(ConfigureClose);
  }

  /**
   * In single mode each subfolder's resources are pushed once, in listing
   * order, under `./<name>/` at the top level and `<name>/` below it.
   */
  lemma PushesAreSubfolders(header: bool, imports: seq<string>, ids: seq<string>, config: Config, level: int)
    requires IsSingle(config)
    ensures var r := Parsed(ParsePush, Chunks(header, imports, ids, config, level));
      && |r| == |imports|
      && forall i :: 0 <= i < |r| ==> r[i] == (if level == 0 then "./" + imports[i] else imports[i])
  {
    var f := ParsePush;
    PushPreamble(header, imports, ids, config);
    PushArrayAndEnd(ids, config, level);
    FlattenPushes(imports, level);
    BodySingle(f, imports, ids, config, level);
    ParsedSections(f, header, imports, ids, config, level);
  }

  // Single mode: the array literal.

  /** The parts with `sep` between each two of them. */
  function JoinWith(parts: seq<string>, sep: string): string
    requires |parts| >= 1
  {
    if |parts| == 1 then parts[0] else parts[0] + sep + JoinWith(parts[1..], sep)
  }

  function Wrapped(ids: seq<string>, config: Config): (r: seq<string>)
    ensures |r| == |ids|
  {
    seq(|ids|, i requires 0 <= i < |ids| => WrapModuleName(ids[i], config))
  }

  lemma ArrayEntriesTail(ids: seq<string>, config: Config)
    requires |ids| >= 2
    ensures ArrayEntries(ids, config) == [ArrayEntry(ids[0], config, true)] + ArrayEntries(ids[1..], config)
  {
    var a := ArrayEntries(ids, config);
    var t := ArrayEntries(ids[1..], config);
    forall i | 1 <= i < |a|
      ensures a[i] == t[i - 1]
    {
      EntryShift(ids, config, i);
    }
    ConsEqual(a, ArrayEntry(ids[0], config, true), t);
  }

  /** A sequence is its first element followed by the rest. */
  lemma ConsEqual(a: seq<string>, x: string, t: seq<string>)
    requires |a| == |t| + 1 && a[0] == x
    requires forall i :: 1 <= i < |a| ==> a[i] == t[i - 1]
    ensures a == [x] + t
  {
  }

  lemma EntryShift(ids: seq<string>, config: Config, i: int)
    requires 1 <= i < |ids|
    ensures ArrayEntries(ids[1..], config)[i - 1] == ArrayEntries(ids, config)[i]
  {
    var rest := ids[1..];
    var comma := i + 1 < |ids|;
    assert rest[i - 1] == ids[i];
    assert ((i - 1) + 1 < |rest|) == comma;
  }

  lemma WrappedTail(ids: seq<string>, config: Config)
    requires |ids| >= 1
    ensures Wrapped(ids[1..], config) == Wrapped(ids, config)[1..]
  {
    var w := Wrapped(ids, config);
    var t := Wrapped(ids[1..], config);
    forall i | 0 <= i < |t|
      ensures t[i] == w[i + 1]
    {
      assert ids[1..][i] == ids[i + 1];
    }
  }

  lemma JoinStep(x: string, j: string)
    ensures ("  " + x + "," + "\n") + ("  " + j + "\n") == "  " + (x + ",\n  " + j) + "\n"
  {
  }

  lemma {:induction false} ArrayEntriesText(ids: seq<string>, config: Config)
    requires |ids| >= 1
    ensures Concat(ArrayEntries(ids, config)) == "  " + JoinWith(Wrapped(ids, config), ",\n  ") + "\n"
    decreases |ids|
  {
    var w := Wrapped(ids, config);
    var e := ArrayEntries(ids, config);
    if |ids| == 1 {
      assert e == [ArrayEntry(ids[0], config, false)] + [];
      ConcatCons(e[0], []);
    } else {
      var t := ArrayEntries(ids[1..], config);
      ArrayEntriesTail(ids, config);
      ArrayEntriesText(ids[1..], config);
      WrappedTail(ids, config);
      ConcatCons(ArrayEntry(ids[0], config, true), t);
      var j := JoinWith(w[1..], ",\n  ");
      assert Concat(t) == "  " + j + "\n";
      assert ArrayEntry(ids[0], config, true) == "  " + w[0] + "," + "\n";
      JoinStep(w[0], j);
    }
  }

  /**
   * In single mode the array lists the wrapped module ids, one per line,
   * with a comma after each but the last; without resources it is empty.
   */
  lemma ArrayText(ids: seq<string>, config: Config)
    ensures Concat(ArrayChunks(ids, config))
         == if |ids| == 0 then "let resources = [];\n"
            else "let resources = [\n  " + JoinWith(Wrapped(ids, config), ",\n  ") + "\n];\n"
  {
    var a := ArrayChunks(ids, config);
    if |ids| == 0 {
      assert Concat(a) == EmptyArray + Concat([]);
    } else {
      var e := ArrayEntries(ids, config);
      ArrayEntriesText(ids, config);
      ConcatAppend([ArrayOpen] + e, [ArrayClose]);
      ConcatAppend([ArrayOpen], e);
      assert Concat([ArrayOpen]) == ArrayOpen + Concat([]);
      assert Concat([ArrayClose]) == ArrayClose + Concat([]);
    }
  }

  // How the index ends.

  /** The last chunks of the index. */
  function Ending(config: Config, level: int): seq<string> {
    if !IsSingle(config) then [MultiClose, ExportConfigure] else SingleEnd(level)
  }

  lemma SplitEnd(h: seq<string>, p: seq<string>, m: seq<string>, a: seq<string>, b: seq<string>, c: seq<string>)
    ensures h + p + m + (a + b + c) == (h + p + m + (a + b)) + c
  {
  }

  lemma SplitEnd4(h: seq<string>, p: seq<string>, m: seq<string>, a: seq<string>, b: seq<string>, c: seq<string>,
                  d: seq<string>)
    ensures h + p + m + (a + b + c + d) == (h + p + m + (a + b + c)) + d
  {
  }

  lemma ChunksEnding(header: bool, imports: seq<string>, ids: seq<string>, config: Config, level: int)
    ensures var cs := Chunks(header, imports, ids, config, level);
      |cs| >= |Ending(config, level)| && cs[|cs| - |Ending(config, level)|..] == Ending(config, level)
  {
    var h := HeaderChunks(header);
    var p := PalChunks(ids, config);
    var m := ImportChunks(imports);
    ChunksParts(header, imports, ids, config, level);
    var front;
    if IsSingle(config) {
      SplitEnd(h, p, m, ArrayChunks(ids, config), FlattenBlocks(imports, level), SingleEnd(level));
      front := h + p + m + (ArrayChunks(ids, config) + FlattenBlocks(imports, level));
    } else {
      SplitEnd4(h, p, m, [MultiOpen], GlobalCalls(ids, config), ConfigCalls(imports), [MultiClose, ExportConfigure]);
      front := h + p + m + ([MultiOpen] + GlobalCalls(ids, config) + ConfigCalls(imports));
    }
    var cs := Chunks(header, imports, ids, config, level);
    assert cs == front + Ending(config, level);
    assert cs[|front|..] == Ending(config, level);
  }

  function EndingText(config: Config, level: int): string {
    if !IsSingle(config) then MultiClose + ExportConfigure
    else if level != 0 then ExportResources
    else ConfigureOpen + ConfigureAll + ConfigureClose
  }

  lemma ConcatSmall(a: string, b: string, c: string)
    ensures Concat([a]) == a
    ensures Concat([a, b]) == a + b
    ensures Concat([a, b, c]) == a + b + c
  {
    assert Concat([c]) == c + Concat([]);
    assert [a, b][1..] == [b] && [a, b, c][1..] == [b, c] && [b, c][1..] == [c];
    assert Concat([b]) == b + Concat([]);
    assert Concat([b, c]) == b + Concat([c]);
  }

  lemma EndingConcat(config: Config, level: int)
    ensures Concat(Ending(config, level)) == EndingText(config, level)
  {
    if !IsSingle(config) {
      ConcatSmall(MultiClose, ExportConfigure, "");
    } else if level != 0 {
      ConcatSmall(ExportResources, "", "");
    } else {
      ConcatSmall(ConfigureOpen, ConfigureAll, ConfigureClose);
    }
  }

  lemma ConcatSuffix(cs: seq<string>, e: seq<string>)
    requires |cs| >= |e| && cs[|cs| - |e|..] == e
    ensures EndsWith(Concat(cs), Concat(e))
  {
    var front := cs[..|cs| - |e|];
    assert cs == front + e;
    ConcatAppend(front, e);
    var t := Concat(cs);
    assert t[|t| - |Concat(e)|..] == Concat(e);
  }

  /**
   * The index ends with `export default configure` outside single mode,
   * with `export default resources` in a single-mode subfolder, and with
   * the exported `configure` function in a single-mode top level.
   */
  lemma IndexEnding(header: bool, imports: seq<string>, ids: seq<string>, config: Config, level: int)
    ensures EndsWith(IndexText(header, imports, ids, config, level), EndingText(config, level))
  {
    ChunksEnding(header, imports, ids, config, level);
    ConcatSuffix(Chunks(header, imports, ids, config, level), Ending(config, level));
    EndingConcat(config, level);
  }
}
