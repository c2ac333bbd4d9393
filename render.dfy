/**
 * The text of a generated `index.js` and the buffer it is written into.
 *
 * `Chunks` lists, in order, the strings the generator passes to
 * `buf.write`; the index text is those strings one after another.
 * `RenderIndex` performs the writes into a 4096-character buffer the way
 * `Buffer.write` does, silently dropping whatever does not fit.
 */
module Render {
  import opened JsText
  import opened Configuration
  import opened Naming
  import opened Classify

  const BufferSize: nat := 4096

  const Header := "/* This is a generated file */\n"
  const PalImport := "import {PLATFORM} from 'aurelia-pal';\n\n"
  const ArrayOpen := "let resources = [\n"
  const ArrayClose := "];\n"
  const EmptyArray := "let resources = [];\n"
  const ExportResources := "\nexport default resources;\n"
  const ConfigureOpen := "\nexport function configure (config) {\n"
  const ConfigureAll := "  config.globalResources(resources);\n"
  const ConfigureClose := "}\n"
  const MultiOpen := "const configure = function (config) {\n"
  const MultiClose := "};\n"
  const ExportConfigure := "\nexport default configure;\n"

  /** The module id of a resource: the key itself for a script, `key.view` for a view only. */
  function ModuleId(key: string, resources: map<string, Kinds>, view: string): string {
    if key in resources && resources[key].js then key else key + "." + view
  }

  function ModuleIds(keys: seq<string>, resources: map<string, Kinds>, view: string): (ids: seq<string>)
    ensures |ids| == |keys|
  {
    seq(|keys|, i requires 0 <= i < |keys| => ModuleId(keys[i], resources, view))
  }

  function ImportLine(name: string): string {
    "import " + ToCamelCase(name) + " from './" + name + "/index';\n"
  }

  function ImportLines(imports: seq<string>): (r: seq<string>)
    ensures |r| == |imports|
  {
    seq(|imports|, i requires 0 <= i < |imports| => ImportLine(imports[i]))
  }

  function ArrayEntry(id: string, config: Config, comma: bool): string {
    "  " + WrapModuleName(id, config) + (if comma then "," else "") + "\n"
  }

  /** One array line per module id; every line but the last carries a comma. */
  function ArrayEntries(ids: seq<string>, config: Config): (r: seq<string>)
    ensures |r| == |ids|
  {
    seq(|ids|, i requires 0 <= i < |ids| => ArrayEntry(ids[i], config, i + 1 < |ids|))
  }

  /** The prefix of a subfolder's resources: `./` only at level 0. */
  function PushPrefix(level: int): string {
    if level != 0 then "" else "./"
  }

  function ForEachLine(name: string): string {
    ToCamelCase(name) + ".forEach((module) => {\n"
  }

  function PushLine(name: string, level: int): string {
    "  resources.push('" + PushPrefix(level) + name + "/' + module);\n"
  }

  const ForEachClose := "});\n"

  /** The block that copies a subfolder's resources into `resources`. */
  function FlattenBlock(name: string, level: int): seq<string> {
    [ForEachLine(name), PushLine(name, level), ForEachClose]
  }

  function FlattenBlocks(imports: seq<string>, level: int): (r: seq<string>)
    ensures |r| == 3 * |imports|
  {
    if |imports| == 0 then []
    else FlattenBlocks(imports[..|imports| - 1], level) + FlattenBlock(imports[|imports| - 1], level)
  }

  function GlobalCall(id: string, config: Config): string {
    "  config.globalResources(" + WrapModuleName(id, config) + ");\n"
  }

  function GlobalCalls(ids: seq<string>, config: Config): (r: seq<string>)
    ensures |r| == |ids|
  {
    seq(|ids|, i requires 0 <= i < |ids| => GlobalCall(ids[i], config))
  }

  function ConfigCall(name: string): string {
    "  " + ToCamelCase(name) + "(config);\n"
  }

  function ConfigCalls(imports: seq<string>): (r: seq<string>)
    ensures |r| == |imports|
  {
    seq(|imports|, i requires 0 <= i < |imports| => ConfigCall(imports[i]))
  }

  function HeaderChunks(header: bool): seq<string> {
    if header then [Header] else []
  }

  function PalChunks(ids: seq<string>, config: Config): seq<string> {
    if |ids| > 0 && config.pal then [PalImport] else []
  }

  function ImportChunks(imports: seq<string>): seq<string> {
    if |imports| > 0 then ImportLines(imports) + ["\n"] else []
  }

  function ArrayChunks(ids: seq<string>, config: Config): seq<string> {
    if |ids| > 0 then [ArrayOpen] + ArrayEntries(ids, config) + [ArrayClose] else [EmptyArray]
  }

  function SingleEnd(level: int): seq<string> {
    if level != 0 then [ExportResources] else [ConfigureOpen, ConfigureAll, ConfigureClose]
  }

  /** The body in single mode: one array, the flatten blocks, then the export. */
  function SingleBody(imports: seq<string>, ids: seq<string>, config: Config, level: int): seq<string> {
    ArrayChunks(ids, config) + FlattenBlocks(imports, level) + SingleEnd(level)
  }

  /** The body in any other mode: one `configure` function calling everything in turn. */
  function MultiBody(imports: seq<string>, ids: seq<string>, config: Config): seq<string> {
    [MultiOpen] + GlobalCalls(ids, config) + ConfigCalls(imports) + [MultiClose, ExportConfigure]
  }

  function Body(imports: seq<string>, ids: seq<string>, config: Config, level: int): seq<string> {
    if IsSingle(config) then SingleBody(imports, ids, config, level) else MultiBody(imports, ids, config)
  }

  /**
   * The strings written, in order. `header` is set for the class version,
   * which alone starts with the generated-file comment.
   */
  function Chunks(header: bool, imports: seq<string>, ids: seq<string>, config: Config, level: int): seq<string> {
    HeaderChunks(header) + PalChunks(ids, config) + ImportChunks(imports) + Body(imports, ids, config, level)
  }

  /** The complete index text, before the buffer limit applies. */
  function IndexText(header: bool, imports: seq<string>, ids: seq<string>, config: Config, level: int): string {
    Concat(Chunks(header, imports, ids, config, level))
  }

  /** What of `s` fits in the buffer. */
  function Truncate(s: string): (r: string)
    ensures |r| <= BufferSize && |r| <= |s| && r == s[..|r|]
    ensures |s| <= BufferSize ==> r == s
  {
    if |s| <= BufferSize then s else s[..BufferSize]
  }

  lemma TruncateAppend(w: string, s: string)
    ensures var n := |Truncate(w + s)| - |Truncate(w)|;
      0 <= n <= |s| && n == (if |s| <= BufferSize - |Truncate(w)| then |s| else BufferSize - |Truncate(w)|)
      && Truncate(w + s) == Truncate(w) + s[..n]
  {
    if |w| > BufferSize {
      assert (w + s)[..BufferSize] == w[..BufferSize];
    } else if |w| + |s| > BufferSize {
      assert (w + s)[..BufferSize] == w + s[..BufferSize - |w|];
    }
  }

  /**
   * `buf.write(s, offset)`: copies as much of `s` as fits from `offset` on
   * and returns the number of characters written.
   */
  method Write(buf: array<char>, s: string, offset: nat) returns (n: nat)
    requires offset <= buf.Length
    modifies buf
    ensures n == if |s| <= buf.Length - offset then |s| else buf.Length - offset
    ensures buf[..offset] == old(buf[..offset])
    ensures buf[offset..offset + n] == s[..n]
    ensures buf[offset + n..] == old(buf[offset + n..])
  {
    n := if |s| <= buf.Length - offset then |s| else buf.Length - offset;
    var i := 0;
    while i < n
      invariant 0 <= i <= n
      invariant buf[..offset] == old(buf[..offset])
      invariant buf[offset..offset + i] == s[..i]
      invariant buf[offset + i..] == old(buf[offset + i..])
    {
      buf[offset + i] := s[i];
      i := i + 1;
    }
  }

  /** The buffer holds what fits of `text`, followed by zeros. */
  ghost predicate Holds(buf: array<char>, offset: nat, text: string)
    reads buf
  {
    && buf.Length == BufferSize
    && offset == |Truncate(text)|
    && buf[..offset] == Truncate(text)
    && forall i :: offset <= i < BufferSize ==> buf[i] == '\0'
  }

  lemma ConcatStep(chunks: seq<string>, s: string)
    ensures Concat(chunks + [s]) == Concat(chunks) + s
  {
    ConcatAppend(chunks, [s]);
    assert Concat([s]) == s + Concat([]);
  }

  /**
   * `offset += buf.write(s, offset)`: the buffer keeps holding what fits of
   * the strings written so far, now with `s` after them.
   */
  method Append(buf: array<char>, offset: nat, s: string, ghost chunks: seq<string>) returns (next: nat)
    requires Holds(buf, offset, Concat(chunks))
    modifies buf
    ensures Holds(buf, next, Concat(chunks + [s]))
  {
    ConcatStep(chunks, s);
    TruncateAppend(Concat(chunks), s);
    var n := Write(buf, s, offset);
    next := offset + n;
    assert buf[..next] == buf[..offset] + buf[offset..next];
    forall i | next <= i < BufferSize
      ensures buf[i] == '\0'
    {
      assert buf[i] == buf[next..][i - next];
    }
  }

  /**
   * generateIndexBuffer / the rendering part of generateFolderIndex: writes
   * the index for the given subfolders and resource keys into a fresh
   * zero-filled buffer of 4096 characters. The buffer then holds what fits
   * of the index text, followed by zeros, and `len` is the sum of what the
   * writes returned.
   */
  method RenderIndex(header: bool, imports: seq<string>, keys: seq<string>, resources: map<string, Kinds>,
                     config: Config, level: int)
    returns (buf: array<char>, len: nat)
    ensures fresh(buf)
    ensures Holds(buf, len, IndexText(header, imports, ModuleIds(keys, resources, config.view), config, level))
  {
    buf := new char[BufferSize](_ => '\0');
    assert buf[..0] == [];
    var offset: nat := 0;
    ghost var chunks: seq<string> := [];
    if header {
      offset := Append(buf, offset, Header, chunks);
      chunks := chunks + [Header];
    }
    if |keys| > 0 && config.pal {
      offset := Append(buf, offset, PalImport, chunks);
      chunks := chunks + [PalImport];
    }
    assert chunks == HeaderChunks(header) + PalChunks(ModuleIds(keys, resources, config.view), config);
    offset, chunks := RenderImports(buf, offset, chunks, imports);
    offset, chunks := RenderBody(buf, offset, chunks, imports, keys, resources, config, level);
    len := offset;
  }

  /** One import line per subfolder and a blank line after them, when there are any. */
  method RenderImports(buf: array<char>, offset: nat, ghost pre: seq<string>, imports: seq<string>)
    returns (next: nat, ghost chunks: seq<string>)
    requires Holds(buf, offset, Concat(pre))
    modifies buf
    ensures chunks == pre + ImportChunks(imports)
    ensures Holds(buf, next, Concat(chunks))
  {
    next := offset;
    chunks := pre;
    if |imports| > 0 {
      var i := 0;
      while i < |imports|
        invariant 0 <= i <= |imports|
        invariant chunks == pre + ImportLines(imports)[..i]
        invariant Holds(buf, next, Concat(chunks))
      {
        var line := "import " + ToCamelCase(imports[i]) + " from './" + imports[i] + "/index';\n";
        next := Append(buf, next, line, chunks);
        chunks := chunks + [line];
        assert ImportLines(imports)[..i + 1] == ImportLines(imports)[..i] + [line];
        i := i + 1;
      }
      next := Append(buf, next, "\n", chunks);
      chunks := chunks + ["\n"];
      assert ImportLines(imports)[..|imports|] == ImportLines(imports);
    }
  }

  /** The body of the index, written after the header and the imports. */
  method RenderBody(buf: array<char>, offset: nat, ghost pre: seq<string>, imports: seq<string>, keys: seq<string>,
                    resources: map<string, Kinds>, config: Config, level: int)
    returns (next: nat, ghost chunks: seq<string>)
    requires Holds(buf, offset, Concat(pre))
    modifies buf
    ensures chunks == pre + Body(imports, ModuleIds(keys, resources, config.view), config, level)
    ensures Holds(buf, next, Concat(chunks))
  {
    if IsSingle(config) {
      next, chunks := RenderSingleBody(buf, offset, pre, imports, keys, resources, config, level);
    } else {
      next, chunks := RenderMultiBody(buf, offset, pre, imports, keys, resources, config);
    }
  }

  lemma AppendThree(p: seq<string>, a: seq<string>, b: seq<string>, c: seq<string>)
    ensures p + a + b + c == p + (a + b + c)
  {
  }

  /** Single mode: the array, the subfolder blocks, then the ending. */
  method RenderSingleBody(buf: array<char>, offset: nat, ghost pre: seq<string>, imports: seq<string>, keys: seq<string>,
                          resources: map<string, Kinds>, config: Config, level: int)
    returns (next: nat, ghost chunks: seq<string>)
    requires Holds(buf, offset, Concat(pre))
    modifies buf
    ensures chunks == pre + SingleBody(imports, ModuleIds(keys, resources, config.view), config, level)
    ensures Holds(buf, next, Concat(chunks))
  {
    ghost var c1, c2, c3;
    next, c1 := RenderArray(buf, offset, pre, keys, resources, config);
    next, c2 := RenderFlatten(buf, next, c1, imports, level);
    next, c3 := RenderSingleEnd(buf, next, c2, level);
    AppendThree(pre, ArrayChunks(ModuleIds(keys, resources, config.view), config), FlattenBlocks(imports, level), SingleEnd(level));
    chunks := c3;
  }

  /** Any other mode: one `configure` function calling everything, then its export. */
  method RenderMultiBody(buf: array<char>, offset: nat, ghost pre: seq<string>, imports: seq<string>, keys: seq<string>,
                         resources: map<string, Kinds>, config: Config)
    returns (next: nat, ghost chunks: seq<string>)
    requires Holds(buf, offset, Concat(pre))
    modifies buf
    ensures chunks == pre + MultiBody(imports, ModuleIds(keys, resources, config.view), config)
    ensures Holds(buf, next, Concat(chunks))
  {
    ghost var c1, c2;
    next := Append(buf, offset, MultiOpen, pre);
    next, c1 := RenderGlobalCalls(buf, next, pre + [MultiOpen], keys, resources, config);
    next, c2 := RenderConfigCalls(buf, next, c1, imports);
    next := Append(buf, next, MultiClose, c2);
    next := Append(buf, next, ExportConfigure, c2 + [MultiClose]);
    chunks := c2 + [MultiClose] + [ExportConfigure];
    AppendThree(pre, [MultiOpen] + GlobalCalls(ModuleIds(keys, resources, config.view), config), ConfigCalls(imports),
                [MultiClose, ExportConfigure]);
    AppendThree(pre, [MultiOpen], GlobalCalls(ModuleIds(keys, resources, config.view), config), ConfigCalls(imports));
  }

  /** Single mode: a subfolder exports its array, the top level a `configure` that registers it. */
  method RenderSingleEnd(buf: array<char>, offset: nat, ghost pre: seq<string>, level: int)
    returns (next: nat, ghost chunks: seq<string>)
    requires Holds(buf, offset, Concat(pre))
    modifies buf
    ensures chunks == pre + SingleEnd(level)
    ensures Holds(buf, next, Concat(chunks))
  {
    if level != 0 {
      next := Append(buf, offset, ExportResources, pre);
      chunks := pre + [ExportResources];
    } else {
      next := Append(buf, offset, ConfigureOpen, pre);
      chunks := pre + [ConfigureOpen];
      next := Append(buf, next, ConfigureAll, chunks);
      chunks := chunks + [ConfigureAll];
      next := Append(buf, next, ConfigureClose, chunks);
      chunks := chunks + [ConfigureClose];
    }
  }

  /** Single mode: the `resources` array, one module id per line, commas between them. */
  method RenderArray(buf: array<char>, offset: nat, ghost pre: seq<string>, keys: seq<string>,
                     resources: map<string, Kinds>, config: Config)
    returns (next: nat, ghost chunks: seq<string>)
    requires Holds(buf, offset, Concat(pre))
    modifies buf
    ensures chunks == pre + ArrayChunks(ModuleIds(keys, resources, config.view), config)
    ensures Holds(buf, next, Concat(chunks))
  {
    if |keys| > 0 {
      ghost var entries := ArrayEntries(ModuleIds(keys, resources, config.view), config);
      next := Append(buf, offset, ArrayOpen, pre);
      chunks := pre + [ArrayOpen];
      next, chunks := RenderArrayEntries(buf, next, chunks, keys, resources, config);
      next := Append(buf, next, ArrayClose, chunks);
      chunks := chunks + [ArrayClose];
      AppendThree(pre, [ArrayOpen], entries, [ArrayClose]);
    } else {
      next := Append(buf, offset, EmptyArray, pre);
      chunks := pre + [EmptyArray];
    }
  }

  /** The array lines: `idx` counts the keys written, and every line but the last takes a comma. */
  method RenderArrayEntries(buf: array<char>, offset: nat, ghost pre: seq<string>, keys: seq<string>,
                            resources: map<string, Kinds>, config: Config)
    returns (next: nat, ghost chunks: seq<string>)
    requires Holds(buf, offset, Concat(pre))
    modifies buf
    ensures chunks == pre + ArrayEntries(ModuleIds(keys, resources, config.view), config)
    ensures Holds(buf, next, Concat(chunks))
  {
    ghost var ids := ModuleIds(keys, resources, config.view);
    ghost var entries := ArrayEntries(ids, config);
    next := offset;
    chunks := pre;
    var idx := 0;
    var k := 0;
    while k < |keys|
      invariant 0 <= k <= |keys| && idx == k
      invariant chunks == pre + entries[..k]
      invariant Holds(buf, next, Concat(chunks))
    {
      var key := keys[k];
      idx := idx + 1;
      var comma := if idx < |keys| then "," else "";
      var resource := if key in resources && resources[key].js then key else key + "." + config.view;
      var line := "  " + WrapModuleName(resource, config) + comma + "\n";
      assert line == entries[k];
      next := Append(buf, next, line, chunks);
      chunks := chunks + [line];
      assert entries[..k + 1] == entries[..k] + [line];
      k := k + 1;
    }
    assert entries[..|keys|] == entries;
  }

  /** Single mode: one block per subfolder copying its resources into `resources`. */
  method RenderFlatten(buf: array<char>, offset: nat, ghost pre: seq<string>, imports: seq<string>, level: int)
    returns (next: nat, ghost chunks: seq<string>)
    requires Holds(buf, offset, Concat(pre))
    modifies buf
    ensures chunks == pre + FlattenBlocks(imports, level)
    ensures Holds(buf, next, Concat(chunks))
  {
    next := offset;
    chunks := pre;
    var prefix := if level != 0 then "" else "./";
    var i := 0;
    while i < |imports|
      invariant 0 <= i <= |imports|
      invariant chunks == pre + FlattenBlocks(imports[..i], level)
      invariant Holds(buf, next, Concat(chunks))
    {
      next, chunks := RenderFlattenBlock(buf, next, chunks, imports[i], prefix, level);
      FlattenBlocksStep(imports, i, level);
      AppendTwo(pre, FlattenBlocks(imports[..i], level), FlattenBlock(imports[i], level));
      i := i + 1;
    }
    assert imports[..|imports|] == imports;
  }

  lemma FlattenBlocksStep(imports: seq<string>, i: nat, level: int)
    requires i < |imports|
    ensures FlattenBlocks(imports[..i + 1], level) == FlattenBlocks(imports[..i], level) + FlattenBlock(imports[i], level)
  {
    assert imports[..i + 1][..i] == imports[..i];
  }

  lemma AppendTwo(p: seq<string>, a: seq<string>, b: seq<string>)
    ensures p + a + b == p + (a + b)
  {
  }

  /** The three lines for one subfolder; `prefix` is `PushPrefix(level)`. */
  method RenderFlattenBlock(buf: array<char>, offset: nat, ghost pre: seq<string>, name: string, prefix: string, level: int)
    returns (next: nat, ghost chunks: seq<string>)
    requires prefix == PushPrefix(level)
    requires Holds(buf, offset, Concat(pre))
    modifies buf
    ensures chunks == pre + FlattenBlock(name, level)
    ensures Holds(buf, next, Concat(chunks))
  {
    var a := ToCamelCase(name) + ".forEach((module) => {\n";
    var b := "  resources.push('" + prefix + name + "/' + module);\n";
    next := Append(buf, offset, a, pre);
    next := Append(buf, next, b, pre + [a]);
    next := Append(buf, next, ForEachClose, pre + [a] + [b]);
    chunks := pre + [a] + [b] + [ForEachClose];
  }

  /** Any other mode: one `config.globalResources` call per resource. */
  method RenderGlobalCalls(buf: array<char>, offset: nat, ghost pre: seq<string>, keys: seq<string>,
                           resources: map<string, Kinds>, config: Config)
    returns (next: nat, ghost chunks: seq<string>)
    requires Holds(buf, offset, Concat(pre))
    modifies buf
    ensures chunks == pre + GlobalCalls(ModuleIds(keys, resources, config.view), config)
    ensures Holds(buf, next, Concat(chunks))
  {
    ghost var ids := ModuleIds(keys, resources, config.view);
    next := offset;
    chunks := pre;
    if |keys| > 0 {
      var k := 0;
      while k < |keys|
        invariant 0 <= k <= |keys|
        invariant chunks == pre + GlobalCalls(ids, config)[..k]
        invariant Holds(buf, next, Concat(chunks))
      {
        var key := keys[k];
        var resource := if key in resources && resources[key].js then key else key + "." + config.view;
        var line := "  config.globalResources(" + WrapModuleName(resource, config) + ");\n";
        next := Append(buf, next, line, chunks);
        chunks := chunks + [line];
        assert GlobalCalls(ids, config)[..k + 1] == GlobalCalls(ids, config)[..k] + [line];
        k := k + 1;
      }
    }
    assert GlobalCalls(ids, config)[..|keys|] == GlobalCalls(ids, config);
  }

  /** Any other mode: one call of each subfolder's `configure`. */
  method RenderConfigCalls(buf: array<char>, offset: nat, ghost pre: seq<string>, imports: seq<string>)
    returns (next: nat, ghost chunks: seq<string>)
    requires Holds(buf, offset, Concat(pre))
    modifies buf
    ensures chunks == pre + ConfigCalls(imports)
    ensures Holds(buf, next, Concat(chunks))
  {
    next := offset;
    chunks := pre;
    var i := 0;
    while i < |imports|
      invariant 0 <= i <= |imports|
      invariant chunks == pre + ConfigCalls(imports)[..i]
      invariant Holds(buf, next, Concat(chunks))
    {
      var line := "  " + ToCamelCase(imports[i]) + "(config);\n";
      next := Append(buf, next, line, chunks);
      chunks := chunks + [line];
      assert ConfigCalls(imports)[..i + 1] == ConfigCalls(imports)[..i] + [line];
      i := i + 1;
    }
    assert ConfigCalls(imports)[..|imports|] == ConfigCalls(imports);
  }
}
