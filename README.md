# aurelia-resource-index, modelled in Dafny

aurelia-resource-index walks a folder tree of Aurelia resources. It writes an
`index.js` into every folder. That file registers the folder's scripts and
views as global resources and pulls in the `index.js` of each subfolder.
The generator exists in two forms, and both are modelled here:

- the `IndexGenerator` class (`src/index-generator.js`), modelled as the class
  `Generator.IndexGenerator`. Its fields are the configuration, the root, the
  level, the subfolder list, the resource dictionary and the exclusions, and
  its methods update them in place;
- the `generateFolderIndex` function (`src/index.js`), modelled as the method
  `FolderIndex.GenerateFolderIndex`. It keeps the same state in locals, and
  its index has no generated-file comment.

What the model covers:

- **File-name patterns** (`Patterns`). These are the `index`, `js` and `html`
  regular expressions, matched up to ASCII case. The `index` pattern's dot is
  unescaped; the model keeps it that way and proves that this makes no
  difference on names that could become resources. The `base` capture
  (`fileBase`) follows the leftmost-match rule of `String.prototype.match`.
  The `/[,\s]+/` split (`SplitSeparators`) follows `String.prototype.split`,
  and `SeparatorRuns` shows that it cuts exactly at the maximal runs of
  separators.
- **Names** (`Naming`). `toCamelCase` and `wrapModuleName`: PLATFORM
  wrapping when `pal` is set, a bare quoted id in single mode, and a `./` id
  otherwise.
- **Exclusions** (`Exclusions`). For a string root, `readExclusions` never
  rejects: every failure gives the empty list. The text of the `.resourceignore` file is trimmed and
  split on runs of commas and whitespace. An empty file is split too, because
  a file buffer is always truthy.
- **Listing** (`Classify`). Entries are handled in the order their `fs.stat`
  calls complete. Directories are appended to the subfolder list. Regular
  files other than the index whose base is not excluded set the `js` or
  `html` flag of `resources[base]`. A file without a base is filed under the
  property name `"undefined"`.
- **Key order** (`JsObject`). `Object.keys` lists keys that look like array
  indices first, in ascending numeric order, then the other keys in
  insertion order.
- **Rendering** (`Render`, `RenderFacts`). The index text is the sequence of
  strings passed to `buf.write`. They are written into a zero-filled buffer of
  4096 characters, and whatever does not fit is dropped. Lemmas read back
  the strings written: the import lines, `globalResources` calls,
  `configure` calls, `push` targets and ending. They count whole strings
  passed to `buf.write`, not substrings of the text: a subfolder named
  `config.globalResources(resources)` puts that text inside an import line
  too. The written file is that
  full text whenever it fits in the buffer (`Generator.WrittenIndexShape`);
  past 4096 characters the file loses its later lines, ending included.
- **Runs** (`Generator`, `FolderIndex`). `run` and `generateFolderIndex`
  decide whether an index is written, with what text, and which subfolder
  runs start.

The file system enters the model as values. A `Folder` holds what
`.resourceignore` yields, the listing in stat-completion order (or a failed
readdir), and the current contents of `index.js`. The outcome of the
subfolder runs that `generateFolderIndex` waits on is a parameter.

## Model

| member | source | states |
|---|---|---|
| JsText.ToLowerIdempotent | src/index-generator.js:34 | lower-casing twice is lower-casing once |
| JsText.ToLowerEqual | src/index-generator.js:34 | two strings lower to the same text exactly when they agree character by character up to ASCII case |
| JsText.ToLowerAppend | src/index-generator.js:34 | lower-casing a concatenation lower-cases each part |
| JsText.TrimSpec | src/index-generator.js:236 | `trim()` removes exactly a run of whitespace at each end, and the result neither starts nor ends with whitespace |
| JsText.Split | src/index-generator.js:32 | `split('-')` gives at least one part, and no part holds the separator |
| JsText.JoinSplit | src/index-generator.js:32 | joining the parts of a split on the same character gives back the input |
| JsText.SplitJoin | src/index-generator.js:32 | splitting a join of separator-free parts gives back the parts |
| Patterns.IndexPatternOnResourceNames | src/index-generator.js:17 | on a script or view name, the index pattern with its unescaped dot matches exactly `index.js`, `index.mjs` and `index.ts` up to case |
| Patterns.IndexNameDot | src/index-generator.js:17 | a script or view name that the index pattern matches has a real `.` where the pattern's dot stands |
| Patterns.FileBaseIsLeftmostMatch | src/index-generator.js:20-29 | fileBase is undefined exactly when the base pattern matches nowhere; otherwise it is the capture group of the leftmost match |
| Patterns.FileBaseSkipsExtensions | src/index-generator.js:24-29 | `foo.min.js` has base `min`, not `foo` |
| Patterns.FileBaseUndefined | src/index-generator.js:24-29 | `.js` and `README` have no base |
| Patterns.FileBaseView | src/index-generator.js:24-29 | `view.html` has base `view` |
| Patterns.SplitSeparators | src/index-generator.js:236 | `split(/[,\s]+/)` gives at least one piece |
| Patterns.SplitSeparatorsPieces | src/index-generator.js:236 | no piece holds a comma or whitespace |
| Patterns.SplitSeparatorsInterior | src/index-generator.js:236 | only the first and the last piece can be empty |
| Patterns.SplitSeparatorsLast | src/index-generator.js:236 | the last piece is non-empty when the text does not end with a separator |
| Patterns.SplitSeparatorsKeepsText | src/index-generator.js:236 | the pieces put together are the text with its separators removed |
| SeparatorRuns.SplitSeparatorsDecompose | src/index-generator.js:236 | every text is its pieces with non-empty runs of separators between them, so the split cuts exactly at the maximal separator runs |
| SeparatorRuns.SplitSeparatorsInterleave | src/index-generator.js:236 | joining separator-free words with any non-empty separator runs and splitting again gives back the words, when no inner word is empty |
| Naming.Capitalize | src/index-generator.js:36 | capitalising a word keeps its length |
| Naming.ToCamelCaseScans | src/index-generator.js:31-38 | toCamelCase equals a character-by-character scan: first segment lower-cased, each later segment capitalised |
| Naming.ToCamelCaseShape | src/index-generator.js:31-38 | the result holds no `-`, is as long as the input minus its hyphens, and equals the input without hyphens up to case |
| Naming.ToCamelCaseKeeps | src/index-generator.js:31-38 | a character that is neither a letter nor `-` appears in the result only if it appears in the input |
| Naming.ToCamelCaseExample | src/index-generator.js:31-38 | `Ab-cD` becomes `abCd` |
| Naming.UnwrapWrap | src/index-generator.js:210-217 | the module id can be read back from its wrapped form, in every mode |
| Naming.WrapUnwrap | src/index-generator.js:210-217 | every text that reads back to an id is that id wrapped |
| Naming.WrapModuleNameInjective | src/index-generator.js:210-217 | two ids have the same wrapped form exactly when they are equal |
| Exclusions.UnseparatedTrim | src/index-generator.js:236 | trimming before the split removes no text the split keeps |
| Exclusions.ReadExclusionsTokens | src/index-generator.js:226-252 | no exclusion holds a separator; a readable file gives at least one entry, and its entries put together are its text without separators; any failure gives none |
| Exclusions.ReadExclusionsEmptyFile | src/index-generator.js:235-236 | an empty `.resourceignore` excludes the base name `""` |
| Exclusions.ReadExclusionsNonEmpty | src/index-generator.js:236 | no exclusion is `""` unless the trimmed text is empty or starts or ends with a comma |
| Exclusions.ReadExclusionsRoundTrip | src/index-generator.js:226-252 | a file listing non-empty names with any run of commas and whitespace between each two gives back exactly those names |
| Exclusions.ReadExclusionsCuts | src/index-generator.js:236 | the trimmed file text is its exclusions with the dropped separator runs between them |
| JsObject.ObjectKeysOrder | src/index-generator.js:131 | `Object.keys` is a permutation of the insertion order: index-like keys come first in ascending value, and the other keys keep their insertion order |
| JsObject.ObjectKeysPlain | src/index-generator.js:131 | with no index-like key, `Object.keys` is the insertion order |
| JsObject.ObjectKeysExample | src/index-generator.js:131 | keys added as `nav`, `10`, `2` are listed as `2`, `10`, `nav` |
| Classify.ClassifyImports | src/index-generator.js:96-114 | the subfolder list is exactly the directory entries, in listing order |
| Classify.ClassifyResources | src/index-generator.js:101-111 | a key is a resource exactly when some non-index, non-excluded file has that base and is a script or a view; its `js` (`html`) flag is set exactly when such a script (view) exists |
| Classify.ClassifyOrder | src/index-generator.js:104-108 | resource keys are listed in the order they first appear among contributing files, and the list holds exactly the dictionary's keys |
| Classify.ClassifyOrderDistinct | src/index-generator.js:106 | no resource key is listed twice |
| Classify.ExcludedNeverResource | src/index-generator.js:102-103 | an excluded name is never a resource, except `"undefined"`, and then only because a file without a base was filed under it |
| Classify.UndefinedKeyExample | src/index-generator.js:102-107 | a script named `.js` is filed under `"undefined"` even when `undefined` is excluded |
| Classify.ListResources | src/index-generator.js:96-115 | the listing loop builds the state the listing specification gives, and reports whether every stat succeeded |
| Render.ModuleIds | src/index-generator.js:157 | one module id per key |
| Render.ImportLines | src/index-generator.js:146-148 | one import line per subfolder |
| Render.ArrayEntries | src/index-generator.js:155-159 | one array line per module id |
| Render.FlattenBlocks | src/index-generator.js:165-169 | three lines per subfolder |
| Render.GlobalCalls | src/index-generator.js:180-183 | one `globalResources` call per module id |
| Render.ConfigCalls | src/index-generator.js:185-187 | one `configure` call per subfolder |
| Render.Truncate | src/index-generator.js:139-141 | what fits of a text in the 4096-character buffer is a prefix of at most 4096 characters, and the whole text when it fits |
| Render.TruncateAppend | src/index-generator.js:141-190 | writing `s` after what fits of `w` adds the prefix of `s` that still fits |
| Render.Write | src/index-generator.js:141 | `buf.write(s, offset)` copies what fits of `s` from `offset` on, returns how much, and leaves the rest of the buffer alone |
| Render.Append | src/index-generator.js:143 | `offset += buf.write(s, offset)` keeps the buffer holding what fits of everything written so far, now followed by `s` |
| Render.RenderIndex | src/index-generator.js:130-192 | the fresh buffer holds what fits of the index text for the subfolders and keys, and `len` is its length |
| Render.RenderImports | src/index-generator.js:145-150 | writes one import line per subfolder and a blank line, only when there are subfolders |
| Render.RenderBody | src/index-generator.js:151-190 | writes the single-mode or the multi-call body by `config.mode` |
| Render.RenderSingleBody | src/index-generator.js:151-176 | writes the array, the subfolder blocks and the single-mode ending |
| Render.RenderMultiBody | src/index-generator.js:177-190 | writes the `configure` function, its calls and its export |
| Render.RenderSingleEnd | src/index-generator.js:170-176 | a subfolder exports its array; the top level exports a `configure` that registers it |
| Render.RenderArray | src/index-generator.js:152-163 | writes the `resources` array, or the empty array when there are no resources |
| Render.RenderArrayEntries | src/index-generator.js:154-159 | writes one wrapped module id per line, with a comma on every line but the last |
| Render.RenderFlatten | src/index-generator.js:164-169 | writes one push block per subfolder, in order |
| Render.RenderFlattenBlock | src/index-generator.js:166-168 | writes the three lines of one subfolder's block, prefixed `./` only at level 0 |
| Render.RenderGlobalCalls | src/index-generator.js:179-184 | writes one `config.globalResources` call per resource |
| Render.RenderConfigCalls | src/index-generator.js:185-187 | writes one call of each subfolder's `configure` |
| RenderFacts.WrapLast | src/index-generator.js:210-217 | a wrapped module name starts with a quote or `P` and ends with a quote or `)` |
| RenderFacts.ClassAddsHeader | src/index-generator.js:139-141 | the class's index is the function's index with the generated-file comment in front |
| RenderFacts.ImportLineParses | src/index-generator.js:147 | a subfolder name can be read back from its import line |
| RenderFacts.ImportLinesAreSubfolders | src/index-generator.js:145-150 | among the strings written for the full index text, the import lines name exactly the subfolders, each once, in listing order |
| RenderFacts.PalImportOnlyWithResources | src/index-generator.js:142-144 | among the strings written for the full index text, the PLATFORM import appears once when `pal` is set and there is a resource, and never otherwise |
| RenderFacts.ConfigureRegistersOnce | src/index-generator.js:170-176 | among the strings written for the full index text, `config.globalResources(resources)` appears once in a single-mode top-level index and nowhere else |
| RenderFacts.EmptyArrayWithoutResources | src/index-generator.js:161-163 | among the strings written for the full index text, `let resources = [];` appears once in single mode without resources, and not otherwise |
| RenderFacts.GlobalCallsAreResources | src/index-generator.js:179-184 | outside single mode, the `globalResources` calls among the strings written for the full index text register the module ids, each once, in key order |
| RenderFacts.ConfigCallsAreSubfolders | src/index-generator.js:185-187 | outside single mode, among the strings written for the full index text, `configure` calls each subfolder's camel-cased import once, in listing order |
| RenderFacts.PushesAreSubfolders | src/index-generator.js:164-169 | in single mode, among the strings written for the full index text, each subfolder's resources are pushed once, in order, under `./name/` at level 0 and `name/` below |
| RenderFacts.ArrayText | src/index-generator.js:152-163 | the array lists the wrapped ids one per line, separated by commas, or is `[]` without resources |
| RenderFacts.IndexEnding | src/index-generator.js:170-190 | the full index text ends with `export default configure`, with `export default resources` in a single-mode subfolder, or with the exported `configure` at the single-mode top level |
| Generator.CompareAsWrittenAlwaysRewrites | src/index-generator.js:200-208 | the comparison as written never finds an index unchanged: a failed read, or a file shorter than the 4096-character buffer, never equals it |
| Generator.BufferOf | src/index-generator.js:139-141 | the whole buffer is 4096 characters and starts with what fits of the index text |
| Generator.RunAsWrittenAlwaysWrites | src/index-generator.js:56-88 | as written, every successful run writes the index, whatever `index.js` holds; failures are those of the corrected run |
| Generator.RerunWritesNothing | src/index-generator.js:79-84 | (corrected) after an index is written, a second run writes nothing, whether its listing is unchanged or now also holds the new `index.js` at any position |
| Generator.ClassifyIgnoresIndex | src/index-generator.js:101 | a file the index pattern matches, at any position of the listing, leaves the state as it is without that file |
| Generator.IndexEntryInvisible | src/index-generator.js:96-114 | inserting `index.js` anywhere in a listing changes neither whether every stat succeeds nor the state the listing builds |
| Generator.WrittenIndexShape | src/index-generator.js:139-198 | every written index starts with the generated-file comment, is at most 4096 characters, and is a prefix of the full text, equal to it when it fits |
| Generator.TruncateKeepsHeader | src/index-generator.js:139-141 | cutting an index to the buffer keeps its generated-file comment |
| Generator.RunChecksBeforeIO | src/index-generator.js:56-62 | a missing config or root fails the run whatever the folder holds |
| Generator.IndexGenerator.constructor | src/index-generator.js:47-54 | a level that is not a number becomes 0; the lists and the dictionary start empty |
| Generator.IndexGenerator.ReadExclusions | src/index-generator.js:226-252 | sets the exclusions to what the `.resourceignore` file gives, touching nothing else |
| Generator.IndexGenerator.GetResourceList | src/index-generator.js:90-117 | empties the state, then fills it as the listing specification says; rejects when readdir or any stat fails |
| Generator.IndexGenerator.GenerateIndexBuffer | src/index-generator.js:130-192 | the buffer holds what fits of the index text for the current state, in `Object.keys` order |
| Generator.IndexGenerator.CompareIndexFile | src/index-generator.js:200-208 | (corrected) for a buffer holding the index text, equal exactly when `index.js` holds what fits of that text |
| Generator.IndexGenerator.WriteIndexFile | src/index-generator.js:194-198 | for a buffer holding the index text, writes what fits of that text: at most 4096 characters, the whole text when it fits |
| Generator.IndexGenerator.ProcessSubFolders | src/index-generator.js:119-128 | one new, distinct generator per subfolder, in order, for `root/name` at the next level, with empty state |
| Generator.IndexGenerator.Run | src/index-generator.js:56-88 | (corrected) the outcome is the run specification: the error, or the text written (none when `index.js` already holds it). A missing config or root leaves the state alone; otherwise the exclusions are the `.resourceignore` result, and the state is empty after a failed readdir and the listing's otherwise. The children are distinct new generators for the subfolders, with empty state |
| FolderIndex.SubfolderCalls | src/index.js:122-128 | one recursive call per subfolder, on `root/name` at the next level |
| FolderIndex.GenerateFolderIndex | src/index.js:102-207 | throws for a missing config; rejects for a failed readdir, a failed stat or a failed subfolder run, in that order; otherwise writes what fits of the index without the comment; starts a run for every subfolder whenever readdir succeeds |
| FolderIndex.FunctionAndClassAgree | src/index.js:153-157 | the function and the class accept and reject the same folders for the same reason, and their indexes differ only by the class's comment whenever it fits |

## Left out

- File-system calls, `console.log` and promise scheduling are not executed. Their outcomes are inputs: the `.resourceignore` result, the listing in stat-completion order, the existing `index.js`, and how the subfolder runs end.
- Generator.IndexGenerator.Run: does not run the child generators. It returns them, and RunResult describes each child's run; that the returned promise waits on the children is not modelled.
- FolderIndex.GenerateFolderIndex: `Failure(MissingConfig)` stands for the synchronous throw before any promise exists, not for a rejected promise; a caller's `.catch` never sees it.
- Generator.IndexGenerator.Run: `Failure(MissingConfig)` and `Failure(MissingRoot)` stand for synchronous throws before any promise exists, not for rejected promises.
- Generator.RerunWritesNothing: the second run is taken to see the stats complete in the same order as the first, apart from the new `index.js`. Another order can reorder the subfolders and the keys, and then the index is rewritten.
- FolderIndex.GenerateFolderIndex: the outcome of the subfolder runs is an input, limited to what they can produce: a rejection only when there is a subfolder, and never for a missing configuration or root.
- FolderIndex.GenerateFolderIndex: the recursive calls are returned, not executed. When both a stat and a subfolder run fail, which rejection wins depends on timing; the model reports the stat failure.
- Write failures of `fs.writeFile` are not modelled: a write is taken to succeed.
- `Path.resolve(root, name)` is modelled as `root + "/" + name`, with no normalisation.
- Case mapping covers ASCII letters only. For the regular expressions this is exact, since their literals are ASCII and without the `u` flag no other character folds onto an ASCII letter. `toLowerCase` and `toUpperCase` in toCamelCase also map non-ASCII letters, which the model leaves unchanged.
- `Buffer.write` counts UTF-8 bytes; the model counts one unit per character. Names with non-ASCII characters may truncate differently.
- Bases that name `Object.prototype` members are treated as ordinary keys, one folder at a time. In the source, `resources[base]` for `constructor`, `toString`, `valueOf`, `hasOwnProperty`, `isPrototypeOf` and the like is the inherited built-in function; it is truthy, so that shared function is stored and its `js`/`html` flag set, and the flag outlives the folder for every later generator in the process (with `a/constructor.js` and `b/constructor.html`, `b` registers `'constructor'` instead of `'constructor.html'`). For `__proto__` the flags land on `Object.prototype` itself, so the key is never listed and every later view-only resource in the process renders as a script id.
- A root that is not a string is not modelled (`root` is a string, and "" stands for a missing root). `Path.resolve` then throws inside `readExclusions`, so `generateFolderIndex(undefined, config)` and a class run with a truthy non-string root reject.
- Generator.IndexGenerator.Run: after a failed stat, the state is that of the whole listing, as it is once every pending stat callback has run; at the moment the promise rejects, only a prefix of the listing may have been handled.
- `Promise.all` resolves in input order; only its rejection matters here.
- The `MODE.skipEmptyFolder` branch is switched off by a constant and is not modelled.
- A level that is not a number becomes 0. A `NaN` level is not modelled: levels are integers.
- The configuration's `mode` and `view` are strings and `pal` is its truthiness; other types for these options are not modelled.
- Resource keys are not sorted: the index lists them in `Object.keys` order, which is what the code does.

## Findings

| source | as written | input that shows it | evidently intended | confidence | as-written member | corrected member |
|---|---|---|---|---|---|---|
| src/index-generator.js:200-208 | `compareIndexFile` reads `this.root`, the folder itself, and compares the whole 4096-byte buffer with what it read | any folder: reading a directory fails; even the right file holding the written text is shorter than the buffer unless the index fills it exactly | compare the existing `index.js` with the first `len` bytes of the buffer, so an unchanged index is not rewritten | not executed | Generator.RunAsWrittenAlwaysWrites, Generator.CompareAsWrittenAlwaysRewrites | Generator.IndexGenerator.CompareIndexFile, Generator.RerunWritesNothing |
