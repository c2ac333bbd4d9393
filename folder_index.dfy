/**
 * `generateFolderIndex(root, config, level)`: the function form of the
 * generator. It lists the folder exactly as the class does, starts the run
 * for each subfolder as soon as that subfolder's stat completes, and always
 * writes the index, which has no generated-file comment.
 */
module FolderIndex {
  import opened Wrappers
  import opened Configuration
  import opened Classify
  import opened Exclusions
  import opened JsObject
  import opened Render
  import opened Generator
  import RenderFacts

  /** A recursive call: the subfolder's path and its level. */
  datatype Call = Call(root: string, level: int)

  /** A level that is not a number becomes 0. */
  function LevelOf(level: Option<int>): int {
    if level.Some? then level.value else 0
  }

  /** The recursive calls for the subfolders `names` of `root`, in order. */
  function SubfolderCalls(root: string, level: int, names: seq<string>): (calls: seq<Call>)
    ensures |calls| == |names|
    ensures forall i :: 0 <= i < |names| ==> calls[i] == Call(ChildPath(root, names[i]), level + 1)
  {
    if |names| == 0 then []
    else SubfolderCalls(root, level, names[..|names| - 1]) + [Call(ChildPath(root, names[|names| - 1]), level + 1)]
  }

  /** How the subfolder runs can end: a rejection needs a subfolder, and is never a missing configuration or root. */
  predicate ReachableSubfolders(listing: Option<seq<Entry>>, subfolders: Option<RunError>) {
    subfolders.Some? ==>
      && listing.Some? && |DirectoryNames(listing.value)| > 0
      && subfolders.value != MissingConfig && subfolders.value != MissingRoot
  }

  /**
   * The text written to `index.js`, or why the returned promise rejects.
   * `subfolders` is how the runs started for the subfolders end: None when
   * all of them resolve, or the reason one of them rejects. The index is
   * written only after all of them resolve. A subfolder run can reject only
   * when there is a subfolder, and never for a missing configuration or
   * root: each is passed the same configuration and a resolved path.
   */
  function FolderIndexResult(config: Option<Config>, level: Option<int>, ignore: IgnoreFile, listing: Option<seq<Entry>>,
                             subfolders: Option<RunError>)
    : Result<string, RunError>
    requires ReachableSubfolders(listing, subfolders)
  {
    if config.None? then Failure(MissingConfig)
    else if listing.None? then Failure(ListingFailed)
    else if !AllStatted(listing.value) then Failure(EntryStatFailed)
    else if subfolders.Some? then Failure(subfolders.value)
    else
      var c := Classify.Classify(listing.value, ReadExclusions(ignore));
      Success(Truncate(IndexText(false, c.imports, ResourceIds(config.value, c), config.value, LevelOf(level))))
  }

  /**
   * One call of generateFolderIndex on a folder whose `.resourceignore` is
   * `ignore` and whose listing is `listing`. `calls` are the runs it starts
   * for its subfolders, which happen whenever the listing succeeds, even if
   * the stat of some other entry fails; `subfolders` is how those runs end.
   */
  method GenerateFolderIndex(root: string, config: Option<Config>, level: Option<int>,
                             ignore: IgnoreFile, listing: Option<seq<Entry>>, subfolders: Option<RunError>)
    returns (r: Result<string, RunError>, calls: seq<Call>)
    requires ReachableSubfolders(listing, subfolders)
    ensures r == FolderIndexResult(config, level, ignore, listing, subfolders)
    ensures calls == if config.Some? && listing.Some?
                     then SubfolderCalls(root, LevelOf(level), DirectoryNames(listing.value))
                     else []
  {
    var lvl := LevelOf(level);
    calls := [];
    if config.None? {
      return Failure(MissingConfig), [];
    }
    var exclusions := ReadExclusions(ignore);
    if listing.None? {
      return Failure(ListingFailed), [];
    }
    var c, statted := ListResources(listing.value, exclusions);
    ClassifyImports(listing.value, exclusions);
    calls := SubfolderCalls(root, lvl, c.imports);
    assert statted <==> AllStatted(listing.value);
    if !statted {
      return Failure(EntryStatFailed), calls;
    }
    if subfolders.Some? {
      return Failure(subfolders.value), calls;
    }
    var keys := ObjectKeys(c.order);
    var buf, len := RenderIndex(false, c.imports, keys, c.resources, config.value, lvl);
    r := Success(buf[..len]);
  }

  /**
   * When every subfolder run resolves, the function and the class accept and
   * reject the same folders with the same reason. Their indexes differ only by the class's generated-file
   * comment whenever the class's index fits in the buffer; the class also
   * leaves an unchanged index alone.
   */
  lemma FunctionAndClassAgree(config: Config, root: string, level: int, folder: Folder)
    requires root != ""
    ensures var f := FolderIndexResult(Some(config), Some(level), folder.ignore, folder.listing, None);
      var g := RunResult(Some(config), root, level, folder);
      && (f.Failure? <==> g.Failure?)
      && (f.Failure? ==> f.error == g.error)
      && (f.Success? && |Header| + |f.value| <= BufferSize ==>
            g == Success(if folder.index == Some(Header + f.value) then None else Some(Header + f.value)))
  {
    var f := FolderIndexResult(Some(config), Some(level), folder.ignore, folder.listing, None);
    if f.Success? {
      var c := Classify.Classify(folder.listing.value, ReadExclusions(folder.ignore));
      var ids := ResourceIds(config, c);
      var rest := IndexText(false, c.imports, ids, config, level);
      RenderFacts.ClassAddsHeader(c.imports, ids, config, level);
      if |Header| + |f.value| <= BufferSize {
        assert f.value == rest;
      }
    }
  }
}
