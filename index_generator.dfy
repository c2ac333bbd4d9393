/**
 * The `IndexGenerator` class: one generator per folder, holding the
 * configuration, the folder, its depth below the top folder and the state
 * the listing builds. `Run` reads the exclusions, lists the folder,
 * renders the index, writes it unless the existing one is identical, and
 * creates one generator per subfolder.
 */
module Generator {
  import opened Wrappers
  import opened JsText
  import opened Configuration
  import opened Classify
  import opened Exclusions
  import opened Patterns
  import opened JsObject
  import opened Render
  import RenderFacts

  /** Why a run stops. */
  datatype RunError =
    | MissingConfig     // thrown before any I/O
    | MissingRoot       // thrown before any I/O
    | ListingFailed     // fs.readdir rejected
    | EntryStatFailed   // some fs.stat rejected, so Promise.all rejected

  /**
   * What the file system holds for one folder: its `.resourceignore`, its
   * listing (entries in the order their stats complete; None when readdir
   * fails) and the current contents of its `index.js` (None when it cannot
   * be read).
   */
  datatype Folder = Folder(ignore: IgnoreFile, listing: Option<seq<Entry>>, index: Option<string>)

  /** `Path.resolve(root, name)` for a name without separators. */
  function ChildPath(root: string, name: string): string {
    root + "/" + name
  }

  /** The module ids the index lists, in `Object.keys` order. */
  function ResourceIds(config: Config, c: Classified): seq<string> {
    ModuleIds(ObjectKeys(c.order), c.resources, config.view)
  }

  /** What of the class's index for state `c` fits in the 4096-character buffer. */
  function IndexFor(config: Config, level: int, c: Classified): string {
    Truncate(IndexText(true, c.imports, ResourceIds(config, c), config, level))
  }

  predicate AllStatted(entries: seq<Entry>) {
    forall i :: 0 <= i < |entries| ==> entries[i].stat != StatFailed
  }

  /**
   * The outcome of `run` on one folder: an error, or the text written to
   * `index.js` (None when the existing file already holds it).
   */
  function RunResult(config: Option<Config>, root: string, level: int, folder: Folder): Result<Option<string>, RunError> {
    if config.None? then Failure(MissingConfig)
    else if root == "" then Failure(MissingRoot)
    else if folder.listing.None? then Failure(ListingFailed)
    else if !AllStatted(folder.listing.value) then Failure(EntryStatFailed)
    else
      var text := IndexFor(config.value, level, Classify.Classify(folder.listing.value, ReadExclusions(folder.ignore)));
      Success(if folder.index == Some(text) then None else Some(text))
  }

  /**
   * compareIndexFile as written: it reads the folder itself, not its
   * `index.js`, and compares the whole 4096-character buffer with what it
   * read. `rootRead` is what reading the folder's own path gives.
   */
  function CompareAsWritten(buffer: seq<char>, rootRead: Option<string>): bool {
    rootRead.Some? && rootRead.value == buffer
  }

  /**
   * The written comparison never finds an index unchanged: reading a
   * folder fails, and even the right file, holding exactly the text
   * written, differs from a buffer that is not full.
   */
  lemma CompareAsWrittenAlwaysRewrites(buffer: seq<char>, len: nat)
    requires |buffer| == BufferSize && len < BufferSize
    ensures !CompareAsWritten(buffer, None)
    ensures !CompareAsWritten(buffer, Some(buffer[..len]))
  {
    assert |buffer[..len]| != |buffer|;
  }

  /** The whole 4096-character buffer after rendering `text`: what fits of it, then zeros. */
  function BufferOf(text: string): (b: seq<char>)
    ensures |b| == BufferSize && b[..|Truncate(text)|] == Truncate(text)
  {
    Truncate(text) + seq(BufferSize - |Truncate(text)|, _ => '\0')
  }

  /**
   * run as written: the same checks and index text as RunResult, but the
   * decision to write uses CompareAsWritten on the whole buffer and on
   * `rootRead`, what reading the folder's own path gives.
   */
  function RunAsWritten(config: Option<Config>, root: string, level: int, folder: Folder, rootRead: Option<string>)
    : Result<Option<string>, RunError>
  {
    match RunResult(config, root, level, folder)
    case Failure(e) => Failure(e)
    case Success(_) =>
      var text := IndexFor(config.value, level, Classify.Classify(folder.listing.value, ReadExclusions(folder.ignore)));
      Success(if CompareAsWritten(BufferOf(text), rootRead) then None else Some(text))
  }

  /**
   * As written, run rewrites the index on every successful run: reading a
   * folder fails, and any file shorter than the buffer differs from it,
   * whatever `index.js` holds.
   */
  lemma RunAsWrittenAlwaysWrites(config: Option<Config>, root: string, level: int, folder: Folder,
                                 rootRead: Option<string>)
    requires rootRead.None? || |rootRead.value| < BufferSize
    ensures RunResult(config, root, level, folder).Failure? ==>
      RunAsWritten(config, root, level, folder, rootRead) == RunResult(config, root, level, folder)
    ensures RunResult(config, root, level, folder).Success? ==>
      RunAsWritten(config, root, level, folder, rootRead)
      == Success(Some(IndexFor(config.value, level, Classify.Classify(folder.listing.value, ReadExclusions(folder.ignore)))))
  {
  }

  /**
   * The generated `index.js` is never a resource: an index-named file, at any
   * position of the listing, leaves the state as it would be without it.
   */
  lemma {:induction false} ClassifyIgnoresIndex(pre: seq<Entry>, post: seq<Entry>, name: string, exclusions: seq<string>)
    requires IsIndexName(name)
    ensures Classify.Classify(pre + [Entry(name, File)] + post, exclusions) == Classify.Classify(pre + post, exclusions)
    decreases |post|
  {
    var x := Entry(name, File);
    if |post| == 0 {
      assert pre + [x] + post == pre + [x];
      assert (pre + [x])[..|pre|] == pre;
      assert pre + post == pre;
    } else {
      var front := post[..|post| - 1];
      ClassifyIgnoresIndex(pre, front, name, exclusions);
      DropLast(pre + [x], post);
      DropLast(pre, post);
    }
  }

  /** Dropping the last entry of `u + v`, for a non-empty `v`. */
  lemma DropLast(u: seq<Entry>, v: seq<Entry>)
    requires |v| > 0
    ensures (u + v)[..|u + v| - 1] == u + v[..|v| - 1]
    ensures (u + v)[|u + v| - 1] == v[|v| - 1]
  {
  }

  /** The listing a second run sees once `index.js` exists: the first listing with it inserted at `i`. */
  function WithIndexEntry(listing: seq<Entry>, i: nat): seq<Entry>
    requires i <= |listing|
  {
    listing[..i] + [Entry("index.js", File)] + listing[i..]
  }

  /**
   * The first run writes the index; a second run writes nothing, whether
   * its listing is the same (an `index.js` was already there) or now holds
   * the new `index.js` at any position among stats completing in the same
   * order.
   */
  lemma RerunWritesNothing(config: Option<Config>, root: string, level: int, folder: Folder, text: string, i: nat)
    requires RunResult(config, root, level, folder) == Success(Some(text))
    requires i <= |folder.listing.value|
    ensures RunResult(config, root, level, folder.(index := Some(text))) == Success(None)
    ensures RunResult(config, root, level,
                      folder.(index := Some(text), listing := Some(WithIndexEntry(folder.listing.value, i))))
            == Success(None)
  {
    var l := folder.listing.value;
    IndexEntryInvisible(l, i, ReadExclusions(folder.ignore));
  }

  /** Inserting `index.js` into a listing keeps every stat and the listing state. */
  lemma IndexEntryInvisible(l: seq<Entry>, i: nat, exclusions: seq<string>)
    requires i <= |l|
    ensures AllStatted(WithIndexEntry(l, i)) <==> AllStatted(l)
    ensures Classify.Classify(WithIndexEntry(l, i), exclusions) == Classify.Classify(l, exclusions)
  {
    IndexJsIsIndexName();
    ClassifyIgnoresIndex(l[..i], l[i..], "index.js", exclusions);
    assert l[..i] + l[i..] == l;
    InsertKeepsStats(l, i);
  }

  lemma IndexJsIsIndexName()
    ensures IsIndexName("index.js")
  {
    assert FoldedAt("index.js", 0, "index");
    assert FoldedAt("index.js", 6, "js");
  }

  /** A listing with `index.js` inserted has a failed stat exactly when the listing has one. */
  lemma InsertKeepsStats(l: seq<Entry>, i: nat)
    requires i <= |l|
    ensures AllStatted(WithIndexEntry(l, i)) <==> AllStatted(l)
  {
    var l2 := WithIndexEntry(l, i);
    forall k | 0 <= k < |l2| && k != i
      ensures l2[k] == l[if k < i then k else k - 1]
    {
    }
    assert l2[i].stat == File;
    if AllStatted(l2) {
      forall k | 0 <= k < |l| ensures l[k].stat != StatFailed {
        assert l[k] == l2[if k < i then k else k + 1];
      }
    }
  }

  /**
   * Every index the class writes starts with the generated-file comment,
   * is at most 4096 characters, and is the full index text whenever that
   * fits.
   */
  lemma WrittenIndexShape(config: Option<Config>, root: string, level: int, folder: Folder, text: string)
    requires RunResult(config, root, level, folder) == Success(Some(text))
    ensures RenderFacts.StartsWith(text, Header)
    ensures |text| <= BufferSize
    ensures var c := Classify.Classify(folder.listing.value, ReadExclusions(folder.ignore));
      var full := IndexText(true, c.imports, ResourceIds(config.value, c), config.value, level);
      text == full[..|text|] && (|full| <= BufferSize ==> text == full)
  {
    var c := Classify.Classify(folder.listing.value, ReadExclusions(folder.ignore));
    var ids := ResourceIds(config.value, c);
    var full := IndexText(true, c.imports, ids, config.value, level);
    assert text == Truncate(full);
    RenderFacts.ClassAddsHeader(c.imports, ids, config.value, level);
    TruncateKeepsHeader(IndexText(false, c.imports, ids, config.value, level));
  }

  /** Cutting an index to the buffer keeps its generated-file comment. */
  lemma TruncateKeepsHeader(rest: string)
    ensures RenderFacts.StartsWith(Truncate(Header + rest), Header)
  {
    var t := Truncate(Header + rest);
    assert |Header| <= |t|;
    assert t[..|Header|] == (Header + rest)[..|Header|];
  }

  /** Only a missing configuration or folder fails without touching the file system. */
  lemma RunChecksBeforeIO(config: Option<Config>, root: string, level: int, folder: Folder, other: Folder)
    requires config.None? || root == ""
    ensures RunResult(config, root, level, folder) == RunResult(config, root, level, other)
    ensures RunResult(config, root, level, folder).Failure?
  {
  }

  class IndexGenerator {
    var config: Option<Config>
    var root: string          // "" stands for a missing root
    var level: int
    var imports: seq<string>
    var order: seq<string>     // the keys of `resources`, in the order they were added
    var resources: map<string, Kinds>
    var exclusions: seq<string>

    /** The listing state, as one value. */
    function State(): Classified
      reads this
    {
      Classified(imports, order, resources)
    }

    /** A level that is not a number (None) becomes 0. */
    constructor (config: Option<Config>, root: string, level: Option<int>)
      ensures this.config == config && this.root == root
      ensures this.level == if level.Some? then level.value else 0
      ensures imports == [] && order == [] && resources == map[] && exclusions == []
    {
      this.config := config;
      this.root := root;
      this.level := if level.Some? then level.value else 0;
      imports := [];
      order := [];
      resources := map[];
      exclusions := [];
    }

    /** Sets (and returns) the exclusions found in the folder's `.resourceignore`. */
    method ReadExclusions(f: IgnoreFile) returns (r: seq<string>)
      modifies this
      ensures exclusions == Exclusions.ReadExclusions(f) && r == exclusions
      ensures config == old(config) && root == old(root) && level == old(level)
      ensures State() == old(State())
    {
      exclusions := [];
      if f.Contents? {
        exclusions := SplitSeparators(Trim(f.text));
      }
      r := exclusions;
    }

    /**
     * Empties the subfolder list and the resources, then lists the folder.
     * `err` is the reason the returned promise rejects, if it does.
     */
    method GetResourceList(listing: Option<seq<Entry>>) returns (err: Option<RunError>)
      modifies this
      ensures listing.None? ==> State() == Empty && err == Some(ListingFailed)
      ensures listing.Some? ==> State() == Classify.Classify(listing.value, exclusions)
      ensures listing.Some? ==> (err.None? <==> AllStatted(listing.value)) && (err.Some? ==> err == Some(EntryStatFailed))
      ensures config == old(config) && root == old(root) && level == old(level) && exclusions == old(exclusions)
    {
      resources := map[];
      order := [];
      imports := [];
      if listing.None? {
        return Some(ListingFailed);
      }
      var c, statted := ListResources(listing.value, exclusions);
      imports, order, resources := c.imports, c.order, c.resources;
      err := if statted then None else Some(EntryStatFailed);
    }

    /** Renders the index for the current state into a fresh buffer. */
    method GenerateIndexBuffer() returns (buf: array<char>, len: nat)
      requires config.Some?
      ensures fresh(buf)
      ensures Holds(buf, len, IndexText(true, imports, ResourceIds(config.value, State()), config.value, level))
    {
      var keys := ObjectKeys(order);
      buf, len := RenderIndex(true, imports, keys, resources, config.value, level);
    }

    /**
     * Whether `index.js` already holds exactly what the buffer holds of the
     * index text `text`: the first `len` characters, not the whole buffer.
     */
    method CompareIndexFile(buf: array<char>, len: nat, existing: Option<string>, ghost text: string)
      returns (equal: bool)
      requires Holds(buf, len, text)
      ensures equal <==> existing == Some(Truncate(text))
    {
      equal := existing.Some? && existing.value == buf[..len];
    }

    /** The text written to `index.js`: what fits of the index text `text` in the buffer. */
    method WriteIndexFile(buf: array<char>, len: nat, ghost text: string) returns (written: string)
      requires Holds(buf, len, text)
      ensures written == Truncate(text)
      ensures |written| <= BufferSize && (|text| <= BufferSize ==> written == text)
    {
      written := buf[..len];
    }

    /** One new generator per subfolder, one level deeper, in the order of `imports`. */
    method ProcessSubFolders() returns (children: seq<IndexGenerator>)
      ensures |children| == |imports|
      ensures forall i :: 0 <= i < |children| ==>
        && fresh(children[i])
        && children[i].config == config && children[i].root == ChildPath(root, imports[i])
        && children[i].level == level + 1
        && children[i].State() == Empty && children[i].exclusions == []
      ensures forall i, j :: 0 <= i < j < |children| ==> children[i] != children[j]
    {
      children := [];
      var i := 0;
      while i < |imports|
        invariant 0 <= i <= |imports| && |children| == i
        invariant forall k :: 0 <= k < i ==>
          && fresh(children[k])
          && children[k].config == config && children[k].root == ChildPath(root, imports[k])
          && children[k].level == level + 1
          && children[k].State() == Empty && children[k].exclusions == []
        invariant forall k, j :: 0 <= k < j < i ==> children[k] != children[j]
      {
        var child := new IndexGenerator(config, ChildPath(root, imports[i]), Some(level + 1));
        children := children + [child];
        i := i + 1;
      }
    }

    /**
     * run: checks the configuration and the folder, reads the exclusions,
     * lists the folder, renders the index and writes it unless `index.js`
     * already holds it, then creates the generators for the subfolders.
     */
    method Run(folder: Folder) returns (r: Result<Option<string>, RunError>, children: seq<IndexGenerator>)
      modifies this
      ensures r == RunResult(old(config), old(root), old(level), folder)
      ensures config == old(config) && root == old(root) && level == old(level)
      ensures config.None? || root == "" ==> State() == old(State()) && exclusions == old(exclusions)
      ensures config.Some? && root != "" ==> exclusions == Exclusions.ReadExclusions(folder.ignore)
      ensures config.Some? && root != "" && folder.listing.None? ==> State() == Empty
      ensures config.Some? && root != "" && folder.listing.Some? ==>
        State() == Classify.Classify(folder.listing.value, exclusions)
      ensures r.Failure? ==> children == []
      ensures r.Success? ==> |children| == |imports| && forall i :: 0 <= i < |children| ==>
        && fresh(children[i])
        && children[i].config == config && children[i].root == ChildPath(root, imports[i])
        && children[i].level == level + 1
        && children[i].State() == Empty && children[i].exclusions == []
      ensures r.Success? ==> forall i, j :: 0 <= i < j < |children| ==> children[i] != children[j]
    {
      children := [];
      if config.None? {
        return Failure(MissingConfig), [];
      }
      if root == "" {
        return Failure(MissingRoot), [];
      }
      var _ := ReadExclusions(folder.ignore);
      var err := GetResourceList(folder.listing);
      if err.Some? {
        return Failure(err.value), [];
      }
      var buf, len := GenerateIndexBuffer();
      ghost var text := IndexText(true, imports, ResourceIds(config.value, State()), config.value, level);
      var equal := CompareIndexFile(buf, len, folder.index, text);
      if !equal {
        var written := WriteIndexFile(buf, len, text);
        r := Success(Some(written));
      } else {
        r := Success(None);
      }
      children := ProcessSubFolders();
    }
  }
}
