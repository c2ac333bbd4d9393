/**
 * How one folder's directory listing is sorted into subfolders (`imports`)
 * and resources (a dictionary from base name to the kinds of file seen for
 * it), step by step in the order the entries are handled.
 */
module Classify {
  import opened Wrappers
  import opened Patterns

  /** What `fs.stat` reports for an entry, or that it failed. */
  datatype Stat = Directory | File | Other | StatFailed

  datatype Entry = Entry(name: string, stat: Stat)

  /** The `js` and `html` flags of one resource. */
  datatype Kinds = Kinds(js: bool, html: bool)

  /**
   * The state the listing loop builds: the subfolder names, the resource
   * keys in insertion order, and the dictionary itself.
   */
  datatype Classified = Classified(imports: seq<string>, order: seq<string>, resources: map<string, Kinds>)

  const Empty := Classified([], [], map[])

  /** The property name `resources[base]` uses: an undefined base becomes "undefined". */
  function ResourceKey(base: Option<string>): string {
    if base.Some? then base.value else "undefined"
  }

  function KeyOf(name: string): string {
    ResourceKey(FileBase(name))
  }

  /** `exclusions.includes(base)`, which never holds for an undefined base. */
  predicate IsExcluded(base: Option<string>, exclusions: seq<string>) {
    base.Some? && base.value in exclusions
  }

  /** A regular file that is not the index and whose base is not excluded. */
  predicate Candidate(e: Entry, exclusions: seq<string>) {
    e.stat == File && !IsIndexName(e.name) && !IsExcluded(FileBase(e.name), exclusions)
  }

  /** The entry adds to the resources: a candidate that is a script or a view. */
  predicate Contributes(e: Entry, exclusions: seq<string>) {
    Candidate(e, exclusions) && (IsScriptName(e.name) || IsViewName(e.name))
  }

  /**
   * `resources[key] = resources[key] ? resources[key] : {}` followed by
   * setting the `js` (or `html`) flag.
   */
  function Mark(c: Classified, key: string, js: bool): Classified {
    var prior := if key in c.resources then c.resources[key] else Kinds(false, false);
    var kinds := if js then prior.(js := true) else prior.(html := true);
    Classified(c.imports,
               if key in c.resources then c.order else c.order + [key],
               c.resources[key := kinds])
  }

  /** What handling one entry does to the state. */
  function Step(c: Classified, e: Entry, exclusions: seq<string>): Classified {
    if e.stat == Directory then c.(imports := c.imports + [e.name])
    else if Candidate(e, exclusions) then
      var key := KeyOf(e.name);
      var c1 := if IsScriptName(e.name) then Mark(c, key, true) else c;
      if IsViewName(e.name) then Mark(c1, key, false) else c1
    else c
  }

  /** The state after handling `entries` in order, starting from empty fields. */
  function Classify(entries: seq<Entry>, exclusions: seq<string>): Classified {
    if |entries| == 0 then Empty
    else Step(Classify(entries[..|entries| - 1], exclusions), entries[|entries| - 1], exclusions)
  }

  /** The names of the directory entries, in listing order. */
  function DirectoryNames(entries: seq<Entry>): seq<string> {
    if |entries| == 0 then []
    else DirectoryNames(entries[..|entries| - 1])
         + (if entries[|entries| - 1].stat == Directory then [entries[|entries| - 1].name] else [])
  }

  /** The resource keys of the contributing entries, in listing order, repeats included. */
  function ContributedKeys(entries: seq<Entry>, exclusions: seq<string>): seq<string> {
    if |entries| == 0 then []
    else
      var e := entries[|entries| - 1];
      ContributedKeys(entries[..|entries| - 1], exclusions)
      + (if Contributes(e, exclusions) then [KeyOf(e.name)] else [])
  }

  /** `s` without repeats, each element where it first occurs. */
  function Dedup(s: seq<string>): seq<string> {
    if |s| == 0 then []
    else
      var d := Dedup(s[..|s| - 1]);
      if s[|s| - 1] in d then d else d + [s[|s| - 1]]
  }

  predicate Distinct(s: seq<string>) {
    forall i, j :: 0 <= i < j < |s| ==> s[i] != s[j]
  }

  /** Some entry of the listing contributes a file of the given kind under `key`. */
  predicate Seen(entries: seq<Entry>, exclusions: seq<string>, key: string, js: bool) {
    exists i :: 0 <= i < |entries| && Candidate(entries[i], exclusions) && KeyOf(entries[i].name) == key
                && (if js then IsScriptName(entries[i].name) else IsViewName(entries[i].name))
  }

  /** Every directory entry is appended to `imports`, in listing order, and nothing else is. */
  lemma {:induction false} ClassifyImports(entries: seq<Entry>, exclusions: seq<string>)
    ensures Classify(entries, exclusions).imports == DirectoryNames(entries)
    decreases |entries|
  {
    if |entries| > 0 {
      ClassifyImports(entries[..|entries| - 1], exclusions);
    }
  }

  lemma SeenExtend(entries: seq<Entry>, exclusions: seq<string>, key: string, js: bool)
    requires |entries| > 0
    ensures var e := entries[|entries| - 1];
      Seen(entries, exclusions, key, js) <==>
        Seen(entries[..|entries| - 1], exclusions, key, js)
        || (Candidate(e, exclusions) && KeyOf(e.name) == key && (if js then IsScriptName(e.name) else IsViewName(e.name)))
  {
    var p := entries[..|entries| - 1];
    if Seen(entries, exclusions, key, js) {
      var i :| 0 <= i < |entries| && Candidate(entries[i], exclusions) && KeyOf(entries[i].name) == key
               && (if js then IsScriptName(entries[i].name) else IsViewName(entries[i].name));
      if i < |p| {
        assert p[i] == entries[i];
      }
    }
    if Seen(p, exclusions, key, js) {
      var i :| 0 <= i < |p| && Candidate(p[i], exclusions) && KeyOf(p[i].name) == key
               && (if js then IsScriptName(p[i].name) else IsViewName(p[i].name));
      assert entries[i] == p[i];
    }
  }

  /**
   * A key is in `resources` exactly when some contributing file has that
   * key, and its `js` (`html`) flag is set exactly when one of those files is
   * a script (a view). Every resource has at least one flag.
   */
  lemma {:induction false} ClassifyResources(entries: seq<Entry>, exclusions: seq<string>, key: string)
    ensures var r := Classify(entries, exclusions).resources;
      && (key in r <==> Seen(entries, exclusions, key, true) || Seen(entries, exclusions, key, false))
      && (key in r ==>
            (r[key].js <==> Seen(entries, exclusions, key, true))
            && (r[key].html <==> Seen(entries, exclusions, key, false)))
    decreases |entries|
  {
    if |entries| > 0 {
      ClassifyResources(entries[..|entries| - 1], exclusions, key);
      SeenExtend(entries, exclusions, key, true);
      SeenExtend(entries, exclusions, key, false);
    }
  }

  /**
   * The insertion order lists each resource key exactly once, in the order
   * in which the keys first appear among the contributing files.
   */
  lemma {:induction false} ClassifyOrder(entries: seq<Entry>, exclusions: seq<string>)
    ensures var c := Classify(entries, exclusions);
      && c.order == Dedup(ContributedKeys(entries, exclusions))
      && (forall k :: k in c.order <==> k in c.resources)
    decreases |entries|
  {
    if |entries| > 0 {
      var p := entries[..|entries| - 1];
      var e := entries[|entries| - 1];
      ClassifyOrder(p, exclusions);
      var c := Classify(p, exclusions);
      var keys := ContributedKeys(p, exclusions);
      if e.stat != Directory && Contributes(e, exclusions) {
        var key := KeyOf(e.name);
        assert ContributedKeys(entries, exclusions) == keys + [key];
        assert (keys + [key])[..|keys|] == keys;
        assert key in Dedup(keys) <==> key in c.resources;
      } else {
        assert ContributedKeys(entries, exclusions) == keys;
      }
    }
  }

  lemma {:induction false} DedupDistinct(s: seq<string>)
    ensures Distinct(Dedup(s))
    ensures forall x :: x in Dedup(s) <==> x in s
    decreases |s|
  {
    if |s| > 0 {
      DedupDistinct(s[..|s| - 1]);
      assert s == s[..|s| - 1] + [s[|s| - 1]];
    }
  }

  /** No key is listed twice, so no resource is emitted twice. */
  lemma ClassifyOrderDistinct(entries: seq<Entry>, exclusions: seq<string>)
    ensures Distinct(Classify(entries, exclusions).order)
  {
    ClassifyOrder(entries, exclusions);
    DedupDistinct(ContributedKeys(entries, exclusions));
  }

  /**
   * An excluded base name never becomes a resource. The one way round it is
   * the key "undefined": a file without a base is filed under it even when
   * "undefined" is listed as an exclusion.
   */
  lemma ExcludedNeverResource(entries: seq<Entry>, exclusions: seq<string>, key: string)
    requires key in exclusions && key in Classify(entries, exclusions).resources
    ensures key == "undefined"
    ensures exists i :: 0 <= i < |entries| && Contributes(entries[i], exclusions) && FileBase(entries[i].name).None?
  {
    ClassifyResources(entries, exclusions, key);
    var js :| Seen(entries, exclusions, key, js);
    var i :| 0 <= i < |entries| && Candidate(entries[i], exclusions) && KeyOf(entries[i].name) == key
             && (if js then IsScriptName(entries[i].name) else IsViewName(entries[i].name));
  }

  /** A script named `.js` has no base and is filed under "undefined", exclusions notwithstanding. */
  lemma UndefinedKeyExample()
    ensures "undefined" in Classify([Entry(".js", File)], ["undefined"]).resources
  {
    FileBaseUndefined();
    var e := Entry(".js", File);
    var ex := ["undefined"];
    assert [e][..0] == [];
    assert Classify([e], ex) == Step(Empty, e, ex);
    assert !IsIndexName(".js");
    assert IsScriptName(".js") by {
      assert FoldedAt(".js", 0, ".js");
    }
    assert Candidate(e, ex);
    var c1 := Mark(Empty, "undefined", true);
    assert "undefined" in c1.resources;
  }

  /**
   * The listing loop: handles the entries one by one, in the order their
   * `fs.stat` calls complete, updating the subfolder list and the resource
   * dictionary in place. An entry whose stat failed changes nothing, and
   * `statted` reports whether every stat succeeded.
   */
  method ListResources(entries: seq<Entry>, exclusions: seq<string>) returns (c: Classified, statted: bool)
    ensures c == Classify(entries, exclusions)
    ensures statted <==> forall i :: 0 <= i < |entries| ==> entries[i].stat != StatFailed
  {
    var imports: seq<string> := [];
    var order: seq<string> := [];
    var resources: map<string, Kinds> := map[];
    statted := true;
    var i := 0;
    while i < |entries|
      invariant 0 <= i <= |entries|
      invariant Classified(imports, order, resources) == Classify(entries[..i], exclusions)
      invariant statted <==> forall j :: 0 <= j < i ==> entries[j].stat != StatFailed
    {
      var e := entries[i];
      if e.stat == StatFailed {
        statted := false;
      } else if e.stat == Directory {
        imports := imports + [e.name];
      } else if e.stat == File && !IsIndexName(e.name) {
        var base := FileBase(e.name);
        if !(base.Some? && base.value in exclusions) {
          var key := if base.Some? then base.value else "undefined";
          if IsScriptName(e.name) {
            var kinds := if key in resources then resources[key] else Kinds(false, false);
            if key !in resources {
              order := order + [key];
            }
            resources := resources[key := kinds.(js := true)];
          }
          if IsViewName(e.name) {
            var kinds := if key in resources then resources[key] else Kinds(false, false);
            if key !in resources {
              order := order + [key];
            }
            resources := resources[key := kinds.(html := true)];
          }
        }
      }
      assert entries[..i + 1][..i] == entries[..i];
      i := i + 1;
    }
    assert entries[..|entries|] == entries;
    c := Classified(imports, order, resources);
  }
}
