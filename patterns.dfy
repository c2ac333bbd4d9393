/**
 * The regular expressions of the generator (REGEX in both source files),
 * written out as predicates and functions on names.
 */
module Patterns {
  import opened Wrappers
  import opened JsText

  /** `word`, given in lower case, occurs at `start` in `name` up to case. */
  predicate FoldedAt(name: string, start: nat, word: string) {
    start + |word| <= |name| && forall i :: 0 <= i < |word| ==> LowerChar(name[start + i]) == word[i]
  }

  /** Case-insensitive test that `name` ends with `suffix`, which is given in lower case. */
  predicate EndsWithFolded(name: string, suffix: string) {
    |suffix| <= |name| && FoldedAt(name, |name| - |suffix|, suffix)
  }

  /** REGEX.js, `/\.(js|mjs|ts)$/i`: a script file. */
  predicate IsScriptName(name: string) {
    EndsWithFolded(name, ".js") || EndsWithFolded(name, ".mjs") || EndsWithFolded(name, ".ts")
  }

  /** REGEX.html, `/\.(ejs|pug|jade|html)$/i`: a view template. */
  predicate IsViewName(name: string) {
    || EndsWithFolded(name, ".ejs") || EndsWithFolded(name, ".pug")
    || EndsWithFolded(name, ".jade") || EndsWithFolded(name, ".html")
  }

  /**
   * REGEX.index, `/^index.(js|mjs|ts)$/i`: the generated file itself. The dot
   * is not escaped, so the sixth character may be any character other than a
   * line terminator.
   */
  predicate IsIndexName(name: string) {
    && 8 <= |name| <= 9
    && FoldedAt(name, 0, "index")
    && !IsLineTerminator(name[5])
    && (FoldedAt(name, 6, "js") || FoldedAt(name, 6, "mjs") || FoldedAt(name, 6, "ts"))
    && (|name| == 9 <==> FoldedAt(name, 6, "mjs"))
  }

  lemma FoldedChar(name: string, start: nat, word: string, i: nat)
    requires FoldedAt(name, start, word) && i < |word|
    ensures LowerChar(name[start + i]) == word[i]
  {
  }

  /** A resource name that the index pattern matches has a real dot in the unescaped position. */
  lemma IndexNameDot(name: string)
    requires IsScriptName(name) || IsViewName(name)
    requires IsIndexName(name)
    ensures name[5] == '.'
  {
    IndexNameEnd(name);
    if IsScriptName(name) {
      ScriptIndexDot(name);
    } else {
      ViewIndexDot(name);
    }
  }

  /** The last two characters of a name the index pattern matches are `js` or `ts` up to case. */
  lemma IndexNameEnd(name: string)
    requires IsIndexName(name)
    ensures LowerChar(name[|name| - 1]) == 's'
    ensures LowerChar(name[|name| - 2]) == 'j' || LowerChar(name[|name| - 2]) == 't'
    ensures |name| == 9 ==> LowerChar(name[6]) == 'm'
    ensures LowerChar(name[4]) == 'x' && LowerChar(name[3]) == 'e'
  {
    FoldedChar(name, 0, "index", 3);
    FoldedChar(name, 0, "index", 4);
    if FoldedAt(name, 6, "mjs") {
      FoldedChar(name, 6, "mjs", 0);
      FoldedChar(name, 6, "mjs", 1);
      FoldedChar(name, 6, "mjs", 2);
    } else if FoldedAt(name, 6, "js") {
      FoldedChar(name, 6, "js", 0);
      FoldedChar(name, 6, "js", 1);
    } else {
      FoldedChar(name, 6, "ts", 0);
      FoldedChar(name, 6, "ts", 1);
    }
  }

  lemma ScriptIndexDot(name: string)
    requires IsScriptName(name) && 8 <= |name| <= 9
    requires |name| == 9 ==> LowerChar(name[6]) == 'm'
    requires LowerChar(name[4]) == 'x'
    ensures name[5] == '.'
  {
    var n := |name|;
    if EndsWithFolded(name, ".js") {
      FoldedChar(name, n - 3, ".js", 0);
    } else if EndsWithFolded(name, ".ts") {
      FoldedChar(name, n - 3, ".ts", 0);
    } else {
      FoldedChar(name, n - 4, ".mjs", 0);
      FoldedChar(name, n - 4, ".mjs", 1);
    }
    LowerCharKeeps(name[5], '.');
  }

  lemma ViewIndexDot(name: string)
    requires IsViewName(name) && 8 <= |name| <= 9
    requires LowerChar(name[|name| - 1]) == 's'
    requires LowerChar(name[4]) == 'x' && LowerChar(name[3]) == 'e'
    ensures name[5] == '.'
  {
    var n := |name|;
    if EndsWithFolded(name, ".ejs") {
      FoldedChar(name, n - 4, ".ejs", 0);
      FoldedChar(name, n - 4, ".ejs", 1);
    } else if EndsWithFolded(name, ".pug") {
      FoldedChar(name, n - 4, ".pug", 3);
    } else if EndsWithFolded(name, ".jade") {
      FoldedChar(name, n - 5, ".jade", 0);
      FoldedChar(name, n - 5, ".jade", 4);
    } else {
      FoldedChar(name, n - 5, ".html", 0);
      FoldedChar(name, n - 5, ".html", 4);
    }
    LowerCharKeeps(name[5], '.');
  }

  /** A slice of the lowered name that equals a word matches that word up to case. */
  lemma SliceFolded(name: string, start: nat, word: string)
    requires start + |word| <= |name| && ToLower(name)[start..start + |word|] == word
    ensures FoldedAt(name, start, word)
  {
    forall i | 0 <= i < |word|
      ensures LowerChar(name[start + i]) == word[i]
    {
      assert ToLower(name)[start..start + |word|][i] == word[i];
    }
  }

  /** Three pieces matched up to case at consecutive positions match as one word. */
  lemma FoldedJoin(name: string, w1: string, c: char, w2: string)
    requires FoldedAt(name, 0, w1) && |w1| < |name| && name[|w1|] == c && !('A' <= c <= 'Z')
    requires FoldedAt(name, |w1| + 1, w2)
    ensures FoldedAt(name, 0, w1 + [c] + w2)
  {
    var w := w1 + [c] + w2;
    forall i | 0 <= i < |w|
      ensures LowerChar(name[i]) == w[i]
    {
      if i < |w1| {
        FoldedChar(name, 0, w1, i);
      } else if i > |w1| {
        FoldedChar(name, |w1| + 1, w2, i - |w1| - 1);
      }
    }
  }

  /** A name matched up to case over its whole length lowers to the word. */
  lemma FoldedWhole(name: string, word: string)
    requires |name| == |word| && FoldedAt(name, 0, word)
    ensures ToLower(name) == word
  {
    forall i | 0 <= i < |word|
      ensures ToLower(name)[i] == word[i]
    {
      FoldedChar(name, 0, word, i);
    }
  }

  /**
   * On names that could become resources the unescaped dot makes no
   * difference: such a name matches the index pattern exactly when it is
   * `index.js`, `index.mjs` or `index.ts` up to case.
   */
  lemma IndexPatternOnResourceNames(name: string)
    requires IsScriptName(name) || IsViewName(name)
    ensures IsIndexName(name) <==> ToLower(name) in {"index.js", "index.mjs", "index.ts"}
  {
    if IsIndexName(name) {
      IndexNameLowers(name);
    }
    if ToLower(name) in {"index.js", "index.mjs", "index.ts"} {
      LoweredIndexName(name);
    }
  }

  lemma IndexNameLowers(name: string)
    requires IsScriptName(name) || IsViewName(name)
    requires IsIndexName(name)
    ensures ToLower(name) in {"index.js", "index.mjs", "index.ts"}
  {
    IndexNameDot(name);
    var ext := if FoldedAt(name, 6, "mjs") then "mjs" else if FoldedAt(name, 6, "js") then "js" else "ts";
    FoldedJoin(name, "index", '.', ext);
    FoldedWhole(name, "index." + ext);
    if ext == "mjs" {
      assert "index." + ext == "index.mjs";
    } else if ext == "js" {
      assert "index." + ext == "index.js";
    } else {
      assert "index." + ext == "index.ts";
    }
  }

  lemma LoweredIndexName(name: string)
    requires ToLower(name) in {"index.js", "index.mjs", "index.ts"}
    ensures IsIndexName(name)
  {
    var low := ToLower(name);
    assert name[5] == '.' by { LowerCharKeeps(name[5], '.'); }
    assert low[0..5] == "index";
    SliceFolded(name, 0, "index");
    var ext := low[6..];
    assert ext in {"js", "mjs", "ts"};
    assert low[6..6 + |ext|] == ext;
    SliceFolded(name, 6, ext);
    assert FoldedAt(name, 6, "js") || FoldedAt(name, 6, "mjs") || FoldedAt(name, 6, "ts");
    if |name| == 9 {
      assert ext == "mjs";
    } else {
      assert !FoldedAt(name, 6, "mjs");
    }
  }

  predicate IsAlphaNumeric(c: char) {
    'a' <= c <= 'z' || 'A' <= c <= 'Z' || '0' <= c <= '9'
  }

  /** A character that `[^\/\.]` matches. */
  predicate IsBaseChar(c: char) {
    c != '/' && c != '.'
  }

  /** Position of the last `.` in `s`. */
  function LastDot(s: string): (r: Option<nat>)
    ensures r.Some? ==> r.value < |s| && s[r.value] == '.' && forall k :: r.value < k < |s| ==> s[k] != '.'
    ensures r.None? ==> forall k :: 0 <= k < |s| ==> s[k] != '.'
  {
    if |s| == 0 then None
    else if s[|s| - 1] == '.' then Some(|s| - 1)
    else LastDot(s[..|s| - 1])
  }

  /** Start of the longest run of base characters that ends at position `j`. */
  function RunStart(s: string, j: nat): (i: nat)
    requires j <= |s|
    ensures i <= j
    ensures forall k :: i <= k < j ==> IsBaseChar(s[k])
    ensures i == 0 || !IsBaseChar(s[i - 1])
  {
    if j == 0 || !IsBaseChar(s[j - 1]) then j else RunStart(s, j - 1)
  }

  /**
   * fileBase: the first capture group of `/([^\/\.]+)\.[a-zA-Z0-9]+$/`, or
   * `undefined` (None) when the name does not match.
   */
  function FileBase(name: string): Option<string> {
    match LastDot(name)
    case None => None
    case Some(d) =>
      var i := RunStart(name, d);
      if i < d && d + 1 < |name| && (forall k :: d < k < |name| ==> IsAlphaNumeric(name[k]))
      then Some(name[i..d])
      else None
  }

  /**
   * The regular expression matches `name` starting at position `i`, with its
   * capture group ending at the dot at position `j`.
   */
  ghost predicate BaseMatch(name: string, i: int, j: int) {
    && 0 <= i < j < |name| - 1
    && name[j] == '.'
    && (forall k :: i <= k < j ==> IsBaseChar(name[k]))
    && (forall k :: j < k < |name| ==> IsAlphaNumeric(name[k]))
  }

  lemma {:induction false} RunStartIsLeftmost(s: string, i: nat, j: nat)
    requires i <= j <= |s|
    requires forall k :: i <= k < j ==> IsBaseChar(s[k])
    ensures RunStart(s, j) <= i
    decreases j
  {
    if j > 0 && IsBaseChar(s[j - 1]) && i < j {
      RunStartIsLeftmost(s, i, j - 1);
    }
  }

  /**
   * fileBase follows `String.prototype.match`: it is undefined exactly when
   * the pattern matches nowhere, and otherwise it is the capture group of the
   * leftmost match.
   */
  lemma FileBaseIsLeftmostMatch(name: string)
    ensures FileBase(name).None? <==> forall i, j :: !BaseMatch(name, i, j)
    ensures forall i, j :: BaseMatch(name, i, j) && (forall i2, j2 :: BaseMatch(name, i2, j2) ==> i <= i2)
              ==> FileBase(name) == Some(name[i..j])
  {
    forall i, j | BaseMatch(name, i, j)
      ensures LastDot(name) == Some(j)
      ensures RunStart(name, j) <= i && BaseMatch(name, RunStart(name, j), j)
      ensures FileBase(name) == Some(name[RunStart(name, j)..j])
    {
      var d := LastDot(name);
      assert d.Some? by { assert name[j] == '.'; }
      assert d.value == j by {
        assert d.value >= j;
        assert !IsAlphaNumeric(name[d.value]);
      }
      RunStartIsLeftmost(name, i, j);
    }
    if FileBase(name).Some? {
      var d := LastDot(name).value;
      assert BaseMatch(name, RunStart(name, d), d);
    }
  }

  /** Dropping a last character that is not a dot keeps the last dot. */
  lemma LastDotSkip(s: string)
    requires |s| > 0 && s[|s| - 1] != '.'
    ensures LastDot(s) == LastDot(s[..|s| - 1])
  {
  }

  /** The capture group skips earlier extensions: `foo.min.js` gives `min`. */
  lemma FileBaseSkipsExtensions()
    ensures FileBase("foo.min.js") == Some("min")
  {
    var s := "foo.min.js";
    LastDotSkip(s);
    assert s[..9] == "foo.min.j";
    LastDotSkip(s[..9]);
    assert s[..9][..8] == "foo.min.";
    assert LastDot(s) == Some(7);
    assert RunStart(s, 4) == 4;
    assert RunStart(s, 7) == 4;
    assert s[4..7] == "min";
  }

  /** A name without a dot, or with nothing before its only dot, has no base. */
  lemma FileBaseUndefined()
    ensures FileBase(".js") == None
    ensures FileBase("README") == None
  {
    var s := ".js";
    LastDotSkip(s);
    assert s[..2] == ".j";
    LastDotSkip(s[..2]);
    assert s[..2][..1] == ".";
    assert LastDot(s) == Some(0);
    assert LastDot("README") == None;
  }

  lemma FileBaseView()
    ensures FileBase("view.html") == Some("view")
  {
    var s := "view.html";
    LastDotSkip(s);
    var t := s[..8];
    assert t == "view.htm";
    LastDotSkip(t);
    assert t[..7] == "view.ht";
    LastDotSkip(t[..7]);
    assert t[..7][..6] == "view.h";
    LastDotSkip(t[..7][..6]);
    assert t[..7][..6][..5] == "view.";
    assert LastDot(s) == Some(4);
    assert RunStart(s, 4) == 0;
    assert s[0..4] == "view";
  }

  /** A character that `[,\s]` matches: the separator class of REGEX.sep. */
  predicate IsSeparator(c: char) {
    c == ',' || IsWhitespace(c)
  }

  predicate NoSeparator(s: string) {
    forall i :: 0 <= i < |s| ==> !IsSeparator(s[i])
  }

  /** Length of the longest prefix free of separators. */
  function TokenLength(s: string): (k: nat)
    ensures k <= |s|
  {
    if |s| == 0 || IsSeparator(s[0]) then 0 else 1 + TokenLength(s[1..])
  }

  lemma {:induction false} TokenLengthSpec(s: string)
    ensures var k := TokenLength(s);
      NoSeparator(s[..k]) && (k < |s| ==> IsSeparator(s[k]))
    decreases |s|
  {
    if |s| > 0 && !IsSeparator(s[0]) {
      TokenLengthSpec(s[1..]);
      var k := TokenLength(s);
      assert s[..k] == [s[0]] + s[1..][..k - 1];
    }
  }

  /** Length of the leading run of separators. */
  function SeparatorRun(s: string): (n: nat)
    ensures n <= |s|
  {
    if |s| > 0 && IsSeparator(s[0]) then 1 + SeparatorRun(s[1..]) else 0
  }

  lemma {:induction false} SeparatorRunSpec(s: string)
    ensures var n := SeparatorRun(s);
      (forall i :: 0 <= i < n ==> IsSeparator(s[i])) && (n < |s| ==> !IsSeparator(s[n]))
    decreases |s|
  {
    if |s| > 0 && IsSeparator(s[0]) {
      SeparatorRunSpec(s[1..]);
      var n := SeparatorRun(s);
      assert forall i :: 1 <= i < n ==> s[i] == s[1..][i - 1];
    }
  }

  /** Where the piece after the first one starts: past the first token and the run after it. */
  function NextPiece(s: string): (j: nat)
    requires TokenLength(s) < |s|
    ensures TokenLength(s) < j <= |s|
  {
    var k := TokenLength(s);
    TokenLengthSpec(s);
    k + SeparatorRun(s[k..])
  }

  lemma NextPieceSpec(s: string)
    requires TokenLength(s) < |s|
    ensures var k, j := TokenLength(s), NextPiece(s);
      (forall i :: k <= i < j ==> IsSeparator(s[i])) && (j < |s| ==> !IsSeparator(s[j]))
  {
    var k := TokenLength(s);
    SeparatorRunSpec(s[k..]);
    var j := NextPiece(s);
    assert forall i :: k <= i < j ==> s[i] == s[k..][i - k];
  }

  /**
   * `s.split(/[,\s]+/)`: the pieces between maximal runs of separators,
   * with an empty first or last piece when `s` starts or ends with a run.
   */
  function SplitSeparators(s: string): (r: seq<string>)
    ensures |r| >= 1
    decreases |s|
  {
    var k := TokenLength(s);
    if k == |s| then [s] else [s[..k]] + SplitSeparators(s[NextPiece(s)..])
  }

  /** No piece holds a separator. */
  lemma {:induction false} SplitSeparatorsPieces(s: string)
    ensures var r := SplitSeparators(s); forall i :: 0 <= i < |r| ==> NoSeparator(r[i])
    decreases |s|
  {
    TokenLengthSpec(s);
    var k := TokenLength(s);
    if k == |s| {
      assert s[..k] == s;
    } else {
      var rest := s[NextPiece(s)..];
      SplitSeparatorsPieces(rest);
      SplitSeparatorsStep(s);
      PiecesCons(s[..k], SplitSeparators(rest));
    }
  }

  lemma PiecesCons(x: string, q: seq<string>)
    requires NoSeparator(x) && forall i :: 0 <= i < |q| ==> NoSeparator(q[i])
    ensures forall i :: 0 <= i < |[x] + q| ==> NoSeparator(([x] + q)[i])
  {
  }

  /** No piece but the first and the last is empty. */
  lemma {:induction false} SplitSeparatorsInterior(s: string)
    ensures var r := SplitSeparators(s); forall i :: 0 < i < |r| - 1 ==> |r[i]| > 0
    decreases |s|
  {
    var k := TokenLength(s);
    if k < |s| {
      var rest := s[NextPiece(s)..];
      SplitSeparatorsInterior(rest);
      var q := SplitSeparators(rest);
      if |q| > 1 {
        NextPieceSpec(s);
        TokenLengthSpec(rest);
        assert TokenLength(rest) > 0;
        assert q[0] == rest[..TokenLength(rest)];
      }
      SplitSeparatorsStep(s);
      InteriorCons(s[..k], q);
    }
  }

  lemma InteriorCons(x: string, q: seq<string>)
    requires |q| > 1 ==> q[0] != ""
    requires forall i :: 0 < i < |q| - 1 ==> |q[i]| > 0
    ensures forall i :: 0 < i < |[x] + q| - 1 ==> |([x] + q)[i]| > 0
  {
    var r := [x] + q;
    forall i | 0 < i < |r| - 1
      ensures |r[i]| > 0
    {
      assert r[i] == q[i - 1];
    }
  }

  /** The last piece is empty only when the input ends with a separator. */
  lemma {:induction false} SplitSeparatorsLast(s: string)
    requires |s| > 0 && !IsSeparator(s[|s| - 1])
    ensures LastNonEmpty(SplitSeparators(s))
    decreases |s|
  {
    if TokenLength(s) == |s| {
      assert SplitSeparators(s) == [s];
    } else {
      var rest := s[NextPiece(s)..];
      NextPieceKeepsLast(s);
      SplitSeparatorsLast(rest);
      var q := SplitSeparators(rest);
      var x := s[..TokenLength(s)];
      LastCons(x, q);
      SplitSeparatorsStep(s);
    }
  }

  lemma NextPieceKeepsLast(s: string)
    requires TokenLength(s) < |s| && !IsSeparator(s[|s| - 1])
    ensures var rest := s[NextPiece(s)..]; |rest| > 0 && rest[|rest| - 1] == s[|s| - 1]
  {
    var j := NextPiece(s);
    NextPieceSpec(s);
    assert j < |s| by {
      assert j <= |s| && !IsSeparator(s[|s| - 1]);
    }
  }

  predicate LastNonEmpty(r: seq<string>) {
    |r| > 0 && r[|r| - 1] != ""
  }

  lemma LastCons(x: string, q: seq<string>)
    requires LastNonEmpty(q)
    ensures LastNonEmpty([x] + q)
  {
    assert ([x] + q)[|q|] == q[|q| - 1];
  }

  /** The characters of `s` that are not separators, in order. */
  function Unseparated(s: string): string {
    if |s| == 0 then []
    else if IsSeparator(s[0]) then Unseparated(s[1..])
    else [s[0]] + Unseparated(s[1..])
  }

  lemma {:induction false} UnseparatedAppend(a: string, b: string)
    ensures Unseparated(a + b) == Unseparated(a) + Unseparated(b)
    decreases |a|
  {
    if |a| > 0 {
      assert (a + b)[1..] == a[1..] + b;
      UnseparatedAppend(a[1..], b);
    } else {
      assert a + b == b;
    }
  }

  lemma {:induction false} UnseparatedOf(s: string)
    ensures NoSeparator(s) ==> Unseparated(s) == s
    ensures (forall i :: 0 <= i < |s| ==> IsSeparator(s[i])) ==> Unseparated(s) == ""
    decreases |s|
  {
    if |s| > 0 {
      UnseparatedOf(s[1..]);
      assert s == [s[0]] + s[1..];
    }
  }

  /** A run of separators contributes nothing to the text without separators. */
  lemma UnseparatedSkip(s: string, k: nat, j: nat)
    requires k <= j <= |s|
    requires forall i :: k <= i < j ==> IsSeparator(s[i])
    ensures Unseparated(s[k..]) == Unseparated(s[j..])
  {
    assert s[k..] == s[k..j] + s[j..];
    UnseparatedOf(s[k..j]);
    UnseparatedAppend(s[k..j], s[j..]);
  }

  /** Splitting loses only separators: the pieces put together are the input without them. */
  lemma {:induction false} SplitSeparatorsKeepsText(s: string)
    ensures Concat(SplitSeparators(s)) == Unseparated(s)
    decreases |s|
  {
    if TokenLength(s) == |s| {
      KeepsTextWhole(s);
    } else {
      var rest := s[NextPiece(s)..];
      SplitSeparatorsKeepsText(rest);
      KeepsTextStep(s);
    }
  }

  lemma KeepsTextWhole(s: string)
    requires TokenLength(s) == |s|
    ensures Concat(SplitSeparators(s)) == Unseparated(s)
  {
    TokenLengthSpec(s);
    assert s[..|s|] == s;
    UnseparatedOf(s);
    var r := SplitSeparators(s);
    assert r == [s];
    assert r[1..] == [];
  }

  lemma KeepsTextStep(s: string)
    requires TokenLength(s) < |s|
    requires Concat(SplitSeparators(s[NextPiece(s)..])) == Unseparated(s[NextPiece(s)..])
    ensures Concat(SplitSeparators(s)) == Unseparated(s)
  {
    var k := TokenLength(s);
    var j := NextPiece(s);
    SplitSeparatorsStep(s);
    ConcatCons(s[..k], SplitSeparators(s[j..]));
    TokenLengthSpec(s);
    UnseparatedOf(s[..k]);
    NextPieceSpec(s);
    UnseparatedSkip(s, k, j);
    UnseparatedSplitAt(s, k);
  }

  lemma SplitSeparatorsStep(s: string)
    requires TokenLength(s) < |s|
    ensures SplitSeparators(s) == [s[..TokenLength(s)]] + SplitSeparators(s[NextPiece(s)..])
  {
  }

  lemma UnseparatedSplitAt(s: string, k: nat)
    requires k <= |s|
    ensures Unseparated(s) == Unseparated(s[..k]) + Unseparated(s[k..])
  {
    var a, b := s[..k], s[k..];
    UnseparatedAppend(a, b);
    assert a + b == s;
  }

  /** The first token of `a + b` is `a` when `a` has no separator and `b` is empty or starts with one. */
  lemma {:induction false} TokenLengthOf(a: string, b: string)
    requires NoSeparator(a) && (|b| == 0 || IsSeparator(b[0]))
    ensures TokenLength(a + b) == |a|
    decreases |a|
  {
    if |a| == 0 {
      assert a + b == b;
    } else {
      assert (a + b)[1..] == a[1..] + b;
      TokenLengthOf(a[1..], b);
    }
  }
}
