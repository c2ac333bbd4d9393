/**
 * readExclusions: the base names listed in a folder's `.resourceignore`
 * file, split on runs of commas and whitespace.
 */
module Exclusions {
  import opened JsText
  import opened Patterns
  import opened SeparatorRuns

  /** What looking for `.resourceignore` in a folder finds. */
  datatype IgnoreFile =
    | Missing               // fs.stat fails
    | NotAFile              // the path exists but is not a regular file
    | Unreadable            // fs.readFile fails
    | Contents(text: string)

  /**
   * The list readExclusions resolves with. It never rejects: every failure
   * gives the empty list. The file's buffer is always truthy, so an empty
   * file is split too.
   */
  function ReadExclusions(f: IgnoreFile): seq<string> {
    match f
    case Contents(text) => SplitSeparators(Trim(text))
    case _ => []
  }

  lemma {:induction false} UnseparatedWhitespace(s: string)
    requires AllWhitespace(s)
    ensures Unseparated(s) == ""
    decreases |s|
  {
    if |s| > 0 {
      UnseparatedWhitespace(s[1..]);
    }
  }

  /** Trimming removes only separators, so it does not change the text left after splitting. */
  lemma UnseparatedTrim(s: string)
    ensures Unseparated(Trim(s)) == Unseparated(s)
  {
    UnseparatedTrimStart(s);
    UnseparatedTrimEnd(TrimStart(s));
  }

  lemma UnseparatedTrimStart(s: string)
    ensures Unseparated(TrimStart(s)) == Unseparated(s)
  {
    var a := TrimStart(s);
    TrimStartSplits(s);
    var w := s[..|s| - |a|];
    UnseparatedAppend(w, a);
    UnseparatedWhitespace(w);
    assert w + a == s;
  }

  lemma UnseparatedTrimEnd(a: string)
    ensures Unseparated(TrimEnd(a)) == Unseparated(a)
  {
    var t := TrimEnd(a);
    TrimEndSplits(a);
    var w := a[|t|..];
    UnseparatedAppend(t, w);
    UnseparatedWhitespace(w);
    assert t + w == a;
  }

  /**
   * No exclusion holds a comma or whitespace, a file always gives at least
   * one entry, and the entries put together are the file's text without its
   * separators.
   */
  lemma ReadExclusionsTokens(f: IgnoreFile)
    ensures var r := ReadExclusions(f);
      && (forall i :: 0 <= i < |r| ==> NoSeparator(r[i]))
      && (f.Contents? ==> |r| >= 1 && Concat(r) == Unseparated(f.text))
      && (!f.Contents? ==> r == [])
  {
    if f.Contents? {
      SplitSeparatorsPieces(Trim(f.text));
      SplitSeparatorsKeepsText(Trim(f.text));
      UnseparatedTrim(f.text);
    }
  }

  /** An empty ignore file excludes the base name "". */
  lemma ReadExclusionsEmptyFile()
    ensures ReadExclusions(Contents("")) == [""]
  {
    assert TokenLength("") == 0;
  }

  lemma TrimIdentity(s: string)
    requires |s| > 0 ==> !IsWhitespace(s[0]) && !IsWhitespace(s[|s| - 1])
    ensures Trim(s) == s
  {
  }

  lemma SplitSeparatorsFirst(s: string)
    requires |s| > 0 && !IsSeparator(s[0])
    ensures SplitSeparators(s)[0] != ""
  {
    assert TokenLength(s) >= 1;
    assert s[..TokenLength(s)][0] == s[0];
  }

  /**
   * Unless the trimmed text is empty or starts or ends with a comma, no
   * exclusion is the empty string.
   */
  lemma ReadExclusionsNonEmpty(text: string)
    requires var t := Trim(text); |t| > 0 && t[0] != ',' && t[|t| - 1] != ','
    ensures forall i :: 0 <= i < |ReadExclusions(Contents(text))| ==> ReadExclusions(Contents(text))[i] != ""
  {
    var t := Trim(text);
    TrimSpec(text);
    SplitSeparatorsFirst(t);
    SplitSeparatorsLast(t);
    SplitSeparatorsInterior(t);
    var r := SplitSeparators(t);
    assert forall i :: 0 < i < |r| - 1 ==> |r[i]| > 0;
    forall i | 0 <= i < |r|
      ensures r[i] != ""
    {
      if 0 < i < |r| - 1 {
        assert |r[i]| > 0;
      }
    }
  }

  /**
   * A file listing non-empty names without separators, with any run of
   * commas and whitespace between each two (`foo, bar` or one name per
   * indented line), gives back exactly those names.
   */
  lemma ReadExclusionsRoundTrip(words: seq<string>, gaps: seq<string>)
    requires |words| == |gaps| + 1
    requires forall i :: 0 <= i < |words| ==> |words[i]| > 0 && NoSeparator(words[i])
    requires forall i :: 0 <= i < |gaps| ==> IsSeparatorRun(gaps[i])
    ensures ReadExclusions(Contents(Interleave(words, gaps))) == words
  {
    var s := Interleave(words, gaps);
    InterleaveFirst(words, gaps);
    InterleaveLast(words, gaps);
    assert NoSeparator(words[0]) && NoSeparator(words[|words| - 1]);
    TrimIdentity(s);
    SplitSeparatorsInterleave(words, gaps);
  }

  /**
   * The trimmed file text is its exclusions with the dropped separator runs
   * between them.
   */
  lemma ReadExclusionsCuts(text: string)
    ensures var r, g := ReadExclusions(Contents(text)), SeparatorGaps(Trim(text));
      && |g| == |r| - 1
      && (forall i :: 0 <= i < |g| ==> IsSeparatorRun(g[i]))
      && Interleave(r, g) == Trim(text)
  {
    SplitSeparatorsDecompose(Trim(text));
  }
}
