/**
 * How `split(/[,\s]+/)` cuts a text: at every maximal run of commas and
 * whitespace, and nowhere else.
 */
module SeparatorRuns {
  import opened JsText
  import opened Patterns

  /** A non-empty run of separators: one match of `[,\s]+`. */
  predicate IsSeparatorRun(g: string) {
    |g| > 0 && forall i :: 0 <= i < |g| ==> IsSeparator(g[i])
  }

  /** The words with the runs `gaps` between them: `words[0] + gaps[0] + words[1] + ...`. */
  function Interleave(words: seq<string>, gaps: seq<string>): string
    requires |words| == |gaps| + 1
    decreases |gaps|
  {
    if |gaps| == 0 then words[0] else words[0] + gaps[0] + Interleave(words[1..], gaps[1..])
  }

  /** The separator runs the split drops, in order. */
  function SeparatorGaps(s: string): seq<string>
    decreases |s|
  {
    var k := TokenLength(s);
    if k == |s| then [] else [s[k..NextPiece(s)]] + SeparatorGaps(s[NextPiece(s)..])
  }

  /**
   * Every text is its pieces with the dropped separator runs between them:
   * the split cuts exactly at the maximal runs of separators.
   */
  lemma {:induction false} SplitSeparatorsDecompose(s: string)
    ensures var r, g := SplitSeparators(s), SeparatorGaps(s);
      && |g| == |r| - 1
      && (forall i :: 0 <= i < |g| ==> IsSeparatorRun(g[i]))
      && Interleave(r, g) == s
    decreases |s|
  {
    if TokenLength(s) == |s| {
      assert s[..TokenLength(s)] == s;
    } else {
      SplitSeparatorsDecompose(s[NextPiece(s)..]);
      DecomposeStep(s);
    }
  }

  predicate Decomposes(s: string) {
    var r, g := SplitSeparators(s), SeparatorGaps(s);
    && |g| == |r| - 1
    && (forall i :: 0 <= i < |g| ==> IsSeparatorRun(g[i]))
    && Interleave(r, g) == s
  }

  lemma DecomposeStep(s: string)
    requires TokenLength(s) < |s|
    requires Decomposes(s[NextPiece(s)..])
    ensures Decomposes(s)
  {
    var k, j := TokenLength(s), NextPiece(s);
    var rest := s[j..];
    SplitSeparatorsStep(s);
    GapsStep(s);
    GapIsRun(s);
    SliceThree(s, k, j);
    ConsDecomposition(s[..k], s[k..j], SplitSeparators(rest), SeparatorGaps(rest), rest, s);
  }

  lemma GapIsRun(s: string)
    requires TokenLength(s) < |s|
    ensures IsSeparatorRun(s[TokenLength(s)..NextPiece(s)])
  {
    NextPieceSpec(s);
    var k, j := TokenLength(s), NextPiece(s);
    var gap := s[k..j];
    assert forall i :: 0 <= i < |gap| ==> gap[i] == s[k + i];
  }

  lemma ConsDecomposition(x: string, gap: string, r: seq<string>, q: seq<string>, rest: string, s: string)
    requires |q| == |r| - 1 && IsSeparatorRun(gap)
    requires forall i :: 0 <= i < |q| ==> IsSeparatorRun(q[i])
    requires Interleave(r, q) == rest && x + gap + rest == s
    ensures |[gap] + q| == |[x] + r| - 1
    ensures forall i :: 0 <= i < |[gap] + q| ==> IsSeparatorRun(([gap] + q)[i])
    ensures Interleave([x] + r, [gap] + q) == s
  {
    GapsRuns(gap, q);
    InterleaveCons(x, gap, r, q);
  }

  lemma GapsStep(s: string)
    requires TokenLength(s) < |s|
    ensures SeparatorGaps(s) == [s[TokenLength(s)..NextPiece(s)]] + SeparatorGaps(s[NextPiece(s)..])
  {
  }

  lemma InterleaveCons(w: string, g: string, r: seq<string>, q: seq<string>)
    requires |r| == |q| + 1
    ensures Interleave([w] + r, [g] + q) == w + g + Interleave(r, q)
  {
    assert ([w] + r)[1..] == r;
    assert ([g] + q)[1..] == q;
  }

  lemma SliceThree(s: string, k: nat, j: nat)
    requires k <= j <= |s|
    ensures s[..k] + s[k..j] + s[j..] == s
  {
  }

  lemma GapsRuns(gap: string, q: seq<string>)
    requires IsSeparatorRun(gap) && forall i :: 0 <= i < |q| ==> IsSeparatorRun(q[i])
    ensures forall i :: 0 <= i < |[gap] + q| ==> IsSeparatorRun(([gap] + q)[i])
  {
  }

  /** The leading separator run of `g + tail` is `g` when `tail` does not start with a separator. */
  lemma {:induction false} SeparatorRunOf(g: string, tail: string)
    requires forall i :: 0 <= i < |g| ==> IsSeparator(g[i])
    requires |tail| == 0 || !IsSeparator(tail[0])
    ensures SeparatorRun(g + tail) == |g|
    decreases |g|
  {
    if |g| == 0 {
      assert g + tail == tail;
    } else {
      assert (g + tail)[1..] == g[1..] + tail;
      SeparatorRunOf(g[1..], tail);
    }
  }

  /** Where the second piece of `a + t` starts, when `a` is a token and `t` starts with a separator. */
  lemma NextPieceOf(a: string, t: string)
    requires NoSeparator(a) && |t| > 0 && IsSeparator(t[0])
    ensures TokenLength(a + t) == |a| < |a + t|
    ensures NextPiece(a + t) == |a| + SeparatorRun(t)
  {
    TokenLengthOf(a, t);
    assert (a + t)[|a|..] == t;
  }

  /** A token followed by a whole separator run splits off as the first piece. */
  lemma SplitSeparatorsRunCons(a: string, g: string, tail: string)
    requires NoSeparator(a) && IsSeparatorRun(g)
    requires |tail| == 0 || !IsSeparator(tail[0])
    ensures SplitSeparators(a + (g + tail)) == [a] + SplitSeparators(tail)
  {
    var t := g + tail;
    NextPieceOf(a, t);
    SeparatorRunOf(g, tail);
    SlicesOf(a, g, tail);
    FirstPiece(a + t, a, tail, |a|, |a| + |g|);
  }

  lemma SlicesOf(a: string, g: string, tail: string)
    ensures (a + (g + tail))[..|a|] == a && (a + (g + tail))[|a| + |g|..] == tail
  {
  }

  /** The first piece is the first token, and the split goes on past the run after it. */
  lemma FirstPiece(s: string, a: string, tail: string, k: nat, j: nat)
    requires TokenLength(s) == k < |s| && NextPiece(s) == j
    requires s[..k] == a && s[j..] == tail
    ensures SplitSeparators(s) == [a] + SplitSeparators(tail)
  {
    SplitSeparatorsStep(s);
  }

  /** An interleaving starts with the first character of its first word, when there is one. */
  lemma InterleaveFirst(words: seq<string>, gaps: seq<string>)
    requires |words| == |gaps| + 1 && |words[0]| > 0
    ensures |Interleave(words, gaps)| > 0 && Interleave(words, gaps)[0] == words[0][0]
  {
  }

  /** An interleaving ends with the last character of its last word, when there is one. */
  lemma {:induction false} InterleaveLast(words: seq<string>, gaps: seq<string>)
    requires |words| == |gaps| + 1 && |words[|words| - 1]| > 0
    ensures var s := Interleave(words, gaps); |s| > 0 && s[|s| - 1] == words[|words| - 1][|words[|words| - 1]| - 1]
    decreases |gaps|
  {
    if |gaps| > 0 {
      InterleaveLast(words[1..], gaps[1..]);
    }
  }

  /**
   * Joining words that hold no separator with any runs of separators, and
   * splitting again, gives back the words, provided no word but the first or
   * last is empty.
   */
  lemma {:induction false} SplitSeparatorsInterleave(words: seq<string>, gaps: seq<string>)
    requires |words| == |gaps| + 1
    requires forall i :: 0 <= i < |words| ==> NoSeparator(words[i])
    requires forall i :: 0 < i < |words| - 1 ==> words[i] != ""
    requires forall i :: 0 <= i < |gaps| ==> IsSeparatorRun(gaps[i])
    ensures SplitSeparators(Interleave(words, gaps)) == words
    decreases |gaps|
  {
    if |gaps| == 0 {
      TokenLengthOf(words[0], "");
      assert words[0] + "" == words[0];
    } else {
      var rest, more := words[1..], gaps[1..];
      assert forall i :: 0 <= i < |rest| ==> rest[i] == words[i + 1];
      assert forall i :: 0 <= i < |more| ==> more[i] == gaps[i + 1];
      SplitSeparatorsInterleave(rest, more);
      InterleaveStep(words, gaps);
    }
  }

  /** One word and one run more: the split of the rest extends by that word. */
  lemma InterleaveStep(words: seq<string>, gaps: seq<string>)
    requires |words| == |gaps| + 1 && |gaps| > 0
    requires NoSeparator(words[0]) && IsSeparatorRun(gaps[0]) && NoSeparator(words[1])
    requires |words| > 2 ==> words[1] != ""
    requires SplitSeparators(Interleave(words[1..], gaps[1..])) == words[1..]
    ensures SplitSeparators(Interleave(words, gaps)) == words
  {
    var rest, more := words[1..], gaps[1..];
    var tail := Interleave(rest, more);
    assert rest[0] == words[1];
    InterleaveUnfold(words, gaps);
    TailStart(rest, more);
    SplitSeparatorsRunCons(words[0], gaps[0], tail);
    HeadRest(words);
  }

  lemma InterleaveUnfold(words: seq<string>, gaps: seq<string>)
    requires |words| == |gaps| + 1 && |gaps| > 0
    ensures Interleave(words, gaps) == words[0] + (gaps[0] + Interleave(words[1..], gaps[1..]))
  {
  }

  lemma HeadRest(words: seq<string>)
    requires |words| > 0
    ensures words == [words[0]] + words[1..]
  {
  }

  /** What follows the first run does not start with a separator. */
  lemma TailStart(rest: seq<string>, more: seq<string>)
    requires |rest| == |more| + 1 && NoSeparator(rest[0])
    requires |rest| > 1 ==> rest[0] != ""
    ensures var t := Interleave(rest, more); |t| == 0 || !IsSeparator(t[0])
  {
    if |rest| > 1 {
      InterleaveFirst(rest, more);
    }
  }
}
