/**
 * Identifiers derived from names: `toCamelCase` for the variable a
 * subfolder's index is imported as, and `wrapModuleName` for the module id
 * of a resource.
 */
module Naming {
  import opened Wrappers
  import opened JsText
  import opened Configuration

  /** `word.charAt(0).toUpperCase() + word.slice(1).toLowerCase()`. */
  function Capitalize(word: string): (r: string)
    ensures |r| == |word|
  {
    if |word| == 0 then "" else [UpperChar(word[0])] + ToLower(word[1..])
  }

  /** The segments after the first, each capitalized, joined with ''. */
  function CapitalizeAll(words: seq<string>): string {
    if |words| == 0 then "" else Capitalize(words[0]) + CapitalizeAll(words[1..])
  }

  /**
   * toCamelCase: split on '-', lower-case the first segment, capitalize the
   * others, and join them with ''.
   */
  function ToCamelCase(s: string): string {
    var parts := Split(s, '-');
    ToLower(parts[0]) + CapitalizeAll(parts[1..])
  }

  /**
   * An independent, character-by-character statement of the same mapping:
   * every '-' is dropped, the character just after a '-' is upper-cased and
   * every other character is lower-cased.
   */
  function CamelScan(s: string, afterHyphen: bool): string {
    if |s| == 0 then ""
    else if s[0] == '-' then CamelScan(s[1..], true)
    else [if afterHyphen then UpperChar(s[0]) else LowerChar(s[0])] + CamelScan(s[1..], false)
  }

  lemma {:induction false} ScanPlain(s: string, afterHyphen: bool)
    requires '-' !in s
    ensures CamelScan(s, afterHyphen) == if afterHyphen then Capitalize(s) else ToLower(s)
    decreases |s|
  {
    if |s| > 0 {
      ScanPlain(s[1..], false);
      assert ToLower(s) == [LowerChar(s[0])] + ToLower(s[1..]);
    }
  }

  lemma {:induction false} ScanAtHyphen(s: string, k: nat, afterHyphen: bool)
    requires k < |s| && s[k] == '-' && '-' !in s[..k]
    ensures CamelScan(s, afterHyphen) == CamelScan(s[..k], afterHyphen) + CamelScan(s[k + 1..], true)
    decreases k
  {
    if k > 0 {
      assert s[1..][..k - 1] == s[..k][1..];
      assert s[1..][k..] == s[k + 1..];
      ScanAtHyphen(s[1..], k - 1, false);
    } else {
      assert s[..k] == "";
    }
  }

  lemma {:induction false} ScanTail(t: string)
    ensures CamelScan(t, true) == CapitalizeAll(Split(t, '-'))
    decreases |t|
  {
    if '-' !in t {
      ScanPlain(t, true);
      assert Split(t, '-') == [t];
      assert CapitalizeAll([t]) == Capitalize(t) + CapitalizeAll([]);
    } else {
      var k := IndexOf(t, '-');
      ScanAtHyphen(t, k, true);
      ScanPlain(t[..k], true);
      ScanTail(t[k + 1..]);
      var parts := Split(t, '-');
      assert parts == [t[..k]] + Split(t[k + 1..], '-');
      assert parts[1..] == Split(t[k + 1..], '-');
    }
  }

  /** toCamelCase agrees with the character-by-character reading. */
  lemma ToCamelCaseScans(s: string)
    ensures ToCamelCase(s) == CamelScan(s, false)
  {
    var parts := Split(s, '-');
    if '-' !in s {
      ScanPlain(s, false);
      assert parts == [s];
      assert parts[1..] == [];
    } else {
      var k := IndexOf(s, '-');
      ScanAtHyphen(s, k, false);
      ScanPlain(s[..k], false);
      ScanTail(s[k + 1..]);
      assert parts == [s[..k]] + Split(s[k + 1..], '-');
      assert parts[1..] == Split(s[k + 1..], '-');
    }
  }

  lemma {:induction false} ScanFacts(s: string, afterHyphen: bool)
    ensures '-' !in CamelScan(s, afterHyphen)
    ensures |CamelScan(s, afterHyphen)| == |s| - Count(s, '-')
    ensures ToLower(CamelScan(s, afterHyphen)) == ToLower(Remove(s, '-'))
    decreases |s|
  {
    if |s| > 0 {
      var b := s[0] == '-';
      ScanFacts(s[1..], b);
      RemoveHead(s, '-');
      if !b {
        var c := if afterHyphen then UpperChar(s[0]) else LowerChar(s[0]);
        LowerCharKeeps(s[0], '-');
        assert LowerChar(c) == LowerChar(s[0]);
        ToLowerAppend([c], CamelScan(s[1..], false));
        ToLowerAppend([s[0]], Remove(s[1..], '-'));
      }
    }
  }

  /**
   * The camel-cased name holds no '-', is the input with its hyphens taken
   * out, and differs from that only in letter case.
   */
  lemma ToCamelCaseShape(s: string)
    ensures '-' !in ToCamelCase(s)
    ensures |ToCamelCase(s)| == |s| - Count(s, '-')
    ensures ToLower(ToCamelCase(s)) == ToLower(Remove(s, '-'))
  {
    ToCamelCaseScans(s);
    ScanFacts(s, false);
  }

  lemma {:induction false} ScanKeeps(s: string, afterHyphen: bool, d: char)
    requires !('A' <= d <= 'Z') && !('a' <= d <= 'z') && d != '-' && d !in s
    ensures d !in CamelScan(s, afterHyphen)
    decreases |s|
  {
    if |s| > 0 {
      ScanKeeps(s[1..], s[0] == '-', d);
      LowerCharKeeps(s[0], d);
      assert s[0] != d;
    }
  }

  /** A character that is neither a letter nor '-' is in the camel-cased name only if it was in the name. */
  lemma ToCamelCaseKeeps(s: string, d: char)
    requires !('A' <= d <= 'Z') && !('a' <= d <= 'z') && d != '-' && d !in s
    ensures d !in ToCamelCase(s)
  {
    ToCamelCaseScans(s);
    ScanKeeps(s, false, d);
  }

  /** The first segment is lower-cased and the next one starts upper-case. */
  lemma ToCamelCaseExample()
    ensures ToCamelCase("Ab-cD") == "abCd"
  {
    ToCamelCaseScans("Ab-cD");
    CamelScanExample();
  }

  lemma CamelScanExample()
    ensures CamelScan("Ab-cD", false) == "abCd"
  {
    assert CamelScan("D", false) == "d" by {
      assert "D"[1..] == "";
    }
    assert CamelScan("cD", true) == "Cd" by {
      assert "cD"[1..] == "D";
    }
    assert CamelScan("-cD", false) == "Cd" by {
      assert "-cD"[1..] == "cD";
    }
    assert CamelScan("b-cD", false) == "bCd" by {
      assert "b-cD"[1..] == "-cD";
    }
    assert "Ab-cD"[1..] == "b-cD";
  }

  /**
   * wrapModuleName: `PLATFORM.moduleName('./id')` when `pal` is set,
   * otherwise `'id'` in single mode and `'./id'` in any other mode.
   */
  function WrapModuleName(id: string, config: Config): string {
    if config.pal then "PLATFORM.moduleName('./" + id + "')"
    else if IsSingle(config) then "'" + id + "'"
    else "'./" + id + "'"
  }

  /** Reads a module id back out of the text `WrapModuleName` produces. */
  function UnwrapModuleName(text: string, config: Config): Option<string> {
    var (pre, post) :=
      if config.pal then ("PLATFORM.moduleName('./", "')")
      else if IsSingle(config) then ("'", "'")
      else ("'./", "'");
    if |pre| + |post| <= |text| && text[..|pre|] == pre && text[|text| - |post|..] == post
    then Some(text[|pre|..|text| - |post|])
    else None
  }

  /** Wrapping loses nothing: the id can be read back from the wrapped text. */
  lemma UnwrapWrap(id: string, config: Config)
    ensures UnwrapModuleName(WrapModuleName(id, config), config) == Some(id)
  {
    var w := WrapModuleName(id, config);
    if config.pal {
      assert w[..|"PLATFORM.moduleName('./"|] == "PLATFORM.moduleName('./";
      assert w[|w| - 2..] == "')";
      assert w[|"PLATFORM.moduleName('./"|..|w| - 2] == id;
    } else if IsSingle(config) {
      assert w[..1] == "'" && w[|w| - 1..] == "'" && w[1..|w| - 1] == id;
    } else {
      assert w[..3] == "'./" && w[|w| - 1..] == "'" && w[3..|w| - 1] == id;
    }
  }

  /** Every text that reads back to an id is that id wrapped. */
  lemma WrapUnwrap(text: string, config: Config)
    ensures UnwrapModuleName(text, config).Some? ==>
      WrapModuleName(UnwrapModuleName(text, config).value, config) == text
  {
    if UnwrapModuleName(text, config).Some? {
      var id := UnwrapModuleName(text, config).value;
      if config.pal {
        assert text == text[..23] + text[23..|text| - 2] + text[|text| - 2..];
      } else if IsSingle(config) {
        assert text == text[..1] + text[1..|text| - 1] + text[|text| - 1..];
      } else {
        assert text == text[..3] + text[3..|text| - 1] + text[|text| - 1..];
      }
    }
  }

  /** Distinct resources get distinct module names. */
  lemma WrapModuleNameInjective(a: string, b: string, config: Config)
    ensures WrapModuleName(a, config) == WrapModuleName(b, config) <==> a == b
  {
    UnwrapWrap(a, config);
    UnwrapWrap(b, config);
  }
}
