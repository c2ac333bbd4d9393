/**
 * The order in which `Object.keys` lists the own string keys of a plain
 * object: keys that are array indices first, in ascending numeric order,
 * then every other key in the order it was first added.
 */
module JsObject {

  predicate IsDigit(c: char) {
    '0' <= c <= '9'
  }

  /** The number a string of decimal digits denotes. */
  function DecimalValue(s: string): nat {
    if |s| == 0 then 0
    else
      var d := s[|s| - 1] as int - '0' as int;
      DecimalValue(s[..|s| - 1]) * 10 + (if 0 <= d <= 9 then d else 0)
  }

  predicate AllDigits(s: string) {
    |s| == 0 || (IsDigit(s[0]) && AllDigits(s[1..]))
  }

  /**
   * A canonical array index: "0" or digits without a leading zero, whose
   * value is below 2^32 - 1.
   */
  predicate IsArrayIndex(k: string) {
    && |k| > 0
    && AllDigits(k)
    && (k[0] != '0' || |k| == 1)
    && DecimalValue(k) < 0xFFFF_FFFF
  }

  /** The keys of `order` that are array indices, in their order there. */
  function IndexKeys(order: seq<string>): seq<string> {
    if |order| == 0 then []
    else (if IsArrayIndex(order[0]) then [order[0]] else []) + IndexKeys(order[1..])
  }

  /** The keys of `order` that are not array indices, in their order there. */
  function OtherKeys(order: seq<string>): seq<string> {
    if |order| == 0 then []
    else (if IsArrayIndex(order[0]) then [] else [order[0]]) + OtherKeys(order[1..])
  }

  predicate SortedByValue(s: seq<string>) {
    forall i, j :: 0 <= i < j < |s| ==> DecimalValue(s[i]) <= DecimalValue(s[j])
  }

  function Insert(k: string, s: seq<string>): seq<string> {
    if |s| == 0 || DecimalValue(k) <= DecimalValue(s[0]) then [k] + s
    else [s[0]] + Insert(k, s[1..])
  }

  function SortByValue(s: seq<string>): seq<string> {
    if |s| == 0 then [] else Insert(s[0], SortByValue(s[1..]))
  }

  /** Object.keys of an object whose keys were added in the order `order`. */
  function ObjectKeys(order: seq<string>): seq<string> {
    SortByValue(IndexKeys(order)) + OtherKeys(order)
  }

  lemma {:induction false} InsertMultiset(k: string, s: seq<string>)
    ensures multiset(Insert(k, s)) == multiset(s) + multiset{k}
    decreases |s|
  {
    if |s| > 0 && DecimalValue(k) > DecimalValue(s[0]) {
      InsertMultiset(k, s[1..]);
      assert s == [s[0]] + s[1..];
    }
  }

  lemma InsertFirst(k: string, s: seq<string>)
    requires |s| > 0
    ensures |Insert(k, s)| == |s| + 1
    ensures Insert(k, s)[0] == k || Insert(k, s)[0] == s[0]
  {
    if DecimalValue(k) > DecimalValue(s[0]) {
      InsertLength(k, s[1..]);
    }
  }

  lemma {:induction false} InsertLength(k: string, s: seq<string>)
    ensures |Insert(k, s)| == |s| + 1
    decreases |s|
  {
    if |s| > 0 && DecimalValue(k) > DecimalValue(s[0]) {
      InsertLength(k, s[1..]);
    }
  }

  lemma TailSorted(s: seq<string>)
    requires |s| > 0 && SortedByValue(s)
    ensures SortedByValue(s[1..])
  {
    var t := s[1..];
    forall i, j | 0 <= i < j < |t|
      ensures DecimalValue(t[i]) <= DecimalValue(t[j])
    {
      assert t[i] == s[i + 1] && t[j] == s[j + 1];
    }
  }

  lemma ConsSorted(x: string, r: seq<string>)
    requires SortedByValue(r) && (|r| > 0 ==> DecimalValue(x) <= DecimalValue(r[0]))
    ensures SortedByValue([x] + r)
  {
    var q := [x] + r;
    forall i, j | 0 <= i < j < |q|
      ensures DecimalValue(q[i]) <= DecimalValue(q[j])
    {
      assert q[j] == r[j - 1];
      if i > 0 {
        assert q[i] == r[i - 1];
      } else {
        assert DecimalValue(r[0]) <= DecimalValue(r[j - 1]);
      }
    }
  }

  lemma {:induction false} InsertSorted(k: string, s: seq<string>)
    requires SortedByValue(s)
    ensures SortedByValue(Insert(k, s))
    decreases |s|
  {
    if |s| == 0 || DecimalValue(k) <= DecimalValue(s[0]) {
      ConsSorted(k, s);
    } else {
      var t := s[1..];
      TailSorted(s);
      InsertSorted(k, t);
      if |t| > 0 {
        InsertFirst(k, t);
        assert t[0] == s[1];
      }
      ConsSorted(s[0], Insert(k, t));
    }
  }

  lemma {:induction false} SortFacts(s: seq<string>)
    ensures multiset(SortByValue(s)) == multiset(s)
    ensures SortedByValue(SortByValue(s))
    decreases |s|
  {
    if |s| > 0 {
      var rest := SortByValue(s[1..]);
      SortFacts(s[1..]);
      InsertMultiset(s[0], rest);
      InsertSorted(s[0], rest);
      assert [s[0]] + s[1..] == s;
      assert multiset(s) == multiset(s[1..]) + multiset{s[0]};
    }
  }

  lemma {:induction false} SplitKeys(order: seq<string>)
    ensures multiset(IndexKeys(order)) + multiset(OtherKeys(order)) == multiset(order)
    decreases |order|
  {
    if |order| > 0 {
      var x, rest := order[0], order[1..];
      SplitKeys(rest);
      assert order == [x] + rest;
      var i: seq<string> := if IsArrayIndex(x) then [x] else [];
      var o: seq<string> := if IsArrayIndex(x) then [] else [x];
      assert multiset(IndexKeys(order)) == multiset(i) + multiset(IndexKeys(rest));
      assert multiset(OtherKeys(order)) == multiset(o) + multiset(OtherKeys(rest));
      assert multiset(i) + multiset(o) == multiset{x};
    }
  }

  lemma {:induction false} IndexKeysAreIndices(order: seq<string>)
    ensures forall i :: 0 <= i < |IndexKeys(order)| ==> IsArrayIndex(IndexKeys(order)[i])
    decreases |order|
  {
    if |order| > 0 {
      IndexKeysAreIndices(order[1..]);
      var r := IndexKeys(order);
      var q := IndexKeys(order[1..]);
      forall i | 0 <= i < |r|
        ensures IsArrayIndex(r[i])
      {
        if IsArrayIndex(order[0]) && i > 0 {
          assert r[i] == q[i - 1];
        } else if !IsArrayIndex(order[0]) {
          assert r[i] == q[i];
        }
      }
    }
  }

  lemma {:induction false} OtherKeysAreNot(order: seq<string>)
    ensures forall i :: 0 <= i < |OtherKeys(order)| ==> !IsArrayIndex(OtherKeys(order)[i])
    decreases |order|
  {
    if |order| > 0 {
      OtherKeysAreNot(order[1..]);
      var r := OtherKeys(order);
      var q := OtherKeys(order[1..]);
      forall i | 0 <= i < |r|
        ensures !IsArrayIndex(r[i])
      {
        if !IsArrayIndex(order[0]) && i > 0 {
          assert r[i] == q[i - 1];
        } else if IsArrayIndex(order[0]) {
          assert r[i] == q[i];
        }
      }
    }
  }

  /**
   * Object.keys lists every key once (a permutation of the insertion order);
   * the array-index keys come first, in ascending numeric value, and the
   * other keys follow in insertion order.
   */
  lemma ObjectKeysOrder(order: seq<string>)
    ensures var r := ObjectKeys(order);
      && multiset(r) == multiset(order)
      && (forall i, j :: 0 <= i < j < |r| && IsArrayIndex(r[j]) ==>
            IsArrayIndex(r[i]) && DecimalValue(r[i]) <= DecimalValue(r[j]))
      && r[|r| - |OtherKeys(order)|..] == OtherKeys(order)
  {
    var a := SortByValue(IndexKeys(order));
    var b := OtherKeys(order);
    SortFacts(IndexKeys(order));
    SplitKeys(order);
    IndexKeysAreIndices(order);
    OtherKeysAreNot(order);
    var r := a + b;
    forall i | 0 <= i < |a|
      ensures IsArrayIndex(a[i])
    {
      assert a[i] in multiset(IndexKeys(order));
    }
    forall i, j | 0 <= i < j < |r| && IsArrayIndex(r[j])
      ensures IsArrayIndex(r[i]) && DecimalValue(r[i]) <= DecimalValue(r[j])
    {
      if j < |a| {
        assert r[i] == a[i] && r[j] == a[j];
      }
    }
    assert r[|r| - |b|..] == b;
  }

  lemma {:induction false} NoIndexKeys(order: seq<string>)
    requires forall i :: 0 <= i < |order| ==> !IsArrayIndex(order[i])
    ensures IndexKeys(order) == [] && OtherKeys(order) == order
    decreases |order|
  {
    if |order| > 0 {
      NoIndexKeys(order[1..]);
      assert order == [order[0]] + order[1..];
    }
  }

  /** When no key looks like an array index, Object.keys is the insertion order. */
  lemma ObjectKeysPlain(order: seq<string>)
    requires forall i :: 0 <= i < |order| ==> !IsArrayIndex(order[i])
    ensures ObjectKeys(order) == order
  {
    NoIndexKeys(order);
  }

  /** A base name made of digits is listed ahead of the names added before it. */
  lemma ObjectKeysExample()
    ensures ObjectKeys(["nav", "10", "2"]) == ["2", "10", "nav"]
  {
    assert DecimalValue("10") == 10 by {
      assert "10"[..1] == "1";
      assert "1"[..0] == "";
    }
    assert DecimalValue("2") == 2 by {
      assert "2"[..0] == "";
    }
    assert !IsArrayIndex("nav") by {
      assert !IsDigit("nav"[0]);
    }
    assert IndexKeys(["nav", "10", "2"]) == ["10", "2"] by {
      assert ["nav", "10", "2"][1..] == ["10", "2"];
      assert ["10", "2"][1..] == ["2"];
    }
    assert OtherKeys(["nav", "10", "2"]) == ["nav"] by {
      assert ["nav", "10", "2"][1..] == ["10", "2"];
      assert ["10", "2"][1..] == ["2"];
    }
    assert SortByValue(["10", "2"]) == ["2", "10"] by {
      assert ["10", "2"][1..] == ["2"];
      assert SortByValue(["2"]) == ["2"];
    }
  }
}
