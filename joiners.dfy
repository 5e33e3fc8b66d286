/**
 * The two string joiners: `list_to_string`, which puts a separator between adjacent
 * items, and `list_of_dicts_to_string`, which extracts one key from each dictionary and,
 * because its position counter starts at 0 and is compared against the length, puts the
 * separator after every item -- the last one included -- as soon as there are two items.
 */
module Joiners {
  /** `items` with `sep` between each item and the next and nothing after the last one. */
  function Join(items: seq<string>, sep: string): string
    decreases |items|
  {
    if |items| == 0 then ""
    else if |items| == 1 then items[0]
    else Join(items[..|items| - 1], sep) + sep + items[|items| - 1]
  }

  /** Every item followed by `sep`, the last one included. */
  function Terminated(items: seq<string>, sep: string): string
    decreases |items|
  {
    if |items| == 0 then "" else Terminated(items[..|items| - 1], sep) + items[|items| - 1] + sep
  }

  /** A join is the terminated form with its final separator taken off. */
  lemma {:induction false} JoinThenSeparator(items: seq<string>, sep: string)
    requires |items| > 0
    ensures Join(items, sep) + sep == Terminated(items, sep)
  {
    var n := |items|;
    if n == 1 {
      assert items[..0] == [];
    } else {
      var init := items[..n - 1];
      JoinThenSeparator(init, sep);
      calc {
        Join(items, sep) + sep;
        Join(init, sep) + sep + items[n - 1] + sep;
        Terminated(init, sep) + items[n - 1] + sep;
      }
    }
  }

  predicate AllHaveKey(l: seq<map<string, string>>, key: string)
  {
    forall i :: 0 <= i < |l| ==> key in l[i]
  }

  /** The value stored under `key` in each dictionary, in list order. */
  function Texts(l: seq<map<string, string>>, key: string): (r: seq<string>)
    requires AllHaveKey(l, key)
    ensures |r| == |l|
    ensures forall i :: 0 <= i < |l| ==> r[i] == l[i][key]
    decreases |l|
  {
    if |l| == 0 then [] else Texts(l[..|l| - 1], key) + [l[|l| - 1][key]]
  }

  /**
   * What `list_of_dicts_to_string` produces from the extracted values: its "not the last
   * item" test never fires, so with two or more items every item is terminated by `sep`;
   * with zero or one item no separator is added at all.
   */
  function DictsJoinAsWritten(texts: seq<string>, sep: string): string
  {
    if |texts| > 1 then Terminated(texts, sep) else Join(texts, sep)
  }

  /** Where the two joiners part ways: one extra trailing separator from two items on. */
  lemma DictsJoinVersusJoin(texts: seq<string>, sep: string)
    ensures |texts| > 1 ==> DictsJoinAsWritten(texts, sep) == Join(texts, sep) + sep
    ensures |texts| <= 1 ==> DictsJoinAsWritten(texts, sep) == Join(texts, sep)
  {
    if |texts| > 1 {
      JoinThenSeparator(texts, sep);
    }
  }

  /** list_to_string: concatenates `l` with `c` between adjacent items. */
  method ListToString(l: seq<string>, c: string) returns (s: string)
    ensures s == Join(l, c)
    ensures |l| == 0 ==> s == ""
    ensures |l| == 1 ==> s == l[0]
    ensures |l| > 0 ==> s + c == Terminated(l, c)
  {
    s := "";
    for i := 0 to |l|
      invariant s == Join(l[..i], c) + (if 0 < i < |l| then c else "")
    {
      var num := i + 1;  // the source enumerates from 1
      assert l[..i + 1][..i] == l[..i];
      s := s + l[i];
      if |l| > 1 && num != |l| {
        s := s + c;
      }
    }
    assert l[..|l|] == l;
    if |l| > 0 {
      JoinThenSeparator(l, c);
    }
  }

  /** list_of_dicts_to_string: concatenates `item[key]` for every item, separated as written. */
  method ListOfDictsToString(l: seq<map<string, string>>, key: string, c: string) returns (s: string)
    requires AllHaveKey(l, key)
    ensures s == DictsJoinAsWritten(Texts(l, key), c)
    ensures |l| == 0 ==> s == ""
    ensures |l| == 1 ==> s == l[0][key]
    ensures |l| > 1 ==> s == Join(Texts(l, key), c) + c
  {
    s := "";
    for num := 0 to |l|  // the source enumerates from 0
      invariant s == if |l| > 1 then Terminated(Texts(l[..num], key), c) else Join(Texts(l[..num], key), c)
    {
      assert l[..num + 1][..num] == l[..num];
      s := s + l[num][key];
      if |l| > 1 && num != |l| {
        s := s + c;
      }
    }
    assert l[..|l|] == l;
    DictsJoinVersusJoin(Texts(l, key), c);
  }
}
