/**
  Strings as lists of non-empty items between separators, such as path elements and search
  paths, and as lists of parts, any of which may be empty.
 */
module Splitting {

  predicate HasSuffix(s: string, suffix: string) {
    |suffix| <= |s| && s[|s| - |suffix|..] == suffix
  }

  /** The length of the item that `s` starts with. */
  function ItemLength(s: string, seps: set<char>): (n: nat)
    ensures n <= |s|
    ensures forall k :: 0 <= k < n ==> s[k] !in seps
    ensures n < |s| ==> s[n] in seps
  {
    if s == "" || s[0] in seps then 0 else 1 + ItemLength(s[1..], seps)
  }

  /** The items of a list; repeated separators count as one. */
  function Items(s: string, seps: set<char>): seq<string>
    decreases |s|
  {
    if s == "" then []
    else if s[0] in seps then Items(s[1..], seps)
    else [s[..ItemLength(s, seps)]] + Items(s[ItemLength(s, seps)..], seps)
  }

  predicate IsItem(s: string, seps: set<char>) {
    s != "" && forall k :: 0 <= k < |s| ==> s[k] !in seps
  }

  lemma {:induction false} ItemLengthOfItem(s: string, seps: set<char>)
    requires forall k :: 0 <= k < |s| ==> s[k] !in seps
    ensures ItemLength(s, seps) == |s|
  {
    if s != "" {
      ItemLengthOfItem(s[1..], seps);
    }
  }

  lemma ItemsOfItem(s: string, seps: set<char>)
    requires IsItem(s, seps)
    ensures Items(s, seps) == [s]
  {
    ItemLengthOfItem(s, seps);
    assert s[..|s|] == s && s[|s|..] == "";
  }

  /** Every item is one: not empty, and without separators. */
  lemma {:induction false} ItemsAreItems(s: string, seps: set<char>)
    ensures forall k :: 0 <= k < |Items(s, seps)| ==> IsItem(Items(s, seps)[k], seps)
    decreases |s|
  {
    if s != "" {
      if s[0] in seps {
        ItemsAreItems(s[1..], seps);
      } else {
        ItemsAreItems(s[ItemLength(s, seps)..], seps);
      }
    }
  }

  lemma ItemsOfSeparator(sep: char, s: string, seps: set<char>)
    requires sep in seps
    ensures Items([sep] + s, seps) == Items(s, seps)
  {
    assert ([sep] + s)[1..] == s;
  }

  /** An item that ends where the string ends or at a separator is the first of `Items`. */
  lemma ItemsOfFirst(first: string, rest: string, seps: set<char>)
    requires first != "" && ItemLength(first + rest, seps) == |first|
    ensures Items(first + rest, seps) == [first] + Items(rest, seps)
  {
    var s := first + rest;
    assert s[..|first|] == first;
    assert s[|first|..] == rest;
  }

  lemma {:induction false} ItemLengthOfJoin(a: string, sep: char, b: string, seps: set<char>)
    requires sep in seps
    ensures ItemLength(a + [sep] + b, seps) == ItemLength(a, seps)
  {
    if a != "" && a[0] !in seps {
      ItemLengthOfJoin(a[1..], sep, b, seps);
      assert (a + [sep] + b)[1..] == a[1..] + [sep] + b;
    }
  }

  /** Joining two strings with a separator joins their items. */
  lemma {:induction false} ItemsOfJoin(a: string, sep: char, b: string, seps: set<char>)
    requires sep in seps
    ensures Items(a + [sep] + b, seps) == Items(a, seps) + Items(b, seps)
    decreases |a|
  {
    if a == "" {
      assert a + [sep] + b == [sep] + b;
      ItemsOfSeparator(sep, b, seps);
    } else if a[0] in seps {
      ItemsOfJoin(a[1..], sep, b, seps);
      assert a + [sep] + b == [a[0]] + (a[1..] + [sep] + b);
      ItemsOfSeparator(a[0], a[1..] + [sep] + b, seps);
    } else {
      ItemsOfJoinFirst(a, sep, b, seps);
    }
  }

  lemma {:induction false} ItemsOfJoinFirst(a: string, sep: char, b: string, seps: set<char>)
    requires sep in seps && a != "" && a[0] !in seps
    ensures Items(a + [sep] + b, seps) == Items(a, seps) + Items(b, seps)
    decreases |a|, 0
  {
    var n := ItemLength(a, seps);
    var first, rest := a[..n], a[n..];
    ItemLengthOfJoin(a, sep, b, seps);
    ItemsOfJoin(rest, sep, b, seps);
    assert a + [sep] + b == first + (rest + [sep] + b);
    ItemsOfFirst(first, rest + [sep] + b, seps);
    assert Items(a, seps) == [first] + Items(rest, seps);
  }

  // ---------------------------------------------------------------------------
  // Parts that may be empty

  /** The parts with a character put in front of the first one. */
  function Extend(c: char, parts: seq<string>): (r: seq<string>)
    requires |parts| > 0
    ensures |r| == |parts|
  {
    [[c] + parts[0]] + parts[1..]
  }

  /** `g_strsplit`, for a separator of one character. */
  function Split(s: string, sep: char): (parts: seq<string>)
    ensures |parts| > 0
  {
    if s == "" then [""]
    else if s[0] == sep then [""] + Split(s[1..], sep)
    else Extend(s[0], Split(s[1..], sep))
  }

  lemma SplitSeparator(sep: char, s: string)
    ensures Split([sep] + s, sep) == [""] + Split(s, sep)
  {
    assert ([sep] + s)[1..] == s;
  }

  lemma SplitOther(c: char, s: string, sep: char)
    requires c != sep
    ensures Split([c] + s, sep) == Extend(c, Split(s, sep))
  {
    assert ([c] + s)[1..] == s;
  }

  lemma ExtendAppend(c: char, parts: seq<string>, more: seq<string>)
    requires |parts| > 0
    ensures Extend(c, parts + more) == Extend(c, parts) + more
  {
  }

  lemma {:induction false} SplitItem(part: string, sep: char)
    requires sep !in part
    ensures Split(part, sep) == [part]
  {
    if part != "" {
      assert part[0] in part;
      assert forall c :: c in part[1..] ==> c in part;
      SplitItem(part[1..], sep);
      assert [part[0]] + part[1..] == part;
    }
  }

  /** Splitting a joined string splits each side. */
  lemma {:induction false} SplitJoin(a: string, sep: char, b: string)
    ensures Split(a + [sep] + b, sep) == Split(a, sep) + Split(b, sep)
  {
    if a == "" {
      assert a + [sep] + b == [sep] + b;
      SplitSeparator(sep, b);
    } else {
      var joined := a[1..] + [sep] + b;
      SplitJoin(a[1..], sep, b);
      assert a + [sep] + b == [a[0]] + joined;
      if a[0] == sep {
        SplitSeparator(sep, joined);
        assert [""] + (Split(a[1..], sep) + Split(b, sep)) == [""] + Split(a[1..], sep) + Split(b, sep);
      } else {
        SplitOther(a[0], joined, sep);
        ExtendAppend(a[0], Split(a[1..], sep), Split(b, sep));
      }
    }
  }

  lemma SplitFirst(part: string, sep: char, rest: string)
    requires sep !in part
    ensures Split(part + [sep] + rest, sep) == [part] + Split(rest, sep)
  {
    SplitItem(part, sep);
    SplitJoin(part, sep, rest);
  }

  lemma {:induction false} PartsHaveNoSeparator(s: string, sep: char)
    ensures forall i :: 0 <= i < |Split(s, sep)| ==> sep !in Split(s, sep)[i]
  {
    if s != "" {
      PartsHaveNoSeparator(s[1..], sep);
    }
  }
}
