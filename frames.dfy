/** The few dataframe operations the cleaning stage is built from, on a frame seen as the
    sequence of its rows.  A selection keeps the rows' original positions, which is what a
    dataframe's index labels record; `Kept` computes those positions. */
module Frames {
  import opened Wrappers

  /** Positions are listed in strictly increasing order. */
  ghost predicate Ascending(idx: seq<nat>) {
    forall a, b :: 0 <= a < b < |idx| ==> idx[a] < idx[b]
  }

  /** The positions at which `mask` holds, in ascending order: the index labels that
      survive the selection `df[mask]`. */
  function Kept(mask: seq<bool>): (idx: seq<nat>)
    ensures |idx| <= |mask|
    ensures forall k :: 0 <= k < |idx| ==> idx[k] < |mask| && mask[idx[k]]
  {
    if mask == [] then []
    else Kept(mask[..|mask| - 1]) + (if mask[|mask| - 1] then [|mask| - 1] else [])
  }

  /** `Kept` lists its positions in ascending order. */
  lemma {:induction false} KeptAscending(mask: seq<bool>)
    ensures Ascending(Kept(mask))
  {
    if mask != [] {
      KeptAscending(mask[..|mask| - 1]);
    }
  }

  /** Selecting from a prefix of the rows keeps a prefix of the positions. */
  lemma {:induction false} KeptPrefix(mask: seq<bool>, j: int)
    requires 0 <= j <= |mask|
    ensures Kept(mask[..j]) <= Kept(mask)
    decreases |mask|
  {
    if j < |mask| {
      var init := mask[..|mask| - 1];
      assert init[..j] == mask[..j];
      KeptPrefix(init, j);
    } else {
      assert mask[..j] == mask;
    }
  }

  /** Every position where the mask holds is kept, at place `|Kept(mask[..i])|`: the number of
      kept positions before it. */
  lemma KeptAt(mask: seq<bool>, i: int)
    requires 0 <= i < |mask| && mask[i]
    ensures |Kept(mask[..i])| < |Kept(mask)| && Kept(mask)[|Kept(mask[..i])|] == i
  {
    assert mask[..i + 1][..i] == mask[..i];
    assert Kept(mask[..i + 1]) == Kept(mask[..i]) + [i];
    KeptPrefix(mask, i + 1);
  }

  /** In an ascending list, the order of the values is the order of their places. */
  lemma AscendingOrder(idx: seq<nat>, a: int, b: int)
    requires Ascending(idx)
    requires 0 <= a < |idx| && 0 <= b < |idx|
    ensures idx[a] < idx[b] <==> a < b
    ensures idx[a] == idx[b] <==> a == b
  {
  }

  /** Boolean-mask selection `df[mask]`: the rows at which the mask holds, in order. */
  function Where<T>(s: seq<T>, mask: seq<bool>): (r: seq<T>)
    requires |mask| == |s|
    ensures |r| == |Kept(mask)|
    ensures forall k :: 0 <= k < |r| ==> r[k] == s[Kept(mask)[k]]
  {
    if s == [] then []
    else
      Where(s[..|s| - 1], mask[..|s| - 1]) + (if mask[|s| - 1] then [s[|s| - 1]] else [])
  }

  /** A whole-column map, such as `df[col] = df[col].str.strip()`. */
  function MapRows<T, U>(s: seq<T>, f: T -> U): (r: seq<U>) {
    seq(|s|, i requires 0 <= i < |s| => f(s[i]))
  }

  /** The boolean column `p(row)` of a frame, such as `df['score'] > 0`. */
  function Mask<T>(s: seq<T>, p: T -> bool): (mask: seq<bool>) {
    seq(|s|, i requires 0 <= i < |s| => p(s[i]))
  }

  /** `df[p(df)]`: the rows that satisfy `p`. */
  function Filter<T>(s: seq<T>, p: T -> bool): (r: seq<T>) {
    Where(s, Mask(s, p))
  }

  /** The keys seen among the rows of `s`. */
  function KeySet<T, K(==)>(s: seq<T>, key: T -> K): (keys: set<K>) {
    set i | 0 <= i < |s| :: key(s[i])
  }

  /** `~df.duplicated(subset=key, keep='first')`: walks the rows keeping the set of keys
      already seen, and marks a row when its key is new. */
  function FirstOccurrences<T, K(==)>(s: seq<T>, key: T -> K): (m: seq<bool>)
    ensures |m| == |s|
  {
    if s == [] then []
    else
      var init := s[..|s| - 1];
      FirstOccurrences(init, key) + [key(s[|s| - 1]) !in KeySet(init, key)]
  }

  /** A row is marked exactly when no earlier row carries the same key. */
  lemma {:induction false} FirstOccurrencesAt<T, K>(s: seq<T>, key: T -> K)
    ensures var m := FirstOccurrences(s, key);
            forall i :: 0 <= i < |s| ==> (m[i] <==> IsFirst(s, key, i))
  {
    if s != [] {
      var n := |s| - 1;
      var init := s[..n];
      FirstOccurrencesAt(init, key);
      var m := FirstOccurrences(s, key);
      forall i | 0 <= i < |s|
        ensures m[i] <==> IsFirst(s, key, i)
      {
        if i < n {
          assert m[i] == FirstOccurrences(init, key)[i];
          assert forall j :: 0 <= j <= i ==> init[j] == s[j];
        } else if key(s[n]) in KeySet(init, key) {
          var j :| 0 <= j < n && key(init[j]) == key(s[n]);
          assert key(s[j]) == key(s[n]);
        } else {
          forall j | 0 <= j < n
            ensures key(s[j]) != key(s[n])
          {
            assert key(init[j]) in KeySet(init, key);
          }
        }
      }
    }
  }

  /** Row `i` is the first row carrying its key. */
  ghost predicate IsFirst<T, K>(s: seq<T>, key: T -> K, i: int)
    requires 0 <= i < |s|
  {
    forall j :: 0 <= j < i ==> key(s[j]) != key(s[i])
  }

  /** `df.drop_duplicates(subset=key, keep='first')`. */
  function DropDuplicates<T, K(==)>(s: seq<T>, key: T -> K): (r: seq<T>) {
    Where(s, FirstOccurrences(s, key))
  }

  /** After `drop_duplicates` no two rows share a key. */
  lemma DropDuplicatesUnique<T, K>(s: seq<T>, key: T -> K)
    ensures var r := DropDuplicates(s, key);
            forall a, b :: 0 <= a < b < |r| ==> key(r[a]) != key(r[b])
  {
    var m := FirstOccurrences(s, key);
    var idx := Kept(m);
    KeptAscending(m);
    FirstOccurrencesAt(s, key);
    var r := DropDuplicates(s, key);
    forall a, b | 0 <= a < b < |r|
      ensures key(r[a]) != key(r[b])
    {
      assert idx[a] < idx[b];
      assert m[idx[b]];
      assert IsFirst(s, key, idx[b]);
      assert r[a] == s[idx[a]] && r[b] == s[idx[b]];
    }
  }

  /** First occurrence wins: every key of the input is still present, carried by the first
      input row with that key, and every surviving row is such a first row. */
  lemma DropDuplicatesFirstWins<T, K>(s: seq<T>, key: T -> K)
    ensures var r := DropDuplicates(s, key);
            && (forall i :: 0 <= i < |s| && IsFirst(s, key, i) ==> s[i] in r)
            && (forall k :: 0 <= k < |r| ==>
                  exists i :: 0 <= i < |s| && r[k] == s[i] && IsFirst(s, key, i))
            && KeySet(r, key) == KeySet(s, key)
  {
    var m := FirstOccurrences(s, key);
    var idx := Kept(m);
    FirstOccurrencesAt(s, key);
    var r := DropDuplicates(s, key);
    forall i | 0 <= i < |s| && IsFirst(s, key, i)
      ensures s[i] in r
    {
      KeptAt(m, i);
      assert r[|Kept(m[..i])|] == s[i];
    }
    forall k | 0 <= k < |r|
      ensures exists i :: 0 <= i < |s| && r[k] == s[i] && IsFirst(s, key, i)
    {
      assert m[idx[k]];
    }
    forall x | x in KeySet(s, key)
      ensures x in KeySet(r, key)
    {
      var i :| 0 <= i < |s| && key(s[i]) == x;
      var f := EarliestWithKey(s, key, i);
      assert s[f] in r;
      var k :| 0 <= k < |r| && r[k] == s[f];
    }
  }

  /** The first row carrying the key of row `i`. */
  lemma {:induction false} EarliestWithKey<T, K>(s: seq<T>, key: T -> K, i: int) returns (f: int)
    requires 0 <= i < |s|
    ensures 0 <= f <= i && key(s[f]) == key(s[i]) && IsFirst(s, key, f)
    decreases i
  {
    if IsFirst(s, key, i) {
      f := i;
    } else {
      var j :| 0 <= j < i && key(s[j]) == key(s[i]);
      f := EarliestWithKey(s, key, j);
    }
  }

  /** Position lists compose: the rows selected from a selection sit at `outer[inner[k]]`. */
  function Compose(outer: seq<nat>, inner: seq<nat>): (idx: seq<nat>)
    requires forall k :: 0 <= k < |inner| ==> inner[k] < |outer|
    ensures |idx| == |inner|
  {
    seq(|inner|, k requires 0 <= k < |inner| => outer[inner[k]])
  }

  /** A selection of a selection is again an ascending selection. */
  lemma ComposeAscending(outer: seq<nat>, inner: seq<nat>)
    requires forall k :: 0 <= k < |inner| ==> inner[k] < |outer|
    requires Ascending(outer) && Ascending(inner)
    ensures Ascending(Compose(outer, inner))
  {
  }
}
