/** The spreadsheet side of the input readers: a workbook is a sequence of named sheets,
    each an abstract grid of cells addressed by 0-based `(row, column)`, where `None` is an
    empty cell. This module holds what both reader files share: the cell-address
    conversion, the for-each-sheet lookup, list comprehensions over index ranges, and the
    `dict(zip(keys, values))` that turns two lists into a parameter dictionary. */
module Workbook {

  datatype Option<T> = None | Some(value: T)

  /** A cell's value: a number (Excel numbers are taken as integers) or text. */
  datatype Value = Num(n: int) | Text(s: string)

  /** A dictionary key: a bare cell value, or a tuple of cell values. */
  datatype Key = Scalar(v: Value) | Tuple(components: seq<Value>)

  type Grid = (int, int) -> Option<Value>

  datatype Sheet = Sheet(name: string, cells: Grid)

  /** The exceptions the readers can raise, named by the variable involved. */
  datatype Error = UnboundLocal(variable: string) | NameError(variable: string)

  datatype Result<T> = Ok(value: T) | Err(error: Error)

  /** The cell holds something (its cell type is not "empty"). */
  predicate Filled(g: Grid, row: int, col: int)
  {
    g(row, col).Some?
  }

  /** The `.value` of a cell: an empty cell reads as the empty string. */
  function CellValue(g: Grid, row: int, col: int): Value
  {
    if Filled(g, row, col) then g(row, col).value else Text("")
  }

  /** A parameter value: the cell's value, or 0 when the cell is empty. */
  function ValueOrZero(g: Grid, row: int, col: int): Value
  {
    if Filled(g, row, col) then g(row, col).value else Num(0)
  }

  /** Rows below the header row `startRow` down to `endRow` (0-based, inclusive): the
      length of `range(startRow + 1, endRow + 1)`. */
  function DataRowCount(startRow: int, endRow: int): nat
  {
    if endRow > startRow then endRow - startRow else 0
  }

  // ---------------------------------------------------------------------------------
  // Cell addresses

  predicate IsLetter(ch: char)
  {
    'A' <= ch <= 'Z' || 'a' <= ch <= 'z'
  }

  /** Lower-casing of a character (ASCII letters; every other character is unchanged). */
  function Lower(ch: char): char
  {
    if 'A' <= ch <= 'Z' then (ch as int + 32) as char else ch
  }

  /** The upper-case letter naming the 0-based column `k`. */
  function ColumnLetter(k: int): char
    requires 0 <= k < 26
  {
    ('A' as int + k) as char
  }

  /** Converts a spreadsheet address `(row, letter)`, row counted from 1, into the 0-based
      `(row, column)` of the grid: the row less one and the letter's place in the
      alphabet, whichever its case. */
  function CellLocConversion(loc: (int, char)): (r: (int, int))
    ensures r.0 == loc.0 - 1
    ensures 'A' <= loc.1 <= 'Z' ==> r.1 == loc.1 as int - 'A' as int
    ensures 'a' <= loc.1 <= 'z' ==> r.1 == loc.1 as int - 'a' as int
    ensures IsLetter(loc.1) ==> 0 <= r.1 < 26
  {
    (loc.0 - 1, Lower(loc.1) as int - 'a' as int)
  }

  /** Converting the address of 0-based cell `(row, k)` gives back `(row, k)`. */
  lemma CellLocRoundTrip(row: int, k: int)
    requires 0 <= k < 26
    ensures CellLocConversion((row + 1, ColumnLetter(k))) == (row, k)
  {
  }

  /** Two letter addresses convert to the same cell exactly when their rows are equal and
      their letters are equal up to case. */
  lemma CellLocConversionInjective(a: (int, char), b: (int, char))
    requires IsLetter(a.1) && IsLetter(b.1)
    ensures CellLocConversion(a) == CellLocConversion(b) <==> a.0 == b.0 && Lower(a.1) == Lower(b.1)
  {
  }

  /** A lower-case column letter addresses the same cell as its upper-case form. */
  lemma CellLocCaseInsensitive(row: int, ch: char)
    requires 'a' <= ch <= 'z'
    ensures CellLocConversion((row, ch)) == CellLocConversion((row, (ch as int - 32) as char))
  {
  }

  // ---------------------------------------------------------------------------------
  // Looking a sheet up by name

  /** The position of the last sheet called `name`, if any. */
  function LastMatch(book: seq<Sheet>, name: string): (r: Option<nat>)
    ensures r.None? <==> forall k :: 0 <= k < |book| ==> book[k].name != name
    ensures r.Some? ==> r.value < |book| && book[r.value].name == name
    ensures r.Some? ==> forall k :: r.value < k < |book| ==> book[k].name != name
    decreases |book|
  {
    if |book| == 0 then None
    else if book[|book| - 1].name == name then Some(|book| - 1)
    else LastMatch(book[..|book| - 1], name)
  }

  /** The readers' loop over the sheets of a workbook: every sheet with the requested name
      replaces what an earlier one produced, so the last such sheet is the one read. */
  method SelectSheet(book: seq<Sheet>, name: string) returns (found: Option<nat>)
    ensures found == LastMatch(book, name)
  {
    found := None;
    for k := 0 to |book|
      invariant found == LastMatch(book[..k], name)
    {
      assert book[..k + 1][..k] == book[..k];
      if book[k].name == name {
        found := Some(k);
      }
    }
    assert book[..|book|] == book;
  }

  // ---------------------------------------------------------------------------------
  // Comprehensions over index ranges

  /** `f(lo) + f(lo + 1) + ... + f(hi - 1)`: the list comprehension
      `[e for a in range(lo, hi) for e in f(a)]`. */
  function Concat<T>(lo: int, hi: int, f: int -> seq<T>): seq<T>
    decreases hi - lo
  {
    if hi <= lo then [] else Concat(lo, hi - 1, f) + f(hi - 1)
  }

  /** An element is in a concatenation exactly when it is in one of its blocks. */
  lemma {:induction false} ConcatMember<T>(lo: int, hi: int, f: int -> seq<T>, x: T)
    ensures x in Concat(lo, hi, f) <==> exists a :: lo <= a < hi && x in f(a)
    decreases hi - lo
  {
    if lo < hi {
      ConcatMember(lo, hi - 1, f, x);
    }
  }

  /** A concatenation of a non-empty range starts with its first block. */
  lemma {:induction false} ConcatFirst<T>(lo: int, hi: int, f: int -> seq<T>)
    requires lo < hi
    ensures Concat(lo, hi, f) == f(lo) + Concat(lo + 1, hi, f)
    decreases hi - lo
  {
    if lo + 1 < hi {
      ConcatFirst(lo, hi - 1, f);
      assert Concat(lo, hi, f) == f(lo) + Concat(lo + 1, hi - 1, f) + f(hi - 1);
    } else {
      assert Concat(lo, lo, f) == [];
    }
  }

  /** A concatenation of empty blocks is empty. */
  lemma {:induction false} ConcatOfEmpty<T>(lo: int, hi: int, f: int -> seq<T>)
    requires forall a :: lo <= a < hi ==> f(a) == []
    ensures Concat(lo, hi, f) == []
    decreases hi - lo
  {
    if lo < hi {
      ConcatOfEmpty(lo, hi - 1, f);
    }
  }

  /** Blocks of `n` elements each make `n` elements per index in the range. */
  lemma {:induction false} ConcatLength<T>(lo: int, hi: int, f: int -> seq<T>, n: nat)
    requires forall a :: lo <= a < hi ==> |f(a)| == n
    ensures |Concat(lo, hi, f)| == if lo < hi then (hi - lo) * n else 0
    decreases hi - lo
  {
    if lo < hi {
      ConcatLength(lo, hi - 1, f, n);
      assert (hi - lo) * n == (hi - 1 - lo) * n + n;
    }
  }

  /** Leading empty blocks contribute nothing. */
  lemma {:induction false} ConcatDropEmpty<T>(lo: int, mid: int, hi: int, f: int -> seq<T>)
    requires lo <= mid <= hi
    requires forall a :: lo <= a < mid ==> f(a) == []
    ensures Concat(lo, hi, f) == Concat(mid, hi, f)
    decreases mid - lo
  {
    if lo < mid {
      ConcatFirst(lo, hi, f);
      ConcatDropEmpty(lo + 1, mid, hi, f);
    }
  }

  /** Blocks of one element each, `f(a) == [h(a)]`, list `h` over the range in order. */
  lemma {:induction false} ConcatOfSingletons<T>(lo: int, hi: int, f: int -> seq<T>, h: int -> T)
    requires lo <= hi
    requires forall a :: lo <= a < hi ==> f(a) == [h(a)]
    ensures |Concat(lo, hi, f)| == hi - lo
    ensures forall p :: 0 <= p < hi - lo ==> Concat(lo, hi, f)[p] == h(lo + p)
    decreases hi - lo
  {
    if lo < hi {
      ConcatOfSingletons(lo, hi - 1, f, h);
    }
  }

  // ---------------------------------------------------------------------------------
  // dict(zip(keys, values))

  /** Keys and values paired position by position, as long as the shorter list. */
  function Zip<K, V>(ks: seq<K>, vs: seq<V>): (r: seq<(K, V)>)
    ensures |r| == if |ks| <= |vs| then |ks| else |vs|
    ensures forall p :: 0 <= p < |r| ==> r[p] == (ks[p], vs[p])
  {
    seq(if |ks| <= |vs| then |ks| else |vs|, p requires 0 <= p < |ks| && p < |vs| => (ks[p], vs[p]))
  }

  /** Zipping two lists cut at the same length zips the two parts separately. */
  lemma ZipAppend<K, V>(ks1: seq<K>, ks2: seq<K>, vs1: seq<V>, vs2: seq<V>)
    requires |ks1| == |vs1|
    ensures Zip(ks1 + ks2, vs1 + vs2) == Zip(ks1, vs1) + Zip(ks2, vs2)
  {
    var l, r := Zip(ks1 + ks2, vs1 + vs2), Zip(ks1, vs1) + Zip(ks2, vs2);
    assert |l| == |r|;
    forall p | 0 <= p < |l| ensures l[p] == r[p] {
      if p >= |ks1| {
        assert r[p] == Zip(ks2, vs2)[p - |ks1|];
      }
    }
  }

  /** Zipping two concatenations whose blocks have equal lengths zips block by block. */
  lemma {:induction false} ZipConcat<K, V>(lo: int, hi: int, f: int -> seq<K>, g: int -> seq<V>)
    requires forall a :: lo <= a < hi ==> |f(a)| == |g(a)|
    ensures Zip(Concat(lo, hi, f), Concat(lo, hi, g)) == Concat(lo, hi, a => Zip(f(a), g(a)))
    decreases hi - lo
  {
    if lo < hi {
      ZipConcat(lo, hi - 1, f, g);
      ConcatsOfEqualLength(lo, hi - 1, f, g);
      ZipAppend(Concat(lo, hi - 1, f), f(hi - 1), Concat(lo, hi - 1, g), g(hi - 1));
    }
  }

  /** A pair is in the zip of two concatenations of equally long blocks exactly when it is
      in the zip of one pair of corresponding blocks. */
  lemma ZipConcatMember<K, V>(lo: int, hi: int, f: int -> seq<K>, g: int -> seq<V>, x: (K, V))
    requires forall a :: lo <= a < hi ==> |f(a)| == |g(a)|
    ensures x in Zip(Concat(lo, hi, f), Concat(lo, hi, g)) <==> exists a :: lo <= a < hi && x in Zip(f(a), g(a))
  {
    var z := a => Zip(f(a), g(a));
    ZipConcat(lo, hi, f, g);
    assert Zip(Concat(lo, hi, f), Concat(lo, hi, g)) == Concat(lo, hi, z);
    ConcatMember(lo, hi, z, x);
    assert forall a :: z(a) == Zip(f(a), g(a));
  }

  /** Concatenations whose blocks have pairwise equal lengths have equal lengths. */
  lemma {:induction false} ConcatsOfEqualLength<K, V>(lo: int, hi: int, f: int -> seq<K>, g: int -> seq<V>)
    requires forall a :: lo <= a < hi ==> |f(a)| == |g(a)|
    ensures |Concat(lo, hi, f)| == |Concat(lo, hi, g)|
    decreases hi - lo
  {
    if lo < hi {
      ConcatsOfEqualLength(lo, hi - 1, f, g);
    }
  }

  /** The dictionary built from the first `n` key-value pairs in order, a later pair
      overwriting an earlier one with the same key. */
  function DictPrefix<K(!new), V>(pairs: seq<(K, V)>, n: nat): (m: map<K, V>)
    requires n <= |pairs|
    ensures |m| <= n
  {
    if n == 0 then map[]
    else
      var front := DictPrefix(pairs, n - 1);
      var last := pairs[n - 1];
      assert |front.Keys + {last.0}| <= |front.Keys| + 1;
      front[last.0 := last.1]
  }

  /** `dict(pairs)`: the dictionary built from all the pairs. */
  function DictOf<K(!new), V>(pairs: seq<(K, V)>): (m: map<K, V>)
    ensures |m| <= |pairs|
  {
    DictPrefix(pairs, |pairs|)
  }

  /** The keys of the dictionary of a prefix are exactly the keys of its pairs. */
  lemma {:induction false} DictPrefixKeys<K(!new), V>(pairs: seq<(K, V)>, n: nat, k: K)
    requires n <= |pairs|
    ensures k in DictPrefix(pairs, n) <==> exists p :: 0 <= p < n && pairs[p].0 == k
  {
    if n > 0 {
      DictPrefixKeys(pairs, n - 1, k);
    }
  }

  /** The keys of the dictionary are exactly the keys of the pairs. */
  lemma DictOfKeys<K(!new), V>(pairs: seq<(K, V)>, k: K)
    ensures k in DictOf(pairs) <==> exists p :: 0 <= p < |pairs| && pairs[p].0 == k
  {
    DictPrefixKeys(pairs, |pairs|, k);
  }

  /** A key of the dictionary is the key of some pair. */
  lemma DictOfKeyFromPair<K(!new), V>(pairs: seq<(K, V)>, k: K) returns (p: nat)
    requires k in DictOf(pairs)
    ensures p < |pairs| && pairs[p].0 == k
  {
    DictOfKeys(pairs, k);
    p :| 0 <= p < |pairs| && pairs[p].0 == k;
  }

  /** A key of the dictionary of zipped lists is one of the keys. */
  lemma DictOfZipKey<K(!new), V>(ks: seq<K>, vs: seq<V>, k: K) returns (p: nat)
    requires k in DictOf(Zip(ks, vs))
    ensures p < |ks| && p < |vs| && ks[p] == k
  {
    p := DictOfKeyFromPair(Zip(ks, vs), k);
  }

  /** In a prefix, a pair whose key no later pair of the prefix repeats gives the value. */
  lemma {:induction false} DictPrefixLastWins<K(!new), V>(pairs: seq<(K, V)>, n: nat, p: nat)
    requires p < n <= |pairs|
    requires forall q :: p < q < n ==> pairs[q].0 != pairs[p].0
    ensures pairs[p].0 in DictPrefix(pairs, n) && DictPrefix(pairs, n)[pairs[p].0] == pairs[p].1
  {
    if p < n - 1 {
      DictPrefixLastWins(pairs, n - 1, p);
    }
  }

  /** A pair whose key no later pair repeats gives the key's value in the dictionary. */
  lemma DictOfLastWins<K(!new), V>(pairs: seq<(K, V)>, p: nat)
    requires p < |pairs|
    requires forall q :: p < q < |pairs| ==> pairs[q].0 != pairs[p].0
    ensures pairs[p].0 in DictOf(pairs) && DictOf(pairs)[pairs[p].0] == pairs[p].1
  {
    DictPrefixLastWins(pairs, |pairs|, p);
  }

  /** A key all of whose pairs carry the same value maps to that value. */
  lemma DictOfConsistent<K(!new), V>(pairs: seq<(K, V)>, k: K, v: V)
    requires (k, v) in pairs
    requires forall q :: 0 <= q < |pairs| && pairs[q].0 == k ==> pairs[q].1 == v
    ensures k in DictOf(pairs) && DictOf(pairs)[k] == v
  {
    var p :| 0 <= p < |pairs| && pairs[p] == (k, v);
    while p + 1 < |pairs| && exists q :: p < q < |pairs| && pairs[q].0 == k
      invariant 0 <= p < |pairs| && pairs[p] == (k, v)
      decreases |pairs| - p
    {
      var q :| p < q < |pairs| && pairs[q].0 == k;
      p := q;
    }
    DictOfLastWins(pairs, p);
  }

  /** A prefix of pairs with pairwise distinct keys keeps one entry per pair. */
  lemma {:induction false} DictPrefixDistinctKeys<K(!new), V>(pairs: seq<(K, V)>, n: nat)
    requires n <= |pairs|
    requires forall p, q :: 0 <= p < q < |pairs| ==> pairs[p].0 != pairs[q].0
    ensures |DictPrefix(pairs, n)| == n
  {
    if n > 0 {
      DictPrefixDistinctKeys(pairs, n - 1);
      DictPrefixKeys(pairs, n - 1, pairs[n - 1].0);
    }
  }

  /** Pairs with pairwise distinct keys are all kept: one entry per pair. */
  lemma DictOfDistinctKeys<K(!new), V>(pairs: seq<(K, V)>)
    requires forall p, q :: 0 <= p < q < |pairs| ==> pairs[p].0 != pairs[q].0
    ensures |DictOf(pairs)| == |pairs|
  {
    DictPrefixDistinctKeys(pairs, |pairs|);
  }
}
