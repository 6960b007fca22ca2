/** The readers of auxiliary_functions.py. A set is one header row read left to right. A
    parameter table is chosen by its shape `par_dim`: `(0, 1)` is a header row of keys
    with values below it; `(1, 1)` and `(2, 1)` are matrices whose rows are labelled by
    the first one or two columns and whose columns are labelled by the header row, each
    value keyed by its row label(s) and its column header. */
module AuxiliaryFunctionsParDim {
  import opened Workbook

  /** Columns `startCol` to `endCol` inclusive. */
  function ColumnCount(startCol: int, endCol: int): nat
  {
    if endCol >= startCol then endCol - startCol + 1 else 0
  }

  /** `read_set_from_excel`: the cells of the start row from the start column to the end
      column, read from the last sheet with the given name. With no such sheet the result
      list is never bound. */
  function ReadSetFromExcel(book: seq<Sheet>, sheetName: string, startLoc: (int, char),
                            endLoc: (int, char)): (r: Result<seq<Value>>)
    ensures r.Err? <==> LastMatch(book, sheetName).None?
    ensures r.Err? ==> r.error == UnboundLocal("set_list")
    ensures r.Ok? ==>
      var g := book[LastMatch(book, sheetName).value].cells;
      var s, e := CellLocConversion(startLoc), CellLocConversion(endLoc);
      && |r.value| == ColumnCount(s.1, e.1)
      && forall p :: 0 <= p < |r.value| ==> r.value[p] == CellValue(g, s.0, s.1 + p)
  {
    match LastMatch(book, sheetName)
    case None => Err(UnboundLocal("set_list"))
    case Some(k) =>
      var s, e := CellLocConversion(startLoc), CellLocConversion(endLoc);
      var g := book[k].cells;
      Ok(seq(ColumnCount(s.1, e.1), p => CellValue(g, s.0, s.1 + p)))
  }

  // ---------------------------------------------------------------------------------
  // par_dim (0, 1): a header row of keys over rows of values

  /** The header cell of the `p`-th column of the table. */
  function HeaderAt(g: Grid, s: (int, int), p: int): Value
  {
    CellValue(g, s.0, s.1 + p)
  }

  /** One key per header cell. */
  function HeaderKeys(g: Grid, s: (int, int), e: (int, int)): (r: seq<Key>)
    ensures |r| == ColumnCount(s.1, e.1)
    ensures forall p :: 0 <= p < |r| ==> r[p] == Scalar(HeaderAt(g, s, p))
  {
    seq(ColumnCount(s.1, e.1), p => Scalar(HeaderAt(g, s, p)))
  }

  /** The values of one row of the table, left to right, 0 for an empty cell. */
  function RowValues(g: Grid, s: (int, int), e: (int, int), row: int): (r: seq<Value>)
    ensures |r| == ColumnCount(s.1, e.1)
    ensures forall p :: 0 <= p < |r| ==> r[p] == ValueOrZero(g, row, s.1 + p)
  {
    seq(ColumnCount(s.1, e.1), p => ValueOrZero(g, row, s.1 + p))
  }

  /** `RowValues` as a function of the row. */
  function RowValuesOf(g: Grid, s: (int, int), e: (int, int)): int -> seq<Value>
  {
    row => RowValues(g, s, e, row)
  }

  /** All values below the header, row after row. */
  function TableValues(g: Grid, s: (int, int), e: (int, int)): seq<Value>
  {
    Concat(s.0 + 1, e.0 + 1, RowValuesOf(g, s, e))
  }

  function HeaderDict(g: Grid, s: (int, int), e: (int, int)): map<Key, Value>
  {
    DictOf(Zip(HeaderKeys(g, s, e), TableValues(g, s, e)))
  }

  // ---------------------------------------------------------------------------------
  // par_dim (1, 1) and (2, 1): a matrix labelled by `n` label columns and a header row

  /** The `n` row labels of `row`, from the start column rightwards. */
  function RowLabels(g: Grid, row: int, col: int, n: nat): (r: seq<Value>)
    ensures |r| == n
    ensures forall m :: 0 <= m < n ==> r[m] == CellValue(g, row, col + m)
  {
    seq(n, m => CellValue(g, row, col + m))
  }

  /** Every label cell of `row` holds something. */
  predicate LabelsFilled(g: Grid, row: int, col: int, n: nat)
  {
    forall c :: col <= c < col + n ==> Filled(g, row, c)
  }

  /** The key of the value at `(row, col)`: its row labels followed by its column header. */
  function KeyAt(g: Grid, s: (int, int), n: nat, row: int, col: int): Key
  {
    Tuple(RowLabels(g, row, s.1, n) + [CellValue(g, s.0, col)])
  }

  /** The key the comprehension yields for `(row, col)`: none unless the row labels and
      the column header are all filled. */
  function LabelledKey(g: Grid, s: (int, int), n: nat, row: int, col: int): seq<Key>
  {
    if LabelsFilled(g, row, s.1, n) && Filled(g, s.0, col) then [KeyAt(g, s, n, row, col)] else []
  }

  /** `LabelledKey` in column `col` as a function of the row. */
  function LabelledKeyOf(g: Grid, s: (int, int), n: nat, col: int): int -> seq<Key>
  {
    row => LabelledKey(g, s, n, row, col)
  }

  /** The keys of one column, over the rows from the header row down. */
  function KeyColumn(g: Grid, s: (int, int), e: (int, int), n: nat, col: int): seq<Key>
  {
    Concat(s.0, e.0 + 1, LabelledKeyOf(g, s, n, col))
  }

  /** `KeyColumn` as a function of the column. */
  function KeyColumnOf(g: Grid, s: (int, int), e: (int, int), n: nat): int -> seq<Key>
  {
    col => KeyColumn(g, s, e, n, col)
  }

  /** The keys of the columns from `from` to the end column, column after column. */
  function KeyColumns(g: Grid, s: (int, int), e: (int, int), n: nat, from: int): seq<Key>
  {
    Concat(from, e.1 + 1, KeyColumnOf(g, s, e, n))
  }

  /** The values of one column below the header, 0 for an empty cell. */
  function ColumnValues(g: Grid, s: (int, int), e: (int, int), col: int): (r: seq<Value>)
    ensures |r| == DataRowCount(s.0, e.0)
    ensures forall p :: 0 <= p < |r| ==> r[p] == ValueOrZero(g, s.0 + 1 + p, col)
  {
    seq(DataRowCount(s.0, e.0), p => ValueOrZero(g, s.0 + 1 + p, col))
  }

  /** `ColumnValues` as a function of the column. */
  function ColumnValuesOf(g: Grid, s: (int, int), e: (int, int)): int -> seq<Value>
  {
    col => ColumnValues(g, s, e, col)
  }

  /** The values of the columns from `from` to the end column, column after column. */
  function ValueColumns(g: Grid, s: (int, int), e: (int, int), from: int): seq<Value>
  {
    Concat(from, e.1 + 1, ColumnValuesOf(g, s, e))
  }

  /** The keys start at the start column, the values `n` columns to its right. */
  function LabelledDict(g: Grid, s: (int, int), e: (int, int), n: nat): map<Key, Value>
  {
    DictOf(Zip(KeyColumns(g, s, e, n, s.1), ValueColumns(g, s, e, s.1 + n)))
  }

  // ---------------------------------------------------------------------------------
  // read_par_from_excel

  predicate KnownParDim(parDim: (int, int))
  {
    parDim == (0, 1) || parDim == (1, 1) || parDim == (2, 1)
  }

  /** `read_par_from_excel`: the dictionary of the last sheet with the given name, in the
      shape `parDim` names. Any other shape, or a missing sheet, leaves the key list
      unbound. */
  function ReadParFromExcel(book: seq<Sheet>, sheetName: string, startLoc: (int, char),
                            endLoc: (int, char), parDim: (int, int)): (r: Result<map<Key, Value>>)
    ensures r.Err? <==> !KnownParDim(parDim) || LastMatch(book, sheetName).None?
    ensures r.Err? ==> r.error == UnboundLocal("dic_keys")
    ensures r.Ok? ==>
      var g := book[LastMatch(book, sheetName).value].cells;
      var s, e := CellLocConversion(startLoc), CellLocConversion(endLoc);
      r.value == if parDim == (0, 1) then HeaderDict(g, s, e) else LabelledDict(g, s, e, parDim.0)
  {
    if !KnownParDim(parDim) then Err(UnboundLocal("dic_keys"))
    else match LastMatch(book, sheetName)
      case None => Err(UnboundLocal("dic_keys"))
      case Some(k) =>
        var g, s, e := book[k].cells, CellLocConversion(startLoc), CellLocConversion(endLoc);
        Ok(if parDim == (0, 1) then HeaderDict(g, s, e) else LabelledDict(g, s, e, parDim.0))
  }

  // ---------------------------------------------------------------------------------
  // Properties of the (0, 1) shape

  /** With no row below the header there are no values, and `zip` stops at once. */
  lemma HeaderDictWithoutDataRows(g: Grid, s: (int, int), e: (int, int))
    requires e.0 <= s.0
    ensures HeaderDict(g, s, e) == map[]
  {
    assert TableValues(g, s, e) == [];
  }

  /** With a data row, `zip` stops after the first one: the `q`-th pair is the `q`-th
      header with the cell just below it (0 when empty), and later rows are never read. */
  lemma HeaderPairsFirstRow(g: Grid, s: (int, int), e: (int, int))
    requires s.0 < e.0
    ensures |Zip(HeaderKeys(g, s, e), TableValues(g, s, e))| == ColumnCount(s.1, e.1)
    ensures forall q :: 0 <= q < ColumnCount(s.1, e.1) ==>
      Zip(HeaderKeys(g, s, e), TableValues(g, s, e))[q] == (Scalar(HeaderAt(g, s, q)), ValueOrZero(g, s.0 + 1, s.1 + q))
  {
    var f := RowValuesOf(g, s, e);
    ConcatFirst(s.0 + 1, e.0 + 1, f);
    var first := RowValues(g, s, e, s.0 + 1);
    assert f(s.0 + 1) == first;
    var vs := TableValues(g, s, e);
    assert |vs| >= |first|;
    forall q | 0 <= q < ColumnCount(s.1, e.1) ensures vs[q] == ValueOrZero(g, s.0 + 1, s.1 + q) {
      assert vs[q] == first[q];
    }
  }

  /** With a data row, the keys of the dictionary are exactly the header cells. */
  lemma HeaderDictKeys(g: Grid, s: (int, int), e: (int, int), key: Key)
    requires s.0 < e.0
    ensures key in HeaderDict(g, s, e) <==>
      exists q :: 0 <= q < ColumnCount(s.1, e.1) && key == Scalar(HeaderAt(g, s, q))
  {
    var pairs := Zip(HeaderKeys(g, s, e), TableValues(g, s, e));
    HeaderPairsFirstRow(g, s, e);
    DictOfKeys(pairs, key);
    if exists q :: 0 <= q < ColumnCount(s.1, e.1) && key == Scalar(HeaderAt(g, s, q)) {
      var q :| 0 <= q < ColumnCount(s.1, e.1) && key == Scalar(HeaderAt(g, s, q));
      assert pairs[q].0 == key;
    }
  }

  /** With a data row, a header no later header repeats maps to the cell just below it
      (0 when empty). */
  lemma HeaderDictFirstRow(g: Grid, s: (int, int), e: (int, int), p: nat)
    requires s.0 < e.0 && p < ColumnCount(s.1, e.1)
    requires forall q :: p < q < ColumnCount(s.1, e.1) ==> HeaderAt(g, s, q) != HeaderAt(g, s, p)
    ensures Scalar(HeaderAt(g, s, p)) in HeaderDict(g, s, e)
    ensures HeaderDict(g, s, e)[Scalar(HeaderAt(g, s, p))] == ValueOrZero(g, s.0 + 1, s.1 + p)
  {
    var pairs := Zip(HeaderKeys(g, s, e), TableValues(g, s, e));
    HeaderPairsFirstRow(g, s, e);
    forall q | p < q < |pairs| ensures pairs[q].0 != pairs[p].0 {
      assert pairs[q].0 == Scalar(HeaderAt(g, s, q));
    }
    DictOfLastWins(pairs, p);
  }

  // ---------------------------------------------------------------------------------
  // Properties of the (1, 1) and (2, 1) shapes

  /** A key in the keys of columns `from` onwards is in the keys of one of them. */
  lemma KeyColumnsMember(g: Grid, s: (int, int), e: (int, int), n: nat, from: int, p: int)
    requires 0 <= p < |KeyColumns(g, s, e, n, from)|
    ensures exists col :: from <= col <= e.1 && KeyColumns(g, s, e, n, from)[p] in KeyColumn(g, s, e, n, col)
  {
    var key := KeyColumns(g, s, e, n, from)[p];
    ConcatMember(from, e.1 + 1, KeyColumnOf(g, s, e, n), key);
  }

  /** A key in the keys of one column comes from one of its rows. */
  lemma KeyColumnMember(g: Grid, s: (int, int), e: (int, int), n: nat, col: int, key: Key)
    requires key in KeyColumn(g, s, e, n, col)
    ensures exists row :: s.0 <= row <= e.0 && key in LabelledKey(g, s, n, row, col)
  {
    ConcatMember(s.0, e.0 + 1, LabelledKeyOf(g, s, n, col), key);
  }

  /** Every key of a matrix dictionary comes from a row whose labels are all filled and a
      column whose header is filled, inside the addressed block. */
  lemma LabelledDictKeysFromFilledCells(g: Grid, s: (int, int), e: (int, int), n: nat, key: Key)
    requires key in LabelledDict(g, s, e, n)
    ensures exists row, col ::
      && s.0 <= row <= e.0 && s.1 <= col <= e.1
      && LabelsFilled(g, row, s.1, n) && Filled(g, s.0, col)
      && key == KeyAt(g, s, n, row, col)
  {
    var p := DictOfZipKey(KeyColumns(g, s, e, n, s.1), ValueColumns(g, s, e, s.1 + n), key);
    KeyColumnsMember(g, s, e, n, s.1, p);
    var col :| s.1 <= col <= e.1 && key in KeyColumn(g, s, e, n, col);
    KeyColumnMember(g, s, e, n, col, key);
    var row :| s.0 <= row <= e.0 && key in LabelledKey(g, s, n, row, col);
  }

  /** A matrix dictionary has at most one entry per value cell. */
  lemma LabelledDictSize(g: Grid, s: (int, int), e: (int, int), n: nat)
    ensures |LabelledDict(g, s, e, n)| <= ColumnCount(s.1 + n, e.1) * DataRowCount(s.0, e.0)
  {
    var values := ValueColumns(g, s, e, s.1 + n);
    ConcatLength(s.1 + n, e.1 + 1, ColumnValuesOf(g, s, e), DataRowCount(s.0, e.0));
    assert |values| == ColumnCount(s.1 + n, e.1) * DataRowCount(s.0, e.0);
    var pairs := Zip(KeyColumns(g, s, e, n, s.1), values);
    assert |pairs| <= |values|;
    assert |DictOf(pairs)| <= |pairs|;
  }

  /** Two keys are equal exactly when their row labels and their column headers are:
      a key tells cells apart by all of its labels and its header, and by nothing else. */
  lemma KeyAtParts(g: Grid, s: (int, int), n: nat, r1: int, c1: int, r2: int, c2: int)
    ensures KeyAt(g, s, n, r1, c1) == KeyAt(g, s, n, r2, c2) <==>
      RowLabels(g, r1, s.1, n) == RowLabels(g, r2, s.1, n) && CellValue(g, s.0, c1) == CellValue(g, s.0, c2)
  {
    var a, b := RowLabels(g, r1, s.1, n), RowLabels(g, r2, s.1, n);
    if KeyAt(g, s, n, r1, c1) == KeyAt(g, s, n, r2, c2) {
      assert (a + [CellValue(g, s.0, c1)])[..n] == a;
      assert (b + [CellValue(g, s.0, c2)])[..n] == b;
      assert (a + [CellValue(g, s.0, c1)])[n] == CellValue(g, s.0, c1);
    }
  }

  /** With the top-left corner empty, the label columns yield no key. */
  lemma LabelColumnsYieldNoKeys(g: Grid, s: (int, int), e: (int, int), n: nat)
    requires 1 <= n && s.1 + n <= e.1 + 1
    requires forall c :: s.1 <= c < s.1 + n ==> !Filled(g, s.0, c)
    ensures KeyColumns(g, s, e, n, s.1) == KeyColumns(g, s, e, n, s.1 + n)
  {
    forall c | s.1 <= c < s.1 + n ensures KeyColumn(g, s, e, n, c) == [] {
      ConcatOfEmpty(s.0, e.0 + 1, LabelledKeyOf(g, s, n, c));
    }
    ConcatDropEmpty(s.1, s.1 + n, e.1 + 1, KeyColumnOf(g, s, e, n));
  }

  /** With the top-left corner empty and every row labelled, a column with a filled header
      yields one key per data row, in row order: the keys line up with its values. */
  lemma KeyColumnAligned(g: Grid, s: (int, int), e: (int, int), n: nat, col: int)
    requires 1 <= n && s.0 <= e.0
    requires !Filled(g, s.0, s.1)
    requires forall row :: s.0 < row <= e.0 ==> LabelsFilled(g, row, s.1, n)
    requires Filled(g, s.0, col)
    ensures |KeyColumn(g, s, e, n, col)| == DataRowCount(s.0, e.0)
    ensures forall p :: 0 <= p < DataRowCount(s.0, e.0) ==> KeyColumn(g, s, e, n, col)[p] == KeyAt(g, s, n, s.0 + 1 + p, col)
  {
    var h := LabelledKeyOf(g, s, n, col);
    ConcatFirst(s.0, e.0 + 1, h);
    assert h(s.0) == [];
    ConcatOfSingletons(s.0 + 1, e.0 + 1, h, row => KeyAt(g, s, n, row, col));
  }

  /** The value at `(row, col)` is paired with its key in the zip of its column. */
  lemma CellPairInColumn(g: Grid, s: (int, int), e: (int, int), n: nat, row: int, col: int)
    requires 1 <= n && s.0 < row <= e.0
    requires !Filled(g, s.0, s.1)
    requires forall r :: s.0 < r <= e.0 ==> LabelsFilled(g, r, s.1, n)
    requires Filled(g, s.0, col)
    ensures (KeyAt(g, s, n, row, col), ValueOrZero(g, row, col)) in Zip(KeyColumn(g, s, e, n, col), ColumnValues(g, s, e, col))
  {
    KeyColumnAligned(g, s, e, n, col);
    var zc := Zip(KeyColumn(g, s, e, n, col), ColumnValues(g, s, e, col));
    var i := row - s.0 - 1;
    assert zc[i] == (KeyAt(g, s, n, row, col), ValueOrZero(g, row, col));
  }

  /** Every pair in the zip of one value column is the key and value of one of its cells. */
  lemma CellPairFromColumn(g: Grid, s: (int, int), e: (int, int), n: nat, col: int, x: (Key, Value))
    requires 1 <= n && s.0 <= e.0
    requires !Filled(g, s.0, s.1)
    requires forall r :: s.0 < r <= e.0 ==> LabelsFilled(g, r, s.1, n)
    requires Filled(g, s.0, col)
    requires x in Zip(KeyColumn(g, s, e, n, col), ColumnValues(g, s, e, col))
    ensures exists row :: s.0 < row <= e.0 && x == (KeyAt(g, s, n, row, col), ValueOrZero(g, row, col))
  {
    KeyColumnAligned(g, s, e, n, col);
    var zc := Zip(KeyColumn(g, s, e, n, col), ColumnValues(g, s, e, col));
    var p :| 0 <= p < |zc| && zc[p] == x;
    assert x == (KeyAt(g, s, n, s.0 + 1 + p, col), ValueOrZero(g, s.0 + 1 + p, col));
  }

  /** The keys and the values of each value column are equally many. */
  lemma ValueColumnsAligned(g: Grid, s: (int, int), e: (int, int), n: nat)
    requires 1 <= n && s.0 <= e.0
    requires !Filled(g, s.0, s.1)
    requires forall r :: s.0 < r <= e.0 ==> LabelsFilled(g, r, s.1, n)
    requires forall c :: s.1 + n <= c <= e.1 ==> Filled(g, s.0, c)
    ensures forall c :: s.1 + n <= c < e.1 + 1 ==> |KeyColumnOf(g, s, e, n)(c)| == |ColumnValuesOf(g, s, e)(c)|
  {
    forall c | s.1 + n <= c < e.1 + 1
      ensures |KeyColumnOf(g, s, e, n)(c)| == |ColumnValuesOf(g, s, e)(c)|
    {
      KeyColumnAligned(g, s, e, n, c);
    }
  }

  /** The value at `(row, col)` of a value column is paired with its key in the zip of
      the value columns. */
  lemma LabelledPairMember(g: Grid, s: (int, int), e: (int, int), n: nat, row: int, col: int)
    requires 1 <= n && s.0 < row <= e.0 && s.1 + n <= col <= e.1
    requires !Filled(g, s.0, s.1)
    requires forall r :: s.0 < r <= e.0 ==> LabelsFilled(g, r, s.1, n)
    requires forall c :: s.1 + n <= c <= e.1 ==> Filled(g, s.0, c)
    ensures (KeyAt(g, s, n, row, col), ValueOrZero(g, row, col))
      in Zip(KeyColumns(g, s, e, n, s.1 + n), ValueColumns(g, s, e, s.1 + n))
  {
    var fk, fv := KeyColumnOf(g, s, e, n), ColumnValuesOf(g, s, e);
    var x := (KeyAt(g, s, n, row, col), ValueOrZero(g, row, col));
    ValueColumnsAligned(g, s, e, n);
    assert x in Zip(fk(col), fv(col)) by {
      CellPairInColumn(g, s, e, n, row, col);
    }
    ZipConcatMember(s.1 + n, e.1 + 1, fk, fv, x);
  }

  /** Every pair of the zip of the value columns is the key and value of one cell. */
  lemma LabelledPairFromCell(g: Grid, s: (int, int), e: (int, int), n: nat, x: (Key, Value))
    requires 1 <= n && s.0 <= e.0
    requires !Filled(g, s.0, s.1)
    requires forall r :: s.0 < r <= e.0 ==> LabelsFilled(g, r, s.1, n)
    requires forall c :: s.1 + n <= c <= e.1 ==> Filled(g, s.0, c)
    requires x in Zip(KeyColumns(g, s, e, n, s.1 + n), ValueColumns(g, s, e, s.1 + n))
    ensures exists row, col ::
      && s.0 < row <= e.0 && s.1 + n <= col <= e.1
      && x == (KeyAt(g, s, n, row, col), ValueOrZero(g, row, col))
  {
    var fk, fv := KeyColumnOf(g, s, e, n), ColumnValuesOf(g, s, e);
    ValueColumnsAligned(g, s, e, n);
    ZipConcatMember(s.1 + n, e.1 + 1, fk, fv, x);
    var col :| s.1 + n <= col < e.1 + 1 && x in Zip(fk(col), fv(col));
    CellPairFromColumn(g, s, e, n, col, x);
  }

  /** The (1, 1) and (2, 1) readers as designed: when the top-left corner of the block is
      empty, every data row has all its labels, every value column has its header, and no
      two rows share labels nor two columns a header, the dictionary maps the labels of
      each data row together with each column header to the value where they cross (0 when
      that cell is empty). */
  lemma LabelledDictLookup(g: Grid, s: (int, int), e: (int, int), n: nat, row: int, col: int)
    requires 1 <= n
    requires forall c :: s.1 <= c < s.1 + n ==> !Filled(g, s.0, c)
    requires forall r :: s.0 < r <= e.0 ==> LabelsFilled(g, r, s.1, n)
    requires forall c :: s.1 + n <= c <= e.1 ==> Filled(g, s.0, c)
    requires forall r1, r2 ::
      (s.0 < r1 <= e.0 && s.0 < r2 <= e.0 && RowLabels(g, r1, s.1, n) == RowLabels(g, r2, s.1, n)) ==> r1 == r2
    requires forall c1, c2 ::
      (s.1 + n <= c1 <= e.1 && s.1 + n <= c2 <= e.1 && CellValue(g, s.0, c1) == CellValue(g, s.0, c2)) ==> c1 == c2
    requires s.0 < row <= e.0 && s.1 + n <= col <= e.1
    ensures KeyAt(g, s, n, row, col) in LabelledDict(g, s, e, n)
    ensures LabelledDict(g, s, e, n)[KeyAt(g, s, n, row, col)] == ValueOrZero(g, row, col)
  {
    LabelColumnsYieldNoKeys(g, s, e, n);
    var pairs := Zip(KeyColumns(g, s, e, n, s.1 + n), ValueColumns(g, s, e, s.1 + n));
    assert LabelledDict(g, s, e, n) == DictOf(pairs);
    var key, v := KeyAt(g, s, n, row, col), ValueOrZero(g, row, col);
    LabelledPairMember(g, s, e, n, row, col);
    forall q | 0 <= q < |pairs| && pairs[q].0 == key ensures pairs[q].1 == v {
      LabelledPairFromCell(g, s, e, n, pairs[q]);
      var r, c :| s.0 < r <= e.0 && s.1 + n <= c <= e.1
        && pairs[q] == (KeyAt(g, s, n, r, c), ValueOrZero(g, r, c));
      KeyAtParts(g, s, n, row, col, r, c);
    }
    DictOfConsistent(pairs, key, v);
  }
}
