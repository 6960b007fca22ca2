/** The readers of Auxiliary_Functions.py, which address a table by its header cell and
    its last cell and read one record per row below the header. `read_par_from_excel`
    takes the number of key columns `n_set` (1 to 5): the key of a row is its first
    `n_set` cells and the value is the cell in the table's last column. */
module AuxiliaryFunctions {
  import opened Workbook

  /** `read_set_from_excel`: the cells of the start column in the rows below the header,
      read from the last sheet with the given name. The `n_set` argument is not used.
      With no such sheet the result list is never bound. */
  function ReadSetFromExcel(book: seq<Sheet>, sheetName: string, startLoc: (int, char),
                            endLoc: (int, char), nSet: int): (r: Result<seq<Value>>)
    ensures r.Err? <==> LastMatch(book, sheetName).None?
    ensures r.Err? ==> r.error == UnboundLocal("set_list")
    ensures r.Ok? ==>
      var g := book[LastMatch(book, sheetName).value].cells;
      var s, e := CellLocConversion(startLoc), CellLocConversion(endLoc);
      && |r.value| == DataRowCount(s.0, e.0)
      && forall k :: 0 <= k < |r.value| ==> r.value[k] == CellValue(g, s.0 + 1 + k, s.1)
  {
    match LastMatch(book, sheetName)
    case None => Err(UnboundLocal("set_list"))
    case Some(k) =>
      var s, e := CellLocConversion(startLoc), CellLocConversion(endLoc);
      var g := book[k].cells;
      Ok(seq(DataRowCount(s.0, e.0), p => CellValue(g, s.0 + 1 + p, s.1)))
  }

  /** The key of one row: the cell in column `col` alone when `nSet` is 1, otherwise the
      tuple of the `nSet` cells from column `col` rightwards. */
  function RowKey(g: Grid, row: int, col: int, nSet: int): (key: Key)
    requires 1 <= nSet <= 5
    ensures nSet == 1 ==> key == Scalar(CellValue(g, row, col))
    ensures nSet > 1 ==> key.Tuple? && |key.components| == nSet
    ensures nSet > 1 ==> forall m :: 0 <= m < nSet ==> key.components[m] == CellValue(g, row, col + m)
  {
    if nSet == 1 then Scalar(CellValue(g, row, col))
    else Tuple(seq(nSet, m => CellValue(g, row, col + m)))
  }

  /** The `m`-th key cell of `row`, counting from column `col`. */
  function KeyCell(g: Grid, row: int, col: int, m: int): Value
  {
    CellValue(g, row, col + m)
  }

  /** Two rows have the same key exactly when their `nSet` key cells agree one by one:
      a key tells the rows apart by all of its cells and by nothing else. */
  lemma RowKeysEqual(g: Grid, row1: int, row2: int, col: int, nSet: int)
    requires 1 <= nSet <= 5
    ensures RowKey(g, row1, col, nSet) == RowKey(g, row2, col, nSet) <==>
      forall m :: 0 <= m < nSet ==> KeyCell(g, row1, col, m) == KeyCell(g, row2, col, m)
  {
    var k1, k2 := RowKey(g, row1, col, nSet), RowKey(g, row2, col, nSet);
    if nSet > 1 && forall m :: 0 <= m < nSet ==> KeyCell(g, row1, col, m) == KeyCell(g, row2, col, m) {
      forall m | 0 <= m < nSet ensures k1.components[m] == k2.components[m] {
        assert KeyCell(g, row1, col, m) == KeyCell(g, row2, col, m);
      }
      assert k1.components == k2.components;
    }
    if nSet == 1 && KeyCell(g, row1, col, 0) == KeyCell(g, row2, col, 0) {
      assert k1 == k2;
    }
    if k1 == k2 {
      forall m | 0 <= m < nSet ensures KeyCell(g, row1, col, m) == KeyCell(g, row2, col, m) {
        if nSet > 1 {
          assert k1.components[m] == k2.components[m];
        }
      }
    }
  }

  /** The key of the `p`-th row below the header row `s.0`, from column `s.1`. */
  function DataRowKey(g: Grid, s: (int, int), nSet: int, p: int): Key
    requires 1 <= nSet <= 5
  {
    RowKey(g, s.0 + 1 + p, s.1, nSet)
  }

  /** The key list of `read_par_from_excel`: one key per row below the header. */
  function ParKeys(g: Grid, s: (int, int), e: (int, int), nSet: int): (r: seq<Key>)
    requires 1 <= nSet <= 5
    ensures |r| == DataRowCount(s.0, e.0)
    ensures forall p :: 0 <= p < |r| ==> r[p] == DataRowKey(g, s, nSet, p)
  {
    seq(DataRowCount(s.0, e.0), p => DataRowKey(g, s, nSet, p))
  }

  /** The value list exactly as written: its emptiness test names a variable `col` that
      nothing defines, so building the list fails as soon as it has one row to test. */
  function ParValuesAsWritten(s: (int, int), e: (int, int)): (r: Result<seq<Value>>)
    ensures r.Ok? <==> DataRowCount(s.0, e.0) == 0
    ensures r.Ok? ==> r.value == []
    ensures r.Err? ==> r.error == NameError("col")
  {
    if DataRowCount(s.0, e.0) > 0 then Err(NameError("col")) else Ok([])
  }

  /** The value list as evidently intended: for each row below the header, the cell in the
      end column, or 0 when that cell is empty. */
  function ParValues(g: Grid, s: (int, int), e: (int, int)): (r: seq<Value>)
    ensures |r| == DataRowCount(s.0, e.0)
    ensures forall p :: 0 <= p < |r| ==> r[p] == ValueOrZero(g, s.0 + 1 + p, e.1)
  {
    seq(DataRowCount(s.0, e.0), p => ValueOrZero(g, s.0 + 1 + p, e.1))
  }

  /** `read_par_from_excel` as written. An `n_set` outside 1..5 or a missing sheet leaves
      the key list unbound; otherwise the value list raises unless there are no data rows,
      so the only dictionary it can return is the empty one. */
  function ReadParFromExcel(book: seq<Sheet>, sheetName: string, startLoc: (int, char),
                            endLoc: (int, char), nSet: int): (r: Result<map<Key, Value>>)
    ensures r.Ok? <==>
      1 <= nSet <= 5 && LastMatch(book, sheetName).Some?
      && CellLocConversion(endLoc).0 <= CellLocConversion(startLoc).0
    ensures r.Ok? ==> r.value == map[]
    ensures r.Err? ==>
      r.error == if 1 <= nSet <= 5 && LastMatch(book, sheetName).Some? then NameError("col")
                 else UnboundLocal("dic_keys")
  {
    if !(1 <= nSet <= 5) then Err(UnboundLocal("dic_keys"))
    else match LastMatch(book, sheetName)
      case None => Err(UnboundLocal("dic_keys"))
      case Some(k) =>
        var s, e := CellLocConversion(startLoc), CellLocConversion(endLoc);
        var keys := ParKeys(book[k].cells, s, e, nSet);
        match ParValuesAsWritten(s, e)
        case Err(err) => Err(err)
        case Ok(values) => Ok(DictOf(Zip(keys, values)))
  }

  /** The dictionary of the rows below the header of grid `g`, keyed from column `s.1`
      with values from column `e.1`. */
  function ParDict(g: Grid, s: (int, int), e: (int, int), nSet: int): (m: map<Key, Value>)
    requires 1 <= nSet <= 5
    ensures |m| <= DataRowCount(s.0, e.0)
  {
    DictOf(Zip(ParKeys(g, s, e, nSet), ParValues(g, s, e)))
  }

  /** `read_par_from_excel` with the emptiness test on the cell it reads: the dictionary
      of the last sheet with the given name. */
  function ReadParFromExcelIntended(book: seq<Sheet>, sheetName: string, startLoc: (int, char),
                                    endLoc: (int, char), nSet: int): (r: Result<map<Key, Value>>)
    ensures r.Err? <==> !(1 <= nSet <= 5) || LastMatch(book, sheetName).None?
    ensures r.Err? ==> r.error == UnboundLocal("dic_keys")
    ensures r.Ok? ==>
      r.value == ParDict(book[LastMatch(book, sheetName).value].cells,
                         CellLocConversion(startLoc), CellLocConversion(endLoc), nSet)
  {
    if !(1 <= nSet <= 5) then Err(UnboundLocal("dic_keys"))
    else match LastMatch(book, sheetName)
      case None => Err(UnboundLocal("dic_keys"))
      case Some(k) =>
        Ok(ParDict(book[k].cells, CellLocConversion(startLoc), CellLocConversion(endLoc), nSet))
  }

  /** The dictionary's keys are exactly the row keys. */
  lemma ParDictKeys(g: Grid, s: (int, int), e: (int, int), nSet: int, key: Key)
    requires 1 <= nSet <= 5
    ensures key in ParDict(g, s, e, nSet) <==>
      exists p :: 0 <= p < DataRowCount(s.0, e.0) && key == DataRowKey(g, s, nSet, p)
  {
    var pairs := Zip(ParKeys(g, s, e, nSet), ParValues(g, s, e));
    DictOfKeys(pairs, key);
    if exists p :: 0 <= p < DataRowCount(s.0, e.0) && key == DataRowKey(g, s, nSet, p) {
      var p :| 0 <= p < DataRowCount(s.0, e.0) && key == DataRowKey(g, s, nSet, p);
      assert pairs[p].0 == key;
    }
  }

  /** A row whose key no later row repeats maps to its end-column cell, 0 when that cell is
      empty: a repeated key keeps the value of its last row. */
  lemma ParDictLastRowWins(g: Grid, s: (int, int), e: (int, int), nSet: int, p: nat)
    requires 1 <= nSet <= 5
    requires p < DataRowCount(s.0, e.0)
    requires forall q :: p < q < DataRowCount(s.0, e.0) ==> DataRowKey(g, s, nSet, q) != DataRowKey(g, s, nSet, p)
    ensures DataRowKey(g, s, nSet, p) in ParDict(g, s, e, nSet)
    ensures ParDict(g, s, e, nSet)[DataRowKey(g, s, nSet, p)] == ValueOrZero(g, s.0 + 1 + p, e.1)
  {
    var pairs := Zip(ParKeys(g, s, e, nSet), ParValues(g, s, e));
    assert pairs[p] == (DataRowKey(g, s, nSet, p), ValueOrZero(g, s.0 + 1 + p, e.1));
    DictOfLastWins(pairs, p);
  }

  /** Rows with pairwise distinct keys give one entry per row. */
  lemma ParDictDistinctRows(g: Grid, s: (int, int), e: (int, int), nSet: int)
    requires 1 <= nSet <= 5
    requires forall p, q :: 0 <= p < q < DataRowCount(s.0, e.0) ==> DataRowKey(g, s, nSet, p) != DataRowKey(g, s, nSet, q)
    ensures |ParDict(g, s, e, nSet)| == DataRowCount(s.0, e.0)
  {
    var pairs := Zip(ParKeys(g, s, e, nSet), ParValues(g, s, e));
    DictOfDistinctKeys(pairs);
  }

  /** The call that reads the node parameters `P` from the sheet "1DPar_i" (header in
      row 2, keys in column A, values in column B) raises a NameError as written. */
  lemma NodeParameterReadRaises(book: seq<Sheet>)
    requires LastMatch(book, "1DPar_i").Some?
    ensures ReadParFromExcel(book, "1DPar_i", (2, 'A'), (6, 'B'), 1) == Err(NameError("col"))
  {
    assert CellLocConversion((2, 'A')).0 < CellLocConversion((6, 'B')).0;
  }

  /** The same call with the intended emptiness test maps the label in column A of each of
      rows 3 to 6, when these labels differ, to the cell beside it in column B. */
  lemma NodeParameterReadIntended(book: seq<Sheet>, k: nat)
    requires LastMatch(book, "1DPar_i") == Some(k)
    requires forall p, q :: 2 <= p < q <= 5 ==> CellValue(book[k].cells, p, 0) != CellValue(book[k].cells, q, 0)
    ensures var r := ReadParFromExcelIntended(book, "1DPar_i", (2, 'A'), (6, 'B'), 1);
      && r.Ok? && |r.value| == 4
      && forall row :: 2 <= row <= 5 ==>
           Scalar(CellValue(book[k].cells, row, 0)) in r.value
           && r.value[Scalar(CellValue(book[k].cells, row, 0))] == ValueOrZero(book[k].cells, row, 1)
  {
    var g, s, e := book[k].cells, CellLocConversion((2, 'A')), CellLocConversion((6, 'B'));
    assert s == (1, 0) && e == (5, 1);
    assert DataRowCount(s.0, e.0) == 4;
    forall p, q | 0 <= p < q < 4 ensures DataRowKey(g, s, 1, p) != DataRowKey(g, s, 1, q) {
      assert DataRowKey(g, s, 1, p) == Scalar(CellValue(g, p + 2, 0));
      assert DataRowKey(g, s, 1, q) == Scalar(CellValue(g, q + 2, 0));
    }
    ParDictDistinctRows(g, s, e, 1);
    forall row | 2 <= row <= 5
      ensures Scalar(CellValue(g, row, 0)) in ParDict(g, s, e, 1)
      ensures ParDict(g, s, e, 1)[Scalar(CellValue(g, row, 0))] == ValueOrZero(g, row, 1)
    {
      assert DataRowKey(g, s, 1, row - 2) == Scalar(CellValue(g, row, 0));
      ParDictLastRowWins(g, s, e, 1, row - 2);
    }
    assert ReadParFromExcelIntended(book, "1DPar_i", (2, 'A'), (6, 'B'), 1) == Ok(ParDict(g, s, e, 1));
  }
}
