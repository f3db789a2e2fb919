/**
 * The table-cell grouping of scrapper.py. The page itself is not parsed here: each extractor
 * takes the ordered list of `<td>` cells of its table, each being the cell's `.string`, which is
 * `None` for an empty cell or one with several children.
 */
module Scrapper {
  import opened Wrappers
  import opened Models

  /** The key list of get_stocks. */
  const StockKeys: seq<Key> := [Nombre, Simbolo, UltimoPrecio, MontoEfectivo, Variacion, TitulosNegociados]

  /** The key list of get_renta_variable; its last key is `hora_24`, not the schema's `hora`. */
  const RentaKeys: seq<Key> := [Operaciones, TitulosNegociados, MontoEnEfectivoBs, Hora24]

  /** Number of cells in one summary-table row. */
  const RowWidth := 6

  lemma KeyListsDistinct()
    ensures DistinctKeys(StockKeys) && DistinctKeys(RentaKeys)
    ensures |StockKeys| == RowWidth && |RentaKeys| == 4
  {
  }

  /** The list comprehension `[x for x in data if x is not None]`. */
  function Compact(cells: seq<Option<string>>): (r: seq<string>)
    ensures |r| <= |cells|
    ensures forall v :: v in r ==> Some(v) in cells
  {
    if |cells| == 0 then []
    else
      match cells[0]
      case Some(v) => [v] + Compact(cells[1..])
      case None => Compact(cells[1..])
  }

  /** Filtering keeps exactly as many cells as are not `None`. */
  lemma {:induction false} CompactLength(cells: seq<Option<string>>)
    ensures |Compact(cells)| == |cells| - multiset(cells)[None]
    decreases |cells|
  {
    if |cells| > 0 {
      CompactLength(cells[1..]);
      assert cells == [cells[0]] + cells[1..];
    }
  }

  /** The kept values are exactly the values of the non-empty cells. */
  lemma {:induction false} CompactMembers(cells: seq<Option<string>>, v: string)
    ensures v in Compact(cells) <==> Some(v) in cells
    decreases |cells|
  {
    if |cells| > 0 {
      CompactMembers(cells[1..], v);
      assert cells == [cells[0]] + cells[1..];
    }
  }

  lemma {:induction false} CompactAppend(a: seq<Option<string>>, b: seq<Option<string>>)
    ensures Compact(a + b) == Compact(a) + Compact(b)
    decreases |a|
  {
    if |a| == 0 {
      assert a + b == b;
    } else {
      assert (a + b)[1..] == a[1..] + b;
      CompactAppend(a[1..], b);
    }
  }

  /** A table without empty cells keeps every cell, in order. */
  lemma {:induction false} CompactAllPresent(cells: seq<Option<string>>)
    requires None !in cells
    ensures |Compact(cells)| == |cells|
    ensures forall i :: 0 <= i < |cells| ==> cells[i] == Some(Compact(cells)[i])
    decreases |cells|
  {
    if |cells| > 0 {
      CompactAllPresent(cells[1..]);
    }
  }

  /** Python's `zip`, which stops at the end of the shorter argument. */
  function Zip<A, B>(xs: seq<A>, ys: seq<B>): (r: seq<(A, B)>)
    ensures |r| == Min(|xs|, |ys|)
    ensures forall i :: 0 <= i < |r| ==> r[i] == (xs[i], ys[i])
  {
    if |xs| == 0 || |ys| == 0 then []
    else [(xs[0], ys[0])] + Zip(xs[1..], ys[1..])
  }

  /** Row `k` of the filtered cells, the Python slice `data[6*k:6*k+6]` (cut short at the end). */
  function Row(data: seq<string>, k: nat): (row: seq<string>)
    requires RowWidth * k < |data|
    ensures 0 < |row| <= RowWidth
  {
    data[RowWidth * k..Min(RowWidth * k + RowWidth, |data|)]
  }

  lemma RowShift(data: seq<string>, k: nat)
    requires RowWidth * (k + 1) < |data|
    ensures Row(data[RowWidth..], k) == Row(data, k + 1)
  {
  }

  /** The loop of get_stocks over the filtered cells: `dict(zip(keys, data[i:i+6]))` for i = 0, 6, 12, ... */
  function Chunks(data: seq<string>): (r: seq<Record>)
    ensures |r| == (|data| + 5) / RowWidth
    decreases |data|
  {
    if |data| == 0 then []
    else
      var m := Min(RowWidth, |data|);
      [Zip(StockKeys, data[..m])] + Chunks(data[m..])
  }

  /** Record k of the loop is the six keys zipped with row k of the cells. */
  lemma {:induction false} ChunkAt(data: seq<string>, k: nat)
    requires k < |Chunks(data)|
    ensures RowWidth * k < |data|
    ensures Chunks(data)[k] == Zip(StockKeys, Row(data, k))
    decreases k
  {
    var m := Min(RowWidth, |data|);
    assert Chunks(data) == [Zip(StockKeys, data[..m])] + Chunks(data[m..]);
    if k > 0 {
      ChunkAt(data[m..], k - 1);
      RowShift(data, k - 1);
    }
  }

  /** get_stocks: drop the empty cells and cut the rest into consecutive records of (up to) six fields. */
  function GetStocks(cells: seq<Option<string>>): (r: seq<Record>)
    ensures |Compact(cells)| == 0 ==> r == []
    ensures |r| == (|Compact(cells)| + 5) / RowWidth
  {
    Chunks(Compact(cells))
  }

  /**
   * Record k is the six keys zipped with filtered row k: it has min(6, n-6k) fields,
   * and field j is the key `StockKeys[j]` paired with filtered cell 6k+j.
   */
  lemma StockFields(cells: seq<Option<string>>, k: nat, j: nat)
    requires k < |GetStocks(cells)|
    ensures RowWidth * k < |Compact(cells)|
    ensures GetStocks(cells)[k] == Zip(StockKeys, Row(Compact(cells), k))
    ensures |GetStocks(cells)[k]| == Min(RowWidth, |Compact(cells)| - RowWidth * k)
    ensures j < |GetStocks(cells)[k]| ==> GetStocks(cells)[k][j] == (StockKeys[j], Compact(cells)[RowWidth * k + j])
  {
    ChunkAt(Compact(cells), k);
  }

  /** get_renta_variable: drop the empty cells and zip what is left with the four keys, as a one-element list. */
  function GetRentaVariable(cells: seq<Option<string>>): (r: seq<Record>)
    ensures |r| == 1
    ensures |r[0]| == Min(4, |Compact(cells)|)
    ensures forall j :: 0 <= j < |r[0]| ==> r[0][j] == (RentaKeys[j], Compact(cells)[j])
  {
    [Zip(RentaKeys, Compact(cells))]
  }

  /** The values of a list of records, record after record, each in key order. */
  function Flatten(rs: seq<Record>): seq<string>
  {
    if |rs| == 0 then [] else ValuesOf(rs[0]) + Flatten(rs[1..])
  }

  /** Splitting a sequence at `m` and joining the halves gives it back. */
  lemma SplitJoin(data: seq<string>, m: nat)
    requires m <= |data|
    ensures data[..m] + data[m..] == data
  {
  }

  /** Nothing is lost or reordered: the records' values, read back in order, are exactly the cells. */
  lemma {:induction false} ChunksFlatten(data: seq<string>)
    ensures Flatten(Chunks(data)) == data
    decreases |data|
  {
    if |data| > 0 {
      var m := Min(RowWidth, |data|);
      var r, head, rest := Chunks(data), Zip(StockKeys, data[..m]), Chunks(data[m..]);
      assert r == [head] + rest;
      assert r[0] == head && r[1..] == rest;
      assert Flatten(r) == ValuesOf(head) + Flatten(rest);
      ZipRecord(StockKeys, data[..m]);
      assert ValuesOf(head) == data[..m];
      ChunksFlatten(data[m..]);
      assert Flatten(rest) == data[m..];
      SplitJoin(data, m);
    }
  }

  /** The stock records' values, read back in order, are exactly the non-empty cells. */
  lemma StocksFlatten(cells: seq<Option<string>>)
    ensures Flatten(GetStocks(cells)) == Compact(cells)
  {
    ChunksFlatten(Compact(cells));
  }

  /** Adding or removing an empty cell anywhere changes neither extractor's output. */
  lemma IgnoresEmptyCells(a: seq<Option<string>>, b: seq<Option<string>>)
    ensures GetStocks(a + [None] + b) == GetStocks(a + b)
    ensures GetRentaVariable(a + [None] + b) == GetRentaVariable(a + b)
  {
    assert Compact(a + [None] + b) == Compact(a + b) by {
      CompactAppend(a + [None], b);
      CompactAppend(a, [None]);
      CompactAppend(a, b);
      assert Compact([None]) == [];
    }
  }

  /** The page was well formed when the non-empty cells fill whole rows. */
  predicate WellFormed(cells: seq<Option<string>>)
  {
    |Compact(cells)| % RowWidth == 0
  }

  /** A zipped record carries the keys and the values of the pairs zip keeps, each in order. */
  lemma ZipRecord(keys: seq<Key>, vals: seq<string>)
    ensures KeysOf(Zip(keys, vals)) == keys[..Min(|keys|, |vals|)]
    ensures ValuesOf(Zip(keys, vals)) == vals[..Min(|keys|, |vals|)]
    ensures DistinctKeys(keys) ==> IsDict(Zip(keys, vals))
  {
    var z := Zip(keys, vals);
    assert KeysOf(z) == keys[..Min(|keys|, |vals|)];
    assert ValuesOf(z) == vals[..Min(|keys|, |vals|)];
  }

  lemma StockRecordOf(vals: seq<string>)
    requires |vals| <= RowWidth
    ensures KeysOf(Zip(StockKeys, vals)) == StockKeys[..|vals|]
    ensures ValuesOf(Zip(StockKeys, vals)) == vals
    ensures IsDict(Zip(StockKeys, vals))
  {
    KeyListsDistinct();
    assert Min(|StockKeys|, |vals|) == |vals|;
    assert vals[..|vals|] == vals;
    ZipRecord(StockKeys, vals);
  }

  /** How many cells row k holds: six, except in a final partial row. */
  lemma RowLength(data: seq<string>, k: nat)
    requires RowWidth * k < |data|
    ensures |Row(data, k)| == (if RowWidth * k + RowWidth <= |data| then RowWidth else |data| - RowWidth * k)
  {
  }

  /** The number n of filtered cells is split as 6 * (number of records - 1) + size of the last record. */
  lemma CountSplit(n: nat)
    requires n > 0
    ensures var q := (n + 5) / RowWidth;
      q > 0 && n - RowWidth * (q - 1) == (if n % RowWidth == 0 then RowWidth else n % RowWidth)
  {
  }

  /** Every row before the last one is full. */
  lemma InnerRowFull(n: nat, k: nat)
    requires k + 1 < (n + 5) / RowWidth
    ensures RowWidth * k + RowWidth <= n
  {
  }

  /**
   * Every record but the last carries exactly the six keys; the last carries the first
   * `n % 6` of them when `n`, the number of non-empty cells, is not a multiple of six.
   */
  lemma StocksShape(cells: seq<Option<string>>)
    ensures var r := GetStocks(cells);
      forall k :: 0 <= k < |r| - 1 ==> KeysOf(r[k]) == StockKeys
    ensures var r, n := GetStocks(cells), |Compact(cells)|;
      |r| > 0 ==> KeysOf(r[|r| - 1]) == StockKeys[..if n % RowWidth == 0 then RowWidth else n % RowWidth]
  {
    var data := Compact(cells);
    var r, n := GetStocks(cells), |data|;
    if n > 0 {
      CountSplit(n);
    }
    forall k | 0 <= k < |r|
      ensures KeysOf(r[k]) == StockKeys[..|Row(data, k)|]
      ensures k < |r| - 1 ==> |Row(data, k)| == RowWidth
      ensures k == |r| - 1 ==> |Row(data, k)| == (if n % RowWidth == 0 then RowWidth else n % RowWidth)
    {
      ChunkAt(data, k);
      StockRecordOf(Row(data, k));
      RowLength(data, k);
      if k < |r| - 1 {
        InnerRowFull(n, k);
      }
    }
  }

  /** Every stock record is a genuine dictionary: no key occurs twice. */
  lemma StocksAreDicts(cells: seq<Option<string>>)
    ensures forall rec :: rec in GetStocks(cells) ==> IsDict(rec)
  {
    var r := GetStocks(cells);
    forall rec | rec in r
      ensures IsDict(rec)
    {
      var k :| 0 <= k < |r| && r[k] == rec;
      ChunkAt(Compact(cells), k);
      StockRecordOf(Row(Compact(cells), k));
    }
  }

  /** All records are complete exactly when the page was well formed. */
  lemma WellFormedIffComplete(cells: seq<Option<string>>)
    ensures WellFormed(cells) <==> forall rec :: rec in GetStocks(cells) ==> KeysOf(rec) == StockKeys
  {
    StocksShape(cells);
    var r, n := GetStocks(cells), |Compact(cells)|;
    if !WellFormed(cells) {
      assert |r| > 0;
      assert r[|r| - 1] in r;
    }
  }

  /** A full row of six cells reads as the BasicStock made of those cells, in order. */
  lemma FullRowReads(vals: seq<string>)
    requires |vals| == RowWidth
    ensures ToBasicStock(Zip(StockKeys, vals)) == Some(BasicStock(vals[0], vals[1], vals[2], vals[3], vals[4], vals[5]))
  {
    var rec := Zip(StockKeys, vals);
    StockRecordOf(vals);
    GetAt(rec, 0);
    GetAt(rec, 1);
    GetAt(rec, 2);
    GetAt(rec, 3);
    GetAt(rec, 4);
    GetAt(rec, 5);
  }

  /** A partial row lacks at least `titulos_negociados`, so it never reads as a BasicStock. */
  lemma PartialRowFails(vals: seq<string>)
    requires |vals| < RowWidth
    ensures ToBasicStock(Zip(StockKeys, vals)) == None
  {
    var rec := Zip(StockKeys, vals);
    var keys := KeysOf(rec);
    StockRecordOf(vals);
    KeyListsDistinct();
    forall i | 0 <= i < |keys|
      ensures keys[i] != TitulosNegociados
    {
      assert keys[i] == StockKeys[i] && StockKeys[5] == TitulosNegociados;
    }
    MissingBasicStockField(rec, TitulosNegociados);
  }

  /** A row of six cells inside the data reads as the BasicStock of cells 6k .. 6k+5. */
  lemma FullRowAt(d: seq<string>, k: nat)
    requires RowWidth * k + RowWidth <= |d|
    ensures var i := RowWidth * k;
      ToBasicStock(Zip(StockKeys, Row(d, k))) == Some(BasicStock(d[i], d[i + 1], d[i + 2], d[i + 3], d[i + 4], d[i + 5]))
  {
    var i, row := RowWidth * k, Row(d, k);
    assert row == d[i..i + RowWidth];
    FullRowReads(row);
  }

  /** On a well-formed page, record k reads as the BasicStock made of filtered cells 6k .. 6k+5. */
  lemma WellFormedBasicStocks(cells: seq<Option<string>>, k: nat)
    requires WellFormed(cells)
    requires k < |GetStocks(cells)|
    ensures var d, i := Compact(cells), RowWidth * k;
      ToBasicStock(GetStocks(cells)[k]) == Some(BasicStock(d[i], d[i + 1], d[i + 2], d[i + 3], d[i + 4], d[i + 5]))
  {
    var d := Compact(cells);
    var n := |d|;
    CountSplit(n);
    if k + 1 < |GetStocks(cells)| {
      InnerRowFull(n, k);
    }
    assert RowWidth * k + RowWidth <= n;
    ChunkAt(d, k);
    FullRowAt(d, k);
  }

  /** A row cut short by the end of the data does not read as a BasicStock. */
  lemma PartialRowAt(d: seq<string>, k: nat)
    requires RowWidth * k < |d| < RowWidth * k + RowWidth
    ensures ToBasicStock(Zip(StockKeys, Row(d, k))) == None
  {
    assert |Row(d, k)| < RowWidth;
    PartialRowFails(Row(d, k));
  }

  /** A short last record lacks schema fields, so it never reads as a BasicStock. */
  lemma ShortLastRecord(cells: seq<Option<string>>)
    requires !WellFormed(cells)
    ensures var r := GetStocks(cells);
      |r| > 0 && ToBasicStock(r[|r| - 1]) == None
  {
    var d := Compact(cells);
    var n := |d|;
    CountSplit(n);
    var r := GetStocks(cells);
    var last := |r| - 1;
    assert r == Chunks(d);
    ChunkAt(d, last);
    assert n < RowWidth * last + RowWidth;
    PartialRowAt(d, last);
    assert r[last] == Zip(StockKeys, Row(d, last));
  }

  /** The renta record holds the first min(n, 4) filtered cells under the renta keys; later cells are dropped. */
  lemma RentaValues(cells: seq<Option<string>>)
    ensures var m := Min(|RentaKeys|, |Compact(cells)|);
      && KeysOf(GetRentaVariable(cells)[0]) == RentaKeys[..m]
      && ValuesOf(GetRentaVariable(cells)[0]) == Compact(cells)[..m]
  {
    ZipRecord(RentaKeys, Compact(cells));
  }

  /** The renta-variable record is a dictionary, and it never carries the schema's `hora` key. */
  lemma RentaRecordShape(cells: seq<Option<string>>)
    ensures IsDict(GetRentaVariable(cells)[0])
    ensures Hora !in KeysOf(GetRentaVariable(cells)[0])
    ensures ToRentaVariable(GetRentaVariable(cells)[0]) == None
  {
    var rec := GetRentaVariable(cells)[0];
    var keys := KeysOf(rec);
    KeyListsDistinct();
    ZipRecord(RentaKeys, Compact(cells));
    forall i | 0 <= i < |keys|
      ensures keys[i] != Hora
    {
      assert keys[i] == RentaKeys[i];
    }
    MissingRentaVariableField(rec, Hora);
  }

  /** A table whose cells all hold text. */
  function Filled(vals: seq<string>): (cells: seq<Option<string>>)
  {
    seq(|vals|, i requires 0 <= i < |vals| => Some(vals[i]))
  }

  /** Compact gives back the texts of a table whose cells all hold text. */
  lemma CompactFilled(vals: seq<string>)
    ensures Compact(Filled(vals)) == vals
  {
    CompactAllPresent(Filled(vals));
  }

  /** Example: twelve non-empty cells give two stock records. */
  lemma TwoRowsExample()
    ensures var cells := Filled(["Banco", "BVL", "1,00", "10,00", "0,5%", "10",
                                          "Cantv", "TDVD", "2,00", "20,00", "-1%", "20"]);
      && |GetStocks(cells)| == 2
      && ToBasicStock(GetStocks(cells)[1]) == Some(BasicStock("Cantv", "TDVD", "2,00", "20,00", "-1%", "20"))
  {
    var vals := ["Banco", "BVL", "1,00", "10,00", "0,5%", "10", "Cantv", "TDVD", "2,00", "20,00", "-1%", "20"];
    var full := Filled(vals);
    CompactFilled(vals);
    assert WellFormed(full);
    WellFormedBasicStocks(full, 1);
  }

  /** Example: a four-cell renta table gives one record carrying all four keys. */
  lemma RentaRowExample()
    ensures var cells := Filled(["12", "3.400", "50.000,00", "13:00"]);
      && |GetRentaVariable(cells)| == 1
      && KeysOf(GetRentaVariable(cells)[0]) == RentaKeys
  {
    var vals := ["12", "3.400", "50.000,00", "13:00"];
    CompactFilled(vals);
    ZipRecord(RentaKeys, vals);
  }
}
