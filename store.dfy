/** The worksheet behind the ledger and the app's three writes to it: the
    header row and the data rows as `get_all_records()` sees them, the load
    into a ledger (with its missing-column and bad-date failures),
    `append_row` for a new transaction, `delete_rows` for the selected row
    and the reset-today loop that deletes today's rows from the bottom up. */
module Store {
  import opened Wrappers
  import opened Calendar
  import opened Ledger

  /** A data row as the sheet holds it: the date as text, the other cells as
      written by `append_row`. */
  datatype Record = Record(
    date: string, kind: string, category: string, description: string, amount: nat)

  /** Physical row 1 is the header; the ledger's row `i` is physical row
      `i + FIRST_DATA_ROW`. */
  const FIRST_DATA_ROW := 2

  // ---------------------------------------------------------------------------
  // Reading and writing one row

  /** The cells `append_row([str(trans_date), trans_type, category,
      description, amount])` writes. */
  function Encode(t: Transaction): (r: Record)
    requires ValidDate(t.date)
    ensures Decode(r) == Some(t)
  {
    DateRoundTrip(t.date);
    Record(FormatDate(t.date), t.kind, t.category, t.description, t.amount)
  }

  /** One row after `pd.to_datetime(df['Date']).dt.normalize()`; `None` when
      the date cell does not read as a date. */
  function Decode(r: Record): (t: Option<Transaction>)
    ensures t.Some? ==> ValidDate(t.value.date)
  {
    match ParseDate(r.date)
    case Some(d) => Some(Transaction(d, r.kind, r.category, r.description, r.amount))
    case None => None
  }

  /** A row that loads is exactly the row the app would write for it. */
  lemma DecodeCanonical(r: Record)
    requires Decode(r).Some?
    ensures Encode(Decode(r).value) == r
  {
    ParseDateCanonical(r.date);
  }

  /** Every row decoded, or the index of the first row that does not. */
  function DecodeAll(rs: seq<Record>): (r: Result<seq<Transaction>, nat>)
    ensures r.Ok? ==> |r.value| == |rs|
    ensures r.Ok? ==> forall i :: 0 <= i < |rs| ==> Decode(rs[i]) == Some(r.value[i])
    ensures r.Ok? <==> forall i :: 0 <= i < |rs| ==> Decode(rs[i]).Some?
    ensures r.Err? ==> r.error < |rs| && Decode(rs[r.error]).None?
    ensures r.Err? ==> forall i :: 0 <= i < r.error ==> Decode(rs[i]).Some?
  {
    if rs == [] then Ok([]) else
      var n := |rs| - 1;
      assert forall i :: 0 <= i < n ==> rs[..n][i] == rs[i];
      match DecodeAll(rs[..n])
      case Err(i) => Err(i)
      case Ok(ts) =>
        match Decode(rs[n])
        case None => Err(n)
        case Some(t) => Ok(ts + [t])
  }

  lemma DecodeAllSnoc(rs: seq<Record>, x: Record, ts: seq<Transaction>, t: Transaction)
    requires DecodeAll(rs) == Ok(ts) && Decode(x) == Some(t)
    ensures DecodeAll(rs + [x]) == Ok(ts + [t])
  {
    assert (rs + [x])[..|rs|] == rs;
  }

  lemma DecodeAllLast(rs: seq<Record>, ts: seq<Transaction>)
    requires rs != [] && DecodeAll(rs) == Ok(ts)
    ensures DecodeAll(rs[..|rs| - 1]) == Ok(ts[..|rs| - 1])
    ensures Decode(rs[|rs| - 1]) == Some(ts[|rs| - 1])
  {
    var n := |rs| - 1;
    var pre := DecodeAll(rs[..n]).value;
    assert (pre + [ts[n]])[..n] == pre;
  }

  // ---------------------------------------------------------------------------
  // Loading the sheet

  datatype LoadError =
    | MissingColumn(name: string)   // "'Date' column not found", or a KeyError
    | BadDate(row: nat)             // `pd.to_datetime` cannot read row `row`

  /** The columns the dashboard reads. */
  predicate HasColumns(header: seq<string>) {
    "Date" in header && "Category" in header && "Type" in header && "Amount" in header
  }

  /** `pd.DataFrame(sheet.get_all_records())` followed by the date
      conversion and the first reads of `Category`, `Type` and `Amount`, in
      that order. A sheet with no data rows gives a frame with no columns at
      all, so it fails the `Date` check like a sheet without that header. */
  function Load(header: seq<string>, records: seq<Record>): (r: Result<seq<Transaction>, LoadError>)
    ensures r == Err(MissingColumn("Date")) <==> records == [] || "Date" !in header
    ensures r.Ok? <==> records != [] && HasColumns(header) && DecodeAll(records).Ok?
    ensures r.Ok? ==> r.value == DecodeAll(records).value && WellFormed(r.value)
    ensures r.Err? && r.error.BadDate? ==>
      "Date" in header && r.error.row < |records| && Decode(records[r.error.row]).None?
  {
    if records == [] || "Date" !in header then Err(MissingColumn("Date"))
    else match DecodeAll(records)
      case Err(i) => Err(BadDate(i))
      case Ok(ledger) =>
        if "Category" !in header then Err(MissingColumn("Category"))
        else if "Type" !in header then Err(MissingColumn("Type"))
        else if "Amount" !in header then Err(MissingColumn("Amount"))
        else
          assert forall t :: t in ledger ==> ValidDate(t.date) by {
            forall t | t in ledger ensures ValidDate(t.date) {
              var i :| 0 <= i < |ledger| && ledger[i] == t;
              assert Decode(records[i]) == Some(t);
            }
          }
          Ok(ledger)
  }

  /** A written transaction is read back after the rows already there. A
      sheet with the right header and no data rows loads as that one row. */
  lemma LoadAppend(header: seq<string>, records: seq<Record>, t: Transaction)
    requires ValidDate(t.date)
    requires Load(header, records).Ok? || (records == [] && HasColumns(header))
    ensures Load(header, records + [Encode(t)])
      == Ok((if records == [] then [] else Load(header, records).value) + [t])
  {
    if records == [] {
      assert [] + [Encode(t)] == [Encode(t)];
      DecodeAllSnoc([], Encode(t), [], t);
    } else {
      DecodeAllSnoc(records, Encode(t), Load(header, records).value, t);
    }
  }

  // ---------------------------------------------------------------------------
  // Removing rows from a sequence

  /** The sequence without its element at `i`. */
  function RemoveAt<T>(s: seq<T>, i: int): (r: seq<T>)
    requires 0 <= i < |s|
    ensures |r| == |s| - 1
    ensures r[..i] == s[..i] && r[i..] == s[i + 1..]
  {
    s[..i] + s[i + 1..]
  }

  /** The elements of `s` whose index is not in `gone`, in their order. */
  function KeepIndices<T>(s: seq<T>, gone: set<int>): (r: seq<T>)
    ensures |r| <= |s|
  {
    if s == [] then [] else
      var n := |s| - 1;
      KeepIndices(s[..n], gone) + (if n in gone then [] else [s[n]])
  }

  /** Only the indices of `s` itself matter. */
  lemma {:induction false} KeepAgree<T>(s: seq<T>, a: set<int>, b: set<int>)
    requires forall i :: 0 <= i < |s| ==> (i in a <==> i in b)
    ensures KeepIndices(s, a) == KeepIndices(s, b)
  {
    if s != [] {
      KeepAgree(s[..|s| - 1], a, b);
    }
  }

  /** Deleting position `x` after deleting only positions above it deletes
      the element originally at `x`: the indices still to visit have not
      moved. */
  lemma {:induction false} RemoveBelow<T>(s: seq<T>, gone: set<int>, x: int)
    requires 0 <= x < |s| && x !in gone
    requires forall j :: j in gone ==> j > x
    ensures x < |KeepIndices(s, gone)|
    ensures RemoveAt(KeepIndices(s, gone), x) == KeepIndices(s, gone + {x})
  {
    var n := |s| - 1;
    if n == x {
      RemoveLast(s, gone);
    } else {
      RemoveBelow(s[..n], gone, x);
      var a := KeepIndices(s[..n], gone);
      var tail := if n in gone then [] else [s[n]];
      assert KeepIndices(s, gone) == a + tail;
      assert KeepIndices(s, gone + {x}) == KeepIndices(s[..n], gone + {x}) + tail;
      RemoveAtAppend(a, tail, x);
    }
  }

  lemma RemoveLast<T>(s: seq<T>, gone: set<int>)
    requires s != [] && forall j :: j in gone ==> j >= |s|
    ensures |KeepIndices(s, gone)| == |s|
    ensures RemoveAt(KeepIndices(s, gone), |s| - 1) == KeepIndices(s, gone + {|s| - 1})
  {
    var n := |s| - 1;
    KeepAbove(s[..n], gone);
    KeepAbove(s[..n], gone + {n});
    assert n !in gone;
    assert KeepIndices(s, gone) == s[..n] + [s[n]];
    assert n in gone + {n};
    assert KeepIndices(s, gone + {n}) == s[..n];
  }

  /** Indices past the end remove nothing. */
  lemma {:induction false} KeepAbove<T>(s: seq<T>, gone: set<int>)
    requires forall j :: j in gone ==> j >= |s|
    ensures KeepIndices(s, gone) == s
  {
    if s != [] {
      var n := |s| - 1;
      KeepAbove(s[..n], gone);
      assert n !in gone;
      assert s == s[..n] + [s[n]];
    }
  }

  lemma RemoveAtAppend<T>(a: seq<T>, b: seq<T>, x: int)
    requires 0 <= x < |a|
    ensures RemoveAt(a + b, x) == RemoveAt(a, x) + b
  {
  }

  lemma RemoveIsKeep<T>(s: seq<T>, i: int)
    requires 0 <= i < |s|
    ensures RemoveAt(s, i) == KeepIndices(s, {i})
  {
    var none: set<int> := {};
    KeepAbove(s, none);
    RemoveBelow(s, none, i);
    assert none + {i} == {i};
  }

  /** Deleting the same indices from the sheet rows and from the ledger keeps
      them in step. */
  lemma {:induction false} DecodeKeep(rs: seq<Record>, ts: seq<Transaction>, gone: set<int>)
    requires DecodeAll(rs) == Ok(ts)
    ensures DecodeAll(KeepIndices(rs, gone)) == Ok(KeepIndices(ts, gone))
  {
    if rs != [] {
      var n := |rs| - 1;
      DecodeAllLast(rs, ts);
      DecodeKeep(rs[..n], ts[..n], gone);
      var a, b := KeepIndices(rs[..n], gone), KeepIndices(ts[..n], gone);
      if n in gone {
        assert KeepIndices(rs, gone) == a + [] == a;
        assert KeepIndices(ts, gone) == b + [] == b;
      } else {
        assert KeepIndices(rs, gone) == a + [rs[n]];
        assert KeepIndices(ts, gone) == b + [ts[n]];
        DecodeAllSnoc(a, rs[n], b, ts[n]);
      }
    }
  }

  /** The sheet after deleting the rows at `gone` loads as the ledger without
      those rows, unless no data row is left: then it fails like an empty
      sheet. */
  lemma LoadKeep(header: seq<string>, records: seq<Record>, gone: set<int>)
    requires Load(header, records).Ok?
    ensures Load(header, KeepIndices(records, gone))
      == if KeepIndices(Load(header, records).value, gone) == [] then Err(MissingColumn("Date"))
         else Ok(KeepIndices(Load(header, records).value, gone))
  {
    DecodeKeep(records, Load(header, records).value, gone);
  }

  // ---------------------------------------------------------------------------
  // Which rows are today's

  /** `df[mask].index.tolist()`: the indices of the matching rows, ascending. */
  function MatchingIndices(rows: seq<Transaction>, m: Mask): (r: seq<int>)
    ensures forall i :: i in r <==> 0 <= i < |rows| && Matches(m, rows[i])
    ensures forall p, q :: 0 <= p < q < |r| ==> r[p] < r[q]
  {
    if rows == [] then [] else
      var n := |rows| - 1;
      var pre := MatchingIndices(rows[..n], m);
      if Matches(m, rows[n]) then
        SnocAscending(pre, n);
        pre + [n]
      else pre
  }

  /** The set of indices of the matching rows. */
  function IndexSet(rows: seq<Transaction>, m: Mask): set<int> {
    set i | 0 <= i < |rows| && Matches(m, rows[i])
  }

  lemma SnocAscending(s: seq<int>, x: int)
    requires forall p, q :: 0 <= p < q < |s| ==> s[p] < s[q]
    requires forall y :: y in s ==> y < x
    ensures forall p, q :: 0 <= p < q < |s + [x]| ==> (s + [x])[p] < (s + [x])[q]
  {
    forall p, q | 0 <= p < q < |s + [x]| ensures (s + [x])[p] < (s + [x])[q] {
      assert s[p] in s;
    }
  }

  lemma ConsDescending(x: int, s: seq<int>)
    requires forall p, q :: 0 <= p < q < |s| ==> s[p] > s[q]
    requires forall y :: y in s ==> y < x
    ensures forall p, q :: 0 <= p < q < |[x] + s| ==> ([x] + s)[p] > ([x] + s)[q]
  {
    forall p, q | 0 <= p < q < |[x] + s| ensures ([x] + s)[p] > ([x] + s)[q] {
      assert s[q - 1] in s;
    }
  }

  /** Deleting the matching rows by index leaves the rows the negated mask
      selects. */
  lemma {:induction false} KeepMatching(rows: seq<Transaction>, m: Mask)
    ensures KeepIndices(rows, IndexSet(rows, m)) == Where(rows, Not(m))
  {
    if rows != [] {
      var n := |rows| - 1;
      KeepAgree(rows[..n], IndexSet(rows, m), IndexSet(rows[..n], m));
      KeepMatching(rows[..n], m);
    }
  }

  /** `sorted(indices, reverse=True)` for indices that are already ascending. */
  function Descending(s: seq<int>): (r: seq<int>)
    requires forall p, q :: 0 <= p < q < |s| ==> s[p] < s[q]
    ensures |r| == |s|
    ensures forall x :: x in r <==> x in s
    ensures forall p, q :: 0 <= p < q < |r| ==> r[p] > r[q]
  {
    if s == [] then [] else
      var n := |s| - 1;
      var rest := Descending(s[..n]);
      ConsDescending(s[n], rest);
      [s[n]] + rest
  }

  /** Why the order matters: deleting two neighbouring rows top-down removes
      the wrong second row, because the first deletion shifts it up. */
  lemma AscendingOrderDrifts<T>(s: seq<T>)
    requires |s| == 3 && s[1] != s[2]
    ensures RemoveAt(RemoveAt(s, 0), 1) == [s[1]]
    ensures KeepIndices(s, {0, 1}) == [s[2]]
  {
    assert s[..2][..1] == s[..1] && s[..1][..0] == [];
    assert KeepIndices(s[..1], {0, 1}) == [];
    assert KeepIndices(s[..2], {0, 1}) == [];
  }

  // ---------------------------------------------------------------------------
  // The worksheet

  class Sheet {
    var header: seq<string>
    var records: seq<Record>

    constructor(header: seq<string>, records: seq<Record>)
      ensures this.header == header && this.records == records
    {
      this.header := header;
      this.records := records;
    }

    /** `append_row(values)`: a new last data row. */
    method AppendRow(row: Record)
      modifies this
      ensures header == old(header)
      ensures records == old(records) + [row]
    {
      records := records + [row];
    }

    /** `delete_rows(index)` for a data row: the rows below move up by one.
        A blank row below the data changes no record. */
    method DeleteRows(index: int)
      requires index >= FIRST_DATA_ROW
      modifies this
      ensures header == old(header)
      ensures index - FIRST_DATA_ROW < |old(records)| ==>
        records == RemoveAt(old(records), index - FIRST_DATA_ROW)
      ensures index - FIRST_DATA_ROW >= |old(records)| ==> records == old(records)
    {
      var i := index - FIRST_DATA_ROW;
      if i < |records| {
        records := RemoveAt(records, i);
      }
    }
  }

  // ---------------------------------------------------------------------------
  // The app's writes

  /** "Add Transaction": the new row is written after the others, and the
      next load sees the ledger with the transaction at its end. */
  method AddTransaction(sheet: Sheet, t: Transaction)
    requires ValidDate(t.date)
    modifies sheet
    ensures sheet.header == old(sheet.header)
    ensures sheet.records == old(sheet.records) + [Encode(t)]
    ensures old(Load(sheet.header, sheet.records)).Ok? ==>
      Load(sheet.header, sheet.records) == Ok(old(Load(sheet.header, sheet.records)).value + [t])
  {
    if Load(sheet.header, sheet.records).Ok? {
      LoadAppend(sheet.header, sheet.records, t);
    }
    sheet.AppendRow(Encode(t));
  }

  /** "Delete Selected Transaction": `selected` is one of today's indices,
      and physical row `selected + 2` is that row. */
  method DeleteSelected(sheet: Sheet, ledger: seq<Transaction>, today: Date, selected: int)
    requires Load(sheet.header, sheet.records) == Ok(ledger)
    requires selected in MatchingIndices(ledger, DateIs(today))
    modifies sheet
    ensures sheet.header == old(sheet.header)
    ensures sheet.records == RemoveAt(old(sheet.records), selected)
    ensures Load(sheet.header, sheet.records)
      == if |ledger| == 1 then Err(MissingColumn("Date")) else Ok(RemoveAt(ledger, selected))
  {
    RemoveIsKeep(sheet.records, selected);
    RemoveIsKeep(ledger, selected);
    LoadKeep(sheet.header, sheet.records, {selected});
    sheet.DeleteRows(selected + FIRST_DATA_ROW);
  }

  /** "Reset All Today's Transactions": today's indices from the highest
      down, deleting physical row `index + 2` each time. Every deletion hits
      the row it means to, so exactly today's rows go and the rest stay in
      order. */
  method ResetToday(sheet: Sheet, ledger: seq<Transaction>, today: Date)
    requires Load(sheet.header, sheet.records) == Ok(ledger)
    modifies sheet
    ensures sheet.header == old(sheet.header)
    ensures sheet.records == KeepIndices(old(sheet.records), IndexSet(ledger, DateIs(today)))
    ensures Load(sheet.header, sheet.records)
      == if Where(ledger, Not(DateIs(today))) == [] then Err(MissingColumn("Date"))
         else Ok(Where(ledger, Not(DateIs(today))))
  {
    var order := Descending(MatchingIndices(ledger, DateIs(today)));
    ghost var start := sheet.records;
    ResetTodayStart(sheet.header, start, ledger, today, order);
    var k := 0;
    while k < |order|
      invariant 0 <= k <= |order|
      invariant sheet.header == old(sheet.header)
      invariant sheet.records == KeepIndices(start, Elems(order[..k]))
    {
      DeleteNext(start, order, k);
      sheet.DeleteRows(order[k] + FIRST_DATA_ROW);
      k := k + 1;
    }
    ResetTodayEnd(sheet.header, start, ledger, today, order);
  }

  /** The indices in a list. */
  function Elems(s: seq<int>): set<int> {
    set x | x in s
  }

  /** One step of the reset loop: the next index is below all the deleted
      ones, so deleting it there is deleting it from the original rows. */
  lemma DeleteNext<T>(start: seq<T>, order: seq<int>, k: int)
    requires 0 <= k < |order|
    requires forall p :: 0 <= p < |order| ==> 0 <= order[p] < |start|
    requires forall p, q :: 0 <= p < q < |order| ==> order[p] > order[q]
    ensures order[k] < |KeepIndices(start, Elems(order[..k]))| &&
      RemoveAt(KeepIndices(start, Elems(order[..k])), order[k])
      == KeepIndices(start, Elems(order[..k + 1]))
  {
    assert order[..k + 1] == order[..k] + [order[k]];
    assert Elems(order[..k + 1]) == Elems(order[..k]) + {order[k]};
    forall j | j in Elems(order[..k]) ensures j > order[k] {
      var p :| 0 <= p < k && order[..k][p] == j;
      assert order[p] == j;
    }
    RemoveBelow(start, Elems(order[..k]), order[k]);
  }

  /** The reset loop starts with nothing deleted, and every index it visits
      is a row of the sheet. */
  lemma ResetTodayStart(header: seq<string>, start: seq<Record>, ledger: seq<Transaction>,
                        today: Date, order: seq<int>)
    requires Load(header, start) == Ok(ledger)
    requires order == Descending(MatchingIndices(ledger, DateIs(today)))
    ensures KeepIndices(start, Elems(order[..0])) == start
    ensures forall p :: 0 <= p < |order| ==> 0 <= order[p] < |start|
  {
    KeepAbove(start, {});
    assert Elems(order[..0]) == {};
    forall p | 0 <= p < |order| ensures 0 <= order[p] < |start| {
      assert order[p] in order;
    }
  }

  /** Once every index is visited, the rows left are the ledger's rows not
      dated today. */
  lemma ResetTodayEnd(header: seq<string>, start: seq<Record>, ledger: seq<Transaction>,
                      today: Date, order: seq<int>)
    requires Load(header, start) == Ok(ledger)
    requires order == Descending(MatchingIndices(ledger, DateIs(today)))
    ensures Elems(order[..|order|]) == IndexSet(ledger, DateIs(today))
    ensures Load(header, KeepIndices(start, IndexSet(ledger, DateIs(today))))
      == if Where(ledger, Not(DateIs(today))) == [] then Err(MissingColumn("Date"))
         else Ok(Where(ledger, Not(DateIs(today))))
  {
    assert order[..|order|] == order;
    LoadKeep(header, start, IndexSet(ledger, DateIs(today)));
    KeepMatching(ledger, DateIs(today));
  }
}
