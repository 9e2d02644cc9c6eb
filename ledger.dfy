/** The aggregation engine: boolean masks over the transaction rows, sums of
    `Amount` by `Type`, the all-time savings, the current month's figures, the
    daily and monthly reports and the month selector. Every function takes the
    whole loaded ledger (and "today" where the dashboard uses it) and keeps no
    state of its own. */
module Ledger {
  import opened Wrappers
  import opened Text
  import opened Calendar

  const INCOME := "Income"
  const EXPENSE := "Expense"

  /** One row of the sheet after loading. `kind` is the `Type` column, kept
      as text: rows typed in by hand may hold any value there. `amount` is in
      cents. */
  datatype Transaction = Transaction(
    date: Date, kind: string, category: string, description: string, amount: nat)

  predicate WellFormed(ledger: seq<Transaction>) {
    forall t :: t in ledger ==> ValidDate(t.date)
  }

  // ---------------------------------------------------------------------------
  // Boolean masks: `df[df['Type'] == 'Income']`, `df[df['Date'] == today]`,
  // `df[df['Month'] == period]`, their negation and their conjunction.

  datatype Mask =
    | TypeIs(kind: string)
    | DateIs(date: Date)
    | MonthIs(key: int)
    | Not(inner: Mask)
    | Both(left: Mask, right: Mask)

  predicate Matches(m: Mask, t: Transaction) {
    match m
    case TypeIs(k) => t.kind == k
    case DateIs(d) => t.date == d
    case MonthIs(k) => MonthKey(t.date) == k
    case Not(inner) => !Matches(inner, t)
    case Both(a, b) => Matches(a, t) && Matches(b, t)
  }

  /** `rows[mask]`: the matching rows, in ledger order. */
  function Where(rows: seq<Transaction>, m: Mask): (r: seq<Transaction>)
    ensures |r| <= |rows|
  {
    if rows == [] then [] else
      var n := |rows| - 1;
      Where(rows[..n], m) + (if Matches(m, rows[n]) then [rows[n]] else [])
  }

  /** Every row kept matches, and no matching row is dropped. */
  lemma {:induction false} WhereMembers(rows: seq<Transaction>, m: Mask)
    ensures forall t :: t in Where(rows, m) <==> t in rows && Matches(m, t)
  {
    if rows != [] {
      var n := |rows| - 1;
      WhereMembers(rows[..n], m);
      assert rows == rows[..n] + [rows[n]];
    }
  }

  /** Filtering distributes over concatenation: together with the empty and
      the one-row cases this says the order of the rows is kept. */
  lemma {:induction false} WhereAppend(a: seq<Transaction>, b: seq<Transaction>, m: Mask)
    ensures Where(a + b, m) == Where(a, m) + Where(b, m)
  {
    if b == [] {
      assert a + b == a;
    } else {
      var n := |b| - 1;
      assert (a + b)[..|a + b| - 1] == a + b[..n];
      WhereAppend(a, b[..n], m);
    }
  }

  lemma WhereOne(t: Transaction, m: Mask)
    ensures Where([t], m) == if Matches(m, t) then [t] else []
  {
    assert [t][..0] == [];
  }

  /** Filtering twice is filtering by both masks. */
  lemma {:induction false} WhereWhere(rows: seq<Transaction>, a: Mask, b: Mask)
    ensures Where(Where(rows, a), b) == Where(rows, Both(a, b))
  {
    if rows != [] {
      var n := |rows| - 1;
      WhereWhere(rows[..n], a, b);
      var tail := if Matches(a, rows[n]) then [rows[n]] else [];
      WhereAppend(Where(rows[..n], a), tail, b);
      if tail != [] {
        WhereOne(rows[n], b);
      }
    }
  }

  /** A mask and its negation split the rows: no row is lost or duplicated. */
  lemma {:induction false} WherePartition(rows: seq<Transaction>, m: Mask)
    ensures multiset(Where(rows, m)) + multiset(Where(rows, Not(m))) == multiset(rows)
  {
    if rows != [] {
      var n := |rows| - 1;
      WherePartition(rows[..n], m);
      assert rows == rows[..n] + [rows[n]];
    }
  }

  /** `today_data = df[df['Date'] == today]` and the daily report's
      `df[df['Date'] == pd.to_datetime(selected_date)]`. */
  function DayRows(ledger: seq<Transaction>, day: Date): (r: seq<Transaction>)
    ensures forall t :: t in r <==> t in ledger && t.date == day
  {
    WhereMembers(ledger, DateIs(day));
    Where(ledger, DateIs(day))
  }

  /** The filter is empty exactly when no row matches. */
  lemma WhereEmpty(rows: seq<Transaction>, m: Mask)
    ensures Where(rows, m) == [] <==> forall t :: t in rows ==> !Matches(m, t)
  {
    var r := Where(rows, m);
    WhereMembers(rows, m);
    if r != [] {
      assert r[0] in r;
    }
  }

  // ---------------------------------------------------------------------------
  // Sums

  /** `.sum()` of the `Amount` column: zero exactly when every amount is. */
  function Sum(rows: seq<Transaction>): (r: nat)
    ensures r == 0 <==> forall i :: 0 <= i < |rows| ==> rows[i].amount == 0
  {
    if rows == [] then 0 else Sum(rows[..|rows| - 1]) + rows[|rows| - 1].amount
  }

  lemma {:induction false} SumAppend(a: seq<Transaction>, b: seq<Transaction>)
    ensures Sum(a + b) == Sum(a) + Sum(b)
  {
    if b != [] {
      var n := |b| - 1;
      assert (a + b)[..|a + b| - 1] == a + b[..n];
      assert (a + b)[|a + b| - 1] == b[n];
      SumAppend(a, b[..n]);
    } else {
      assert a + b == a;
    }
  }

  datatype Totals = Totals(income: nat, expense: nat, net: int)

  /** `rows[rows['Type'] == 'Income']['Amount'].sum()`, the same for
      'Expense', and their difference. */
  function TotalsOf(rows: seq<Transaction>): (r: Totals)
    ensures r.net == r.income - r.expense
  {
    var income := Sum(Where(rows, TypeIs(INCOME)));
    var expense := Sum(Where(rows, TypeIs(EXPENSE)));
    Totals(income, expense, income - expense)
  }

  /** What one row adds: its amount to income or to expense according to its
      type, and nothing when the type is neither. */
  lemma TotalsOfRow(t: Transaction)
    ensures TotalsOf([t]) ==
      if t.kind == INCOME then Totals(t.amount, 0, t.amount)
      else if t.kind == EXPENSE then Totals(0, t.amount, 0 - t.amount)
      else Totals(0, 0, 0)
  {
    WhereOne(t, TypeIs(INCOME));
    WhereOne(t, TypeIs(EXPENSE));
    assert [t][..0] == [];
  }

  /** Totals add up over concatenated ledgers; with `TotalsOfRow` and the
      empty ledger (all zero) this pins the totals down row by row. */
  lemma TotalsAppend(a: seq<Transaction>, b: seq<Transaction>)
    ensures TotalsOf(a + b).income == TotalsOf(a).income + TotalsOf(b).income
    ensures TotalsOf(a + b).expense == TotalsOf(a).expense + TotalsOf(b).expense
    ensures TotalsOf(a + b).net == TotalsOf(a).net + TotalsOf(b).net
  {
    WhereAppend(a, b, TypeIs(INCOME));
    WhereAppend(a, b, TypeIs(EXPENSE));
    SumAppend(Where(a, TypeIs(INCOME)), Where(b, TypeIs(INCOME)));
    SumAppend(Where(a, TypeIs(EXPENSE)), Where(b, TypeIs(EXPENSE)));
  }

  lemma {:induction false} SumSplit(rows: seq<Transaction>, m: Mask)
    ensures Sum(rows) == Sum(Where(rows, m)) + Sum(Where(rows, Not(m)))
  {
    if rows != [] {
      var n := |rows| - 1;
      SumSplit(rows[..n], m);
      var tail := if Matches(m, rows[n]) then [rows[n]] else [];
      var rest := if Matches(m, rows[n]) then [] else [rows[n]];
      SumAppend(Where(rows[..n], m), tail);
      SumAppend(Where(rows[..n], Not(m)), rest);
      assert Sum([rows[n]]) == rows[n].amount by {
        assert [rows[n]][..0] == [];
      }
    }
  }

  /** The totals of any slice and of the rest add up to the totals of all. */
  lemma TotalsSplit(rows: seq<Transaction>, m: Mask)
    ensures TotalsOf(rows).income == TotalsOf(Where(rows, m)).income + TotalsOf(Where(rows, Not(m))).income
    ensures TotalsOf(rows).expense == TotalsOf(Where(rows, m)).expense + TotalsOf(Where(rows, Not(m))).expense
    ensures TotalsOf(rows).net == TotalsOf(Where(rows, m)).net + TotalsOf(Where(rows, Not(m))).net
  {
    TypeSumSplit(rows, m, INCOME);
    TypeSumSplit(rows, m, EXPENSE);
  }

  lemma TypeSumSplit(rows: seq<Transaction>, m: Mask, kind: string)
    ensures Sum(Where(rows, TypeIs(kind)))
      == Sum(Where(Where(rows, m), TypeIs(kind))) + Sum(Where(Where(rows, Not(m)), TypeIs(kind)))
  {
    var ofKind := Where(rows, TypeIs(kind));
    SumSplit(ofKind, m);
    WhereWhere(rows, TypeIs(kind), m);
    WhereWhere(rows, TypeIs(kind), Not(m));
    WhereWhere(rows, m, TypeIs(kind));
    WhereWhere(rows, Not(m), TypeIs(kind));
    WhereSameMask(rows, Both(TypeIs(kind), m), Both(m, TypeIs(kind)));
    WhereSameMask(rows, Both(TypeIs(kind), Not(m)), Both(Not(m), TypeIs(kind)));
  }

  // ---------------------------------------------------------------------------
  // The dashboard's headline figures

  /** `savings_total`, the all-time savings, and the current month's totals
      (`total_income`, `total_expense`, `net_balance`). */
  datatype Overview = Overview(savings: int, month: Totals)

  function Summarise(ledger: seq<Transaction>, today: Date): (o: Overview)
    ensures o.savings == TotalsOf(ledger).net
    ensures o.month.net == o.month.income - o.month.expense
  {
    Overview(TotalsOf(ledger).net, TotalsOf(Where(ledger, MonthIs(MonthKey(today)))))
  }

  /** The current month's income and expense are the sums over exactly the
      rows of today's month that have that type. */
  lemma MonthTotalsMeaning(ledger: seq<Transaction>, today: Date)
    ensures Summarise(ledger, today).month.income
      == Sum(Where(ledger, Both(TypeIs(INCOME), MonthIs(MonthKey(today)))))
    ensures Summarise(ledger, today).month.expense
      == Sum(Where(ledger, Both(TypeIs(EXPENSE), MonthIs(MonthKey(today)))))
  {
    var mk := MonthIs(MonthKey(today));
    WhereWhere(ledger, mk, TypeIs(INCOME));
    WhereWhere(ledger, mk, TypeIs(EXPENSE));
    WhereSameMask(ledger, Both(mk, TypeIs(INCOME)), Both(TypeIs(INCOME), mk));
    WhereSameMask(ledger, Both(mk, TypeIs(EXPENSE)), Both(TypeIs(EXPENSE), mk));
  }

  lemma {:induction false} WhereSameMask(rows: seq<Transaction>, a: Mask, b: Mask)
    requires forall t :: t in rows ==> (Matches(a, t) <==> Matches(b, t))
    ensures Where(rows, a) == Where(rows, b)
  {
    if rows != [] {
      WhereSameMask(rows[..|rows| - 1], a, b);
    }
  }

  /** The savings figure is lifetime: it is the same whatever day it is. */
  lemma SavingsIgnoresToday(ledger: seq<Transaction>, d1: Date, d2: Date)
    ensures Summarise(ledger, d1).savings == Summarise(ledger, d2).savings
  {
  }

  /** Lifetime savings are this month's net plus the net of all other months. */
  lemma SavingsSplitsAtMonth(ledger: seq<Transaction>, today: Date)
    ensures Summarise(ledger, today).savings
      == Summarise(ledger, today).month.net + TotalsOf(Where(ledger, Not(MonthIs(MonthKey(today))))).net
  {
    TotalsSplit(ledger, MonthIs(MonthKey(today)));
  }

  /** A row of another month does not move this month's figures; a row of
      this month moves them by its own contribution. */
  lemma MonthTotalsAfterAppend(ledger: seq<Transaction>, t: Transaction, today: Date)
    ensures MonthKey(t.date) != MonthKey(today) ==>
      Summarise(ledger + [t], today).month == Summarise(ledger, today).month
    ensures MonthKey(t.date) == MonthKey(today) ==>
      Summarise(ledger + [t], today).month.net == Summarise(ledger, today).month.net + TotalsOf([t]).net
    ensures Summarise(ledger + [t], today).savings == Summarise(ledger, today).savings + TotalsOf([t]).net
  {
    var m := MonthIs(MonthKey(today));
    WhereAppend(ledger, [t], m);
    WhereOne(t, m);
    TotalsAppend(ledger, [t]);
    if MonthKey(t.date) == MonthKey(today) {
      TotalsAppend(Where(ledger, m), [t]);
    } else {
      assert Where(ledger, m) + [] == Where(ledger, m);
    }
  }

  // ---------------------------------------------------------------------------
  // Reports: a chosen day, or a month picked from the selector

  datatype Scope = Daily(day: Date) | Monthly(name: string)

  datatype Report =
    | Figures(totals: Totals)
    | NoData        // "No transactions for this period."
    | BadMonth      // the name is not a `YYYY-MM` label

  function ScopeMask(scope: Scope): Option<Mask> {
    match scope
    case Daily(d) => Some(DateIs(d))
    case Monthly(name) =>
      match ParseMonthLabel(name)
      case Some(k) => Some(MonthIs(k))
      case None => None
  }

  function ScopeRows(ledger: seq<Transaction>, scope: Scope): Option<seq<Transaction>> {
    match ScopeMask(scope)
    case Some(m) => Some(Where(ledger, m))
    case None => None
  }

  /** The report's three metrics, or the "no data" notice when no row is in
      scope. */
  function ReportFor(ledger: seq<Transaction>, scope: Scope): (r: Report)
    ensures r.BadMonth? <==> ScopeMask(scope).None?
    ensures r.NoData? <==>
      ScopeMask(scope).Some? && forall t :: t in ledger ==> !Matches(ScopeMask(scope).value, t)
    ensures r.Figures? ==> r.totals.net == r.totals.income - r.totals.expense
  {
    match ScopeRows(ledger, scope)
    case None => BadMonth
    case Some(rows) =>
      WhereEmpty(ledger, ScopeMask(scope).value);
      if rows == [] then NoData else Figures(TotalsOf(rows))
  }

  /** The report's income and expense are the sums over the rows that are in
      scope and of that type. */
  lemma ReportMeaning(ledger: seq<Transaction>, scope: Scope)
    requires ReportFor(ledger, scope).Figures?
    ensures ReportFor(ledger, scope).totals.income
      == Sum(Where(ledger, Both(ScopeMask(scope).value, TypeIs(INCOME))))
    ensures ReportFor(ledger, scope).totals.expense
      == Sum(Where(ledger, Both(ScopeMask(scope).value, TypeIs(EXPENSE))))
  {
    WhereWhere(ledger, ScopeMask(scope).value, TypeIs(INCOME));
    WhereWhere(ledger, ScopeMask(scope).value, TypeIs(EXPENSE));
  }

  /** The monthly report of today's month shows the dashboard's monthly
      figures whenever that month has rows. */
  lemma CurrentMonthReport(ledger: seq<Transaction>, today: Date)
    requires ValidDate(today)
    requires exists t :: t in ledger && MonthKey(t.date) == MonthKey(today)
    ensures ReportFor(ledger, Monthly(MonthLabel(MonthKey(today))))
      == Figures(Summarise(ledger, today).month)
  {
    ValidDateHasValidKey(today);
    MonthLabelRoundTrip(MonthKey(today));
  }

  // ---------------------------------------------------------------------------
  // The month selector:
  // `sorted(df['Month'].astype(str).unique())` with
  // `index=len(df['Month'].unique()) - 1`.

  function MonthKeys(ledger: seq<Transaction>): (ks: seq<int>)
    ensures |ks| == |ledger|
    ensures forall i :: 0 <= i < |ledger| ==> ks[i] == MonthKey(ledger[i].date)
  {
    if ledger == [] then [] else MonthKeys(ledger[..|ledger| - 1]) + [MonthKey(ledger[|ledger| - 1].date)]
  }

  function Labels(ks: seq<int>): (ls: seq<string>)
    requires forall k :: k in ks ==> ValidKey(k)
    ensures |ls| == |ks|
    ensures forall i :: 0 <= i < |ks| ==> ls[i] == MonthLabel(ks[i])
  {
    if ks == [] then [] else Labels(ks[..|ks| - 1]) + [MonthLabel(ks[|ks| - 1])]
  }

  /** pandas `unique()`: each value once, in order of first appearance. */
  function Unique<T(==,!new)>(xs: seq<T>): (u: seq<T>)
    ensures forall x :: x in u <==> x in xs
    ensures forall i, j :: 0 <= i < j < |u| ==> u[i] != u[j]
  {
    if xs == [] then [] else
      var u := Unique(xs[..|xs| - 1]);
      var x := xs[|xs| - 1];
      if x in u then u else u + [x]
  }

  lemma UniqueEmpty<T(!new)>(xs: seq<T>)
    ensures Unique(xs) == [] <==> xs == []
  {
    if xs != [] {
      assert xs[0] in xs;
    }
  }

  /** Labelling keys one to one keeps the number of distinct values. */
  lemma {:induction false} UniqueLabelsCount(ks: seq<int>)
    requires forall k :: k in ks ==> ValidKey(k)
    ensures |Unique(Labels(ks))| == |Unique(ks)|
  {
    if ks != [] {
      var n := |ks| - 1;
      var ls := Labels(ks);
      assert ls[..n] == Labels(ks[..n]);
      UniqueLabelsCount(ks[..n]);
      if MonthLabel(ks[n]) in Labels(ks[..n]) {
        var i :| 0 <= i < n && Labels(ks[..n])[i] == MonthLabel(ks[n]);
        MonthLabelInjective(ks[i], ks[n]);
        assert ks[n] in ks[..n];
      } else {
        assert ks[n] !in ks[..n];
      }
    }
  }

  predicate Ascending(s: seq<string>) {
    forall i, j :: 0 <= i < j < |s| ==> !LexLess(s[j], s[i])
  }

  predicate StrictlyAscending(s: seq<string>) {
    forall i, j :: 0 <= i < j < |s| ==> LexLess(s[i], s[j])
  }

  function Insert(x: string, s: seq<string>): (r: seq<string>)
    requires Ascending(s)
    ensures Ascending(r) && multiset(r) == multiset(s) + multiset{x}
  {
    if s == [] then [x]
    else if LexLess(s[0], x) then
      var rest := Insert(x, s[1..]);
      assert s == [s[0]] + s[1..];
      InsertedAfter(s[0], x, s[1..], rest);
      ConsAscending(s[0], rest);
      [s[0]] + rest
    else
      PrependAscending(x, s);
      [x] + s
  }

  /** Nothing that lands behind the head sorts before it. */
  lemma InsertedAfter(h: string, x: string, tail: seq<string>, rest: seq<string>)
    requires LexLess(h, x)
    requires forall y :: y in tail ==> !LexLess(y, h)
    requires multiset(rest) == multiset(tail) + multiset{x}
    ensures forall y :: y in rest ==> !LexLess(y, h)
  {
    LexAsymmetric(h, x);
    forall y | y in rest ensures !LexLess(y, h) {
      assert y in multiset(rest);
    }
  }

  lemma ConsAscending(h: string, rest: seq<string>)
    requires Ascending(rest)
    requires forall y :: y in rest ==> !LexLess(y, h)
    ensures Ascending([h] + rest)
  {
    var r := [h] + rest;
    forall i, j | 0 <= i < j < |r| ensures !LexLess(r[j], r[i]) {
      if i == 0 {
        assert r[j] in rest;
      }
    }
  }

  lemma PrependAscending(x: string, s: seq<string>)
    requires Ascending(s) && s != [] && !LexLess(s[0], x)
    ensures Ascending([x] + s)
  {
    var r := [x] + s;
    forall i, j | 0 <= i < j < |r| ensures !LexLess(r[j], r[i]) {
      if i == 0 && LexLess(r[j], x) {
        var y := s[j - 1];
        if y != s[0] {
          LexTotal(s[0], y);
          LexTransitive(s[0], y, x);
        }
      }
    }
  }

  /** Python's `sorted` on strings. */
  function Sort(xs: seq<string>): (r: seq<string>)
    ensures Ascending(r) && multiset(r) == multiset(xs)
  {
    if xs == [] then [] else
      assert xs == [xs[0]] + xs[1..];
      Insert(xs[0], Sort(xs[1..]))
  }

  /** The options of the month selector; there are some exactly when the
      ledger has rows. */
  function MonthOptions(ledger: seq<Transaction>): (r: seq<string>)
    requires WellFormed(ledger)
    ensures r == [] <==> ledger == []
  {
    KeysValid(ledger);
    var ks := MonthKeys(ledger);
    var u := Unique(Labels(ks));
    UniqueEmpty(Labels(ks));
    assert |multiset(Sort(u))| == |multiset(u)|;
    Sort(u)
  }

  /** One option per distinct period of the `Month` column, so
      `len(df['Month'].unique()) - 1` is the index of the last option. */
  lemma OptionCount(ledger: seq<Transaction>)
    requires WellFormed(ledger)
    ensures |MonthOptions(ledger)| == |Unique(MonthKeys(ledger))|
  {
    var ks := MonthKeys(ledger);
    KeysValid(ledger);
    UniqueLabelsCount(ks);
    var u := Unique(Labels(ks));
    assert |multiset(Sort(u))| == |multiset(u)|;
  }

  /** The option the selector starts on, `None` when there is no option. */
  function DefaultMonth(ledger: seq<Transaction>): (r: Option<string>)
    requires WellFormed(ledger)
    ensures r.Some? <==> ledger != []
    ensures r.Some? ==> r.value == MonthOptions(ledger)[|MonthOptions(ledger)| - 1]
  {
    OptionCount(ledger);
    var options := MonthOptions(ledger);
    var index := |Unique(MonthKeys(ledger))| - 1;
    if 0 <= index < |options| then Some(options[index]) else None
  }

  /** Every month key of a well-formed ledger has a label. */
  lemma KeysValid(ledger: seq<Transaction>)
    requires WellFormed(ledger)
    ensures forall k :: k in MonthKeys(ledger) ==> ValidKey(k)
  {
    var ks := MonthKeys(ledger);
    forall k | k in ks ensures ValidKey(k) {
      var i :| 0 <= i < |ks| && ks[i] == k;
      ValidDateHasValidKey(ledger[i].date);
    }
  }

  /** `s` is the label of the month of some row. */
  predicate IsLedgerMonth(ledger: seq<Transaction>, s: string) {
    exists t :: t in ledger && ValidKey(MonthKey(t.date)) && s == MonthLabel(MonthKey(t.date))
  }

  /** The options are the distinct months of the ledger, each once, strictly
      ascending as strings. */
  lemma MonthOptionsSpec(ledger: seq<Transaction>)
    requires WellFormed(ledger)
    ensures StrictlyAscending(MonthOptions(ledger))
    ensures forall s :: s in MonthOptions(ledger) <==> IsLedgerMonth(ledger, s)
  {
    var ks := MonthKeys(ledger);
    KeysValid(ledger);
    var u := Unique(Labels(ks));
    var r := Sort(u);
    assert r == MonthOptions(ledger);
    SortDistinct(u);
    forall s
      ensures s in r <==> IsLedgerMonth(ledger, s)
    {
      LabelsOfLedger(ledger, s);
      assert s in r <==> s in multiset(r);
      assert s in u <==> s in multiset(u);
    }
  }

  /** Sorting values that are all different gives a strictly ascending
      list. */
  lemma SortDistinct(u: seq<string>)
    requires forall a, b :: 0 <= a < b < |u| ==> u[a] != u[b]
    ensures StrictlyAscending(Sort(u))
  {
    var r := Sort(u);
    forall i, j | 0 <= i < j < |r|
      ensures LexLess(r[i], r[j])
    {
      DistinctAfterSort(u, r, i, j);
      LexTotal(r[i], r[j]);
    }
  }

  /** The labels of the month column are the labels of the ledger's
      months. */
  lemma LabelsOfLedger(ledger: seq<Transaction>, s: string)
    requires WellFormed(ledger)
    ensures forall k :: k in MonthKeys(ledger) ==> ValidKey(k)
    ensures s in Labels(MonthKeys(ledger)) <==> IsLedgerMonth(ledger, s)
  {
    var ks := MonthKeys(ledger);
    KeysValid(ledger);
    if s in Labels(ks) {
      var i :| 0 <= i < |ks| && Labels(ks)[i] == s;
      assert ledger[i] in ledger;
    }
    if IsLedgerMonth(ledger, s) {
      var t :| t in ledger && ValidKey(MonthKey(t.date)) && s == MonthLabel(MonthKey(t.date));
      var i :| 0 <= i < |ledger| && ledger[i] == t;
      assert Labels(ks)[i] == s;
    }
  }

  /** Read back, the options are strictly ascending month keys: calendar
      order. */
  lemma MonthOptionsChronological(ledger: seq<Transaction>, i: int, j: int)
    requires WellFormed(ledger)
    requires 0 <= i < j < |MonthOptions(ledger)|
    ensures ParseMonthLabel(MonthOptions(ledger)[i]).Some?
    ensures ParseMonthLabel(MonthOptions(ledger)[j]).Some?
    ensures ParseMonthLabel(MonthOptions(ledger)[i]).value < ParseMonthLabel(MonthOptions(ledger)[j]).value
  {
    var r := MonthOptions(ledger);
    MonthOptionsSpec(ledger);
    var ki := LabelKey(ledger, r[i]);
    var kj := LabelKey(ledger, r[j]);
    MonthLabelRoundTrip(ki);
    MonthLabelRoundTrip(kj);
    MonthLabelOrder(ki, kj);
  }

  lemma DistinctAfterSort(u: seq<string>, r: seq<string>, i: int, j: int)
    requires forall a, b :: 0 <= a < b < |u| ==> u[a] != u[b]
    requires multiset(r) == multiset(u)
    requires 0 <= i < j < |r|
    ensures r[i] != r[j]
  {
    if r[i] == r[j] {
      assert multiset(r)[r[i]] >= 2 by {
        assert r == r[..i] + [r[i]] + r[i + 1..j] + [r[j]] + r[j + 1..];
      }
      DistinctCountsOnce(u, r[i]);
    }
  }

  lemma {:induction false} DistinctCountsOnce(u: seq<string>, x: string)
    requires forall a, b :: 0 <= a < b < |u| ==> u[a] != u[b]
    ensures multiset(u)[x] <= 1
  {
    if u != [] {
      assert u == [u[0]] + u[1..];
      DistinctCountsOnce(u[1..], x);
      if u[0] == x {
        assert x !in u[1..];
      }
    }
  }

  /** The key behind the label of a ledger month. */
  lemma LabelKey(ledger: seq<Transaction>, s: string) returns (k: int)
    requires IsLedgerMonth(ledger, s)
    ensures ValidKey(k) && s == MonthLabel(k)
    ensures exists t :: t in ledger && MonthKey(t.date) == k
  {
    var t :| t in ledger && ValidKey(MonthKey(t.date)) && s == MonthLabel(MonthKey(t.date));
    k := MonthKey(t.date);
  }

  /** The option the selector starts on is the latest month of the ledger. */
  lemma DefaultMonthIsLatest(ledger: seq<Transaction>)
    requires WellFormed(ledger) && ledger != []
    ensures ParseMonthLabel(DefaultMonth(ledger).value).Some?
    ensures forall t :: t in ledger ==> MonthKey(t.date) <= ParseMonthLabel(DefaultMonth(ledger).value).value
  {
    var kl := LastOptionKey(ledger);
    MonthLabelRoundTrip(kl);
    assert DefaultMonth(ledger).value == MonthLabel(kl);
    forall t | t in ledger
      ensures MonthKey(t.date) <= kl
    {
      NotAfterLastOption(ledger, t, kl);
    }
  }

  /** The month of the last option, which is the default. */
  lemma LastOptionKey(ledger: seq<Transaction>) returns (kl: int)
    requires WellFormed(ledger) && ledger != []
    ensures ValidKey(kl)
    ensures MonthLabel(kl) == MonthOptions(ledger)[|MonthOptions(ledger)| - 1]
  {
    var r := MonthOptions(ledger);
    MonthOptionsSpec(ledger);
    assert r[|r| - 1] in r;
    kl := LabelKey(ledger, r[|r| - 1]);
  }

  /** No row's month comes after the month of the last option. */
  lemma NotAfterLastOption(ledger: seq<Transaction>, t: Transaction, kl: int)
    requires WellFormed(ledger) && t in ledger && MonthOptions(ledger) != []
    requires ValidKey(kl) && MonthLabel(kl) == MonthOptions(ledger)[|MonthOptions(ledger)| - 1]
    ensures MonthKey(t.date) <= kl
  {
    var r := MonthOptions(ledger);
    var k := MonthKey(t.date);
    var i := OptionOf(ledger, t);
    if i < |r| - 1 {
      assert LexLess(r[i], r[|r| - 1]) by {
        MonthOptionsSpec(ledger);
      }
      MonthLabelOrder(k, kl);
    } else {
      MonthLabelInjective(k, kl);
    }
  }

  /** The position of a row's month among the options. */
  lemma OptionOf(ledger: seq<Transaction>, t: Transaction) returns (i: int)
    requires WellFormed(ledger) && t in ledger
    ensures ValidKey(MonthKey(t.date))
    ensures 0 <= i < |MonthOptions(ledger)| && MonthOptions(ledger)[i] == MonthLabel(MonthKey(t.date))
  {
    ValidDateHasValidKey(t.date);
    var r := MonthOptions(ledger);
    var s := MonthLabel(MonthKey(t.date));
    assert s in r by {
      assert IsLedgerMonth(ledger, s);
      MonthOptionsSpec(ledger);
    }
    i :| 0 <= i < |r| && r[i] == s;
  }
}

module LedgerExample {
  import opened Calendar
  import opened Ledger

  /** A salary in March and April and a meal in April, seen on 10 April:
      the month shows April only, the savings count all three rows. */
  lemma AprilOverview(march: Transaction, april: Transaction, meal: Transaction)
    requires march.date == Date(2024, 3, 1) && march.kind == INCOME && march.amount == 500000
    requires april.date == Date(2024, 4, 1) && april.kind == INCOME && april.amount == 500000
    requires meal.date == Date(2024, 4, 2) && meal.kind == EXPENSE && meal.amount == 20000
    ensures Summarise([march] + [april] + [meal], Date(2024, 4, 10))
      == Overview(980000, Totals(500000, 20000, 480000))
  {
    AprilRows(march, april, meal, MonthIs(MonthKey(Date(2024, 4, 10))));
    AprilTotals(march, april, meal);
  }

  lemma AprilTotals(march: Transaction, april: Transaction, meal: Transaction)
    requires march.kind == INCOME && march.amount == 500000
    requires april.kind == INCOME && april.amount == 500000
    requires meal.kind == EXPENSE && meal.amount == 20000
    ensures TotalsOf([april] + [meal]) == Totals(500000, 20000, 480000)
    ensures TotalsOf([march] + [april] + [meal]).net == 980000
  {
    AprilMonthTotals(april, meal);
    TotalsOfRow(march);
    TotalsAppend([march], [april] + [meal]);
    assert [march] + [april] + [meal] == [march] + ([april] + [meal]);
  }

  lemma AprilMonthTotals(april: Transaction, meal: Transaction)
    requires april.kind == INCOME && april.amount == 500000
    requires meal.kind == EXPENSE && meal.amount == 20000
    ensures TotalsOf([april] + [meal]) == Totals(500000, 20000, 480000)
  {
    KindsDiffer();
    TotalsOfRow(april);
    TotalsOfRow(meal);
    TotalsAppend([april], [meal]);
  }

  lemma KindsDiffer()
    ensures INCOME != EXPENSE
  {
    assert INCOME[0] != EXPENSE[0];
  }

  lemma AprilRows(march: Transaction, april: Transaction, meal: Transaction, m: Mask)
    requires !Matches(m, march) && Matches(m, april) && Matches(m, meal)
    ensures Where([march] + [april] + [meal], m) == [april] + [meal]
  {
    WhereAppend([march] + [april], [meal], m);
    WhereAppend([march], [april], m);
    WhereOne(march, m);
    WhereOne(april, m);
    WhereOne(meal, m);
    assert [] + [april] == [april];
  }
}
