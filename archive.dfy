/**
 * The yearly archive window (`ArsipWindow`, wallet.py lines 579-632): the
 * per-month income and expense of one year, built from the store's yearly
 * summary and shown for the months that have any.
 */
module Archive {
  import opened Wrappers
  import opened Text
  import opened Store

  /** `calendar.month_name[1..12]` in the default locale. */
  const MonthNames: seq<string> := ["January", "February", "March", "April", "May", "June", "July",
                                    "August", "September", "October", "November", "December"]

  /** One line of the archive table: (Bulan, Masuk, Keluar) and the month number. */
  datatype MonthRow = MonthRow(month: nat, name: string, income: int, expense: int)

  /** The three cells as displayed, the amounts as `f"{x:,.0f}"`. */
  function Cells(r: MonthRow): (c: seq<string>)
    ensures |c| == 3 && c[0] == r.name
    ensures RemoveChar(c[1], ',') == IntToString(r.income)
    ensures RemoveChar(c[2], ',') == IntToString(r.expense)
  {
    UngroupFormatInt(r.income, ',');
    UngroupFormatInt(r.expense, ',');
    [r.name, FormatInt(r.income, ','), FormatInt(r.expense, ',')]
  }

  datatype ArchiveResult = Shown(rows: seq<MonthRow>) | UnknownMonth(key: string)

  /**
   * The value the first loop leaves in `rekap[key]['in']` (`income` true) or
   * `rekap[key]['out']`: the total of the last query row for that month whose
   * kind falls on that side, or the initial 0.
   */
  function LastTotal(data: seq<Agg>, key: string, income: bool): (t: int)
    ensures t != 0 ==> exists g :: g in data && g.month == key && IsIncome(g.kind) == income && g.total == t
    decreases |data|
  {
    if data == [] then 0
    else
      var g := data[|data| - 1];
      if g.month == key && IsIncome(g.kind) == income then g.total
      else LastTotal(data[..|data| - 1], key, income)
  }

  /** Every month key of the query is one of the twelve keys of `rekap`. */
  predicate KeysKnown(data: seq<Agg>)
  {
    forall g :: g in data ==> MonthOfKey(g.month).Some?
  }

  /** Month `m` has a non-zero income or expense entry after the first loop. */
  predicate Active(data: seq<Agg>, m: nat)
    requires 1 <= m <= 12
  {
    LastTotal(data, MonthKey(m), true) > 0 || LastTotal(data, MonthKey(m), false) > 0
  }

  /**
   * `rows` is what the archive shows for `data`: the months with income > 0
   * or expense > 0, each once, in calendar order, with their names and the
   * totals the first loop left for them.
   */
  predicate Displays(rows: seq<MonthRow>, data: seq<Agg>)
  {
    && |rows| <= 12
    && (forall i, j :: 0 <= i < j < |rows| ==> rows[i].month < rows[j].month)
    && (forall i :: 0 <= i < |rows| ==>
          && 1 <= rows[i].month <= 12
          && rows[i].name == MonthNames[rows[i].month - 1]
          && rows[i].income == LastTotal(data, MonthKey(rows[i].month), true)
          && rows[i].expense == LastTotal(data, MonthKey(rows[i].month), false))
    && (forall m :: 1 <= m <= 12 ==> (Active(data, m) <==> m in Months(rows)))
  }

  /** The month numbers of the archive lines, in order. */
  function Months(rows: seq<MonthRow>): (ms: seq<nat>)
    ensures |ms| == |rows| && forall i :: 0 <= i < |rows| ==> ms[i] == rows[i].month
  {
    seq(|rows|, i requires 0 <= i < |rows| => rows[i].month)
  }

  /**
   * `load_data` after the query: fill a twelve-month table of zeros from the
   * query rows, then list the non-empty months in order. A month key outside
   * "01".."12" raises KeyError in the source before anything is listed.
   */
  method LoadData(data: seq<Agg>) returns (result: ArchiveResult)
    ensures result.UnknownMonth? <==> !KeysKnown(data)
    ensures result.UnknownMonth? ==> MonthOfKey(result.key).None? && exists g :: g in data && g.month == result.key
    ensures result.Shown? ==> Displays(result.rows, data)
  {
    var incoming, outgoing, badKey := FillMonths(data);
    if badKey.Some? {
      return UnknownMonth(badKey.value);
    }
    var rows := ListMonths(data, incoming, outgoing);
    return Shown(rows);
  }

  /**
   * The first loop of `load_data`: `rekap` starts at zero for all twelve
   * months and each query row overwrites the entry of its month and side.
   * Stops at the first month key that is not in `rekap`.
   */
  method FillMonths(data: seq<Agg>) returns (incoming: seq<int>, outgoing: seq<int>, badKey: Option<string>)
    ensures badKey.None? <==> KeysKnown(data)
    ensures badKey.Some? ==> MonthOfKey(badKey.value).None? && exists g :: g in data && g.month == badKey.value
    ensures |incoming| == 12 && |outgoing| == 12
    ensures badKey.None? ==> forall m :: 1 <= m <= 12 ==>
      incoming[m - 1] == LastTotal(data, MonthKey(m), true) &&
      outgoing[m - 1] == LastTotal(data, MonthKey(m), false)
  {
    incoming, outgoing, badKey := seq(12, _ => 0), seq(12, _ => 0), None;
    var k := 0;
    while k < |data|
      invariant 0 <= k <= |data|
      invariant |incoming| == 12 && |outgoing| == 12
      invariant KeysKnown(data[..k])
      invariant forall m :: 1 <= m <= 12 ==>
        incoming[m - 1] == LastTotal(data[..k], MonthKey(m), true) &&
        outgoing[m - 1] == LastTotal(data[..k], MonthKey(m), false)
    {
      var g := data[k];
      assert data[..k + 1][..k] == data[..k];
      assert data[..k + 1] == data[..k] + [g];
      var month := MonthOfKey(g.month);
      if month.None? {
        assert g in data;
        return incoming, outgoing, Some(g.month);
      }
      forall m | 1 <= m <= 12 ensures MonthKey(m) == g.month <==> m == month.value {
        MonthKeyRoundTrip(m);
      }
      if IsIncome(g.kind) {
        incoming := incoming[month.value - 1 := g.total];
      } else {
        outgoing := outgoing[month.value - 1 := g.total];
      }
      k := k + 1;
    }
    assert data[..k] == data;
  }

  /** `r` is the line of its month, with that month's name and entries. */
  predicate Lists(r: MonthRow, incoming: seq<int>, outgoing: seq<int>)
    requires |incoming| == 12 && |outgoing| == 12
  {
    && 1 <= r.month <= 12
    && r.name == MonthNames[r.month - 1]
    && r.income == incoming[r.month - 1]
    && r.expense == outgoing[r.month - 1]
  }

  /** The second loop of `load_data`: the months with income or expense above 0, in order. */
  method ListMonths(data: seq<Agg>, incoming: seq<int>, outgoing: seq<int>) returns (rows: seq<MonthRow>)
    requires |incoming| == 12 && |outgoing| == 12
    requires forall m :: 1 <= m <= 12 ==>
      incoming[m - 1] == LastTotal(data, MonthKey(m), true) &&
      outgoing[m - 1] == LastTotal(data, MonthKey(m), false)
    ensures Displays(rows, data)
  {
    rows := [];
    var m := 1;
    while m <= 12
      invariant 1 <= m <= 13
      invariant |rows| <= m - 1
      invariant forall i, j :: 0 <= i < j < |rows| ==> rows[i].month < rows[j].month
      invariant forall i :: 0 <= i < |rows| ==> rows[i].month < m && Lists(rows[i], incoming, outgoing)
      invariant forall p :: 1 <= p <= 12 ==> (p in Months(rows) <==> p < m && (incoming[p - 1] > 0 || outgoing[p - 1] > 0))
    {
      if incoming[m - 1] > 0 || outgoing[m - 1] > 0 {
        var row := MonthRow(m, MonthNames[m - 1], incoming[m - 1], outgoing[m - 1]);
        assert Months(rows + [row]) == Months(rows) + [m];
        rows := rows + [row];
      }
      m := m + 1;
    }
  }

  /** Every month key of a store summary is a real month, so the store's data never raises KeyError. */
  lemma SummaryKeysKnown(rows: seq<Row>, username: string, year: string)
    ensures KeysKnown(YearlySummary(rows, username, year))
  {
    SummarisedKeysKnown(YearlySummary(rows, username, year), InYear(rows, username, year));
  }

  /** Every group of a GROUP BY result has a row behind it, and that row's month is a real month. */
  lemma SummarisedKeysKnown(gs: seq<Agg>, rows: seq<Row>)
    requires Summarises(gs, rows)
    ensures KeysKnown(gs)
  {
    forall g | g in gs ensures MonthOfKey(g.month).Some? {
      var r :| r in rows && InGroup(r, g.month, g.kind);
    }
  }

  /**
   * With distinct keys, the one query row of a (month, kind) group is what the
   * first loop leaves for that month and side, provided no other kind of that
   * month falls on the same side; a month without that group stays at 0.
   */
  lemma {:induction false} LastTotalOfGroup(data: seq<Agg>, key: string, kind: string, income: bool)
    requires DistinctKeys(data)
    requires IsIncome(kind) == income
    requires forall g :: g in data && g.month == key && IsIncome(g.kind) == income ==> g.kind == kind
    ensures forall g :: g in data && g.month == key && g.kind == kind ==> LastTotal(data, key, income) == g.total
    ensures (forall g :: g in data ==> g.month != key || g.kind != kind) ==> LastTotal(data, key, income) == 0
    decreases |data|
  {
    if data != [] {
      var n := |data| - 1;
      var front := data[..n];
      assert data == front + [data[n]];
      assert forall g :: g in front ==> g in data;
      LastTotalOfGroup(front, key, kind, income);
      forall g | g in data && g.month == key && g.kind == kind
        ensures LastTotal(data, key, income) == g.total
      {
        var j :| 0 <= j < |data| && data[j] == g;
        if data[n].month == key && IsIncome(data[n].kind) == income {
          assert data[n].kind == kind;
          assert j == n;
        } else {
          assert j < n && front[j] == g;
        }
      }
    }
  }

  /**
   * For a year whose rows are all of the kinds "Pemasukan" and "Pengeluaran",
   * the archive's income and expense for month `m` are the sums of that
   * user's rows of that month and kind; a month without rows of a kind shows 0.
   */
  lemma ArchiveTotals(rows: seq<Row>, username: string, year: string, m: nat)
    requires 1 <= m <= 12
    requires forall r :: r in rows && r.username == username ==> r.kind == IncomeKind || r.kind == ExpenseKind
    ensures var data := YearlySummary(rows, username, year);
      var yearRows := InYear(rows, username, year);
      && LastTotal(data, MonthKey(m), true) == SumOf(yearRows, MonthKey(m), IncomeKind)
      && LastTotal(data, MonthKey(m), false) == SumOf(yearRows, MonthKey(m), ExpenseKind)
  {
    var data := YearlySummary(rows, username, year);
    var yearRows := InYear(rows, username, year);
    var key := MonthKey(m);
    SummarisedKinds(data, yearRows);
    SideTotal(data, yearRows, key, IncomeKind, true);
    SideTotal(data, yearRows, key, ExpenseKind, false);
  }

  /** A GROUP BY result only holds kinds that occur among its rows. */
  lemma SummarisedKinds(gs: seq<Agg>, rows: seq<Row>)
    requires Summarises(gs, rows)
    requires forall r :: r in rows ==> r.kind == IncomeKind || r.kind == ExpenseKind
    ensures forall g :: g in gs ==> g.kind == IncomeKind || g.kind == ExpenseKind
  {
    forall g | g in gs ensures g.kind == IncomeKind || g.kind == ExpenseKind {
      var r :| r in rows && InGroup(r, g.month, g.kind);
    }
  }

  lemma SideTotal(data: seq<Agg>, yearRows: seq<Row>, key: string, kind: string, income: bool)
    requires Summarises(data, yearRows)
    requires IsIncome(kind) == income
    requires kind == IncomeKind || kind == ExpenseKind
    requires forall g :: g in data ==> g.kind == IncomeKind || g.kind == ExpenseKind
    ensures LastTotal(data, key, income) == SumOf(yearRows, key, kind)
  {
    LastTotalOfGroup(data, key, kind, income);
    if forall g :: g in data ==> g.month != key || g.kind != kind {
      assert forall r :: r in yearRows ==> !InGroup(r, key, kind);
      SumOfEmptyGroup(yearRows, key, kind);
    }
  }

  class ArchiveWindow {
    const db: Database
    const user: string
    /** The year combobox. */
    var year: string
    /** The archive table. */
    var shown: seq<MonthRow>

    constructor (db: Database, user: string)
      ensures this.db == db && this.user == user && year == "2025"
      ensures Displays(shown, db.Yearly(user, year))
    {
      this.db := db;
      this.user := user;
      year := "2025";
      shown := [];
      new;
      Load();
    }

    /** `load_data` for the selected year: the store's data always loads. */
    method Load()
      modifies this`shown
      ensures Displays(shown, db.Yearly(user, year))
    {
      var data := db.Yearly(user, year);
      SummaryKeysKnown(db.rows, user, year);
      var result := LoadData(data);
      shown := result.rows;
    }

    /** The text cells of the archive table, one line per shown month. */
    function Table(): (t: seq<seq<string>>)
      reads this
      ensures |t| == |shown|
      ensures forall i :: 0 <= i < |t| ==>
        && |t[i]| == 3 && t[i][0] == shown[i].name
        && RemoveChar(t[i][1], ',') == IntToString(shown[i].income)
        && RemoveChar(t[i][2], ',') == IntToString(shown[i].expense)
    {
      var rows := shown;
      seq(|rows|, i requires 0 <= i < |rows| => Cells(rows[i]))
    }
  }
}
