/**
 * The main ledger screen (`Dashboard`, wallet.py lines 249-573) without its
 * widgets: the live thousands formatter of the amount field, the validation
 * of a submitted entry, the balance and spend-ratio fold of `refresh_data`,
 * the table rows it builds, deletion of the selected rows and the CSV export
 * of the table.
 */
module Ledger {
  import opened Wrappers
  import opened Text
  import opened Store

  // ---------------------------------------------------------------------------
  // format_rupiah_typing
  // ---------------------------------------------------------------------------

  /**
   * The amount field after a key press: with the dots removed, an all-digit
   * value is regrouped in threes with `.`; an empty or non-digit value is left
   * as it is.
   */
  function FormatTyping(value: string): (out: string)
    ensures var clean := RemoveChar(value, '.');
      clean == "" || !AllDigits(clean) ==> out == value
    ensures var clean := RemoveChar(value, '.');
      clean != "" && AllDigits(clean) ==>
        Grouped(out, '.') && RemoveChar(out, '.') == Decimal(ParseDigits(clean))
  {
    var clean := RemoveChar(value, '.');
    if clean == "" then value
    else if AllDigits(clean) then
      var d := Decimal(ParseDigits(clean));
      ReplaceGroupSeparator(d, ',', '.');
      GroupIsGrouped(d, '.');
      UngroupGroup(d, '.');
      ReplaceChar(FormatInt(ParseDigits(clean), ','), ',', '.')
    else value
  }

  /**
   * What the formatter produces: untouched input when the cleaned value is
   * empty or holds a non-digit; otherwise a dot-grouped numeral whose digits
   * are the cleaned value without its leading zeros.
   */
  lemma FormatTypingResult(value: string)
    ensures var clean := RemoveChar(value, '.');
      if clean == "" || !AllDigits(clean) then FormatTyping(value) == value
      else
        && Grouped(FormatTyping(value), '.')
        && RemoveChar(FormatTyping(value), '.') == StripLeadingZeros(clean)
        && RemoveChar(FormatTyping(value), '.') == Decimal(ParseDigits(clean))
  {
    var clean := RemoveChar(value, '.');
    if clean != "" && AllDigits(clean) {
      CanonicalOfParse(clean);
    }
  }

  /** Formatting keeps the number the field holds. */
  lemma FormatTypingKeepsValue(value: string)
    requires var clean := RemoveChar(value, '.'); clean != "" && AllDigits(clean)
    ensures var out := RemoveChar(FormatTyping(value), '.');
      AllDigits(out) && ParseDigits(out) == ParseDigits(RemoveChar(value, '.'))
  {
    FormatTypingResult(value);
    ParseDecimal(ParseDigits(RemoveChar(value, '.')));
  }

  /** Formatting an already formatted field changes nothing. */
  lemma FormatTypingIdempotent(value: string)
    ensures FormatTyping(FormatTyping(value)) == FormatTyping(value)
  {
    var clean := RemoveChar(value, '.');
    if clean != "" && AllDigits(clean) {
      var n := ParseDigits(clean);
      FormatTypingResult(value);
      ParseDecimal(n);
    }
  }

  // ---------------------------------------------------------------------------
  // simpan_transaksi
  // ---------------------------------------------------------------------------

  datatype SubmitError = EmptyDescription | EmptyAmount | NotANumber

  datatype Checked = Accepted(amount: int) | Rejected(error: SubmitError)

  /**
   * The guards of `simpan_transaksi`, in their order: a description, then an
   * amount that is non-empty once its dots are removed, then one `float()`
   * accepts. The sign is not checked.
   */
  function Validate(description: string, amountText: string): (c: Checked)
    ensures description == "" ==> c == Rejected(EmptyDescription)
    ensures c == Rejected(EmptyAmount) <==> description != "" && RemoveChar(amountText, '.') == ""
    ensures c.Accepted? <==> description != "" && ParseInt(RemoveChar(amountText, '.')).Some?
    ensures c.Accepted? ==> ParseInt(RemoveChar(amountText, '.')) == Some(c.amount)
    ensures description != "" && RemoveChar(amountText, '.') != "" && ParseInt(RemoveChar(amountText, '.')).None? ==>
      c == Rejected(NotANumber)
  {
    var raw := RemoveChar(amountText, '.');
    if description == "" then Rejected(EmptyDescription)
    else if raw == "" then Rejected(EmptyAmount)
    else match ParseInt(raw)
      case None => Rejected(NotANumber)
      case Some(n) => Accepted(n)
  }

  /** A value typed through the live formatter reaches the store unchanged. */
  lemma TypedAmountIsSubmitted(description: string, typed: string)
    requires description != ""
    requires var clean := RemoveChar(typed, '.'); clean != "" && AllDigits(clean)
    ensures Validate(description, FormatTyping(typed)) == Accepted(ParseDigits(RemoveChar(typed, '.')))
  {
    FormatTypingResult(typed);
    FormatTypingKeepsValue(typed);
    var out := RemoveChar(FormatTyping(typed), '.');
    assert out == Decimal(ParseDigits(RemoveChar(typed, '.')));
  }

  /**
   * Every integer written out as `str(n)` is accepted with its own value, a
   * negative one included: the source has no sign check.
   */
  lemma IntegerAmountAccepted(description: string, n: int)
    requires description != ""
    ensures Validate(description, IntToString(n)) == Accepted(n)
  {
    var s := IntToString(n);
    var d := Decimal(if n < 0 then -n else n);
    assert s == (if n < 0 then "-" else "") + d;
    assert forall i | 0 <= i < |s| :: s[i] == '-' || IsDigit(s[i]);
    RemoveCharAbsent(s, '.');
    ParseIntToString(n);
  }

  /** The two subclasses of `Transaksi`, which differ only in their message. */
  datatype Variant = Income | Expense

  /** `Pemasukan` is built for the kind "Pemasukan", `Pengeluaran` for every other kind. */
  function VariantOf(kind: string): Variant
  {
    if IsIncome(kind) then Income else Expense
  }

  const IncomePrefix: string := "Yey! Uang masuk Rp "
  const IncomeSuffix: string := " berhasil disimpan! \U{1F911}"
  const ExpensePrefix: string := "Oke, pengeluaran Rp "
  const ExpenseSuffix: string := " tercatat. Hemat ya! \U{1F97A}"

  /** `info_sukses` of each subclass. */
  function SuccessMessage(v: Variant, amount: int): string
  {
    match v
    case Income => IncomePrefix + FormatInt(amount, ',') + IncomeSuffix
    case Expense => ExpensePrefix + FormatInt(amount, ',') + ExpenseSuffix
  }

  /**
   * The income template is chosen exactly for the kind "Pemasukan", and the
   * message shows the grouped amount right after its prefix.
   */
  lemma SuccessMessageTemplate(kind: string, amount: int)
    ensures var msg := SuccessMessage(VariantOf(kind), amount);
      && (msg[..4] == "Yey!" <==> kind == IncomeKind)
      && (kind == IncomeKind ==> msg[|IncomePrefix|..|IncomePrefix| + |FormatInt(amount, ',')|] == FormatInt(amount, ','))
      && (kind != IncomeKind ==> msg[|ExpensePrefix|..|ExpensePrefix| + |FormatInt(amount, ',')|] == FormatInt(amount, ','))
  {
    var msg := SuccessMessage(VariantOf(kind), amount);
    var f := FormatInt(amount, ',');
    if kind == IncomeKind {
      assert msg == IncomePrefix + (f + IncomeSuffix);
    } else {
      assert msg == ExpensePrefix + (f + ExpenseSuffix);
      assert msg[..4] == ExpensePrefix[..4];
      assert msg[..4][0] == 'O';
    }
  }

  // ---------------------------------------------------------------------------
  // refresh_data
  // ---------------------------------------------------------------------------

  /** One line of the transaction table: (ID, Tanggal, Jenis, Kategori, Deskripsi, Nominal) and its tag. */
  datatype TableRow = TableRow(id: int, date: string, kindText: string, category: string,
                               description: string, amount: string, incoming: bool)

  /** Python's `s[:n]`. */
  function Prefix(s: string, n: nat): string
  {
    if |s| <= n then s else s[..n]
  }

  function KindLabel(kind: string): string
  {
    if IsIncome(kind) then "Masuk" else "Keluar"
  }

  /** `f"Rp {n:,.0f}"`. */
  function ShowAmount(n: int): string
  {
    "Rp " + FormatInt(n, ',')
  }

  function ToTableRow(r: Row): TableRow
  {
    TableRow(r.id, Prefix(r.timestamp, 10), KindLabel(r.kind), r.category, r.description,
             ShowAmount(r.amount), IsIncome(r.kind))
  }

  /**
   * The sum of the amounts of the income rows (`income` true) or of all other
   * rows (`income` false).
   */
  function KindTotal(rows: seq<Row>, income: bool): int
    decreases |rows|
  {
    if rows == [] then 0
    else
      var last := rows[|rows| - 1];
      KindTotal(rows[..|rows| - 1], income) + (if IsIncome(last.kind) == income then last.amount else 0)
  }

  /**
   * The loop of `refresh_data`: one pass over the rows that keeps the balance
   * and both totals and emits one table line per row, in order.
   */
  method Tally(rows: seq<Row>) returns (balance: int, totalIn: int, totalOut: int, table: seq<TableRow>)
    ensures Displays(rows, Screen(table, balance, totalIn, totalOut))
  {
    balance, totalIn, totalOut, table := 0, 0, 0, [];
    var k := 0;
    while k < |rows|
      invariant 0 <= k <= |rows|
      invariant totalIn == KindTotal(rows[..k], true) && totalOut == KindTotal(rows[..k], false)
      invariant balance == totalIn - totalOut
      invariant |table| == k && forall i :: 0 <= i < k ==> table[i] == ToTableRow(rows[i])
    {
      var r := rows[k];
      assert rows[..k + 1][..k] == rows[..k];
      if IsIncome(r.kind) {
        balance := balance + r.amount;
        totalIn := totalIn + r.amount;
      } else {
        balance := balance - r.amount;
        totalOut := totalOut + r.amount;
      }
      table := table + [ToTableRow(r)];
      k := k + 1;
    }
    assert rows[..k] == rows;
  }

  lemma {:induction false} KindTotalAppend(a: seq<Row>, b: seq<Row>, income: bool)
    ensures KindTotal(a + b, income) == KindTotal(a, income) + KindTotal(b, income)
    decreases |b|
  {
    if b == [] {
      assert a + b == a;
    } else {
      assert (a + b)[..|a + b| - 1] == a + b[..|b| - 1];
      KindTotalAppend(a, b[..|b| - 1], income);
    }
  }

  /** The totals do not depend on the order of the rows. */
  lemma {:induction false} KindTotalPermutation(a: seq<Row>, b: seq<Row>, income: bool)
    requires multiset(a) == multiset(b)
    ensures KindTotal(a, income) == KindTotal(b, income)
    decreases |a|
  {
    if a == [] {
      assert |b| == |multiset(b)| == 0;
    } else {
      var x := a[|a| - 1];
      var front := a[..|a| - 1];
      assert a == front + [x];
      assert x in multiset(b);
      var j :| 0 <= j < |b| && b[j] == x;
      var rest := KindTotalRemoveAt(b, j, income);
      assert multiset(a) == multiset(front) + multiset{x};
      assert multiset(front) == multiset(rest);
      KindTotalPermutation(front, rest, income);
      assert [x][..0] == [];
      assert KindTotal(a, income) == KindTotal(front, income) + KindTotal([x], income);
    }
  }

  /** Taking out the row at position `j` removes its contribution and nothing else. */
  lemma KindTotalRemoveAt(b: seq<Row>, j: int, income: bool) returns (rest: seq<Row>)
    requires 0 <= j < |b|
    ensures rest == b[..j] + b[j + 1..]
    ensures multiset(rest) == multiset(b) - multiset{b[j]}
    ensures KindTotal(b, income) == KindTotal(rest, income) + KindTotal([b[j]], income)
  {
    rest := b[..j] + b[j + 1..];
    assert b == b[..j] + [b[j]] + b[j + 1..];
    KindTotalAppend(b[..j] + [b[j]], b[j + 1..], income);
    KindTotalAppend(b[..j], [b[j]], income);
    KindTotalAppend(b[..j], b[j + 1..], income);
  }

  /**
   * Every row is counted once, as income exactly when its kind is
   * "Pemasukan" and as expense otherwise.
   */
  lemma {:induction false} KindTotalSplit(rows: seq<Row>)
    ensures KindTotal(rows, true) + KindTotal(rows, false) == AmountTotal(rows)
    ensures KindTotal(rows, true) == AmountTotal(RowsWhere(rows, true))
    ensures KindTotal(rows, false) == AmountTotal(RowsWhere(rows, false))
    decreases |rows|
  {
    if rows != [] {
      KindTotalSplit(rows[..|rows| - 1]);
    }
    KindTotalFiltered(rows, true);
    KindTotalFiltered(rows, false);
  }

  /** A side's total is the sum of the amounts of the rows on that side. */
  lemma {:induction false} KindTotalFiltered(rows: seq<Row>, income: bool)
    ensures KindTotal(rows, income) == AmountTotal(RowsWhere(rows, income))
    decreases |rows|
  {
    if rows != [] {
      var front, last := rows[..|rows| - 1], rows[|rows| - 1];
      KindTotalFiltered(front, income);
      var tail := if IsIncome(last.kind) == income then [last] else [];
      AmountTotalAppend(RowsWhere(front, income), tail);
      assert AmountTotal(tail) == if IsIncome(last.kind) == income then last.amount else 0 by {
        if tail != [] {
          assert tail[..0] == [];
        }
      }
    }
  }

  /** The sum of all amounts. */
  function AmountTotal(rows: seq<Row>): int
    decreases |rows|
  {
    if rows == [] then 0 else AmountTotal(rows[..|rows| - 1]) + rows[|rows| - 1].amount
  }

  /** The rows counted as income (`income` true) or as expense, in order. */
  function RowsWhere(rows: seq<Row>, income: bool): seq<Row>
    decreases |rows|
  {
    if rows == [] then []
    else
      var last := rows[|rows| - 1];
      RowsWhere(rows[..|rows| - 1], income) + (if IsIncome(last.kind) == income then [last] else [])
  }

  lemma {:induction false} AmountTotalAppend(a: seq<Row>, b: seq<Row>)
    ensures AmountTotal(a + b) == AmountTotal(a) + AmountTotal(b)
    decreases |b|
  {
    if b == [] {
      assert a + b == a;
    } else {
      assert (a + b)[..|a + b| - 1] == a + b[..|b| - 1];
      AmountTotalAppend(a, b[..|b| - 1]);
    }
  }

  /**
   * The totals shown for a user are those of all of that user's rows,
   * whatever order the listing returns them in.
   */
  lemma ListingTotals(rows: seq<Row>, username: string, income: bool)
    ensures KindTotal(Listing(rows, username), income) == KindTotal(OwnedBy(rows, username), income)
  {
    KindTotalPermutation(Listing(rows, username), OwnedBy(rows, username), income);
  }

  /**
   * A table line shows the amount as `Rp` with comma thousands, the date part
   * of the timestamp, and the kind as Masuk or Keluar.
   */
  lemma TableRowFields(r: Row)
    ensures ToTableRow(r).amount == "Rp " + FormatInt(r.amount, ',')
    ensures ToTableRow(r).date == if |r.timestamp| >= 10 then r.timestamp[..10] else r.timestamp
    ensures ToTableRow(r).kindText == "Masuk" <==> r.kind == IncomeKind
    ensures ToTableRow(r).kindText == "Keluar" <==> r.kind != IncomeKind
    ensures ToTableRow(r).incoming <==> r.kind == IncomeKind
  {
  }

  // ---------------------------------------------------------------------------
  // Spend ratio (meteran boros)
  // ---------------------------------------------------------------------------

  /** `persen_boros`: expense as a percentage of income, 100 with expense but no income. */
  function SpendRatio(totalIn: int, totalOut: int): (ratio: real)
    ensures totalOut >= 0 ==> ratio >= 0.0
    ensures totalIn <= 0 ==> ratio == 0.0 || ratio == 100.0
  {
    if totalIn > 0 then
      var q := totalOut as real / totalIn as real;
      assert q * totalIn as real == totalOut as real;
      q * 100.0
    else if totalOut > 0 then 100.0
    else 0.0
  }

  /** `min(persen_boros, 100)`, the value of the progress bar. */
  function BarValue(ratio: real): (bar: real)
    ensures bar <= 100.0 && bar <= ratio
    ensures bar == ratio || bar == 100.0
  {
    if 100.0 < ratio then 100.0 else ratio
  }

  /** The bar and label turn to the danger colour above 75 percent. */
  predicate Overspent(ratio: real)
    ensures Overspent(ratio) <==> BarValue(ratio) > 75.0
  {
    ratio > 75.0
  }

  lemma SpendRatioCases(totalIn: int, totalOut: int)
    ensures totalIn <= 0 && totalOut <= 0 ==> SpendRatio(totalIn, totalOut) == 0.0
    ensures totalIn <= 0 && totalOut > 0 ==> SpendRatio(totalIn, totalOut) == 100.0
    ensures totalIn > 0 ==> SpendRatio(totalIn, totalOut) * totalIn as real == 100.0 * totalOut as real
  {
  }

  /** The bar never exceeds 100, equals the ratio up to 100, and is non-negative for non-negative totals. */
  lemma BarValueBounds(totalIn: int, totalOut: int)
    ensures BarValue(SpendRatio(totalIn, totalOut)) <= 100.0
    ensures SpendRatio(totalIn, totalOut) <= 100.0 ==> BarValue(SpendRatio(totalIn, totalOut)) == SpendRatio(totalIn, totalOut)
    ensures totalIn >= 0 && totalOut >= 0 ==> BarValue(SpendRatio(totalIn, totalOut)) >= 0.0
  {
  }

  /**
   * With some income, the danger colour shows exactly when expense exceeds
   * three quarters of income, and the ratio reaches 100 exactly when expense
   * reaches income; without income, danger shows exactly when there is expense.
   */
  lemma OverspentThreshold(totalIn: int, totalOut: int)
    ensures totalIn > 0 ==> (Overspent(SpendRatio(totalIn, totalOut)) <==> 4 * totalOut > 3 * totalIn)
    ensures totalIn > 0 ==> (SpendRatio(totalIn, totalOut) >= 100.0 <==> totalOut >= totalIn)
    ensures totalIn <= 0 ==> (Overspent(SpendRatio(totalIn, totalOut)) <==> totalOut > 0)
  {
    if totalIn > 0 {
      var i, o := totalIn as real, totalOut as real;
      var ratio := SpendRatio(totalIn, totalOut);
      RatioTimesIncome(totalIn, totalOut);
      CompareViaIncome(ratio, i, o, 75.0);
      CompareViaIncome(ratio, i, o, 100.0);
    }
  }

  /** A ratio `r` with `r * i == 100 * o` compares with `y` as `100 * o` compares with `y * i`. */
  lemma CompareViaIncome(r: real, i: real, o: real, y: real)
    requires i > 0.0 && r * i == 100.0 * o
    ensures r > y <==> 100.0 * o > y * i
    ensures r >= y <==> 100.0 * o >= y * i
  {
    ScaleCompare(r, y, i);
  }

  /** With positive income the ratio times the income is a hundred times the expense. */
  lemma RatioTimesIncome(totalIn: int, totalOut: int)
    requires totalIn > 0
    ensures SpendRatio(totalIn, totalOut) * totalIn as real == 100.0 * totalOut as real
  {
    var i, o := totalIn as real, totalOut as real;
    var q := o / i;
    assert q * i == o;
    assert (q * 100.0) * i == (q * i) * 100.0;
  }

  lemma ScaleCompare(x: real, y: real, i: real)
    requires i > 0.0
    ensures x > y <==> x * i > y * i
    ensures x >= y <==> x * i >= y * i
  {
    assert x * i - y * i == (x - y) * i;
    if x > y {
      assert (x - y) * i > 0.0;
    } else if x < y {
      assert (y - x) * i > 0.0;
    }
  }

  // ---------------------------------------------------------------------------
  // export_csv
  // ---------------------------------------------------------------------------

  const ExportHeader: seq<string> := ["ID", "Tanggal", "Jenis", "Kategori", "Deskripsi", "Nominal"]

  /** `str(row[5]).replace("Rp ", "").replace(",", "")`. */
  function CleanAmount(s: string): (r: string)
    ensures ',' !in r && |r| <= |s|
  {
    RemoveAll(RemoveAll(s, "Rp "), ",")
  }

  /** One CSV record: the table line with its amount cleaned. */
  function ExportRow(t: TableRow): seq<string>
  {
    [IntToString(t.id), t.date, t.kindText, t.category, t.description, CleanAmount(t.amount)]
  }

  datatype ExportOutcome = NothingToExport | Cancelled | Written(path: string, records: seq<seq<string>>)

  /**
   * `export_csv` up to the file write: nothing for an empty table, nothing
   * when the save dialog returns no path, otherwise the header and one record
   * per table line, in order.
   */
  function ExportTable(table: seq<TableRow>, path: string): (out: ExportOutcome)
    ensures out.NothingToExport? <==> table == []
    ensures out.Cancelled? <==> table != [] && path == ""
    ensures out.Written? ==>
      && out.path == path && |out.records| == |table| + 1 && out.records[0] == ExportHeader
      && forall i :: 0 <= i < |table| ==> out.records[i + 1] == ExportRow(table[i])
  {
    if table == [] then NothingToExport
    else if path == "" then Cancelled
    else Written(path, [ExportHeader] + seq(|table|, i requires 0 <= i < |table| => ExportRow(table[i])))
  }

  /** Cleaning a displayed amount gives back the plain decimal of the stored amount. */
  lemma CleanShowAmount(n: int)
    ensures CleanAmount(ShowAmount(n)) == IntToString(n)
    ensures ParseInt(CleanAmount(ShowAmount(n))) == Some(n)
  {
    var f := FormatInt(n, ',');
    var s := ShowAmount(n);
    assert s[..3] == "Rp " && s[3..] == f;
    assert RemoveAll(s, "Rp ") == RemoveAll(f, "Rp ");
    FormatIntChars(n, ',');
    RemoveAllMissing(f, "Rp ");
    RemoveAllSingle(f, ',');
    UngroupFormatInt(n, ',');
    ParseIntToString(n);
  }

  /** The exported record of a stored row: every column as shown, the amount as a bare number. */
  lemma ExportOfRow(r: Row)
    ensures ExportRow(ToTableRow(r)) ==
      [IntToString(r.id), Prefix(r.timestamp, 10), KindLabel(r.kind), r.category, r.description,
       IntToString(r.amount)]
  {
    CleanShowAmount(r.amount);
  }

  /**
   * Exporting the table built from stored rows yields the header and, per row
   * in order, its id, date, kind label, category, description and a bare
   * amount that parses back to the stored amount.
   */
  lemma ExportRecordsOfRows(rows: seq<Row>, path: string)
    requires rows != [] && path != ""
    ensures var out := ExportTable(seq(|rows|, i requires 0 <= i < |rows| => ToTableRow(rows[i])), path);
      && out.Written? && out.path == path
      && |out.records| == |rows| + 1 && out.records[0] == ExportHeader
      && forall i :: 0 <= i < |rows| ==>
           && out.records[i + 1] == [IntToString(rows[i].id), Prefix(rows[i].timestamp, 10),
                                     KindLabel(rows[i].kind), rows[i].category, rows[i].description,
                                     IntToString(rows[i].amount)]
           && ParseInt(out.records[i + 1][5]) == Some(rows[i].amount)
  {
    var table := seq(|rows|, i requires 0 <= i < |rows| => ToTableRow(rows[i]));
    var records := ExportTable(table, path).records;
    forall i | 0 <= i < |rows|
      ensures records[i + 1] == ExportRow(ToTableRow(rows[i]))
      ensures ParseInt(IntToString(rows[i].amount)) == Some(rows[i].amount)
    {
      ParseIntToString(rows[i].amount);
    }
    forall i | 0 <= i < |rows|
      ensures ExportRow(ToTableRow(rows[i])) ==
        [IntToString(rows[i].id), Prefix(rows[i].timestamp, 10), KindLabel(rows[i].kind),
         rows[i].category, rows[i].description, IntToString(rows[i].amount)]
    {
      ExportOfRow(rows[i]);
    }
  }

  /** What the dashboard shows: the table, the balance label and the two totals behind the ratio. */
  datatype Screen = Screen(table: seq<TableRow>, balance: int, totalIn: int, totalOut: int)

  /** `s` is what `refresh_data` displays for `rows`: their totals, the balance and one table line per row. */
  predicate Displays(rows: seq<Row>, s: Screen)
  {
    && s.totalIn == KindTotal(rows, true) && s.totalOut == KindTotal(rows, false)
    && s.balance == s.totalIn - s.totalOut
    && |s.table| == |rows| && forall i :: 0 <= i < |rows| ==> s.table[i] == ToTableRow(rows[i])
  }

  // ---------------------------------------------------------------------------
  // Dashboard
  // ---------------------------------------------------------------------------

  datatype SubmitOutcome = Refused(error: SubmitError) | Saved(message: string)

  datatype DeleteOutcome = NothingSelected | Declined | Deleted

  class Dashboard {
    const db: Database
    const username: string
    /** The description, amount, kind and category widgets. */
    var description: string
    var amountText: string
    var kind: string
    var category: string
    /** What `refresh_data` last displayed. */
    var screen: Screen

    ghost predicate Valid()
      reads this, db
    {
      db.Valid()
    }

    /** The display matches the user's rows in the store. */
    ghost predicate InSync()
      reads this, db
    {
      Displays(Listing(db.rows, username), screen)
    }

    function Ratio(): real
      reads this
    {
      SpendRatio(screen.totalIn, screen.totalOut)
    }

    constructor (db: Database, username: string)
      requires db.Valid()
      ensures Valid() && InSync()
      ensures this.db == db && this.username == username
      ensures description == "" && amountText == ""
      ensures kind == ExpenseKind && category == "\U{1F354} Makanan"
    {
      this.db := db;
      this.username := username;
      description, amountText := "", "";
      kind, category := ExpenseKind, "\U{1F354} Makanan";
      screen := Screen([], 0, 0, 0);
      new;
      Refresh();
    }

    /** `refresh_data`: reload the user's rows and recompute the display. */
    method Refresh()
      requires Valid()
      modifies this`screen
      ensures Valid() && InSync()
      ensures description == old(description) && amountText == old(amountText)
      ensures kind == old(kind) && category == old(category)
    {
      var rows := Listing(db.rows, username);
      var b, i, o, t := Tally(rows);
      screen := Screen(t, b, i, o);
      assert rows == Listing(db.rows, username);
    }

    /** The key-release handler of the amount field. */
    method OnAmountKeyRelease()
      modifies this`amountText
      ensures amountText == FormatTyping(old(amountText))
    {
      amountText := FormatTyping(amountText);
    }

    /**
     * `simpan_transaksi`: a rejected entry changes nothing; an accepted one
     * adds exactly one row with the entered kind, category and description and
     * the parsed amount, clears the two text fields and refreshes the display.
     */
    method Submit(now: string) returns (outcome: SubmitOutcome)
      requires Valid()
      modifies this, db
      ensures Valid()
      ensures Validate(old(description), old(amountText)).Rejected? ==>
        outcome == Refused(Validate(old(description), old(amountText)).error)
        && unchanged(this) && unchanged(db)
      ensures Validate(old(description), old(amountText)).Accepted? ==>
        var n := Validate(old(description), old(amountText)).amount;
        && db.rows == old(db.rows) + [Row(old(db.lastId) + 1, username, old(kind), old(category), old(description), n, now)]
        && db.users == old(db.users) && db.lastId == old(db.lastId) + 1
        && description == "" && amountText == "" && kind == old(kind) && category == old(category)
        && InSync()
        && outcome == Saved(SuccessMessage(VariantOf(old(kind)), n))
    {
      var checked := Validate(description, amountText);
      match checked
      case Rejected(e) =>
        outcome := Refused(e);
      case Accepted(n) =>
        Record(n, now);
        outcome := Saved(SuccessMessage(VariantOf(kind), n));
    }

    /** The accepted path of `simpan_transaksi`: store the row, clear the text fields, refresh. */
    method Record(amount: int, now: string)
      requires Valid()
      modifies this, db
      ensures Valid() && InSync()
      ensures db.rows == old(db.rows) + [Row(old(db.lastId) + 1, username, old(kind), old(category), old(description), amount, now)]
      ensures db.users == old(db.users) && db.lastId == old(db.lastId) + 1
      ensures description == "" && amountText == "" && kind == old(kind) && category == old(category)
    {
      ghost var row := Row(db.lastId + 1, username, kind, category, description, amount, now);
      var _ := db.Add(username, kind, category, description, amount, now);
      assert db.rows == old(db.rows) + [row];
      description, amountText := "", "";
      Refresh();
    }

    /**
     * `hapus_data`: with a selection and the user's confirmation, deletes the
     * rows with the selected ids, whoever owns them, and refreshes the display.
     */
    method DeleteSelected(selection: seq<int>, confirmed: bool) returns (outcome: DeleteOutcome)
      requires Valid()
      modifies this, db
      ensures Valid()
      ensures selection == [] ==> outcome == NothingSelected && unchanged(this) && unchanged(db)
      ensures selection != [] && !confirmed ==> outcome == Declined && unchanged(this) && unchanged(db)
      ensures selection != [] && confirmed ==>
        && outcome == Deleted
        && db.rows == WithoutIds(old(db.rows), selection)
        && db.users == old(db.users) && db.lastId == old(db.lastId)
        && description == old(description) && amountText == old(amountText)
        && kind == old(kind) && category == old(category)
        && InSync()
    {
      if selection == [] {
        return NothingSelected;
      }
      if !confirmed {
        return Declined;
      }
      db.DeleteAll(selection);
      Refresh();
      outcome := Deleted;
    }

    /** `export_csv` for the table on screen and the path the save dialog returned. */
    function Export(path: string): (out: ExportOutcome)
      reads this
      ensures out.NothingToExport? <==> screen.table == []
      ensures out.Cancelled? <==> screen.table != [] && path == ""
      ensures out.Written? ==>
        && out.path == path && |out.records| == |screen.table| + 1 && out.records[0] == ExportHeader
        && forall i :: 0 <= i < |screen.table| ==> out.records[i + 1] == ExportRow(screen.table[i])
    {
      ExportTable(screen.table, path)
    }
  }
}
