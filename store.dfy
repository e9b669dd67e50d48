/**
 * The persistence store (`DatabaseManager`, wallet.py lines 36-107) with its two
 * SQLite tables replaced by values: `users` keyed by the `username TEXT PRIMARY
 * KEY` column, and the `transaksi` rows in insertion order together with the
 * AUTOINCREMENT counter. Each query is a function on those values; each
 * statement that changes a table is a method of `Database`.
 */
module Store {
  import opened Wrappers
  import opened Text

  /** The `jenis` value that marks income; every other value counts as expense. */
  const IncomeKind: string := "Pemasukan"
  const ExpenseKind: string := "Pengeluaran"

  predicate IsIncome(kind: string) { kind == IncomeKind }

  /** One `transaksi` row: (id, username, jenis, kategori, deskripsi, nominal, tanggal). */
  datatype Row = Row(id: int, username: string, kind: string, category: string,
                     description: string, amount: int, timestamp: string)

  // ---------------------------------------------------------------------------
  // Timestamps "YYYY-MM-DD HH:MM:SS" and the month keys of strftime('%m', ...)
  // ---------------------------------------------------------------------------

  /** `f"{m:02d}"`, the two-digit key of month `m`. */
  function MonthKey(m: nat): (k: string)
    requires 1 <= m <= 12
    ensures |k| == 2 && AllDigits(k)
  {
    if m < 10 then ['0', DigitChar(m)] else ['1', DigitChar(m - 10)]
  }

  /** The month a two-digit key names, if any. */
  function MonthOfKey(k: string): (m: Option<nat>)
    ensures m.Some? ==> 1 <= m.value <= 12 && MonthKey(m.value) == k
  {
    if |k| == 2 && k[0] == '0' && '1' <= k[1] <= '9' then Some(DigitValue(k[1]))
    else if |k| == 2 && k[0] == '1' && '0' <= k[1] <= '2' then Some(10 + DigitValue(k[1]))
    else None
  }

  lemma MonthKeyRoundTrip(m: nat)
    requires 1 <= m <= 12
    ensures MonthOfKey(MonthKey(m)) == Some(m)
  {
  }

  /** A timestamp from which SQLite's strftime can read a year and a month. */
  predicate Readable(ts: string)
  {
    |ts| >= 10 && AllDigits(ts[..4]) && ts[4] == '-' && MonthOfKey(ts[5..7]).Some?
    && ts[7] == '-' && AllDigits(ts[8..10])
  }

  /** strftime('%Y', ts). */
  function YearField(ts: string): string
    requires Readable(ts)
  {
    ts[..4]
  }

  /** strftime('%m', ts). */
  function MonthField(ts: string): (k: string)
    requires Readable(ts)
    ensures k == ts[5..7] && MonthKey(MonthOfKey(k).value) == k
  {
    ts[5..7]
  }

  // ---------------------------------------------------------------------------
  // users table
  // ---------------------------------------------------------------------------

  /** `SELECT * FROM users WHERE username=? AND password=?` returns a row. */
  predicate Authenticates(users: map<string, string>, username: string, password: string)
  {
    username in users && users[username] == password
  }

  /**
   * A successful registration makes exactly that pair log in, and changes
   * no other user's login.
   */
  lemma LoginAfterRegister(users: map<string, string>, username: string, password: string,
                           other: string, guess: string)
    requires username !in users
    ensures Authenticates(users[username := password], username, guess) <==> guess == password
    ensures other != username ==>
      (Authenticates(users[username := password], other, guess) <==> Authenticates(users, other, guess))
  {
  }

  // ---------------------------------------------------------------------------
  // transaksi table
  // ---------------------------------------------------------------------------

  /** `id INTEGER PRIMARY KEY`: no two rows share an id. */
  predicate IdsUnique(rows: seq<Row>)
  {
    forall i, j :: 0 <= i < j < |rows| ==> rows[i].id != rows[j].id
  }

  /** `... WHERE username=?`, in table order. */
  function OwnedBy(rows: seq<Row>, username: string): (r: seq<Row>)
    ensures forall x :: x in r <==> x in rows && x.username == username
  {
    if rows == [] then []
    else (if rows[0].username == username then [rows[0]] else []) + OwnedBy(rows[1..], username)
  }

  /** Every row is no newer than the one before it (`ORDER BY tanggal DESC`). */
  predicate NewestFirst(rows: seq<Row>)
    decreases |rows|
  {
    |rows| <= 1 || (NotAfter(rows[1].timestamp, rows[0].timestamp) && NewestFirst(rows[1..]))
  }

  /** Inserts `x` into a newest-first sequence, before the first row not newer than it. */
  function InsertByTime(s: seq<Row>, x: Row): (r: seq<Row>)
    ensures multiset(r) == multiset(s) + multiset{x}
    ensures |r| > 0 && (r[0] == x || (|s| > 0 && r[0] == s[0]))
    decreases |s|
  {
    if s == [] then [x]
    else if NotAfter(s[0].timestamp, x.timestamp) then [x] + s
    else
      assert s == [s[0]] + s[1..];
      [s[0]] + InsertByTime(s[1..], x)
  }

  /** Inserting into a newest-first sequence keeps it newest first. */
  lemma {:induction false} InsertKeepsNewestFirst(s: seq<Row>, x: Row)
    requires NewestFirst(s)
    ensures NewestFirst(InsertByTime(s, x))
    decreases |s|
  {
    if s != [] {
      var r := InsertByTime(s, x);
      if NotAfter(s[0].timestamp, x.timestamp) {
        assert r[1..] == s;
      } else {
        var rest := InsertByTime(s[1..], x);
        InsertKeepsNewestFirst(s[1..], x);
        NotAfterTotal(s[0].timestamp, x.timestamp);
        assert r == [s[0]] + rest && r[1..] == rest;
      }
    }
  }

  /** The rows of `rows`, rearranged newest first. */
  function SortNewestFirst(rows: seq<Row>): (r: seq<Row>)
    ensures NewestFirst(r)
    ensures multiset(r) == multiset(rows)
    decreases |rows|
  {
    if rows == [] then []
    else
      var front, last := rows[..|rows| - 1], rows[|rows| - 1];
      assert rows == front + [last];
      var sorted := SortNewestFirst(front);
      InsertKeepsNewestFirst(sorted, last);
      InsertByTime(sorted, last)
  }

  /**
   * `SELECT * FROM transaksi WHERE username=? ORDER BY tanggal DESC`: a
   * rearrangement of exactly that user's rows, newest timestamp first.
   * SQLite leaves the order of equal timestamps open, and so does this contract.
   */
  function Listing(rows: seq<Row>, username: string): (r: seq<Row>)
    ensures multiset(r) == multiset(OwnedBy(rows, username))
    ensures NewestFirst(r)
    ensures forall x :: x in r <==> x in rows && x.username == username
  {
    var r := SortNewestFirst(OwnedBy(rows, username));
    assert forall x :: x in r <==> x in multiset(OwnedBy(rows, username));
    r
  }

  /** Newest-first is transitive: every row is no newer than all rows before it. */
  lemma {:induction false} NewestFirstAllPairs(rows: seq<Row>, i: int, j: int)
    requires NewestFirst(rows) && 0 <= i <= j < |rows|
    ensures NotAfter(rows[j].timestamp, rows[i].timestamp)
    decreases |rows|
  {
    if i == j {
      NotAfterReflexive(rows[i].timestamp);
    } else if i == 0 {
      NewestFirstAllPairs(rows[1..], 0, j - 1);
      NotAfterTransitive(rows[j].timestamp, rows[1].timestamp, rows[0].timestamp);
    } else {
      NewestFirstAllPairs(rows[1..], i - 1, j - 1);
    }
  }

  /** `DELETE FROM transaksi WHERE id=?`: the rows whose id differs, in order. */
  function WithoutId(rows: seq<Row>, id: int): (r: seq<Row>)
    ensures forall x :: x in r <==> x in rows && x.id != id
  {
    if rows == [] then []
    else (if rows[0].id == id then [] else [rows[0]]) + WithoutId(rows[1..], id)
  }

  /** The rows left after deleting each id of `ids` in turn. */
  function WithoutIds(rows: seq<Row>, ids: seq<int>): (r: seq<Row>)
    ensures forall x :: x in r <==> x in rows && x.id !in ids
  {
    if rows == [] then []
    else (if rows[0].id in ids then [] else [rows[0]]) + WithoutIds(rows[1..], ids)
  }

  lemma {:induction false} WithoutNoIds(rows: seq<Row>)
    ensures WithoutIds(rows, []) == rows
    decreases |rows|
  {
    if rows != [] {
      WithoutNoIds(rows[1..]);
      assert rows == [rows[0]] + rows[1..];
    }
  }

  /** Deleting one more id extends the set of deleted ids. */
  lemma {:induction false} WithoutIdsStep(rows: seq<Row>, ids: seq<int>, id: int)
    ensures WithoutId(WithoutIds(rows, ids), id) == WithoutIds(rows, ids + [id])
    decreases |rows|
  {
    if rows != [] {
      WithoutIdsStep(rows[1..], ids, id);
      var head := if rows[0].id in ids then [] else [rows[0]];
      WithoutIdAppend(head, WithoutIds(rows[1..], ids), id);
    }
  }

  lemma {:induction false} WithoutIdAppend(a: seq<Row>, b: seq<Row>, id: int)
    ensures WithoutId(a + b, id) == WithoutId(a, id) + WithoutId(b, id)
    decreases |a|
  {
    if a == [] {
      assert a + b == b;
    } else {
      assert (a + b)[1..] == a[1..] + b;
      WithoutIdAppend(a[1..], b, id);
    }
  }

  /** A sub-sequence of rows with unique ids keeps its ids unique. */
  lemma {:induction false} WithoutIdKeepsUnique(rows: seq<Row>, id: int)
    requires IdsUnique(rows)
    ensures IdsUnique(WithoutId(rows, id))
    decreases |rows|
  {
    if rows != [] {
      WithoutIdKeepsUnique(rows[1..], id);
      var rest := WithoutId(rows[1..], id);
      forall r | r in rest ensures r.id != rows[0].id {
        var k :| 0 <= k < |rows[1..]| && rows[1..][k] == r;
        assert rows[k + 1] == r;
      }
    }
  }

  /** With unique ids, deleting an id that is present removes exactly one row. */
  lemma {:induction false} DeleteRemovesOne(rows: seq<Row>, id: int)
    requires IdsUnique(rows)
    ensures |WithoutId(rows, id)| == if exists r :: r in rows && r.id == id then |rows| - 1 else |rows|
    decreases |rows|
  {
    if rows != [] {
      DeleteRemovesOne(rows[1..], id);
      if rows[0].id == id {
        forall r | r in rows[1..] ensures r.id != id {
          var k :| 0 <= k < |rows[1..]| && rows[1..][k] == r;
          assert rows[k + 1] == r;
        }
      } else {
        assert forall r :: r in rows && r.id == id ==> r in rows[1..];
      }
    }
  }

  /**
   * Deletion ignores the owner: after deleting `id`, no user's listing shows
   * that row, and every user's listing otherwise keeps all its rows.
   */
  lemma DeleteHidesFromEveryListing(rows: seq<Row>, id: int, username: string)
    ensures forall x :: x in Listing(WithoutId(rows, id), username) <==>
                          x in Listing(rows, username) && x.id != id
  {
  }

  // ---------------------------------------------------------------------------
  // Yearly summary: strftime('%m', tanggal), jenis, SUM(nominal) ... GROUP BY bulan, jenis
  // ---------------------------------------------------------------------------

  /** One result row of the yearly query: (bulan, jenis, SUM(nominal)). */
  datatype Agg = Agg(month: string, kind: string, total: int)

  predicate InGroup(r: Row, month: string, kind: string)
  {
    Readable(r.timestamp) && MonthField(r.timestamp) == month && r.kind == kind
  }

  /** SUM(nominal) over the rows of one (month, kind) group; 0 for an empty group. */
  function SumOf(rows: seq<Row>, month: string, kind: string): int
    decreases |rows|
  {
    if rows == [] then 0
    else
      var last := rows[|rows| - 1];
      SumOf(rows[..|rows| - 1], month, kind) + (if InGroup(last, month, kind) then last.amount else 0)
  }

  lemma {:induction false} SumOfEmptyGroup(rows: seq<Row>, month: string, kind: string)
    requires forall r :: r in rows ==> !InGroup(r, month, kind)
    ensures SumOf(rows, month, kind) == 0
    decreases |rows|
  {
    if rows != [] {
      assert forall r :: r in rows[..|rows| - 1] ==> r in rows;
      SumOfEmptyGroup(rows[..|rows| - 1], month, kind);
    }
  }

  /** No two result rows share a (month, kind) key. */
  predicate DistinctKeys(gs: seq<Agg>)
  {
    forall i, j :: 0 <= i < j < |gs| ==> gs[i].month != gs[j].month || gs[i].kind != gs[j].kind
  }

  /**
   * `gs` is a GROUP BY of `rows` on (month, kind) with SUM(amount): one result
   * row per non-empty group and no other, each holding its group's sum.
   */
  predicate Summarises(gs: seq<Agg>, rows: seq<Row>)
  {
    && DistinctKeys(gs)
    && (forall g :: g in gs ==> g.total == SumOf(rows, g.month, g.kind))
    && (forall g :: g in gs ==> exists r :: r in rows && InGroup(r, g.month, g.kind))
    && (forall r :: r in rows && Readable(r.timestamp) ==>
          exists g :: g in gs && InGroup(r, g.month, g.kind))
  }

  /** The position of the (month, kind) group in `gs`, or -1. */
  function FindGroup(gs: seq<Agg>, month: string, kind: string): (i: int)
    ensures -1 <= i < |gs|
    ensures i >= 0 ==> gs[i].month == month && gs[i].kind == kind
    ensures i < 0 ==> forall g :: g in gs ==> g.month != month || g.kind != kind
    decreases |gs|
  {
    if gs == [] then -1
    else if gs[|gs| - 1].month == month && gs[|gs| - 1].kind == kind then |gs| - 1
    else FindGroup(gs[..|gs| - 1], month, kind)
  }

  /** Adds one row's amount to its group, opening the group if it is new. */
  function AddToGroup(gs: seq<Agg>, month: string, kind: string, amount: int): seq<Agg>
  {
    var i := FindGroup(gs, month, kind);
    if i >= 0 then gs[i := Agg(month, kind, gs[i].total + amount)]
    else gs + [Agg(month, kind, amount)]
  }

  lemma AddToGroupTotals(gs: seq<Agg>, front: seq<Row>, last: Row)
    requires Readable(last.timestamp)
    requires DistinctKeys(gs)
    requires forall g :: g in gs ==> g.total == SumOf(front, g.month, g.kind)
    requires forall r :: r in front && Readable(r.timestamp) ==>
               exists g :: g in gs && InGroup(r, g.month, g.kind)
    ensures var gs' := AddToGroup(gs, MonthField(last.timestamp), last.kind, last.amount);
      forall g :: g in gs' ==> g.total == SumOf(front + [last], g.month, g.kind)
  {
    var rows := front + [last];
    var m, k := MonthField(last.timestamp), last.kind;
    var gs' := AddToGroup(gs, m, k, last.amount);
    assert rows[..|rows| - 1] == front;
    var i := FindGroup(gs, m, k);
    forall g | g in gs' ensures g.total == SumOf(rows, g.month, g.kind) {
      var j :| 0 <= j < |gs'| && gs'[j] == g;
      if j < |gs| && j != i {
        assert g == gs[j];
      } else if i < 0 {
        assert forall r :: r in front ==> !InGroup(r, m, k);
        SumOfEmptyGroup(front, m, k);
      }
    }
  }

  lemma AddToGroupWitnesses(gs: seq<Agg>, front: seq<Row>, last: Row)
    requires Readable(last.timestamp)
    requires forall g :: g in gs ==> exists r :: r in front && InGroup(r, g.month, g.kind)
    ensures var gs' := AddToGroup(gs, MonthField(last.timestamp), last.kind, last.amount);
      forall g :: g in gs' ==> exists r :: r in front + [last] && InGroup(r, g.month, g.kind)
  {
    var rows := front + [last];
    var m, k := MonthField(last.timestamp), last.kind;
    var gs' := AddToGroup(gs, m, k, last.amount);
    forall g | g in gs' ensures exists r :: r in rows && InGroup(r, g.month, g.kind) {
      if g.month == m && g.kind == k {
        assert last in rows && InGroup(last, g.month, g.kind);
      } else {
        assert g in gs;
        var r :| r in front && InGroup(r, g.month, g.kind);
        assert r in rows;
      }
    }
  }

  lemma AddToGroupCovers(gs: seq<Agg>, front: seq<Row>, last: Row)
    requires Readable(last.timestamp)
    requires forall r :: r in front && Readable(r.timestamp) ==>
               exists g :: g in gs && InGroup(r, g.month, g.kind)
    ensures var gs' := AddToGroup(gs, MonthField(last.timestamp), last.kind, last.amount);
      forall r :: r in front + [last] && Readable(r.timestamp) ==>
        exists g :: g in gs' && InGroup(r, g.month, g.kind)
  {
    var m, k := MonthField(last.timestamp), last.kind;
    var gs' := AddToGroup(gs, m, k, last.amount);
    var i := FindGroup(gs, m, k);
    forall r | r in front + [last] && Readable(r.timestamp)
      ensures exists g :: g in gs' && InGroup(r, g.month, g.kind)
    {
      if r.kind == k && MonthField(r.timestamp) == m {
        var j := if i >= 0 then i else |gs|;
        assert gs'[j] in gs' && InGroup(r, gs'[j].month, gs'[j].kind);
      } else {
        assert r in front;
        var g :| g in gs && InGroup(r, g.month, g.kind);
        var j :| 0 <= j < |gs| && gs[j] == g;
        assert gs'[j] == g;
      }
    }
  }

  lemma AddToGroupDistinct(gs: seq<Agg>, month: string, kind: string, amount: int)
    requires DistinctKeys(gs)
    ensures DistinctKeys(AddToGroup(gs, month, kind, amount))
  {
  }

  lemma AddToGroupSummarises(gs: seq<Agg>, front: seq<Row>, last: Row)
    requires Readable(last.timestamp)
    requires Summarises(gs, front)
    ensures Summarises(AddToGroup(gs, MonthField(last.timestamp), last.kind, last.amount), front + [last])
  {
    AddToGroupDistinct(gs, MonthField(last.timestamp), last.kind, last.amount);
    AddToGroupTotals(gs, front, last);
    AddToGroupWitnesses(gs, front, last);
    AddToGroupCovers(gs, front, last);
  }

  /** GROUP BY month and kind over readable rows, with the sum of each group. */
  function GroupRows(rows: seq<Row>): (gs: seq<Agg>)
    requires forall r :: r in rows ==> Readable(r.timestamp)
    ensures Summarises(gs, rows)
    decreases |rows|
  {
    if rows == [] then []
    else
      var front, last := rows[..|rows| - 1], rows[|rows| - 1];
      assert rows == front + [last];
      assert forall r :: r in front ==> r in rows;
      var gs := GroupRows(front);
      AddToGroupSummarises(gs, front, last);
      AddToGroup(gs, MonthField(last.timestamp), last.kind, last.amount)
  }

  /** `WHERE strftime('%Y', tanggal) = ? AND username = ?`. */
  function InYear(rows: seq<Row>, username: string, year: string): (r: seq<Row>)
    ensures forall x :: x in r <==>
      x in rows && x.username == username && Readable(x.timestamp) && YearField(x.timestamp) == year
  {
    if rows == [] then []
    else
      var x := rows[0];
      (if x.username == username && Readable(x.timestamp) && YearField(x.timestamp) == year
       then [x] else []) + InYear(rows[1..], username, year)
  }

  /**
   * `ambil_data_tahunan`: one (month, kind, total) row per month and kind in
   * which the user has rows dated in `year`. The order of the result rows is
   * not modelled.
   */
  function YearlySummary(rows: seq<Row>, username: string, year: string): (gs: seq<Agg>)
    ensures Summarises(gs, InYear(rows, username, year))
  {
    GroupRows(InYear(rows, username, year))
  }

  /** A year without rows for the user yields an empty summary. */
  lemma EmptyYear(rows: seq<Row>, username: string, year: string)
    requires forall r :: r in rows && r.username == username && Readable(r.timestamp) ==>
                           YearField(r.timestamp) != year
    ensures YearlySummary(rows, username, year) == []
  {
  }

  // ---------------------------------------------------------------------------
  // DatabaseManager
  // ---------------------------------------------------------------------------

  class Database {
    var users: map<string, string>
    var rows: seq<Row>
    /** The AUTOINCREMENT counter: the largest id ever handed out. */
    var lastId: nat

    ghost predicate Valid()
      reads this
    {
      IdsUnique(rows) && forall i :: 0 <= i < |rows| ==> 1 <= rows[i].id <= lastId
    }

    /** `buat_tabel` on a fresh database file: both tables empty. */
    constructor ()
      ensures Valid() && users == map[] && rows == [] && lastId == 0
    {
      users, rows, lastId := map[], [], 0;
    }

    /** `registrasi_user`: the primary key rejects a username that exists. */
    method Register(username: string, password: string) returns (ok: bool)
      requires Valid()
      modifies this
      ensures Valid()
      ensures ok <==> username !in old(users)
      ensures users == if ok then old(users)[username := password] else old(users)
      ensures rows == old(rows) && lastId == old(lastId)
    {
      if username in users {
        ok := false;
      } else {
        users := users[username := password];
        ok := true;
      }
    }

    /** `cek_login`: an exact match on the (username, password) pair. */
    predicate Login(username: string, password: string)
      reads this
      ensures Login(username, password) <==> username in users && users[username] == password
    {
      Authenticates(users, username, password)
    }

    /**
     * `tambah_data`: appends one row with a fresh id above every id used so
     * far and `now` as its timestamp; nothing about the values is checked.
     */
    method Add(username: string, kind: string, category: string, description: string,
               amount: int, now: string) returns (id: int)
      requires Valid()
      modifies this
      ensures Valid()
      ensures id == old(lastId) + 1 && lastId == id
      ensures forall r :: r in old(rows) ==> r.id < id
      ensures rows == old(rows) + [Row(id, username, kind, category, description, amount, now)]
      ensures users == old(users)
    {
      id := lastId + 1;
      rows := rows + [Row(id, username, kind, category, description, amount, now)];
      lastId := id;
    }

    /** `ambil_semua_data`. */
    function List(username: string): (r: seq<Row>)
      reads this
      ensures multiset(r) == multiset(OwnedBy(rows, username)) && NewestFirst(r)
      ensures forall x :: x in r <==> x in rows && x.username == username
    {
      Listing(rows, username)
    }

    /** `ambil_data_tahunan`. */
    function Yearly(username: string, year: string): (gs: seq<Agg>)
      reads this
      ensures Summarises(gs, InYear(rows, username, year))
    {
      YearlySummary(rows, username, year)
    }

    /** `hapus_data`: removes the row with that id, whoever owns it. */
    method Delete(id: int)
      requires Valid()
      modifies this
      ensures Valid()
      ensures rows == WithoutId(old(rows), id)
      ensures users == old(users) && lastId == old(lastId)
    {
      WithoutIdKeepsUnique(rows, id);
      rows := WithoutId(rows, id);
    }

    /** The deletion loop of the dashboard's `hapus_data`: `hapus_data` once per selected id, in order. */
    method DeleteAll(ids: seq<int>)
      requires Valid()
      modifies this
      ensures Valid()
      ensures rows == WithoutIds(old(rows), ids)
      ensures users == old(users) && lastId == old(lastId)
    {
      WithoutNoIds(rows);
      var k := 0;
      while k < |ids|
        invariant 0 <= k <= |ids|
        invariant Valid()
        invariant rows == WithoutIds(old(rows), ids[..k])
        invariant users == old(users) && lastId == old(lastId)
      {
        WithoutIdsStep(old(rows), ids[..k], ids[k]);
        assert ids[..k + 1] == ids[..k] + [ids[k]];
        Delete(ids[k]);
        k := k + 1;
      }
      assert ids[..k] == ids;
    }
  }
}
