// The admin dashboard: counts by status, volume in paise, and a seven-day trend.
module Dashboard {
  import opened StatusMaps
  import opened Ledger
  import opened LedgerInvariants

  // Times are microseconds since the epoch, in UTC.
  const DAY := 86_400_000_000

  datatype Day = Day(date: int, volume: int, orders: nat)

  datatype Metrics = Metrics(total: nat, completed: nat, pending: nat, failed: nat, volume: int)

  function CountWhere(rows: seq<Order>, p: Order -> bool): nat {
    if rows == [] then 0
    else
      var n := |rows| - 1;
      CountWhere(rows[..n], p) + if p(rows[n]) then 1 else 0
  }

  function SumWhere(rows: seq<Order>, p: Order -> bool): int {
    if rows == [] then 0
    else
      var n := |rows| - 1;
      SumWhere(rows[..n], p) + if p(rows[n]) then rows[n].amount else 0
  }

  // The positions of the rows that have one of two statuses.
  ghost function WithStatus(rows: seq<Order>, a: Status, b: Status): set<int> {
    set i | 0 <= i < |rows| && (rows[i].status == a || rows[i].status == b)
  }

  function HasStatus(a: Status, b: Status): Order -> bool {
    (o: Order) => o.status == a || o.status == b
  }

  function CreatedIn(from: int, until: int): Order -> bool {
    (o: Order) => from <= o.createdAt < until
  }

  function PaidIn(from: int, until: int): Order -> bool {
    (o: Order) => o.status == Completed && from <= o.createdAt < until
  }

  function CountIn(rows: seq<Order>, from: int, until: int): nat {
    CountWhere(rows, CreatedIn(from, until))
  }

  function VolumeIn(rows: seq<Order>, from: int, until: int): int {
    SumWhere(rows, PaidIn(from, until))
  }

  function Midnight(d: int): int {
    d * DAY
  }

  // n consecutive days, by day number.
  function Days(rows: seq<Order>, first: int, n: nat): seq<Day> {
    if n == 0 then []
    else
      var d := first + n - 1;
      Days(rows, first, n - 1) +
      [Day(d, VolumeIn(rows, Midnight(d), Midnight(d) + DAY), CountIn(rows, Midnight(d), Midnight(d) + DAY))]
  }

  ghost function Where(rows: seq<Order>, n: nat, p: Order -> bool): set<int>
    requires n <= |rows|
  {
    set i | 0 <= i < n && p(rows[i])
  }

  lemma {:induction false} CountIsSize(rows: seq<Order>, n: nat, p: Order -> bool)
    requires n <= |rows|
    ensures CountWhere(rows[..n], p) == |Where(rows, n, p)|
    decreases n
  {
    if n == 0 {
      assert Where(rows, 0, p) == {};
    } else {
      CountIsSize(rows, n - 1, p);
      assert Where(rows, n, p) == Where(rows, n - 1, p) + if p(rows[n - 1]) then {n - 1} else {};
      assert rows[..n][..n - 1] == rows[..n - 1];
    }
  }

  lemma StatusCount(rows: seq<Order>, a: Status, b: Status)
    ensures CountWhere(rows, HasStatus(a, b)) == |WithStatus(rows, a, b)|
  {
    assert rows[..|rows|] == rows;
    CountIsSize(rows, |rows|, HasStatus(a, b));
    assert Where(rows, |rows|, HasStatus(a, b)) == WithStatus(rows, a, b);
  }

  method GetStats(rows: seq<Order>, now: int) returns (m: Metrics, days: seq<Day>)
    ensures m.total == |rows|
    ensures m.completed == |WithStatus(rows, Completed, Completed)|
    ensures m.pending == |WithStatus(rows, Created, Pending)|
    ensures m.failed == |WithStatus(rows, Failed, Expired)|
    ensures m.volume == SumWhere(rows, HasStatus(Completed, Completed))
    ensures days == Days(rows, now / DAY - 6, 7)
  {
    m := Metrics(|rows|, CountWhere(rows, HasStatus(Completed, Completed)),
                 CountWhere(rows, HasStatus(Created, Pending)), CountWhere(rows, HasStatus(Failed, Expired)),
                 SumWhere(rows, HasStatus(Completed, Completed)));
    StatusCount(rows, Completed, Completed);
    StatusCount(rows, Created, Pending);
    StatusCount(rows, Failed, Expired);
    days := [];
    for i := 7 downto 0
      invariant days == Days(rows, now / DAY - 6, 7 - i)
    {
      var date := (now - i * DAY) / DAY;
      var start := Midnight(date);
      var end := start + DAY;
      var volume := VolumeIn(rows, start, end);
      var orders := CountIn(rows, start, end);
      days := days + [Day(date, volume, orders)];
    }
  }

  // ---------- What the figures count ----------

  // A volume adds up over any division of the rows.
  lemma {:induction false} SumConcat(a: seq<Order>, b: seq<Order>, p: Order -> bool)
    ensures SumWhere(a + b, p) == SumWhere(a, p) + SumWhere(b, p)
    decreases |b|
  {
    if b == [] {
      assert a + b == a;
    } else {
      var n := |b| - 1;
      assert (a + b)[..|a| + n] == a + b[..n];
      SumConcat(a, b[..n], p);
    }
  }

  // It lies between the smallest and the largest amount times the number of rows it is about.
  lemma {:induction false} SumBetween(rows: seq<Order>, n: nat, p: Order -> bool, lo: int, hi: int)
    requires n <= |rows| && forall i :: 0 <= i < n && p(rows[i]) ==> lo <= rows[i].amount <= hi
    ensures lo * |Where(rows, n, p)| <= SumWhere(rows[..n], p) <= hi * |Where(rows, n, p)|
    decreases n
  {
    if n == 0 {
      assert Where(rows, 0, p) == {};
    } else {
      SumBetween(rows, n - 1, p, lo, hi);
      var before := Where(rows, n - 1, p);
      assert Where(rows, n, p) == before + if p(rows[n - 1]) then {n - 1} else {};
      assert rows[..n][..n - 1] == rows[..n - 1];
      OneMore(lo, |before|);
      OneMore(hi, |before|);
    }
  }

  lemma OneMore(x: int, n: int)
    ensures x * (n + 1) == x * n + x
  {
  }

  ghost function CreatedRows(rows: seq<Order>, from: int, until: int): set<int> {
    set i | 0 <= i < |rows| && from <= rows[i].createdAt && rows[i].createdAt < until
  }

  ghost function PaidRows(rows: seq<Order>, from: int, until: int): set<int> {
    set i | 0 <= i < |rows| && from <= rows[i].createdAt && rows[i].createdAt < until && rows[i].status == Completed
  }

  // A day counts the orders created from its midnight on and before the next, and its volume is that of the
  // COMPLETED ones among them: with SumConcat, the bounds fix it row by row.
  lemma DayExact(rows: seq<Order>, first: int, n: nat, k: nat, lo: int, hi: int)
    requires k < n && forall i :: i in PaidRows(rows, Midnight(first + k), Midnight(first + k) + DAY) ==>
               lo <= rows[i].amount <= hi
    ensures |Days(rows, first, n)| == n && Days(rows, first, n)[k].date == first + k
    ensures var start := (first + k) * 24 * 60 * 60 * 1_000_000;
            var until := start + 24 * 60 * 60 * 1_000_000;
            var day := Days(rows, first, n)[k];
            && day.orders == |CreatedRows(rows, start, until)|
            && lo * |PaidRows(rows, start, until)| <= day.volume <= hi * |PaidRows(rows, start, until)|
    decreases n
  {
    DaysLength(rows, first, n);
    if k < n - 1 {
      DayExact(rows, first, n - 1, k, lo, hi);
    } else {
      var start := Midnight(first + k);
      assert rows[..|rows|] == rows;
      CountIsSize(rows, |rows|, CreatedIn(start, start + DAY));
      assert Where(rows, |rows|, CreatedIn(start, start + DAY)) == CreatedRows(rows, start, start + DAY);
      assert Where(rows, |rows|, PaidIn(start, start + DAY)) == PaidRows(rows, start, start + DAY);
      SumBetween(rows, |rows|, PaidIn(start, start + DAY), lo, hi);
    }
  }

  // The all-time volume is that of the COMPLETED orders.
  lemma VolumeExact(rows: seq<Order>, lo: int, hi: int)
    requires forall i :: i in WithStatus(rows, Completed, Completed) ==> lo <= rows[i].amount <= hi
    ensures var n := |WithStatus(rows, Completed, Completed)|;
            lo * n <= SumWhere(rows, HasStatus(Completed, Completed)) <= hi * n
  {
    assert rows[..|rows|] == rows;
    assert Where(rows, |rows|, HasStatus(Completed, Completed)) == WithStatus(rows, Completed, Completed);
    SumBetween(rows, |rows|, HasStatus(Completed, Completed), lo, hi);
  }

  // ---------- The week ----------

  function TotalOrders(days: seq<Day>): nat {
    if days == [] then 0 else TotalOrders(days[..|days| - 1]) + days[|days| - 1].orders
  }

  function TotalVolume(days: seq<Day>): int {
    if days == [] then 0 else TotalVolume(days[..|days| - 1]) + days[|days| - 1].volume
  }

  lemma {:induction false} Split(rows: seq<Order>, a: int, b: int, c: int)
    requires a <= b <= c
    ensures CountIn(rows, a, c) == CountIn(rows, a, b) + CountIn(rows, b, c)
    ensures VolumeIn(rows, a, c) == VolumeIn(rows, a, b) + VolumeIn(rows, b, c)
  {
    if rows == [] {
    } else {
      Split(rows[..|rows| - 1], a, b, c);
    }
  }

  lemma {:induction false} Nothing(rows: seq<Order>, a: int)
    ensures CountIn(rows, a, a) == 0 && VolumeIn(rows, a, a) == 0
  {
    if rows == [] {
    } else {
      Nothing(rows[..|rows| - 1], a);
    }
  }

  lemma OneMoreDay(rows: seq<Order>, first: int, n: nat)
    ensures var d := first + n;
            && TotalOrders(Days(rows, first, n + 1)) ==
               TotalOrders(Days(rows, first, n)) + CountIn(rows, Midnight(d), Midnight(d) + DAY)
            && TotalVolume(Days(rows, first, n + 1)) ==
               TotalVolume(Days(rows, first, n)) + VolumeIn(rows, Midnight(d), Midnight(d) + DAY)
  {
    hide CountIn, VolumeIn;
    DaysLength(rows, first, n);
    assert Days(rows, first, n + 1)[..n] == Days(rows, first, n);
  }

  lemma NoDays(rows: seq<Order>, first: int)
    ensures TotalOrders(Days(rows, first, 0)) == CountIn(rows, Midnight(first), Midnight(first))
    ensures TotalVolume(Days(rows, first, 0)) == VolumeIn(rows, Midnight(first), Midnight(first))
  {
    Nothing(rows, Midnight(first));
  }

  lemma Tomorrow(first: int, n: nat)
    ensures Midnight(first) <= Midnight(first + n) && Midnight(first + n + 1) == Midnight(first + n) + DAY
  {
  }

  // The daily windows tile the range without gap or overlap: every order in it is counted on exactly one day.
  lemma {:induction false} DaysTile(rows: seq<Order>, first: int, n: nat)
    ensures TotalOrders(Days(rows, first, n)) == CountIn(rows, Midnight(first), Midnight(first + n))
    ensures TotalVolume(Days(rows, first, n)) == VolumeIn(rows, Midnight(first), Midnight(first + n))
    decreases n
  {
    hide CountIn, VolumeIn, Days, TotalOrders, TotalVolume, Midnight;
    if n == 0 {
      NoDays(rows, first);
    } else {
      var d := first + n - 1;
      Tomorrow(first, n - 1);
      OneMoreDay(rows, first, n - 1);
      DaysTile(rows, first, n - 1);
      Split(rows, Midnight(first), Midnight(d), Midnight(d) + DAY);
    }
  }

  lemma {:induction false} DaysLength(rows: seq<Order>, first: int, n: nat)
    ensures |Days(rows, first, n)| == n
    decreases n
  {
    if n == 0 {
    } else {
      DaysLength(rows, first, n - 1);
    }
  }

  lemma {:induction false} VolumeBound(rows: seq<Order>, a: int, b: int)
    requires forall o :: o in rows ==> o.amount > 0
    ensures 0 <= VolumeIn(rows, a, b) <= SumWhere(rows, HasStatus(Completed, Completed))
  {
    if rows == [] {
    } else {
      assert rows[|rows| - 1] in rows;
      VolumeBound(rows[..|rows| - 1], a, b);
    }
  }

  lemma {:induction false} Partition(rows: seq<Order>)
    requires forall o :: o in rows ==> Canonical(o.status)
    ensures CountWhere(rows, HasStatus(Completed, Completed)) + CountWhere(rows, HasStatus(Created, Pending))
            + CountWhere(rows, HasStatus(Failed, Expired)) == |rows|
  {
    if rows == [] {
    } else {
      assert rows[|rows| - 1] in rows;
      Partition(rows[..|rows| - 1]);
    }
  }

  // ---------- Main result ----------

  // The rows of a table scan: each order of the store once, in any order.
  ghost predicate Scan(rows: seq<Order>, ids: seq<OrderId>, s: Store) {
    && |rows| == |ids|
    && (forall i, j :: 0 <= i < j < |ids| ==> ids[i] != ids[j])
    && (forall i :: 0 <= i < |ids| ==> ids[i] in s.orders && rows[i] == s.orders[ids[i]])
    && (forall id :: id in s.orders ==> id in ids)
  }

  lemma {:induction false} DistinctSize(ids: seq<OrderId>)
    requires forall i, j :: 0 <= i < j < |ids| ==> ids[i] != ids[j]
    ensures |set id | id in ids| == |ids|
  {
    if ids == [] {
    } else {
      var n := |ids| - 1;
      DistinctSize(ids[..n]);
      assert (set id | id in ids) == (set id | id in ids[..n]) + {ids[n]};
    }
  }

  lemma ScanSize(s: Store, rows: seq<Order>, ids: seq<OrderId>)
    requires Scan(rows, ids, s)
    ensures |rows| == |s.orders|
  {
    DistinctSize(ids);
    assert (set id | id in ids) == s.orders.Keys;
  }

  lemma ScanRows(s: Store, rows: seq<Order>, ids: seq<OrderId>)
    requires RowsOk(s.tenants, s.orders) && Scan(rows, ids, s)
    ensures forall o :: o in rows ==> o.amount > 0 && Canonical(o.status)
  {
    forall o | o in rows
      ensures o.amount > 0 && Canonical(o.status)
    {
      var i :| 0 <= i < |rows| && rows[i] == o;
      assert RowOk(s.tenants, s.orders[ids[i]]);
    }
  }

  // On every reachable store: the three status counts partition the orders, the week's days add up to the
  // orders and the volume of [start of day - 6, end of today), and no window outgrows the all-time volume.
  lemma DashboardAddsUp(s: Store, rows: seq<Order>, ids: seq<OrderId>, now: int)
    requires Reachable(s) && Scan(rows, ids, s)
    ensures |rows| == |s.orders|
    ensures CountWhere(rows, HasStatus(Completed, Completed)) + CountWhere(rows, HasStatus(Created, Pending))
            + CountWhere(rows, HasStatus(Failed, Expired)) == |s.orders|
    ensures var week := Days(rows, now / DAY - 6, 7);
            var from, until := Midnight(now / DAY - 6), Midnight(now / DAY + 1);
            && from <= now < until
            && TotalOrders(week) == CountIn(rows, from, until)
            && TotalVolume(week) == VolumeIn(rows, from, until)
            && 0 <= TotalVolume(week) <= SumWhere(rows, HasStatus(Completed, Completed))
  {
    hide CountIn, VolumeIn, CountWhere, SumWhere, HasStatus, Days, TotalOrders, TotalVolume;
    hide UniqueKeys, TxnsOk, Agrees, LogsOk, Reachable, RowsOk, Scan;
    ReachableInv(s);
    ScanSize(s, rows, ids);
    ScanRows(s, rows, ids);
    Partition(rows);
    DaysTile(rows, now / DAY - 6, 7);
    VolumeBound(rows, Midnight(now / DAY - 6), Midnight(now / DAY + 1));
  }
}
