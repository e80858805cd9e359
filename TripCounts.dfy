/** Task A (XmlProcessor.GetPassengerTripCounts): how many trips each
    passenger made on each route.

    The query is modelled stage by stage:
    - Rows: for each passenger in list order, the passenger's payments
      grouped by route, counted, in ascending route order (the group join
      and the inner `from routeGroup in ...`);
    - SortRows: the stable `orderby p.Surname, routeGroup.RouteNumber`;
    - GroupBySurname: `group tc by tc.Surname`, groups in order of first
      appearance;
    - SortGroups: `orderby passengerGroup.Key`;
    - TripCountsDocument: the PassengerTripCounts element. */
module TripCounts {
  import opened Records
  import opened Text
  import opened Xml

  // =====================================================================
  // One passenger's trips, counted per route
  // =====================================================================

  /** The number of payments in `payments` made by passenger `id` on
      `route`. */
  function TripCount(payments: seq<Payment>, id: int, route: int): nat {
    if payments == [] then 0
    else
      var q := payments[|payments| - 1];
      TripCount(payments[..|payments| - 1], id, route) + (if q.passengerId == id && q.route == route then 1 else 0)
  }

  /** The group join's `passengerPayments`: the payments whose PassengerId
      is `id`, in list order. */
  function PaymentsOf(payments: seq<Payment>, id: int): (r: seq<Payment>)
    ensures forall q :: q in r ==> q in payments && q.passengerId == id
  {
    if payments == [] then []
    else
      var q := payments[|payments| - 1];
      PaymentsOf(payments[..|payments| - 1], id) + (if q.passengerId == id then [q] else [])
  }

  /** The number of payments on `route`, whoever made them. */
  function RouteTrips(payments: seq<Payment>, route: int): nat {
    if payments == [] then 0
    else RouteTrips(payments[..|payments| - 1], route) + (if payments[|payments| - 1].route == route then 1 else 0)
  }

  lemma {:induction false} RouteTripsOfPassenger(payments: seq<Payment>, id: int, route: int)
    ensures RouteTrips(PaymentsOf(payments, id), route) == TripCount(payments, id, route)
  {
    if payments != [] {
      var init, q := payments[..|payments| - 1], payments[|payments| - 1];
      RouteTripsOfPassenger(init, id, route);
      var mine := PaymentsOf(init, id);
      if q.passengerId == id {
        assert (mine + [q])[..|mine|] == mine;
      } else {
        assert mine + [] == mine;
      }
    }
  }

  /** A positive trip count is backed by a payment. */
  lemma {:induction false} TripCountWitness(payments: seq<Payment>, id: int, route: int) returns (q: Payment)
    requires TripCount(payments, id, route) > 0
    ensures q in payments && q.passengerId == id && q.route == route
  {
    var init := payments[..|payments| - 1];
    if TripCount(init, id, route) > 0 {
      q := TripCountWitness(init, id, route);
    } else {
      q := payments[|payments| - 1];
    }
  }

  /** Every payment counts towards its own passenger and route. */
  lemma {:induction false} TripCountOfMember(payments: seq<Payment>, q: Payment)
    requires q in payments
    ensures TripCount(payments, q.passengerId, q.route) >= 1
  {
    var init := payments[..|payments| - 1];
    if payments[|payments| - 1] != q {
      assert payments == init + [payments[|payments| - 1]];
      TripCountOfMember(init, q);
    }
  }

  datatype RouteCount = RouteCount(route: int, count: nat)

  predicate Ascending(rcs: seq<RouteCount>) {
    forall i, j :: 0 <= i < j < |rcs| ==> rcs[i].route < rcs[j].route
  }

  predicate Positive(rcs: seq<RouteCount>) {
    forall i :: 0 <= i < |rcs| ==> rcs[i].count >= 1
  }

  /** The count recorded for `route`; 0 when the route is absent. */
  function CountOf(rcs: seq<RouteCount>, route: int): nat {
    if rcs == [] then 0
    else if rcs[0].route == route then rcs[0].count
    else CountOf(rcs[1..], route)
  }

  lemma {:induction false} CountOfBelow(rcs: seq<RouteCount>, route: int)
    requires Ascending(rcs) && (rcs == [] || route < rcs[0].route)
    ensures CountOf(rcs, route) == 0
  {
    if rcs != [] {
      CountOfBelow(rcs[1..], route);
    }
  }

  lemma {:induction false} CountOfAt(rcs: seq<RouteCount>, k: nat)
    requires Ascending(rcs) && k < |rcs|
    ensures CountOf(rcs, rcs[k].route) == rcs[k].count
  {
    if k > 0 {
      CountOfAt(rcs[1..], k - 1);
    }
  }

  lemma {:induction false} CountOfFound(rcs: seq<RouteCount>, route: int) returns (k: nat)
    requires CountOf(rcs, route) > 0
    ensures k < |rcs| && rcs[k].route == route
  {
    if rcs[0].route != route {
      k := CountOfFound(rcs[1..], route);
      k := k + 1;
    } else {
      k := 0;
    }
  }

  /** One more trip on `route`, keeping the routes ascending. */
  function AddTrip(rcs: seq<RouteCount>, route: int): (r: seq<RouteCount>)
    requires Ascending(rcs) && Positive(rcs)
    ensures Ascending(r) && Positive(r) && |r| > 0
    ensures r[0].route == if rcs != [] && rcs[0].route < route then rcs[0].route else route
    ensures forall x :: CountOf(r, x) == CountOf(rcs, x) + (if x == route then 1 else 0)
  {
    if rcs == [] then [RouteCount(route, 1)]
    else if rcs[0].route == route then [RouteCount(route, rcs[0].count + 1)] + rcs[1..]
    else if route < rcs[0].route then
      CountOfBelow(rcs, route);
      [RouteCount(route, 1)] + rcs
    else
      var rest := AddTrip(rcs[1..], route);
      assert forall k :: 0 <= k < |rest| ==> rcs[0].route < rest[k].route by {
        forall k | 0 <= k < |rest| ensures rcs[0].route < rest[k].route {
          if k > 0 {
            assert rest[0].route < rest[k].route;
          }
        }
      }
      [rcs[0]] + rest
  }

  /** `group pp by pp.RouteNumber into g orderby g.Key select (g.Key, g.Count())`
      over one passenger's payments: one entry per route taken, routes
      ascending, each with the number of trips on it. */
  function RouteCounts(payments: seq<Payment>): (r: seq<RouteCount>)
    ensures Ascending(r) && Positive(r)
    ensures forall x :: CountOf(r, x) == RouteTrips(payments, x)
  {
    if payments == [] then []
    else AddTrip(RouteCounts(payments[..|payments| - 1]), payments[|payments| - 1].route)
  }

  /** The entries of a passenger's route counts are exactly the pairs
      (route, trips) with at least one trip. */
  lemma PassengerRouteCounts(payments: seq<Payment>, id: int, rc: RouteCount)
    ensures rc in RouteCounts(PaymentsOf(payments, id))
        <==> rc.count >= 1 && rc.count == TripCount(payments, id, rc.route)
  {
    var r := RouteCounts(PaymentsOf(payments, id));
    RouteTripsOfPassenger(payments, id, rc.route);
    if rc in r {
      var k :| 0 <= k < |r| && r[k] == rc;
      CountOfAt(r, k);
    }
    if rc.count >= 1 && rc.count == TripCount(payments, id, rc.route) {
      var k := CountOfFound(r, rc.route);
      CountOfAt(r, k);
    }
  }

  // =====================================================================
  // Rows: (surname, route, count) for each passenger in list order
  // =====================================================================

  datatype TripRow = TripRow(surname: string, route: int, count: nat)

  function RowOf(surname: string, rc: RouteCount): TripRow {
    TripRow(surname, rc.route, rc.count)
  }

  function CountOfRow(row: TripRow): RouteCount {
    RouteCount(row.route, row.count)
  }

  function Labelled(surname: string, rcs: seq<RouteCount>): (rows: seq<TripRow>)
    ensures |rows| == |rcs|
    ensures forall k :: 0 <= k < |rows| ==> rows[k] == RowOf(surname, rcs[k])
  {
    if rcs == [] then []
    else Labelled(surname, rcs[..|rcs| - 1]) + [RowOf(surname, rcs[|rcs| - 1])]
  }

  /** The Route entries of a run of rows. */
  function RoutesOf(rows: seq<TripRow>): (rcs: seq<RouteCount>)
    ensures |rcs| == |rows|
    ensures forall k :: 0 <= k < |rows| ==> rcs[k] == CountOfRow(rows[k])
  {
    if rows == [] then []
    else RoutesOf(rows[..|rows| - 1]) + [CountOfRow(rows[|rows| - 1])]
  }

  /** The rows one passenger contributes. */
  function PassengerRows(p: Passenger, payments: seq<Payment>): seq<TripRow> {
    Labelled(p.surname, RouteCounts(PaymentsOf(payments, p.id)))
  }

  /** The flattened query before sorting: passengers in list order, each
      followed by its routes. A passenger without payments adds nothing. */
  function Rows(passengers: seq<Passenger>, payments: seq<Payment>): seq<TripRow> {
    if passengers == [] then []
    else Rows(passengers[..|passengers| - 1], payments) + PassengerRows(passengers[|passengers| - 1], payments)
  }

  /** A row comes from some passenger's route counts. */
  lemma {:induction false} RowSource(passengers: seq<Passenger>, payments: seq<Payment>, row: TripRow) returns (p: Passenger)
    requires row in Rows(passengers, payments)
    ensures p in passengers && p.surname == row.surname
    ensures CountOfRow(row) in RouteCounts(PaymentsOf(payments, p.id))
  {
    var init, last := passengers[..|passengers| - 1], passengers[|passengers| - 1];
    assert passengers == init + [last];
    if row in Rows(init, payments) {
      p := RowSource(init, payments, row);
    } else {
      var mine := PassengerRows(last, payments);
      var k :| 0 <= k < |mine| && mine[k] == row;
      p := last;
    }
  }

  /** Every entry of every passenger's route counts gives a row. */
  lemma {:induction false} RowOfPassenger(passengers: seq<Passenger>, payments: seq<Payment>, p: Passenger, rc: RouteCount)
    requires p in passengers && rc in RouteCounts(PaymentsOf(payments, p.id))
    ensures RowOf(p.surname, rc) in Rows(passengers, payments)
  {
    var init, last := passengers[..|passengers| - 1], passengers[|passengers| - 1];
    assert passengers == init + [last];
    if p == last {
      var mine := RouteCounts(PaymentsOf(payments, p.id));
      var k :| 0 <= k < |mine| && mine[k] == rc;
      assert PassengerRows(last, payments)[k] == RowOf(p.surname, rc);
    } else {
      RowOfPassenger(init, payments, p, rc);
    }
  }

  /** The rows with surname `s`, in order. */
  function Named(rows: seq<TripRow>, s: string): (r: seq<TripRow>)
    ensures forall row :: row in r ==> row in rows && row.surname == s
  {
    if rows == [] then []
    else
      var row := rows[|rows| - 1];
      Named(rows[..|rows| - 1], s) + (if row.surname == s then [row] else [])
  }

  lemma {:induction false} NamedAppend(a: seq<TripRow>, b: seq<TripRow>, s: string)
    ensures Named(a + b, s) == Named(a, s) + Named(b, s)
  {
    if b == [] {
      assert a + b == a;
    } else {
      var init, x := b[..|b| - 1], b[|b| - 1];
      NamedAppend(a, init, s);
      assert (a + b)[..|a + b| - 1] == a + init && (a + b)[|a + b| - 1] == x;
      assert Named(a + b, s) == Named(a + init, s) + (if x.surname == s then [x] else []);
    }
  }

  lemma {:induction false} NamedOfSameSurname(rows: seq<TripRow>, t: string, s: string)
    requires forall row :: row in rows ==> row.surname == t
    ensures Named(rows, s) == if t == s then rows else []
  {
    if rows != [] {
      var init := rows[..|rows| - 1];
      NamedOfSameSurname(init, t, s);
      assert rows == init + [rows[|rows| - 1]];
    }
  }

  lemma {:induction false} NamedMember(rows: seq<TripRow>, row: TripRow)
    requires row in rows
    ensures row in Named(rows, row.surname)
  {
    var init := rows[..|rows| - 1];
    if rows[|rows| - 1] != row {
      assert rows == init + [rows[|rows| - 1]];
      NamedMember(init, row);
    }
  }

  /** The passengers with surname `s`, in list order. */
  function PassengersNamed(passengers: seq<Passenger>, s: string): (r: seq<Passenger>)
    ensures forall p :: p in r ==> p in passengers && p.surname == s
  {
    if passengers == [] then []
    else
      var p := passengers[|passengers| - 1];
      PassengersNamed(passengers[..|passengers| - 1], s) + (if p.surname == s then [p] else [])
  }

  lemma {:induction false} NamedRows(passengers: seq<Passenger>, payments: seq<Payment>, s: string)
    ensures Named(Rows(passengers, payments), s) == Rows(PassengersNamed(passengers, s), payments)
  {
    if passengers != [] {
      var init, last := passengers[..|passengers| - 1], passengers[|passengers| - 1];
      NamedRows(init, payments, s);
      NamedAppend(Rows(init, payments), PassengerRows(last, payments), s);
      NamedOfSameSurname(PassengerRows(last, payments), last.surname, s);
      var named := PassengersNamed(init, s);
      if last.surname == s {
        assert (named + [last])[..|named|] == named;
      } else {
        assert named + [] == named;
      }
    }
  }

  // =====================================================================
  // orderby p.Surname, routeGroup.RouteNumber (a stable sort)
  // =====================================================================

  /** The sort key comparison: surname first, then route number. */
  predicate RowLess(a: TripRow, b: TripRow) {
    Less(a.surname, b.surname) || (a.surname == b.surname && a.route < b.route)
  }

  predicate RowsOrdered(rows: seq<TripRow>) {
    forall i, j :: 0 <= i < j < |rows| ==> !RowLess(rows[j], rows[i])
  }

  lemma RowLessAsymmetric(a: TripRow, b: TripRow)
    requires RowLess(a, b)
    ensures !RowLess(b, a)
  {
    if Less(a.surname, b.surname) {
      LessAsymmetric(a.surname, b.surname);
    } else {
      LessIrreflexive(a.surname);
    }
  }

  /** a < b <= c implies a < c. */
  lemma RowLessThenNotGreater(a: TripRow, b: TripRow, c: TripRow)
    requires RowLess(a, b) && !RowLess(c, b)
    ensures RowLess(a, c)
  {
    if Less(a.surname, b.surname) {
      LessThenNotGreater(a.surname, b.surname, c.surname);
    } else {
      LessTotal(b.surname, c.surname);
    }
  }

  /** a <= b < c implies a < c. */
  lemma RowNotGreaterThenLess(a: TripRow, b: TripRow, c: TripRow)
    requires !RowLess(b, a) && RowLess(b, c)
    ensures RowLess(a, c)
  {
    if Less(b.surname, c.surname) {
      NotGreaterThenLess(a.surname, b.surname, c.surname);
    } else {
      LessTotal(a.surname, b.surname);
    }
  }

  /** Insert `x` after every row whose key is not greater than x's: the
      step of a stable insertion sort. */
  function InsertRow(sorted: seq<TripRow>, x: TripRow): (r: seq<TripRow>)
    ensures multiset(r) == multiset(sorted) + multiset{x}
  {
    if sorted == [] then [x]
    else if RowLess(x, sorted[0]) then [x] + sorted
    else
      assert sorted == [sorted[0]] + sorted[1..];
      [sorted[0]] + InsertRow(sorted[1..], x)
  }

  lemma {:induction false} InsertRowOrdered(t: seq<TripRow>, x: TripRow)
    requires RowsOrdered(t)
    ensures RowsOrdered(InsertRow(t, x))
  {
    if t != [] {
      if RowLess(x, t[0]) {
        forall j | 0 <= j < |t| ensures !RowLess(t[j], x) {
          if j > 0 {
            RowLessThenNotGreater(x, t[0], t[j]);
            RowLessAsymmetric(x, t[j]);
          } else {
            RowLessAsymmetric(x, t[0]);
          }
        }
        var r := [x] + t;
        forall i, j | 0 <= i < j < |r| ensures !RowLess(r[j], r[i]) {
          if i > 0 {
            assert r[i] == t[i - 1] && r[j] == t[j - 1];
          }
        }
      } else {
        var rest := InsertRow(t[1..], x);
        InsertRowOrdered(t[1..], x);
        forall k | 0 <= k < |rest| ensures !RowLess(rest[k], t[0]) {
          assert rest[k] in multiset(rest);
          if rest[k] != x {
            assert rest[k] in t[1..];
          }
        }
        var r := [t[0]] + rest;
        forall i, j | 0 <= i < j < |r| ensures !RowLess(r[j], r[i]) {
          if i > 0 {
            assert r[i] == rest[i - 1] && r[j] == rest[j - 1];
          }
        }
      }
    }
  }

  /** The stable sort of the query's rows by (surname, route): an
      ordered permutation. */
  function SortRows(rows: seq<TripRow>): (r: seq<TripRow>)
    ensures RowsOrdered(r) && multiset(r) == multiset(rows)
  {
    if rows == [] then []
    else
      var init, x := rows[..|rows| - 1], rows[|rows| - 1];
      var sorted := SortRows(init);
      InsertRowOrdered(sorted, x);
      assert rows == init + [x];
      InsertRow(sorted, x)
  }

  lemma InsertRowBeforeAll(t: seq<TripRow>, x: TripRow)
    requires forall e :: e in t ==> RowLess(x, e)
    ensures InsertRow(t, x) == [x] + t
  {
    if t != [] {
      assert t[0] in t;
    }
  }

  lemma {:induction false} InsertRowAfterAll(t: seq<TripRow>, x: TripRow)
    requires forall e :: e in t ==> !RowLess(x, e)
    ensures InsertRow(t, x) == t + [x]
  {
    if t != [] {
      assert t[0] in t;
      forall e | e in t[1..] ensures !RowLess(x, e) {
        assert e in t;
      }
      InsertRowAfterAll(t[1..], x);
      assert InsertRow(t, x) == [t[0]] + InsertRow(t[1..], x);
      assert [t[0]] + (t[1..] + [x]) == t + [x];
    }
  }

  lemma NamedSingleton(x: TripRow, s: string)
    ensures Named([x], s) == if x.surname == s then [x] else []
  {
    assert [x][..0] == [];
  }

  /** Inserting a row of another surname does not change the rows named
      `s`. */
  lemma {:induction false} NamedInsertOther(t: seq<TripRow>, x: TripRow, s: string)
    requires x.surname != s
    ensures Named(InsertRow(t, x), s) == Named(t, s)
  {
    NamedSingleton(x, s);
    if t == [] {
    } else if RowLess(x, t[0]) {
      NamedAppend([x], t, s);
    } else {
      var rest := t[1..];
      assert t == [t[0]] + rest;
      NamedInsertOther(rest, x, s);
      NamedAppend([t[0]], InsertRow(rest, x), s);
      NamedAppend([t[0]], rest, s);
    }
  }

  /** Every row of an ordered run that starts above `x` is above `x`. */
  lemma AboveAll(t: seq<TripRow>, x: TripRow, e: TripRow)
    requires RowsOrdered(t) && t != [] && RowLess(x, t[0]) && e in t
    ensures RowLess(x, e)
  {
    var j :| 0 <= j < |t| && t[j] == e;
    if j > 0 {
      RowLessThenNotGreater(x, t[0], e);
    }
  }

  /** The first step of the insertion, for a row that goes in front. */
  lemma NamedInsertSameFront(t: seq<TripRow>, x: TripRow)
    requires RowsOrdered(t) && t != [] && RowLess(x, t[0])
    ensures Named(InsertRow(t, x), x.surname) == InsertRow(Named(t, x.surname), x)
  {
    var s := x.surname;
    NamedSingleton(x, s);
    NamedAppend([x], t, s);
    assert Named(InsertRow(t, x), s) == [x] + Named(t, s);
    forall e | e in Named(t, s) ensures RowLess(x, e) {
      AboveAll(t, x, e);
    }
    InsertRowBeforeAll(Named(t, s), x);
  }

  /** The step of the insertion that passes over the first row. */
  lemma NamedInsertSameSkip(t: seq<TripRow>, x: TripRow)
    requires t != [] && !RowLess(x, t[0])
    requires Named(InsertRow(t[1..], x), x.surname) == InsertRow(Named(t[1..], x.surname), x)
    ensures Named(InsertRow(t, x), x.surname) == InsertRow(Named(t, x.surname), x)
  {
    var s, head, rest := x.surname, t[0], t[1..];
    assert t == [head] + rest;
    assert InsertRow(t, x) == [head] + InsertRow(rest, x);
    NamedAppend([head], InsertRow(rest, x), s);
    NamedAppend([head], rest, s);
    NamedSingleton(head, s);
    var u := Named(rest, s);
    if head.surname == s {
      assert Named(t, s) == [head] + u;
      assert ([head] + u)[1..] == u;
      assert InsertRow([head] + u, x) == [head] + InsertRow(u, x);
    } else {
      assert Named(t, s) == u;
      assert Named(InsertRow(t, x), s) == [] + InsertRow(u, x);
    }
  }

  /** Inserting into an ordered run and then keeping one surname is the
      same as keeping that surname and then inserting: the sort is stable
      with respect to each surname. */
  lemma {:induction false} NamedInsertSame(t: seq<TripRow>, x: TripRow)
    requires RowsOrdered(t)
    ensures Named(InsertRow(t, x), x.surname) == InsertRow(Named(t, x.surname), x)
  {
    if t == [] {
      NamedSingleton(x, x.surname);
    } else if RowLess(x, t[0]) {
      NamedInsertSameFront(t, x);
    } else {
      assert RowsOrdered(t[1..]) by {
        forall i, j | 0 <= i < j < |t| - 1 ensures !RowLess(t[1..][j], t[1..][i]) {
          assert t[1..][i] == t[i + 1] && t[1..][j] == t[j + 1];
        }
      }
      NamedInsertSame(t[1..], x);
      NamedInsertSameSkip(t, x);
    }
  }

  lemma NamedInsertRow(t: seq<TripRow>, x: TripRow, s: string)
    requires RowsOrdered(t)
    ensures Named(InsertRow(t, x), s) == if x.surname == s then InsertRow(Named(t, s), x) else Named(t, s)
  {
    if x.surname == s {
      NamedInsertSame(t, x);
    } else {
      NamedInsertOther(t, x, s);
    }
  }

  lemma {:induction false} SortRowsNamed(rows: seq<TripRow>, s: string)
    ensures Named(SortRows(rows), s) == SortRows(Named(rows, s))
  {
    if rows != [] {
      var init, x := rows[..|rows| - 1], rows[|rows| - 1];
      SortRowsNamed(init, s);
      NamedInsertRow(SortRows(init), x, s);
      var u := Named(init, s);
      if x.surname == s {
        assert (u + [x])[..|u|] == u;
      } else {
        assert u + [] == u;
      }
    }
  }

  /** The rows with sort key (`s`, `route`), in order. */
  function WithKey(rows: seq<TripRow>, s: string, route: int): (r: seq<TripRow>)
    ensures forall row :: row in r ==> row in rows && row.surname == s && row.route == route
  {
    if rows == [] then []
    else
      var row := rows[|rows| - 1];
      WithKey(rows[..|rows| - 1], s, route) + (if row.surname == s && row.route == route then [row] else [])
  }

  lemma {:induction false} WithKeyAppend(a: seq<TripRow>, b: seq<TripRow>, s: string, route: int)
    ensures WithKey(a + b, s, route) == WithKey(a, s, route) + WithKey(b, s, route)
  {
    if b == [] {
      assert a + b == a;
    } else {
      var init, x := b[..|b| - 1], b[|b| - 1];
      WithKeyAppend(a, init, s, route);
      assert (a + b)[..|a + b| - 1] == a + init && (a + b)[|a + b| - 1] == x;
    }
  }

  lemma WithKeySingleton(x: TripRow, s: string, route: int)
    ensures WithKey([x], s, route) == if x.surname == s && x.route == route then [x] else []
  {
    assert [x][..0] == [];
  }

  /** Rows none of which has the key leave nothing. */
  lemma {:induction false} WithKeyNone(rows: seq<TripRow>, s: string, route: int)
    requires forall e :: e in rows ==> !(e.surname == s && e.route == route)
    ensures WithKey(rows, s, route) == []
  {
    if rows != [] {
      var init := rows[..|rows| - 1];
      assert rows[|rows| - 1] in rows;
      forall e | e in init ensures !(e.surname == s && e.route == route) {
        assert e in rows;
      }
      WithKeyNone(init, s, route);
    }
  }

  /** The row inserted in front of an ordered run whose rows all lie above it. */
  lemma WithKeyInsertFront(t: seq<TripRow>, x: TripRow, s: string, route: int)
    requires RowsOrdered(t) && t != [] && RowLess(x, t[0])
    ensures WithKey(InsertRow(t, x), s, route) == WithKey(t, s, route) + WithKey([x], s, route)
  {
    WithKeyAppend([x], t, s, route);
    WithKeySingleton(x, s, route);
    if x.surname == s && x.route == route {
      forall e | e in t ensures !(e.surname == s && e.route == route) {
        AboveAll(t, x, e);
        LessIrreflexive(s);
      }
      WithKeyNone(t, s, route);
    }
  }

  /** Inserting into an ordered run puts the new row after every row with
      its own key, and leaves the rows of every other key as they were. */
  lemma {:induction false} WithKeyInsert(t: seq<TripRow>, x: TripRow, s: string, route: int)
    requires RowsOrdered(t)
    ensures WithKey(InsertRow(t, x), s, route) == WithKey(t, s, route) + WithKey([x], s, route)
  {
    if t == [] {
    } else if RowLess(x, t[0]) {
      WithKeyInsertFront(t, x, s, route);
    } else {
      OrderedTail(t);
      WithKeyInsert(t[1..], x, s, route);
      WithKeyInsertSkip(t, x, s, route);
    }
  }

  /** One step of the insertion past a row that does not lie above the new
      one, given the result for the rest of the run. */
  lemma WithKeyInsertSkip(t: seq<TripRow>, x: TripRow, s: string, route: int)
    requires t != [] && !RowLess(x, t[0])
    requires WithKey(InsertRow(t[1..], x), s, route) == WithKey(t[1..], s, route) + WithKey([x], s, route)
    ensures WithKey(InsertRow(t, x), s, route) == WithKey(t, s, route) + WithKey([x], s, route)
  {
    InsertRowSkip(t, x);
    WithKeyPrepend(t[0], t[1..], InsertRow(t[1..], x), WithKey([x], s, route), s, route);
    assert t == [t[0]] + t[1..];
  }

  lemma InsertRowSkip(t: seq<TripRow>, x: TripRow)
    requires t != [] && !RowLess(x, t[0])
    ensures InsertRow(t, x) == [t[0]] + InsertRow(t[1..], x)
  {
  }

  /** Putting the same row in front of `rest` and of `u` keeps an
      equation between their keyed rows. */
  lemma WithKeyPrepend(head: TripRow, rest: seq<TripRow>, u: seq<TripRow>, y: seq<TripRow>, s: string, route: int)
    requires WithKey(u, s, route) == WithKey(rest, s, route) + y
    ensures WithKey([head] + u, s, route) == WithKey([head] + rest, s, route) + y
  {
    WithKeyAppend([head], u, s, route);
    WithKeyAppend([head], rest, s, route);
    PrependEquation(WithKey([head] + u, s, route), WithKey([head] + rest, s, route),
      WithKey([head], s, route), WithKey(u, s, route), WithKey(rest, s, route), y);
  }

  lemma PrependEquation(a: seq<TripRow>, b: seq<TripRow>, h: seq<TripRow>, c: seq<TripRow>, d: seq<TripRow>, y: seq<TripRow>)
    requires a == h + c && b == h + d && c == d + y
    ensures a == b + y
  {
    assert h + (d + y) == (h + d) + y;
  }

  lemma OrderedTail(t: seq<TripRow>)
    requires RowsOrdered(t) && t != []
    ensures RowsOrdered(t[1..])
  {
    var rest := t[1..];
    forall i, j | 0 <= i < j < |rest| ensures !RowLess(rest[j], rest[i]) {
      assert rest[i] == t[i + 1] && rest[j] == t[j + 1];
    }
  }

  /** The sort is stable: the rows of each key (surname, route) come out in
      the order they went in. */
  lemma {:induction false} SortRowsStable(rows: seq<TripRow>, s: string, route: int)
    ensures WithKey(SortRows(rows), s, route) == WithKey(rows, s, route)
  {
    if rows != [] {
      var init, x := rows[..|rows| - 1], rows[|rows| - 1];
      SortRowsStable(init, s, route);
      WithKeyInsert(SortRows(init), x, s, route);
      WithKeySingleton(x, s, route);
    }
  }

  lemma OrderedInit(init: seq<TripRow>, x: TripRow)
    requires RowsOrdered(init + [x])
    ensures RowsOrdered(init)
    ensures forall e :: e in init ==> !RowLess(x, e)
  {
    var rows := init + [x];
    forall i, j | 0 <= i < j < |init| ensures !RowLess(init[j], init[i]) {
      assert init[i] == rows[i] && init[j] == rows[j];
    }
    forall e | e in init ensures !RowLess(x, e) {
      var j :| 0 <= j < |init| && init[j] == e;
      assert rows[j] == e && rows[|init|] == x;
    }
  }

  /** Sorting rows that are already in order changes nothing. */
  lemma {:induction false} SortRowsOfOrdered(rows: seq<TripRow>)
    requires RowsOrdered(rows)
    ensures SortRows(rows) == rows
  {
    if rows != [] {
      var init, x := rows[..|rows| - 1], rows[|rows| - 1];
      assert rows == init + [x];
      OrderedInit(init, x);
      SortRowsOfOrdered(init);
      InsertRowAfterAll(init, x);
      assert rows == init + [x];
    }
  }

  // =====================================================================
  // group tc by tc.Surname, then orderby passengerGroup.Key
  // =====================================================================

  /** One Passenger element's content: a surname and its Route entries. */
  datatype PassengerTrips = PassengerTrips(surname: string, routes: seq<RouteCount>)

  predicate SurnamesDistinct(groups: seq<PassengerTrips>) {
    forall i, j :: 0 <= i < j < |groups| ==> groups[i].surname != groups[j].surname
  }

  predicate SurnamesAscending(groups: seq<PassengerTrips>) {
    forall i, j :: 0 <= i < j < |groups| ==> Less(groups[i].surname, groups[j].surname)
  }

  /** The position of the group with surname `s`, or |groups| when there
      is none. */
  function IndexOfSurname(groups: seq<PassengerTrips>, s: string): (i: nat)
    ensures i <= |groups|
    ensures i < |groups| ==> groups[i].surname == s
    ensures forall j :: 0 <= j < i ==> groups[j].surname != s
  {
    if groups == [] then 0
    else if groups[0].surname == s then 0
    else 1 + IndexOfSurname(groups[1..], s)
  }

  /** Add one row to its surname's group, opening the group at the end
      when the surname is new. */
  function AddToGroup(groups: seq<PassengerTrips>, row: TripRow): seq<PassengerTrips> {
    var i := IndexOfSurname(groups, row.surname);
    if i < |groups| then groups[i := PassengerTrips(row.surname, groups[i].routes + [CountOfRow(row)])]
    else groups + [PassengerTrips(row.surname, [CountOfRow(row)])]
  }

  /** `groups` is the grouping of `rows` by surname: one group per
      surname, holding that surname's rows in order, and every row's
      surname has its group. */
  predicate GroupsOf(rows: seq<TripRow>, groups: seq<PassengerTrips>) {
    && SurnamesDistinct(groups)
    && (forall i :: 0 <= i < |groups| ==>
          groups[i].routes == RoutesOf(Named(rows, groups[i].surname)) && groups[i].routes != [])
    && (forall k :: 0 <= k < |rows| ==> IndexOfSurname(groups, rows[k].surname) < |groups|)
  }

  /** A surname present in the groups is found no later than where it
      sits. */
  lemma IndexOfSurnameAtMost(groups: seq<PassengerTrips>, j: nat)
    requires j < |groups|
    ensures IndexOfSurname(groups, groups[j].surname) <= j
  {
  }

  /** Adding a row keeps every group's surname and may add one more. */
  lemma AddToGroupSurnames(g: seq<PassengerTrips>, x: TripRow, s: string)
    requires IndexOfSurname(g, s) < |g|
    ensures IndexOfSurname(AddToGroup(g, x), s) < |AddToGroup(g, x)|
  {
    var r := AddToGroup(g, x);
    var j := IndexOfSurname(g, s);
    assert r[j].surname == s;
    IndexOfSurnameAtMost(r, j);
  }

  lemma NamedSnoc(init: seq<TripRow>, x: TripRow, s: string)
    ensures Named(init + [x], s) == Named(init, s) + (if x.surname == s then [x] else [])
  {
    assert (init + [x])[..|init|] == init;
  }

  lemma RoutesOfSnoc(u: seq<TripRow>, x: TripRow)
    ensures RoutesOf(u + [x]) == RoutesOf(u) + [CountOfRow(x)]
  {
    assert (u + [x])[..|u|] == u;
  }

  /** A surname without a group has no rows. */
  lemma UngroupedNamed(init: seq<TripRow>, g: seq<PassengerTrips>, s: string)
    requires GroupsOf(init, g) && IndexOfSurname(g, s) == |g|
    ensures Named(init, s) == []
  {
    if Named(init, s) != [] {
      var k := NamedNonEmpty(init, s);
      assert false;
    }
  }

  /** The routes of the group the next row lands in. */
  lemma AddToGroupRoutes(init: seq<TripRow>, x: TripRow, g: seq<PassengerTrips>, i: nat)
    requires GroupsOf(init, g)
    requires i < |AddToGroup(g, x)|
    ensures var r := AddToGroup(g, x);
            r[i].routes == RoutesOf(Named(init + [x], r[i].surname)) && r[i].routes != []
  {
    var r := AddToGroup(g, x);
    var s := r[i].surname;
    NamedSnoc(init, x, s);
    if s == x.surname {
      RoutesOfSnoc(Named(init, s), x);
      if i == |g| {
        UngroupedNamed(init, g, s);
      }
    } else {
      assert Named(init, s) + [] == Named(init, s);
      assert r[i] == g[i];
    }
  }

  /** A new group is opened only for a surname not seen yet. */
  lemma AddToGroupDistinct(g: seq<PassengerTrips>, x: TripRow)
    requires SurnamesDistinct(g)
    ensures SurnamesDistinct(AddToGroup(g, x))
  {
    var r := AddToGroup(g, x);
    forall i, j | 0 <= i < j < |r| ensures r[i].surname != r[j].surname {
      if j < |g| {
        assert r[i].surname == g[i].surname && r[j].surname == g[j].surname;
      } else {
        assert r[i].surname == g[i].surname;
      }
    }
  }

  /** After adding a row, its surname has a group. */
  lemma AddToGroupHasRow(g: seq<PassengerTrips>, x: TripRow)
    ensures IndexOfSurname(AddToGroup(g, x), x.surname) < |AddToGroup(g, x)|
  {
    var r := AddToGroup(g, x);
    if IndexOfSurname(g, x.surname) < |g| {
      AddToGroupSurnames(g, x, x.surname);
    } else {
      assert r[|g|].surname == x.surname;
      IndexOfSurnameAtMost(r, |g|);
    }
  }

  /** Adding the next row to its group keeps the grouping. */
  lemma AddToGroupGroups(rows: seq<TripRow>, g: seq<PassengerTrips>)
    requires rows != [] && GroupsOf(rows[..|rows| - 1], g)
    ensures GroupsOf(rows, AddToGroup(g, rows[|rows| - 1]))
  {
    var init, x := rows[..|rows| - 1], rows[|rows| - 1];
    assert rows == init + [x];
    var r := AddToGroup(g, x);
    AddToGroupDistinct(g, x);
    forall i | 0 <= i < |r| ensures r[i].routes == RoutesOf(Named(rows, r[i].surname)) && r[i].routes != [] {
      AddToGroupRoutes(init, x, g, i);
    }
    forall k | 0 <= k < |rows| ensures IndexOfSurname(r, rows[k].surname) < |r| {
      if k < |init| {
        assert rows[k] == init[k];
        AddToGroupSurnames(g, x, init[k].surname);
      } else {
        AddToGroupHasRow(g, x);
      }
    }
  }

  /** `group tc by tc.Surname`: one group per surname, in order of first
      appearance, holding that surname's rows in order. */
  function GroupBySurname(rows: seq<TripRow>): (groups: seq<PassengerTrips>)
    ensures GroupsOf(rows, groups)
  {
    if rows == [] then []
    else
      var g := GroupBySurname(rows[..|rows| - 1]);
      AddToGroupGroups(rows, g);
      AddToGroup(g, rows[|rows| - 1])
  }

  lemma {:induction false} NamedNonEmpty(rows: seq<TripRow>, s: string) returns (k: nat)
    requires Named(rows, s) != []
    ensures k < |rows| && rows[k].surname == s
  {
    var u := Named(rows, s);
    assert u[0] in u;
    k :| 0 <= k < |rows| && rows[k] == u[0];
  }

  /** In rows sorted by surname, a surname not seen so far is above every
      surname seen so far. */
  lemma NewSurnameAbove(init: seq<TripRow>, x: TripRow, g: seq<PassengerTrips>, i: nat)
    requires RowsOrdered(init + [x]) && GroupsOf(init, g)
    requires IndexOfSurname(g, x.surname) == |g| && i < |g|
    ensures Less(g[i].surname, x.surname)
  {
    OrderedInit(init, x);
    assert |Named(init, g[i].surname)| == |g[i].routes|;
    var k := NamedNonEmpty(init, g[i].surname);
    assert init[k] in init;
    LessTotal(g[i].surname, x.surname);
  }

  /** Adding the next row of a sorted run keeps the groups ascending. */
  lemma AddToGroupAscending(init: seq<TripRow>, x: TripRow, g: seq<PassengerTrips>)
    requires RowsOrdered(init + [x]) && GroupsOf(init, g) && SurnamesAscending(g)
    ensures SurnamesAscending(AddToGroup(g, x))
  {
    var r := AddToGroup(g, x);
    if IndexOfSurname(g, x.surname) < |g| {
      forall i, j | 0 <= i < j < |r| ensures Less(r[i].surname, r[j].surname) {
        assert r[i].surname == g[i].surname && r[j].surname == g[j].surname;
      }
    } else {
      forall i, j | 0 <= i < j < |r| ensures Less(r[i].surname, r[j].surname) {
        if j < |g| {
          assert r[i].surname == g[i].surname && r[j].surname == g[j].surname;
        } else {
          NewSurnameAbove(init, x, g, i);
        }
      }
    }
  }

  /** On rows already sorted by surname, first appearance is ascending
      surname order. */
  lemma {:induction false} GroupBySurnameAscending(rows: seq<TripRow>)
    requires RowsOrdered(rows)
    ensures SurnamesAscending(GroupBySurname(rows))
  {
    if rows != [] {
      var init, x := rows[..|rows| - 1], rows[|rows| - 1];
      assert rows == init + [x];
      OrderedInit(init, x);
      GroupBySurnameAscending(init);
      AddToGroupAscending(init, x, GroupBySurname(init));
    }
  }

  function InsertGroup(sorted: seq<PassengerTrips>, g: PassengerTrips): seq<PassengerTrips> {
    if sorted == [] then [g]
    else if Less(g.surname, sorted[0].surname) then [g] + sorted
    else [sorted[0]] + InsertGroup(sorted[1..], g)
  }

  /** `orderby passengerGroup.Key`: a stable insertion sort of the groups. */
  function SortGroups(groups: seq<PassengerTrips>): seq<PassengerTrips> {
    if groups == [] then []
    else InsertGroup(SortGroups(groups[..|groups| - 1]), groups[|groups| - 1])
  }

  lemma {:induction false} InsertGroupAfterAll(t: seq<PassengerTrips>, g: PassengerTrips)
    requires forall k :: 0 <= k < |t| ==> Less(t[k].surname, g.surname)
    ensures InsertGroup(t, g) == t + [g]
  {
    if t != [] {
      LessAsymmetric(t[0].surname, g.surname);
      InsertGroupAfterAll(t[1..], g);
      assert t == [t[0]] + t[1..];
    }
  }

  /** The groups arrive in ascending surname order, so the final orderby
      leaves them as they are. */
  lemma {:induction false} SortGroupsOfAscending(groups: seq<PassengerTrips>)
    requires SurnamesAscending(groups)
    ensures SortGroups(groups) == groups
  {
    if groups != [] {
      var init, g := groups[..|groups| - 1], groups[|groups| - 1];
      AscendingInit(groups);
      SortGroupsOfAscending(init);
      InsertGroupAfterAll(init, g);
      assert SortGroups(groups) == InsertGroup(SortGroups(init), g);
      assert groups == init + [g];
    }
  }

  lemma AscendingInit(groups: seq<PassengerTrips>)
    requires SurnamesAscending(groups) && groups != []
    ensures SurnamesAscending(groups[..|groups| - 1])
    ensures forall k :: 0 <= k < |groups| - 1 ==> Less(groups[k].surname, groups[|groups| - 1].surname)
  {
    var init := groups[..|groups| - 1];
    forall i, j | 0 <= i < j < |init| ensures Less(init[i].surname, init[j].surname) {
      assert init[i] == groups[i] && init[j] == groups[j];
    }
  }

  // =====================================================================
  // The report
  // =====================================================================

  /** The Passenger elements' content, in document order. */
  function TripCountsReport(passengers: seq<Passenger>, payments: seq<Payment>): seq<PassengerTrips> {
    SortGroups(GroupBySurname(SortRows(Rows(passengers, payments))))
  }

  /** The Route entries reported under surname `s`: the route counts of
      every passenger with that surname, merged by the stable sort on
      route number. */
  function SurnameRoutes(passengers: seq<Passenger>, payments: seq<Payment>, s: string): seq<RouteCount> {
    RoutesOf(SortRows(Rows(PassengersNamed(passengers, s), payments)))
  }

  lemma ReportIsGrouping(passengers: seq<Passenger>, payments: seq<Payment>)
    ensures TripCountsReport(passengers, payments) == GroupBySurname(SortRows(Rows(passengers, payments)))
    ensures SurnamesAscending(TripCountsReport(passengers, payments))
  {
    var sorted := SortRows(Rows(passengers, payments));
    GroupBySurnameAscending(sorted);
    SortGroupsOfAscending(GroupBySurname(sorted));
  }

  lemma ReportRoutes(passengers: seq<Passenger>, payments: seq<Payment>, i: nat)
    requires i < |TripCountsReport(passengers, payments)|
    ensures var g := TripCountsReport(passengers, payments)[i];
            g.routes == SurnameRoutes(passengers, payments, g.surname) && g.routes != []
  {
    ReportIsGrouping(passengers, payments);
    var g := TripCountsReport(passengers, payments)[i];
    var rows := Rows(passengers, payments);
    SortRowsNamed(rows, g.surname);
    NamedRows(passengers, payments, g.surname);
  }

  /** An entry reported under `s` comes from a passenger with surname `s`. */
  lemma SurnameRouteSource(passengers: seq<Passenger>, payments: seq<Payment>, s: string, k: nat) returns (p: Passenger)
    requires k < |SurnameRoutes(passengers, payments, s)|
    ensures p in passengers && p.surname == s
    ensures SurnameRoutes(passengers, payments, s)[k] in RouteCounts(PaymentsOf(payments, p.id))
  {
    var named := PassengersNamed(passengers, s);
    var rows := Rows(named, payments);
    var sorted := SortRows(rows);
    assert sorted[k] in multiset(rows);
    p := RowSource(named, payments, sorted[k]);
  }

  /** Each entry of each passenger with surname `s` is reported under `s`. */
  lemma SurnameRouteOf(passengers: seq<Passenger>, payments: seq<Payment>, p: Passenger, rc: RouteCount)
    requires p in passengers && rc in RouteCounts(PaymentsOf(payments, p.id))
    ensures rc in SurnameRoutes(passengers, payments, p.surname)
  {
    var named := PassengersNamed(passengers, p.surname);
    var sorted := SortRows(Rows(named, payments));
    PassengersNamedMember(passengers, p);
    RowOfPassenger(named, payments, p, rc);
    assert RowOf(p.surname, rc) in multiset(sorted);
    var k :| 0 <= k < |sorted| && sorted[k] == RowOf(p.surname, rc);
    assert SurnameRoutes(passengers, payments, p.surname)[k] == rc;
  }

  lemma {:induction false} PassengersNamedMember(passengers: seq<Passenger>, p: Passenger)
    requires p in passengers
    ensures p in PassengersNamed(passengers, p.surname)
  {
    var init := passengers[..|passengers| - 1];
    if passengers[|passengers| - 1] != p {
      assert passengers == init + [passengers[|passengers| - 1]];
      PassengersNamedMember(init, p);
    }
  }

  /** Every row reported under `s` has surname `s`, so the stable sort
      leaves route numbers non-decreasing. */
  lemma SurnameRoutesOrdered(passengers: seq<Passenger>, payments: seq<Payment>, s: string)
    ensures var r := SurnameRoutes(passengers, payments, s);
            forall k, l :: 0 <= k < l < |r| ==> r[k].route <= r[l].route
  {
    var named := PassengersNamed(passengers, s);
    var rows := Rows(named, payments);
    var sorted := SortRows(rows);
    forall k | 0 <= k < |sorted| ensures sorted[k].surname == s {
      assert sorted[k] in multiset(rows);
      var p := RowSource(named, payments, sorted[k]);
    }
  }

  // =====================================================================
  // What the report promises
  // =====================================================================

  /** Passenger elements come in strictly ascending surname order, so
      there is one per surname; inside each, route numbers never
      decrease. */
  lemma TripCountsOrdered(passengers: seq<Passenger>, payments: seq<Payment>)
    ensures var report := TripCountsReport(passengers, payments);
            && (forall i, j :: 0 <= i < j < |report| ==> Less(report[i].surname, report[j].surname))
            && (forall i, k, l :: 0 <= i < |report| && 0 <= k < l < |report[i].routes| ==>
                  report[i].routes[k].route <= report[i].routes[l].route)
  {
    var report := TripCountsReport(passengers, payments);
    ReportIsGrouping(passengers, payments);
    forall i | 0 <= i < |report|
      ensures forall k, l :: 0 <= k < l < |report[i].routes| ==> report[i].routes[k].route <= report[i].routes[l].route
    {
      ReportRoutes(passengers, payments, i);
      SurnameRoutesOrdered(passengers, payments, report[i].surname);
    }
  }

  /** Every Route entry counts the trips of a passenger with the element's
      surname on that route, and is at least 1. */
  lemma TripCountsSound(passengers: seq<Passenger>, payments: seq<Payment>)
    ensures var report := TripCountsReport(passengers, payments);
            forall i, k :: 0 <= i < |report| && 0 <= k < |report[i].routes| ==>
              var rc := report[i].routes[k];
              rc.count >= 1 &&
              exists p :: p in passengers && p.surname == report[i].surname
                          && rc.count == TripCount(payments, p.id, rc.route)
  {
    var report := TripCountsReport(passengers, payments);
    forall i, k | 0 <= i < |report| && 0 <= k < |report[i].routes|
      ensures var rc := report[i].routes[k];
              rc.count >= 1 &&
              exists p :: p in passengers && p.surname == report[i].surname
                          && rc.count == TripCount(payments, p.id, rc.route)
    {
      var rc := report[i].routes[k];
      ReportRoutes(passengers, payments, i);
      var p := SurnameRouteSource(passengers, payments, report[i].surname, k);
      PassengerRouteCounts(payments, p.id, rc);
    }
  }

  /** Every route a passenger took is reported, with its trip count, under
      the passenger's surname. */
  lemma TripCountsComplete(passengers: seq<Passenger>, payments: seq<Payment>, p: Passenger, route: int)
    requires p in passengers && TripCount(payments, p.id, route) >= 1
    ensures var report := TripCountsReport(passengers, payments);
            exists i :: 0 <= i < |report| && report[i].surname == p.surname
                        && RouteCount(route, TripCount(payments, p.id, route)) in report[i].routes
  {
    var report := TripCountsReport(passengers, payments);
    var rc := RouteCount(route, TripCount(payments, p.id, route));
    PassengerRouteCounts(payments, p.id, rc);
    var rows := Rows(passengers, payments);
    var sorted := SortRows(rows);
    RowOfPassenger(passengers, payments, p, rc);
    assert RowOf(p.surname, rc) in multiset(sorted);
    var k :| 0 <= k < |sorted| && sorted[k] == RowOf(p.surname, rc);
    ReportIsGrouping(passengers, payments);
    var i := IndexOfSurname(report, sorted[k].surname);
    ReportRoutes(passengers, payments, i);
    SurnameRouteOf(passengers, payments, p, rc);
  }

  /** A surname gets a Passenger element exactly when a passenger with that
      surname has at least one payment: passengers without trips produce
      nothing, not an empty element. */
  lemma TripCountsSurnames(passengers: seq<Passenger>, payments: seq<Payment>, s: string)
    ensures var report := TripCountsReport(passengers, payments);
            (exists i :: 0 <= i < |report| && report[i].surname == s)
            <==> (exists p, q :: p in passengers && q in payments && p.surname == s && q.passengerId == p.id)
  {
    var report := TripCountsReport(passengers, payments);
    if exists i :: 0 <= i < |report| && report[i].surname == s {
      var i :| 0 <= i < |report| && report[i].surname == s;
      ReportRoutes(passengers, payments, i);
      var rc := report[i].routes[0];
      var p := SurnameRouteSource(passengers, payments, s, 0);
      PassengerRouteCounts(payments, p.id, rc);
      var q := TripCountWitness(payments, p.id, rc.route);
    }
    if exists p, q :: p in passengers && q in payments && p.surname == s && q.passengerId == p.id {
      var p, q :| p in passengers && q in payments && p.surname == s && q.passengerId == p.id;
      TripCountOfMember(payments, q);
      TripCountsComplete(passengers, payments, p, q.route);
    }
  }

  /** With no payments at all the root has no children. */
  lemma TripCountsWithoutPayments(passengers: seq<Passenger>)
    ensures TripCountsReport(passengers, []) == []
  {
    NoRowsWithoutPayments(passengers);
  }

  lemma {:induction false} NoRowsWithoutPayments(passengers: seq<Passenger>)
    ensures Rows(passengers, []) == []
  {
    if passengers != [] {
      NoRowsWithoutPayments(passengers[..|passengers| - 1]);
    }
  }

  /** A passenger id that some passenger of the list carries. */
  predicate KnownId(passengers: seq<Passenger>, id: int) {
    exists p :: p in passengers && p.id == id
  }

  /** The payments whose PassengerId matches a passenger. */
  function KnownPayments(passengers: seq<Passenger>, payments: seq<Payment>): seq<Payment> {
    if payments == [] then []
    else
      var q := payments[|payments| - 1];
      KnownPayments(passengers, payments[..|payments| - 1]) + (if KnownId(passengers, q.passengerId) then [q] else [])
  }

  lemma {:induction false} PaymentsOfKnown(passengers: seq<Passenger>, payments: seq<Payment>, id: int)
    requires KnownId(passengers, id)
    ensures PaymentsOf(KnownPayments(passengers, payments), id) == PaymentsOf(payments, id)
  {
    if payments != [] {
      var init, q := payments[..|payments| - 1], payments[|payments| - 1];
      PaymentsOfKnown(passengers, init, id);
      var known := KnownPayments(passengers, init);
      if KnownId(passengers, q.passengerId) {
        assert (known + [q])[..|known|] == known;
      } else {
        assert known + [] == known;
      }
    }
  }

  lemma {:induction false} RowsOfKnown(passengers: seq<Passenger>, some: seq<Passenger>, payments: seq<Payment>)
    requires forall p :: p in some ==> p in passengers
    ensures Rows(some, KnownPayments(passengers, payments)) == Rows(some, payments)
  {
    if some != [] {
      var last := some[|some| - 1];
      assert last in some;
      RowsOfKnown(passengers, some[..|some| - 1], payments);
      PaymentsOfKnown(passengers, payments, last.id);
    }
  }

  /** A payment whose PassengerId matches no passenger is counted nowhere:
      removing all such payments leaves the report unchanged. */
  lemma TripCountsIgnoreUnknown(passengers: seq<Passenger>, payments: seq<Payment>)
    ensures TripCountsReport(passengers, KnownPayments(passengers, payments)) == TripCountsReport(passengers, payments)
  {
    RowsOfKnown(passengers, passengers, payments);
  }

  /** No two passengers of the list share a surname. */
  predicate UniqueSurnames(passengers: seq<Passenger>) {
    forall j, k :: 0 <= j < k < |passengers| ==> passengers[j].surname != passengers[k].surname
  }

  lemma {:induction false} PassengersNamedUnique(passengers: seq<Passenger>, s: string)
    requires UniqueSurnames(passengers)
    ensures |PassengersNamed(passengers, s)| <= 1
  {
    if passengers != [] {
      var init, last := passengers[..|passengers| - 1], passengers[|passengers| - 1];
      assert UniqueSurnames(init) by {
        forall j, k | 0 <= j < k < |init| ensures init[j].surname != init[k].surname {
          assert init[j] == passengers[j] && init[k] == passengers[k];
        }
      }
      PassengersNamedUnique(init, s);
      if last.surname == s {
        forall p | p in init ensures p.surname != s {
          var j :| 0 <= j < |init| && init[j] == p;
          assert passengers[j] == p && passengers[|init|] == last;
        }
        NoneNamed(init, s);
      }
    }
  }

  lemma NoneNamed(passengers: seq<Passenger>, s: string)
    requires forall p :: p in passengers ==> p.surname != s
    ensures PassengersNamed(passengers, s) == []
  {
  }

  /** A surname carried by one passenger only reports that passenger's
      route counts, in their ascending route order. */
  lemma SingleNamedRoutes(passengers: seq<Passenger>, payments: seq<Payment>, p: Passenger)
    requires PassengersNamed(passengers, p.surname) == [p]
    ensures SurnameRoutes(passengers, payments, p.surname) == RouteCounts(PaymentsOf(payments, p.id))
  {
    var named := PassengersNamed(passengers, p.surname);
    assert Rows(named, payments) == PassengerRows(p, payments) by {
      assert named[..0] == [];
    }
    var rcs := RouteCounts(PaymentsOf(payments, p.id));
    LabelledOrdered(p.surname, rcs);
    SortRowsOfOrdered(PassengerRows(p, payments));
    assert RoutesOf(Labelled(p.surname, rcs)) == rcs;
  }

  /** With unique surnames, a Passenger element holds one passenger's
      route counts. */
  lemma UniqueSurnameEntry(passengers: seq<Passenger>, payments: seq<Payment>, i: nat) returns (p: Passenger)
    requires UniqueSurnames(passengers) && i < |TripCountsReport(passengers, payments)|
    ensures var g := TripCountsReport(passengers, payments)[i];
            p in passengers && p.surname == g.surname && g.routes == RouteCounts(PaymentsOf(payments, p.id))
  {
    var s := TripCountsReport(passengers, payments)[i].surname;
    ReportRoutes(passengers, payments, i);
    PassengersNamedUnique(passengers, s);
    p := SurnameRouteSource(passengers, payments, s, 0);
    PassengersNamedMember(passengers, p);
    assert PassengersNamed(passengers, s) == [p];
    SingleNamedRoutes(passengers, payments, p);
  }

  /** One passenger's rows, labelled with one surname over ascending
      routes, are already in sort order. */
  lemma LabelledOrdered(s: string, rcs: seq<RouteCount>)
    requires Ascending(rcs)
    ensures RowsOrdered(Labelled(s, rcs))
  {
    var rows := Labelled(s, rcs);
    forall i, j | 0 <= i < j < |rows| ensures !RowLess(rows[j], rows[i]) {
      assert rows[i] == RowOf(s, rcs[i]) && rows[j] == RowOf(s, rcs[j]);
      LessIrreflexive(s);
    }
  }

  /** When surnames are unique, each Passenger element carries exactly
      that passenger's route counts: strictly ascending routes, one entry
      per route taken. */
  lemma TripCountsUniqueSurnames(passengers: seq<Passenger>, payments: seq<Payment>)
    requires UniqueSurnames(passengers)
    ensures var report := TripCountsReport(passengers, payments);
            forall i :: 0 <= i < |report| ==>
              && (exists p :: p in passengers && p.surname == report[i].surname
                              && report[i].routes == RouteCounts(PaymentsOf(payments, p.id)))
              && (forall k, l :: 0 <= k < l < |report[i].routes| ==> report[i].routes[k].route < report[i].routes[l].route)
  {
    var report := TripCountsReport(passengers, payments);
    forall i | 0 <= i < |report|
      ensures exists p :: p in passengers && p.surname == report[i].surname
                          && report[i].routes == RouteCounts(PaymentsOf(payments, p.id))
    {
      var p := UniqueSurnameEntry(passengers, payments, i);
    }
  }

  // =====================================================================
  // The PassengerTripCounts document
  // =====================================================================

  function RouteElement(rc: RouteCount): Element {
    Element("Route", [Attribute("Number", IntToString(rc.route)), Attribute("TripCount", IntToString(rc.count))], [])
  }

  function RouteElements(rcs: seq<RouteCount>): seq<Element> {
    if rcs == [] then []
    else RouteElements(rcs[..|rcs| - 1]) + [RouteElement(rcs[|rcs| - 1])]
  }

  function PassengerElement(g: PassengerTrips): Element {
    Element("Passenger", [Attribute("Surname", g.surname)], RouteElements(g.routes))
  }

  function PassengerElements(groups: seq<PassengerTrips>): seq<Element> {
    if groups == [] then []
    else PassengerElements(groups[..|groups| - 1]) + [PassengerElement(groups[|groups| - 1])]
  }

  /** The PassengerTripCounts root with one Passenger element per group,
      in order. */
  function TripCountsDocument(report: seq<PassengerTrips>): Element {
    Element("PassengerTripCounts", [], PassengerElements(report))
  }

  function ReadRoute(e: Element): Option<RouteCount> {
    if e.name == "Route" && |e.attributes| == 2 && e.children == []
       && e.attributes[0].name == "Number" && e.attributes[1].name == "TripCount"
    then
      match (ParseInt(e.attributes[0].value), ParseInt(e.attributes[1].value))
      case (Some(route), Some(count)) => if count >= 0 then Some(RouteCount(route, count)) else None
      case _ => None
    else None
  }

  function ReadRoutes(es: seq<Element>): Option<seq<RouteCount>> {
    if es == [] then Some([])
    else
      match (ReadRoutes(es[..|es| - 1]), ReadRoute(es[|es| - 1]))
      case (Some(rcs), Some(rc)) => Some(rcs + [rc])
      case _ => None
  }

  function ReadPassenger(e: Element): Option<PassengerTrips> {
    if e.name == "Passenger" && |e.attributes| == 1 && e.attributes[0].name == "Surname" then
      match ReadRoutes(e.children)
      case Some(rcs) => Some(PassengerTrips(e.attributes[0].value, rcs))
      case None => None
    else None
  }

  function ReadPassengers(es: seq<Element>): Option<seq<PassengerTrips>> {
    if es == [] then Some([])
    else
      match (ReadPassengers(es[..|es| - 1]), ReadPassenger(es[|es| - 1]))
      case (Some(gs), Some(g)) => Some(gs + [g])
      case _ => None
  }

  /** Reads a PassengerTripCounts document back into its groups. */
  function ReadTripCounts(doc: Element): Option<seq<PassengerTrips>> {
    if doc.name == "PassengerTripCounts" && doc.attributes == [] then ReadPassengers(doc.children)
    else None
  }

  lemma {:induction false} RouteElementsRoundTrip(rcs: seq<RouteCount>)
    ensures ReadRoutes(RouteElements(rcs)) == Some(rcs)
  {
    if rcs != [] {
      var init, rc := rcs[..|rcs| - 1], rcs[|rcs| - 1];
      RouteElementsRoundTrip(init);
      IntToStringRoundTrip(rc.route);
      IntToStringRoundTrip(rc.count);
      var es := RouteElements(rcs);
      assert es[..|es| - 1] == RouteElements(init);
      assert rcs == init + [rc];
    }
  }

  lemma PassengerElementRoundTrip(g: PassengerTrips)
    ensures ReadPassenger(PassengerElement(g)) == Some(g)
  {
    RouteElementsRoundTrip(g.routes);
  }

  lemma {:induction false} PassengerElementsRoundTrip(groups: seq<PassengerTrips>)
    ensures ReadPassengers(PassengerElements(groups)) == Some(groups)
  {
    if groups != [] {
      var init, g := groups[..|groups| - 1], groups[|groups| - 1];
      PassengerElementsRoundTrip(init);
      PassengerElementRoundTrip(g);
      var es := PassengerElements(groups);
      assert es[..|es| - 1] == PassengerElements(init) && es[|es| - 1] == PassengerElement(g);
      assert groups == init + [g];
    }
  }

  /** The document holds the whole report: reading it back gives every
      surname, route and trip count, in order. */
  lemma TripCountsDocumentRoundTrip(report: seq<PassengerTrips>)
    ensures ReadTripCounts(TripCountsDocument(report)) == Some(report)
  {
    PassengerElementsRoundTrip(report);
  }

  lemma {:induction false} PassengerElementsLength(groups: seq<PassengerTrips>)
    ensures |PassengerElements(groups)| == |groups|
  {
    if groups != [] {
      PassengerElementsLength(groups[..|groups| - 1]);
    }
  }

  /** Empty payment input gives a PassengerTripCounts root with no
      children. */
  lemma EmptyTripCountsDocument(passengers: seq<Passenger>)
    ensures TripCountsDocument(TripCountsReport(passengers, [])) == Element("PassengerTripCounts", [], [])
  {
    TripCountsWithoutPayments(passengers);
  }
}
