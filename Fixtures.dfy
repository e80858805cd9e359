/** The data of XmlProcessorTests.cs and what the two reports give for it. */
module Fixtures {
  import opened Records
  import opened Text
  import Xml
  import PaymentLoading
  import opened TripCounts
  import opened MonthlyTopRoutes

  /** passengers.xml: Петренко (id 1, category 1), Іваненко (id 2,
      category 2). */
  function TestPassengers(): seq<Passenger> {
    [Passenger(1, "Петренко", 1), Passenger(2, "Іваненко", 2)]
  }

  /** categories.xml: trip costs 8 and 4, in hundredths. */
  function TestCategories(): seq<Category> {
    [Category(1, 800), Category(2, 400)]
  }

  /** payments1.xml and payments2.xml, in that order. */
  function TestPaymentFiles(): seq<seq<Payment>> {
    [ [Payment(2024, 1, 10, 1, 5), Payment(2024, 1, 15, 1, 5)],
      [Payment(2024, 1, 20, 2, 10), Payment(2024, 2, 10, 1, 10)] ]
  }

  /** The two files' records one after another. */
  function TestPayments(): seq<Payment> {
    [Payment(2024, 1, 10, 1, 5), Payment(2024, 1, 15, 1, 5),
     Payment(2024, 1, 20, 2, 10), Payment(2024, 2, 10, 1, 10)]
  }

  /** Two Passenger elements, Іваненко first; Петренко has 2 trips on
      route 5. */
  lemma TripCountsFixture()
    ensures TripCountsReport(TestPassengers(), PaymentLoading.Concat(TestPaymentFiles()))
         == [PassengerTrips("Іваненко", [RouteCount(10, 1)]),
             PassengerTrips("Петренко", [RouteCount(5, 2), RouteCount(10, 1)])]
  {
    ConcatFixture();
    var ps, pays := TestPassengers(), TestPayments();
    var rows := [TripRow("Петренко", 5, 2), TripRow("Петренко", 10, 1), TripRow("Іваненко", 10, 1)];
    var sorted := [TripRow("Іваненко", 10, 1), TripRow("Петренко", 5, 2), TripRow("Петренко", 10, 1)];
    RowsFixture();
    SortRowsFixture(rows);
    assert SortRows(rows) == sorted;
    GroupFixture(sorted);
    ReportIsGrouping(ps, pays);
  }

  lemma RowsFixture()
    ensures Rows(TestPassengers(), TestPayments())
         == [TripRow("Петренко", 5, 2), TripRow("Петренко", 10, 1), TripRow("Іваненко", 10, 1)]
  {
    var ps, pays := TestPassengers(), TestPayments();
    PassengerRowsFixture();
    RowsOfPair(ps[0], ps[1], pays);
  }

  lemma RowsOfPair(a: Passenger, b: Passenger, payments: seq<Payment>)
    ensures Rows([a, b], payments) == PassengerRows(a, payments) + PassengerRows(b, payments)
  {
    assert [a, b][..1] == [a] && [a][..0] == [];
    assert Rows([a], payments) == PassengerRows(a, payments);
  }

  lemma PassengerRowsFixture()
    ensures var ps, pays := TestPassengers(), TestPayments();
            && PassengerRows(ps[0], pays) == [TripRow("Петренко", 5, 2), TripRow("Петренко", 10, 1)]
            && PassengerRows(ps[1], pays) == [TripRow("Іваненко", 10, 1)]
  {
    RouteCountsFixture();
    LabelledPair("Петренко", RouteCount(5, 2), RouteCount(10, 1));
    LabelledSingle("Іваненко", RouteCount(10, 1));
  }

  lemma LabelledPair(surname: string, a: RouteCount, b: RouteCount)
    ensures Labelled(surname, [a, b]) == [RowOf(surname, a), RowOf(surname, b)]
  {
  }

  lemma LabelledSingle(surname: string, a: RouteCount)
    ensures Labelled(surname, [a]) == [RowOf(surname, a)]
  {
  }

  lemma RouteCountsFixture()
    ensures var pays := TestPayments();
            && RouteCounts(PaymentsOf(pays, 1)) == [RouteCount(5, 2), RouteCount(10, 1)]
            && RouteCounts(PaymentsOf(pays, 2)) == [RouteCount(10, 1)]
  {
    var pays := TestPayments();
    PaymentsOfFixture();
    RouteCountsOfFirst([pays[0], pays[1], pays[3]]);
    assert [pays[2]][..0] == [];
  }

  /** Петренко's three trips: two on route 5, then one on route 10. */
  lemma RouteCountsOfFirst(mine: seq<Payment>)
    requires |mine| == 3 && mine[0].route == 5 && mine[1].route == 5 && mine[2].route == 10
    ensures RouteCounts(mine) == [RouteCount(5, 2), RouteCount(10, 1)]
  {
    var q0, q1 := mine[0], mine[1];
    assert mine[..2] == [q0, q1] && [q0, q1][..1] == [q0] && [q0][..0] == [];
    assert RouteCounts([q0]) == [RouteCount(5, 1)];
    RouteCountsOfPair(q0, q1);
    AddTripAfter();
  }

  lemma RouteCountsOfPair(q0: Payment, q1: Payment)
    requires q0.route == 5 && q1.route == 5
    ensures RouteCounts([q0, q1]) == [RouteCount(5, 2)]
  {
    assert [q0, q1][..1] == [q0] && [q0][..0] == [];
    assert RouteCounts([q0]) == [RouteCount(5, 1)];
    assert AddTrip([RouteCount(5, 1)], 5) == [RouteCount(5, 2)] + [RouteCount(5, 1)][1..];
  }

  lemma AddTripAfter()
    ensures AddTrip([RouteCount(5, 2)], 10) == [RouteCount(5, 2), RouteCount(10, 1)]
  {
    assert AddTrip([RouteCount(5, 2)], 10) == [RouteCount(5, 2)] + AddTrip([], 10);
  }

  lemma PaymentsOfFixture()
    ensures var pays := TestPayments();
            PaymentsOf(pays, 1) == [pays[0], pays[1], pays[3]] && PaymentsOf(pays, 2) == [pays[2]]
  {
    var pays := TestPayments();
    var q0, q1, q2, q3 := pays[0], pays[1], pays[2], pays[3];
    assert pays[..3] == [q0, q1, q2];
    assert [q0, q1, q2][..2] == [q0, q1];
    assert [q0, q1][..1] == [q0];
    assert [q0][..0] == [];
    assert PaymentsOf([q0], 1) == [q0] && PaymentsOf([q0], 2) == [];
    assert PaymentsOf([q0, q1], 1) == [q0, q1] && PaymentsOf([q0, q1], 2) == [];
    assert PaymentsOf([q0, q1, q2], 1) == [q0, q1] && PaymentsOf([q0, q1, q2], 2) == [q2];
  }

  lemma SortRowsFixture(rows: seq<TripRow>)
    requires rows == [TripRow("Петренко", 5, 2), TripRow("Петренко", 10, 1), TripRow("Іваненко", 10, 1)]
    ensures SortRows(rows) == [TripRow("Іваненко", 10, 1), TripRow("Петренко", 5, 2), TripRow("Петренко", 10, 1)]
  {
    var r0, r1, r2 := rows[0], rows[1], rows[2];
    assert rows[..2] == [r0, r1];
    LessIrreflexive("Петренко");
    SortPairFixture(r0, r1);
    assert RowLess(r2, r0) && RowLess(r2, r1);
    InsertRowBeforeAll([r0, r1], r2);
  }

  /** Two rows already in order stay as they are. */
  lemma SortPairFixture(r0: TripRow, r1: TripRow)
    requires !RowLess(r1, r0)
    ensures SortRows([r0, r1]) == [r0, r1]
  {
    assert [r0, r1][..1] == [r0] && [r0][..0] == [];
    assert SortRows([r0]) == [r0];
    assert InsertRow([r0], r1) == [r0] + InsertRow([], r1);
  }

  lemma GroupFixture(sorted: seq<TripRow>)
    requires sorted == [TripRow("Іваненко", 10, 1), TripRow("Петренко", 5, 2), TripRow("Петренко", 10, 1)]
    ensures GroupBySurname(sorted)
         == [PassengerTrips("Іваненко", [RouteCount(10, 1)]),
             PassengerTrips("Петренко", [RouteCount(5, 2), RouteCount(10, 1)])]
  {
    var r0, r1 := sorted[0], sorted[1];
    assert sorted[..2] == [r0, r1];
    GroupPairFixture(r0, r1);
    var g2 := [PassengerTrips("Іваненко", [RouteCount(10, 1)]), PassengerTrips("Петренко", [RouteCount(5, 2)])];
    AddToGroupFixture(g2, sorted[2]);
  }

  lemma GroupPairFixture(r0: TripRow, r1: TripRow)
    requires r0 == TripRow("Іваненко", 10, 1) && r1 == TripRow("Петренко", 5, 2)
    ensures GroupBySurname([r0, r1])
         == [PassengerTrips("Іваненко", [RouteCount(10, 1)]), PassengerTrips("Петренко", [RouteCount(5, 2)])]
  {
    assert [r0, r1][..1] == [r0];
    GroupSingle(r0);
    var g1 := [PassengerTrips("Іваненко", [RouteCount(10, 1)])];
    assert GroupBySurname([r0, r1]) == AddToGroup(g1, r1);
    NewGroupFixture(g1, r1);
  }

  lemma GroupSingle(r: TripRow)
    ensures GroupBySurname([r]) == [PassengerTrips(r.surname, [CountOfRow(r)])]
  {
    assert [r][..0] == [];
  }

  lemma NewGroupFixture(g1: seq<PassengerTrips>, r1: TripRow)
    requires g1 == [PassengerTrips("Іваненко", [RouteCount(10, 1)])] && r1 == TripRow("Петренко", 5, 2)
    ensures AddToGroup(g1, r1)
         == [PassengerTrips("Іваненко", [RouteCount(10, 1)]), PassengerTrips("Петренко", [RouteCount(5, 2)])]
  {
    assert "Іваненко" != "Петренко";
    assert IndexOfSurname(g1[1..], "Петренко") == 0;
    assert IndexOfSurname(g1, "Петренко") == 1;
  }

  lemma AddToGroupFixture(g2: seq<PassengerTrips>, r2: TripRow)
    requires g2 == [PassengerTrips("Іваненко", [RouteCount(10, 1)]), PassengerTrips("Петренко", [RouteCount(5, 2)])]
    requires r2 == TripRow("Петренко", 10, 1)
    ensures AddToGroup(g2, r2)
         == [PassengerTrips("Іваненко", [RouteCount(10, 1)]),
             PassengerTrips("Петренко", [RouteCount(5, 2), RouteCount(10, 1)])]
  {
    assert "Іваненко" != "Петренко";
    assert IndexOfSurname(g2[1..], "Петренко") == 0;
    assert IndexOfSurname(g2, "Петренко") == 1;
    assert CountOfRow(r2) == RouteCount(10, 1);
    assert [RouteCount(5, 2)] + [RouteCount(10, 1)] == [RouteCount(5, 2), RouteCount(10, 1)];
  }

  lemma ConcatFixture()
    ensures PaymentLoading.Concat(TestPaymentFiles()) == TestPayments()
  {
    var files := TestPaymentFiles();
    assert files[..1][..0] == [];
    assert files[..1] == [files[0]];
    assert PaymentLoading.Concat(files[..1]) == files[0];
  }

  /** One Month element per month, in month order: January's top route
      is 5 with 16.00 (two trips at 8.00), February's is 10 with 8.00. */
  lemma MonthlyTopRoutesFixture()
    ensures MonthlyTopRoutesReport(PaymentLoading.Concat(TestPaymentFiles()), TestPassengers(), TestCategories())
         == [MonthTop(2024, 1, 5, 1600), MonthTop(2024, 2, 10, 800)]
  {
    ConcatFixture();
    ChargesFixture();
    var charges := [Charge(2024, 1, 5, 800), Charge(2024, 1, 5, 800), Charge(2024, 1, 10, 400), Charge(2024, 2, 10, 800)];
    RouteSumsFixture(charges);
    var sums := [RouteSum(2024, 1, 5, 1600), RouteSum(2024, 1, 10, 400), RouteSum(2024, 2, 10, 800)];
    GroupByMonthFixture(sums);
    var groups := [MonthGroup(2024, 1, sums[..2]), MonthGroup(2024, 2, sums[2..])];
    assert sums[..2] == [RouteSum(2024, 1, 5, 1600), RouteSum(2024, 1, 10, 400)];
    assert sums[2..] == [RouteSum(2024, 2, 10, 800)];
    TopsFixture(groups);
    SortByMonthFixture(MonthTop(2024, 1, 5, 1600), MonthTop(2024, 2, 10, 800));
  }

  /** Both joins for a payment of a passenger in category 1 or 2. */
  lemma PaymentChargesFixture(q: Payment)
    requires q.passengerId == 1 || q.passengerId == 2
    ensures PaymentCharges(q, TestPassengers(), TestCategories())
         == [Charge(q.year, q.month, q.route, if q.passengerId == 1 then 800 else 400)]
  {
    var ps, cats := TestPassengers(), TestCategories();
    assert ps[..1] == [ps[0]] && ps[..1][..0] == [];
    assert cats[..1] == [cats[0]] && cats[..1][..0] == [];
    CategoryChargesFixture(q, ps[0]);
    CategoryChargesFixture(q, ps[1]);
    assert PaymentCharges(q, ps[..1], cats) == if q.passengerId == 1 then CategoryCharges(q, ps[0], cats) else [];
  }

  /** The category join for a passenger in category 1 or 2. */
  lemma CategoryChargesFixture(q: Payment, p: Passenger)
    requires p.categoryId == 1 || p.categoryId == 2
    ensures CategoryCharges(q, p, TestCategories())
         == [Charge(q.year, q.month, q.route, if p.categoryId == 1 then 800 else 400)]
  {
    var cats := TestCategories();
    assert cats[..1] == [cats[0]] && cats[..1][..0] == [];
    assert CategoryCharges(q, p, [cats[0]]) == CategoryCharges(q, p, []) + (if p.categoryId == 1 then [Charge(q.year, q.month, q.route, 800)] else []);
  }

  lemma ChargesFixture()
    ensures Charges(TestPayments(), TestPassengers(), TestCategories())
         == [Charge(2024, 1, 5, 800), Charge(2024, 1, 5, 800), Charge(2024, 1, 10, 400), Charge(2024, 2, 10, 800)]
  {
    var pays, ps, cats := TestPayments(), TestPassengers(), TestCategories();
    PaymentChargesFixture(pays[0]);
    PaymentChargesFixture(pays[1]);
    PaymentChargesFixture(pays[2]);
    PaymentChargesFixture(pays[3]);
    assert pays[..3][..2][..1][..0] == [];
    assert Charges(pays[..3][..2][..1], ps, cats) == [Charge(2024, 1, 5, 800)];
    assert Charges(pays[..3][..2], ps, cats) == [Charge(2024, 1, 5, 800), Charge(2024, 1, 5, 800)];
    assert Charges(pays[..3], ps, cats) == [Charge(2024, 1, 5, 800), Charge(2024, 1, 5, 800), Charge(2024, 1, 10, 400)];
  }

  lemma RouteSumsFixture(charges: seq<Charge>)
    requires charges == [Charge(2024, 1, 5, 800), Charge(2024, 1, 5, 800), Charge(2024, 1, 10, 400), Charge(2024, 2, 10, 800)]
    ensures RouteSums(charges) == [RouteSum(2024, 1, 5, 1600), RouteSum(2024, 1, 10, 400), RouteSum(2024, 2, 10, 800)]
  {
    assert charges[..3][..2][..1][..0] == [];
    var s1 := [RouteSum(2024, 1, 5, 800)];
    assert RouteSums(charges[..3][..2][..1]) == s1;
    var s2 := [RouteSum(2024, 1, 5, 1600)];
    assert IndexOfKey(s1, KeyOf(charges[1])) == 0;
    assert RouteSums(charges[..3][..2]) == s2;
    var s3 := s2 + [RouteSum(2024, 1, 10, 400)];
    assert IndexOfKey(s2[1..], KeyOf(charges[2])) == 0;
    assert IndexOfKey(s2, KeyOf(charges[2])) == 1;
    assert RouteSums(charges[..3]) == s3;
    assert IndexOfKey(s3[1..][1..], KeyOf(charges[3])) == 0;
    assert IndexOfKey(s3[1..], KeyOf(charges[3])) == 1;
    assert IndexOfKey(s3, KeyOf(charges[3])) == 2;
  }

  lemma GroupByMonthFixture(sums: seq<RouteSum>)
    requires sums == [RouteSum(2024, 1, 5, 1600), RouteSum(2024, 1, 10, 400), RouteSum(2024, 2, 10, 800)]
    ensures GroupByMonth(sums) == [MonthGroup(2024, 1, sums[..2]), MonthGroup(2024, 2, sums[2..])]
  {
    assert sums[..2][..1][..0] == [];
    var g1 := [MonthGroup(2024, 1, [sums[0]])];
    assert GroupByMonth(sums[..2][..1]) == g1;
    assert IndexOfMonth(g1, 2024, 1) == 0;
    var g2 := [MonthGroup(2024, 1, sums[..2])];
    assert [sums[0]] + [sums[1]] == sums[..2];
    assert GroupByMonth(sums[..2]) == g2;
    assert IndexOfMonth(g2[1..], 2024, 2) == 0;
    assert IndexOfMonth(g2, 2024, 2) == 1;
  }

  lemma TopsFixture(groups: seq<MonthGroup>)
    requires groups == [MonthGroup(2024, 1, [RouteSum(2024, 1, 5, 1600), RouteSum(2024, 1, 10, 400)]),
                        MonthGroup(2024, 2, [RouteSum(2024, 2, 10, 800)])]
    ensures Tops(groups) == [MonthTop(2024, 1, 5, 1600), MonthTop(2024, 2, 10, 800)]
  {
    SortedHeadIsFirstMax(groups[0].sums);
    SortedHeadIsFirstMax(groups[1].sums);
  }

  lemma SortByMonthFixture(a: MonthTop, b: MonthTop)
    requires MonthBefore(a, b)
    ensures SortByMonth([a, b]) == [a, b]
  {
    assert [a, b][..1] == [a] && [a][..0] == [];
    assert SortByMonth([a]) == [a];
  }

  /** The first Month element of the fixture's document: Year 2024,
      Month 1, route 5 with TotalSum 16.00. */
  lemma MonthElementFixture()
    ensures MonthElement(MonthTop(2024, 1, 5, 1600))
         == Xml.Element("Month", [Xml.Attribute("Year", "2024"), Xml.Attribute("Month", "1")],
              [Xml.Element("TopRoute", [Xml.Attribute("Number", "5"), Xml.Attribute("TotalSum", "16.00")], [])])
  {
    assert NatToString(2) == "2";
    assert NatToString(20) == "20";
    assert NatToString(202) == "202";
    assert NatToString(2024) == "2024";
    assert NatToString(1) == "1";
    assert NatToString(16) == "16";
    assert NatToString(5) == "5";
    assert IntToString(2024) == "2024" && IntToString(1) == "1" && IntToString(5) == "5";
    assert DigitChar(0) == '0';
    assert FormatHundredths(1600) == "16.00";
  }
}
