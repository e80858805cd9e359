/** Task B of XmlProcessor.cs (GetMonthlyTopRoutes): for each calendar
    month, the route that brought in the most money.

    The query is modelled stage by stage:
    - Charges: `from payment in allPayments join passenger ... join
      category ...`, an inner join that keeps, for each payment in list
      order, one charge per matching passenger and matching category;
      a payment whose passenger or category does not resolve gives none.
    - RouteSums: `group ... by {Year, Month, RouteNumber}` with
      `TotalSum = g.Sum(x => x.cost)`, groups in order of first appearance.
    - GroupByMonth: `group mrs by {Year, Month}`.
    - TopOfGroup: `monthGroup.OrderByDescending(x => x.TotalSum).First()`,
      a stable sort, so the first route with the largest total wins.
    - SortByMonth: `orderby Year, Month`.
    - MonthlyTopRoutesDocument: the Month / TopRoute elements. */
module MonthlyTopRoutes {
  import opened Records
  import opened Text
  import opened Xml

  // =====================================================================
  // payment join passenger join category
  // =====================================================================

  /** One item of the joined sequence: the payment's month and route and
      the trip cost of the category it resolved to. */
  datatype Charge = Charge(year: int, month: Month, route: int, cost: int)

  /** What RouteSums groups by. */
  datatype RouteKey = RouteKey(year: int, month: Month, route: int)

  function PaymentKey(q: Payment): RouteKey {
    RouteKey(q.year, q.month, q.route)
  }

  function KeyOf(c: Charge): RouteKey {
    RouteKey(c.year, c.month, c.route)
  }

  /** A passenger whose Id is the payment's PassengerId and whose
      CategoryId names an existing category. */
  predicate Resolves(q: Payment, passengers: seq<Passenger>, categories: seq<Category>) {
    exists p, c :: p in passengers && c in categories && p.id == q.passengerId && c.id == p.categoryId
  }

  /** `join category in categories on passenger.CategoryId equals
      category.Id` for one payment and one passenger: one charge per
      category with that id, in category list order. */
  function CategoryCharges(q: Payment, p: Passenger, categories: seq<Category>): (r: seq<Charge>)
    ensures forall c :: c in r ==> KeyOf(c) == PaymentKey(q)
  {
    if categories == [] then []
    else
      var cat := categories[|categories| - 1];
      CategoryCharges(q, p, categories[..|categories| - 1])
        + (if cat.id == p.categoryId then [Charge(q.year, q.month, q.route, cat.cost)] else [])
  }

  /** Both joins for one payment: the passengers with its PassengerId in
      list order, each followed by its categories. */
  function PaymentCharges(q: Payment, passengers: seq<Passenger>, categories: seq<Category>): (r: seq<Charge>)
    ensures forall c :: c in r ==> KeyOf(c) == PaymentKey(q)
  {
    if passengers == [] then []
    else
      var p := passengers[|passengers| - 1];
      PaymentCharges(q, passengers[..|passengers| - 1], categories)
        + (if p.id == q.passengerId then CategoryCharges(q, p, categories) else [])
  }

  /** The joined sequence, payment by payment in list order. */
  function Charges(payments: seq<Payment>, passengers: seq<Passenger>, categories: seq<Category>): seq<Charge> {
    if payments == [] then []
    else
      Charges(payments[..|payments| - 1], passengers, categories)
        + PaymentCharges(payments[|payments| - 1], passengers, categories)
  }

  lemma {:induction false} CategoryChargesNonEmpty(q: Payment, p: Passenger, categories: seq<Category>)
    ensures CategoryCharges(q, p, categories) != [] <==> exists c :: c in categories && c.id == p.categoryId
  {
    if categories != [] {
      var init, cat := categories[..|categories| - 1], categories[|categories| - 1];
      CategoryChargesNonEmpty(q, p, init);
      assert categories == init + [cat];
    }
  }

  /** A payment takes part in the join exactly when its passenger and that
      passenger's category both resolve. */
  lemma {:induction false} PaymentChargesNonEmpty(q: Payment, passengers: seq<Passenger>, categories: seq<Category>)
    ensures PaymentCharges(q, passengers, categories) != [] <==> Resolves(q, passengers, categories)
  {
    if passengers != [] {
      var init, p := passengers[..|passengers| - 1], passengers[|passengers| - 1];
      PaymentChargesNonEmpty(q, init, categories);
      CategoryChargesNonEmpty(q, p, categories);
      assert passengers == init + [p];
      if Resolves(q, passengers, categories) {
        var p', c :| p' in passengers && c in categories && p'.id == q.passengerId && c.id == p'.categoryId;
        if p' != p {
          assert p' in init;
        }
      }
    }
  }

  /** Each charge of one passenger's category join is that payment's trip
      at the cost of a category with the passenger's CategoryId. */
  lemma {:induction false} CategoryChargeSource(q: Payment, p: Passenger, categories: seq<Category>, k: nat)
    returns (c: Category)
    requires k < |CategoryCharges(q, p, categories)|
    ensures c in categories && c.id == p.categoryId
    ensures CategoryCharges(q, p, categories)[k] == Charge(q.year, q.month, q.route, c.cost)
  {
    var init, cat := categories[..|categories| - 1], categories[|categories| - 1];
    assert categories == init + [cat];
    if k < |CategoryCharges(q, p, init)| {
      c := CategoryChargeSource(q, p, init, k);
    } else {
      c := cat;
    }
  }

  /** Each charge of one payment comes from a passenger with its
      PassengerId and a category with that passenger's CategoryId. */
  lemma {:induction false} PaymentChargeSource(q: Payment, passengers: seq<Passenger>, categories: seq<Category>, k: nat)
    returns (p: Passenger, c: Category)
    requires k < |PaymentCharges(q, passengers, categories)|
    ensures p in passengers && c in categories && p.id == q.passengerId && c.id == p.categoryId
    ensures PaymentCharges(q, passengers, categories)[k] == Charge(q.year, q.month, q.route, c.cost)
  {
    var init, last := passengers[..|passengers| - 1], passengers[|passengers| - 1];
    assert passengers == init + [last];
    var before := PaymentCharges(q, init, categories);
    if k < |before| {
      p, c := PaymentChargeSource(q, init, categories, k);
    } else {
      p := last;
      c := CategoryChargeSource(q, last, categories, k - |before|);
    }
  }

  /** Each charge is a payment of the list, at the trip cost of a category
      its passenger belongs to. */
  lemma {:induction false} ChargeSource(payments: seq<Payment>, passengers: seq<Passenger>, categories: seq<Category>, k: nat)
    returns (q: Payment, p: Passenger, c: Category)
    requires k < |Charges(payments, passengers, categories)|
    ensures q in payments && Resolves(q, passengers, categories)
    ensures PaymentKey(q) == KeyOf(Charges(payments, passengers, categories)[k])
    ensures p in passengers && c in categories && p.id == q.passengerId && c.id == p.categoryId
    ensures Charges(payments, passengers, categories)[k] == Charge(q.year, q.month, q.route, c.cost)
  {
    var init, last := payments[..|payments| - 1], payments[|payments| - 1];
    var before := Charges(init, passengers, categories);
    assert payments == init + [last];
    if k < |before| {
      q, p, c := ChargeSource(init, passengers, categories, k);
    } else {
      q := last;
      p, c := PaymentChargeSource(last, passengers, categories, k - |before|);
    }
  }

  /** Each resolvable payment gives at least one charge. */
  lemma {:induction false} ChargeOfPayment(payments: seq<Payment>, passengers: seq<Passenger>, categories: seq<Category>, q: Payment)
    returns (k: nat)
    requires q in payments && Resolves(q, passengers, categories)
    ensures k < |Charges(payments, passengers, categories)|
    ensures KeyOf(Charges(payments, passengers, categories)[k]) == PaymentKey(q)
  {
    var init, last := payments[..|payments| - 1], payments[|payments| - 1];
    var before := Charges(init, passengers, categories);
    assert payments == init + [last];
    if q == last {
      PaymentChargesNonEmpty(last, passengers, categories);
      var mine := PaymentCharges(last, passengers, categories);
      assert mine[0] in mine;
      k := |before|;
    } else {
      k := ChargeOfPayment(init, passengers, categories, q);
    }
  }

  // =====================================================================
  // group by {Year, Month, RouteNumber}: TotalSum = g.Sum(x => x.cost)
  // =====================================================================

  /** The sum of the costs of the charges with key `key`. */
  function CostSum(charges: seq<Charge>, key: RouteKey): int {
    if charges == [] then 0
    else
      var c := charges[|charges| - 1];
      CostSum(charges[..|charges| - 1], key) + (if KeyOf(c) == key then c.cost else 0)
  }

  /** The position of the first charge with key `key`, or |charges| when
      there is none: the order LINQ creates the groups in. */
  function FirstCharge(charges: seq<Charge>, key: RouteKey): (i: nat)
    ensures i <= |charges|
    ensures i < |charges| ==> KeyOf(charges[i]) == key
    ensures forall j :: 0 <= j < i ==> KeyOf(charges[j]) != key
  {
    if charges == [] then 0
    else
      var init := charges[..|charges| - 1];
      var f := FirstCharge(init, key);
      if f < |init| then f
      else if KeyOf(charges[|charges| - 1]) == key then |init|
      else |charges|
  }

  predicate HasCharge(charges: seq<Charge>, key: RouteKey) {
    FirstCharge(charges, key) < |charges|
  }

  lemma HasChargeAt(charges: seq<Charge>, k: nat)
    requires k < |charges|
    ensures HasCharge(charges, KeyOf(charges[k])) && FirstCharge(charges, KeyOf(charges[k])) <= k
  {
  }

  /** A key has charges exactly when a payment with that month and route
      resolves. */
  lemma HasChargeIff(payments: seq<Payment>, passengers: seq<Passenger>, categories: seq<Category>, key: RouteKey)
    ensures HasCharge(Charges(payments, passengers, categories), key)
        <==> exists q :: q in payments && PaymentKey(q) == key && Resolves(q, passengers, categories)
  {
    var charges := Charges(payments, passengers, categories);
    if HasCharge(charges, key) {
      var q, p, c := ChargeSource(payments, passengers, categories, FirstCharge(charges, key));
    }
    if exists q :: q in payments && PaymentKey(q) == key && Resolves(q, passengers, categories) {
      var q :| q in payments && PaymentKey(q) == key && Resolves(q, passengers, categories);
      var k := ChargeOfPayment(payments, passengers, categories, q);
      HasChargeAt(charges, k);
    }
  }

  lemma CostSumSnoc(init: seq<Charge>, c: Charge, key: RouteKey)
    ensures CostSum(init + [c], key) == CostSum(init, key) + (if KeyOf(c) == key then c.cost else 0)
    ensures FirstCharge(init + [c], key) ==
              if HasCharge(init, key) then FirstCharge(init, key)
              else if KeyOf(c) == key then |init| else |init| + 1
  {
    assert (init + [c])[..|init|] == init;
  }

  /** A key without charges sums to nothing. */
  lemma {:induction false} NoChargeNoCost(charges: seq<Charge>, key: RouteKey)
    requires !HasCharge(charges, key)
    ensures CostSum(charges, key) == 0
  {
    if charges != [] {
      var init, c := charges[..|charges| - 1], charges[|charges| - 1];
      assert charges == init + [c];
      CostSumSnoc(init, c, key);
      NoChargeNoCost(init, key);
    }
  }

  lemma {:induction false} CostSumAppend(a: seq<Charge>, b: seq<Charge>, key: RouteKey)
    ensures CostSum(a + b, key) == CostSum(a, key) + CostSum(b, key)
  {
    if b == [] {
      assert a + b == a;
    } else {
      var init, c := b[..|b| - 1], b[|b| - 1];
      CostSumAppend(a, init, key);
      assert a + b == (a + init) + [c] && b == init + [c];
      CostSumSnoc(a + init, c, key);
      CostSumSnoc(init, c, key);
    }
  }

  /** Charges of other keys add nothing to a key's sum. */
  lemma {:induction false} CostSumOtherKeys(charges: seq<Charge>, key: RouteKey)
    requires forall c :: c in charges ==> KeyOf(c) != key
    ensures CostSum(charges, key) == 0
  {
    if charges != [] {
      var init := charges[..|charges| - 1];
      assert charges[|charges| - 1] in charges;
      forall c | c in init ensures KeyOf(c) != key {
        assert c in charges;
      }
      CostSumOtherKeys(init, key);
    }
  }

  // ---------------------------------------------------------------------
  // What one payment is charged
  // ---------------------------------------------------------------------

  /** What one trip of passenger `p` costs: the TripCost of every category
      whose Id is the passenger's CategoryId, added up. */
  function CategoryCost(p: Passenger, categories: seq<Category>): int {
    if categories == [] then 0
    else
      var c := categories[|categories| - 1];
      CategoryCost(p, categories[..|categories| - 1]) + (if c.id == p.categoryId then c.cost else 0)
  }

  /** The number of categories whose Id is the passenger's CategoryId. */
  function CategoryMatches(p: Passenger, categories: seq<Category>): nat {
    if categories == [] then 0
    else CategoryMatches(p, categories[..|categories| - 1]) + (if categories[|categories| - 1].id == p.categoryId then 1 else 0)
  }

  /** What one payment of passenger id `id` costs: CategoryCost added up
      over every passenger with that Id. */
  function PassengerCost(id: int, passengers: seq<Passenger>, categories: seq<Category>): int {
    if passengers == [] then 0
    else
      var p := passengers[|passengers| - 1];
      PassengerCost(id, passengers[..|passengers| - 1], categories) + (if p.id == id then CategoryCost(p, categories) else 0)
  }

  /** The number of (passenger, category) pairs a payment of passenger id
      `id` joins with. */
  function PassengerMatches(id: int, passengers: seq<Passenger>, categories: seq<Category>): nat {
    if passengers == [] then 0
    else
      var p := passengers[|passengers| - 1];
      PassengerMatches(id, passengers[..|passengers| - 1], categories) + (if p.id == id then CategoryMatches(p, categories) else 0)
  }

  lemma ChargeCost(c: Charge, key: RouteKey)
    ensures CostSum([c], key) == if KeyOf(c) == key then c.cost else 0
  {
    assert [c][..0] == [];
  }

  /** One passenger's category join has one row per matching category, and
      its costs add up to CategoryCost. */
  lemma {:induction false} CategoryChargesCost(q: Payment, p: Passenger, categories: seq<Category>)
    ensures CostSum(CategoryCharges(q, p, categories), PaymentKey(q)) == CategoryCost(p, categories)
    ensures |CategoryCharges(q, p, categories)| == CategoryMatches(p, categories)
  {
    if categories != [] {
      var init, cat := categories[..|categories| - 1], categories[|categories| - 1];
      CategoryChargesCost(q, p, init);
      var mine := if cat.id == p.categoryId then [Charge(q.year, q.month, q.route, cat.cost)] else [];
      CostSumAppend(CategoryCharges(q, p, init), mine, PaymentKey(q));
      if cat.id == p.categoryId {
        ChargeCost(mine[0], PaymentKey(q));
      }
    }
  }

  /** One payment's joins have one row per matching (passenger, category)
      pair, and their costs add up to PassengerCost: a payment whose
      passenger or category occurs twice is charged twice. */
  lemma {:induction false} PaymentChargesCost(q: Payment, passengers: seq<Passenger>, categories: seq<Category>)
    ensures CostSum(PaymentCharges(q, passengers, categories), PaymentKey(q)) == PassengerCost(q.passengerId, passengers, categories)
    ensures |PaymentCharges(q, passengers, categories)| == PassengerMatches(q.passengerId, passengers, categories)
  {
    if passengers != [] {
      var init, p := passengers[..|passengers| - 1], passengers[|passengers| - 1];
      PaymentChargesCost(q, init, categories);
      var mine := if p.id == q.passengerId then CategoryCharges(q, p, categories) else [];
      CostSumAppend(PaymentCharges(q, init, categories), mine, PaymentKey(q));
      CategoryChargesCost(q, p, categories);
    }
  }

  /** The revenue of one (year, month, route) counted payment by payment:
      PassengerCost for each payment with that key. */
  function PaymentsRevenue(payments: seq<Payment>, passengers: seq<Passenger>, categories: seq<Category>, key: RouteKey): int {
    if payments == [] then 0
    else
      var q := payments[|payments| - 1];
      PaymentsRevenue(payments[..|payments| - 1], passengers, categories, key)
        + (if PaymentKey(q) == key then PassengerCost(q.passengerId, passengers, categories) else 0)
  }

  /** The number of rows the joins give for a list of payments. */
  function JoinedRows(payments: seq<Payment>, passengers: seq<Passenger>, categories: seq<Category>): nat {
    if payments == [] then 0
    else
      JoinedRows(payments[..|payments| - 1], passengers, categories)
        + PassengerMatches(payments[|payments| - 1].passengerId, passengers, categories)
  }

  /** The joins give one row per payment and matching (passenger, category)
      pair, and the cost sum of a key is its revenue counted payment by
      payment. */
  lemma {:induction false} ChargesCost(payments: seq<Payment>, passengers: seq<Passenger>, categories: seq<Category>, key: RouteKey)
    ensures |Charges(payments, passengers, categories)| == JoinedRows(payments, passengers, categories)
    ensures CostSum(Charges(payments, passengers, categories), key) == PaymentsRevenue(payments, passengers, categories, key)
  {
    if payments != [] {
      var init, q := payments[..|payments| - 1], payments[|payments| - 1];
      ChargesCost(init, passengers, categories, key);
      var mine := PaymentCharges(q, passengers, categories);
      CostSumAppend(Charges(init, passengers, categories), mine, key);
      PaymentChargesCost(q, passengers, categories);
      if PaymentKey(q) != key {
        CostSumOtherKeys(mine, key);
      }
    }
  }

  /** One monthlyRouteSums item: a (year, month, route) group and its
      TotalSum. */
  datatype RouteSum = RouteSum(year: int, month: Month, route: int, total: int)

  function SumKey(s: RouteSum): RouteKey {
    RouteKey(s.year, s.month, s.route)
  }

  /** The position of the group with key `key`, or |sums| when there is
      none. */
  function IndexOfKey(sums: seq<RouteSum>, key: RouteKey): (i: nat)
    ensures i <= |sums|
    ensures i < |sums| ==> SumKey(sums[i]) == key
    ensures forall j :: 0 <= j < i ==> SumKey(sums[j]) != key
  {
    if sums == [] then 0
    else if SumKey(sums[0]) == key then 0
    else 1 + IndexOfKey(sums[1..], key)
  }

  lemma IndexOfKeyAtMost(sums: seq<RouteSum>, j: nat)
    requires j < |sums|
    ensures IndexOfKey(sums, SumKey(sums[j])) <= j
  {
  }

  /** Add one charge to its group, opening the group at the end when its
      key is new. */
  function AddCharge(sums: seq<RouteSum>, c: Charge): seq<RouteSum> {
    var i := IndexOfKey(sums, KeyOf(c));
    if i < |sums| then sums[i := sums[i].(total := sums[i].total + c.cost)]
    else sums + [RouteSum(c.year, c.month, c.route, c.cost)]
  }

  /** `sums` is the grouping of `charges` by key: each group totals its
      charges, every charge has its group, and the groups come in the
      order their first charges do. */
  predicate SumsOf(charges: seq<Charge>, sums: seq<RouteSum>) {
    && (forall i :: 0 <= i < |sums| ==>
          sums[i].total == CostSum(charges, SumKey(sums[i])) && HasCharge(charges, SumKey(sums[i])))
    && (forall k :: 0 <= k < |charges| ==> IndexOfKey(sums, KeyOf(charges[k])) < |sums|)
    && (forall i, j :: 0 <= i < j < |sums| ==>
          FirstCharge(charges, SumKey(sums[i])) < FirstCharge(charges, SumKey(sums[j])))
  }

  predicate KeysDistinct(sums: seq<RouteSum>) {
    forall i, j :: 0 <= i < j < |sums| ==> SumKey(sums[i]) != SumKey(sums[j])
  }

  lemma SumsOfDistinct(charges: seq<Charge>, sums: seq<RouteSum>)
    requires SumsOf(charges, sums)
    ensures KeysDistinct(sums)
  {
  }

  /** A key with charges has its group. */
  lemma SumsOfHasCharge(charges: seq<Charge>, sums: seq<RouteSum>, key: RouteKey)
    requires SumsOf(charges, sums) && HasCharge(charges, key)
    ensures IndexOfKey(sums, key) < |sums|
  {
    assert KeyOf(charges[FirstCharge(charges, key)]) == key;
  }

  /** Every group keeps its key when a charge is added, and the charge's
      key gets one. */
  lemma AddChargeKeys(sums: seq<RouteSum>, c: Charge)
    ensures var r := AddCharge(sums, c);
            && |r| == |sums| + (if IndexOfKey(sums, KeyOf(c)) < |sums| then 0 else 1)
            && (forall i :: 0 <= i < |sums| ==> SumKey(r[i]) == SumKey(sums[i]))
            && IndexOfKey(r, KeyOf(c)) < |r|
  {
    var r := AddCharge(sums, c);
    var i0 := IndexOfKey(sums, KeyOf(c));
    if i0 == |sums| {
      IndexOfKeyAtMost(r, |sums|);
    } else {
      IndexOfKeyAtMost(r, i0);
    }
  }

  lemma AddChargeFound(sums: seq<RouteSum>, c: Charge, key: RouteKey)
    requires IndexOfKey(sums, key) < |sums|
    ensures IndexOfKey(AddCharge(sums, c), key) < |AddCharge(sums, c)|
  {
    AddChargeKeys(sums, c);
    var j := IndexOfKey(sums, key);
    IndexOfKeyAtMost(AddCharge(sums, c), j);
  }

  /** The total of one group after the next charge is added. */
  lemma AddChargeTotal(init: seq<Charge>, c: Charge, sums: seq<RouteSum>, i: nat)
    requires SumsOf(init, sums) && i < |AddCharge(sums, c)|
    ensures var r := AddCharge(sums, c);
            r[i].total == CostSum(init + [c], SumKey(r[i])) && HasCharge(init + [c], SumKey(r[i]))
            && (i < |sums| ==> FirstCharge(init + [c], SumKey(r[i])) == FirstCharge(init, SumKey(sums[i])))
            && (i == |sums| ==> FirstCharge(init + [c], SumKey(r[i])) == |init|)
  {
    var r := AddCharge(sums, c);
    var i0 := IndexOfKey(sums, KeyOf(c));
    AddChargeKeys(sums, c);
    var key := SumKey(r[i]);
    CostSumSnoc(init, c, key);
    if i == |sums| {
      assert key == KeyOf(c);
      if HasCharge(init, key) {
        SumsOfHasCharge(init, sums, key);
      }
      NoChargeNoCost(init, key);
    } else if i == i0 {
      assert key == KeyOf(c);
    } else {
      assert r[i] == sums[i];
      if i0 < |sums| {
        assert SumKey(sums[i0]) == KeyOf(c);
        SumsOfDistinct(init, sums);
      }
    }
  }

  /** Adding the next charge to its group keeps the grouping. */
  lemma AddChargeSums(init: seq<Charge>, c: Charge, sums: seq<RouteSum>)
    requires SumsOf(init, sums)
    ensures SumsOf(init + [c], AddCharge(sums, c))
  {
    var charges := init + [c];
    var r := AddCharge(sums, c);
    AddChargeKeys(sums, c);
    forall i | 0 <= i < |r|
      ensures r[i].total == CostSum(charges, SumKey(r[i])) && HasCharge(charges, SumKey(r[i]))
    {
      AddChargeTotal(init, c, sums, i);
    }
    forall k | 0 <= k < |charges| ensures IndexOfKey(r, KeyOf(charges[k])) < |r| {
      if k < |init| {
        assert charges[k] == init[k];
        AddChargeFound(sums, c, KeyOf(init[k]));
      }
    }
    forall i, j | 0 <= i < j < |r|
      ensures FirstCharge(charges, SumKey(r[i])) < FirstCharge(charges, SumKey(r[j]))
    {
      AddChargeTotal(init, c, sums, i);
      AddChargeTotal(init, c, sums, j);
    }
  }

  lemma RouteSumsStep(charges: seq<Charge>, sums: seq<RouteSum>)
    requires charges != [] && SumsOf(charges[..|charges| - 1], sums)
    ensures SumsOf(charges, AddCharge(sums, charges[|charges| - 1]))
  {
    var init, c := charges[..|charges| - 1], charges[|charges| - 1];
    AddChargeSums(init, c, sums);
    assert charges == init + [c];
  }

  /** `group ... by new { Year, Month, RouteNumber } ... TotalSum =
      g.Sum(x => x.cost)`: the groups in order of first appearance, each
      with the sum of its charges' costs. */
  function RouteSums(charges: seq<Charge>): (sums: seq<RouteSum>)
    ensures SumsOf(charges, sums)
  {
    if charges == [] then []
    else
      var sums := RouteSums(charges[..|charges| - 1]);
      RouteSumsStep(charges, sums);
      AddCharge(sums, charges[|charges| - 1])
  }

  // =====================================================================
  // group mrs by new { mrs.Year, mrs.Month }
  // =====================================================================

  /** One monthGroup: a month and its route sums, in order. */
  datatype MonthGroup = MonthGroup(year: int, month: Month, sums: seq<RouteSum>)

  /** The route sums of one month, in order. */
  function InMonth(sums: seq<RouteSum>, year: int, month: Month): (r: seq<RouteSum>)
    ensures forall s :: s in r ==> s in sums && s.year == year && s.month == month
  {
    if sums == [] then []
    else
      var s := sums[|sums| - 1];
      InMonth(sums[..|sums| - 1], year, month) + (if s.year == year && s.month == month then [s] else [])
  }

  lemma InMonthSnoc(init: seq<RouteSum>, s: RouteSum, year: int, month: Month)
    ensures InMonth(init + [s], year, month) == InMonth(init, year, month) + (if s.year == year && s.month == month then [s] else [])
  {
    assert (init + [s])[..|init|] == init;
  }

  lemma {:induction false} InMonthMember(sums: seq<RouteSum>, s: RouteSum)
    requires s in sums
    ensures s in InMonth(sums, s.year, s.month)
  {
    var init, last := sums[..|sums| - 1], sums[|sums| - 1];
    assert sums == init + [last];
    if last != s {
      InMonthMember(init, s);
    }
  }

  /** The route sums come in the order their first charges do. */
  predicate ChargeOrdered(charges: seq<Charge>, sums: seq<RouteSum>) {
    forall i, j :: 0 <= i < j < |sums| ==> FirstCharge(charges, SumKey(sums[i])) < FirstCharge(charges, SumKey(sums[j]))
  }

  /** Keeping one month keeps the order. */
  lemma {:induction false} InMonthOrdered(charges: seq<Charge>, sums: seq<RouteSum>, year: int, month: Month)
    requires ChargeOrdered(charges, sums)
    ensures ChargeOrdered(charges, InMonth(sums, year, month))
  {
    if sums != [] {
      var init, last := sums[..|sums| - 1], sums[|sums| - 1];
      assert sums == init + [last];
      assert ChargeOrdered(charges, init) by {
        forall i, j | 0 <= i < j < |init|
          ensures FirstCharge(charges, SumKey(init[i])) < FirstCharge(charges, SumKey(init[j]))
        {
          assert init[i] == sums[i] && init[j] == sums[j];
        }
      }
      InMonthOrdered(charges, init, year, month);
      var u := InMonth(init, year, month);
      if last.year == year && last.month == month {
        forall i | 0 <= i < |u| ensures FirstCharge(charges, SumKey(u[i])) < FirstCharge(charges, SumKey(last)) {
          assert u[i] in u;
          var k :| 0 <= k < |init| && init[k] == u[i];
          assert sums[k] == u[i];
        }
        var r := u + [last];
        forall i, j | 0 <= i < j < |r| ensures FirstCharge(charges, SumKey(r[i])) < FirstCharge(charges, SumKey(r[j])) {
          assert r[i] == u[i];
          if j < |u| {
            assert r[j] == u[j];
          }
        }
      } else {
        assert u + [] == u;
      }
    }
  }

  predicate MonthsDistinct(groups: seq<MonthGroup>) {
    forall i, j :: 0 <= i < j < |groups| ==> (groups[i].year, groups[i].month) != (groups[j].year, groups[j].month)
  }

  /** The position of the group of (year, month), or |groups| when there
      is none. */
  function IndexOfMonth(groups: seq<MonthGroup>, year: int, month: Month): (i: nat)
    ensures i <= |groups|
    ensures i < |groups| ==> groups[i].year == year && groups[i].month == month
    ensures forall j :: 0 <= j < i ==> (groups[j].year, groups[j].month) != (year, month)
  {
    if groups == [] then 0
    else if groups[0].year == year && groups[0].month == month then 0
    else 1 + IndexOfMonth(groups[1..], year, month)
  }

  lemma IndexOfMonthAtMost(groups: seq<MonthGroup>, j: nat)
    requires j < |groups|
    ensures IndexOfMonth(groups, groups[j].year, groups[j].month) <= j
  {
  }

  /** Add one route sum to its month's group, opening the group at the end
      when the month is new. */
  function AddSum(groups: seq<MonthGroup>, s: RouteSum): seq<MonthGroup> {
    var i := IndexOfMonth(groups, s.year, s.month);
    if i < |groups| then groups[i := groups[i].(sums := groups[i].sums + [s])]
    else groups + [MonthGroup(s.year, s.month, [s])]
  }

  /** `groups` is the grouping of `sums` by month: one group per month,
      holding that month's sums in order, and every sum has its group. */
  predicate MonthsOf(sums: seq<RouteSum>, groups: seq<MonthGroup>) {
    && MonthsDistinct(groups)
    && (forall i :: 0 <= i < |groups| ==>
          groups[i].sums == InMonth(sums, groups[i].year, groups[i].month) && groups[i].sums != [])
    && (forall k :: 0 <= k < |sums| ==> IndexOfMonth(groups, sums[k].year, sums[k].month) < |groups|)
  }

  lemma AddSumDistinct(g: seq<MonthGroup>, s: RouteSum)
    requires MonthsDistinct(g)
    ensures MonthsDistinct(AddSum(g, s))
  {
    var r := AddSum(g, s);
    forall i, j | 0 <= i < j < |r| ensures (r[i].year, r[i].month) != (r[j].year, r[j].month) {
      assert r[i].year == g[i].year && r[i].month == g[i].month;
      if j < |g| {
        assert r[j].year == g[j].year && r[j].month == g[j].month;
      }
    }
  }

  lemma AddSumFound(g: seq<MonthGroup>, s: RouteSum, year: int, month: Month)
    requires IndexOfMonth(g, year, month) < |g|
    ensures IndexOfMonth(AddSum(g, s), year, month) < |AddSum(g, s)|
  {
    var r := AddSum(g, s);
    var j := IndexOfMonth(g, year, month);
    assert r[j].year == year && r[j].month == month;
    IndexOfMonthAtMost(r, j);
  }

  lemma AddSumHasSum(g: seq<MonthGroup>, s: RouteSum)
    ensures IndexOfMonth(AddSum(g, s), s.year, s.month) < |AddSum(g, s)|
  {
    var r := AddSum(g, s);
    if IndexOfMonth(g, s.year, s.month) < |g| {
      AddSumFound(g, s, s.year, s.month);
    } else {
      assert r[|g|].year == s.year && r[|g|].month == s.month;
      IndexOfMonthAtMost(r, |g|);
    }
  }

  /** A month without a group has no sums. */
  lemma UngroupedMonth(sums: seq<RouteSum>, g: seq<MonthGroup>, year: int, month: Month)
    requires MonthsOf(sums, g) && IndexOfMonth(g, year, month) == |g|
    ensures InMonth(sums, year, month) == []
  {
    if InMonth(sums, year, month) != [] {
      var k := InMonthNonEmpty(sums, year, month);
      assert false;
    }
  }

  lemma InMonthNonEmpty(sums: seq<RouteSum>, year: int, month: Month) returns (k: nat)
    requires InMonth(sums, year, month) != []
    ensures k < |sums| && sums[k].year == year && sums[k].month == month
  {
    var r := InMonth(sums, year, month);
    assert r[0] in r;
    k :| 0 <= k < |sums| && sums[k] == r[0];
  }

  lemma AddSumSums(init: seq<RouteSum>, s: RouteSum, g: seq<MonthGroup>, i: nat)
    requires MonthsOf(init, g) && i < |AddSum(g, s)|
    ensures var r := AddSum(g, s);
            r[i].sums == InMonth(init + [s], r[i].year, r[i].month) && r[i].sums != []
  {
    var r := AddSum(g, s);
    var i0 := IndexOfMonth(g, s.year, s.month);
    if i == |g| {
      AddSumNewMonth(init, s, g);
    } else if i == i0 {
      AddSumSameMonth(init, s, g);
    } else {
      AddSumOtherMonth(init, s, g, i);
    }
  }

  lemma AddSumNewMonth(init: seq<RouteSum>, s: RouteSum, g: seq<MonthGroup>)
    requires MonthsOf(init, g) && IndexOfMonth(g, s.year, s.month) == |g|
    ensures var r := AddSum(g, s);
            |r| == |g| + 1 && r[|g|].sums == InMonth(init + [s], r[|g|].year, r[|g|].month) && r[|g|].sums != []
  {
    InMonthSnoc(init, s, s.year, s.month);
    UngroupedMonth(init, g, s.year, s.month);
  }

  lemma AddSumSameMonth(init: seq<RouteSum>, s: RouteSum, g: seq<MonthGroup>)
    requires MonthsOf(init, g) && IndexOfMonth(g, s.year, s.month) < |g|
    ensures var r, i := AddSum(g, s), IndexOfMonth(g, s.year, s.month);
            r[i].sums == InMonth(init + [s], r[i].year, r[i].month) && r[i].sums != []
  {
    InMonthSnoc(init, s, s.year, s.month);
  }

  lemma AddSumOtherMonth(init: seq<RouteSum>, s: RouteSum, g: seq<MonthGroup>, i: nat)
    requires MonthsOf(init, g) && i < |g| && i != IndexOfMonth(g, s.year, s.month)
    ensures var r := AddSum(g, s);
            r[i].sums == InMonth(init + [s], r[i].year, r[i].month) && r[i].sums != []
  {
    var r := AddSum(g, s);
    assert r[i] == g[i];
    var year, month := g[i].year, g[i].month;
    InMonthSnoc(init, s, year, month);
    var u := InMonth(init, year, month);
    if (year, month) == (s.year, s.month) {
      IndexOfMonthAtMost(g, i);
      assert false;
    }
    assert u + [] == u;
  }

  lemma AddSumMonths(sums: seq<RouteSum>, g: seq<MonthGroup>)
    requires sums != [] && MonthsOf(sums[..|sums| - 1], g)
    ensures MonthsOf(sums, AddSum(g, sums[|sums| - 1]))
  {
    var init, s := sums[..|sums| - 1], sums[|sums| - 1];
    assert sums == init + [s];
    var r := AddSum(g, s);
    AddSumDistinct(g, s);
    forall i | 0 <= i < |r| ensures r[i].sums == InMonth(sums, r[i].year, r[i].month) && r[i].sums != [] {
      AddSumSums(init, s, g, i);
    }
    forall k | 0 <= k < |sums| ensures IndexOfMonth(r, sums[k].year, sums[k].month) < |r| {
      if k < |init| {
        assert sums[k] == init[k];
        AddSumFound(g, s, init[k].year, init[k].month);
      } else {
        AddSumHasSum(g, s);
      }
    }
  }

  /** `group mrs by new { mrs.Year, mrs.Month }`: one group per month,
      holding that month's route sums in order. */
  function GroupByMonth(sums: seq<RouteSum>): (groups: seq<MonthGroup>)
    ensures MonthsOf(sums, groups)
  {
    if sums == [] then []
    else
      var g := GroupByMonth(sums[..|sums| - 1]);
      AddSumMonths(sums, g);
      AddSum(g, sums[|sums| - 1])
  }

  // =====================================================================
  // monthGroup.OrderByDescending(x => x.TotalSum).First()
  // =====================================================================

  /** Insert `x` after every sum whose total is not smaller: the step of
      a stable sort by descending total. */
  function InsertByTotal(sorted: seq<RouteSum>, x: RouteSum): (r: seq<RouteSum>)
    ensures |r| == |sorted| + 1
    ensures r[0] == if sorted == [] || x.total > sorted[0].total then x else sorted[0]
  {
    if sorted == [] then [x]
    else if x.total > sorted[0].total then [x] + sorted
    else [sorted[0]] + InsertByTotal(sorted[1..], x)
  }

  /** `OrderByDescending(x => x.TotalSum)`, a stable insertion sort. */
  function SortByTotalDescending(sums: seq<RouteSum>): (r: seq<RouteSum>)
    ensures |r| == |sums|
  {
    if sums == [] then []
    else InsertByTotal(SortByTotalDescending(sums[..|sums| - 1]), sums[|sums| - 1])
  }

  /** The position of the first sum with the largest total: no total is
      larger, and every earlier one is smaller. */
  function FirstMaxIndex(sums: seq<RouteSum>): (k: nat)
    requires sums != []
    ensures k < |sums|
    ensures forall j :: 0 <= j < |sums| ==> sums[j].total <= sums[k].total
    ensures forall j :: 0 <= j < k ==> sums[j].total < sums[k].total
  {
    if |sums| == 1 then 0
    else
      var k := FirstMaxIndex(sums[..|sums| - 1]);
      if sums[|sums| - 1].total > sums[k].total then |sums| - 1 else k
  }

  /** `First()` of the stable descending sort is the first maximum. */
  lemma {:induction false} SortedHeadIsFirstMax(sums: seq<RouteSum>)
    requires sums != []
    ensures SortByTotalDescending(sums)[0] == sums[FirstMaxIndex(sums)]
  {
    if |sums| > 1 {
      var init := sums[..|sums| - 1];
      SortedHeadIsFirstMax(init);
      assert init[FirstMaxIndex(init)] == sums[FirstMaxIndex(init)];
    }
  }

  /** One topRoutes item. */
  datatype MonthTop = MonthTop(year: int, month: Month, route: int, total: int)

  /** The select of topRoutes for one month group. */
  function TopOfGroup(g: MonthGroup): MonthTop
    requires g.sums != []
  {
    var top := SortByTotalDescending(g.sums)[0];
    MonthTop(g.year, g.month, top.route, top.total)
  }

  function Tops(groups: seq<MonthGroup>): (r: seq<MonthTop>)
    requires forall i :: 0 <= i < |groups| ==> groups[i].sums != []
    ensures |r| == |groups|
    ensures forall i :: 0 <= i < |groups| ==> r[i] == TopOfGroup(groups[i])
  {
    if groups == [] then []
    else Tops(groups[..|groups| - 1]) + [TopOfGroup(groups[|groups| - 1])]
  }

  // =====================================================================
  // orderby monthGroup.Key.Year, monthGroup.Key.Month
  // =====================================================================

  predicate MonthBefore(a: MonthTop, b: MonthTop) {
    a.year < b.year || (a.year == b.year && a.month < b.month)
  }

  /** Insert `t` after every entry whose month is not later: the step of a
      stable sort by month. */
  function InsertTop(sorted: seq<MonthTop>, t: MonthTop): (r: seq<MonthTop>)
    ensures multiset(r) == multiset(sorted) + multiset{t}
  {
    if sorted == [] then [t]
    else if MonthBefore(t, sorted[0]) then [t] + sorted
    else
      assert sorted == [sorted[0]] + sorted[1..];
      [sorted[0]] + InsertTop(sorted[1..], t)
  }

  /** `orderby Year, Month`: a stable insertion sort, a permutation of
      its input. */
  function SortByMonth(tops: seq<MonthTop>): (r: seq<MonthTop>)
    ensures multiset(r) == multiset(tops)
  {
    if tops == [] then []
    else
      var init, t := tops[..|tops| - 1], tops[|tops| - 1];
      assert tops == init + [t];
      InsertTop(SortByMonth(init), t)
  }

  predicate StrictlyByMonth(tops: seq<MonthTop>) {
    forall i, j :: 0 <= i < j < |tops| ==> MonthBefore(tops[i], tops[j])
  }

  predicate TopMonthsDistinct(tops: seq<MonthTop>) {
    forall i, j :: 0 <= i < j < |tops| ==> (tops[i].year, tops[i].month) != (tops[j].year, tops[j].month)
  }

  /** Inserting a month that is not there yet keeps the order strict. */
  lemma {:induction false} InsertTopStrict(sorted: seq<MonthTop>, t: MonthTop)
    requires StrictlyByMonth(sorted)
    requires forall e :: e in sorted ==> (e.year, e.month) != (t.year, t.month)
    ensures StrictlyByMonth(InsertTop(sorted, t))
  {
    if sorted != [] {
      if MonthBefore(t, sorted[0]) {
        var r := [t] + sorted;
        forall i, j | 0 <= i < j < |r| ensures MonthBefore(r[i], r[j]) {
          if i > 0 {
            assert r[i] == sorted[i - 1] && r[j] == sorted[j - 1];
          } else if j > 1 {
            assert MonthBefore(sorted[0], sorted[j - 1]);
          }
        }
      } else {
        var rest := sorted[1..];
        assert StrictlyByMonth(rest) by {
          forall i, j | 0 <= i < j < |rest| ensures MonthBefore(rest[i], rest[j]) {
            assert rest[i] == sorted[i + 1] && rest[j] == sorted[j + 1];
          }
        }
        assert forall e :: e in rest ==> e in sorted;
        InsertTopStrict(rest, t);
        var tail := InsertTop(rest, t);
        assert sorted[0] in sorted;
        forall k | 0 <= k < |tail| ensures MonthBefore(sorted[0], tail[k]) {
          assert tail[k] in multiset(tail);
          if tail[k] != t {
            var j :| 0 <= j < |rest| && rest[j] == tail[k];
            assert sorted[j + 1] == tail[k];
          }
        }
        var r := [sorted[0]] + tail;
        forall i, j | 0 <= i < j < |r| ensures MonthBefore(r[i], r[j]) {
          if i > 0 {
            assert r[i] == tail[i - 1] && r[j] == tail[j - 1];
          } else {
            assert r[j] == tail[j - 1];
          }
        }
      }
    }
  }

  /** With one entry per month, sorting gives strictly ascending months. */
  lemma {:induction false} SortByMonthStrict(tops: seq<MonthTop>)
    requires TopMonthsDistinct(tops)
    ensures StrictlyByMonth(SortByMonth(tops))
  {
    if tops != [] {
      var init, t := tops[..|tops| - 1], tops[|tops| - 1];
      assert TopMonthsDistinct(init) by {
        forall i, j | 0 <= i < j < |init|
          ensures (init[i].year, init[i].month) != (init[j].year, init[j].month)
        {
          assert init[i] == tops[i] && init[j] == tops[j];
        }
      }
      SortByMonthStrict(init);
      var sorted := SortByMonth(init);
      forall e | e in sorted ensures (e.year, e.month) != (t.year, t.month) {
        assert e in multiset(init);
        var j :| 0 <= j < |init| && init[j] == e;
        assert tops[j] == e;
      }
      InsertTopStrict(sorted, t);
    }
  }

  // =====================================================================
  // The report
  // =====================================================================

  /** topRoutes: the top route of each month, months in order. */
  function MonthlyTopRoutesReport(payments: seq<Payment>, passengers: seq<Passenger>, categories: seq<Category>): seq<MonthTop> {
    SortByMonth(Tops(GroupByMonth(RouteSums(Charges(payments, passengers, categories)))))
  }

  /** The sum of the category costs over the resolvable payments of one
      route in one month. */
  function RouteRevenue(payments: seq<Payment>, passengers: seq<Passenger>, categories: seq<Category>, key: RouteKey): int {
    CostSum(Charges(payments, passengers, categories), key)
  }

  /** Some payment of that month and route resolves. */
  predicate RouteCharged(payments: seq<Payment>, passengers: seq<Passenger>, categories: seq<Category>, key: RouteKey) {
    exists q :: q in payments && PaymentKey(q) == key && Resolves(q, passengers, categories)
  }

  /** The position of the first resolvable payment of that month and
      route, or |payments| when there is none. */
  function FirstResolvable(payments: seq<Payment>, passengers: seq<Passenger>, categories: seq<Category>, key: RouteKey): (i: nat)
    ensures i <= |payments|
    ensures i < |payments| ==> PaymentKey(payments[i]) == key && Resolves(payments[i], passengers, categories)
    ensures forall j :: 0 <= j < i ==> !(PaymentKey(payments[j]) == key && Resolves(payments[j], passengers, categories))
  {
    if payments == [] then 0
    else
      var init, q := payments[..|payments| - 1], payments[|payments| - 1];
      var f := FirstResolvable(init, passengers, categories, key);
      if f < |init| then f
      else if PaymentKey(q) == key && Resolves(q, passengers, categories) then |init|
      else |payments|
  }

  /** The report entry `i` is the top of one month group. */
  lemma ReportEntry(payments: seq<Payment>, passengers: seq<Passenger>, categories: seq<Category>, i: nat)
    returns (g: MonthGroup)
    requires i < |MonthlyTopRoutesReport(payments, passengers, categories)|
    ensures var sums := RouteSums(Charges(payments, passengers, categories));
            && g in GroupByMonth(sums) && g.sums != [] && g.sums == InMonth(sums, g.year, g.month)
            && MonthlyTopRoutesReport(payments, passengers, categories)[i] == TopOfGroup(g)
  {
    var groups := GroupByMonth(RouteSums(Charges(payments, passengers, categories)));
    var tops := Tops(groups);
    var report := MonthlyTopRoutesReport(payments, passengers, categories);
    assert report[i] in multiset(tops);
    var j :| 0 <= j < |tops| && tops[j] == report[i];
    g := groups[j];
  }

  /** A month group's top is the first route sum with the largest total. */
  lemma TopOfGroupIsFirstMax(g: MonthGroup) returns (k: nat)
    requires g.sums != []
    ensures k == FirstMaxIndex(g.sums)
    ensures TopOfGroup(g) == MonthTop(g.year, g.month, g.sums[k].route, g.sums[k].total)
  {
    k := FirstMaxIndex(g.sums);
    SortedHeadIsFirstMax(g.sums);
  }

  /** A key with charges has its route sum. */
  lemma RouteSumOf(charges: seq<Charge>, key: RouteKey) returns (t: nat)
    requires HasCharge(charges, key)
    ensures t < |RouteSums(charges)| && SumKey(RouteSums(charges)[t]) == key
    ensures RouteSums(charges)[t].total == CostSum(charges, key)
  {
    SumsOfHasCharge(charges, RouteSums(charges), key);
    t := IndexOfKey(RouteSums(charges), key);
  }

  /** A key with charges has a route sum in its month's group. */
  lemma MonthSumOf(charges: seq<Charge>, g: MonthGroup, key: RouteKey) returns (j: nat)
    requires g.sums == InMonth(RouteSums(charges), g.year, g.month)
    requires HasCharge(charges, key) && key.year == g.year && key.month == g.month
    ensures j < |g.sums| && SumKey(g.sums[j]) == key && g.sums[j].total == CostSum(charges, key)
  {
    var sums := RouteSums(charges);
    var t := RouteSumOf(charges, key);
    j := InMonthIndex(sums, g, t);
  }

  /** A route sum of the group's month sits in the group. */
  lemma InMonthIndex(sums: seq<RouteSum>, g: MonthGroup, t: nat) returns (j: nat)
    requires g.sums == InMonth(sums, g.year, g.month)
    requires t < |sums| && sums[t].year == g.year && sums[t].month == g.month
    ensures j < |g.sums| && g.sums[j] == sums[t]
  {
    var s := sums[t];
    assert s in sums;
    InMonthMember(sums, s);
    j :| 0 <= j < |g.sums| && g.sums[j] == s;
  }

  /** A key with charges has its month among the month tops. */
  lemma MonthTopOf(charges: seq<Charge>, key: RouteKey) returns (j: nat)
    requires HasCharge(charges, key)
    ensures var tops := Tops(GroupByMonth(RouteSums(charges)));
            j < |tops| && tops[j].year == key.year && tops[j].month == key.month
  {
    var sums := RouteSums(charges);
    var groups := GroupByMonth(sums);
    var t := RouteSumOf(charges, key);
    j := IndexOfMonth(groups, sums[t].year, sums[t].month);
    assert Tops(groups)[j] == TopOfGroup(groups[j]);
  }

  /** The route sums of a month group total their charges. */
  lemma GroupSumTotal(charges: seq<Charge>, g: MonthGroup, j: nat)
    requires g.sums == InMonth(RouteSums(charges), g.year, g.month) && j < |g.sums|
    ensures g.sums[j].total == CostSum(charges, SumKey(g.sums[j])) && HasCharge(charges, SumKey(g.sums[j]))
    ensures g.sums[j].year == g.year && g.sums[j].month == g.month
  {
    var sums := RouteSums(charges);
    assert g.sums[j] in g.sums;
    var t :| 0 <= t < |sums| && sums[t] == g.sums[j];
  }

  /** Month elements come in strictly ascending (year, month) order, so no
      month appears twice. */
  lemma MonthlyTopRoutesOrdered(payments: seq<Payment>, passengers: seq<Passenger>, categories: seq<Category>)
    ensures var report := MonthlyTopRoutesReport(payments, passengers, categories);
            forall i, j :: 0 <= i < j < |report| ==>
              report[i].year < report[j].year || (report[i].year == report[j].year && report[i].month < report[j].month)
  {
    var groups := GroupByMonth(RouteSums(Charges(payments, passengers, categories)));
    var tops := Tops(groups);
    assert TopMonthsDistinct(tops) by {
      forall i, j | 0 <= i < j < |tops| ensures (tops[i].year, tops[i].month) != (tops[j].year, tops[j].month) {
        assert tops[i] == TopOfGroup(groups[i]) && tops[j] == TopOfGroup(groups[j]);
      }
    }
    SortByMonthStrict(tops);
  }

  /** A month appears exactly when some payment of that month resolves to
      a passenger and a category: months whose payments all fail to
      resolve are left out. */
  lemma MonthlyTopRoutesMonths(payments: seq<Payment>, passengers: seq<Passenger>, categories: seq<Category>, year: int, month: Month)
    ensures var report := MonthlyTopRoutesReport(payments, passengers, categories);
            (exists i :: 0 <= i < |report| && report[i].year == year && report[i].month == month)
            <==> (exists q :: q in payments && q.year == year && q.month == month && Resolves(q, passengers, categories))
  {
    var charges := Charges(payments, passengers, categories);
    var sums := RouteSums(charges);
    var groups := GroupByMonth(sums);
    var tops := Tops(groups);
    var report := MonthlyTopRoutesReport(payments, passengers, categories);
    if exists i :: 0 <= i < |report| && report[i].year == year && report[i].month == month {
      var i :| 0 <= i < |report| && report[i].year == year && report[i].month == month;
      var g := ReportEntry(payments, passengers, categories, i);
      GroupSumTotal(charges, g, 0);
      var q, p, c := ChargeSource(payments, passengers, categories, FirstCharge(charges, SumKey(g.sums[0])));
    }
    if exists q :: q in payments && q.year == year && q.month == month && Resolves(q, passengers, categories) {
      var q :| q in payments && q.year == year && q.month == month && Resolves(q, passengers, categories);
      var k := ChargeOfPayment(payments, passengers, categories, q);
      HasChargeAt(charges, k);
      var j := MonthTopOf(charges, PaymentKey(q));
      assert tops[j] in multiset(report);
    }
  }

  /** Each TopRoute total is the revenue of its route in its month, and
      that route has a resolvable payment in that month. */
  lemma MonthlyTopRoutesTotal(payments: seq<Payment>, passengers: seq<Passenger>, categories: seq<Category>, i: nat)
    requires i < |MonthlyTopRoutesReport(payments, passengers, categories)|
    ensures var t := MonthlyTopRoutesReport(payments, passengers, categories)[i];
            var key := RouteKey(t.year, t.month, t.route);
            RouteCharged(payments, passengers, categories, key)
            && t.total == RouteRevenue(payments, passengers, categories, key)
            && t.total == PaymentsRevenue(payments, passengers, categories, key)
  {
    var charges := Charges(payments, passengers, categories);
    var g := ReportEntry(payments, passengers, categories, i);
    var k := TopOfGroupIsFirstMax(g);
    GroupSumTotal(charges, g, k);
    HasChargeIff(payments, passengers, categories, SumKey(g.sums[k]));
    ChargesCost(payments, passengers, categories, SumKey(g.sums[k]));
  }

  /** No route of the same month brought in more than the top route. */
  lemma MonthlyTopRoutesMax(payments: seq<Payment>, passengers: seq<Passenger>, categories: seq<Category>, i: nat, route: int)
    requires i < |MonthlyTopRoutesReport(payments, passengers, categories)|
    requires var t := MonthlyTopRoutesReport(payments, passengers, categories)[i];
             RouteCharged(payments, passengers, categories, RouteKey(t.year, t.month, route))
    ensures var t := MonthlyTopRoutesReport(payments, passengers, categories)[i];
            RouteRevenue(payments, passengers, categories, RouteKey(t.year, t.month, route)) <= t.total
    ensures var t := MonthlyTopRoutesReport(payments, passengers, categories)[i];
            PaymentsRevenue(payments, passengers, categories, RouteKey(t.year, t.month, route)) <= t.total
  {
    var charges := Charges(payments, passengers, categories);
    var g := ReportEntry(payments, passengers, categories, i);
    var k := TopOfGroupIsFirstMax(g);
    var key := RouteKey(g.year, g.month, route);
    HasChargeIff(payments, passengers, categories, key);
    var j := MonthSumOf(charges, g, key);
    ChargesCost(payments, passengers, categories, key);
  }

  // =====================================================================
  // Ties: the group created first wins
  // =====================================================================

  lemma {:induction false} FirstChargeAppend(a: seq<Charge>, b: seq<Charge>, key: RouteKey)
    ensures FirstCharge(a + b, key) == if HasCharge(a, key) then FirstCharge(a, key) else |a| + FirstCharge(b, key)
  {
    if b == [] {
      assert a + b == a;
    } else {
      var init, c := b[..|b| - 1], b[|b| - 1];
      FirstChargeAppend(a, init, key);
      assert a + b == (a + init) + [c];
      assert b == init + [c];
      CostSumSnoc(a + init, c, key);
      CostSumSnoc(init, c, key);
    }
  }

  lemma PaymentChargesHas(q: Payment, passengers: seq<Passenger>, categories: seq<Category>, key: RouteKey)
    ensures HasCharge(PaymentCharges(q, passengers, categories), key)
        <==> PaymentKey(q) == key && Resolves(q, passengers, categories)
  {
    var mine := PaymentCharges(q, passengers, categories);
    PaymentChargesNonEmpty(q, passengers, categories);
    if HasCharge(mine, key) {
      assert mine[FirstCharge(mine, key)] in mine;
    }
    if PaymentKey(q) == key && Resolves(q, passengers, categories) {
      assert mine[0] in mine;
      HasChargeAt(mine, 0);
    }
  }

  lemma {:induction false} ChargesAppend(payments: seq<Payment>, passengers: seq<Passenger>, categories: seq<Category>, key: RouteKey)
    requires payments != []
    ensures var init, q := payments[..|payments| - 1], payments[|payments| - 1];
            FirstCharge(Charges(payments, passengers, categories), key)
            == if HasCharge(Charges(init, passengers, categories), key) then FirstCharge(Charges(init, passengers, categories), key)
               else |Charges(init, passengers, categories)| + FirstCharge(PaymentCharges(q, passengers, categories), key)
  {
    var init, q := payments[..|payments| - 1], payments[|payments| - 1];
    FirstChargeAppend(Charges(init, passengers, categories), PaymentCharges(q, passengers, categories), key);
  }

  /** A key has charges exactly when it has a first resolvable payment. */
  lemma {:induction false} ChargedIffResolvable(payments: seq<Payment>, passengers: seq<Passenger>, categories: seq<Category>, key: RouteKey)
    ensures HasCharge(Charges(payments, passengers, categories), key)
        <==> FirstResolvable(payments, passengers, categories, key) < |payments|
  {
    if payments != [] {
      var init, q := payments[..|payments| - 1], payments[|payments| - 1];
      ChargedIffResolvable(init, passengers, categories, key);
      ChargesAppend(payments, passengers, categories, key);
      PaymentChargesHas(q, passengers, categories, key);
    }
  }

  /** Charges come payment by payment, so a key whose first charge comes
      earlier also has its first resolvable payment earlier. */
  lemma {:induction false} FirstChargeOrder(payments: seq<Payment>, passengers: seq<Passenger>, categories: seq<Category>,
                                            k1: RouteKey, k2: RouteKey)
    requires var charges := Charges(payments, passengers, categories);
             HasCharge(charges, k1) && HasCharge(charges, k2) && FirstCharge(charges, k1) <= FirstCharge(charges, k2)
    ensures FirstResolvable(payments, passengers, categories, k1) <= FirstResolvable(payments, passengers, categories, k2)
  {
    var init, q := payments[..|payments| - 1], payments[|payments| - 1];
    var before := Charges(init, passengers, categories);
    ChargesAppend(payments, passengers, categories, k1);
    ChargesAppend(payments, passengers, categories, k2);
    ChargedIffResolvable(init, passengers, categories, k1);
    ChargedIffResolvable(init, passengers, categories, k2);
    if HasCharge(before, k1) && HasCharge(before, k2) {
      FirstChargeOrder(init, passengers, categories, k1, k2);
    } else if !HasCharge(before, k1) && !HasCharge(before, k2) {
      PaymentChargesHas(q, passengers, categories, k1);
      PaymentChargesHas(q, passengers, categories, k2);
    }
  }

  /** Within one month's route sums, kept in order of first charge, a sum
      that ties with the first maximum had its first charge no earlier. */
  lemma GroupTie(charges: seq<Charge>, sums: seq<RouteSum>, j: nat)
    requires sums != [] && j < |sums| && ChargeOrdered(charges, sums)
    requires sums[j].total == sums[FirstMaxIndex(sums)].total
    ensures FirstCharge(charges, SumKey(sums[FirstMaxIndex(sums)])) <= FirstCharge(charges, SumKey(sums[j]))
  {
  }

  /** Among routes of a month that tie with the top route, the top route
      is the one whose first resolvable payment comes earliest in the
      payment list: OrderByDescending is stable and the route groups are
      created in payment order. */
  lemma MonthlyTopRoutesTie(payments: seq<Payment>, passengers: seq<Passenger>, categories: seq<Category>, i: nat, route: int)
    requires i < |MonthlyTopRoutesReport(payments, passengers, categories)|
    requires var t := MonthlyTopRoutesReport(payments, passengers, categories)[i];
             var key := RouteKey(t.year, t.month, route);
             RouteCharged(payments, passengers, categories, key)
             && RouteRevenue(payments, passengers, categories, key) == t.total
    ensures var t := MonthlyTopRoutesReport(payments, passengers, categories)[i];
            FirstResolvable(payments, passengers, categories, RouteKey(t.year, t.month, t.route))
            <= FirstResolvable(payments, passengers, categories, RouteKey(t.year, t.month, route))
  {
    var charges := Charges(payments, passengers, categories);
    var g := ReportEntry(payments, passengers, categories, i);
    var k := TopOfGroupIsFirstMax(g);
    var key := RouteKey(g.year, g.month, route);
    HasChargeIff(payments, passengers, categories, key);
    var j := MonthSumOf(charges, g, key);
    GroupSumTotal(charges, g, k);
    InMonthOrdered(charges, RouteSums(charges), g.year, g.month);
    GroupTie(charges, g.sums, j);
    FirstChargeOrder(payments, passengers, categories, SumKey(g.sums[k]), key);
  }

  // =====================================================================
  // What else the report promises
  // =====================================================================

  /** With no payments at all there is no month. */
  lemma MonthlyTopRoutesWithoutPayments(passengers: seq<Passenger>, categories: seq<Category>)
    ensures MonthlyTopRoutesReport([], passengers, categories) == []
  {
  }

  /** The payments that resolve, in order. */
  function ResolvedPayments(payments: seq<Payment>, passengers: seq<Passenger>, categories: seq<Category>): (r: seq<Payment>)
    ensures forall q :: q in r ==> q in payments && Resolves(q, passengers, categories)
  {
    if payments == [] then []
    else
      var q := payments[|payments| - 1];
      ResolvedPayments(payments[..|payments| - 1], passengers, categories)
        + (if Resolves(q, passengers, categories) then [q] else [])
  }

  lemma {:induction false} ChargesOfResolved(payments: seq<Payment>, passengers: seq<Passenger>, categories: seq<Category>)
    ensures Charges(ResolvedPayments(payments, passengers, categories), passengers, categories)
         == Charges(payments, passengers, categories)
  {
    if payments != [] {
      var init, q := payments[..|payments| - 1], payments[|payments| - 1];
      ChargesOfResolved(init, passengers, categories);
      PaymentChargesNonEmpty(q, passengers, categories);
      var resolved := ResolvedPayments(init, passengers, categories);
      var before := Charges(init, passengers, categories);
      if Resolves(q, passengers, categories) {
        assert (resolved + [q])[..|resolved|] == resolved;
      } else {
        assert resolved + [] == resolved;
        assert before + [] == before;
      }
    }
  }

  /** A payment whose passenger or category does not resolve is dropped
      without a trace: removing all such payments leaves the report
      unchanged. */
  lemma MonthlyTopRoutesIgnoreUnresolved(payments: seq<Payment>, passengers: seq<Passenger>, categories: seq<Category>)
    ensures MonthlyTopRoutesReport(ResolvedPayments(payments, passengers, categories), passengers, categories)
         == MonthlyTopRoutesReport(payments, passengers, categories)
  {
    ChargesOfResolved(payments, passengers, categories);
  }

  // =====================================================================
  // The MonthlyTopRoutes document
  // =====================================================================

  function TopRouteElement(t: MonthTop): Element {
    Element("TopRoute", [Attribute("Number", IntToString(t.route)), Attribute("TotalSum", FormatHundredths(t.total))], [])
  }

  function MonthElement(t: MonthTop): Element {
    Element("Month", [Attribute("Year", IntToString(t.year)), Attribute("Month", IntToString(t.month))], [TopRouteElement(t)])
  }

  function MonthElements(tops: seq<MonthTop>): (es: seq<Element>)
    ensures |es| == |tops|
  {
    if tops == [] then []
    else MonthElements(tops[..|tops| - 1]) + [MonthElement(tops[|tops| - 1])]
  }

  /** The MonthlyTopRoutes root with one Month element per entry, in
      order. */
  function MonthlyTopRoutesDocument(tops: seq<MonthTop>): Element {
    Element("MonthlyTopRoutes", [], MonthElements(tops))
  }

  /** Each Month element has exactly one TopRoute child, carrying Number
      and a TotalSum written with two fractional digits. */
  lemma MonthElementShape(t: MonthTop)
    ensures var e := MonthElement(t);
            && |e.children| == 1 && e.children[0].name == "TopRoute"
            && |e.children[0].attributes| == 2
            && e.children[0].attributes[0].name == "Number" && e.children[0].attributes[1].name == "TotalSum"
            && var v := e.children[0].attributes[1].value;
               |v| >= 4 && v[|v| - 3] == '.' && IsDigit(v[|v| - 2]) && IsDigit(v[|v| - 1])
               && ParseHundredths(v) == Some(t.total)
  {
    HundredthsRoundTrip(t.total);
  }

  function ReadMonth(e: Element): Option<MonthTop> {
    if e.name == "Month" && |e.attributes| == 2 && e.attributes[0].name == "Year" && e.attributes[1].name == "Month"
       && |e.children| == 1
    then
      var top := e.children[0];
      if top.name == "TopRoute" && |top.attributes| == 2 && top.children == []
         && top.attributes[0].name == "Number" && top.attributes[1].name == "TotalSum"
      then
        match (ParseInt(e.attributes[0].value), ParseInt(e.attributes[1].value),
               ParseInt(top.attributes[0].value), ParseHundredths(top.attributes[1].value))
        case (Some(year), Some(month), Some(route), Some(total)) =>
          if 1 <= month <= 12 then Some(MonthTop(year, month, route, total)) else None
        case _ => None
      else None
    else None
  }

  function ReadMonths(es: seq<Element>): Option<seq<MonthTop>> {
    if es == [] then Some([])
    else
      match (ReadMonths(es[..|es| - 1]), ReadMonth(es[|es| - 1]))
      case (Some(ts), Some(t)) => Some(ts + [t])
      case _ => None
  }

  /** Reads a MonthlyTopRoutes document back into its entries. */
  function ReadMonthlyTopRoutes(doc: Element): Option<seq<MonthTop>> {
    if doc.name == "MonthlyTopRoutes" && doc.attributes == [] then ReadMonths(doc.children)
    else None
  }

  /** Empty payment input gives a MonthlyTopRoutes root with no
      children. */
  lemma EmptyMonthlyTopRoutesDocument(passengers: seq<Passenger>, categories: seq<Category>)
    ensures MonthlyTopRoutesDocument(MonthlyTopRoutesReport([], passengers, categories)) == Element("MonthlyTopRoutes", [], [])
  {
    MonthlyTopRoutesWithoutPayments(passengers, categories);
  }

  lemma MonthElementRoundTrip(t: MonthTop)
    ensures ReadMonth(MonthElement(t)) == Some(t)
  {
    IntToStringRoundTrip(t.year);
    IntToStringRoundTrip(t.month);
    IntToStringRoundTrip(t.route);
    HundredthsRoundTrip(t.total);
  }

  lemma {:induction false} MonthElementsRoundTrip(tops: seq<MonthTop>)
    ensures ReadMonths(MonthElements(tops)) == Some(tops)
  {
    if tops != [] {
      var init, t := tops[..|tops| - 1], tops[|tops| - 1];
      assert tops == init + [t];
      MonthElementsRoundTrip(init);
      MonthElementRoundTrip(t);
      MonthElementsSnoc(init, t);
      ReadMonthsAppend(MonthElements(init), MonthElement(t), init, t);
    }
  }

  lemma MonthElementsSnoc(init: seq<MonthTop>, t: MonthTop)
    ensures MonthElements(init + [t]) == MonthElements(init) + [MonthElement(t)]
  {
    var tops := init + [t];
    assert tops[..|tops| - 1] == init && tops[|tops| - 1] == t;
  }

  lemma ReadMonthsAppend(es: seq<Element>, e: Element, ts: seq<MonthTop>, t: MonthTop)
    requires ReadMonths(es) == Some(ts) && ReadMonth(e) == Some(t)
    ensures ReadMonths(es + [e]) == Some(ts + [t])
  {
    var all := es + [e];
    assert all[..|all| - 1] == es && all[|all| - 1] == e;
  }

  /** The document holds the whole report: reading it back gives every
      year, month, route and total, in order. */
  lemma MonthlyTopRoutesDocumentRoundTrip(tops: seq<MonthTop>)
    ensures ReadMonthlyTopRoutes(MonthlyTopRoutesDocument(tops)) == Some(tops)
  {
    MonthElementsRoundTrip(tops);
  }
}
