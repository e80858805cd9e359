# Transport payment reports, modelled in Dafny

This project models the two report functions of `XmlProcessor` in the
transport payment system. Both work on records that have already been read
from XML files:

- **Passengers:** id, surname, category.
- **Categories:** id, trip cost.
- **Payment records:** date, passenger id, route number.

Both start the same way. They append the payment records of every payments
file, in argument order, into one list.

- **`GetPassengerTripCounts` (Task A)** counts each passenger's trips on
  each route. It orders the results by surname and route, then groups
  them by surname into `Passenger` elements, each holding `Route` elements
  with `Number` and `TripCount`.
- **`GetMonthlyTopRoutes` (Task B)** works in four steps:
  1. It joins every payment to its passenger and that passenger's category.
  2. It sums the trip costs per (year, month, route).
  3. In each month it keeps the route with the largest sum. The first such
     route wins a tie.
  4. It writes one `Month` element per month, in calendar order. Each holds
     a `TopRoute` with `Number` and a `TotalSum` written with two
     fractional digits.

Modules:

- `Records`: the passenger, category and payment records. Trip costs are
  integer hundredths of the currency unit.
- `Text`: three things.
  - The ordinal string order used for surnames.
  - Integers written as attribute values.
  - The `"F2"` rendering of an amount of hundredths.

  Each writer has a reader and a round-trip lemma.
- `Xml`: a small element tree (name, attributes, children) standing for
  the `XElement` results.
- `PaymentLoading`: the `allPayments` loop (a method with a loop
  invariant) and the fold `Concat` that specifies it.
- `TripCounts`: Task A. The query is modelled stage by stage:
  1. the group join and per-route counts;
  2. the stable sort by (surname, route);
  3. the group by surname;
  4. the sort of the groups;
  5. the document.

  The lemmas state what the report means in terms of the input lists.
- `MonthlyTopRoutes`: Task B, stage by stage, in the same way:
  1. the inner joins;
  2. the group by (year, month, route) with its sum;
  3. the group by month;
  4. the stable descending sort and `First()`;
  5. the sort by month;
  6. the document.
- `XmlProcessor`: the two entry points as methods. Each loads the payment
  files and returns the document. Reading the document back gives the
  report.
- `Fixtures`: the data of the unit tests and what both reports give for it.

Joins are modelled literally, as filters. When a passenger id or a category
id occurs twice, the matching rows are multiplied, exactly as a LINQ `join`
does. No uniqueness precondition is assumed anywhere. `TripCountsUniqueSurnames`
states the stronger shape of the trip-count report when surnames are distinct.

## Model

| member | source | states |
|---|---|---|
| PaymentLoading.Concat | XmlProcessor.cs:27-39 | (definition, no contract) the files' record lists appended in argument order; its meaning is stated by the three lemmas below |
| PaymentLoading.LoadPayments | XmlProcessor.cs:27-39 | the loaded list is every file's records, one file after another in argument order |
| PaymentLoading.ConcatLength | XmlProcessor.cs:95-107 | the combined list is as long as all files together |
| PaymentLoading.ConcatKeepsDuplicates | XmlProcessor.cs:38 | as a multiset the combined list is the sum of the files' records, so duplicates are kept |
| PaymentLoading.ConcatAt | XmlProcessor.cs:28-38 | record j of file i sits at position (records of the earlier files) + j |
| TripCounts.Rows | XmlProcessor.cs:42-47 | (definition, no contract) for each passenger in list order, one (surname, route, count) row per route group of that passenger's payments; stated by PassengerRouteCounts, TripCountsSound and TripCountsComplete |
| TripCounts.RouteCounts | XmlProcessor.cs:44-47 | a passenger's route groups come in strictly ascending route order, every count is positive, and the count of each route is the number of its payments |
| TripCounts.PassengerRouteCounts | XmlProcessor.cs:43-47 | (route, n) is a group of passenger id exactly when n >= 1 and n is that passenger's number of payments on that route |
| TripCounts.SortRows | XmlProcessor.cs:48 | the rows come out ordered by (surname, route) and as a permutation of the input |
| TripCounts.WithKeyInsert | XmlProcessor.cs:48 | inserting a row into an ordered run puts it after every row with its own (surname, route) key and leaves every other key's rows as they were |
| TripCounts.SortRowsStable | XmlProcessor.cs:48 | the sort is stable: for every (surname, route) key, the rows with that key come out in the order they went in |
| TripCounts.SortGroups | XmlProcessor.cs:55 | (definition, no contract) `orderby passengerGroup.Key` as a stable insertion sort of the groups by ordinal surname; stated by SortGroupsOfAscending |
| TripCounts.GroupBySurname | XmlProcessor.cs:54 | one group per distinct surname; each group holds exactly that surname's rows in order, none empty; every row's surname has a group |
| TripCounts.GroupBySurnameAscending | XmlProcessor.cs:48-54 | grouping rows already sorted by surname gives groups in strictly ascending surname order |
| TripCounts.SortGroupsOfAscending | XmlProcessor.cs:55 | `orderby passengerGroup.Key` leaves groups that are already ascending unchanged |
| TripCounts.TripCountsReport | XmlProcessor.cs:42-55 | (definition, no contract) the whole query: rows, sorted by (surname, route), grouped by surname, groups sorted by surname; stated by the report lemmas below |
| TripCounts.ReportIsGrouping | XmlProcessor.cs:48-55 | the report is the grouping of the sorted rows, with surnames strictly ascending |
| TripCounts.ReportRoutes | XmlProcessor.cs:54-61 | each element's routes are the sorted route counts of all passengers with its surname, and never empty |
| TripCounts.TripCountsOrdered | XmlProcessor.cs:48-58 | Passenger elements in strictly ascending surname order, so one per surname; route numbers inside an element never decrease |
| TripCounts.TripCountsSound | XmlProcessor.cs:42-49 | every Route entry has count >= 1, equal to the trip count on that route of some passenger with the element's surname |
| TripCounts.TripCountsComplete | XmlProcessor.cs:42-49 | every route a passenger took appears, with its trip count, under the passenger's surname |
| TripCounts.TripCountsSurnames | XmlProcessor.cs:42-49 | a surname has an element exactly when a passenger with that surname has a payment, so passengers without trips produce nothing |
| TripCounts.TripCountsIgnoreUnknown | XmlProcessor.cs:43 | dropping the payments whose PassengerId matches no passenger leaves the report unchanged |
| TripCounts.TripCountsWithoutPayments | XmlProcessor.cs:42-49 | with no payments the report is empty |
| TripCounts.EmptyTripCountsDocument | XmlProcessor.cs:52-64 | with no payments the document is a PassengerTripCounts root without children |
| TripCounts.TripCountsUniqueSurnames | XmlProcessor.cs:44-48 | with unique surnames each element carries exactly its passenger's route counts, routes strictly ascending |
| TripCounts.TripCountsDocument | XmlProcessor.cs:52-64 | (definition, no contract) a PassengerTripCounts root holding one Passenger element per report entry with Surname, each holding Route elements with Number and TripCount; stated by TripCountsDocumentRoundTrip |
| TripCounts.TripCountsDocumentRoundTrip | XmlProcessor.cs:52-64 | reading the PassengerTripCounts document back gives every surname, route number and trip count, in order |
| MonthlyTopRoutes.Charges | XmlProcessor.cs:110-112 | (definition, no contract) the two inner joins: for each payment in order, one charge per matching passenger and matching category; stated by ChargeSource, ChargeOfPayment and ChargesCost |
| MonthlyTopRoutes.CategoryChargesNonEmpty | XmlProcessor.cs:112 | a payment of a passenger gets a charge exactly when some category has the passenger's CategoryId |
| MonthlyTopRoutes.PaymentChargesNonEmpty | XmlProcessor.cs:110-112 | a payment takes part in the joins exactly when its passenger and that passenger's category both resolve |
| MonthlyTopRoutes.ChargeSource | XmlProcessor.cs:110-121 | every joined charge comes from a payment, a passenger whose Id is the payment's PassengerId and a category whose Id is that passenger's CategoryId; the charge carries the payment's year, month and route and that category's cost |
| MonthlyTopRoutes.CategoryChargesCost | XmlProcessor.cs:112-121 | one payment of one passenger is charged once per category with the passenger's CategoryId, and its charges add up to the sum of those categories' costs |
| MonthlyTopRoutes.PaymentChargesCost | XmlProcessor.cs:110-121 | one payment is charged once per (matching passenger, matching category) pair, and its charges add up to the sum of those categories' costs |
| MonthlyTopRoutes.ChargesCost | XmlProcessor.cs:110-125 | the joins give one charge per (payment, passenger, category) triple that matches, and a key's charges add up to the per-payment costs of the payments with that key |
| MonthlyTopRoutes.ChargeOfPayment | XmlProcessor.cs:110-112 | every resolvable payment gives a charge with its year, month and route |
| MonthlyTopRoutes.HasChargeIff | XmlProcessor.cs:110-118 | a (year, month, route) key has a charge exactly when a resolvable payment has that key |
| MonthlyTopRoutes.RouteSums | XmlProcessor.cs:113-125 | one sum per key that has a charge; its total is the sum of those charges' costs; every charge's key has its sum; sums in order of first charge |
| MonthlyTopRoutes.GroupByMonth | XmlProcessor.cs:128-129 | one group per month; each holds exactly that month's route sums, in order, none empty |
| MonthlyTopRoutes.SortByTotalDescending | XmlProcessor.cs:130 | the stable descending sort of a month's route sums, of the same length as its input; its head is stated by SortedHeadIsFirstMax |
| MonthlyTopRoutes.TopOfGroup | XmlProcessor.cs:130 | (definition, no contract) the month's year and month with the route and total of the sorted sums' first entry; stated by TopOfGroupIsFirstMax |
| MonthlyTopRoutes.FirstMaxIndex | XmlProcessor.cs:130 | picks a sum no other total exceeds, with every earlier total strictly smaller |
| MonthlyTopRoutes.SortedHeadIsFirstMax | XmlProcessor.cs:130 | `OrderByDescending(TotalSum).First()` of a stable sort is the first maximal sum |
| MonthlyTopRoutes.SortByMonth | XmlProcessor.cs:131 | the month sort is a permutation of its input |
| MonthlyTopRoutes.SortByMonthStrict | XmlProcessor.cs:131 | entries with distinct months come out in strictly ascending (year, month) order |
| MonthlyTopRoutes.TopOfGroupIsFirstMax | XmlProcessor.cs:130-135 | a month's TopRoute is the month's first route sum with the largest total, with the month's year and month |
| MonthlyTopRoutes.MonthlyTopRoutesReport | XmlProcessor.cs:110-138 | (definition, no contract) the whole query: joins, sums per (year, month, route), group by month, top of each month, sort by month; stated by the report lemmas below |
| MonthlyTopRoutes.MonthlyTopRoutesOrdered | XmlProcessor.cs:128-131 | Month entries in strictly ascending (year, month) order, so there are no duplicates |
| MonthlyTopRoutes.MonthlyTopRoutesMonths | XmlProcessor.cs:110-112 | a month appears exactly when one of its payments resolves to a passenger and a category |
| MonthlyTopRoutes.MonthlyTopRoutesTotal | XmlProcessor.cs:113-137 | each TopRoute has a resolvable payment in its month, and its total is the sum, over that route's payments in that month, of each payment's category costs |
| MonthlyTopRoutes.MonthlyTopRoutesMax | XmlProcessor.cs:130 | no route charged in the same month has a larger total, or a larger sum of per-payment costs, than the top route |
| MonthlyTopRoutes.MonthlyTopRoutesTie | XmlProcessor.cs:130 | when another route ties the top total, the top route's first resolvable payment comes no later in the combined list |
| MonthlyTopRoutes.MonthlyTopRoutesIgnoreUnresolved | XmlProcessor.cs:110-112 | dropping the payments that do not resolve leaves the report unchanged |
| MonthlyTopRoutes.MonthlyTopRoutesWithoutPayments | XmlProcessor.cs:141-151 | with no payments there is no month |
| MonthlyTopRoutes.EmptyMonthlyTopRoutesDocument | XmlProcessor.cs:141-151 | with no payments the document is a MonthlyTopRoutes root without children |
| MonthlyTopRoutes.MonthElementShape | XmlProcessor.cs:143-149 | each Month element has exactly one TopRoute child, with Number and TotalSum; TotalSum has two fractional digits and reads back as the total |
| MonthlyTopRoutes.MonthlyTopRoutesDocument | XmlProcessor.cs:141-151 | (definition, no contract) a MonthlyTopRoutes root holding one Month element per report entry, in order; stated by MonthElementShape and MonthlyTopRoutesDocumentRoundTrip |
| MonthlyTopRoutes.MonthlyTopRoutesDocumentRoundTrip | XmlProcessor.cs:141-151 | reading the MonthlyTopRoutes document back gives every year, month, route and total, in order |
| Text.FormatHundredths | XmlProcessor.cs:148 | `"F2"`: a leading minus exactly for negative amounts; then the integer part, at least one digit with no leading zero, whose value is the whole units of the amount; a point; exactly two digits whose value is the remaining hundredths |
| Text.HundredthsRoundTrip | XmlProcessor.cs:148 | parsing the `"F2"` text gives back the amount |
| Text.TwentyUnits | XmlProcessor.cs:148 | an amount of 2000 hundredths is written "20.00" |
| Text.IntToStringRoundTrip | XmlProcessor.cs:60-61 | an integer attribute value reads back as the integer |
| Text.LessTotal | XmlProcessor.cs:48 | any two different surnames are ordered one way or the other |
| Text.LessTransitive | XmlProcessor.cs:55 | the surname order is transitive |
| XmlProcessor.GetPassengerTripCounts | XmlProcessor.cs:14-67 | the result is the PassengerTripCounts document of the report over the concatenated payment files, and reads back as that report |
| XmlProcessor.GetMonthlyTopRoutes | XmlProcessor.cs:72-154 | the result is the MonthlyTopRoutes document of the report over the concatenated payment files, and reads back as that report |
| Fixtures.TripCountsFixture | XmlProcessorTests.cs:83-95 | on the test data there are two Passenger entries: Іваненко first with route 10 once, then Петренко with route 5 twice and route 10 once |
| Fixtures.MonthlyTopRoutesFixture | XmlProcessorTests.cs:112-118 | on the test data there are two months: January 2024 with route 5 at 16.00, then February 2024 with route 10 at 8.00 |
| Fixtures.MonthElementFixture | XmlProcessorTests.cs:116-123 | the January element has Year "2024" and Month "1", and a TopRoute with Number "5" and TotalSum "16.00" |

## Left out

- Reading and writing XML files is not modelled: `XDocument.Load` in both functions, and `Save`, directories and temporary folders in Program.cs and the tests. The functions take the parsed records and return an element tree.
- `int.Parse`, `decimal.Parse` and `DateTime.Parse` are not modelled, nor the exceptions they throw or that a missing element or attribute causes. Dates are given as year, month and day.
- Surnames are ordered ordinally, by character code. The source's `orderby` uses the default comparer, which depends on the current culture; that collation is not modelled. Under both orders Іваненко comes before Петренко in the test data.
- Trip costs are integer hundredths. `decimal` costs with more than two fractional digits, and the rounding `"F2"` then applies, are not modelled.
- Integers are unbounded. The 32-bit range of `int` ids, route numbers and `Count()` is not modelled, nor `decimal` overflow of a sum.
- Route reference data and category names are read by neither report, so they are not part of this model. The console program (Program.cs) is not part of this model either.
- The unit test of `GetMonthlyTopRoutes` looks for a `TotalAmount` attribute (XmlProcessorTests.cs:124). The code writes `TotalSum` (XmlProcessor.cs:148), and the model follows the code: `Fixtures.MonthElementFixture` shows the attribute as `TotalSum`.
- The `XElement` tree is reduced to names, attributes in order and child elements. Text nodes and namespaces are not modelled.
