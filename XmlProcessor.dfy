/** The two report entry points of XmlProcessor.cs, on the records already
    read from the XML files: each loads the payment files into one list
    and builds its report document from it. */
module XmlProcessor {
  import opened Records
  import opened Text
  import opened Xml
  import PaymentLoading
  import TripCounts
  import MonthlyTopRoutes

  /** Task A: trip counts per passenger and route. */
  method GetPassengerTripCounts(passengers: seq<Passenger>, paymentFiles: seq<seq<Payment>>) returns (result: Element)
    ensures result == TripCounts.TripCountsDocument(TripCounts.TripCountsReport(passengers, PaymentLoading.Concat(paymentFiles)))
    ensures TripCounts.ReadTripCounts(result) == Some(TripCounts.TripCountsReport(passengers, PaymentLoading.Concat(paymentFiles)))
  {
    var allPayments := PaymentLoading.LoadPayments(paymentFiles);
    var report := TripCounts.TripCountsReport(passengers, allPayments);
    TripCounts.TripCountsDocumentRoundTrip(report);
    result := TripCounts.TripCountsDocument(report);
  }

  /** Task B: the route with the largest revenue in each month. */
  method GetMonthlyTopRoutes(passengers: seq<Passenger>, categories: seq<Category>, paymentFiles: seq<seq<Payment>>)
    returns (result: Element)
    ensures result == MonthlyTopRoutes.MonthlyTopRoutesDocument(
                        MonthlyTopRoutes.MonthlyTopRoutesReport(PaymentLoading.Concat(paymentFiles), passengers, categories))
    ensures MonthlyTopRoutes.ReadMonthlyTopRoutes(result)
         == Some(MonthlyTopRoutes.MonthlyTopRoutesReport(PaymentLoading.Concat(paymentFiles), passengers, categories))
  {
    var allPayments := PaymentLoading.LoadPayments(paymentFiles);
    var report := MonthlyTopRoutes.MonthlyTopRoutesReport(allPayments, passengers, categories);
    MonthlyTopRoutes.MonthlyTopRoutesDocumentRoundTrip(report);
    result := MonthlyTopRoutes.MonthlyTopRoutesDocument(report);
  }
}
