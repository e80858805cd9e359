/** The records the two reports read, once the XML files have been parsed
    (Models.cs). Only the fields a report reads are kept. */
module Records {

  /** A calendar month number, as DateTime.Month gives it: 1 is January. */
  type Month = m: int | 1 <= m <= 12 witness 1

  /** A passenger: Id attribute, Surname and CategoryId elements. */
  datatype Passenger = Passenger(id: int, surname: string, categoryId: int)

  /** A passenger category with its trip cost in hundredths of the currency
      unit (a TripCost of 8 is 800, one of 4.5 is 450). */
  datatype Category = Category(id: int, cost: int)

  /** One trip: the Date split into year, month and day, the passenger who
      paid and the route taken. */
  datatype Payment = Payment(year: int, month: Month, day: int, passengerId: int, route: int)
}
