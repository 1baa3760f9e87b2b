/** The subscription record as the API returns it (GET /subscriptions). */
module Records {
  /**
   * One subscription. `renewalDate` stays the date text the API stores;
   * turning it into a timestamp is left to a parsing function supplied by
   * the caller. `price` is the already-numeric price.
   */
  datatype Sub = Sub(
    id: string,
    name: string,
    category: string,
    billing: string,
    price: int,
    renewalDate: string,
    status: string)

  const ACTIVE: string := "Active"
  const EXPIRED: string := "Expired"
}
