/** Records shared by the components: the shape of an event and of its markets.
    Only the fields that the modelled logic reads or writes are kept; volume (a
    floating-point figure) and the display-only tags and descriptions are left out. */
module Types {

  datatype Option<+T> = None | Some(value: T)

  /** One binary market inside an event. */
  datatype Market = Market(
    id: string,
    question: string,
    slug: string,
    outcomePrices: seq<string>,
    liquidity: int,
    active: bool,
    closed: bool)

  /** A selectable prediction-market event, shown as one card. */
  datatype Event = Event(
    id: string,
    title: string,
    slug: string,
    image: string,
    markets: seq<Market>,
    liquidity: int,
    active: bool,
    closed: bool)
}
