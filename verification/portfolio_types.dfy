/** The records the portfolio screens exchange with the basket and stock
    queries. */
module PortfolioTypes {
  import opened Maybes

  /** A basket as the basket query returns it; identity is `id`. */
  datatype Basket = Basket(id: string, basketName: string)

  /** One page of baskets: the ordered rows and the pagination total the
      screen gates on. */
  datatype BasketPage = BasketPage(data: seq<Basket>, totalCumulativeCount: int)

  /** A dropdown option / stored selection: `caption` is the shown
      label, `value` the basket id. Both fields may be undefined in
      the screen's local state type, so both are `Maybe`. */
  datatype BasketOpt = BasketOpt(caption: Maybe<string>, value: Maybe<string>)

  /** The persisted cross-screen selection cell: an option or undefined. */
  type Store = Maybe<BasketOpt>
}
