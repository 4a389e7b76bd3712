/** The records the reporting service aggregates, and the failures its
    handlers can end in. */
module Records {

  datatype Option<T> = None | Some(value: T)

  /** Every way a handler of the service ends without a response. */
  datatype Error =
    | MissingProductColumn  // the upstream list was empty, so the frame has no "product" column
    | NotAnInteger          // a date field is missing or not an integer, or the month path parameter is not an integer
    | UnknownMonth          // the month number has no entry in the month-name table
    | EmptyChart            // the chart table is empty, so its maximum (and the y-limit) is NaN
    | LabelCountMismatch    // the twelve month labels do not fit the number of grouped rows
    | DateOutOfRange        // the popular-products cutoff moved back past the earliest representable date

  datatype Result<T> = Ok(value: T) | Err(error: Error)

  /** The nested product object of a history record; `id` is its `_id` key. */
  datatype Product = Product(id: string, name: string, price: nat)

  /** One history record as the upstream API returns it. */
  datatype History = History(orderId: string, date: string, quantity: nat, product: Product)

  /** The flat row the aggregations work on: product fields promoted to the top level. */
  datatype FlatRecord = FlatRecord(
    id: string, name: string, price: nat, quantity: nat, date: string, orderId: string)

  function FlatOf(h: History): FlatRecord
  {
    FlatRecord(h.product.id, h.product.name, h.product.price, h.quantity, h.date, h.orderId)
  }

  /** The inverse view: the history record a flat row came from. */
  function NestOf(f: FlatRecord): History
  {
    History(f.orderId, f.date, f.quantity, Product(f.id, f.name, f.price))
  }

  lemma FlatNestRoundTrip(h: History, f: FlatRecord)
    ensures NestOf(FlatOf(h)) == h
    ensures FlatOf(NestOf(f)) == f
  {
  }

  /** Builds the flat frame, one row per history record, in order. An empty
      list gives a frame without a "product" column, so the lookup fails. */
  function Flatten(hs: seq<History>): (r: Result<seq<FlatRecord>>)
    ensures r.Err? <==> |hs| == 0
    ensures r.Err? ==> r.error == MissingProductColumn
    ensures r.Ok? ==> |r.value| == |hs|
    ensures r.Ok? ==> forall i :: 0 <= i < |hs| ==> NestOf(r.value[i]) == hs[i]
  {
    if |hs| == 0 then Err(MissingProductColumn)
    else Ok(seq(|hs|, i requires 0 <= i < |hs| => FlatOf(hs[i])))
  }
}
