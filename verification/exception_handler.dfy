/** `GlobalExceptionHandler`: how a `ResponseStatusException` that escapes a
    controller becomes an HTTP response. */
module GlobalExceptionHandler {
  import opened Wrappers
  import opened Text
  import opened Entities
  import opened Repositories
  import OrderService
  import ProductService

  /** A reading of the clock; the handler stamps each body with the current one. */
  type Timestamp = int

  /** The JSON body of a not-found response: `timestamp`, `status`, `error`, `message`. */
  datatype ErrorBody = ErrorBody(timestamp: Timestamp, status: int, error: string, message: string)

  /** What the handler does with an exception: throw it on unchanged, or answer
      with an HTTP status and a body. */
  datatype Handled =
    | Rethrow(exception: ResponseStatusException)
    | Respond(httpStatus: int, body: ErrorBody)

  /** `handleNotFound`: a 404 exception becomes a 404 response whose message is
      the exception's reason, or "Not found" when it has none; any other status
      is thrown on as it came. */
  function HandleNotFound(ex: ResponseStatusException, now: Timestamp): (h: Handled)
    ensures h.Rethrow? <==> ex.status != 404
    ensures h.Rethrow? ==> h.exception == ex
    ensures h.Respond? ==> h.httpStatus == 404 && h.body.status == 404
    ensures h.Respond? ==> h.body.error == "Not Found" && h.body.timestamp == now
    ensures h.Respond? && ex.reason.Some? ==> h.body.message == ex.reason.value
    ensures h.Respond? && ex.reason.None? ==> h.body.message == "Not found"
  {
    if ex.status != 404 then Rethrow(ex)
    else
      var message := if ex.reason.Some? then ex.reason.value else "Not found";
      Respond(404, ErrorBody(now, 404, "Not Found", message))
  }

  /** Two strings that share a prefix are equal when the whole strings are. */
  lemma PrefixCancels(prefix: string, a: string, b: string)
    requires prefix + a == prefix + b
    ensures a == b
  {
    assert a == (prefix + a)[|prefix|..];
    assert b == (prefix + b)[|prefix|..];
  }

  /** An order lookup that misses is answered with a 404 body naming the id, and
      two different missing ids never get the same message. */
  lemma OrderNotFoundResponse(store: Store, id1: int, id2: int, now: Timestamp)
    requires store.Valid() && id1 !in store.orders && id2 !in store.orders
    ensures var h := HandleNotFound(OrderService.GetOrderById(store, id1).error, now);
            h == Respond(404, ErrorBody(now, 404, "Not Found", "Not Found Order by ID " + IntToString(id1)))
    ensures HandleNotFound(OrderService.GetOrderById(store, id1).error, now).body.message
              == HandleNotFound(OrderService.GetOrderById(store, id2).error, now).body.message
            <==> id1 == id2
  {
    var m1 := HandleNotFound(OrderService.GetOrderById(store, id1).error, now).body.message;
    var m2 := HandleNotFound(OrderService.GetOrderById(store, id2).error, now).body.message;
    if m1 == m2 {
      PrefixCancels("Not Found Order by ID ", IntToString(id1), IntToString(id2));
      IntToStringInjective(id1, id2);
    }
  }

  /** A product lookup that misses is answered with a 404 body naming the id, and
      two different missing ids never get the same message. */
  lemma ProductNotFoundResponse(store: Store, id1: int, id2: int, now: Timestamp)
    requires store.Valid() && id1 !in store.products && id2 !in store.products
    ensures var h := HandleNotFound(ProductService.GetProductById(store, id1).error, now);
            h == Respond(404, ErrorBody(now, 404, "Not Found", "Not Found Product by ID " + IntToString(id1)))
    ensures HandleNotFound(ProductService.GetProductById(store, id1).error, now).body.message
              == HandleNotFound(ProductService.GetProductById(store, id2).error, now).body.message
            <==> id1 == id2
  {
    var m1 := HandleNotFound(ProductService.GetProductById(store, id1).error, now).body.message;
    var m2 := HandleNotFound(ProductService.GetProductById(store, id2).error, now).body.message;
    if m1 == m2 {
      PrefixCancels("Not Found Product by ID ", IntToString(id1), IntToString(id2));
      IntToStringInjective(id1, id2);
    }
  }
}
