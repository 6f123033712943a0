/** The store's records, the views the services return, the paging types, and the
    exception the services throw. */
module Entities {
  import opened Wrappers
  import opened Text

  /** A customer. `id` is null until the store assigns one; `orders` is the
      (possibly unset) list of the customer's orders. */
  datatype Customer = Customer(id: Option<int>, name: string, orders: Option<seq<Order>>)

  /** A product. `orders` is null when the record was built without it and
      otherwise holds the orders that reference the product. */
  datatype Product = Product(id: Option<int>, description: string, orders: Option<seq<Order>>)

  /** An order: one customer and the products as the store returned them. */
  datatype Order = Order(id: Option<int>, description: string, customer: Customer, products: seq<Product>)

  datatype CustomerView = CustomerView(id: Option<int>, name: string)

  datatype OrderCustomerView = OrderCustomerView(id: Option<int>, name: string)

  datatype OrderProductView = OrderProductView(id: Option<int>, description: string)

  datatype OrderView = OrderView(
    id: Option<int>,
    description: string,
    customer: OrderCustomerView,
    products: seq<OrderProductView>)

  datatype ProductView = ProductView(id: Option<int>, description: string, orders: seq<Option<int>>)

  datatype Direction = Asc | Desc

  /** The sorts the listings use: none, or by id in one direction. */
  datatype Sort = Unsorted | ById(direction: Direction)

  /** A page request: zero-based page number, page size and sort. */
  datatype Pageable = Pageable(pageNumber: nat, pageSize: nat, sort: Sort)

  /** A page of results with the total number of matching elements. */
  datatype Page<T> = Page(content: seq<T>, number: nat, size: nat, totalElements: nat)

  /** `Sort.toString`: "UNSORTED", or "property: DIRECTION". */
  function SortToString(s: Sort): (r: string)
    ensures forall i :: 0 <= i < |r| ==> r[i] != '|'
  {
    match s
    case Unsorted => "UNSORTED"
    case ById(Asc) => "id: ASC"
    case ById(Desc) => "id: DESC"
  }

  lemma SortToStringInjective(s: Sort, t: Sort)
    requires SortToString(s) == SortToString(t)
    ensures s == t
  {
    var a, b := SortToString(s), SortToString(t);
    assert |a| == |b| && a[0] == b[0];
  }

  /** `Page.getTotalPages`: one page when the size is zero, otherwise the total
      divided by the size, rounded up. */
  function TotalPages<T>(p: Page<T>): nat {
    if p.size == 0 then 1 else (p.totalElements + p.size - 1) / p.size
  }

  /** The page count is the least number of pages of `size` that hold every element. */
  lemma TotalPagesIsCeiling<T>(p: Page<T>)
    requires p.size > 0
    ensures TotalPages(p) * p.size >= p.totalElements
    ensures TotalPages(p) == 0 || (TotalPages(p) - 1) * p.size < p.totalElements
  {
    var n, s := p.totalElements, p.size;
    var q: int, r: int := (n + s - 1) / s, (n + s - 1) % s;
    assert q * s + r == n + s - 1;
    assert q * s >= n;
    assert (q - 1) * s == q * s - s;
  }

  lemma TotalPagesExamples()
    ensures TotalPages(Page([0], 2, 5, 11)) == 3
    ensures TotalPages(Page([0, 0], 0, 10, 2)) == 1
    ensures TotalPages(Page<int>.Page([], 0, 10, 0)) == 0
  {
  }

  /** `Page.map`: each element converted, the paging data kept. */
  function MapPage<A, B>(p: Page<A>, f: A -> B): (r: Page<B>)
    ensures |r.content| == |p.content|
    ensures forall i :: 0 <= i < |p.content| ==> r.content[i] == f(p.content[i])
    ensures r.number == p.number && r.size == p.size && r.totalElements == p.totalElements
  {
    Page(seq(|p.content|, i requires 0 <= i < |p.content| => f(p.content[i])),
         p.number, p.size, p.totalElements)
  }

  /** The index of the first element of the page `pageable` selects. */
  function Offset(pageable: Pageable): nat {
    pageable.pageNumber * pageable.pageSize
  }

  /** The page `pageable` selects from the full, ordered result list `all`. */
  function PageOf<T>(all: seq<T>, pageable: Pageable): (r: Page<T>)
    ensures r.totalElements == |all|
    ensures r.number == pageable.pageNumber && r.size == pageable.pageSize
    ensures |r.content| <= pageable.pageSize
    ensures forall x :: x in r.content ==> x in all
    ensures Offset(pageable) + pageable.pageSize <= |all| ==>
              r.content == all[Offset(pageable)..Offset(pageable) + pageable.pageSize]
    ensures Offset(pageable) <= |all| < Offset(pageable) + pageable.pageSize ==>
              r.content == all[Offset(pageable)..]
    ensures |all| <= Offset(pageable) ==> r.content == []
  {
    var off := Offset(pageable);
    var lo := if off <= |all| then off else |all|;
    var hi := if lo + pageable.pageSize <= |all| then lo + pageable.pageSize else |all|;
    Page(all[lo..hi], pageable.pageNumber, pageable.pageSize, |all|)
  }

  /** `ResponseStatusException`: an HTTP status code and an optional reason. */
  datatype ResponseStatusException = ResponseStatusException(status: int, reason: Option<string>)

  /** The exception every "not found" path throws: status 404 and a reason. */
  function NotFound(reason: string): (e: ResponseStatusException)
    ensures e.status == 404 && e.reason == Some(reason)
  {
    ResponseStatusException(404, Some(reason))
  }

  /** The body of a create-order request. */
  datatype CreateOrderRequest = CreateOrderRequest(description: string, customerId: int, productIds: seq<int>)

  /** The request's declared constraints: a description that is not blank after
      trimming, and at least one product id (a non-null customer id is given by
      the type). */
  predicate ValidCreateOrderRequest(r: CreateOrderRequest) {
    Trim(r.description) != [] && |r.productIds| > 0
  }
}
