/** `OrderService`: listing orders, looking one up, and the order-creation
    workflow that checks the customer and every product before it saves. */
module OrderService {
  import opened Wrappers
  import opened Text
  import opened Entities
  import opened Views
  import opened Repositories

  /** The ids of the products the bulk lookup returned (`foundIds`). */
  function FoundIds(ps: seq<Product>): (r: set<int>)
    ensures forall i :: 0 <= i < |ps| && ps[i].id.Some? ==> ps[i].id.value in r
  {
    set p | p in ps && p.id.Some? :: p.id.value
  }

  /** The requested ids that were not found, in request order, repeats kept. */
  function Missing(requested: seq<int>, found: set<int>): (r: seq<int>)
    ensures forall k :: k in r <==> k in requested && k !in found
    ensures |r| <= |requested|
  {
    if requested == [] then []
    else
      var rest := Missing(requested[1..], found);
      if requested[0] in found then rest else [requested[0]] + rest
  }

  /** A missing id is reported as often as it was requested; a found one never. */
  lemma {:induction false} MissingCounts(requested: seq<int>, found: set<int>, k: int)
    ensures multiset(Missing(requested, found))[k] == if k in found then 0 else multiset(requested)[k]
  {
    if requested != [] {
      assert requested == [requested[0]] + requested[1..];
      MissingCounts(requested[1..], found, k);
    }
  }

  /** Nothing is missing exactly when every requested id was found. */
  lemma MissingEmpty(requested: seq<int>, found: set<int>)
    ensures Missing(requested, found) == [] <==> forall k :: k in requested ==> k in found
  {
    var r := Missing(requested, found);
    if r != [] {
      var x := r[0];
      assert x in r;
      assert x in requested && x !in found;
    } else {
      forall k | k in requested ensures k in found {
        assert k !in r;
      }
    }
  }

  /** The missing list of a concatenation is the concatenation of the missing
      lists: request order is kept. */
  lemma {:induction false} MissingAppend(a: seq<int>, b: seq<int>, found: set<int>)
    ensures Missing(a + b, found) == Missing(a, found) + Missing(b, found)
  {
    if a != [] {
      var head := if a[0] in found then [] else [a[0]];
      assert (a + b)[1..] == a[1..] + b;
      assert (a + b)[0] == a[0];
      MissingAppend(a[1..], b, found);
    } else {
      assert a + b == b;
    }
  }

  /** Only membership of the requested ids matters: two found-sets that agree on
      them give the same missing list. */
  lemma {:induction false} MissingAgrees(requested: seq<int>, f1: set<int>, f2: set<int>)
    requires forall k :: k in requested ==> (k in f1 <==> k in f2)
    ensures Missing(requested, f1) == Missing(requested, f2)
  {
    if requested != [] {
      var x, rest := requested[0], requested[1..];
      assert x in requested;
      assert forall k :: k in rest ==> k in requested;
      MissingAgrees(rest, f1, f2);
      assert Missing(requested, f1) == (if x in f1 then [] else [x]) + Missing(rest, f1);
      assert Missing(requested, f2) == (if x in f2 then [] else [x]) + Missing(rest, f2);
    }
  }

  /** One unknown id among found ones is reported alone. */
  lemma MissingOneUnknown()
    ensures Missing([1, 2, 99], {1, 2}) == [99]
  {
    var f: set<int> := {1, 2};
    assert Missing([99], f) == [99];
    assert [2, 99][1..] == [99];
    assert Missing([2, 99], f) == [99];
    assert [1, 2, 99][1..] == [2, 99];
  }

  /** With nothing found, every requested id is reported, in request order. */
  lemma MissingNoneFound()
    ensures Missing([10, 20], {}) == [10, 20]
  {
    var none: set<int> := {};
    assert Missing([20], none) == [20];
    assert [10, 20][1..] == [20];
  }

  /** A missing id requested twice is reported twice. */
  lemma MissingRepeatsKept()
    ensures Missing([5, 1, 5], {1}) == [5, 5]
  {
    var one: set<int> := {1};
    assert Missing([5], one) == [5];
    assert [1, 5][1..] == [5];
    assert Missing([1, 5], one) == [5];
    assert [5, 1, 5][1..] == [1, 5];
  }

  /** For the ids of a request, "found by the bulk lookup" is "stored". */
  lemma FoundIsStored(store: Store, ids: seq<int>)
    requires store.Valid()
    ensures forall k :: k in ids ==> (k in FoundIds(store.FindAllProductsById(ids)) <==> k in store.products)
  {
    var ps := store.FindAllProductsById(ids);
    forall k | k in ids ensures k in FoundIds(ps) <==> k in store.products {
      if k in store.products {
        var i :| 0 <= i < |ps| && ps[i] == store.products[k];
        assert ps[i].id == Some(k);
      }
      if k in FoundIds(ps) {
        var p :| p in ps && p.id == Some(k);
        var i :| 0 <= i < |ps| && ps[i] == p;
      }
    }
  }

  /** The missing list computed from the bulk lookup is the list of requested
      ids that are not stored, and it is empty exactly when all are stored. */
  lemma MissingIsUnstored(store: Store, ids: seq<int>)
    requires store.Valid()
    ensures Missing(ids, FoundIds(store.FindAllProductsById(ids))) == Missing(ids, store.products.Keys)
    ensures Missing(ids, store.products.Keys) == [] <==> forall k :: k in ids ==> k in store.products
  {
    FoundIsStored(store, ids);
    MissingAgrees(ids, FoundIds(store.FindAllProductsById(ids)), store.products.Keys);
    MissingEmpty(ids, store.products.Keys);
  }

  /** An order built from a stored customer and the bulk lookup refers only to
      stored records, and lists every requested id that is stored. */
  lemma LookedUpResolve(store: Store, ids: seq<int>, o: Order)
    requires store.Valid()
    requires o.customer.id.Some? && o.customer.id.value in store.customers
    requires store.customers[o.customer.id.value] == o.customer
    requires o.products == store.FindAllProductsById(ids)
    ensures store.Resolves(o)
    ensures forall pid :: pid in ids && pid in store.products ==> HasProduct(o, pid)
  {
    var ps := o.products;
    forall p | p in ps
      ensures p.id.Some? && p.id.value in store.products && store.products[p.id.value] == p
    {
      var i :| 0 <= i < |ps| && ps[i] == p;
    }
    forall pid | pid in ids && pid in store.products ensures HasProduct(o, pid) {
      var i :| 0 <= i < |ps| && ps[i] == store.products[pid];
      assert ProductIds(o)[i] == Some(pid);
    }
  }

  /** `getAllOrders`: the store's page, each order converted to its view. */
  function GetAllOrders(store: Store, pageable: Pageable): (r: Page<OrderView>)
    reads store
    requires store.Valid()
    ensures var page := store.FindAllOrders(pageable);
            && r.number == pageable.pageNumber && r.size == pageable.pageSize
            && r.totalElements == page.totalElements
            && |r.content| == |page.content|
            && forall i :: 0 <= i < |r.content| ==> r.content[i] == OrderToView(page.content[i])
  {
    MapPage(store.FindAllOrders(pageable), OrderToView)
  }

  /** `getOrderByID`: the view of the stored order, or 404 with a fixed message. */
  function GetOrderById(store: Store, id: int): (r: Result<OrderView, ResponseStatusException>)
    reads store
    requires store.Valid()
    ensures r.Failure? <==> id !in store.orders
    ensures r.Failure? ==> r.error == NotFound("Not Found Order by ID " + IntToString(id))
    ensures r.Success? ==> r.value == OrderToView(store.orders[id]) && r.value.id == Some(id)
  {
    match store.FindOrderById(id)
    case None => Failure(NotFound("Not Found Order by ID " + IntToString(id)))
    case Some(order) => Success(OrderToView(order))
  }

  /** `createOrder`. A missing customer fails first; otherwise every requested id
      that is not stored is reported, in request order; only when none is missing
      is one order saved, holding the request's description, the stored customer
      and the products exactly as the bulk lookup returned them. */
  method CreateOrder(store: Store, request: CreateOrderRequest)
    returns (r: Result<OrderView, ResponseStatusException>)
    requires store.Valid() && ValidCreateOrderRequest(request)
    modifies store
    ensures store.Valid()
    ensures store.customers == old(store.customers) && store.products == old(store.products)
    ensures store.nextCustomerId == old(store.nextCustomerId)
    ensures store.nextProductId == old(store.nextProductId)
    ensures request.customerId !in old(store.customers) ==>
              r == Failure(NotFound("Not Found Customer by ID " + IntToString(request.customerId)))
    ensures var missing := Missing(request.productIds, old(store.products.Keys));
            request.customerId in old(store.customers) && missing != [] ==>
              r == Failure(NotFound("Not Found Product IDs: " + IdsToString(missing)))
    ensures r.Success? <==> request.customerId in old(store.customers)
                            && forall k :: k in request.productIds ==> k in old(store.products)
    ensures r.Failure? ==> store.orders == old(store.orders) && store.nextOrderId == old(store.nextOrderId)
    ensures r.Success? ==>
              var id := old(store.nextOrderId);
              var saved := Order(Some(id), request.description, old(store.customers[request.customerId]),
                                 old(store.FindAllProductsById(request.productIds)));
              && id !in old(store.orders)
              && store.orders == old(store.orders)[id := saved]
              && store.nextOrderId == id + 1
              && r.value == OrderToView(saved)
              && GetOrderById(store, id) == Success(r.value)
              && forall pid :: pid in request.productIds ==> HasProduct(saved, pid)
  {
    var customer := store.FindCustomerById(request.customerId);
    if customer.None? {
      return Failure(NotFound("Not Found Customer by ID " + IntToString(request.customerId)));
    }

    var products := store.FindAllProductsById(request.productIds);

    var foundIds := FoundIds(products);
    var missing := Missing(request.productIds, foundIds);
    MissingIsUnstored(store, request.productIds);
    if missing != [] {
      return Failure(NotFound("Not Found Product IDs: " + IdsToString(missing)));
    }

    var order := Order(None, request.description, customer.value, products);
    LookedUpResolve(store, request.productIds, order);
    var saved := store.SaveOrder(order);
    r := Success(OrderToView(saved));
  }
}
