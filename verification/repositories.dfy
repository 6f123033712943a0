/** The three repositories as one in-memory store: per record kind, a map from id
    to the stored record and a counter that hands out the next id. Ids start at 1
    and are never reused; nothing is updated or deleted. */
module Repositories {
  import opened Wrappers
  import opened Text
  import opened Entities

  /** The keys of `m` in `[lo, hi)`, ascending. */
  function KeysBetween<T>(m: map<int, T>, lo: int, hi: int): (r: seq<int>)
    ensures forall i :: 0 <= i < |r| ==> r[i] in m && lo <= r[i] < hi
    ensures forall k :: k in m && lo <= k < hi ==> k in r
    ensures Increasing(r)
    decreases hi - lo
  {
    if lo >= hi then []
    else if lo in m then [lo] + KeysBetween(m, lo + 1, hi)
    else KeysBetween(m, lo + 1, hi)
  }

  /** The keys of `ks` that satisfy `f`, in their original order. */
  function FilterKeys(ks: seq<int>, f: int -> bool): (r: seq<int>)
    ensures forall k :: k in r <==> k in ks && f(k)
    ensures |r| <= |ks|
  {
    if ks == [] then []
    else if f(ks[0]) then [ks[0]] + FilterKeys(ks[1..], f)
    else FilterKeys(ks[1..], f)
  }

  predicate Increasing(ks: seq<int>) {
    forall i, j :: 0 <= i < j < |ks| ==> ks[i] < ks[j]
  }

  /** Filtering keeps ascending keys ascending. */
  lemma {:induction false} FilterKeysIncreasing(ks: seq<int>, f: int -> bool)
    requires Increasing(ks)
    ensures Increasing(FilterKeys(ks, f))
  {
    if ks != [] {
      var rest := FilterKeys(ks[1..], f);
      FilterKeysIncreasing(ks[1..], f);
      if f(ks[0]) {
        var r := [ks[0]] + rest;
        forall i, j | 0 <= i < j < |r| ensures r[i] < r[j] {
          if i == 0 {
            assert r[j] in rest;
            assert r[j] in ks[1..];
          } else {
            assert r[i] == rest[i - 1] && r[j] == rest[j - 1];
          }
        }
      }
    }
  }

  /** An ascending sequence holds as many distinct keys as it has elements. */
  lemma {:induction false} DistinctCard(ks: seq<int>)
    requires Increasing(ks)
    ensures |set k | k in ks| == |ks|
  {
    if ks != [] {
      var tail := ks[1..];
      assert Increasing(tail) by {
        forall i, j | 0 <= i < j < |tail| ensures tail[i] < tail[j] {
          assert tail[i] == ks[i + 1] && tail[j] == ks[j + 1];
        }
      }
      DistinctCard(tail);
      assert (set k | k in ks) == {ks[0]} + (set k | k in tail);
      assert ks[0] !in tail by {
        forall j | 0 <= j < |tail| ensures tail[j] != ks[0] {
          assert tail[j] == ks[j + 1];
        }
      }
    }
  }

  /** When every key of `m` lies in `[lo, hi)`, the range scan lists each stored key once. */
  lemma KeysBetweenCount<T>(m: map<int, T>, lo: int, hi: int)
    requires forall k :: k in m ==> lo <= k < hi
    ensures |KeysBetween(m, lo, hi)| == |m|
  {
    var ks := KeysBetween(m, lo, hi);
    DistinctCard(ks);
    assert (set k | k in ks) == m.Keys;
  }

  function Reverse<T>(s: seq<T>): (r: seq<T>)
    ensures |r| == |s|
    ensures forall i :: 0 <= i < |s| ==> r[i] == s[|s| - 1 - i]
  {
    if s == [] then [] else Reverse(s[1..]) + [s[0]]
  }

  /** Ascending keys put in the order a sort asks for; an unsorted scan is
      modelled as ascending id order. */
  function Ordered(ks: seq<int>, sort: Sort): (r: seq<int>)
    ensures Increasing(ks) && sort == ById(Desc) ==>
              forall i, j :: 0 <= i < j < |r| ==> r[i] > r[j]
    ensures forall k :: k in r <==> k in ks
    ensures |r| == |ks|
  {
    if sort == ById(Desc) then
      var r := Reverse(ks);
      assert forall k :: k in r <==> k in ks by {
        forall k ensures k in r <==> k in ks {
          if k in ks { var i :| 0 <= i < |ks| && ks[i] == k; assert r[|ks| - 1 - i] == k; }
        }
      }
      r
    else ks
  }

  /** The records stored under `ks`, in that order. */
  function Records<T(==)>(m: map<int, T>, ks: seq<int>): (r: seq<T>)
    requires forall k :: k in ks ==> k in m
    ensures |r| == |ks|
    ensures forall i :: 0 <= i < |ks| ==> ks[i] in m && r[i] == m[ks[i]]
  {
    if ks == [] then []
    else
      var k := ks[0];
      assert k in ks;
      [m[k]] + Records(m, ks[1..])
  }

  /** Where an element of `Records(m, ks)` comes from. */
  lemma {:induction false} RecordsIndex<T>(m: map<int, T>, ks: seq<int>, x: T) returns (i: int)
    requires forall k :: k in ks ==> k in m
    requires x in Records(m, ks)
    ensures 0 <= i < |ks| && ks[i] in ks && ks[i] in m && m[ks[i]] == x
  {
    var r := Records(m, ks);
    i :| 0 <= i < |r| && r[i] == x;
  }

  /** Every stored key that the filter keeps contributes its record. */
  lemma RecordsCoverAll<T>(m: map<int, T>, ks: seq<int>, f: int -> bool)
    requires forall j :: j in ks ==> j in m
    ensures forall k :: k in ks && f(k) ==> m[k] in Records(m, FilterKeys(ks, f))
  {
    var fs := FilterKeys(ks, f);
    forall k | k in ks && f(k) ensures m[k] in Records(m, fs) {
      var i :| 0 <= i < |fs| && fs[i] == k;
      assert Records(m, fs)[i] == m[k];
    }
  }

  /** The products of `m` below `hi` whose ids are in `ids`, ascending by id. */
  function WithIds(m: map<int, Product>, hi: int, ids: seq<int>): (r: seq<Product>)
    requires forall k :: k in m ==> m[k].id == Some(k)
    ensures forall i :: 0 <= i < |r| ==>
              r[i].id.Some? && r[i].id.value in ids && r[i].id.value in m && m[r[i].id.value] == r[i]
              && 1 <= r[i].id.value < hi
    ensures forall k :: k in ids && k in m && 1 <= k < hi ==> m[k] in r
    ensures forall i, j :: 0 <= i < j < |r| ==> r[i].id.value < r[j].id.value
  {
    var all := KeysBetween(m, 1, hi);
    var f := k => k in ids;
    var ks := FilterKeys(all, f);
    FilterKeysIncreasing(all, f);
    RecordsCoverAll(m, all, f);
    var r := Records(m, ks);
    ProductRecordIds(m, ks);
    assert forall i :: 0 <= i < |r| ==> ks[i] in ids by {
      forall i | 0 <= i < |r| ensures ks[i] in ids {
        assert ks[i] in ks;
      }
    }
    r
  }

  /** The product records under `ks` carry exactly those ids. */
  lemma ProductRecordIds(m: map<int, Product>, ks: seq<int>)
    requires forall k :: k in m ==> m[k].id == Some(k)
    requires forall k :: k in ks ==> k in m
    ensures forall i :: 0 <= i < |ks| ==> Records(m, ks)[i].id == Some(ks[i])
  {
  }

  /** The customer stored under `k` in `m` has a name containing `name`, case
      ignored. */
  predicate NameMatches(m: map<int, Customer>, k: int, name: string) {
    k in m && ContainsIgnoreCase(m[k].name, name)
  }

  /** `o` lists a product whose id is `pid`. */
  predicate HasProduct(o: Order, pid: int) {
    Some(pid) in ProductIds(o)
  }

  /** The ids of the products `o` lists, in order. */
  function ProductIds(o: Order): (r: seq<Option<int>>)
    ensures |r| == |o.products| && forall i :: 0 <= i < |r| ==> r[i] == o.products[i].id
  {
    seq(|o.products|, i requires 0 <= i < |o.products| => o.products[i].id)
  }

  class Store {
    var customers: map<int, Customer>
    var products: map<int, Product>
    var orders: map<int, Order>
    var nextCustomerId: int
    var nextProductId: int
    var nextOrderId: int

    /** Every reference of `o` is a stored record, exactly as stored. */
    ghost predicate Resolves(o: Order)
      reads this
    {
      && o.customer.id.Some?
      && o.customer.id.value in customers
      && customers[o.customer.id.value] == o.customer
      && forall p :: p in o.products ==>
           p.id.Some? && p.id.value in products && products[p.id.value] == p
    }

    /** Each record is stored under its own id, every id is below its kind's
        counter, and every stored order refers only to stored records. */
    ghost predicate Valid()
      reads this
    {
      && 1 <= nextCustomerId && 1 <= nextProductId && 1 <= nextOrderId
      && (forall k :: k in customers ==> 1 <= k < nextCustomerId && customers[k].id == Some(k))
      && (forall k :: k in products ==> 1 <= k < nextProductId && products[k].id == Some(k))
      && (forall k :: k in orders ==> 1 <= k < nextOrderId && orders[k].id == Some(k))
      && (forall k :: k in orders ==> Resolves(orders[k]))
    }

    constructor ()
      ensures Valid()
      ensures customers == map[] && products == map[] && orders == map[]
      ensures nextCustomerId == 1 && nextProductId == 1 && nextOrderId == 1
    {
      customers, products, orders := map[], map[], map[];
      nextCustomerId, nextProductId, nextOrderId := 1, 1, 1;
    }

    /** `CustomerRepository.findById`. */
    function FindCustomerById(id: int): (r: Option<Customer>)
      reads this
      ensures r.Some? <==> id in customers
      ensures r.Some? ==> r.value == customers[id]
    {
      if id in customers then Some(customers[id]) else None
    }

    /** `OrderRepository.findById`. */
    function FindOrderById(id: int): (r: Option<Order>)
      reads this
      ensures r.Some? <==> id in orders
      ensures r.Some? ==> r.value == orders[id]
    {
      if id in orders then Some(orders[id]) else None
    }

    /** The stored orders that list product `pid`, ascending by order id: what
        loading a product's `orders` relation yields. */
    function OrdersWithProduct(pid: int): (r: seq<Order>)
      reads this
    {
      var m := orders;
      Records(m, FilterKeys(KeysBetween(m, 1, nextOrderId), k => k in m && HasProduct(m[k], pid)))
    }

    /** The loaded relation holds exactly the stored orders that list the product. */
    lemma OrdersWithProductMembers(pid: int)
      requires Valid()
      ensures forall o :: o in OrdersWithProduct(pid) ==>
                o.id.Some? && o.id.value in orders && orders[o.id.value] == o && HasProduct(o, pid)
      ensures forall k :: k in orders && HasProduct(orders[k], pid) ==> orders[k] in OrdersWithProduct(pid)
    {
      var m := orders;
      var f := k => k in m && HasProduct(m[k], pid);
      var ks := FilterKeys(KeysBetween(m, 1, nextOrderId), f);
      var r := Records(m, ks);
      RecordsCoverAll(m, KeysBetween(m, 1, nextOrderId), f);
      assert r == OrdersWithProduct(pid);
      forall o | o in r
        ensures o.id.Some? && o.id.value in orders && orders[o.id.value] == o && HasProduct(o, pid)
      {
        var i := RecordsIndex(m, ks, o);
      }
      forall k | k in orders && HasProduct(orders[k], pid) ensures orders[k] in r {
        assert k in KeysBetween(m, 1, nextOrderId);
      }
    }

    /** A product with its `orders` relation loaded. */
    function Loaded(p: Product): (r: Product)
      reads this
      requires p.id.Some?
      ensures r.id == p.id && r.description == p.description
      ensures r.orders == Some(OrdersWithProduct(p.id.value))
    {
      p.(orders := Some(OrdersWithProduct(p.id.value)))
    }

    /** `ProductRepository.findById`: the stored product with its orders loaded. */
    function FindProductById(id: int): (r: Option<Product>)
      reads this
      requires Valid()
      ensures r.Some? <==> id in products
      ensures r.Some? ==> r.value.id == Some(id) && r.value.description == products[id].description
      ensures r.Some? ==> r.value.orders == Some(OrdersWithProduct(id))
      ensures r.Some? ==> forall o :: o in r.value.orders.value ==>
                o.id.Some? && o.id.value in orders && orders[o.id.value] == o && HasProduct(o, id)
      ensures r.Some? ==> forall k :: k in orders && HasProduct(orders[k], id) ==> orders[k] in r.value.orders.value
    {
      OrdersWithProductMembers(id);
      if id in products then Some(Loaded(products[id])) else None
    }

    /** `ProductRepository.findAllById`: every stored product whose id is
        requested, once each, ascending by id, with `orders` left unloaded. The
        store does not say which ids it did not find. */
    function FindAllProductsById(ids: seq<int>): (r: seq<Product>)
      reads this
      requires Valid()
      ensures forall i :: 0 <= i < |r| ==>
                r[i].id.Some? && r[i].id.value in ids && r[i].id.value in products
                && products[r[i].id.value] == r[i]
      ensures forall k :: k in ids && k in products ==> products[k] in r
      ensures forall i, j :: 0 <= i < j < |r| ==> r[i].id.value < r[j].id.value
    {
      WithIds(products, nextProductId, ids)
    }

    /** The page of all customers. */
    function FindAllCustomers(pageable: Pageable): (r: Page<Customer>)
      reads this
      requires Valid()
      ensures r.totalElements == |KeysBetween(customers, 1, nextCustomerId)| == |customers|
      ensures forall c :: c in r.content ==> c in customers.Values
    {
      var m := customers;
      KeysBetweenCount(m, 1, nextCustomerId);
      PageOf(Records(m, Ordered(KeysBetween(m, 1, nextCustomerId), pageable.sort)), pageable)
    }

    /** `CustomerRepository.findByNameContainingIgnoreCase`. */
    function FindCustomersByName(name: string, pageable: Pageable): (r: Page<Customer>)
      reads this
      requires Valid()
      ensures forall c :: c in r.content ==> c in customers.Values && ContainsIgnoreCase(c.name, name)
      ensures r.totalElements == |set k | k in customers && ContainsIgnoreCase(customers[k].name, name)|
    {
      var m := customers;
      MatchingCustomerCount(name);
      var ks := Ordered(MatchingCustomerKeys(name), pageable.sort);
      var all := Records(m, ks);
      assert forall c :: c in all ==> c in m.Values && ContainsIgnoreCase(c.name, name) by {
        forall c | c in all ensures c in m.Values && ContainsIgnoreCase(c.name, name) {
          var i := RecordsIndex(m, ks, c);
        }
      }
      PageOf(all, pageable)
    }

    /** The keys of the stored customers whose names contain `name`, case
        ignored, in ascending order. */
    function MatchingCustomerKeys(name: string): (r: seq<int>)
      reads this
      ensures Increasing(r)
      ensures forall k :: k in r <==>
                k in customers && 1 <= k < nextCustomerId && ContainsIgnoreCase(customers[k].name, name)
    {
      var m := customers;
      var all := KeysBetween(m, 1, nextCustomerId);
      var f := k => NameMatches(m, k, name);
      FilterKeysIncreasing(all, f);
      FilterKeys(all, f)
    }

    /** The name query finds every stored customer whose name matches, each once. */
    lemma MatchingCustomerCount(name: string)
      requires Valid()
      ensures |MatchingCustomerKeys(name)| == |set k | k in customers && ContainsIgnoreCase(customers[k].name, name)|
    {
      var ks := MatchingCustomerKeys(name);
      DistinctCard(ks);
      assert (set k | k in ks) == set k | k in customers && ContainsIgnoreCase(customers[k].name, name);
    }

    /** `OrderRepository.findAll`. */
    function FindAllOrders(pageable: Pageable): (r: Page<Order>)
      reads this
      requires Valid()
      ensures r.totalElements == |KeysBetween(orders, 1, nextOrderId)| == |orders|
      ensures forall o :: o in r.content ==> o.id.Some? && o.id.value in orders && orders[o.id.value] == o
    {
      var m := orders;
      KeysBetweenCount(m, 1, nextOrderId);
      PageOf(Records(m, Ordered(KeysBetween(m, 1, nextOrderId), pageable.sort)), pageable)
    }

    /** `ProductRepository.findAll`, each product with its orders loaded. */
    function FindAllProducts(pageable: Pageable): (r: Page<Product>)
      reads this
      requires Valid()
      ensures r.totalElements == |KeysBetween(products, 1, nextProductId)| == |products|
      ensures forall p :: p in r.content ==>
                p.id.Some? && p.id.value in products && p.description == products[p.id.value].description
                && p.orders == Some(OrdersWithProduct(p.id.value))
    {
      KeysBetweenCount(products, 1, nextProductId);
      var ks := Ordered(KeysBetween(products, 1, nextProductId), pageable.sort);
      LoadedRecordsStored(ks);
      PageOf(LoadedRecords(ks), pageable)
    }

    /** Each loaded product is a stored one, with its orders relation filled in. */
    lemma LoadedRecordsStored(ks: seq<int>)
      requires Valid()
      requires forall k :: k in ks ==> k in products
      ensures forall p :: p in LoadedRecords(ks) ==>
                p.id.Some? && p.id.value in products && p.description == products[p.id.value].description
                && p.orders == Some(OrdersWithProduct(p.id.value))
    {
      var all := LoadedRecords(ks);
      forall p | p in all
        ensures p.id.Some? && p.id.value in products && p.description == products[p.id.value].description
                && p.orders == Some(OrdersWithProduct(p.id.value))
      {
        var i :| 0 <= i < |all| && all[i] == p;
        var k := ks[i];
        assert k in products && p == Loaded(products[k]);
        assert products[k].id == Some(k);
      }
    }

    /** The products stored under `ks`, in that order, each with its orders loaded. */
    function LoadedRecords(ks: seq<int>): (r: seq<Product>)
      reads this
      requires forall k :: k in ks ==> k in products && products[k].id.Some?
      ensures |r| == |ks|
      ensures forall i :: 0 <= i < |ks| ==>
                ks[i] in products && products[ks[i]].id.Some? && r[i] == Loaded(products[ks[i]])
    {
      if ks == [] then []
      else
        var k := ks[0];
        assert k in ks;
        var rest := LoadedRecords(ks[1..]);
        var r := [Loaded(products[k])] + rest;
        assert forall i :: 1 <= i < |ks| ==> ks[i] == ks[1..][i - 1] && r[i] == rest[i - 1];
        r
    }

    /** `CustomerRepository.save` of a new record: the next id is assigned. */
    method SaveCustomer(c: Customer) returns (saved: Customer)
      requires Valid() && c.id.None?
      modifies this
      ensures Valid()
      ensures saved == c.(id := Some(old(nextCustomerId)))
      ensures old(nextCustomerId) !in old(customers)
      ensures customers == old(customers)[old(nextCustomerId) := saved]
      ensures nextCustomerId == old(nextCustomerId) + 1
      ensures products == old(products) && orders == old(orders)
      ensures nextProductId == old(nextProductId) && nextOrderId == old(nextOrderId)
    {
      saved := c.(id := Some(nextCustomerId));
      customers := customers[nextCustomerId := saved];
      nextCustomerId := nextCustomerId + 1;
    }

    /** `ProductRepository.save` of a new record: the next id is assigned. */
    method SaveProduct(p: Product) returns (saved: Product)
      requires Valid() && p.id.None?
      modifies this
      ensures Valid()
      ensures saved == p.(id := Some(old(nextProductId)))
      ensures old(nextProductId) !in old(products)
      ensures products == old(products)[old(nextProductId) := saved]
      ensures nextProductId == old(nextProductId) + 1
      ensures customers == old(customers) && orders == old(orders)
      ensures nextCustomerId == old(nextCustomerId) && nextOrderId == old(nextOrderId)
    {
      saved := p.(id := Some(nextProductId));
      products := products[nextProductId := saved];
      nextProductId := nextProductId + 1;
    }

    /** `OrderRepository.save` of a new record. The customer and every product
        must already be stored (the foreign keys). */
    method SaveOrder(o: Order) returns (saved: Order)
      requires Valid() && o.id.None? && Resolves(o)
      modifies this
      ensures Valid()
      ensures saved == o.(id := Some(old(nextOrderId)))
      ensures old(nextOrderId) !in old(orders)
      ensures orders == old(orders)[old(nextOrderId) := saved]
      ensures nextOrderId == old(nextOrderId) + 1
      ensures customers == old(customers) && products == old(products)
      ensures nextCustomerId == old(nextCustomerId) && nextProductId == old(nextProductId)
    {
      saved := o.(id := Some(nextOrderId));
      orders := orders[nextOrderId := saved];
      nextOrderId := nextOrderId + 1;
    }
  }
}
