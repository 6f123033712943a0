/** `ProductMapper`: the product view, with the product's orders flattened to ids. */
module ProductMapper {
  import opened Wrappers
  import opened Entities

  /** `mapOrderIds`: a null list gives the empty list; otherwise each order, in
      order, becomes its id. */
  function MapOrderIds(orders: Option<seq<Order>>): (r: seq<Option<int>>)
    ensures orders.None? ==> r == []
    ensures orders.Some? ==> |r| == |orders.value|
    ensures orders.Some? ==> forall i :: 0 <= i < |r| ==> r[i] == orders.value[i].id
  {
    match orders
    case None => []
    case Some(os) => seq(|os|, i requires 0 <= i < |os| => os[i].id)
  }

  /** Flattening commutes with concatenation: the ids of two lists of orders,
      one after the other, are the ids of the joined list. */
  lemma MapOrderIdsAppend(a: seq<Order>, b: seq<Order>)
    ensures MapOrderIds(Some(a + b)) == MapOrderIds(Some(a)) + MapOrderIds(Some(b))
  {
    var l, r := MapOrderIds(Some(a + b)), MapOrderIds(Some(a)) + MapOrderIds(Some(b));
    assert |l| == |r|;
    forall i | 0 <= i < |l| ensures l[i] == r[i] {
      if i < |a| { assert (a + b)[i] == a[i]; } else { assert (a + b)[i] == b[i - |a|]; }
    }
  }

  /** `productToProductDTO`: id and description copied, `orders` flattened by
      `mapOrderIds`. */
  function ProductToView(p: Product): (v: ProductView)
    ensures v.id == p.id && v.description == p.description
    ensures v.orders == MapOrderIds(p.orders)
    ensures p.orders.None? ==> v.orders == []
  {
    ProductView(p.id, p.description, MapOrderIds(p.orders))
  }
}
