/** `ProductService`: creating a product, listing products, looking one up. */
module ProductService {
  import opened Wrappers
  import opened Text
  import opened Entities
  import opened ProductMapper
  import opened Repositories

  /** `getProductByID`: the view of the stored product, its `orders` relation
      loaded, or 404 with a fixed message. */
  function GetProductById(store: Store, id: int): (r: Result<ProductView, ResponseStatusException>)
    reads store
    requires store.Valid()
    ensures r.Failure? <==> id !in store.products
    ensures r.Failure? ==> r.error == NotFound("Not Found Product by ID " + IntToString(id))
    ensures r.Success? ==> r.value.id == Some(id) && r.value.description == store.products[id].description
  {
    match store.FindProductById(id)
    case None => Failure(NotFound("Not Found Product by ID " + IntToString(id)))
    case Some(product) => Success(ProductToView(product))
  }

  /** The ids a product view lists are exactly the ids of the stored orders that
      list the product. */
  lemma ProductViewOrders(store: Store, id: int, k: int)
    requires store.Valid() && id in store.products
    ensures Some(k) in GetProductById(store, id).value.orders <==>
              k in store.orders && HasProduct(store.orders[k], id)
  {
    var os := store.OrdersWithProduct(id);
    store.OrdersWithProductMembers(id);
    var ids := GetProductById(store, id).value.orders;
    assert ids == MapOrderIds(Some(os));
    if Some(k) in ids {
      var i :| 0 <= i < |ids| && ids[i] == Some(k);
      assert os[i] in os;
    }
    if k in store.orders && HasProduct(store.orders[k], id) {
      var o := store.orders[k];
      assert o in os;
      var i :| 0 <= i < |os| && os[i] == o;
      assert ids[i] == Some(k);
    }
  }

  /** `getAllProducts`: the store's page, each product converted to its view. */
  function GetAllProducts(store: Store, pageable: Pageable): (r: Page<ProductView>)
    reads store
    requires store.Valid()
    ensures var page := store.FindAllProducts(pageable);
            && r.number == pageable.pageNumber && r.size == pageable.pageSize
            && r.totalElements == page.totalElements
            && |r.content| == |page.content|
            && forall i :: 0 <= i < |r.content| ==> r.content[i] == ProductToView(page.content[i])
  {
    MapPage(store.FindAllProducts(pageable), ProductToView)
  }

  /** `createProduct`: one product saved with the description, no preset id and
      no orders list; the store assigns the next id. Looking the new id up at
      once gives the same view back. */
  method CreateProduct(store: Store, description: string) returns (view: ProductView)
    requires store.Valid()
    modifies store
    ensures store.Valid()
    ensures var id := old(store.nextProductId);
            && id !in old(store.products)
            && store.products == old(store.products)[id := Product(Some(id), description, None)]
            && store.nextProductId == id + 1
            && view == ProductView(Some(id), description, [])
            && GetProductById(store, id) == Success(view)
    ensures store.customers == old(store.customers) && store.orders == old(store.orders)
    ensures store.nextCustomerId == old(store.nextCustomerId) && store.nextOrderId == old(store.nextOrderId)
  {
    var product := Product(None, description, None);
    var saved := store.SaveProduct(product);
    view := ProductToView(saved);

    var id := saved.id.value;
    assert GetProductById(store, id).value.orders == [] by {
      var ids := GetProductById(store, id).value.orders;
      if ids != [] {
        var x := ids[0];
        assert x in ids;
        ProductViewOrders(store, id, x.value);
      }
    }
  }
}
