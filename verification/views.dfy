/** The customer and order projections. Their mapper bodies are generated, so
    only the field shapes of the views are modelled. */
module Views {
  import opened Entities

  /** The customer view carries the id and the name. */
  function CustomerToView(c: Customer): (v: CustomerView)
    ensures v.id == c.id && v.name == c.name
  {
    CustomerView(c.id, c.name)
  }

  /** The order view embeds a summary of the customer and, in order, of each product. */
  function OrderToView(o: Order): (v: OrderView)
    ensures v.id == o.id && v.description == o.description
    ensures v.customer == OrderCustomerView(o.customer.id, o.customer.name)
    ensures |v.products| == |o.products|
    ensures forall i :: 0 <= i < |o.products| ==>
              v.products[i] == OrderProductView(o.products[i].id, o.products[i].description)
  {
    OrderView(o.id, o.description, OrderCustomerView(o.customer.id, o.customer.name),
              seq(|o.products|, i requires 0 <= i < |o.products| =>
                    OrderProductView(o.products[i].id, o.products[i].description)))
  }
}
