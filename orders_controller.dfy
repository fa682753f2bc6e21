/**
 * `OrdersController.ordersPage`: a customer's order history, newest first, with each order's id
 * list replaced by the products' names and stock for display.
 */
module OrdersPage {
  import opened Wrappers
  import opened Orders
  import opened Customers
  import opened Sessions
  import opened Database
  import opened ProductListText
  import OR = OrderRepository

  const LoginFirst: string := "redirect:/login?returnUrl=/orders"
  const OrdersView: string := "orders"

  /** An order as shown: its id list rewritten as the rendered product list. */
  function Shown(db: Store, o: OrderRecord): OrderRecord
    reads db
  {
    o.(productIds := ProductList(db.products, Some(o.productIds), true))
  }

  /**
   * `ordersPage`. Without a customer the page redirects to the login page and lists nothing;
   * otherwise it lists the customer's orders, newest first, each rewritten for display. The
   * rewrite touches only the orders handed to the view, never the stored rows.
   */
  method OrdersPage(session: Session, db: Store) returns (view: string, orders: seq<OrderRecord>)
    ensures session.customer.None? ==> view == LoginFirst && orders == []
    ensures session.customer.Some? ==>
      var listed := OR.FindByUsernameOrderByCreatedAtDesc(db.orders, session.customer.value.username);
      && view == OrdersView
      && |orders| == |listed|
      && forall i :: 0 <= i < |listed| ==> orders[i] == Shown(db, listed[i])
  {
    if session.customer.None? {
      return LoginFirst, [];
    }
    var listed := OR.FindByUsernameOrderByCreatedAtDesc(db.orders, session.customer.value.username);
    orders := listed;
    for i := 0 to |listed|
      invariant |orders| == |listed|
      invariant forall j :: 0 <= j < i ==> orders[j] == Shown(db, listed[j])
      invariant forall j :: i <= j < |listed| ==> orders[j] == listed[j]
    {
      var info := RenderProductList(db.products, Some(orders[i].productIds), true);
      orders := orders[i := orders[i].(productIds := info)];
    }
    view := OrdersView;
  }
}
