/**
 * The entities of the food delivery system that are updated in place, and
 * the in-memory store that holds them.
 */
module Store {
  import opened Items
  import opened Menus

  /** A delivery person. Never changed after creation, so a value. */
  datatype DeliveryPerson = DeliveryPerson(deliveryPersonId: int, name: string, contactNo: int)

  /** A customer's cart: an insertion-ordered map from item id to (item, quantity). */
  class Cart {
    var lines: seq<Line>

    ghost predicate Valid()
      reads this
    {
      WellFormed(lines)
    }

    constructor ()
      ensures Valid() && lines == []
    {
      lines := [];
    }

    /**
     * A null item or a quantity <= 0 is ignored; otherwise the quantity is
     * merged into the entry for the item's id, or a new entry is appended.
     */
    method AddItem(foodItem: Option<FoodItem>, quantity: int)
      requires Valid()
      modifies this
      ensures Valid()
      ensures foodItem.None? || quantity <= 0 ==> lines == old(lines)
      ensures foodItem.Some? && quantity > 0 ==> lines == Merge(old(lines), foodItem.value, quantity)
      ensures foodItem.Some? && quantity > 0 ==>
        Ids(lines) == if foodItem.value.id in Ids(old(lines)) then Ids(old(lines)) else Ids(old(lines)) + [foodItem.value.id]
      ensures foodItem.Some? && quantity > 0 ==>
        forall x :: QtyOf(lines, x) == QtyOf(old(lines), x) + (if x == foodItem.value.id then quantity else 0)
    {
      if foodItem.None? || quantity <= 0 {
        return;
      }
      var item := foodItem.value;
      MergeWellFormed(lines, item, quantity);
      MergeIds(lines, item, quantity);
      forall x {
        MergeQty(lines, item, quantity, x);
      }
      lines := Merge(lines, item, quantity);
    }

    /** A null item is ignored; otherwise the entry for the item's id, if any, is deleted. */
    method RemoveItem(foodItem: Option<FoodItem>)
      requires Valid()
      modifies this
      ensures Valid()
      ensures foodItem.None? ==> lines == old(lines)
      ensures foodItem.Some? ==> lines == Remove(old(lines), foodItem.value.id)
      ensures foodItem.Some? ==> Lookup(lines, foodItem.value.id) == None
      ensures foodItem.Some? ==> forall x :: x != foodItem.value.id ==> Lookup(lines, x) == Lookup(old(lines), x)
    {
      if foodItem.None? {
        return;
      }
      var id := foodItem.value.id;
      RemoveWellFormed(lines, id);
      forall x {
        RemoveLookup(lines, id, x);
      }
      lines := Remove(lines, id);
    }

    /** Sum of price * quantity over the entries; 0 for an empty cart. */
    function TotalCost(): (t: int)
      reads this
      ensures lines == [] ==> t == 0
      ensures (forall i :: 0 <= i < |lines| ==> lines[i].item.price >= 0 && lines[i].qty >= 0) ==> t >= 0
    {
      if forall i :: 0 <= i < |lines| ==> lines[i].item.price >= 0 && lines[i].qty >= 0 then
        TotalNonNegative(lines);
        Total(lines)
      else
        Total(lines)
    }
  }

  /** A registered customer; owns exactly one cart for its lifetime. */
  class Customer {
    const userId: int
    const username: string
    const contactNo: int
    const cart: Cart

    constructor (userId: int, username: string, contactNo: int)
      ensures this.userId == userId && this.username == username && this.contactNo == contactNo
      ensures fresh(cart) && cart.Valid() && cart.lines == []
    {
      this.userId := userId;
      this.username := username;
      this.contactNo := contactNo;
      this.cart := new Cart();
    }
  }

  /** A restaurant and its menu (a list of food items with distinct ids). */
  class Restaurant {
    const id: int
    const name: string
    var menu: seq<FoodItem>

    ghost predicate Valid()
      reads this
    {
      Distinct(MenuIds(menu))
    }

    constructor (id: int, name: string)
      ensures this.id == id && this.name == name
      ensures Valid() && menu == []
    {
      this.id := id;
      this.name := name;
      menu := [];
    }

    /** Removes every item with the new item's id, then appends the new item. */
    method AddFoodItem(item: FoodItem)
      requires Valid()
      modifies this
      ensures Valid()
      ensures menu == Upsert(old(menu), item)
    {
      UpsertDistinct(menu, item);
      menu := WithoutId(menu, item.id);
      menu := menu + [item];
    }

    /** Removes every item with the given id. */
    method RemoveFoodItem(foodItemId: int)
      requires Valid()
      modifies this
      ensures Valid()
      ensures menu == WithoutId(old(menu), foodItemId)
    {
      WithoutIdDistinct(menu, foodItemId);
      menu := WithoutId(menu, foodItemId);
    }
  }

  /** A placed order: a snapshot of a cart plus status, address and delivery person. */
  class Order {
    const orderId: int
    const customer: Customer
    var items: seq<Line>
    var status: string
    var deliveryPerson: Option<DeliveryPerson>
    var deliveryAddress: Option<string>

    ghost predicate Valid()
      reads this
    {
      WellFormed(items)
    }

    constructor (orderId: int, customer: Customer)
      ensures this.orderId == orderId && this.customer == customer
      ensures Valid() && items == []
      ensures status == "Pending" && deliveryPerson == None && deliveryAddress == None
    {
      this.orderId := orderId;
      this.customer := customer;
      items := [];
      status := "Pending";
      deliveryPerson := None;
      deliveryAddress := None;
    }

    /** Same rule as the cart: ignored for a null item or qty <= 0, else merged. */
    method AddItem(item: Option<FoodItem>, qty: int)
      requires Valid()
      modifies this`items
      ensures Valid()
      ensures item.None? || qty <= 0 ==> items == old(items)
      ensures item.Some? && qty > 0 ==> items == Merge(old(items), item.value, qty)
    {
      if item.None? || qty <= 0 {
        return;
      }
      MergeWellFormed(items, item.value, qty);
      items := Merge(items, item.value, qty);
    }

    method SetDeliveryPerson(dp: DeliveryPerson)
      modifies this`deliveryPerson
      ensures deliveryPerson == Some(dp)
    {
      deliveryPerson := Some(dp);
    }

    method SetDeliveryAddress(address: string)
      modifies this`deliveryAddress
      ensures deliveryAddress == Some(address)
    {
      deliveryAddress := Some(address);
    }
  }

  /**
   * The in-memory store shared by all services. `orderIds` is the insertion
   * order of the `orders` map (a LinkedHashMap in the source).
   */
  class DataStore {
    var restaurants: map<int, Restaurant>
    var customers: map<int, Customer>
    var deliveryPeople: map<int, DeliveryPerson>
    var orders: map<int, Order>
    var orderIds: seq<int>
    var nextOrderId: int

    /** The registered customers' carts. */
    ghost function Carts(): set<Cart>
      reads this`customers
    {
      set k | k in customers :: customers[k].cart
    }

    /** Each restaurant is stored under its own id and has a menu with distinct ids. */
    ghost predicate CatalogValid()
      reads this`restaurants, restaurants.Values
    {
      forall k :: k in restaurants ==> restaurants[k].id == k && restaurants[k].Valid()
    }

    /** Each customer is stored under its own id and owns a well-formed cart of its own. */
    ghost predicate CustomersValid()
      reads this`customers, Carts()
    {
      && (forall k :: k in customers ==> customers[k].userId == k && customers[k].cart.Valid())
      && (forall k, k' :: k in customers && k' in customers && k != k' ==>
            customers[k].cart != customers[k'].cart)
    }

    /** Each delivery person is stored under its own id. */
    ghost predicate DeliveryValid()
      reads this`deliveryPeople
    {
      forall k :: k in deliveryPeople ==> deliveryPeople[k].deliveryPersonId == k
    }

    /**
     * Each order is stored under its own id, below the counter, with
     * well-formed items, a registered customer and, if assigned, a registered
     * delivery person; `orderIds` lists the keys of `orders` in increasing order.
     */
    ghost predicate OrdersValid()
      reads this`orders, this`orderIds, this`nextOrderId, this`customers, this`deliveryPeople
      reads orders.Values
    {
      && 1 <= nextOrderId
      && (forall k :: k in orders ==>
            && orders[k].orderId == k && 1 <= k < nextOrderId
            && orders[k].Valid()
            && orders[k].customer.userId in customers
            && customers[orders[k].customer.userId] == orders[k].customer
            && (orders[k].deliveryPerson.Some? ==> orders[k].deliveryPerson.value in deliveryPeople.Values))
      && (forall i :: 0 <= i < |orderIds| ==> orderIds[i] in orders)
      && (forall k :: k in orders ==> k in orderIds)
      && (forall i, j :: 0 <= i < j < |orderIds| ==> orderIds[i] < orderIds[j])
    }

    ghost predicate Valid()
      reads this, restaurants.Values, Carts(), orders.Values
    {
      CatalogValid() && CustomersValid() && DeliveryValid() && OrdersValid()
    }

    constructor ()
      ensures Valid()
      ensures restaurants == map[] && customers == map[] && deliveryPeople == map[]
      ensures orders == map[] && orderIds == [] && nextOrderId == 1
    {
      restaurants := map[];
      customers := map[];
      deliveryPeople := map[];
      orders := map[];
      orderIds := [];
      nextOrderId := 1;
    }

    /**
     * `orders.put(o.orderId, o)` for an id above every stored one: the
     * insertion-ordered map gains one entry, at the end.
     */
    method PutOrder(o: Order)
      requires Valid()
      requires o !in orders.Values && o.Valid()
      requires o.orderId < nextOrderId && forall k :: k in orders ==> k < o.orderId
      requires 1 <= o.orderId
      requires o.customer.userId in customers && customers[o.customer.userId] == o.customer
      requires o.deliveryPerson == None
      modifies this`orders, this`orderIds
      ensures Valid()
      ensures orders == old(orders)[o.orderId := o]
      ensures orderIds == old(orderIds) + [o.orderId]
    {
      orders := orders[o.orderId := o];
      orderIds := orderIds + [o.orderId];
    }

    /** `nextOrderId++`: returns the current counter and advances it by one. */
    method TakeOrderId() returns (oid: int)
      requires Valid()
      modifies this`nextOrderId
      ensures Valid()
      ensures oid == old(nextOrderId) && nextOrderId == oid + 1
      ensures 1 <= oid && forall k :: k in orders ==> k < oid
    {
      oid := nextOrderId;
      nextOrderId := nextOrderId + 1;
    }

    /** Empties a registered customer's cart (`getItems().clear()` in placeOrder). */
    method ClearCart(customerId: int)
      requires Valid() && customerId in customers
      modifies customers[customerId].cart
      ensures Valid()
      ensures customers[customerId].cart.lines == []
    {
      customers[customerId].cart.lines := [];
    }

    /** The objects an operation on the given restaurant may change. */
    ghost function RestaurantFrame(restaurantId: int): set<object>
      reads this
    {
      if restaurantId in restaurants then {restaurants[restaurantId]} else {}
    }

    /** The objects an operation on the given customer's cart may change. */
    ghost function CartFrame(customerId: int): set<object>
      reads this
    {
      if customerId in customers then {customers[customerId].cart} else {}
    }

    /** The objects a delivery assignment may change: the order, when both ids are known. */
    ghost function AssignFrame(orderId: int, deliveryPersonId: int): set<object>
      reads this
    {
      if orderId in orders && deliveryPersonId in deliveryPeople then {orders[orderId]} else {}
    }
  }

  /**
   * The ids among `ids` (creation order) of the orders that belong to the
   * given customer, in the same order.
   */
  function ForCustomer(ids: seq<int>, orders: map<int, Order>, customerId: int): (r: seq<int>)
    requires forall i :: 0 <= i < |ids| ==> ids[i] in orders
  {
    if ids == [] then []
    else
      var last := ids[|ids| - 1];
      ForCustomer(ids[..|ids| - 1], orders, customerId)
        + (if orders[last].customer.userId == customerId then [last] else [])
  }

  /** An order is listed for a customer exactly when it is held and belongs to that customer. */
  lemma {:induction false} ForCustomerMembers(ids: seq<int>, orders: map<int, Order>, customerId: int, x: int)
    requires forall i :: 0 <= i < |ids| ==> ids[i] in orders
    ensures x in ForCustomer(ids, orders, customerId) <==> x in ids && orders[x].customer.userId == customerId
  {
    if ids != [] {
      var init := ids[..|ids| - 1];
      ForCustomerMembers(init, orders, customerId, x);
      assert ids == init + [ids[|ids| - 1]];
    }
  }

  /** The listing keeps the creation order: strictly increasing ids stay strictly increasing. */
  lemma {:induction false} ForCustomerIncreasing(ids: seq<int>, orders: map<int, Order>, customerId: int)
    requires forall i :: 0 <= i < |ids| ==> ids[i] in orders
    requires forall i, j :: 0 <= i < j < |ids| ==> ids[i] < ids[j]
    ensures var r := ForCustomer(ids, orders, customerId);
      forall i, j :: 0 <= i < j < |r| ==> r[i] < r[j]
  {
    if ids != [] {
      var init := ids[..|ids| - 1];
      var last := ids[|ids| - 1];
      ForCustomerIncreasing(init, orders, customerId);
      var p := ForCustomer(init, orders, customerId);
      forall i | 0 <= i < |p| ensures p[i] < last {
        ForCustomerMembers(init, orders, customerId, p[i]);
        var k :| 0 <= k < |init| && init[k] == p[i];
        assert ids[k] < ids[|ids| - 1];
      }
      var r := ForCustomer(ids, orders, customerId);
      assert r == p + (if orders[last].customer.userId == customerId then [last] else []);
    }
  }
}
