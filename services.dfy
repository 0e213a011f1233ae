/**
 * The three services of the system. Each holds the one shared DataStore;
 * every fallible operation reports failure by its result (false or -1).
 */
module Services {
  import opened Items
  import opened Menus
  import opened Store

  /** Restaurants and their menus. */
  class FoodService {
    const db: DataStore

    constructor (db: DataStore)
      ensures this.db == db
    {
      this.db := db;
    }

    /** Fails on a duplicate id; otherwise registers a restaurant with an empty menu. */
    method AddRestaurant(id: int, name: string) returns (ok: bool)
      requires db.Valid()
      modifies db
      ensures db.Valid()
      ensures ok == (id !in old(db.restaurants))
      ensures !ok ==> db.restaurants == old(db.restaurants)
      ensures ok ==>
        && id in db.restaurants && fresh(db.restaurants[id])
        && db.restaurants == old(db.restaurants)[id := db.restaurants[id]]
        && db.restaurants[id].id == id && db.restaurants[id].name == name
        && db.restaurants[id].menu == []
      ensures db.customers == old(db.customers) && db.deliveryPeople == old(db.deliveryPeople)
      ensures db.orders == old(db.orders) && db.orderIds == old(db.orderIds)
      ensures db.nextOrderId == old(db.nextOrderId)
    {
      if id in db.restaurants {
        return false;
      }
      var r := new Restaurant(id, name);
      db.restaurants := db.restaurants[id := r];
      ok := true;
    }

    /**
     * Fails for an unknown restaurant (and then changes nothing: the frame is
     * empty); otherwise upserts the new item into that restaurant's menu.
     */
    method AddFoodItemToRestaurant(restaurantId: int, foodId: int, name: string, price: int)
      returns (ok: bool)
      requires db.Valid()
      modifies db.RestaurantFrame(restaurantId)
      ensures db.Valid()
      ensures ok == (restaurantId in db.restaurants)
      ensures ok ==>
        db.restaurants[restaurantId].menu == Upsert(old(db.restaurants[restaurantId].menu), FoodItem(foodId, name, price))
      ensures ok ==> FindFoodItem(restaurantId, foodId) == Some(FoodItem(foodId, name, price))
    {
      if restaurantId !in db.restaurants {
        return false;
      }
      var r := db.restaurants[restaurantId];
      var item := FoodItem(foodId, name, price);
      r.AddFoodItem(item);
      FindAfterUpsert(old(r.menu), item);
      ok := true;
    }

    /**
     * Succeeds exactly when the restaurant exists and its menu held the id;
     * a known restaurant's menu then has no item with that id.
     */
    method RemoveFoodItemFromRestaurant(restaurantId: int, foodId: int) returns (ok: bool)
      requires db.Valid()
      modifies db.RestaurantFrame(restaurantId)
      ensures db.Valid()
      ensures ok == old(restaurantId in db.restaurants && foodId in MenuIds(db.restaurants[restaurantId].menu))
      ensures restaurantId in db.restaurants ==>
        db.restaurants[restaurantId].menu == WithoutId(old(db.restaurants[restaurantId].menu), foodId)
      ensures restaurantId in db.restaurants ==> FindFoodItem(restaurantId, foodId) == None
    {
      if restaurantId !in db.restaurants {
        return false;
      }
      var r := db.restaurants[restaurantId];
      var before := |r.menu|;
      WithoutIdShrinks(r.menu, foodId);
      FindAfterRemove(r.menu, foodId);
      r.RemoveFoodItem(foodId);
      ok := |r.menu| < before;
    }

    /** The first item with the given id on the restaurant's menu; None for an unknown restaurant. */
    function FindFoodItem(restaurantId: int, foodItemId: int): (r: Option<FoodItem>)
      reads db, db.restaurants.Values
      ensures r.None? <==>
        restaurantId !in db.restaurants || foodItemId !in MenuIds(db.restaurants[restaurantId].menu)
      ensures r.Some? ==> r.value.id == foodItemId && r.value in db.restaurants[restaurantId].menu
    {
      if restaurantId !in db.restaurants then None
      else FindFirst(db.restaurants[restaurantId].menu, foodItemId)
    }
  }

  /** Customers and their carts. */
  class CustomerService {
    const db: DataStore

    constructor (db: DataStore)
      ensures this.db == db
    {
      this.db := db;
    }

    /** Fails on a duplicate id; otherwise registers a customer with a fresh, empty cart. */
    method AddCustomer(userId: int, username: string, contactNo: int) returns (ok: bool)
      requires db.Valid()
      modifies db
      ensures db.Valid()
      ensures ok == (userId !in old(db.customers))
      ensures !ok ==> db.customers == old(db.customers)
      ensures ok ==>
        && userId in db.customers && fresh(db.customers[userId]) && fresh(db.customers[userId].cart)
        && db.customers == old(db.customers)[userId := db.customers[userId]]
        && db.customers[userId].userId == userId && db.customers[userId].username == username
        && db.customers[userId].contactNo == contactNo
        && db.customers[userId].cart.lines == []
      ensures db.restaurants == old(db.restaurants) && db.deliveryPeople == old(db.deliveryPeople)
      ensures db.orders == old(db.orders) && db.orderIds == old(db.orderIds)
      ensures db.nextOrderId == old(db.nextOrderId)
    {
      if userId in db.customers {
        return false;
      }
      var c := new Customer(userId, username, contactNo);
      db.customers := db.customers[userId := c];
      ok := true;
    }

    /**
     * For a known customer, a present item and a positive quantity, merges the
     * quantity into that customer's cart; otherwise nothing changes.
     */
    method AddFoodToCart(customerId: int, item: Option<FoodItem>, quantity: int)
      requires db.Valid()
      modifies db.CartFrame(customerId)
      ensures db.Valid()
      ensures customerId in db.customers ==>
        db.customers[customerId].cart.lines ==
          if item.Some? && quantity > 0
          then Merge(old(db.customers[customerId].cart.lines), item.value, quantity)
          else old(db.customers[customerId].cart.lines)
    {
      if customerId in db.customers && item.Some? && quantity > 0 {
        var cart := db.customers[customerId].cart;
        cart.AddItem(item, quantity);
        assert db.CustomersValid() by {
          forall k | k in db.customers && db.customers[k].cart != cart
            ensures db.customers[k].cart.Valid()
          {
            assert old(db.customers[k].cart.Valid());
          }
        }
      }
    }
  }

  /** Orders and delivery people. */
  class OrderService {
    const db: DataStore

    constructor (db: DataStore)
      ensures this.db == db
    {
      this.db := db;
    }

    /**
     * Fails with -1 for an unknown customer or an empty cart, changing
     * nothing. Otherwise takes the next order id, stores a fresh Pending order
     * whose items are the cart's entries in the same order, and empties the cart.
     */
    method PlaceOrder(customerId: int, deliveryAddress: string) returns (oid: int)
      requires db.Valid()
      modifies db, db.CartFrame(customerId)
      ensures db.Valid()
      ensures db.restaurants == old(db.restaurants) && db.customers == old(db.customers)
      ensures db.deliveryPeople == old(db.deliveryPeople)
      ensures forall k :: k in db.orders ==> 1 <= k < db.nextOrderId
      ensures old(customerId !in db.customers || db.customers[customerId].cart.lines == []) ==>
        && oid == -1
        && db.orders == old(db.orders) && db.orderIds == old(db.orderIds)
        && db.nextOrderId == old(db.nextOrderId)
        && (customerId in db.customers ==>
              db.customers[customerId].cart.lines == old(db.customers[customerId].cart.lines))
      ensures old(customerId in db.customers && db.customers[customerId].cart.lines != []) ==>
        && oid == old(db.nextOrderId) && oid >= 1 && db.nextOrderId == oid + 1
        && oid !in old(db.orders)
        && oid in db.orders && fresh(db.orders[oid])
        && db.orders == old(db.orders)[oid := db.orders[oid]]
        && db.orderIds == old(db.orderIds) + [oid]
        && db.orders[oid].orderId == oid
        && db.orders[oid].customer == db.customers[customerId]
        && db.orders[oid].items == old(db.customers[customerId].cart.lines)
        && db.orders[oid].status == "Pending"
        && db.orders[oid].deliveryPerson == None
        && db.orders[oid].deliveryAddress == Some(deliveryAddress)
        && db.customers[customerId].cart.lines == []
    {
      if customerId !in db.customers {
        return -1;
      }
      var c := db.customers[customerId];
      if c.cart.lines == [] {
        return -1;
      }
      oid := db.TakeOrderId();
      var o := BuildOrder(oid, c, deliveryAddress);
      db.PutOrder(o);
      db.ClearCart(customerId);
    }

    /**
     * The order built by placeOrder: a fresh Pending order for the customer,
     * filled by adding each cart entry in turn, then given the address.
     */
    method BuildOrder(oid: int, c: Customer, deliveryAddress: string) returns (o: Order)
      requires c.cart.Valid()
      ensures fresh(o) && o.Valid()
      ensures o.orderId == oid && o.customer == c && o.items == c.cart.lines
      ensures o.status == "Pending" && o.deliveryPerson == None
      ensures o.deliveryAddress == Some(deliveryAddress)
    {
      o := new Order(oid, c);
      var lines := c.cart.lines;
      var i := 0;
      while i < |lines|
        invariant 0 <= i <= |lines|
        invariant o.Valid() && o.items == lines[..i]
        modifies o`items
      {
        CopyStep(lines, i);
        o.AddItem(Some(lines[i].item), lines[i].qty);
        i := i + 1;
      }
      assert lines[..|lines|] == lines;
      o.SetDeliveryAddress(deliveryAddress);
    }

    /** Fails on a duplicate id; otherwise registers the delivery person. */
    method AddDeliveryPerson(id: int, name: string, contactNo: int) returns (ok: bool)
      requires db.Valid()
      modifies db
      ensures db.Valid()
      ensures ok == (id !in old(db.deliveryPeople))
      ensures db.deliveryPeople ==
        if ok then old(db.deliveryPeople)[id := DeliveryPerson(id, name, contactNo)]
        else old(db.deliveryPeople)
      ensures db.restaurants == old(db.restaurants) && db.customers == old(db.customers)
      ensures db.orders == old(db.orders) && db.orderIds == old(db.orderIds)
      ensures db.nextOrderId == old(db.nextOrderId)
    {
      if id in db.deliveryPeople {
        return false;
      }
      var dp := DeliveryPerson(id, name, contactNo);
      forall k | k in db.deliveryPeople ensures db.deliveryPeople[k] in db.deliveryPeople[id := dp].Values {
        assert db.deliveryPeople[id := dp][k] == db.deliveryPeople[k];
      }
      db.deliveryPeople := db.deliveryPeople[id := dp];
      ok := true;
    }

    /**
     * Fails when the order or the delivery person is unknown (the frame is then
     * empty); otherwise (re)assigns the delivery person of that order only.
     */
    method AssignDeliveryPersonToOrder(orderId: int, deliveryPersonId: int) returns (ok: bool)
      requires db.Valid()
      modifies db.AssignFrame(orderId, deliveryPersonId)
      ensures db.Valid()
      ensures ok == (orderId in db.orders && deliveryPersonId in db.deliveryPeople)
      ensures !ok ==> unchanged(db.orders.Values)
      ensures ok ==> db.orders[orderId].deliveryPerson == Some(db.deliveryPeople[deliveryPersonId])
      ensures ok ==>
        && db.orders[orderId].items == old(db.orders[orderId].items)
        && db.orders[orderId].status == old(db.orders[orderId].status)
        && db.orders[orderId].deliveryAddress == old(db.orders[orderId].deliveryAddress)
    {
      if orderId !in db.orders || deliveryPersonId !in db.deliveryPeople {
        return false;
      }
      var o := db.orders[orderId];
      var dp := db.deliveryPeople[deliveryPersonId];
      assert dp in db.deliveryPeople.Values;
      o.SetDeliveryPerson(dp);
      ok := true;
    }

    /**
     * The selection of printOrdersForCustomer: the ids of the customer's
     * orders in creation order, and whether there was any.
     */
    method OrdersForCustomer(customerId: int) returns (selected: seq<int>, any: bool)
      requires db.Valid()
      ensures selected == ForCustomer(db.orderIds, db.orders, customerId)
      ensures any <==> selected != []
      ensures forall x :: x in selected <==> x in db.orders && db.orders[x].customer.userId == customerId
      ensures forall i, j :: 0 <= i < j < |selected| ==> selected[i] < selected[j]
    {
      var ids, orders := db.orderIds, db.orders;
      assert forall i :: 0 <= i < |ids| ==> ids[i] in orders;
      selected, any := [], false;
      var i := 0;
      while i < |ids|
        invariant 0 <= i <= |ids|
        invariant selected == ForCustomer(ids[..i], orders, customerId)
        invariant any <==> selected != []
      {
        assert ids[..i + 1][..i] == ids[..i];
        if orders[ids[i]].customer.userId == customerId {
          any := true;
          selected := selected + [ids[i]];
        }
        i := i + 1;
      }
      assert ids[..i] == ids;
      forall x {
        ForCustomerMembers(ids, orders, customerId, x);
      }
      ForCustomerIncreasing(ids, orders, customerId);
    }
  }

  /**
   * A customer orders two portions of one dish; the order takes the cart's
   * lines and the first order id, and a second order from the now empty
   * cart is refused.
   */
  method ExampleOrder()
  {
    var db := new DataStore();
    var people := new CustomerService(db);
    var orders := new OrderService(db);

    var ok := people.AddCustomer(1, "Amy", 9998887776);
    assert ok;
    people.AddFoodToCart(1, Some(FoodItem(100, "Alfredo", 300)), 2);
    var lines := db.customers[1].cart.lines;
    assert lines == [Line(FoodItem(100, "Alfredo", 300), 2)];
    assert Total(lines) == 600;

    var oid := orders.PlaceOrder(1, "221B Baker St");
    assert oid == 1 && db.orders[1].items == lines;
    assert db.customers[1].cart.lines == [];
    oid := orders.PlaceOrder(1, "221B Baker St");
    assert oid == -1 && db.nextOrderId == 2;
  }

  /** Adding an item under an id the menu already holds replaces that item. */
  method ExampleMenuUpsert()
  {
    var db := new DataStore();
    var foods := new FoodService(db);
    var ok := foods.AddRestaurant(1, "Pizza Hut");
    ok := foods.AddFoodItemToRestaurant(1, 5, "Pizza", 200);
    ok := foods.AddFoodItemToRestaurant(1, 5, "Pizza XL", 250);
    assert db.restaurants[1].menu == [FoodItem(5, "Pizza XL", 250)];
    var item := foods.FindFoodItem(1, 5);
    assert item == Some(FoodItem(5, "Pizza XL", 250));
    ok := foods.RemoveFoodItemFromRestaurant(1, 6);
    assert !ok;
  }

  /** Assigning to an unknown order fails and creates nothing. */
  method ExampleDelivery()
  {
    var db := new DataStore();
    var orders := new OrderService(db);
    var ok := orders.AddDeliveryPerson(7, "Ravi", 9876543210);
    assert ok;
    ok := orders.AssignDeliveryPersonToOrder(2, 7);
    assert !ok && db.orders == map[];
    ok := orders.AddDeliveryPerson(7, "Sam", 1);
    assert !ok && db.deliveryPeople[7].name == "Ravi";
  }
}
