# Online food delivery: a verified model of the in-memory core

This project models the domain core of a console food-delivery system. That
core is the single Java file `OnlineFoodDeliverySystem.java`, and it covers:

- the entities `FoodItem`, `Cart`, `Customer`, `Restaurant`, `Order` and
  `DeliveryPerson`;
- the in-memory `DataStore` of four id-keyed maps and an order counter;
- the three services: `FoodService`, `CustomerService` and `OrderService`.

Four modules, one per file, follow the program's layers:

- `Items` (items.dfy): a food item and the insertion-ordered
  "item → quantity" map that carts and orders keep.
  - A Java `LinkedHashMap<FoodItem, Integer>` whose key equality is the item
    id becomes a sequence of `Line`s.
  - `Merge` models `merge(item, q, Integer::sum)`. An existing entry keeps its
    place and its *first-stored* key object and gets `q` added. A new id is
    appended.
  - `Remove` models `remove`, and `Total` models the sum of price × quantity.
  - The lemmas give the lookups, keys, quantities and totals after each
    operation, show that the map stays well formed (one line per id, positive
    quantities), and show that copying a map entry by entry rebuilds it.
- `Menus` (menus.dfy): a restaurant's menu as a list.
  - `Upsert` models `removeIf(same id)` followed by `add`.
  - `WithoutId` models `removeIf`, and `FindFirst` models `filter(...).findFirst()`.
  - The lemmas cover replacement (same size, new item last), appending,
    distinct ids, and search after an upsert or a removal.
- `Store` (store.dfy): the mutable entities, as classes whose methods update
  their fields in place.
  - `DataStore` holds the four maps and `nextOrderId`. `orderIds` records the
    insertion order of the `orders` map, which is a `LinkedHashMap` in the
    source.
  - Its invariant, `Valid`, says:
    - every entry is stored under its own id;
    - menus and carts are well formed;
    - carts are not shared between customers;
    - every order id lies in `[1, nextOrderId)`;
    - each order's customer and any assigned delivery person are registered.
- `Services` (services.dfy): the three services, over one shared `DataStore`.
  - Each operation's contract states its success condition exactly (an
    if-and-only-if on the `bool` or `-1` result).
  - It also states the new state on success and that nothing changes on
    failure.
  - Three client methods, `ExampleOrder`, `ExampleMenuUpsert` and
    `ExampleDelivery`, replay the documented scenarios from the service contracts
    alone.

Prices are integers in minor currency units; `Total` is exact.

Two consequences of the code, which the model keeps:

- Because `merge` keeps the first-stored key, a cart charges the price of the
  first item added under an id, even if a later add brings an item with the
  same id and another price (`MergeTwiceTotal`).
- A placed order holds the cart's entries in the same order and with the same
  key objects (`BuildOrder`), and the cart is then emptied.

## Model

All source paths are under `Group5_onlinefood_delivery/src/com/onlinefood/`,
written out in full in the table.

| member | source | states |
|---|---|---|
| Items.Lookup | Group5_onlinefood_delivery/src/com/onlinefood/OnlineFoodDeliverySystem.java:35-45 | A lookup finds nothing exactly when no entry has that id; a found entry is in the map and has that id (key equality is the id alone). |
| Items.MergeAbsent | Group5_onlinefood_delivery/src/com/onlinefood/OnlineFoodDeliverySystem.java:78-81 | Merging an id not yet in the map appends one entry (item, q) at the end and changes nothing else. |
| Items.MergePresent | Group5_onlinefood_delivery/src/com/onlinefood/OnlineFoodDeliverySystem.java:78-81 | Merging an id whose first entry is at position k changes only that entry: it keeps its stored item and gets q added. |
| Items.MergeIds | Group5_onlinefood_delivery/src/com/onlinefood/OnlineFoodDeliverySystem.java:78-81 | After a merge the key order is unchanged if the id was present, else the id is appended. |
| Items.MergeLookup | Group5_onlinefood_delivery/src/com/onlinefood/OnlineFoodDeliverySystem.java:78-81 | After a merge every other id looks up as before; the merged id holds the old entry's item with quantity plus q, or (item, q) if new. |
| Items.MergeQty | Group5_onlinefood_delivery/src/com/onlinefood/OnlineFoodDeliverySystem.java:78-81 | The quantity of the merged id grows by exactly q; every other id's quantity is unchanged. |
| Items.MergeWellFormed | Group5_onlinefood_delivery/src/com/onlinefood/OnlineFoodDeliverySystem.java:78-81 | A merge with q > 0 keeps one entry per id and all quantities positive. |
| Items.MergeTotal | Group5_onlinefood_delivery/src/com/onlinefood/OnlineFoodDeliverySystem.java:78-81 | A merge raises the total by q times the price of the stored item for that id (the given item's if new). |
| Items.MergeTwice | Group5_onlinefood_delivery/src/com/onlinefood/OnlineFoodDeliverySystem.java:78-81 | Adding the same id twice (q1, then q2) to a map without it leaves one final entry: the first item with q1 + q2. |
| Items.MergeTwiceTotal | Group5_onlinefood_delivery/src/com/onlinefood/OnlineFoodDeliverySystem.java:90-94 | Those two adds raise the total by (q1 + q2) times the first item's price. |
| Items.RemoveAbsent | Group5_onlinefood_delivery/src/com/onlinefood/OnlineFoodDeliverySystem.java:83-86 | Removing an id the map lacks changes nothing. |
| Items.RemovePresent | Group5_onlinefood_delivery/src/com/onlinefood/OnlineFoodDeliverySystem.java:83-86 | Removing an id whose first entry is at k deletes exactly that entry and keeps the others in order. |
| Items.RemoveLookup | Group5_onlinefood_delivery/src/com/onlinefood/OnlineFoodDeliverySystem.java:83-86 | In a well-formed map, after a removal the id is absent and every other id looks up as before. |
| Items.RemoveWellFormed | Group5_onlinefood_delivery/src/com/onlinefood/OnlineFoodDeliverySystem.java:83-86 | Removal keeps the map well formed. |
| Items.RemoveIdsSubset | Group5_onlinefood_delivery/src/com/onlinefood/OnlineFoodDeliverySystem.java:83-86 | Removal never introduces an id. |
| Items.RemoveTotal | Group5_onlinefood_delivery/src/com/onlinefood/OnlineFoodDeliverySystem.java:83-94 | Removal lowers the total by the cost of the removed entry, or by 0 if the id was absent. |
| Items.TotalAppend | Group5_onlinefood_delivery/src/com/onlinefood/OnlineFoodDeliverySystem.java:90-94 | The total of two concatenated entry lists is the sum of their totals. |
| Items.TotalNonNegative | Group5_onlinefood_delivery/src/com/onlinefood/OnlineFoodDeliverySystem.java:90-94 | With non-negative prices and quantities the total is non-negative. |
| Items.CopyStep | Group5_onlinefood_delivery/src/com/onlinefood/OnlineFoodDeliverySystem.java:332-334 | Merging entry i of a well-formed map into a copy of its first i entries gives its first i + 1 entries. |
| Menus.FindFirst | Group5_onlinefood_delivery/src/com/onlinefood/OnlineFoodDeliverySystem.java:286 | The search finds nothing exactly when no item has the id; a found item is on the menu and has the id. |
| Menus.WithoutIdMembers | Group5_onlinefood_delivery/src/com/onlinefood/OnlineFoodDeliverySystem.java:175-177 | An item remains after removeIf exactly when it was on the menu and has another id. |
| Menus.WithoutIdGone | Group5_onlinefood_delivery/src/com/onlinefood/OnlineFoodDeliverySystem.java:175-177 | No item with the removed id remains. |
| Menus.WithoutIdAbsent | Group5_onlinefood_delivery/src/com/onlinefood/OnlineFoodDeliverySystem.java:175-177 | Removing an id the menu lacks changes nothing. |
| Menus.WithoutIdPresent | Group5_onlinefood_delivery/src/com/onlinefood/OnlineFoodDeliverySystem.java:175-177 | On a menu with distinct ids, removing the id at k deletes exactly that item and keeps the others in order. |
| Menus.WithoutIdShrinks | Group5_onlinefood_delivery/src/com/onlinefood/OnlineFoodDeliverySystem.java:261-267 | The menu never grows under removal, and shrinks exactly when it held the id (the size test that decides the result). |
| Menus.WithoutIdDistinct | Group5_onlinefood_delivery/src/com/onlinefood/OnlineFoodDeliverySystem.java:175-177 | Removal keeps the menu's ids distinct. |
| Menus.UpsertSingle | Group5_onlinefood_delivery/src/com/onlinefood/OnlineFoodDeliverySystem.java:169-173 | After an upsert the new item is last and no other item has its id. |
| Menus.UpsertReplaces | Group5_onlinefood_delivery/src/com/onlinefood/OnlineFoodDeliverySystem.java:169-173 | Upserting an id already at k on a menu with distinct ids removes the old item from its place and appends the new one; the size is unchanged. |
| Menus.UpsertAppends | Group5_onlinefood_delivery/src/com/onlinefood/OnlineFoodDeliverySystem.java:169-173 | Upserting a new id appends the item; the size grows by one. |
| Menus.UpsertDistinct | Group5_onlinefood_delivery/src/com/onlinefood/OnlineFoodDeliverySystem.java:169-173 | An upsert keeps the menu's ids distinct. |
| Menus.FindFirstUnique | Group5_onlinefood_delivery/src/com/onlinefood/OnlineFoodDeliverySystem.java:283-287 | On a menu with distinct ids, searching an item's id returns that item. |
| Menus.FindAfterUpsert | Group5_onlinefood_delivery/src/com/onlinefood/OnlineFoodDeliverySystem.java:169-173 | After an upsert, searching its id returns the new item. |
| Menus.FindLast | Group5_onlinefood_delivery/src/com/onlinefood/OnlineFoodDeliverySystem.java:286 | If only the last item has the id, the search returns it. |
| Menus.FindAfterRemove | Group5_onlinefood_delivery/src/com/onlinefood/OnlineFoodDeliverySystem.java:175-177 | After a removal, searching that id finds nothing. |
| Store.Cart.constructor | Group5_onlinefood_delivery/src/com/onlinefood/OnlineFoodDeliverySystem.java:76 | A new cart is empty and well formed. |
| Store.Cart.AddItem | Group5_onlinefood_delivery/src/com/onlinefood/OnlineFoodDeliverySystem.java:78-81 | For a null item or a quantity <= 0 the cart is unchanged. Otherwise the entries become the merge, the key order is extended only for a new id, and only that id's quantity grows, by the given quantity. The cart stays well formed. |
| Store.Cart.RemoveItem | Group5_onlinefood_delivery/src/com/onlinefood/OnlineFoodDeliverySystem.java:83-86 | A null item leaves the cart unchanged; otherwise its id's entry is deleted and a lookup of that id finds nothing. |
| Store.Cart.TotalCost | Group5_onlinefood_delivery/src/com/onlinefood/OnlineFoodDeliverySystem.java:90-94 | The total of an empty cart is 0; with non-negative prices and quantities it is non-negative. |
| Store.Customer.constructor | Group5_onlinefood_delivery/src/com/onlinefood/OnlineFoodDeliverySystem.java:118-126 | A new customer has the given id, name and contact number and its own fresh, empty cart. |
| Store.Restaurant.constructor | Group5_onlinefood_delivery/src/com/onlinefood/OnlineFoodDeliverySystem.java:155-163 | A new restaurant has the given id and name and an empty menu. |
| Store.Restaurant.AddFoodItem | Group5_onlinefood_delivery/src/com/onlinefood/OnlineFoodDeliverySystem.java:169-173 | The menu becomes the upsert of the item and keeps distinct ids. |
| Store.Restaurant.RemoveFoodItem | Group5_onlinefood_delivery/src/com/onlinefood/OnlineFoodDeliverySystem.java:175-177 | The menu loses every item with the id and keeps distinct ids. |
| Store.Order.constructor | Group5_onlinefood_delivery/src/com/onlinefood/OnlineFoodDeliverySystem.java:190-201 | A new order has the given id and customer, no items, status "Pending", no delivery person and no address. |
| Store.Order.AddItem | Group5_onlinefood_delivery/src/com/onlinefood/OnlineFoodDeliverySystem.java:214-217 | For a null item or qty <= 0 nothing changes, else the items become the merge; only the items field may change. |
| Store.Order.SetDeliveryPerson | Group5_onlinefood_delivery/src/com/onlinefood/OnlineFoodDeliverySystem.java:211 | Sets the delivery person and nothing else. |
| Store.Order.SetDeliveryAddress | Group5_onlinefood_delivery/src/com/onlinefood/OnlineFoodDeliverySystem.java:212 | Sets the address and nothing else. |
| Store.DataStore.constructor | Group5_onlinefood_delivery/src/com/onlinefood/OnlineFoodDeliverySystem.java:233-239 | The store starts with four empty maps and next order id 1, and satisfies its invariant. |
| Store.DataStore.TakeOrderId | Group5_onlinefood_delivery/src/com/onlinefood/OnlineFoodDeliverySystem.java:330 | Returns the current counter (at least 1, above every stored order id) and increments it. |
| Store.DataStore.PutOrder | Group5_onlinefood_delivery/src/com/onlinefood/OnlineFoodDeliverySystem.java:336 | Stores a new order under its id, after all earlier ones in iteration order, keeping the invariant. |
| Store.DataStore.ClearCart | Group5_onlinefood_delivery/src/com/onlinefood/OnlineFoodDeliverySystem.java:338 | Empties the customer's cart, keeping the invariant. |
| Store.ForCustomerMembers | Group5_onlinefood_delivery/src/com/onlinefood/OnlineFoodDeliverySystem.java:369-370 | An order id is selected exactly when it is among the stored ids and the order's customer has the given id. |
| Store.ForCustomerIncreasing | Group5_onlinefood_delivery/src/com/onlinefood/OnlineFoodDeliverySystem.java:369 | The selection keeps the store's iteration order: strictly increasing ids stay strictly increasing. |
| Services.FoodService.constructor | Group5_onlinefood_delivery/src/com/onlinefood/OnlineFoodDeliverySystem.java:246 | The service works on the given store. |
| Services.FoodService.AddRestaurant | Group5_onlinefood_delivery/src/com/onlinefood/OnlineFoodDeliverySystem.java:248-252 | Succeeds exactly when the id is new. It then stores a fresh restaurant with that id and name and an empty menu, under that id only; on failure the restaurants are unchanged. The other maps and the counter never change. |
| Services.FoodService.AddFoodItemToRestaurant | Group5_onlinefood_delivery/src/com/onlinefood/OnlineFoodDeliverySystem.java:254-259 | Succeeds exactly when the restaurant exists. Its menu then becomes the upsert of the new item, and a search for the id returns exactly that item; on failure nothing may change. |
| Services.FoodService.RemoveFoodItemFromRestaurant | Group5_onlinefood_delivery/src/com/onlinefood/OnlineFoodDeliverySystem.java:261-267 | Succeeds exactly when the restaurant exists and its menu held the id. A known restaurant's menu loses that id, and a search for it then finds nothing. |
| Services.FoodService.FindFoodItem | Group5_onlinefood_delivery/src/com/onlinefood/OnlineFoodDeliverySystem.java:283-287 | Returns nothing exactly when the restaurant is unknown or its menu lacks the id; otherwise an item with that id from that menu. |
| Services.CustomerService.constructor | Group5_onlinefood_delivery/src/com/onlinefood/OnlineFoodDeliverySystem.java:293 | The service works on the given store. |
| Services.CustomerService.AddCustomer | Group5_onlinefood_delivery/src/com/onlinefood/OnlineFoodDeliverySystem.java:295-299 | Succeeds exactly when the id is new. It then stores a fresh customer with the given data and a fresh, empty cart, under that id only; on failure the customers are unchanged. The other maps and the counter never change. |
| Services.CustomerService.AddFoodToCart | Group5_onlinefood_delivery/src/com/onlinefood/OnlineFoodDeliverySystem.java:303-308 | For a known customer, a present item and a positive quantity, the cart becomes the merge; otherwise it is unchanged. Only that customer's cart may change. |
| Services.OrderService.constructor | Group5_onlinefood_delivery/src/com/onlinefood/OnlineFoodDeliverySystem.java:323 | The service works on the given store. |
| Services.OrderService.PlaceOrder | Group5_onlinefood_delivery/src/com/onlinefood/OnlineFoodDeliverySystem.java:325-340 | Returns -1 and changes no order, counter or cart for an unknown customer or an empty cart. Otherwise it returns the old counter (at least 1, never used before) and increments the counter. It stores, last in order, a fresh order for that customer with the cart's entries, status "Pending", no delivery person and the given address, and empties the cart. Restaurants, customers and delivery people never change. |
| Services.OrderService.BuildOrder | Group5_onlinefood_delivery/src/com/onlinefood/OnlineFoodDeliverySystem.java:331-335 | Adding each cart entry in turn to a new order yields exactly the cart's entries; the order then has the address, status "Pending" and no delivery person. |
| Services.OrderService.AddDeliveryPerson | Group5_onlinefood_delivery/src/com/onlinefood/OnlineFoodDeliverySystem.java:342-346 | Succeeds exactly when the id is new and then stores the delivery person under it; otherwise nothing changes; the other maps never change. |
| Services.OrderService.AssignDeliveryPersonToOrder | Group5_onlinefood_delivery/src/com/onlinefood/OnlineFoodDeliverySystem.java:348-354 | Succeeds exactly when both the order and the delivery person exist. The order then has that delivery person, with its items, status and address unchanged; on failure no order changes. |
| Services.OrderService.OrdersForCustomer | Group5_onlinefood_delivery/src/com/onlinefood/OnlineFoodDeliverySystem.java:367-379 | Selects exactly the stored orders of the customer, in creation order, and reports whether there was any (the "No orders" branch). |

## Left out

- The console layer (lines 382 onwards: menus, the `*Flow` methods, the
  `read*` input helpers and `Scanner` input) is I/O and is not modelled.
- All printing is not modelled: `toString` of every class and
  `printRestaurantsAndMenus`, `viewCart` and `printOrders`.
  `printOrdersForCustomer` is modelled as the selection it prints
  (`OrdersForCustomer`).
- Prices are `double` in the source. The model uses integers in minor
  currency units, so rounding of `getTotalCost` is not captured.
- `int` and `long` overflow (the order counter, quantities merged with
  `Integer::sum`) is not modelled; integers are unbounded.
- `FoodItem` setters (lines 26-28) have no caller, and `FoodItem` is modelled
  as a value. Aliasing of the item objects shared by menu, cart and order is
  therefore not captured.
- `Order.setStatus` (line 210) and `CustomerService.getCustomer` (line 301)
  have no caller in the file and are not modelled beyond the initial
  status. The getters are field reads.
- `User` is folded into `Customer`, its only subclass in the core.
  `DeliveryPerson` is a value, since none of its fields is ever updated.
- Store.DataStore.TakeOrderId, Store.DataStore.PutOrder,
  Store.DataStore.ClearCart and Services.OrderService.BuildOrder split
  `placeOrder` (lines 330, 336, 338 and 331-335) into steps. They are not
  separate operations of the source.
- Store.Cart.TotalCost: its own contract states only the empty-cart and
  non-negativity facts. How the total moves under each operation is stated by
  `MergeTotal`, `RemoveTotal` and `MergeTwiceTotal` about `Total`, which the
  function returns.
- The invariant `DataStore.Valid` is a precondition of every service
  operation. Every constructor and operation establishes or preserves it, so
  it holds on every state reachable through the services. Direct field
  writes from outside the services are not modelled.
- A placed order shares the `FoodItem` references of the cart, as the code
  does. No setter is ever called, so the order behaves as an independent
  snapshot of the cart; the model's values make this explicit.
