/**
 * The sales order page: the customer search box, creating a customer, the
 * order form's item list, and creating or editing an order with its items.
 * The order table is the `orders` field; each call's store writes happen in
 * the source's order and each one's success is a parameter.
 */
module OrderPage {
  import opened Wrappers
  import opened Seqs
  import opened Text
  import opened Orders
  import opened Pricing

  datatype Product = Product(name: string, price: int, isRefill: bool)

  /** A customer row; `branch` is "" when the row has none. */
  datatype Customer = Customer(
    id: string, name: string, address: string, phone: string, whatsapp: string,
    discount: int, branch: string, createdBy: string)

  /** The new-customer form as typed; `discount` is `None` when it does not parse as an integer. */
  datatype CustomerInput = CustomerInput(
    name: string, address: string, phone: string, whatsapp: string, discount: Option<int>)

  datatype FormOutcome = Saved | MissingFields | NoCustomerSelected | NotFound | DeliveredOrder | StoreWriteError

  /** The columns `handleCreateOrder` writes to an order row. */
  datatype OrderData = OrderData(
    customerId: string, customerName: string, customerAddress: string, customerWhatsapp: string,
    customerDiscount: int, branch: string, totalAmount: int, deliveryDate: string, createdBy: string)

  // ---- customer search ----

  function MatchesCustomer(searchLower: string): Customer -> bool {
    (c: Customer) =>
      Contains(Lower(c.name), searchLower) || Contains(Lower(c.address), searchLower) || Contains(c.whatsapp, searchLower)
  }

  /** The dropdown's suggestions for the typed text. */
  function SearchCustomers(customers: seq<Customer>, text: string): seq<Customer> {
    if Trim(text) == "" then [] else Filter(customers, MatchesCustomer(Lower(text)))
  }

  /**
   * Blank text suggests nobody; otherwise a customer is suggested exactly when
   * the lowercased name or address, or the raw whatsapp number, contains the
   * lowercased text, and suggestions keep the customer list's order.
   */
  lemma SearchCustomersSpec(customers: seq<Customer>, text: string, c: Customer)
    ensures (forall k :: 0 <= k < |text| ==> IsWhitespace(text[k])) ==> SearchCustomers(customers, text) == []
    ensures (exists k :: 0 <= k < |text| && !IsWhitespace(text[k])) ==>
      (c in SearchCustomers(customers, text) <==>
        c in customers &&
        (Contains(Lower(c.name), Lower(text)) || Contains(Lower(c.address), Lower(text)) || Contains(c.whatsapp, Lower(text))))
    ensures IsSubsequence(SearchCustomers(customers, text), customers)
  {
    TrimEmptyIffBlank(text);
    FilterMembership(customers, MatchesCustomer(Lower(text)), c);
    FilterIsSubsequence(customers, MatchesCustomer(Lower(text)));
  }

  // ---- customer creation ----

  /** `currentUser.branch === "All" ? newOrder.branch || branches[0]?.name : currentUser.branch`, "" standing for no value. */
  function NewCustomerBranch(userBranch: string, orderBranch: string, branches: seq<string>): (r: string)
    ensures userBranch != AllBranches ==> r == userBranch
    ensures userBranch == AllBranches ==> r == orderBranch || (orderBranch == "" && branches != [] && r == branches[0])
    ensures userBranch == AllBranches && orderBranch != AllBranches && AllBranches !in branches ==> r != AllBranches
    ensures userBranch == AllBranches ==> (r == "" <==> orderBranch == "" && (branches == [] || branches[0] == ""))
  {
    if userBranch == AllBranches then
      if orderBranch != "" then orderBranch else if branches != [] then branches[0] else ""
    else userBranch
  }

  function ByCustomerId(id: string): Customer -> bool {
    (c: Customer) => c.id == id
  }

  function ByProductName(name: string): Product -> bool {
    (p: Product) => p.name == name
  }

  /** `customers.find(c => c.id === id)`. */
  function FindCustomer(customers: seq<Customer>, id: string): (r: Option<Customer>)
    ensures r.Some? ==> r.value in customers && r.value.id == id
    ensures r.None? <==> forall k :: 0 <= k < |customers| ==> customers[k].id != id
  {
    var i := FirstIndex(customers, ByCustomerId(id));
    if i < |customers| then Some(customers[i]) else None
  }

  /** `products.find(p => p.name === name)`. */
  function FindProduct(products: seq<Product>, name: string): (r: Option<Product>)
    ensures r.Some? ==> r.value in products && r.value.name == name
    ensures r.None? <==> forall k :: 0 <= k < |products| ==> products[k].name != name
  {
    var i := FirstIndex(products, ByProductName(name));
    if i < |products| then Some(products[i]) else None
  }

  // ---- order lines ----

  /** The discount a new line gets: the customer's discount on a refill product, else 0. */
  function LineDiscount(p: Product, c: Customer): int {
    if p.isRefill then c.discount else 0
  }

  /** The line `handleAddItemToOrder` builds for `quantity` of `p` ordered by `c`. */
  function OrderLine(p: Product, c: Customer, quantity: int): OrderItem {
    OrderItem(p.name, p.isRefill, quantity, p.price, Some(LineDiscount(p, c)))
  }

  /** A new line costs the discounted price on refills and the list price otherwise. */
  lemma OrderLineAmount(p: Product, c: Customer, quantity: int)
    ensures p.isRefill ==> LineAmount(OrderLine(p, c, quantity)) == (p.price - c.discount) * quantity
    ensures !p.isRefill ==> LineAmount(OrderLine(p, c, quantity)) == p.price * quantity
    ensures OrderLine(p, c, quantity).discount != Some(0) ==> p.isRefill
  {
  }

  /** The lines as copied back into the form for editing (`cleanItems`). */
  function CleanItems(items: seq<OrderItem>): seq<OrderItem> {
    seq(|items|, k requires 0 <= k < |items| =>
      OrderItem(items[k].product, items[k].isRefill, items[k].quantity, items[k].unitPrice, items[k].discount))
  }

  /** Loading an order into the form copies its lines field for field, so the form's total is the order's. */
  lemma EditKeepsTotal(o: Order)
    requires o.totalAmount == Total(o.items)
    ensures CleanItems(o.items) == o.items
    ensures Total(CleanItems(o.items)) == o.totalAmount
  {
    assert forall k :: 0 <= k < |o.items| ==> CleanItems(o.items)[k] == o.items[k];
  }

  // ---- the order and order_items tables ----

  function ApplyOrderData(o: Order, d: OrderData): Order {
    o.(customerId := d.customerId, customerName := d.customerName, customerAddress := d.customerAddress,
       customerWhatsapp := d.customerWhatsapp, customerDiscount := d.customerDiscount, branch := d.branch,
       totalAmount := d.totalAmount, deliveryDate := d.deliveryDate, createdBy := d.createdBy)
  }

  /** A freshly inserted order row: the table's defaults are status pending and payment unpaid, with no lines yet. */
  function NewOrderRow(id: OrderId, d: OrderData): Order {
    Order(id, d.customerId, d.customerName, d.customerAddress, d.customerWhatsapp, d.customerDiscount,
          d.branch, d.totalAmount, d.deliveryDate, d.createdBy, StatusPending, PaymentUnpaid,
          None, None, None, [])
  }

  /** `update(orderData).eq("id", id)`. */
  function WriteOrderData(orders: seq<Order>, id: OrderId, d: OrderData): seq<Order> {
    seq(|orders|, k requires 0 <= k < |orders| =>
      if orders[k].id == id then ApplyOrderData(orders[k], d) else orders[k])
  }

  /** `order_items.delete().eq("order_id", id)`. */
  function ClearItems(orders: seq<Order>, id: OrderId): seq<Order> {
    seq(|orders|, k requires 0 <= k < |orders| =>
      if orders[k].id == id then orders[k].(items := []) else orders[k])
  }

  /** `order_items.insert(...)` of `items` for order `id`. */
  function InsertItems(orders: seq<Order>, id: OrderId, items: seq<OrderItem>): seq<Order> {
    seq(|orders|, k requires 0 <= k < |orders| =>
      if orders[k].id == id then orders[k].(items := orders[k].items + items) else orders[k])
  }

  predicate HasId(orders: seq<Order>, id: OrderId) {
    exists k :: 0 <= k < |orders| && orders[k].id == id
  }

  /** Order ids are the table's primary key. */
  predicate UniqueOrderIds(orders: seq<Order>) {
    forall i, j :: 0 <= i < j < |orders| ==> orders[i].id != orders[j].id
  }

  /**
   * Creating an order inserts one new row, the old rows untouched, and the row
   * then holds exactly the form's lines with the total computed from them.
   */
  lemma CreatedRowSpec(orders: seq<Order>, id: OrderId, d: OrderData, items: seq<OrderItem>)
    requires !HasId(orders, id)
    requires d.totalAmount == Total(items)
    ensures InsertItems(orders + [NewOrderRow(id, d)], id, items) == orders + [NewOrderRow(id, d).(items := items)]
    ensures NewOrderRow(id, d).(items := items).totalAmount == Total(NewOrderRow(id, d).(items := items).items)
  {
    var r := InsertItems(orders + [NewOrderRow(id, d)], id, items);
    forall k | 0 <= k < |orders|
      ensures r[k] == orders[k]
    {
      assert orders[k].id != id;
    }
    assert [] + items == items;
    assert r[|orders|] == NewOrderRow(id, d).(items := items);
  }

  /**
   * Updating an order whose lines were deleted leaves the edited row holding
   * exactly the form's lines and a total that agrees with them; every other row
   * is untouched.
   */
  lemma EditedRowSpec(orders: seq<Order>, id: OrderId, d: OrderData, items: seq<OrderItem>)
    requires d.totalAmount == Total(items)
    ensures var r := InsertItems(ClearItems(WriteOrderData(orders, id, d), id), id, items);
      |r| == |orders| &&
      (forall k :: 0 <= k < |r| && orders[k].id == id ==>
        r[k] == ApplyOrderData(orders[k], d).(items := items) && r[k].totalAmount == Total(r[k].items)) &&
      (forall k :: 0 <= k < |r| && orders[k].id != id ==> r[k] == orders[k])
  {
    assert [] + items == items;
  }

  /** The store keeps its primary key unique across a create. */
  lemma CreateKeepsUniqueIds(orders: seq<Order>, id: OrderId, d: OrderData, items: seq<OrderItem>)
    requires UniqueOrderIds(orders)
    requires !HasId(orders, id)
    ensures UniqueOrderIds(InsertItems(orders + [NewOrderRow(id, d)], id, items))
  {
    var s := orders + [NewOrderRow(id, d)];
    var r := InsertItems(s, id, items);
    assert forall k :: 0 <= k < |r| ==> r[k].id == s[k].id;
  }

  function ByCreator(userId: string): Order -> bool {
    (o: Order) => o.createdBy == userId
  }

  /** "My Orders": the orders this sales user created, in table order. */
  function MyOrders(orders: seq<Order>, userId: string): seq<Order> {
    Filter(orders, ByCreator(userId))
  }

  lemma MyOrdersSpec(orders: seq<Order>, userId: string, o: Order)
    ensures o in MyOrders(orders, userId) <==> o in orders && o.createdBy == userId
    ensures IsSubsequence(MyOrders(orders, userId), orders)
  {
    FilterMembership(orders, ByCreator(userId), o);
    FilterIsSubsequence(orders, ByCreator(userId));
  }

  /** The sales order page: the customer and order tables and the order form. */
  class OrderForm {
    const userId: string
    const userBranch: string
    const products: seq<Product>
    const branches: seq<string>
    var customers: seq<Customer>
    var orders: seq<Order>
    // the form
    var searchText: string
    var customerId: string
    var customerName: string
    var orderBranch: string
    var deliveryDate: string
    var items: seq<OrderItem>
    var editing: Option<OrderId>

    ghost predicate Valid()
      reads this
    {
      UniqueOrderIds(orders)
    }

    /** True when the form holds nothing (`resetForm`). */
    predicate Blank()
      reads this
    {
      searchText == "" && customerId == "" && customerName == "" && orderBranch == "" &&
      deliveryDate == "" && items == [] && editing.None?
    }

    /** The form has a customer, a delivery date and at least one line. */
    predicate Complete()
      reads this
    {
      customerId != "" && deliveryDate != "" && items != []
    }

    /** The order columns the form produces for customer `c`. */
    function FormData(c: Customer): OrderData
      reads this
    {
      OrderData(c.id, c.name, c.address, c.whatsapp, c.discount,
                if orderBranch != "" then orderBranch else c.branch,
                Total(items), deliveryDate, userId)
    }

    constructor(userId: string, userBranch: string, products: seq<Product>, branches: seq<string>,
                customers: seq<Customer>, orders: seq<Order>)
      requires UniqueOrderIds(orders)
      ensures Valid() && Blank()
      ensures this.userId == userId && this.userBranch == userBranch && this.products == products
      ensures this.branches == branches && this.customers == customers && this.orders == orders
    {
      this.userId := userId;
      this.userBranch := userBranch;
      this.products := products;
      this.branches := branches;
      this.customers := customers;
      this.orders := orders;
      searchText := "";
      customerId := "";
      customerName := "";
      orderBranch := "";
      deliveryDate := "";
      items := [];
      editing := None;
    }

    /** The dropdown's suggestions for the current search text. */
    function Suggestions(): seq<Customer>
      reads this
    {
      SearchCustomers(customers, searchText)
    }

    /** Typing in the search box drops any selected customer. */
    method TypeSearch(value: string)
      modifies this
      ensures searchText == value
      ensures old(customerId) != "" ==> customerId == "" && customerName == ""
      ensures old(customerId) == "" ==> customerId == old(customerId) && customerName == old(customerName)
      ensures customers == old(customers) && orders == old(orders) && items == old(items)
      ensures orderBranch == old(orderBranch) && deliveryDate == old(deliveryDate) && editing == old(editing)
      ensures Trim(value) == "" ==> Suggestions() == []
      ensures forall c :: c in Suggestions() ==> c in customers
    {
      searchText := value;
      forall c ensures c in Suggestions() ==> c in customers {
        SearchCustomersSpec(customers, value, c);
      }
      if customerId != "" {
        customerId := "";
        customerName := "";
      }
    }

    /** Picking a suggestion selects the customer and takes the customer's branch when it has one. */
    method SelectCustomer(c: Customer)
      modifies this
      ensures searchText == c.name && customerId == c.id && customerName == c.name
      ensures orderBranch == (if c.branch != "" then c.branch else old(orderBranch))
      ensures customers == old(customers) && orders == old(orders) && items == old(items)
      ensures deliveryDate == old(deliveryDate) && editing == old(editing)
    {
      searchText := c.name;
      customerId := c.id;
      customerName := c.name;
      if c.branch != "" {
        orderBranch := c.branch;
      }
    }

    /**
     * Creates a customer from the form: name, address and whatsapp are required,
     * an unparsable discount is 0, the branch follows `NewCustomerBranch`; on a
     * successful insert the new customer is selected.
     */
    method AddCustomer(input: CustomerInput, newId: string, writeOk: bool) returns (outcome: FormOutcome)
      modifies this
      ensures input.name == "" || input.address == "" || input.whatsapp == "" ==>
        outcome == MissingFields && customers == old(customers)
      ensures input.name != "" && input.address != "" && input.whatsapp != "" && !writeOk ==>
        outcome == StoreWriteError && customers == old(customers)
      ensures input.name != "" && input.address != "" && input.whatsapp != "" && writeOk ==>
        outcome == Saved &&
        customers == old(customers) + [Customer(newId, input.name, input.address, input.phone, input.whatsapp,
                                                 DiscountOrZero(input.discount),
                                                 NewCustomerBranch(userBranch, old(orderBranch), branches), userId)] &&
        searchText == input.name && customerId == newId && customerName == input.name
      ensures outcome != Saved ==>
        searchText == old(searchText) && customerId == old(customerId) && customerName == old(customerName)
      ensures orders == old(orders) && items == old(items) && orderBranch == old(orderBranch)
      ensures deliveryDate == old(deliveryDate) && editing == old(editing)
    {
      if input.name == "" || input.address == "" || input.whatsapp == "" {
        return MissingFields;
      }
      var record := Customer(newId, input.name, input.address, input.phone, input.whatsapp,
                             DiscountOrZero(input.discount), NewCustomerBranch(userBranch, orderBranch, branches), userId);
      if !writeOk {
        return StoreWriteError;
      }
      customers := customers + [record];
      searchText := record.name;
      customerId := record.id;
      customerName := record.name;
      outcome := Saved;
    }

    /**
     * Appends one line for `quantity` of the named product (`None` when the
     * quantity field is empty), priced for the selected customer; refused, with
     * the lines unchanged, when a field is empty, no customer is selected, or the
     * product or customer cannot be found.
     */
    method AddItem(productName: string, quantity: Option<int>) returns (outcome: FormOutcome)
      modifies this`items
      ensures productName == "" || quantity.None? ==> outcome == MissingFields && items == old(items)
      ensures productName != "" && quantity.Some? && customerId == "" ==> outcome == NoCustomerSelected && items == old(items)
      ensures (productName != "" && quantity.Some? && customerId != "" &&
               (FindProduct(products, productName).None? || FindCustomer(customers, customerId).None?)) ==>
        outcome == NotFound && items == old(items)
      ensures (productName != "" && quantity.Some? && customerId != "" &&
               FindProduct(products, productName).Some? && FindCustomer(customers, customerId).Some?) ==>
        outcome == Saved &&
        items == old(items) + [OrderLine(FindProduct(products, productName).value,
                                         FindCustomer(customers, customerId).value, quantity.value)]
      ensures outcome == Saved <==> |items| == |old(items)| + 1
    {
      if productName == "" || quantity.None? {
        return MissingFields;
      }
      if customerId == "" {
        return NoCustomerSelected;
      }
      var product := FindProduct(products, productName);
      var customer := FindCustomer(customers, customerId);
      if product.None? || customer.None? {
        return NotFound;
      }
      items := items + [OrderLine(product.value, customer.value, quantity.value)];
      outcome := Saved;
    }

    /** Drops the line at `index`; the others keep their order. */
    method RemoveItem(index: int)
      modifies this`items
      ensures items == RemoveAt(old(items), index)
      ensures 0 <= index < |old(items)| ==> Total(items) == Total(old(items)) - LineAmount(old(items)[index])
    {
      if 0 <= index < |items| {
        TotalRemoveAt(items, index);
      }
      items := RemoveAt(items, index);
    }

    method Reset()
      modifies this
      ensures Blank()
      ensures customers == old(customers) && orders == old(orders)
    {
      searchText := "";
      customerId := "";
      customerName := "";
      orderBranch := "";
      deliveryDate := "";
      items := [];
      editing := None;
    }

    /**
     * Loads an order into the form for editing; a delivered order is refused
     * and the form is left as it was.
     */
    method EditOrder(o: Order) returns (outcome: FormOutcome)
      modifies this
      ensures o.status == StatusDelivered ==>
        outcome == DeliveredOrder && editing == old(editing) && items == old(items) &&
        searchText == old(searchText) && customerId == old(customerId) && customerName == old(customerName) &&
        orderBranch == old(orderBranch) && deliveryDate == old(deliveryDate)
      ensures o.status != StatusDelivered ==>
        outcome == Saved && editing == Some(o.id) && items == CleanItems(o.items) &&
        searchText == o.customerName && customerId == o.customerId && customerName == o.customerName &&
        orderBranch == o.branch && deliveryDate == o.deliveryDate
      ensures customers == old(customers) && orders == old(orders)
    {
      if o.status == StatusDelivered {
        return DeliveredOrder;
      }
      editing := Some(o.id);
      searchText := o.customerName;
      customerId := o.customerId;
      customerName := o.customerName;
      orderBranch := o.branch;
      deliveryDate := o.deliveryDate;
      items := CleanItems(o.items);
      outcome := Saved;
    }

    /**
     * Saves the form. It is refused without a customer, a delivery date or a
     * line, or when the customer is not loaded. Editing writes the order's
     * columns, then deletes its lines (a failure there is ignored), then inserts
     * the form's lines; creating inserts row `newId`, then its lines. Each write
     * that fails stops the sequence with the earlier writes kept; full success
     * clears the form.
     */
    method CreateOrder(newId: OrderId, orderWriteOk: bool, deleteOk: bool, itemsWriteOk: bool)
      returns (outcome: FormOutcome)
      requires Valid()
      requires editing.None? ==> !HasId(orders, newId)
      modifies this
      ensures Valid()
      ensures !old(Complete()) ==> outcome == MissingFields && orders == old(orders)
      ensures old(Complete()) && old(FindCustomer(customers, customerId)).None? ==>
        outcome == NotFound && orders == old(orders)
      ensures old(Complete()) && old(FindCustomer(customers, customerId)).Some? ==>
        var d := old(FormData(FindCustomer(customers, customerId).value));
        match old(editing)
        case Some(id) =>
          var written := WriteOrderData(old(orders), id, d);
          var cleared := if deleteOk then ClearItems(written, id) else written;
          (!orderWriteOk ==> outcome == StoreWriteError && orders == old(orders)) &&
          (orderWriteOk && !itemsWriteOk ==> outcome == StoreWriteError && orders == cleared) &&
          (orderWriteOk && itemsWriteOk ==> outcome == Saved && orders == InsertItems(cleared, id, old(items)))
        case None =>
          var inserted := old(orders) + [NewOrderRow(newId, d)];
          (!orderWriteOk ==> outcome == StoreWriteError && orders == old(orders)) &&
          (orderWriteOk && !itemsWriteOk ==> outcome == StoreWriteError && orders == inserted) &&
          (orderWriteOk && itemsWriteOk ==> outcome == Saved && orders == InsertItems(inserted, newId, old(items)))
      ensures outcome == Saved ==> Blank()
      ensures outcome != Saved ==>
        searchText == old(searchText) && customerId == old(customerId) && customerName == old(customerName) &&
        orderBranch == old(orderBranch) && deliveryDate == old(deliveryDate) && items == old(items) &&
        editing == old(editing)
      ensures customers == old(customers)
    {
      if !Complete() {
        return MissingFields;
      }
      var customer := FindCustomer(customers, customerId);
      if customer.None? {
        return NotFound;
      }
      var d := FormData(customer.value);
      if !orderWriteOk {
        return StoreWriteError;
      }
      match editing {
        case Some(id) =>
          orders := WriteOrderData(orders, id, d);
          assert forall k :: 0 <= k < |orders| ==> orders[k].id == old(orders)[k].id;
          if deleteOk {
            orders := ClearItems(orders, id);
          }
          assert forall k :: 0 <= k < |orders| ==> orders[k].id == old(orders)[k].id;
          if !itemsWriteOk {
            return StoreWriteError;
          }
          orders := InsertItems(orders, id, items);
          assert forall k :: 0 <= k < |orders| ==> orders[k].id == old(orders)[k].id;
        case None =>
          orders := orders + [NewOrderRow(newId, d)];
          assert UniqueOrderIds(orders);
          if !itemsWriteOk {
            return StoreWriteError;
          }
          orders := InsertItems(orders, newId, items);
          assert forall k :: 0 <= k < |orders| ==> orders[k].id == (old(orders) + [NewOrderRow(newId, d)])[k].id;
      }
      Reset();
      outcome := Saved;
    }
  }
}
