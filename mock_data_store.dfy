/**
 * The in-memory store: two arrays, `books` and `orders`, and two counters
 * that hand out ids. Books get the decimal numerals of `nextBookId`, orders
 * get "mock-" followed by the numeral of `nextOrderId`. Reads return sorted
 * copies, updates and deletes look books and orders up by id, and customer
 * profiles are folded out of the orders on demand.
 *
 * The clock is an input: every operation that stamps a time takes `now`.
 */
module MockDataStore {
  import opened Wrappers
  import opened Sequences
  import opened Text
  import opened Types
  import opened MockData

  // ---------------------------------------------------------------------------
  // Inputs of the write operations
  // ---------------------------------------------------------------------------

  /** A book without its id and timestamps, as the add operation receives it. */
  datatype BookInput = BookInput(title: string, author: string, description: string, coverImage: string, price: int)

  /** The fields an update replaces; an absent field keeps its old value. */
  datatype BookPatch = BookPatch(
    title: Option<string>,
    author: Option<string>,
    description: Option<string>,
    coverImage: Option<string>,
    price: Option<int>)

  /** An order without its id, date and update time; the status may be left out. */
  datatype OrderInput = OrderInput(
    deliveryInfo: Schemas.DeliveryInfo,
    items: seq<OrderItem>,
    totalAmount: int,
    status: Option<OrderStatus>,
    userId: Option<string>)

  // ---------------------------------------------------------------------------
  // Ids
  // ---------------------------------------------------------------------------

  /** `s` is a numeral the counter `next` has already passed. */
  predicate IssuedBelow(s: string, next: nat)
  {
    IsNumeral(s) && DecimalValue(s) < next
  }

  const OrderIdPrefix: string := "mock-"

  /** The id of the `n`-th order: `mock-${n}`. */
  function OrderIdFor(n: nat): string
  {
    OrderIdPrefix + NatToString(n)
  }

  /** `id` is an order id whose number the counter `next` has already passed. */
  predicate OrderIdIssuedBelow(id: string, next: nat)
  {
    |id| > |OrderIdPrefix| && id[..|OrderIdPrefix|] == OrderIdPrefix && IssuedBelow(id[|OrderIdPrefix|..], next)
  }

  /** The counter's next book id differs from every id it has already passed. */
  lemma NextBookIdFresh(id: string, next: nat)
    requires IssuedBelow(id, next)
    ensures id != NatToString(next)
  {
    DecimalValueOfNatToString(next);
  }

  /** The counter's next order id differs from every order id it has already passed. */
  lemma NextOrderIdFresh(id: string, next: nat)
    requires OrderIdIssuedBelow(id, next)
    ensures id != OrderIdFor(next)
  {
    if id == OrderIdFor(next) {
      assert id[|OrderIdPrefix|..] == NatToString(next);
      NextBookIdFresh(id[|OrderIdPrefix|..], next);
    }
  }

  /** The seed's ids are all below the counter's starting value, one more than the seed's length. */
  lemma MockBooksIssued(loadTime: int)
    ensures forall i :: 0 <= i < |MockBooks(loadTime)| ==> IssuedBelow(MockBooks(loadTime)[i].id, |MockBooks(loadTime)| + 1)
  {
    MockBookIds(loadTime);
    forall i | 0 <= i < 8 ensures IssuedBelow(MockBooks(loadTime)[i].id, 9) {
      DecimalValueOfNatToString(i + 1);
    }
  }

  function OrderId(o: Order): string
  {
    o.id
  }

  function OrderHasId(id: string): Order -> bool
  {
    (o: Order) => o.id == id
  }

  /** The test `b => b.id !== bookId` of the delete operation. */
  function BookLacksId(id: string): Book -> bool
  {
    (b: Book) => b.id != id
  }

  // ---------------------------------------------------------------------------
  // Sort keys
  // ---------------------------------------------------------------------------

  /** `b.createdAt || 0`: a book without a creation time sorts as if created at time 0. */
  function CreatedKey(b: Book): int
  {
    b.createdAt.GetOr(0)
  }

  function OrderDateKey(o: Order): int
  {
    o.orderDate
  }

  function LastOrderKey(p: CustomerProfile): int
  {
    p.lastOrderDate
  }

  function ProfileId(p: CustomerProfile): string
  {
    p.id
  }

  // ---------------------------------------------------------------------------
  // Merging an update into a book
  // ---------------------------------------------------------------------------

  /** `{...book, ...patch, updatedAt: now}`: the given fields win, id and creation time stay. */
  function MergedBook(b: Book, patch: BookPatch, now: int): (r: Book)
    ensures r.id == b.id && r.createdAt == b.createdAt && r.updatedAt == Some(now)
    ensures patch == BookPatch(None, None, None, None, None) ==> r == b.(updatedAt := Some(now))
    ensures patch.title.Some? ==> r.title == patch.title.value
    ensures patch.title.None? ==> r.title == b.title
    ensures patch.author.Some? ==> r.author == patch.author.value
    ensures patch.author.None? ==> r.author == b.author
    ensures patch.description.Some? ==> r.description == patch.description.value
    ensures patch.description.None? ==> r.description == b.description
    ensures patch.coverImage.Some? ==> r.coverImage == patch.coverImage.value
    ensures patch.coverImage.None? ==> r.coverImage == b.coverImage
    ensures patch.price.Some? ==> r.price == patch.price.value
    ensures patch.price.None? ==> r.price == b.price
  {
    b.(
      title := patch.title.GetOr(b.title),
      author := patch.author.GetOr(b.author),
      description := patch.description.GetOr(b.description),
      coverImage := patch.coverImage.GetOr(b.coverImage),
      price := patch.price.GetOr(b.price),
      updatedAt := Some(now))
  }

  // ---------------------------------------------------------------------------
  // What a customer profile summarises
  // ---------------------------------------------------------------------------

  /** The order carries a delivery e-mail; the empty string counts as none. */
  predicate HasEmail(o: Order)
  {
    o.deliveryInfo.email != ""
  }

  /** The key profiles are grouped by: the lower-cased delivery e-mail. */
  function EmailKey(o: Order): string
  {
    ToLower(o.deliveryInfo.email)
  }

  function PlacedBy(email: string): Order -> bool
  {
    (o: Order) => HasEmail(o) && EmailKey(o) == email
  }

  /** The orders of one customer, in store order. */
  function OrdersOf(orders: seq<Order>, email: string): seq<Order>
  {
    Filter(PlacedBy(email), orders)
  }

  /** The customers that have at least one order with an e-mail. */
  function CustomerEmails(orders: seq<Order>): set<string>
  {
    set o | o in orders && HasEmail(o) :: EmailKey(o)
  }

  function OrderAmount(o: Order): int
  {
    o.totalAmount
  }

  ghost predicate IsEarliest(d: int, orders: seq<Order>)
  {
    && (exists i :: 0 <= i < |orders| && orders[i].orderDate == d)
    && (forall i :: 0 <= i < |orders| ==> d <= orders[i].orderDate)
  }

  ghost predicate IsLatest(d: int, orders: seq<Order>)
  {
    && (exists i :: 0 <= i < |orders| && orders[i].orderDate == d)
    && (forall i :: 0 <= i < |orders| ==> orders[i].orderDate <= d)
  }

  /** `name` is the delivery name of the first order placed at time `d`, and no earlier order reached `d`. */
  ghost predicate NamedByFirstLatest(name: string, d: int, orders: seq<Order>)
  {
    exists j :: 0 <= j < |orders| && orders[j].orderDate == d && orders[j].deliveryInfo.name == name
      && forall k :: 0 <= k < j ==> orders[k].orderDate < d
  }

  /**
   * `p` is the profile of the customer `email` whose orders, in store order,
   * are `orders`: their count and total, earliest and latest dates, the e-mail
   * as first written, and the name given on the first order at the latest date.
   */
  ghost predicate Summarises(p: CustomerProfile, email: string, orders: seq<Order>)
  {
    && |orders| > 0
    && p.id == email
    && p.email == orders[0].deliveryInfo.email
    && p.totalOrders == |orders|
    && p.totalSpent == Sum(OrderAmount, orders)
    && IsEarliest(p.firstOrderDate, orders)
    && IsLatest(p.lastOrderDate, orders)
    && NamedByFirstLatest(p.name, p.lastOrderDate, orders)
  }

  /** A customer's orders determine the profile completely. */
  lemma SummaryDetermined(p: CustomerProfile, q: CustomerProfile, email: string, orders: seq<Order>)
    requires Summarises(p, email, orders) && Summarises(q, email, orders)
    ensures p == q
  {
    var i :| 0 <= i < |orders| && orders[i].orderDate == p.firstOrderDate;
    var i' :| 0 <= i' < |orders| && orders[i'].orderDate == q.firstOrderDate;
    assert p.firstOrderDate <= orders[i'].orderDate && q.firstOrderDate <= orders[i].orderDate;
    var l :| 0 <= l < |orders| && orders[l].orderDate == p.lastOrderDate;
    var l' :| 0 <= l' < |orders| && orders[l'].orderDate == q.lastOrderDate;
    assert orders[l'].orderDate <= p.lastOrderDate && orders[l].orderDate <= q.lastOrderDate;
    var j :| 0 <= j < |orders| && orders[j].orderDate == p.lastOrderDate && orders[j].deliveryInfo.name == p.name
      && forall k :: 0 <= k < j ==> orders[k].orderDate < p.lastOrderDate;
    var j' :| 0 <= j' < |orders| && orders[j'].orderDate == q.lastOrderDate && orders[j'].deliveryInfo.name == q.name
      && forall k :: 0 <= k < j' ==> orders[k].orderDate < q.lastOrderDate;
    assert j == j';
  }

  /** A customer's first order opens a profile that summarises just that order. */
  lemma SummaryStarts(o: Order)
    requires HasEmail(o)
    ensures Summarises(
      CustomerProfile(EmailKey(o), o.deliveryInfo.name, o.deliveryInfo.email, o.orderDate, o.orderDate, 1, o.totalAmount),
      EmailKey(o), [o])
  {
    assert [o][..0] == [];
    var p := CustomerProfile(EmailKey(o), o.deliveryInfo.name, o.deliveryInfo.email, o.orderDate, o.orderDate, 1, o.totalAmount);
    assert NamedByFirstLatest(p.name, p.lastOrderDate, [o]) by {
      assert [o][0].orderDate == p.lastOrderDate;
    }
  }

  /**
   * One more order `o` of the customer updates the profile as the fold does:
   * count and total grow, the earliest date moves back only for a strictly
   * earlier order, and date and name move forward only for a strictly later one.
   */
  lemma SummaryExtends(p: CustomerProfile, q: CustomerProfile, email: string, orders: seq<Order>, o: Order)
    requires Summarises(p, email, orders)
    requires q.id == p.id && q.email == p.email
    requires q.totalOrders == p.totalOrders + 1 && q.totalSpent == p.totalSpent + o.totalAmount
    requires q.firstOrderDate == if o.orderDate < p.firstOrderDate then o.orderDate else p.firstOrderDate
    requires o.orderDate > p.lastOrderDate ==> q.lastOrderDate == o.orderDate && q.name == o.deliveryInfo.name
    requires o.orderDate <= p.lastOrderDate ==> q.lastOrderDate == p.lastOrderDate && q.name == p.name
    ensures Summarises(q, email, orders + [o])
  {
    var s := orders + [o];
    var n := |orders|;
    assert s[n] == o;
    assert forall i :: 0 <= i < n ==> s[i] == orders[i];
    SumSnoc(OrderAmount, orders, o);
    assert IsEarliest(q.firstOrderDate, s) by {
      var i :| 0 <= i < n && orders[i].orderDate == p.firstOrderDate;
      if o.orderDate < p.firstOrderDate {
        assert s[n].orderDate == q.firstOrderDate;
      } else {
        assert s[i].orderDate == q.firstOrderDate;
      }
    }
    var j :| 0 <= j < n && orders[j].orderDate == p.lastOrderDate && orders[j].deliveryInfo.name == p.name
      && forall k :: 0 <= k < j ==> orders[k].orderDate < p.lastOrderDate;
    if o.orderDate > p.lastOrderDate {
      assert s[n].orderDate == q.lastOrderDate;
      assert forall k :: 0 <= k < n ==> s[k].orderDate < q.lastOrderDate;
      assert NamedByFirstLatest(q.name, q.lastOrderDate, s);
    } else {
      assert s[j].orderDate == q.lastOrderDate && s[j].deliveryInfo.name == q.name;
      assert forall k :: 0 <= k < j ==> s[k].orderDate < q.lastOrderDate;
      assert NamedByFirstLatest(q.name, q.lastOrderDate, s);
    }
  }

  /** Appending an order adds its customer, if it has an e-mail, to the set of customers. */
  lemma CustomerEmailsSnoc(orders: seq<Order>, o: Order)
    ensures CustomerEmails(orders + [o]) == CustomerEmails(orders) + (if HasEmail(o) then {EmailKey(o)} else {})
  {
    var s := orders + [o];
    forall x | x in s ensures x in orders || x == o {
      var i :| 0 <= i < |s| && s[i] == x;
      if i < |orders| {
        assert orders[i] == x;
      }
    }
    assert o in s;
    assert forall x :: x in orders ==> x in s;
  }

  /** A customer with no order among `orders` has no orders there. */
  lemma OrdersOfOutsider(orders: seq<Order>, email: string)
    requires email !in CustomerEmails(orders)
    ensures OrdersOf(orders, email) == []
  {
    forall i | 0 <= i < |orders| ensures !PlacedBy(email)(orders[i]) {
      assert orders[i] in orders;
    }
    FilterNone(PlacedBy(email), orders);
  }

  /**
   * The bookkeeping half of the profile fold after the orders `prefix`: the
   * map's keys are the customers seen so far, and `emails` lists each of them
   * once, in the order they were first seen.
   */
  ghost predicate KeysTracked(keys: set<string>, emails: seq<string>, prefix: seq<Order>)
  {
    && keys == CustomerEmails(prefix)
    && (forall k :: 0 <= k < |emails| ==> emails[k] in keys)
    && (forall e :: e in keys ==> e in emails)
    && (forall a, b :: 0 <= a < b < |emails| ==> emails[a] != emails[b])
  }

  /** The other half: every entry summarises its customer's orders among `prefix`. */
  ghost predicate ProfilesSummarise(m: map<string, CustomerProfile>, prefix: seq<Order>)
  {
    forall e :: e in m ==> Summarises(m[e], e, OrdersOf(prefix, e))
  }

  lemma OrdersOfSnoc(prefix: seq<Order>, o: Order, email: string)
    ensures OrdersOf(prefix + [o], email) == OrdersOf(prefix, email) + (if PlacedBy(email)(o) then [o] else [])
  {
    FilterSnoc(PlacedBy(email), prefix, o);
  }

  /** An order that is not `email`'s leaves `email`'s orders as they were. */
  lemma OrdersOfOther(prefix: seq<Order>, o: Order, email: string)
    requires !HasEmail(o) || EmailKey(o) != email
    ensures OrdersOf(prefix + [o], email) == OrdersOf(prefix, email)
  {
    OrdersOfSnoc(prefix, o, email);
    assert !PlacedBy(email)(o);
  }

  /** An order without an e-mail adds no customer. */
  lemma KeysSkip(keys: set<string>, emails: seq<string>, prefix: seq<Order>, o: Order)
    requires KeysTracked(keys, emails, prefix)
    requires !HasEmail(o)
    ensures KeysTracked(keys, emails, prefix + [o])
  {
    CustomerEmailsSnoc(prefix, o);
  }

  /** An order of a customer already seen adds no customer. */
  lemma KeysAbsorb(keys: set<string>, emails: seq<string>, prefix: seq<Order>, o: Order)
    requires KeysTracked(keys, emails, prefix)
    requires HasEmail(o) && EmailKey(o) in keys
    ensures KeysTracked(keys, emails, prefix + [o])
  {
    CustomerEmailsSnoc(prefix, o);
  }

  /** The first order of a new customer appends the customer's key. */
  lemma KeysOpen(keys: set<string>, emails: seq<string>, prefix: seq<Order>, o: Order)
    requires KeysTracked(keys, emails, prefix)
    requires HasEmail(o) && EmailKey(o) !in keys
    ensures KeysTracked(keys + {EmailKey(o)}, emails + [EmailKey(o)], prefix + [o])
  {
    var email := EmailKey(o);
    CustomerEmailsSnoc(prefix, o);
    var emails' := emails + [email];
    forall a, b | 0 <= a < b < |emails'| ensures emails'[a] != emails'[b] {
      if b == |emails| {
        assert emails'[a] == emails[a] && emails[a] in keys;
      } else {
        assert emails'[a] == emails[a] && emails'[b] == emails[b];
      }
    }
  }

  /** An order without an e-mail leaves every profile as it was. */
  lemma SummariesSkip(m: map<string, CustomerProfile>, prefix: seq<Order>, o: Order)
    requires ProfilesSummarise(m, prefix)
    requires !HasEmail(o)
    ensures ProfilesSummarise(m, prefix + [o])
  {
    forall e | e in m ensures Summarises(m[e], e, OrdersOf(prefix + [o], e)) {
      OrdersOfOther(prefix, o, e);
    }
  }

  /** Replacing the profile of `o`'s customer by one summarising the longer history keeps every entry a summary. */
  lemma SummariesReplace(m: map<string, CustomerProfile>, prefix: seq<Order>, o: Order, customer: CustomerProfile)
    requires ProfilesSummarise(m, prefix)
    requires HasEmail(o)
    requires Summarises(customer, EmailKey(o), OrdersOf(prefix + [o], EmailKey(o)))
    ensures ProfilesSummarise(m[EmailKey(o) := customer], prefix + [o])
  {
    var email := EmailKey(o);
    var m' := m[email := customer];
    forall e | e in m' ensures Summarises(m'[e], e, OrdersOf(prefix + [o], e)) {
      if e != email {
        OrdersOfOther(prefix, o, e);
        assert m'[e] == m[e];
      }
    }
  }

  /** An order of a customer already seen is absorbed into that customer's profile. */
  lemma SummariesAbsorb(m: map<string, CustomerProfile>, prefix: seq<Order>, o: Order, customer: CustomerProfile)
    requires ProfilesSummarise(m, prefix)
    requires HasEmail(o) && EmailKey(o) in m
    requires var p := m[EmailKey(o)];
      && customer.id == p.id && customer.email == p.email
      && customer.totalOrders == p.totalOrders + 1 && customer.totalSpent == p.totalSpent + o.totalAmount
      && customer.firstOrderDate == (if o.orderDate < p.firstOrderDate then o.orderDate else p.firstOrderDate)
      && (o.orderDate > p.lastOrderDate ==> customer.lastOrderDate == o.orderDate && customer.name == o.deliveryInfo.name)
      && (o.orderDate <= p.lastOrderDate ==> customer.lastOrderDate == p.lastOrderDate && customer.name == p.name)
    ensures ProfilesSummarise(m[EmailKey(o) := customer], prefix + [o])
  {
    var email := EmailKey(o);
    OrdersOfSnoc(prefix, o, email);
    assert PlacedBy(email)(o);
    SummaryExtends(m[email], customer, email, OrdersOf(prefix, email), o);
    SummariesReplace(m, prefix, o, customer);
  }

  /** The first order of a new customer opens a profile summarising just that order. */
  lemma SummariesOpen(m: map<string, CustomerProfile>, prefix: seq<Order>, o: Order, customer: CustomerProfile)
    requires ProfilesSummarise(m, prefix)
    requires HasEmail(o) && EmailKey(o) !in CustomerEmails(prefix)
    requires customer == CustomerProfile(EmailKey(o), o.deliveryInfo.name, o.deliveryInfo.email,
                                         o.orderDate, o.orderDate, 1, o.totalAmount)
    ensures ProfilesSummarise(m[EmailKey(o) := customer], prefix + [o])
  {
    var email := EmailKey(o);
    OrdersOfOutsider(prefix, email);
    OrdersOfSnoc(prefix, o, email);
    assert PlacedBy(email)(o);
    SummaryStarts(o);
    SummariesReplace(m, prefix, o, customer);
  }

  /** Writing a key twice leaves only the second value. */
  lemma Overwrite<K, V>(m: map<K, V>, k: K, a: V, b: V)
    ensures m[k := a][k := b] == m[k := b]
  {
  }

  /** The fold's step for an order without an e-mail. */
  lemma FoldSkip(m: map<string, CustomerProfile>, emails: seq<string>, prefix: seq<Order>, o: Order)
    requires KeysTracked(m.Keys, emails, prefix) && ProfilesSummarise(m, prefix)
    requires !HasEmail(o)
    ensures KeysTracked(m.Keys, emails, prefix + [o]) && ProfilesSummarise(m, prefix + [o])
  {
    KeysSkip(m.Keys, emails, prefix, o);
    SummariesSkip(m, prefix, o);
  }

  /** The fold's step for a further order of a customer already seen. */
  lemma FoldAbsorb(m: map<string, CustomerProfile>, emails: seq<string>, prefix: seq<Order>, o: Order,
                   customer: CustomerProfile)
    requires KeysTracked(m.Keys, emails, prefix) && ProfilesSummarise(m, prefix)
    requires HasEmail(o) && EmailKey(o) in m
    requires var p := m[EmailKey(o)];
      && customer.id == p.id && customer.email == p.email
      && customer.totalOrders == p.totalOrders + 1 && customer.totalSpent == p.totalSpent + o.totalAmount
      && customer.firstOrderDate == (if o.orderDate < p.firstOrderDate then o.orderDate else p.firstOrderDate)
      && (o.orderDate > p.lastOrderDate ==> customer.lastOrderDate == o.orderDate && customer.name == o.deliveryInfo.name)
      && (o.orderDate <= p.lastOrderDate ==> customer.lastOrderDate == p.lastOrderDate && customer.name == p.name)
    ensures var m' := m[EmailKey(o) := customer];
      KeysTracked(m'.Keys, emails, prefix + [o]) && ProfilesSummarise(m', prefix + [o])
  {
    KeysAbsorb(m.Keys, emails, prefix, o);
    SummariesAbsorb(m, prefix, o, customer);
    assert m[EmailKey(o) := customer].Keys == m.Keys;
  }

  /** The fold's step for the first order of a new customer. */
  lemma FoldOpen(m: map<string, CustomerProfile>, emails: seq<string>, prefix: seq<Order>, o: Order,
                 customer: CustomerProfile)
    requires KeysTracked(m.Keys, emails, prefix) && ProfilesSummarise(m, prefix)
    requires HasEmail(o) && EmailKey(o) !in m
    requires customer == CustomerProfile(EmailKey(o), o.deliveryInfo.name, o.deliveryInfo.email,
                                         o.orderDate, o.orderDate, 1, o.totalAmount)
    ensures var m' := m[EmailKey(o) := customer];
      KeysTracked(m'.Keys, emails + [EmailKey(o)], prefix + [o]) && ProfilesSummarise(m', prefix + [o])
  {
    KeysOpen(m.Keys, emails, prefix, o);
    SummariesOpen(m, prefix, o, customer);
    assert m[EmailKey(o) := customer].Keys == m.Keys + {EmailKey(o)};
  }

  /**
   * One step of the profile fold: the order `order`, placed after `prefix`, is
   * added to its customer's profile, which is opened if the customer is new;
   * an order without an e-mail is passed over.
   */
  method FoldOrder(customerMap: map<string, CustomerProfile>, emails: seq<string>, ghost prefix: seq<Order>,
                   order: Order)
    returns (customerMap': map<string, CustomerProfile>, emails': seq<string>)
    requires KeysTracked(customerMap.Keys, emails, prefix) && ProfilesSummarise(customerMap, prefix)
    ensures KeysTracked(customerMap'.Keys, emails', prefix + [order])
    ensures ProfilesSummarise(customerMap', prefix + [order])
  {
    customerMap', emails' := customerMap, emails;
    if !HasEmail(order) {
      FoldSkip(customerMap, emails, prefix, order);
      return;
    }
    var email := ToLower(order.deliveryInfo.email);
    var orderDate := order.orderDate;
    if email !in customerMap' {
      customerMap' := customerMap'[email := CustomerProfile(email, order.deliveryInfo.name,
        order.deliveryInfo.email, orderDate, orderDate, 0, 0)];
      emails' := emails' + [email];
    }
    ghost var withEntry := customerMap';
    var customer := customerMap'[email];
    customer := customer.(totalOrders := customer.totalOrders + 1);
    customer := customer.(totalSpent := customer.totalSpent + order.totalAmount);
    if orderDate < customer.firstOrderDate {
      customer := customer.(firstOrderDate := orderDate);
    }
    if orderDate > customer.lastOrderDate {
      customer := customer.(lastOrderDate := orderDate, name := order.deliveryInfo.name);
    }
    customerMap' := customerMap'[email := customer];
    if email in customerMap {
      FoldAbsorb(customerMap, emails, prefix, order, customer);
    } else {
      Overwrite(customerMap, email, withEntry[email], customer);
      FoldOpen(customerMap, emails, prefix, order, customer);
    }
  }

  /** Listing the map's values in key order gives profiles with pairwise distinct ids. */
  lemma ListedDistinct(m: map<string, CustomerProfile>, emails: seq<string>, orders: seq<Order>,
                       profiles: seq<CustomerProfile>)
    requires KeysTracked(m.Keys, emails, orders) && ProfilesSummarise(m, orders)
    requires |profiles| == |emails| && forall k :: 0 <= k < |emails| ==> profiles[k] == m[emails[k]]
    ensures DistinctBy(ProfileId, profiles)
  {
    forall a, b | 0 <= a < b < |profiles| ensures profiles[a].id != profiles[b].id {
      assert profiles[a].id == emails[a] && profiles[b].id == emails[b];
    }
  }

  /** Every profile listed from the map, in any order, summarises its customer. */
  lemma ListedSummarise(m: map<string, CustomerProfile>, emails: seq<string>, orders: seq<Order>,
                        profiles: seq<CustomerProfile>, r: seq<CustomerProfile>)
    requires ProfilesSummarise(m, orders)
    requires |profiles| == |emails| && forall k :: 0 <= k < |emails| ==> emails[k] in m && profiles[k] == m[emails[k]]
    requires multiset(r) == multiset(profiles)
    ensures forall i :: 0 <= i < |r| ==> Summarises(r[i], r[i].id, OrdersOf(orders, r[i].id))
  {
    forall i | 0 <= i < |r| ensures Summarises(r[i], r[i].id, OrdersOf(orders, r[i].id)) {
      assert r[i] in multiset(profiles);
      var k :| 0 <= k < |profiles| && profiles[k] == r[i];
      assert Summarises(m[emails[k]], emails[k], OrdersOf(orders, emails[k]));
    }
  }

  /** Each entry of a map of summaries is keyed by its own profile's id. */
  lemma SummariesKeyed(m: map<string, CustomerProfile>, orders: seq<Order>)
    requires ProfilesSummarise(m, orders)
    ensures forall e :: e in m ==> m[e].id == e
  {
    forall e | e in m ensures m[e].id == e {
      assert Summarises(m[e], e, OrdersOf(orders, e));
    }
  }

  /** Every customer seen has a profile among those listed from the map. */
  lemma ListedCoversCustomers(m: map<string, CustomerProfile>, emails: seq<string>, orders: seq<Order>,
                              profiles: seq<CustomerProfile>, r: seq<CustomerProfile>)
    requires KeysTracked(m.Keys, emails, orders)
    requires forall e :: e in m ==> m[e].id == e
    requires |profiles| == |emails| && forall k :: 0 <= k < |emails| ==> profiles[k] == m[emails[k]]
    requires multiset(r) == multiset(profiles)
    ensures forall e :: e in CustomerEmails(orders) ==> e in (set p | p in r :: p.id)
  {
    forall e | e in CustomerEmails(orders) ensures e in (set p | p in r :: p.id) {
      var k :| 0 <= k < |emails| && emails[k] == e;
      assert profiles[k] in multiset(r);
      assert profiles[k].id == e;
    }
  }

  /** Every profile listed from the map belongs to a customer seen. */
  lemma ListedOnlyCustomers(m: map<string, CustomerProfile>, emails: seq<string>, orders: seq<Order>,
                            profiles: seq<CustomerProfile>, r: seq<CustomerProfile>)
    requires KeysTracked(m.Keys, emails, orders)
    requires forall e :: e in m ==> m[e].id == e
    requires |profiles| == |emails| && forall k :: 0 <= k < |emails| ==> profiles[k] == m[emails[k]]
    requires multiset(r) == multiset(profiles)
    ensures forall p :: p in r ==> p.id in CustomerEmails(orders)
  {
    forall p | p in r ensures p.id in CustomerEmails(orders) {
      assert p in multiset(profiles);
      var k :| 0 <= k < |profiles| && profiles[k] == p;
      assert p.id == emails[k];
    }
  }

  // ---------------------------------------------------------------------------
  // The store
  // ---------------------------------------------------------------------------

  class MockStore {
    /** When the seed was loaded; its timestamps are computed from this instant. */
    const seedTime: int
    var books: seq<Book>
    var orders: seq<Order>
    var nextBookId: nat
    var nextOrderId: nat

    /**
     * Every id in the store was issued by its counter, so the counters are
     * ahead of every id, and no two books or two orders share an id.
     */
    ghost predicate Valid()
      reads this
    {
      && (forall i :: 0 <= i < |books| ==> IssuedBelow(books[i].id, nextBookId))
      && DistinctBy(BookId, books)
      && (forall i :: 0 <= i < |orders| ==> OrderIdIssuedBelow(orders[i].id, nextOrderId))
      && DistinctBy(OrderId, orders)
    }

    /** The store as the module initialises it: a copy of the seed, no orders, counters past the seed. */
    constructor (loadTime: int)
      ensures Valid()
      ensures seedTime == loadTime && books == MockBooks(loadTime) && orders == []
      ensures nextBookId == |MockBooks(loadTime)| + 1 == 9 && nextOrderId == 1
    {
      seedTime := loadTime;
      books := MockBooks(loadTime);
      orders := [];
      nextBookId := |MockBooks(loadTime)| + 1;
      nextOrderId := 1;
      new;
      MockBooksIssued(loadTime);
      MockBookIdsDistinct(loadTime);
    }

    // Books ---------------------------------------------------------------------

    /** `getMockBooks`: a copy of the books, newest first, ties in store order. */
    method GetBooks() returns (r: seq<Book>)
      ensures multiset(r) == multiset(books)
      ensures SortedDesc(CreatedKey, r)
      ensures forall k :: Filter(WithKey(CreatedKey, k), r) == Filter(WithKey(CreatedKey, k), books)
    {
      r := SortDesc(CreatedKey, books);
      SortDescSorted(CreatedKey, books);
      forall k ensures Filter(WithKey(CreatedKey, k), r) == Filter(WithKey(CreatedKey, k), books) {
        SortDescStable(CreatedKey, books, k);
      }
    }

    /** `getMockBookById`: the first book with that id. */
    method GetBookById(id: string) returns (r: Option<Book>)
      ensures r.Some? ==> r.value in books && r.value.id == id
      ensures r.None? <==> forall b :: b in books ==> b.id != id
    {
      r := Find(BookHasId(id), books);
    }

    /** `addMockBook`: appends the book under the next numeral and advances the counter. */
    method AddBook(bookData: BookInput, now: int) returns (newBook: Book)
      requires Valid()
      modifies this
      ensures Valid()
      ensures newBook == Book(NatToString(old(nextBookId)), bookData.title, bookData.author,
                              bookData.description, bookData.coverImage, bookData.price, Some(now), Some(now))
      ensures books == old(books) + [newBook]
      ensures forall b :: b in old(books) ==> b.id != newBook.id
      ensures nextBookId == old(nextBookId) + 1
      ensures orders == old(orders) && nextOrderId == old(nextOrderId)
    {
      newBook := Book(NatToString(nextBookId), bookData.title, bookData.author,
                      bookData.description, bookData.coverImage, bookData.price, Some(now), Some(now));
      forall i | 0 <= i < |books| ensures books[i].id != newBook.id {
        NextBookIdFresh(books[i].id, nextBookId);
      }
      DecimalValueOfNatToString(nextBookId);
      books := books + [newBook];
      nextBookId := nextBookId + 1;
    }

    /** `updateMockBook`: merges the patch into the first book with that id, or reports none. */
    method UpdateBook(bookId: string, bookData: BookPatch, now: int) returns (r: Option<Book>)
      requires Valid()
      modifies this
      ensures Valid()
      ensures r.None? <==> forall b :: b in old(books) ==> b.id != bookId
      ensures r.None? ==> books == old(books)
      ensures r.Some? ==>
        var k := FirstIndex(BookHasId(bookId), old(books)).value;
        && r.value == MergedBook(old(books)[k], bookData, now)
        && books == old(books)[k := r.value]
      ensures |books| == |old(books)|
      ensures orders == old(orders) && nextBookId == old(nextBookId) && nextOrderId == old(nextOrderId)
    {
      var bookIndex := FirstIndex(BookHasId(bookId), books);
      if bookIndex.None? {
        return None;
      }
      var k := bookIndex.value;
      var updatedBook := MergedBook(books[k], bookData, now);
      books := books[k := updatedBook];
      r := Some(updatedBook);
    }

    /** `deleteMockBook`: drops every book with that id and reports whether one was there. */
    method DeleteBook(bookId: string) returns (removed: bool)
      requires Valid()
      modifies this
      ensures Valid()
      ensures books == Filter(BookLacksId(bookId), old(books))
      ensures removed <==> exists b :: b in old(books) && b.id == bookId
      ensures orders == old(orders) && nextBookId == old(nextBookId) && nextOrderId == old(nextOrderId)
    {
      var initialLength := |books|;
      FilterShrinks(BookLacksId(bookId), books);
      FilterKeepsDistinct(BookId, BookLacksId(bookId), books);
      books := Filter(BookLacksId(bookId), books);
      removed := |books| < initialLength;
    }

    /** `getAllMockBookTitles`: the titles in store order. */
    method GetAllBookTitles() returns (r: seq<string>)
      ensures |r| == |books|
      ensures forall i :: 0 <= i < |books| ==> r[i] == books[i].title
    {
      r := Titles(books);
    }

    // Orders --------------------------------------------------------------------

    /** `getMockOrders`: a copy of the orders, most recent first, ties in store order. */
    method GetOrders() returns (r: seq<Order>)
      ensures multiset(r) == multiset(orders)
      ensures SortedDesc(OrderDateKey, r)
      ensures forall k :: Filter(WithKey(OrderDateKey, k), r) == Filter(WithKey(OrderDateKey, k), orders)
    {
      r := SortDesc(OrderDateKey, orders);
      SortDescSorted(OrderDateKey, orders);
      forall k ensures Filter(WithKey(OrderDateKey, k), r) == Filter(WithKey(OrderDateKey, k), orders) {
        SortDescStable(OrderDateKey, orders, k);
      }
    }

    /** `getMockOrderById`: the first order with that id. */
    method GetOrderById(id: string) returns (r: Option<Order>)
      ensures r.Some? ==> r.value in orders && r.value.id == id
      ensures r.None? <==> forall o :: o in orders ==> o.id != id
    {
      r := Find(OrderHasId(id), orders);
    }

    /** `createMockOrder`: appends the order under the next `mock-` id, pending unless told otherwise. */
    method CreateOrder(orderInput: OrderInput, now: int) returns (newOrder: Order)
      requires Valid()
      modifies this
      ensures Valid()
      ensures newOrder == Order(OrderIdFor(old(nextOrderId)), orderInput.deliveryInfo, orderInput.items,
                                orderInput.totalAmount, orderInput.status.GetOr(Pending), now, Some(now),
                                orderInput.userId)
      ensures orderInput.status.None? ==> newOrder.status == Pending
      ensures orders == old(orders) + [newOrder]
      ensures forall o :: o in old(orders) ==> o.id != newOrder.id
      ensures nextOrderId == old(nextOrderId) + 1
      ensures books == old(books) && nextBookId == old(nextBookId)
    {
      newOrder := Order(OrderIdFor(nextOrderId), orderInput.deliveryInfo, orderInput.items,
                        orderInput.totalAmount, orderInput.status.GetOr(Pending), now, Some(now),
                        orderInput.userId);
      forall i | 0 <= i < |orders| ensures orders[i].id != newOrder.id {
        NextOrderIdFresh(orders[i].id, nextOrderId);
      }
      assert newOrder.id[|OrderIdPrefix|..] == NatToString(nextOrderId);
      DecimalValueOfNatToString(nextOrderId);
      orders := orders + [newOrder];
      nextOrderId := nextOrderId + 1;
    }

    /** `updateMockOrderStatus`: sets status and update time of the first order with that id. */
    method UpdateOrderStatus(orderId: string, status: OrderStatus, now: int) returns (r: Option<Order>)
      requires Valid()
      modifies this
      ensures Valid()
      ensures r.None? <==> forall o :: o in old(orders) ==> o.id != orderId
      ensures r.None? ==> orders == old(orders)
      ensures r.Some? ==>
        var k := FirstIndex(OrderHasId(orderId), old(orders)).value;
        && r.value == old(orders)[k].(status := status, updatedAt := Some(now))
        && orders == old(orders)[k := r.value]
      ensures books == old(books) && nextBookId == old(nextBookId) && nextOrderId == old(nextOrderId)
    {
      var orderIndex := FirstIndex(OrderHasId(orderId), orders);
      if orderIndex.None? {
        return None;
      }
      var k := orderIndex.value;
      orders := orders[k := orders[k].(status := status, updatedAt := Some(now))];
      r := Some(orders[k]);
    }

    // Customer profiles ----------------------------------------------------------

    /**
     * `getMockCustomerProfiles`: one profile per customer e-mail, folded over
     * the orders in store order, then sorted by latest order, most recent first.
     */
    method CustomerProfiles() returns (r: seq<CustomerProfile>)
      ensures forall i :: 0 <= i < |r| ==> Summarises(r[i], r[i].id, OrdersOf(orders, r[i].id))
      ensures (set p | p in r :: p.id) == CustomerEmails(orders)
      ensures DistinctBy(ProfileId, r)
      ensures SortedDesc(LastOrderKey, r)
    {
      var customerMap: map<string, CustomerProfile> := map[];
      var emails: seq<string> := [];  // the map's keys in insertion order
      var i := 0;
      while i < |orders|
        invariant 0 <= i <= |orders|
        invariant KeysTracked(customerMap.Keys, emails, orders[..i])
        invariant ProfilesSummarise(customerMap, orders[..i])
      {
        assert orders[..i + 1] == orders[..i] + [orders[i]];
        customerMap, emails := FoldOrder(customerMap, emails, orders[..i], orders[i]);
        i := i + 1;
      }
      assert orders[..i] == orders;
      var profiles := seq(|emails|, k requires 0 <= k < |emails| => customerMap[emails[k]]);
      r := SortDesc(LastOrderKey, profiles);
      ListedSummarise(customerMap, emails, orders, profiles, r);
      SummariesKeyed(customerMap, orders);
      ListedCoversCustomers(customerMap, emails, orders, profiles, r);
      ListedOnlyCustomers(customerMap, emails, orders, profiles, r);
      ListedDistinct(customerMap, emails, orders, profiles);
      SortDescKeepsDistinct(LastOrderKey, ProfileId, profiles);
      SortDescSorted(LastOrderKey, profiles);
    }

    /** `resetMockData`: back to the seed, no orders, counters restarted. */
    method Reset()
      requires Valid()
      modifies this
      ensures Valid()
      ensures books == MockBooks(seedTime) && orders == []
      ensures nextBookId == |MockBooks(seedTime)| + 1 && nextOrderId == 1
    {
      books := MockBooks(seedTime);
      orders := [];
      nextBookId := |books| + 1;
      nextOrderId := 1;
      MockBooksIssued(seedTime);
      MockBookIdsDistinct(seedTime);
    }
  }
}
