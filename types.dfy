/** The bookstore's entities: books, cart lines, orders and derived customer profiles. */
module Types {
  import opened Wrappers
  import opened Schemas

  /** A catalogue entry; `price` is in cents, timestamps are milliseconds since the epoch. */
  datatype Book = Book(
    id: string,
    title: string,
    author: string,
    description: string,
    coverImage: string,
    price: int,
    createdAt: Option<int>,
    updatedAt: Option<int>)

  /** A line of the shopping cart: the book as it was added, and how many copies. */
  datatype CartItem = CartItem(book: Book, quantity: int)

  /** A line of an order, with the unit price captured when the order was placed. */
  datatype OrderItem = OrderItem(bookId: string, title: string, quantity: int, price: int, coverImage: string)

  datatype OrderStatus = Pending | Processing | Shipped | Delivered | Cancelled

  datatype Order = Order(
    id: string,
    deliveryInfo: DeliveryInfo,
    items: seq<OrderItem>,
    totalAmount: int,
    status: OrderStatus,
    orderDate: int,
    updatedAt: Option<int>,
    userId: Option<string>)

  /** A summary of every order placed with one e-mail address; never stored, always recomputed. */
  datatype CustomerProfile = CustomerProfile(
    id: string,
    name: string,
    email: string,
    firstOrderDate: int,
    lastOrderDate: int,
    totalOrders: int,
    totalSpent: int)

  function BookId(b: Book): string
  {
    b.id
  }

  /** The test `book => book.id === id`. */
  function BookHasId(id: string): Book -> bool
  {
    (b: Book) => b.id == id
  }

  /** `books.map(book => book.title)`. */
  function Titles(books: seq<Book>): (r: seq<string>)
    ensures |r| == |books|
    ensures forall i :: 0 <= i < |books| ==> r[i] == books[i].title
  {
    if books == [] then [] else [books[0].title] + Titles(books[1..])
  }
}
