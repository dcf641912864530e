/**
 * The sample rows of the embedded-engine tester (sqlite_performance_tester.py,
 * `create_sample_data`): each table is filled by a `for i in range(1, n + 1)`
 * loop that appends one tuple per row, with ids built from `i` and the other
 * fields drawn at random. The draws for row `i` are inputs; the timestamps
 * are taken as drawn strings (their `:02d` formatting is not modelled), and
 * `executemany` is not modelled.
 */
module SqliteSample {
  import opened Text
  import opened OrderItems
  import SampleTables

  /** A position drawn by `random.choice` from a list of five or of three. */
  type Choice5 = k: nat | k < 5
  type Choice3 = k: nat | k < 3

  /** `random.randint(10000, 99999)` and `random.choice(cities)`, `random.choice(states)`. */
  datatype PlaceDraw = PlaceDraw(zip: int, city: Choice5, state: Choice5)
  type Place = d: PlaceDraw | 10000 <= d.zip <= 99999 witness PlaceDraw(10000, 0, 0)

  datatype Customer = Customer(id: string, uniqueId: string, zip: int, city: string, state: string)

  function CustomerRow(i: nat, d: Place): Customer
  {
    Customer(Ident("c", i), Ident("cu", i), d.zip, SampleTables.Cities[d.city], SampleTables.States[d.state])
  }

  /** The draws of one product row, each `randint` within its bounds. */
  datatype ProductDraw = ProductDraw(category: Choice5, nameLength: int, descriptionLength: int, photos: int,
                                     weight: int, length: int, height: int, width: int)
  type ProductPick = d: ProductDraw |
    && 30 <= d.nameLength <= 100 && 100 <= d.descriptionLength <= 500 && 1 <= d.photos <= 5
    && 100 <= d.weight <= 2000 && 10 <= d.length <= 50 && 5 <= d.height <= 30 && 8 <= d.width <= 40
    witness ProductDraw(0, 30, 100, 1, 100, 10, 5, 8)

  datatype Product = Product(id: string, category: string, nameLength: int, descriptionLength: int, photos: int,
                             weight: int, length: int, height: int, width: int)

  function ProductRow(i: nat, d: ProductPick): Product
  {
    Product(Ident("p", i), SampleTables.CategoryNames[d.category], d.nameLength, d.descriptionLength, d.photos,
            d.weight, d.length, d.height, d.width)
  }

  datatype Seller = Seller(id: string, zip: int, city: string, state: string)

  function SellerRow(i: nat, d: Place): Seller
  {
    Seller(Ident("s", i), d.zip, SampleTables.Cities[d.city], SampleTables.States[d.state])
  }

  /** `random.choice(customer_ids)` (a position in c1..c500), the status and the five timestamps. */
  datatype OrderDraw = OrderDraw(customer: nat, status: Choice3, purchase: string, approved: string,
                                 carrier: string, delivered: string, estimated: string)
  type OrderPick = d: OrderDraw | d.customer < 500 witness OrderDraw(0, 0, "", "", "", "", "")

  datatype Order = Order(id: string, customerId: string, status: string, purchase: string, approved: string,
                         carrier: string, delivered: string, estimated: string)

  const Statuses: seq<string> := ["delivered", "shipped", "processing"]

  /** `customer_ids`: c1..c500. */
  function CustomerIds(): seq<string>
  {
    SampleTables.Ids("c", 500)
  }

  function OrderRow(i: nat, d: OrderPick): Order
  {
    Order(Ident("o", i), CustomerIds()[d.customer], Statuses[d.status], d.purchase, d.approved,
          d.carrier, d.delivered, d.estimated)
  }

  /** The payment type, the number of installments (a position in [1, 2, 3, 6, 12]) and the value. */
  datatype PaymentDraw = PaymentDraw(kind: Choice3, installments: Choice5, value: real)

  datatype Payment = Payment(orderId: string, sequential: int, kind: string, installments: int, value: real)

  const PaymentKinds: seq<string> := ["credit_card", "boleto", "debit_card"]
  const InstallmentOptions: seq<int> := [1, 2, 3, 6, 12]

  function PaymentRow(i: nat, d: PaymentDraw): Payment
  {
    Payment(Ident("o", i), 1, PaymentKinds[d.kind], InstallmentOptions[d.installments], d.value)
  }

  /** `random.choice([1, 2, 3, 4, 5])`, the comment position and the two timestamps. */
  datatype ReviewDraw = ReviewDraw(score: int, comment: SampleTables.CommentChoice, created: string, answered: string)
  type ReviewPick = d: ReviewDraw | 1 <= d.score <= 5 witness ReviewDraw(1, 0, "", "")

  datatype Review = Review(id: string, orderId: string, score: int, title: string, comment: string,
                           created: string, answered: string)

  function ReviewRow(i: nat, d: ReviewPick): Review
  {
    Review(Ident("r", i), Ident("o", i), d.score, "Avaliação", SampleTables.ReviewComments[d.comment], d.created, d.answered)
  }

  /** The translation rows `categories`. */
  const Categories: seq<(string, string)> := [
    ("eletrônicos", "electronics"), ("roupas", "clothing"), ("casa", "home"), ("livros", "books"), ("esportes", "sports")]

  /** The rows `row(1), ..., row(n)`, in that order. */
  function Rows<R>(n: nat, row: nat -> R): (r: seq<R>)
    ensures |r| == n
    ensures forall k :: 0 <= k < n ==> r[k] == row(k + 1)
  {
    seq(n, k requires 0 <= k < n => row(k + 1))
  }

  /** `for i in range(1, n + 1): data.append(row(i))`. */
  method Tabulate<R>(n: nat, row: nat -> R) returns (rows: seq<R>)
    ensures rows == Rows(n, row)
  {
    rows := [];
    var i := 1;
    while i <= n
      invariant 1 <= i <= n + 1
      invariant rows == Rows(i - 1, row)
    {
      rows := rows + [row(i)];
      assert rows == Rows(i, row);
      i := i + 1;
    }
  }

  /** The inputs of one run of `create_sample_data`: the draws for row `i` of each table. */
  datatype Draws = Draws(customer: nat -> Place, product: nat -> ProductPick, seller: nat -> Place,
                         order: nat -> OrderPick, counts: nat -> ItemCount, item: (nat, nat) -> ItemDraw,
                         payment: nat -> PaymentDraw, review: nat -> ReviewPick)

  datatype SampleData = SampleData(categories: seq<(string, string)>, customers: seq<Customer>,
                                   products: seq<Product>, sellers: seq<Seller>, orders: seq<Order>,
                                   items: seq<OrderItem>, payments: seq<Payment>, reviews: seq<Review>)

  function CustomerOf(d: Draws): nat -> Customer
  {
    (i: nat) => CustomerRow(i, d.customer(i))
  }

  function ProductOf(d: Draws): nat -> Product
  {
    (i: nat) => ProductRow(i, d.product(i))
  }

  function SellerOf(d: Draws): nat -> Seller
  {
    (i: nat) => SellerRow(i, d.seller(i))
  }

  function OrderOf(d: Draws): nat -> Order
  {
    (i: nat) => OrderRow(i, d.order(i))
  }

  function PaymentOf(d: Draws): nat -> Payment
  {
    (i: nat) => PaymentRow(i, d.payment(i))
  }

  function ReviewOf(d: Draws): nat -> Review
  {
    (i: nat) => ReviewRow(i, d.review(i))
  }

  function Customers(d: Draws): seq<Customer>
  {
    Rows(500, CustomerOf(d))
  }

  function Products(d: Draws): seq<Product>
  {
    Rows(200, ProductOf(d))
  }

  function Sellers(d: Draws): seq<Seller>
  {
    Rows(50, SellerOf(d))
  }

  function Orders(d: Draws): seq<Order>
  {
    Rows(1000, OrderOf(d))
  }

  function Payments(d: Draws): seq<Payment>
  {
    Rows(1000, PaymentOf(d))
  }

  function Reviews(d: Draws): seq<Review>
  {
    Rows(800, ReviewOf(d))
  }

  /** The tables of one run, given its draws. */
  function Sample(d: Draws): SampleData
  {
    SampleData(Categories, Customers(d), Products(d), Sellers(d), Orders(d),
               ItemRows(OrderItems.Orders, d.counts, d.item), Payments(d), Reviews(d))
  }

  /**
   * `create_sample_data`: the categories, 500 customers, 200 products, 50
   * sellers, 1000 orders, the order items, 1000 payments and 800 reviews.
   */
  method CreateSampleData(d: Draws) returns (data: SampleData)
    ensures data == Sample(d)
  {
    var customers := Tabulate(500, CustomerOf(d));
    var products := Tabulate(200, ProductOf(d));
    var sellers := Tabulate(50, SellerOf(d));
    var orders := Tabulate(1000, OrderOf(d));
    var items, _ := GenerateOrderItems(d.counts, d.item);
    var payments := Tabulate(1000, PaymentOf(d));
    var reviews := Tabulate(800, ReviewOf(d));
    data := SampleData(Categories, customers, products, sellers, orders, items, payments, reviews);
  }

  /** Row `k` (from 0) of each table is the row built for `i = k + 1`. */
  lemma RowAt(d: Draws, k: nat)
    ensures k < 500 ==> Customers(d)[k] == CustomerRow(k + 1, d.customer(k + 1))
    ensures k < 200 ==> Products(d)[k] == ProductRow(k + 1, d.product(k + 1))
    ensures k < 50 ==> Sellers(d)[k] == SellerRow(k + 1, d.seller(k + 1))
    ensures k < 1000 ==> Orders(d)[k] == OrderRow(k + 1, d.order(k + 1))
    ensures k < 1000 ==> Payments(d)[k] == PaymentRow(k + 1, d.payment(k + 1))
    ensures k < 800 ==> Reviews(d)[k] == ReviewRow(k + 1, d.review(k + 1))
  {
  }

  /** The keys of row `k` (from 0): only the ids, none of the drawn fields. */
  lemma KeysAt(d: Draws, k: nat)
    ensures k < 500 ==> Customers(d)[k].id == Ident("c", k + 1)
    ensures k < 1000 ==> Orders(d)[k].id == Ident("o", k + 1)
    ensures k < 1000 ==> Payments(d)[k].orderId == Ident("o", k + 1) && Payments(d)[k].sequential == 1
    ensures k < 800 ==> Reviews(d)[k].id == Ident("r", k + 1) && Reviews(d)[k].orderId == Ident("o", k + 1)
  {
    RowAt(d, k);
  }

  /** The customer ids c1..c500 are distinct: the primary key of `customers` holds. */
  lemma CustomerKeysUnique(d: Draws)
    ensures forall a, b :: 0 <= a < b < |Customers(d)| ==> Customers(d)[a].id != Customers(d)[b].id
  {
    forall a, b | 0 <= a < b < 500
      ensures Customers(d)[a].id != Customers(d)[b].id
    {
      KeysAt(d, a);
      KeysAt(d, b);
      if Customers(d)[a].id == Customers(d)[b].id {
        IdentInjective("c", a + 1, b + 1);
      }
    }
  }

  /** The primary keys of the generated customers, products and sellers, in row order. */
  function CustomerKeys(d: Draws): seq<string>
  {
    seq(|Customers(d)|, t requires 0 <= t < |Customers(d)| => Customers(d)[t].id)
  }

  function ProductKeys(d: Draws): seq<string>
  {
    seq(|Products(d)|, t requires 0 <= t < |Products(d)| => Products(d)[t].id)
  }

  function SellerKeys(d: Draws): seq<string>
  {
    seq(|Sellers(d)|, t requires 0 <= t < |Sellers(d)| => Sellers(d)[t].id)
  }

  /** Every order's customer is a generated customer. */
  lemma OrderCustomersExist(d: Draws)
    ensures forall k :: 0 <= k < |Orders(d)| ==> Orders(d)[k].customerId in CustomerKeys(d)
  {
    forall k | 0 <= k < |Orders(d)|
      ensures Orders(d)[k].customerId in CustomerKeys(d)
    {
      var t := d.order(k + 1).customer;
      RowAt(d, k);
      RowAt(d, t);
      assert CustomerKeys(d)[t] == Orders(d)[k].customerId;
    }
  }

  /**
   * `order_payments` has one row per order: row `k` pays order `o{k+1}` with
   * `payment_sequential` 1, and no two rows share `(order_id, payment_sequential)`.
   */
  lemma PaymentsPerOrder(d: Draws)
    ensures |Payments(d)| == |Orders(d)| == 1000
    ensures forall k :: 0 <= k < 1000 ==>
      Payments(d)[k].orderId == Orders(d)[k].id == Ident("o", k + 1) && Payments(d)[k].sequential == 1
    ensures forall a, b :: 0 <= a < b < 1000 ==> Payments(d)[a].orderId != Payments(d)[b].orderId
  {
    forall k | 0 <= k < 1000
      ensures Payments(d)[k].orderId == Orders(d)[k].id == Ident("o", k + 1) && Payments(d)[k].sequential == 1
    {
      KeysAt(d, k);
    }
    forall a, b | 0 <= a < b < 1000
      ensures Payments(d)[a].orderId != Payments(d)[b].orderId
    {
      KeysAt(d, a);
      KeysAt(d, b);
      if Payments(d)[a].orderId == Payments(d)[b].orderId {
        IdentInjective("o", a + 1, b + 1);
      }
    }
  }

  /**
   * Review `r{k+1}` is about order `o{k+1}`: the reviews map one-to-one onto
   * the first 800 orders, which all exist.
   */
  lemma ReviewsOntoOrders(d: Draws)
    ensures |Reviews(d)| == 800
    ensures forall k :: 0 <= k < 800 ==>
      Reviews(d)[k].id == Ident("r", k + 1) && Reviews(d)[k].orderId == Orders(d)[k].id
    ensures forall a, b :: 0 <= a < b < 800 ==>
      Reviews(d)[a].id != Reviews(d)[b].id && Reviews(d)[a].orderId != Reviews(d)[b].orderId
  {
    forall k | 0 <= k < 800
      ensures Reviews(d)[k].id == Ident("r", k + 1) && Reviews(d)[k].orderId == Orders(d)[k].id
    {
      KeysAt(d, k);
    }
    forall a, b | 0 <= a < b < 800
      ensures Reviews(d)[a].id != Reviews(d)[b].id && Reviews(d)[a].orderId != Reviews(d)[b].orderId
    {
      KeysAt(d, a);
      KeysAt(d, b);
      if Reviews(d)[a].id == Reviews(d)[b].id {
        IdentInjective("r", a + 1, b + 1);
      }
    }
  }

  /** Every order item refers to a generated product and a generated seller. */
  lemma ItemsReferToProductsAndSellers(d: Draws)
    ensures forall r :: r in ItemRows(OrderItems.Orders, d.counts, d.item) ==>
      r.productId in ProductKeys(d) && r.sellerId in SellerKeys(d)
  {
    ItemReferences(OrderItems.Orders, d.counts, d.item);
    forall r | r in ItemRows(OrderItems.Orders, d.counts, d.item)
      ensures r.productId in ProductKeys(d) && r.sellerId in SellerKeys(d)
    {
      var p :| 1 <= p <= 200 && r.productId == Ident("p", p);
      var s :| 1 <= s <= 50 && r.sellerId == Ident("s", s);
      ProductKeyAt(d, p);
      SellerKeyAt(d, s);
    }
  }

  /** Product `p{i}` is generated for every `1 <= i <= 200`. */
  lemma ProductKeyAt(d: Draws, i: nat)
    requires 1 <= i <= 200
    ensures Ident("p", i) in ProductKeys(d)
  {
    RowAt(d, i - 1);
    assert ProductKeys(d)[i - 1] == Ident("p", i);
  }

  /** Seller `s{i}` is generated for every `1 <= i <= 50`. */
  lemma SellerKeyAt(d: Draws, i: nat)
    requires 1 <= i <= 50
    ensures Ident("s", i) in SellerKeys(d)
  {
    RowAt(d, i - 1);
    assert SellerKeys(d)[i - 1] == Ident("s", i);
  }

  /** Every product's category is one of the translated categories. */
  lemma ProductCategoriesExist(d: Draws)
    ensures forall t :: 0 <= t < |Categories| ==> Categories[t].0 == SampleTables.CategoryNames[t]
    ensures forall k :: 0 <= k < |Products(d)| ==> Products(d)[k].category in SampleTables.CategoryNames
  {
    forall k | 0 <= k < |Products(d)|
      ensures Products(d)[k].category in SampleTables.CategoryNames
    {
      RowAt(d, k);
    }
  }
}
