/**
 * The sample dataset of data_loader.py, `create_sample_data`: nine tables,
 * each a dict of column lists handed to `pd.DataFrame` and written to the CSV
 * file the dataset check looks for. Most columns are list literals, `xs * n`
 * repetitions and id comprehensions; the random columns (payment values,
 * review comments, the order items) are built from draws given as inputs.
 * Writing the CSV files is not modelled.
 */
module SampleTables {
  import opened Text
  import opened OrderItems
  import DataFiles

  /** Python's `xs * n`: position `i` cycles through `xs`. */
  function Times<T>(xs: seq<T>, n: nat): seq<T>
  {
    if xs == [] then [] else seq(|xs| * n, i requires 0 <= i < |xs| * n => xs[i % |xs|])
  }

  /** `[v] * n` holds `v` at every one of its `n` positions. */
  lemma TimesOne<T>(v: T, n: nat)
    ensures |Times([v], n)| == n
    ensures forall i :: 0 <= i < n ==> Times([v], n)[i] == v
  {
  }

  /** `[f'{prefix}{i}' for i in range(1, n + 1)]`. */
  function Ids(prefix: string, n: nat): seq<string>
  {
    seq(n, k requires 0 <= k < n => Ident(prefix, k + 1))
  }

  /** `list(range(lo, hi))`, empty when `hi <= lo`. */
  function IntRange(lo: int, hi: int): seq<int>
  {
    seq(if lo <= hi then hi - lo else 0, k => lo + k)
  }

  /** The column lists of a dict: strings, integers or numbers with a fraction. */
  datatype Column = Texts(texts: seq<string>) | Ints(ints: seq<int>) | Reals(reals: seq<real>)

  function Height(c: Column): nat
  {
    match c
    case Texts(xs) => |xs|
    case Ints(xs) => |xs|
    case Reals(xs) => |xs|
  }

  /** A dict of column lists: the column names and, position by position, their lists. */
  datatype Table = Table(names: seq<string>, columns: seq<Column>)

  /**
   * `pd.DataFrame(data)` accepts a dict of lists only when all lists have the
   * same length, which is then the number of rows.
   */
  predicate HasRows(t: Table, n: nat)
  {
    |t.names| == |t.columns| && forall k :: 0 <= k < |t.columns| ==> Height(t.columns[k]) == n
  }

  const Cities: seq<string> := ["São Paulo", "Rio de Janeiro", "Brasília", "Salvador", "Fortaleza"]
  const States: seq<string> := ["SP", "RJ", "DF", "BA", "CE"]
  const CategoryNames: seq<string> := ["eletrônicos", "roupas", "casa", "livros", "esportes"]
  const CategoryNamesEnglish: seq<string> := ["electronics", "clothing", "home", "books", "sports"]

  /** `review_comments`, the same ten in every sample-data builder. */
  const ReviewComments: seq<string> := [
    "Produto excelente, entrega rápida",
    "Qualidade muito boa, recomendo",
    "Chegou no prazo, produto conforme descrição",
    "Gostei muito da compra",
    "Produto de qualidade, vendedor confiável",
    "Entrega demorou mas produto é bom",
    "Não gostei do produto",
    "Produto veio com defeito",
    "Entrega muito lenta",
    "Produto não confere com a descrição"
  ]

  /** `random.choice(review_comments)`: the position drawn. */
  type CommentChoice = k: nat | k < 10

  // ----- customers

  const CustomerIds: seq<string> := Times(["c1", "c2", "c3", "c4", "c5"], 100)

  const Customers: Table := Table(
    ["customer_id", "customer_unique_id", "customer_zip_code_prefix", "customer_city", "customer_state"],
    [Texts(CustomerIds),
     Texts(Times(["cu1", "cu2", "cu3", "cu4", "cu5"], 100)),
     Ints(Times([12345, 23456, 34567, 45678, 56789], 100)),
     Texts(Times(Cities, 100)),
     Texts(Times(States, 100))])

  lemma CustomersShape()
    ensures HasRows(Customers, 500)
  {
  }

  // ----- categories and products

  const Categories: Table := Table(
    ["product_category_name", "product_category_name_english"],
    [Texts(CategoryNames), Texts(CategoryNamesEnglish)])

  lemma CategoriesShape()
    ensures HasRows(Categories, 5)
  {
  }

  /** `['eletrônicos'] * 40 + ['roupas'] * 40 + ['casa'] * 40 + ['livros'] * 40 + ['esportes'] * 40`. */
  const ProductCategories: seq<string> :=
    Times(["eletrônicos"], 40) + Times(["roupas"], 40) + Times(["casa"], 40) +
    Times(["livros"], 40) + Times(["esportes"], 40)

  const Products: Table := Table(
    ["product_id", "product_category_name", "product_name_lenght", "product_description_lenght",
     "product_photos_qty", "product_weight_g", "product_length_cm", "product_height_cm", "product_width_cm"],
    [Texts(Ids("p", 200)),
     Texts(ProductCategories),
     Ints(Times([50, 45, 60, 35, 55], 40)),
     Ints(Times([200, 180, 220, 150, 190], 40)),
     Ints(Times([3, 2, 4, 1, 3], 40)),
     Ints(Times([500, 300, 800, 200, 600], 40)),
     Ints(Times([20, 15, 25, 10, 22], 40)),
     Ints(Times([10, 8, 12, 5, 11], 40)),
     Ints(Times([15, 12, 18, 8, 16], 40))])

  lemma ProductsShape()
    ensures HasRows(Products, 200)
  {
  }

  /**
   * The category blocks fill the 200 products: product `k` (from 0) is in the
   * `k / 40`-th category, so every product's category is a row of the
   * translation table.
   */
  lemma ProductCategoryBlocks()
    ensures |ProductCategories| == 200
    ensures forall k :: 0 <= k < 200 ==> ProductCategories[k] == CategoryNames[k / 40]
  {
    var a := Times(["eletrônicos"], 40);
    var b := Times(["roupas"], 40);
    var c := Times(["casa"], 40);
    var d := Times(["livros"], 40);
    var e := Times(["esportes"], 40);
    TimesOne("eletrônicos", 40);
    TimesOne("roupas", 40);
    TimesOne("casa", 40);
    TimesOne("livros", 40);
    TimesOne("esportes", 40);
    forall k | 0 <= k < 200
      ensures ProductCategories[k] == CategoryNames[k / 40]
    {
      if k < 40 {
        assert ProductCategories[k] == a[k];
      } else if k < 80 {
        assert ProductCategories[k] == b[k - 40];
      } else if k < 120 {
        assert ProductCategories[k] == c[k - 80];
      } else if k < 160 {
        assert ProductCategories[k] == d[k - 120];
      } else {
        assert ProductCategories[k] == e[k - 160];
      }
    }
  }

  // ----- sellers

  const Sellers: Table := Table(
    ["seller_id", "seller_zip_code_prefix", "seller_city", "seller_state"],
    [Texts(Ids("s", 50)),
     Ints(IntRange(10000, 10050)),
     Texts(Times(Cities, 10)),
     Texts(Times(States, 10))])

  lemma SellersShape()
    ensures HasRows(Sellers, 50)
  {
  }

  // ----- orders

  /** `['delivered'] * 800 + ['shipped'] * 100 + ['processing'] * 100`. */
  const OrderStatus: seq<string> := Times(["delivered"], 800) + Times(["shipped"], 100) + Times(["processing"], 100)

  const OrderCustomers: seq<string> := Times(["c1", "c2", "c3", "c4", "c5"], 200)

  const Orders: Table := Table(
    ["order_id", "customer_id", "order_status", "order_purchase_timestamp", "order_approved_at",
     "order_delivered_carrier_date", "order_delivered_customer_date", "order_estimated_delivery_date"],
    [Texts(Ids("o", 1000)),
     Texts(OrderCustomers),
     Texts(OrderStatus),
     Texts(Times(["2018-01-01 10:00:00"], 1000)),
     Texts(Times(["2018-01-01 11:00:00"], 1000)),
     Texts(Times(["2018-01-02 09:00:00"], 1000)),
     Texts(Times(["2018-01-05 14:00:00"], 1000)),
     Texts(Times(["2018-01-10 23:59:59"], 1000))])

  lemma OrdersShape()
    ensures HasRows(Orders, 1000)
  {
  }

  /** Orders 1..800 are delivered, 801..900 shipped and 901..1000 processing. */
  lemma OrderStatusBlocks()
    ensures |OrderStatus| == 1000
    ensures forall k :: 0 <= k < 800 ==> OrderStatus[k] == "delivered"
    ensures forall k :: 800 <= k < 900 ==> OrderStatus[k] == "shipped"
    ensures forall k :: 900 <= k < 1000 ==> OrderStatus[k] == "processing"
  {
    var a := Times(["delivered"], 800);
    var b := Times(["shipped"], 100);
    var c := Times(["processing"], 100);
    TimesOne("delivered", 800);
    TimesOne("shipped", 100);
    TimesOne("processing", 100);
    forall k | 800 <= k < 900
      ensures OrderStatus[k] == "shipped"
    {
      assert OrderStatus[k] == b[k - 800];
    }
    forall k | 900 <= k < 1000
      ensures OrderStatus[k] == "processing"
    {
      assert OrderStatus[k] == c[k - 900];
    }
  }

  /** Every order's customer is one of the sample customers. */
  lemma OrderCustomersExist()
    ensures forall k :: 0 <= k < |OrderCustomers| ==> OrderCustomers[k] in CustomerIds
  {
    var ids := ["c1", "c2", "c3", "c4", "c5"];
    forall k | 0 <= k < |OrderCustomers|
      ensures OrderCustomers[k] in CustomerIds
    {
      assert CustomerIds[k % 5] == OrderCustomers[k];
    }
  }

  // ----- order items

  /** The shipping limit every data-loader item gets. */
  const ShippingDate: string := "2018-01-03 23:59:59"

  /** The draws of the data-loader loop, whose shipping limit is the fixed date. */
  function FixedShipping(draw: (nat, nat) -> ItemDraw): (nat, nat) -> ItemDraw
  {
    (i: nat, j: nat) => draw(i, j).(shipping := ShippingDate)
  }

  /** The seven lists of `order_items_data`. */
  datatype ItemColumns = ItemColumns(orderId: seq<string>, itemId: seq<nat>, productId: seq<string>,
                                     sellerId: seq<string>, shippingLimit: seq<string>,
                                     price: seq<real>, freight: seq<real>)

  /** The columns of a list of rows, appended row by row. */
  function Columns(rows: seq<OrderItem>): (c: ItemColumns)
    ensures |c.orderId| == |c.itemId| == |c.productId| == |c.sellerId| == |rows|
    ensures |c.shippingLimit| == |c.price| == |c.freight| == |rows|
  {
    if rows == [] then ItemColumns([], [], [], [], [], [], [])
    else
      var c := Columns(rows[..|rows| - 1]);
      var r := rows[|rows| - 1];
      ItemColumns(c.orderId + [r.orderId], c.itemId + [r.itemId], c.productId + [r.productId],
                  c.sellerId + [r.sellerId], c.shippingLimit + [r.shippingLimit],
                  c.price + [r.price], c.freight + [r.freight])
  }

  /** Position `k` of every column holds the field of row `k`: the columns transpose the rows. */
  lemma {:induction false} ColumnsAt(rows: seq<OrderItem>, k: nat)
    requires k < |rows|
    ensures var c := Columns(rows);
      c.orderId[k] == rows[k].orderId && c.itemId[k] == rows[k].itemId &&
      c.productId[k] == rows[k].productId && c.sellerId[k] == rows[k].sellerId &&
      c.shippingLimit[k] == rows[k].shippingLimit && c.price[k] == rows[k].price && c.freight[k] == rows[k].freight
  {
    var init := rows[..|rows| - 1];
    if k < |rows| - 1 {
      ColumnsAt(init, k);
    }
  }

  /** One more row appends its fields to the seven columns. */
  lemma ColumnsSnoc(rows: seq<OrderItem>, r: OrderItem)
    ensures var c := Columns(rows);
      Columns(rows + [r]) ==
        ItemColumns(c.orderId + [r.orderId], c.itemId + [r.itemId], c.productId + [r.productId],
                    c.sellerId + [r.sellerId], c.shippingLimit + [r.shippingLimit],
                    c.price + [r.price], c.freight + [r.freight])
  {
    assert (rows + [r])[..|rows|] == rows;
  }

  lemma TakeSnoc<T>(s: seq<T>, j: nat)
    requires 0 < j <= |s|
    ensures s[..j] == s[..j - 1] + [s[j - 1]]
  {
  }

  /** The row the data-loader loop appends for item `j` of order `i`. */
  lemma FixedItem(draw: (nat, nat) -> ItemDraw, i: nat, j: nat)
    ensures var d := draw(i, j);
      Item(i, j, FixedShipping(draw)(i, j)) ==
        OrderItem(Ident("o", i), j, Ident("p", d.product), Ident("s", d.seller), ShippingDate, d.price, d.freight)
  {
  }

  /**
   * The nested loop of `create_sample_data` that fills `order_items_data`:
   * every pass of the inner loop appends one value to each of the seven lists.
   */
  method GenerateItemColumns(counts: nat -> ItemCount, draw: (nat, nat) -> ItemDraw) returns (cols: ItemColumns)
    ensures cols == Columns(ItemRows(OrderItems.Orders, counts, FixedShipping(draw)))
  {
    cols := ItemColumns([], [], [], [], [], [], []);
    var i := 1;
    while i <= OrderItems.Orders
      invariant 1 <= i <= OrderItems.Orders + 1
      invariant cols == Columns(ItemRows(i - 1, counts, FixedShipping(draw)))
    {
      cols := AppendOrderItems(cols, ItemRows(i - 1, counts, FixedShipping(draw)), i, counts(i), draw);
      i := i + 1;
    }
    assert i - 1 == OrderItems.Orders;
  }

  /** The inner loop for order `i`: items 1..items_count are appended to the seven lists. */
  method AppendOrderItems(cols: ItemColumns, ghost rows: seq<OrderItem>, i: nat, itemsCount: nat,
                          draw: (nat, nat) -> ItemDraw) returns (next: ItemColumns)
    requires cols == Columns(rows)
    ensures next == Columns(rows + OrderBlock(i, itemsCount, FixedShipping(draw)))
  {
    ghost var block := OrderBlock(i, itemsCount, FixedShipping(draw));
    ghost var done := rows;
    next := cols;
    var j: nat := 1;
    while j <= itemsCount
      invariant 1 <= j <= itemsCount + 1
      invariant done == rows + block[..j - 1]
      invariant next == Columns(done)
    {
      var d := draw(i, j);
      ghost var item := block[j - 1];
      TakeSnoc(block, j);
      FixedItem(draw, i, j);
      ColumnsSnoc(done, item);
      next := ItemColumns(next.orderId + [Ident("o", i)], next.itemId + [j],
                          next.productId + [Ident("p", d.product)], next.sellerId + [Ident("s", d.seller)],
                          next.shippingLimit + [ShippingDate], next.price + [d.price], next.freight + [d.freight]);
      done := done + [item];
      j := j + 1;
    }
    assert block[..j - 1] == block;
  }

  /**
   * The data-loader items of orders 1..n (the loop runs n = 1000): order `i`
   * has item ids exactly 1..counts(i).
   */
  lemma ItemColumnsKeys(n: nat, counts: nat -> ItemCount, draw: (nat, nat) -> ItemDraw, i: nat, j: nat)
    ensures var c := Columns(ItemRows(n, counts, FixedShipping(draw)));
      (exists k :: 0 <= k < |c.orderId| && c.orderId[k] == Ident("o", i) && c.itemId[k] == j) <==>
        1 <= i <= n && 1 <= j <= counts(i)
  {
    var rows := ItemRows(n, counts, FixedShipping(draw));
    var c := Columns(rows);
    ItemKeysExact(n, counts, FixedShipping(draw), i, j);
    if exists k :: 0 <= k < |c.orderId| && c.orderId[k] == Ident("o", i) && c.itemId[k] == j {
      var k :| 0 <= k < |c.orderId| && c.orderId[k] == Ident("o", i) && c.itemId[k] == j;
      ColumnsAt(rows, k);
      assert Keys(rows)[k] == (Ident("o", i), j);
    }
    if 1 <= i <= n && 1 <= j <= counts(i) {
      var k :| 0 <= k < |rows| && Keys(rows)[k] == (Ident("o", i), j);
      ColumnsAt(rows, k);
      assert c.orderId[k] == Ident("o", i) && c.itemId[k] == j;
    }
  }

  /** The seven lists have one entry per insert, and every shipping limit is the fixed date. */
  lemma ItemColumnsShipping(n: nat, counts: nat -> ItemCount, draw: (nat, nat) -> ItemDraw)
    ensures var c := Columns(ItemRows(n, counts, FixedShipping(draw)));
      |c.orderId| == TotalItems(n, counts) &&
      forall k :: 0 <= k < |c.shippingLimit| ==> c.shippingLimit[k] == ShippingDate
  {
    var rows := ItemRows(n, counts, FixedShipping(draw));
    var c := Columns(rows);
    ItemRowsLength(n, counts, FixedShipping(draw));
    ItemRowsShipping(n, counts, FixedShipping(draw), ShippingDate);
    forall k | 0 <= k < |c.shippingLimit|
      ensures c.shippingLimit[k] == ShippingDate
    {
      ColumnsAt(rows, k);
      assert rows[k] in rows;
    }
  }

  /** When every draw has the same shipping limit, so has every row. */
  lemma {:induction false} ItemRowsShipping(n: nat, counts: nat -> ItemCount, draw: (nat, nat) -> ItemDraw, s: string)
    requires forall i, j :: draw(i, j).shipping == s
    ensures forall r :: r in ItemRows(n, counts, draw) ==> r.shippingLimit == s
  {
    if n > 0 {
      ItemRowsShipping(n - 1, counts, draw, s);
    }
  }

  function ItemsTable(cols: ItemColumns): Table
  {
    Table(["order_id", "order_item_id", "product_id", "seller_id", "shipping_limit_date", "price", "freight_value"],
          [Texts(cols.orderId), Ints(cols.itemId),
           Texts(cols.productId), Texts(cols.sellerId), Texts(cols.shippingLimit),
           Reals(cols.price), Reals(cols.freight)])
  }

  /** The item lists of orders 1..n make a frame with one row per generated item, between n and 5n of them. */
  lemma ItemsTableShape(n: nat, counts: nat -> ItemCount, draw: (nat, nat) -> ItemDraw)
    ensures var t := ItemsTable(Columns(ItemRows(n, counts, FixedShipping(draw))));
      HasRows(t, TotalItems(n, counts)) && n <= TotalItems(n, counts) <= 5 * n
  {
    ItemRowsLength(n, counts, FixedShipping(draw));
    ItemsTableRows(Columns(ItemRows(n, counts, FixedShipping(draw))));
  }

  /** Seven lists of one length make a frame with that many rows. */
  lemma ItemsTableRows(cols: ItemColumns)
    requires |cols.orderId| == |cols.itemId| == |cols.productId| == |cols.sellerId|
    requires |cols.orderId| == |cols.shippingLimit| == |cols.price| == |cols.freight|
    ensures HasRows(ItemsTable(cols), |cols.orderId|)
  {
  }

  // ----- payments

  /** `payment_type`: 600 credit card, 300 boleto, 100 debit card. */
  const PaymentTypes: seq<string> := Times(["credit_card"], 600) + Times(["boleto"], 300) + Times(["debit_card"], 100)

  /** `payment_installments`: 500 of 1, 200 of 2, 150 of 3, 100 of 6 and 50 of 12. */
  const Installments: seq<int> := Times([1], 500) + Times([2], 200) + Times([3], 150) + Times([6], 100) + Times([12], 50)

  /** The payments frame; `values(k)` is the k-th `round(random.uniform(20, 1000), 2)`. */
  function Payments(values: nat -> real): Table
  {
    Table(["order_id", "payment_sequential", "payment_type", "payment_installments", "payment_value"],
          [Texts(Ids("o", 1000)), Ints(Times([1], 1000)), Texts(PaymentTypes), Ints(Installments),
           Reals(seq(1000, k requires 0 <= k < 1000 => values(k)))])
  }

  lemma PaymentsShape(values: nat -> real)
    ensures HasRows(Payments(values), 1000)
  {
  }

  /** Payment `k` (from 0) is of type credit card below 600, boleto below 900, debit card above. */
  lemma PaymentTypeBlocks()
    ensures |PaymentTypes| == 1000
    ensures forall k :: 0 <= k < 600 ==> PaymentTypes[k] == "credit_card"
    ensures forall k :: 600 <= k < 900 ==> PaymentTypes[k] == "boleto"
    ensures forall k :: 900 <= k < 1000 ==> PaymentTypes[k] == "debit_card"
  {
    var b := Times(["boleto"], 300);
    var c := Times(["debit_card"], 100);
    TimesOne("credit_card", 600);
    TimesOne("boleto", 300);
    TimesOne("debit_card", 100);
    forall k | 600 <= k < 900
      ensures PaymentTypes[k] == "boleto"
    {
      assert PaymentTypes[k] == b[k - 600];
    }
    forall k | 900 <= k < 1000
      ensures PaymentTypes[k] == "debit_card"
    {
      assert PaymentTypes[k] == c[k - 900];
    }
  }

  /** The installment blocks: 1 below 500, 2 below 700, 3 below 850, 6 below 950, 12 up to 1000. */
  lemma InstallmentBlocks()
    ensures |Installments| == 1000
    ensures forall k :: 0 <= k < 1000 ==>
      Installments[k] == if k < 500 then 1 else if k < 700 then 2 else if k < 850 then 3 else if k < 950 then 6 else 12
  {
    var a := Times([1], 500);
    var b := Times([2], 200);
    var c := Times([3], 150);
    var d := Times([6], 100);
    var e := Times([12], 50);
    TimesOne(1, 500);
    TimesOne(2, 200);
    TimesOne(3, 150);
    TimesOne(6, 100);
    TimesOne(12, 50);
    forall k | 0 <= k < 1000
      ensures Installments[k] == if k < 500 then 1 else if k < 700 then 2 else if k < 850 then 3 else if k < 950 then 6 else 12
    {
      if k < 500 {
        assert Installments[k] == a[k];
      } else if k < 700 {
        assert Installments[k] == b[k - 500];
      } else if k < 850 {
        assert Installments[k] == c[k - 700];
      } else if k < 950 {
        assert Installments[k] == d[k - 850];
      } else {
        assert Installments[k] == e[k - 950];
      }
    }
  }

  // ----- reviews

  /** `review_score`: 400 of 5, 200 of 4, 100 of 3, 50 of 2 and 50 of 1. */
  const ReviewScores: seq<int> := Times([5], 400) + Times([4], 200) + Times([3], 100) + Times([2], 50) + Times([1], 50)

  /** The reviews frame; `pick(k)` is the comment drawn for the k-th review. */
  function Reviews(pick: nat -> CommentChoice): Table
  {
    Table(["review_id", "order_id", "review_score", "review_comment_title", "review_comment_message",
           "review_creation_date", "review_answer_timestamp"],
          [Texts(Ids("r", 800)), Texts(Ids("o", 800)), Ints(ReviewScores), Texts(Times(["Avaliação"], 800)),
           Texts(seq(800, k requires 0 <= k < 800 => ReviewComments[pick(k)])),
           Texts(Times(["2018-01-06 10:00:00"], 800)), Texts(Times(["2018-01-07 09:00:00"], 800))])
  }

  lemma ReviewsShape(pick: nat -> CommentChoice)
    ensures HasRows(Reviews(pick), 800)
  {
  }

  /** Review `k` (from 0) scores 5 below 400, 4 below 600, 3 below 700, 2 below 750 and 1 up to 800. */
  lemma ReviewScoreBlocks()
    ensures |ReviewScores| == 800
    ensures forall k :: 0 <= k < 800 ==>
      ReviewScores[k] == if k < 400 then 5 else if k < 600 then 4 else if k < 700 then 3 else if k < 750 then 2 else 1
  {
    var a := Times([5], 400);
    var b := Times([4], 200);
    var c := Times([3], 100);
    var d := Times([2], 50);
    var e := Times([1], 50);
    TimesOne(5, 400);
    TimesOne(4, 200);
    TimesOne(3, 100);
    TimesOne(2, 50);
    TimesOne(1, 50);
    forall k | 0 <= k < 800
      ensures ReviewScores[k] == if k < 400 then 5 else if k < 600 then 4 else if k < 700 then 3 else if k < 750 then 2 else 1
    {
      if k < 400 {
        assert ReviewScores[k] == a[k];
      } else if k < 600 {
        assert ReviewScores[k] == b[k - 400];
      } else if k < 700 {
        assert ReviewScores[k] == c[k - 600];
      } else if k < 750 {
        assert ReviewScores[k] == d[k - 700];
      } else {
        assert ReviewScores[k] == e[k - 750];
      }
    }
  }

  /** The orders reviewed, o1..o800, are the first 800 orders: each review's order exists. */
  lemma ReviewOrdersArePrefix()
    ensures Ids("o", 800) == Ids("o", 1000)[..800]
    ensures forall k :: 0 <= k < 800 ==> Ids("o", 800)[k] in Ids("o", 1000)
  {
    assert forall k :: 0 <= k < 800 ==> Ids("o", 1000)[k] == Ids("o", 800)[k];
  }

  // ----- geolocation

  const Geolocation: Table := Table(
    ["geolocation_zip_code_prefix", "geolocation_lat", "geolocation_lng", "geolocation_city", "geolocation_state"],
    [Ints(IntRange(10000, 10100)), Reals(Times([-23.5489], 100)), Reals(Times([-46.6388], 100)),
     Texts(Times(["São Paulo"], 100)), Texts(Times(["SP"], 100))])

  lemma GeolocationShape()
    ensures HasRows(Geolocation, 100)
  {
  }

  // ----- the files written

  /** `datasets`: the file each frame is written to. */
  function Datasets(cols: ItemColumns, values: nat -> real, pick: nat -> CommentChoice): seq<(string, Table)>
  {
    [("olist_customers_dataset.csv", Customers),
     ("product_category_name_translation.csv", Categories),
     ("olist_products_dataset.csv", Products),
     ("olist_sellers_dataset.csv", Sellers),
     ("olist_orders_dataset.csv", Orders),
     ("olist_order_items_dataset.csv", ItemsTable(cols)),
     ("olist_order_payments_dataset.csv", Payments(values)),
     ("olist_order_reviews_dataset.csv", Reviews(pick)),
     ("olist_geolocation_dataset.csv", Geolocation)]
  }

  /** The sample data writes exactly the nine files the dataset check requires, each once. */
  lemma SampleFilesAreRequired(cols: ItemColumns, values: nat -> real, pick: nat -> CommentChoice)
    ensures var ds := Datasets(cols, values, pick);
      |ds| == |DataFiles.RequiredFiles| && forall k :: 0 <= k < |ds| ==> ds[k].0 in DataFiles.RequiredFiles
    ensures var ds := Datasets(cols, values, pick);
      forall f :: f in DataFiles.RequiredFiles ==> exists k :: 0 <= k < |ds| && ds[k].0 == f
  {
    var ds := Datasets(cols, values, pick);
    assert DataFiles.RequiredFiles == [ds[0].0, ds[4].0, ds[5].0, ds[6].0, ds[7].0, ds[2].0, ds[3].0, ds[1].0, ds[8].0];
    forall f | f in DataFiles.RequiredFiles
      ensures exists k :: 0 <= k < |ds| && ds[k].0 == f
    {
      var p :| 0 <= p < 9 && DataFiles.RequiredFiles[p] == f;
      var k := [0, 4, 5, 6, 7, 2, 3, 1, 8][p];
      assert ds[k].0 == f;
    }
  }
}
