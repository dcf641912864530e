/**
 * The order-item generator shared by the three sample-data builders
 * (data_loader.py, `create_sample_data`; sqlite_performance_tester.py and
 * docker_performance_tester.py, `create_sample_data`): for each order `i`
 * a random `items_count` in 1..5 is drawn, and the order gets items 1..items_count,
 * each with a drawn product p1..p200 and seller s1..s50. The draws are inputs.
 */
module OrderItems {
  import opened Text
  import opened Seqs

  /** `random.randint(1, 5)`. */
  type ItemCount = k: nat | 1 <= k <= 5 witness 1
  /** The product number behind `p{...}`: `randint(1, 200)` or a choice of `product_ids`. */
  type ProductNo = k: nat | 1 <= k <= 200 witness 1
  /** The seller number behind `s{...}`: `randint(1, 50)` or a choice of `seller_ids`. */
  type SellerNo = k: nat | 1 <= k <= 50 witness 1

  /** What is drawn for item `j` of order `i`. */
  datatype ItemDraw = ItemDraw(product: ProductNo, seller: SellerNo, shipping: string, price: real, freight: real)

  /** One row of `order_items`. */
  datatype OrderItem = OrderItem(orderId: string, itemId: nat, productId: string, sellerId: string,
                                 shippingLimit: string, price: real, freight: real)

  /** Orders generated: `range(1, 1001)`. */
  const Orders: nat := 1000

  function Item(i: nat, j: nat, d: ItemDraw): OrderItem
  {
    OrderItem(Ident("o", i), j, Ident("p", d.product), Ident("s", d.seller), d.shipping, d.price, d.freight)
  }

  /** The items of order `i`: `for j in range(1, items_count + 1)`. */
  function OrderBlock(i: nat, k: nat, draw: (nat, nat) -> ItemDraw): (b: seq<OrderItem>)
    ensures |b| == k
    ensures forall t :: 0 <= t < k ==> b[t] == Item(i, t + 1, draw(i, t + 1))
  {
    seq(k, t requires 0 <= t < k => Item(i, t + 1, draw(i, t + 1)))
  }

  /** The items of orders 1..n, order by order. */
  function ItemRows(n: nat, counts: nat -> ItemCount, draw: (nat, nat) -> ItemDraw): seq<OrderItem>
  {
    if n == 0 then [] else ItemRows(n - 1, counts, draw) + OrderBlock(n, counts(n), draw)
  }

  /** The number of items of orders 1..n. */
  function TotalItems(n: nat, counts: nat -> ItemCount): nat
  {
    if n == 0 then 0 else TotalItems(n - 1, counts) + counts(n)
  }

  /** The composite key `(order_id, order_item_id)` of a row. */
  function Key(r: OrderItem): (string, nat)
  {
    (r.orderId, r.itemId)
  }

  function Keys(rows: seq<OrderItem>): seq<(string, nat)>
  {
    MapSeq(rows, Key)
  }

  /**
   * The nested loop `for i in range(1, 1001): for j in range(1, items_count + 1)`,
   * counting the inserts in `item_count` as the container variant does
   * (docker_performance_tester.py); the embedded-engine variant appends the same
   * rows to `order_items_data`.
   */
  method GenerateOrderItems(counts: nat -> ItemCount, draw: (nat, nat) -> ItemDraw)
    returns (rows: seq<OrderItem>, itemCount: nat)
    ensures rows == ItemRows(Orders, counts, draw)
    ensures itemCount == |rows|
  {
    rows := [];
    itemCount := 0;
    var i := 1;
    while i <= Orders
      invariant 1 <= i <= Orders + 1
      invariant rows == ItemRows(i - 1, counts, draw)
      invariant itemCount == |rows|
    {
      var itemsInOrder := counts(i);
      ghost var before := rows;
      var j := 1;
      while j <= itemsInOrder
        invariant 1 <= j <= itemsInOrder + 1
        invariant rows == before + OrderBlock(i, itemsInOrder, draw)[..j - 1]
        invariant itemCount == |rows|
      {
        assert OrderBlock(i, itemsInOrder, draw)[..j] == OrderBlock(i, itemsInOrder, draw)[..j - 1] + [Item(i, j, draw(i, j))];
        rows := rows + [Item(i, j, draw(i, j))];
        itemCount := itemCount + 1;
        j := j + 1;
      }
      assert OrderBlock(i, itemsInOrder, draw)[..j - 1] == OrderBlock(i, itemsInOrder, draw);
      i := i + 1;
    }
  }

  /** One row per insert: the rows number the sum of the drawn counts, between n and 5n. */
  lemma {:induction false} ItemRowsLength(n: nat, counts: nat -> ItemCount, draw: (nat, nat) -> ItemDraw)
    ensures |ItemRows(n, counts, draw)| == TotalItems(n, counts)
    ensures n <= TotalItems(n, counts) <= 5 * n
  {
    if n > 0 {
      ItemRowsLength(n - 1, counts, draw);
    }
  }

  /** The container variant's `item_count` is the total number of inserts. */
  lemma ItemCountIsTotal(counts: nat -> ItemCount, draw: (nat, nat) -> ItemDraw)
    ensures |ItemRows(Orders, counts, draw)| == TotalItems(Orders, counts)
    ensures Orders <= TotalItems(Orders, counts) <= 5 * Orders
  {
    ItemRowsLength(Orders, counts, draw);
  }

  /** The rows from position `a` on belong to orders whose number is at most `n`. */
  lemma {:induction false} ItemRowsOrders(n: nat, counts: nat -> ItemCount, draw: (nat, nat) -> ItemDraw)
    ensures forall r :: r in ItemRows(n, counts, draw) ==>
      exists i :: 1 <= i <= n && r.orderId == Ident("o", i) && 1 <= r.itemId <= counts(i)
  {
    if n > 0 {
      ItemRowsOrders(n - 1, counts, draw);
      var b := OrderBlock(n, counts(n), draw);
      forall r | r in b
        ensures exists i :: 1 <= i <= n && r.orderId == Ident("o", i) && 1 <= r.itemId <= counts(i)
      {
        var t :| 0 <= t < |b| && b[t] == r;
        assert r.orderId == Ident("o", n);
      }
    }
  }

  /**
   * Order `i` has exactly the item ids 1..items_count: a key `(o{i}, j)` is
   * generated iff `1 <= i <= n` and `1 <= j <= counts(i)`.
   */
  lemma {:induction false} ItemKeysExact(n: nat, counts: nat -> ItemCount, draw: (nat, nat) -> ItemDraw, i: nat, j: nat)
    ensures (Ident("o", i), j) in Keys(ItemRows(n, counts, draw)) <==> 1 <= i <= n && 1 <= j <= counts(i)
  {
    var rows := ItemRows(n, counts, draw);
    if (Ident("o", i), j) in Keys(rows) {
      var t :| 0 <= t < |rows| && Keys(rows)[t] == (Ident("o", i), j);
      ItemRowsOrders(n, counts, draw);
      assert rows[t] in rows;
      var i' :| 1 <= i' <= n && rows[t].orderId == Ident("o", i') && 1 <= rows[t].itemId <= counts(i');
      IdentInjective("o", i, i');
    }
    if 1 <= i <= n && 1 <= j <= counts(i) {
      KeyPresent(n, counts, draw, i, j);
      var t :| 0 <= t < |rows| && Key(rows[t]) == (Ident("o", i), j);
      assert Keys(rows)[t] == Key(rows[t]);
    }
  }

  lemma {:induction false} KeyPresent(n: nat, counts: nat -> ItemCount, draw: (nat, nat) -> ItemDraw, i: nat, j: nat)
    requires 1 <= i <= n && 1 <= j <= counts(i)
    ensures exists t :: 0 <= t < |ItemRows(n, counts, draw)| && Key(ItemRows(n, counts, draw)[t]) == (Ident("o", i), j)
  {
    var prev := ItemRows(n - 1, counts, draw);
    var b := OrderBlock(n, counts(n), draw);
    var rows := prev + b;
    assert ItemRows(n, counts, draw) == rows;
    if i == n {
      assert rows[|prev| + j - 1] == b[j - 1];
      assert Key(rows[|prev| + j - 1]) == (Ident("o", i), j);
    } else {
      KeyPresent(n - 1, counts, draw, i, j);
      var t :| 0 <= t < |prev| && Key(prev[t]) == (Ident("o", i), j);
      assert rows[t] == prev[t];
    }
  }

  /** No two generated rows share `(order_id, order_item_id)`: the composite primary key holds. */
  lemma {:induction false} ItemKeysUnique(n: nat, counts: nat -> ItemCount, draw: (nat, nat) -> ItemDraw)
    ensures forall a, b :: 0 <= a < b < |ItemRows(n, counts, draw)| ==>
      Key(ItemRows(n, counts, draw)[a]) != Key(ItemRows(n, counts, draw)[b])
  {
    if n > 0 {
      ItemKeysUnique(n - 1, counts, draw);
      ItemRowsOrders(n - 1, counts, draw);
      var prev := ItemRows(n - 1, counts, draw);
      var blk := OrderBlock(n, counts(n), draw);
      var rows := prev + blk;
      forall a, b | 0 <= a < b < |rows|
        ensures Key(rows[a]) != Key(rows[b])
      {
        if b >= |prev| && a < |prev| {
          assert rows[a] in prev;
          var i :| 1 <= i <= n - 1 && rows[a].orderId == Ident("o", i) && 1 <= rows[a].itemId <= counts(i);
          assert rows[b].orderId == Ident("o", n);
          if rows[a].orderId == rows[b].orderId {
            IdentInjective("o", i, n);
          }
        } else if a >= |prev| {
          assert rows[a].itemId == a - |prev| + 1;
          assert rows[b].itemId == b - |prev| + 1;
        } else {
          assert rows[a] == prev[a] && rows[b] == prev[b];
        }
      }
    }
  }

  /** Every row refers to a generated product p1..p200 and seller s1..s50. */
  lemma {:induction false} ItemReferences(n: nat, counts: nat -> ItemCount, draw: (nat, nat) -> ItemDraw)
    ensures forall r :: r in ItemRows(n, counts, draw) ==>
      (exists p :: 1 <= p <= 200 && r.productId == Ident("p", p)) &&
      (exists s :: 1 <= s <= 50 && r.sellerId == Ident("s", s))
  {
    if n > 0 {
      ItemReferences(n - 1, counts, draw);
      var b := OrderBlock(n, counts(n), draw);
      forall r | r in b
        ensures (exists p :: 1 <= p <= 200 && r.productId == Ident("p", p)) &&
                (exists s :: 1 <= s <= 50 && r.sellerId == Ident("s", s))
      {
        var t :| 0 <= t < |b| && b[t] == r;
        var d := draw(n, t + 1);
        assert r.productId == Ident("p", d.product);
        assert r.sellerId == Ident("s", d.seller);
      }
    }
  }
}
