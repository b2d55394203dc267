/** The sale-order engine: a cart is checked line by line against stock
    and price while stock is decremented in place; a sale persists the
    order, its items and one sale bill together. Deleting an unbilled sale
    puts the stock back. Also the transaction-number format. */
module Sales {
  import opened DbModels

  /** One line of the cart a client submits. */
  datatype CartLine = CartLine(bookIsbn: string, quantity: int)

  /** The state of the cart check after some lines: the books as the
      session sees them (stock already decremented), the sale items built
      so far and their running total. */
  datatype Cart = Cart(books: map<string, Book>, items: seq<SaleItem>, total: int)

  datatype Checked = Sold(cart: Cart) | Refused(code: int)

  /** The book cannot be sold: no retail price, or a zero one. */
  predicate Unsellable(b: Book)
  {
    b.retailPrice.None? || b.retailPrice.value == 0
  }

  /** One iteration of the cart loop: unknown ISBN is 404, too little
      stock is 400, no price is 400; otherwise the line is priced at the
      book's current retail price and its quantity leaves the stock. */
  function SellLine(c: Cart, line: CartLine): Checked
  {
    if line.bookIsbn !in c.books then Refused(404)
    else
      var b := c.books[line.bookIsbn];
      if b.stock < line.quantity then Refused(400)
      else if Unsellable(b) then Refused(400)
      else
        var price := b.retailPrice.value;
        var amount := price * line.quantity;
        Sold(Cart(c.books[line.bookIsbn := b.(stock := b.stock - line.quantity)],
                  c.items + [SaleItem(line.bookIsbn, line.quantity, price, amount)],
                  c.total + amount))
  }

  /** `after` is `before` with possibly different stock counts only. */
  predicate OnlyStockDiffers(before: map<string, Book>, after: map<string, Book>)
  {
    && after.Keys == before.Keys
    && forall k :: k in before ==> after[k] == before[k].(stock := after[k].stock)
  }

  /** Copies of `isbn` that `lines` ask for. */
  function LineQty(lines: seq<CartLine>, isbn: string): int
  {
    if lines == [] then 0
    else LineQty(lines[..|lines| - 1], isbn) + (if lines[|lines| - 1].bookIsbn == isbn then lines[|lines| - 1].quantity else 0)
  }

  /** The cart each sale item came from. */
  function Lines(items: seq<SaleItem>): (lines: seq<CartLine>)
    ensures |lines| == |items|
    ensures forall k :: 0 <= k < |items| ==> lines[k] == CartLine(items[k].bookIsbn, items[k].quantity)
  {
    if items == [] then [] else Lines(items[..|items| - 1]) + [CartLine(items[|items| - 1].bookIsbn, items[|items| - 1].quantity)]
  }

  lemma {:induction false} ItemsAppend(items: seq<SaleItem>, it: SaleItem)
    ensures ItemsTotal(items + [it]) == ItemsTotal(items) + it.totalAmount
    ensures Lines(items + [it]) == Lines(items) + [CartLine(it.bookIsbn, it.quantity)]
  {
    assert (items + [it])[..|items|] == items;
  }

  /** The cart loop of `create_sale_order`, line by line in cart order. A
      refusal is 404 or 400; a successful check makes one item per line, in
      order, and totals them. */
  function CheckCart(books: map<string, Book>, lines: seq<CartLine>): (r: Checked)
    ensures r.Refused? ==> r.code == 400 || r.code == 404
    ensures r.Sold? ==> Lines(r.cart.items) == lines && r.cart.total == ItemsTotal(r.cart.items)
  {
    if lines == [] then Sold(Cart(books, [], 0))
    else
      match CheckCart(books, lines[..|lines| - 1])
      case Refused(code) => Refused(code)
      case Sold(c) =>
        var line := lines[|lines| - 1];
        var r := SellLine(c, line);
        if r.Sold? then
          SellLineExtends(c, line);
          SplitLast(lines);
          r
        else r
  }

  lemma SplitLast<T>(s: seq<T>)
    requires |s| > 0
    ensures s == s[..|s| - 1] + [s[|s| - 1]]
  {
  }

  /** A sold line adds one item for that line and its amount to the total. */
  lemma SellLineExtends(c: Cart, line: CartLine)
    requires SellLine(c, line).Sold?
    ensures Lines(SellLine(c, line).cart.items) == Lines(c.items) + [line]
    ensures SellLine(c, line).cart.total - ItemsTotal(SellLine(c, line).cart.items) == c.total - ItemsTotal(c.items)
  {
    var b := c.books[line.bookIsbn];
    var price := b.retailPrice.value;
    ItemsAppend(c.items, SaleItem(line.bookIsbn, line.quantity, price, price * line.quantity));
  }

  /** One more line on a prefix of the cart. */
  lemma CheckCartStep(books: map<string, Book>, lines: seq<CartLine>, i: nat)
    requires i < |lines|
    ensures var before := CheckCart(books, lines[..i]);
      CheckCart(books, lines[..i + 1]) == if before.Refused? then before else SellLine(before.cart, lines[i])
  {
    assert lines[..i + 1][..i] == lines[..i];
  }

  /** A sold line changes only its book's stock and appends one item at
      that book's price. */
  lemma SellLineEffect(c: Cart, line: CartLine)
    requires SellLine(c, line).Sold?
    ensures line.bookIsbn in c.books && !Unsellable(c.books[line.bookIsbn])
    ensures var price := c.books[line.bookIsbn].retailPrice.value;
      && OnlyStockDiffers(c.books, SellLine(c, line).cart.books)
      && SellLine(c, line).cart.items == c.items + [SaleItem(line.bookIsbn, line.quantity, price, price * line.quantity)]
  {
  }

  lemma OnlyStockDiffersTrans(a: map<string, Book>, b: map<string, Book>, c: map<string, Book>)
    requires OnlyStockDiffers(a, b) && OnlyStockDiffers(b, c)
    ensures OnlyStockDiffers(a, c)
  {
    forall k | k in a ensures c[k] == a[k].(stock := c[k].stock) {
      assert b[k] == a[k].(stock := b[k].stock);
    }
  }

  /** A successful check only changes stock counts. */
  lemma {:induction false} CartKeepsBooks(books: map<string, Book>, lines: seq<CartLine>)
    requires CheckCart(books, lines).Sold?
    ensures OnlyStockDiffers(books, CheckCart(books, lines).cart.books)
  {
    if lines != [] {
      var front := lines[..|lines| - 1];
      CartKeepsBooks(books, front);
      var c0 := CheckCart(books, front).cart;
      SellLineEffect(c0, lines[|lines| - 1]);
      OnlyStockDiffersTrans(books, c0.books, CheckCart(books, lines).cart.books);
    }
  }

  /** Prices: the check only changes stock, and every line is sold at the
      retail price its book has in the catalogue, which is not zero. */
  lemma {:induction false} CartPricing(books: map<string, Book>, lines: seq<CartLine>)
    requires CheckCart(books, lines).Sold?
    ensures var c := CheckCart(books, lines).cart;
      && OnlyStockDiffers(books, c.books)
      && |c.items| == |lines|
      && forall k :: 0 <= k < |lines| ==>
           && lines[k].bookIsbn in books
           && !Unsellable(books[lines[k].bookIsbn])
           && c.items[k].soldPrice == books[lines[k].bookIsbn].retailPrice.value
           && c.items[k].totalAmount == c.items[k].soldPrice * lines[k].quantity
  {
    CartKeepsBooks(books, lines);
    var c := CheckCart(books, lines).cart;
    assert |c.items| == |lines| by { assert |Lines(c.items)| == |c.items|; }
    if lines != [] {
      var front := lines[..|lines| - 1];
      var last := lines[|lines| - 1];
      CartPricing(books, front);
      var c0 := CheckCart(books, front).cart;
      CartKeepsBooks(books, front);
      SellLineEffect(c0, last);
      forall k | 0 <= k < |lines|
        ensures && lines[k].bookIsbn in books
                && !Unsellable(books[lines[k].bookIsbn])
                && c.items[k].soldPrice == books[lines[k].bookIsbn].retailPrice.value
                && c.items[k].totalAmount == c.items[k].soldPrice * lines[k].quantity
      {
        if k < |front| {
          assert lines[k] == front[k];
          assert c.items[k] == c0.items[k];
        } else {
          assert lines[k] == last;
          assert c0.books[last.bookIsbn] == books[last.bookIsbn].(stock := c0.books[last.bookIsbn].stock);
        }
      }
    }
  }

  /** The first line that fails decides the error: once a prefix of the
      cart checks out and the next line is refused, the whole cart is
      refused with that line's code, whatever follows. */
  lemma {:induction false} FirstFailureDecides(books: map<string, Book>, lines: seq<CartLine>, i: nat)
    requires i < |lines| && CheckCart(books, lines[..i]).Sold?
    requires SellLine(CheckCart(books, lines[..i]).cart, lines[i]).Refused?
    ensures CheckCart(books, lines) == SellLine(CheckCart(books, lines[..i]).cart, lines[i])
    decreases |lines|
  {
    if |lines| == i + 1 {
      assert lines[..|lines| - 1] == lines[..i];
    } else {
      var front := lines[..|lines| - 1];
      assert front[..i] == lines[..i];
      FirstFailureDecides(books, front, i);
    }
  }

  /** Stock accounting: after a successful check every book has lost
      exactly the copies the cart asks for, summed over repeated lines. */
  lemma {:induction false} CartStock(books: map<string, Book>, lines: seq<CartLine>)
    requires CheckCart(books, lines).Sold?
    ensures var c := CheckCart(books, lines).cart;
      && c.books.Keys == books.Keys
      && forall k :: k in books ==> c.books[k].stock == books[k].stock - LineQty(lines, k)
  {
    if lines != [] {
      CartStock(books, lines[..|lines| - 1]);
    }
  }

  /** Each line is checked against stock already reduced by the earlier
      lines, so a cart never sells more copies of a book than it had,
      however often the book is repeated, and no stock goes negative. */
  lemma {:induction false} CartNeverOversells(books: map<string, Book>, lines: seq<CartLine>)
    requires forall k :: k in books ==> books[k].stock >= 0
    requires CheckCart(books, lines).Sold?
    ensures var c := CheckCart(books, lines).cart;
      forall k :: k in books ==> k in c.books && c.books[k].stock >= 0
    ensures forall k :: k in books ==> LineQty(lines, k) <= books[k].stock
  {
    if lines != [] {
      CartNeverOversells(books, lines[..|lines| - 1]);
    }
    CartStock(books, lines);
  }

  // ---------------------------------------------------------------------
  // create_sale_order

  /** The database a successful sale commits: the decremented books, the
      order with its items, and one sale bill for the order total. */
  function SaleCommitted(db: Db, c: Cart, paymentMethod: Option<string>, caller: string, txn: string, now: int): Db
  {
    var id := db.nextSaleId;
    db.(books := c.books,
        saleOrders := db.saleOrders[id := SaleOrder(txn, c.total, paymentMethod, c.items, Some(caller), now)],
        bills := db.bills + [Bill(SaleBill, c.total, now, Some(id), Some(caller))],
        nextSaleId := id + 1)
  }

  /** `create_sale_order`: the cart check, then everything the sale
      writes, committed together. */
  function CreateSaleOrder(db: Db, lines: seq<CartLine>, paymentMethod: Option<string>, caller: string,
                           txn: string, now: int): Reply
  {
    match CheckCart(db.books, lines)
    case Refused(code) => Reply(code, db)
    case Sold(c) => CommitReply(db, SaleCommitted(db, c, paymentMethod, caller, txn, now), 500)
  }

  /** A sold line is a valid sale item exactly when its quantity is positive. */
  lemma SaleItemsOk(books: map<string, Book>, lines: seq<CartLine>)
    requires forall k :: k in books ==> BookOk(k, books[k])
    requires CheckCart(books, lines).Sold?
    ensures var items := CheckCart(books, lines).cart.items;
      |items| == |lines| && forall k :: 0 <= k < |items| ==> (SaleItemOk(items[k]) <==> lines[k].quantity > 0)
  {
    var items := CheckCart(books, lines).cart.items;
    CartPricing(books, lines);
    forall k | 0 <= k < |items| ensures SaleItemOk(items[k]) <==> lines[k].quantity > 0 {
      assert items[k].quantity == Lines(items)[k].quantity;
      assert BookOk(lines[k].bookIsbn, books[lines[k].bookIsbn]);
      PositivePriceTimes(items[k].soldPrice, lines[k].quantity);
    }
  }

  /** A positive price times a quantity is positive exactly when the quantity is. */
  lemma PositivePriceTimes(price: int, quantity: int)
    requires price > 0
    ensures price * quantity > 0 <==> quantity > 0
  {
    if quantity > 0 {
      assert price * quantity >= quantity;
    } else {
      assert price * quantity <= 0 by { assert price * quantity == -(price * -quantity); }
    }
  }

  lemma {:induction false} PositiveItemsPositiveTotal(items: seq<SaleItem>)
    requires forall k :: 0 <= k < |items| ==> items[k].totalAmount > 0
    ensures |items| > 0 ==> ItemsTotal(items) > 0
    ensures ItemsTotal(items) >= 0
  {
    if items != [] {
      PositiveItemsPositiveTotal(items[..|items| - 1]);
    }
  }

  /** The decremented books of a checked cart are valid rows. */
  lemma CartBooksOk(books: map<string, Book>, lines: seq<CartLine>)
    requires forall k :: k in books ==> BookOk(k, books[k])
    requires CheckCart(books, lines).Sold?
    ensures var c := CheckCart(books, lines).cart; forall k :: k in c.books ==> BookOk(k, c.books[k])
  {
    var c := CheckCart(books, lines).cart;
    CartKeepsBooks(books, lines);
    CartNeverOversells(books, lines);
    forall k | k in c.books ensures BookOk(k, c.books[k]) {
      assert BookOk(k, books[k]);
    }
  }

  /** A checked, non-empty cart of positive quantities makes a valid order. */
  lemma CartOrderOk(books: map<string, Book>, lines: seq<CartLine>, o: SaleOrder)
    requires forall k :: k in books ==> BookOk(k, books[k])
    requires CheckCart(books, lines).Sold?
    requires |lines| > 0 && forall k :: 0 <= k < |lines| ==> lines[k].quantity > 0
    requires o.items == CheckCart(books, lines).cart.items && o.totalAmount == CheckCart(books, lines).cart.total
    ensures SaleOrderOk(o)
  {
    SaleItemsOk(books, lines);
    PositiveItemsPositiveTotal(o.items);
  }

  /** The rows a sale writes pass the commit's checks when the books are
      valid, the order is valid and its transaction number is new. */
  lemma SaleCommitOk(db: Db, c: Cart, paymentMethod: Option<string>, caller: string, txn: string, now: int)
    requires db.nextSaleId !in db.saleOrders
    requires forall id :: id in db.saleOrders ==> db.saleOrders[id].transactionNo != txn
    requires forall k :: k in c.books ==> BookOk(k, c.books[k])
    requires SaleOrderOk(SaleOrder(txn, c.total, paymentMethod, c.items, Some(caller), now))
    ensures ChangedRowsOk(db, SaleCommitted(db, c, paymentMethod, caller, txn, now))
  {
    var after := SaleCommitted(db, c, paymentMethod, caller, txn, now);
    var id := db.nextSaleId;
    forall k | k in after.saleOrders && Touched(db.saleOrders, after.saleOrders, k) ensures SaleOrderOk(after.saleOrders[k]) {
      assert k == id;
    }
    forall i | 0 <= i < |after.bills| && TouchedBill(db.bills, after.bills, i) ensures BillOk(after.bills[i]) {
      assert i == |db.bills|;
    }
    forall a, b | (a in after.saleOrders && b in after.saleOrders && a != b && Touched(db.saleOrders, after.saleOrders, a))
      ensures after.saleOrders[a].transactionNo != after.saleOrders[b].transactionNo
    {
      assert a == id && b in db.saleOrders;
    }
  }

  /** A checked, non-empty cart of positive quantities commits. */
  lemma SaleAccepted(db: Db, lines: seq<CartLine>, paymentMethod: Option<string>, caller: string, txn: string, now: int)
    requires DbOk(db) && db.nextSaleId !in db.saleOrders
    requires forall id :: id in db.saleOrders ==> db.saleOrders[id].transactionNo != txn
    requires CheckCart(db.books, lines).Sold?
    requires |lines| > 0 && forall k :: 0 <= k < |lines| ==> lines[k].quantity > 0
    ensures ChangedRowsOk(db, SaleCommitted(db, CheckCart(db.books, lines).cart, paymentMethod, caller, txn, now))
  {
    var c := CheckCart(db.books, lines).cart;
    CartBooksOk(db.books, lines);
    CartOrderOk(db.books, lines, SaleOrder(txn, c.total, paymentMethod, c.items, Some(caller), now));
    SaleCommitOk(db, c, paymentMethod, caller, txn, now);
  }

  /** An empty cart totals 0, which the new order's `total_amount > 0`
      check refuses at commit. */
  lemma EmptyCartRejected(db: Db, paymentMethod: Option<string>, caller: string, txn: string, now: int)
    requires db.nextSaleId !in db.saleOrders
    ensures CreateSaleOrder(db, [], paymentMethod, caller, txn, now) == Reply(500, db)
  {
    var after := SaleCommitted(db, Cart(db.books, [], 0), paymentMethod, caller, txn, now);
    var id := db.nextSaleId;
    assert id in after.saleOrders && Touched(db.saleOrders, after.saleOrders, id);
    assert !SaleOrderOk(after.saleOrders[id]);
  }

  /** A line with a quantity below one makes an invalid sale item, which
      the check constraints refuse at commit. */
  lemma NonPositiveLineRejected(db: Db, lines: seq<CartLine>, k: nat, paymentMethod: Option<string>, caller: string,
                                txn: string, now: int)
    requires db.nextSaleId !in db.saleOrders
    requires k < |lines| && lines[k].quantity <= 0
    ensures CreateSaleOrder(db, lines, paymentMethod, caller, txn, now).code != 200
    ensures CreateSaleOrder(db, lines, paymentMethod, caller, txn, now).db == db
  {
    var checked := CheckCart(db.books, lines);
    if checked.Sold? {
      var c := checked.cart;
      var after := SaleCommitted(db, c, paymentMethod, caller, txn, now);
      var id := db.nextSaleId;
      assert c.items[k].quantity == Lines(c.items)[k].quantity;
      assert id in after.saleOrders && Touched(db.saleOrders, after.saleOrders, id);
      assert !SaleItemOk(after.saleOrders[id].items[k]);
    }
  }

  /** On a well-formed database with a fresh transaction number, a cart
      that passes the check is sold exactly when it is non-empty and every
      quantity is positive (an empty cart totals 0, which the
      `total_amount > 0` constraint refuses); then the sale commits the
      decremented books, the order and one sale bill for its total. Any
      failure changes nothing. */
  lemma CreateSaleOrderSpec(db: Db, lines: seq<CartLine>, paymentMethod: Option<string>, caller: string,
                            txn: string, now: int)
    requires DbOk(db) && db.nextSaleId !in db.saleOrders
    requires forall id :: id in db.saleOrders ==> db.saleOrders[id].transactionNo != txn
    ensures var r := CreateSaleOrder(db, lines, paymentMethod, caller, txn, now);
      && (CheckCart(db.books, lines).Refused? ==> r == Reply(CheckCart(db.books, lines).code, db))
      && (CheckCart(db.books, lines).Sold? ==>
            (r.code == 200 <==> |lines| > 0 && forall k :: 0 <= k < |lines| ==> lines[k].quantity > 0))
      && (r.code == 200 ==>
            r.db == SaleCommitted(db, CheckCart(db.books, lines).cart, paymentMethod, caller, txn, now))
      && (r.code != 200 ==> r.db == db)
  {
    if CheckCart(db.books, lines).Sold? {
      if |lines| > 0 && forall k :: 0 <= k < |lines| ==> lines[k].quantity > 0 {
        SaleAccepted(db, lines, paymentMethod, caller, txn, now);
      } else if |lines| == 0 {
        EmptyCartRejected(db, paymentMethod, caller, txn, now);
      } else {
        var k :| 0 <= k < |lines| && lines[k].quantity <= 0;
        NonPositiveLineRejected(db, lines, k, paymentMethod, caller, txn, now);
      }
    }
  }

  /** A transaction number already held by an order breaks the unique
      index, so the sale is never committed and nothing changes. */
  lemma DuplicateTransactionNoRejected(db: Db, lines: seq<CartLine>, paymentMethod: Option<string>, caller: string,
                                       txn: string, now: int, other: int)
    requires db.nextSaleId !in db.saleOrders
    requires other in db.saleOrders && db.saleOrders[other].transactionNo == txn
    ensures var r := CreateSaleOrder(db, lines, paymentMethod, caller, txn, now);
      r.code != 200 && r.db == db
  {
    if CheckCart(db.books, lines).Sold? {
      var c := CheckCart(db.books, lines).cart;
      var after := SaleCommitted(db, c, paymentMethod, caller, txn, now);
      var id := db.nextSaleId;
      assert id in after.saleOrders && other in after.saleOrders && id != other;
      assert Touched(db.saleOrders, after.saleOrders, id);
      assert after.saleOrders[id].transactionNo == after.saleOrders[other].transactionNo;
      assert !ChangedRowsOk(db, after);
    }
  }

  /** Appending the new order's sale bill keeps every bill count right. */
  lemma SaleBillCounted(db: Db, id: int, order: SaleOrder, bill: Bill)
    requires BillsCounted(db) && BillsMatchOrders(db) && id !in db.saleOrders
    requires bill.billType == SaleBill && bill.relatedOrder == Some(id)
    ensures BillsCounted(db.(saleOrders := db.saleOrders[id := order], bills := db.bills + [bill]))
  {
    var after := db.(saleOrders := db.saleOrders[id := order], bills := db.bills + [bill]);
    FreshIdHasNoBills(db, SaleBill, id);
    forall k | k in after.purchaseOrders
      ensures CountBills(after.bills, PurchaseBill, k) == (if Paying(after.purchaseOrders[k].status) then 1 else 0)
    {
      CountBillsAppend(db.bills, bill, PurchaseBill, k);
    }
    forall k | k in after.saleOrders ensures CountBills(after.bills, SaleBill, k) == 1 {
      CountBillsAppend(db.bills, bill, SaleBill, k);
    }
  }

  /** Committing a sale whose cart keeps the catalogue, names only
      catalogued books and totals its items keeps the ledger consistent. */
  lemma SaleCommittedConsistent(db: Db, c: Cart, paymentMethod: Option<string>, caller: string, txn: string, now: int)
    requires Consistent(db)
    requires ChangedRowsOk(db, SaleCommitted(db, c, paymentMethod, caller, txn, now))
    requires c.books.Keys == db.books.Keys
    requires forall k :: 0 <= k < |c.items| ==> c.items[k].bookIsbn in c.books
    requires c.total == ItemsTotal(c.items)
    ensures Consistent(SaleCommitted(db, c, paymentMethod, caller, txn, now))
  {
    var id := db.nextSaleId;
    var order := SaleOrder(txn, c.total, paymentMethod, c.items, Some(caller), now);
    var bill := Bill(SaleBill, c.total, now, Some(id), Some(caller));
    var after := SaleCommitted(db, c, paymentMethod, caller, txn, now);
    CommitPreservesOk(db, after);
    assert id !in db.saleOrders;
    assert BooksReferenced(after);
    assert TotalsMatch(after);
    assert IdsBelowCounters(after);
    assert after.bills[..|db.bills|] == db.bills;
    assert BillMatchesOrder(after, after.bills[|db.bills|]);
    BillsStillMatch(db, after);
    SaleBillCounted(db, id, order, bill);
  }

  /** A sale keeps the ledger consistent: the new order totals its items,
      names only catalogued books, and has exactly one sale bill. */
  lemma CreateSaleOrderPreservesConsistent(db: Db, lines: seq<CartLine>, paymentMethod: Option<string>,
                                           caller: string, txn: string, now: int)
    requires Consistent(db)
    ensures Consistent(CreateSaleOrder(db, lines, paymentMethod, caller, txn, now).db)
  {
    if CheckCart(db.books, lines).Sold? {
      var c := CheckCart(db.books, lines).cart;
      var after := SaleCommitted(db, c, paymentMethod, caller, txn, now);
      if ChangedRowsOk(db, after) {
        CartPricing(db.books, lines);
        forall k | 0 <= k < |c.items| ensures c.items[k].bookIsbn in c.books {
          assert c.items[k].bookIsbn == Lines(c.items)[k].bookIsbn;
        }
        SaleCommittedConsistent(db, c, paymentMethod, caller, txn, now);
      }
    }
  }

  /** The worked sale: three copies of a book with stock 5 at 20.00 leave
      stock 2, one order of 60.00 and one sale bill of 60.00; asking for
      three when only two are left is refused with nothing changed. */
  lemma SaleExample(caller: string, txn: string)
    ensures var isbn := "9780000000001";
      var db := EmptyDb().(books := map[isbn := Book(Some("Title"), None, None, Some(2000), 5)]);
      var r := CreateSaleOrder(db, [CartLine(isbn, 3)], None, caller, txn, 0);
      && r.code == 200
      && r.db.books[isbn].stock == 2
      && r.db.saleOrders[1].totalAmount == 6000
      && r.db.bills == [Bill(SaleBill, 6000, 0, Some(1), Some(caller))]
    ensures var isbn := "9780000000001";
      var db := EmptyDb().(books := map[isbn := Book(Some("Title"), None, None, Some(2000), 2)]);
      CreateSaleOrder(db, [CartLine(isbn, 3)], None, caller, txn, 0) == Reply(400, db)
  {
    var isbn := "9780000000001";
    var book := Book(Some("Title"), None, None, Some(2000), 5);
    var db := EmptyDb().(books := map[isbn := book]);
    var lines := [CartLine(isbn, 3)];
    assert lines[..0] == [];
    var sold := Cart(map[isbn := book.(stock := 2)], [SaleItem(isbn, 3, 2000, 6000)], 6000);
    assert CheckCart(db.books, lines) == Sold(sold);
    assert IsDigit(isbn[0]);
    CreateSaleOrderSpec(db, lines, None, caller, txn, 0);
    var db2 := EmptyDb().(books := map[isbn := book.(stock := 2)]);
    assert CheckCart(db2.books, lines) == Refused(400);
  }

  // ---------------------------------------------------------------------
  // delete_sale_order and update_sale_order

  /** The stock restoring loop of `delete_sale_order`: each item's
      quantity goes back to its book if the book still exists. */
  function RestoreStock(books: map<string, Book>, items: seq<SaleItem>): (restored: map<string, Book>)
    ensures restored.Keys == books.Keys
  {
    if items == [] then books
    else
      var restored := RestoreStock(books, items[..|items| - 1]);
      var it := items[|items| - 1];
      if it.bookIsbn in restored then restored[it.bookIsbn := restored[it.bookIsbn].(stock := restored[it.bookIsbn].stock + it.quantity)]
      else restored
  }

  /** Restoring changes only stock: every book gains back exactly the
      copies the items took. */
  lemma {:induction false} RestoreStockEffect(books: map<string, Book>, items: seq<SaleItem>)
    ensures OnlyStockDiffers(books, RestoreStock(books, items))
    ensures forall k :: k in books ==> RestoreStock(books, items)[k].stock == books[k].stock + LineQty(Lines(items), k)
  {
    if items != [] {
      RestoreStockEffect(books, items[..|items| - 1]);
      assert Lines(items)[..|items| - 1] == Lines(items[..|items| - 1]);
    }
  }

  /** Deleting a sale undoes its cart: restoring the items a successful
      cart check made gives back the books exactly as they were. */
  lemma RestoreUndoesSale(books: map<string, Book>, lines: seq<CartLine>)
    requires CheckCart(books, lines).Sold?
    ensures var c := CheckCart(books, lines).cart; RestoreStock(c.books, c.items) == books
  {
    var c := CheckCart(books, lines).cart;
    CartStock(books, lines);
    CartPricing(books, lines);
    RestoreStockEffect(c.books, c.items);
    var back := RestoreStock(c.books, c.items);
    forall k | k in books ensures back[k] == books[k] {
      assert back[k] == c.books[k].(stock := back[k].stock);
      assert c.books[k] == books[k].(stock := c.books[k].stock);
    }
  }

  /** Some bill, of either type, refers to `id`. */
  predicate HasBill(bills: seq<Bill>, id: int)
  {
    exists i :: 0 <= i < |bills| && bills[i].relatedOrder == Some(id)
  }

  /** `delete_sale_order` */
  function DeleteSaleOrder(db: Db, id: int): Reply
  {
    if id !in db.saleOrders then Reply(404, db)
    else if HasBill(db.bills, id) then Reply(400, db)
    else CommitReply(db, db.(books := RestoreStock(db.books, db.saleOrders[id].items),
                             saleOrders := db.saleOrders - {id}), 500)
  }

  /** Delete: 404 for an unknown order and 400 when any bill refers to
      the id, both with nothing changed; otherwise the order and its items
      go, each book gets back the copies the items took, and nothing else
      changes. */
  lemma DeleteSaleOrderSpec(db: Db, id: int)
    requires DbOk(db)
    ensures var r := DeleteSaleOrder(db, id);
      && (id !in db.saleOrders ==> r == Reply(404, db))
      && (id in db.saleOrders && HasBill(db.bills, id) ==> r == Reply(400, db))
      && (id in db.saleOrders && !HasBill(db.bills, id) ==>
            && r.code == 200
            && r.db.saleOrders == db.saleOrders - {id}
            && r.db.bills == db.bills
            && r.db.(books := db.books, saleOrders := db.saleOrders) == db
            && OnlyStockDiffers(db.books, r.db.books)
            && forall k :: k in db.books ==>
                 r.db.books[k].stock == db.books[k].stock + LineQty(Lines(db.saleOrders[id].items), k))
  {
    if id in db.saleOrders && !HasBill(db.bills, id) {
      var items := db.saleOrders[id].items;
      var after := db.(books := RestoreStock(db.books, items), saleOrders := db.saleOrders - {id});
      RestoreStockEffect(db.books, items);
      RestoredStockOk(db.books, items);
      assert ChangedRowsOk(db, after);
    }
  }

  /** Giving back positive quantities keeps every book row valid. */
  lemma {:induction false} RestoredStockOk(books: map<string, Book>, items: seq<SaleItem>)
    requires forall k :: k in books ==> BookOk(k, books[k])
    requires forall k :: 0 <= k < |items| ==> SaleItemOk(items[k])
    ensures forall k :: k in books ==> BookOk(k, RestoreStock(books, items)[k])
  {
    if items != [] {
      RestoredStockOk(books, items[..|items| - 1]);
      RestoreStockEffect(books, items[..|items| - 1]);
    }
  }

  /** Every sale writes its bill in the same commit, so on a consistent
      database deleting an existing sale order is always refused. */
  lemma DeleteAlwaysBlockedWhenConsistent(db: Db, id: int)
    requires Consistent(db) && id in db.saleOrders
    ensures DeleteSaleOrder(db, id) == Reply(400, db)
  {
    CountBillsPositive(db.bills, SaleBill, id);
    var i :| 0 <= i < |db.bills| && db.bills[i].billType == SaleBill && db.bills[i].relatedOrder == Some(id);
    assert HasBill(db.bills, id);
  }

  /** `update_sale_order`: only a non-null payment method is written;
      `remark` is not a column of sale_orders, so setting it on the row
      object persists nothing. */
  function UpdateSaleOrder(db: Db, id: int, paymentMethod: Option<string>, remark: Option<string>): Reply
  {
    if id !in db.saleOrders then Reply(404, db)
    else if paymentMethod.None? then CommitReply(db, db, 500)
    else CommitReply(db, db.(saleOrders := db.saleOrders[id := db.saleOrders[id].(paymentMethod := paymentMethod)]), 500)
  }

  /** Update never fails on an existing order and changes nothing but its
      payment method, and that only when one is given. */
  lemma UpdateSaleOrderSpec(db: Db, id: int, paymentMethod: Option<string>, remark: Option<string>)
    requires DbOk(db)
    ensures var r := UpdateSaleOrder(db, id, paymentMethod, remark);
      && (id !in db.saleOrders ==> r == Reply(404, db))
      && (id in db.saleOrders ==> r.code == 200)
      && (id in db.saleOrders && paymentMethod.None? ==> r.db == db)
      && (id in db.saleOrders && paymentMethod.Some? ==>
            r.db == db.(saleOrders := db.saleOrders[id := db.saleOrders[id].(paymentMethod := paymentMethod)]))
  {
    if id in db.saleOrders && paymentMethod.Some? {
      assert SaleOrderOk(db.saleOrders[id]);
      var after := db.(saleOrders := db.saleOrders[id := db.saleOrders[id].(paymentMethod := paymentMethod)]);
      assert ChangedRowsOk(db, after);
    } else if id in db.saleOrders {
      assert ChangedRowsOk(db, db);
    }
  }

  lemma DeleteAndUpdatePreserveConsistent(db: Db, id: int, paymentMethod: Option<string>, remark: Option<string>)
    requires Consistent(db)
    ensures Consistent(DeleteSaleOrder(db, id).db)
    ensures Consistent(UpdateSaleOrder(db, id, paymentMethod, remark).db)
  {
    if id in db.saleOrders {
      DeleteAlwaysBlockedWhenConsistent(db, id);
      UpdateSaleOrderSpec(db, id, paymentMethod, remark);
      if paymentMethod.Some? {
        var after := db.(saleOrders := db.saleOrders[id := db.saleOrders[id].(paymentMethod := paymentMethod)]);
        BillsStillMatch(db, after);
        assert after.bills[..|db.bills|] == db.bills;
      }
    }
  }

  // ---------------------------------------------------------------------
  // The handlers on the store

  /** One iteration of the cart loop on the session: the line's book loses
      the copies sold, and the item and its amount are returned with the
      cart. A refused line changes nothing. */
  method SellOne(s: Store, line: CartLine, items: seq<SaleItem>, total: int) returns (r: Checked)
    modifies s
    ensures r == SellLine(Cart(old(s.books), items, total), line)
    ensures r.Refused? ==> s.State() == old(s.State())
    ensures r.Sold? ==> s.State() == old(s.State()).(books := r.cart.books)
  {
    if line.bookIsbn !in s.books {
      return Refused(404);
    }
    var book := s.books[line.bookIsbn];
    if book.stock < line.quantity {
      return Refused(400);
    }
    if book.retailPrice.None? || book.retailPrice.value == 0 {
      return Refused(400);
    }
    var amount := book.retailPrice.value * line.quantity;
    s.books := s.books[line.bookIsbn := book.(stock := book.stock - line.quantity)];
    r := Sold(Cart(s.books, items + [SaleItem(line.bookIsbn, line.quantity, book.retailPrice.value, amount)],
                   total + amount));
  }

  /** The cart loop of `create_sale_order` on the session: stock is
      decremented book by book while the items and the total accumulate.
      A refused line abandons the request, so the session's changes are
      discarded. */
  method SellCart(s: Store, lines: seq<CartLine>) returns (r: Checked)
    modifies s
    ensures r == CheckCart(old(s.books), lines)
    ensures r.Refused? ==> s.State() == old(s.State())
    ensures r.Sold? ==> s.State() == old(s.State()).(books := r.cart.books)
  {
    var saved := s.State();
    var items: seq<SaleItem> := [];
    var total := 0;
    for i := 0 to |lines|
      invariant CheckCart(saved.books, lines[..i]) == Sold(Cart(s.books, items, total))
      invariant s.State() == saved.(books := s.books)
    {
      var step := SellOne(s, lines[i], items, total);
      if step.Refused? {
        FirstFailureDecides(saved.books, lines, i);
        s.Rollback(saved);
        return step;
      }
      CheckCartStep(saved.books, lines, i);
      items, total := step.cart.items, step.cart.total;
    }
    assert lines[..|lines|] == lines;
    r := Sold(Cart(s.books, items, total));
  }

  method CreateSaleOrderHandler(s: Store, lines: seq<CartLine>, paymentMethod: Option<string>, caller: string,
                                txn: string, now: int) returns (code: int)
    modifies s
    ensures Reply(code, s.State()) == CreateSaleOrder(old(s.State()), lines, paymentMethod, caller, txn, now)
  {
    var saved := s.State();
    var checked := SellCart(s, lines);
    if checked.Refused? {
      return checked.code;
    }
    var id := s.nextSaleId;
    var total := checked.cart.total;
    s.saleOrders := s.saleOrders[id := SaleOrder(txn, total, paymentMethod, checked.cart.items, Some(caller), now)];
    s.bills := s.bills + [Bill(SaleBill, total, now, Some(id), Some(caller))];
    s.nextSaleId := id + 1;
    assert s.State() == SaleCommitted(saved, checked.cart, paymentMethod, caller, txn, now);
    code := s.CommitChanges(saved, 500);
  }

  method DeleteSaleOrderHandler(s: Store, id: int) returns (code: int)
    modifies s
    ensures Reply(code, s.State()) == DeleteSaleOrder(old(s.State()), id)
  {
    if id !in s.saleOrders {
      return 404;
    }
    var order := s.saleOrders[id];
    var i := 0;
    while i < |s.bills|
      invariant 0 <= i <= |s.bills|
      invariant forall j :: 0 <= j < i ==> s.bills[j].relatedOrder != Some(id)
    {
      if s.bills[i].relatedOrder == Some(id) {
        return 400;
      }
      i := i + 1;
    }
    var saved := s.State();
    for k := 0 to |order.items|
      invariant s.State() == saved.(books := RestoreStock(saved.books, order.items[..k]))
    {
      var item := order.items[k];
      assert order.items[..k + 1][..k] == order.items[..k];
      if item.bookIsbn in s.books {
        var book := s.books[item.bookIsbn];
        s.books := s.books[item.bookIsbn := book.(stock := book.stock + item.quantity)];
      }
    }
    assert order.items[..|order.items|] == order.items;
    s.saleOrders := s.saleOrders - {id};
    code := s.CommitChanges(saved, 500);
  }

  method UpdateSaleOrderHandler(s: Store, id: int, paymentMethod: Option<string>, remark: Option<string>)
    returns (code: int)
    modifies s
    ensures Reply(code, s.State()) == UpdateSaleOrder(old(s.State()), id, paymentMethod, remark)
  {
    if id !in s.saleOrders {
      return 404;
    }
    var saved := s.State();
    if paymentMethod.Some? {
      s.saleOrders := s.saleOrders[id := s.saleOrders[id].(paymentMethod := paymentMethod)];
    }
    code := s.CommitChanges(saved, 500);
  }

  // ---------------------------------------------------------------------
  // Transaction numbers

  datatype DateTime = DateTime(year: int, month: int, day: int, hour: int, minute: int, second: int)

  datatype Date = Date(year: int, month: int, day: int)

  predicate IsLeapYear(y: int)
  {
    y % 4 == 0 && (y % 100 != 0 || y % 400 == 0)
  }

  function DaysInMonth(y: int, m: int): int
    requires 1 <= m <= 12
  {
    if m == 2 then (if IsLeapYear(y) then 29 else 28)
    else if m == 4 || m == 6 || m == 9 || m == 11 then 30
    else 31
  }

  /** The dates Python's `datetime(year, month, day)` accepts. */
  predicate ValidDate(y: int, m: int, d: int)
  {
    1 <= y <= 9999 && 1 <= m <= 12 && 1 <= d <= DaysInMonth(y, m)
  }

  predicate ValidDateTime(t: DateTime)
  {
    ValidDate(t.year, t.month, t.day) && 0 <= t.hour < 24 && 0 <= t.minute < 60 && 0 <= t.second < 60
  }

  function Pow10(n: nat): nat
  {
    if n == 0 then 1 else 10 * Pow10(n - 1)
  }

  /** `n` in decimal, zero-padded to `width` digits (`%02d`, `%Y`). */
  function Padded(n: nat, width: nat): (s: string)
    ensures |s| == width
    ensures forall i :: 0 <= i < |s| ==> IsDigit(s[i])
  {
    if width == 0 then "" else Padded(n / 10, width - 1) + [('0' as int + n % 10) as char]
  }

  predicate AllDigits(s: string)
  {
    forall i :: 0 <= i < |s| ==> IsDigit(s[i])
  }

  /** `generate_transaction_no`: "SO", the time as YYYYMMDDHHMMSS and the
      six random digits, which the caller supplies. */
  function GenerateTransactionNo(t: DateTime, suffix: string): (no: string)
    requires ValidDateTime(t) && 1000 <= t.year
    requires |suffix| == 6 && AllDigits(suffix)
    ensures |no| == 22 && no[..2] == "SO" && AllDigits(no[2..])
  {
    var digits := Padded(t.year, 4) + Padded(t.month, 2) + Padded(t.day, 2)
                  + Padded(t.hour, 2) + Padded(t.minute, 2) + Padded(t.second, 2) + suffix;
    assert AllDigits(digits);
    assert ("SO" + digits)[2..] == digits;
    "SO" + digits
  }

  /** The ASCII characters `str.strip()` treats as white space. */
  predicate IsSpace(c: char)
  {
    (9 <= c as int <= 13) || (28 <= c as int <= 32)
  }

  function TrimStart(s: string): (r: string)
    ensures |r| <= |s| && (r == [] || !IsSpace(r[0]))
  {
    if s != [] && IsSpace(s[0]) then TrimStart(s[1..]) else s
  }

  function TrimEnd(s: string): (r: string)
    ensures |r| <= |s| && (r == [] || !IsSpace(r[|r| - 1]))
  {
    if s != [] && IsSpace(s[|s| - 1]) then TrimEnd(s[..|s| - 1]) else s
  }

  /** Digits with single underscores between them, as `int()` accepts. */
  predicate DigitGroups(s: string)
  {
    && |s| > 0 && IsDigit(s[0]) && IsDigit(s[|s| - 1])
    && (forall i :: 0 <= i < |s| ==> IsDigit(s[i]) || s[i] == '_')
    && (forall i :: 0 <= i < |s| - 1 && s[i] == '_' ==> IsDigit(s[i + 1]))
  }

  /** The value of the digits in `s`, underscores skipped. */
  function DigitsValue(s: string): int
  {
    if s == [] then 0
    else if s[|s| - 1] == '_' then DigitsValue(s[..|s| - 1])
    else 10 * DigitsValue(s[..|s| - 1]) + (s[|s| - 1] as int - '0' as int)
  }

  /** Python's `int(s)` on an ASCII string: surrounding white space, an
      optional sign, then digit groups; anything else is a ValueError. */
  function PyInt(s: string): Option<int>
  {
    var t := TrimEnd(TrimStart(s));
    var signed := |t| > 0 && (t[0] == '+' || t[0] == '-');
    var body := if signed then t[1..] else t;
    if !DigitGroups(body) then None
    else
      var v := DigitsValue(body);
      Some(if signed && t[0] == '-' then -v else v)
  }

  /** `parse_date_from_transaction_no`: None unless the number starts with
      "SO" and has at least 16 characters; otherwise the date written in
      characters 2 to 9, or None when `int()` or `datetime()` refuses it. */
  function ParseDate(no: string): (r: Option<Date>)
    ensures r.Some? ==> |no| >= 16 && no[..2] == "SO" && ValidDate(r.value.year, r.value.month, r.value.day)
    ensures r.Some? ==>
      PyInt(no[2..6]) == Some(r.value.year) && PyInt(no[6..8]) == Some(r.value.month)
      && PyInt(no[8..10]) == Some(r.value.day)
  {
    if |no| < 16 || no[..2] != "SO" then None
    else
      var part := no[2..10];
      DatePartSlices(no);
      match (PyInt(part[..4]), PyInt(part[4..6]), PyInt(part[6..8]))
      case (Some(y), Some(m), Some(d)) => if ValidDate(y, m, d) then Some(Date(y, m, d)) else None
      case _ => None
  }

  lemma {:induction false} PaddedValue(n: nat, width: nat)
    requires n < Pow10(width)
    ensures DigitsValue(Padded(n, width)) == n
  {
    if width > 0 {
      var s := Padded(n, width);
      assert s[..|s| - 1] == Padded(n / 10, width - 1);
      PaddedValue(n / 10, width - 1);
    }
  }

  /** Digits without surrounding white space are left alone by the trim. */
  lemma DigitsUntrimmed(s: string)
    requires |s| > 0 && AllDigits(s)
    ensures TrimEnd(TrimStart(s)) == s
  {
    assert IsDigit(s[0]) && IsDigit(s[|s| - 1]);
    assert TrimStart(s) == s;
  }

  /** `int()` of a string that trims to plain digits is their value. */
  lemma PyIntOfDigits(s: string, t: string)
    requires TrimEnd(TrimStart(s)) == t && |t| > 0 && AllDigits(t)
    ensures PyInt(s) == Some(DigitsValue(t))
  {
    assert IsDigit(t[0]) && IsDigit(t[|t| - 1]);
    assert DigitGroups(t);
  }

  /** `int()` reads a zero-padded number back. */
  lemma PaddedParses(n: nat, width: nat)
    requires 0 < width && n < Pow10(width)
    ensures PyInt(Padded(n, width)) == Some(n)
  {
    var s := Padded(n, width);
    DigitsUntrimmed(s);
    PyIntOfDigits(s, s);
    PaddedValue(n, width);
  }

  /** Where a generated number holds its fields: the year, month and day,
      then HHMMSS, then the random suffix. */
  lemma GeneratedDateFields(t: DateTime, suffix: string)
    requires ValidDateTime(t) && 1000 <= t.year
    requires |suffix| == 6 && AllDigits(suffix)
    ensures var no := GenerateTransactionNo(t, suffix);
      no[2..6] == Padded(t.year, 4) && no[6..8] == Padded(t.month, 2) && no[8..10] == Padded(t.day, 2)
    ensures var no := GenerateTransactionNo(t, suffix);
      no[10..16] == Padded(t.hour, 2) + Padded(t.minute, 2) + Padded(t.second, 2) && no[16..] == suffix
  {
    TimeSlices(Padded(t.year, 4) + Padded(t.month, 2) + Padded(t.day, 2),
               Padded(t.hour, 2) + Padded(t.minute, 2) + Padded(t.second, 2), suffix);
    DateSlices(Padded(t.year, 4), Padded(t.month, 2), Padded(t.day, 2),
               Padded(t.hour, 2) + Padded(t.minute, 2) + Padded(t.second, 2) + suffix);
    var digits := Padded(t.year, 4) + Padded(t.month, 2) + Padded(t.day, 2)
                  + Padded(t.hour, 2) + Padded(t.minute, 2) + Padded(t.second, 2) + suffix;
    assert digits == Padded(t.year, 4) + Padded(t.month, 2) + Padded(t.day, 2)
                     + (Padded(t.hour, 2) + Padded(t.minute, 2) + Padded(t.second, 2) + suffix);
  }

  lemma TimeSlices(date: string, time: string, suffix: string)
    requires |date| == 8 && |time| == 6
    ensures var no := "SO" + (date + time + suffix);
      no[10..16] == time && no[16..] == suffix
  {
    var no := "SO" + (date + time + suffix);
    assert no[10..] == time + suffix;
  }

  lemma DateSlices(y: string, m: string, d: string, rest: string)
    requires |y| == 4 && |m| == 2 && |d| == 2
    ensures var no := "SO" + (y + m + d + rest);
      no[2..6] == y && no[6..8] == m && no[8..10] == d
  {
    var no := "SO" + (y + m + d + rest);
    assert forall i :: 0 <= i < 4 ==> no[2 + i] == y[i];
    assert forall i :: 0 <= i < 2 ==> no[6 + i] == m[i] && no[8 + i] == d[i];
  }

  /** Parsing a generated transaction number gives back the date it was
      generated on. */
  lemma ParseGeneratedDate(t: DateTime, suffix: string)
    requires ValidDateTime(t) && 1000 <= t.year
    requires |suffix| == 6 && AllDigits(suffix)
    ensures ParseDate(GenerateTransactionNo(t, suffix)) == Some(Date(t.year, t.month, t.day))
  {
    GeneratedDateFields(t, suffix);
    PaddedParses(t.year, 4);
    PaddedParses(t.month, 2);
    PaddedParses(t.day, 2);
    ParseDateFields(GenerateTransactionNo(t, suffix), t.year, t.month, t.day);
  }

  /** `int()` skips leading white space. */
  lemma SpacedYearParses()
    ensures PyInt(" 202") == Some(202)
  {
    var y := " 202";
    assert TrimStart(y) == "202" by { assert y[1..] == "202"; }
    DigitsUntrimmed("202");
    PyIntOfDigits(y, "202");
    assert DigitsValue("202") == 202 by {
      assert "202"[..2] == "20";
      assert "20"[..1] == "2";
      assert "2"[..0] == "";
    }
  }

  /** A number starting with "SO" whose characters 2 to 9 read, under
      `int()`, as a valid year, month and day parses to that date. */
  lemma ParseDateFields(no: string, year: int, month: int, day: int)
    requires |no| >= 16 && no[..2] == "SO"
    requires PyInt(no[2..6]) == Some(year) && PyInt(no[6..8]) == Some(month) && PyInt(no[8..10]) == Some(day)
    requires ValidDate(year, month, day)
    ensures ParseDate(no) == Some(Date(year, month, day))
  {
    DatePartSlices(no);
  }

  /** The source's `date_part[:4]`, `[4:6]` and `[6:8]` of `no[2:10]` are
      characters 2 to 5, 6 to 7 and 8 to 9 of the number. */
  lemma DatePartSlices(no: string)
    requires |no| >= 10
    ensures no[2..10][..4] == no[2..6] && no[2..10][4..6] == no[6..8] && no[2..10][6..8] == no[8..10]
  {
    var part := no[2..10];
    assert forall i :: 0 <= i < 8 ==> part[i] == no[2 + i];
  }

  /** `int()` also accepts a sign, spaces and underscores, so a number
      whose date characters are " 202" followed by "0101" still parses:
      the parser accepts more than the generator produces. */
  lemma ParseAcceptsUnpaddedYear()
    ensures ParseDate("SO 2020101000000") == Some(Date(202, 1, 1))
  {
    var no := "SO 2020101000000";
    assert no[..2] == "SO" && no[2..6] == " 202" && no[6..8] == "01" && no[8..10] == "01";
    SpacedYearParses();
    assert Padded(1, 2) == "01";
    PaddedParses(1, 2);
    ParseDateFields(no, 202, 1, 1);
  }
}
