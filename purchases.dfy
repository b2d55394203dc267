/** The purchase-order state machine: create, pay, return and arrive.
    Status moves Unpaid -> Paid -> Arrived, or Unpaid -> Returned; paying
    appends a purchase bill and arrival adds the ordered copies to stock. */
module Purchases {
  import opened DbModels

  /** Details for registering a book that is not yet in the catalogue. */
  datatype BookInfo = BookInfo(title: string, author: Option<string>, publisher: Option<string>, retailPrice: Option<int>)

  datatype PurchaseRequest = PurchaseRequest(isbn: string, quantity: int, purchasePrice: int, bookInfo: Option<BookInfo>)

  /** The book registered from `info`: no stock, and only the optional
      fields the request actually supplies. */
  function NewBook(info: BookInfo): Book
  {
    Book(Some(info.title), info.publisher, info.author, info.retailPrice, 0)
  }

  /** The order a request creates: total is quantity times unit price, and
      the status starts unpaid with only the creating operator recorded. */
  function NewOrder(req: PurchaseRequest, caller: string, now: int): PurchaseOrder
  {
    PurchaseOrder(req.isbn, req.purchasePrice, req.quantity, req.quantity * req.purchasePrice,
                  now, Unpaid, caller, None, None)
  }

  /** The order insert: the new row under the next id, which advances;
      nothing else changes. */
  function WithOrder(db: Db, req: PurchaseRequest, caller: string, now: int): Db
  {
    db.(purchaseOrders := db.purchaseOrders[db.nextPurchaseId := NewOrder(req, caller, now)],
        nextPurchaseId := db.nextPurchaseId + 1)
  }

  /** Inserting the order row in its own transaction. */
  function PlaceOrder(db: Db, req: PurchaseRequest, caller: string, now: int): Reply
  {
    CommitReply(db, WithOrder(db, req, caller, now), 500)
  }

  /** `create_purchase_order`. An unknown ISBN with book details first
      registers the book and commits it; the order insert that follows is
      a second transaction, so the book stays even if the order fails. */
  function CreatePurchaseOrder(db: Db, req: PurchaseRequest, caller: string, now: int): Reply
  {
    if !IsThirteenDigits(req.isbn) then Reply(400, db)
    else if req.isbn in db.books then PlaceOrder(db, req, caller, now)
    else if req.bookInfo.None? then Reply(400, db)
    else
      var registered := CommitReply(db, db.(books := db.books[req.isbn := NewBook(req.bookInfo.value)]), 400);
      if registered.code != 200 then registered
      else PlaceOrder(registered.db, req, caller, now)
  }

  /** `pay_purchase_order` */
  function PayPurchaseOrder(db: Db, id: int, caller: string, now: int): Reply
  {
    if id !in db.purchaseOrders then Reply(404, db)
    else
      var o := db.purchaseOrders[id];
      if o.status != Unpaid then Reply(400, db)
      else
        CommitReply(db, db.(purchaseOrders := db.purchaseOrders[id := o.(status := Paid, operatorId2 := Some(caller))],
                            bills := db.bills + [Bill(PurchaseBill, o.totalAmount, now, Some(id), Some(caller))]), 500)
  }

  /** `return_purchase_order` */
  function ReturnPurchaseOrder(db: Db, id: int, caller: string): Reply
  {
    if id !in db.purchaseOrders then Reply(404, db)
    else
      var o := db.purchaseOrders[id];
      if o.status != Unpaid then Reply(400, db)
      else
        CommitReply(db, db.(purchaseOrders := db.purchaseOrders[id := o.(status := Returned, operatorId2 := Some(caller))]), 500)
  }

  /** A book whose retail price is missing or zero. */
  predicate Unpriced(b: Book)
  {
    b.retailPrice.None? || b.retailPrice.value == 0
  }

  /** The book after arrival: stock grows by the order quantity, and the
      supplied price is written only when the book had none. */
  function Restocked(b: Book, quantity: int, retailPrice: Option<int>): Book
  {
    var stocked := b.(stock := b.stock + quantity);
    if Unpriced(b) then stocked.(retailPrice := retailPrice) else stocked
  }

  /** `arrive_purchase_order`. A missing book row makes the handler fail
      on `None` (500). */
  function ArrivePurchaseOrder(db: Db, id: int, caller: string, retailPrice: Option<int>): Reply
  {
    if id !in db.purchaseOrders then Reply(404, db)
    else
      var o := db.purchaseOrders[id];
      if o.status != Paid then Reply(400, db)
      else if o.bookIsbn !in db.books then Reply(500, db)
      else
        var b := db.books[o.bookIsbn];
        if Unpriced(b) && retailPrice.None? then Reply(400, db)
        else
          CommitReply(db, db.(purchaseOrders := db.purchaseOrders[id := o.(status := Arrived, operatorId3 := Some(caller))],
                              books := db.books[o.bookIsbn := Restocked(b, o.quantity, retailPrice)]), 500)
  }

  // ---------------------------------------------------------------------
  // Properties of the handlers

  /** Creating an order: the ISBN check and the unknown-book check come
      first and change nothing. An unknown book is registered from the
      request's details, and a row the database refuses is 400 with
      nothing changed. A created order is unpaid, attributed to the caller
      and priced at quantity times unit price; the new state is the old
      one with at most the registered book and the new order added. */
  lemma CreatePurchaseOrderSpec(db: Db, req: PurchaseRequest, caller: string, now: int)
    ensures var r := CreatePurchaseOrder(db, req, caller, now);
      && (!IsThirteenDigits(req.isbn) ==> r == Reply(400, db))
      && (IsThirteenDigits(req.isbn) && req.isbn !in db.books && req.bookInfo.None? ==> r == Reply(400, db))
      && ((IsThirteenDigits(req.isbn) && req.isbn !in db.books && req.bookInfo.Some?
           && !BookOk(req.isbn, NewBook(req.bookInfo.value))) ==> r == Reply(400, db))
      && ((IsThirteenDigits(req.isbn) && req.isbn !in db.books && req.bookInfo.Some?
           && BookOk(req.isbn, NewBook(req.bookInfo.value))) ==>
            r == PlaceOrder(db.(books := db.books[req.isbn := NewBook(req.bookInfo.value)]), req, caller, now))
      && (IsThirteenDigits(req.isbn) && req.isbn in db.books ==> r == PlaceOrder(db, req, caller, now))
      && (r.code == 200 ==>
            && IsThirteenDigits(req.isbn)
            && (req.isbn in db.books ==> r.db == WithOrder(db, req, caller, now))
            && (req.isbn !in db.books ==>
                  && req.bookInfo.Some?
                  && r.db == WithOrder(db.(books := db.books[req.isbn := NewBook(req.bookInfo.value)]), req, caller, now))
            && r.db.bills == db.bills
            && r.db.saleOrders == db.saleOrders
            && r.db.users == db.users
            && r.db.sessions == db.sessions
            && req.isbn in r.db.books
            && r.db.books[req.isbn].stock == (if req.isbn in db.books then db.books[req.isbn].stock else 0)
            && (forall k :: k in db.books ==> k in r.db.books && r.db.books[k] == db.books[k])
            && r.db.purchaseOrders[db.nextPurchaseId] == NewOrder(req, caller, now)
            && r.db.purchaseOrders[db.nextPurchaseId].status == Unpaid
            && r.db.purchaseOrders[db.nextPurchaseId].operatorId == caller
            && r.db.purchaseOrders[db.nextPurchaseId].totalAmount == req.quantity * req.purchasePrice)
  {
    if IsThirteenDigits(req.isbn) && req.isbn !in db.books && req.bookInfo.Some? {
      var after := db.(books := db.books[req.isbn := NewBook(req.bookInfo.value)]);
      assert req.isbn in after.books && Touched(db.books, after.books, req.isbn);
    }
  }

  /** A new book is committed before, and independently of, the order:
      when the order insert fails the book is still there. */
  lemma NewBookSurvivesFailedOrder(db: Db, req: PurchaseRequest, caller: string, now: int)
    requires IsThirteenDigits(req.isbn) && req.isbn !in db.books && req.bookInfo.Some?
    requires var info := req.bookInfo.value; info.retailPrice.Some? ==> info.retailPrice.value > 0
    requires req.quantity <= 0 && db.nextPurchaseId !in db.purchaseOrders
    ensures var r := CreatePurchaseOrder(db, req, caller, now);
      && r.code == 500
      && r.db == db.(books := db.books[req.isbn := NewBook(req.bookInfo.value)])
  {
    var r1 := db.(books := db.books[req.isbn := NewBook(req.bookInfo.value)]);
    assert ChangedRowsOk(db, r1);
    var r2 := r1.(purchaseOrders := r1.purchaseOrders[r1.nextPurchaseId := NewOrder(req, caller, now)],
                  nextPurchaseId := r1.nextPurchaseId + 1);
    assert r1.nextPurchaseId in r2.purchaseOrders && Touched(r1.purchaseOrders, r2.purchaseOrders, r1.nextPurchaseId);
    assert !ChangedRowsOk(r1, r2);
  }

  /** Pay: a missing order is 404 and any status but unpaid is 400, both
      with nothing changed; otherwise the order becomes paid by the caller
      and exactly one purchase bill for its total is appended, and nothing
      else changes. Stock is never touched. */
  lemma PaySpec(db: Db, id: int, caller: string, now: int)
    requires DbOk(db)
    ensures var r := PayPurchaseOrder(db, id, caller, now);
      && r.db.books == db.books
      && (id !in db.purchaseOrders ==> r == Reply(404, db))
      && (id in db.purchaseOrders && db.purchaseOrders[id].status != Unpaid ==> r == Reply(400, db))
      && (id in db.purchaseOrders && db.purchaseOrders[id].status == Unpaid ==>
            && r.code == 200
            && r.db.purchaseOrders == db.purchaseOrders[id := db.purchaseOrders[id].(status := Paid, operatorId2 := Some(caller))]
            && r.db.bills == db.bills + [Bill(PurchaseBill, db.purchaseOrders[id].totalAmount, now, Some(id), Some(caller))]
            && r.db.(purchaseOrders := db.purchaseOrders, bills := db.bills) == db)
  {
    if id in db.purchaseOrders && db.purchaseOrders[id].status == Unpaid {
      var o := db.purchaseOrders[id];
      var after := db.(purchaseOrders := db.purchaseOrders[id := o.(status := Paid, operatorId2 := Some(caller))],
                       bills := db.bills + [Bill(PurchaseBill, o.totalAmount, now, Some(id), Some(caller))]);
      assert PurchaseOrderOk(o);
      assert ChangedRowsOk(db, after);
    }
  }

  /** Return: allowed only from unpaid; records the caller, adds no bill,
      leaves stock alone and changes nothing but that one order. */
  lemma ReturnSpec(db: Db, id: int, caller: string)
    requires DbOk(db)
    ensures var r := ReturnPurchaseOrder(db, id, caller);
      && r.db.books == db.books && r.db.bills == db.bills
      && (id !in db.purchaseOrders ==> r == Reply(404, db))
      && (id in db.purchaseOrders && db.purchaseOrders[id].status != Unpaid ==> r == Reply(400, db))
      && (id in db.purchaseOrders && db.purchaseOrders[id].status == Unpaid ==>
            && r.code == 200
            && r.db == db.(purchaseOrders := db.purchaseOrders[id := db.purchaseOrders[id].(status := Returned, operatorId2 := Some(caller))]))
  {
    if id in db.purchaseOrders && db.purchaseOrders[id].status == Unpaid {
      var o := db.purchaseOrders[id];
      assert PurchaseOrderOk(o);
      assert ChangedRowsOk(db, db.(purchaseOrders := db.purchaseOrders[id := o.(status := Returned, operatorId2 := Some(caller))]));
    }
  }

  /** Arrive: allowed only from paid; it adds exactly the order quantity to
      the book's stock and records the caller. An unpriced book needs a
      price (400 without one); a priced book keeps its price whatever is
      supplied. The book keeps its title, author and publisher, and nothing
      but that order and that book changes. A paid order whose book row is
      gone is 500, and so is a price of zero or less written to an unpriced
      book, which the price constraint refuses at the commit. */
  lemma ArriveSpec(db: Db, id: int, caller: string, retailPrice: Option<int>)
    requires DbOk(db)
    ensures var r := ArrivePurchaseOrder(db, id, caller, retailPrice);
      && r.db.bills == db.bills
      && (r.code != 200 ==> r.db == db)
      && (id !in db.purchaseOrders ==> r == Reply(404, db))
      && (id in db.purchaseOrders && db.purchaseOrders[id].status != Paid ==> r == Reply(400, db))
      && (r.code == 200 ==>
            var o := db.purchaseOrders[id];
            && o.bookIsbn in db.books
            && r.db.purchaseOrders == db.purchaseOrders[id := o.(status := Arrived, operatorId3 := Some(caller))]
            && r.db.books.Keys == db.books.Keys
            && r.db.books[o.bookIsbn] == db.books[o.bookIsbn].(stock := r.db.books[o.bookIsbn].stock,
                                                             retailPrice := r.db.books[o.bookIsbn].retailPrice)
            && r.db.(purchaseOrders := db.purchaseOrders, books := db.books) == db
            && r.db.books[o.bookIsbn].stock == db.books[o.bookIsbn].stock + o.quantity
            && r.db.books[o.bookIsbn].retailPrice
               == (if Unpriced(db.books[o.bookIsbn]) then retailPrice else db.books[o.bookIsbn].retailPrice)
            && forall k :: k in db.books && k != o.bookIsbn ==> r.db.books[k] == db.books[k])
      && ((id in db.purchaseOrders && db.purchaseOrders[id].status == Paid && db.purchaseOrders[id].bookIsbn !in db.books)
          ==> r == Reply(500, db))
      && ((id in db.purchaseOrders && db.purchaseOrders[id].status == Paid && db.purchaseOrders[id].bookIsbn in db.books
           && Unpriced(db.books[db.purchaseOrders[id].bookIsbn]) && retailPrice.None?) ==> r == Reply(400, db))
      && ((id in db.purchaseOrders && db.purchaseOrders[id].status == Paid && db.purchaseOrders[id].bookIsbn in db.books
           && Unpriced(db.books[db.purchaseOrders[id].bookIsbn]) && retailPrice.Some? && retailPrice.value <= 0)
          ==> r == Reply(500, db))
      && ((id in db.purchaseOrders && db.purchaseOrders[id].status == Paid && db.purchaseOrders[id].bookIsbn in db.books
           && (retailPrice.Some? ==> retailPrice.value > 0)
           && (!Unpriced(db.books[db.purchaseOrders[id].bookIsbn]) || retailPrice.Some?)) ==> r.code == 200)
  {
    if id in db.purchaseOrders && db.purchaseOrders[id].status == Paid && db.purchaseOrders[id].bookIsbn in db.books {
      var o := db.purchaseOrders[id];
      var b := db.books[o.bookIsbn];
      if (retailPrice.Some? ==> retailPrice.value > 0) && (!Unpriced(b) || retailPrice.Some?) {
        assert PurchaseOrderOk(o) && BookOk(o.bookIsbn, b);
        var after := db.(purchaseOrders := db.purchaseOrders[id := o.(status := Arrived, operatorId3 := Some(caller))],
                         books := db.books[o.bookIsbn := Restocked(b, o.quantity, retailPrice)]);
        assert BookOk(o.bookIsbn, Restocked(b, o.quantity, retailPrice));
        assert ChangedRowsOk(db, after);
      }
    }
  }

  /** Each transition needs a specific prior status, so paying or
      delivering the same order twice fails the second time and changes
      nothing: stock grows once and one bill is written. */
  lemma {:induction false} RepeatedTransitionsFail(db: Db, id: int, caller: string, now: int, retailPrice: Option<int>)
    ensures var r := PayPurchaseOrder(db, id, caller, now);
      r.code == 200 ==> PayPurchaseOrder(r.db, id, caller, now) == Reply(400, r.db)
    ensures var r := ArrivePurchaseOrder(db, id, caller, retailPrice);
      r.code == 200 ==> ArrivePurchaseOrder(r.db, id, caller, retailPrice) == Reply(400, r.db)
    ensures var r := ReturnPurchaseOrder(db, id, caller);
      r.code == 200 ==> PayPurchaseOrder(r.db, id, caller, now) == Reply(400, r.db)
  {
  }

  /** Every successful transition keeps the operator/status constraints of
      the order it changes (operator 2 set iff not unpaid, operator 3 set
      iff arrived). */
  lemma TransitionsKeepOperatorRules(db: Db, id: int, caller: string, now: int, retailPrice: Option<int>)
    requires DbOk(db)
    ensures var r := PayPurchaseOrder(db, id, caller, now);
      r.code == 200 ==> PurchaseOrderOk(r.db.purchaseOrders[id]) && r.db.purchaseOrders[id].operatorId2 == Some(caller)
    ensures var r := ReturnPurchaseOrder(db, id, caller);
      r.code == 200 ==> PurchaseOrderOk(r.db.purchaseOrders[id]) && r.db.purchaseOrders[id].operatorId2 == Some(caller)
    ensures var r := ArrivePurchaseOrder(db, id, caller, retailPrice);
      r.code == 200 ==> PurchaseOrderOk(r.db.purchaseOrders[id]) && r.db.purchaseOrders[id].operatorId3 == Some(caller)
  {
    var r := PayPurchaseOrder(db, id, caller, now);
    if r.code == 200 { CommitOutcome(db, r.db, 500); }
    r := ReturnPurchaseOrder(db, id, caller);
    if r.code == 200 { CommitOutcome(db, r.db, 500); }
    r := ArrivePurchaseOrder(db, id, caller, retailPrice);
    if r.code == 200 { CommitOutcome(db, r.db, 500); }
  }

  // ---------------------------------------------------------------------
  // The handlers keep the ledger consistent with the orders

  /** Inserting a fresh, unpaid order whose book exists keeps the tables
      consistent. */
  lemma PlaceOrderPreservesConsistent(db: Db, req: PurchaseRequest, caller: string, now: int)
    requires Consistent(db) && req.isbn in db.books
    ensures Consistent(PlaceOrder(db, req, caller, now).db)
  {
    var r := PlaceOrder(db, req, caller, now);
    if r.code == 200 {
      var id := db.nextPurchaseId;
      var after := db.(purchaseOrders := db.purchaseOrders[id := NewOrder(req, caller, now)], nextPurchaseId := id + 1);
      assert r.db == after;
      CommitOutcome(db, after, 500);
      assert id !in db.purchaseOrders;
      FreshIdHasNoBills(db, PurchaseBill, id);
      BillsStillMatch(db, after);
      assert IdsBelowCounters(after);
      assert BooksReferenced(after);
      assert TotalsMatch(after);
      assert BillsCounted(after);
    }
  }

  lemma CreatePurchaseOrderPreservesConsistent(db: Db, req: PurchaseRequest, caller: string, now: int)
    requires Consistent(db)
    ensures Consistent(CreatePurchaseOrder(db, req, caller, now).db)
  {
    if IsThirteenDigits(req.isbn) && req.isbn in db.books {
      PlaceOrderPreservesConsistent(db, req, caller, now);
    } else if IsThirteenDigits(req.isbn) && req.bookInfo.Some? {
      var withBook := db.(books := db.books[req.isbn := NewBook(req.bookInfo.value)]);
      var reg := CommitReply(db, withBook, 400);
      CommitOutcome(db, withBook, 400);
      if reg.code == 200 {
        BillsStillMatch(db, withBook);
        assert BooksReferenced(withBook);
        assert Consistent(withBook);
        PlaceOrderPreservesConsistent(withBook, req, caller, now);
      }
    }
  }

  /** Paying an unpaid order and appending its one bill keeps every
      order's bill count in line with its status. */
  lemma PaidBillCounted(db: Db, id: int, paid: PurchaseOrder, bill: Bill)
    requires BillsCounted(db) && id in db.purchaseOrders && !Paying(db.purchaseOrders[id].status)
    requires Paying(paid.status) && bill.billType == PurchaseBill && bill.relatedOrder == Some(id)
    ensures BillsCounted(db.(purchaseOrders := db.purchaseOrders[id := paid], bills := db.bills + [bill]))
  {
    var after := db.(purchaseOrders := db.purchaseOrders[id := paid], bills := db.bills + [bill]);
    forall k | k in after.purchaseOrders
      ensures CountBills(after.bills, PurchaseBill, k) == (if Paying(after.purchaseOrders[k].status) then 1 else 0)
    {
      CountBillsAppend(db.bills, bill, PurchaseBill, k);
    }
    forall k | k in after.saleOrders ensures CountBills(after.bills, SaleBill, k) == 1 {
      CountBillsAppend(db.bills, bill, SaleBill, k);
    }
  }

  lemma PayPreservesConsistent(db: Db, id: int, caller: string, now: int)
    requires Consistent(db)
    ensures Consistent(PayPurchaseOrder(db, id, caller, now).db)
  {
    var r := PayPurchaseOrder(db, id, caller, now);
    if r.code == 200 {
      var o := db.purchaseOrders[id];
      var paid := o.(status := Paid, operatorId2 := Some(caller));
      var bill := Bill(PurchaseBill, o.totalAmount, now, Some(id), Some(caller));
      var after := db.(purchaseOrders := db.purchaseOrders[id := paid], bills := db.bills + [bill]);
      assert r.db == after;
      CommitOutcome(db, after, 500);
      assert after.bills[..|db.bills|] == db.bills;
      assert BillMatchesOrder(after, after.bills[|db.bills|]);
      BillsStillMatch(db, after);
      PaidBillCounted(db, id, paid, bill);
      assert IdsBelowCounters(after);
      assert BooksReferenced(after);
      assert TotalsMatch(after);
    }
  }

  lemma ReturnPreservesConsistent(db: Db, id: int, caller: string)
    requires Consistent(db)
    ensures Consistent(ReturnPurchaseOrder(db, id, caller).db)
  {
    var r := ReturnPurchaseOrder(db, id, caller);
    if r.code == 200 {
      var o := db.purchaseOrders[id];
      var after := db.(purchaseOrders := db.purchaseOrders[id := o.(status := Returned, operatorId2 := Some(caller))]);
      assert r.db == after;
      CommitOutcome(db, after, 500);
      BillsStillMatch(db, after);
      assert IdsBelowCounters(after);
      assert BooksReferenced(after);
      assert TotalsMatch(after);
      assert BillsCounted(after);
    }
  }

  lemma ArrivePreservesConsistent(db: Db, id: int, caller: string, retailPrice: Option<int>)
    requires Consistent(db)
    ensures Consistent(ArrivePurchaseOrder(db, id, caller, retailPrice).db)
  {
    var r := ArrivePurchaseOrder(db, id, caller, retailPrice);
    if r.code == 200 {
      var o := db.purchaseOrders[id];
      var b := db.books[o.bookIsbn];
      var after := db.(purchaseOrders := db.purchaseOrders[id := o.(status := Arrived, operatorId3 := Some(caller))],
                       books := db.books[o.bookIsbn := Restocked(b, o.quantity, retailPrice)]);
      assert r.db == after;
      CommitOutcome(db, after, 500);
      BillsStillMatch(db, after);
      assert IdsBelowCounters(after);
      assert BooksReferenced(after);
      assert TotalsMatch(after);
      assert BillsCounted(after);
    }
  }

  /** The worked lifecycle: an order of 10 copies at 5.00 totals 50.00;
      paying writes one 50.00 purchase bill; arrival of a book with no
      price and none supplied is refused; with 9.99 supplied the stock grows
      by 10 and the price becomes 9.99. */
  lemma PurchaseLifecycleExample(caller: string)
    ensures var isbn := "9780000000001";
      var r1 := CreatePurchaseOrder(EmptyDb(), PurchaseRequest(isbn, 10, 500, Some(BookInfo("Title", None, None, None))), caller, 0);
      var r2 := PayPurchaseOrder(r1.db, 1, caller, 1);
      var r4 := ArrivePurchaseOrder(r2.db, 1, caller, Some(999));
      && r1.code == 200 && 1 in r1.db.purchaseOrders && r1.db.purchaseOrders[1].totalAmount == 5000
      && r2.code == 200 && r2.db.bills == [Bill(PurchaseBill, 5000, 1, Some(1), Some(caller))]
      && ArrivePurchaseOrder(r2.db, 1, caller, None) == Reply(400, r2.db)
      && r4.code == 200 && isbn in r4.db.books
      && r4.db.books[isbn].stock == 10 && r4.db.books[isbn].retailPrice == Some(999)
  {
    var isbn := "9780000000001";
    var o := NewOrder(ExampleRequest(), caller, 0);
    ExampleOrderCreated(caller);
    ExamplePaid(caller);
    ExampleArrived(caller);
    assert ExampleOrdered(caller).purchaseOrders[1] == o;
    assert ArrivePurchaseOrder(ExamplePaidDb(caller), 1, caller, None) == Reply(400, ExamplePaidDb(caller));
  }

  /** The request of the worked lifecycle: ten copies of a new book at 5.00. */
  function ExampleRequest(): PurchaseRequest
  {
    PurchaseRequest("9780000000001", 10, 500, Some(BookInfo("Title", None, None, None)))
  }

  function ExampleOrdered(caller: string): Db
  {
    EmptyDb().(books := map["9780000000001" := NewBook(ExampleRequest().bookInfo.value)],
               purchaseOrders := map[1 := NewOrder(ExampleRequest(), caller, 0)], nextPurchaseId := 2)
  }

  function ExamplePaidDb(caller: string): Db
  {
    var o := NewOrder(ExampleRequest(), caller, 0);
    ExampleOrdered(caller).(purchaseOrders := map[1 := o.(status := Paid, operatorId2 := Some(caller))],
                            bills := [Bill(PurchaseBill, 5000, 1, Some(1), Some(caller))])
  }

  /** The first step of the worked lifecycle: the new book and the order. */
  lemma ExampleOrderCreated(caller: string)
    ensures CreatePurchaseOrder(EmptyDb(), ExampleRequest(), caller, 0) == Reply(200, ExampleOrdered(caller))
  {
    var isbn := "9780000000001";
    var db0 := EmptyDb();
    var req := ExampleRequest();
    assert IsThirteenDigits(isbn);
    var withBook := db0.(books := db0.books[isbn := NewBook(req.bookInfo.value)]);
    assert ChangedRowsOk(db0, withBook);
    assert ChangedRowsOk(withBook, ExampleOrdered(caller));
  }

  /** Paying the order writes one 50.00 purchase bill. */
  lemma ExamplePaid(caller: string)
    ensures PayPurchaseOrder(ExampleOrdered(caller), 1, caller, 1) == Reply(200, ExamplePaidDb(caller))
  {
    var d1, d2 := ExampleOrdered(caller), ExamplePaidDb(caller);
    assert d1.purchaseOrders[1].totalAmount == 5000;
    assert d1.bills + [Bill(PurchaseBill, 5000, 1, Some(1), Some(caller))] == d2.bills;
    assert ChangedRowsOk(d1, d2);
  }

  /** Arrival with a price restocks the new book and prices it. */
  lemma ExampleArrived(caller: string)
    ensures var r := ArrivePurchaseOrder(ExamplePaidDb(caller), 1, caller, Some(999));
      && r.code == 200 && "9780000000001" in r.db.books
      && r.db.books["9780000000001"].stock == 10 && r.db.books["9780000000001"].retailPrice == Some(999)
  {
    var d2 := ExamplePaidDb(caller);
    var isbn := "9780000000001";
    var o := d2.purchaseOrders[1];
    var after := d2.(purchaseOrders := d2.purchaseOrders[1 := o.(status := Arrived, operatorId3 := Some(caller))],
                     books := d2.books[isbn := Restocked(d2.books[isbn], 10, Some(999))]);
    assert ChangedRowsOk(d2, after);
  }

  // ---------------------------------------------------------------------
  // The handlers on the store

  method CreatePurchaseOrderHandler(s: Store, req: PurchaseRequest, caller: string, now: int) returns (code: int)
    modifies s
    ensures Reply(code, s.State()) == CreatePurchaseOrder(old(s.State()), req, caller, now)
  {
    if !IsThirteenDigits(req.isbn) {
      return 400;
    }
    if req.isbn !in s.books {
      if req.bookInfo.None? {
        return 400;
      }
      var saved := s.State();
      s.books := s.books[req.isbn := NewBook(req.bookInfo.value)];
      code := s.CommitChanges(saved, 400);
      if code != 200 {
        return;
      }
    }
    var saved := s.State();
    var id := s.nextPurchaseId;
    s.purchaseOrders := s.purchaseOrders[id := NewOrder(req, caller, now)];
    s.nextPurchaseId := id + 1;
    code := s.CommitChanges(saved, 500);
  }

  method PayPurchaseOrderHandler(s: Store, id: int, caller: string, now: int) returns (code: int)
    modifies s
    ensures Reply(code, s.State()) == PayPurchaseOrder(old(s.State()), id, caller, now)
  {
    if id !in s.purchaseOrders {
      return 404;
    }
    var order := s.purchaseOrders[id];
    if order.status != Unpaid {
      return 400;
    }
    var saved := s.State();
    s.purchaseOrders := s.purchaseOrders[id := order.(status := Paid, operatorId2 := Some(caller))];
    s.bills := s.bills + [Bill(PurchaseBill, order.totalAmount, now, Some(id), Some(caller))];
    code := s.CommitChanges(saved, 500);
  }

  method ReturnPurchaseOrderHandler(s: Store, id: int, caller: string) returns (code: int)
    modifies s
    ensures Reply(code, s.State()) == ReturnPurchaseOrder(old(s.State()), id, caller)
  {
    if id !in s.purchaseOrders {
      return 404;
    }
    var order := s.purchaseOrders[id];
    if order.status != Unpaid {
      return 400;
    }
    var saved := s.State();
    s.purchaseOrders := s.purchaseOrders[id := order.(status := Returned, operatorId2 := Some(caller))];
    code := s.CommitChanges(saved, 500);
  }

  method ArrivePurchaseOrderHandler(s: Store, id: int, caller: string, retailPrice: Option<int>) returns (code: int)
    modifies s
    ensures Reply(code, s.State()) == ArrivePurchaseOrder(old(s.State()), id, caller, retailPrice)
  {
    if id !in s.purchaseOrders {
      return 404;
    }
    var order := s.purchaseOrders[id];
    if order.status != Paid {
      return 400;
    }
    var saved := s.State();
    s.purchaseOrders := s.purchaseOrders[id := order.(status := Arrived, operatorId3 := Some(caller))];
    if order.bookIsbn !in s.books {
      s.Rollback(saved);
      return 500;
    }
    var book := s.books[order.bookIsbn];
    var updated := book.(stock := book.stock + order.quantity);
    if Unpriced(book) {
      if retailPrice.None? {
        s.Rollback(saved);
        return 400;
      }
      updated := updated.(retailPrice := retailPrice);
    }
    s.books := s.books[order.bookIsbn := updated];
    code := s.CommitChanges(saved, 500);
  }
}
