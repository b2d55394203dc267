/** The tables of the bookstore database, their column constraints, and the
    store that the request handlers read and mutate.

    Money columns (`Numeric(10,2)`) are integer cents; timestamps are integer
    seconds. Every table is a map keyed by its primary key (ISBN, order id,
    username); the key is not repeated inside the row. */
module DbModels {

  datatype Option<T> = None | Some(value: T)

  /** Purchase-order payment status: 未付款, 已付款, 已退货, 已到货. */
  datatype PayStatus = Unpaid | Paid | Returned | Arrived

  /** Bill type: 进货 (purchase) or 零售 (retail sale). */
  datatype BillType = PurchaseBill | SaleBill

  datatype Book = Book(
    title: Option<string>,
    publisher: Option<string>,
    author: Option<string>,
    retailPrice: Option<int>,
    stock: int)

  datatype PurchaseOrder = PurchaseOrder(
    bookIsbn: string,
    purchasePrice: int,
    quantity: int,
    totalAmount: int,
    orderDate: int,
    status: PayStatus,
    operatorId: string,
    operatorId2: Option<string>,
    operatorId3: Option<string>)

  datatype SaleItem = SaleItem(bookIsbn: string, quantity: int, soldPrice: int, totalAmount: int)

  /** A sale order owns its items (they are removed with it). */
  datatype SaleOrder = SaleOrder(
    transactionNo: string,
    totalAmount: int,
    paymentMethod: Option<string>,
    items: seq<SaleItem>,
    operatorId: Option<string>,
    createdAt: int)

  datatype Bill = Bill(
    billType: BillType,
    amount: int,
    transactionTime: int,
    relatedOrder: Option<int>,
    operatorId: Option<string>)

  datatype User = User(
    employeeId: string,
    trueName: string,
    gender: string,
    age: Option<int>,
    isSuperAdmin: bool,
    passwordHash: string)

  /** A row of the login (session) table, keyed by username. */
  datatype LoginedUser = LoginedUser(
    employeeId: string,
    isSuperAdmin: bool,
    token: string,
    expirationTime: int)

  /** The whole database. Bills are only ever appended. The two counters
      stand for the autoincrement ids of the order tables. */
  datatype Db = Db(
    books: map<string, Book>,
    purchaseOrders: map<int, PurchaseOrder>,
    saleOrders: map<int, SaleOrder>,
    bills: seq<Bill>,
    users: map<string, User>,
    sessions: map<string, LoginedUser>,
    nextPurchaseId: int,
    nextSaleId: int)

  /** The outcome of a request: its HTTP status code and the database after it. */
  datatype Reply = Reply(code: int, db: Db)

  /** A field of a partial-update request: absent from the request, sent
      as an explicit null, or sent with a value. */
  datatype Patch<T> = Unset | SetNull | SetTo(value: T)

  predicate IsDigit(c: char) { '0' <= c <= '9' }

  /** The routers' ISBN check: exactly 13 characters, all digits. */
  predicate IsThirteenDigits(s: string)
  {
    |s| == 13 && forall i :: 0 <= i < |s| ==> IsDigit(s[i])
  }

  // ---------------------------------------------------------------------
  // Column constraints (CHECK, NOT NULL) row by row

  /** `LENGTH(isbn) = 13 AND isbn GLOB '[0-9]*'`: the glob only pins the
      first character to a digit. */
  predicate IsbnOk(isbn: string)
  {
    |isbn| == 13 && IsDigit(isbn[0])
  }

  predicate BookOk(isbn: string, b: Book)
  {
    && IsbnOk(isbn)
    && b.title.Some?
    && (b.retailPrice.Some? ==> b.retailPrice.value > 0)
    && b.stock >= 0
  }

  /** The CHECKs of purchase_orders, including the two operator/status rules. */
  predicate PurchaseOrderOk(o: PurchaseOrder)
  {
    && o.purchasePrice > 0
    && o.quantity > 0
    && o.totalAmount > 0
    && (o.operatorId2.None? <==> o.status == Unpaid)
    && (o.operatorId3.Some? <==> o.status == Arrived)
  }

  predicate SaleItemOk(i: SaleItem)
  {
    i.quantity > 0 && i.soldPrice > 0 && i.totalAmount > 0
  }

  predicate SaleOrderOk(o: SaleOrder)
  {
    o.totalAmount > 0 && forall k :: 0 <= k < |o.items| ==> SaleItemOk(o.items[k])
  }

  /** `amount > 0`, and bill_type is null iff related_order is null; since
      bill_type is NOT NULL, the related order must be present. */
  predicate BillOk(b: Bill)
  {
    b.amount > 0 && b.relatedOrder.Some?
  }

  // ---------------------------------------------------------------------
  // Whole-database constraints

  predicate UniqueTransactionNos(m: map<int, SaleOrder>)
  {
    forall a, b :: a in m && b in m && a != b ==> m[a].transactionNo != m[b].transactionNo
  }

  predicate UniqueUserEmployeeIds(m: map<string, User>)
  {
    forall a, b :: a in m && b in m && a != b ==> m[a].employeeId != m[b].employeeId
  }

  predicate UniqueSessionEmployeeIds(m: map<string, LoginedUser>)
  {
    forall a, b :: a in m && b in m && a != b ==> m[a].employeeId != m[b].employeeId
  }

  /** Every row satisfies its table's constraints. */
  predicate DbOk(db: Db)
  {
    && (forall k :: k in db.books ==> BookOk(k, db.books[k]))
    && (forall k :: k in db.purchaseOrders ==> PurchaseOrderOk(db.purchaseOrders[k]))
    && (forall k :: k in db.saleOrders ==> SaleOrderOk(db.saleOrders[k]))
    && (forall i :: 0 <= i < |db.bills| ==> BillOk(db.bills[i]))
    && UniqueTransactionNos(db.saleOrders)
    && UniqueUserEmployeeIds(db.users)
    && UniqueSessionEmployeeIds(db.sessions)
  }

  /** Row `k` of `after` was inserted or updated relative to `before`. */
  predicate Touched<K, V(==)>(before: map<K, V>, after: map<K, V>, k: K)
    requires k in after
  {
    k !in before || after[k] != before[k]
  }

  predicate TouchedBill(before: seq<Bill>, after: seq<Bill>, i: int)
    requires 0 <= i < |after|
  {
    i >= |before| || after[i] != before[i]
  }

  /** What the database checks when a transaction commits: the constraints
      of every row the transaction inserted or updated, and the unique
      columns of those rows against all others. Rows left alone are not
      re-checked. */
  predicate ChangedRowsOk(before: Db, after: Db)
  {
    && (forall k :: k in after.books && Touched(before.books, after.books, k) ==>
          BookOk(k, after.books[k]))
    && (forall k :: k in after.purchaseOrders && Touched(before.purchaseOrders, after.purchaseOrders, k) ==>
          PurchaseOrderOk(after.purchaseOrders[k]))
    && (forall k :: k in after.saleOrders && Touched(before.saleOrders, after.saleOrders, k) ==>
          SaleOrderOk(after.saleOrders[k]))
    && (forall i :: 0 <= i < |after.bills| && TouchedBill(before.bills, after.bills, i) ==>
          BillOk(after.bills[i]))
    && (forall a, b ::
          (a in after.saleOrders && b in after.saleOrders && a != b && Touched(before.saleOrders, after.saleOrders, a)) ==>
          after.saleOrders[a].transactionNo != after.saleOrders[b].transactionNo)
    && (forall a, b ::
          (a in after.users && b in after.users && a != b && Touched(before.users, after.users, a)) ==>
          after.users[a].employeeId != after.users[b].employeeId)
    && (forall a, b ::
          (a in after.sessions && b in after.sessions && a != b && Touched(before.sessions, after.sessions, a)) ==>
          after.sessions[a].employeeId != after.sessions[b].employeeId)
  }

  /** `db.commit()`: either every pending change is written, or the
      transaction rolls back and the request fails with `failCode`. */
  function CommitReply(before: Db, after: Db, failCode: int): Reply
  {
    if ChangedRowsOk(before, after) then Reply(200, after) else Reply(failCode, before)
  }

  /** A commit that the database accepts keeps every table constraint. */
  lemma CommitPreservesOk(before: Db, after: Db)
    requires DbOk(before) && ChangedRowsOk(before, after)
    ensures DbOk(after)
  {
    forall a, b | a in after.saleOrders && b in after.saleOrders && a != b
      ensures after.saleOrders[a].transactionNo != after.saleOrders[b].transactionNo
    {
      if (a in before.saleOrders && after.saleOrders[a] == before.saleOrders[a])
        && (b in before.saleOrders && after.saleOrders[b] == before.saleOrders[b])
      {
        assert before.saleOrders[a].transactionNo != before.saleOrders[b].transactionNo;
      }
    }
    forall a, b | a in after.users && b in after.users && a != b
      ensures after.users[a].employeeId != after.users[b].employeeId
    {
      if (a in before.users && after.users[a] == before.users[a])
        && (b in before.users && after.users[b] == before.users[b])
      {
        assert before.users[a].employeeId != before.users[b].employeeId;
      }
    }
    forall a, b | a in after.sessions && b in after.sessions && a != b
      ensures after.sessions[a].employeeId != after.sessions[b].employeeId
    {
      if (a in before.sessions && after.sessions[a] == before.sessions[a])
        && (b in before.sessions && after.sessions[b] == before.sessions[b])
      {
        assert before.sessions[a].employeeId != before.sessions[b].employeeId;
      }
    }
  }

  /** The result of a commit: on success the new state holds every constraint;
      on failure nothing changed. */
  lemma CommitOutcome(before: Db, after: Db, failCode: int)
    requires DbOk(before)
    ensures var r := CommitReply(before, after, failCode);
      (r.code == 200 && r.db == after && DbOk(after)) || (r.code == failCode && r.db == before)
  {
    if ChangedRowsOk(before, after) { CommitPreservesOk(before, after); }
  }

  /** The database constraint on ISBNs is strictly weaker than the routers'
      13-digit check: it lets letters through after the first character. */
  lemma IsbnConstraintWeakerThanRouterCheck(s: string)
    ensures IsThirteenDigits(s) ==> IsbnOk(s)
    ensures IsbnOk("9abcdefghijkl") && !IsThirteenDigits("9abcdefghijkl")
  {
    assert !IsDigit("9abcdefghijkl"[1]);
  }

  // ---------------------------------------------------------------------
  // Invariants the handlers maintain beyond the database constraints

  /** Number of bills of type `t` whose related order is `id`. */
  function CountBills(bills: seq<Bill>, t: BillType, id: int): (n: nat)
    ensures n <= |bills|
  {
    if bills == [] then 0
    else CountBills(bills[..|bills| - 1], t, id)
         + (if bills[|bills| - 1].billType == t && bills[|bills| - 1].relatedOrder == Some(id) then 1 else 0)
  }

  lemma {:induction false} CountBillsAppend(bills: seq<Bill>, b: Bill, t: BillType, id: int)
    ensures CountBills(bills + [b], t, id)
         == CountBills(bills, t, id) + (if b.billType == t && b.relatedOrder == Some(id) then 1 else 0)
  {
    assert (bills + [b])[..|bills|] == bills;
  }

  /** A positive count means some bill of that type refers to that order. */
  lemma {:induction false} CountBillsPositive(bills: seq<Bill>, t: BillType, id: int)
    ensures CountBills(bills, t, id) > 0 <==>
            exists i :: 0 <= i < |bills| && bills[i].billType == t && bills[i].relatedOrder == Some(id)
  {
    if bills != [] {
      var front := bills[..|bills| - 1];
      CountBillsPositive(front, t, id);
      if CountBills(front, t, id) > 0 {
        var i :| 0 <= i < |front| && front[i].billType == t && front[i].relatedOrder == Some(id);
        assert bills[i] == front[i];
      }
      if exists i :: 0 <= i < |bills| && bills[i].billType == t && bills[i].relatedOrder == Some(id) {
        var i :| 0 <= i < |bills| && bills[i].billType == t && bills[i].relatedOrder == Some(id);
        if i < |front| { assert front[i] == bills[i]; }
      }
    }
  }

  function ItemsTotal(items: seq<SaleItem>): int
  {
    if items == [] then 0 else ItemsTotal(items[..|items| - 1]) + items[|items| - 1].totalAmount
  }

  predicate Paying(s: PayStatus) { s == Paid || s == Arrived }

  /** A bill refers to an existing order of its own type and carries that
      order's total. */
  ghost predicate BillMatchesOrder(db: Db, b: Bill)
  {
    b.relatedOrder.Some? &&
    match b.billType
    case PurchaseBill =>
      b.relatedOrder.value in db.purchaseOrders
      && b.amount == db.purchaseOrders[b.relatedOrder.value].totalAmount
    case SaleBill =>
      b.relatedOrder.value in db.saleOrders
      && b.amount == db.saleOrders[b.relatedOrder.value].totalAmount
  }

  /** Order ids are below the next autoincrement value. */
  ghost predicate IdsBelowCounters(db: Db)
  {
    && (forall id :: id in db.purchaseOrders ==> id < db.nextPurchaseId)
    && (forall id :: id in db.saleOrders ==> id < db.nextSaleId)
  }

  /** Every book an order or a sale line names is in the catalogue. */
  ghost predicate BooksReferenced(db: Db)
  {
    && (forall id :: id in db.purchaseOrders ==> db.purchaseOrders[id].bookIsbn in db.books)
    && (forall id, k :: id in db.saleOrders && 0 <= k < |db.saleOrders[id].items| ==>
          db.saleOrders[id].items[k].bookIsbn in db.books)
  }

  /** Order totals: quantity times price for purchases, the sum of the line
      totals for sales. */
  ghost predicate TotalsMatch(db: Db)
  {
    && (forall id :: id in db.purchaseOrders ==>
          db.purchaseOrders[id].totalAmount == db.purchaseOrders[id].quantity * db.purchaseOrders[id].purchasePrice)
    && (forall id :: id in db.saleOrders ==> db.saleOrders[id].totalAmount == ItemsTotal(db.saleOrders[id].items))
  }

  ghost predicate BillsMatchOrders(db: Db)
  {
    forall i :: 0 <= i < |db.bills| ==> BillMatchesOrder(db, db.bills[i])
  }

  /** One purchase bill per paid or arrived purchase order, none otherwise;
      exactly one sale bill per sale order. */
  ghost predicate BillsCounted(db: Db)
  {
    && (forall id :: id in db.purchaseOrders ==>
          CountBills(db.bills, PurchaseBill, id) == (if Paying(db.purchaseOrders[id].status) then 1 else 0))
    && (forall id :: id in db.saleOrders ==> CountBills(db.bills, SaleBill, id) == 1)
  }

  /** The ledger, inventory and order tables agree with each other. */
  ghost predicate Consistent(db: Db)
  {
    && DbOk(db)
    && IdsBelowCounters(db)
    && BooksReferenced(db)
    && TotalsMatch(db)
    && BillsMatchOrders(db)
    && BillsCounted(db)
  }

  /** Bills refer only to existing orders, so an id that is not in use has no bill. */
  lemma FreshIdHasNoBills(db: Db, t: BillType, id: int)
    requires BillsMatchOrders(db)
    requires t == PurchaseBill ==> id !in db.purchaseOrders
    requires t == SaleBill ==> id !in db.saleOrders
    ensures CountBills(db.bills, t, id) == 0
  {
    forall i | 0 <= i < |db.bills| ensures !(db.bills[i].billType == t && db.bills[i].relatedOrder == Some(id)) {
      assert BillMatchesOrder(db, db.bills[i]);
    }
    CountBillsPositive(db.bills, t, id);
  }

  /** Bills keep matching their orders when no order disappears or changes
      its total, and every appended bill matches too. */
  lemma BillsStillMatch(db: Db, after: Db)
    requires BillsMatchOrders(db)
    requires forall id :: id in db.purchaseOrders ==>
               id in after.purchaseOrders && after.purchaseOrders[id].totalAmount == db.purchaseOrders[id].totalAmount
    requires forall id :: id in db.saleOrders ==>
               id in after.saleOrders && after.saleOrders[id].totalAmount == db.saleOrders[id].totalAmount
    requires |db.bills| <= |after.bills| && after.bills[..|db.bills|] == db.bills
    requires forall i :: |db.bills| <= i < |after.bills| ==> BillMatchesOrder(after, after.bills[i])
    ensures BillsMatchOrders(after)
  {
    forall i | 0 <= i < |after.bills| ensures BillMatchesOrder(after, after.bills[i]) {
      if i < |db.bills| {
        var b := db.bills[i];
        assert after.bills[i] == b;
        assert BillMatchesOrder(db, b);
        var id := b.relatedOrder.value;
        if b.billType == PurchaseBill {
          assert id in db.purchaseOrders;
        } else {
          assert id in db.saleOrders;
        }
      }
    }
  }

  function EmptyDb(): (db: Db)
    ensures Consistent(db)
  {
    Db(map[], map[], map[], [], map[], map[], 1, 1)
  }

  // ---------------------------------------------------------------------
  // The database session the handlers work on

  /** The database as the handlers see it through their session. Handlers
      change rows in place and then call `Commit`, which writes the pending
      changes or rolls all of them back. */
  class Store {
    var books: map<string, Book>
    var purchaseOrders: map<int, PurchaseOrder>
    var saleOrders: map<int, SaleOrder>
    var bills: seq<Bill>
    var users: map<string, User>
    var sessions: map<string, LoginedUser>
    var nextPurchaseId: int
    var nextSaleId: int

    function State(): Db
      reads this
    {
      Db(books, purchaseOrders, saleOrders, bills, users, sessions, nextPurchaseId, nextSaleId)
    }

    constructor ()
      ensures State() == EmptyDb()
    {
      books, purchaseOrders, saleOrders, bills := map[], map[], map[], [];
      users, sessions := map[], map[];
      nextPurchaseId, nextSaleId := 1, 1;
    }

    /** Discards every change made since `saved` was read. */
    method Rollback(saved: Db)
      modifies this
      ensures State() == saved
    {
      books, purchaseOrders, saleOrders, bills := saved.books, saved.purchaseOrders, saved.saleOrders, saved.bills;
      users, sessions := saved.users, saved.sessions;
      nextPurchaseId, nextSaleId := saved.nextPurchaseId, saved.nextSaleId;
    }

    /** Commits the changes made since `saved` was read, or rolls them back
        when a changed row breaks a constraint. */
    method CommitChanges(saved: Db, failCode: int) returns (code: int)
      modifies this
      ensures Reply(code, State()) == CommitReply(saved, old(State()), failCode)
    {
      if ChangedRowsOk(saved, State()) {
        code := 200;
      } else {
        Rollback(saved);
        code := failCode;
      }
    }
  }
}
