# Bookstore back end: a verified model

This project models the server core of a small bookstore management system. The server is a FastAPI application over an SQLite database accessed through SQLAlchemy. The model covers:

- the database tables and their column constraints (`server/db_models.py`);
- the purchase-order state machine: create, pay, return, arrive (`server/router/purchase_order_router.py`);
- the sale engine: the cart check that decrements stock in place, the sale with its bill, deletion that restores stock, the payment-method update, and the transaction-number generator and parser (`server/router/sale_order_router.py`);
- the book catalogue: create, delete, and the partial update (`server/router/book_router.py`);
- the user endpoints: registration, deletion, self-update, and the administrator's update (`server/router/user_router.py`);
- password hashing and the login (session) table: token creation, authentication with the purge of expired rows, and the administrator check (`server/auth.py`).

## How the model is built

- The database is a `Db` value.
  - Each table is a map keyed by its primary key (ISBN, order id, username); the bills are a sequence.
  - Two counters stand for the autoincrement ids of the order tables.
  - Money columns (`Numeric(10,2)`) are integer cents. Times are integer seconds.
- Each endpoint is specified by a function from the database before the request to a `Reply(code, db)`: the HTTP status code and the database afterwards.
- `CommitReply` models `db.commit()`:
  - the database checks the CHECK and UNIQUE constraints of every row the transaction inserted or updated (`ChangedRowsOk`);
  - it either writes every pending change or rolls all of them back, and the endpoint then answers with its own failure code.
- Each endpoint is also a method on the class `Store`. The store holds the same tables as fields and is changed in place, as the SQLAlchemy session is. Each such method is proved equal to its specification function.
- Loops in the source are loops in the methods:
  - the cart loop of a sale (`Sales.SellCart`);
  - the `setattr` loops of the updates;
  - the bill scan and stock restore of a sale deletion.
- Lemmas state what the endpoints promise. Around the lemmas sits a ledger invariant, `Consistent`:
  - every row satisfies its constraints;
  - ids lie below the counters;
  - every order names a catalogued book;
  - order totals match their items;
  - every bill matches its order;
  - there is exactly one purchase bill per paid or arrived purchase order, and one sale bill per sale.

  Every order and book endpoint is proved to keep `Consistent`.
- The user and session endpoints keep `Auth.SessionsMirrorUsers`: every session row belongs to a user and carries that user's current employee id and super-admin flag. This is what lets `admin_required` trust the session row (`Auth.AdminIsSuperAdminUser`).

## Where the behaviour is subtle

- Creating a purchase order with an unknown ISBN commits the new book in its own transaction before the order is inserted. A failed order therefore leaves the book behind.
- The cart check tests each line against stock already reduced by the earlier lines. Repeated lines for one book can therefore never oversell it.
- An empty cart reaches the commit with a total of 0, which the `total_amount > 0` constraint refuses (500).
- `delete_sale_order` refuses any order that some bill refers to, of either type. Every sale writes its bill in the same commit, so on a consistent database no sale order can be deleted.
- `update_sale_order` sets `remark`, which is not a column of the table, so only the payment method is ever stored.
- The database's ISBN constraint (`GLOB '[0-9]*'`) checks only the first character. The routers' 13-digit check is strictly stronger.
- `parse_date_from_transaction_no` uses Python's `int()`. That also accepts a leading space, a sign and underscores, so the parser accepts more than the generator produces.
- A stock field sent as an explicit null in `update_book_info` is stored, and the comparison `stock < 0` then raises a TypeError (500).
- In both user updates:
  - an empty gender string is falsy, so it slips past the gender check and is stored;
  - a field sent as null is skipped, but it still makes the request non-empty, so the session row is rewritten.

## Model

| member | source | states |
|---|---|---|
| `DbModels.CommitPreservesOk` | server/db_models.py:30-117 | a commit whose changed rows pass their CHECK and UNIQUE constraints leaves every row of every table valid |
| `DbModels.CommitOutcome` | server/router/book_router.py:259-267 | a commit either succeeds with a valid database or fails with the endpoint's code and nothing changed |
| `DbModels.IsbnConstraintWeakerThanRouterCheck` | server/db_models.py:37 | every ISBN of 13 digits passes the table's check, and "9abcdefghijkl" passes it without being 13 digits |
| `DbModels.CountBillsPositive` | server/router/sale_order_router.py:328-329 | the number of bills of a type for an order is positive exactly when such a bill exists |
| `DbModels.Store.CommitChanges` | server/router/purchase_order_router.py:71-80 | the store keeps the pending changes when the changed rows pass, and otherwise rolls back to the saved state and returns the failure code |
| `DbModels.Store.Rollback` | server/router/purchase_order_router.py:75-76 | after a rollback the store equals the state saved before the request |
| `Purchases.CreatePurchaseOrderSpec` | server/router/purchase_order_router.py:24-82 | a bad ISBN is 400, and an unknown ISBN without book details is 400, both with nothing changed; an unknown book whose row the database refuses is 400 with nothing changed, and one it accepts is registered from the request (title, supplied optional fields, no stock) before the order is placed; a created order is unpaid, attributed to the caller and totals quantity times unit price, and the new state is the old one plus that order, the advanced id and at most the registered book |
| `Purchases.NewBookSurvivesFailedOrder` | server/router/purchase_order_router.py:52-80 | when the order insert fails after a new book was registered, the book stays in the catalogue |
| `Purchases.PaySpec` | server/router/purchase_order_router.py:212-253 | unknown order 404, non-unpaid 400, both unchanged; otherwise the status becomes paid, the payer is recorded, exactly one purchase bill for the order total is appended, and no other table or counter changes; stock is never touched |
| `Purchases.ReturnSpec` | server/router/purchase_order_router.py:262-285 | unknown order 404 and non-unpaid 400; otherwise the status becomes returned with the caller recorded, and that order is the only change to the database |
| `Purchases.ArriveSpec` | server/router/purchase_order_router.py:295-329 | unknown order 404 and non-paid 400; a paid order whose book row is gone is 500; an unpriced book with no price supplied is 400, and one given a price of zero or less is 500 (the price constraint refuses the commit); every failure changes nothing; a success grows the stock by exactly the ordered quantity, writes the price only if the book had none, keeps the book's other fields, and changes nothing but that order and that book |
| `Purchases.RepeatedTransitionsFail` | server/router/purchase_order_router.py:212-303 | paying twice, arriving twice, or paying a returned order is refused with 400 |
| `Purchases.TransitionsKeepOperatorRules` | server/db_models.py:65-73 | every successful transition satisfies the status/operator constraints and records the caller in the right operator column |
| `Purchases.PlaceOrderPreservesConsistent` | server/router/purchase_order_router.py:62-80 | inserting an order for a catalogued book keeps the ledger invariant |
| `Purchases.CreatePurchaseOrderPreservesConsistent` | server/router/purchase_order_router.py:24-82 | creating a purchase order keeps the ledger invariant |
| `Purchases.PayPreservesConsistent` | server/router/purchase_order_router.py:212-253 | paying keeps the ledger invariant, including one bill per paid order |
| `Purchases.ReturnPreservesConsistent` | server/router/purchase_order_router.py:262-285 | returning keeps the ledger invariant |
| `Purchases.ArrivePreservesConsistent` | server/router/purchase_order_router.py:295-329 | arrival keeps the ledger invariant |
| `Purchases.PurchaseLifecycleExample` | server/router/purchase_order_router.py:17-329 | an order of 10 at 5.00 totals 50.00, paying it writes one 50.00 bill, arrival without a price is refused, and with 9.99 the stock becomes 10 at price 9.99 |
| `Purchases.CreatePurchaseOrderHandler` | server/router/purchase_order_router.py:18-82 | the handler's status code and new store are those of `CreatePurchaseOrder` |
| `Purchases.PayPurchaseOrderHandler` | server/router/purchase_order_router.py:206-253 | the handler's status code and new store are those of `PayPurchaseOrder` |
| `Purchases.ReturnPurchaseOrderHandler` | server/router/purchase_order_router.py:256-285 | the handler's status code and new store are those of `ReturnPurchaseOrder` |
| `Purchases.ArrivePurchaseOrderHandler` | server/router/purchase_order_router.py:288-329 | the handler's status code and new store are those of `ArrivePurchaseOrder` |
| `Sales.CheckCart` | server/router/sale_order_router.py:35-70 | a refused cart is 404 or 400; a sold cart has one item per line in cart order, and its total is the sum of the item totals |
| `Sales.CartKeepsBooks` | server/router/sale_order_router.py:59-60 | a checked cart changes only stock counts, never the set of books or any other field |
| `Sales.CartPricing` | server/router/sale_order_router.py:49-67 | every line is sold at its book's catalogue retail price, which is not zero, and the item total is price times quantity |
| `Sales.FirstFailureDecides` | server/router/sale_order_router.py:35-53 | the first refused line decides the error, whatever follows it |
| `Sales.CartStock` | server/router/sale_order_router.py:35-70 | after a successful check every book has lost exactly the copies the cart asks for, summed over repeated lines |
| `Sales.CartNeverOversells` | server/router/sale_order_router.py:42-60 | a checked cart never asks for more copies of a book than it had, and no stock goes negative |
| `Sales.SaleItemsOk` | server/db_models.py:96-98 | a sold item is a valid row exactly when its quantity is positive |
| `Sales.PositiveItemsPositiveTotal` | server/router/sale_order_router.py:55-57 | a non-empty list of valid items has a positive total |
| `Sales.CartBooksOk` | server/db_models.py:36-40 | the decremented books of a checked cart are valid rows |
| `Sales.CartOrderOk` | server/db_models.py:80-98 | a checked, non-empty cart of positive quantities makes a valid sale order |
| `Sales.SaleAccepted` | server/router/sale_order_router.py:82-94 | a checked, non-empty cart of positive quantities with a fresh transaction number commits |
| `Sales.EmptyCartRejected` | server/router/sale_order_router.py:32-100 | an empty cart is refused at commit with 500 and nothing changed |
| `Sales.NonPositiveLineRejected` | server/db_models.py:96 | a line with quantity below one makes the commit fail with 500 |
| `Sales.CreateSaleOrderSpec` | server/router/sale_order_router.py:29-107 | a refused cart changes nothing; a checked cart is sold exactly when it is non-empty with positive quantities, and then commits the decremented books, the order and one sale bill for its total |
| `Sales.DuplicateTransactionNoRejected` | server/router/sale_order_router.py:29-98 | a transaction number some order already holds breaks the unique index on `transaction_no`, so the sale is never answered 200 and nothing changes |
| `Sales.CreateSaleOrderPreservesConsistent` | server/router/sale_order_router.py:72-94 | a sale keeps the ledger invariant: the order totals its items, names catalogued books, and has exactly one sale bill |
| `Sales.SaleExample` | server/router/sale_order_router.py:35-94 | three copies at 20.00 from a stock of 5 leave 2, one 60.00 order and one 60.00 bill; asking for 3 of the 2 left is refused with nothing changed |
| `Sales.RestoreStock` | server/router/sale_order_router.py:337-340 | restoring keeps the set of books |
| `Sales.RestoreStockEffect` | server/router/sale_order_router.py:337-340 | every book gains back exactly the copies the items took, and nothing else changes |
| `Sales.RestoreUndoesSale` | server/router/sale_order_router.py:336-340 | restoring the items a successful cart check made gives back the books exactly as they were |
| `Sales.RestoredStockOk` | server/router/sale_order_router.py:337-340 | giving back positive quantities keeps every book row valid |
| `Sales.DeleteSaleOrderSpec` | server/router/sale_order_router.py:323-353 | unknown order 404, and any bill referring to the id 400, both unchanged; otherwise the order goes, every book gets back its copies, and no other table or counter changes |
| `Sales.DeleteAlwaysBlockedWhenConsistent` | server/router/sale_order_router.py:328-333 | on a consistent database, deleting an existing sale order is always refused with 400 |
| `Sales.UpdateSaleOrderSpec` | server/router/sale_order_router.py:293-308 | an unknown order is 404; otherwise only the payment method changes, and only when one is given |
| `Sales.DeleteAndUpdatePreserveConsistent` | server/router/sale_order_router.py:293-353 | deletion and update keep the ledger invariant |
| `Sales.SellOne` | server/router/sale_order_router.py:36-70 | one iteration of the cart loop on the session gives exactly `SellLine`'s outcome: a refused line changes nothing, and a sold one leaves only the decremented book in the store |
| `Sales.SellCart` | server/router/sale_order_router.py:35-70 | the in-place cart loop returns exactly `CheckCart` of the books before it, and leaves the decremented books in the store when it sells |
| `Sales.CreateSaleOrderHandler` | server/router/sale_order_router.py:19-107 | the handler's status code and new store are those of `CreateSaleOrder` |
| `Sales.DeleteSaleOrderHandler` | server/router/sale_order_router.py:314-353 | the handler's bill scan and stock-restoring loop give the status code and store of `DeleteSaleOrder` |
| `Sales.UpdateSaleOrderHandler` | server/router/sale_order_router.py:283-308 | the handler's status code and new store are those of `UpdateSaleOrder` |
| `Sales.Padded` | server/router/sale_order_router.py:358 | a zero-padded field has exactly the requested width and only digits |
| `Sales.GenerateTransactionNo` | server/router/sale_order_router.py:355-360 | a transaction number is 22 characters: "SO" followed by 20 digits |
| `Sales.GeneratedDateFields` | server/router/sale_order_router.py:355-360 | a generated number holds the zero-padded year, month and day at characters 2-9, HHMMSS at 10-15 and the random suffix from 16 on |
| `Sales.ParseDate` | server/router/sale_order_router.py:109-122 | a parsed date comes from a string of at least 16 characters starting with "SO", is a valid calendar date, and is what `int()` reads from characters 2-5, 6-7 and 8-9; with `ParseDateFields` this is an if-and-only-if, so bad digits or an impossible date give None |
| `Sales.PaddedParses` | server/router/sale_order_router.py:117-119 | `int()` reads a zero-padded number back as its value |
| `Sales.ParseGeneratedDate` | server/router/sale_order_router.py:109-122 | parsing a generated transaction number gives back the date it was generated on |
| `Sales.SpacedYearParses` | server/router/sale_order_router.py:117 | `int()` skips leading white space in the year field |
| `Sales.ParseAcceptsUnpaddedYear` | server/router/sale_order_router.py:111-120 | "SO 2020101000000" parses to year 202, January 1st: the parser accepts numbers the generator never makes |
| `Books.CreateBookSpec` | server/router/book_router.py:112-152 | a known ISBN is 409; a new one succeeds with 201 Created exactly when the row satisfies the book constraints, and then adds just that row; a refused row is 422 with nothing changed |
| `Books.DeleteBookSpec` | server/router/book_router.py:173-214 | bad format 400, unknown 404, referenced by a purchase or sale 409, all unchanged; otherwise exactly that book is removed |
| `Books.EditFieldsResult` | server/router/book_router.py:240-250 | without a refusal the loop stores every field present in the request and keeps every absent one |
| `Books.EditFieldsRefusals` | server/router/book_router.py:245-253 | a price of zero or less is 400; a null stock is 500 |
| `Books.UpdateBookSpec` | server/router/book_router.py:226-267 | format and existence come first; the update succeeds exactly without a bad price, a null or negative stock, or a null title, and a failure changes nothing |
| `Books.UpdateBookIdempotent` | server/router/book_router.py:240-260 | sending the same accepted update twice changes nothing the second time |
| `Books.CreateBookPreservesConsistent` | server/router/book_router.py:126-141 | creating a book keeps the ledger invariant |
| `Books.DeleteBookPreservesConsistent` | server/router/book_router.py:180-200 | deleting a book keeps the ledger invariant |
| `Books.UpdateBookPreservesConsistent` | server/router/book_router.py:240-260 | updating a book keeps the ledger invariant |
| `Books.CreateBookHandler` | server/router/book_router.py:112-152 | the handler's status code (201 on success) and new store are those of `CreateBook` |
| `Books.DeleteBookHandler` | server/router/book_router.py:163-214 | the handler's status code and new store are those of `DeleteBook` |
| `Books.UpdateBookHandler` | server/router/book_router.py:218-267 | the handler's field loop gives the status code and store of `UpdateBook` |
| `Auth.VerifyOwnHash` | server/auth.py:18-24 | a password always verifies against its own hash |
| `Auth.VerifyIsHashEquality` | server/auth.py:23-24 | verification holds exactly when the stored hash equals the hash of the password |
| `Auth.CreateAccessTokenSpec` | server/auth.py:27-42 | after a login the user has exactly one session row, holding the new token, the user's employee id and flag, and an expiry 8 hours ahead; other rows are unchanged; the commit fails (500, nothing changed) exactly when another session holds the same employee id |
| `Auth.CreateAccessTokenKeepsMirror` | server/auth.py:35-41 | a login keeps every session row in step with its user |
| `Auth.UnexpiredSpec` | server/auth.py:71 | the purge keeps exactly the rows whose expiry is not past, unchanged |
| `Auth.CurrentUserIsLive` | server/auth.py:56-79 | an authenticated caller holds a live session row with the token presented; the caller is refused with 401 exactly when the token does not decode, has no username, or no live row holds it |
| `Auth.PurgeKeepsInvariants` | server/auth.py:71 | the purge keeps every table constraint and the sessions' agreement with the users |
| `Auth.AdminRequired` | server/auth.py:83-97 | the caller passes exactly when authenticated with the super-admin flag, and the row is passed through unchanged; an authenticated caller without the flag is refused with 403, and an authentication failure passes through |
| `Auth.AdminIsSuperAdminUser` | server/auth.py:83-92 | with sessions in step with users, a caller admitted as administrator is a super-admin in the users table with a live session; every refusal is 401 or 403 |
| `Auth.CreateAccessTokenHandler` | server/auth.py:27-42 | deleting then inserting the session row and committing gives the status code and store of `CreateAccessToken` |
| `Auth.GetCurrentUser` | server/auth.py:45-79 | the store's purge and token lookup satisfy the `CurrentUserOutcome` relation |
| `Users.CreateUserSpec` | server/router/user_router.py:75-91 | registration is 400 exactly when the username or the employee id is taken; otherwise it adds exactly one user with the requested employee id, true name, gender, age and flag, whose stored hash verifies the password, and changes nothing else |
| `Users.CreateUserKeepsMirror` | server/router/user_router.py:81-91 | registration keeps sessions in step with users |
| `Users.DeleteUserAsWrittenHidesCause` | server/router/user_router.py:109-132 | as written, an absent user and a super-admin are both answered 400, where the raised codes are 404 and 403; on all other requests both versions agree |
| `Users.DeleteUserSpec` | server/router/user_router.py:110-119 | 404 exactly for an absent user and 403 exactly for a super-admin, both unchanged; otherwise the user and the user's session row are removed and nothing else changes |
| `Users.DeleteUserKeepsMirror` | server/router/user_router.py:115-119 | deletion keeps sessions in step with users |
| `Users.SelfOrderResult` | server/router/user_router.py:324-337 | the self-update loop is 400 when a field is refused, and otherwise applies every non-null field sent |
| `Users.AdminOrderResult` | server/router/user_router.py:402-405 | the administrator's loop refuses nothing and applies every non-null field sent |
| `Users.UpdateCurrentUserSpec` | server/router/user_router.py:296-378 | a new password without the current one is 400, a wrong current password is 401, an isSuperAdmin of false or an employee-id change by a non-super-admin is 400, and a negative age or unknown gender is 400, all with nothing changed; an accepted update stores exactly the fields sent, the new password's hash and an unchanged flag under the requested name, and leaves other users, other session rows and every other table alone; the caller's session row follows the new name only when some field was sent, so a password-only change leaves the session table as it was |
| `Users.UpdateCurrentUserAccepted` | server/router/user_router.py:303-372 | a self-update that passes every check, renames onto no username in use and takes no other user's employee id is accepted |
| `Users.UpdateCurrentUserMirrorsSession` | server/router/user_router.py:354-361 | after an accepted self-update with fields, the session row, renamed with the user, carries the user's employee id and flag and keeps its token and expiry |
| `Users.UpdateCurrentUserKeepsMirror` | server/router/user_router.py:354-361 | a self-update keeps sessions in step with users |
| `Users.SelfUpdateKeepsRole` | server/router/user_router.py:327-331 | a self-update never changes the caller's super-admin flag |
| `Users.SelfPromotionAsWritten` | server/router/user_router.py:327-337 | as written, a user who is not a super-admin who sends isSuperAdmin=true is answered 200 and becomes super-admin in the users and session tables; the intended version answers 400 with nothing changed |
| `Users.UpdateUserSpec` | server/router/user_router.py:387-451 | an absent user is 404; a negative age or unknown gender is 400; a failure changes nothing; an accepted update stores exactly the non-null fields sent, and with reset_password the hash of the username |
| `Users.UpdateUserAccepted` | server/router/user_router.py:391-446 | an update of an existing user with a valid age and gender that takes no other user's employee id is accepted |
| `Users.UpdateUserSessions` | server/router/user_router.py:423-434 | after an accepted update, the user's session row keeps its token and expiry and, when fields were sent, carries the new employee id and flag; with no field sent (a password reset alone) the session table is unchanged; other session rows are untouched |
| `Users.UpdateUserKeepsMirror` | server/router/user_router.py:423-434 | the administrator's update keeps sessions in step with users |
| `Users.CreateUserHandler` | server/router/user_router.py:71-99 | the handler's status code and new store are those of `CreateUser` |
| `Users.DeleteUserHandler` | server/router/user_router.py:102-132 | the handler's status code and new store are those of the corrected `DeleteUser` |
| `Users.SelfEditOne` | server/router/user_router.py:325-337 | one iteration of the self-update's `setattr` loop refuses or sets the field exactly as `EditField` with the intended guard says |
| `Users.UpdateCurrentUserHandler` | server/router/user_router.py:290-378 | the handler's `setattr` loop gives the status code and store of the corrected `UpdateCurrentUser` |
| `Users.UpdateUserHandler` | server/router/user_router.py:381-451 | the handler's `setattr` loop gives the status code and store of `UpdateUser` |

## Left out

- MD5 and the JWT codec are opaque. The hash is a function parameter, and the only thing assumed of it is that it is deterministic. The encoded token is a string parameter, and the result of decoding a presented token is a parameter (`Auth.Payload`).
- The clock (`datetime.now()`) and the six random digits of a transaction number are parameters.
- Pydantic request validation is not modelled. That covers the 422 answers for a missing field, a wrong type, or a value outside a `Field(...)` bound. Each handler is modelled on whatever values reach it, so checks the schema makes redundant are kept as written.
- Floating-point money: prices arrive as floats and are stored as `Numeric(10,2)`. The model uses integer cents, so there is no rounding.
- Python's `str.isdigit()`, `int()` and `str.strip()` are modelled for ASCII only. Unicode digits and white space are not covered.
- `Sales.GenerateTransactionNo`: requires a four-digit year. `strftime("%Y")` does not pad years below 1000.
- `Auth.CreateAccessToken` takes a username that is in the users table. The source receives a `User` object that the login endpoint has just loaded.
- `Users.UpdateCurrentUser`: requires the caller's user row to exist.
  - This always holds while `Auth.SessionsMirrorUsers` does. Every user and session operation here preserves that invariant.
  - With an orphaned session row the source would fail on `None` with 500, and that path is not modelled.
- The purge of expired sessions in `get_current_user` is modelled as part of authentication. Whether it persists depends on the endpoint later committing the shared session; composing authentication with each endpoint is not modelled.
- When several session rows hold the same token, `.first()` returns one of them. The model lets the method pick any of them, and the specification allows any.
- SQLite's reuse of the highest deleted id is not modelled: the order ids come from counters that never go back.
- Foreign keys are not enforced by SQLite unless enabled, and the model does not enforce them. The "foreign key constraint" branch of `delete_book` is therefore never taken.
- Concurrency, isolation levels and the internals of SQLAlchemy's identity map are not modelled. Each request is one all-or-nothing step on the store. The identity map's visible effect inside one request is modelled: repeated lines for one ISBN in a cart act on the same book object, so each line sees the stock the earlier lines left.
- Not modelled:
  - `login` and `logout`, beyond `create_access_token` and the session table;
  - `get_current_user_info`;
  - the list and search endpoints;
  - `get_sale_order_detail`;
  - `create_default_admin`, which reads a JSON file from disk;
  - the bill router.

## Findings

| source | as written | input that shows it | evidently intended | confidence | as-written member | corrected member |
|---|---|---|---|---|---|---|
| server/router/user_router.py:109-132 | the 404 for an absent user and the 403 for a super-admin are raised inside the `try` and caught by `except Exception`, which answers 400 | deleting a username that does not exist answers 400; deleting a super-admin also answers 400 | 404 for an absent user and 403 for a super-admin, the codes the handler raises | high; not executed | `Users.DeleteUserAsWritten`, shown by `Users.DeleteUserAsWrittenHidesCause` | `Users.DeleteUser`, proved by `Users.DeleteUserSpec` |
| server/router/user_router.py:327-331 | the self-update refuses `isSuperAdmin: false` and accepts `isSuperAdmin: true` from any user | a logged-in user who is not a super-admin sends `PATCH /me` with `{"isSuperAdmin": true}`: the answer is 200, and the users row and session row both gain the flag, which `admin_required` then honours | as the error message says, a user who is not a super-admin cannot make themselves one | medium; not executed | `Users.UpdateCurrentUserAsWritten`, shown by `Users.SelfPromotionAsWritten` | `Users.UpdateCurrentUser`, proved by `Users.SelfUpdateKeepsRole` |
