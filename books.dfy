/** The book catalogue: registering a book, deleting an unreferenced one,
    and the partial update of its descriptive fields, price and stock. */
module Books {
  import opened DbModels

  // ---------------------------------------------------------------------
  // create_book

  /** `create_book`: an ISBN already in the catalogue is 409; otherwise the
      row is inserted, a commit the database refuses is 422, and a
      committed row is answered with 201 Created, the endpoint's declared
      status. */
  function CreateBook(db: Db, isbn: string, book: Book): Reply
  {
    if isbn in db.books then Reply(409, db)
    else
      var r := CommitReply(db, db.(books := db.books[isbn := book]), 422);
      if r.code == 200 then Reply(201, r.db) else r
  }

  /** Creating a book succeeds, with 201, exactly when the ISBN is new and
      the row satisfies the book constraints; it then adds that one row.
      Every other outcome is 409 or 422 with nothing changed. */
  lemma CreateBookSpec(db: Db, isbn: string, book: Book)
    ensures var r := CreateBook(db, isbn, book);
      && (isbn in db.books ==> r == Reply(409, db))
      && (isbn !in db.books ==> (r.code == 201 <==> BookOk(isbn, book)))
      && (isbn !in db.books && !BookOk(isbn, book) ==> r == Reply(422, db))
      && (r.code == 201 ==> r.db == db.(books := db.books[isbn := book]))
      && (r.code != 201 ==> r.db == db)
  {
    if isbn !in db.books {
      var after := db.(books := db.books[isbn := book]);
      assert isbn in after.books && Touched(db.books, after.books, isbn);
    }
  }

  // ---------------------------------------------------------------------
  // delete_book

  /** Some purchase order is for `isbn`. */
  predicate OrderedByPurchase(db: Db, isbn: string)
  {
    exists id :: id in db.purchaseOrders && db.purchaseOrders[id].bookIsbn == isbn
  }

  /** Some sale order has an item for `isbn`. The query filters sale
      orders on a sale-item condition without a join condition, so it finds
      a row exactly when some item for `isbn` exists (every item lies
      inside its order, which is then a row of the cross product). */
  predicate SoldInSale(db: Db, isbn: string)
  {
    exists id, k :: id in db.saleOrders && 0 <= k < |db.saleOrders[id].items| && db.saleOrders[id].items[k].bookIsbn == isbn
  }

  /** `delete_book` */
  function DeleteBook(db: Db, isbn: string): Reply
  {
    if !IsThirteenDigits(isbn) then Reply(400, db)
    else if isbn !in db.books then Reply(404, db)
    else if OrderedByPurchase(db, isbn) || SoldInSale(db, isbn) then Reply(409, db)
    else CommitReply(db, db.(books := db.books - {isbn}), 500)
  }

  /** Delete: bad format 400, unknown 404, referenced by an order 409, all
      with nothing changed; otherwise exactly that book goes. */
  lemma DeleteBookSpec(db: Db, isbn: string)
    ensures var r := DeleteBook(db, isbn);
      && (!IsThirteenDigits(isbn) ==> r == Reply(400, db))
      && (IsThirteenDigits(isbn) && isbn !in db.books ==> r == Reply(404, db))
      && (IsThirteenDigits(isbn) && isbn in db.books && (OrderedByPurchase(db, isbn) || SoldInSale(db, isbn)) ==>
            r == Reply(409, db))
      && (IsThirteenDigits(isbn) && isbn in db.books && !OrderedByPurchase(db, isbn) && !SoldInSale(db, isbn) ==>
            r == Reply(200, db.(books := db.books - {isbn})))
  {
    if IsThirteenDigits(isbn) && isbn in db.books && !OrderedByPurchase(db, isbn) && !SoldInSale(db, isbn) {
      assert ChangedRowsOk(db, db.(books := db.books - {isbn}));
    }
  }

  // ---------------------------------------------------------------------
  // update_book_info

  /** The request fields of `update_book_info`; money in cents. */
  datatype BookUpdate = BookUpdate(
    title: Patch<string>,
    author: Patch<string>,
    publisher: Patch<string>,
    retailPrice: Patch<int>,
    stock: Patch<int>)

  datatype BookField = Title | Author | Publisher | RetailPrice | Stock

  /** The fields the update loop visits, in its order. */
  const UpdatableFields: seq<BookField> := [Title, Author, Publisher, RetailPrice, Stock]

  datatype Edit = Edited(book: Book) | Failed(code: int)

  /** A nullable column after a patch. */
  function Patched<T>(current: Option<T>, p: Patch<T>): Option<T>
  {
    match p
    case Unset => current
    case SetNull => None
    case SetTo(v) => Some(v)
  }

  /** One iteration of the update loop. A price of zero or less is refused
      with 400. A null stock is stored on the object, and the `stock < 0`
      comparison after the loop then raises a TypeError, which is a 500;
      stock is the last field, so nothing else happens in between. */
  function EditField(b: Book, u: BookUpdate, f: BookField): Edit
  {
    match f
    case Title => Edited(b.(title := Patched(b.title, u.title)))
    case Author => Edited(b.(author := Patched(b.author, u.author)))
    case Publisher => Edited(b.(publisher := Patched(b.publisher, u.publisher)))
    case RetailPrice =>
      if u.retailPrice.SetTo? && u.retailPrice.value <= 0 then Failed(400)
      else Edited(b.(retailPrice := Patched(b.retailPrice, u.retailPrice)))
    case Stock =>
      match u.stock
      case Unset => Edited(b)
      case SetNull => Failed(500)
      case SetTo(n) => Edited(b.(stock := n))
  }

  /** The update loop over `fields`, in order, stopping at the first failure. */
  function EditFields(b: Book, u: BookUpdate, fields: seq<BookField>): Edit
  {
    if fields == [] then Edited(b)
    else
      match EditFields(b, u, fields[..|fields| - 1])
      case Failed(code) => Failed(code)
      case Edited(b1) => EditField(b1, u, fields[|fields| - 1])
  }

  /** `update_book_info`: format and existence first, then the field loop,
      then the stock check, then the commit (500 when the database refuses
      the row, e.g. a null title). */
  function UpdateBook(db: Db, isbn: string, u: BookUpdate): Reply
  {
    if !IsThirteenDigits(isbn) then Reply(400, db)
    else if isbn !in db.books then Reply(404, db)
    else
      match EditFields(db.books[isbn], u, UpdatableFields)
      case Failed(code) => Reply(code, db)
      case Edited(b) =>
        if b.stock < 0 then Reply(400, db)
        else CommitReply(db, db.(books := db.books[isbn := b]), 500)
  }

  /** The loop with one more field. */
  lemma EditFieldsSnoc(b: Book, u: BookUpdate, fields: seq<BookField>, f: BookField)
    ensures EditFields(b, u, fields + [f])
         == if EditFields(b, u, fields).Failed? then EditFields(b, u, fields) else EditField(EditFields(b, u, fields).book, u, f)
  {
    assert (fields + [f])[..|fields|] == fields;
  }

  /** A refused field ends the loop: the fields after it are not visited. */
  lemma {:induction false} EditFieldsStopped(b: Book, u: BookUpdate, fields: seq<BookField>, i: nat)
    requires i <= |fields| && EditFields(b, u, fields[..i]).Failed?
    ensures EditFields(b, u, fields) == EditFields(b, u, fields[..i])
    decreases |fields|
  {
    if i < |fields| {
      var front := fields[..|fields| - 1];
      assert front[..i] == fields[..i];
      EditFieldsStopped(b, u, front, i);
    } else {
      assert fields[..i] == fields;
    }
  }

  /** The three text fields are always accepted. */
  function EditedText(b: Book, u: BookUpdate): (r: Book)
    ensures EditFields(b, u, [Title, Author, Publisher]) == Edited(r)
    ensures EditFields(b, u, UpdatableFields[..3]) == Edited(r)
  {
    var b1 := b.(title := Patched(b.title, u.title));
    var b2 := b1.(author := Patched(b.author, u.author));
    var b3 := b2.(publisher := Patched(b.publisher, u.publisher));
    EditFieldsSnoc(b, u, [], Title);
    assert [] + [Title] == [Title];
    EditFieldsSnoc(b, u, [Title], Author);
    assert [Title] + [Author] == [Title, Author];
    EditFieldsSnoc(b, u, [Title, Author], Publisher);
    assert [Title, Author] + [Publisher] == [Title, Author, Publisher];
    assert UpdatableFields[..3] == [Title, Author, Publisher];
    b3
  }

  /** The book the update loop produces when no field is refused: every
      field present in the request takes its new value, every absent field
      keeps its old one. */
  lemma EditFieldsResult(b: Book, u: BookUpdate)
    requires !(u.retailPrice.SetTo? && u.retailPrice.value <= 0) && !u.stock.SetNull?
    ensures EditFields(b, u, UpdatableFields)
         == Edited(Book(Patched(b.title, u.title), Patched(b.publisher, u.publisher), Patched(b.author, u.author),
                        Patched(b.retailPrice, u.retailPrice), if u.stock.SetTo? then u.stock.value else b.stock))
  {
    var b3 := EditedText(b, u);
    var b4 := b3.(retailPrice := Patched(b.retailPrice, u.retailPrice));
    assert EditFields(b, u, UpdatableFields[..4]) == Edited(b4) by {
      EditFieldsSnoc(b, u, [Title, Author, Publisher], RetailPrice);
      assert [Title, Author, Publisher] + [RetailPrice] == UpdatableFields[..4];
    }
    EditFieldsSnoc(b, u, UpdatableFields[..4], Stock);
    assert UpdatableFields[..4] + [Stock] == UpdatableFields;
  }

  /** The refusals of the update loop: a non-positive price is 400 and a
      null stock is 500. */
  lemma EditFieldsRefusals(b: Book, u: BookUpdate)
    ensures u.retailPrice.SetTo? && u.retailPrice.value <= 0 ==> EditFields(b, u, UpdatableFields) == Failed(400)
    ensures !(u.retailPrice.SetTo? && u.retailPrice.value <= 0) && u.stock.SetNull? ==>
              EditFields(b, u, UpdatableFields) == Failed(500)
  {
    var b3 := EditedText(b, u);
    EditFieldsSnoc(b, u, [Title, Author, Publisher], RetailPrice);
    assert [Title, Author, Publisher] + [RetailPrice] == UpdatableFields[..4];
    if u.retailPrice.SetTo? && u.retailPrice.value <= 0 {
      EditFieldsStopped(b, u, UpdatableFields, 4);
    } else {
      EditFieldsSnoc(b, u, UpdatableFields[..4], Stock);
      assert UpdatableFields[..4] + [Stock] == UpdatableFields;
    }
  }

  /** The book an accepted update stores. */
  function UpdatedBook(b: Book, u: BookUpdate): Book
  {
    Book(Patched(b.title, u.title), Patched(b.publisher, u.publisher), Patched(b.author, u.author),
         Patched(b.retailPrice, u.retailPrice), if u.stock.SetTo? then u.stock.value else b.stock)
  }

  /** Update on a well-formed catalogue: format and existence are checked
      before anything changes; a price of zero or less is 400 and an
      explicit null price clears it; a negative stock is 400; a null
      stock, or a null title, fails with 500. Every other request succeeds
      and stores exactly the fields it names. */
  lemma UpdateBookSpec(db: Db, isbn: string, u: BookUpdate)
    requires DbOk(db)
    ensures var r := UpdateBook(db, isbn, u);
      && (!IsThirteenDigits(isbn) ==> r == Reply(400, db))
      && (IsThirteenDigits(isbn) && isbn !in db.books ==> r == Reply(404, db))
      && (r.code != 200 ==> r.db == db)
      && (IsThirteenDigits(isbn) && isbn in db.books ==>
            && (u.retailPrice.SetTo? && u.retailPrice.value <= 0 ==> r.code == 400)
            && (u.stock.SetTo? && u.stock.value < 0 ==> r.code == 400)
            && (!(u.retailPrice.SetTo? && u.retailPrice.value <= 0) && u.stock.SetNull? ==> r.code == 500)
            && (r.code == 200 <==>
                  && !(u.retailPrice.SetTo? && u.retailPrice.value <= 0)
                  && !u.stock.SetNull?
                  && !(u.stock.SetTo? && u.stock.value < 0)
                  && !u.title.SetNull?)
            && (r.code == 200 ==> r.db == db.(books := db.books[isbn := UpdatedBook(db.books[isbn], u)])))
  {
    if IsThirteenDigits(isbn) && isbn in db.books {
      var b := db.books[isbn];
      EditFieldsRefusals(b, u);
      if !(u.retailPrice.SetTo? && u.retailPrice.value <= 0) && !u.stock.SetNull? {
        EditFieldsResult(b, u);
        var nb := UpdatedBook(b, u);
        assert BookOk(isbn, b);
        var after := db.(books := db.books[isbn := nb]);
        if nb.stock >= 0 {
          if u.title.SetNull? {
            assert !BookOk(isbn, nb);
            assert isbn in after.books && Touched(db.books, after.books, isbn);
          } else {
            assert BookOk(isbn, nb);
            assert ChangedRowsOk(db, after);
          }
        }
      }
    }
  }

  /** Sending the same update twice changes nothing the second time. */
  lemma UpdateBookIdempotent(db: Db, isbn: string, u: BookUpdate)
    requires DbOk(db) && UpdateBook(db, isbn, u).code == 200
    ensures UpdateBook(UpdateBook(db, isbn, u).db, isbn, u) == UpdateBook(db, isbn, u)
  {
    UpdateBookSpec(db, isbn, u);
    var r := UpdateBook(db, isbn, u);
    CommitOutcome(db, r.db, 500);
    UpdateBookSpec(r.db, isbn, u);
    var b := db.books[isbn];
    assert UpdatedBook(UpdatedBook(b, u), u) == UpdatedBook(b, u);
    assert r.db.books[isbn := UpdatedBook(UpdatedBook(b, u), u)] == r.db.books;
  }

  // ---------------------------------------------------------------------
  // Consistency

  lemma CreateBookPreservesConsistent(db: Db, isbn: string, book: Book)
    requires Consistent(db)
    ensures Consistent(CreateBook(db, isbn, book).db)
  {
    var r := CreateBook(db, isbn, book);
    if r.code == 201 {
      CreateBookSpec(db, isbn, book);
      CommitOutcome(db, r.db, 422);
      assert r.db.bills[..|db.bills|] == db.bills;
      BillsStillMatch(db, r.db);
      assert BooksReferenced(r.db);
    }
  }

  /** Deleting a book is allowed only when nothing refers to it, so every
      order still names a catalogued book afterwards. */
  lemma DeleteBookPreservesConsistent(db: Db, isbn: string)
    requires Consistent(db)
    ensures Consistent(DeleteBook(db, isbn).db)
  {
    DeleteBookSpec(db, isbn);
    var r := DeleteBook(db, isbn);
    if r.code == 200 {
      CommitOutcome(db, r.db, 500);
      assert r.db.bills[..|db.bills|] == db.bills;
      BillsStillMatch(db, r.db);
      forall id | id in r.db.purchaseOrders ensures r.db.purchaseOrders[id].bookIsbn in r.db.books {
        assert db.purchaseOrders[id].bookIsbn != isbn;
      }
      forall id, k | id in r.db.saleOrders && 0 <= k < |r.db.saleOrders[id].items|
        ensures r.db.saleOrders[id].items[k].bookIsbn in r.db.books
      {
        assert db.saleOrders[id].items[k].bookIsbn != isbn;
      }
      assert BooksReferenced(r.db);
    }
  }

  lemma UpdateBookPreservesConsistent(db: Db, isbn: string, u: BookUpdate)
    requires Consistent(db)
    ensures Consistent(UpdateBook(db, isbn, u).db)
  {
    UpdateBookSpec(db, isbn, u);
    var r := UpdateBook(db, isbn, u);
    if r.code == 200 {
      CommitOutcome(db, r.db, 500);
      assert r.db.bills[..|db.bills|] == db.bills;
      BillsStillMatch(db, r.db);
      assert BooksReferenced(r.db);
    }
  }

  // ---------------------------------------------------------------------
  // The handlers on the store

  method CreateBookHandler(s: Store, isbn: string, book: Book) returns (code: int)
    modifies s
    ensures Reply(code, s.State()) == CreateBook(old(s.State()), isbn, book)
  {
    if isbn in s.books {
      return 409;
    }
    var saved := s.State();
    s.books := s.books[isbn := book];
    code := s.CommitChanges(saved, 422);
    if code == 200 {
      code := 201;
    }
  }

  method DeleteBookHandler(s: Store, isbn: string) returns (code: int)
    modifies s
    ensures Reply(code, s.State()) == DeleteBook(old(s.State()), isbn)
  {
    if !IsThirteenDigits(isbn) {
      return 400;
    }
    if isbn !in s.books {
      return 404;
    }
    if OrderedByPurchase(s.State(), isbn) || SoldInSale(s.State(), isbn) {
      return 409;
    }
    var saved := s.State();
    s.books := s.books - {isbn};
    code := s.CommitChanges(saved, 500);
  }

  method UpdateBookHandler(s: Store, isbn: string, u: BookUpdate) returns (code: int)
    modifies s
    ensures Reply(code, s.State()) == UpdateBook(old(s.State()), isbn, u)
  {
    if !IsThirteenDigits(isbn) {
      return 400;
    }
    if isbn !in s.books {
      return 404;
    }
    var saved := s.State();
    var fields := UpdatableFields;
    for i := 0 to |fields|
      invariant isbn in s.books
      invariant EditFields(saved.books[isbn], u, fields[..i]) == Edited(s.books[isbn])
      invariant s.State() == saved.(books := saved.books[isbn := s.books[isbn]])
    {
      EditFieldsSnoc(saved.books[isbn], u, fields[..i], fields[i]);
      assert fields[..i] + [fields[i]] == fields[..i + 1];
      var book := s.books[isbn];
      match fields[i]
      case Title =>
        s.books := s.books[isbn := book.(title := Patched(book.title, u.title))];
      case Author =>
        s.books := s.books[isbn := book.(author := Patched(book.author, u.author))];
      case Publisher =>
        s.books := s.books[isbn := book.(publisher := Patched(book.publisher, u.publisher))];
      case RetailPrice =>
        if u.retailPrice.SetTo? && u.retailPrice.value <= 0 {
          EditFieldsStopped(saved.books[isbn], u, fields, i + 1);
          s.Rollback(saved);
          return 400;
        }
        s.books := s.books[isbn := book.(retailPrice := Patched(book.retailPrice, u.retailPrice))];
      case Stock =>
        if u.stock.SetNull? {
          EditFieldsStopped(saved.books[isbn], u, fields, i + 1);
          s.Rollback(saved);
          return 500;
        }
        if u.stock.SetTo? {
          s.books := s.books[isbn := book.(stock := u.stock.value)];
        }
    }
    assert fields[..|fields|] == fields;
    if s.books[isbn].stock < 0 {
      s.Rollback(saved);
      return 400;
    }
    code := s.CommitChanges(saved, 500);
  }
}
