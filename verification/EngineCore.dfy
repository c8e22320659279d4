/** The engine shell as it is stored: one book object a symbol, a snapshot file, a log. */
module EngineCore {
  import opened Domain
  import opened FlatBook
  import opened BookInvariant
  import opened Cascade
  import opened Symbols
  import opened Snapshots
  import opened OrderBook
  import opened Recovery

  type SnapshotFile = map<Symbol, BookSnapshot>

  /** The file holds snapshots of valid books under normalised symbols. */
  ghost predicate FileShows(file: Option<SnapshotFile>, books: Option<Books>) {
    if file.None? then books.None?
    else books.Some? && file.value.Keys == books.value.Keys &&
         forall s :: s in file.value ==> Normalize(s) == s && SnapshotShows(file.value[s], books.value[s])
  }

  /** One engine call on a locked book: the submit, then stops until no price is queued. */
  method SubmitToBook(book: OrderBook, order: Order) returns (report: ExecutionReport, tradeCount: nat)
    requires book.Valid() && Unfilled(order)
    modifies book
    ensures book.Valid()
    ensures book.View() == SubmitAndCascade(old(book.View()), order).book
    ensures report == SubmitAndCascade(old(book.View()), order).report
    ensures tradeCount == |SubmitAndCascade(old(book.View()), order).fills|
  {
    report := book.Submit(order);
    tradeCount := |report.fills|;
    var prices := FillPrices(report.fills);
    ghost var all := RunCascade(book.View(), prices);
    while |prices| > 0
      invariant book.Valid()
      invariant RunCascade(book.View(), prices).book == all.book
      invariant tradeCount + |RunCascade(book.View(), prices).fills| == |report.fills| + |all.fills|
      decreases |book.View().stops|, |prices|
    {
      var lastPrice := prices[|prices| - 1];
      TriggeringShrinks(book.View(), lastPrice);
      var reports := book.TriggerStops(lastPrice);
      var made := ReportFills(reports);
      tradeCount := tradeCount + |made|;
      prices := prices[..|prices| - 1] + FillPrices(made);
    }
  }

  class MatchingEngineCore {
    var books: map<Symbol, OrderBook>
    var snapshotFile: Option<SnapshotFile>
    var wal: seq<WalRecord>
    var tradesSinceSnapshot: nat
    const interval: nat

    // the flat view of every book, and of every book in the file
    ghost var live: Books
    ghost var saved: Option<Books>

    ghost function Objects(): set<object>
      reads this`books
    {
      set s | s in books :: books[s]
    }

    /** One object a symbol, each of them valid, under normalised symbols. */
    ghost predicate BooksOk()
      reads this`books, this`live, Objects()
    {
      books.Keys == live.Keys &&
      (forall s :: s in books ==> Normalize(s) == s && Shows(books[s], live[s])) &&
      (forall s, t :: s in books && t in books && s != t ==> books[s] != books[t])
    }

    ghost predicate DiskOk()
      reads this`wal, this`snapshotFile, this`saved
    {
      FileShows(snapshotFile, saved) && forall r :: r in wal ==> RecordSound(r)
    }

    ghost predicate Valid()
      reads this, Objects()
    {
      BooksOk() && DiskOk()
    }

    ghost function View(): Engine
      reads this
    {
      Engine(live, Disk(saved, wal), tradesSinceSnapshot, interval)
    }

    method AppendWal(record: WalRecord)
      requires DiskOk() && RecordSound(record)
      modifies this`wal
      ensures DiskOk() && wal == old(wal) + [record]
    {
      wal := wal + [record];
    }

    /** The symbol's book, created empty at first use. */
    method BookForSymbol(key: Symbol) returns (book: OrderBook)
      requires BooksOk() && Normalize(key) == key
      modifies this`books, this`live
      ensures BooksOk() && key in books && books[key] == book
      ensures fresh(Objects() - old(Objects()))
      ensures live == old(live)[key := BookFor(old(live), key)]
    {
      hide Shows, SnapshotShows, Normalize;
      if key in books {
        book := books[key];
        live := live[key := BookFor(live, key)];
      } else {
        book := new OrderBook();
        ShowsMeans(book, EmptyBook);
        AddBook(key, book, EmptyBook);
      }
    }

    method AddBook(key: Symbol, book: OrderBook, ghost b: Book)
      requires BooksOk() && key !in books && Normalize(key) == key && Shows(book, b) && book !in Objects()
      modifies this`books, this`live
      ensures BooksOk() && books == old(books)[key := book] && live == old(live)[key := b]
      ensures Objects() == old(Objects()) + {book}
    {
      hide Shows, SnapshotShows, Normalize;
      books := books[key := book];
      live := live[key := b];
    }

    /** The file now holds every book; the log starts over. */
    method SnapshotToDisk()
      requires BooksOk()
      modifies this`snapshotFile, this`wal, this`saved
      ensures DiskOk() && saved == Some(live) && wal == []
    {
      var file := WriteBooks();
      snapshotFile, saved := Some(file), Some(live);
      wal := [];
    }

    method WriteBooks() returns (file: SnapshotFile)
      requires BooksOk()
      ensures FileShows(Some(file), Some(live))
    {
      hide Shows, SnapshotShows, Normalize, FileShows;
      SameSymbols();
      file := map[];
      FileStarts();
      var rest := books.Keys;
      while rest != {}
        invariant rest <= books.Keys
        invariant FileShows(Some(file), Some(live - rest))
        decreases |rest|
      {
        var s :| s in rest;
        var snapshot := WriteBook(books[s], live[s]);
        FileGrows(file, live, rest, s, snapshot);
        file := file[s := snapshot];
        rest := rest - {s};
      }
      assert live - rest == live;
    }

    lemma SameSymbols()
      requires BooksOk()
      ensures books.Keys == live.Keys && live - books.Keys == map[]
    {
    }

    static method WriteBook(book: OrderBook, ghost b: Book) returns (snapshot: BookSnapshot)
      requires Shows(book, b)
      ensures SnapshotShows(snapshot, b)
    {
      snapshot := book.ToSnapshot();
      WrittenShows(book, b, snapshot);
    }

    static method ReadBook(snapshot: BookSnapshot, ghost b: Book) returns (book: OrderBook)
      requires SnapshotShows(snapshot, b)
      ensures fresh(book) && Shows(book, b)
    {
      book := new OrderBook.FromSnapshot(snapshot);
      RestoredShows(book, snapshot, b);
    }

    method RecordTradeCount(count: nat)
      requires BooksOk() && DiskOk()
      modifies this`snapshotFile, this`wal, this`saved, this`tradesSinceSnapshot
      ensures DiskOk() && View() == RecordTrades(old(View()), count)
    {
      if count == 0 {
        return;
      }
      tradesSinceSnapshot := tradesSinceSnapshot + count;
      if tradesSinceSnapshot >= interval {
        tradesSinceSnapshot := 0;
        SnapshotToDisk();
      }
    }

    /** One engine call on the symbol's book leaves every other book alone. */
    method SubmitAtSymbol(key: Symbol, order: Order) returns (report: ExecutionReport, tradeCount: nat)
      requires BooksOk() && key in books && Unfilled(order)
      modifies this`live, Objects()
      ensures BooksOk()
      ensures var outcome := SubmitAndCascade(old(live)[key], order);
              live == old(live)[key := outcome.book] && report == outcome.report && tradeCount == |outcome.fills|
    {
      hide Shows, SnapshotShows, Normalize, SubmitAndCascade;
      ghost var before := live[key];
      ShowsMeans(books[key], before);
      report, tradeCount := SubmitToBook(books[key], order);
      live := live[key := SubmitAndCascade(before, order).book];
      ShowsMeans(books[key], live[key]);
    }

    /** Logs first, then submits and cascades on the symbol's book, then counts trades. */
    method SubmitOrder(symbol: string, order: Order) returns (report: ExecutionReport)
      requires Valid() && Unfilled(order)
      modifies this, Objects()
      ensures Valid() && fresh(Objects() - old(Objects()))
      ensures View() == Recovery.SubmitOrder(old(View()), symbol, order)
      ensures report == SubmitAndCascade(BookFor(old(live), Normalize(symbol)), order).report
    {
      hide Shows, SnapshotShows, Normalize, SubmitAndCascade, BookFor, RecordTrades, BooksOk, DiskOk;
      var key := Normalize(symbol);
      NormalizeIdempotent(symbol);
      AppendWal(SubmitRecord(key, order));
      ghost var before := View();
      var _ := BookForSymbol(key);
      var tradeCount;
      report, tradeCount := SubmitAtSymbol(key, order);
      SubmitSteps(before, View(), key, order);
      RecordTradeCount(tradeCount);
    }

    method CancelOrder(symbol: string, orderId: Id, userId: Id) returns (cancelled: bool)
      requires Valid()
      modifies this, Objects()
      ensures Valid() && Objects() == old(Objects())
      ensures View() == Recovery.CancelOrder(old(View()), symbol, orderId, userId)
      ensures cancelled == (Normalize(symbol) in old(live) &&
                            Cancel(old(live)[Normalize(symbol)], orderId, userId).cancelled)
    {
      hide Shows, SnapshotShows, Normalize, FlatBook.Cancel;
      var key := Normalize(symbol);
      AppendWal(CancelRecord(key, orderId, userId));
      if key !in books {
        return false;
      }
      cancelled := CancelAtSymbol(key, orderId, userId);
    }

    method CancelAtSymbol(key: Symbol, orderId: Id, userId: Id) returns (cancelled: bool)
      requires BooksOk() && key in books
      modifies this`live, Objects()
      ensures BooksOk()
      ensures var outcome := Cancel(old(live)[key], orderId, userId);
              live == old(live)[key := outcome.book] && cancelled == outcome.cancelled
    {
      hide Shows, SnapshotShows, Normalize, FlatBook.Cancel;
      ghost var before := live[key];
      ShowsMeans(books[key], before);
      cancelled := books[key].Cancel(orderId, userId);
      live := live[key := Cancel(before, orderId, userId).book];
      ShowsMeans(books[key], live[key]);
    }

    /** A process start: the snapshot file, then the log on top of it. */
    constructor WithPersistence(file: Option<SnapshotFile>, log: seq<WalRecord>, tradeInterval: nat, ghost contents: Option<Books>)
      requires FileShows(file, contents) && forall r :: r in log ==> RecordSound(r)
      ensures Valid() && fresh(Objects())
      ensures View() == Restart(Engine(map[], Disk(contents, log), 0, if tradeInterval >= 1 then tradeInterval else 1))
    {
      hide Shows, SnapshotShows, Normalize;
      books, live, snapshotFile, saved := map[], map[], file, contents;
      wal, tradesSinceSnapshot := log, 0;
      interval := if tradeInterval >= 1 then tradeInterval else 1;
      new;
      if file.Some? {
        LoadBooks(file.value, contents.value);
      }
      ReplayWal();
    }

    method LoadBooks(file: SnapshotFile, ghost contents: Books)
      requires books == map[] && FileShows(Some(file), Some(contents))
      modifies this`books, this`live
      ensures BooksOk() && fresh(Objects())
      ensures live == contents
    {
      hide BooksOk, Shows, SnapshotShows, Normalize, FileShows;
      live := map[];
      NoBooksYet();
      FileKeys(file, contents);
      var rest := file.Keys;
      while rest != {}
        invariant BooksOk() && fresh(Objects())
        invariant rest <= file.Keys && books.Keys == live.Keys && live == contents - rest
        decreases |rest|
      {
        var s :| s in rest;
        LoadBook(file, s, contents);
        AddedBack(contents, rest, s);
        rest := rest - {s};
      }
      assert contents - rest == contents;
    }

    method LoadBook(file: SnapshotFile, s: Symbol, ghost contents: Books)
      requires BooksOk() && books.Keys == live.Keys && s in file && s !in books && FileShows(Some(file), Some(contents))
      modifies this`books, this`live
      ensures BooksOk() && fresh(Objects() - old(Objects())) && s in contents
      ensures books.Keys == live.Keys && live == old(live)[s := contents[s]]
    {
      hide Shows, SnapshotShows, Normalize, FileShows;
      FileAt(file, contents, s);
      var book := ReadBook(file[s], contents[s]);
      AddBook(Normalize(s), book, contents[s]);
    }

    lemma NoBooksYet()
      requires books == map[] && live == map[]
      ensures BooksOk() && Objects() == {}
    {
    }

    /** Applies the log record by record: submits without firing stops, cancels on known books. */
    method ReplayWal()
      requires BooksOk() && DiskOk()
      modifies this`books, this`live, Objects()
      ensures BooksOk() && fresh(Objects() - old(Objects()))
      ensures live == Replay(old(live), wal)
    {
      hide Shows, SnapshotShows, Normalize, ReplayRecord, RecordSound;
      var i := 0;
      while i < |wal|
        invariant i <= |wal| && BooksOk() && fresh(Objects() - old(Objects()))
        invariant live == Replay(old(live), wal[..i])
      {
        TakeOneMore(wal, i);
        assert wal[i] in wal;
        ReplayOne(wal[i]);
        i := i + 1;
      }
      assert wal[..i] == wal;
    }

    method ReplayOne(record: WalRecord)
      requires BooksOk() && RecordSound(record)
      modifies this`books, this`live, Objects()
      ensures BooksOk() && fresh(Objects() - old(Objects()))
      ensures live == ReplayRecord(old(live), record)
    {
      hide BooksOk, Shows, SnapshotShows, Normalize, BookFor, FlatBook.Submit, FlatBook.Cancel;
      var key := Normalize(record.symbol);
      NormalizeIdempotent(record.symbol);
      SameSymbols();
      match record
      case SubmitRecord(_, order) =>
        ghost var before := live;
        var _ := BookForSymbol(key);
        ReplayAtSymbol(key, order);
        UpdateTwice(before, key, BookFor(before, key), Submit(BookFor(before, key), order).book);
      case CancelRecord(_, orderId, userId) =>
        if key in books {
          var _ := CancelAtSymbol(key, orderId, userId);
        }
    }

    method ReplayAtSymbol(key: Symbol, order: Order)
      requires BooksOk() && key in books && Unfilled(order)
      modifies this`live, Objects()
      ensures BooksOk() && live == old(live)[key := Submit(old(live)[key], order).book]
    {
      hide Shows, SnapshotShows, Normalize, FlatBook.Submit;
      ghost var before := live[key];
      ShowsMeans(books[key], before);
      var _ := books[key].Submit(order);
      live := live[key := Submit(before, order).book];
      ShowsMeans(books[key], live[key]);
    }
  }

  lemma AddedBack(books: Books, rest: set<Symbol>, s: Symbol)
    requires s in books && s in rest
    ensures (books - rest)[s := books[s]] == books - (rest - {s})
  {
  }

  lemma FileStarts()
    ensures FileShows(Some(map[]), Some(map[]))
  {
  }

  lemma FileGrows(file: SnapshotFile, books: Books, rest: set<Symbol>, s: Symbol, snapshot: BookSnapshot)
    requires FileShows(Some(file), Some(books - rest)) && s in rest && s in books
    requires Normalize(s) == s && SnapshotShows(snapshot, books[s])
    ensures FileShows(Some(file[s := snapshot]), Some(books - (rest - {s})))
  {
    AddedBack(books, rest, s);
  }

  lemma FileKeys(file: SnapshotFile, books: Books)
    requires FileShows(Some(file), Some(books))
    ensures file.Keys == books.Keys && books - file.Keys == map[]
  {
  }

  lemma FileAt(file: SnapshotFile, books: Books, s: Symbol)
    requires FileShows(Some(file), Some(books)) && s in file
    ensures s in books && Normalize(s) == s && SnapshotShows(file[s], books[s])
  {
  }

  lemma UpdateTwice(books: Books, key: Symbol, first: Book, second: Book)
    ensures books[key := first][key := second] == books[key := second]
  {
  }

  lemma SubmitSteps(before: Engine, after: Engine, key: Symbol, order: Order)
    requires var b := BookFor(before.books, key);
             after == before.(books := before.books[key := b][key := SubmitAndCascade(b, order).book])
    ensures after == before.(books := before.books[key := SubmitAndCascade(BookFor(before.books, key), order).book])
  {
    var b := BookFor(before.books, key);
    UpdateTwice(before.books, key, b, SubmitAndCascade(b, order).book);
  }

  ghost predicate Shows(book: OrderBook, b: Book)
    reads book
  {
    book.Valid() && book.View() == b
  }

  ghost predicate SnapshotShows(snapshot: BookSnapshot, b: Book) {
    ValidState(Restored(snapshot)) && Flat(Restored(snapshot)) == b
  }

  lemma ShowsMeans(book: OrderBook, b: Book)
    ensures Shows(book, b) <==> book.Valid() && book.View() == b
  {
  }

  lemma WrittenShows(book: OrderBook, b: Book, snapshot: BookSnapshot)
    requires Shows(book, b) && SnapshotOf(snapshot, book.Stored())
    ensures SnapshotShows(snapshot, b)
  {
    SnapshotRoundTrip(snapshot, book.Stored());
  }

  lemma RestoredShows(book: OrderBook, snapshot: BookSnapshot, b: Book)
    requires SnapshotShows(snapshot, b) && book.Stored() == Restored(snapshot)
    ensures Shows(book, b)
  {
  }
}
