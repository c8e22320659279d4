/** One book a symbol: a call under one symbol reaches the book of every spelling of it, and no
    other. */
module SymbolBooks {
  import opened Domain
  import opened FlatBook
  import opened Cascade
  import opened Symbols
  import opened Recovery

  /** The book a canonical symbol has, or had none, is as it was. */
  ghost predicate SameAt(before: Books, after: Books, symbol: Symbol) {
    (symbol in after <==> symbol in before) && BookFor(after, symbol) == BookFor(before, symbol)
  }

  /** A submit reaches the book of its symbol and leaves every other symbol's alone. */
  lemma SubmitStaysInSymbol(e: Engine, symbol: string, order: Order)
    requires Canonical(symbol)
    ensures var after := SubmitOrder(e, symbol, order).books;
            && symbol in after && after[symbol] == SubmitAndCascade(BookFor(e.books, symbol), order).book
            && forall other :: Canonical(other) && other != symbol ==> SameAt(e.books, after, other)
  {
    CanonicalKeys(symbol);
    hide Normalize, SubmitAndCascade;
  }

  /** So does a cancel, and it makes no book. */
  lemma CancelStaysInSymbol(e: Engine, symbol: string, orderId: Id, userId: Id)
    requires Canonical(symbol)
    ensures var after := CancelOrder(e, symbol, orderId, userId).books;
            && after.Keys == e.books.Keys
            && (symbol in after ==> after[symbol] == Cancel(e.books[symbol], orderId, userId).book)
            && forall other :: Canonical(other) && other != symbol ==> SameAt(e.books, after, other)
  {
    CanonicalKeys(symbol);
    hide Normalize, FlatBook.Cancel;
  }

  /** Another spelling of a symbol makes the same call. */
  lemma SpellingsMeet(e: Engine, p: string, t: string, q: string, symbol: string, order: Order, orderId: Id, userId: Id)
    requires Blank(p) && Trimmed(t) && Blank(q) && Canonical(symbol) && SameLetters(t, symbol)
    ensures SubmitOrder(e, p + t + q, order) == SubmitOrder(e, symbol, order)
    ensures CancelOrder(e, p + t + q, orderId, userId) == CancelOrder(e, symbol, orderId, userId)
  {
    assert [] + symbol + [] == symbol;
    SharedKeys(p, t, q, [], symbol, []);
    hide Normalize, SubmitAndCascade, FlatBook.Cancel;
  }
}
