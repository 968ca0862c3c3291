/** Currency enrichment of a purchase request (services/integration/admin_integration_service.py), applied to fresh
    requests before they are stored and again to stored ones on every offline detail read. */
module Enrichment {
  import opened Wrappers

  /** A JSON value where a number is expected: absent or null, a number, or something `float` rejects. */
  datatype Num = Absent | Value(v: real) | Malformed

  /** A line item or a quote item; None is an absent or null field. */
  datatype Line = Line(
    description: Option<string>, productName: Option<string>, quantity: Option<real>, unitPrice: Option<real>,
    total: Option<real>, totalPrice: Option<real>, convertedUnitPrice: Option<real>, convertedTotal: Option<real>,
    originalUnitPrice: Option<real>, originalTotal: Option<real>, originalCurrency: Option<string>)

  datatype Item = NotADict | Dict(line: Line)

  /** A non-empty conversion. `converted` is the truth value of its key `is_converted`, None when there is no such
      key. */
  datatype Conversion = Conversion(
    converted: Option<bool>, originalCurrency: Option<string>, exchangeRate: Num,
    originalTotal: Num, originalSubtotal: Num,
    convertedTotal: Num)

  /** `Encoded` is a text that decodes to `inner`; a text that does not decode stays what it is, like any other
      value. */
  datatype QuoteData =
    | Other
    | Encoded(inner: QuoteData)
    | Quote(conversion: Option<Conversion>, currency: Option<string>, items: seq<Item>)

  /** `ItemText` is a text and what it decodes to, if it does. `NoItems` is absent, null or an empty object. */
  datatype Items = NoItems | ItemText(decoded: Option<Items>) | ItemList(list: seq<Item>) | OtherItems

  datatype Request = Request(
    quote: QuoteData, originalCurrency: Option<string>, originalAmount: Option<real>, exchangeRate: Option<real>,
    isConverted: bool, amount: Num, currency: Option<string>, items: Items)

  const USD := Some("USD")

  predicate NonZero(o: Option<real>) { o.Some? && o.value != 0.0 }

  /** `a or b` */
  function Either(a: Option<string>, b: Option<string>): Option<string> { if Truthy(a) then a else b }

  function EitherNumber(a: Option<real>, b: Option<real>): Option<real> { if NonZero(a) then a else b }

  /** `a` unless it is None */
  function OrElse(a: Option<real>, b: Option<real>): Option<real> { if a.Some? then a else b }

  predicate Foreign(currency: Option<string>) { Truthy(currency) && currency != USD }

  // ---- The request itself ----

  function Decoded(q: QuoteData): QuoteData { if q.Encoded? then q.inner else q }

  function NumberOf(n: Num): Option<real> { if n.Value? then Some(n.v) else None }

  /** `float(amount or 0)`, None when it raises */
  function AmountOf(n: Num): Option<real> { if n.Absent? then Some(0.0) else NumberOf(n) }

  function ConvertedAmount(r: Request, c: Conversion, originalAmount: Option<real>): Num {
    if c.convertedTotal.Value? && AmountOf(r.amount).Some?
       && (AmountOf(r.amount) == originalAmount || r.currency != USD)
    then c.convertedTotal else r.amount
  }

  function FromConversion(r: Request, c: Conversion, quoteCurrency: Option<string>): Request {
    var originalAmount :=
      OrElse(r.originalAmount, NumberOf(if c.originalTotal.Absent? then c.originalSubtotal else c.originalTotal));
    r.(isConverted := c.converted != Some(false),
       originalCurrency := Either(r.originalCurrency, Either(c.originalCurrency, quoteCurrency)),
       exchangeRate := if NonZero(r.exchangeRate) || !c.exchangeRate.Value? then r.exchangeRate
       else NumberOf(c.exchangeRate),
       originalAmount := originalAmount,
       amount := ConvertedAmount(r, c, originalAmount))
  }

  function FromQuote(r: Request): Request {
    match r.quote
    case Quote(Some(c), currency, _) => FromConversion(r, c, currency)
    case Quote(None, currency, _) =>
      if Foreign(currency) then r.(originalCurrency := Either(r.originalCurrency, currency), isConverted := true) else r
    case _ => r
  }

  function FromCurrency(r: Request): Request {
    if !Truthy(r.originalCurrency) && Foreign(r.currency)
    then r.(originalCurrency := r.currency, isConverted := true,
        originalAmount := OrElse(r.originalAmount, AmountOf(r.amount)))
    else r
  }

  function Close(r: Request): Request { if r.isConverted then r.(currency := USD) else r }

  function Header(r: Request): Request { Close(FromCurrency(FromQuote(r.(quote := Decoded(r.quote))))) }

  // ---- Line items ----

  function QuoteItems(q: QuoteData): seq<Item> { if q.Quote? then q.items else [] }

  /** Lines made from the quote when the request has none. */
  function LineFromQuote(q: Line, originalCurrency: Option<string>): Line {
    Line(Either(q.description, q.productName), Either(q.productName, q.description),
         EitherNumber(q.quantity, Some(1.0)), q.unitPrice, None, q.total, q.convertedUnitPrice, q.convertedTotal,
         EitherNumber(q.originalUnitPrice, q.unitPrice),
         EitherNumber(q.originalTotal, q.total), Either(q.originalCurrency, originalCurrency))
  }

  function LinesFromQuote(quoteItems: seq<Item>, originalCurrency: Option<string>): seq<Item> {
    if quoteItems == [] then []
    else
      var last := quoteItems[|quoteItems| - 1];
      LinesFromQuote(quoteItems[..|quoteItems| - 1], originalCurrency)
      + if last.Dict? then [Dict(LineFromQuote(last.line, originalCurrency))] else []
  }

  function FirstSame(quoteItems: seq<Item>, description: Option<string>): Option<Line> {
    if quoteItems == [] then None
    else if quoteItems[0].Dict? && quoteItems[0].line.description == description then Some(quoteItems[0].line)
    else FirstSame(quoteItems[1..], description)
  }

  /** The quote item for a line: the one at its index, or else the first with its description. */
  function QuoteItemFor(i: nat, line: Line, quoteItems: seq<Item>): Option<Line> {
    if i < |quoteItems| && quoteItems[i].Dict? then Some(quoteItems[i].line)
    else FirstSame(quoteItems, line.description)
  }

  function FillFromQuote(line: Line, q: Line, originalCurrency: Option<string>): Line {
    line.(convertedUnitPrice := OrElse(line.convertedUnitPrice, q.convertedUnitPrice),
          convertedTotal := OrElse(line.convertedTotal, q.convertedTotal),
          originalUnitPrice := OrElse(line.originalUnitPrice, OrElse(q.originalUnitPrice, q.unitPrice)),
          originalTotal := OrElse(line.originalTotal, OrElse(q.originalTotal, q.total)),
          originalCurrency := Either(line.originalCurrency, Either(q.originalCurrency, originalCurrency)))
  }

  function Number(o: Option<real>): real { if o.Some? then o.value else 0.0 }

  function UnitPrice(line: Line): real { Number(line.unitPrice) }

  function Total(line: Line): real {
    var quantity := Number(EitherNumber(line.quantity, Some(1.0)));
    Number(EitherNumber(line.total, EitherNumber(line.totalPrice, Some(quantity * UnitPrice(line)))))
  }

  /** To two decimal places, halves to the even neighbour. */
  function Round2(x: real): real {
    var cents := (x * 100.0).Floor;
    var rest := x * 100.0 - cents as real;
    var up := rest > 0.5 || (rest == 0.5 && cents % 2 == 1);
    (if up then cents + 1 else cents) as real / 100.0
  }

  function AtRate(price: real, rate: real): real { Round2(price * rate) }

  function FillFromRate(line: Line, rate: real, originalCurrency: Option<string>): Line {
    line.(convertedUnitPrice := OrElse(line.convertedUnitPrice, Some(AtRate(UnitPrice(line), rate))),
          convertedTotal := OrElse(line.convertedTotal, Some(AtRate(Total(line), rate))),
          originalUnitPrice := OrElse(line.originalUnitPrice, Some(UnitPrice(line))),
          originalTotal := OrElse(line.originalTotal, Some(Total(line))),
          originalCurrency := Either(line.originalCurrency, originalCurrency))
  }

  /** What the header contributes to the lines. */
  datatype Terms = Terms(originalCurrency: Option<string>, exchangeRate: Option<real>, isConverted: bool)

  function TermsOf(r: Request): Terms { Terms(r.originalCurrency, r.exchangeRate, r.isConverted) }

  function EnrichLine(line: Line, q: Option<Line>, t: Terms): Line {
    var quoted := if q.Some? then FillFromQuote(line, q.value, t.originalCurrency) else line;
    if NonZero(t.exchangeRate) && t.isConverted then FillFromRate(quoted, t.exchangeRate.value, t.originalCurrency)
    else quoted
  }

  function EnrichItem(it: Item, i: nat, quoteItems: seq<Item>, t: Terms): Item {
    if it.Dict? then Dict(EnrichLine(it.line, QuoteItemFor(i, it.line, quoteItems), t)) else it
  }

  function EnrichAll(list: seq<Item>, quoteItems: seq<Item>, t: Terms): seq<Item> {
    seq(|list|, i requires 0 <= i < |list| => EnrichItem(list[i], i, quoteItems, t))
  }

  predicate Empty(items: Items) { items.NoItems? || (items.ItemList? && items.list == []) }

  function EnrichItems(items: Items, quoteItems: seq<Item>, t: Terms): Items {
    var listed :=
      if !items.ItemText? then items else if items.decoded.Some? then items.decoded.value else ItemList([]);
    var filled := if Empty(listed) && quoteItems != [] then ItemList(LinesFromQuote(quoteItems, t.originalCurrency))
        else listed;
    if filled.ItemList? then ItemList(EnrichAll(filled.list, quoteItems, t)) else filled
  }

  function Enriched(r: Request): Request {
    var h := Header(r);
    h.(items := EnrichItems(h.items, QuoteItems(h.quote), TermsOf(h)))
  }

  // ---- Enriching twice ----

  /** The conversion says explicitly that nothing was converted, while only the request's own currency says that the
      amount is foreign. */
  predicate Contradicts(r: Request) {
    var q := Decoded(r.quote);
    && q.Quote? && q.conversion.Some? && q.conversion.value.converted == Some(false)
    && !Truthy(r.originalCurrency) && !Truthy(q.conversion.value.originalCurrency) && !Truthy(q.currency)
       && Foreign(r.currency)
  }

  /** A text that decodes to a text that is decoded next time. */
  predicate TwiceEncoded(r: Request) {
    || (r.quote.Encoded? && r.quote.inner.Encoded?)
    || ItemsTwiceEncoded(r.items)
  }

  lemma HeaderTwice(r: Request)
    requires !(r.quote.Encoded? && r.quote.inner.Encoded?)
    ensures Header(Header(r)) == if Contradicts(r) then Header(r).(isConverted := false) else Header(r)
    ensures Contradicts(r) ==> Header(r).isConverted && Truthy(Header(r).originalCurrency)
  {
  }

  lemma HeaderIgnoresItems(r: Request, items: Items)
    ensures Header(r.(items := items)) == Header(r).(items := items) && Header(r).items == r.items
  {
  }

  lemma HeaderKeepsQuote(r: Request)
    ensures Header(r).quote == Decoded(r.quote)
  {
  }

  /** `later` are the terms of a second pass over lines enriched with `t`. */
  predicate Repeats(t: Terms, later: Terms) {
    later == t || (later == t.(isConverted := false) && t.isConverted && Truthy(t.originalCurrency))
  }

  lemma LineTwice(line: Line, q: Option<Line>, t: Terms, later: Terms)
    requires Repeats(t, later)
    ensures EnrichLine(EnrichLine(line, q, t), q, later) == EnrichLine(line, q, t)
    ensures EnrichLine(line, q, t).description == line.description
  {
  }

  lemma ItemTwice(it: Item, i: nat, quoteItems: seq<Item>, t: Terms, later: Terms)
    requires Repeats(t, later)
    ensures EnrichItem(EnrichItem(it, i, quoteItems, t), i, quoteItems, later) == EnrichItem(it, i, quoteItems, t)
  {
    if it.Dict? {
      LineTwice(it.line, QuoteItemFor(i, it.line, quoteItems), t, later);
    }
  }

  lemma AllTwice(list: seq<Item>, quoteItems: seq<Item>, t: Terms, later: Terms)
    requires Repeats(t, later)
    ensures EnrichAll(EnrichAll(list, quoteItems, t), quoteItems, later) == EnrichAll(list, quoteItems, t)
  {
    forall i: nat | i < |list|
      ensures EnrichItem(EnrichItem(list[i], i, quoteItems, t), i, quoteItems, later) ==
              EnrichItem(list[i], i, quoteItems, t)
    {
      ItemTwice(list[i], i, quoteItems, t, later);
    }
  }

  lemma {:induction false} LinesExistIfQuoted(quoteItems: seq<Item>, a: Option<string>, b: Option<string>)
    ensures LinesFromQuote(quoteItems, a) == [] <==> LinesFromQuote(quoteItems, b) == []
  {
    if quoteItems != [] {
      LinesExistIfQuoted(quoteItems[..|quoteItems| - 1], a, b);
    }
  }

  predicate ItemsTwiceEncoded(items: Items) {
    items.ItemText? && items.decoded.Some? && items.decoded.value.ItemText?
  }

  function Depth(items: Items): nat {
    if items.ItemText? && items.decoded.Some? then 1 + Depth(items.decoded.value) else 0
  }

  function QuoteDepth(q: QuoteData): nat { if q.Encoded? then 1 + QuoteDepth(q.inner) else 0 }

  lemma EncodedItemsChange(items: Items, quoteItems: seq<Item>, t: Terms, later: Terms)
    requires ItemsTwiceEncoded(items)
    ensures EnrichItems(EnrichItems(items, quoteItems, t), quoteItems, later) != EnrichItems(items, quoteItems, t)
  {
    var once := items.decoded.value;
    assert EnrichItems(items, quoteItems, t) == once;
    if once.decoded.Some? {
      assert Depth(once) == 1 + Depth(once.decoded.value);
    }
  }

  lemma ListTwice(list: seq<Item>, quoteItems: seq<Item>, t: Terms, later: Terms)
    requires Repeats(t, later)
    requires list == [] && quoteItems != [] ==> LinesFromQuote(quoteItems, t.originalCurrency) == []
    ensures EnrichItems(ItemList(EnrichAll(list, quoteItems, t)), quoteItems, later) ==
            ItemList(EnrichAll(list, quoteItems, t))
  {
    AllTwice(list, quoteItems, t, later);
    LinesExistIfQuoted(quoteItems, t.originalCurrency, later.originalCurrency);
  }

  lemma ItemsTwice(items: Items, quoteItems: seq<Item>, t: Terms, later: Terms)
    requires Repeats(t, later)
    ensures EnrichItems(EnrichItems(items, quoteItems, t), quoteItems, later) == EnrichItems(items, quoteItems, t) <==>
            !ItemsTwiceEncoded(items)
  {
    if ItemsTwiceEncoded(items) {
      EncodedItemsChange(items, quoteItems, t, later);
    } else {
      var listed := if !items.ItemText? then items
          else if items.decoded.Some? then items.decoded.value else ItemList([]);
      if Empty(listed) && quoteItems != [] {
        ListTwice(LinesFromQuote(quoteItems, t.originalCurrency), quoteItems, t, later);
      } else if listed.ItemList? {
        ListTwice(listed.list, quoteItems, t, later);
      }
    }
  }

  lemma EnrichedParts(r: Request)
    ensures Enriched(r).quote == Decoded(r.quote)
    ensures Enriched(r) == Header(r).(items := EnrichItems(r.items, QuoteItems(Decoded(r.quote)), TermsOf(Header(r))))
    ensures Header(Enriched(r)) == Header(Header(r)).(items := Enriched(r).items)
  {
    HeaderKeepsQuote(r);
    HeaderIgnoresItems(r, r.items);
    HeaderIgnoresItems(Header(r), Enriched(r).items);
  }

  /** What a second pass does to a request none of whose texts is encoded twice. */
  lemma SecondPass(r: Request)
    requires !TwiceEncoded(r)
    ensures Enriched(Enriched(r)) == if Contradicts(r) then Enriched(r).(isConverted := false) else Enriched(r)
    ensures Contradicts(r) ==> Enriched(r).isConverted
  {
    HeaderTwice(r);
    EnrichedParts(r);
    EnrichedParts(Enriched(r));
    HeaderKeepsQuote(r);
    ItemsTwice(r.items, QuoteItems(Decoded(r.quote)), TermsOf(Header(r)), TermsOf(Header(Enriched(r))));
  }

  lemma TwiceEncodedChanges(r: Request)
    requires TwiceEncoded(r)
    ensures Enriched(Enriched(r)) != Enriched(r)
  {
    EnrichedParts(r);
    EnrichedParts(Enriched(r));
    if r.quote.Encoded? && r.quote.inner.Encoded? {
      assert QuoteDepth(r.quote.inner) == 1 + QuoteDepth(r.quote.inner.inner);
    } else {
      EncodedItemsChange(r.items, QuoteItems(Decoded(r.quote)), TermsOf(Header(r)), TermsOf(Header(Enriched(r))));
    }
  }

  /** Main result: enriching an enriched request (amount, currency, rate, every line item) changes nothing if and only
      if no text in it is encoded twice and its conversion does not contradict its currency. */
  lemma EnrichedTwiceIff(r: Request)
    ensures Enriched(Enriched(r)) == Enriched(r) <==> !TwiceEncoded(r) && !Contradicts(r)
  {
    if TwiceEncoded(r) {
      TwiceEncodedChanges(r);
    } else {
      SecondPass(r);
    }
  }

  /** In any case the second pass of a request without twice-encoded texts is the last that changes anything. */
  lemma ThirdPassChangesNothing(r: Request)
    requires !TwiceEncoded(r)
    ensures Enriched(Enriched(Enriched(r))) == Enriched(Enriched(r))
  {
    SecondPass(r);
    if Contradicts(r) {
      HeaderTwice(r);
      EnrichedParts(r);
      var twice := Enriched(Enriched(r));
      assert !Contradicts(twice);
      LaterNotEncoded(r);
      SecondPass(Enriched(r));
    }
  }

  lemma LaterNotEncoded(r: Request)
    requires !TwiceEncoded(r)
    ensures !TwiceEncoded(Enriched(r))
  {
    EnrichedParts(r);
  }

  /** A request in euros without an original currency whose conversion says `is_converted: false`: the first pass marks
      it converted, the second does not. */
  lemma ContradictionExample()
    ensures exists r: Request :: Enriched(r).isConverted && !Enriched(Enriched(r)).isConverted
  {
    var c := Conversion(Some(false), None, Absent, Absent, Absent, Absent);
    var r := Request(Quote(Some(c), None, []), None, None, None, false, Value(100.0), Some("EUR"), NoItems);
    assert "EUR" != "USD" && "EUR" != "";
    assert Contradicts(r);
    SecondPass(r);
  }

  // ---- What the enriched values mean ----

  lemma Round2IsNearest(x: real)
    ensures -0.005 <= Round2(x) - x <= 0.005
    ensures (Round2(x) * 100.0).Floor as real == Round2(x) * 100.0
  {
    var cents := (x * 100.0).Floor;
    assert Round2(x) * 100.0 == cents as real || Round2(x) * 100.0 == (cents + 1) as real;
  }

  lemma AtRateIsNearest(price: real, rate: real)
    ensures -0.005 <= AtRate(price, rate) - price * rate <= 0.005
  {
    Round2IsNearest(price * rate);
  }

  /** What a line already says is never overwritten. */
  lemma PresentFieldsAreKept(line: Line, q: Option<Line>, t: Terms)
    ensures var after := EnrichLine(line, q, t);
            && (line.convertedUnitPrice.Some? ==> after.convertedUnitPrice == line.convertedUnitPrice)
            && (line.convertedTotal.Some? ==> after.convertedTotal == line.convertedTotal)
            && (line.originalUnitPrice.Some? ==> after.originalUnitPrice == line.originalUnitPrice)
            && (line.originalTotal.Some? ==> after.originalTotal == line.originalTotal)
            && (Truthy(line.originalCurrency) ==> after.originalCurrency == line.originalCurrency)
            && (after.description, after.quantity, after.unitPrice, after.total, after.totalPrice) ==
               (line.description, line.quantity, line.unitPrice, line.total, line.totalPrice)
  {
  }

  lemma PricesStay(line: Line, q: Line, currency: Option<string>)
    ensures UnitPrice(FillFromQuote(line, q, currency)) == UnitPrice(line)
            && Total(FillFromQuote(line, q, currency)) == Total(line)
  {
  }

  /** In a converted request with a rate every line ends up fully priced, and a converted price that neither the line
      nor its quote item gives is the original price at that rate, rounded. */
  lemma ConvertedLineIsPriced(line: Line, q: Option<Line>, t: Terms)
    requires NonZero(t.exchangeRate) && t.isConverted
    ensures var after := EnrichLine(line, q, t);
            && after.convertedUnitPrice.Some? && after.convertedTotal.Some?
            && after.originalUnitPrice.Some? && after.originalTotal.Some?
            && (line.convertedUnitPrice.None? && (q.Some? ==> q.value.convertedUnitPrice.None?) ==>
                  after.convertedUnitPrice == Some(AtRate(UnitPrice(line), t.exchangeRate.value)))
            && (line.convertedTotal.None? && (q.Some? ==> q.value.convertedTotal.None?) ==>
                  after.convertedTotal == Some(AtRate(Total(line), t.exchangeRate.value)))
  {
    if q.Some? {
      PricesStay(line, q.value, t.originalCurrency);
    }
  }

  /** The header of an enriched request: the amount is the given one or the quote's converted total, what was recorded
      about the original is kept, and a converted request is in USD. */
  lemma EnrichedHeader(r: Request)
    ensures var after, q := Enriched(r), Decoded(r.quote);
            && (after.amount == r.amount
                || (q.Quote? && q.conversion.Some? && after.amount == q.conversion.value.convertedTotal
                   && after.amount.Value?))
            && (r.originalAmount.Some? ==> after.originalAmount == r.originalAmount)
            && (Truthy(r.originalCurrency) ==> after.originalCurrency == r.originalCurrency)
            && (NonZero(r.exchangeRate) ==> after.exchangeRate == r.exchangeRate)
            && (after.currency == if after.isConverted then USD else r.currency)
  {
  }

  // ---- The operation ----

  method FindQuoteItem(i: nat, line: Line, quoteItems: seq<Item>) returns (q: Option<Line>)
    ensures q == QuoteItemFor(i, line, quoteItems)
  {
    if i < |quoteItems| && quoteItems[i].Dict? {
      return Some(quoteItems[i].line);
    }
    var k := 0;
    while k < |quoteItems|
      invariant 0 <= k <= |quoteItems|
      invariant FirstSame(quoteItems, line.description) == FirstSame(quoteItems[k..], line.description)
    {
      if quoteItems[k].Dict? && quoteItems[k].line.description == line.description {
        return Some(quoteItems[k].line);
      }
      assert quoteItems[k..][1..] == quoteItems[k + 1..];
      k := k + 1;
    }
    q := None;
  }

  method BuildLines(quoteItems: seq<Item>, originalCurrency: Option<string>) returns (lines: seq<Item>)
    ensures lines == LinesFromQuote(quoteItems, originalCurrency)
  {
    lines := [];
    for i := 0 to |quoteItems|
      invariant lines == LinesFromQuote(quoteItems[..i], originalCurrency)
    {
      assert quoteItems[..i + 1][..i] == quoteItems[..i];
      if quoteItems[i].Dict? {
        lines := lines + [Dict(LineFromQuote(quoteItems[i].line, originalCurrency))];
      }
    }
    assert quoteItems[..|quoteItems|] == quoteItems;
  }

  method EnrichLines(list: seq<Item>, quoteItems: seq<Item>, t: Terms) returns (lines: seq<Item>)
    ensures lines == EnrichAll(list, quoteItems, t)
  {
    lines := [];
    for i := 0 to |list|
      invariant lines == EnrichAll(list, quoteItems, t)[..i]
    {
      if list[i].Dict? {
        var line := list[i].line;
        var q := FindQuoteItem(i, line, quoteItems);
        if q.Some? {
          line := FillFromQuote(line, q.value, t.originalCurrency);
        }
        if NonZero(t.exchangeRate) && t.isConverted {
          line := FillFromRate(line, t.exchangeRate.value, t.originalCurrency);
        }
        lines := lines + [Dict(line)];
      } else {
        lines := lines + [list[i]];
      }
    }
  }

  class PurchaseRequest {
    var quote: QuoteData
    var originalCurrency: Option<string>
    var originalAmount: Option<real>
    var exchangeRate: Option<real>
    var isConverted: bool
    var amount: Num
    var currency: Option<string>
    var items: Items

    function View(): Request
      reads this
    {
      Request(quote, originalCurrency, originalAmount, exchangeRate, isConverted, amount, currency, items)
    }

    constructor (r: Request)
      ensures View() == r
    {
      quote, originalCurrency, originalAmount, exchangeRate := r.quote, r.originalCurrency, r.originalAmount,
          r.exchangeRate;
      isConverted, amount, currency, items := r.isConverted, r.amount, r.currency, r.items;
    }

    method ApplyConversion(c: Conversion, quoteCurrency: Option<string>)
      modifies this
      ensures View() == FromConversion(old(View()), c, quoteCurrency)
    {
      isConverted := c.converted != Some(false);
      if !Truthy(originalCurrency) {
        originalCurrency := Either(c.originalCurrency, quoteCurrency);
      }
      if !NonZero(exchangeRate) && c.exchangeRate.Value? {
        exchangeRate := Some(c.exchangeRate.v);
      }
      if originalAmount.None? {
        var total := if c.originalTotal.Absent? then c.originalSubtotal else c.originalTotal;
        if total.Value? {
          originalAmount := Some(total.v);
        }
      }
      ConvertAmount(c);
    }

    method ConvertAmount(c: Conversion)
      modifies this`amount
      ensures amount == ConvertedAmount(old(View()), c, originalAmount)
    {
      if c.convertedTotal.Value? && !amount.Malformed? {
        if AmountOf(amount) == originalAmount || currency != USD {
          amount := c.convertedTotal;
        }
      }
    }

    method EnrichHeader()
      modifies this
      ensures View() == Header(old(View()))
    {
      if quote.Encoded? {
        quote := quote.inner;
      }
      if quote.Quote? {
        if quote.conversion.Some? {
          ApplyConversion(quote.conversion.value, quote.currency);
        } else if Foreign(quote.currency) {
          if !Truthy(originalCurrency) {
            originalCurrency := quote.currency;
          }
          isConverted := true;
        }
      }
      if !Truthy(originalCurrency) && Foreign(currency) {
        originalCurrency := currency;
        isConverted := true;
        if originalAmount.None? && !amount.Malformed? {
          originalAmount := AmountOf(amount);
        }
      }
      if isConverted {
        currency := USD;
      }
    }

    /** Enriches the request in place. */
    method Enrich()
      modifies this
      ensures View() == Enriched(old(View()))
    {
      EnrichHeader();
      var listed := items;
      if items.ItemText? {
        if items.decoded.Some? {
          listed := items.decoded.value;
          items := listed;
        } else {
          listed := ItemList([]);
        }
      }
      var quoteItems := QuoteItems(quote);
      if Empty(listed) && quoteItems != [] {
        var lines := BuildLines(quoteItems, originalCurrency);
        listed := ItemList(lines);
        items := listed;
      }
      if listed.ItemList? {
        var lines := EnrichLines(listed.list, quoteItems, Terms(originalCurrency, exchangeRate, isConverted));
        items := ItemList(lines);
      }
    }
  }
}
