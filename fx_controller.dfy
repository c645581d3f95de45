/** The FX pricing and booking controller: quotes and trades kept in two
    repositories, lookup by id, quote creation (plain and request-for-quote)
    and trade creation that checks the trade's quote reference.

    A repository is a sequence of stored entities. save appends the entity
    with the next identity value (1, 2, 3, ...); find-by-id searches the
    stored entities. Only the fields the controller reads or sets are kept:
    the prices, timestamps and the remaining trade fields are not part of
    this model. */
module FxController {
  import opened Common
  import opened Decimal

  /** A quote entity; every field is a nullable Java reference. */
  datatype Quote = Quote(
    id: Option<int>,
    currencyPair: Option<string>,
    quoteProvider: Option<string>,
    venue: Option<string>,
    liquidityProvider: Option<string>,
    quoteId: Option<string>,
    tenor: Option<string>,
    settlementType: Option<string>,
    quoteStatus: Option<string>,
    sourceSystem: Option<string>,
    pricingModel: Option<string>,
    priceType: Option<string>,
    marketDataSource: Option<string>,
    quoteCondition: Option<string>,
    quoteOrigin: Option<string>,
    quoteType: Option<string>,
    quoteLevel: Option<string>,
    quoteSide: Option<string>,
    quoteChannel: Option<string>,
    quoteVersion: Option<string>,
    quoteReference: Option<string>,
    quoteComment: Option<string>)

  /** A trade entity: its identity, its business id, and the quote it refers to. */
  datatype Trade = Trade(id: Option<int>, tradeId: Option<string>, currencyPair: Option<string>, quoteId: Option<string>)

  function QuoteKey(q: Quote): Option<int> { q.id }

  function TradeKey(t: Trade): Option<int> { t.id }

  // ---------------------------------------------------------------------
  // Repositories
  // ---------------------------------------------------------------------

  /** findById: a stored entity with that identity, or nothing. */
  function FindById<T>(rows: seq<T>, key: T -> Option<int>, id: int): (r: Option<T>)
    ensures r.Some? ==> r.value in rows && key(r.value) == Some(id)
    ensures r.None? <==> forall i :: 0 <= i < |rows| ==> key(rows[i]) != Some(id)
  {
    if rows == [] then None
    else if key(rows[0]) == Some(id) then Some(rows[0])
    else FindById(rows[1..], key, id)
  }

  /** The identities of the stored rows are base, base + 1, ... in order. */
  predicate IdsFrom<T>(rows: seq<T>, key: T -> Option<int>, base: int) {
    forall i :: 0 <= i < |rows| ==> key(rows[i]) == Some(base + i)
  }

  /** With identities assigned in order, find-by-id reads the row at the
      identity's position, and finds nothing outside the assigned range. */
  lemma {:induction false} FindByIdPositional<T>(rows: seq<T>, key: T -> Option<int>, base: int, id: int)
    requires IdsFrom(rows, key, base)
    ensures FindById(rows, key, id) == if base <= id < base + |rows| then Some(rows[id - base]) else None
  {
    if rows != [] && key(rows[0]) != Some(id) {
      assert IdsFrom(rows[1..], key, base + 1) by {
        forall i | 0 <= i < |rows[1..]|
          ensures key(rows[1..][i]) == Some(base + 1 + i)
        {
          assert rows[1..][i] == rows[i + 1];
        }
      }
      FindByIdPositional(rows[1..], key, base + 1, id);
    }
  }

  /** Saving a row with the next identity keeps the identities in order. */
  lemma IdsFromAppend<T>(rows: seq<T>, key: T -> Option<int>, base: int, row: T)
    requires IdsFrom(rows, key, base) && key(row) == Some(base + |rows|)
    ensures IdsFrom(rows + [row], key, base)
  {
  }

  // ---------------------------------------------------------------------
  // Quote reference check of createTrade
  // ---------------------------------------------------------------------

  /** The first stored quote whose quoteId equals the given one
      (filter on quoteId.equals(q.getQuoteId()), then findFirst). */
  function FindFirstQuote(quotes: seq<Quote>, quoteId: string): (r: Option<Quote>)
    ensures r.None? <==> forall i :: 0 <= i < |quotes| ==> quotes[i].quoteId != Some(quoteId)
    ensures r.Some? ==> exists i :: 0 <= i < |quotes| && quotes[i] == r.value && r.value.quoteId == Some(quoteId)
                          && forall j :: 0 <= j < i ==> quotes[j].quoteId != Some(quoteId)
  {
    if quotes == [] then None
    else if quotes[0].quoteId == Some(quoteId) then Some(quotes[0])
    else
      var r := FindFirstQuote(quotes[1..], quoteId);
      assert r.Some? ==> exists i :: 0 <= i < |quotes| && quotes[i] == r.value
                           && forall j :: 0 <= j < i ==> quotes[j].quoteId != Some(quoteId) by {
        if r.Some? {
          var i :| 0 <= i < |quotes[1..]| && quotes[1..][i] == r.value && r.value.quoteId == Some(quoteId)
                   && forall j :: 0 <= j < i ==> quotes[1..][j].quoteId != Some(quoteId);
          assert quotes[i + 1] == r.value;
          assert forall j :: 1 <= j < i + 1 ==> quotes[j] == quotes[1..][j - 1];
        }
      }
      r
  }

  /** The check createTrade makes before saving: no error when the trade's
      quoteId is null or empty or names a stored quote, otherwise the error
      "Invalid quoteId: " followed by the id. */
  function ValidateQuoteReference(quotes: seq<Quote>, quoteId: Option<string>): (err: Option<string>)
    ensures err.None? <==>
              quoteId.None? || quoteId.value == ""
              || exists i :: 0 <= i < |quotes| && quotes[i].quoteId == quoteId
    ensures err.Some? ==> quoteId.Some? && err.value == "Invalid quoteId: " + quoteId.value
  {
    if quoteId.None? || quoteId.value == "" then None
    else if FindFirstQuote(quotes, quoteId.value).None? then Some("Invalid quoteId: " + quoteId.value)
    else None
  }

  /** A trade referencing the quoteId of a quote just saved is accepted. */
  lemma SavedQuoteValidatesReference(quotes: seq<Quote>, saved: Quote)
    requires saved.quoteId.Some?
    ensures ValidateQuoteReference(quotes + [saved], saved.quoteId).None?
  {
    assert (quotes + [saved])[|quotes|] == saved;
  }

  /** Saving more quotes never turns an accepted reference into a rejected one. */
  lemma AcceptedReferenceStaysAccepted(quotes: seq<Quote>, more: seq<Quote>, quoteId: Option<string>)
    requires ValidateQuoteReference(quotes, quoteId).None?
    ensures ValidateQuoteReference(quotes + more, quoteId).None?
  {
    if quoteId.Some? && quoteId.value != "" {
      var i :| 0 <= i < |quotes| && quotes[i].quoteId == quoteId;
      assert (quotes + more)[i] == quotes[i];
    }
  }

  // ---------------------------------------------------------------------
  // requestForQuote
  // ---------------------------------------------------------------------

  /** The Random draws requestForQuote makes, in order: venue, liquidity
      provider, quote number, pricing model, market data source, quote
      level and quote reference (each random.nextInt(bound)). */
  datatype RfqDraws = RfqDraws(venue: nat, liquidityProvider: nat, quoteNumber: nat, pricingModel: nat,
                               marketDataSource: nat, quoteLevel: nat, quoteReference: nat)

  /** Each draw lies below the bound passed to nextInt. */
  predicate DrawsInRange(d: RfqDraws) {
    d.venue < 5 && d.liquidityProvider < 3 && d.quoteNumber < 90000 && d.pricingModel < 3
    && d.marketDataSource < 3 && d.quoteLevel < 2 && d.quoteReference < 1000
  }

  /** The quote requestForQuote builds before saving it. */
  function RfqQuote(rfq: Quote, d: RfqDraws): (q: Quote)
    ensures q.id.None?
    ensures q.currencyPair == rfq.currencyPair
    ensures q.tenor == if rfq.tenor.Some? then rfq.tenor else Some("SPOT")
    ensures q.quoteProvider == Some("RandomProvider") && q.settlementType == Some("T+2")
    ensures q.quoteStatus == Some("ACTIVE") && q.sourceSystem == Some("RFQ-API")
    ensures q.priceType == Some("Firm") && q.quoteCondition == Some("Normal") && q.quoteOrigin == Some("Auto")
    ensures q.quoteType == Some("Indicative") && q.quoteSide == Some("Buy") && q.quoteChannel == Some("API")
    ensures q.quoteVersion == Some("1") && q.quoteComment == Some("Auto-generated RFQ quote")
    ensures DrawsInRange(d) ==> RfqQuoteIdShape(q.quoteId)
  {
    var quoteNumber := 10000 + d.quoteNumber;
    var quoteId := "Q" + DecimalString(quoteNumber);
    assert DrawsInRange(d) ==> RfqQuoteIdShape(Some(quoteId)) by {
      if DrawsInRange(d) {
        RfqQuoteIdDigits(quoteNumber);
        assert quoteId[1..] == DecimalString(quoteNumber);
      }
    }
    Quote(
      None,
      rfq.currencyPair,
      Some("RandomProvider"),
      Some("Venue" + DecimalString(d.venue + 1)),
      Some("LP" + DecimalString(d.liquidityProvider + 1)),
      Some(quoteId),
      if rfq.tenor.Some? then rfq.tenor else Some("SPOT"),
      Some("T+2"),
      Some("ACTIVE"),
      Some("RFQ-API"),
      Some("Model" + DecimalString(d.pricingModel + 1)),
      Some("Firm"),
      Some("Market" + DecimalString(d.marketDataSource + 1)),
      Some("Normal"),
      Some("Auto"),
      Some("Indicative"),
      Some("Level" + DecimalString(d.quoteLevel + 1)),
      Some("Buy"),
      Some("API"),
      Some("1"),
      Some("Ref" + DecimalString(d.quoteReference + 1)),
      Some("Auto-generated RFQ quote"))
  }

  /** An RFQ quote id: "Q" and five digits whose value lies in [10000, 99999]. */
  predicate RfqQuoteIdShape(quoteId: Option<string>) {
    && quoteId.Some?
    && |quoteId.value| == 6
    && quoteId.value[0] == 'Q'
    && IsDigits(quoteId.value[1..])
    && 10000 <= DecimalValue(quoteId.value[1..]) <= 99999
  }

  lemma RfqQuoteIdDigits(n: nat)
    requires 10000 <= n <= 99999
    ensures |DecimalString(n)| == 5 && DecimalValue(DecimalString(n)) == n
  {
    assert Pow10(4) == 10000 && Pow10(5) == 100000 by {
      assert Pow10(1) == 10 && Pow10(2) == 100 && Pow10(3) == 1000;
    }
    DecimalLength(n, 5);
    DecimalRoundTrip(n);
  }

  // ---------------------------------------------------------------------
  // The controller
  // ---------------------------------------------------------------------

  /** What POST /trades answers: the saved trade, or an error body. */
  datatype TradeResponse = Saved(trade: Trade) | Rejected(error: string)

  class FxController {
    var quotes: seq<Quote>
    var trades: seq<Trade>

    /** Both stores hold identities 1, 2, 3, ... in order of saving. */
    predicate Valid()
      reads this
    {
      IdsFrom(quotes, QuoteKey, 1) && IdsFrom(trades, TradeKey, 1)
    }

    /** A controller over two empty repositories. */
    constructor ()
      ensures Valid() && quotes == [] && trades == []
    {
      quotes := [];
      trades := [];
    }

    /** GET /quotes/{id}: the stored quote with that id, or null. */
    function GetQuoteById(id: int): (q: Option<Quote>)
      reads this
      ensures q.Some? ==> q.value in quotes && q.value.id == Some(id)
      ensures q.None? <==> forall i :: 0 <= i < |quotes| ==> quotes[i].id != Some(id)
    {
      FindById(quotes, QuoteKey, id)
    }

    /** GET /trades/{id}: the stored trade with that id, or null. */
    function GetTradeById(id: int): (t: Option<Trade>)
      reads this
      ensures t.Some? ==> t.value in trades && t.value.id == Some(id)
      ensures t.None? <==> forall i :: 0 <= i < |trades| ==> trades[i].id != Some(id)
    {
      FindById(trades, TradeKey, id)
    }

    /** POST /quotes: saves the quote as given, with no validation, and
        returns it with its new identity; looking that identity up finds it. */
    method CreateQuote(quote: Quote) returns (saved: Quote)
      requires Valid()
      modifies this
      ensures Valid()
      ensures saved == quote.(id := Some(|old(quotes)| + 1))
      ensures quotes == old(quotes) + [saved] && trades == old(trades)
      ensures GetQuoteById(|quotes|) == Some(saved)
    {
      saved := quote.(id := Some(|quotes| + 1));
      IdsFromAppend(quotes, QuoteKey, 1, saved);
      quotes := quotes + [saved];
      FindByIdPositional(quotes, QuoteKey, 1, |quotes|);
    }

    /** POST /trades: a trade whose quoteId is null or empty, or names a
        stored quote, is saved and returned; otherwise the error is returned
        and neither store changes. */
    method CreateTrade(trade: Trade) returns (response: TradeResponse)
      requires Valid()
      modifies this
      ensures Valid() && quotes == old(quotes)
      ensures response.Rejected? <==> ValidateQuoteReference(old(quotes), trade.quoteId).Some?
      ensures response.Rejected? ==>
                response.error == ValidateQuoteReference(old(quotes), trade.quoteId).value
                && trades == old(trades)
      ensures response.Saved? ==>
                response.trade == trade.(id := Some(|old(trades)| + 1))
                && trades == old(trades) + [response.trade]
                && GetTradeById(|trades|) == Some(response.trade)
    {
      var quoteId := trade.quoteId;
      if quoteId.Some? && quoteId.value != "" {
        var quoteOpt := FindFirstQuote(quotes, quoteId.value);
        if quoteOpt.None? {
          return Rejected("Invalid quoteId: " + quoteId.value);
        }
      }
      var saved := trade.(id := Some(|trades| + 1));
      IdsFromAppend(trades, TradeKey, 1, saved);
      trades := trades + [saved];
      FindByIdPositional(trades, TradeKey, 1, |trades|);
      response := Saved(saved);
    }

    /** POST /quotes/rfq: builds a quote from the request and the random
        draws (currency pair copied, tenor defaulting to "SPOT", a "Q" and
        five digit quote id) and saves it. */
    method RequestForQuote(rfq: Quote, draws: RfqDraws) returns (saved: Quote)
      requires Valid() && DrawsInRange(draws)
      modifies this
      ensures Valid()
      ensures saved == RfqQuote(rfq, draws).(id := Some(|old(quotes)| + 1))
      ensures quotes == old(quotes) + [saved] && trades == old(trades)
      ensures saved.currencyPair == rfq.currencyPair && RfqQuoteIdShape(saved.quoteId)
    {
      var quote := RfqQuote(rfq, draws);
      saved := CreateQuote(quote);
    }
  }

}
