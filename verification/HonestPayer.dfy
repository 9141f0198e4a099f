/** From quote to acceptance: what the SDK pays for a quote is what the gateway asks for. */
module HonestPayer {
  import opened Wrappers
  import opened Strings
  import opened BigInts
  import opened Amounts
  import opened Quotes
  import opened Verification

  /** How Horizon writes an amount: always seven decimals. */
  function HorizonText(n: nat): string {
    ToDec(n / Pow10(STELLAR_DECIMALS)) + "." + PadStart(ToDec(n % Pow10(STELLAR_DECIMALS)), STELLAR_DECIMALS)
  }

  lemma HorizonTextParses(n: nat)
    ensures ParseNumber(HorizonText(n), STELLAR_DECIMALS) == Some(n)
  {
    var d := STELLAR_DECIMALS;
    var w, r := n / Pow10(d), n % Pow10(d);
    PadKeepsValue(r, d);
    var x := PadStart(ToDec(r), d);
    assert HorizonText(n) == Text(ToDec(w), x);
    ParseText(ToDec(w), x, d);
    ValueOfToDec(w);
    assert PadEnd(x, d) == x;
    assert Weigh(w, Pow10(d), r) == n by { DivMod(n, Pow10(d)); }
  }

  /** The amount the SDK hands to the transaction builder denotes the quoted stroops. */
  lemma SdkPaysQuotedAmount(amount: string)
    requires Parse(amount).Some? && Parse(amount).value >= 0
    ensures StroopsToUnits(amount).Some?
    ensures ParseNumber(StroopsToUnits(amount).value, STELLAR_DECIMALS) == Parse(amount)
  {
    FormatParseRoundTrip(Parse(amount).value, STELLAR_DECIMALS);
  }

  /** A quote from `generateQuote`, whether or not its memo was made mandatory later. */
  ghost predicate Issued(q: Quote, options: Options, id: string, now: int) {
    && QuoteFor(options, id, now).Some?
    && q == QuoteFor(options, id, now).value.(requireMemo := q.requireMemo)
  }

  ghost predicate MinimumIsPositive(min: string) {
    min != "" && Parse(min).Some? && 1 <= Parse(min).value
  }

  /** A successful transaction with the memo of quote `id`, inside the window from `now` on. */
  predicate HonestTransaction(tx: Transaction, options: Options, id: string, now: int) {
    && tx.successful && tx.memoType == "text" && tx.memo == Some(QuoteMemo(id))
    && tx.createdAt.Some?
    && 1000 * now <= tx.createdAt.value <= 1000 * (now + options.quoteExpirySeconds)
  }

  /** A direct payment of the route's asset to the provider. */
  predicate HonestOperation(op: Op, options: Options) {
    && op.kind == "payment" && op.to == Some(options.providerAddress)
    && if AssetOf(options.route) == "XLM" then op.assetType == Some("native")
       else AssetOf(options.route) == "USDC"
            && op.assetCode == Some("USDC") && op.assetIssuer == Some(options.usdcIssuer)
  }

  lemma RequiredIsQuoted(q: Quote, options: Options, id: string, now: int)
    requires Issued(q, options, id, now) && MinimumIsPositive(options.minPaymentAmount)
    ensures Parse(q.amount).Some? && 1 <= Parse(q.amount).value
    ensures Required(q, options.minPaymentAmount) == Parse(q.amount)
  {
    QuoteIsMaximum(options, id, now);
  }

  /** An honest payer is always accepted: pay the provider what `stroopsToUnits` gives for the
      quote, inside the window, and Horizon's report of it makes the gateway accept. */
  lemma HonestPayerIsAccepted(q: Quote, options: Options, id: string, now: int,
                              tx: Transaction, ops: seq<Op>, i: int, n: nat, allowPath: bool)
    requires Issued(q, options, id, now) && MinimumIsPositive(options.minPaymentAmount)
    requires HonestTransaction(tx, options, id, now)
    requires StroopsToUnits(q.amount).Some?
    requires ParseNumber(StroopsToUnits(q.amount).value, STELLAR_DECIMALS) == Some(n)
    requires 0 <= i < |ops| && HonestOperation(ops[i], options)
    requires ops[i].amount == Some(HorizonText(n))
    ensures Accepts(q, TxFound(tx), OpsFound(ops), options.minPaymentAmount, allowPath)
  {
    RequiredIsQuoted(q, options, id, now);
    SdkPaysQuotedAmount(q.amount);
    HorizonTextParses(n);
    DeliveredNumber(ops[i], HorizonText(n));
    assert Pays(ops[i], q, allowPath, n);
  }

  /** For a flat quote no other amount will do: acceptance means that some operation delivered
      exactly the quoted stroops to the provider. */
  lemma FlatQuotesAreExact(q: Quote, options: Options, id: string, now: int,
                           answer: TxAnswer, ops: seq<Op>, allowPath: bool)
    requires Issued(q, options, id, now) && MinimumIsPositive(options.minPaymentAmount)
    requires options.route.pricingModel == Flat
    requires Accepts(q, answer, OpsFound(ops), options.minPaymentAmount, allowPath)
    ensures exists i :: 0 <= i < |ops| && ReachesProvider(ops[i], q) && Delivered(ops[i]) == Parse(q.amount)
  {
    RequiredIsQuoted(q, options, id, now);
    var i :| 0 <= i < |ops| && Pays(ops[i], q, allowPath, Parse(q.amount).value);
    assert Delivered(ops[i]) == Parse(q.amount);
  }

  // ---------------------------------------------------------------------------------------
  // An accepted payment outside the window

  /** A flat quote of `n` stroops of XLM that is valid for one second, and its payment. */
  function ShortQuote(n: nat, provider: string): Quote {
    Quote("", "", Flat, ToDec(n), "XLM", None, provider, "", false, 1, 2, 0, "")
  }

  function XlmPayment(n: nat, provider: string): Op {
    Op("payment", Some("native"), None, None, Some(provider), "", Some(HorizonText(n)))
  }

  /** At a time after the window the payment is refused for its time; with a time that cannot be
      read the same payment is accepted. */
  lemma TimeDecides(n: nat, provider: string, ledger: int)
    ensures var quote, ops := ShortQuote(n, provider), OpsFound([XlmPayment(n, provider)]);
            var late := Transaction("none", None, true, "", ledger, Some(3000));
            && !Accepts(quote, TxFound(late), ops, "", false)
            && Accepts(quote, TxFound(late.(createdAt := None)), ops, "", false)
  {
    var quote, op := ShortQuote(n, provider), XlmPayment(n, provider);
    var late := Transaction("none", None, true, "", ledger, Some(3000));
    ParseDigits(ToDec(n));
    ValueOfToDec(n);
    HorizonTextParses(n);
    DeliveredNumber(op, HorizonText(n));
    assert Required(quote, "") == Some(n);
    assert Pays([op][0], quote, false, n);
    UnreadableTimeIsAccepted(quote, late, OpsFound([op]), "", false);
  }
}
