/** Quotes: the memo that names them, their amount, the metered price and the comparison of the
    two. Optional strings are modelled as possibly empty ones, since the code tests them for
    truth and treats both alike. */
module Quotes {
  import opened Wrappers
  import opened BigInts

  // ---------------------------------------------------------------------------------------
  // Memo

  predicate IsHex(c: char) {
    '0' <= c <= '9' || 'a' <= c <= 'f' || 'A' <= c <= 'F'
  }

  predicate AllHex(s: string) {
    forall i | 0 <= i < |s| :: IsHex(s[i])
  }

  function RemoveDashes(s: string): string {
    if s == "" then "" else (if s[0] == '-' then "" else [s[0]]) + RemoveDashes(s[1..])
  }

  function QuoteMemo(quoteId: string): string {
    var dashless := RemoveDashes(quoteId);
    if |dashless| <= 24 then dashless else dashless[..24]
  }

  function QuoteIdPrefixFromMemo(memo: string): Option<string> {
    if |memo| != 24 || !AllHex(memo) then None
    else Some(memo[..8] + "-" + memo[8..12] + "-" + memo[12..16] + "-" + memo[16..20] + "-" + memo[20..24])
  }

  /** The shape of a UUID string, section 4 of RFC 9562: hex digits in groups 8-4-4-4-12. */
  predicate IsUuid(s: string) {
    && |s| == 36
    && s[8] == s[13] == s[18] == s[23] == '-'
    && forall i | 0 <= i < 36 && i != 8 && i != 13 && i != 18 && i != 23 :: IsHex(s[i])
  }

  lemma {:induction false} RemoveDashesConcat(a: string, b: string)
    ensures RemoveDashes(a + b) == RemoveDashes(a) + RemoveDashes(b)
    decreases |a|
  {
    if a == "" {
      assert a + b == b;
    } else {
      assert (a + b)[1..] == a[1..] + b;
      RemoveDashesConcat(a[1..], b);
    }
  }

  lemma {:induction false} RemoveDashesHex(s: string)
    requires AllHex(s)
    ensures RemoveDashes(s) == s
    decreases |s|
  {
    if s != "" {
      RemoveDashesHex(s[1..]);
    }
  }

  /** A hex group followed by a dash loses the dash. */
  lemma GroupAndDash(group: string, rest: string)
    requires AllHex(group)
    ensures RemoveDashes(group + "-" + rest) == group + RemoveDashes(rest)
  {
    var tail := "-" + rest;
    assert group + "-" + rest == group + tail;
    RemoveDashesConcat(group, tail);
    RemoveDashesHex(group);
    LeadingDash(rest);
  }

  lemma LeadingDash(rest: string)
    ensures RemoveDashes("-" + rest) == RemoveDashes(rest)
  {
    assert ("-" + rest)[1..] == rest;
  }

  lemma FirstGroup(s: string, n: nat)
    requires n < |s| && s[n] == '-' && AllHex(s[..n])
    ensures RemoveDashes(s) == s[..n] + RemoveDashes(s[n + 1..])
  {
    assert s == s[..n] + "-" + s[n + 1..];
    GroupAndDash(s[..n], s[n + 1..]);
  }

  lemma HexSlice(id: string, i: nat, j: nat)
    requires IsUuid(id) && i <= j <= 36
    requires j <= 8 || (9 <= i && j <= 13) || (14 <= i && j <= 18) || (19 <= i && j <= 23) || 24 <= i
    ensures AllHex(id[i..j])
  {
    forall k | 0 <= k < j - i ensures IsHex(id[i..j][k]) {
      assert id[i..j][k] == id[i + k];
    }
  }

  lemma NextGroup(id: string, i: nat, n: nat)
    requires IsUuid(id) && i <= n < 36 && id[n] == '-' && AllHex(id[i..n])
    ensures RemoveDashes(id[i..]) == id[i..n] + RemoveDashes(id[n + 1..])
  {
    var s := id[i..];
    assert s[..n - i] == id[i..n] && s[n - i] == id[n] && s[n - i + 1..] == id[n + 1..];
    FirstGroup(s, n - i);
  }

  lemma DashlessUuid(id: string)
    requires IsUuid(id)
    ensures RemoveDashes(id) == id[0..8] + (id[9..13] + (id[14..18] + (id[19..23] + id[24..36])))
  {
    HexSlice(id, 0, 8);
    HexSlice(id, 9, 13);
    HexSlice(id, 14, 18);
    HexSlice(id, 19, 23);
    HexSlice(id, 24, 36);
    NextGroup(id, 0, 8);
    NextGroup(id, 9, 13);
    NextGroup(id, 14, 18);
    NextGroup(id, 19, 23);
    RemoveDashesHex(id[24..36]);
    assert id[0..] == id && id[24..] == id[24..36];
  }

  lemma MemoOfUuid(id: string)
    requires IsUuid(id)
    ensures QuoteMemo(id) == id[0..8] + id[9..13] + id[14..18] + id[19..23] + id[24..28]
  {
    DashlessUuid(id);
    TakeTwentyFour(id[0..8], id[9..13], id[14..18], id[19..23], id[24..36]);
    assert id[24..36][..4] == id[24..28];
  }

  lemma TakeTwentyFour(a: string, b: string, c: string, d: string, e: string)
    requires |a| == 8 && |b| == |c| == |d| == 4 && |e| == 12
    ensures (a + (b + (c + (d + e))))[..24] == a + b + c + d + e[..4]
  {
  }

  lemma SlicesOfConcat(a: string, b: string, c: string, d: string, e: string)
    requires |a| == 8 && |b| == |c| == |d| == |e| == 4
    ensures var m := a + b + c + d + e;
            m[..8] == a && m[8..12] == b && m[12..16] == c && m[16..20] == d && m[20..24] == e
  {
  }

  lemma AllHexConcat(a: string, b: string)
    requires AllHex(a) && AllHex(b)
    ensures AllHex(a + b)
  {
  }

  /** The memo of a quote determines the first 28 characters of its id. */
  lemma PrefixOfOwnMemo(id: string)
    requires IsUuid(id)
    ensures QuoteIdPrefixFromMemo(QuoteMemo(id)) == Some(id[..28])
  {
    var a, b, c, d, e := id[0..8], id[9..13], id[14..18], id[19..23], id[24..28];
    MemoOfUuid(id);
    SlicesOfConcat(a, b, c, d, e);
    HexSlice(id, 0, 8);
    HexSlice(id, 9, 13);
    HexSlice(id, 14, 18);
    HexSlice(id, 19, 23);
    HexSlice(id, 24, 28);
    AllHexConcat(a, b);
    AllHexConcat(a + b, c);
    AllHexConcat(a + b + c, d);
    AllHexConcat(a + b + c + d, e);
    assert id[..28] == a + "-" + b + "-" + c + "-" + d + "-" + e;
  }

  lemma PrefixInjective(m: string, m': string)
    requires QuoteIdPrefixFromMemo(m).Some? && QuoteIdPrefixFromMemo(m) == QuoteIdPrefixFromMemo(m')
    ensures m == m'
  {
    MemoParts(m);
    MemoParts(m');
  }

  /** A memo can be read off its prefix. */
  lemma MemoParts(m: string)
    requires QuoteIdPrefixFromMemo(m).Some?
    ensures var p := QuoteIdPrefixFromMemo(m).value;
            |p| == 28 && m == p[..8] + p[9..13] + p[14..18] + p[19..23] + p[24..28]
  {
    var p := QuoteIdPrefixFromMemo(m).value;
    assert p[..8] == m[..8] && p[9..13] == m[8..12] && p[14..18] == m[12..16];
    assert p[19..23] == m[16..20] && p[24..28] == m[20..24];
    assert m == m[..8] + m[8..12] + m[12..16] + m[16..20] + m[20..24];
  }

  /** The lookup by prefix finds exactly the quotes that have the memo. */
  lemma MemoLookupIsExact(id: string, m: string)
    requires IsUuid(id) && |m| == 24 && AllHex(m)
    ensures QuoteMemo(id) == m <==> QuoteIdPrefixFromMemo(m).value <= id
  {
    PrefixOfOwnMemo(id);
    var p := QuoteIdPrefixFromMemo(m).value;
    if p <= id {
      assert p == id[..28];
      PrefixInjective(m, QuoteMemo(id));
    }
  }

  /** Exactly the 24-character hex strings, of either case, are taken for memos. */
  lemma MemoIsRecognisedIff(memo: string)
    ensures QuoteIdPrefixFromMemo(memo).Some? <==>
              && |memo| == 24
              && forall i | 0 <= i < 24 ::
                   '0' <= memo[i] <= '9' || 'a' <= memo[i] <= 'f' || 'A' <= memo[i] <= 'F'
  {
    if QuoteIdPrefixFromMemo(memo).Some? {
      forall i | 0 <= i < 24
        ensures '0' <= memo[i] <= '9' || 'a' <= memo[i] <= 'f' || 'A' <= memo[i] <= 'F'
      {
        assert IsHex(memo[i]);
      }
    }
  }

  lemma {:induction false} NoDashLeft(s: string)
    ensures '-' !in RemoveDashes(s) && ('-' !in s ==> RemoveDashes(s) == s)
    decreases |s|
  {
    if s != "" {
      NoDashLeft(s[1..]);
    }
  }

  /** Any id gives a memo of at most 24 characters without dashes; from a dashless id these are its
      first ones. */
  lemma MemoOfAnyId(id: string)
    ensures |QuoteMemo(id)| <= 24 && '-' !in QuoteMemo(id)
    ensures '-' !in id ==> QuoteMemo(id) == if |id| <= 24 then id else id[..24]
  {
    NoDashLeft(id);
  }

  // ---------------------------------------------------------------------------------------
  // Prices

  datatype PricingModel = Flat | PerToken

  datatype Route = Route(
    path: string,
    pricingModel: PricingModel,
    flatPrice: string,
    perTokenPrice: string,
    acceptedAssets: seq<string>)

  datatype Options = Options(
    route: Route,
    providerAddress: string,
    quoteExpirySeconds: int,
    usdcIssuer: string,
    minPaymentAmount: string,
    estimatedTokens: int)

  datatype Quote = Quote(
    id: string,
    route: string,
    pricingModel: PricingModel,
    amount: string,
    asset: string,
    assetIssuer: Option<string>,
    paymentAddress: string,
    memo: string,
    requireMemo: bool,
    issuedAt: int,
    expiresAt: int,
    estimatedMaxTokens: int,
    perTokenPrice: string)

  const DEFAULT_TOKEN_ESTIMATE: int := 4096

  function AssetOf(route: Route): string {
    if route.acceptedAssets == [] || route.acceptedAssets[0] == "" then "USDC" else route.acceptedAssets[0]
  }

  predicate Metered(route: Route) {
    route.pricingModel == PerToken && route.perTokenPrice != ""
  }

  function Estimate(options: Options): int {
    if options.estimatedTokens != 0 then options.estimatedTokens else DEFAULT_TOKEN_ESTIMATE
  }

  /** The amount before the minimum is applied; None when a price is not a number. */
  function ListedAmount(options: Options): Option<string> {
    if Metered(options.route) then
      match Parse(options.route.perTokenPrice)
      case None => None
      case Some(price) => Some(ToString(price * Estimate(options)))
    else Some(if options.route.flatPrice != "" then options.route.flatPrice else "0")
  }

  /** The amount that is quoted: the listed one, unless it is below the minimum. */
  function QuotedAmount(options: Options): Option<string> {
    match ListedAmount(options)
    case None => None
    case Some(listed) =>
      if options.minPaymentAmount == "" then Some(listed)
      else match (Parse(options.minPaymentAmount), Parse(listed))
        case (Some(min), Some(value)) => Some(if value < min then ToString(min) else listed)
        case _ => None
  }

  function QuoteWith(options: Options, id: string, now: int, amount: string): Quote {
    var metered := Metered(options.route);
    var asset := AssetOf(options.route);
    Quote(id, options.route.path, options.route.pricingModel, amount, asset,
          if asset == "USDC" then Some(options.usdcIssuer) else None,
          options.providerAddress, QuoteMemo(id), false, now, now + options.quoteExpirySeconds,
          if metered then Estimate(options) else 0,
          if metered then options.route.perTokenPrice else "")
  }

  function QuoteFor(options: Options, id: string, now: int): Option<Quote> {
    match QuotedAmount(options)
    case None => None
    case Some(amount) => Some(QuoteWith(options, id, now, amount))
  }

  /** The amount computation inside `generateQuote`; None is an exception. */
  method ComputeAmount(options: Options) returns (r: Option<string>)
    ensures r == QuotedAmount(options)
  {
    var amount: string;
    if options.route.pricingModel == PerToken && options.route.perTokenPrice != "" {
      var price := Parse(options.route.perTokenPrice);
      if price.None? { return None; }
      amount := ToString(price.value * Estimate(options));
    } else {
      amount := if options.route.flatPrice != "" then options.route.flatPrice else "0";
    }
    if options.minPaymentAmount != "" {
      var min := Parse(options.minPaymentAmount);
      var value := Parse(amount);
      if min.None? || value.None? { return None; }
      if value.value < min.value {
        amount := ToString(min.value);
      }
    }
    return Some(amount);
  }

  /** `generateQuote`, with the fresh id and the clock as inputs; None is an exception. */
  method GenerateQuote(options: Options, id: string, now: int) returns (r: Option<Quote>)
    ensures r == QuoteFor(options, id, now)
  {
    var amount := ComputeAmount(options);
    if amount.None? { return None; }
    var quote := BuildQuote(options, id, now, amount.value);
    return Some(quote);
  }

  method BuildQuote(options: Options, id: string, now: int, amount: string) returns (q: Quote)
    ensures q == QuoteWith(options, id, now, amount)
  {
    var expiresAt := now + options.quoteExpirySeconds;
    var asset := AssetOf(options.route);
    var estimatedMaxTokens := 0;
    var perTokenPrice := "";
    if Metered(options.route) {
      perTokenPrice := options.route.perTokenPrice;
      estimatedMaxTokens := Estimate(options);
    }
    var assetIssuer := if asset == "USDC" then Some(options.usdcIssuer) else None;
    return Quote(id, options.route.path, options.route.pricingModel, amount, asset, assetIssuer,
                 options.providerAddress, QuoteMemo(id), false, now, expiresAt,
                 estimatedMaxTokens, perTokenPrice);
  }

  lemma QuotedIsMaximum(options: Options, listed: int)
    requires options.minPaymentAmount != "" && QuotedAmount(options).Some?
    requires ListedAmount(options).Some? && Parse(ListedAmount(options).value) == Some(listed)
    ensures Parse(options.minPaymentAmount).Some?
    ensures var min := Parse(options.minPaymentAmount).value;
            && Parse(QuotedAmount(options).value) == Some(if listed < min then min else listed)
            && (min <= listed ==> QuotedAmount(options) == ListedAmount(options))
  {
    ParseToString(Parse(options.minPaymentAmount).value);
  }

  /** A quote made under a minimum asks for the larger of the listed price and the minimum. */
  lemma QuoteIsMaximum(options: Options, id: string, now: int)
    requires options.minPaymentAmount != "" && QuoteFor(options, id, now).Some?
    ensures var q := QuoteFor(options, id, now).value;
            && Parse(options.minPaymentAmount).Some? && Parse(q.amount).Some?
            && var min, amount := Parse(options.minPaymentAmount).value, Parse(q.amount).value;
               && min <= amount
               && (Metered(options.route) ==>
                     && Parse(options.route.perTokenPrice).Some?
                     && var deposit := Parse(options.route.perTokenPrice).value * Estimate(options);
                        amount == if deposit < min then min else deposit)
               && (min < amount && !Metered(options.route) && options.route.flatPrice != "" ==>
                     q.amount == options.route.flatPrice)
  {
    if Metered(options.route) {
      ParseToString(Parse(options.route.perTokenPrice).value * Estimate(options));
    }
    QuotedIsMaximum(options, Parse(ListedAmount(options).value).value);
  }

  /** What the quote takes over from the route, the options and the clock. */
  lemma QuoteInFields(options: Options, id: string, now: int)
    requires QuoteFor(options, id, now).Some?
    ensures var q, route := QuoteFor(options, id, now).value, options.route;
            var metered := route.pricingModel == PerToken && route.perTokenPrice != "";
            && q.id == id && q.memo == QuoteMemo(id) && !q.requireMemo
            && q.route == route.path && q.pricingModel == route.pricingModel
            && q.asset == (if |route.acceptedAssets| == 0 || route.acceptedAssets[0] == "" then "USDC"
                           else route.acceptedAssets[0])
            && q.assetIssuer == (if q.asset == "USDC" then Some(options.usdcIssuer) else None)
            && q.paymentAddress == options.providerAddress
            && q.issuedAt == now && q.expiresAt == now + options.quoteExpirySeconds
            && q.perTokenPrice == (if metered then route.perTokenPrice else "")
            && q.estimatedMaxTokens == (if !metered then 0
                                        else if options.estimatedTokens != 0 then options.estimatedTokens else 4096)
  {
  }

  predicate IsLarger(x: int, a: int, b: int) {
    a <= x && b <= x && (x == a || x == b)
  }

  /** A metered quote asks for the price of the tokens the request estimates, or of 4096, and under
      a minimum for the larger of the two. */
  lemma MeteredAmount(options: Options, id: string, now: int)
    requires options.route.pricingModel == PerToken && options.route.perTokenPrice != ""
    requires QuoteFor(options, id, now).Some?
    ensures var amount, min := QuoteFor(options, id, now).value.amount, options.minPaymentAmount;
            && Parse(options.route.perTokenPrice).Some? && Parse(amount).Some?
            && amount == ToString(Parse(amount).value)
            && var price := Parse(options.route.perTokenPrice).value;
               var deposit := price * (if options.estimatedTokens != 0 then options.estimatedTokens else 4096);
               && (min == "" ==> Parse(amount).value == deposit)
               && (min != "" ==> Parse(min).Some? && IsLarger(Parse(amount).value, deposit, Parse(min).value))
  {
    var deposit := Parse(options.route.perTokenPrice).value * Estimate(options);
    ParseToString(deposit);
    if options.minPaymentAmount != "" {
      ParseToString(Parse(options.minPaymentAmount).value);
      QuotedIsMaximum(options, deposit);
    }
  }

  /** Any other quote asks for the flat price as it is written, or for nothing where there is none,
      unless that is below the minimum. */
  lemma FlatAmount(options: Options, id: string, now: int)
    requires options.route.pricingModel == Flat || options.route.perTokenPrice == ""
    requires QuoteFor(options, id, now).Some?
    ensures var amount, min := QuoteFor(options, id, now).value.amount, options.minPaymentAmount;
            var price := if options.route.flatPrice != "" then options.route.flatPrice else "0";
            && (min == "" ==> amount == price)
            && (min != "" ==>
                  && Parse(min).Some? && Parse(price).Some?
                  && (Parse(min).value <= Parse(price).value ==> amount == price)
                  && (Parse(price).value < Parse(min).value ==> Parse(amount) == Parse(min)))
  {
    if options.minPaymentAmount != "" {
      ParseToString(Parse(options.minPaymentAmount).value);
    }
  }

  /** `generateQuote` throws exactly on a price it has to read and cannot. */
  lemma QuoteThrowsIff(options: Options, id: string, now: int)
    ensures var route, min := options.route, options.minPaymentAmount;
            var metered := route.pricingModel == PerToken && route.perTokenPrice != "";
            var price := if metered then route.perTokenPrice
                         else if route.flatPrice != "" then route.flatPrice else "0";
            QuoteFor(options, id, now).None? <==>
              || (metered && Parse(price).None?)
              || (min != "" && (Parse(min).None? || Parse(price).None?))
  {
    if Metered(options.route) && Parse(options.route.perTokenPrice).Some? {
      ParseToString(Parse(options.route.perTokenPrice).value * Estimate(options));
    }
  }

  /** `calculatePrice`; None is an exception. */
  function CalculatePrice(route: Route, tokenCount: int): Option<string> {
    if route.pricingModel == Flat && route.flatPrice != "" then Some(route.flatPrice)
    else if Metered(route) && tokenCount != 0 then
      match Parse(route.perTokenPrice)
      case None => None
      case Some(price) => Some(ToString(price * tokenCount))
    else Some("0")
  }

  /** A flat route costs its flat price whatever was used; a metered one the price of the tokens
      used, also beyond the estimate; anything else, no usage included, costs nothing. */
  lemma PriceInFields(route: Route, tokenCount: int)
    ensures route.pricingModel == Flat && route.flatPrice != "" ==>
              CalculatePrice(route, tokenCount) == Some(route.flatPrice)
    ensures route.pricingModel == PerToken && route.perTokenPrice != "" && tokenCount != 0 ==>
              var price := Parse(route.perTokenPrice);
              if price.None? then CalculatePrice(route, tokenCount) == None
              else CalculatePrice(route, tokenCount).Some?
                   && Parse(CalculatePrice(route, tokenCount).value) == Some(price.value * tokenCount)
    ensures route.pricingModel == Flat && route.flatPrice == "" ==> CalculatePrice(route, tokenCount) == Some("0")
    ensures route.pricingModel == PerToken && (route.perTokenPrice == "" || tokenCount == 0) ==>
              CalculatePrice(route, tokenCount) == Some("0")
  {
    if route.pricingModel == PerToken && Parse(route.perTokenPrice).Some? {
      ParseToString(Parse(route.perTokenPrice).value * tokenCount);
    }
  }

  datatype Comparison = Comparison(surplus: string, isOverpaid: bool, isUnderpaid: bool)

  /** `comparePayment`; None is an exception. */
  function ComparePayment(paidAmount: string, actualCost: string): Option<Comparison> {
    match (Parse(paidAmount), Parse(actualCost))
    case (Some(paid), Some(cost)) =>
      var surplus := paid - cost;
      if surplus < 0 then Some(Comparison(ToString(surplus), false, true))
      else Some(Comparison(ToString(surplus), surplus > 0, false))
    case _ => None
  }

  lemma CompareThrowsIff(paidAmount: string, actualCost: string)
    ensures ComparePayment(paidAmount, actualCost).None? <==> Parse(paidAmount).None? || Parse(actualCost).None?
  {
  }

  lemma CompareNumbers(paidAmount: string, actualCost: string, paid: int, cost: int)
    requires Parse(paidAmount) == Some(paid) && Parse(actualCost) == Some(cost)
    ensures ComparePayment(paidAmount, actualCost)
            == Some(Comparison(ToString(paid - cost), cost < paid, paid < cost))
    ensures Parse(ToString(paid - cost)) == Some(paid - cost)
  {
    ParseToString(paid - cost);
  }

  /** The reported surplus is the amount paid minus the cost, and the flags are its sign. */
  lemma SurplusIsDifference(paidAmount: string, actualCost: string)
    requires Parse(paidAmount).Some? && Parse(actualCost).Some?
    ensures var c := ComparePayment(paidAmount, actualCost);
            && c.Some?
            && Parse(c.value.surplus) == Some(Parse(paidAmount).value - Parse(actualCost).value)
            && (c.value.isOverpaid <==> Parse(actualCost).value < Parse(paidAmount).value)
            && (c.value.isUnderpaid <==> Parse(paidAmount).value < Parse(actualCost).value)
  {
    CompareNumbers(paidAmount, actualCost, Parse(paidAmount).value, Parse(actualCost).value);
  }
}
