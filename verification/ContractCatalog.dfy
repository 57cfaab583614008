/**
 `FuturesContractCatalog`: which catalogues are accepted, and which contract
 `Resolve` picks at a given time.  Times are UTC ticks of 100 ns.
 */
module ContractCatalog {
  import opened Wrappers
  import opened EvidenceModel
  import BridgeReader

  const HOUR: int := 36_000_000_000
  const MINIMUM_ROLL_LEAD: int := HOUR
  const MAXIMUM_ROLL_LEAD: int := 720 * HOUR
  const TRANSITION_EVIDENCE_WINDOW: int := 24 * HOUR

  datatype Product = Product(exchangeId: string, contractId: string, basisExchangeId: string, basisContractId: string)

  datatype Contract = Contract(
    symbol: string, product: Product, marketId: string, basisMarketId: string, expiresAt: int, rollAt: int)
  {
    predicate Addressable() {
      product.exchangeId != "" && marketId != "" && product.basisExchangeId != "" && product.basisContractId != "" &&
      basisMarketId != ""
    }

    /** The pair whose join by a newline is the grouping key; no identifier
        contains a newline. */
    function Identity(): (string, string) {
      if Addressable() then (product.exchangeId, marketId) else ("legacy", product.contractId)
    }
  }

  predicate OptionalId(text: string, maximum: nat) { text == "" || SafeText(text, maximum) }

  /** `Validate`. */
  predicate ValidContract(c: Contract) {
    var p := c.product;
    && c.symbol in {"BTC/USD", "ETH/USD"}
    && SafeText(p.contractId, 128) && OptionalId(p.exchangeId, 64) && OptionalId(c.marketId, 256)
    && OptionalId(p.basisExchangeId, 64) && OptionalId(p.basisContractId, 128) && OptionalId(c.basisMarketId, 256)
    && (p.exchangeId == "" <==> c.marketId == "")
    && (p.basisExchangeId == "" <==> p.basisContractId == "") && (p.basisContractId == "" <==> c.basisMarketId == "")
    && !(c.Addressable() && p.exchangeId == p.basisExchangeId && p.contractId == p.basisContractId &&
         c.marketId == c.basisMarketId)
    && MINIMUM_ROLL_LEAD <= c.expiresAt - c.rollAt <= MAXIMUM_ROLL_LEAD
  }

  // ----- the series of one symbol -----

  function Filter(cs: seq<Contract>, symbol: string): seq<Contract>
    decreases |cs|
  {
    if cs == [] then []
    else
      var rest := Filter(cs[..|cs| - 1], symbol);
      if cs[|cs| - 1].symbol == symbol then rest + [cs[|cs| - 1]] else rest
  }

  function InsertByExpiry(sorted: seq<Contract>, c: Contract): seq<Contract>
    decreases |sorted|
  {
    if sorted == [] || sorted[|sorted| - 1].expiresAt <= c.expiresAt then sorted + [c]
    else InsertByExpiry(sorted[..|sorted| - 1], c) + [sorted[|sorted| - 1]]
  }

  function SortByExpiry(cs: seq<Contract>): seq<Contract>
    decreases |cs|
  {
    if cs == [] then [] else InsertByExpiry(SortByExpiry(cs[..|cs| - 1]), cs[|cs| - 1])
  }

  function Series(cs: seq<Contract>, symbol: string): seq<Contract> { SortByExpiry(Filter(cs, symbol)) }

  ghost predicate Rising(series: seq<Contract>) {
    forall i, j | 0 <= i < j < |series| :: series[i].expiresAt < series[j].expiresAt
  }

  predicate RollsRise(series: seq<Contract>) {
    forall i | 0 < i < |series| :: series[i - 1].rollAt < series[i].rollAt
  }

  /** All addressable series keep one product and basis. */
  predicate StableProduct(series: seq<Contract>) {
    (forall i | 0 <= i < |series| :: series[i].Addressable()) ==>
      forall i | 0 <= i < |series| :: series[i].product == series[0].product
  }

  predicate DistinctIdentities(cs: seq<Contract>) {
    forall i, j | 0 <= i < j < |cs| :: cs[i].Identity() != cs[j].Identity()
  }

  predicate DistinctExpiries(cs: seq<Contract>) {
    forall i, j | 0 <= i < j < |cs| :: cs[i].symbol == cs[j].symbol ==> cs[i].expiresAt != cs[j].expiresAt
  }

  /** What the constructor lets through. */
  predicate Accepted(cs: seq<Contract>) {
    && (forall i | 0 <= i < |cs| :: ValidContract(cs[i]))
    && DistinctIdentities(cs) && DistinctExpiries(cs)
    && (forall symbol | symbol in {"BTC/USD", "ETH/USD"} ::
          StableProduct(Series(cs, symbol)) && RollsRise(Series(cs, symbol)))
  }

  datatype CatalogError = ContractInvalid | IdentityDuplicate | ExpiryDuplicate | ProductUnstable | RollsNotRising

  /** The checks of one series: stable product, then rising rolls. */
  method CheckSeries(series: seq<Contract>) returns (e: Option<CatalogError>)
    ensures e.None? <==> StableProduct(series) && RollsRise(series)
    ensures e in {None, Some(ProductUnstable), Some(RollsNotRising)}
    ensures e == Some(ProductUnstable) <==> !StableProduct(series)
  {
    if !StableProduct(series) { return Some(ProductUnstable); }
    var index := 1;
    while index < |series|
      invariant 1 <= index
      invariant forall i | 0 < i < index && i < |series| :: series[i - 1].rollAt < series[i].rollAt
    {
      if series[index].rollAt <= series[index - 1].rollAt { return Some(RollsNotRising); }
      index := index + 1;
    }
    return None;
  }

  /** The constructor: its checks in order, over both approved symbols. */
  method Create(cs: seq<Contract>) returns (r: Result<(), CatalogError>)
    ensures r.Success? <==> Accepted(cs)
    ensures r == Failure(ContractInvalid) <==> exists i :: 0 <= i < |cs| && !ValidContract(cs[i])
    ensures r == Failure(IdentityDuplicate) ==> !DistinctIdentities(cs)
    ensures r == Failure(ExpiryDuplicate) ==> !DistinctExpiries(cs)
  {
    for n := 0 to |cs|
      invariant forall i | 0 <= i < n :: ValidContract(cs[i])
    {
      if !ValidContract(cs[n]) { return Failure(ContractInvalid); }
    }
    if !DistinctIdentities(cs) { return Failure(IdentityDuplicate); }
    if !DistinctExpiries(cs) { return Failure(ExpiryDuplicate); }
    var e := CheckSeries(Series(cs, "BTC/USD"));
    if e.Some? { return Failure(e.value); }
    e := CheckSeries(Series(cs, "ETH/USD"));
    if e.Some? { return Failure(e.value); }
    return Success(());
  }

  // ----- Resolve -----

  datatype Selection = Selection(contract: Contract, rolledFrom: Option<string>)

  /** `i` is the contract whose roll window contains `asOf`. */
  predicate IsFront(series: seq<Contract>, asOf: int, i: nat) {
    && i < |series| && asOf < series[i].rollAt && (i > 0 ==> series[i - 1].rollAt <= asOf)
  }

  function PreviousMarket(c: Contract): string { if c.marketId != "" then c.marketId else c.product.contractId }

  function PreviousOf(series: seq<Contract>, asOf: int, i: nat): Option<string>
    requires i < |series|
  {
    if i > 0 && asOf - series[i - 1].rollAt <= TRANSITION_EVIDENCE_WINDOW then Some(PreviousMarket(series[i - 1])) else None
  }

  /** The front contract, not expired, with the market it replaced in the last
      24 hours. */
  predicate Selects(series: seq<Contract>, asOf: int, i: nat, r: Selection) {
    && IsFront(series, asOf, i) && r.contract == series[i] && asOf < series[i].expiresAt
    && r.rolledFrom == PreviousOf(series, asOf, i)
  }

  /** `Resolve`: fails exactly from the series' last roll on. */
  method Resolve(cs: seq<Contract>, symbol: string, asOf: int) returns (r: Option<Selection>)
    requires Accepted(cs)
    ensures var series := Series(cs, symbol);
      && (r.None? <==> series == [] || series[|series| - 1].rollAt <= asOf)
      && (r.Some? ==> exists i: nat :: Selects(series, asOf, i, r.value))
    ensures r.None? <==> forall c | c in cs && c.symbol == symbol :: c.rollAt <= asOf
    ensures r.Some? ==> InFront(cs, symbol, asOf, r.value.contract) && NamesLastRolled(cs, symbol, asOf, r.value.rolledFrom)
  {
    SeriesFacts(cs, symbol);
    r := ResolveIn(Series(cs, symbol), asOf);
    NoneInFront(cs, symbol, asOf);
    forall i: nat | r.Some? && Selects(Series(cs, symbol), asOf, i, r.value)
      ensures InFront(cs, symbol, asOf, r.value.contract) && NamesLastRolled(cs, symbol, asOf, r.value.rolledFrom)
    {
      SelectionMeans(cs, symbol, asOf, i, r.value);
    }
  }

  // ----- the same, told by the contracts as they are given -----

  /** Of the symbol's contracts that have not rolled, the first to expire. */
  predicate InFront(cs: seq<Contract>, symbol: string, asOf: int, c: Contract) {
    && c in cs && c.symbol == symbol && asOf < c.rollAt < c.expiresAt
    && forall d | d in cs && d.symbol == symbol && asOf < d.rollAt :: c.expiresAt <= d.expiresAt
  }

  /** Of those that have rolled, the last to expire. */
  predicate LastRolled(cs: seq<Contract>, symbol: string, asOf: int, c: Contract) {
    && c in cs && c.symbol == symbol && c.rollAt <= asOf
    && forall d | d in cs && d.symbol == symbol && d.rollAt <= asOf :: d.expiresAt <= c.expiresAt
  }

  /** The market that was rolled from within the last 24 hours: its own id, or
      its contract's where it has none. */
  predicate NamesLastRolled(cs: seq<Contract>, symbol: string, asOf: int, market: Option<string>) {
    && (market.None? ==> forall c | c in cs && LastRolled(cs, symbol, asOf, c) :: asOf - c.rollAt > 864_000_000_000)
    && (market.Some? ==> exists c | c in cs && LastRolled(cs, symbol, asOf, c) ::
         asOf - c.rollAt <= 864_000_000_000 &&
         market.value == if c.marketId == "" then c.product.contractId else c.marketId)
  }

  /** Behind the front contract nothing has rolled, and everything before it has. */
  lemma {:induction false} FrontSplits(series: seq<Contract>, asOf: int, i: nat, k: nat)
    requires RollsRise(series) && IsFront(series, asOf, i) && k < |series|
    ensures asOf < series[k].rollAt <==> i <= k
  {
    if k < i { RollsOrdered(series, k, i - 1); } else { RollsOrdered(series, i, k); }
  }

  /** Where a contract stands in its symbol's series. */
  lemma {:induction false} PlaceOf(cs: seq<Contract>, symbol: string, c: Contract) returns (k: nat)
    requires DistinctExpiries(cs) && c in cs && c.symbol == symbol
    ensures k < |Series(cs, symbol)| && Series(cs, symbol)[k] == c
  {
    SeriesMembers(cs, symbol);
    assert c in Series(cs, symbol);
    k :| 0 <= k < |Series(cs, symbol)| && Series(cs, symbol)[k] == c;
  }

  lemma {:induction false} LastRollsLast(cs: seq<Contract>, symbol: string, c: Contract)
    requires Accepted(cs) && c in cs && c.symbol == symbol
    ensures var series := Series(cs, symbol); series != [] && c.rollAt <= series[|series| - 1].rollAt
  {
    var k := PlaceOf(cs, symbol, c);
    SeriesFacts(cs, symbol);
    RollsOrdered(Series(cs, symbol), k, |Series(cs, symbol)| - 1);
  }

  lemma {:induction false} LastIsMember(cs: seq<Contract>, symbol: string)
    requires Accepted(cs) && Series(cs, symbol) != []
    ensures var series := Series(cs, symbol);
      var last := series[|series| - 1];
      last in cs && last.symbol == symbol
  {
    var series := Series(cs, symbol);
    SeriesMembers(cs, symbol);
    assert series[|series| - 1] in series;
  }

  lemma {:induction false} NoneInFront(cs: seq<Contract>, symbol: string, asOf: int)
    requires Accepted(cs)
    ensures var series := Series(cs, symbol);
      series == [] || series[|series| - 1].rollAt <= asOf <==> forall c | c in cs && c.symbol == symbol :: c.rollAt <= asOf
  {
    var series := Series(cs, symbol);
    forall c | c in cs && c.symbol == symbol ensures series != [] && c.rollAt <= series[|series| - 1].rollAt {
      LastRollsLast(cs, symbol, c);
    }
    if series != [] { LastIsMember(cs, symbol); }
  }

  /** The places before the front one have rolled, by rising expiry. */
  lemma {:induction false} PlaceMeans(cs: seq<Contract>, symbol: string, asOf: int, i: nat, c: Contract)
    requires Accepted(cs) && IsFront(Series(cs, symbol), asOf, i) && c in cs && c.symbol == symbol
    ensures var series := Series(cs, symbol);
      && (asOf < c.rollAt ==> series[i].expiresAt <= c.expiresAt)
      && (c.rollAt <= asOf ==> i > 0 && (c == series[i - 1] || c.expiresAt < series[i - 1].expiresAt))
  {
    var k := PlaceOf(cs, symbol, c);
    SeriesFacts(cs, symbol);
    FrontSplits(Series(cs, symbol), asOf, i, k);
    SeriesRises(cs, symbol);
  }

  lemma {:induction false} SeriesRises(cs: seq<Contract>, symbol: string)
    requires DistinctExpiries(cs)
    ensures Rising(Series(cs, symbol))
    ensures forall k | 0 <= k < |Series(cs, symbol)| :: Series(cs, symbol)[k] in cs && Series(cs, symbol)[k].symbol == symbol
  {
    SeriesMembers(cs, symbol);
    forall k | 0 <= k < |Series(cs, symbol)| ensures Series(cs, symbol)[k] in cs && Series(cs, symbol)[k].symbol == symbol {
      assert Series(cs, symbol)[k] in Series(cs, symbol);
    }
  }

  lemma {:induction false} SelectionMeans(cs: seq<Contract>, symbol: string, asOf: int, i: nat, r: Selection)
    requires Accepted(cs) && Selects(Series(cs, symbol), asOf, i, r)
    ensures InFront(cs, symbol, asOf, r.contract) && NamesLastRolled(cs, symbol, asOf, r.rolledFrom)
  {
    SeriesFacts(cs, symbol);
    SeriesRises(cs, symbol);
    forall c | c in cs && c.symbol == symbol && asOf < c.rollAt ensures r.contract.expiresAt <= c.expiresAt {
      PlaceMeans(cs, symbol, asOf, i, c);
    }
    RolledMeans(cs, symbol, asOf, i, r);
  }

  lemma {:induction false} RolledMeans(cs: seq<Contract>, symbol: string, asOf: int, i: nat, r: Selection)
    requires Accepted(cs) && Selects(Series(cs, symbol), asOf, i, r)
    ensures NamesLastRolled(cs, symbol, asOf, r.rolledFrom)
  {
    var series := Series(cs, symbol);
    SeriesRises(cs, symbol);
    if i > 0 {
      forall c | c in cs && c.symbol == symbol && c.rollAt <= asOf
        ensures c.expiresAt <= series[i - 1].expiresAt && (LastRolled(cs, symbol, asOf, c) ==> c == series[i - 1])
      {
        PlaceMeans(cs, symbol, asOf, i, c);
      }
      assert LastRolled(cs, symbol, asOf, series[i - 1]);
    } else {
      forall c | c in cs && c.symbol == symbol ensures asOf < c.rollAt { PlaceMeans(cs, symbol, asOf, i, c); }
    }
  }

  // ----- the catalogue's checks, contract against contract -----

  /** Two contracts that would share their grouping key. */
  predicate SameIdentity(c: Contract, d: Contract) {
    if c.Addressable() then
      if d.Addressable() then c.product.exchangeId == d.product.exchangeId && c.marketId == d.marketId
      else c.product.exchangeId == "legacy" && c.marketId == d.product.contractId
    else
      if d.Addressable() then d.product.exchangeId == "legacy" && d.marketId == c.product.contractId
      else c.product.contractId == d.product.contractId
  }

  /** Two contracts of one catalogue. */
  predicate PairDiffers(c: Contract, d: Contract) {
    !SameIdentity(c, d) && (c.symbol == d.symbol ==> c.expiresAt != d.expiresAt)
  }

  predicate RollsAgree(c: Contract, d: Contract) { c.expiresAt < d.expiresAt ==> c.rollAt < d.rollAt }

  predicate SymbolAddressable(cs: seq<Contract>, symbol: string) {
    forall c | c in cs && c.symbol == symbol :: c.Addressable()
  }

  predicate SameProducts(cs: seq<Contract>, symbol: string) {
    forall c, d | c in cs && d in cs && c.symbol == symbol && d.symbol == symbol :: c.product == d.product
  }

  /** Accepted, without grouping or sorting. */
  ghost predicate Consistent(cs: seq<Contract>) {
    && (forall i | 0 <= i < |cs| :: ValidContract(cs[i]))
    && (forall i, j | 0 <= i < j < |cs| :: PairDiffers(cs[i], cs[j]))
    && (forall symbol | symbol in {"BTC/USD", "ETH/USD"} ::
          SymbolRollsAgree(cs, symbol) && (SymbolAddressable(cs, symbol) ==> SameProducts(cs, symbol)))
  }

  predicate SymbolRollsAgree(cs: seq<Contract>, symbol: string) {
    forall c, d | c in cs && d in cs && c.symbol == symbol && d.symbol == symbol :: RollsAgree(c, d)
  }

  lemma {:induction false} StableMeans(cs: seq<Contract>, symbol: string)
    requires DistinctExpiries(cs)
    ensures StableProduct(Series(cs, symbol)) <==> (SymbolAddressable(cs, symbol) ==> SameProducts(cs, symbol))
  {
    var series := Series(cs, symbol);
    SeriesMembers(cs, symbol);
    forall i | 0 <= i < |series| ensures series[i] in cs && series[i].symbol == symbol { assert series[i] in series; }
    if SymbolAddressable(cs, symbol) && StableProduct(series) {
      forall c, d | c in cs && d in cs && c.symbol == symbol && d.symbol == symbol ensures c.product == d.product {
        assert c in series && d in series;
      }
    }
  }

  lemma {:induction false} RollsMean(cs: seq<Contract>, symbol: string)
    requires DistinctExpiries(cs)
    ensures RollsRise(Series(cs, symbol)) <==> SymbolRollsAgree(cs, symbol)
  {
    var series := Series(cs, symbol);
    SeriesMembers(cs, symbol);
    if RollsRise(series) {
      forall c, d | c in cs && d in cs && c.symbol == symbol && d.symbol == symbol && c.expiresAt < d.expiresAt
        ensures c.rollAt < d.rollAt
      {
        assert c in series && d in series;
        var i :| 0 <= i < |series| && series[i] == c;
        var j :| 0 <= j < |series| && series[j] == d;
        RollsOrdered(series, i, j);
      }
    } else {
      var i :| 0 < i < |series| && series[i - 1].rollAt >= series[i].rollAt;
      assert series[i - 1] in series && series[i] in series;
      assert !RollsAgree(series[i - 1], series[i]);
    }
  }

  lemma {:induction false} IdentityMeans(c: Contract, d: Contract)
    ensures c.Identity() == d.Identity() <==> SameIdentity(c, d)
  {
  }

  lemma {:induction false} PairsDiffer(cs: seq<Contract>)
    ensures DistinctIdentities(cs) && DistinctExpiries(cs) <==>
            forall i, j | 0 <= i < j < |cs| :: PairDiffers(cs[i], cs[j])
  {
    forall i, j | 0 <= i < j < |cs| ensures cs[i].Identity() == cs[j].Identity() <==> SameIdentity(cs[i], cs[j]) {
      IdentityMeans(cs[i], cs[j]);
    }
    if forall i, j | 0 <= i < j < |cs| :: PairDiffers(cs[i], cs[j]) {
      forall i, j | 0 <= i < j < |cs|
        ensures cs[i].Identity() != cs[j].Identity() && (cs[i].symbol == cs[j].symbol ==> cs[i].expiresAt != cs[j].expiresAt)
      {
        assert PairDiffers(cs[i], cs[j]);
      }
    }
  }

  /** The constructor accepts exactly the catalogues whose contracts are valid,
      whose pairs differ, whose later expiries roll later, and whose fully
      addressable symbols keep one product. */
  lemma {:induction false} AcceptedIsConsistent(cs: seq<Contract>)
    ensures Accepted(cs) <==> Consistent(cs)
  {
    PairsDiffer(cs);
    if DistinctExpiries(cs) {
      forall symbol | symbol in {"BTC/USD", "ETH/USD"}
        ensures RollsRise(Series(cs, symbol)) <==> SymbolRollsAgree(cs, symbol)
        ensures StableProduct(Series(cs, symbol)) <==> (SymbolAddressable(cs, symbol) ==> SameProducts(cs, symbol))
      {
        RollsMean(cs, symbol);
        StableMeans(cs, symbol);
      }
    }
  }

  /** What an accepted contract promises: it rolls between an hour and thirty
      days before it expires, carries trimmed identifiers, names exchange and
      market together, and is not its own basis. */
  lemma {:induction false} ContractPromises(cs: seq<Contract>, c: Contract)
    requires Accepted(cs) && c in cs
    ensures c.symbol == "BTC/USD" || c.symbol == "ETH/USD"
    ensures 36_000_000_000 <= c.expiresAt - c.rollAt <= 720 * 36_000_000_000
    ensures SafeText(c.product.contractId, 128) && (c.marketId != "" ==> SafeText(c.marketId, 256))
    ensures c.product.exchangeId != "" ==> SafeText(c.product.exchangeId, 64)
    ensures c.basisMarketId != "" ==>
      && SafeText(c.basisMarketId, 256) && SafeText(c.product.basisExchangeId, 64)
      && SafeText(c.product.basisContractId, 128)
    ensures c.Addressable() <==> c.marketId != "" && c.basisMarketId != ""
    ensures c.product.exchangeId == "" <==> c.marketId == ""
    ensures c.basisMarketId == "" <==> c.product.basisExchangeId == ""
    ensures c.Addressable() ==>
      c.marketId != c.basisMarketId || c.product.exchangeId != c.product.basisExchangeId ||
      c.product.contractId != c.product.basisContractId
  {
  }

  method ResolveIn(series: seq<Contract>, asOf: int) returns (r: Option<Selection>)
    requires RollsRise(series) && forall i | 0 <= i < |series| :: series[i].rollAt < series[i].expiresAt
    ensures r.None? <==> series == [] || series[|series| - 1].rollAt <= asOf
    ensures r.Some? ==> exists i: nat :: Selects(series, asOf, i, r.value)
  {
    if series == [] { return None; }
    var selected := 0;
    while selected < |series| && !(series[selected].expiresAt > asOf && series[selected].rollAt > asOf)
      invariant 0 <= selected <= |series|
      invariant selected > 0 ==> series[selected - 1].rollAt <= asOf
    {
      selected := selected + 1;
    }
    if selected == |series| { return None; }
    RollsOrdered(series, selected, |series| - 1);
    var previous: Option<string> := None;
    if selected > 0 {
      var transitionAt := series[selected - 1].rollAt;
      if asOf >= transitionAt && asOf - transitionAt <= TRANSITION_EVIDENCE_WINDOW {
        previous := Some(PreviousMarket(series[selected - 1]));
      }
    }
    r := Some(Selection(series[selected], previous));
    assert Selects(series, asOf, selected, r.value);
  }

  lemma {:induction false} RollsOrdered(series: seq<Contract>, i: nat, j: nat)
    requires RollsRise(series) && i <= j < |series|
    ensures i < j ==> series[i].rollAt < series[j].rollAt
    decreases j
  {
    if i < j { RollsOrdered(series, i, j - 1); }
  }

  /** At any time at most one contract is in front, and a later time never has
      an earlier one in front. */
  lemma {:induction false} FrontIsMonotone(series: seq<Contract>, asOf: int, later: int, i: nat, j: nat)
    requires RollsRise(series) && asOf <= later && IsFront(series, asOf, i) && IsFront(series, later, j)
    ensures i <= j && (asOf == later ==> i == j)
  {
    if j < i { RollsOrdered(series, j, i - 1); }
    if asOf == later && i < j { RollsOrdered(series, i, j - 1); }
  }

  // ----- sorting -----

  predicate ExpiryIsNew(cs: seq<Contract>, c: Contract) { forall i | 0 <= i < |cs| :: cs[i].expiresAt != c.expiresAt }

  predicate ExpiriesDiffer(cs: seq<Contract>) {
    forall i, j | 0 <= i < j < |cs| :: cs[i].expiresAt != cs[j].expiresAt
  }

  lemma {:induction false} InsertMembers(sorted: seq<Contract>, c: Contract)
    ensures multiset(InsertByExpiry(sorted, c)) == multiset(sorted) + multiset{c}
    ensures forall x :: x in InsertByExpiry(sorted, c) <==> x in sorted || x == c
    decreases |sorted|
  {
    if sorted != [] && sorted[|sorted| - 1].expiresAt > c.expiresAt {
      InsertMembers(sorted[..|sorted| - 1], c);
      assert sorted == sorted[..|sorted| - 1] + [sorted[|sorted| - 1]];
    }
  }

  lemma {:induction false} InsertRises(sorted: seq<Contract>, c: Contract)
    requires Rising(sorted) && ExpiryIsNew(sorted, c)
    ensures Rising(InsertByExpiry(sorted, c))
    decreases |sorted|
  {
    if sorted != [] && sorted[|sorted| - 1].expiresAt > c.expiresAt {
      var front, last := sorted[..|sorted| - 1], sorted[|sorted| - 1];
      InsertRises(front, c);
      InsertMembers(front, c);
      var r := InsertByExpiry(front, c);
      forall i | 0 <= i < |r| ensures r[i].expiresAt < last.expiresAt { assert r[i] in r; }
    }
  }

  lemma {:induction false} SortMembers(cs: seq<Contract>)
    ensures multiset(SortByExpiry(cs)) == multiset(cs) && forall x :: x in SortByExpiry(cs) <==> x in cs
    decreases |cs|
  {
    if cs != [] {
      SortMembers(cs[..|cs| - 1]);
      InsertMembers(SortByExpiry(cs[..|cs| - 1]), cs[|cs| - 1]);
      assert cs == cs[..|cs| - 1] + [cs[|cs| - 1]];
    }
  }

  lemma {:induction false} SortRises(cs: seq<Contract>)
    requires ExpiriesDiffer(cs)
    ensures Rising(SortByExpiry(cs))
    decreases |cs|
  {
    if cs != [] {
      var front, last := cs[..|cs| - 1], cs[|cs| - 1];
      SortRises(front);
      SortMembers(front);
      var sorted := SortByExpiry(front);
      forall i | 0 <= i < |sorted| ensures sorted[i].expiresAt != last.expiresAt {
        assert sorted[i] in front;
      }
      InsertRises(sorted, last);
    }
  }

  lemma {:induction false} FilterMembers(cs: seq<Contract>, symbol: string)
    ensures forall c :: c in Filter(cs, symbol) <==> c in cs && c.symbol == symbol
    ensures forall c :: multiset(Filter(cs, symbol))[c] == if c.symbol == symbol then multiset(cs)[c] else 0
    decreases |cs|
  {
    if cs != [] {
      FilterMembers(cs[..|cs| - 1], symbol);
      assert cs == cs[..|cs| - 1] + [cs[|cs| - 1]];
    }
  }

  lemma {:induction false} FilterDiffers(cs: seq<Contract>, symbol: string)
    requires DistinctExpiries(cs)
    ensures ExpiriesDiffer(Filter(cs, symbol))
    decreases |cs|
  {
    if cs != [] {
      var front, last := cs[..|cs| - 1], cs[|cs| - 1];
      FilterDiffers(front, symbol);
      FilterMembers(front, symbol);
      var rest := Filter(front, symbol);
      forall i | 0 <= i < |rest| && last.symbol == symbol ensures rest[i].expiresAt != last.expiresAt {
        assert rest[i] in front;
      }
    }
  }

  /** The series holds exactly the symbol's contracts, by rising expiry. */
  lemma {:induction false} SeriesMembers(cs: seq<Contract>, symbol: string)
    requires DistinctExpiries(cs)
    ensures Rising(Series(cs, symbol))
    ensures forall c :: c in Series(cs, symbol) <==> c in cs && c.symbol == symbol
    ensures forall c :: multiset(Series(cs, symbol))[c] == if c.symbol == symbol then multiset(cs)[c] else 0
  {
    FilterMembers(cs, symbol);
    FilterDiffers(cs, symbol);
    SortMembers(Filter(cs, symbol));
    SortRises(Filter(cs, symbol));
  }

  lemma {:induction false} UnlistedIsEmpty(cs: seq<Contract>, symbol: string)
    requires forall i | 0 <= i < |cs| :: cs[i].symbol != symbol
    ensures Series(cs, symbol) == []
    decreases |cs|
  {
    if cs != [] { UnlistedIsEmpty(cs[..|cs| - 1], symbol); FilterOfNone(cs, symbol); }
  }

  lemma {:induction false} FilterOfNone(cs: seq<Contract>, symbol: string)
    requires forall i | 0 <= i < |cs| :: cs[i].symbol != symbol
    ensures Filter(cs, symbol) == []
    decreases |cs|
  {
    if cs != [] { FilterOfNone(cs[..|cs| - 1], symbol); }
  }

  lemma {:induction false} SeriesFacts(cs: seq<Contract>, symbol: string)
    requires Accepted(cs)
    ensures var series := Series(cs, symbol);
      && RollsRise(series) && StableProduct(series)
      && forall i | 0 <= i < |series| :: ValidContract(series[i]) && series[i].rollAt < series[i].expiresAt
  {
    var series := Series(cs, symbol);
    SeriesMembers(cs, symbol);
    forall i | 0 <= i < |series| ensures ValidContract(series[i]) { assert series[i] in series; }
    if symbol !in {"BTC/USD", "ETH/USD"} { UnlistedIsEmpty(cs, symbol); }
  }

  // ----- input order -----

  lemma {:induction false} SameLast(a: seq<Contract>, b: seq<Contract>)
    requires Rising(a) && Rising(b) && multiset(a) == multiset(b) && a != [] && b != []
    ensures a[|a| - 1] == b[|b| - 1]
  {
    var x, y := a[|a| - 1], b[|b| - 1];
    assert x in multiset(b) && y in multiset(a);
    var k :| 0 <= k < |b| && b[k] == x;
    var m :| 0 <= m < |a| && a[m] == y;
  }

  lemma {:induction false} WithoutLast(a: seq<Contract>)
    requires a != [] && Rising(a)
    ensures Rising(a[..|a| - 1]) && a == a[..|a| - 1] + [a[|a| - 1]]
    ensures multiset(a[..|a| - 1]) == multiset(a) - multiset{a[|a| - 1]}
  {
  }

  lemma {:induction false} SameSize(a: seq<Contract>, b: seq<Contract>)
    requires multiset(a) == multiset(b)
    ensures |a| == |b|
  {
    assert |multiset(a)| == |a| && |multiset(b)| == |b|;
  }

  lemma {:induction false} RisingIsUnique(a: seq<Contract>, b: seq<Contract>)
    requires Rising(a) && Rising(b) && multiset(a) == multiset(b)
    ensures a == b
    decreases |a|
  {
    if a != [] {
      SameSize(a, b);
      SameLast(a, b);
      WithoutLast(a);
      WithoutLast(b);
      RisingIsUnique(a[..|a| - 1], b[..|b| - 1]);
    } else {
      SameSize(a, b);
    }
  }

  /** The series, and with it every resolution, does not depend on the order in
      which the contracts are given. */
  lemma {:induction false} OrderDoesNotMatter(cs: seq<Contract>, ds: seq<Contract>, symbol: string)
    requires DistinctExpiries(cs) && DistinctExpiries(ds) && multiset(cs) == multiset(ds)
    ensures Series(cs, symbol) == Series(ds, symbol)
  {
    SeriesMembers(cs, symbol);
    SeriesMembers(ds, symbol);
    var a, b := Series(cs, symbol), Series(ds, symbol);
    forall c ensures multiset(a)[c] == multiset(b)[c] {}
    RisingIsUnique(a, b);
  }

  // ----- what the evidence journal needs -----

  function SymbolOf(text: string): Symbol { if text == "BTC/USD" then BtcUsd else EthUsd }

  function RollsOfSeries(series: seq<Contract>, symbol: Symbol): set<(Symbol, string, string)> {
    set i | 0 < i < |series| :: (symbol, PreviousMarket(series[i - 1]), series[i].marketId)
  }

  /** Every market change the catalogue can report. */
  function RollsOf(cs: seq<Contract>): set<(Symbol, string, string)> {
    RollsOfSeries(Series(cs, "BTC/USD"), BtcUsd) + RollsOfSeries(Series(cs, "ETH/USD"), EthUsd)
  }

  predicate OfficiallyAddressable(cs: seq<Contract>) { cs != [] && forall i | 0 <= i < |cs| :: cs[i].Addressable() }

  lemma {:induction false} IdentitiesDiffer(cs: seq<Contract>, a: Contract, b: Contract)
    requires DistinctIdentities(cs) && a in cs && b in cs && a != b
    ensures a.Identity() != b.Identity()
  {
  }

  /** The successor has a market of its own. */
  predicate NeighbourDiffers(series: seq<Contract>, i: nat)
    requires 0 < i < |series|
  {
    series[i].marketId != "" && series[i].marketId != PreviousMarket(series[i - 1])
  }

  predicate NeighboursDiffer(series: seq<Contract>) { forall i | 0 < i < |series| :: NeighbourDiffers(series, i) }

  /** The verifier admits the roll into this contract. */
  predicate RollInto(series: seq<Contract>, i: nat)
    requires 0 < i < |series|
  {
    BridgeReader.RollAllowed(PreviousMarket(series[i - 1]), series[i].marketId)
  }

  /** A roll of an accepted catalogue is admitted exactly when its two markets
      differ and the second one is named. */
  lemma {:induction false} RollAdmitted(cs: seq<Contract>, symbol: string, i: nat)
    requires Accepted(cs) && 0 < i < |Series(cs, symbol)|
    ensures var series := Series(cs, symbol); RollInto(series, i) <==> NeighbourDiffers(series, i)
  {
    SeriesFacts(cs, symbol);
  }

  /** The reader that uses an accepted catalogue reports only market changes the
      journal and the verifier admit, exactly when all neighbours differ. */
  lemma {:induction false} CatalogueFeedsReader(cs: seq<Contract>, c: BridgeReader.ReaderConfig)
    requires Accepted(cs) && c.rolls == RollsOf(cs)
    ensures c.Ok() <==> NeighboursDiffer(Series(cs, "BTC/USD")) && NeighboursDiffer(Series(cs, "ETH/USD"))
  {
    SeriesAdmitted(cs, "BTC/USD", BtcUsd);
    SeriesAdmitted(cs, "ETH/USD", EthUsd);
    var btc, eth := RollsOfSeries(Series(cs, "BTC/USD"), BtcUsd), RollsOfSeries(Series(cs, "ETH/USD"), EthUsd);
    forall r | r in btc || r in eth ensures r in c.rolls { }
  }

  lemma {:induction false} EveryRollInto(series: seq<Contract>, symbol: Symbol)
    ensures (forall i | 0 < i < |series| :: RollInto(series, i)) <==>
            forall r | r in RollsOfSeries(series, symbol) :: BridgeReader.RollAllowed(r.1, r.2)
  {
    var rolls := RollsOfSeries(series, symbol);
    if forall r | r in rolls :: BridgeReader.RollAllowed(r.1, r.2) {
      forall i | 0 < i < |series| ensures RollInto(series, i) {
        assert (symbol, PreviousMarket(series[i - 1]), series[i].marketId) in rolls;
      }
    }
    if forall i | 0 < i < |series| :: RollInto(series, i) {
      forall r | r in rolls ensures BridgeReader.RollAllowed(r.1, r.2) {
        var i :| 0 < i < |series| && r == (symbol, PreviousMarket(series[i - 1]), series[i].marketId);
        assert RollInto(series, i);
      }
    }
  }

  lemma {:induction false} SeriesAdmitted(cs: seq<Contract>, text: string, symbol: Symbol)
    requires Accepted(cs)
    ensures NeighboursDiffer(Series(cs, text)) <==>
            forall r | r in RollsOfSeries(Series(cs, text), symbol) :: BridgeReader.RollAllowed(r.1, r.2)
  {
    var series := Series(cs, text);
    forall i | 0 < i < |series| ensures RollInto(series, i) <==> NeighbourDiffers(series, i) {
      RollAdmitted(cs, text, i);
    }
    EveryRollInto(series, symbol);
  }

  /** Neighbours of an officially addressable series differ; only such a
      catalogue starts an official session. */
  lemma {:induction false} AddressableNeighboursDiffer(cs: seq<Contract>, symbol: string)
    requires Accepted(cs) && OfficiallyAddressable(cs)
    ensures NeighboursDiffer(Series(cs, symbol))
  {
    var series := Series(cs, symbol);
    SeriesMembers(cs, symbol);
    SeriesFacts(cs, symbol);
    forall k | 0 <= k < |series| ensures series[k].Addressable() && series[k] in cs {
      assert series[k] in series;
    }
    forall i | 0 < i < |series| ensures NeighbourDiffers(series, i) {
      assert series[i - 1].expiresAt < series[i].expiresAt;
      IdentitiesDiffer(cs, series[i - 1], series[i]);
      assert series[i - 1].product == series[0].product == series[i].product;
    }
  }

  /** Every reported change of a resolution is one of them. */
  lemma {:induction false} ResolutionReportsRolls(cs: seq<Contract>, symbol: string, asOf: int, i: nat, r: Selection)
    requires Accepted(cs) && Selects(Series(cs, symbol), asOf, i, r) && r.rolledFrom.Some?
    ensures symbol in {"BTC/USD", "ETH/USD"}
    ensures (SymbolOf(symbol), r.rolledFrom.value, r.contract.marketId) in RollsOf(cs)
  {
    var series := Series(cs, symbol);
    SeriesMembers(cs, symbol);
    assert series[i] in series;
    assert (SymbolOf(symbol), PreviousMarket(series[i - 1]), series[i].marketId) in RollsOfSeries(series, SymbolOf(symbol));
  }

  const LEGACY := Contract("BTC/USD", Product("", "X", "", ""), "", "", 10 * HOUR, 8 * HOUR)
  const OFFICIAL := Contract("BTC/USD", Product("E", "C", "B", "I"), "X", "M", 20 * HOUR, 18 * HOUR)

  lemma {:induction false} MixedSeries()
    ensures Series([LEGACY, OFFICIAL], "BTC/USD") == [LEGACY, OFFICIAL] && Series([LEGACY, OFFICIAL], "ETH/USD") == []
  {
    var cs := [LEGACY, OFFICIAL];
    assert cs[..1] == [LEGACY] && [LEGACY][..0] == [];
    assert Filter([LEGACY], "BTC/USD") == [LEGACY];
    assert Filter(cs, "BTC/USD") == [LEGACY] + [OFFICIAL] == cs;
    assert SortByExpiry([LEGACY]) == [LEGACY];
    UnlistedIsEmpty(cs, "ETH/USD");
  }

  lemma {:induction false} MixedAccepted()
    ensures Accepted([LEGACY, OFFICIAL])
  {
    MixedSeries();
    assert ValidContract(LEGACY) && ValidContract(OFFICIAL);
  }

  /** A catalogue that is not officially addressable can fail this: a legacy
      contract whose contract id equals the market id of its successor. */
  lemma {:induction false} MixedCatalogueCanRepeatMarket() returns (cs: seq<Contract>, asOf: int, r: Selection)
    ensures Accepted(cs) && Selects(Series(cs, "BTC/USD"), asOf, 1, r)
    ensures r.rolledFrom == Some(r.contract.marketId) && !NeighboursDiffer(Series(cs, "BTC/USD"))
  {
    cs, asOf, r := [LEGACY, OFFICIAL], 9 * HOUR, Selection(OFFICIAL, Some("X"));
    MixedSeries();
    MixedAccepted();
    assert !NeighbourDiffers(Series(cs, "BTC/USD"), 1);
  }
}
