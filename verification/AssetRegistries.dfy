/** Local assets, their supply and their tickers. */
module AssetRegistries {
  import opened Prelude
  import opened Types

  datatype AssetRecord = AssetRecord(issuer: AccountId, ticker: Name, decimals: u8, reissuable: bool, supply: Amount)

  datatype AssetError =
    | NoSuchAsset(id: AssetId)
    | TickerTaken(ticker: Name, heldBy: AssetId)
    | AssetExists(existing: AssetId)
    | NotTheIssuer(caller: AccountId, issuer: AccountId)
    | NotReissuable(closed: AssetId)
    | ZeroAmount
    | SupplyUnderflow(amount: Amount, supply: Amount)
    | SupplyOverflow

  type AssetMap = map<AssetId, AssetRecord>
  type TickerMap = map<Name, AssetId>

  function Created(assets: AssetMap, tickers: TickerMap, id: AssetId, issuer: AccountId, ticker: Name,
                   decimals: u8, reissuable: bool): Result<(AssetMap, TickerMap), AssetError>
  {
    if id in assets then Failure(AssetExists(id))
    else if ticker in tickers then Failure(TickerTaken(ticker, tickers[ticker]))
    else Success((assets[id := AssetRecord(issuer, ticker, decimals, reissuable, 0)], tickers[ticker := id]))
  }

  function Minted(assets: AssetMap, id: AssetId, caller: AccountId, amount: Amount): Result<AssetMap, AssetError> {
    if amount == 0 then Failure(ZeroAmount)
    else if id !in assets then Failure(NoSuchAsset(id))
    else
      var record := assets[id];
      if record.issuer != caller then Failure(NotTheIssuer(caller, record.issuer))
      else if !record.reissuable && record.supply != 0 then Failure(NotReissuable(id))
      else
        match CheckedAdd(record.supply, amount)
        case None => Failure(SupplyOverflow)
        case Some(supply) => Success(assets[id := record.(supply := supply)])
  }

  function Burned(assets: AssetMap, id: AssetId, amount: Amount): Result<AssetMap, AssetError> {
    if amount == 0 then Failure(ZeroAmount)
    else if id !in assets then Failure(NoSuchAsset(id))
    else
      match CheckedSub(assets[id].supply, amount)
      case None => Failure(SupplyUnderflow(amount, assets[id].supply))
      case Some(supply) => Success(assets[id := assets[id].(supply := supply)])
  }

  class AssetRegistry {
    var assets: AssetMap
    var tickers: TickerMap

    constructor (assets: AssetMap, tickers: TickerMap)
      ensures this.assets == assets && this.tickers == tickers
    {
      this.assets := assets;
      this.tickers := tickers;
    }

    method Create(id: AssetId, issuer: AccountId, ticker: Name, decimals: u8, reissuable: bool)
      returns (r: Outcome<AssetError>)
      modifies this
      ensures match Created(old(assets), old(tickers), id, issuer, ticker, decimals, reissuable)
        case Success((a, t)) => r == Pass && assets == a && tickers == t
        case Failure(e) => r == Fail(e) && assets == old(assets) && tickers == old(tickers)
    {
      if id in assets {
        return Fail(AssetExists(id));
      }
      if ticker in tickers {
        return Fail(TickerTaken(ticker, tickers[ticker]));
      }
      tickers := tickers[ticker := id];
      assets := assets[id := AssetRecord(issuer, ticker, decimals, reissuable, 0)];
      return Pass;
    }

    method AuthoriseMint(id: AssetId, caller: AccountId, amount: Amount) returns (r: Outcome<AssetError>)
      modifies this
      ensures tickers == old(tickers)
      ensures match Minted(old(assets), id, caller, amount)
        case Success(a) => r == Pass && assets == a
        case Failure(e) => r == Fail(e) && assets == old(assets)
    {
      if amount == 0 {
        return Fail(ZeroAmount);
      }
      if id !in assets {
        return Fail(NoSuchAsset(id));
      }
      var record := assets[id];
      if record.issuer != caller {
        return Fail(NotTheIssuer(caller, record.issuer));
      }
      if !record.reissuable && record.supply != 0 {
        return Fail(NotReissuable(id));
      }
      var supply := CheckedAdd(record.supply, amount);
      if supply.None? {
        return Fail(SupplyOverflow);
      }
      assets := assets[id := record.(supply := supply.value)];
      return Pass;
    }

    method RecordBurn(id: AssetId, amount: Amount) returns (r: Outcome<AssetError>)
      modifies this
      ensures tickers == old(tickers)
      ensures match Burned(old(assets), id, amount)
        case Success(a) => r == Pass && assets == a
        case Failure(e) => r == Fail(e) && assets == old(assets)
    {
      if amount == 0 {
        return Fail(ZeroAmount);
      }
      if id !in assets {
        return Fail(NoSuchAsset(id));
      }
      var supply := CheckedSub(assets[id].supply, amount);
      if supply.None? {
        return Fail(SupplyUnderflow(amount, assets[id].supply));
      }
      assets := assets[id := assets[id].(supply := supply.value)];
      return Pass;
    }
  }

  /** The ticker index lists exactly the tickers of the assets, one asset each. */
  ghost predicate TickersIndex(assets: AssetMap, tickers: TickerMap) {
    && (forall id :: id in assets ==> assets[id].ticker in tickers && tickers[assets[id].ticker] == id)
    && (forall t :: t in tickers ==> tickers[t] in assets && assets[tickers[t]].ticker == t)
  }

  /** Creating, minting and burning keep the index. */
  lemma CreatedIndex(assets: AssetMap, tickers: TickerMap, id: AssetId, issuer: AccountId, ticker: Name,
                     decimals: u8, reissuable: bool)
    requires TickersIndex(assets, tickers)
    requires Created(assets, tickers, id, issuer, ticker, decimals, reissuable).Success?
    ensures var (a, t) := Created(assets, tickers, id, issuer, ticker, decimals, reissuable).value; TickersIndex(a, t)
  {
  }

  lemma SupplyKeepsIndex(assets: AssetMap, tickers: TickerMap, id: AssetId, supply: Amount)
    requires TickersIndex(assets, tickers) && id in assets
    ensures TickersIndex(assets[id := assets[id].(supply := supply)], tickers)
  {
  }
}
