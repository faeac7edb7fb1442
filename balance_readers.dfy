/** The balance readers of the user-wallet report as the driver sees them
    (`IBalanceReader`), and the factory that builds them from the settings
    (`Services/BalanceReaderFactory`). */
module BalanceReaders {
  import opened Common
  import opened Linq
  import opened Retry
  import opened CredentialRecords
  import BitcoinReader
  import EthereumReader

  /** An `IBalanceReader`: the Bitcoin reader is a value, the Ethereum reader an
      object with a cache. */
  datatype BalanceReader =
    | BitcoinBalanceReader(client: BitcoinReader.Client)
    | EthereumBalanceReader(eth: EthereumReader.EthereumBalanceReader)

  /** What the driver's specification needs of a reader: its clients and parsers,
      which never change, without the object identity. */
  datatype ReaderModel =
    | BitcoinModel(client: BitcoinReader.Client)
    | EthereumModel(core: EthereumReader.EthereumCore, assetsService: AssetsService,
                    isChecksumAddress: string -> bool)

  function Model(reader: BalanceReader): ReaderModel
  {
    match reader
    case BitcoinBalanceReader(client) => BitcoinModel(client)
    case EthereumBalanceReader(eth) => EthereumModel(eth.core, eth.assetsService, eth.isChecksumAddress)
  }

  function Models(readers: seq<BalanceReader>): (models: seq<ReaderModel>)
    ensures |models| == |readers| && forall i :: 0 <= i < |readers| ==> models[i] == Model(readers[i])
  {
    seq(|readers|, i requires 0 <= i < |readers| => Model(readers[i]))
  }

  /** The reader's run-time type, the key the driver groups and caches by. */
  datatype ReaderKind = BitcoinKind | EthereumKind

  function Kind(model: ReaderModel): ReaderKind
  {
    if model.BitcoinModel? then BitcoinKind else EthereumKind
  }

  /** The Ethereum reader objects among `readers`: what reading through them may change. */
  function Objects(readers: seq<BalanceReader>): set<object>
  {
    set i | 0 <= i < |readers| && readers[i].EthereumBalanceReader? :: readers[i].eth
  }

  /** Every Ethereum reader's cache invariant holds. */
  predicate ReadersValid(readers: seq<BalanceReader>)
    reads Objects(readers)
  {
    forall i :: 0 <= i < |readers| && readers[i].EthereumBalanceReader? ==> readers[i].eth.Valid()
  }

  /** No two readers share a run-time type. */
  predicate DistinctKinds(models: seq<ReaderModel>)
  {
    forall i, j :: 0 <= i < j < |models| ==> Kind(models[i]) != Kind(models[j])
  }

  /** `GetAddresses` of the reader for one record. */
  function GetAddresses(model: ReaderModel, record: WalletRecord): seq<string>
  {
    match model
    case BitcoinModel(client) => BitcoinReader.GetAddresses(client.network, record)
    case EthereumModel(_, _, isChecksumAddress) => EthereumReader.GetAddresses(isChecksumAddress, record)
  }

  /** What `SelectUniqueAddresses` maps each address to before removing repeats: the
      Bitcoin reader's `GetAddress` (which can throw), the identity for Ethereum. */
  function CanonicalOf(model: ReaderModel): string -> Result<string>
  {
    match model
    case BitcoinModel(client) => BitcoinReader.GetAddressOf(client.network)
    case EthereumModel(_, _, _) => (s: string) => Ok(s)
  }

  /** `SelectUniqueAddresses`, as the lazy enumeration the driver consumes: the
      distinct canonical addresses up to the first failure, and that failure. */
  function UniqueAddresses(model: ReaderModel, source: seq<string>): (seq<string>, Option<string>)
  {
    (Distinct(Images(CanonicalOf(model), source)), FirstFailure(CanonicalOf(model), source))
  }

  /** The dispatch agrees with each reader's own `SelectUniqueAddresses`. */
  lemma UniqueAddressesAgree(model: ReaderModel, source: seq<string>)
    ensures model.BitcoinModel? ==>
              UniqueAddresses(model, source) == BitcoinReader.SelectUniqueAddresses(model.client.network, source)
    ensures model.EthereumModel? ==>
              UniqueAddresses(model, source) == (EthereumReader.SelectUniqueAddresses(source), None)
  {
    if model.EthereumModel? {
      var f := CanonicalOf(model);
      ImagesWithoutFailure(f, source);
      assert Images(f, source) == source;
    }
  }

  /** `SelectRelatedAssetsAsync`: the Bitcoin reader filters the assets it is given,
      the Ethereum reader ignores them and answers with its approved ERC-20 assets. */
  function RelatedAssets(model: ReaderModel, assets: seq<Asset>): Result<seq<Asset>>
  {
    match model
    case BitcoinModel(client) => Ok(BitcoinReader.SelectRelatedAssets(client.network, assets))
    case EthereumModel(_, assetsService, _) => EthereumReader.ApprovedTokenAssets(assetsService)
  }

  /** One `ReadBalance` of the reader, as the `attempt`-th invocation of the retry policy. */
  function ReaderAction(model: ReaderModel, assets: seq<Asset>, address: string): nat -> Outcome<seq<Balance>>
  {
    match model
    case BitcoinModel(client) =>
      (attempt: nat) => BitcoinReader.ReadBalanceSpec(client, assets, address, attempt)
    case EthereumModel(core, assetsService, _) =>
      (attempt: nat) => EthereumReader.ReadBalanceSpec(core, assetsService, assets, address, attempt)
  }

  /** `SelectRelatedAssetsAsync` through the reader object. */
  method SelectRelated(reader: BalanceReader, assets: seq<Asset>) returns (r: Result<seq<Asset>>)
    requires reader.EthereumBalanceReader? ==> reader.eth.Valid()
    modifies if reader.EthereumBalanceReader? then {reader.eth} else {}
    ensures reader.EthereumBalanceReader? ==> reader.eth.Valid()
    ensures r == RelatedAssets(Model(reader), assets)
  {
    match reader
    case BitcoinBalanceReader(client) =>
      r := Ok(BitcoinReader.SelectRelatedAssets(client.network, assets));
    case EthereumBalanceReader(eth) =>
      r := eth.SelectRelatedAssets();
  }

  /** `ReadBalance` through the reader object, once. */
  method ReadOnce(reader: BalanceReader, assets: seq<Asset>, address: string, attempt: nat)
    returns (o: Outcome<seq<Balance>>)
    ensures o == ReaderAction(Model(reader), assets, address)(attempt)
  {
    match reader
    case BitcoinBalanceReader(client) =>
      o := BitcoinReader.ReadBalance(client, assets, address, attempt);
    case EthereumBalanceReader(eth) =>
      o := eth.ReadBalance(assets, address, attempt);
  }

  /** `retryPolicy.ExecuteAsync(() => balanceReader.ReadBalance(...))`: the read is
      repeated while it asks for a retry, at most ten times more, sleeping n seconds
      before retry n. */
  method ReadWithRetry(reader: BalanceReader, assets: seq<Asset>, address: string)
    returns (r: Result<seq<Balance>>, sleeps: seq<nat>)
    ensures r == Policy(ReaderAction(Model(reader), assets, address), 0)
    ensures sleeps == Sleeps(ReaderAction(Model(reader), assets, address))
  {
    ghost var action := ReaderAction(Model(reader), assets, address);
    var attempt := 0;
    sleeps := [];
    while true
      invariant attempt <= RetryCount
      invariant RetriedBefore(action, attempt)
      invariant sleeps == Backoff(attempt)
      decreases RetryCount - attempt
    {
      var o := ReadOnce(reader, assets, address, attempt);
      if !o.RetryNeeded? || attempt == RetryCount {
        LoopStopsAt(action, attempt, o, sleeps);
        r := Settle(o);
        return;
      }
      LoopRetries(action, attempt, o, sleeps);
      attempt := attempt + 1;
      sleeps := sleeps + [SleepBeforeRetry(attempt)];
    }
  }

  /** The readers the factory builds, as models: Bitcoin first, then Ethereum, each
      when its settings section is present; the first failing `Create` wins. */
  function ExpectedReaders(assetsService: AssetsService,
                           bitcoin: Option<BitcoinReader.BitcoinSettings>,
                           ethereum: Option<EthereumReader.EthereumSettings>,
                           connectBitcoin: BitcoinReader.Connect,
                           connectEthereum: string -> EthereumReader.EthereumCore,
                           isChecksumAddress: string -> bool): (r: Result<seq<ReaderModel>>)
    ensures r.Ok? ==> DistinctKinds(r.value)
    ensures r.Ok? ==> |r.value| == (if bitcoin.Some? then 1 else 0) + (if ethereum.Some? then 1 else 0)
    ensures r.Ok? ==> forall i :: 0 <= i < |r.value| ==> (Kind(r.value[i]) == BitcoinKind <==> bitcoin.Some? && i == 0)
  {
    if bitcoin.Some? && BitcoinReader.Create(bitcoin, connectBitcoin).Err? then
      Err(BitcoinReader.Create(bitcoin, connectBitcoin).error)
    else if ethereum.Some? && ethereum.value.ethereumCoreUrl.None? then Err("EthereumCoreUrl")
    else
      Ok((if bitcoin.Some? then [BitcoinModel(BitcoinReader.Create(bitcoin, connectBitcoin).value)] else [])
         + (if ethereum.Some?
            then [EthereumModel(connectEthereum(ethereum.value.ethereumCoreUrl.value), assetsService, isChecksumAddress)]
            else []))
  }

  /** `BalanceReaderFactory.GetBalanceReaders(...).ToArray()`: a Bitcoin reader when the
      Bitcoin section is present, then an Ethereum reader when the Ethereum section
      is; the first `Create` that throws aborts. */
  method GetBalanceReaders(assetsService: AssetsService,
                           bitcoin: Option<BitcoinReader.BitcoinSettings>,
                           ethereum: Option<EthereumReader.EthereumSettings>,
                           connectBitcoin: BitcoinReader.Connect,
                           connectEthereum: string -> EthereumReader.EthereumCore,
                           isChecksumAddress: string -> bool)
    returns (r: Result<seq<BalanceReader>>)
    ensures var expected := ExpectedReaders(assetsService, bitcoin, ethereum, connectBitcoin, connectEthereum, isChecksumAddress);
            && (r.Ok? <==> expected.Ok?)
            && (r.Err? ==> r.error == expected.error)
            && (r.Ok? ==> Models(r.value) == expected.value)
    ensures r.Ok? ==> ReadersValid(r.value) && forall o :: o in Objects(r.value) ==> fresh(o)
  {
    var readers: seq<BalanceReader> := [];
    if bitcoin.Some? {
      var btc := BitcoinReader.Create(bitcoin, connectBitcoin);
      if btc.Err? {
        return Err(btc.error);
      }
      readers := readers + [BitcoinBalanceReader(btc.value)];
    }
    if ethereum.Some? {
      var eth := EthereumReader.Create(ethereum, connectEthereum, assetsService, isChecksumAddress);
      if eth.Err? {
        return Err(eth.error);
      }
      readers := readers + [EthereumBalanceReader(eth.value)];
    }
    return Ok(readers);
  }
}
