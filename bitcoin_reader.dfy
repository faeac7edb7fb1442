/** The Bitcoin balance reader of the user-wallet report
    (`Services/Implementations/Bitcoin/BitcoinBalanceReader`): which records carry
    a Bitcoin address, the canonical form addresses are read under, the assets it
    reports, and one read of the QBitNinja indexer. */
module BitcoinReader {
  import opened Common
  import opened Linq
  import opened Retry
  import opened PrivateWallets
  import opened CredentialRecords

  /** The NBitcoin parsers of one network.  Each answers with the canonical text of
      what it parsed, or `None` where the NBitcoin constructor throws:
      `parsePlain` is `BitcoinAddress.Create(s, network)`, `parseColored` is
      `new BitcoinColoredAddress(s, network).Address` (the plain address under the
      colored one) and `parseAssetId` is `new BitcoinAssetId(s, network)`. */
  datatype Network = Network(
    parsePlain: string -> Option<string>,
    parseColored: string -> Option<string>,
    parseAssetId: string -> Option<string>)

  /** A colored-coin balance: the canonical asset id and its quantity in asset units. */
  datatype AssetMoney = AssetMoney(assetId: string, quantity: int)

  /** The spendable part of QBitNinja's `BalanceSummary` of an address. */
  datatype BalanceSummary = BalanceSummary(assets: seq<AssetMoney>, satoshis: int)

  /** `GetBalanceSummary` on invocation `attempt` of the retry policy; `None` when
      the call throws. */
  type Indexer = (string, nat) -> Option<BalanceSummary>

  /** The QBitNinja client the reader holds: its network and its indexer. */
  datatype Client = Client(network: Network, indexer: Indexer)

  /** The `Bitcoin` section of the tool settings; either field may be null. */
  datatype BitcoinSettings = BitcoinSettings(network: Option<string>, ninjaUrl: Option<string>)

  /** Opens a QBitNinja client for a URL and a network name. */
  type Connect = (string, string) -> Client

  /** `Create`: the network is checked first, then the indexer URL; each missing one
      raises an `ArgumentNullException` naming it. */
  function Create(settings: Option<BitcoinSettings>, connect: Connect): (r: Result<Client>)
    ensures r.Ok? <==> settings.Some? && settings.value.network.Some? && settings.value.ninjaUrl.Some?
    ensures r.Ok? ==> r.value == connect(settings.value.ninjaUrl.value, settings.value.network.value)
    ensures (settings.None? || settings.value.network.None?) ==> r == Err("Network")
    ensures settings.Some? && settings.value.network.Some? && settings.value.ninjaUrl.None? ==>
              r == Err("NinjaUrl")
  {
    if settings.None? || settings.value.network.None? then Err("Network")
    else if settings.value.ninjaUrl.None? then Err("NinjaUrl")
    else Ok(connect(settings.value.ninjaUrl.value, settings.value.network.value))
  }

  predicate IsUncoloredBtcAddress(net: Network, address: string)
  {
    net.parsePlain(address).Some?
  }

  predicate IsColoredBtcAddress(net: Network, address: string)
  {
    net.parseColored(address).Some?
  }

  /** `IsBtcAddress`: a plain or a colored address of the network. */
  predicate IsBtcAddress(net: Network, address: string)
  {
    IsUncoloredBtcAddress(net, address) || IsColoredBtcAddress(net, address)
  }

  /** `GetAddress`: the plain address an input stands for.  A plain address is taken
      as it parses; a colored one yields its underlying plain address; anything else
      raises an `ArgumentException`. */
  function GetAddress(net: Network, address: string): (r: Result<string>)
    ensures r.Ok? <==> IsBtcAddress(net, address)
    ensures IsUncoloredBtcAddress(net, address) ==> r == Ok(net.parsePlain(address).value)
    ensures !IsUncoloredBtcAddress(net, address) && IsColoredBtcAddress(net, address) ==>
              r == Ok(net.parseColored(address).value)
    ensures r.Err? ==> r.error == "Invalid address format " + address
  {
    if IsUncoloredBtcAddress(net, address) then Ok(net.parsePlain(address).value)
    else if IsColoredBtcAddress(net, address) then Ok(net.parseColored(address).value)
    else Err("Invalid address format " + address)
  }

  /** The four `GetAddresses` overloads.  A private or registry wallet yields its own
      address; legacy credentials yield the multisig and then the colored multisig,
      each when it is a Bitcoin address; a bcn record is checked on `Address` but
      yields `AssetAddress`. */
  function GetAddresses(net: Network, record: WalletRecord): (addresses: seq<string>)
    ensures record.PrivateRecord? ==>
              addresses == (if IsBtcAddress(net, record.wallet.walletAddress) then [record.wallet.walletAddress] else [])
    ensures record.LegacyRecord? ==>
              addresses == (if IsBtcAddress(net, record.creds.multiSig) then [record.creds.multiSig] else [])
                           + (if IsBtcAddress(net, record.creds.coloredMultiSig) then [record.creds.coloredMultiSig] else [])
    ensures record.BcnRecord? ==>
              addresses == (if IsBtcAddress(net, record.bcn.address) then [record.bcn.assetAddress] else [])
    ensures record.RegistryRecord? ==>
              addresses == (if IsBtcAddress(net, record.entry.address) then [record.entry.address] else [])
  {
    match record
    case PrivateRecord(w) => if IsBtcAddress(net, w.walletAddress) then [w.walletAddress] else []
    case LegacyRecord(c) =>
      (if IsBtcAddress(net, c.multiSig) then [c.multiSig] else [])
      + (if IsBtcAddress(net, c.coloredMultiSig) then [c.coloredMultiSig] else [])
    case BcnRecord(b) => if IsBtcAddress(net, b.address) then [b.assetAddress] else []
    case RegistryRecord(e) => if IsBtcAddress(net, e.address) then [e.address] else []
  }

  /** Every address yielded for a private, legacy or registry record is one
      `GetAddress` accepts.  A bcn record is the exception: its asset address is
      never checked, so it can make `GetAddress` throw later. */
  lemma GetAddressesAccepted(net: Network, record: WalletRecord)
    ensures !record.BcnRecord? ==> forall a :: a in GetAddresses(net, record) ==> GetAddress(net, a).Ok?
    ensures record.BcnRecord? && IsBtcAddress(net, record.bcn.address) ==>
              GetAddresses(net, record) == [record.bcn.assetAddress]
  {
  }

  /** `GetAddress` on the network, as the selector `Select(GetAddress)` applies. */
  function GetAddressOf(net: Network): string -> Result<string>
  {
    (s: string) => GetAddress(net, s)
  }

  /** `SelectUniqueAddresses`: the lazily enumerated canonical addresses, each once in
      order of first appearance, as far as the first input `GetAddress` rejects; the
      exception that input raises, if any. */
  function SelectUniqueAddresses(net: Network, source: seq<string>): (r: (seq<string>, Option<string>))
    ensures NoDuplicates(r.0)
    ensures forall a :: a in r.0 ==> exists i :: 0 <= i < |source| && GetAddress(net, source[i]) == Ok(a)
    ensures forall a :: a in r.0 <==>
              exists i :: 0 <= i < |source| && (forall j :: 0 <= j < i ==> IsBtcAddress(net, source[j]))
                          && GetAddress(net, source[i]) == Ok(a)
    ensures r.1.None? <==> forall j :: 0 <= j < |source| ==> IsBtcAddress(net, source[j])
  {
    var f := GetAddressOf(net);
    DistinctNoDuplicates(Images(f, source));
    DistinctElements(Images(f, source));
    CanonicalImages(net, source);
    NoFailureIffAllMap(f, source);
    (Distinct(Images(f, source)), FirstFailure(f, source))
  }

  /** The canonical addresses enumerated are those of the inputs reached before the
      first one `GetAddress` rejects. */
  lemma CanonicalImages(net: Network, source: seq<string>)
    ensures forall a :: a in Images(GetAddressOf(net), source) <==>
              exists i :: 0 <= i < |source| && (forall j :: 0 <= j < i ==> IsBtcAddress(net, source[j]))
                          && GetAddress(net, source[i]) == Ok(a)
  {
    var f := GetAddressOf(net);
    ImagesMembers(f, source);
    forall i | 0 <= i <= |source|
      ensures FirstFailure(f, source[..i]).None? <==> forall j :: 0 <= j < i ==> IsBtcAddress(net, source[j])
    {
      NoFailureIffAllMap(f, source[..i]);
      assert forall j :: 0 <= j < i ==> source[..i][j] == source[j];
    }
  }

  /** Reading more input only adds addresses at the end: what a prefix of the input
      yields begins what the whole input yields, so the order is that of first
      appearance. */
  lemma SelectUniqueAddressesPrefix(net: Network, source: seq<string>, k: nat)
    requires k <= |source|
    ensures SelectUniqueAddresses(net, source[..k]).0 <= SelectUniqueAddresses(net, source).0
  {
    var f := GetAddressOf(net);
    ImagesPrefix(f, source, k);
    var images := Images(f, source);
    var m := |Images(f, source[..k])|;
    assert images[..m] == Images(f, source[..k]);
    DistinctPrefix(images, m);
  }

  /** The first appearance of a canonical address, reached by the enumeration, is
      where it stands in the result: right after what the inputs before it yield. */
  lemma {:induction false} FirstAppearancePosition(net: Network, source: seq<string>, i: nat)
    requires i < |source| && forall j :: 0 <= j <= i ==> IsBtcAddress(net, source[j])
    requires GetAddress(net, source[i]).value !in SelectUniqueAddresses(net, source[..i]).0
    ensures var r := SelectUniqueAddresses(net, source).0;
            var p := |SelectUniqueAddresses(net, source[..i]).0|;
            p < |r| && r[p] == GetAddress(net, source[i]).value
  {
    var f := GetAddressOf(net);
    NoFailureIffAllMap(f, source[..i]);
    DistinctImagesSnoc(f, source, i);
    SelectUniqueAddressesPrefix(net, source, i + 1);
  }

  /** Inputs that stand for the same canonical address, a plain address and its
      colored forms say, leave that address exactly once. */
  lemma SameAddressReadOnce(net: Network, source: seq<string>, i: nat, j: nat)
    requires i < j < |source| && forall k :: 0 <= k <= j ==> IsBtcAddress(net, source[k])
    requires GetAddress(net, source[i]) == GetAddress(net, source[j])
    ensures var r := SelectUniqueAddresses(net, source).0;
            var a := GetAddress(net, source[j]).value;
            exists p :: 0 <= p < |r| && r[p] == a && forall q :: 0 <= q < |r| && r[q] == a ==> q == p
  {
    var r := SelectUniqueAddresses(net, source).0;
    var a := GetAddress(net, source[j]).value;
    assert a in r;
    var p :| 0 <= p < |r| && r[p] == a;
  }

  /** A plain address and a colored address over it are read once, under the plain
      form. */
  lemma PlainAndColoredCollapse(net: Network, plain: string, colored: string)
    requires net.parsePlain(plain).Some? && net.parsePlain(colored).None?
    requires net.parseColored(colored) == net.parsePlain(plain)
    ensures SelectUniqueAddresses(net, [plain, colored]) == ([net.parsePlain(plain).value], None)
  {
    var f := GetAddressOf(net);
    var c := net.parsePlain(plain).value;
    assert f(plain) == Ok(c);
    assert f(colored) == Ok(c);
    assert [plain, colored][..1] == [plain];
    assert [plain][..0] == [];
    assert FirstFailure(f, [plain]) == None;
    assert Images(f, [plain]) == [c];
    assert Images(f, [plain, colored]) == [c, c];
    assert [c, c][..1] == [c];
    assert [c][..0] == [];
    assert Distinct([c]) == [c];
    assert [c, c][|[c, c]| - 1] in [c, c][..1];
    assert Distinct([c, c]) == [c];
  }

  /** An input that is not a Bitcoin address aborts the enumeration: only the
      addresses before it are read, and its exception follows. */
  lemma InvalidAddressAborts(net: Network, source: seq<string>, i: nat)
    requires i < |source| && !IsBtcAddress(net, source[i])
    requires forall j :: 0 <= j < i ==> IsBtcAddress(net, source[j])
    ensures SelectUniqueAddresses(net, source).0 == SelectUniqueAddresses(net, source[..i]).0
    ensures SelectUniqueAddresses(net, source).1 == Some("Invalid address format " + source[i])
  {
    var f := GetAddressOf(net);
    StopsAtFirstFailure(f, source, i);
  }

  /** `IsColoredAssetId`: a null id, or one NBitcoin rejects, is not colored. */
  predicate IsColoredAssetId(net: Network, assetId: Option<string>)
  {
    assetId.Some? && net.parseAssetId(assetId.value).Some?
  }

  predicate IsRelated(net: Network, asset: Asset)
  {
    IsColoredAssetId(net, asset.blockChainAssetId) || asset.id == "BTC"
  }

  /** `SelectRelatedAssetsAsync`: the colored-coin assets and BTC, in directory order. */
  function SelectRelatedAssets(net: Network, source: seq<Asset>): (related: seq<Asset>)
    ensures forall a :: a in related <==> a in source && IsRelated(net, a)
    ensures |related| <= |source|
  {
    var p := (a: Asset) => IsRelated(net, a);
    FilterMembers(p, source);
    Filter(p, source)
  }

  /** `p => !string.IsNullOrEmpty(p.BlockChainAssetId)`: the assets read per asset id. */
  predicate HasChainAssetId(a: Asset)
  {
    !IsNullOrEmpty(a.blockChainAssetId)
  }

  predicate HasBtc(assets: seq<Asset>)
  {
    exists a :: a in assets && a.id == "BTC"
  }

  /** `SingleOrDefault(p => p.Asset == id)?.Quantity ?? 0`: no entry reads as zero,
      more than one throws. */
  function AssetQuantity(assets: seq<AssetMoney>, id: string): Result<int>
  {
    var matching := Filter((m: AssetMoney) => m.assetId == id, assets);
    if |matching| == 0 then Ok(0)
    else if |matching| == 1 then Ok(matching[0].quantity)
    else Err("Sequence contains more than one matching element")
  }

  /** An asset the address does not hold reads as zero. */
  lemma AbsentAssetIsZero(assets: seq<AssetMoney>, id: string)
    requires forall m :: m in assets ==> m.assetId != id
    ensures AssetQuantity(assets, id) == Ok(0)
  {
    FilterNone((m: AssetMoney) => m.assetId == id, assets);
  }

  /** An asset held in one entry reads as that entry's quantity. */
  lemma {:induction false} SingleAssetIsItsQuantity(assets: seq<AssetMoney>, id: string, k: nat)
    requires k < |assets| && assets[k].assetId == id
    requires forall j :: 0 <= j < |assets| && j != k ==> assets[j].assetId != id
    ensures AssetQuantity(assets, id) == Ok(assets[k].quantity)
  {
    FilterSingle((m: AssetMoney) => m.assetId == id, assets, k);
  }

  /** The line for one asset with an asset id: its quantity scaled by the asset's
      multiplier.  An id NBitcoin rejects, or a duplicated entry, raises. */
  function AssetLine(client: Client, sum: BalanceSummary, asset: Asset, address: string): (r: Result<Balance>)
    requires HasChainAssetId(asset)
    ensures r.Ok? ==> r.value.address == address && r.value.assetId == asset.id
    ensures client.network.parseAssetId(asset.blockChainAssetId.value).None? ==> r.Err?
    ensures var id := client.network.parseAssetId(asset.blockChainAssetId.value);
            id.Some? ==> (r.Ok? <==> AssetQuantity(sum.assets, id.value).Ok?)
    ensures r.Ok? ==>
              r.value.amount
              == Scaled(AssetQuantity(sum.assets, client.network.parseAssetId(asset.blockChainAssetId.value).value).value,
                        asset)
  {
    match client.network.parseAssetId(asset.blockChainAssetId.value)
    case None => Err("Invalid asset id " + asset.blockChainAssetId.value)
    case Some(id) =>
      match AssetQuantity(sum.assets, id)
      case Err(e) => Err(e)
      case Ok(q) => Ok(Balance(address, Scaled(q, asset), asset.id))
  }

  /** The line of an asset the address does not hold reads zero. */
  lemma AbsentAssetLineIsZero(client: Client, sum: BalanceSummary, asset: Asset, address: string)
    requires HasChainAssetId(asset) && client.network.parseAssetId(asset.blockChainAssetId.value).Some?
    requires forall m :: m in sum.assets ==>
               m.assetId != client.network.parseAssetId(asset.blockChainAssetId.value).value
    ensures AssetLine(client, sum, asset, address) == Ok(Balance(address, 0.0, asset.id))
  {
    AbsentAssetIsZero(sum.assets, client.network.parseAssetId(asset.blockChainAssetId.value).value);
  }

  /** The lines of the `foreach` over the assets with an asset id, in asset order;
      the first failing asset aborts. */
  function AssetLines(client: Client, sum: BalanceSummary, assets: seq<Asset>, address: string): Result<seq<Balance>>
  {
    if assets == [] then Ok([])
    else
      var init := assets[..|assets| - 1];
      var a := assets[|assets| - 1];
      match AssetLines(client, sum, init, address)
      case Err(e) => Err(e)
      case Ok(lines) =>
        if !HasChainAssetId(a) then Ok(lines)
        else
          match AssetLine(client, sum, a, address)
          case Err(e) => Err(e)
          case Ok(b) => Ok(lines + [b])
  }

  /** The line for the BTC asset: the spendable satoshis in bitcoins. */
  function BtcLine(sum: BalanceSummary, address: string): Balance
  {
    Balance(address, sum.satoshis as real / 100000000.0, "BTC")
  }

  /** `ReadBalance` on invocation `attempt`: an input `GetAddress` rejects is fatal;
      an indexer failure asks for a retry. */
  function ReadBalanceSpec(client: Client, assets: seq<Asset>, address: string, attempt: nat): Outcome<seq<Balance>>
  {
    match GetAddress(client.network, address)
    case Err(e) => Failed(e)
    case Ok(btc) =>
      match client.indexer(btc, attempt)
      case None => RetryNeeded("GetBalanceSummary failed for " + btc)
      case Some(sum) =>
        match AssetLines(client, sum, assets, address)
        case Err(e) => Failed(e)
        case Ok(lines) => Done(lines + (if HasBtc(assets) then [BtcLine(sum, address)] else []))
  }

  /** `ReadBalance`: the indexer is asked under the canonical address, and the lines
      are built asset by asset. */
  method ReadBalance(client: Client, assets: seq<Asset>, address: string, attempt: nat)
    returns (r: Outcome<seq<Balance>>)
    ensures r == ReadBalanceSpec(client, assets, address, attempt)
  {
    var btcAddress := GetAddress(client.network, address);
    if btcAddress.Err? {
      return Failed(btcAddress.error);
    }
    var reply := client.indexer(btcAddress.value, attempt);
    if reply.None? {
      return RetryNeeded("GetBalanceSummary failed for " + btcAddress.value);
    }
    var sum := reply.value;
    var result: seq<Balance> := [];
    var i := 0;
    while i < |assets|
      invariant 0 <= i <= |assets|
      invariant AssetLines(client, sum, assets[..i], address) == Ok(result)
    {
      var asset := assets[i];
      assert assets[..i + 1][..i] == assets[..i];
      if HasChainAssetId(asset) {
        var line := AssetLine(client, sum, asset, address);
        if line.Err? {
          AssetLinesAbort(client, sum, assets, address, i + 1);
          return Failed(line.error);
        }
        result := result + [line.value];
      }
      i := i + 1;
    }
    assert assets[..i] == assets;
    assert GetAddress(client.network, address) == Ok(btcAddress.value);
    assert client.indexer(btcAddress.value, attempt) == Some(sum);
    assert AssetLines(client, sum, assets, address) == Ok(result);
    assert ReadBalanceSpec(client, assets, address, attempt)
        == Done(result + (if HasBtc(assets) then [BtcLine(sum, address)] else []));
    var btcLine := if HasBtc(assets) then [BtcLine(sum, address)] else [];
    return Done(result + btcLine);
  }

  /** Once a prefix of the assets fails, the whole list fails with the same error. */
  lemma {:induction false} AssetLinesAbort(client: Client, sum: BalanceSummary, assets: seq<Asset>, address: string, i: nat)
    requires i <= |assets| && AssetLines(client, sum, assets[..i], address).Err?
    ensures AssetLines(client, sum, assets, address) == AssetLines(client, sum, assets[..i], address)
    decreases |assets| - i
  {
    if i < |assets| {
      assert assets[..i + 1][..i] == assets[..i];
      AssetLinesAbort(client, sum, assets, address, i + 1);
    } else {
      assert assets[..i] == assets;
    }
  }

  /** `lines` are the `AssetLine`s of `read`, one for one and in order. */
  predicate LinesOfAssets(client: Client, sum: BalanceSummary, read: seq<Asset>, address: string, lines: seq<Balance>)
  {
    && |lines| == |read|
    && forall k :: 0 <= k < |lines| ==>
         HasChainAssetId(read[k]) && AssetLine(client, sum, read[k], address) == Ok(lines[k])
  }

  lemma LinesOfAssetsSnoc(client: Client, sum: BalanceSummary, read: seq<Asset>, address: string,
                          lines: seq<Balance>, a: Asset)
    requires LinesOfAssets(client, sum, read, address, lines)
    requires HasChainAssetId(a) && AssetLine(client, sum, a, address).Ok?
    ensures LinesOfAssets(client, sum, read + [a], address, lines + [AssetLine(client, sum, a, address).value])
  {
  }

  /** The asset lines follow the assets with an asset id one for one, in order: each
      is that asset's `AssetLine`, so it carries the address as given (not its
      canonical form) and the asset's scaled quantity. */
  lemma {:induction false} AssetLinesShape(client: Client, sum: BalanceSummary, assets: seq<Asset>, address: string)
    requires AssetLines(client, sum, assets, address).Ok?
    ensures LinesOfAssets(client, sum, Filter(HasChainAssetId, assets), address,
                          AssetLines(client, sum, assets, address).value)
    ensures var lines := AssetLines(client, sum, assets, address).value;
            var read := Filter(HasChainAssetId, assets);
            forall k :: 0 <= k < |lines| ==> lines[k].address == address && lines[k].assetId == read[k].id
  {
    if assets != [] {
      var init := assets[..|assets| - 1];
      var a := assets[|assets| - 1];
      AssetLinesShape(client, sum, init, address);
      assert assets == init + [a];
      FilterSnoc(HasChainAssetId, init, a);
      if HasChainAssetId(a) {
        LinesOfAssetsSnoc(client, sum, Filter(HasChainAssetId, init), address,
                          AssetLines(client, sum, init, address).value, a);
      }
    }
  }

  /** A successful read reports one line per asset with an asset id, in order, each
      that asset's scaled quantity, then the BTC line of the summary when BTC is among
      the assets; every line carries the address. */
  lemma ReadBalanceShape(client: Client, assets: seq<Asset>, address: string, attempt: nat)
    requires ReadBalanceSpec(client, assets, address, attempt).Done?
    ensures var lines := ReadBalanceSpec(client, assets, address, attempt).value;
            var read := Filter(HasChainAssetId, assets);
            var sum := client.indexer(GetAddress(client.network, address).value, attempt).value;
            && |lines| == |read| + (if HasBtc(assets) then 1 else 0)
            && (forall k :: 0 <= k < |lines| ==> lines[k].address == address)
            && (forall k :: 0 <= k < |read| ==> lines[k].assetId == read[k].id)
            && LinesOfAssets(client, sum, read, address, lines[..|read|])
            && (HasBtc(assets) ==> lines[|lines| - 1] == BtcLine(sum, address))
            && (HasBtc(assets) ==> lines[|lines| - 1].assetId == "BTC")
  {
    var btc := GetAddress(client.network, address).value;
    var sum := client.indexer(btc, attempt).value;
    AssetLinesShape(client, sum, assets, address);
  }

  /** In a successful read, an asset the address does not hold has a zero line. */
  lemma ReadAbsentAssetIsZero(client: Client, assets: seq<Asset>, address: string, attempt: nat, k: nat)
    requires ReadBalanceSpec(client, assets, address, attempt).Done?
    requires k < |Filter(HasChainAssetId, assets)|
    requires var asset := Filter(HasChainAssetId, assets)[k];
             var sum := client.indexer(GetAddress(client.network, address).value, attempt).value;
             && HasChainAssetId(asset)
             && client.network.parseAssetId(asset.blockChainAssetId.value).Some?
             && forall m :: m in sum.assets ==>
                  m.assetId != client.network.parseAssetId(asset.blockChainAssetId.value).value
    ensures k < |ReadBalanceSpec(client, assets, address, attempt).value|
            && ReadBalanceSpec(client, assets, address, attempt).value[k]
            == Balance(address, 0.0, Filter(HasChainAssetId, assets)[k].id)
  {
    var sum := client.indexer(GetAddress(client.network, address).value, attempt).value;
    ReadBalanceShape(client, assets, address, attempt);
    AbsentAssetLineIsZero(client, sum, Filter(HasChainAssetId, assets)[k], address);
  }

  /** Which failures the retry policy sees as transient: only the indexer's. */
  lemma ReadBalanceFailures(client: Client, assets: seq<Asset>, address: string, attempt: nat)
    ensures !IsBtcAddress(client.network, address) ==>
              ReadBalanceSpec(client, assets, address, attempt) == Failed("Invalid address format " + address)
    ensures IsBtcAddress(client.network, address) &&
            client.indexer(GetAddress(client.network, address).value, attempt).None? ==>
              ReadBalanceSpec(client, assets, address, attempt).RetryNeeded?
    ensures ReadBalanceSpec(client, assets, address, attempt).RetryNeeded? ==>
              client.indexer(GetAddress(client.network, address).value, attempt).None?
  {
  }
}
