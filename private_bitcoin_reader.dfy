/** The Bitcoin balance reader of the private-wallet report
    (`Services/Implementations/BitcoinBalanceReader` of that tool): which wallets
    it reads, and one read of one asset on one wallet through the QBitNinja
    indexer; and the factory that picks the reader by the asset's blockchain
    (`Services/BalanceReaderFactory`). */
module PrivateBitcoinReader {
  import opened Common
  import opened Linq
  import opened Retry
  import opened PrivateWallets
  import BitcoinReader

  /** What `ReadBalance` hands back: the address of the wallet and the amount of the asset. */
  datatype WalletBalance = WalletBalance(address: string, amount: real)

  // `Create` of this tool's reader is the same code as the User tool's (the network is
  // checked first, then the indexer URL), so `BitcoinReader.Create` models both.

  /** `IsRelated`: the reader reads the wallets on the Bitcoin chain. */
  predicate IsRelated(wallet: PrivateWallet)
  {
    wallet.blockchainType == Bitcoin
  }

  /** The wallets of a list the reader reads (`wallets.Where(IsRelated)`) are exactly
      its Bitcoin wallets, in their order. */
  lemma RelatedWallets(wallets: seq<PrivateWallet>)
    ensures forall w :: w in Filter(IsRelated, wallets) <==> w in wallets && w.blockchainType == Bitcoin
    ensures (forall w :: w in wallets ==> w.blockchainType == Bitcoin) ==> Filter(IsRelated, wallets) == wallets
  {
    FilterMembers(IsRelated, wallets);
    if forall w :: w in wallets ==> w.blockchainType == Bitcoin {
      FilterAll(IsRelated, wallets);
    }
  }

  const NoChainAssetIdMessage: string := "The asset has no blockchain asset id"

  /** `new BitcoinAssetId(asset.BlockChainAssetId, network)`: throws for a null id and
      for one the network rejects. */
  function AssetIdOf(net: BitcoinReader.Network, asset: Asset): (r: Result<string>)
    ensures r.Ok? <==> asset.blockChainAssetId.Some? && net.parseAssetId(asset.blockChainAssetId.value).Some?
    ensures r.Ok? ==> r.value == net.parseAssetId(asset.blockChainAssetId.value).value
  {
    match asset.blockChainAssetId
    case None => Err(NoChainAssetIdMessage)
    case Some(s) =>
      match net.parseAssetId(s)
      case None => Err("Invalid asset id " + s)
      case Some(id) => Ok(id)
  }

  /** `ReadBalance` on invocation `attempt` of the retry policy: a bad asset id or a
      wallet address that is not a plain Bitcoin address is fatal, a failure of the
      indexer asks for a retry, and the amount is the spendable quantity of the
      asset (zero when the address holds none) scaled by the asset's multiplier. */
  function ReadBalanceSpec(client: BitcoinReader.Client, asset: Asset, wallet: PrivateWallet, attempt: nat)
    : (r: Outcome<WalletBalance>)
  {
    match AssetIdOf(client.network, asset)
    case Err(e) => Failed(e)
    case Ok(id) =>
      match client.network.parsePlain(wallet.walletAddress)
      case None => Failed("Invalid address format " + wallet.walletAddress)
      case Some(btc) =>
        match client.indexer(btc, attempt)
        case None => RetryNeeded("GetBalanceSummary failed for " + btc)
        case Some(sum) =>
          match BitcoinReader.AssetQuantity(sum.assets, id)
          case Err(e) => Failed(e)
          case Ok(q) => Done(WalletBalance(wallet.walletAddress, Scaled(q, asset)))
  }

  /** How a read ends: a success reports the wallet's own address, not the canonical
      form it was parsed to; a bad asset id fails before the address is looked at; an
      address that is not a plain Bitcoin address fails; and only a failure of the
      indexer on this very invocation asks for a retry. */
  lemma ReadBalanceOutcomes(client: BitcoinReader.Client, asset: Asset, wallet: PrivateWallet, attempt: nat)
    ensures var r := ReadBalanceSpec(client, asset, wallet, attempt);
            && (r.Done? ==> r.value.address == wallet.walletAddress)
            && (AssetIdOf(client.network, asset).Err? ==> r == Failed(AssetIdOf(client.network, asset).error))
            && (client.network.parsePlain(wallet.walletAddress).None? ==> r.Failed?)
            && (r.RetryNeeded? ==>
                  && AssetIdOf(client.network, asset).Ok?
                  && client.network.parsePlain(wallet.walletAddress).Some?
                  && client.indexer(client.network.parsePlain(wallet.walletAddress).value, attempt).None?)
  {
  }

  /** The indexer's answer for a wallet whose asset id and address both parse. */
  predicate Answers(client: BitcoinReader.Client, asset: Asset, wallet: PrivateWallet, attempt: nat,
                    sum: BitcoinReader.BalanceSummary)
  {
    && AssetIdOf(client.network, asset).Ok?
    && client.network.parsePlain(wallet.walletAddress).Some?
    && client.indexer(client.network.parsePlain(wallet.walletAddress).value, attempt) == Some(sum)
  }

  /** An address that holds none of the asset reads as zero. */
  lemma AbsentAssetReadsZero(client: BitcoinReader.Client, asset: Asset, wallet: PrivateWallet, attempt: nat,
                             sum: BitcoinReader.BalanceSummary)
    requires Answers(client, asset, wallet, attempt, sum)
    requires forall m :: m in sum.assets ==> m.assetId != AssetIdOf(client.network, asset).value
    ensures ReadBalanceSpec(client, asset, wallet, attempt) == Done(WalletBalance(wallet.walletAddress, 0.0))
  {
    BitcoinReader.AbsentAssetIsZero(sum.assets, AssetIdOf(client.network, asset).value);
  }

  /** An asset held in one entry reads as that entry's quantity times the multiplier. */
  lemma SingleEntryReadsItsQuantity(client: BitcoinReader.Client, asset: Asset, wallet: PrivateWallet, attempt: nat,
                                    sum: BitcoinReader.BalanceSummary, k: nat)
    requires Answers(client, asset, wallet, attempt, sum)
    requires k < |sum.assets| && sum.assets[k].assetId == AssetIdOf(client.network, asset).value
    requires forall j :: 0 <= j < |sum.assets| && j != k ==> sum.assets[j].assetId != AssetIdOf(client.network, asset).value
    ensures ReadBalanceSpec(client, asset, wallet, attempt)
            == Done(WalletBalance(wallet.walletAddress, Scaled(sum.assets[k].quantity, asset)))
  {
    var id := AssetIdOf(client.network, asset).value;
    BitcoinReader.SingleAssetIsItsQuantity(sum.assets, id, k);
    assert BitcoinReader.AssetQuantity(sum.assets, id) == Ok(sum.assets[k].quantity);
    assert ReadBalanceSpec(client, asset, wallet, attempt).Done?;
    assert ReadBalanceSpec(client, asset, wallet, attempt).value.amount == Scaled(sum.assets[k].quantity, asset);
  }

  /** Two entries for the asset make `SingleOrDefault` throw, which is not retried. */
  lemma DuplicateEntriesFail(client: BitcoinReader.Client, asset: Asset, wallet: PrivateWallet, attempt: nat,
                             sum: BitcoinReader.BalanceSummary, i: nat, j: nat)
    requires Answers(client, asset, wallet, attempt, sum)
    requires i < j < |sum.assets|
    requires sum.assets[i].assetId == AssetIdOf(client.network, asset).value
    requires sum.assets[j].assetId == AssetIdOf(client.network, asset).value
    ensures ReadBalanceSpec(client, asset, wallet, attempt).Failed?
  {
    var id := AssetIdOf(client.network, asset).value;
    var s := sum.assets;
    var p := (m: BitcoinReader.AssetMoney) => m.assetId == id;
    assert s == s[..j] + s[j..];
    FilterAppend(p, s[..j], s[j..]);
    FilterMembers(p, s[..j]);
    FilterMembers(p, s[j..]);
    assert s[..j][i] == s[i] && s[i] in Filter(p, s[..j]);
    assert s[j..][0] == s[j] && s[j] in Filter(p, s[j..]);
  }

  /** `ReadBalance`: the asset id and the address are parsed before the indexer is
      asked; only the indexer's failure is turned into a request to retry. */
  method ReadBalance(client: BitcoinReader.Client, asset: Asset, wallet: PrivateWallet, attempt: nat)
    returns (r: Outcome<WalletBalance>)
    ensures r == ReadBalanceSpec(client, asset, wallet, attempt)
  {
    var btcAssetId := AssetIdOf(client.network, asset);
    if btcAssetId.Err? {
      return Failed(btcAssetId.error);
    }
    var btcAddress := client.network.parsePlain(wallet.walletAddress);
    if btcAddress.None? {
      return Failed("Invalid address format " + wallet.walletAddress);
    }
    var sum := client.indexer(btcAddress.value, attempt);
    if sum.None? {
      return RetryNeeded("GetBalanceSummary failed for " + btcAddress.value);
    }
    var quantity := BitcoinReader.AssetQuantity(sum.value.assets, btcAssetId.value);
    if quantity.Err? {
      return Failed(quantity.error);
    }
    return Done(WalletBalance(wallet.walletAddress, Scaled(quantity.value, asset)));
  }

  function ReadAction(client: BitcoinReader.Client, asset: Asset, wallet: PrivateWallet): nat -> Outcome<WalletBalance>
  {
    (attempt: nat) => ReadBalanceSpec(client, asset, wallet, attempt)
  }

  /** One invocation of the action the retry policy wraps. */
  method ReadOnce(client: BitcoinReader.Client, asset: Asset, wallet: PrivateWallet, attempt: nat)
    returns (o: Outcome<WalletBalance>)
    ensures o == ReadAction(client, asset, wallet)(attempt)
  {
    o := ReadBalance(client, asset, wallet, attempt);
  }

  /** `retryPolicy.ExecuteAsync(() => balanceReader.ReadBalance(asset, wallet))`. */
  method ReadWithRetry(client: BitcoinReader.Client, asset: Asset, wallet: PrivateWallet)
    returns (r: Result<WalletBalance>, sleeps: seq<nat>)
    ensures r == Policy(ReadAction(client, asset, wallet), 0)
    ensures sleeps == Sleeps(ReadAction(client, asset, wallet))
  {
    ghost var action := ReadAction(client, asset, wallet);
    var attempt := 0;
    sleeps := [];
    while true
      invariant attempt <= RetryCount
      invariant RetriedBefore(action, attempt)
      invariant sleeps == Backoff(attempt)
      decreases RetryCount - attempt
    {
      var o := ReadOnce(client, asset, wallet, attempt);
      if !o.RetryNeeded? || attempt == RetryCount {
        LoopStopsAt(action, attempt, o, sleeps);
        r := Settle(o);
        return;
      }
      LoopRetries(action, attempt, o, sleeps);
      attempt := attempt + 1;
      sleeps := sleeps + [SleepBeforeRetry(attempt)];
    }
  }

  /** A successful read, retried or not, reports the wallet's own address. */
  lemma {:induction false} RetriedReadKeepsAddress(client: BitcoinReader.Client, asset: Asset, wallet: PrivateWallet,
                                                   attempt: nat)
    requires attempt <= RetryCount
    ensures Policy(ReadAction(client, asset, wallet), attempt).Ok? ==>
              Policy(ReadAction(client, asset, wallet), attempt).value.address == wallet.walletAddress
    decreases RetryCount - attempt
  {
    var action := ReadAction(client, asset, wallet);
    ReadBalanceOutcomes(client, asset, wallet, attempt);
    if action(attempt).RetryNeeded? && attempt < RetryCount {
      RetriedReadKeepsAddress(client, asset, wallet, attempt + 1);
    }
  }

  function NotImplementedMessage(b: Blockchain): string
  {
    "Balance reader for blockchain " + ChainName(b) + " not implemented"
  }

  /** `BalanceReaderFactory.GetBalanceReader`: only a Bitcoin asset has a reader, and
      for it the settings must name both the network and the indexer URL. */
  function GetBalanceReader(asset: Asset, settings: Option<BitcoinReader.BitcoinSettings>,
                            connect: BitcoinReader.Connect): (r: Result<BitcoinReader.Client>)
    ensures r.Ok? <==> asset.blockchain == Bitcoin && settings.Some? && settings.value.network.Some?
                       && settings.value.ninjaUrl.Some?
    ensures asset.blockchain != Bitcoin ==> r == Err(NotImplementedMessage(asset.blockchain))
    ensures asset.blockchain == Bitcoin ==> r == BitcoinReader.Create(settings, connect)
  {
    match asset.blockchain
    case Bitcoin => BitcoinReader.Create(settings, connect)
    case _ => Err(NotImplementedMessage(asset.blockchain))
  }
}
