/** The wallet records a client owns, and the merge of the legacy default wallet
    with the stored private wallets (`PrivateWalletExt.GetAllPrivateWallets`). */
module PrivateWallets {
  import opened Common

  /** `IPrivateWallet`: a wallet the client keeps outside the exchange. */
  datatype PrivateWallet = PrivateWallet(
    clientId: string,
    walletAddress: string,
    walletName: string,
    encodedPrivateKey: Option<string>,
    blockchainType: Blockchain,
    isColdStorage: Option<bool>,
    number: Option<int>)

  /** The legacy `IWalletCredentials` record of a client, reduced to the fields the
      readers and the merge look at. */
  datatype WalletCredentials = WalletCredentials(
    clientId: string,
    address: string,
    multiSig: string,
    coloredMultiSig: string,
    ethAddress: string)

  /** `IPrivateWalletsRepository.GetStoredWallets`: the stored wallets of a client
      (null for none), or the failure of the table storage. */
  type StoredWallets = string -> Result<Option<seq<PrivateWallet>>>

  const DefaultWalletName: string := "default"

  /** The wallet synthesized from the legacy credentials: its client and address,
      the Bitcoin chain and the default name; every other field is left null. */
  function DefaultWallet(creds: WalletCredentials, defaultWalletName: string): (w: PrivateWallet)
    ensures w.clientId == creds.clientId && w.walletAddress == creds.address
    ensures w.blockchainType == Bitcoin && w.walletName == defaultWalletName
    ensures w.encodedPrivateKey.None? && w.isColdStorage.None? && w.number.None?
  {
    PrivateWallet(creds.clientId, creds.address, defaultWalletName, None, Bitcoin, None, None)
  }

  /** What the merge returns for the stored wallets `stored` (null when `None`). */
  function AllPrivateWallets(stored: Option<seq<PrivateWallet>>, walletCreds: Option<WalletCredentials>,
                             defaultWalletName: string): (wallets: seq<PrivateWallet>)
    ensures var offset := if walletCreds.Some? then 1 else 0;
            var storedCount := if stored.Some? then |stored.value| else 0;
            && |wallets| == storedCount + offset
            && (walletCreds.Some? ==> wallets[0] == DefaultWallet(walletCreds.value, defaultWalletName))
            && (stored.Some? ==> wallets[offset..] == stored.value)
            && (stored.None? ==> wallets[offset..] == [])
  {
    (if walletCreds.Some? then [DefaultWallet(walletCreds.value, defaultWalletName)] else [])
      + (if stored.Some? then stored.value else [])
  }

  /** `GetAllPrivateWallets`: the list is built in place, the default wallet first
      and then the stored wallets; a storage failure propagates. */
  method GetAllPrivateWallets(repo: StoredWallets, clientId: string, walletCreds: Option<WalletCredentials>,
                              defaultWalletName: string)
    returns (r: Result<seq<PrivateWallet>>)
    ensures repo(clientId).Err? <==> r.Err?
    ensures r.Err? ==> r.error == repo(clientId).error
    ensures r.Ok? ==> r.value == AllPrivateWallets(repo(clientId).value, walletCreds, defaultWalletName)
  {
    var stored := repo(clientId);
    if stored.Err? {
      return Err(stored.error);
    }
    var wallets: seq<PrivateWallet> := [];
    if walletCreds.Some? {
      wallets := wallets + [DefaultWallet(walletCreds.value, defaultWalletName)];
    }
    if stored.value.Some? {
      wallets := wallets + stored.value.value;
    }
    return Ok(wallets);
  }

  /** Without legacy credentials the result is exactly the stored wallets, and a
      null store reads as empty. */
  lemma NoCredentialsGivesStored(stored: Option<seq<PrivateWallet>>, defaultWalletName: string)
    ensures AllPrivateWallets(stored, None, defaultWalletName) == (if stored.Some? then stored.value else [])
  {
    var w := AllPrivateWallets(stored, None, defaultWalletName);
    assert w == w[0..];
  }

  /** Nothing is deduplicated: every stored wallet is kept even when it repeats the
      default wallet's address, so that address occurs once more than in the store. */
  lemma NoDeduplication(stored: seq<PrivateWallet>, creds: WalletCredentials, defaultWalletName: string)
    ensures var wallets := AllPrivateWallets(Some(stored), Some(creds), defaultWalletName);
            CountAddress(wallets, creds.address) == CountAddress(stored, creds.address) + 1
  {
    var wallets := AllPrivateWallets(Some(stored), Some(creds), defaultWalletName);
    assert wallets == [DefaultWallet(creds, defaultWalletName)] + stored;
    CountAddressAppend([DefaultWallet(creds, defaultWalletName)], stored, creds.address);
  }

  function CountAddress(wallets: seq<PrivateWallet>, address: string): nat
  {
    if wallets == [] then 0
    else (if wallets[0].walletAddress == address then 1 else 0) + CountAddress(wallets[1..], address)
  }

  lemma {:induction false} CountAddressAppend(a: seq<PrivateWallet>, b: seq<PrivateWallet>, address: string)
    ensures CountAddress(a + b, address) == CountAddress(a, address) + CountAddress(b, address)
  {
    if a != [] {
      CountAddressAppend(a[1..], b, address);
      assert (a + b)[1..] == a[1..] + b;
    } else {
      assert a + b == b;
    }
  }
}
