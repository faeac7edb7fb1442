/** The deposit address of a legacy credentials record for an asset
    (`WalletCredentialsExt.GetDepositAddressForAsset` of the private-wallet tool). */
module WalletCredentialsExt {
  import opened Common

  /** The private-wallet tool's `IWalletCredentials`, reduced to the address fields
      the selection returns; any of them may be null. */
  datatype DepositCredentials = DepositCredentials(
    multiSig: Option<string>,
    coloredMultiSig: Option<string>,
    solarCoinWalletAddress: Option<string>,
    chronoBankContract: Option<string>,
    quantaContract: Option<string>)

  /** Ethereum assets have no legacy deposit address; otherwise the asset id picks the
      field, with the colored multisig for every id not named. */
  function GetDepositAddressForAsset(creds: DepositCredentials, asset: Asset): (address: Option<string>)
    ensures asset.blockchain == Ethereum ==> address.None?
    ensures asset.blockchain != Ethereum && asset.id == "BTC" ==> address == creds.multiSig
    ensures asset.blockchain != Ethereum && asset.id == "SLR" ==> address == creds.solarCoinWalletAddress
    ensures asset.blockchain != Ethereum && asset.id == "TIME" ==> address == creds.chronoBankContract
    ensures asset.blockchain != Ethereum && asset.id == "QNT" ==> address == creds.quantaContract
    ensures asset.blockchain != Ethereum && asset.id !in {"BTC", "SLR", "TIME", "QNT"} ==>
              address == creds.coloredMultiSig
  {
    if asset.blockchain == Ethereum then None
    else
      match asset.id
      case "BTC" => creds.multiSig
      case "SLR" => creds.solarCoinWalletAddress
      case "TIME" => creds.chronoBankContract
      case "QNT" => creds.quantaContract
      case _ => creds.coloredMultiSig
  }

  /** The selection looks only at the asset's chain and id. */
  lemma DependsOnChainAndId(creds: DepositCredentials, a: Asset, b: Asset)
    requires a.blockchain == b.blockchain && a.id == b.id
    ensures GetDepositAddressForAsset(creds, a) == GetDepositAddressForAsset(creds, b)
  {
  }
}
