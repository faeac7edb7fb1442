/** The records an address can be read from, besides private wallets: bcn
    credentials, registry wallets, and the union a reader's `GetAddresses`
    overloads accept. */
module CredentialRecords {
  import opened PrivateWallets

  /** `IBcnCredentialsRecord`: a deposit address the exchange generated for one asset. */
  datatype BcnCredentialsRecord = BcnCredentialsRecord(
    address: string,
    assetId: string,
    clientId: string,
    assetAddress: string)

  /** `BlockchainWalletResponse` of the blockchain-wallets registry. */
  datatype BlockchainWallet = BlockchainWallet(address: string)

  /** The argument of the four `GetAddresses` overloads. */
  datatype WalletRecord =
    | PrivateRecord(wallet: PrivateWallet)
    | LegacyRecord(creds: WalletCredentials)
    | BcnRecord(bcn: BcnCredentialsRecord)
    | RegistryRecord(entry: BlockchainWallet)
}
