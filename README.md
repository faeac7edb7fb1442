# Lykke wallet balance reports, modelled in Dafny

Two command-line tools are modelled here, with the same shape. Each reads a list of client ids, finds the
blockchain addresses of every client, asks a blockchain indexer for the balances at those addresses, and
appends one line per balance to a result file. A failed read becomes one line in an error file.

* **UserWalletBalanceReport** reports one asset or all of them, over Bitcoin and Ethereum:
  * Bitcoin balances come from a QBitNinja indexer.
  * Ethereum balances come from an EthereumCore service.
  * The addresses are either the client's private wallets or their deposit wallets. Deposit wallets are
    Bcn credentials, legacy credentials, then the pages of the blockchain-wallets registry.
  * The addresses are grouped per balance reader, and each reader's set of related assets is computed once
    per run.
  * Each unique address is read under a Polly retry policy.
* **PrivateWalletBalanceReport** reports one asset over the Bitcoin private wallets of each client.

The model keeps the decisions these tools make, with the libraries and services around them as
parameters:

* `EthServiceHelpers`: the fixed-point conversion between on-chain integers and decimal amounts, and the
  sign of a transfer.
* `PrivateWallets`: the merge of the default wallet with the stored ones.
* `WalletCredentialsExt`: which credential field is the deposit address of an asset.
* `BitcoinReader` and `EthereumReader`: the two User-tool readers. They classify addresses, deduplicate
  them, filter related assets, and shape the balance lines from an indexer reply. The Ethereum reader is a
  class, with its once-written cache of approved token assets as a field.
* `BalanceReaders`: the reader factory of the User tool, and reading one address under the retry policy.
* `Retry`: Polly's `WaitAndRetryAsync(10, n => n seconds)` restricted to `RetryNeededException`, as a
  function of what each attempt does.
* `PrivateBitcoinReader`: the Private tool's reader and its factory. This reader's `Create` is the same
  code as the User tool's Bitcoin reader's, so `BitcoinReader.Create` stands for both.
* `ReportOutput`: the result and error files, as a class with two `seq` fields that only grow. It also
  holds `Output`, the specification of a run: the lines written, the clients counted, and the exception
  that ends the run, if any.
* `UserReport` and `PrivateReport`: the two `Execute` drivers and the value the command handler returns. Each driver is an
  imperative method proved against a function (`RunOutput`) of its environment. The environment is the
  settings plus every service as an oracle.
* `Linq`: the `Distinct`, `Where` and `GroupBy` operators the drivers and readers use.

Services are modelled as follows:

* Every service call is a function-typed field of an `Environment` or `Client` value.
* A call that can be retried takes the attempt number, so a retried call may answer differently.
* A paged service is the finite sequence of its replies. Asking for a page beyond the last reply ends the
  run with `NoReplyMessage`, the model's stand-in for a service that never answers.

## Model

| member | source | states |
|---|---|---|
| Common.Pow10Add | src/Lykke.Tools.UserWalletBalanceReport/Services/Implementations/Ethereum/EthServiceHelpers.cs:13-17 | powers of ten multiply: 10^(a+b) = 10^a · 10^b, which splits the scale 10^multiplier into 10^accuracy · 10^(multiplier−accuracy) |
| Common.Multiplier | src/Lykke.Tools.PrivateWalletBalanceReport/Services/Implementations/BitcoinBalanceReader.cs:65 | an asset's multiplier is a positive scale of at most one |
| Common.Lower | src/Lykke.Tools.UserWalletBalanceReport/Services/Implementations/Ethereum/EthServiceHelpers.cs:36-46 | lower-casing keeps the length and lower-cases each character |
| Common.LowerIdempotent | src/Lykke.Tools.UserWalletBalanceReport/Services/Implementations/Ethereum/EthServiceHelpers.cs:36-46 | lower-casing twice is lower-casing once |
| EthServiceHelpers.ConvertToContract | src/Lykke.Tools.UserWalletBalanceReport/Services/Implementations/Ethereum/EthServiceHelpers.cs:8-18 | fails with an argument error exactly when accuracy > multiplier |
| EthServiceHelpers.ConvertFromContract | src/Lykke.Tools.UserWalletBalanceReport/Services/Implementations/Ethereum/EthServiceHelpers.cs:20-32 | fails with an argument error exactly when accuracy > multiplier |
| EthServiceHelpers.TruncScale | src/Lykke.Tools.UserWalletBalanceReport/Services/Implementations/Ethereum/EthServiceHelpers.cs:13-17 | truncating amount·10^accuracy before scaling by 10^(multiplier−accuracy) lands within one unit of amount·10^multiplier, on the side of zero |
| EthServiceHelpers.ToUnitsScale | src/Lykke.Tools.UserWalletBalanceReport/Services/Implementations/Ethereum/EthServiceHelpers.cs:13-17 | the contract integer is amount·10^multiplier cut toward zero to a multiple of 10^(multiplier−accuracy) |
| EthServiceHelpers.ConvertToContractMultiple | src/Lykke.Tools.UserWalletBalanceReport/Services/Implementations/Ethereum/EthServiceHelpers.cs:13-17 | the contract integer is always a multiple of 10^(multiplier−accuracy): digits finer than the accuracy are dropped |
| EthServiceHelpers.ConvertFromContractDigits | src/Lykke.Tools.UserWalletBalanceReport/Services/Implementations/Ethereum/EthServiceHelpers.cs:25-31 | the decimal amount times 10^accuracy is the raw integer divided by 10^(multiplier−accuracy), truncated toward zero, so it has at most `accuracy` fractional digits |
| EthServiceHelpers.RoundTrip | src/Lykke.Tools.UserWalletBalanceReport/Services/Implementations/Ethereum/EthServiceHelpers.cs:8-32 | an amount with at most `accuracy` fractional digits survives ConvertToContract then ConvertFromContract unchanged |
| EthServiceHelpers.ContractRoundTrip | src/Lykke.Tools.UserWalletBalanceReport/Services/Implementations/Ethereum/EthServiceHelpers.cs:8-32 | ConvertFromContract then ConvertToContract truncates the raw integer toward zero to a multiple of 10^(multiplier−accuracy) |
| EthServiceHelpers.ContractRoundTripExact | src/Lykke.Tools.UserWalletBalanceReport/Services/Implementations/Ethereum/EthServiceHelpers.cs:8-32 | a raw integer that is already such a multiple comes back unchanged |
| EthServiceHelpers.CalculateSign | src/Lykke.Tools.UserWalletBalanceReport/Services/Implementations/Ethereum/EthServiceHelpers.cs:34-47 | the sign is −1, 0 or 1, and it is −1 exactly when `from` equals the address case-insensitively |
| EthServiceHelpers.OutgoingTakesPrecedence | src/Lykke.Tools.UserWalletBalanceReport/Services/Implementations/Ethereum/EthServiceHelpers.cs:36-40 | an outgoing transfer to itself (from = to = address) is −1, not 0 |
| EthServiceHelpers.NotOutgoingSign | src/Lykke.Tools.UserWalletBalanceReport/Services/Implementations/Ethereum/EthServiceHelpers.cs:41-46 | otherwise the sign is 0 exactly when both ends are null or from equals to case-insensitively, and 1 in every other case |
| EthServiceHelpers.SignIgnoresCase | src/Lykke.Tools.UserWalletBalanceReport/Services/Implementations/Ethereum/EthServiceHelpers.cs:34-47 | lower-casing the address and both ends does not change the sign |
| PrivateWallets.DefaultWallet | src/Lykke.Tools.UserWalletBalanceReport/Repositories/IPrivateWalletsRepository.cs:62-69 | the synthesized wallet takes client id and address from the credentials, is a Bitcoin wallet named `defaultWalletName`, and has no key, cold-storage flag or number |
| PrivateWallets.AllPrivateWallets | src/Lykke.Tools.UserWalletBalanceReport/Repositories/IPrivateWalletsRepository.cs:55-75 | length is stored count plus one when credentials exist; the default wallet comes first; the stored wallets follow unchanged and in order; a null stored list counts as empty |
| PrivateWallets.GetAllPrivateWallets | src/Lykke.Tools.UserWalletBalanceReport/Repositories/IPrivateWalletsRepository.cs:55-75 | the list-building method fails exactly when the store fails, and otherwise returns the merged list |
| PrivateWallets.NoCredentialsGivesStored | src/Lykke.Tools.UserWalletBalanceReport/Repositories/IPrivateWalletsRepository.cs:62-72 | without credentials the result is exactly the stored wallets |
| PrivateWallets.NoDeduplication | src/Lykke.Tools.UserWalletBalanceReport/Repositories/IPrivateWalletsRepository.cs:44-72 | a stored wallet at the credentials' address is kept: that address occurs once more in the result than in the store |
| PrivateWallets.CountAddressAppend | src/Lykke.Tools.UserWalletBalanceReport/Repositories/IPrivateWalletsRepository.cs:71-72 | occurrences of an address in a concatenation add up |
| WalletCredentialsExt.GetDepositAddressForAsset | src/Lykke.Tools.PrivateWalletBalanceReport/Repositories/IWalletCredentialsRepository.cs:51-71 | an Ethereum-chain asset gives no address whatever its id; otherwise BTC, SLR, TIME and QNT give MultiSig, SolarCoinWalletAddress, ChronoBankContract and QuantaContract, and every other id gives ColoredMultiSig |
| WalletCredentialsExt.DependsOnChainAndId | src/Lykke.Tools.PrivateWalletBalanceReport/Repositories/IWalletCredentialsRepository.cs:51-71 | two assets with the same chain and id give the same address |
| BitcoinReader.Create | src/Lykke.Tools.UserWalletBalanceReport/Services/Implementations/Bitcoin/BitcoinBalanceReader.cs:21-40 | the reader exists exactly when both Network and NinjaUrl are set; a missing Network is reported first |
| BitcoinReader.GetAddress | src/Lykke.Tools.UserWalletBalanceReport/Services/Implementations/Bitcoin/BitcoinBalanceReader.cs:146-160 | succeeds exactly on a plain or colored address of the network; the plain parse is preferred; a colored address maps to its underlying address; otherwise the error names the address |
| BitcoinReader.GetAddresses | src/Lykke.Tools.UserWalletBalanceReport/Services/Implementations/Bitcoin/BitcoinBalanceReader.cs:80-115 | per record variant: a private wallet or registry entry gives its own address if valid; legacy credentials give MultiSig then ColoredMultiSig, each if valid; a Bcn record is validated on Address but gives AssetAddress |
| BitcoinReader.GetAddressesAccepted | src/Lykke.Tools.UserWalletBalanceReport/Services/Implementations/Bitcoin/BitcoinBalanceReader.cs:80-115 | every address yielded for a non-Bcn record is accepted by GetAddress; a Bcn record whose Address is valid gives its AssetAddress whether or not that parses |
| BitcoinReader.SelectUniqueAddresses | src/Lykke.Tools.UserWalletBalanceReport/Services/Implementations/Bitcoin/BitcoinBalanceReader.cs:117-120 | no duplicates; an address is in the result exactly when it is the canonical form of an input that every input before it is a Bitcoin address; the error is absent exactly when every input is a Bitcoin address |
| BitcoinReader.CanonicalImages | src/Lykke.Tools.UserWalletBalanceReport/Services/Implementations/Bitcoin/BitcoinBalanceReader.cs:117-120 | the canonical addresses enumerated are exactly those of the inputs reached before the first rejected one |
| BitcoinReader.SelectUniqueAddressesPrefix | src/Lykke.Tools.UserWalletBalanceReport/Services/Implementations/Bitcoin/BitcoinBalanceReader.cs:117-120 | what a prefix of the input yields is a prefix of what the whole input yields, so addresses keep the order of first appearance |
| BitcoinReader.FirstAppearancePosition | src/Lykke.Tools.UserWalletBalanceReport/Services/Implementations/Bitcoin/BitcoinBalanceReader.cs:117-120 | the first appearance of a new canonical address puts it right after everything the earlier inputs yield |
| BitcoinReader.SameAddressReadOnce | src/Lykke.Tools.UserWalletBalanceReport/Services/Implementations/Bitcoin/BitcoinBalanceReader.cs:117-120 | two valid inputs with the same canonical address leave that address at exactly one position |
| BitcoinReader.PlainAndColoredCollapse | src/Lykke.Tools.UserWalletBalanceReport/Services/Implementations/Bitcoin/BitcoinBalanceReader.cs:117-120 | the plain and colored forms of one address collapse to a single entry in canonical form |
| BitcoinReader.InvalidAddressAborts | src/Lykke.Tools.UserWalletBalanceReport/Services/Implementations/Bitcoin/BitcoinBalanceReader.cs:117-120 | the first invalid address ends the selection with its error, after the addresses before it |
| BitcoinReader.SelectRelatedAssets | src/Lykke.Tools.UserWalletBalanceReport/Services/Implementations/Bitcoin/BitcoinBalanceReader.cs:122-145 | an asset is kept exactly when its chain asset id parses as a colored asset id or its id is BTC; at most as many as given |
| BitcoinReader.AbsentAssetIsZero | src/Lykke.Tools.UserWalletBalanceReport/Services/Implementations/Bitcoin/BitcoinBalanceReader.cs:67 | an asset missing from the spendable summary has quantity 0 |
| BitcoinReader.SingleAssetIsItsQuantity | src/Lykke.Tools.UserWalletBalanceReport/Services/Implementations/Bitcoin/BitcoinBalanceReader.cs:67 | an asset listed once has that entry's quantity |
| BitcoinReader.AssetLine | src/Lykke.Tools.UserWalletBalanceReport/Services/Implementations/Bitcoin/BitcoinBalanceReader.cs:64-70 | an asset line carries the read address and the asset's id; its amount is the quantity of the parsed asset id in the spendable summary scaled by the asset's multiplier; it fails exactly when the id does not parse or the quantity lookup fails |
| BitcoinReader.AbsentAssetLineIsZero | src/Lykke.Tools.UserWalletBalanceReport/Services/Implementations/Bitcoin/BitcoinBalanceReader.cs:64-70 | an asset the summary does not list gives a line with amount 0 under the asset's id |
| BitcoinReader.AssetLinesAbort | src/Lykke.Tools.UserWalletBalanceReport/Services/Implementations/Bitcoin/BitcoinBalanceReader.cs:64-70 | a failing asset ends the loop with its error, whatever follows |
| BitcoinReader.AssetLinesShape | src/Lykke.Tools.UserWalletBalanceReport/Services/Implementations/Bitcoin/BitcoinBalanceReader.cs:64-70 | one line per asset with a chain asset id, in input order, each that asset's `AssetLine` (read address, asset id, scaled quantity) |
| BitcoinReader.ReadBalance | src/Lykke.Tools.UserWalletBalanceReport/Services/Implementations/Bitcoin/BitcoinBalanceReader.cs:47-78 | the reading method produces exactly the specified outcome |
| BitcoinReader.ReadBalanceShape | src/Lykke.Tools.UserWalletBalanceReport/Services/Implementations/Bitcoin/BitcoinBalanceReader.cs:47-78 | a successful read gives, in order, the `AssetLine` of each asset with a chain asset id, then the BTC line of the summary (satoshis / 10^8) exactly when some asset has id BTC; all lines carry the read address |
| BitcoinReader.ReadAbsentAssetIsZero | src/Lykke.Tools.UserWalletBalanceReport/Services/Implementations/Bitcoin/BitcoinBalanceReader.cs:64-70 | in a successful read, an asset the address does not hold has a line with amount 0 |
| BitcoinReader.ReadBalanceFailures | src/Lykke.Tools.UserWalletBalanceReport/Services/Implementations/Bitcoin/BitcoinBalanceReader.cs:49-60 | an invalid address fails without retry; a failed indexer call, and only that, asks for a retry |
| EthereumReader.Subject | src/Lykke.Tools.UserWalletBalanceReport/Services/Implementations/Ethereum/EthereumBalanceReader.cs:19-22 | the text the patterns see is a prefix of the input (a trailing line feed is not matched by `$`) |
| EthereumReader.IsValidAddress | src/Lykke.Tools.UserWalletBalanceReport/Services/Implementations/Ethereum/EthereumBalanceReader.cs:209-227 | valid only if the string is an optional 0x prefix and 40 hex digits; all-lowercase and capital patterns are valid; any other well-shaped address is valid exactly when it passes the checksum |
| EthereumReader.LowercaseAccepted | src/Lykke.Tools.UserWalletBalanceReport/Services/Implementations/Ethereum/EthereumBalanceReader.cs:216-221 | 40 lowercase hex digits are valid without a checksum |
| EthereumReader.UppercaseAccepted | src/Lykke.Tools.UserWalletBalanceReport/Services/Implementations/Ethereum/EthereumBalanceReader.cs:216-221 | 40 uppercase hex digits with no prefix or a lowercase 0x are valid without a checksum |
| EthereumReader.MixedCaseUsesChecksum | src/Lykke.Tools.UserWalletBalanceReport/Services/Implementations/Ethereum/EthereumBalanceReader.cs:224-225 | digits in both cases are valid exactly when the checksum holds |
| EthereumReader.TrailingLineFeedIgnored | src/Lykke.Tools.UserWalletBalanceReport/Services/Implementations/Ethereum/EthereumBalanceReader.cs:19-22 | a single trailing line feed changes none of the three pattern matches |
| EthereumReader.GetAddresses | src/Lykke.Tools.UserWalletBalanceReport/Services/Implementations/Ethereum/EthereumBalanceReader.cs:137-167 | a private wallet or registry entry gives its own address if valid; legacy credentials are validated on EthAddress but give MultiSig; a Bcn record is validated on Address but gives AssetAddress |
| EthereumReader.GetAddressesAtMostOne | src/Lykke.Tools.UserWalletBalanceReport/Services/Implementations/Ethereum/EthereumBalanceReader.cs:137-167 | each record gives at most one address, and private and registry addresses are valid |
| EthereumReader.SelectUniqueAddresses | src/Lykke.Tools.UserWalletBalanceReport/Services/Implementations/Ethereum/EthereumBalanceReader.cs:169-172 | an exact, case-sensitive distinct: no duplicates, and the same members as the input |
| EthereumReader.GetEthAsset | src/Lykke.Tools.UserWalletBalanceReport/Services/Implementations/Ethereum/EthereumBalanceReader.cs:202-207 | the first asset whose chain asset id is ETH, or none exactly when there is no such asset |
| EthereumReader.Ids | src/Lykke.Tools.UserWalletBalanceReport/Services/Implementations/Ethereum/EthereumBalanceReader.cs:182 | the ids of the assets, position by position |
| EthereumReader.EthereumIds | src/Lykke.Tools.UserWalletBalanceReport/Services/Implementations/Ethereum/EthereumBalanceReader.cs:187 | exactly the ids of the Ethereum-chain assets |
| EthereumReader.LookupId | src/Lykke.Tools.UserWalletBalanceReport/Services/Implementations/Ethereum/EthereumBalanceReader.cs:192 | the asset found has that id, and none is found exactly when no asset has it |
| EthereumReader.KnownAssets | src/Lykke.Tools.UserWalletBalanceReport/Services/Implementations/Ethereum/EthereumBalanceReader.cs:190-194 | at most one asset per token, each from the directory |
| EthereumReader.KnownAssetsComplete | src/Lykke.Tools.UserWalletBalanceReport/Services/Implementations/Ethereum/EthereumBalanceReader.cs:190-194 | every token whose id is in the directory contributes that asset |
| EthereumReader.ApprovedTokenAssets | src/Lykke.Tools.UserWalletBalanceReport/Services/Implementations/Ethereum/EthereumBalanceReader.cs:179-200 | a failing directory fails; duplicate ids fail as the dictionary does; every approved asset comes from the directory |
| EthereumReader.ApprovedTokenAssetsShape | src/Lykke.Tools.UserWalletBalanceReport/Services/Implementations/Ethereum/EthereumBalanceReader.cs:190-197 | the approved list is the known token assets in token-list order, followed by the ETH asset when the directory has one; every known token's asset is included |
| EthereumReader.JoinPairs | src/Lykke.Tools.UserWalletBalanceReport/Services/Implementations/Ethereum/EthereumBalanceReader.cs:81-88 | the join pairs assets with tokens of the same id only |
| EthereumReader.TokenMapKeys | src/Lykke.Tools.UserWalletBalanceReport/Services/Implementations/Ethereum/EthereumBalanceReader.cs:81-88 | the contract-address map has exactly the non-empty lowercased token addresses of the pairs as keys |
| EthereumReader.TokenMapLastWins | src/Lykke.Tools.UserWalletBalanceReport/Services/Implementations/Ethereum/EthereumBalanceReader.cs:81-88 | for a repeated contract address the last pair's asset wins |
| EthereumReader.TokenLinesShape | src/Lykke.Tools.UserWalletBalanceReport/Services/Implementations/Ethereum/EthereumBalanceReader.cs:97-122 | the token lines are those of the balances whose lowercased contract address is in the map, one for one and in order; each has the read address, the amount converted from contract units with that asset's multiplier and accuracy, and that asset's id |
| EthereumReader.TokenLinesFollow | src/Lykke.Tools.UserWalletBalanceReport/Services/Implementations/Ethereum/EthereumBalanceReader.cs:97-122 | the token lines are, one for one and in order, the converted lines of the balances whose lowercased contract address is in the map |
| EthereumReader.UnmappedBalanceDropped | src/Lykke.Tools.UserWalletBalanceReport/Services/Implementations/Ethereum/EthereumBalanceReader.cs:101-116 | a balance whose lowercased contract address is not mapped adds no line |
| EthereumReader.TokenLinesAbort | src/Lykke.Tools.UserWalletBalanceReport/Services/Implementations/Ethereum/EthereumBalanceReader.cs:97-122 | a failing conversion ends the token lines with its error |
| EthereumReader.ReadBalanceShape | src/Lykke.Tools.UserWalletBalanceReport/Services/Implementations/Ethereum/EthereumBalanceReader.cs:54-135 | every line carries the read address; the lines are the token lines of the known contracts, in order, then, for a plain balance reply, the ETH line whose amount is the native balance converted with the ETH asset's multiplier and accuracy |
| EthereumReader.ReadBalanceRetries | src/Lykke.Tools.UserWalletBalanceReport/Services/Implementations/Ethereum/EthereumBalanceReader.cs:57-95 | an RPC failure or an API-exception reply asks for a retry; a failing token lookup fails without retry |
| EthereumReader.EthereumBalanceReader.constructor | src/Lykke.Tools.UserWalletBalanceReport/Services/Implementations/Ethereum/EthereumBalanceReader.cs:41-52 | a new reader holds its services and an empty cache |
| EthereumReader.EthereumBalanceReader.SelectRelatedAssets | src/Lykke.Tools.UserWalletBalanceReport/Services/Implementations/Ethereum/EthereumBalanceReader.cs:174-177 | ignores the given assets and returns the approved token assets, cached after one directory read |
| EthereumReader.EthereumBalanceReader.ReadBalance | src/Lykke.Tools.UserWalletBalanceReport/Services/Implementations/Ethereum/EthereumBalanceReader.cs:54-135 | the reading method produces exactly the specified outcome |
| EthereumReader.JoinTokens | src/Lykke.Tools.UserWalletBalanceReport/Services/Implementations/Ethereum/EthereumBalanceReader.cs:81-88 | the nested loops build exactly the map and contract-address list of the join |
| EthereumReader.JoinAsset | src/Lykke.Tools.UserWalletBalanceReport/Services/Implementations/Ethereum/EthereumBalanceReader.cs:81-88 | one asset's inner loop extends the map and the list by that asset's pairs |
| EthereumReader.JoinToken | src/Lykke.Tools.UserWalletBalanceReport/Services/Implementations/Ethereum/EthereumBalanceReader.cs:81-88 | one pair updates the map (if its address is non-empty) and the list |
| EthereumReader.ConvertTokenBalances | src/Lykke.Tools.UserWalletBalanceReport/Services/Implementations/Ethereum/EthereumBalanceReader.cs:97-122 | the token-balance loop produces exactly the specified lines |
| EthereumReader.Create | src/Lykke.Tools.UserWalletBalanceReport/Services/Implementations/Ethereum/EthereumBalanceReader.cs:29-39 | the reader exists exactly when EthereumCoreUrl is set, is new, and starts with an empty cache |
| Linq.DistinctElements | src/Lykke.Tools.UserWalletBalanceReport/Program.cs:186 | `Distinct` keeps exactly the members of its input |
| Linq.DistinctNoDuplicates | src/Lykke.Tools.UserWalletBalanceReport/Program.cs:186 | `Distinct` leaves no duplicates |
| Linq.DistinctOfNoDuplicates | src/Lykke.Tools.UserWalletBalanceReport/Program.cs:186 | `Distinct` of a duplicate-free list is that list |
| Linq.DistinctKeepsOrder | src/Lykke.Tools.UserWalletBalanceReport/Services/Implementations/Ethereum/EthereumBalanceReader.cs:169-172 | first occurrences come out in the order of the input |
| Linq.FilterMembers | src/Lykke.Tools.PrivateWalletBalanceReport/Program.cs:144 | `Where` keeps exactly the members satisfying the predicate |
| Linq.FilterAppend | src/Lykke.Tools.PrivateWalletBalanceReport/Program.cs:144 | `Where` distributes over concatenation |
| Linq.GroupByPartitions | src/Lykke.Tools.UserWalletBalanceReport/Program.cs:178 | `GroupBy` gives distinct keys and non-empty groups, and every pair appears in its key's group, in order |
| Linq.StopsAtFirstFailure | src/Lykke.Tools.UserWalletBalanceReport/Services/Implementations/Bitcoin/BitcoinBalanceReader.cs:117-120 | a lazy projection stops at the first failing element, with that element's error |
| Linq.FailureIsFinal | src/Lykke.Tools.UserWalletBalanceReport/Services/Implementations/Bitcoin/BitcoinBalanceReader.cs:117-120 | once a prefix has failed, the rest of the sequence changes nothing |
| Linq.ImagesMembers | src/Lykke.Tools.UserWalletBalanceReport/Services/Implementations/Bitcoin/BitcoinBalanceReader.cs:117-120 | a lazy projection yields exactly the values of the elements before the first failing one |
| Linq.ImagesPrefix | src/Lykke.Tools.UserWalletBalanceReport/Services/Implementations/Bitcoin/BitcoinBalanceReader.cs:117-120 | the projection of a prefix is a prefix of the projection |
| Linq.NoFailureIffAllMap | src/Lykke.Tools.UserWalletBalanceReport/Services/Implementations/Bitcoin/BitcoinBalanceReader.cs:117-120 | a lazy projection fails exactly when some element fails |
| Retry.LastAttempt | src/Lykke.Tools.UserWalletBalanceReport/Program.cs:89-94 | the last attempt is at most the tenth retry; every attempt before it asked for a retry; one before the tenth did not |
| Retry.Sleeps | src/Lykke.Tools.UserWalletBalanceReport/Program.cs:89-94 | one sleep per retry, the n-th lasting n seconds |
| Retry.PolicySettlesLast | src/Lykke.Tools.UserWalletBalanceReport/Program.cs:89-94 | the policy's result is what its last attempt did |
| Retry.SucceedsIff | src/Lykke.Tools.UserWalletBalanceReport/Program.cs:89-94 | the policy succeeds exactly when some attempt within the first eleven succeeds after only retry requests |
| Retry.OtherExceptionNotRetried | src/Lykke.Tools.UserWalletBalanceReport/Program.cs:89-94 | any other exception ends the policy at once with that exception |
| Retry.ExhaustedAfterEleven | src/Lykke.Tools.UserWalletBalanceReport/Program.cs:89-94 | eleven retry requests give up with the last one's exception after ten sleeps |
| Retry.PolicyStopsAt | src/Lykke.Tools.UserWalletBalanceReport/Program.cs:89-94 | the loop's stopping attempt is the policy's last attempt |
| Retry.LoopStopsAt | src/Lykke.Tools.PrivateWalletBalanceReport/Program.cs:94-99 | at the loop's stopping attempt the outcome and the sleeps are the policy's |
| Retry.LoopRetries | src/Lykke.Tools.PrivateWalletBalanceReport/Program.cs:94-99 | a retry step keeps the loop's record of earlier attempts and sleeps in line with the policy |
| ReportOutput.Then | src/Lykke.Tools.UserWalletBalanceReport/Program.cs:131-224 | an aborted run ignores what follows; otherwise client counts add and the later abort is kept |
| ReportOutput.ThenAssoc | src/Lykke.Tools.UserWalletBalanceReport/Program.cs:131-224 | sequencing parts of a run is associative |
| ReportOutput.ThenNoOutput | src/Lykke.Tools.UserWalletBalanceReport/Program.cs:131-224 | nothing after a run changes it |
| ReportOutput.NoOutputThen | src/Lykke.Tools.UserWalletBalanceReport/Program.cs:131-224 | nothing before a run changes it |
| ReportOutput.ThenAbort | src/Lykke.Tools.UserWalletBalanceReport/Program.cs:131-224 | an exception after a run keeps its lines and ends it |
| ReportOutput.FoldResults | src/Lykke.Tools.UserWalletBalanceReport/Program.cs:188-216 | a property of every line written per item holds for the whole loop |
| ReportOutput.FoldErrors | src/Lykke.Tools.UserWalletBalanceReport/Program.cs:188-216 | a property of every error line per item holds for the whole loop |
| ReportOutput.FoldOneLineEach | src/Lykke.Tools.PrivateWalletBalanceReport/Program.cs:140-177 | one line per item gives one line per item in the loop |
| ReportOutput.FoldClients | src/Lykke.Tools.PrivateWalletBalanceReport/Program.cs:175 | one count per client gives the number of clients |
| ReportOutput.FoldQuiet | src/Lykke.Tools.UserWalletBalanceReport/Program.cs:188-216 | items that neither count nor abort leave the loop uncounted and unaborted |
| ReportOutput.FoldNoClients | src/Lykke.Tools.UserWalletBalanceReport/Program.cs:178-216 | items that do not count leave the loop uncounted |
| ReportOutput.FoldCountsFinished | src/Lykke.Tools.UserWalletBalanceReport/Program.cs:221 | when every client counts once it finishes, a run without abort counts all clients |
| ReportOutput.ExitCode | src/Lykke.Tools.PrivateWalletBalanceReport/Program.cs:40-63 | the command handler returns 1 exactly when the run ended in an exception, and 0 otherwise |
| ReportOutput.ReportFiles.constructor | src/Lykke.Tools.PrivateWalletBalanceReport/Program.cs:118-178 | both files start empty |
| ReportOutput.ReportFiles.AppendResult | src/Lykke.Tools.PrivateWalletBalanceReport/Program.cs:154-158 | appends one result line and leaves the error file alone |
| ReportOutput.ReportFiles.AppendError | src/Lykke.Tools.PrivateWalletBalanceReport/Program.cs:166-171 | appends one error line and leaves the result file alone |
| BalanceReaders.Models | src/Lykke.Tools.UserWalletBalanceReport/Services/BalanceReaderFactory.cs:12-25 | each reader object corresponds to its value model, position by position |
| BalanceReaders.UniqueAddressesAgree | src/Lykke.Tools.UserWalletBalanceReport/Services/Implementations/Bitcoin/BitcoinBalanceReader.cs:117-120 | a reader's unique addresses are its reader's selection: canonical and failing for Bitcoin, exact and never failing for Ethereum |
| BalanceReaders.SelectRelated | src/Lykke.Tools.UserWalletBalanceReport/Program.cs:184 | asking a reader for its related assets gives the reader's selection, keeping the Ethereum reader valid |
| BalanceReaders.ReadOnce | src/Lykke.Tools.UserWalletBalanceReport/Program.cs:190-191 | one read of an address is the reader's specified outcome for that attempt |
| BalanceReaders.ReadWithRetry | src/Lykke.Tools.UserWalletBalanceReport/Program.cs:89-94 | the retry loop gives the policy's result and sleeps |
| BalanceReaders.ExpectedReaders | src/Lykke.Tools.UserWalletBalanceReport/Services/BalanceReaderFactory.cs:12-25 | at most one reader of each kind; one per configured chain; the Bitcoin reader, if any, comes first |
| BalanceReaders.GetBalanceReaders | src/Lykke.Tools.UserWalletBalanceReport/Services/BalanceReaderFactory.cs:12-25 | the factory fails as the expected readers do and otherwise builds new readers matching them |
| PrivateBitcoinReader.RelatedWallets | src/Lykke.Tools.PrivateWalletBalanceReport/Services/Implementations/BitcoinBalanceReader.cs:77-80 | a wallet is read exactly when it is a Bitcoin wallet |
| PrivateBitcoinReader.AssetIdOf | src/Lykke.Tools.PrivateWalletBalanceReport/Services/Implementations/BitcoinBalanceReader.cs:49 | the asset id is found exactly when the chain asset id is set and parses |
| PrivateBitcoinReader.ReadBalanceOutcomes | src/Lykke.Tools.PrivateWalletBalanceReport/Services/Implementations/BitcoinBalanceReader.cs:45-75 | a read keeps the wallet's address; asset-id and address parse failures are rethrown unchanged; only a failed indexer call asks for a retry |
| PrivateBitcoinReader.AbsentAssetReadsZero | src/Lykke.Tools.PrivateWalletBalanceReport/Services/Implementations/BitcoinBalanceReader.cs:65 | an asset absent from the summary reads 0 |
| PrivateBitcoinReader.SingleEntryReadsItsQuantity | src/Lykke.Tools.PrivateWalletBalanceReport/Services/Implementations/BitcoinBalanceReader.cs:65-67 | an asset listed once reads its quantity times the multiplier |
| PrivateBitcoinReader.DuplicateEntriesFail | src/Lykke.Tools.PrivateWalletBalanceReport/Services/Implementations/BitcoinBalanceReader.cs:65 | an asset listed twice fails as `SingleOrDefault` does |
| PrivateBitcoinReader.ReadBalance | src/Lykke.Tools.PrivateWalletBalanceReport/Services/Implementations/BitcoinBalanceReader.cs:45-75 | the reading method produces exactly the specified outcome |
| PrivateBitcoinReader.ReadOnce | src/Lykke.Tools.PrivateWalletBalanceReport/Program.cs:148-149 | one read is the specified outcome for that attempt |
| PrivateBitcoinReader.ReadWithRetry | src/Lykke.Tools.PrivateWalletBalanceReport/Program.cs:94-99 | the retry loop gives the policy's result and sleeps |
| PrivateBitcoinReader.RetriedReadKeepsAddress | src/Lykke.Tools.PrivateWalletBalanceReport/Services/Implementations/BitcoinBalanceReader.cs:67 | whatever attempt succeeds, the balance carries the wallet's address |
| PrivateBitcoinReader.GetBalanceReader | src/Lykke.Tools.PrivateWalletBalanceReport/Services/BalanceReaderFactory.cs:10-23 | a Bitcoin-chain asset gets the Bitcoin reader; any other chain fails naming that chain; only the chain is inspected |
| PrivateReport.WalletOutput | src/Lykke.Tools.PrivateWalletBalanceReport/Program.cs:151-172 | a read failure gives one error line with the wallet address; a balance gives one result line exactly when it is non-zero or zero balances are asked for |
| PrivateReport.WalletLines | src/Lykke.Tools.PrivateWalletBalanceReport/Program.cs:142-172 | the wallet loop writes only reportable lines, all for this client and read wallets; with zero balances asked for, one line per related wallet |
| PrivateReport.ClientRun | src/Lykke.Tools.PrivateWalletBalanceReport/Program.cs:142-175 | a client whose wallets are found counts once and writes only its own reportable lines |
| PrivateReport.ClientOutput | src/Lykke.Tools.PrivateWalletBalanceReport/Program.cs:140-177 | a client counts once unless the run aborts; its lines carry its id and read wallets; a wallet lookup failure ends the run |
| PrivateReport.ClientsOutput | src/Lykke.Tools.PrivateWalletBalanceReport/Program.cs:140-177 | lines only for the listed clients, and all of them counted when the run is not aborted |
| PrivateReport.Pages | src/Lykke.Tools.PrivateWalletBalanceReport/Program.cs:118-178 | the paged loop writes only reportable lines, and without a client-account url it ends with `ArgumentNullException` before any client |
| PrivateReport.PagesStopAtNullToken | src/Lykke.Tools.PrivateWalletBalanceReport/Program.cs:118-178 | when pages k..n arrive and only page n lacks a continuation token, the paged loop is the loop over the ids of pages k..n, one batch after another, and asks for no later page |
| PrivateReport.BatchOutput | src/Lykke.Tools.PrivateWalletBalanceReport/Program.cs:118-178 | only reportable lines; with an ids file, one pass over its ids (or its read error); without one and without a client-account url, `ArgumentNullException` before any client |
| PrivateReport.RunOutput | src/Lykke.Tools.PrivateWalletBalanceReport/Program.cs:68-181 | a run writes no zero balance unless asked for, and a missing settings file ends it with nothing written |
| PrivateReport.AssetDecidesTheRun | src/Lykke.Tools.PrivateWalletBalanceReport/Program.cs:102-112 | an asset that is not found ends the run with no output; a non-Bitcoin asset ends it with the factory's error before any client |
| PrivateReport.LegacyAddressReadAgain | src/Lykke.Tools.PrivateWalletBalanceReport/Program.cs:142-144 | with credentials and zero balances asked for, a client gets one line more than its related stored wallets: the default wallet is read too |
| PrivateReport.WriteRead | src/Lykke.Tools.PrivateWalletBalanceReport/Program.cs:151-172 | writes exactly the lines of one wallet's read |
| PrivateReport.ProcessWallet | src/Lykke.Tools.PrivateWalletBalanceReport/Program.cs:146-172 | reads one wallet under retry and writes its lines |
| PrivateReport.ProcessWallets | src/Lykke.Tools.PrivateWalletBalanceReport/Program.cs:144-173 | the wallet loop writes exactly the specified lines, in order |
| PrivateReport.ProcessClient | src/Lykke.Tools.PrivateWalletBalanceReport/Program.cs:140-176 | one client's processing writes its lines and reports its abort |
| PrivateReport.ProcessClients | src/Lykke.Tools.PrivateWalletBalanceReport/Program.cs:140-177 | the client loop writes the specified lines and counts the clients |
| PrivateReport.ProcessPage | src/Lykke.Tools.PrivateWalletBalanceReport/Program.cs:140-177 | one page appends its clients' lines after those already written |
| PrivateReport.ProcessPages | src/Lykke.Tools.PrivateWalletBalanceReport/Program.cs:118-178 | the paged loop writes exactly the specified lines and count |
| PrivateReport.Execute | src/Lykke.Tools.PrivateWalletBalanceReport/Program.cs:68-181 | the driver writes exactly the run's lines and returns its count and abort |
| PrivateReport.RunCommand | src/Lykke.Tools.PrivateWalletBalanceReport/Program.cs:40-63 | an empty argument writes nothing and the handler returns 0; otherwise the run's lines are written and the command handler returns 1 exactly on an exception |
| UserReport.ReadersAddresses | src/Lykke.Tools.UserWalletBalanceReport/Program.cs:252-257 | every address is tagged with the index of a reader |
| UserReport.ReadersAddressesInReaderOrder | src/Lykke.Tools.UserWalletBalanceReport/Program.cs:252-257 | addresses come out reader by reader, in factory order |
| UserReport.ConcatInReaderOrder | src/Lykke.Tools.UserWalletBalanceReport/Program.cs:252-257 | appending the next reader's addresses keeps the reader order |
| UserReport.AddressesOfReaders | src/Lykke.Tools.UserWalletBalanceReport/Program.cs:252-257 | the reader loop gathers exactly the tagged addresses |
| UserReport.PrivateRecords | src/Lykke.Tools.UserWalletBalanceReport/Program.cs:249-250 | one private-wallet record per merged wallet, in order |
| UserReport.BcnRecords | src/Lykke.Tools.UserWalletBalanceReport/Program.cs:292-298 | one Bcn record per credentials record, in order |
| UserReport.PrivateWalletAddresses | src/Lykke.Tools.UserWalletBalanceReport/Program.cs:229-260 | private-mode addresses are tagged with reader indices |
| UserReport.GetPrivateWalletAddresses | src/Lykke.Tools.UserWalletBalanceReport/Program.cs:229-260 | the method gathers exactly the specified private-mode addresses, failing on a missing connection string |
| UserReport.ListingBelow | src/Lykke.Tools.UserWalletBalanceReport/Program.cs:312-333 | the registry pages keep reader indices in range |
| UserReport.RegistryAddresses | src/Lykke.Tools.UserWalletBalanceReport/Program.cs:312-333 | the registry addresses are tagged with reader indices; a client id that is not a Guid fails the scan with the Guid format message |
| UserReport.RegistryStopsAtNullToken | src/Lykke.Tools.UserWalletBalanceReport/Program.cs:312-333 | the registry is read up to the first page without a continuation token, and every page read is kept in order |
| UserReport.ValidationErrorKeepsEarlierPages | src/Lykke.Tools.UserWalletBalanceReport/Program.cs:330-333 | a validation error ends the registry scan quietly, keeping the pages already read |
| UserReport.DepositWalletAddresses | src/Lykke.Tools.UserWalletBalanceReport/Program.cs:262-337 | deposit-mode addresses are tagged with reader indices; a missing connection string or registry url fails with the connection-string error; a result needs the bcn, legacy and registry lookups to have succeeded |
| UserReport.DepositOrder | src/Lykke.Tools.UserWalletBalanceReport/Program.cs:290-336 | the deposit addresses are those of the bcn credentials, then of the legacy credentials when present, then of the registry pages, in that order |
| UserReport.GetDepositWallets | src/Lykke.Tools.UserWalletBalanceReport/Program.cs:262-337 | the method gathers Bcn, then legacy, then registry addresses exactly as specified |
| UserReport.ListRegistry | src/Lykke.Tools.UserWalletBalanceReport/Program.cs:312-333 | the registry loop appends exactly the specified pages to what was gathered |
| UserReport.ClientAddresses | src/Lykke.Tools.UserWalletBalanceReport/Program.cs:158-176 | the wallet type picks private or deposit mode; any other type fails with "Unknown switch" |
| UserReport.GetClientAddresses | src/Lykke.Tools.UserWalletBalanceReport/Program.cs:158-176 | the switch produces exactly the specified addresses |
| UserReport.ReportedLines | src/Lykke.Tools.UserWalletBalanceReport/Program.cs:193-202 | only non-zero balances, or all when zero balances are asked for, become lines, each under the client's id |
| UserReport.ReportedLinesExact | src/Lykke.Tools.UserWalletBalanceReport/Program.cs:193-202 | a balance becomes a line exactly when it was read and is reportable |
| UserReport.AddressOutput | src/Lykke.Tools.UserWalletBalanceReport/Program.cs:188-216 | a read failure gives one error line with the address; a read gives only reportable result lines; neither counts a client nor aborts |
| UserReport.AddressStepQuiet | src/Lykke.Tools.UserWalletBalanceReport/Program.cs:188-216 | reading any address of a group neither counts nor aborts, and writes only reportable lines |
| UserReport.GroupOutput | src/Lykke.Tools.UserWalletBalanceReport/Program.cs:186-216 | a reader group writes only reportable lines and aborts exactly on the first address its reader cannot canonicalize |
| UserReport.GroupSteps | src/Lykke.Tools.UserWalletBalanceReport/Program.cs:186-216 | the unique addresses followed by the selection's failure abort exactly with that failure |
| UserReport.Keyed | src/Lykke.Tools.UserWalletBalanceReport/Program.cs:178 | each address is keyed by its reader's kind |
| UserReport.GroupStepOutput | src/Lykke.Tools.UserWalletBalanceReport/Program.cs:178-216 | a group writes only reportable lines and counts no client |
| UserReport.ClientOutput | src/Lykke.Tools.UserWalletBalanceReport/Program.cs:154-223 | a client writes only reportable lines and counts once unless the run aborts; a failure to list its addresses (including an unknown wallet type) ends the run with that error |
| UserReport.ClientsOutput | src/Lykke.Tools.UserWalletBalanceReport/Program.cs:154-223 | all listed clients are counted when the run is not aborted |
| UserReport.PagesReportable | src/Lykke.Tools.UserWalletBalanceReport/Program.cs:193-194 | the paged loop writes only reportable lines when each batch does |
| UserReport.Pages | src/Lykke.Tools.UserWalletBalanceReport/Program.cs:135-142 | without a client-account url the paged loop ends with `ArgumentNullException` before any client |
| UserReport.PagesRefuseZeroBalances | src/Lykke.Tools.UserWalletBalanceReport/Program.cs:139-152 | once a page of ids arrives, zero balances over all assets end the loop before any of its clients |
| UserReport.PagesStopAtNullToken | src/Lykke.Tools.UserWalletBalanceReport/Program.cs:131-224 | when pages k..n arrive and only page n lacks a continuation token, the paged loop is the loop over the ids of pages k..n, one batch after another, and asks for no later page |
| UserReport.BatchOutput | src/Lykke.Tools.UserWalletBalanceReport/Program.cs:131-224 | only reportable lines; without an ids file, the paged loop (`ArgumentNullException` first when the client-account url is missing); with one, a single pass over its ids, or its read error, or the zero-balance refusal |
| UserReport.RunOutput | src/Lykke.Tools.UserWalletBalanceReport/Program.cs:72-227 | a run writes no zero balance unless asked for; a missing settings file or an asset that is not found ends it with nothing written; an asset-service failure ends it with that error |
| UserReport.ZeroBalancesNeedAnAsset | src/Lykke.Tools.UserWalletBalanceReport/Program.cs:149-152 | zero balances over all assets end the run before any client, writing nothing |
| UserReport.UnknownWalletTypeAbortsAtFirstClient | src/Lykke.Tools.UserWalletBalanceReport/Program.cs:158-176 | an unknown wallet type ends the run at the first client |
| UserReport.WriteRead | src/Lykke.Tools.UserWalletBalanceReport/Program.cs:193-215 | writes exactly the lines of one address's read |
| UserReport.ProcessAddress | src/Lykke.Tools.UserWalletBalanceReport/Program.cs:188-216 | reads one address under retry and writes its lines |
| UserReport.ProcessGroup | src/Lykke.Tools.UserWalletBalanceReport/Program.cs:186-216 | the streaming loop over a group's addresses writes exactly the specified lines and abort |
| UserReport.ConsumeAddress | src/Lykke.Tools.UserWalletBalanceReport/Program.cs:186 | one address either ends the selection with its error, writing nothing, or extends the unique addresses read so far |
| UserReport.ProcessIfNew | src/Lykke.Tools.UserWalletBalanceReport/Program.cs:186-216 | an address already seen is skipped; a new one is read and recorded |
| UserReport.ProcessGroupOf | src/Lykke.Tools.UserWalletBalanceReport/Program.cs:178-216 | one group writes exactly its lines and keeps the related-asset cache |
| UserReport.GetRelated | src/Lykke.Tools.UserWalletBalanceReport/Program.cs:182-184 | the cache gives each reader kind its related assets; a kind already cached is answered from the cache with no reader changed, a new kind asks the reader and caches a success |
| UserReport.ProcessClient | src/Lykke.Tools.UserWalletBalanceReport/Program.cs:154-223 | one client writes exactly its lines and keeps the cache |
| UserReport.ProcessGroups | src/Lykke.Tools.UserWalletBalanceReport/Program.cs:178-217 | the group loop writes exactly the specified lines |
| UserReport.ProcessClients | src/Lykke.Tools.UserWalletBalanceReport/Program.cs:154-223 | the client loop writes the specified lines and counts the clients |
| UserReport.Execute | src/Lykke.Tools.UserWalletBalanceReport/Program.cs:72-227 | the driver writes exactly the run's lines and returns its count and abort |
| UserReport.LoadAssets | src/Lykke.Tools.UserWalletBalanceReport/Program.cs:100-121 | the asset named by AssetId, none (ending the run quietly), or all of them |
| UserReport.ProcessPage | src/Lykke.Tools.UserWalletBalanceReport/Program.cs:154-223 | one page appends its clients' lines after those already written |
| UserReport.ProcessPageAt | src/Lykke.Tools.UserWalletBalanceReport/Program.cs:131-152 | one page of the paged loop, with the zero-balance check before its clients |
| UserReport.ProcessPages | src/Lykke.Tools.UserWalletBalanceReport/Program.cs:131-224 | the paged loop writes exactly the specified lines and count |
| UserReport.RunCommand | src/Lykke.Tools.UserWalletBalanceReport/Program.cs:44-67 | an empty argument writes nothing and the handler returns 0; otherwise the run's lines are written and the command handler returns 1 exactly on an exception |

## Left out

- I/O is left out: console output, the CSV text of the lines, `DateTime.UtcNow` timestamps and the `"F"` decimal format. Lines are records, and a failed file append is not modelled. The Polly delays are recorded as a sequence of seconds, not waited.
- The network clients (QBitNinja, EthereumCore, the assets service, the client-account service, the blockchain-wallets registry) are oracles given as parameters.
- The Azure table storage behind the repositories is also an oracle. PrivateWalletsRepository.cs, BcnClientCredentialsRepository.cs and BlockchainWalletsRepository.cs are not part of this model.
- NBitcoin's Base58 and Open Assets parsing (plain address, colored address, asset id) are functions given with the network. The Keccak-based EIP-55 checksum is a predicate given to the Ethereum reader.
- The EthServiceHelpers arithmetic is exact over `int` and `real`. It does not model `Math.Pow` in `double` or the range of `decimal`.
- On-chain integer strings are `int`: `BigInteger.Parse` and `ToString` are not modelled.
- `Multiplier()` is an assets-client extension that is not part of this model. It is taken to be 10^−MultiplierPower.
- Exception messages are fixed strings. Only whether a run ends in an exception is modelled, not the exception's type.
- The User tool's Program.cs:123 passes the asset list to a factory that takes the assets service. The model gives the factory the assets service.
- Program.cs:184 calls `SelectRelatedAssets` where the readers define `SelectRelatedAssetsAsync`. The model calls the reader's operation.
- The superseded readers (Services/Implementations/BitcoinBalanceReader.cs, ColoredCoinsBtcBalanceReader.cs) and both IBalanceReader.cs interfaces are not modelled: the drivers do not use them.
- MoneyExt.cs and BlockchainTransactionsInfo.cs are not modelled. They are a money-type dispatch and an unused record.
- Settings loading (ToolSettings.cs, BitcoinSettings.cs, FileSettingsReader.cs) is not modelled. A run starts from the settings values and a flag saying whether the settings file exists.
- The `new Uri(...)` calls on the settings' service urls are not modelled: AssetServiceUrl (User Program.cs:86, Private Program.cs:82), NinjaUrl and EthereumCoreUrl. A null or malformed url throws there, and the command handler then returns 1. The model takes these urls as well-formed, apart from the null checks the reader factories make.
- `Main` discards the value the command handler returns (User Program.cs:31 and 69, Private Program.cs:27 and 65), so the process exit code is 0 whatever happens. RunCommand and ExitCode model the handler's value, not the process exit code.
- Null record fields are not modelled: every wallet and credentials address is a string. For a null address the Bitcoin checks would answer false, since they catch every exception (src/Lykke.Tools.UserWalletBalanceReport/Services/Implementations/Bitcoin/BitcoinBalanceReader.cs:162-189); the Ethereum regexes would throw.
- Common.Lower: lowers only the ASCII letters A–Z, while C# `ToLower()` is culture-aware and lowers other letters too. The addresses it is applied to are hexadecimal, where both agree.
- EthServiceHelpers.ConvertToContract: multiplier and accuracy are `nat`, while the C# parameters are `int`; a negative exponent is not modelled.
- EthServiceHelpers.ConvertFromContract: multiplier and accuracy are `nat`, while the C# parameters are `int`; a negative exponent is not modelled.
- PrivateWallets.AllPrivateWallets also stands for the wallet merge the Private tool calls at its Program.cs:142. That tool's repository file is not part of this model; the User tool's IPrivateWalletsRepository.cs:55-75 is taken to be the same code.
- The `ConcurrentDictionary` of related assets is a plain map threaded through the loop. It is used sequentially.
- A paged service that never stops answering cannot be a finite reply sequence. Running past the last reply ends the run with `NoReplyMessage` instead of looping forever.
- The registry page size of 10 is the oracle's concern. The model sees only the pages and their continuation tokens.
- The User tool evaluates the wallet-type switch per client, so an unknown type aborts at the first client, not before the loop. The model does the same.
- The zero-balance check of the User tool runs on every page and on the ids file after the ids are fetched, as in the code, not once before the loop.
- UserReport.GroupStepOutput: a group whose kind matches no reader cannot arise from GroupBy. The model returns no output there instead of failing.
- BitcoinReader.ReadBalance and EthereumReader.EthereumBalanceReader.ReadBalance are tied to a specification function. That function has no contract of its own; its properties are the ReadBalanceShape, ReadBalanceFailures and ReadBalanceRetries lemmas.
