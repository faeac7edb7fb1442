/** The user-wallet balance report (`Program` of the user tool): for each client,
    gather the addresses of its private or deposit wallets for every balance reader,
    read each distinct address of each reader with retries, and append the balances
    to the result file and the failed reads to the error file. */
module UserReport {
  import opened Common
  import opened Linq
  import opened Retry
  import opened PrivateWallets
  import opened CredentialRecords
  import opened BalanceReaders
  import opened ReportOutput
  import BitcoinReader
  import EthereumReader

  /** `ToolSettings.WalletTypes`; any other value of the enumeration is kept as is. */
  datatype WalletType = PrivateWalletType | DepositWalletType | OtherWalletType(value: int)

  /** The settings the report reads (optional strings are `None` when absent). */
  datatype ToolSettings = ToolSettings(
    bitcoin: Option<BitcoinReader.BitcoinSettings>,
    ethereum: Option<EthereumReader.EthereumSettings>,
    walletType: WalletType,
    clientAccountUrl: Option<string>,
    blockchainWalletsUrl: Option<string>,
    assetId: Option<string>,
    clientPersonalInfoConnString: Option<string>,
    includeZeroBalances: bool,
    clientIdsFilePath: Option<string>)

  /** A reply of the blockchain-wallets registry to `TryGetClientWalletsAsync`. */
  datatype RegistryReply =
    | RegistryPage(wallets: seq<BlockchainWallet>, continuationToken: Option<string>)
    | RegistryNull
    | RegistryValidationError
    | RegistryFailure(error: string)

  /** Everything outside the program that a run consults, each service as the
      sequence or function of its replies. */
  datatype Environment = Environment(
    settingsFileExists: bool,
    settings: ToolSettings,
    assetsService: AssetsService,
    clientIdsFile: Result<seq<string>>,
    clientIdsPages: seq<Result<ClientIdsPage>>,
    storedWallets: StoredWallets,
    walletCredentials: string -> Result<Option<WalletCredentials>>,
    bcnCredentials: string -> Result<seq<BcnCredentialsRecord>>,
    registry: string -> seq<RegistryReply>,
    isGuid: string -> bool,
    connectBitcoin: BitcoinReader.Connect,
    connectEthereum: string -> EthereumReader.EthereumCore,
    isChecksumAddress: string -> bool)

  /** A line of the result file: client, address, amount and asset. */
  datatype ResultLine = ResultLine(clientId: string, address: string, amount: real, assetId: string)

  /** An address paired with the index of the reader that produced it. */
  type Tagged = (nat, string)

  const UnknownSwitchMessage: string := "Unknown switch"
  const ZeroBalancesMessage: string := "If AssetId is omitted, IncludeZeroBalances should be false."
  const ConnStringParam: string := "ClientPersonalInfoConnString"
  const GuidFormatMessage: string := "Guid should contain 32 digits with 4 dashes (xxxxxxxx-xxxx-xxxx-xxxx-xxxxxxxxxxxx)."

  // ---------------------------------------------------------------------------
  // Gathering the addresses of a client

  predicate IndicesBelow(tagged: seq<Tagged>, n: nat)
  {
    forall k :: 0 <= k < |tagged| ==> tagged[k].0 < n
  }

  /** `records.SelectMany(reader.GetAddresses)`. */
  function RecordsAddresses(model: ReaderModel, records: seq<WalletRecord>): seq<string>
  {
    if records == [] then []
    else RecordsAddresses(model, records[..|records| - 1]) + GetAddresses(model, records[|records| - 1])
  }

  function Tag(i: nat, addresses: seq<string>): seq<Tagged>
  {
    seq(|addresses|, k requires 0 <= k < |addresses| => (i, addresses[k]))
  }

  /** For each reader in order, the addresses it finds in all the records. */
  function ReadersAddresses(models: seq<ReaderModel>, records: seq<WalletRecord>): (tagged: seq<Tagged>)
    ensures IndicesBelow(tagged, |models|)
  {
    if models == [] then []
    else
      var n := |models| - 1;
      ReadersAddresses(models[..n], records) + Tag(n, RecordsAddresses(models[n], records))
  }

  predicate InReaderOrder(tagged: seq<Tagged>)
  {
    forall j, k :: 0 <= j < k < |tagged| ==> tagged[j].0 <= tagged[k].0
  }

  /** The addresses come reader by reader: the reader indices never decrease. */
  lemma {:induction false} ReadersAddressesInReaderOrder(models: seq<ReaderModel>, records: seq<WalletRecord>)
    ensures InReaderOrder(ReadersAddresses(models, records))
  {
    if models != [] {
      var n := |models| - 1;
      ReadersAddressesInReaderOrder(models[..n], records);
      assert |models[..n]| == n;
      ConcatInReaderOrder(ReadersAddresses(models[..n], records), Tag(n, RecordsAddresses(models[n], records)), n);
    }
  }

  lemma ConcatInReaderOrder(before: seq<Tagged>, last: seq<Tagged>, n: nat)
    requires InReaderOrder(before) && IndicesBelow(before, n)
    requires forall k :: 0 <= k < |last| ==> last[k].0 == n
    ensures InReaderOrder(before + last)
  {
    var tagged := before + last;
    forall j, k | 0 <= j < k < |tagged|
      ensures tagged[j].0 <= tagged[k].0
    {
      if k >= |before| {
        assert tagged[k] == last[k - |before|];
        if j < |before| {
          assert tagged[j] == before[j];
        } else {
          assert tagged[j] == last[j - |before|];
        }
      }
    }
  }

  /** A loop over the readers appending what each finds in the records. */
  method AddressesOfReaders(models: seq<ReaderModel>, records: seq<WalletRecord>) returns (tagged: seq<Tagged>)
    ensures tagged == ReadersAddresses(models, records)
  {
    tagged := [];
    for i := 0 to |models|
      invariant tagged == ReadersAddresses(models[..i], records)
    {
      assert models[..i + 1][..i] == models[..i];
      tagged := tagged + Tag(i, RecordsAddresses(models[i], records));
    }
    assert models[..|models|] == models;
  }

  function PrivateRecords(wallets: seq<PrivateWallet>): (records: seq<WalletRecord>)
    ensures |records| == |wallets| && forall i :: 0 <= i < |wallets| ==> records[i] == PrivateRecord(wallets[i])
  {
    seq(|wallets|, i requires 0 <= i < |wallets| => PrivateRecord(wallets[i]))
  }

  function BcnRecords(records: seq<BcnCredentialsRecord>): (r: seq<WalletRecord>)
    ensures |r| == |records| && forall i :: 0 <= i < |records| ==> r[i] == BcnRecord(records[i])
  {
    seq(|records|, i requires 0 <= i < |records| => BcnRecord(records[i]))
  }

  function RegistryRecords(wallets: seq<BlockchainWallet>): seq<WalletRecord>
  {
    seq(|wallets|, i requires 0 <= i < |wallets| => RegistryRecord(wallets[i]))
  }

  /** `GetPrivateWalletAddresses`: the connection string must be set; the legacy
      credentials are read first, then the stored wallets, merged with the default
      wallet in front. */
  function PrivateWalletAddresses(env: Environment, models: seq<ReaderModel>, clientId: string): (r: Result<seq<Tagged>>)
    ensures r.Ok? ==> IndicesBelow(r.value, |models|)
  {
    if IsNullOrEmpty(env.settings.clientPersonalInfoConnString) then Err(ConnStringParam)
    else match env.walletCredentials(clientId)
      case Err(e) => Err(e)
      case Ok(creds) =>
        match env.storedWallets(clientId)
        case Err(e) => Err(e)
        case Ok(stored) =>
          Ok(ReadersAddresses(models, PrivateRecords(AllPrivateWallets(stored, creds, DefaultWalletName))))
  }

  method GetPrivateWalletAddresses(env: Environment, models: seq<ReaderModel>, clientId: string)
    returns (r: Result<seq<Tagged>>)
    ensures r == PrivateWalletAddresses(env, models, clientId)
  {
    if IsNullOrEmpty(env.settings.clientPersonalInfoConnString) {
      return Err(ConnStringParam);
    }
    var creds := env.walletCredentials(clientId);
    if creds.Err? {
      return Err(creds.error);
    }
    var wallets := GetAllPrivateWallets(env.storedWallets, clientId, creds.value, DefaultWalletName);
    if wallets.Err? {
      return Err(wallets.error);
    }
    var tagged := AddressesOfReaders(models, PrivateRecords(wallets.value));
    return Ok(tagged);
  }

  /** `r` with `prefix` in front of its addresses. */
  function Prepend(prefix: seq<Tagged>, r: Result<seq<Tagged>>): Result<seq<Tagged>>
  {
    match r
    case Ok(tagged) => Ok(prefix + tagged)
    case Err(e) => Err(e)
  }

  /** The addresses the readers find in the wallets of one registry page. */
  function PageOf(models: seq<ReaderModel>): seq<BlockchainWallet> -> seq<Tagged>
  {
    (wallets: seq<BlockchainWallet>) => ReadersAddresses(models, RegistryRecords(wallets))
  }

  /** The registry pages from reply `k` on, `pageOf` giving the addresses found in a
      page: the client id must parse as a Guid on every request; a validation error
      or an empty reply ends the listing with what was gathered; any other failure
      propagates. */
  function Listing(pageOf: seq<BlockchainWallet> -> seq<Tagged>, isGuid: string -> bool, clientId: string,
                   replies: seq<RegistryReply>, k: nat): Result<seq<Tagged>>
    decreases |replies| - k
  {
    if !isGuid(clientId) then Err(GuidFormatMessage)
    else if k >= |replies| then Err(NoReplyMessage)
    else match replies[k]
      case RegistryFailure(e) => Err(e)
      case RegistryValidationError => Ok([])
      case RegistryNull => Ok([])
      case RegistryPage(wallets, token) =>
        if token.None? then Ok(pageOf(wallets))
        else Prepend(pageOf(wallets), Listing(pageOf, isGuid, clientId, replies, k + 1))
  }

  /** The listing only holds addresses of pages, so it keeps their reader indices. */
  lemma {:induction false} ListingBelow(pageOf: seq<BlockchainWallet> -> seq<Tagged>, n: nat, isGuid: string -> bool,
                                        clientId: string, replies: seq<RegistryReply>, k: nat)
    requires forall w :: IndicesBelow(pageOf(w), n)
    ensures Listing(pageOf, isGuid, clientId, replies, k).Ok? ==>
              IndicesBelow(Listing(pageOf, isGuid, clientId, replies, k).value, n)
    decreases |replies| - k
  {
    if isGuid(clientId) && k < |replies| && replies[k].RegistryPage? && replies[k].continuationToken.Some? {
      ListingBelow(pageOf, n, isGuid, clientId, replies, k + 1);
      var here := pageOf(replies[k].wallets);
      var rest := Listing(pageOf, isGuid, clientId, replies, k + 1);
      if rest.Ok? {
        assert IndicesBelow(here, n);
        assert Listing(pageOf, isGuid, clientId, replies, k).value == here + rest.value;
      }
    }
  }

  /** The registry pages of the readers `models`, from reply `k` on. */
  function RegistryAddresses(models: seq<ReaderModel>, isGuid: string -> bool, clientId: string,
                             replies: seq<RegistryReply>, k: nat): (r: Result<seq<Tagged>>)
    ensures r.Ok? ==> IndicesBelow(r.value, |models|)
    ensures !isGuid(clientId) ==> r == Err(GuidFormatMessage)
  {
    ListingBelow(PageOf(models), |models|, isGuid, clientId, replies, k);
    Listing(PageOf(models), isGuid, clientId, replies, k)
  }

  /** The addresses of registry pages `from` up to `to`, one after the other. */
  function ListedPages(pageOf: seq<BlockchainWallet> -> seq<Tagged>, replies: seq<RegistryReply>, from: nat, to: nat)
    : seq<Tagged>
    requires from <= to <= |replies|
    decreases (to as int) - (from as int)
  {
    if from == to then []
    else
      var here := if replies[from].RegistryPage? then pageOf(replies[from].wallets) else [];
      here + ListedPages(pageOf, replies, from + 1, to)
  }

  /** A validation error from the registry keeps everything the earlier pages gave. */
  lemma {:induction false} ValidationErrorKeepsEarlierPages(pageOf: seq<BlockchainWallet> -> seq<Tagged>,
                                                           isGuid: string -> bool, clientId: string,
                                                           replies: seq<RegistryReply>, from: nat, k: nat)
    requires isGuid(clientId)
    requires from <= k < |replies| && replies[k].RegistryValidationError?
    requires forall j :: from <= j < k ==> replies[j].RegistryPage? && replies[j].continuationToken.Some?
    ensures Listing(pageOf, isGuid, clientId, replies, from) == Ok(ListedPages(pageOf, replies, from, k))
    decreases k - from
  {
    if from < k {
      ValidationErrorKeepsEarlierPages(pageOf, isGuid, clientId, replies, from + 1, k);
      var here := pageOf(replies[from].wallets);
      assert ListedPages(pageOf, replies, from, k) == here + ListedPages(pageOf, replies, from + 1, k);
    }
  }

  /** Without a validation error, the registry is read up to the first page without a
      continuation token, and every page read is kept, in order. */
  lemma {:induction false} RegistryStopsAtNullToken(pageOf: seq<BlockchainWallet> -> seq<Tagged>,
                                                   isGuid: string -> bool, clientId: string,
                                                   replies: seq<RegistryReply>, from: nat, k: nat)
    requires isGuid(clientId)
    requires from <= k < |replies| && replies[k].RegistryPage? && replies[k].continuationToken.None?
    requires forall j :: from <= j < k ==> replies[j].RegistryPage? && replies[j].continuationToken.Some?
    ensures Listing(pageOf, isGuid, clientId, replies, from) == Ok(ListedPages(pageOf, replies, from, k + 1))
    decreases k - from
  {
    var here := pageOf(replies[from].wallets);
    if from < k {
      RegistryStopsAtNullToken(pageOf, isGuid, clientId, replies, from + 1, k);
      assert ListedPages(pageOf, replies, from, k + 1) == here + ListedPages(pageOf, replies, from + 1, k + 1);
    } else {
      assert ListedPages(pageOf, replies, from, k + 1) == here + ListedPages(pageOf, replies, from + 1, k + 1);
      assert ListedPages(pageOf, replies, from, k + 1) == here;
    }
  }

  /** `GetDepositWallets`: the connection string and the registry url must be set
      (both failures name the connection string); then the bcn credentials, the
      legacy credentials when the client has them, and the registry pages. */
  function DepositWalletAddresses(env: Environment, models: seq<ReaderModel>, clientId: string): (r: Result<seq<Tagged>>)
    ensures r.Ok? ==> IndicesBelow(r.value, |models|)
    ensures IsNullOrEmpty(env.settings.clientPersonalInfoConnString) || IsNullOrEmpty(env.settings.blockchainWalletsUrl)
            ==> r == Err(ConnStringParam)
    ensures r.Ok? ==> env.bcnCredentials(clientId).Ok? && env.walletCredentials(clientId).Ok?
                      && RegistryAddresses(models, env.isGuid, clientId, env.registry(clientId), 0).Ok?
  {
    if IsNullOrEmpty(env.settings.clientPersonalInfoConnString) then Err(ConnStringParam)
    else if IsNullOrEmpty(env.settings.blockchainWalletsUrl) then Err(ConnStringParam)
    else match env.bcnCredentials(clientId)
      case Err(e) => Err(e)
      case Ok(bcn) =>
        match env.walletCredentials(clientId)
        case Err(e) => Err(e)
        case Ok(creds) =>
          var gathered := ReadersAddresses(models, BcnRecords(bcn))
            + (if creds.Some? then ReadersAddresses(models, [LegacyRecord(creds.value)]) else []);
          Prepend(gathered, RegistryAddresses(models, env.isGuid, clientId, env.registry(clientId), 0))
  }

  /** The deposit addresses come in the order they are gathered: those of the bcn
      credentials, then those of the legacy credentials, then those of the registry
      pages. */
  lemma DepositOrder(env: Environment, models: seq<ReaderModel>, clientId: string)
    requires DepositWalletAddresses(env, models, clientId).Ok?
    ensures var creds := env.walletCredentials(clientId).value;
            DepositWalletAddresses(env, models, clientId).value
            == ReadersAddresses(models, BcnRecords(env.bcnCredentials(clientId).value))
               + (if creds.Some? then ReadersAddresses(models, [LegacyRecord(creds.value)]) else [])
               + RegistryAddresses(models, env.isGuid, clientId, env.registry(clientId), 0).value
  {
  }

  method GetDepositWallets(env: Environment, models: seq<ReaderModel>, clientId: string)
    returns (r: Result<seq<Tagged>>)
    ensures r == DepositWalletAddresses(env, models, clientId)
  {
    if IsNullOrEmpty(env.settings.clientPersonalInfoConnString) {
      return Err(ConnStringParam);
    }
    if IsNullOrEmpty(env.settings.blockchainWalletsUrl) {
      return Err(ConnStringParam);
    }
    var bcn := env.bcnCredentials(clientId);
    if bcn.Err? {
      return Err(bcn.error);
    }
    var result := AddressesOfReaders(models, BcnRecords(bcn.value));
    var creds := env.walletCredentials(clientId);
    if creds.Err? {
      return Err(creds.error);
    }
    var legacy: seq<Tagged> := [];
    if creds.value.Some? {
      legacy := AddressesOfReaders(models, [LegacyRecord(creds.value.value)]);
    }
    result := result + legacy;
    r := ListRegistry(models, env.isGuid, clientId, env.registry(clientId), result);
  }

  /** The paged listing of the registry, appending each page's addresses to `gathered`;
      a validation error ends it quietly. */
  method ListRegistry(models: seq<ReaderModel>, isGuid: string -> bool, clientId: string,
                      replies: seq<RegistryReply>, gathered: seq<Tagged>)
    returns (r: Result<seq<Tagged>>)
    ensures r == Prepend(gathered, RegistryAddresses(models, isGuid, clientId, replies, 0))
  {
    ghost var total := Prepend(gathered, RegistryAddresses(models, isGuid, clientId, replies, 0));
    var result := gathered;
    var k := 0;
    while true
      invariant k <= |replies|
      invariant total == Prepend(result, RegistryAddresses(models, isGuid, clientId, replies, k))
      decreases |replies| - k
    {
      if !isGuid(clientId) {
        return Err(GuidFormatMessage);
      }
      if k >= |replies| {
        return Err(NoReplyMessage);
      }
      match replies[k]
      case RegistryFailure(e) =>
        return Err(e);
      case RegistryValidationError =>
        assert result + [] == result;
        return Ok(result);
      case RegistryNull =>
        assert result + [] == result;
        return Ok(result);
      case RegistryPage(wallets, token) =>
        var here := AddressesOfReaders(models, RegistryRecords(wallets));
        if token.None? {
          return Ok(result + here);
        }
        ghost var rest := RegistryAddresses(models, isGuid, clientId, replies, k + 1);
        if rest.Ok? {
          AppendTwice(result, here, rest.value);
        }
        result := result + here;
        k := k + 1;
    }
  }

  /** The switch on the wallet type, evaluated for each client. */
  function ClientAddresses(env: Environment, models: seq<ReaderModel>, clientId: string): (r: Result<seq<Tagged>>)
    ensures r.Ok? ==> IndicesBelow(r.value, |models|)
    ensures env.settings.walletType.OtherWalletType? ==> r == Err(UnknownSwitchMessage)
  {
    match env.settings.walletType
    case PrivateWalletType => PrivateWalletAddresses(env, models, clientId)
    case DepositWalletType => DepositWalletAddresses(env, models, clientId)
    case OtherWalletType(_) => Err(UnknownSwitchMessage)
  }

  method GetClientAddresses(env: Environment, models: seq<ReaderModel>, clientId: string)
    returns (r: Result<seq<Tagged>>)
    ensures r == ClientAddresses(env, models, clientId)
  {
    match env.settings.walletType
    case PrivateWalletType =>
      r := GetPrivateWalletAddresses(env, models, clientId);
    case DepositWalletType =>
      r := GetDepositWallets(env, models, clientId);
    case OtherWalletType(_) =>
      r := Err(UnknownSwitchMessage);
  }

  // ---------------------------------------------------------------------------
  // What is written for an address, a reader, a client and a run

  /** A balance is written when it is not zero, or when zero balances are wanted. */
  predicate Reportable(includeZero: bool, line: ResultLine)
  {
    line.amount != 0.0 || includeZero
  }

  predicate AllReportable(includeZero: bool, lines: seq<ResultLine>)
  {
    forall k :: 0 <= k < |lines| ==> Reportable(includeZero, lines[k])
  }

  function ToLine(clientId: string, b: Balance): ResultLine
  {
    ResultLine(clientId, b.address, b.amount, b.assetId)
  }

  /** The lines written for the balances of one read. */
  function ReportedLines(clientId: string, includeZero: bool, balances: seq<Balance>): (lines: seq<ResultLine>)
    ensures AllReportable(includeZero, lines)
    ensures |lines| <= |balances|
    ensures includeZero ==> |lines| == |balances|
    ensures forall k :: 0 <= k < |lines| ==> lines[k].clientId == clientId
  {
    if balances == [] then []
    else
      var init := ReportedLines(clientId, includeZero, balances[..|balances| - 1]);
      var line := ToLine(clientId, balances[|balances| - 1]);
      if Reportable(includeZero, line) then init + [line] else init
  }

  /** A balance of the read is written exactly when it is reportable. */
  lemma {:induction false} ReportedLinesExact(clientId: string, includeZero: bool, balances: seq<Balance>, b: Balance)
    ensures ToLine(clientId, b) in ReportedLines(clientId, includeZero, balances)
            <==> b in balances && Reportable(includeZero, ToLine(clientId, b))
  {
    if balances != [] {
      var init := balances[..|balances| - 1];
      ReportedLinesExact(clientId, includeZero, init, b);
      assert balances == init + [balances[|balances| - 1]];
    }
  }

  /** A read that succeeded writes its reportable balances; one that failed writes
      a single error line naming the address. */
  function AddressOutput(clientId: string, includeZero: bool, address: string, read: Result<seq<Balance>>)
    : (r: Output<ResultLine>)
    ensures r.abort.None? && r.clients == 0
    ensures AllReportable(includeZero, r.results)
    ensures read.Err? ==> r.results == [] && r.errors == [ErrorLine(clientId, address, read.error)]
    ensures read.Ok? ==> r.errors == []
  {
    match read
    case Ok(balances) => Output(ReportedLines(clientId, includeZero, balances), [], 0, None)
    case Err(e) => Output([], [ErrorLine(clientId, address, e)], 0, None)
  }

  /** The step for one address: read it through the retry policy, then write. */
  function AddressStep(clientId: string, includeZero: bool, model: ReaderModel, related: seq<Asset>)
    : string -> Output<ResultLine>
  {
    (address: string) =>
      AddressOutput(clientId, includeZero, address, Policy(ReaderAction(model, related, address), 0))
  }

  function ReportableLine(includeZero: bool): ResultLine -> bool
  {
    (line: ResultLine) => Reportable(includeZero, line)
  }

  /** Reading an address neither aborts the run nor finishes the client, and every line
      it writes is one the report keeps. */
  lemma AddressStepQuiet(clientId: string, includeZero: bool, model: ReaderModel, related: seq<Asset>,
                         addresses: seq<string>)
    ensures var step := AddressStep(clientId, includeZero, model, related);
      forall x :: x in addresses ==> step(x).abort.None? && step(x).clients == 0
    ensures var step := AddressStep(clientId, includeZero, model, related);
      forall x, k :: x in addresses && 0 <= k < |step(x).results| ==> ReportableLine(includeZero)(step(x).results[k])
  {
    var step := AddressStep(clientId, includeZero, model, related);
    forall x | x in addresses
      ensures step(x).abort.None? && step(x).clients == 0 && AllReportable(includeZero, step(x).results)
    {
      var o := AddressOutput(clientId, includeZero, x, Policy(ReaderAction(model, related, x), 0));
      assert step(x) == o;
    }
  }

  /** One reader's addresses of a client: each distinct address is read once, and an
      address the reader cannot parse ends the run. */
  function GroupOutput(clientId: string, includeZero: bool, model: ReaderModel, related: seq<Asset>,
                       source: seq<string>): (r: Output<ResultLine>)
    ensures r.clients == 0 && AllReportable(includeZero, r.results)
    ensures r.abort == FirstFailure(CanonicalOf(model), source)
  {
    var unique := UniqueAddresses(model, source);
    var step := AddressStep(clientId, includeZero, model, related);
    GroupSteps(clientId, includeZero, model, related, unique.0, unique.1);
    Then(Fold(step, unique.0), if unique.1.Some? then Abort(unique.1.value) else NoOutput())
  }

  /** The reads of a reader's distinct addresses, followed by the abort of an address it
      could not parse, finish no client, keep only reportable lines and abort exactly
      when the parse failed. */
  lemma GroupSteps(clientId: string, includeZero: bool, model: ReaderModel, related: seq<Asset>,
                   addresses: seq<string>, failure: Option<string>)
    ensures var r := Then(Fold(AddressStep(clientId, includeZero, model, related), addresses),
                          if failure.Some? then Abort(failure.value) else NoOutput());
      r.clients == 0 && AllReportable(includeZero, r.results) && r.abort == failure
  {
    var step := AddressStep(clientId, includeZero, model, related);
    AddressStepQuiet(clientId, includeZero, model, related, addresses);
    FoldQuiet(step, addresses);
    FoldResults(step, addresses, ReportableLine(includeZero));
    var f := Fold(step, addresses);
    var tail: Output<ResultLine> := if failure.Some? then Abort(failure.value) else NoOutput();
    assert AllReportable(includeZero, f.results) by {
      forall k | 0 <= k < |f.results| ensures Reportable(includeZero, f.results[k]) {
        assert ReportableLine(includeZero)(f.results[k]);
      }
    }
    assert Then(f, tail).results == f.results + [];
  }

  /** Each address keyed by the run-time type of its reader. */
  function Keyed(models: seq<ReaderModel>, tagged: seq<Tagged>): (keyed: seq<(ReaderKind, Tagged)>)
    requires IndicesBelow(tagged, |models|)
    ensures |keyed| == |tagged|
    ensures forall k :: 0 <= k < |tagged| ==> keyed[k] == (Kind(models[tagged[k].0]), tagged[k])
  {
    seq(|tagged|, k requires 0 <= k < |tagged| => (Kind(models[tagged[k].0]), tagged[k]))
  }

  function Addresses(tagged: seq<Tagged>): seq<string>
  {
    seq(|tagged|, k requires 0 <= k < |tagged| => tagged[k].1)
  }

  /** One group of the client's addresses: the reader of its first address, the
      assets related to that reader (a failure there ends the run), then the group. */
  function GroupStepOutput(clientId: string, includeZero: bool, models: seq<ReaderModel>, assets: seq<Asset>,
                           g: (ReaderKind, seq<Tagged>)): (r: Output<ResultLine>)
    ensures r.clients == 0 && AllReportable(includeZero, r.results)
  {
    // GroupBy never yields an empty group, and every index names a reader
    if g.1 == [] || g.1[0].0 >= |models| then NoOutput()
    else
      var model := models[g.1[0].0];
      match RelatedAssets(model, assets)
      case Err(e) => Abort(e)
      case Ok(related) => GroupOutput(clientId, includeZero, model, related, Addresses(g.1))
  }

  function GroupStep(clientId: string, includeZero: bool, models: seq<ReaderModel>, assets: seq<Asset>)
    : ((ReaderKind, seq<Tagged>)) -> Output<ResultLine>
  {
    (g: (ReaderKind, seq<Tagged>)) => GroupStepOutput(clientId, includeZero, models, assets, g)
  }

  /** One client: its addresses grouped by reader type, each group in turn; the
      client counts as finished when nothing aborted. */
  function ClientOutput(env: Environment, models: seq<ReaderModel>, assets: seq<Asset>, clientId: string)
    : (r: Output<ResultLine>)
    ensures AllReportable(env.settings.includeZeroBalances, r.results)
    ensures r.clients == (if r.abort.None? then 1 else 0)
    ensures ClientAddresses(env, models, clientId).Err? ==> r == Abort(ClientAddresses(env, models, clientId).error)
  {
    match ClientAddresses(env, models, clientId)
    case Err(e) => Abort(e)
    case Ok(tagged) =>
      var includeZero := env.settings.includeZeroBalances;
      var step := GroupStep(clientId, includeZero, models, assets);
      var groups := GroupBy(Keyed(models, tagged));
      FoldNoClients(step, groups);
      FoldResults(step, groups, ReportableLine(includeZero));
      Then(Fold(step, groups), Finished())
  }

  function ClientStep(env: Environment, models: seq<ReaderModel>, assets: seq<Asset>): string -> Output<ResultLine>
  {
    (clientId: string) => ClientOutput(env, models, assets, clientId)
  }

  /** The clients of one batch, in order; when none aborts, every one is counted. */
  function ClientsOutput(env: Environment, models: seq<ReaderModel>, assets: seq<Asset>, ids: seq<string>)
    : (r: Output<ResultLine>)
    ensures AllReportable(env.settings.includeZeroBalances, r.results)
    ensures r.abort.None? ==> r.clients == |ids|
  {
    var step := ClientStep(env, models, assets);
    FoldCountsFinished(step, ids);
    FoldResults(step, ids, ReportableLine(env.settings.includeZeroBalances));
    Fold(step, ids)
  }

  /** Zero balances over all assets are refused, once the first batch of ids is in. */
  predicate ZeroCheckFails(settings: ToolSettings)
  {
    IsNullOrEmpty(settings.assetId) && settings.includeZeroBalances
  }

  /** What one page of client ids produces: its clients, in order. */
  function BatchOf(env: Environment, models: seq<ReaderModel>, assets: seq<Asset>): seq<string> -> Output<ResultLine>
  {
    (ids: seq<string>) => ClientsOutput(env, models, assets, ids)
  }

  /** `batch` produces what `ClientsOutput` says for every page of ids. */
  ghost predicate IsBatchOf(batch: seq<string> -> Output<ResultLine>, env: Environment, models: seq<ReaderModel>,
                      assets: seq<Asset>)
  {
    forall ids {:trigger ClientsOutput(env, models, assets, ids)} :: batch(ids) == ClientsOutput(env, models, assets, ids)
  }

  /** The paged loop from page `k` on, each page of ids going to `batch`: the
      client-account url must be set; each page is processed and the next is asked
      for while there is a continuation token. */
  function Pages(env: Environment, batch: seq<string> -> Output<ResultLine>, k: nat): (r: Output<ResultLine>)
    ensures env.settings.clientAccountUrl.None? ==> r == Abort(ValueCannotBeNull)
    decreases |env.clientIdsPages| - k
  {
    if env.settings.clientAccountUrl.None? then Abort(ValueCannotBeNull)
    else if k >= |env.clientIdsPages| then Abort(NoReplyMessage)
    else match env.clientIdsPages[k]
      case Err(e) => Abort(e)
      case Ok(page) =>
        if ZeroCheckFails(env.settings) then Abort(ZeroBalancesMessage)
        else
          Then(batch(page.ids), if page.continuationToken.Some? then Pages(env, batch, k + 1) else NoOutput())
  }

  /** Whatever the pages are, the paged loop writes only reportable lines when each
      page does. */
  lemma {:induction false} PagesReportable(env: Environment, batch: seq<string> -> Output<ResultLine>, k: nat)
    requires forall ids :: AllReportable(env.settings.includeZeroBalances, batch(ids).results)
    ensures AllReportable(env.settings.includeZeroBalances, Pages(env, batch, k).results)
    decreases |env.clientIdsPages| - k
  {
    if env.settings.clientAccountUrl.Some? && k < |env.clientIdsPages| && env.clientIdsPages[k].Ok?
       && env.clientIdsPages[k].value.continuationToken.Some? {
      PagesReportable(env, batch, k + 1);
    }
  }

  /** Zero balances over all assets are refused as soon as a page of ids is in,
      before any of its clients. */
  lemma PagesRefuseZeroBalances(env: Environment, batch: seq<string> -> Output<ResultLine>, k: nat)
    requires env.settings.clientAccountUrl.Some? && k < |env.clientIdsPages| && env.clientIdsPages[k].Ok?
    requires ZeroCheckFails(env.settings)
    ensures Pages(env, batch, k) == Abort(ZeroBalancesMessage)
  {
  }

  /** The paged loop asks for pages until one comes without a continuation token: it
      is the loop over the batches of ids of the pages up to that one, and the pages
      after it are never asked for. */
  lemma {:induction false} PagesStopAtNullToken(env: Environment, batch: seq<string> -> Output<ResultLine>,
                                                k: nat, n: nat)
    requires env.settings.clientAccountUrl.Some? && !ZeroCheckFails(env.settings)
    requires PagesEndAt(env.clientIdsPages, k, n)
    ensures Pages(env, batch, k) == Fold(batch, PageBatches(env.clientIdsPages, k, n))
    decreases n - k
  {
    var pages := env.clientIdsPages;
    var ids := pages[k].value.ids;
    var later := if k == n then [] else PageBatches(pages, k + 1, n);
    if k == n {
      assert Pages(env, batch, k) == Then(batch(ids), NoOutput());
      ThenNoOutput(batch(ids));
      NoOutputThen(batch(ids));
    } else {
      PagesStopAtNullToken(env, batch, k + 1, n);
      assert Pages(env, batch, k) == Then(batch(ids), Fold(batch, later));
    }
    PageBatchesCons(pages, k, n);
    FoldCons(batch, ids, later);
  }

  /** The loop over the clients: one pass over the ids file when it is given, the
      pages of the client-account service otherwise, which need the client-account
      url before any client is processed.  Zero balances over all assets are refused
      once the ids are in, before the first client. */
  function BatchOutput(env: Environment, models: seq<ReaderModel>, assets: seq<Asset>): (r: Output<ResultLine>)
    ensures AllReportable(env.settings.includeZeroBalances, r.results)
    ensures IsNullOrEmpty(env.settings.clientIdsFilePath) ==> r == Pages(env, BatchOf(env, models, assets), 0)
    ensures IsNullOrEmpty(env.settings.clientIdsFilePath) && env.settings.clientAccountUrl.None? ==>
              r == Abort(ValueCannotBeNull)
    ensures !IsNullOrEmpty(env.settings.clientIdsFilePath) && env.clientIdsFile.Err? ==>
              r == Abort(env.clientIdsFile.error)
    ensures !IsNullOrEmpty(env.settings.clientIdsFilePath) && env.clientIdsFile.Ok? ==>
              r == if ZeroCheckFails(env.settings) then Abort(ZeroBalancesMessage)
                   else ClientsOutput(env, models, assets, env.clientIdsFile.value)
  {
    if IsNullOrEmpty(env.settings.clientIdsFilePath) then
      PagesReportable(env, BatchOf(env, models, assets), 0);
      Pages(env, BatchOf(env, models, assets), 0)
    else match env.clientIdsFile
      case Err(e) => Abort(e)
      case Ok(ids) =>
        if ZeroCheckFails(env.settings) then Abort(ZeroBalancesMessage)
        else ClientsOutput(env, models, assets, ids)
  }

  /** The assets the report is about: the one named by `AssetId` (none found ends the
      run quietly), or all of them. */
  function SelectAssets(env: Environment): Result<Option<seq<Asset>>>
  {
    if !IsNullOrEmpty(env.settings.assetId) then
      match env.assetsService.get(env.settings.assetId.value)
      case Err(e) => Err(e)
      case Ok(None) => Ok(None)
      case Ok(Some(a)) => Ok(Some([a]))
    else
      match env.assetsService.getAll
      case Err(e) => Err(e)
      case Ok(all) => Ok(Some(all))
  }

  /** `Execute`: a missing settings file ends the run quietly; then the assets, the
      readers and the loop over the clients.  No zero balance is ever written unless
      zero balances were asked for. */
  function RunOutput(env: Environment): (r: Output<ResultLine>)
    ensures AllReportable(env.settings.includeZeroBalances, r.results)
    ensures !env.settingsFileExists ==> r == NoOutput()
    ensures env.settingsFileExists && SelectAssets(env) == Ok(None) ==> r == NoOutput()
    ensures env.settingsFileExists && SelectAssets(env).Err? ==> r == Abort(SelectAssets(env).error)
  {
    var s := env.settings;
    if !env.settingsFileExists then NoOutput()
    else match SelectAssets(env)
      case Err(e) => Abort(e)
      case Ok(None) => NoOutput()
      case Ok(Some(assets)) =>
        match ExpectedReaders(env.assetsService, s.bitcoin, s.ethereum, env.connectBitcoin, env.connectEthereum,
                              env.isChecksumAddress)
        case Err(e) => Abort(e)
        case Ok(models) => BatchOutput(env, models, assets)
  }

  // ---------------------------------------------------------------------------
  // Properties of a run

  /** Asking for zero balances over all assets ends the run before any client is
      processed, whichever way the ids are obtained. */
  lemma ZeroBalancesNeedAnAsset(env: Environment)
    requires env.settingsFileExists && ZeroCheckFails(env.settings)
    ensures RunOutput(env).results == [] && RunOutput(env).errors == [] && RunOutput(env).clients == 0
    ensures RunOutput(env).abort.Some? || SelectAssets(env) == Ok(None)
  {
  }

  /** An unknown wallet type is only noticed when there is a client: an empty batch
      goes through, a non-empty one aborts at its first client with nothing written. */
  lemma {:induction false} UnknownWalletTypeAbortsAtFirstClient(env: Environment, models: seq<ReaderModel>,
                                                               assets: seq<Asset>, ids: seq<string>)
    requires env.settings.walletType.OtherWalletType?
    ensures ids == [] ==> ClientsOutput(env, models, assets, ids) == NoOutput()
    ensures ids != [] ==> ClientsOutput(env, models, assets, ids) == Abort(UnknownSwitchMessage)
  {
    if ids != [] {
      var step := ClientStep(env, models, assets);
      var init := ids[..|ids| - 1];
      UnknownWalletTypeAbortsAtFirstClient(env, models, assets, init);
      assert Fold(step, ids) == Then(Fold(step, init), step(ids[|ids| - 1]));
    }
  }

  // ---------------------------------------------------------------------------
  // The run, step by step

  /** Writes what one read of an address produced. */
  method WriteRead(files: ReportFiles<ResultLine>, clientId: string, includeZero: bool, address: string,
                   read: Result<seq<Balance>>)
    modifies files
    ensures var out := AddressOutput(clientId, includeZero, address, read);
            files.results == old(files.results) + out.results && files.errors == old(files.errors) + out.errors
  {
    if read.Err? {
      files.AppendError(ErrorLine(clientId, address, read.error));
      return;
    }
    var balances := read.value;
    for i := 0 to |balances|
      invariant files.results == old(files.results) + ReportedLines(clientId, includeZero, balances[..i])
      invariant files.errors == old(files.errors)
    {
      assert balances[..i + 1][..i] == balances[..i];
      var line := ToLine(clientId, balances[i]);
      if Reportable(includeZero, line) {
        files.AppendResult(line);
      }
    }
    assert balances[..|balances|] == balances;
    assert files.errors == old(files.errors) + [];
  }

  /** One address: read through the retry policy, then written. */
  method ProcessAddress(files: ReportFiles<ResultLine>, clientId: string, includeZero: bool, reader: BalanceReader,
                        related: seq<Asset>, address: string)
    modifies files
    ensures var out := AddressStep(clientId, includeZero, Model(reader), related)(address);
            files.results == old(files.results) + out.results && files.errors == old(files.errors) + out.errors
  {
    var read, _ := ReadWithRetry(reader, related, address);
    WriteRead(files, clientId, includeZero, address, read);
  }

  /** The loop over `SelectUniqueAddresses`, consumed lazily: each address is mapped
      and compared with those already seen as the loop reaches it, so the addresses
      before an unparsable one are read before the run aborts. */
  method ProcessGroup(files: ReportFiles<ResultLine>, clientId: string, includeZero: bool, reader: BalanceReader,
                      related: seq<Asset>, source: seq<string>)
    returns (abort: Option<string>)
    modifies files
    ensures var out := GroupOutput(clientId, includeZero, Model(reader), related, source);
            && files.results == old(files.results) + out.results
            && files.errors == old(files.errors) + out.errors
            && abort == out.abort
  {
    ghost var f := CanonicalOf(Model(reader));
    ghost var step := AddressStep(clientId, includeZero, Model(reader), related);
    var seen: seq<string> := [];
    for i := 0 to |source|
      invariant FirstFailure(f, source[..i]).None?
      invariant seen == Distinct(Images(f, source[..i]))
      invariant Fold(step, seen).abort.None?
      invariant files.results == old(files.results) + Fold(step, seen).results
      invariant files.errors == old(files.errors) + Fold(step, seen).errors
    {
      var failure;
      seen, failure := ConsumeAddress(files, clientId, includeZero, reader, related, source, i, seen,
                                      old(files.results), old(files.errors));
      if failure.Some? {
        ThenAbort(Fold(step, seen), failure.value);
        return failure;
      }
    }
    assert source[..|source|] == source;
    assert UniqueAddresses(Model(reader), source) == (seen, None);
    ThenNoOutput(Fold(step, seen));
    return None;
  }

  /** One turn of the loop over `SelectUniqueAddresses`: the `i`-th address is mapped;
      a failure ends the enumeration, an address not seen before is processed. */
  method ConsumeAddress(files: ReportFiles<ResultLine>, clientId: string, includeZero: bool, reader: BalanceReader,
                        related: seq<Asset>, source: seq<string>, i: nat, seen0: seq<string>,
                        ghost results0: seq<ResultLine>, ghost errors0: seq<ErrorLine>)
    returns (seen: seq<string>, failure: Option<string>)
    requires i < |source|
    requires FirstFailure(CanonicalOf(Model(reader)), source[..i]).None?
    requires seen0 == Distinct(Images(CanonicalOf(Model(reader)), source[..i]))
    requires var acc := Fold(AddressStep(clientId, includeZero, Model(reader), related), seen0);
             acc.abort.None? && files.results == results0 + acc.results && files.errors == errors0 + acc.errors
    modifies files
    ensures failure.Some? ==> UniqueAddresses(Model(reader), source) == (seen0, failure) && seen == seen0
    ensures failure.Some? ==> files.results == old(files.results) && files.errors == old(files.errors)
    ensures failure.None? ==> FirstFailure(CanonicalOf(Model(reader)), source[..i + 1]).None?
    ensures failure.None? ==> seen == Distinct(Images(CanonicalOf(Model(reader)), source[..i + 1]))
    ensures failure.None? ==>
              var acc := Fold(AddressStep(clientId, includeZero, Model(reader), related), seen);
              acc.abort.None? && files.results == results0 + acc.results && files.errors == errors0 + acc.errors
  {
    var f := CanonicalOf(Model(reader));
    var c := f(source[i]);
    if c.Err? {
      FailureEndsImages(f, source, i);
      return seen0, Some(c.error);
    }
    DistinctImagesSnoc(f, source, i);
    seen := ProcessIfNew(files, clientId, includeZero, reader, related, seen0, c.value, results0, errors0);
    return seen, None;
  }

  /** An address met for the first time is processed and remembered; a repeat is
      skipped. */
  method ProcessIfNew(files: ReportFiles<ResultLine>, clientId: string, includeZero: bool, reader: BalanceReader,
                      related: seq<Asset>, seen0: seq<string>, address: string,
                      ghost results0: seq<ResultLine>, ghost errors0: seq<ErrorLine>)
    returns (seen: seq<string>)
    requires var acc := Fold(AddressStep(clientId, includeZero, Model(reader), related), seen0);
             acc.abort.None? && files.results == results0 + acc.results && files.errors == errors0 + acc.errors
    modifies files
    ensures seen == if address in seen0 then seen0 else seen0 + [address]
    ensures var acc := Fold(AddressStep(clientId, includeZero, Model(reader), related), seen);
            acc.abort.None? && files.results == results0 + acc.results && files.errors == errors0 + acc.errors
  {
    ghost var step := AddressStep(clientId, includeZero, Model(reader), related);
    seen := seen0;
    if address !in seen0 {
      ghost var before := Fold(step, seen0);
      ProcessAddress(files, clientId, includeZero, reader, related, address);
      FoldSnoc(step, seen0, address);
      AppendTwice(results0, before.results, step(address).results);
      AppendTwice(errors0, before.errors, step(address).errors);
      seen := seen0 + [address];
    }
  }

  /** What the related-assets cache holds: for each reader type seen so far, the
      related assets of the reader of that type. */
  predicate CacheHolds(models: seq<ReaderModel>, assets: seq<Asset>, cache: map<ReaderKind, seq<Asset>>)
  {
    forall i :: 0 <= i < |models| && Kind(models[i]) in cache ==> RelatedAssets(models[i], assets) == Ok(cache[Kind(models[i])])
  }

  /** One group of a client's addresses: the related assets of its reader, taken
      from the cache or asked for and cached, then the group's addresses. */
  method ProcessGroupOf(files: ReportFiles<ResultLine>, readers: seq<BalanceReader>, assets: seq<Asset>,
                        clientId: string, includeZero: bool, g: (ReaderKind, seq<Tagged>),
                        cache0: map<ReaderKind, seq<Asset>>)
    returns (abort: Option<string>, cache: map<ReaderKind, seq<Asset>>)
    requires DistinctKinds(Models(readers)) && ReadersValid(readers)
    requires CacheHolds(Models(readers), assets, cache0)
    modifies files, Objects(readers)
    ensures ReadersValid(readers) && CacheHolds(Models(readers), assets, cache)
    ensures var out := GroupStepOutput(clientId, includeZero, Models(readers), assets, g);
            && files.results == old(files.results) + out.results
            && files.errors == old(files.errors) + out.errors
            && abort == out.abort
  {
    cache := cache0;
    if g.1 == [] || g.1[0].0 >= |readers| {
      assert files.results == old(files.results) + [];
      assert files.errors == old(files.errors) + [];
      return None, cache;
    }
    var related;
    related, cache := GetRelated(readers, g.1[0].0, assets, cache);
    if related.Err? {
      assert files.results == old(files.results) + [];
      assert files.errors == old(files.errors) + [];
      return Some(related.error), cache;
    }
    abort := ProcessGroup(files, clientId, includeZero, readers[g.1[0].0], related.value, Addresses(g.1));
  }

  /** `relatedAssetsDictionary.GetOrAdd`: the related assets of a reader's type, asked
      of the reader the first time that type is met. */
  method GetRelated(readers: seq<BalanceReader>, idx: nat, assets: seq<Asset>, cache0: map<ReaderKind, seq<Asset>>)
    returns (r: Result<seq<Asset>>, cache: map<ReaderKind, seq<Asset>>)
    requires idx < |readers|
    requires DistinctKinds(Models(readers)) && ReadersValid(readers)
    requires CacheHolds(Models(readers), assets, cache0)
    modifies Objects(readers)
    ensures ReadersValid(readers) && CacheHolds(Models(readers), assets, cache)
    ensures r == RelatedAssets(Model(readers[idx]), assets)
    ensures Kind(Model(readers[idx])) in cache0 ==> cache == cache0 && unchanged(Objects(readers))
    ensures Kind(Model(readers[idx])) !in cache0 ==>
              cache == if r.Ok? then cache0[Kind(Model(readers[idx])) := r.value] else cache0
  {
    var reader := readers[idx];
    var kind := Kind(Model(reader));
    cache := cache0;
    if kind in cache {
      return Ok(cache[kind]), cache;
    }
    assert reader.EthereumBalanceReader? ==> reader.eth in Objects(readers);
    r := SelectRelated(reader, assets);
    if r.Ok? {
      cache := cache[kind := r.value];
    }
  }

  /** One client, with the related-assets cache shared by all clients. */
  method ProcessClient(files: ReportFiles<ResultLine>, env: Environment, readers: seq<BalanceReader>,
                       assets: seq<Asset>, clientId: string, cache0: map<ReaderKind, seq<Asset>>)
    returns (abort: Option<string>, cache: map<ReaderKind, seq<Asset>>)
    requires DistinctKinds(Models(readers)) && ReadersValid(readers)
    requires CacheHolds(Models(readers), assets, cache0)
    modifies files, Objects(readers)
    ensures ReadersValid(readers) && CacheHolds(Models(readers), assets, cache)
    ensures var out := ClientOutput(env, Models(readers), assets, clientId);
            && files.results == old(files.results) + out.results
            && files.errors == old(files.errors) + out.errors
            && abort == out.abort
  {
    var models := Models(readers);
    cache := cache0;
    var addresses := GetClientAddresses(env, models, clientId);
    if addresses.Err? {
      assert files.results == old(files.results) + [];
      assert files.errors == old(files.errors) + [];
      return Some(addresses.error), cache;
    }
    var includeZero := env.settings.includeZeroBalances;
    var groups := GroupBy(Keyed(models, addresses.value));
    abort, cache := ProcessGroups(files, readers, assets, clientId, includeZero, groups, cache);
    ghost var all := Fold(GroupStep(clientId, includeZero, models, assets), groups);
    assert ClientOutput(env, models, assets, clientId) == Then(all, Finished());
    if abort.None? {
      assert all.results + [] == all.results;
      assert all.errors + [] == all.errors;
    }
  }

  /** The loop over the groups of a client's addresses. */
  method ProcessGroups(files: ReportFiles<ResultLine>, readers: seq<BalanceReader>, assets: seq<Asset>,
                       clientId: string, includeZero: bool, groups: seq<(ReaderKind, seq<Tagged>)>,
                       cache0: map<ReaderKind, seq<Asset>>)
    returns (abort: Option<string>, cache: map<ReaderKind, seq<Asset>>)
    requires DistinctKinds(Models(readers)) && ReadersValid(readers)
    requires CacheHolds(Models(readers), assets, cache0)
    modifies files, Objects(readers)
    ensures ReadersValid(readers) && CacheHolds(Models(readers), assets, cache)
    ensures var out := Fold(GroupStep(clientId, includeZero, Models(readers), assets), groups);
            && files.results == old(files.results) + out.results
            && files.errors == old(files.errors) + out.errors
            && abort == out.abort
  {
    ghost var models := Models(readers);
    ghost var step := GroupStep(clientId, includeZero, models, assets);
    cache := cache0;
    for gi := 0 to |groups|
      invariant Fold(step, groups[..gi]).abort.None?
      invariant files.results == old(files.results) + Fold(step, groups[..gi]).results
      invariant files.errors == old(files.errors) + Fold(step, groups[..gi]).errors
      invariant ReadersValid(readers) && CacheHolds(models, assets, cache)
    {
      FoldStep(step, groups, gi);
      ghost var before := Fold(step, groups[..gi]);
      ghost var results0, errors0 := files.results, files.errors;
      var a;
      a, cache := ProcessGroupOf(files, readers, assets, clientId, includeZero, groups[gi], cache);
      ghost var out := step(groups[gi]);
      assert files.results == results0 + out.results;
      AppendTwice(old(files.results), before.results, out.results);
      assert files.errors == errors0 + out.errors;
      AppendTwice(old(files.errors), before.errors, out.errors);
      if a.Some? {
        FoldAbortFinal(step, groups, gi + 1);
        return a, cache;
      }
    }
    assert groups[..|groups|] == groups;
    return None, cache;
  }

  /** One batch of client ids, counting the clients finished. */
  method ProcessClients(files: ReportFiles<ResultLine>, env: Environment, readers: seq<BalanceReader>,
                        assets: seq<Asset>, ids: seq<string>, cache0: map<ReaderKind, seq<Asset>>)
    returns (abort: Option<string>, counter: nat, cache: map<ReaderKind, seq<Asset>>)
    requires DistinctKinds(Models(readers)) && ReadersValid(readers)
    requires CacheHolds(Models(readers), assets, cache0)
    modifies files, Objects(readers)
    ensures ReadersValid(readers) && CacheHolds(Models(readers), assets, cache)
    ensures var out := ClientsOutput(env, Models(readers), assets, ids);
            && files.results == old(files.results) + out.results
            && files.errors == old(files.errors) + out.errors
            && abort == out.abort && counter == out.clients
  {
    ghost var step := ClientStep(env, Models(readers), assets);
    counter := 0;
    cache := cache0;
    for i := 0 to |ids|
      invariant Fold(step, ids[..i]).abort.None?
      invariant files.results == old(files.results) + Fold(step, ids[..i]).results
      invariant files.errors == old(files.errors) + Fold(step, ids[..i]).errors
      invariant counter == Fold(step, ids[..i]).clients
      invariant ReadersValid(readers) && CacheHolds(Models(readers), assets, cache)
    {
      FoldStep(step, ids, i);
      ghost var before := Fold(step, ids[..i]);
      ghost var results0, errors0 := files.results, files.errors;
      var a;
      a, cache := ProcessClient(files, env, readers, assets, ids[i], cache);
      ghost var out := step(ids[i]);
      assert files.results == results0 + out.results;
      AppendTwice(old(files.results), before.results, out.results);
      assert files.errors == errors0 + out.errors;
      AppendTwice(old(files.errors), before.errors, out.errors);
      if a.Some? {
        FoldAbortFinal(step, ids, i + 1);
        return a, counter, cache;
      }
      counter := counter + 1;
    }
    assert ids[..|ids|] == ids;
    return None, counter, cache;
  }

  /** `Execute`: the results and errors it appends, the exception that escapes it and
      the number of clients it finished are those `RunOutput` specifies. */
  method Execute(files: ReportFiles<ResultLine>, env: Environment) returns (abort: Option<string>, counter: nat)
    modifies files
    ensures var out := RunOutput(env);
            && files.results == old(files.results) + out.results
            && files.errors == old(files.errors) + out.errors
            && abort == out.abort && counter == out.clients
  {
    if !env.settingsFileExists {
      return None, 0;
    }
    var s := env.settings;
    var selected := LoadAssets(env);
    if selected.Err? {
      return Some(selected.error), 0;
    }
    if selected.value.None? {
      return None, 0;
    }
    var assets := selected.value.value;
    var built := GetBalanceReaders(env.assetsService, s.bitcoin, s.ethereum, env.connectBitcoin,
                                   env.connectEthereum, env.isChecksumAddress);
    if built.Err? {
      return Some(built.error), 0;
    }
    var readers := built.value;
    assert RunOutput(env) == BatchOutput(env, Models(readers), assets);
    if !IsNullOrEmpty(s.clientIdsFilePath) {
      var ids := env.clientIdsFile;
      if ids.Err? {
        return Some(ids.error), 0;
      }
      if ZeroCheckFails(s) {
        return Some(ZeroBalancesMessage), 0;
      }
      var a, n, _ := ProcessClients(files, env, readers, assets, ids.value, map[]);
      return a, n;
    }
    abort, counter := ProcessPages(files, env, readers, assets, BatchOf(env, Models(readers), assets));
  }

  /** The asset lookup at the start of `Execute`. */
  method LoadAssets(env: Environment) returns (r: Result<Option<seq<Asset>>>)
    ensures r == SelectAssets(env)
  {
    if !IsNullOrEmpty(env.settings.assetId) {
      var asset := env.assetsService.get(env.settings.assetId.value);
      if asset.Err? {
        return Err(asset.error);
      }
      if asset.value.None? {
        return Ok(None);
      }
      return Ok(Some([asset.value.value]));
    }
    var all := env.assetsService.getAll;
    if all.Err? {
      return Err(all.error);
    }
    return Ok(Some(all.value));
  }

  /** The clients of one page of ids, written after what the earlier pages wrote. */
  method ProcessPage(files: ReportFiles<ResultLine>, env: Environment, readers: seq<BalanceReader>,
                     assets: seq<Asset>, ids: seq<string>, cache0: map<ReaderKind, seq<Asset>>,
                     ghost results0: seq<ResultLine>, ghost errors0: seq<ErrorLine>, ghost acc: Output<ResultLine>)
    returns (abort: Option<string>, counter: nat, cache: map<ReaderKind, seq<Asset>>)
    requires DistinctKinds(Models(readers)) && ReadersValid(readers)
    requires CacheHolds(Models(readers), assets, cache0)
    requires acc.abort.None?
    requires files.results == results0 + acc.results && files.errors == errors0 + acc.errors
    modifies files, Objects(readers)
    ensures ReadersValid(readers) && CacheHolds(Models(readers), assets, cache)
    ensures var out := ClientsOutput(env, Models(readers), assets, ids);
            && files.results == results0 + Then(acc, out).results
            && files.errors == errors0 + Then(acc, out).errors
            && abort == out.abort && counter == out.clients
  {
    abort, counter, cache := ProcessClients(files, env, readers, assets, ids, cache0);
    ghost var out := ClientsOutput(env, Models(readers), assets, ids);
    AppendTwice(results0, acc.results, out.results);
    AppendTwice(errors0, acc.errors, out.errors);
  }

  /** Page `k` of the client-account service: the checks made before each page, then
      its clients.  `total` is the whole run, `acc` what it wrote before page `k`;
      `more` says whether the loop asks for the next page, and `acc2` is what the
      run has written once this page is done. */
  method ProcessPageAt(files: ReportFiles<ResultLine>, env: Environment, readers: seq<BalanceReader>,
                       assets: seq<Asset>, ghost batch: seq<string> -> Output<ResultLine>, k: nat,
                       cache0: map<ReaderKind, seq<Asset>>, ghost results0: seq<ResultLine>,
                       ghost errors0: seq<ErrorLine>, ghost acc: Output<ResultLine>, ghost total: Output<ResultLine>)
    returns (abort: Option<string>, more: bool, counter: nat, cache: map<ReaderKind, seq<Asset>>,
             ghost acc2: Output<ResultLine>)
    requires DistinctKinds(Models(readers)) && ReadersValid(readers)
    requires IsBatchOf(batch, env, Models(readers), assets)
    requires CacheHolds(Models(readers), assets, cache0)
    requires acc.abort.None? && total == Then(acc, Pages(env, batch, k))
    requires files.results == results0 + acc.results && files.errors == errors0 + acc.errors
    modifies files, Objects(readers)
    ensures ReadersValid(readers) && CacheHolds(Models(readers), assets, cache)
    ensures files.results == results0 + acc2.results && files.errors == errors0 + acc2.errors
    ensures abort == acc2.abort && acc2.clients == acc.clients + counter
    ensures more ==> abort.None? && k < |env.clientIdsPages| && total == Then(acc2, Pages(env, batch, k + 1))
    ensures !more ==> acc2 == total
  {
    ghost var models := Models(readers);
    var s := env.settings;
    cache := cache0;
    if s.clientAccountUrl.None? {
      ThenAbort(acc, ValueCannotBeNull);
      return Some(ValueCannotBeNull), false, 0, cache, Then(acc, Abort(ValueCannotBeNull));
    }
    if k >= |env.clientIdsPages| {
      ThenAbort(acc, NoReplyMessage);
      return Some(NoReplyMessage), false, 0, cache, Then(acc, Abort(NoReplyMessage));
    }
    var reply := env.clientIdsPages[k];
    if reply.Err? {
      ThenAbort(acc, reply.error);
      return Some(reply.error), false, 0, cache, Then(acc, Abort(reply.error));
    }
    if ZeroCheckFails(s) {
      ThenAbort(acc, ZeroBalancesMessage);
      return Some(ZeroBalancesMessage), false, 0, cache, Then(acc, Abort(ZeroBalancesMessage));
    }
    var page := reply.value;
    ghost var out := ClientsOutput(env, models, assets, page.ids);
    ghost var rest := if page.continuationToken.Some? then Pages(env, batch, k + 1) else NoOutput();
    assert Pages(env, batch, k) == Then(out, rest);
    ThenAssoc(acc, out, rest);
    abort, counter, cache := ProcessPage(files, env, readers, assets, page.ids, cache, results0, errors0, acc);
    acc2 := Then(acc, out);
    more := abort.None? && page.continuationToken.Some?;
    if abort.None? && page.continuationToken.None? {
      ThenNoOutput(acc2);
    }
  }

  /** The `do ... while (continuationToken != null)` loop over the pages of client ids. */
  method ProcessPages(files: ReportFiles<ResultLine>, env: Environment, readers: seq<BalanceReader>, assets: seq<Asset>,
                      ghost batch: seq<string> -> Output<ResultLine>)
    returns (abort: Option<string>, counter: nat)
    requires DistinctKinds(Models(readers)) && ReadersValid(readers)
    requires IsBatchOf(batch, env, Models(readers), assets)
    modifies files, Objects(readers)
    ensures var out := Pages(env, batch, 0);
            && files.results == old(files.results) + out.results
            && files.errors == old(files.errors) + out.errors
            && abort == out.abort && counter == out.clients
  {
    ghost var models := Models(readers);
    ghost var total := Pages(env, batch, 0);
    var cache: map<ReaderKind, seq<Asset>> := map[];
    ghost var acc: Output<ResultLine> := NoOutput();
    NoOutputThen(total);
    counter := 0;
    var k := 0;
    while true
      invariant k <= |env.clientIdsPages|
      invariant acc.abort.None? && counter == acc.clients
      invariant files.results == old(files.results) + acc.results
      invariant files.errors == old(files.errors) + acc.errors
      invariant total == Then(acc, Pages(env, batch, k))
      invariant ReadersValid(readers) && CacheHolds(models, assets, cache)
      decreases |env.clientIdsPages| - k
    {
      var more, n;
      ghost var acc2;
      abort, more, n, cache, acc2 := ProcessPageAt(files, env, readers, assets, batch, k, cache,
                                                   old(files.results), old(files.errors), acc, total);
      counter := counter + n;
      if !more {
        return abort, counter;
      }
      acc := acc2;
      k := k + 1;
    }
  }

  /** The command handler: with no settings path it shows its help and returns 0;
      otherwise it runs and returns 1 exactly when an exception escaped.  `Main`
      discards this value. */
  method RunCommand(files: ReportFiles<ResultLine>, env: Environment, settingsFilePath: Option<string>)
    returns (handlerResult: int)
    modifies files
    ensures IsNullOrEmpty(settingsFilePath) ==>
              handlerResult == 0 && files.results == old(files.results) && files.errors == old(files.errors)
    ensures !IsNullOrEmpty(settingsFilePath) ==>
              && handlerResult == ExitCode(RunOutput(env).abort)
              && files.results == old(files.results) + RunOutput(env).results
              && files.errors == old(files.errors) + RunOutput(env).errors
  {
    if IsNullOrEmpty(settingsFilePath) {
      return 0;
    }
    var abort, _ := Execute(files, env);
    return ExitCode(abort);
  }
}
