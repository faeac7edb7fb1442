/** The private-wallet balance report (`Program` of the private-wallet tool): one
    asset, one balance reader chosen by the asset's blockchain, and for each client
    every private wallet the reader is related to, read with retries; the balances
    go to the result file and the failed reads to the error file. */
module PrivateReport {
  import opened Common
  import opened Linq
  import opened Retry
  import opened PrivateWallets
  import opened ReportOutput
  import opened PrivateBitcoinReader
  import BitcoinReader

  /** The settings the report reads (optional strings are `None` when absent). */
  datatype ToolSettings = ToolSettings(
    bitcoin: Option<BitcoinReader.BitcoinSettings>,
    clientAccountUrl: Option<string>,
    assetId: string,
    includeZeroBalances: bool,
    clientIdsFilePath: Option<string>)

  /** Everything outside the program that a run consults, each service as the
      sequence or function of its replies. */
  datatype Environment = Environment(
    settingsFileExists: bool,
    settings: ToolSettings,
    assetsService: AssetsService,
    clientIdsFile: Result<seq<string>>,
    clientIdsPages: seq<Result<ClientIdsPage>>,
    storedWallets: StoredWallets,
    walletCredentials: string -> Result<Option<WalletCredentials>>,
    connectBitcoin: BitcoinReader.Connect)

  /** A line of the result file: client, address and amount. */
  datatype ResultLine = ResultLine(clientId: string, address: string, amount: real)

  /** A balance is written when it is not zero, or when zero balances were asked for. */
  predicate Reportable(includeZero: bool, line: ResultLine)
  {
    line.amount != 0.0 || includeZero
  }

  predicate AllReportable(includeZero: bool, lines: seq<ResultLine>)
  {
    forall k :: 0 <= k < |lines| ==> Reportable(includeZero, lines[k])
  }

  function ReportableLine(includeZero: bool): ResultLine -> bool
  {
    (line: ResultLine) => Reportable(includeZero, line)
  }

  /** `address` is the address of one of `wallets` that the reader reads. */
  predicate ReadWallet(wallets: seq<PrivateWallet>, address: string)
  {
    exists w :: w in wallets && IsRelated(w) && w.walletAddress == address
  }

  function ResultOf(clientId: string, wallets: seq<PrivateWallet>): ResultLine -> bool
  {
    (line: ResultLine) => line.clientId == clientId && ReadWallet(wallets, line.address)
  }

  function ErrorOf(clientId: string, wallets: seq<PrivateWallet>): ErrorLine -> bool
  {
    (line: ErrorLine) => line.clientId == clientId && ReadWallet(wallets, line.address)
  }

  // ---------------------------------------------------------------------------
  // What a run writes

  /** One wallet: a read that succeeded writes its balance when reportable, one that
      failed writes an error line naming the wallet's address. */
  function WalletOutput(clientId: string, includeZero: bool, wallet: PrivateWallet, read: Result<WalletBalance>)
    : (r: Output<ResultLine>)
    ensures r.abort.None? && r.clients == 0
    ensures AllReportable(includeZero, r.results)
    ensures read.Err? ==> r.results == [] && r.errors == [ErrorLine(clientId, wallet.walletAddress, read.error)]
    ensures read.Ok? ==> r.errors == []
    ensures read.Ok? ==> (r.results != [] <==> read.value.amount != 0.0 || includeZero)
    ensures read.Ok? && r.results != [] ==>
              r.results == [ResultLine(clientId, read.value.address, read.value.amount)]
  {
    match read
    case Err(e) => Output([], [ErrorLine(clientId, wallet.walletAddress, e)], 0, None)
    case Ok(b) =>
      var line := ResultLine(clientId, b.address, b.amount);
      Output(if Reportable(includeZero, line) then [line] else [], [], 0, None)
  }

  /** The step for one wallet: read it through the retry policy, then write. */
  function WalletStep(client: BitcoinReader.Client, asset: Asset, clientId: string, includeZero: bool)
    : PrivateWallet -> Output<ResultLine>
  {
    (w: PrivateWallet) => WalletOutput(clientId, includeZero, w, Policy(ReadAction(client, asset, w), 0))
  }

  /** The wallets of a client: its legacy credentials are fetched first, then its
      stored wallets; a failure of either storage ends the run. */
  function ClientWallets(env: Environment, clientId: string): Result<seq<PrivateWallet>>
  {
    match env.walletCredentials(clientId)
    case Err(e) => Err(e)
    case Ok(creds) =>
      match env.storedWallets(clientId)
      case Err(e) => Err(e)
      case Ok(stored) => Ok(AllPrivateWallets(stored, creds, DefaultWalletName))
  }

  /** What the loop over a client's related wallets writes: every line is the client's
      and names one of its Bitcoin wallets; with zero balances asked for, each such
      wallet leaves exactly one line, in one file or the other. */
  lemma WalletLines(client: BitcoinReader.Client, asset: Asset, clientId: string, includeZero: bool,
                    wallets: seq<PrivateWallet>)
    ensures var out := Fold(WalletStep(client, asset, clientId, includeZero), Filter(IsRelated, wallets));
            && out.abort.None? && out.clients == 0
            && AllReportable(includeZero, out.results)
            && (forall k :: 0 <= k < |out.results| ==> ResultOf(clientId, wallets)(out.results[k]))
            && (forall k :: 0 <= k < |out.errors| ==> ErrorOf(clientId, wallets)(out.errors[k]))
            && (includeZero ==> |out.results| + |out.errors| == |Filter(IsRelated, wallets)|)
  {
    var step := WalletStep(client, asset, clientId, includeZero);
    var related := Filter(IsRelated, wallets);
    RelatedWallets(wallets);
    forall w | w in related
      ensures forall k :: 0 <= k < |step(w).results| ==> ResultOf(clientId, wallets)(step(w).results[k])
    {
      RetriedReadKeepsAddress(client, asset, w, 0);
    }
    FoldQuiet(step, related);
    FoldResults(step, related, ReportableLine(includeZero));
    FoldResults(step, related, ResultOf(clientId, wallets));
    FoldErrors(step, related, ErrorOf(clientId, wallets));
    if includeZero {
      FoldOneLineEach(step, related);
    }
  }

  /** The same loop followed by the client's `Finished` mark: one client finished, and
      every line still the client's own and about one of its related wallets. */
  lemma ClientRun(client: BitcoinReader.Client, asset: Asset, clientId: string, includeZero: bool,
                  wallets: seq<PrivateWallet>)
    ensures var r := Then(Fold(WalletStep(client, asset, clientId, includeZero), Filter(IsRelated, wallets)),
                          Finished());
            && r.abort.None? && r.clients == 1
            && AllReportable(includeZero, r.results)
            && (forall k :: 0 <= k < |r.results| ==>
                  r.results[k].clientId == clientId && ReadWallet(wallets, r.results[k].address))
            && (forall k :: 0 <= k < |r.errors| ==>
                  r.errors[k].clientId == clientId && ReadWallet(wallets, r.errors[k].address))
            && (includeZero ==> |r.results| + |r.errors| == |Filter(IsRelated, wallets)|)
  {
    var out := Fold(WalletStep(client, asset, clientId, includeZero), Filter(IsRelated, wallets));
    WalletLines(client, asset, clientId, includeZero, wallets);
    assert Then(out, Finished()).results == out.results + [] == out.results;
    assert Then(out, Finished()).errors == out.errors + [] == out.errors;
    forall k | 0 <= k < |out.results|
      ensures out.results[k].clientId == clientId && ReadWallet(wallets, out.results[k].address)
    {
      assert ResultOf(clientId, wallets)(out.results[k]);
    }
    forall k | 0 <= k < |out.errors|
      ensures out.errors[k].clientId == clientId && ReadWallet(wallets, out.errors[k].address)
    {
      assert ErrorOf(clientId, wallets)(out.errors[k]);
    }
  }

  /** One client: each of its wallets the reader is related to, in turn; the client
      counts as finished when nothing aborted. */
  function ClientOutput(env: Environment, client: BitcoinReader.Client, asset: Asset, clientId: string)
    : (r: Output<ResultLine>)
    ensures AllReportable(env.settings.includeZeroBalances, r.results)
    ensures r.clients == (if r.abort.None? then 1 else 0)
    ensures forall k :: 0 <= k < |r.results| ==> r.results[k].clientId == clientId
    ensures forall k :: 0 <= k < |r.errors| ==> r.errors[k].clientId == clientId
    ensures ClientWallets(env, clientId).Err? ==> r == Abort(ClientWallets(env, clientId).error)
    ensures ClientWallets(env, clientId).Ok? ==>
              var wallets := ClientWallets(env, clientId).value;
              && r.abort.None?
              && (forall k :: 0 <= k < |r.results| ==> ReadWallet(wallets, r.results[k].address))
              && (forall k :: 0 <= k < |r.errors| ==> ReadWallet(wallets, r.errors[k].address))
              && (env.settings.includeZeroBalances ==>
                    |r.results| + |r.errors| == |Filter(IsRelated, wallets)|)
  {
    match ClientWallets(env, clientId)
    case Err(e) => Abort(e)
    case Ok(wallets) =>
      var includeZero := env.settings.includeZeroBalances;
      ClientRun(client, asset, clientId, includeZero, wallets);
      Then(Fold(WalletStep(client, asset, clientId, includeZero), Filter(IsRelated, wallets)), Finished())
  }

  function ClientStep(env: Environment, client: BitcoinReader.Client, asset: Asset): string -> Output<ResultLine>
  {
    (clientId: string) => ClientOutput(env, client, asset, clientId)
  }

  function ClientOf(ids: seq<string>): ResultLine -> bool
  {
    (line: ResultLine) => line.clientId in ids
  }

  function ErrorClientOf(ids: seq<string>): ErrorLine -> bool
  {
    (line: ErrorLine) => line.clientId in ids
  }

  /** The clients of one batch, in order: every line belongs to one of them, and when
      none aborts every one is counted. */
  function ClientsOutput(env: Environment, client: BitcoinReader.Client, asset: Asset, ids: seq<string>)
    : (r: Output<ResultLine>)
    ensures AllReportable(env.settings.includeZeroBalances, r.results)
    ensures r.abort.None? ==> r.clients == |ids|
    ensures forall k :: 0 <= k < |r.results| ==> r.results[k].clientId in ids
    ensures forall k :: 0 <= k < |r.errors| ==> r.errors[k].clientId in ids
  {
    var step := ClientStep(env, client, asset);
    FoldCountsFinished(step, ids);
    FoldResults(step, ids, ReportableLine(env.settings.includeZeroBalances));
    FoldResults(step, ids, ClientOf(ids));
    FoldErrors(step, ids, ErrorClientOf(ids));
    Fold(step, ids)
  }

  /** The paged loop from page `k` on: the client-account url must be set; each page
      is processed and the next is asked for while there is a continuation token. */
  function Pages(env: Environment, client: BitcoinReader.Client, asset: Asset, k: nat): (r: Output<ResultLine>)
    ensures AllReportable(env.settings.includeZeroBalances, r.results)
    ensures env.settings.clientAccountUrl.None? ==> r == Abort(ValueCannotBeNull)
    decreases |env.clientIdsPages| - k
  {
    if env.settings.clientAccountUrl.None? then Abort(ValueCannotBeNull)
    else if k >= |env.clientIdsPages| then Abort(NoReplyMessage)
    else match env.clientIdsPages[k]
      case Err(e) => Abort(e)
      case Ok(page) =>
        Then(ClientsOutput(env, client, asset, page.ids),
             if page.continuationToken.Some? then Pages(env, client, asset, k + 1) else NoOutput())
  }

  /** One page of ids: its clients, in order. */
  function BatchStep(env: Environment, client: BitcoinReader.Client, asset: Asset): seq<string> -> Output<ResultLine>
  {
    (ids: seq<string>) => ClientsOutput(env, client, asset, ids)
  }

  /** The paged loop asks for pages until one comes without a continuation token: it
      is the loop over the batches of ids of the pages up to that one, and the pages
      after it are never asked for. */
  lemma {:induction false} PagesStopAtNullToken(env: Environment, client: BitcoinReader.Client, asset: Asset,
                                                k: nat, n: nat)
    requires env.settings.clientAccountUrl.Some? && PagesEndAt(env.clientIdsPages, k, n)
    ensures Pages(env, client, asset, k) == Fold(BatchStep(env, client, asset), PageBatches(env.clientIdsPages, k, n))
    decreases n - k
  {
    var pages := env.clientIdsPages;
    var step := BatchStep(env, client, asset);
    var ids := pages[k].value.ids;
    var later := if k == n then [] else PageBatches(pages, k + 1, n);
    if k == n {
      assert Pages(env, client, asset, k) == Then(step(ids), NoOutput());
      ThenNoOutput(step(ids));
      NoOutputThen(step(ids));
    } else {
      PagesStopAtNullToken(env, client, asset, k + 1, n);
      assert Pages(env, client, asset, k) == Then(step(ids), Fold(step, later));
    }
    PageBatchesCons(pages, k, n);
    FoldCons(step, ids, later);
  }

  /** The loop over the clients: one pass over the ids file when it is given, the
      pages of the client-account service otherwise, which need the client-account
      url before any client is processed. */
  function BatchOutput(env: Environment, client: BitcoinReader.Client, asset: Asset): (r: Output<ResultLine>)
    ensures AllReportable(env.settings.includeZeroBalances, r.results)
    ensures IsNullOrEmpty(env.settings.clientIdsFilePath) && env.settings.clientAccountUrl.None? ==>
              r == Abort(ValueCannotBeNull)
    ensures !IsNullOrEmpty(env.settings.clientIdsFilePath) && env.clientIdsFile.Err? ==>
              r == Abort(env.clientIdsFile.error)
    ensures !IsNullOrEmpty(env.settings.clientIdsFilePath) && env.clientIdsFile.Ok? ==>
              r == ClientsOutput(env, client, asset, env.clientIdsFile.value)
  {
    if IsNullOrEmpty(env.settings.clientIdsFilePath) then Pages(env, client, asset, 0)
    else match env.clientIdsFile
      case Err(e) => Abort(e)
      case Ok(ids) => ClientsOutput(env, client, asset, ids)
  }

  /** `Execute`: a missing settings file or an unknown asset ends the run quietly;
      then the reader for the asset's blockchain and the loop over the clients.  No
      zero balance is ever written unless zero balances were asked for. */
  function RunOutput(env: Environment): (r: Output<ResultLine>)
    ensures AllReportable(env.settings.includeZeroBalances, r.results)
    ensures !env.settingsFileExists ==> r == NoOutput()
  {
    if !env.settingsFileExists then NoOutput()
    else match env.assetsService.get(env.settings.assetId)
      case Err(e) => Abort(e)
      case Ok(None) => NoOutput()
      case Ok(Some(asset)) =>
        match GetBalanceReader(asset, env.settings.bitcoin, env.connectBitcoin)
        case Err(e) => Abort(e)
        case Ok(client) => BatchOutput(env, client, asset)
  }

  // ---------------------------------------------------------------------------
  // Properties of a run

  /** The asset decides whether there is a run at all: an asset the directory does
      not know ends it with nothing written and the handler returning 0, an asset on another
      blockchain than Bitcoin ends it before any client with the factory's error. */
  lemma AssetDecidesTheRun(env: Environment)
    requires env.settingsFileExists
    ensures env.assetsService.get(env.settings.assetId) == Ok(None) ==> RunOutput(env) == NoOutput()
    ensures env.assetsService.get(env.settings.assetId).Ok? && env.assetsService.get(env.settings.assetId).value.Some?
            && env.assetsService.get(env.settings.assetId).value.value.blockchain != Bitcoin ==>
              RunOutput(env)
              == Abort(NotImplementedMessage(env.assetsService.get(env.settings.assetId).value.value.blockchain))
  {
  }

  /** Wallets are not deduplicated: a client whose legacy address is also stored as a
      Bitcoin wallet has that address read twice, so with zero balances asked for it
      leaves one more line than the stored wallets alone. */
  lemma {:induction false} LegacyAddressReadAgain(env: Environment, client: BitcoinReader.Client, asset: Asset,
                                                  clientId: string)
    requires env.walletCredentials(clientId).Ok? && env.walletCredentials(clientId).value.Some?
    requires env.storedWallets(clientId).Ok? && env.storedWallets(clientId).value.Some?
    requires env.settings.includeZeroBalances
    ensures var stored := env.storedWallets(clientId).value.value;
            var out := ClientOutput(env, client, asset, clientId);
            |out.results| + |out.errors| == |Filter(IsRelated, stored)| + 1
  {
    var creds := env.walletCredentials(clientId).value;
    var stored := env.storedWallets(clientId).value.value;
    var wallets := AllPrivateWallets(Some(stored), creds, DefaultWalletName);
    assert wallets == [DefaultWallet(creds.value, DefaultWalletName)] + stored;
    FilterAppend(IsRelated, [DefaultWallet(creds.value, DefaultWalletName)], stored);
    assert Filter(IsRelated, [DefaultWallet(creds.value, DefaultWalletName)]) == [DefaultWallet(creds.value, DefaultWalletName)] by {
      assert [DefaultWallet(creds.value, DefaultWalletName)][..0] == [];
    }
  }

  // ---------------------------------------------------------------------------
  // The run, step by step

  /** Writes what one read of a wallet produced. */
  method WriteRead(files: ReportFiles<ResultLine>, clientId: string, includeZero: bool, wallet: PrivateWallet,
                   read: Result<WalletBalance>)
    modifies files
    ensures var out := WalletOutput(clientId, includeZero, wallet, read);
            files.results == old(files.results) + out.results && files.errors == old(files.errors) + out.errors
  {
    if read.Err? {
      files.AppendError(ErrorLine(clientId, wallet.walletAddress, read.error));
      assert files.results == old(files.results) + [];
      return;
    }
    var line := ResultLine(clientId, read.value.address, read.value.amount);
    if line.amount != 0.0 || includeZero {
      files.AppendResult(line);
    } else {
      assert files.results == old(files.results) + [];
    }
    assert files.errors == old(files.errors) + [];
  }

  /** One wallet: read through the retry policy, then written. */
  method ProcessWallet(files: ReportFiles<ResultLine>, client: BitcoinReader.Client, asset: Asset, clientId: string,
                       includeZero: bool, wallet: PrivateWallet)
    modifies files
    ensures var out := WalletStep(client, asset, clientId, includeZero)(wallet);
            files.results == old(files.results) + out.results && files.errors == old(files.errors) + out.errors
  {
    var read, _ := ReadWithRetry(client, asset, wallet);
    WriteRead(files, clientId, includeZero, wallet, read);
  }

  /** `foreach (var wallet in clientPrivateWallets.Where(balanceReader.IsRelated))`:
      a wallet the reader is not related to is skipped, the others are read in order. */
  method ProcessWallets(files: ReportFiles<ResultLine>, client: BitcoinReader.Client, asset: Asset, clientId: string,
                        includeZero: bool, wallets: seq<PrivateWallet>)
    modifies files
    ensures var out := Fold(WalletStep(client, asset, clientId, includeZero), Filter(IsRelated, wallets));
            files.results == old(files.results) + out.results && files.errors == old(files.errors) + out.errors
  {
    ghost var step := WalletStep(client, asset, clientId, includeZero);
    for i := 0 to |wallets|
      invariant files.results == old(files.results) + Fold(step, Filter(IsRelated, wallets[..i])).results
      invariant files.errors == old(files.errors) + Fold(step, Filter(IsRelated, wallets[..i])).errors
    {
      ghost var before := Fold(step, Filter(IsRelated, wallets[..i]));
      assert wallets[..i + 1][..i] == wallets[..i];
      if IsRelated(wallets[i]) {
        assert Filter(IsRelated, wallets[..i + 1]) == Filter(IsRelated, wallets[..i]) + [wallets[i]];
        FoldQuiet(step, Filter(IsRelated, wallets[..i]));
        FoldSnoc(step, Filter(IsRelated, wallets[..i]), wallets[i]);
        ProcessWallet(files, client, asset, clientId, includeZero, wallets[i]);
        AppendTwice(old(files.results), before.results, step(wallets[i]).results);
        AppendTwice(old(files.errors), before.errors, step(wallets[i]).errors);
      } else {
        assert Filter(IsRelated, wallets[..i + 1]) == Filter(IsRelated, wallets[..i]);
      }
    }
    assert wallets[..|wallets|] == wallets;
  }

  /** One client: the legacy credentials, the merged wallet list (either storage
      failing ends the run), then its related wallets. */
  method ProcessClient(files: ReportFiles<ResultLine>, env: Environment, client: BitcoinReader.Client, asset: Asset,
                       clientId: string)
    returns (abort: Option<string>)
    modifies files
    ensures var out := ClientOutput(env, client, asset, clientId);
            && files.results == old(files.results) + out.results
            && files.errors == old(files.errors) + out.errors
            && abort == out.abort
  {
    var creds := env.walletCredentials(clientId);
    if creds.Err? {
      assert files.results == old(files.results) + [];
      assert files.errors == old(files.errors) + [];
      return Some(creds.error);
    }
    var wallets := GetAllPrivateWallets(env.storedWallets, clientId, creds.value, DefaultWalletName);
    if wallets.Err? {
      assert files.results == old(files.results) + [];
      assert files.errors == old(files.errors) + [];
      return Some(wallets.error);
    }
    var includeZero := env.settings.includeZeroBalances;
    ProcessWallets(files, client, asset, clientId, includeZero, wallets.value);
    ghost var all := Fold(WalletStep(client, asset, clientId, includeZero), Filter(IsRelated, wallets.value));
    WalletLines(client, asset, clientId, includeZero, wallets.value);
    assert ClientOutput(env, client, asset, clientId) == Then(all, Finished());
    assert all.results + [] == all.results;
    assert all.errors + [] == all.errors;
    return None;
  }

  /** One batch of client ids, counting the clients finished. */
  method ProcessClients(files: ReportFiles<ResultLine>, env: Environment, client: BitcoinReader.Client, asset: Asset,
                        ids: seq<string>)
    returns (abort: Option<string>, counter: nat)
    modifies files
    ensures var out := ClientsOutput(env, client, asset, ids);
            && files.results == old(files.results) + out.results
            && files.errors == old(files.errors) + out.errors
            && abort == out.abort && counter == out.clients
  {
    ghost var step := ClientStep(env, client, asset);
    counter := 0;
    for i := 0 to |ids|
      invariant Fold(step, ids[..i]).abort.None?
      invariant files.results == old(files.results) + Fold(step, ids[..i]).results
      invariant files.errors == old(files.errors) + Fold(step, ids[..i]).errors
      invariant counter == Fold(step, ids[..i]).clients
    {
      FoldStep(step, ids, i);
      ghost var before := Fold(step, ids[..i]);
      ghost var results0, errors0 := files.results, files.errors;
      var a := ProcessClient(files, env, client, asset, ids[i]);
      ghost var out := step(ids[i]);
      assert files.results == results0 + out.results;
      AppendTwice(old(files.results), before.results, out.results);
      assert files.errors == errors0 + out.errors;
      AppendTwice(old(files.errors), before.errors, out.errors);
      if a.Some? {
        FoldAbortFinal(step, ids, i + 1);
        return a, counter;
      }
      counter := counter + 1;
    }
    assert ids[..|ids|] == ids;
    return None, counter;
  }

  /** The clients of one page of ids, written after what the earlier pages wrote. */
  method ProcessPage(files: ReportFiles<ResultLine>, env: Environment, client: BitcoinReader.Client, asset: Asset,
                     ids: seq<string>, ghost results0: seq<ResultLine>, ghost errors0: seq<ErrorLine>,
                     ghost acc: Output<ResultLine>)
    returns (abort: Option<string>, counter: nat)
    requires acc.abort.None?
    requires files.results == results0 + acc.results && files.errors == errors0 + acc.errors
    modifies files
    ensures var out := ClientsOutput(env, client, asset, ids);
            && files.results == results0 + Then(acc, out).results
            && files.errors == errors0 + Then(acc, out).errors
            && abort == out.abort && counter == out.clients
  {
    abort, counter := ProcessClients(files, env, client, asset, ids);
    ghost var out := ClientsOutput(env, client, asset, ids);
    AppendTwice(results0, acc.results, out.results);
    AppendTwice(errors0, acc.errors, out.errors);
  }

  /** The `do ... while (continuationToken != null)` loop over the pages of client ids. */
  method ProcessPages(files: ReportFiles<ResultLine>, env: Environment, client: BitcoinReader.Client, asset: Asset)
    returns (abort: Option<string>, counter: nat)
    modifies files
    ensures var out := Pages(env, client, asset, 0);
            && files.results == old(files.results) + out.results
            && files.errors == old(files.errors) + out.errors
            && abort == out.abort && counter == out.clients
  {
    ghost var total := Pages(env, client, asset, 0);
    ghost var acc: Output<ResultLine> := NoOutput();
    NoOutputThen(total);
    counter := 0;
    var k := 0;
    while true
      invariant k <= |env.clientIdsPages|
      invariant acc.abort.None? && counter == acc.clients
      invariant files.results == old(files.results) + acc.results
      invariant files.errors == old(files.errors) + acc.errors
      invariant total == Then(acc, Pages(env, client, asset, k))
      decreases |env.clientIdsPages| - k
    {
      if env.settings.clientAccountUrl.None? {
        ThenAbort(acc, ValueCannotBeNull);
        return Some(ValueCannotBeNull), counter;
      }
      if k >= |env.clientIdsPages| {
        ThenAbort(acc, NoReplyMessage);
        return Some(NoReplyMessage), counter;
      }
      var reply := env.clientIdsPages[k];
      if reply.Err? {
        ThenAbort(acc, reply.error);
        return Some(reply.error), counter;
      }
      var page := reply.value;
      ghost var batch := ClientsOutput(env, client, asset, page.ids);
      ghost var rest := if page.continuationToken.Some? then Pages(env, client, asset, k + 1) else NoOutput();
      assert Pages(env, client, asset, k) == Then(batch, rest);
      ThenAssoc(acc, batch, rest);
      var a, n := ProcessPage(files, env, client, asset, page.ids, old(files.results), old(files.errors), acc);
      acc := Then(acc, batch);
      counter := counter + n;
      if a.Some? {
        return a, counter;
      }
      if page.continuationToken.None? {
        ThenNoOutput(acc);
        return None, counter;
      }
      k := k + 1;
    }
  }

  /** `Execute`: the results and errors it appends, the exception that escapes it and
      the number of clients it finished are those `RunOutput` specifies. */
  method Execute(files: ReportFiles<ResultLine>, env: Environment) returns (abort: Option<string>, counter: nat)
    modifies files
    ensures var out := RunOutput(env);
            && files.results == old(files.results) + out.results
            && files.errors == old(files.errors) + out.errors
            && abort == out.abort && counter == out.clients
  {
    if !env.settingsFileExists {
      return None, 0;
    }
    var found := env.assetsService.get(env.settings.assetId);
    if found.Err? {
      return Some(found.error), 0;
    }
    if found.value.None? {
      return None, 0;
    }
    var asset := found.value.value;
    var reader := GetBalanceReader(asset, env.settings.bitcoin, env.connectBitcoin);
    if reader.Err? {
      return Some(reader.error), 0;
    }
    var client := reader.value;
    assert RunOutput(env) == BatchOutput(env, client, asset);
    if !IsNullOrEmpty(env.settings.clientIdsFilePath) {
      var ids := env.clientIdsFile;
      if ids.Err? {
        return Some(ids.error), 0;
      }
      abort, counter := ProcessClients(files, env, client, asset, ids.value);
      return;
    }
    abort, counter := ProcessPages(files, env, client, asset);
  }

  /** The command handler: with no settings path it shows its help and returns 0;
      otherwise it runs and returns 1 exactly when an exception escaped.  `Main`
      discards this value. */
  method RunCommand(files: ReportFiles<ResultLine>, env: Environment, settingsFilePath: Option<string>)
    returns (handlerResult: int)
    modifies files
    ensures IsNullOrEmpty(settingsFilePath) ==>
              handlerResult == 0 && files.results == old(files.results) && files.errors == old(files.errors)
    ensures !IsNullOrEmpty(settingsFilePath) ==>
              && handlerResult == ExitCode(RunOutput(env).abort)
              && files.results == old(files.results) + RunOutput(env).results
              && files.errors == old(files.errors) + RunOutput(env).errors
  {
    if IsNullOrEmpty(settingsFilePath) {
      return 0;
    }
    var abort, _ := Execute(files, env);
    return ExitCode(abort);
  }
}
