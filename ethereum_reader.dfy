/** The Ethereum balance reader of the user-wallet report
    (`Services/Implementations/Ethereum/EthereumBalanceReader`): the address check
    built from three regular expressions and an EIP-55 checksum, the ERC-20 assets
    it reports (read once from the asset directory and cached), and one read of the
    Ethereum core service. */
module EthereumReader {
  import opened Common
  import opened Linq
  import opened Retry
  import opened PrivateWallets
  import opened CredentialRecords
  import opened EthServiceHelpers

  // ---------------------------------------------------------------------------
  // Address check
  // ---------------------------------------------------------------------------

  predicate IsHexDigit(c: char)
  {
    '0' <= c <= '9' || 'a' <= c <= 'f' || 'A' <= c <= 'F'
  }

  predicate IsLowerHexDigit(c: char)
  {
    '0' <= c <= '9' || 'a' <= c <= 'f'
  }

  predicate IsUpperHexDigit(c: char)
  {
    '0' <= c <= '9' || 'A' <= c <= 'F'
  }

  predicate AllHex(t: string)
  {
    forall i :: 0 <= i < |t| ==> IsHexDigit(t[i])
  }

  predicate AllLowerHex(t: string)
  {
    forall i :: 0 <= i < |t| ==> IsLowerHexDigit(t[i])
  }

  predicate AllUpperHex(t: string)
  {
    forall i :: 0 <= i < |t| ==> IsUpperHexDigit(t[i])
  }

  /** What a pattern ending in `$` is matched against: .NET's `$` also matches just
      before a final line feed, so one trailing `'\n'` is ignored. */
  function Subject(s: string): (t: string)
    ensures |t| <= |s| && t == s[..|t|]
  {
    if |s| > 0 && s[|s| - 1] == '\n' then s[..|s| - 1] else s
  }

  /** `^(0x)?[0-9a-f]{40}$` under `RegexOptions.IgnoreCase`: forty hex digits of
      either case, optionally after `0x` or `0X`. */
  predicate MatchesIgnoreCasePattern(s: string)
  {
    var t := Subject(s);
    || (|t| == 40 && AllHex(t))
    || (|t| == 42 && t[0] == '0' && (t[1] == 'x' || t[1] == 'X') && AllHex(t[2..]))
  }

  /** `(0x)?[0-9a-f]{40}$`, which is not anchored at the start: the last forty
      characters are lowercase hex digits. */
  predicate MatchesLowerPattern(s: string)
  {
    var t := Subject(s);
    |t| >= 40 && AllLowerHex(t[|t| - 40..])
  }

  /** `^(0x)?[0-9A-F]{40}$`, case-sensitive: forty uppercase hex digits, optionally
      after a lowercase `0x`. */
  predicate MatchesCapitalPattern(s: string)
  {
    var t := Subject(s);
    || (|t| == 40 && AllUpperHex(t))
    || (|t| == 42 && t[..2] == "0x" && AllUpperHex(t[2..]))
  }

  /** `IsValidAddress`: the shape first; an all-lowercase or all-uppercase address is
      accepted outright, anything else is left to the EIP-55 checksum
      (`AddressUtil.IsChecksumAddress`, here the parameter `isChecksumAddress`). */
  function IsValidAddress(isChecksumAddress: string -> bool, address: string): (valid: bool)
    ensures valid ==> MatchesIgnoreCasePattern(address)
    ensures MatchesIgnoreCasePattern(address) && (MatchesLowerPattern(address) || MatchesCapitalPattern(address)) ==> valid
    ensures MatchesIgnoreCasePattern(address) && !MatchesLowerPattern(address) && !MatchesCapitalPattern(address) ==>
              (valid <==> isChecksumAddress(address))
  {
    if !MatchesIgnoreCasePattern(address) then false
    else if MatchesLowerPattern(address) || MatchesCapitalPattern(address) then true
    else isChecksumAddress(address)
  }

  /** The forty hex digits of an address of the right shape. */
  function Digits(address: string): string
    requires MatchesIgnoreCasePattern(address)
  {
    var t := Subject(address);
    t[|t| - 40..]
  }

  /** Forty lowercase digits are accepted, whatever the prefix (`0x` or `0X`). */
  lemma LowercaseAccepted(isChecksumAddress: string -> bool, address: string)
    requires MatchesIgnoreCasePattern(address) && AllLowerHex(Digits(address))
    ensures IsValidAddress(isChecksumAddress, address)
  {
  }

  /** Forty uppercase digits are accepted without a prefix or after `0x`; after `0X`
      they are left to the checksum. */
  lemma UppercaseAccepted(isChecksumAddress: string -> bool, address: string)
    requires MatchesIgnoreCasePattern(address) && AllUpperHex(Digits(address))
    requires |Subject(address)| == 40 || Subject(address)[1] == 'x'
    ensures IsValidAddress(isChecksumAddress, address)
  {
    var t := Subject(address);
    if |t| == 42 {
      assert t[..2] == "0x";
      assert t[2..] == Digits(address);
    }
  }

  /** A letter among the digits that is neither lowercase nor uppercase everywhere
      leaves the decision to the checksum. */
  lemma MixedCaseUsesChecksum(isChecksumAddress: string -> bool, address: string, i: nat, j: nat)
    requires MatchesIgnoreCasePattern(address)
    requires i < 40 && j < 40 && 'a' <= Digits(address)[i] <= 'f' && 'A' <= Digits(address)[j] <= 'F'
    ensures IsValidAddress(isChecksumAddress, address) <==> isChecksumAddress(address)
  {
    var t := Subject(address);
    var d := Digits(address);
    assert !IsUpperHexDigit(d[i]);
    assert !IsLowerHexDigit(d[j]);
    if |t| == 42 {
      assert t[2..] == d;
      assert !AllUpperHex(t[2..]);
    }
  }

  /** One trailing line feed does not change the verdict of the patterns: an
      address followed by `'\n'` passes the shape tests exactly when the address does. */
  lemma TrailingLineFeedIgnored(address: string)
    requires |address| == 0 || address[|address| - 1] != '\n'
    ensures Subject(address + "\n") == address
    ensures MatchesIgnoreCasePattern(address + "\n") == MatchesIgnoreCasePattern(address)
    ensures MatchesLowerPattern(address + "\n") == MatchesLowerPattern(address)
    ensures MatchesCapitalPattern(address + "\n") == MatchesCapitalPattern(address)
  {
    assert (address + "\n")[..|address|] == address;
  }

  /** The four `GetAddresses` overloads.  A private or registry wallet yields its own
      address when valid; legacy credentials are checked on `EthAddress` but yield
      `MultiSig`; a bcn record is checked on `Address` but yields `AssetAddress`. */
  function GetAddresses(isChecksumAddress: string -> bool, record: WalletRecord): (addresses: seq<string>)
    ensures record.PrivateRecord? ==>
              addresses == (if IsValidAddress(isChecksumAddress, record.wallet.walletAddress) then [record.wallet.walletAddress] else [])
    ensures record.LegacyRecord? ==>
              addresses == (if IsValidAddress(isChecksumAddress, record.creds.ethAddress) then [record.creds.multiSig] else [])
    ensures record.BcnRecord? ==>
              addresses == (if IsValidAddress(isChecksumAddress, record.bcn.address) then [record.bcn.assetAddress] else [])
    ensures record.RegistryRecord? ==>
              addresses == (if IsValidAddress(isChecksumAddress, record.entry.address) then [record.entry.address] else [])
  {
    match record
    case PrivateRecord(w) => if IsValidAddress(isChecksumAddress, w.walletAddress) then [w.walletAddress] else []
    case LegacyRecord(c) => if IsValidAddress(isChecksumAddress, c.ethAddress) then [c.multiSig] else []
    case BcnRecord(b) => if IsValidAddress(isChecksumAddress, b.address) then [b.assetAddress] else []
    case RegistryRecord(e) => if IsValidAddress(isChecksumAddress, e.address) then [e.address] else []
  }

  /** A record yields at most one address, and only a private or registry wallet's
      own address is guaranteed to have passed the check. */
  lemma GetAddressesAtMostOne(isChecksumAddress: string -> bool, record: WalletRecord)
    ensures |GetAddresses(isChecksumAddress, record)| <= 1
    ensures (record.PrivateRecord? || record.RegistryRecord?) ==>
              forall a :: a in GetAddresses(isChecksumAddress, record) ==> IsValidAddress(isChecksumAddress, a)
  {
  }

  /** `SelectUniqueAddresses`: each address once, in order of first appearance; no
      address is rewritten, so different spellings of one account stay apart. */
  function SelectUniqueAddresses(source: seq<string>): (unique: seq<string>)
    ensures NoDuplicates(unique)
    ensures forall a :: a in unique <==> a in source
  {
    DistinctNoDuplicates(source);
    DistinctElements(source);
    Distinct(source)
  }

  // ---------------------------------------------------------------------------
  // The ERC-20 assets the reader reports
  // ---------------------------------------------------------------------------

  /** `GetEthAsset`: the first asset whose blockchain asset id is `ETH`. */
  function GetEthAsset(assets: seq<Asset>): (eth: Option<Asset>)
    ensures eth.Some? ==> eth.value in assets && eth.value.blockChainAssetId == Some("ETH")
    ensures eth.None? <==> forall a :: a in assets ==> a.blockChainAssetId != Some("ETH")
    ensures eth.Some? ==> exists i :: 0 <= i < |assets| && assets[i] == eth.value &&
                            forall j :: 0 <= j < i ==> assets[j].blockChainAssetId != Some("ETH")
  {
    if assets == [] then None
    else if assets[0].blockChainAssetId == Some("ETH") then Some(assets[0])
    else
      var rest := GetEthAsset(assets[1..]);
      assert forall a :: a in assets[1..] ==> a in assets;
      assert forall a :: a in assets ==> a == assets[0] || a in assets[1..];
      if rest.Some? then
        var i :| 0 <= i < |assets[1..]| && assets[1..][i] == rest.value &&
                 forall j :: 0 <= j < i ==> assets[1..][j].blockChainAssetId != Some("ETH");
        assert assets[i + 1] == rest.value;
        rest
      else rest
  }

  function Ids(assets: seq<Asset>): (ids: seq<string>)
    ensures |ids| == |assets| && forall i :: 0 <= i < |assets| ==> ids[i] == assets[i].id
  {
    seq(|assets|, i requires 0 <= i < |assets| => assets[i].id)
  }

  predicate IsEthereumAsset(a: Asset)
  {
    a.blockchain == Ethereum
  }

  /** The ids of the Ethereum assets, in order: the token specification sent to the
      asset directory. */
  function EthereumIds(assets: seq<Asset>): (ids: seq<string>)
    ensures forall id :: id in ids <==> exists a :: a in assets && IsEthereumAsset(a) && a.id == id
  {
    var eth := Filter(IsEthereumAsset, assets);
    FilterMembers(IsEthereumAsset, assets);
    Ids(eth)
  }

  /** The asset of a dictionary keyed by id (`dict.TryGetValue`). */
  function LookupId(assets: seq<Asset>, id: string): (r: Option<Asset>)
    ensures r.Some? ==> r.value in assets && r.value.id == id
    ensures r.None? <==> forall a :: a in assets ==> a.id != id
  {
    if assets == [] then None
    else if assets[0].id == id then Some(assets[0])
    else
      assert forall a :: a in assets ==> a == assets[0] || a in assets[1..];
      LookupId(assets[1..], id)
  }

  /** The tokens' assets, in token order; a token whose asset is unknown is dropped. */
  function KnownAssets(source: seq<Asset>, tokens: seq<Erc20Token>): (known: seq<Asset>)
    ensures |known| <= |tokens|
    ensures forall a :: a in known ==> a in source
  {
    if tokens == [] then []
    else
      var init := KnownAssets(source, tokens[..|tokens| - 1]);
      match LookupId(source, tokens[|tokens| - 1].assetId)
      case None => init
      case Some(a) => init + [a]
  }

  /** Every token whose asset is known contributes that asset. */
  lemma {:induction false} KnownAssetsComplete(source: seq<Asset>, tokens: seq<Erc20Token>)
    ensures forall t :: t in tokens && LookupId(source, t.assetId).Some? ==>
              LookupId(source, t.assetId).value in KnownAssets(source, tokens)
  {
    if tokens != [] {
      var init := tokens[..|tokens| - 1];
      KnownAssetsComplete(source, init);
      assert forall t :: t in tokens ==> t in init || t == tokens[|tokens| - 1];
    }
  }

  const DuplicateKeyMessage: string := "An item with the same key has already been added"

  /** `GetApprovedTokenAssets(null)`: every directory asset, keyed by id (a repeated
      id throws); then, in the order the directory lists the tokens of the Ethereum
      assets, each token's asset, dropping unknown ones; then the ETH asset, if any. */
  function ApprovedTokenAssets(service: AssetsService): (r: Result<seq<Asset>>)
    ensures service.getAll.Err? ==> r == Err(service.getAll.error)
    ensures service.getAll.Ok? && !NoDuplicates(Ids(service.getAll.value)) ==> r == Err(DuplicateKeyMessage)
    ensures r.Ok? ==> forall a :: a in r.value ==> a in service.getAll.value
  {
    match service.getAll
    case Err(e) => Err(e)
    case Ok(source) =>
      if !NoDuplicates(Ids(source)) then Err(DuplicateKeyMessage)
      else
        match service.erc20Tokens(EthereumIds(source))
        case Err(e) => Err(e)
        case Ok(tokens) =>
          var eth := GetEthAsset(source);
          Ok(KnownAssets(source, tokens) + (if eth.Some? then [eth.value] else []))
  }

  /** The ETH asset, when the directory has one, is the last approved asset, and
      every token with a known asset is approved. */
  lemma ApprovedTokenAssetsShape(service: AssetsService)
    requires ApprovedTokenAssets(service).Ok?
    ensures var approved := ApprovedTokenAssets(service).value;
            var source := service.getAll.value;
            var tokens := service.erc20Tokens(EthereumIds(source)).value;
            && (GetEthAsset(source).Some? ==> approved[|approved| - 1] == GetEthAsset(source).value)
            && (GetEthAsset(source).Some? ==> approved == KnownAssets(source, tokens) + [GetEthAsset(source).value])
            && (GetEthAsset(source).None? ==> approved == KnownAssets(source, tokens))
            && (forall t :: t in tokens && LookupId(source, t.assetId).Some? ==>
                  LookupId(source, t.assetId).value in approved)
  {
    var source := service.getAll.value;
    var tokens := service.erc20Tokens(EthereumIds(source)).value;
    KnownAssetsComplete(source, tokens);
  }

  // ---------------------------------------------------------------------------
  // One read
  // ---------------------------------------------------------------------------

  /** The `Error` of an `ApiException` reply; `code` is the code as printed. */
  datatype ApiError = ApiError(message: string, code: string)

  /** A reply of `ApiRpcGetBalanceByAddressGetAsync`. */
  datatype BalanceReply = BalanceModel(amount: int) | BalanceApiException(err: ApiError) | OtherBalanceReply

  /** An entry of `AddressTokenBalanceContainerResponse.Balances`. */
  datatype TokenBalance = TokenBalance(erc20TokenAddress: string, balance: int)

  /** A reply of `ApiErc20BalancePostAsync`. */
  datatype TokenReply = TokenBalances(balances: seq<TokenBalance>) | TokenApiException(err: ApiError) | OtherTokenReply

  /** The Ethereum core service on invocation `attempt` of the retry policy; `None`
      when the call throws. */
  datatype EthereumCore = EthereumCore(
    getBalance: (string, nat) -> Option<BalanceReply>,
    erc20Balance: (string, seq<string>, nat) -> Option<TokenReply>)

  /** The `Ethereum` section of the tool settings. */
  datatype EthereumSettings = EthereumSettings(ethereumCoreUrl: Option<string>)

  function ErrorText(err: ApiError): string
  {
    err.message + " " + err.code
  }

  /** The pairs `assets.Join(tokens, x => x.Id, y => y.AssetId, ...)` visits: the
      assets in order and, for each, its tokens in order. */
  function JoinPairs(assets: seq<Asset>, tokens: seq<Erc20Token>): (pairs: seq<(Asset, Erc20Token)>)
    ensures forall p :: p in pairs ==> p.0 in assets && p.1 in tokens && p.0.id == p.1.assetId
  {
    if assets == [] then []
    else JoinPairs(assets[..|assets| - 1], tokens) + Matches(assets[|assets| - 1], tokens)
  }

  /** The tokens of one asset, in order, paired with it. */
  function Matches(a: Asset, tokens: seq<Erc20Token>): (pairs: seq<(Asset, Erc20Token)>)
    ensures forall p :: p in pairs ==> p.0 == a && p.1 in tokens && p.1.assetId == a.id
  {
    if tokens == [] then []
    else
      var t := tokens[|tokens| - 1];
      Matches(a, tokens[..|tokens| - 1]) + (if t.assetId == a.id then [(a, t)] else [])
  }

  /** The lowercased contract address of a joined pair (`token?.Address?.ToLower()`). */
  function PairAddress(p: (Asset, Erc20Token)): Option<string>
  {
    LowerOpt(p.1.address)
  }

  /** The `erc20Asset` dictionary the join fills: a non-empty lowercased contract
      address maps to its asset, a later pair overriding an earlier one. */
  function TokenMap(pairs: seq<(Asset, Erc20Token)>): map<string, Asset>
  {
    if pairs == [] then map[]
    else
      var m := TokenMap(pairs[..|pairs| - 1]);
      var p := pairs[|pairs| - 1];
      if !IsNullOrEmpty(PairAddress(p)) then m[PairAddress(p).value := p.0] else m
  }

  /** The contract addresses sent to the token-balance call: every non-null
      lowercased address, empty ones included, in join order. */
  function TokenAddresses(pairs: seq<(Asset, Erc20Token)>): seq<string>
  {
    if pairs == [] then []
    else
      var p := pairs[|pairs| - 1];
      TokenAddresses(pairs[..|pairs| - 1]) + (if PairAddress(p).Some? then [PairAddress(p).value] else [])
  }

  /** A contract address is a key exactly when some pair carries it, non-empty. */
  lemma {:induction false} TokenMapKeys(pairs: seq<(Asset, Erc20Token)>, k: string)
    ensures k in TokenMap(pairs) <==> exists i :: 0 <= i < |pairs| && k != "" && PairAddress(pairs[i]) == Some(k)
  {
    if pairs != [] {
      var init := pairs[..|pairs| - 1];
      TokenMapKeys(init, k);
      if exists i :: 0 <= i < |pairs| && k != "" && PairAddress(pairs[i]) == Some(k) {
        var i :| 0 <= i < |pairs| && k != "" && PairAddress(pairs[i]) == Some(k);
        if i < |init| {
          assert init[i] == pairs[i];
        }
      }
      if k in TokenMap(init) {
        var i :| 0 <= i < |init| && k != "" && PairAddress(init[i]) == Some(k);
        assert pairs[i] == init[i];
      }
    }
  }

  /** A key maps to the asset of the last pair that carries it. */
  lemma {:induction false} TokenMapLastWins(pairs: seq<(Asset, Erc20Token)>, k: string)
    ensures k in TokenMap(pairs) ==>
              exists i :: 0 <= i < |pairs| && PairAddress(pairs[i]) == Some(k) && TokenMap(pairs)[k] == pairs[i].0 &&
                          forall j :: i < j < |pairs| ==> PairAddress(pairs[j]) != Some(k)
  {
    if pairs != [] {
      var init := pairs[..|pairs| - 1];
      var n := |pairs| - 1;
      TokenMapLastWins(init, k);
      if k in TokenMap(pairs) && PairAddress(pairs[n]) == Some(k) {
        TokenMapKeys(init, k);
        assert TokenMap(pairs)[k] == pairs[n].0;
      } else if k in TokenMap(pairs) {
        assert k in TokenMap(init) && TokenMap(pairs)[k] == TokenMap(init)[k];
        var i :| 0 <= i < |init| && PairAddress(init[i]) == Some(k) && TokenMap(init)[k] == init[i].0 &&
                 forall j :: i < j < |init| ==> PairAddress(init[j]) != Some(k);
        assert pairs[i] == init[i];
        forall j | i < j < |pairs|
          ensures PairAddress(pairs[j]) != Some(k)
        {
          if j < n {
            assert pairs[j] == init[j];
          }
        }
      }
    }
  }

  /** The lines of the token balances: a balance whose contract address (lowercased)
      is not in the dictionary is dropped; the others are converted from contract
      units, and the first conversion that throws aborts. */
  function TokenLines(address: string, balances: seq<TokenBalance>, m: map<string, Asset>): Result<seq<Balance>>
  {
    if balances == [] then Ok([])
    else
      var b := balances[|balances| - 1];
      var key := Lower(b.erc20TokenAddress);
      match TokenLines(address, balances[..|balances| - 1], m)
      case Err(e) => Err(e)
      case Ok(lines) =>
        if key !in m then Ok(lines)
        else
          match ConvertFromContract(b.balance, m[key].multiplierPower, m[key].accuracy)
          case Err(e) => Err(e)
          case Ok(amount) => Ok(lines + [Balance(address, amount, m[key].id)])
  }

  /** A balance whose contract address (lowercased) is in the dictionary. */
  function Mapped(m: map<string, Asset>): TokenBalance -> bool
  {
    (b: TokenBalance) => Lower(b.erc20TokenAddress) in m
  }

  /** `line` is the line of balance `b`: the balance converted from contract units with
      the exponents of the dictionary's asset, under that asset's id. */
  predicate IsTokenLine(address: string, b: TokenBalance, m: map<string, Asset>, line: Balance)
  {
    && Lower(b.erc20TokenAddress) in m
    && var asset := m[Lower(b.erc20TokenAddress)];
       && ConvertFromContract(b.balance, asset.multiplierPower, asset.accuracy) == Ok(line.amount)
       && line == Balance(address, line.amount, asset.id)
  }

  /** `lines` are the lines of the balances `kept`, one for one and in order. */
  predicate TokenLinesOf(address: string, kept: seq<TokenBalance>, m: map<string, Asset>, lines: seq<Balance>)
  {
    && |lines| == |kept|
    && forall k :: 0 <= k < |lines| ==> IsTokenLine(address, kept[k], m, lines[k])
  }

  /** Every token line carries the address read and the id of an asset of the
      dictionary, and there is at most one line per balance: the lines are those of
      the balances whose contract the dictionary holds, in order, each converted with
      that asset's exponents. */
  lemma TokenLinesShape(address: string, balances: seq<TokenBalance>, m: map<string, Asset>)
    requires TokenLines(address, balances, m).Ok?
    ensures var lines := TokenLines(address, balances, m).value;
            && |lines| <= |balances|
            && forall k :: 0 <= k < |lines| ==> LineOfSomeAsset(address, m, lines[k])
    ensures TokenLinesOf(address, Filter(Mapped(m), balances), m, TokenLines(address, balances, m).value)
  {
    var kept := Filter(Mapped(m), balances);
    TokenLinesFollow(address, balances, m);
    TokenLinesOfAssets(address, kept, m, TokenLines(address, balances, m).value);
    assert |kept| <= |balances|;
  }

  /** The token lines are the lines of the balances the dictionary knows, in order. */
  lemma {:induction false} TokenLinesFollow(address: string, balances: seq<TokenBalance>, m: map<string, Asset>)
    requires TokenLines(address, balances, m).Ok?
    ensures TokenLinesOf(address, Filter(Mapped(m), balances), m, TokenLines(address, balances, m).value)
  {
    if balances != [] {
      var init, b := balances[..|balances| - 1], balances[|balances| - 1];
      TokenLinesFollow(address, init, m);
      var key := Lower(b.erc20TokenAddress);
      var prev := TokenLines(address, init, m).value;
      var kept := Filter(Mapped(m), init);
      assert balances == init + [b];
      FilterSnoc(Mapped(m), init, b);
      if key in m {
        var amount := ConvertFromContract(b.balance, m[key].multiplierPower, m[key].accuracy).value;
        var line := Balance(address, amount, m[key].id);
        assert TokenLines(address, balances, m) == Ok(prev + [line]);
        assert Filter(Mapped(m), balances) == kept + [b];
        TokenLinesOfSnoc(address, kept, m, prev, b, line);
      } else {
        assert TokenLines(address, balances, m) == Ok(prev);
        assert Filter(Mapped(m), balances) == kept;
      }
    }
  }

  lemma TokenLinesOfSnoc(address: string, kept: seq<TokenBalance>, m: map<string, Asset>, lines: seq<Balance>,
                         b: TokenBalance, line: Balance)
    requires TokenLinesOf(address, kept, m, lines)
    requires Lower(b.erc20TokenAddress) in m
    requires var asset := m[Lower(b.erc20TokenAddress)];
             ConvertFromContract(b.balance, asset.multiplierPower, asset.accuracy) == Ok(line.amount)
             && line == Balance(address, line.amount, asset.id)
    ensures TokenLinesOf(address, kept + [b], m, lines + [line])
  {
    assert IsTokenLine(address, b, m, line);
  }

  /** `line` carries the address read and the id of an asset of the dictionary. */
  predicate LineOfSomeAsset(address: string, m: map<string, Asset>, line: Balance)
  {
    line.address == address && exists key :: key in m && m[key].id == line.assetId
  }

  /** Lines of token balances carry the address and the id of an asset of the map. */
  lemma TokenLinesOfAssets(address: string, kept: seq<TokenBalance>, m: map<string, Asset>, lines: seq<Balance>)
    requires TokenLinesOf(address, kept, m, lines)
    ensures forall k :: 0 <= k < |lines| ==> LineOfSomeAsset(address, m, lines[k])
  {
    forall k | 0 <= k < |lines|
      ensures LineOfSomeAsset(address, m, lines[k])
    {
      assert IsTokenLine(address, kept[k], m, lines[k]);
      var key := Lower(kept[k].erc20TokenAddress);
      assert key in m && m[key].id == lines[k].assetId;
    }
  }

  /** A balance whose contract is not in the dictionary contributes nothing. */
  lemma UnmappedBalanceDropped(address: string, balances: seq<TokenBalance>, b: TokenBalance, m: map<string, Asset>)
    requires Lower(b.erc20TokenAddress) !in m
    ensures TokenLines(address, balances + [b], m) == TokenLines(address, balances, m)
  {
    assert (balances + [b])[..|balances|] == balances;
  }

  /** The ETH line: the native balance converted with the ETH asset's exponents.
      Without an ETH asset the `null` dereference throws. */
  function EthLine(eth: Option<Asset>, amount: int, address: string): Result<Balance>
  {
    if eth.None? then Err("Object reference not set to an instance of an object.")
    else
      match ConvertFromContract(amount, eth.value.multiplierPower, eth.value.accuracy)
      case Err(e) => Err(e)
      case Ok(a) => Ok(Balance(address, a, eth.value.id))
  }

  /** `ReadBalance` on invocation `attempt`.  The native balance call: a throw or an
      `ApiException` asks for a retry.  The token list from the asset directory and
      the token balance call: a throw is fatal, an `ApiException` asks for a retry.
      The token lines come first and the ETH line last. */
  function ReadBalanceSpec(core: EthereumCore, service: AssetsService, assets: seq<Asset>, address: string,
                           attempt: nat): Outcome<seq<Balance>>
  {
    match core.getBalance(address, attempt)
    case None => RetryNeeded("ApiRpcGetBalanceByAddressGetAsync failed")
    case Some(response) =>
      if response.BalanceApiException? then RetryNeeded(ErrorText(response.err))
      else
        match service.erc20Tokens(EthereumIds(assets))
        case Err(e) => Failed(e)
        case Ok(tokens) =>
          var pairs := JoinPairs(assets, tokens);
          var m := TokenMap(pairs);
          match core.erc20Balance(address, TokenAddresses(pairs), attempt)
          case None => Failed("ApiErc20BalancePostAsync failed")
          case Some(tokenReply) =>
            if tokenReply.TokenApiException? then RetryNeeded(ErrorText(tokenReply.err))
            else
              var tokenLines := if tokenReply.TokenBalances? then TokenLines(address, tokenReply.balances, m) else Ok([]);
              if tokenLines.Err? then Failed(tokenLines.error)
              else if !response.BalanceModel? then Done(tokenLines.value)
              else
                match EthLine(GetEthAsset(assets), response.amount, address)
                case Err(e) => Failed(e)
                case Ok(line) => Done(tokenLines.value + [line])
  }

  /** A successful read ends with the ETH line exactly when the node answered with a
      balance, and every line carries the address read.  Before it come the lines of
      the token balances whose contract is known, in order; the ETH line is the
      native balance converted with the ETH asset's exponents. */
  lemma ReadBalanceShape(core: EthereumCore, service: AssetsService, assets: seq<Asset>, address: string, attempt: nat)
    requires ReadBalanceSpec(core, service, assets, address, attempt).Done?
    ensures var lines := ReadBalanceSpec(core, service, assets, address, attempt).value;
            var response := core.getBalance(address, attempt).value;
            && (forall k :: 0 <= k < |lines| ==> lines[k].address == address)
            && (response.BalanceModel? ==>
                  |lines| > 0 && GetEthAsset(assets).Some? && lines[|lines| - 1].assetId == GetEthAsset(assets).value.id)
    ensures var lines := ReadBalanceSpec(core, service, assets, address, attempt).value;
            var response := core.getBalance(address, attempt).value;
            var pairs := JoinPairs(assets, service.erc20Tokens(EthereumIds(assets)).value);
            var m := TokenMap(pairs);
            var tokenReply := core.erc20Balance(address, TokenAddresses(pairs), attempt).value;
            var kept := if tokenReply.TokenBalances? then Filter(Mapped(m), tokenReply.balances) else [];
            && |lines| == |kept| + (if response.BalanceModel? then 1 else 0)
            && TokenLinesOf(address, kept, m, lines[..|kept|])
            && (response.BalanceModel? ==>
                  var eth := GetEthAsset(assets).value;
                  && ConvertFromContract(response.amount, eth.multiplierPower, eth.accuracy) == Ok(lines[|lines| - 1].amount)
                  && lines[|lines| - 1] == Balance(address, lines[|lines| - 1].amount, eth.id))
  {
    var response := core.getBalance(address, attempt).value;
    var tokens := service.erc20Tokens(EthereumIds(assets)).value;
    var pairs := JoinPairs(assets, tokens);
    var tokenReply := core.erc20Balance(address, TokenAddresses(pairs), attempt).value;
    if tokenReply.TokenBalances? {
      TokenLinesShape(address, tokenReply.balances, TokenMap(pairs));
    }
  }

  /** Which failures the retry policy sees as transient: a throw or an error reply of
      the native balance call, and an error reply of the token balance call. */
  lemma ReadBalanceRetries(core: EthereumCore, service: AssetsService, assets: seq<Asset>, address: string, attempt: nat)
    ensures core.getBalance(address, attempt).None? ==> ReadBalanceSpec(core, service, assets, address, attempt).RetryNeeded?
    ensures core.getBalance(address, attempt).Some? && core.getBalance(address, attempt).value.BalanceApiException? ==>
              ReadBalanceSpec(core, service, assets, address, attempt) ==
              RetryNeeded(ErrorText(core.getBalance(address, attempt).value.err))
    ensures core.getBalance(address, attempt).Some? && !core.getBalance(address, attempt).value.BalanceApiException? &&
            service.erc20Tokens(EthereumIds(assets)).Err? ==>
              ReadBalanceSpec(core, service, assets, address, attempt).Failed?
  {
  }

  // ---------------------------------------------------------------------------
  // The reader object
  // ---------------------------------------------------------------------------

  /** `EthereumBalanceReader`: its clients, and the lazily computed ERC-20 asset list
      (`_lazyErc20AssetsCache`), which keeps a failure as well as a value. */
  class EthereumBalanceReader {
    const core: EthereumCore
    const assetsService: AssetsService
    const isChecksumAddress: string -> bool
    var erc20AssetsCache: Option<Result<seq<Asset>>>
    /** How many times the asset directory was asked for every asset. */
    var directoryReads: nat

    /** The cache, once filled, holds the approved assets, and the directory was
        read exactly when it is filled. */
    predicate Valid()
      reads this
    {
      && (erc20AssetsCache.Some? ==> erc20AssetsCache.value == ApprovedTokenAssets(assetsService))
      && directoryReads == (if erc20AssetsCache.Some? then 1 else 0)
    }

    constructor (core: EthereumCore, assetsService: AssetsService, isChecksumAddress: string -> bool)
      ensures Valid()
      ensures this.core == core && this.assetsService == assetsService
      ensures this.isChecksumAddress == isChecksumAddress
      ensures erc20AssetsCache.None? && directoryReads == 0
    {
      this.core := core;
      this.assetsService := assetsService;
      this.isChecksumAddress := isChecksumAddress;
      erc20AssetsCache := None;
      directoryReads := 0;
    }

    /** `SelectRelatedAssetsAsync`: the approved assets, whatever assets are passed;
        the directory is read on the first call only. */
    method SelectRelatedAssets() returns (r: Result<seq<Asset>>)
      requires Valid()
      modifies this
      ensures Valid()
      ensures r == ApprovedTokenAssets(assetsService)
      ensures erc20AssetsCache == Some(r)
      ensures directoryReads == 1
    {
      if erc20AssetsCache.None? {
        erc20AssetsCache := Some(ApprovedTokenAssets(assetsService));
        directoryReads := directoryReads + 1;
      }
      r := erc20AssetsCache.value;
    }

    /** `ReadBalance`: the join fills the address dictionary pair by pair, then the
        token balances are converted one by one. */
    method ReadBalance(assets: seq<Asset>, address: string, attempt: nat) returns (r: Outcome<seq<Balance>>)
      ensures r == ReadBalanceSpec(core, assetsService, assets, address, attempt)
    {
      var reply := core.getBalance(address, attempt);
      if reply.None? {
        return RetryNeeded("ApiRpcGetBalanceByAddressGetAsync failed");
      }
      var response := reply.value;
      var ethAsset := GetEthAsset(assets);
      if response.BalanceApiException? {
        return RetryNeeded(ErrorText(response.err));
      }
      var tokenReply := assetsService.erc20Tokens(EthereumIds(assets));
      if tokenReply.Err? {
        return Failed(tokenReply.error);
      }
      var tokens := tokenReply.value;
      var erc20Asset, tokenAddresses := JoinTokens(assets, tokens);
      var balanceReply := core.erc20Balance(address, tokenAddresses, attempt);
      if balanceReply.None? {
        return Failed("ApiErc20BalancePostAsync failed");
      }
      if balanceReply.value.TokenApiException? {
        return RetryNeeded(ErrorText(balanceReply.value.err));
      }
      var result: seq<Balance> := [];
      if balanceReply.value.TokenBalances? {
        var lines := ConvertTokenBalances(address, balanceReply.value.balances, erc20Asset);
        if lines.Err? {
          return Failed(lines.error);
        }
        result := lines.value;
      }
      if response.BalanceModel? {
        var line := EthLine(ethAsset, response.amount, address);
        if line.Err? {
          return Failed(line.error);
        }
        result := result + [line.value];
      }
      return Done(result);
    }
  }

  /** The join of `ReadBalance`: for each asset, for each of its tokens, record the
      lowercased contract address. */
  method JoinTokens(assets: seq<Asset>, tokens: seq<Erc20Token>) returns (erc20Asset: map<string, Asset>, tokenAddresses: seq<string>)
    ensures erc20Asset == TokenMap(JoinPairs(assets, tokens))
    ensures tokenAddresses == TokenAddresses(JoinPairs(assets, tokens))
  {
    erc20Asset := map[];
    tokenAddresses := [];
    for i := 0 to |assets|
      invariant erc20Asset == TokenMap(JoinPairs(assets[..i], tokens))
      invariant tokenAddresses == TokenAddresses(JoinPairs(assets[..i], tokens))
    {
      assert assets[..i + 1][..i] == assets[..i];
      erc20Asset, tokenAddresses := JoinAsset(assets[i], tokens, erc20Asset, tokenAddresses, JoinPairs(assets[..i], tokens));
    }
    assert assets[..|assets|] == assets;
  }

  /** The inner loop of the join, for one asset. */
  method JoinAsset(asset: Asset, tokens: seq<Erc20Token>, m0: map<string, Asset>, addresses0: seq<string>,
                   ghost before: seq<(Asset, Erc20Token)>)
    returns (m: map<string, Asset>, addresses: seq<string>)
    requires m0 == TokenMap(before) && addresses0 == TokenAddresses(before)
    ensures m == TokenMap(before + Matches(asset, tokens))
    ensures addresses == TokenAddresses(before + Matches(asset, tokens))
  {
    m, addresses := m0, addresses0;
    ghost var pairs := before;
    assert before + Matches(asset, tokens[..0]) == before;
    for j := 0 to |tokens|
      invariant pairs == before + Matches(asset, tokens[..j])
      invariant m == TokenMap(pairs) && addresses == TokenAddresses(pairs)
    {
      var token := tokens[j];
      MatchesStep(asset, tokens, j);
      if token.assetId == asset.id {
        m, addresses := JoinToken(asset, token, m, addresses, pairs);
        assert (before + Matches(asset, tokens[..j])) + [(asset, token)] == before + (Matches(asset, tokens[..j]) + [(asset, token)]);
        pairs := pairs + [(asset, token)];
      }
    }
    assert tokens[..|tokens|] == tokens;
  }

  /** One matching token of the join: its lowercased address, when present, is
      recorded, and when not empty it maps to the asset. */
  method JoinToken(asset: Asset, token: Erc20Token, m0: map<string, Asset>, addresses0: seq<string>,
                   ghost pairs: seq<(Asset, Erc20Token)>)
    returns (m: map<string, Asset>, addresses: seq<string>)
    requires m0 == TokenMap(pairs) && addresses0 == TokenAddresses(pairs)
    ensures m == TokenMap(pairs + [(asset, token)]) && addresses == TokenAddresses(pairs + [(asset, token)])
  {
    m, addresses := m0, addresses0;
    PairStep(pairs, (asset, token));
    var assetAddress := LowerOpt(token.address);
    if !IsNullOrEmpty(assetAddress) {
      m := m[assetAddress.value := asset];
    }
    if assetAddress.Some? {
      addresses := addresses + [assetAddress.value];
    }
  }

  lemma MatchesStep(a: Asset, tokens: seq<Erc20Token>, j: nat)
    requires j < |tokens|
    ensures Matches(a, tokens[..j + 1]) ==
              Matches(a, tokens[..j]) + (if tokens[j].assetId == a.id then [(a, tokens[j])] else [])
  {
    assert tokens[..j + 1][..j] == tokens[..j];
  }

  lemma PairStep(pairs: seq<(Asset, Erc20Token)>, p: (Asset, Erc20Token))
    ensures TokenMap(pairs + [p]) ==
              (if !IsNullOrEmpty(PairAddress(p)) then TokenMap(pairs)[PairAddress(p).value := p.0] else TokenMap(pairs))
    ensures TokenAddresses(pairs + [p]) ==
              TokenAddresses(pairs) + (if PairAddress(p).Some? then [PairAddress(p).value] else [])
  {
    assert (pairs + [p])[..|pairs|] == pairs;
  }

  /** The token lines of `ReadBalance`, balance by balance. */
  method ConvertTokenBalances(address: string, balances: seq<TokenBalance>, erc20Asset: map<string, Asset>)
    returns (r: Result<seq<Balance>>)
    ensures r == TokenLines(address, balances, erc20Asset)
  {
    var lines: seq<Balance> := [];
    for i := 0 to |balances|
      invariant TokenLines(address, balances[..i], erc20Asset) == Ok(lines)
    {
      var b := balances[i];
      assert balances[..i + 1][..i] == balances[..i];
      var ercAddress := Lower(b.erc20TokenAddress);
      if ercAddress in erc20Asset {
        var asset := erc20Asset[ercAddress];
        var amount := ConvertFromContract(b.balance, asset.multiplierPower, asset.accuracy);
        if amount.Err? {
          TokenLinesAbort(address, balances, erc20Asset, i + 1);
          return Err(amount.error);
        }
        lines := lines + [Balance(address, amount.value, asset.id)];
      }
    }
    assert balances[..|balances|] == balances;
    return Ok(lines);
  }

  lemma {:induction false} TokenLinesAbort(address: string, balances: seq<TokenBalance>, m: map<string, Asset>, i: nat)
    requires i <= |balances| && TokenLines(address, balances[..i], m).Err?
    ensures TokenLines(address, balances, m) == TokenLines(address, balances[..i], m)
    decreases |balances| - i
  {
    if i < |balances| {
      assert balances[..i + 1][..i] == balances[..i];
      TokenLinesAbort(address, balances, m, i + 1);
    } else {
      assert balances[..i] == balances;
    }
  }

  /** `Create`: the Ethereum core URL is required. */
  method Create(settings: Option<EthereumSettings>, connect: string -> EthereumCore, assetsService: AssetsService,
                isChecksumAddress: string -> bool)
    returns (r: Result<EthereumBalanceReader>)
    ensures r.Ok? <==> settings.Some? && settings.value.ethereumCoreUrl.Some?
    ensures r.Err? ==> r.error == "EthereumCoreUrl"
    ensures r.Ok? ==> fresh(r.value) && r.value.Valid() && r.value.erc20AssetsCache.None?
    ensures r.Ok? ==> r.value.core == connect(settings.value.ethereumCoreUrl.value) &&
                      r.value.assetsService == assetsService && r.value.isChecksumAddress == isChecksumAddress
  {
    if settings.None? || settings.value.ethereumCoreUrl.None? {
      return Err("EthereumCoreUrl");
    }
    var reader := new EthereumBalanceReader(connect(settings.value.ethereumCoreUrl.value), assetsService, isChecksumAddress);
    return Ok(reader);
  }
}
