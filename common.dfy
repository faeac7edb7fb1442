/** Values shared by both report tools: nullable references, exception
    outcomes, the asset directory's Asset record, powers of ten and the
    ASCII case folding that `ToLower` performs on addresses. */
module Common {

  /** A reference that may be null. */
  datatype Option<+T> = None | Some(value: T)

  /** A value or the message of the exception that replaced it. */
  datatype Result<+T> = Ok(value: T) | Err(error: string)

  /** The asset directory's `Blockchain` enumeration, reduced to the members the tools test. */
  datatype Blockchain = NoChain | Bitcoin | Ethereum | OtherChain(name: string)

  function ChainName(b: Blockchain): string
  {
    match b
    case NoChain => "None"
    case Bitcoin => "Bitcoin"
    case Ethereum => "Ethereum"
    case OtherChain(name) => name
  }

  /** An asset of the asset directory.  `blockChainAssetId` is null for many assets;
      `multiplierPower` and `accuracy` are the fixed-point exponents. */
  datatype Asset = Asset(
    id: string,
    blockchain: Blockchain,
    blockChainAssetId: Option<string>,
    multiplierPower: nat,
    accuracy: nat)

  /** One row a balance reader reports: an address, an amount and the asset id. */
  datatype Balance = Balance(address: string, amount: real, assetId: string)

  /** An ERC-20 token entry of the asset directory: the asset it belongs to and its
      contract address, which may be null. */
  datatype Erc20Token = Erc20Token(assetId: string, address: Option<string>)

  /** The asset directory (`IAssetsService`): every call either answers or fails.
      `erc20Tokens` answers `Erc20TokenGetBySpecificationAsync` for a list of ids. */
  datatype AssetsService = AssetsService(
    getAll: Result<seq<Asset>>,
    get: string -> Result<Option<Asset>>,
    erc20Tokens: seq<string> -> Result<seq<Erc20Token>>)

  /** `string.IsNullOrEmpty`. */
  predicate IsNullOrEmpty(s: Option<string>)
  {
    s.None? || s.value == ""
  }

  function Pow10(n: nat): (r: nat)
    ensures r >= 1
  {
    if n == 0 then 1 else 10 * Pow10(n - 1)
  }

  lemma {:induction false} Pow10Add(a: nat, b: nat)
    ensures Pow10(a + b) == Pow10(a) * Pow10(b)
  {
    if a > 0 {
      Pow10Add(a - 1, b);
      assert Pow10(a + b) == 10 * Pow10(a - 1 + b);
    }
  }

  /** `Asset.Multiplier()` of the assets client: 10 to the power -MultiplierPower. */
  function Multiplier(asset: Asset): (m: real)
    ensures 0.0 < m <= 1.0
  {
    1.0 / (Pow10(asset.multiplierPower) as real)
  }

  /** A quantity of the asset's smallest units in units of the asset:
      `quantity * asset.Multiplier()`. */
  function Scaled(quantity: int, asset: Asset): real
  {
    quantity as real * Multiplier(asset)
  }

  /** `char.ToLower` on the ASCII letters; addresses and contract addresses are ASCII. */
  function LowerChar(c: char): char
  {
    if 'A' <= c <= 'Z' then (c as int + 32) as char else c
  }

  /** `string.ToLower`. */
  function Lower(s: string): (r: string)
    ensures |r| == |s|
    ensures forall i :: 0 <= i < |s| ==> r[i] == LowerChar(s[i])
  {
    seq(|s|, i requires 0 <= i < |s| => LowerChar(s[i]))
  }

  /** `s?.ToLower()`. */
  function LowerOpt(s: Option<string>): (r: Option<string>)
    ensures r.Some? <==> s.Some?
  {
    match s
    case None => None
    case Some(v) => Some(Lower(v))
  }

  lemma LowerIdempotent(s: string)
    ensures Lower(Lower(s)) == Lower(s)
  {
    var l := Lower(s);
    assert forall i :: 0 <= i < |s| ==> Lower(l)[i] == l[i];
  }
}
