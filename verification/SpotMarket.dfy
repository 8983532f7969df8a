/** Spot market keys. The SDK parsers are not visible, so they are parameters with the laws
    the service relies on. */
module SpotMarkets {
  import opened Machine
  import opened Text

  type Bytes = seq<bv8>

  datatype Parsers = Parsers(
    parseContract: string -> Option<Bytes>,
    parseAddress: string -> Option<Bytes>,
    showContract: Bytes -> string,
    contractLength: nat)

  /** Contract addresses print without margins and parse back; addresses are long enough to
      cut a contract address from. */
  ghost predicate Lawful(p: Parsers) {
    && (forall s :: p.parseContract(s).Some? ==> |p.parseContract(s).value| == p.contractLength)
    && (forall s :: p.parseAddress(s).Some? ==> |p.parseAddress(s).value| >= p.contractLength)
    && (forall c :: |c| == p.contractLength ==>
          p.parseContract(p.showContract(c)) == Some(c) && Trimmed(p.showContract(c)))
  }

  type Sdk = p: Parsers | Lawful(p)
    witness Parsers(s => if s == "0" then Some([]) else None, s => None, c => "0", 0)

  function NormalizeTrimmed(sdk: Sdk, trimmed: string): string {
    match sdk.parseContract(trimmed)
    case Some(contract) => sdk.showContract(contract)
    case None =>
      match sdk.parseAddress(trimmed)
      case Some(address) => sdk.showContract(address[..sdk.contractLength])
      case None => trimmed
  }

  function Normalize(sdk: Sdk, value: string): string {
    NormalizeTrimmed(sdk, Trim(value))
  }

  lemma NormalizeTrimmedTwice(sdk: Sdk, t: string)
    requires Trimmed(t)
    ensures Trimmed(NormalizeTrimmed(sdk, t))
    ensures NormalizeTrimmed(sdk, NormalizeTrimmed(sdk, t)) == NormalizeTrimmed(sdk, t)
  {
  }

  /** A key that is already normal stays as it is. */
  lemma NormalizeIdempotent(sdk: Sdk, value: string)
    ensures Normalize(sdk, Normalize(sdk, value)) == Normalize(sdk, value)
  {
    TrimFixed(value);
    NormalizeTrimmedTwice(sdk, Trim(value));
    TrimFixed(Normalize(sdk, value));
  }

  /** The contract a text names: its own, or the leading bytes of the address it is. */
  function Named(sdk: Sdk, value: string): Option<Bytes> {
    var contract, address := sdk.parseContract(Trim(value)), sdk.parseAddress(Trim(value));
    if contract.Some? then contract
    else if address.Some? then Some(address.value[..sdk.contractLength])
    else None
  }

  /** Texts that name a contract share a key exactly if they name the same one, and the key is that
      contract's text; any other text is its own key, up to its margins. */
  lemma KeyNames(sdk: Sdk, a: string, b: string)
    ensures var c, d := Named(sdk, a), Named(sdk, b);
            && (c.Some? && d.Some? ==> (Normalize(sdk, a) == Normalize(sdk, b) <==> c == d))
            && (c.Some? ==> sdk.parseContract(Normalize(sdk, a)) == c && Normalize(sdk, a) == sdk.showContract(c.value))
            && (c.None? ==> Normalize(sdk, a) == Trim(a))
  {
    hide Trim, Trimmed;
  }

  function ChainOrderKey(sdk: Sdk, spotMarket: string, chainOrderId: string): string {
    Normalize(sdk, spotMarket) + ":" + chainOrderId
  }

  /** With colon-free order ids, a key names one normalised spot and one order id. */
  lemma KeyInjective(sdk: Sdk, s: string, x: string, t: string, y: string)
    requires ColonFree(x) && ColonFree(y)
    ensures ChainOrderKey(sdk, s, x) == ChainOrderKey(sdk, t, y)
       <==> Normalize(sdk, s) == Normalize(sdk, t) && x == y
  {
    hide Normalize;
    if ChainOrderKey(sdk, s, x) == ChainOrderKey(sdk, t, y) {
      ColonSplit(Normalize(sdk, s), x, Normalize(sdk, t), y);
    }
  }
}
