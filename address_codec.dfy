/** Address classification by the header nibble (the "Shelley addresses /
    header types" table of CIP-19, Cardano Addresses) and the stake-key
    derivation the stake-mode reducers use.

    The byte-level encoders (bech32 of BIP-173, base58, Byron CBOR) belong to
    foreign libraries: the CML library in the TypeScript reducers and pallas in
    the Rust reducer. They are modelled as records of functions the caller
    supplies; only the classification and the reward-address layout, which
    CIP-19 fixes, are concrete. */
module AddressCodec {
  import opened Wrappers
  import opened Chain

  /** What the CML library offers the reducers. */
  datatype Cml = Cml(
    /** `C.Address.from_bytes` returns instead of throwing. */
    accepts: seq<byte> -> bool,
    /** `address.to_bech32(prefix)`; `None` is `undefined`, which lets the
        library pick the prefix from the address kind and network. The empty
        string stands for a falsy result. */
    bech32: (seq<byte>, Option<string>) -> string,
    /** `address.as_byron().to_base58()`. */
    base58: seq<byte> -> string
  )

  /** What a TypeScript reducer throws while keying an output. */
  datatype Thrown =
    | FromBytesThrew                     // `C.Address.from_bytes` rejected the bytes
    | CouldNotParse(hex: string)         // `address "<hex>" could not be parsed!`
    | NotImplemented(addressType: string) // `address type "<t>" not implemented`

  /** What the pallas library offers the Rust reducer. */
  datatype Pallas = Pallas(
    /** `Address::from_bytes` returns `Ok`. */
    accepts: seq<byte> -> bool,
    /** `address.to_string()`. */
    display: seq<byte> -> string
  )

  /** The top four bits of the header byte (`header & 0b11110000`, shifted
      down). An empty byte string reads as header 0, as `undefined & 0xF0`
      does in JavaScript. */
  function HeaderType(bytes: seq<byte>): (t: nat)
    ensures t < 16
  {
    if bytes == [] then 0 else bytes[0] / 16
  }

  /** The low four bits of the header byte: the network id of a Shelley
      address. */
  function NetworkId(bytes: seq<byte>): (n: nat)
    ensures n < 16
  {
    if bytes == [] then 0 else bytes[0] % 16
  }

  /** The CIP-19 header types. */
  datatype Kind = BaseAddress | PointerAddress | EnterpriseAddress | ByronAddress | RewardAddress | Unassigned

  function KindOf(headerType: nat): (k: Kind)
    requires headerType < 16
    ensures k == BaseAddress <==> headerType <= 3
    ensures k == PointerAddress <==> 4 <= headerType <= 5
    ensures k == EnterpriseAddress <==> 6 <= headerType <= 7
    ensures k == ByronAddress <==> headerType == 8
    ensures k == RewardAddress <==> 14 <= headerType
    ensures k == Unassigned <==> 9 <= headerType <= 13
  {
    if headerType <= 3 then BaseAddress
    else if headerType <= 5 then PointerAddress
    else if headerType <= 7 then EnterpriseAddress
    else if headerType == 8 then ByronAddress
    else if headerType <= 13 then Unassigned
    else RewardAddress
  }

  /** Length of a credential hash (a Blake2b-224 digest). */
  const HashLength := 28
  /** A base address: header byte, payment credential, stake credential. */
  const BaseLength := 1 + 2 * HashLength

  /** `address.as_base()` is present: a base header type and the base layout. */
  predicate IsBase(bytes: seq<byte>) {
    |bytes| == BaseLength && KindOf(HeaderType(bytes)) == BaseAddress
  }

  /** `address.as_byron()` is present. */
  predicate IsByron(bytes: seq<byte>) {
    KindOf(HeaderType(bytes)) == ByronAddress
  }

  /** A staking credential: a key hash or a script hash. */
  datatype Credential = Credential(isScript: bool, hash: seq<byte>)

  /** `as_base().stake_cred()`: the second credential of a base address; its
      kind is bit 5 of the header (header types 2 and 3 delegate to a script). */
  function StakeCredential(bytes: seq<byte>): (c: Credential)
    requires IsBase(bytes)
    ensures |c.hash| == HashLength
  {
    Credential(HeaderType(bytes) >= 2, bytes[1 + HashLength..])
  }

  /** `RewardAddress.new(network, cred).to_address()`: header type 14 for a
      key hash, 15 for a script hash, the network in the low nibble, then the
      hash. */
  function RewardAddressBytes(network: nat, cred: Credential): seq<byte>
    requires network < 16
  {
    [(if cred.isScript then 0xF0 else 0xE0) + network] + cred.hash
  }

  /** Reading a reward address back: its network and its credential. */
  function ReadReward(bytes: seq<byte>): (nc: (nat, Credential))
    requires KindOf(HeaderType(bytes)) == RewardAddress
  {
    (NetworkId(bytes), Credential(HeaderType(bytes) == 15, bytes[1..]))
  }

  /** A rebuilt reward address is classified as a reward address, and its
      network and credential read back unchanged. */
  lemma RewardAddressRoundTrip(network: nat, cred: Credential)
    requires network < 16
    ensures KindOf(HeaderType(RewardAddressBytes(network, cred))) == RewardAddress
    ensures ReadReward(RewardAddressBytes(network, cred)) == (network, cred)
  {
    var b := RewardAddressBytes(network, cred);
    assert b[1..] == cred.hash;
  }

  /** The stake-mode key of an address: the bech32 form of the reward address
      rebuilt from the network id and the stake credential, for base
      addresses only; every other address yields no key. */
  function StakeKey(lib: Cml, bytes: seq<byte>): (k: Option<string>)
    ensures k.Some? <==> IsBase(bytes)
    ensures IsBase(bytes) ==>
      k == Some(lib.bech32(RewardAddressBytes(NetworkId(bytes), StakeCredential(bytes)), None))
  {
    if IsBase(bytes) then
      Some(lib.bech32(RewardAddressBytes(NetworkId(bytes), StakeCredential(bytes)), None))
    else None
  }

  /** Two base addresses on the same network that delegate to the same stake
      credential share one stake key, whatever their payment parts. */
  lemma StakeKeyIgnoresPaymentPart(lib: Cml, a: seq<byte>, b: seq<byte>)
    requires IsBase(a) && IsBase(b)
    requires NetworkId(a) == NetworkId(b) && StakeCredential(a) == StakeCredential(b)
    ensures StakeKey(lib, a) == StakeKey(lib, b)
  {
  }

  /** Byron, pointer, enterprise and reward addresses carry no stake key. */
  lemma NonBaseHasNoStakeKey(lib: Cml, bytes: seq<byte>)
    requires KindOf(HeaderType(bytes)) != BaseAddress
    ensures StakeKey(lib, bytes) == None
  {
  }
}
