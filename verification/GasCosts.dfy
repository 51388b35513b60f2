/**
 Gas charged before execution (`IntrinsicGas`, `FloorDataGas`, `toWordSize` of
 core/state_transition.go) and the block gas pool (core/gaspool.go).
 */
module GasCosts {
  import opened Basics
  import opened StateDb

  newtype byte = x: int | 0 <= x < 256

  const TX_GAS: nat := 21000
  const TX_GAS_CONTRACT_CREATION: nat := 53000
  const TX_DATA_NON_ZERO_GAS_FRONTIER: nat := 68
  const TX_DATA_NON_ZERO_GAS_EIP2028: nat := 16
  const TX_DATA_ZERO_GAS: nat := 4
  const INIT_CODE_WORD_GAS: nat := 2
  const TX_ACCESS_LIST_ADDRESS_GAS: nat := 2400
  const TX_ACCESS_LIST_STORAGE_KEY_GAS: nat := 1900
  const CALL_NEW_ACCOUNT_GAS: nat := 25000
  const TX_TOKEN_PER_NON_ZERO_BYTE: nat := 4
  const TX_COST_FLOOR_PER_TOKEN: nat := 10

  /** How many addresses and how many storage keys an access list names. */
  datatype AccessList = AccessList(addresses: nat, storageKeys: nat)

  function Zeros(data: seq<byte>): (n: nat)
    ensures n <= |data|
  {
    if data == [] then 0
    else Zeros(data[..|data| - 1]) + if data[|data| - 1] == 0 then 1 else 0
  }

  /** 32-byte words needed for `size` bytes, computed within uint64. */
  function ToWordSize(size: nat): (r: nat)
    requires size <= MAX_UINT64
    ensures 32 * r >= size && 32 * r < size + 32
  {
    if size > MAX_UINT64 - 31 then MAX_UINT64 / 32 + 1 else (size + 31) / 32
  }

  /** The guard of the original: `n` items of price `price` do not fit on top of `gas`. */
  predicate Overflows(gas: nat, price: nat, n: nat)
    requires gas <= MAX_UINT64 && price > 0
  {
    (MAX_UINT64 - gas) / price < n
  }

  /** The guard is exact. */
  lemma OverflowsIsExact(gas: nat, price: nat, n: nat)
    requires gas <= MAX_UINT64 && price > 0
    ensures Overflows(gas, price, n) <==> gas + n * price > MAX_UINT64
  {
    var room := MAX_UINT64 - gas;
    var q := room / price;
    assert room == q * price + room % price;
    if q < n {
      MulMono(q + 1, n, price);
      assert (q + 1) * price == q * price + price;
    } else {
      MulMono(n, q, price);
    }
  }

  /** `n` more items on top of `gas`, or nothing on uint64 overflow. */
  function Charge(gas: Option<nat>, price: nat, n: nat): (r: Option<nat>)
    requires price > 0 && (gas.Some? ==> gas.value <= MAX_UINT64)
    ensures r.Some? <==> gas.Some? && gas.value + n * price <= MAX_UINT64
    ensures r.Some? ==> r.value == gas.value + n * price
  {
    if gas.None? then None
    else
      OverflowsIsExact(gas.value, price, n);
      if Overflows(gas.value, price, n) then None else Some(gas.value + n * price)
  }

  lemma MulMono(a: nat, b: nat, c: nat)
    requires a <= b
    ensures a * c <= b * c
  {
  }

  function NonZeroGas(isEIP2028: bool): nat {
    if isEIP2028 then TX_DATA_NON_ZERO_GAS_EIP2028 else TX_DATA_NON_ZERO_GAS_FRONTIER
  }

  function BaseGas(isContractCreation: bool, isHomestead: bool): nat {
    if isContractCreation && isHomestead then TX_GAS_CONTRACT_CREATION else TX_GAS
  }

  /** The gas for the transaction and its data, or nothing on uint64 overflow. */
  function DataGas(data: seq<byte>, isContractCreation: bool, isHomestead: bool, isEIP2028: bool,
                   isEIP3860: bool): (r: Option<nat>)
    requires |data| <= MAX_UINT64
    ensures r.Some? ==> r.value <= MAX_UINT64
  {
    var gas := Some(BaseGas(isContractCreation, isHomestead));
    if |data| == 0 then gas
    else
      var z := Zeros(data);
      var gas1 := Charge(gas, NonZeroGas(isEIP2028), |data| - z);
      var gas2 := Charge(gas1, TX_DATA_ZERO_GAS, z);
      if isContractCreation && isEIP3860 then Charge(gas2, INIT_CODE_WORD_GAS, ToWordSize(|data|)) else gas2
  }

  /** The access list charge, added without a check: it wraps. */
  function AddAccessList(gas: nat, accessList: Option<AccessList>): nat {
    if accessList.None? then gas
    else (gas + accessList.value.addresses * TX_ACCESS_LIST_ADDRESS_GAS
          + accessList.value.storageKeys * TX_ACCESS_LIST_STORAGE_KEY_GAS) % U64
  }

  /** The authorization list charge, added without a check: it wraps. */
  function AddAuthorizations(gas: nat, auths: Option<nat>): nat {
    if auths.None? then gas else (gas + auths.value * CALL_NEW_ACCOUNT_GAS) % U64
  }

  function IntrinsicGas(data: seq<byte>, accessList: Option<AccessList>, auths: Option<nat>,
                        isContractCreation: bool, isHomestead: bool, isEIP2028: bool, isEIP3860: bool): Option<nat>
    requires |data| <= MAX_UINT64
  {
    match DataGas(data, isContractCreation, isHomestead, isEIP2028, isEIP3860)
    case None => None
    case Some(gas) => Some(AddAuthorizations(AddAccessList(gas, accessList), auths))
  }

  // ------------------------------------------------------------------ the fee schedule

  /** The price of data byte by byte. */
  ghost function ByteSum(data: seq<byte>, zero: nat, nonzero: nat): nat {
    if data == [] then 0
    else ByteSum(data[..|data| - 1], zero, nonzero) + if data[|data| - 1] == 0 then zero else nonzero
  }

  /** The count of zero bytes is the number of their positions. */
  lemma {:induction false} ZerosAreCounted(data: seq<byte>)
    ensures Zeros(data) == |set i | 0 <= i < |data| && data[i] == 0|
  {
    if data != [] {
      var n := |data| - 1;
      ZerosAreCounted(data[..n]);
      var before := set i | 0 <= i < n && data[..n][i] == 0;
      var all := set i | 0 <= i < |data| && data[i] == 0;
      assert all == before + if data[n] == 0 then {n} else {};
    }
  }

  /** Pricing by counts is pricing byte by byte. */
  lemma {:induction false} CountedBytes(data: seq<byte>, zero: nat, nonzero: nat)
    ensures ByteSum(data, zero, nonzero) == (|data| - Zeros(data)) * nonzero + Zeros(data) * zero
  {
    if data != [] {
      var rest := data[..|data| - 1];
      CountedBytes(rest, zero, nonzero);
      assert (|rest| - Zeros(rest) + 1) * nonzero == (|rest| - Zeros(rest)) * nonzero + nonzero;
      assert (Zeros(rest) + 1) * zero == Zeros(rest) * zero + zero;
    }
  }

  /** What the transaction and its data cost. */
  ghost function ExactDataGas(data: seq<byte>, isContractCreation: bool, isHomestead: bool, isEIP2028: bool,
                              isEIP3860: bool): nat
  {
    (if isContractCreation && isHomestead then 53000 else 21000)
    + ByteSum(data, 4, if isEIP2028 then 16 else 68)
    + if isContractCreation && isEIP3860 then (|data| + 31) / 32 * 2 else 0
  }

  /** What the lists cost. */
  ghost function ListGas(accessList: Option<AccessList>, auths: Option<nat>): nat {
    (if accessList.None? then 0 else accessList.value.addresses * 2400 + accessList.value.storageKeys * 1900)
    + if auths.None? then 0 else auths.value * 25000
  }

  /** The data gas overflows exactly when the true cost leaves uint64, and is the true cost
      otherwise. */
  lemma DataGasIsExact(data: seq<byte>, creation: bool, homestead: bool, eip2028: bool, eip3860: bool)
    requires |data| <= MAX_UINT64
    ensures var exact := ExactDataGas(data, creation, homestead, eip2028, eip3860);
            DataGas(data, creation, homestead, eip2028, eip3860) == if exact > MAX_UINT64 then None else Some(exact)
  {
    CountedBytes(data, 4, if eip2028 then 16 else 68);
    assert ToWordSize(|data|) == (|data| + 31) / 32;
  }

  /** As long as the whole cost fits in uint64 the intrinsic gas is that cost, and never free. */
  lemma IntrinsicGasIsExact(data: seq<byte>, accessList: Option<AccessList>, auths: Option<nat>,
                            creation: bool, homestead: bool, eip2028: bool, eip3860: bool)
    requires |data| <= MAX_UINT64
    requires ExactDataGas(data, creation, homestead, eip2028, eip3860) + ListGas(accessList, auths) <= MAX_UINT64
    ensures IntrinsicGas(data, accessList, auths, creation, homestead, eip2028, eip3860)
            == Some(ExactDataGas(data, creation, homestead, eip2028, eip3860) + ListGas(accessList, auths))
    ensures ExactDataGas(data, creation, homestead, eip2028, eip3860) >= TX_GAS
  {
    DataGasIsExact(data, creation, homestead, eip2028, eip3860);
    ListsAreExact(ExactDataGas(data, creation, homestead, eip2028, eip3860), accessList, auths);
  }

  lemma ListsAreExact(gas: nat, accessList: Option<AccessList>, auths: Option<nat>)
    requires gas + ListGas(accessList, auths) <= MAX_UINT64
    ensures AddAuthorizations(AddAccessList(gas, accessList), auths) == gas + ListGas(accessList, auths)
  {
    var gas1 := gas + ListGas(accessList, None);
    SmallMod(gas1);
    assert AddAccessList(gas, accessList) == gas1;
    SmallMod(gas + ListGas(accessList, auths));
  }

  /** Tokens of EIP-7623. */
  function Tokens(data: seq<byte>): nat {
    (|data| - Zeros(data)) * TX_TOKEN_PER_NON_ZERO_BYTE + Zeros(data)
  }

  /** The calldata floor of EIP-7623; the token count wraps. */
  function FloorDataGas(data: seq<byte>): Option<nat> {
    Charge(Some(TX_GAS), TX_COST_FLOOR_PER_TOKEN, Tokens(data) % U64)
  }

  /** The floor is ten gas for a token, of which a zero byte has one and another byte four. */
  lemma FloorDataGasIsExact(data: seq<byte>)
    requires ByteSum(data, 1, 4) <= MAX_UINT64
    ensures var exact := 21000 + ByteSum(data, 1, 4) * 10;
            FloorDataGas(data) == if exact > MAX_UINT64 then None else Some(exact)
  {
    CountedBytes(data, 1, 4);
    SmallMod(Tokens(data));
  }

  lemma SmallMod(x: nat)
    requires x < U64
    ensures x % U64 == x
  {
  }

  class GasPool {
    var gas: nat

    ghost predicate Valid()
      reads this
    {
      gas <= MAX_UINT64
    }

    constructor ()
      ensures Valid() && gas == 0
    {
      gas := 0;
    }

    /** Refuses, by a panic in the original, to leave uint64. */
    method AddGas(amount: nat) returns (panicked: bool)
      requires Valid() && amount <= MAX_UINT64
      modifies this
      ensures Valid() && (panicked <==> old(gas) + amount > MAX_UINT64)
      ensures gas == if panicked then old(gas) else old(gas) + amount
    {
      panicked := gas > MAX_UINT64 - amount;
      if !panicked {
        gas := gas + amount;
      }
    }

    method SubGas(amount: nat) returns (ok: bool)
      requires Valid()
      modifies this
      ensures Valid() && (ok <==> amount <= old(gas))
      ensures gas == if ok then old(gas) - amount else old(gas)
    {
      ok := gas >= amount;
      if ok {
        gas := gas - amount;
      }
    }
  }
}
