// Intrinsic gas and the data floor of core/state_transition.go, in uint64 arithmetic.
module GasSchedule {
  import opened Base

  type Byte = x: nat | x < 256

  datatype Params = Params(
    txGas: U64, txGasContractCreation: U64, nonZeroFrontier: U64, nonZeroEIP2028: U64, zeroGas: U64,
    initCodeWordGas: U64, accessListAddressGas: U64, accessListKeyGas: U64, callNewAccountGas: U64,
    tokenPerNonZeroByte: U64, floorPerToken: U64, refundQuotient: U64, refundQuotientEIP3529: U64,
    blobGasPerBlob: U64, blobTxMaxBlobs: nat, maxInitCodeSize: nat, maxTxGas: U64)

  predicate Positive(p: Params) {
    && p.txGas > 0 && p.txGasContractCreation > 0 && p.nonZeroFrontier > 0 && p.nonZeroEIP2028 > 0 && p.zeroGas > 0
    && p.initCodeWordGas > 0 && p.floorPerToken > 0 && p.refundQuotient > 0 && p.refundQuotientEIP3529 > 0
  }

  function CountZero(data: seq<Byte>): (z: nat)
    ensures z == multiset(data)[0] <= |data|
  {
    assert data != [] ==> data == [data[0]] + data[1..];
    if data == [] then 0 else (if data[0] == 0 then 1 else 0) + CountZero(data[1..])
  }

  // toWordSize: the number of 32-byte words, rounded up, for every uint64.
  function ToWordSize(size: U64): (words: U64)
    ensures 32 * words >= size && 32 * words < size + 32
  {
    if size > TWO_64 - 1 - 31 then (TWO_64 - 1) / 32 + 1 else (size + 31) / 32
  }

  // What `count` units cost, without any word size.
  function Cost(count: nat, price: nat): (r: nat) {
    count * price
  }

  // The overflow guard of the source is exact.
  lemma GuardIsExact(gas: U64, count: nat, price: nat)
    requires price > 0
    ensures (TWO_64 - 1 - gas) / price < count <==> gas + Cost(count, price) >= TWO_64
  {
    var room := TWO_64 - 1 - gas;
    var q := room / price;
    assert room == price * q + room % price;
    if q < count {
      MulMonotone(q + 1, count, price);
      assert (q + 1) * price == price * q + price;
    } else {
      MulMonotone(count, q, price);
      assert q * price == price * q;
    }
  }

  lemma MulMonotone(a: nat, b: nat, c: nat)
    requires a <= b
    ensures a * c <= b * c
  {
  }

  // The data part without any word size: base, bytes, init code words.
  ghost function DataGas(p: Params, data: seq<Byte>, creation: bool, homestead: bool, eip2028: bool, eip3860: bool): nat {
    var base := if creation && homestead then p.txGasContractCreation else p.txGas;
    var nonZero := if eip2028 then p.nonZeroEIP2028 else p.nonZeroFrontier;
    base + Cost(|data| - CountZero(data), nonZero) + Cost(CountZero(data), p.zeroGas) +
    (if creation && eip3860 then Cost((|data| + 31) / 32, p.initCodeWordGas) else 0)
  }

  ghost function ListGas(p: Params, keys: Option<seq<nat>>, auths: Option<nat>): nat {
    (if keys.Some? then Cost(|keys.value|, p.accessListAddressGas) + Cost(Sum(keys.value), p.accessListKeyGas) else 0) +
    (if auths.Some? then Cost(auths.value, p.callNewAccountGas) else 0)
  }

  lemma FreeData(p: Params)
    ensures Cost(0, p.nonZeroFrontier) == Cost(0, p.nonZeroEIP2028) == Cost(0, p.zeroGas) == Cost(0, p.initCodeWordGas) == 0
  {
  }

  lemma OneUnitMore(count: nat, price: nat)
    ensures Cost(0, price) == 0 && Cost(count + 1, price) == Cost(count, price) + price
  {
  }

  // The data part byte by byte: each pays its price, and of init code every 32nd pays for a
  // word.
  lemma ByteByByte(p: Params, data: seq<Byte>, b: Byte, creation: bool, homestead: bool, eip2028: bool, eip3860: bool)
    ensures DataGas(p, [], creation, homestead, eip2028, eip3860) ==
              if creation && homestead then p.txGasContractCreation else p.txGas
    ensures DataGas(p, data + [b], creation, homestead, eip2028, eip3860) ==
              DataGas(p, data, creation, homestead, eip2028, eip3860) +
              (if b == 0 then p.zeroGas else if eip2028 then p.nonZeroEIP2028 else p.nonZeroFrontier) +
              (if creation && eip3860 && |data| % 32 == 0 then p.initCodeWordGas else 0)
  {
    hide Cost, CountZero;
    FreeData(p);
    var z := CountZero(data);
    assert CountZero(data + [b]) == z + (if b == 0 then 1 else 0);
    OneUnitMore(z, p.zeroGas);
    OneUnitMore(|data| - z, if eip2028 then p.nonZeroEIP2028 else p.nonZeroFrontier);
    OneUnitMore((|data| + 31) / 32, p.initCodeWordGas);
  }

  // The list part entry by entry: each address, each of its keys and each authorization pays.
  lemma EntryByEntry(p: Params, keys: seq<nat>, k: nat, list: Option<seq<nat>>, auths: Option<nat>, n: nat)
    ensures ListGas(p, None, None) == 0
    ensures ListGas(p, Some([]), auths) == ListGas(p, None, auths)
    ensures ListGas(p, Some(keys + [k]), auths) ==
              ListGas(p, Some(keys), auths) + p.accessListAddressGas + k * p.accessListKeyGas
    ensures ListGas(p, list, Some(0)) == ListGas(p, list, None)
    ensures ListGas(p, list, Some(n + 1)) == ListGas(p, list, Some(n)) + p.callNewAccountGas
  {
    SumAppend(keys, k);
    OneUnitMore(|keys|, p.accessListAddressGas);
    assert Cost(Sum(keys) + k, p.accessListKeyGas) == Cost(Sum(keys), p.accessListKeyGas) + k * p.accessListKeyGas;
    OneUnitMore(n, p.callNewAccountGas);
  }

  // IntrinsicGas. An access list is given by the number of storage keys of each entry.
  // The data part overflows exactly when its true value does not fit; the list part is
  // added without a check, so the result is the true sum modulo 2^64.
  method IntrinsicGas(p: Params, data: seq<Byte>, keys: Option<seq<nat>>, auths: Option<nat>,
                      creation: bool, homestead: bool, eip2028: bool, eip3860: bool) returns (r: Option<U64>)
    requires Positive(p) && |data| < TWO_64
    ensures r.None? <==> DataGas(p, data, creation, homestead, eip2028, eip3860) >= TWO_64
    ensures r.Some? ==>
              r.value == (DataGas(p, data, creation, homestead, eip2028, eip3860) + ListGas(p, keys, auths)) % TWO_64
  {
    hide Cost, ListGas;
    FreeData(p);
    var gas: U64 := if creation && homestead then p.txGasContractCreation else p.txGas;
    var dataLen := |data|;
    if dataLen > 0 {
      var z := CountZero(data);
      var nz := dataLen - z;
      var nonZeroGas := if eip2028 then p.nonZeroEIP2028 else p.nonZeroFrontier;
      GuardIsExact(gas, nz, nonZeroGas);
      if (TWO_64 - 1 - gas) / nonZeroGas < nz {
        return None;
      }
      gas := gas + Cost(nz, nonZeroGas);
      GuardIsExact(gas, z, p.zeroGas);
      if (TWO_64 - 1 - gas) / p.zeroGas < z {
        return None;
      }
      gas := gas + Cost(z, p.zeroGas);
      if creation && eip3860 {
        var lenWords := ToWordSize(dataLen);
        GuardIsExact(gas, lenWords, p.initCodeWordGas);
        if (TWO_64 - 1 - gas) / p.initCodeWordGas < lenWords {
          return None;
        }
        gas := gas + Cost(lenWords, p.initCodeWordGas);
      }
    }
    gas := AddLists(p, gas, keys, auths);
    r := Some(gas);
  }

  // The unchecked uint64 additions of the list part.
  method AddLists(p: Params, gas: U64, keys: Option<seq<nat>>, auths: Option<nat>) returns (r: U64)
    ensures r == (gas + ListGas(p, keys, auths)) % TWO_64
  {
    hide Cost, Add64;
    ghost var total: nat := gas;
    r := gas;
    if keys.Some? {
      Add64Mod(total, Cost(|keys.value|, p.accessListAddressGas));
      r := Add64(r, Cost(|keys.value|, p.accessListAddressGas));
      total := total + Cost(|keys.value|, p.accessListAddressGas);
      Add64Mod(total, Cost(Sum(keys.value), p.accessListKeyGas));
      r := Add64(r, Cost(Sum(keys.value), p.accessListKeyGas));
      total := total + Cost(Sum(keys.value), p.accessListKeyGas);
    }
    if auths.Some? {
      Add64Mod(total, Cost(auths.value, p.callNewAccountGas));
      r := Add64(r, Cost(auths.value, p.callNewAccountGas));
      total := total + Cost(auths.value, p.callNewAccountGas);
    }
    assert total == gas + ListGas(p, keys, auths);
  }

  ghost function Tokens(p: Params, data: seq<Byte>): nat {
    Cost(|data| - CountZero(data), p.tokenPerNonZeroByte) + CountZero(data)
  }

  // The token count byte by byte.
  lemma TokenByToken(p: Params, data: seq<Byte>, b: Byte)
    ensures Tokens(p, []) == 0
    ensures Tokens(p, data + [b]) == Tokens(p, data) + (if b == 0 then 1 else p.tokenPerNonZeroByte)
  {
    hide Cost, CountZero;
    var z := CountZero(data);
    assert CountZero(data + [b]) == z + (if b == 0 then 1 else 0);
    OneUnitMore(|data| - z, p.tokenPerNonZeroByte);
  }

  // The floor of EIP-7623 with the token count as the source computes it, modulo 2^64.
  ghost function Floor(p: Params, data: seq<Byte>): nat {
    p.txGas + Cost(Tokens(p, data) % TWO_64, p.floorPerToken)
  }

  // FloorDataGas: an error exactly when the floor does not fit a uint64. The token count
  // is computed without a check, so this is the true floor while the count fits.
  method FloorDataGas(p: Params, data: seq<Byte>) returns (r: Option<U64>)
    requires Positive(p) && |data| < TWO_64
    ensures r.None? <==> Floor(p, data) >= TWO_64
    ensures r.Some? ==> r.value == Floor(p, data)
    ensures Tokens(p, data) < TWO_64 ==> Floor(p, data) == p.txGas + Cost(Tokens(p, data), p.floorPerToken)
  {
    hide Cost, CountZero;
    var z := CountZero(data);
    var nz := |data| - z;
    var tokens: U64 := (Cost(nz, p.tokenPerNonZeroByte) + z) % TWO_64;
    assert tokens == Tokens(p, data) % TWO_64;
    var tooMany := (TWO_64 - 1 - p.txGas) / p.floorPerToken < tokens;
    assert tooMany <==> p.txGas + Cost(tokens, p.floorPerToken) >= TWO_64 by {
      GuardIsExact(p.txGas, tokens, p.floorPerToken);
    }
    if tooMany {
      return None;
    }
    r := Some(p.txGas + Cost(tokens, p.floorPerToken));
  }
}
