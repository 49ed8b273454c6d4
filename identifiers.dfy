/** The identifier codec: 160-bit Ethereum addresses and 256-bit location ids in their
    textual forms. */
module Identifiers {
  import opened Wrappers
  import opened Numerals

  /** Canonical address text: "0x" and 40 lower-case hex digits. */
  predicate IsEthAddress(s: string) {
    |s| == 42 && s[..2] == "0x" && IsNumeral(s[2..], 16)
  }

  type EthAddress = s: string | IsEthAddress(s)
    witness "0x" + Zeros(40)

  /** Canonical location id text: 64 lower-case hex digits. */
  predicate IsLocationId(s: string) {
    |s| == 64 && IsNumeral(s, 16)
  }

  type LocationId = s: string | IsLocationId(s)
    witness Zeros(64)

  /** Location ids are elements of the BN254 scalar field; no id reaches this bound. */
  const LOCATION_ID_UB: nat := 21888242871839275222246405745257275088548364400416034343698204186575808495617

  lemma BoundBelowTwoTo256()
    ensures LOCATION_ID_UB < Pow(16, 64)
  {
    assert Pow(16, 1) == 16;
    PowAdd(16, 1, 1);
    assert Pow(16, 2) == 256;
    PowAdd(16, 2, 2);
    assert Pow(16, 4) == 65536;
    PowAdd(16, 4, 4);
    assert Pow(16, 8) == 4294967296;
    PowAdd(16, 8, 8);
    assert Pow(16, 16) == 18446744073709551616;
    PowAdd(16, 16, 16);
    assert Pow(16, 32) == 340282366920938463463374607431768211456;
    PowAdd(16, 32, 32);
    assert Pow(16, 64) == 115792089237316195423570985008687907853269984665640564039457584007913129639936;
  }

  // ---------------------------------------------------------------- addresses

  /** `toLowerCase` on one character. Only ASCII letters change: no other character lowers to
      a hex digit or to 'x', so this decides acceptance exactly as the full Unicode mapping. */
  function ToLowerChar(c: char): char {
    if 'A' <= c <= 'Z' then (c as int - 'A' as int + 'a' as int) as char else c
  }

  function ToLower(s: string): (t: string)
    ensures |t| == |s| && forall i :: 0 <= i < |s| ==> t[i] == ToLowerChar(s[i])
  {
    seq(|s|, i requires 0 <= i < |s| => ToLowerChar(s[i]))
  }

  /** Drops one leading "0x", as `slice(0, 2) === '0x'` followed by `slice(2)` does. */
  function StripHexPrefix(s: string): string {
    if |s| >= 2 && s[..2] == "0x" then s[2..] else s
  }

  /** The text `address` validates: lower-cased, one "0x" prefix removed. */
  function AddressBody(s: string): string {
    StripHexPrefix(ToLower(s))
  }

  /** The value `address(s)` returns or the error it throws. */
  function CanonicalAddress(s: string): (r: Result<EthAddress, DecodeError>)
    ensures r.Err? ==> r.error == InvalidAddress
    ensures r.Ok? ==> (|s| == 40 || |s| == 42) && r.value[2..] == ToLower(s)[|s| - 40..]
  {
    var body := AddressBody(s);
    if IsNumeral(body, 16) && |body| == 40 then
      assert ("0x" + body)[..2] == "0x" && ("0x" + body)[2..] == body;
      assert body == ToLower(s)[|s| - 40..];
      Ok("0x" + body)
    else
      Err(InvalidAddress)
  }

  /** `address`: lower-case, strip one "0x", check every character is a hex digit, then
      check the length. */
  method Address(s: string) returns (r: Result<EthAddress, DecodeError>)
    ensures r.Ok? <==> |AddressBody(s)| == 40 && IsNumeral(AddressBody(s), 16)
    ensures r.Ok? ==> r.value == "0x" + AddressBody(s)
    ensures r.Err? ==> r.error == InvalidAddress
  {
    var ret := ToLower(s);
    if |ret| >= 2 && ret[..2] == "0x" {
      ret := ret[2..];
    }
    var i := 0;
    while i < |ret|
      invariant 0 <= i <= |ret|
      invariant ret == AddressBody(s)
      invariant IsNumeral(ret[..i], 16)
    {
      if !IsDigitChar(ret[i]) {
        return Err(InvalidAddress);
      }
      assert ret[..i + 1] == ret[..i] + [ret[i]];
      i := i + 1;
    }
    assert ret[..i] == ret;
    if |ret| != 40 {
      return Err(InvalidAddress);
    }
    assert ("0x" + ret)[..2] == "0x" && ("0x" + ret)[2..] == ret;
    return Ok("0x" + ret);
  }

  /** `address` accepts exactly the inputs whose lower-cased, unprefixed text is 40 hex
      digits, and then returns that text behind "0x". */
  lemma AddressAccepts(s: string)
    ensures CanonicalAddress(s).Ok? <==> |AddressBody(s)| == 40 && IsNumeral(AddressBody(s), 16)
    ensures CanonicalAddress(s).Ok? ==> CanonicalAddress(s).value == "0x" + AddressBody(s)
  {
  }

  /** A canonical address is its own canonical form. */
  lemma AddressFixedPoint(a: EthAddress)
    ensures CanonicalAddress(a) == Ok(a)
  {
    forall i | 0 <= i < |a| ensures ToLowerChar(a[i]) == a[i] {
      if i >= 2 { assert a[i] == a[2..][i - 2]; }
      else { assert a[i] == a[..2][i]; }
    }
    assert ToLower(a) == a;
    assert a == a[..2] + a[2..];
  }

  /** `address` is idempotent; its result is 42 characters of lower-case text. */
  lemma AddressIdempotent(s: string)
    requires CanonicalAddress(s).Ok?
    ensures CanonicalAddress(CanonicalAddress(s).value) == CanonicalAddress(s)
    ensures |CanonicalAddress(s).value| == 42
    ensures forall i :: 0 <= i < 42 ==> !('A' <= CanonicalAddress(s).value[i] <= 'Z')
  {
    var a := CanonicalAddress(s).value;
    AddressFixedPoint(a);
    forall i | 0 <= i < 42 ensures !('A' <= a[i] <= 'Z') {
      if i >= 2 { assert a[i] == a[2..][i - 2]; }
      else { assert a[i] == a[..2][i]; }
    }
  }

  /** The prefix is optional and letter case does not matter: the 40 digits alone, with
      "0x" or with "0X" in front, give the same address. */
  lemma AddressPrefixOptional(body: string)
    requires |body| == 40
    ensures CanonicalAddress("0x" + body) == CanonicalAddress(body)
    ensures CanonicalAddress("0X" + body) == CanonicalAddress(body)
  {
    var lb := ToLower(body);
    assert ToLower("0x" + body) == "0x" + lb;
    assert ToLower("0X" + body) == "0x" + lb;
    assert ("0x" + lb)[..2] == "0x" && ("0x" + lb)[2..] == lb;
    if |lb| >= 2 && lb[..2] == "0x" {
      // then 'x' is in the body and neither form has 40 hex digits
      assert lb[1] == 'x';
      assert !IsNumeral(lb, 16);
      assert !IsNumeral(lb[2..], 16) || |lb[2..]| != 40;
    }
  }

  // ------------------------------------------------------------- location ids

  /** `locationIdToBigNumber`: `BigNumber.from('0x' + id)`, a 256-bit value. Its 64-digit hex
      rendering is the id again. */
  function LocationIdToBigNumber(id: LocationId): (n: nat)
    ensures n < Pow(16, 64)
    ensures LeftPad(Render(n, 16), 64) == id
  {
    ValueBelowPow(id, 16);
    FixedWidthOfValue(id, 16);
    PadRender(Value(id, 16), 16, 64);
    Value(id, 16)
  }

  /** `locationIdToDecStr`: `bigInt(id, 16).toString(10)`, the shortest decimal numeral of the
      id's value. */
  function LocationIdToDecStr(id: LocationId): (d: string)
    ensures IsCanonical(d, 10) && Value(d, 10) == Value(id, 16)
  {
    Render(Value(id, 16), 10)
  }

  /** The value `locationIdFromDecStr(d)` returns or the error it throws. */
  function LocationIdOfDecStr(d: string): (r: Result<LocationId, DecodeError>)
    ensures r.Ok? ==> |d| > 0 && IsNumeral(d, 10) && Value(d, 10) < LOCATION_ID_UB && Value(r.value, 16) == Value(d, 10)
  {
    if !(|d| > 0 && IsNumeral(d, 10)) then
      Err(InvalidInteger)
    else if Value(d, 10) >= LOCATION_ID_UB then
      Err(InvalidLocation)
    else
      var v := Value(d, 10);
      BoundBelowTwoTo256();
      PadRender(v, 16, 64);
      RenderLength(v, 16, 64);
      ValueOfZeroPadded(Render(v, 16), 64 - |Render(v, 16)|, 16);
      LeftPadShort(Render(v, 16), 64);
      Ok(LeftPad(Render(v, 16), 64))
  }

  /** `locationIdFromDecStr`: parse the decimal text, reject values at or above the bound,
      render in hex and left-pad with '0' to 64 digits. */
  method LocationIdFromDecStr(d: string) returns (r: Result<LocationId, DecodeError>)
    ensures r == LocationIdOfDecStr(d)
  {
    if !(|d| > 0 && IsNumeral(d, 10)) {
      return Err(InvalidInteger);
    }
    var locationBI := Value(d, 10);
    if locationBI >= LOCATION_ID_UB {
      return Err(InvalidLocation);
    }
    var hex := Render(locationBI, 16);
    LocationIdPadded(d);
    var ret := hex;
    ghost var pad := 0;
    while |ret| < 64
      invariant |ret| == pad + |hex| <= 64
      invariant ret == Zeros(pad) + hex
    {
      ZerosCons(pad, hex);
      ret := "0" + ret;
      pad := pad + 1;
    }
    return Ok(ret);
  }

  /** The shortest hex numeral of an in-range value is at most 64 digits, and padding it
      gives the result `LocationIdOfDecStr` names. */
  lemma LocationIdPadded(d: string)
    requires |d| > 0 && IsNumeral(d, 10) && Value(d, 10) < LOCATION_ID_UB
    ensures |Render(Value(d, 10), 16)| <= 64
    ensures LocationIdOfDecStr(d) == Ok(Zeros(64 - |Render(Value(d, 10), 16)|) + Render(Value(d, 10), 16))
  {
    var v := Value(d, 10);
    BoundBelowTwoTo256();
    RenderLength(v, 16, 64);
    LeftPadShort(Render(v, 16), 64);
  }

  lemma ZerosCons(j: nat, s: string)
    ensures "0" + (Zeros(j) + s) == Zeros(j + 1) + s
  {
  }

  /** `locationIdFromDecStr` throws `InvalidInteger` unless the text is a non-empty string of
      decimal digits, and `InvalidLocation` on values at or above the bound; otherwise it
      returns 64 lower-case hex digits denoting the same value. */
  lemma LocationIdFromDecStrSpec(d: string)
    ensures LocationIdOfDecStr(d).Ok? <==> |d| > 0 && IsNumeral(d, 10) && Value(d, 10) < LOCATION_ID_UB
    ensures !(|d| > 0 && IsNumeral(d, 10)) ==> LocationIdOfDecStr(d) == Err(InvalidInteger)
    ensures |d| > 0 && IsNumeral(d, 10) && Value(d, 10) >= LOCATION_ID_UB ==> LocationIdOfDecStr(d) == Err(InvalidLocation)
    ensures LocationIdOfDecStr(d).Ok? ==> Value(LocationIdOfDecStr(d).value, 16) == Value(d, 10)
  {
    if LocationIdOfDecStr(d).Ok? {
      var v := Value(d, 10);
      var h := Render(v, 16);
      BoundBelowTwoTo256();
      RenderLength(v, 16, 64);
      ValueOfZeroPadded(h, 64 - |h|, 16);
    }
  }

  /** Ids below the bound survive the trip through decimal text. */
  lemma LocationIdRoundTrip(id: LocationId)
    requires Value(id, 16) < LOCATION_ID_UB
    ensures LocationIdOfDecStr(LocationIdToDecStr(id)) == Ok(id)
  {
    var n := LocationIdToBigNumber(id);
  }

  /** Canonical decimal text below the bound survives the trip through a location id. */
  lemma DecStrRoundTrip(d: string)
    requires IsCanonical(d, 10) && Value(d, 10) < LOCATION_ID_UB
    ensures LocationIdOfDecStr(d).Ok? && LocationIdToDecStr(LocationIdOfDecStr(d).value) == d
  {
    LocationIdFromDecStrSpec(d);
    RenderOfValue(d, 10);
  }

  /** The decimal text of any 256-bit word is accepted exactly when it is below the bound,
      and the id it yields has that value. */
  lemma LocationIdOfWord(n: nat)
    ensures LocationIdOfDecStr(Render(n, 10)).Ok? <==> n < LOCATION_ID_UB
    ensures n < LOCATION_ID_UB ==> Value(LocationIdOfDecStr(Render(n, 10)).value, 16) == n
  {
    LocationIdFromDecStrSpec(Render(n, 10));
  }
}
