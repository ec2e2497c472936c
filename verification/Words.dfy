/** 32-byte words: how numbers are written to them and how the log decoder reads them back. */
module Words {
  import opened Wrappers
  import opened Bytes

  const TWO_64: int := 0x1_0000_0000_0000_0000
  const TWO_127: int := 0x8000_0000_0000_0000_0000_0000_0000_0000
  const TWO_128: int := 0x1_0000_0000_0000_0000_0000_0000_0000_0000
  const TWO_256: int := 0x1_0000_0000_0000_0000_0000_0000_0000_0000_0000_0000_0000_0000_0000_0000_0000_0000

  lemma Widths()
    ensures Pow256(1) == 0x100 && Pow256(4) == 0x1_0000_0000 && Pow256(8) == TWO_64
    ensures Pow256(16) == TWO_128 && Pow256(32) == TWO_256
  {
    assert Pow256(4) == 0x1_0000_0000;
    Pow256Add(4, 4);
    Pow256Add(8, 8);
    Pow256Add(16, 16);
  }

  // ----- writing -----

  /** `u256_bytes`: the shortest form, right-aligned in 32 bytes; None beyond 256 bits. */
  function U256Bytes(v: nat): (r: Option<seq<Byte>>)
    ensures r.Some? ==> |r.value| == 32
  {
    if |ToBytes(v)| > 32 then None else Some(Zeros(32 - |ToBytes(v)|) + ToBytes(v))
  }

  lemma U256Value(v: nat)
    ensures U256Bytes(v).Some? <==> v < TWO_256
    ensures U256Bytes(v).Some? ==> |U256Bytes(v).value| == 32 && Value(U256Bytes(v).value) == v
  {
    Widths();
    var raw := ToBytes(v);
    if |raw| <= 32 {
      ValueBound(raw);
      Pow256Monotone(|raw|, 32);
      ValueConcat(Zeros(32 - |raw|), raw);
      ValueZeros(32 - |raw|);
    } else if v < TWO_256 {
      ToBytesLength(v, 32);
    }
  }

  /** The number whose word `int256_signed` writes: negatives wrap at 2^256. */
  function Wrapped(v: int): (r: nat)
    requires -0x8000_0000_0000_0000 <= v < 0x8000_0000_0000_0000
    ensures r == if v < 0 then v + TWO_256 else v
  {
    if v < 0 then
      DivModUnique(-v, TWO_256, 0, -v);
      TWO_256 - (-v) % TWO_256
    else v
  }

  /** `int256_signed` of an i64: two's complement at 256 bits. */
  function Int256Signed(v: int): (r: seq<Byte>)
    requires -0x8000_0000_0000_0000 <= v < 0x8000_0000_0000_0000
    ensures |r| == 32
  {
    U256Value(Wrapped(v));
    U256Bytes(Wrapped(v)).value
  }

  function BoolWord(b: bool): (r: seq<Byte>)
    ensures |r| == 32
  {
    Zeros(31) + [if b then 1 else 0]
  }

  /** `word_address`; None stands for the invalid-address error. */
  function AddressWord(address: seq<Byte>): (r: Option<seq<Byte>>)
    ensures r.Some? ==> |r.value| == 32
  {
    if |address| != 20 then None else Some(Zeros(12) + address)
  }

  // ----- reading -----

  /** The int256 a word denotes in the contract ABI. */
  function TwosComplement(word: seq<Byte>): int
    requires |word| == 32
  {
    if word[0] < 0x80 then Value(word) else Value(word) - TWO_256
  }

  /** Reinterprets a 128-bit pattern as an i128. */
  function AsI128(u: nat): int {
    if u < TWO_127 then u else u - TWO_128
  }

  /** i128 negation in a release build: the least value is its own negation. */
  function NegI128(i: int): int {
    if i == -TWO_127 then i else -i
  }

  /** The fold of `u256_be`: a 128-bit accumulator loses what is shifted out. */
  function Fold128(word: seq<Byte>): nat {
    if word == [] then 0
    else (Fold128(word[..|word| - 1]) * 256 + word[|word| - 1]) % TWO_128
  }

  lemma {:induction false} Fold128Value(word: seq<Byte>)
    ensures Fold128(word) == Value(word) % TWO_128
  {
    if word != [] {
      var high, last := word[..|word| - 1], word[|word| - 1];
      Fold128Value(high);
      var q, r := Value(high) / TWO_128, Value(high) % TWO_128;
      var s, t := (r * 256 + last) / TWO_128, (r * 256 + last) % TWO_128;
      DivModUnique(Value(word), TWO_128, q * 256 + s, t);
    }
  }

  /** Reading an unsigned word gives its value modulo 2^128; None is the short-data error. */
  function U256Be(bytes: seq<Byte>, offset: nat): Option<nat> {
    if offset + 32 > |bytes| then None else Some(Fold128(bytes[offset..offset + 32]))
  }

  function I256BeWord(word: seq<Byte>): int
    requires |word| == 32
  {
    var unsigned := Fold128(word);
    if word[0] < 0x80 then AsI128(unsigned)
    else NegI128(AsI128((TWO_128 - unsigned) % TWO_128))
  }

  function I256Be(bytes: seq<Byte>, offset: nat): Option<int> {
    if offset + 32 > |bytes| then None else Some(I256BeWord(bytes[offset..offset + 32]))
  }

  /** The accumulator loop of `i256_be`. */
  method ReadI256(bytes: seq<Byte>, offset: nat) returns (r: Option<int>)
    ensures r == I256Be(bytes, offset)
  {
    if offset + 32 > |bytes| {
      return None;
    }
    var raw := bytes[offset..offset + 32];
    var negative := raw[0] >= 0x80;
    var unsigned: nat := 0;
    for i := 0 to |raw|
      invariant unsigned == Fold128(raw[..i])
    {
      unsigned := (unsigned * 256 + raw[i]) % TWO_128;
      assert raw[..i + 1][..i] == raw[..i];
    }
    assert raw[..|raw|] == raw;
    if !negative {
      return Some(AsI128(unsigned));
    }
    Fold128Value(raw);
    var magnitude := (TWO_128 - unsigned) % TWO_128;
    r := Some(NegI128(AsI128(magnitude)));
  }

  /** Both branches of the signed reader keep just the low 128 bits. */
  lemma SignedReadIsLowBits(word: seq<Byte>)
    requires |word| == 32
    ensures I256BeWord(word) == AsI128(Value(word) % TWO_128)
  {
    Fold128Value(word);
  }

  lemma TwosComplementRange(word: seq<Byte>)
    requires |word| == 32
    ensures -TWO_256 / 2 <= TwosComplement(word) < TWO_256 / 2
    ensures word[0] < 0x80 <==> TwosComplement(word) >= 0
  {
    var tail := word[1..];
    assert word == [word[0]] + tail;
    ValueConcat([word[0]], tail);
    assert [word[0]][..0] == [] && Value([word[0]]) == word[0];
    ValueBound(tail);
    Widths();
    assert Pow256(32) == 256 * Pow256(31);
  }

  /** The signed reader returns the ABI value exactly when that value fits an i128. */
  lemma SignedReadExactIff(word: seq<Byte>)
    requires |word| == 32
    ensures I256BeWord(word) == TwosComplement(word) <==> -TWO_127 <= TwosComplement(word) < TWO_127
  {
    SignedReadIsLowBits(word);
    TwosComplementRange(word);
    var v := TwosComplement(word);
    var m := Value(word) % TWO_128;
    if -TWO_127 <= v < 0 {
      DivModUnique(Value(word), TWO_128, TWO_128 - 1, v + TWO_128);
    } else if 0 <= v < TWO_127 {
      DivModUnique(Value(word), TWO_128, 0, v);
    }
  }

  /** The unsigned reader returns the value exactly when it fits 128 bits. */
  lemma UnsignedReadExactIff(v: nat)
    requires v < TWO_256
    ensures U256Bytes(v).Some?
    ensures Fold128(U256Bytes(v).value) == v % TWO_128
    ensures Fold128(U256Bytes(v).value) == v <==> v < TWO_128
  {
    U256Value(v);
    Fold128Value(U256Bytes(v).value);
    if v < TWO_128 {
      DivModUnique(v, TWO_128, 0, v);
    }
  }

  /** Reading back a written i64 gives that i64. */
  lemma SignedRoundTrip(v: int)
    requires -0x8000_0000_0000_0000 <= v < 0x8000_0000_0000_0000
    ensures TwosComplement(Int256Signed(v)) == v && I256BeWord(Int256Signed(v)) == v
  {
    var word := Int256Signed(v);
    U256Value(Wrapped(v));
    TwosComplementRange(word);
    SignedReadExactIff(word);
  }
}
