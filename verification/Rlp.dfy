/**
 Recursive Length Prefix coding (Ethereum Yellow Paper, Appendix B) as the signer writes it,
 together with a strict decoder that serves as its independent reference.
 */
module Rlp {
  import opened Wrappers
  import opened Bytes

  /** `usize` is 64 bits wide, so no buffer is this long. */
  const MAX_LEN: nat := 0x1_0000_0000_0000_0000

  const STRING_BASE: nat := 0x80
  const LIST_BASE: nat := 0xc0

  /** The trees RLP is defined over. */
  datatype Item = Str(bytes: seq<Byte>) | List(items: seq<Item>)

  // ----- encoder -----

  /** The length prefix: one byte up to 55, else the length of the length and the length. */
  function Header(base: nat, n: nat): (h: seq<Byte>)
    requires base == STRING_BASE || base == LIST_BASE
    requires n < MAX_LEN
    ensures 1 <= |h| <= 9
    ensures base <= h[0] < base + 0x40
  {
    if n <= 55 then [base + n]
    else
      LengthOfLength(n);
      [base + 55 + |ToBytes(n)|] + ToBytes(n)
  }

  lemma LengthOfLength(n: nat)
    requires n < MAX_LEN
    ensures Pow256(8) == MAX_LEN
    ensures |ToBytes(n)| <= 8
  {
    assert Pow256(4) == 0x1_0000_0000;
    Pow256Add(4, 4);
    ToBytesLength(n, 8);
  }

  function EncodeBytes(b: seq<Byte>): seq<Byte>
    requires |b| < MAX_LEN
  {
    if |b| == 1 && b[0] < 0x80 then b else Header(STRING_BASE, |b|) + b
  }

  function Flatten(parts: seq<seq<Byte>>): seq<Byte> {
    if parts == [] then [] else Flatten(parts[..|parts| - 1]) + parts[|parts| - 1]
  }

  function EncodeList(items: seq<seq<Byte>>): seq<Byte>
    requires |Flatten(items)| < MAX_LEN
  {
    Header(LIST_BASE, |Flatten(items)|) + Flatten(items)
  }

  /** Encoded length, defined without the encoder so that it can bound its domain. */
  function Size(t: Item): nat {
    match t
    case Str(b) => if |b| == 1 && b[0] < 0x80 then 1 else HeaderSize(|b|) + |b|
    case List(items) => HeaderSize(SizeAll(items)) + SizeAll(items)
  }

  function SizeAll(items: seq<Item>): nat {
    if items == [] then 0 else SizeAll(items[..|items| - 1]) + Size(items[|items| - 1])
  }

  function HeaderSize(n: nat): nat {
    if n <= 55 then 1 else 1 + |ToBytes(n)|
  }

  /** Every payload in the tree is shorter than 2^64 bytes. */
  predicate Fits(t: Item) {
    match t
    case Str(b) => |b| < MAX_LEN
    case List(items) => AllFit(items) && SizeAll(items) < MAX_LEN
  }

  predicate AllFit(items: seq<Item>) {
    forall i :: 0 <= i < |items| ==> Fits(items[i])
  }

  function EncodeAll(items: seq<Item>): (parts: seq<seq<Byte>>)
    requires AllFit(items)
    ensures |parts| == |items| && |Flatten(parts)| == SizeAll(items)
    decreases items
  {
    if items == [] then []
    else
      var m := |items| - 1;
      var parts := EncodeAll(items[..m]) + [Encode(items[m])];
      assert parts[..m] == EncodeAll(items[..m]);
      parts
  }

  /** The tree's encoding, as the signer composes it from the two encoders above. */
  function Encode(t: Item): (r: seq<Byte>)
    requires Fits(t)
    ensures |r| == Size(t) && r != []
    decreases t
  {
    match t
    case Str(b) => EncodeBytes(b)
    case List(items) => EncodeList(EncodeAll(items))
  }

  // ----- decoder -----

  datatype Payload = Payload(bytes: seq<Byte>, rest: seq<Byte>)
  datatype Parsed = Parsed(item: Item, rest: seq<Byte>)

  /** Reads one length prefix and its payload; refuses lengths that are not written minimally. */
  function TakePayload(base: nat, s: seq<Byte>): (r: Option<Payload>)
    requires s != [] && base <= s[0] < base + 0x40
    ensures r.Some? ==> |r.value.bytes| < |s| && |r.value.rest| < |s|
  {
    var lead := s[0] - base;
    if lead <= 55 then
      if |s| < 1 + lead then None else Some(Payload(s[1..1 + lead], s[1 + lead..]))
    else
      var k := lead - 55;
      if |s| < 1 + k || s[1] == 0 then None
      else
        var n := Value(s[1..1 + k]);
        if n <= 55 || |s| < 1 + k + n then None
        else Some(Payload(s[1 + k..1 + k + n], s[1 + k + n..]))
  }

  function Decode(s: seq<Byte>): (r: Option<Parsed>)
    ensures r.Some? ==> |r.value.rest| < |s|
    decreases |s|, 0
  {
    if s == [] then None
    else if s[0] < STRING_BASE then Some(Parsed(Str([s[0]]), s[1..]))
    else if s[0] < LIST_BASE then
      match TakePayload(STRING_BASE, s)
      case None => None
      case Some(p) =>
        if |p.bytes| == 1 && p.bytes[0] < 0x80 then None else Some(Parsed(Str(p.bytes), p.rest))
    else
      match TakePayload(LIST_BASE, s)
      case None => None
      case Some(p) =>
        match DecodeAll(p.bytes)
        case None => None
        case Some(items) => Some(Parsed(List(items), p.rest))
  }

  function DecodeAll(s: seq<Byte>): (r: Option<seq<Item>>)
    decreases |s|, 1
  {
    if s == [] then Some([])
    else
      match Decode(s)
      case None => None
      case Some(p) =>
        match DecodeAll(p.rest)
        case None => None
        case Some(items) => Some([p.item] + items)
  }

  // ----- the decoder inverts the encoder -----

  lemma TakeAfterHeader(base: nat, payload: seq<Byte>, suffix: seq<Byte>)
    requires base == STRING_BASE || base == LIST_BASE
    requires |payload| < MAX_LEN
    ensures TakePayload(base, Header(base, |payload|) + payload + suffix) == Some(Payload(payload, suffix))
  {
    var h := Header(base, |payload|);
    var s := h + payload + suffix;
    assert s[|h|..|h| + |payload|] == payload && s[|h| + |payload|..] == suffix;
    if |payload| > 55 {
      assert s[1..|h|] == ToBytes(|payload|);
      assert s[1] == ToBytes(|payload|)[0];
    }
  }

  lemma LengthBytes(base: nat, k: nat, len: seq<Byte>)
    requires base == STRING_BASE || base == LIST_BASE
    requires 1 <= |len| == k <= 8 && len[0] != 0 && Value(len) > 55
    ensures Value(len) < MAX_LEN && Header(base, Value(len)) == [base + 55 + k] + len
  {
    ToBytesUnique(len);
    ValueBound(len);
    Pow256Monotone(k, 8);
    LengthOfLength(0);
  }

  lemma HeaderBeforePayload(base: nat, s: seq<Byte>)
    requires base == STRING_BASE || base == LIST_BASE
    requires s != [] && base <= s[0] < base + 0x40
    requires TakePayload(base, s).Some?
    ensures var p := TakePayload(base, s).value;
            |p.bytes| < MAX_LEN && s == Header(base, |p.bytes|) + p.bytes + p.rest
  {
    var p := TakePayload(base, s).value;
    var lead := s[0] - base;
    if lead > 55 {
      var k := lead - 55;
      LengthBytes(base, k, s[1..1 + k]);
      assert s[..1 + k] == [s[0]] + s[1..1 + k];
      assert s == s[..1 + k] + p.bytes + p.rest;
    } else {
      assert s == [s[0]] + p.bytes + p.rest;
    }
  }

  lemma {:induction false} FlattenCons(head: seq<Byte>, tail: seq<seq<Byte>>)
    ensures Flatten([head] + tail) == head + Flatten(tail)
  {
    var parts := [head] + tail;
    if tail == [] {
      assert parts[..0] == [] && Flatten(parts) == Flatten([]) + head;
    } else {
      var m := |tail| - 1;
      assert parts[..|parts| - 1] == [head] + tail[..m];
      FlattenCons(head, tail[..m]);
    }
  }

  lemma {:induction false} EncodeAllCons(items: seq<Item>)
    requires items != [] && AllFit(items)
    ensures AllFit(items[1..])
    ensures EncodeAll(items) == [Encode(items[0])] + EncodeAll(items[1..])
    ensures SizeAll(items) == Size(items[0]) + SizeAll(items[1..])
  {
    var m := |items| - 1;
    if m == 0 {
      assert items[..0] == [] && items[1..] == [];
    } else {
      EncodeAllCons(items[..m]);
      assert items[..m][1..] == items[1..][..m - 1];
    }
  }

  /** Decoding an encoding, whatever bytes follow it, gives back the tree and those bytes. */
  lemma {:induction false} RoundTrip(t: Item, suffix: seq<Byte>)
    requires Fits(t)
    ensures Decode(Encode(t) + suffix) == Some(Parsed(t, suffix))
    decreases t, 1
  {
    match t
    case Str(b) =>
      if |b| == 1 && b[0] < 0x80 {
        assert (b + suffix)[1..] == suffix && [b[0]] == b;
      } else {
        TakeAfterHeader(STRING_BASE, b, suffix);
      }
    case List(items) =>
      var payload := Flatten(EncodeAll(items));
      TakeAfterHeader(LIST_BASE, payload, suffix);
      RoundTripAll(items);
  }

  lemma PayloadCons(items: seq<Item>)
    requires items != [] && AllFit(items)
    ensures AllFit(items[1..])
    ensures Flatten(EncodeAll(items)) == Encode(items[0]) + Flatten(EncodeAll(items[1..]))
  {
    EncodeAllCons(items);
    FlattenCons(Encode(items[0]), EncodeAll(items[1..]));
  }

  lemma DecodeAllStep(code: seq<Byte>, item: Item, rest: seq<Byte>, items: seq<Item>)
    requires code != [] && Decode(code + rest) == Some(Parsed(item, rest))
    requires DecodeAll(rest) == Some(items)
    ensures DecodeAll(code + rest) == Some([item] + items)
  {
  }

  lemma {:induction false} RoundTripAll(items: seq<Item>)
    requires AllFit(items)
    ensures DecodeAll(Flatten(EncodeAll(items))) == Some(items)
    decreases items, 0
  {
    if items != [] {
      PayloadCons(items);
      var code, rest := Encode(items[0]), Flatten(EncodeAll(items[1..]));
      RoundTrip(items[0], rest);
      RoundTripAll(items[1..]);
      DecodeAllStep(code, items[0], rest, items[1..]);
      assert items == [items[0]] + items[1..];
    }
  }

  /** Whatever the decoder accepts is exactly an encoding: the two are inverse both ways. */
  lemma {:induction false} DecodeSound(s: seq<Byte>)
    requires Decode(s).Some?
    ensures var p := Decode(s).value; Fits(p.item) && s == Encode(p.item) + p.rest
    decreases |s|, 0
  {
    if s[0] < STRING_BASE {
      assert s == [s[0]] + s[1..];
    } else if s[0] < LIST_BASE {
      HeaderBeforePayload(STRING_BASE, s);
    } else {
      HeaderBeforePayload(LIST_BASE, s);
      DecodeAllSound(TakePayload(LIST_BASE, s).value.bytes);
    }
  }

  lemma {:induction false} DecodeAllSound(s: seq<Byte>)
    requires DecodeAll(s).Some?
    ensures var items := DecodeAll(s).value; AllFit(items) && Flatten(EncodeAll(items)) == s
    decreases |s|, 1
  {
    if s != [] {
      var p := Decode(s).value;
      DecodeSound(s);
      DecodeAllSound(p.rest);
      var items := DecodeAll(s).value;
      assert items[1..] == DecodeAll(p.rest).value;
      PayloadCons(items);
    }
  }

  /** No encoding is a proper prefix of another, so concatenated items split one way only. */
  lemma PrefixFree(t: Item, u: Item, after: seq<Byte>, other: seq<Byte>)
    requires Fits(t) && Fits(u)
    ensures Encode(t) + after == Encode(u) + other <==> t == u && after == other
  {
    RoundTrip(t, after);
    RoundTrip(u, other);
  }

  // ----- integers -----

  /** The bytes `rlp_encode_integer` wraps: a zero is put before a leading byte of 0x80 or more. */
  function IntegerPayload(v: nat): (r: seq<Byte>)
    ensures Value(r) == v
  {
    if v == 0 then []
    else if ToBytes(v)[0] >= 0x80 then
      ValueConcat([0], ToBytes(v));
      assert [0][..0] == [];
      [0] + ToBytes(v)
    else ToBytes(v)
  }

  /** The Yellow Paper's integer form: no leading zero byte, and nothing at all for zero. */
  function CanonicalPayload(v: nat): (r: seq<Byte>)
    ensures Value(r) == v
    ensures r != [] ==> r[0] != 0
  {
    if v == 0 then [] else ToBytes(v)
  }

  /** The integer form differs from the standard's exactly when the leading byte is 0x80 or more. */
  lemma IntegerCanonicalIff(v: nat)
    ensures IntegerPayload(v) == CanonicalPayload(v) <==> v == 0 || ToBytes(v)[0] < 0x80
  {
  }

  /** 128 is sent as 82 00 80 where the standard has 81 80. */
  lemma IntegerPadWitness()
    ensures EncodeBytes(IntegerPayload(128)) == [0x82, 0x00, 0x80]
    ensures EncodeBytes(CanonicalPayload(128)) == [0x81, 0x80]
  {
  }

  lemma HeaderForm(base: nat, n: nat, len: seq<Byte>, payload: seq<Byte>)
    requires base == 0x80 || base == 0xc0
    requires n < MAX_LEN && (n > 55 ==> len == ToBytes(n))
    ensures var e := Header(base, n) + payload;
            if n <= 55 then e[0] == base + n && e[1..] == payload
            else e[0] == base + 0x37 + |len| && e[1..] == len + payload
  {
    if n > 55 {
      assert Header(base, n)[1..] == len;
    }
    assert (Header(base, n) + payload)[1..] == Header(base, n)[1..] + payload;
  }

  lemma LengthIs(len: seq<Byte>)
    requires (len == [] || len[0] != 0) && Value(len) > 55
    ensures ToBytes(Value(len)) == len
  {
    assert len != [];
    ToBytesUnique(len);
  }

  /** A string on the wire: itself, or its length plus 80 hex, or b7 hex plus the length's length before both. */
  lemma StringOnWire(b: seq<Byte>, len: seq<Byte>)
    requires |b| < 0x1_0000_0000_0000_0000
    requires (len == [] || len[0] != 0) && Value(len) == |b|
    ensures var e := EncodeBytes(b);
            if |b| == 1 && b[0] < 0x80 then e == b
            else if |b| <= 55 then e[0] == 0x80 + |b| && e[1..] == b
            else e[0] == 0xb7 + |len| && e[1..] == len + b
  {
    if |b| > 55 {
      LengthIs(len);
    }
    HeaderForm(0x80, |b|, len, b);
  }

  /** A list on the wire: the same with c0 and f7 hex before its items, one after another. */
  lemma ListOnWire(items: seq<seq<Byte>>, len: seq<Byte>)
    requires |Flatten(items)| < 0x1_0000_0000_0000_0000
    requires (len == [] || len[0] != 0) && Value(len) == |Flatten(items)|
    ensures var e, n := EncodeList(items), |Flatten(items)|;
            if n <= 55 then e[0] == 0xc0 + n && e[1..] == Flatten(items)
            else e[0] == 0xf7 + |len| && e[1..] == len + Flatten(items)
  {
    if |Flatten(items)| > 55 {
      LengthIs(len);
    }
    HeaderForm(0xc0, |Flatten(items)|, len, Flatten(items));
  }

  // ----- the buffer-filling encoders -----

  /** Index of the first non-zero byte, or of the last byte if there is none. */
  method FirstNonZero(bytes: seq<Byte>) returns (start: nat)
    requires bytes != []
    ensures start < |bytes|
    ensures bytes[..start] == Zeros(start)
    ensures bytes[start] != 0 || start == |bytes| - 1
  {
    start := 0;
    while start < |bytes| - 1 && bytes[start] == 0
      invariant start < |bytes|
      invariant bytes[..start] == Zeros(start)
    {
      start := start + 1;
    }
  }

  /** Eight length bytes without their leading zeros are the shortest form of the length. */
  lemma TrimmedLength(n: nat, start: nat)
    requires n < MAX_LEN && start < 8
    requires Fixed(n, 8)[..start] == Zeros(start)
    requires Fixed(n, 8)[start] != 0 || start == 7
    ensures Fixed(n, 8)[start..] == ToBytes(n)
  {
    var full := Fixed(n, 8);
    LengthOfLength(n);
    FixedValue(n, 8);
    DivModUnique(n, MAX_LEN, 0, n);
    assert full == full[..start] + full[start..];
    ValueConcat(full[..start], full[start..]);
    ValueZeros(start);
    ToBytesUnique(full[start..]);
  }

  method EncodePayload(base: nat, payload: seq<Byte>) returns (output: seq<Byte>)
    requires base == STRING_BASE || base == LIST_BASE
    requires |payload| < MAX_LEN
    ensures output == Header(base, |payload|) + payload
  {
    if |payload| <= 55 {
      output := [base + |payload|];
      output := output + payload;
      return;
    }
    var lengthBytes := Fixed(|payload|, 8);
    var start := FirstNonZero(lengthBytes);
    TrimmedLength(|payload|, start);
    output := [base + 55 + (|lengthBytes| - start)];
    output := output + lengthBytes[start..];
    output := output + payload;
  }

  method EncodeBytesBuffer(bytes: seq<Byte>) returns (output: seq<Byte>)
    requires |bytes| < MAX_LEN
    ensures output == Encode(Str(bytes))
  {
    if |bytes| == 1 && bytes[0] < 0x80 {
      return [bytes[0]];
    }
    output := EncodePayload(STRING_BASE, bytes);
  }

  method EncodeIntegerBuffer(value: nat) returns (output: seq<Byte>)
    requires |ToBytes(value)| < MAX_LEN - 1
    ensures output == Encode(Str(IntegerPayload(value)))
  {
    if value == 0 {
      output := EncodeBytesBuffer([]);
      return;
    }
    var bytes := ToBytes(value);
    if bytes[0] >= 0x80 {
      bytes := [0] + bytes;
    }
    output := EncodeBytesBuffer(bytes);
  }

  method EncodeListBuffer(items: seq<seq<Byte>>) returns (output: seq<Byte>)
    requires |Flatten(items)| < MAX_LEN
    ensures output == EncodeList(items)
  {
    var payload: seq<Byte> := [];
    for i := 0 to |items|
      invariant payload == Flatten(items[..i])
    {
      payload := payload + items[i];
      assert items[..i + 1][..i] == items[..i];
    }
    assert items[..|items|] == items;
    output := EncodePayload(LIST_BASE, payload);
  }
}
