/**
 The unsigned and signed envelopes of EIP-1559 (type 2) and EIP-155 (legacy), from parsed
 request fields to raw bytes, and decoders that recover every signed field.
 Digests and the signature words r, s and parity are given values.
 */
module Transaction {
  import opened Wrappers
  import opened Bytes
  import opened Rlp
  import opened Words

  datatype Error = MissingField(name: string) | InvalidRecipient | ExceedsUint256

  /** The parsed request: absent fields are None, `to` and `data` are decoded bytes. */
  datatype Request = Request(
    kind: Option<nat>,
    chainId: Option<nat>,
    nonce: Option<nat>,
    maxPriorityFeePerGas: Option<nat>,
    maxFeePerGas: Option<nat>,
    gasPrice: Option<nat>,
    gas: Option<nat>,
    to: seq<Byte>,
    amount: Option<nat>,
    data: seq<Byte>,
    accessList: seq<Byte>)

  datatype Signature = Signature(r: nat, s: nat, odd: bool)

  function Parity(sig: Signature): nat {
    if sig.odd then 1 else 0
  }

  function Int(v: nat): Item {
    Str(IntegerPayload(v))
  }

  /** A type other than 2 is legacy; without a type, the presence of a fee cap decides. */
  predicate IsTyped(req: Request) {
    if req.kind.Some? then req.kind.value == 2 else req.maxFeePerGas.Some?
  }

  function RecipientError(to: seq<Byte>): Option<Error> {
    if to == [] || |to| == 20 then None else Some(InvalidRecipient)
  }

  /** The first complaint about a type-2 request, in the order its fields are read. */
  function TypedError(req: Request): Option<Error> {
    if req.chainId.None? then Some(MissingField("chainId"))
    else if req.nonce.None? then Some(MissingField("nonce"))
    else if req.maxPriorityFeePerGas.None? then Some(MissingField("maxPriorityFeePerGas"))
    else if req.maxFeePerGas.None? then Some(MissingField("maxFeePerGas"))
    else if req.gas.None? then Some(MissingField("gas"))
    else RecipientError(req.to)
  }

  function LegacyError(req: Request): Option<Error> {
    if req.nonce.None? then Some(MissingField("nonce"))
    else if req.gasPrice.None? then Some(MissingField("gasPrice"))
    else if req.gas.None? then Some(MissingField("gas"))
    else RecipientError(req.to)
  }

  function UnsignedTyped(req: Request): Result<seq<Item>, Error> {
    match TypedError(req)
    case Some(error) => Err(error)
    case None =>
      Ok([Int(req.chainId.value), Int(req.nonce.value), Int(req.maxPriorityFeePerGas.value),
          Int(req.maxFeePerGas.value), Int(req.gas.value), Str(req.to),
          Int(req.amount.GetOr(0)), Str(req.data), List([])])
  }

  function UnsignedLegacy(req: Request, chainId: nat): Result<seq<Item>, Error> {
    match LegacyError(req)
    case Some(error) => Err(error)
    case None =>
      Ok([Int(req.nonce.value), Int(req.gasPrice.value), Int(req.gas.value), Str(req.to),
          Int(req.amount.GetOr(0)), Str(req.data), Int(chainId), Int(0), Int(0)])
  }

  function Unsigned(req: Request): Result<seq<Item>, Error> {
    if IsTyped(req) then UnsignedTyped(req) else UnsignedLegacy(req, req.chainId.GetOr(0))
  }

  function Envelope(typed: bool, items: seq<Item>): seq<Byte>
    requires Fits(List(items))
  {
    (if typed then [0x02] else []) + Encode(List(items))
  }

  function Word(v: nat): Result<seq<Byte>, Error> {
    match U256Bytes(v)
    case None => Err(ExceedsUint256)
    case Some(word) => Ok(word)
  }

  /** The bytes that are hashed for signing. */
  ghost predicate IsPreimage(req: Request, bytes: seq<Byte>) {
    && Unsigned(req).Ok?
    && Fits(List(Unsigned(req).value))
    && bytes == Envelope(IsTyped(req), Unsigned(req).value)
  }

  function LegacyV(chainId: nat, parity: nat): nat {
    if chainId == 0 then 27 + parity else chainId * 2 + (35 + parity)
  }

  function SignedItems(req: Request, sig: Signature): Result<seq<Item>, Error> {
    var items :- Unsigned(req);
    var r :- Word(sig.r);
    var s :- Word(sig.s);
    if IsTyped(req) then Ok(items + [Int(Parity(sig)), Str(r), Str(s)])
    else
      assert |items| == 9;
      Ok(items[..6] + [Int(LegacyV(req.chainId.GetOr(0), Parity(sig))), Str(r), Str(s)])
  }

  /** The bytes that are broadcast. */
  ghost predicate IsRaw(req: Request, sig: Signature, bytes: seq<Byte>) {
    && SignedItems(req, sig).Ok?
    && Fits(List(SignedItems(req, sig).value))
    && bytes == Envelope(IsTyped(req), SignedItems(req, sig).value)
  }

  // ----- what a reader of the bytes recovers -----

  datatype View =
    | TypedView(chainId: nat, nonce: nat, priority: nat, feeCap: nat, gas: nat,
                to: seq<Byte>, amount: nat, data: seq<Byte>)
    | LegacyView(chainId: nat, nonce: nat, gasPrice: nat, gas: nat,
                 to: seq<Byte>, amount: nat, data: seq<Byte>)

  /** Every field a request carries into its envelope; the access list is not among them. */
  function ViewOf(req: Request): View
    requires Unsigned(req).Ok?
  {
    if IsTyped(req) then
      TypedView(req.chainId.value, req.nonce.value, req.maxPriorityFeePerGas.value,
                req.maxFeePerGas.value, req.gas.value, req.to, req.amount.GetOr(0), req.data)
    else
      LegacyView(req.chainId.GetOr(0), req.nonce.value, req.gasPrice.value,
                 req.gas.value, req.to, req.amount.GetOr(0), req.data)
  }

  /** The items of an envelope, whichever kind its first byte says it is. */
  function Open(bytes: seq<Byte>): Option<(bool, seq<Item>)> {
    if bytes == [] then None
    else
      var typed := bytes[0] == 0x02;
      match Decode(if typed then bytes[1..] else bytes)
      case Some(Parsed(List(items), rest)) => if rest == [] then Some((typed, items)) else None
      case _ => None
  }

  predicate Flat(items: seq<Item>) {
    forall i :: 0 <= i < |items| ==> items[i].Str?
  }

  function Num(t: Item): nat
    requires t.Str?
  {
    Value(t.bytes)
  }

  /** Inverse of `LegacyV`. */
  function ChainOfV(v: nat): (nat, nat)
    requires v >= 27
  {
    if v < 35 then (0, v - 27) else ((v - 35) / 2, (v - 35) % 2)
  }

  /** The eight common fields of a type-2 list, unsigned or signed. */
  function TypedFields(items: seq<Item>): View
    requires |items| >= 8 && Flat(items[..8])
  {
    TypedView(Num(items[0]), Num(items[1]), Num(items[2]), Num(items[3]), Num(items[4]),
              items[5].bytes, Num(items[6]), items[7].bytes)
  }

  /** The six common fields of a legacy list under a chain id. */
  function LegacyFields(items: seq<Item>, chainId: nat): View
    requires |items| >= 6 && Flat(items[..6])
  {
    LegacyView(chainId, Num(items[0]), Num(items[1]), Num(items[2]),
               items[3].bytes, Num(items[4]), items[5].bytes)
  }

  function PreimageFields(typed: bool, items: seq<Item>): Option<View> {
    if |items| != 9 || !Flat(items[..8]) then None
    else if typed then Some(TypedFields(items))
    else
      assert Flat(items[..6]) by { assert items[..6] == items[..8][..6]; }
      Some(LegacyFields(items, Num(items[..8][6])))
  }

  function ReadPreimage(bytes: seq<Byte>): Option<View> {
    match Open(bytes)
    case None => None
    case Some((typed, items)) => PreimageFields(typed, items)
  }

  function TypedRaw(items: seq<Item>): Option<(View, Signature)> {
    if |items| != 12 || !Flat(items[..8]) || !Flat(items[9..]) then None
    else
      var tail := items[9..];
      Some((TypedFields(items), Signature(Num(tail[1]), Num(tail[2]), Num(tail[0]) == 1)))
  }

  function LegacyRaw(items: seq<Item>): Option<(View, Signature)> {
    if |items| != 9 || !Flat(items[..6]) || !Flat(items[6..]) then None
    else
      var tail := items[6..];
      if Num(tail[0]) < 27 then None
      else
        var (chainId, parity) := ChainOfV(Num(tail[0]));
        Some((LegacyFields(items, chainId), Signature(Num(tail[1]), Num(tail[2]), parity == 1)))
  }

  function ReadRaw(bytes: seq<Byte>): Option<(View, Signature)> {
    match Open(bytes)
    case None => None
    case Some((typed, items)) => if typed then TypedRaw(items) else LegacyRaw(items)
  }

  // ----- the envelopes lose nothing -----

  lemma OpenEnvelope(typed: bool, items: seq<Item>)
    requires Fits(List(items))
    ensures Open(Envelope(typed, items)) == Some((typed, items))
  {
    var bytes := Envelope(typed, items);
    var body := Encode(List(items));
    RoundTrip(List(items), []);
    assert body + [] == body;
    if typed {
      assert bytes[1..] == body;
    } else {
      assert bytes == body && body[0] >= LIST_BASE;
    }
  }

  lemma WordValue(v: nat)
    requires Word(v).Ok?
    ensures |Word(v).value| == 32 && Value(Word(v).value) == v
  {
    U256Value(v);
  }

  /** The signature word `v` fixes the chain id and the parity. */
  lemma LegacyVInverse(chainId: nat, parity: nat)
    requires parity < 2
    ensures LegacyV(chainId, parity) >= 27
    ensures ChainOfV(LegacyV(chainId, parity)) == (chainId, parity)
  {
  }

  lemma NumInt(v: nat)
    ensures Int(v).Str? && Num(Int(v)) == v
  {
  }

  /** The first eight items of a type-2 list carry this view. */
  predicate TypedShape(view: View, items: seq<Item>)
    requires view.TypedView?
  {
    && |items| >= 8
    && items[0] == Int(view.chainId) && items[1] == Int(view.nonce)
    && items[2] == Int(view.priority) && items[3] == Int(view.feeCap)
    && items[4] == Int(view.gas) && items[5] == Str(view.to)
    && items[6] == Int(view.amount) && items[7] == Str(view.data)
  }

  predicate LegacyShape(view: View, items: seq<Item>)
    requires view.LegacyView?
  {
    && |items| >= 6
    && items[0] == Int(view.nonce) && items[1] == Int(view.gasPrice)
    && items[2] == Int(view.gas) && items[3] == Str(view.to)
    && items[4] == Int(view.amount) && items[5] == Str(view.data)
  }

  lemma TypedItems(req: Request)
    requires IsTyped(req) && Unsigned(req).Ok?
    ensures |Unsigned(req).value| == 9 && TypedShape(ViewOf(req), Unsigned(req).value)
    ensures Unsigned(req).value[8] == List([])
  {
    assert Unsigned(req) == UnsignedTyped(req) && TypedError(req).None?;
    assert Unsigned(req).value ==
           [Int(req.chainId.value), Int(req.nonce.value), Int(req.maxPriorityFeePerGas.value),
            Int(req.maxFeePerGas.value), Int(req.gas.value), Str(req.to),
            Int(req.amount.GetOr(0)), Str(req.data), List([])];
  }

  lemma LegacyItems(req: Request)
    requires !IsTyped(req) && Unsigned(req).Ok?
    ensures |Unsigned(req).value| == 9 && LegacyShape(ViewOf(req), Unsigned(req).value)
    ensures Unsigned(req).value[6..] == [Int(ViewOf(req).chainId), Int(0), Int(0)]
  {
    assert Unsigned(req) == UnsignedLegacy(req, req.chainId.GetOr(0)) && LegacyError(req).None?;
    assert Unsigned(req).value ==
           [Int(req.nonce.value), Int(req.gasPrice.value), Int(req.gas.value), Str(req.to),
            Int(req.amount.GetOr(0)), Str(req.data), Int(req.chainId.GetOr(0)), Int(0), Int(0)];
  }

  /** The signed list of a type-2 request: the unsigned items, then parity, r and s. */
  lemma TypedSigned(req: Request, sig: Signature)
    requires IsTyped(req) && SignedItems(req, sig).Ok?
    ensures var items := SignedItems(req, sig).value;
            && Unsigned(req).Ok? && Word(sig.r).Ok? && Word(sig.s).Ok?
            && |items| == 12 && TypedShape(ViewOf(req), items)
            && items[9..] == [Int(Parity(sig)), Str(Word(sig.r).value), Str(Word(sig.s).value)]
  {
    TypedItems(req);
  }

  /** The signed list of a legacy request: the first six unsigned items, then v, r and s. */
  lemma LegacySigned(req: Request, sig: Signature)
    requires !IsTyped(req) && SignedItems(req, sig).Ok?
    ensures var items := SignedItems(req, sig).value;
            && Unsigned(req).Ok? && Word(sig.r).Ok? && Word(sig.s).Ok?
            && |items| == 9 && LegacyShape(ViewOf(req), items)
            && items[6..] == [Int(LegacyV(ViewOf(req).chainId, Parity(sig))),
                              Str(Word(sig.r).value), Str(Word(sig.s).value)]
  {
    LegacyItems(req);
  }

  lemma TypedFieldsOf(view: View, items: seq<Item>)
    requires view.TypedView? && TypedShape(view, items)
    ensures Flat(items[..8]) && TypedFields(items) == view
  {
  }

  lemma LegacyFieldsOf(view: View, items: seq<Item>)
    requires view.LegacyView? && LegacyShape(view, items)
    ensures Flat(items[..6]) && LegacyFields(items, view.chainId) == view
  {
  }

  lemma LegacyPreimageFieldsOf(view: View, items: seq<Item>)
    requires view.LegacyView? && LegacyShape(view, items)
    requires |items| == 9 && items[6..] == [Int(view.chainId), Int(0), Int(0)]
    ensures PreimageFields(false, items) == Some(view)
  {
  }

  lemma TypedRawOf(view: View, items: seq<Item>, sig: Signature)
    requires view.TypedView? && TypedShape(view, items) && |items| == 12
    requires Word(sig.r).Ok? && Word(sig.s).Ok?
    requires items[9..] == [Int(Parity(sig)), Str(Word(sig.r).value), Str(Word(sig.s).value)]
    ensures TypedRaw(items) == Some((view, sig))
  {
    TypedFieldsOf(view, items);
    WordValue(sig.r);
    WordValue(sig.s);
    NumInt(Parity(sig));
  }

  lemma LegacyRawOf(view: View, items: seq<Item>, sig: Signature)
    requires view.LegacyView? && LegacyShape(view, items) && |items| == 9
    requires Word(sig.r).Ok? && Word(sig.s).Ok?
    requires items[6..] ==
             [Int(LegacyV(view.chainId, Parity(sig))), Str(Word(sig.r).value), Str(Word(sig.s).value)]
    ensures LegacyRaw(items) == Some((view, sig))
  {
    LegacyFieldsOf(view, items);
    WordValue(sig.r);
    WordValue(sig.s);
    LegacyVInverse(view.chainId, Parity(sig));
    NumInt(LegacyV(view.chainId, Parity(sig)));
  }

  /** Reading a preimage gives back every field of the request except the access list. */
  lemma PreimageRecovers(req: Request, bytes: seq<Byte>)
    requires IsPreimage(req, bytes)
    ensures ReadPreimage(bytes) == Some(ViewOf(req))
  {
    var items := Unsigned(req).value;
    OpenEnvelope(IsTyped(req), items);
    if IsTyped(req) {
      TypedItems(req);
      TypedFieldsOf(ViewOf(req), items);
    } else {
      LegacyItems(req);
      LegacyPreimageFieldsOf(ViewOf(req), items);
    }
  }

  /** Reading a raw transaction gives back every field of the request and the whole signature. */
  lemma RawRecovers(req: Request, sig: Signature, bytes: seq<Byte>)
    requires IsRaw(req, sig, bytes)
    ensures ReadRaw(bytes) == Some((ViewOf(req), sig))
  {
    var items := SignedItems(req, sig).value;
    OpenEnvelope(IsTyped(req), items);
    if IsTyped(req) {
      TypedSigned(req, sig);
      TypedRawOf(ViewOf(req), items, sig);
    } else {
      LegacySigned(req, sig);
      LegacyRawOf(ViewOf(req), items, sig);
    }
  }

  /** Equal preimages mean equal fields, and equal fields mean equal preimages. */
  lemma PreimagesAgree(a: Request, b: Request, x: seq<Byte>, y: seq<Byte>)
    requires IsPreimage(a, x) && IsPreimage(b, y)
    ensures x == y <==> ViewOf(a) == ViewOf(b)
  {
    PreimageRecovers(a, x);
    PreimageRecovers(b, y);
  }

  /** What is signed for one kind is never what is signed for the other. */
  lemma KindsNeverCollide(a: Request, b: Request, x: seq<Byte>, y: seq<Byte>)
    requires IsPreimage(a, x) && IsPreimage(b, y)
    requires IsTyped(a) != IsTyped(b)
    ensures x != y
  {
    PreimagesAgree(a, b, x, y);
  }

  /** Two requests with one preimage that were signed the same way broadcast the same bytes. */
  lemma RawFollowsPreimage(a: Request, b: Request, sig: Signature, pre: seq<Byte>, x: seq<Byte>, y: seq<Byte>)
    requires IsPreimage(a, pre) && IsPreimage(b, pre)
    requires IsRaw(a, sig, x) && IsRaw(b, sig, y)
    ensures x == y
  {
    PreimagesAgree(a, b, pre, pre);
  }

  // ----- which requests become which transactions -----

  /**
   A raw transaction starts with 02 exactly for requests of type 2, or without a type but with a fee
   cap; otherwise it starts as a list.
   */
  lemma RawStartsWith(req: Request, sig: Signature, bytes: seq<Byte>)
    requires IsRaw(req, sig, bytes)
    ensures bytes != []
    ensures if req.kind == Some(2) || (req.kind == None && req.maxFeePerGas != None)
            then bytes[0] == 0x02 else bytes[0] >= 0xc0
  {
    var items := SignedItems(req, sig).value;
    OpenEnvelope(IsTyped(req), items);
    ListStarts(items);
  }

  lemma ListStarts(items: seq<Item>)
    requires Fits(List(items))
    ensures Encode(List(items)) != [] && Encode(List(items))[0] >= 0xc0
  {
  }

  /**
   When signing succeeds, in the request's own fields: the recipient is absent or an address, r and
   s fit a word, and the fields of the request's kind are all there.
   */
  lemma SignedOkIff(req: Request, sig: Signature)
    ensures SignedItems(req, sig).Ok? <==>
            && (req.to == [] || |req.to| == 20) && sig.r < TWO_256 && sig.s < TWO_256
            && req.nonce != None && req.gas != None
            && (if req.kind == Some(2) || (req.kind == None && req.maxFeePerGas != None)
                then req.chainId != None && req.maxPriorityFeePerGas != None && req.maxFeePerGas != None
                else req.gasPrice != None)
  {
    U256Value(sig.r);
    U256Value(sig.s);
  }

  /** A missing field is named when it is absent and those read before it are there. */
  lemma MissingNamed(req: Request, sig: Signature, name: string)
    ensures SignedItems(req, sig) == Err(MissingField(name)) <==>
            if req.kind == Some(2) || (req.kind == None && req.maxFeePerGas != None) then
              || (name == "chainId" && req.chainId == None)
              || (req.chainId != None
                  && (|| (name == "nonce" && req.nonce == None)
                      || (req.nonce != None
                          && (|| (name == "maxPriorityFeePerGas" && req.maxPriorityFeePerGas == None)
                              || (req.maxPriorityFeePerGas != None
                                  && (|| (name == "maxFeePerGas" && req.maxFeePerGas == None)
                                      || (req.maxFeePerGas != None && name == "gas" && req.gas == None)))))))
            else
              || (name == "nonce" && req.nonce == None)
              || (req.nonce != None
                  && (|| (name == "gasPrice" && req.gasPrice == None)
                      || (req.gasPrice != None && name == "gas" && req.gas == None)))
  {
  }

  // ----- which preimage a verifier rebuilds -----

  /** The integers that the encoder writes in that form. */
  predicate Unpadded(v: nat) {
    v == 0 || ToBytes(v)[0] < 0x80
  }

  /** An integer as the standards hash it: without leading zeros. */
  function StdInt(v: nat): Item {
    Str(CanonicalPayload(v))
  }

  lemma StdIntIff(v: nat)
    ensures Int(v) == StdInt(v) <==> Unpadded(v)
  {
    IntegerCanonicalIff(v);
  }

  /** EIP-155: for v of 27 or 28 a verifier hashes six items, otherwise nine with the chain id and two zeros. */
  function LegacyVerifierItems(view: View, v: nat): seq<Item>
    requires view.LegacyView? && v >= 27
  {
    var six := [StdInt(view.nonce), StdInt(view.gasPrice), StdInt(view.gas), Str(view.to),
                StdInt(view.amount), Str(view.data)];
    if v < 29 then six else six + [StdInt(ChainOfV(v).0), StdInt(0), StdInt(0)]
  }

  /** EIP-1559: a verifier hashes the fields, with the access list that was sent, which is empty. */
  function TypedVerifierItems(view: View): seq<Item>
    requires view.TypedView?
  {
    [StdInt(view.chainId), StdInt(view.nonce), StdInt(view.priority), StdInt(view.feeCap), StdInt(view.gas),
     Str(view.to), StdInt(view.amount), Str(view.data), List([])]
  }

  /** The bytes are what hashing these items would hash. */
  ghost predicate Rebuilds(typed: bool, items: seq<Item>, pre: seq<Byte>) {
    Fits(List(items)) && pre == Envelope(typed, items)
  }

  lemma RebuildsIff(req: Request, items: seq<Item>, pre: seq<Byte>)
    requires IsPreimage(req, pre)
    ensures Rebuilds(IsTyped(req), items, pre) <==> items == Unsigned(req).value
  {
    OpenEnvelope(IsTyped(req), Unsigned(req).value);
    if Fits(List(items)) {
      OpenEnvelope(IsTyped(req), items);
    }
  }

  /** The integers of a legacy preimage that are hashed as the standard has them. */
  predicate LegacyUnpadded(view: View)
    requires view.LegacyView?
  {
    Unpadded(view.chainId) && Unpadded(view.nonce) && Unpadded(view.gasPrice) && Unpadded(view.gas)
    && Unpadded(view.amount)
  }

  predicate TypedUnpadded(view: View)
    requires view.TypedView?
  {
    Unpadded(view.chainId) && Unpadded(view.nonce) && Unpadded(view.priority) && Unpadded(view.feeCap)
    && Unpadded(view.gas) && Unpadded(view.amount)
  }

  lemma SameNine(a: seq<Item>, b: seq<Item>)
    requires |a| == |b| == 9
    ensures a == b <==>
            && a[0] == b[0] && a[1] == b[1] && a[2] == b[2] && a[3] == b[3] && a[4] == b[4]
            && a[5] == b[5] && a[6] == b[6] && a[7] == b[7] && a[8] == b[8]
  {
    if a[0] == b[0] && a[1] == b[1] && a[2] == b[2] && a[3] == b[3] && a[4] == b[4]
       && a[5] == b[5] && a[6] == b[6] && a[7] == b[7] && a[8] == b[8] {
      assert forall i :: 0 <= i < 9 ==> a[i] == b[i];
    }
  }

  lemma LegacyItemsIff(view: View, parity: nat, items: seq<Item>)
    requires view.LegacyView? && parity < 2 && |items| == 9 && LegacyShape(view, items)
    requires items[6] == Int(view.chainId) && items[7] == Int(0) && items[8] == Int(0)
    ensures LegacyVerifierItems(view, LegacyV(view.chainId, parity)) == items <==>
            view.chainId != 0 && LegacyUnpadded(view)
  {
    var rebuilt := LegacyVerifierItems(view, LegacyV(view.chainId, parity));
    LegacyVInverse(view.chainId, parity);
    if view.chainId != 0 {
      SameNine(rebuilt, items);
      StdIntIff(view.chainId);
      StdIntIff(view.nonce);
      StdIntIff(view.gasPrice);
      StdIntIff(view.gas);
      StdIntIff(view.amount);
      StdIntIff(0);
    }
  }

  /**
   A verifier that follows EIP-155 rebuilds the signed legacy preimage exactly when the chain id is
   not 0 (with chain id 0 the code signs nine items but sends v of 27 or 28) and no integer in it is
   padded.
   */
  lemma VerifierAgreesIff(req: Request, sig: Signature, pre: seq<Byte>)
    requires !IsTyped(req) && IsPreimage(req, pre)
    ensures LegacyV(ViewOf(req).chainId, Parity(sig)) >= 27
    ensures Rebuilds(false, LegacyVerifierItems(ViewOf(req), LegacyV(ViewOf(req).chainId, Parity(sig))), pre) <==>
            ViewOf(req).chainId != 0 && LegacyUnpadded(ViewOf(req))
  {
    LegacyItems(req);
    var tail := Unsigned(req).value[6..];
    assert Unsigned(req).value[6] == tail[0] && Unsigned(req).value[7] == tail[1] && Unsigned(req).value[8] == tail[2];
    LegacyItemsIff(ViewOf(req), Parity(sig), Unsigned(req).value);
    RebuildsIff(req, LegacyVerifierItems(ViewOf(req), LegacyV(ViewOf(req).chainId, Parity(sig))), pre);
  }

  lemma TypedItemsIff(view: View, items: seq<Item>)
    requires view.TypedView? && |items| == 9 && TypedShape(view, items) && items[8] == List([])
    ensures TypedVerifierItems(view) == items <==> TypedUnpadded(view)
  {
    SameNine(TypedVerifierItems(view), items);
    StdIntIff(view.chainId);
    StdIntIff(view.nonce);
    StdIntIff(view.priority);
    StdIntIff(view.feeCap);
    StdIntIff(view.gas);
    StdIntIff(view.amount);
  }

  /** A verifier that follows EIP-1559 rebuilds the signed preimage exactly when no integer in it is padded. */
  lemma TypedVerifierAgreesIff(req: Request, pre: seq<Byte>)
    requires IsTyped(req) && IsPreimage(req, pre)
    ensures Rebuilds(true, TypedVerifierItems(ViewOf(req)), pre) <==> TypedUnpadded(ViewOf(req))
  {
    TypedItems(req);
    TypedItemsIff(ViewOf(req), Unsigned(req).value);
    RebuildsIff(req, TypedVerifierItems(ViewOf(req)), pre);
  }

  lemma {:induction false} ShortItems(items: seq<Item>)
    requires forall i :: 0 <= i < |items| ==> items[i].Str? && |items[i].bytes| <= 55
    ensures AllFit(items) && SizeAll(items) <= 56 * |items|
  {
    if items != [] {
      ShortItems(items[..|items| - 1]);
    }
  }

  function NonceRequest(nonce: nat): Request {
    Request(None, Some(1), Some(nonce), None, None, Some(1), Some(1), [], None, [], [])
  }

  /** Nonce 128 on chain 1: a verifier rebuilds another preimage than the one that is signed. */
  lemma PaddedNonceWitness(sig: Signature)
    ensures var req := NonceRequest(128);
            && !IsTyped(req) && Unsigned(req).Ok? && Fits(List(Unsigned(req).value))
            && !Rebuilds(false, LegacyVerifierItems(ViewOf(req), LegacyV(1, Parity(sig))),
                         Envelope(false, Unsigned(req).value))
  {
    var req := NonceRequest(128);
    var items := Unsigned(req).value;
    LegacyItems(req);
    assert items == items[..6] + items[6..];
    assert ToBytes(1) == [1] && ToBytes(128) == [128];
    ShortItems(items);
    VerifierAgreesIff(req, sig, Envelope(false, items));
  }

  // ----- EIP-1559 and EIP-155: integers without leading zeros -----

  /** The form both proposals give integers, and with them r and s. */
  predicate Canonical(t: Item) {
    t.Str? && (t.bytes == [] || t.bytes[0] != 0)
  }

  lemma IntCanonicalIff(v: nat)
    ensures Canonical(Int(v)) <==> Unpadded(v)
  {
  }

  const TWO_248: int := 0x1_0000_0000_0000_0000_0000_0000_0000_0000_0000_0000_0000_0000_0000_0000_0000_00

  /** A word is in integer form exactly when it fills all 32 bytes. */
  lemma WordCanonicalIff(v: nat)
    requires Word(v).Ok?
    ensures Canonical(Str(Word(v).value)) <==> v >= TWO_248
  {
    var raw := ToBytes(v);
    Pow248();
    if v >= TWO_248 {
      ValueBound(raw);
      if |raw| < 32 {
        Pow256Monotone(|raw|, 31);
      }
    } else {
      ToBytesLength(v, 31);
      assert (Zeros(32 - |raw|) + raw)[0] == 0;
    }
  }

  lemma Pow248()
    ensures Pow256(31) == TWO_248
  {
    Widths();
    assert Pow256(32) == 256 * Pow256(31);
  }

  /** The integer items of a raw list, wherever its kind puts them. */
  predicate StrictItems(typed: bool, items: seq<Item>) {
    if typed then
      && |items| == 12
      && Canonical(items[0]) && Canonical(items[1]) && Canonical(items[2]) && Canonical(items[3])
      && Canonical(items[4]) && Canonical(items[6])
      && Canonical(items[9]) && Canonical(items[10]) && Canonical(items[11])
    else
      && |items| == 9
      && Canonical(items[0]) && Canonical(items[1]) && Canonical(items[2]) && Canonical(items[4])
      && Canonical(items[6]) && Canonical(items[7]) && Canonical(items[8])
  }

  /** What a strict reader of raw bytes accepts. */
  predicate StrictRaw(bytes: seq<Byte>) {
    Open(bytes).Some? && StrictItems(Open(bytes).value.0, Open(bytes).value.1)
  }

  /** The integers of a request and signature that can stay unpadded. */
  predicate UnpaddedFields(view: View, parity: nat) {
    match view
    case TypedView(chainId, nonce, priority, feeCap, gas, _, amount, _) =>
      && Unpadded(chainId) && Unpadded(nonce) && Unpadded(priority) && Unpadded(feeCap)
      && Unpadded(gas) && Unpadded(amount)
    case LegacyView(chainId, nonce, gasPrice, gas, _, amount, _) =>
      && Unpadded(nonce) && Unpadded(gasPrice) && Unpadded(gas) && Unpadded(amount)
      && Unpadded(LegacyV(chainId, parity))
  }

  /**
   A raw transaction has all integers in the proposals' form exactly when every integer field is 0 or
   has a leading byte below 0x80 (for a legacy one v instead of the chain id), and r and s both fill
   32 bytes.
   */
  lemma RawStrictIff(req: Request, sig: Signature, bytes: seq<Byte>)
    requires IsRaw(req, sig, bytes)
    ensures StrictRaw(bytes) <==>
            UnpaddedFields(ViewOf(req), Parity(sig)) && sig.r >= TWO_248 && sig.s >= TWO_248
  {
    var items := SignedItems(req, sig).value;
    OpenEnvelope(IsTyped(req), items);
    WordCanonicalIff(sig.r);
    WordCanonicalIff(sig.s);
    if IsTyped(req) {
      TypedSigned(req, sig);
      TypedStrictIff(ViewOf(req), items, sig);
    } else {
      LegacySigned(req, sig);
      LegacyStrictIff(ViewOf(req), items, sig);
    }
  }

  lemma TypedStrictIff(view: View, items: seq<Item>, sig: Signature)
    requires view.TypedView? && TypedShape(view, items) && |items| == 12
    requires Word(sig.r).Ok? && Word(sig.s).Ok?
    requires items[9..] == [Int(Parity(sig)), Str(Word(sig.r).value), Str(Word(sig.s).value)]
    ensures StrictItems(true, items) <==>
            && UnpaddedFields(view, Parity(sig))
            && Canonical(Str(Word(sig.r).value)) && Canonical(Str(Word(sig.s).value))
  {
    var tail := items[9..];
    assert items[9] == tail[0] && items[10] == tail[1] && items[11] == tail[2];
    IntCanonicalIff(view.chainId);
    IntCanonicalIff(view.nonce);
    IntCanonicalIff(view.priority);
    IntCanonicalIff(view.feeCap);
    IntCanonicalIff(view.gas);
    IntCanonicalIff(view.amount);
    IntCanonicalIff(Parity(sig));
  }

  lemma LegacyStrictIff(view: View, items: seq<Item>, sig: Signature)
    requires view.LegacyView? && LegacyShape(view, items) && |items| == 9
    requires Word(sig.r).Ok? && Word(sig.s).Ok?
    requires items[6..] ==
             [Int(LegacyV(view.chainId, Parity(sig))), Str(Word(sig.r).value), Str(Word(sig.s).value)]
    ensures StrictItems(false, items) <==>
            && UnpaddedFields(view, Parity(sig))
            && Canonical(Str(Word(sig.r).value)) && Canonical(Str(Word(sig.s).value))
  {
    var tail := items[6..];
    assert items[6] == tail[0] && items[7] == tail[1] && items[8] == tail[2];
    IntCanonicalIff(view.nonce);
    IntCanonicalIff(view.gasPrice);
    IntCanonicalIff(view.gas);
    IntCanonicalIff(view.amount);
    IntCanonicalIff(LegacyV(view.chainId, Parity(sig)));
  }

  // ----- the signer's list assembly -----

  /** Grows the unsigned list into the signed one; a legacy list drops its last three items first. */
  method AssembleSigned(req: Request, sig: Signature) returns (result: Result<seq<Byte>, Error>)
    requires SignedItems(req, sig).Ok? ==> Fits(List(SignedItems(req, sig).value))
    ensures result.Ok? <==> SignedItems(req, sig).Ok?
    ensures result.Ok? ==> IsRaw(req, sig, result.value)
    ensures result.Err? ==> SignedItems(req, sig).Err? && result.error == SignedItems(req, sig).error
  {
    var unsigned := Unsigned(req);
    if unsigned.Err? {
      return Err(unsigned.error);
    }
    var items := unsigned.value;
    var r := Word(sig.r);
    if r.Err? {
      return Err(r.error);
    }
    var s := Word(sig.s);
    if s.Err? {
      return Err(s.error);
    }
    if IsTyped(req) {
      items := items + [Int(Parity(sig))];
    } else {
      items := items[..6];
      items := items + [Int(LegacyV(req.chainId.GetOr(0), Parity(sig)))];
    }
    items := items + [Str(r.value)];
    items := items + [Str(s.value)];
    assert items == SignedItems(req, sig).value;
    var list := EncodeListBuffer(EncodeAll(items));
    var raw: seq<Byte> := if IsTyped(req) then [0x02] else [];
    result := Ok(raw + list);
  }
}
