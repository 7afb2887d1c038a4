/**
 * The FHE operations of the front end: encrypting a ballot, and the public and user decryption
 * entry points. These validate handles, consult the decryption cache, call the relayer and
 * reduce its replies to one canonical shape.
 */
module FheOperations {
  import opened Wrappers
  import opened Js
  import opened Strings
  import Utils
  import Encoding

  const NotInitialized := "FHE not initialized"
  const NotReady := "FHE not initialized or account not connected"
  const NoAddMethod := "No suitable add method found on buffer"
  const BadHandle := "Encrypted value must be a hex string starting with 0x"
  const BadHandles := "All encrypted values must be hex strings starting with 0x"
  const NoValue := "No decrypted value found for the given handle"
  const NoHandles := "At least one encrypted value is required"
  /** The message of a TypeError the engine throws: `in` on a primitive, a property of `null`. */
  const TypeError := "TypeError"
  const UnsupportedPrefix := "Unsupported publicDecrypt result format. Result keys: "

  function MissingValue(handle: string): string {
    "No decrypted value found for handle: " + handle
  }

  /** `Object.keys(v)`; a map keeps no insertion order, so the keys are listed in ascending order. */
  function ObjectKeys(v: Value): (keys: seq<string>)
    ensures forall k :: k in keys <==> HasKey(v, k)
  {
    if v.Obj? then SortedKeys(v.fields.Keys) else []
  }

  // ---------------------------------------------------------------------------------------------
  // The relayer instance, as far as the core sees it

  /** The add method an encrypted-input buffer offers for the ballot. */
  datatype Width = Add8 | Add16

  /** What `buffer.encrypt()` returns: the ciphertext handles and the input proof, as bytes. */
  datatype Ciphertexts = Ciphertexts(handles: seq<seq<Encoding.byte>>, inputProof: seq<Encoding.byte>)

  /** One call into the relayer SDK. */
  datatype Request =
    | EncryptRequest(account: string, width: Width, value: int)
    | PublicRequest(handles: seq<string>)
    | UserRequest(account: string, handles: seq<string>)

  /**
   * The relayer instance. Its cryptography is opaque: each call's reply is a fixed function of
   * its arguments, and the calls made are logged in `requests`.
   */
  class Relayer {
    /** Whether the buffers of `createEncryptedInput` offer `add8` and `add16`. */
    const hasAdd8: bool
    const hasAdd16: bool
    /** `createEncryptedInput(ZDAO_ADDRESS, account)`, the add call and `buffer.encrypt()`. */
    const encryptInput: (string, Width, int) -> Result<Ciphertexts, Failure>
    /** `publicDecrypt(handles)`. */
    const publicReply: seq<string> -> Result<Value, Failure>
    /** Key generation, EIP-712 signing with the wallet and `userDecrypt`, for an account. */
    const userReply: (string, seq<string>) -> Result<Value, Failure>
    var requests: seq<Request>

    constructor (hasAdd8: bool, hasAdd16: bool, encryptInput: (string, Width, int) -> Result<Ciphertexts, Failure>,
                 publicReply: seq<string> -> Result<Value, Failure>, userReply: (string, seq<string>) -> Result<Value, Failure>)
      ensures this.hasAdd8 == hasAdd8 && this.hasAdd16 == hasAdd16 && this.encryptInput == encryptInput
      ensures this.publicReply == publicReply && this.userReply == userReply && requests == []
    {
      this.hasAdd8 := hasAdd8;
      this.hasAdd16 := hasAdd16;
      this.encryptInput := encryptInput;
      this.publicReply := publicReply;
      this.userReply := userReply;
      requests := [];
    }

    method Encrypt(account: string, width: Width, value: int) returns (r: Result<Ciphertexts, Failure>)
      modifies this`requests
      ensures requests == old(requests) + [EncryptRequest(account, width, value)]
      ensures r == encryptInput(account, width, value)
    {
      requests := requests + [EncryptRequest(account, width, value)];
      r := encryptInput(account, width, value);
    }

    method PublicDecrypt(handles: seq<string>) returns (r: Result<Value, Failure>)
      modifies this`requests
      ensures requests == old(requests) + [PublicRequest(handles)]
      ensures r == publicReply(handles)
    {
      requests := requests + [PublicRequest(handles)];
      r := publicReply(handles);
    }

    method UserDecrypt(account: string, handles: seq<string>) returns (r: Result<Value, Failure>)
      modifies this`requests
      ensures requests == old(requests) + [UserRequest(account, handles)]
      ensures r == userReply(account, handles)
    {
      requests := requests + [UserRequest(account, handles)];
      r := userReply(account, handles);
    }
  }

  // ---------------------------------------------------------------------------------------------
  // Encryption

  /** `encrypt`'s choice of add method: `add8` when the buffer has one, else `add16`, else none. */
  function AddWidth(hasAdd8: bool, hasAdd16: bool): (w: Option<Width>)
    ensures w == Some(Add8) <==> hasAdd8
    ensures w == Some(Add16) <==> !hasAdd8 && hasAdd16
    ensures w == None <==> !hasAdd8 && !hasAdd16
  {
    if hasAdd8 then Some(Add8) else if hasAdd16 then Some(Add16) else None
  }

  /** What `encrypt` resolves to: the first handle and the input proof, each as `0x` + hex. */
  datatype EncryptedInput = EncryptedInput(encryptedValue: string, proof: string)

  /** The hex encoding of what `buffer.encrypt()` returned; without a first handle the engine throws. */
  function FromCiphertexts(c: Result<Ciphertexts, Failure>): (r: Result<EncryptedInput, Failure>)
    ensures r.Ok? <==> c.Ok? && |c.value.handles| > 0
    ensures c.Err? ==> r == Err(c.error)
    ensures c.Ok? && |c.value.handles| == 0 ==> r == Err(Raise(TypeError))
    ensures r.Ok? ==> (Encoding.DecodeHex(r.value.encryptedValue) == Some(c.value.handles[0]) &&
                       |r.value.encryptedValue| == 2 + 2 * |c.value.handles[0]|)
    ensures r.Ok? ==> (Encoding.DecodeHex(r.value.proof) == Some(c.value.inputProof) &&
                       |r.value.proof| == 2 + 2 * |c.value.inputProof|)
  {
    match c
    case Err(f) => Err(f)
    case Ok(ct) =>
      if |ct.handles| == 0 then Err(Raise(TypeError))
      else
        Encoding.HexRoundTrip(ct.handles[0]);
        Encoding.HexRoundTrip(ct.inputProof);
        Ok(EncryptedInput(Encoding.EncodeHex(ct.handles[0]), Encoding.EncodeHex(ct.inputProof)))
  }

  // ---------------------------------------------------------------------------------------------
  // Reading clear values out of a relayer reply

  /** How a normaliser reads one handle's value out of a container. */
  datatype Access =
    | Lenient  // `container?.[handle]`, rejecting `undefined` and `null`: the clearValues envelope
    | Strict   // `container[handle]`, rejecting only `undefined`; it throws on a `null` container

  /** One handle's clear value, converted with `Number(...)`. */
  function ReadValue(container: Value, handle: string, access: Access): (r: Result<Numeric, Failure>)
    ensures access.Lenient? ==>
      (r.Ok? <==> HasKey(container, handle) && !container.fields[handle].Undefined? && !container.fields[handle].Null?)
    ensures access.Strict? ==> (r.Ok? <==> HasKey(container, handle) && !container.fields[handle].Undefined?)
    ensures r.Ok? ==> r.value == ToNumber(container.fields[handle])
    ensures r.Err? && (access.Lenient? || !(container.Undefined? || container.Null?)) ==> r.error == Raise(MissingValue(handle))
    ensures r.Err? && access.Strict? && (container.Undefined? || container.Null?) ==> r.error == Raise(TypeError)
  {
    match access
    case Lenient =>
      var v := Get(container, handle);
      if v.Undefined? || v.Null? then Err(Raise(MissingValue(handle))) else Ok(ToNumber(v))
    case Strict =>
      match StrictGet(container, handle)
      case Threw => Err(Raise(TypeError))
      case Got(v) => if v.Undefined? then Err(Raise(MissingValue(handle))) else Ok(ToNumber(v))
  }

  /** Handle `i` is the first whose read fails. */
  predicate FailsFirstAt(handles: seq<string>, container: Value, access: Access, i: int) {
    0 <= i < |handles| && ReadValue(container, handles[i], access).Err? &&
    forall j | 0 <= j < i :: ReadValue(container, handles[j], access).Ok?
  }

  /**
   * The `clearValues` record a normaliser builds by reading each requested handle in turn; the
   * first handle without a value raises its error (`ClearValuesFailsAt`).
   */
  function ClearValues(handles: seq<string>, container: Value, access: Access): (r: Result<map<string, Numeric>, Failure>)
    ensures r.Ok? <==> forall i | 0 <= i < |handles| :: ReadValue(container, handles[i], access).Ok?
    ensures r.Ok? ==> r.value.Keys == set h | h in handles
    ensures r.Ok? ==> forall i | 0 <= i < |handles| :: r.value[handles[i]] == ReadValue(container, handles[i], access).value
    decreases |handles|
  {
    if |handles| == 0 then Ok(map[])
    else
      var n := |handles| - 1;
      var init := handles[..n];
      assert forall i | 0 <= i < n :: init[i] == handles[i];
      assert handles == init + [handles[n]];
      match ClearValues(init, container, access)
      case Err(f) => Err(f)
      case Ok(m) =>
        match ReadValue(container, handles[n], access)
        case Err(f) => Err(f)
        case Ok(v) => Ok(m[handles[n] := v])
  }

  /** The error of a failed read is that of the first handle whose read fails. */
  lemma {:induction false} ClearValuesFailsAt(handles: seq<string>, container: Value, access: Access, i: int)
    requires FailsFirstAt(handles, container, access, i)
    ensures ClearValues(handles, container, access) == Err(ReadValue(container, handles[i], access).error)
    decreases |handles|
  {
    var n := |handles| - 1;
    var init := handles[..n];
    assert forall j | 0 <= j < n :: init[j] == handles[j];
    if i < n {
      assert FailsFirstAt(init, container, access, i);
      ClearValuesFailsAt(init, container, access, i);
    } else {
      assert ClearValues(init, container, access).Ok?;
    }
  }

  /** One more handle read: its value joins the map of the handles before it. */
  lemma ClearValuesStep(handles: seq<string>, container: Value, access: Access, i: nat)
    requires i < |handles|
    requires ClearValues(handles[..i], container, access).Ok? && ReadValue(container, handles[i], access).Ok?
    ensures ClearValues(handles[..i + 1], container, access) ==
      Ok(ClearValues(handles[..i], container, access).value[handles[i] := ReadValue(container, handles[i], access).value])
  {
    var s := handles[..i + 1];
    assert s[..i] == handles[..i];
    assert s[i] == handles[i];
  }

  /** A prefix whose values could all be read, followed by a failing read, fails first there. */
  lemma PrefixReadsAnswered(handles: seq<string>, container: Value, access: Access, i: nat)
    requires i < |handles| && ClearValues(handles[..i], container, access).Ok?
    requires ReadValue(container, handles[i], access).Err?
    ensures FailsFirstAt(handles, container, access, i)
  {
    forall j | 0 <= j < i ensures ReadValue(container, handles[j], access).Ok? {
      assert handles[..i][j] == handles[j];
    }
  }

  /** The `for (const handle of encryptedValues)` loop that fills `clearValues`. */
  method CollectClearValues(handles: seq<string>, container: Value, access: Access) returns (r: Result<map<string, Numeric>, Failure>)
    ensures r == ClearValues(handles, container, access)
  {
    var clear: map<string, Numeric> := map[];
    var i := 0;
    while i < |handles|
      invariant 0 <= i <= |handles|
      invariant ClearValues(handles[..i], container, access) == Ok(clear)
    {
      var v := ReadValue(container, handles[i], access);
      if v.Err? {
        PrefixReadsAnswered(handles, container, access, i);
        ClearValuesFailsAt(handles, container, access, i);
        return Err(v.error);
      }
      ClearValuesStep(handles, container, access, i);
      clear := clear[handles[i] := v.value];
      i := i + 1;
    }
    assert handles[..i] == handles;
    return Ok(clear);
  }

  /** `publicDecrypt`'s handle check, and the loops of the batch entry points. */
  predicate AllHex(handles: seq<string>) {
    forall i | 0 <= i < |handles| :: StartsWith(handles[i], "0x")
  }

  method ValidateHandles(handles: seq<string>) returns (ok: bool)
    ensures ok <==> AllHex(handles)
  {
    for i := 0 to |handles|
      invariant AllHex(handles[..i])
    {
      if !StartsWith(handles[i], "0x") {
        return false;
      }
      assert handles[..i + 1] == handles[..i] + [handles[i]];
    }
    assert handles[..|handles|] == handles;
    return true;
  }

  // ---------------------------------------------------------------------------------------------
  // Reply shapes

  /** The canonical result of `publicDecryptMultiple`. */
  datatype DecryptResult = DecryptResult(clearValues: map<string, Numeric>, abiEncodedClearValues: Value, decryptionProof: Value)

  /** The shapes `publicDecryptMultiple` recognises, in the order it tries them. */
  datatype Shape = NotObject | Envelope | ValuesProof | DirectMap | Unrecognised

  /** The reply lists all three keys of the `{clearValues, abiEncodedClearValues, decryptionProof}` envelope. */
  predicate IsEnvelope(reply: Value) {
    HasKey(reply, "clearValues") && HasKey(reply, "abiEncodedClearValues") && HasKey(reply, "decryptionProof")
  }

  /**
   * Logging the reply's keys with `in` throws on anything that is not an object. Then come the
   * `{clearValues, abiEncodedClearValues, decryptionProof}` envelope, the `{values, proof}`
   * reply, and a plain record keyed by at least one requested handle.
   */
  function ShapeOf(handles: seq<string>, reply: Value): (s: Shape)
    ensures s == NotObject <==> !IsObjectLike(reply)
    ensures s == Envelope <==> (IsObjectLike(reply) && IsEnvelope(reply))
    ensures s == ValuesProof <==> (IsObjectLike(reply) && !IsEnvelope(reply) && HasKey(reply, "values") && HasKey(reply, "proof"))
    ensures s == DirectMap <==>
      (IsObjectLike(reply) && !IsEnvelope(reply) && !(HasKey(reply, "values") && HasKey(reply, "proof")) &&
       exists h | h in handles :: HasKey(reply, h))
  {
    if !IsObjectLike(reply) then NotObject
    else if IsEnvelope(reply) then Envelope
    else if HasKey(reply, "values") && HasKey(reply, "proof") then ValuesProof
    else if exists h | h in handles :: HasKey(reply, h) then DirectMap
    else Unrecognised
  }

  /** Where a shape keeps the clear values, and how they are read. */
  function Container(shape: Shape, reply: Value): Value {
    match shape
    case Envelope => Get(reply, "clearValues")
    case ValuesProof => Get(reply, "values")
    case _ => reply
  }

  function AccessOf(shape: Shape): Access {
    if shape == Envelope then Lenient else Strict
  }

  /** A falsy proof becomes "0x". */
  function ProofOrEmpty(proof: Value): (p: Value)
    ensures Truthy(p)
    ensures Truthy(proof) ==> p == proof
  {
    if Truthy(proof) then proof else Str("0x")
  }

  /** The clear values in handle order, `handles.map(h => clear[h])`. */
  function ValuesInOrder(handles: seq<string>, clear: map<string, Numeric>): (r: seq<Numeric>)
    requires forall i | 0 <= i < |handles| :: handles[i] in clear
    ensures |r| == |handles|
    ensures forall i | 0 <= i < |handles| :: r[i] == clear[handles[i]]
  {
    if handles == [] then [] else [clear[handles[0]]] + ValuesInOrder(handles[1..], clear)
  }

  /** The values in handle order, ABI-encoded as `(uint8, uint8)`. */
  function AbiEncoded(handles: seq<string>, clear: map<string, Numeric>): (r: Result<Value, Failure>)
    requires forall i | 0 <= i < |handles| :: handles[i] in clear
    ensures r.Ok? <==> |handles| == 2 && Encoding.IsUint8(clear[handles[0]]) && Encoding.IsUint8(clear[handles[1]])
    ensures r.Ok? ==> r.value.Str? && Encoding.AbiDecodeUint8Pair(r.value.s) == Some((clear[handles[0]].n, clear[handles[1]].n))
  {
    var values := ValuesInOrder(handles, clear);
    match Encoding.AbiEncodeUint8Pair(values)
    case Err(f) => Err(f)
    case Ok(s) =>
      var yes: Encoding.byte := values[0].n;
      var no: Encoding.byte := values[1].n;
      assert values == [Int(yes), Int(no)];
      Encoding.AbiRoundTrip(yes, no);
      Ok(Str(s))
  }

  /** `publicDecryptMultiple`'s reduction of a relayer reply to the canonical result. */
  function Normalized(handles: seq<string>, reply: Value): (r: Result<DecryptResult, Failure>)
    ensures ShapeOf(handles, reply) == NotObject ==> r == Err(Raise(TypeError))
    ensures ShapeOf(handles, reply) == Unrecognised ==> r.Err? && StartsWith(r.error.message, UnsupportedPrefix)
    ensures r.Ok? ==> r.value.clearValues.Keys == set h | h in handles
    ensures r.Ok? ==> forall i | 0 <= i < |handles| ::
      ReadValue(Container(ShapeOf(handles, reply), reply), handles[i], AccessOf(ShapeOf(handles, reply))).Ok? &&
      r.value.clearValues[handles[i]] == ReadValue(Container(ShapeOf(handles, reply), reply), handles[i], AccessOf(ShapeOf(handles, reply))).value
    ensures r.Ok? && ShapeOf(handles, reply) == Envelope ==>
      r.value.abiEncodedClearValues == reply.fields["abiEncodedClearValues"] && r.value.decryptionProof == reply.fields["decryptionProof"]
    ensures r.Ok? && ShapeOf(handles, reply) != Envelope ==> Truthy(r.value.decryptionProof)
    ensures r.Ok? && ShapeOf(handles, reply) == DirectMap ==> r.value.decryptionProof == Str("0x")
    ensures r.Ok? && (ShapeOf(handles, reply) == DirectMap ||
                      (ShapeOf(handles, reply) == ValuesProof && !Truthy(Get(reply, "abiEncodedClearValues")))) ==>
      |handles| == 2 && r.value.abiEncodedClearValues.Str? &&
      Encoding.IsUint8(r.value.clearValues[handles[0]]) && Encoding.IsUint8(r.value.clearValues[handles[1]]) &&
      Encoding.AbiDecodeUint8Pair(r.value.abiEncodedClearValues.s) ==
        Some((r.value.clearValues[handles[0]].n, r.value.clearValues[handles[1]].n))
  {
    var shape := ShapeOf(handles, reply);
    match shape
    case NotObject => Err(Raise(TypeError))
    case Unrecognised =>
      StartsWithConcat(UnsupportedPrefix, Join(ObjectKeys(reply), ", "));
      Err(Raise(UnsupportedPrefix + Join(ObjectKeys(reply), ", ")))
    case Envelope =>
      (match ClearValues(handles, Container(shape, reply), Lenient)
       case Err(f) => Err(f)
       case Ok(clear) => Ok(DecryptResult(clear, reply.fields["abiEncodedClearValues"], reply.fields["decryptionProof"])))
    case ValuesProof =>
      (match ClearValues(handles, Container(shape, reply), Strict)
       case Err(f) => Err(f)
       case Ok(clear) =>
         var abi := if Truthy(Get(reply, "abiEncodedClearValues")) then Ok(Get(reply, "abiEncodedClearValues")) else AbiEncoded(handles, clear);
         match abi
         case Err(f) => Err(f)
         case Ok(a) => Ok(DecryptResult(clear, a, ProofOrEmpty(reply.fields["proof"]))))
    case DirectMap =>
      (match ClearValues(handles, reply, Strict)
       case Err(f) => Err(f)
       case Ok(clear) =>
         match AbiEncoded(handles, clear)
         case Err(f) => Err(f)
         case Ok(a) => Ok(DecryptResult(clear, a, Str("0x"))))
  }

  /** A requested handle without a value in a recognised reply makes the whole call fail. */
  lemma MissingValueRejected(handles: seq<string>, reply: Value, i: int)
    requires ShapeOf(handles, reply) in {Envelope, ValuesProof, DirectMap}
    requires 0 <= i < |handles|
    requires ReadValue(Container(ShapeOf(handles, reply), reply), handles[i], AccessOf(ShapeOf(handles, reply))).Err?
    ensures Normalized(handles, reply).Err?
  {
  }

  /** The envelope wins even when the reply also carries `values` and `proof`. */
  lemma EnvelopeFirst(handles: seq<string>, reply: Value)
    requires reply.Obj? && HasKey(reply, "clearValues") && HasKey(reply, "abiEncodedClearValues") && HasKey(reply, "decryptionProof")
    ensures Normalized(handles, reply) == match ClearValues(handles, reply.fields["clearValues"], Lenient)
      case Err(f) => Err(f)
      case Ok(clear) => Ok(DecryptResult(clear, reply.fields["abiEncodedClearValues"], reply.fields["decryptionProof"]))
  {
  }

  /** The loop-based normaliser, proved against `Normalized`. */
  method NormalizeReply(handles: seq<string>, reply: Value) returns (r: Result<DecryptResult, Failure>)
    ensures r == Normalized(handles, reply)
  {
    var shape := ShapeOf(handles, reply);
    if shape == NotObject {
      return Err(Raise(TypeError));
    }
    if shape == Unrecognised {
      return Err(Raise(UnsupportedPrefix + Join(ObjectKeys(reply), ", ")));
    }
    var clear := CollectClearValues(handles, Container(shape, reply), AccessOf(shape));
    if clear.Err? {
      return Err(clear.error);
    }
    if shape == Envelope {
      return Ok(DecryptResult(clear.value, reply.fields["abiEncodedClearValues"], reply.fields["decryptionProof"]));
    }
    var abi: Result<Value, Failure>;
    if shape == ValuesProof && Truthy(Get(reply, "abiEncodedClearValues")) {
      abi := Ok(Get(reply, "abiEncodedClearValues"));
    } else {
      abi := AbiEncoded(handles, clear.value);
    }
    if abi.Err? {
      return Err(abi.error);
    }
    if shape == ValuesProof {
      return Ok(DecryptResult(clear.value, abi.value, ProofOrEmpty(reply.fields["proof"])));
    }
    return Ok(DecryptResult(clear.value, abi.value, Str("0x")));
  }

  /** The canonical result of `publicDecrypt`. */
  datatype SingleResult = SingleResult(value: Numeric, proof: Value)

  /** `publicDecrypt`'s reduction: a `{values, proof}` reply, else a record keyed by the handle. */
  function NormalizedSingle(handle: string, reply: Value): (r: Result<SingleResult, Failure>)
    ensures !IsObjectLike(reply) ==> r == Err(Raise(TypeError))
    ensures r.Ok? ==> Truthy(r.value.proof)
    ensures IsObjectLike(reply) && HasKey(reply, "values") && HasKey(reply, "proof") ==>
      (r.Ok? <==> HasKey(reply.fields["values"], handle) && !reply.fields["values"].fields[handle].Undefined?) &&
      (r.Ok? ==> r.value == SingleResult(ToNumber(reply.fields["values"].fields[handle]), ProofOrEmpty(reply.fields["proof"])))
    ensures IsObjectLike(reply) && !(HasKey(reply, "values") && HasKey(reply, "proof")) ==>
      (r.Ok? <==> HasKey(reply, handle) && !reply.fields[handle].Undefined?) &&
      (r.Ok? ==> r.value == SingleResult(ToNumber(reply.fields[handle]), Str("0x")))
    ensures r.Err? && IsObjectLike(reply) && !(HasKey(reply, "values") && HasKey(reply, "proof")) ==> r.error == Raise(NoValue)
  {
    if !IsObjectLike(reply) then Err(Raise(TypeError))
    else
      var (read, proof) :=
        if HasKey(reply, "values") && HasKey(reply, "proof") then (StrictGet(reply.fields["values"], handle), reply.fields["proof"])
        else (Got(Get(reply, handle)), Str("0x"));
      match read
      case Threw => Err(Raise(TypeError))
      case Got(v) => if v.Undefined? then Err(Raise(NoValue)) else Ok(SingleResult(ToNumber(v), ProofOrEmpty(proof)))
  }

  /** What a relayer call followed by a normaliser yields. */
  function DecryptedSingle(handle: string, reply: Result<Value, Failure>): Result<SingleResult, Failure> {
    match reply
    case Err(f) => Err(f)
    case Ok(v) => NormalizedSingle(handle, v)
  }

  function Decrypted(handles: seq<string>, reply: Result<Value, Failure>): Result<DecryptResult, Failure> {
    match reply
    case Err(f) => Err(f)
    case Ok(v) => Normalized(handles, v)
  }

  /** `userDecryptMultiple`'s extraction: every requested handle must have a value in the reply. */
  function UserDecrypted(handles: seq<string>, reply: Result<Value, Failure>): (r: Result<map<string, Numeric>, Failure>)
    ensures r.Ok? <==> reply.Ok? && forall i | 0 <= i < |handles| :: ReadValue(reply.value, handles[i], Strict).Ok?
    ensures r.Ok? ==> r.value.Keys == set h | h in handles
    ensures r.Ok? ==> forall i | 0 <= i < |handles| :: r.value[handles[i]] == ToNumber(reply.value.fields[handles[i]])
  {
    match reply
    case Err(f) => Err(f)
    case Ok(v) => ClearValues(handles, v, Strict)
  }

  // ---------------------------------------------------------------------------------------------
  // The decryption cache, as the entry points use it

  /** What the cache holds: a single result under a handle's key, a batch result under a batch key. */
  datatype CachedValue = CachedSingle(single: SingleResult) | CachedMultiple(multiple: DecryptResult)

  /** A cache hit of the right kind; a wrong-kind entry (which distinct key spaces rule out) is a miss. */
  function CachedSingleAt(items: map<string, Utils.Item<CachedValue>>, available: bool, key: string, now: int): Option<SingleResult> {
    if !available then None
    else
      var hit: Option<CachedValue> := Utils.Read(items, key, now);
      if hit.Some? && hit.value.CachedSingle? then Some(hit.value.single) else None
  }

  function CachedMultipleAt(items: map<string, Utils.Item<CachedValue>>, available: bool, key: string, now: int): Option<DecryptResult> {
    if !available then None
    else
      var hit: Option<CachedValue> := Utils.Read(items, key, now);
      if hit.Some? && hit.value.CachedMultiple? then Some(hit.value.multiple) else None
  }

  /** The storage after a cache lookup. */
  function Visited(items: map<string, Utils.Item<CachedValue>>, available: bool, key: string, now: int): map<string, Utils.Item<CachedValue>> {
    if available then Utils.AfterRead(items, key, now) else items
  }

  /** The storage after a cache write. */
  function Stored(items: map<string, Utils.Item<CachedValue>>, available: bool, capacity: nat, key: string, value: CachedValue, now: int): map<string, Utils.Item<CachedValue>> {
    if available then Utils.Written(items, capacity, key, value, now) else items
  }

  /** A lookup that hits leaves the storage as it was. */
  lemma {:induction false} HitLeavesStorage(items: map<string, Utils.Item<CachedValue>>, available: bool, key: string, now: int)
    requires available && Utils.Read(items, key, now).Some?
    ensures Visited(items, available, key, now) == items
  {
  }

  /**
   * A result stored after a miss is what the next lookup under the same key returns, as long as
   * the write had room and the entry has not expired.
   */
  lemma StoredSingleHits(items: map<string, Utils.Item<CachedValue>>, capacity: nat, handle: string, s: SingleResult, now: int, later: int)
    requires Utils.Fits(Visited(items, true, Utils.DecryptCacheKey(handle), now)[Utils.DecryptCacheKey(handle) := Utils.Record(CachedSingle(s), now)], capacity)
    requires later - now <= Utils.CacheExpiryMs
    ensures CachedSingleAt(Stored(Visited(items, true, Utils.DecryptCacheKey(handle), now), true, capacity, Utils.DecryptCacheKey(handle), CachedSingle(s), now),
                           true, Utils.DecryptCacheKey(handle), later) == Some(s)
  {
    var key := Utils.DecryptCacheKey(handle);
    Utils.ReadAfterWrite(Visited(items, true, key, now), capacity, key, CachedSingle(s), now, later);
  }

  lemma StoredMultipleHits(items: map<string, Utils.Item<CachedValue>>, capacity: nat, handles: seq<string>, m: DecryptResult, now: int, later: int, reordered: seq<string>)
    requires Utils.Fits(Visited(items, true, Utils.DecryptMultipleCacheKey(handles), now)[Utils.DecryptMultipleCacheKey(handles) := Utils.Record(CachedMultiple(m), now)], capacity)
    requires later - now <= Utils.CacheExpiryMs
    requires multiset(reordered) == multiset(handles)
    ensures CachedMultipleAt(Stored(Visited(items, true, Utils.DecryptMultipleCacheKey(handles), now), true, capacity, Utils.DecryptMultipleCacheKey(handles), CachedMultiple(m), now),
                             true, Utils.DecryptMultipleCacheKey(reordered), later) == Some(m)
  {
    var key := Utils.DecryptMultipleCacheKey(handles);
    Utils.MultipleKeyOrderFree(handles, reordered);
    Utils.ReadAfterWrite(Visited(items, true, key, now), capacity, key, CachedMultiple(m), now, later);
  }

  // ---------------------------------------------------------------------------------------------
  // The entry points

  /**
   * `useFHEOperations(account)`: the relayer instance (null until it is created), the connected
   * account and the browser storage the cache lives in.
   */
  class FheClient {
    const relayer: Relayer?
    const account: Option<string>
    const storage: Utils.LocalStorage<CachedValue>

    constructor (relayer: Relayer?, account: Option<string>, storage: Utils.LocalStorage<CachedValue>)
      ensures this.relayer == relayer && this.account == account && this.storage == storage
    {
      this.relayer := relayer;
      this.account := account;
      this.storage := storage;
    }

    /** `isInitialized`: the relayer instance exists. */
    predicate Initialized() {
      relayer != null
    }

    /** The condition under which `encrypt`, `userDecrypt` and `userDecryptMultiple` are defined. */
    predicate Ready() {
      relayer != null && account.Some? && account.value != ""
    }

    /** What `encrypt(value)` resolves to. */
    function EncryptOutcome(value: int): (r: Result<EncryptedInput, Failure>)
      ensures !Ready() ==> r == Err(Raise(NotReady))
      ensures Ready() && AddWidth(relayer.hasAdd8, relayer.hasAdd16).None? ==> r == Err(Raise(NoAddMethod))
      ensures Ready() && AddWidth(relayer.hasAdd8, relayer.hasAdd16).Some? ==>
        r == FromCiphertexts(relayer.encryptInput(account.value, AddWidth(relayer.hasAdd8, relayer.hasAdd16).value, value))
    {
      if !Ready() then Err(Raise(NotReady))
      else match AddWidth(relayer.hasAdd8, relayer.hasAdd16)
        case None => Err(Raise(NoAddMethod))
        case Some(w) => FromCiphertexts(relayer.encryptInput(account.value, w, value))
    }

    /** What `publicDecrypt(handle)` resolves to, with the storage holding `items`. */
    function SingleOutcome(handle: string, items: map<string, Utils.Item<CachedValue>>, now: int): Result<SingleResult, Failure>
      requires relayer != null
    {
      if !StartsWith(handle, "0x") then Err(Raise(BadHandle))
      else match CachedSingleAt(items, storage.available, Utils.DecryptCacheKey(handle), now)
        case Some(hit) => Ok(hit)
        case None => DecryptedSingle(handle, relayer.publicReply([handle]))
    }

    /** The storage after `publicDecrypt(handle)`, with the storage holding `items` before. */
    function ItemsAfterSingle(handle: string, items: map<string, Utils.Item<CachedValue>>, now: int): map<string, Utils.Item<CachedValue>>
      requires relayer != null
    {
      if !StartsWith(handle, "0x") then items
      else
        var key := Utils.DecryptCacheKey(handle);
        match CachedSingleAt(items, storage.available, key, now)
        case Some(_) => items
        case None =>
          var visited := Visited(items, storage.available, key, now);
          var r := DecryptedSingle(handle, relayer.publicReply([handle]));
          if r.Ok? then Stored(visited, storage.available, storage.capacity, key, CachedSingle(r.value), now) else visited
    }

    /** What `publicDecryptMultiple(handles)` resolves to, with the storage holding `items`. */
    function MultipleOutcome(handles: seq<string>, items: map<string, Utils.Item<CachedValue>>, now: int): Result<DecryptResult, Failure>
      requires relayer != null
    {
      if !AllHex(handles) then Err(Raise(BadHandles))
      else match CachedMultipleAt(items, storage.available, Utils.DecryptMultipleCacheKey(handles), now)
        case Some(hit) => Ok(hit)
        case None => Decrypted(handles, relayer.publicReply(handles))
    }

    /** The storage after `publicDecryptMultiple(handles)`, with the storage holding `items` before. */
    function ItemsAfterMultiple(handles: seq<string>, items: map<string, Utils.Item<CachedValue>>, now: int): map<string, Utils.Item<CachedValue>>
      requires relayer != null
    {
      if !AllHex(handles) then items
      else
        var key := Utils.DecryptMultipleCacheKey(handles);
        match CachedMultipleAt(items, storage.available, key, now)
        case Some(_) => items
        case None =>
          var visited := Visited(items, storage.available, key, now);
          var r := Decrypted(handles, relayer.publicReply(handles));
          if r.Ok? then Stored(visited, storage.available, storage.capacity, key, CachedMultiple(r.value), now) else visited
    }

    /** `encrypt(value)`: the ballot as an encrypted input for the connected account. */
    method Encrypt(value: int) returns (r: Result<EncryptedInput, Failure>)
      modifies relayer
      ensures !Ready() ==> r == Err(Raise(NotReady))
      ensures relayer != null && !Ready() ==> relayer.requests == old(relayer.requests)
      ensures Ready() && AddWidth(relayer.hasAdd8, relayer.hasAdd16).None? ==>
        r == Err(Raise(NoAddMethod)) && relayer.requests == old(relayer.requests)
      ensures Ready() && AddWidth(relayer.hasAdd8, relayer.hasAdd16).Some? ==>
        var w := AddWidth(relayer.hasAdd8, relayer.hasAdd16).value;
        relayer.requests == old(relayer.requests) + [EncryptRequest(account.value, w, value)]
      ensures r == EncryptOutcome(value)
    {
      if !Ready() {
        return Err(Raise(NotReady));
      }
      var width := AddWidth(relayer.hasAdd8, relayer.hasAdd16);
      if width.None? {
        return Err(Raise(NoAddMethod));
      }
      var ciphertexts := relayer.Encrypt(account.value, width.value, value);
      r := FromCiphertexts(ciphertexts);
    }

    /** `publicDecrypt(handle)`: validate, look in the cache, ask the relayer, normalise and cache. */
    method PublicDecrypt(handle: string, now: int) returns (r: Result<SingleResult, Failure>)
      modifies relayer, storage
      ensures relayer == null ==> r == Err(Raise(NotInitialized)) && storage.items == old(storage.items)
      ensures relayer != null ==> r == SingleOutcome(handle, old(storage.items), now)
      ensures relayer != null ==> storage.items == ItemsAfterSingle(handle, old(storage.items), now)
      ensures relayer != null && !StartsWith(handle, "0x") ==>
        r == Err(Raise(BadHandle)) && storage.items == old(storage.items) && relayer.requests == old(relayer.requests)
      ensures relayer != null && StartsWith(handle, "0x") ==>
        var key := Utils.DecryptCacheKey(handle);
        var visited := Visited(old(storage.items), storage.available, key, now);
        match CachedSingleAt(old(storage.items), storage.available, key, now)
        case Some(hit) =>
          r == Ok(hit) && relayer.requests == old(relayer.requests) && storage.items == old(storage.items)
        case None =>
          relayer.requests == old(relayer.requests) + [PublicRequest([handle])] &&
          r == DecryptedSingle(handle, relayer.publicReply([handle])) &&
          storage.items == if r.Ok? then Stored(visited, storage.available, storage.capacity, key, CachedSingle(r.value), now) else visited
    {
      if relayer == null {
        return Err(Raise(NotInitialized));
      }
      if !StartsWith(handle, "0x") {
        return Err(Raise(BadHandle));
      }
      var key := Utils.DecryptCacheKey(handle);
      ghost var before := storage.items;
      var cached := storage.GetDecryptCache(key, now);
      if cached.Some? && cached.value.CachedSingle? {
        HitLeavesStorage(before, storage.available, key, now);
        return Ok(cached.value.single);
      }
      var reply := relayer.PublicDecrypt([handle]);
      if reply.Err? {
        return Err(reply.error);
      }
      r := NormalizedSingle(handle, reply.value);
      if r.Ok? {
        storage.SetDecryptCache(key, CachedSingle(r.value), now);
      }
    }

    /** `publicDecryptMultiple(handles)`: the batch version, with order-free cache keys. */
    method PublicDecryptMultiple(handles: seq<string>, now: int) returns (r: Result<DecryptResult, Failure>)
      modifies relayer, storage
      ensures relayer == null ==> r == Err(Raise(NotInitialized)) && storage.items == old(storage.items)
      ensures relayer != null ==> r == MultipleOutcome(handles, old(storage.items), now)
      ensures relayer != null ==> storage.items == ItemsAfterMultiple(handles, old(storage.items), now)
      ensures relayer != null && !AllHex(handles) ==>
        r == Err(Raise(BadHandles)) && storage.items == old(storage.items) && relayer.requests == old(relayer.requests)
      ensures relayer != null && AllHex(handles) ==>
        var key := Utils.DecryptMultipleCacheKey(handles);
        var visited := Visited(old(storage.items), storage.available, key, now);
        match CachedMultipleAt(old(storage.items), storage.available, key, now)
        case Some(hit) =>
          r == Ok(hit) && relayer.requests == old(relayer.requests) && storage.items == old(storage.items)
        case None =>
          relayer.requests == old(relayer.requests) + [PublicRequest(handles)] &&
          r == Decrypted(handles, relayer.publicReply(handles)) &&
          storage.items == if r.Ok? then Stored(visited, storage.available, storage.capacity, key, CachedMultiple(r.value), now) else visited
    {
      if relayer == null {
        return Err(Raise(NotInitialized));
      }
      var valid := ValidateHandles(handles);
      if !valid {
        return Err(Raise(BadHandles));
      }
      var key := Utils.DecryptMultipleCacheKey(handles);
      ghost var before := storage.items;
      var cached := storage.GetDecryptCache(key, now);
      if cached.Some? && cached.value.CachedMultiple? {
        HitLeavesStorage(before, storage.available, key, now);
        return Ok(cached.value.multiple);
      }
      var reply := relayer.PublicDecrypt(handles);
      if reply.Err? {
        return Err(reply.error);
      }
      r := NormalizeReply(handles, reply.value);
      if r.Ok? {
        storage.SetDecryptCache(key, CachedMultiple(r.value), now);
      }
    }

    /** `userDecryptMultiple(handles)`: the connected account's own decryption; nothing is cached. */
    method UserDecryptMultiple(handles: seq<string>) returns (r: Result<map<string, Numeric>, Failure>)
      modifies relayer
      ensures !Ready() ==> r == Err(Raise(NotReady))
      ensures relayer != null && !Ready() ==> relayer.requests == old(relayer.requests)
      ensures Ready() && |handles| == 0 ==> r == Err(Raise(NoHandles)) && relayer.requests == old(relayer.requests)
      ensures Ready() && |handles| > 0 && !AllHex(handles) ==> r == Err(Raise(BadHandles)) && relayer.requests == old(relayer.requests)
      ensures Ready() && |handles| > 0 && AllHex(handles) ==>
        relayer.requests == old(relayer.requests) + [UserRequest(account.value, handles)] &&
        r == UserDecrypted(handles, relayer.userReply(account.value, handles))
    {
      if !Ready() {
        return Err(Raise(NotReady));
      }
      if |handles| == 0 {
        return Err(Raise(NoHandles));
      }
      var valid := ValidateHandles(handles);
      if !valid {
        return Err(Raise(BadHandles));
      }
      var reply := relayer.UserDecrypt(account.value, handles);
      if reply.Err? {
        return Err(reply.error);
      }
      r := CollectClearValues(handles, reply.value, Strict);
    }
  }
}
