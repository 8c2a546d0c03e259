/**
 Unlocking with the master password (web-client/assets/unlock-coordinator.js over
 account-crypto.js and master-key-crypto.js): key bytes live in buffers that are overwritten with
 zeros on every way out. The primitives are parameters; `None` is a rejected promise.
 */
module UnlockKeys {
  import opened Common


  const SHA256_LENGTH: nat := 32
  const USER_KEY_LENGTH: nat := 64

  /** HMAC-SHA-256, and decryption of the wrapped key under an encryption and a MAC key. */
  datatype Crypto = Crypto(
    hmac: (seq<Byte>, seq<Byte>) -> Option<seq<Byte>>,
    decrypt: (string, seq<Byte>, seq<Byte>) -> Option<seq<Byte>>)

  datatype KeyPair = KeyPair(enc: array<Byte>, mac: array<Byte>)

  datatype Exit = StretchFailed | UnwrapFailed | OperationThrew | Finished(value: string)

  const ENC_INFO: seq<Byte> := [101, 110, 99]
  const MAC_INFO: seq<Byte> := [109, 97, 99]

  /** HKDF-Expand to one block, section 2.3 of RFC 5869. */
  function Expand(c: Crypto, key: seq<Byte>, info: seq<Byte>): Option<seq<Byte>> {
    c.hmac(key, info + [1])
  }

  // ---------------------------------------------------------------- what an unlock computes

  function Stretched(c: Crypto, masterKey: seq<Byte>): Option<(seq<Byte>, seq<Byte>)> {
    if |masterKey| != SHA256_LENGTH then None
    else match (Expand(c, masterKey, ENC_INFO), Expand(c, masterKey, MAC_INFO))
         case (Some(e), Some(m)) => Some((e, m))
         case _ => None
  }

  /** Exactly one of the two expansions is rejected. */
  predicate HalfFails(c: Crypto, masterKey: seq<Byte>) {
    |masterKey| == SHA256_LENGTH && Expand(c, masterKey, ENC_INFO).Some? != Expand(c, masterKey, MAC_INFO).Some?
  }

  /** The plaintext of the user key, when it has the right length. */
  function UserKey(c: Crypto, wrapped: string, stretched: (seq<Byte>, seq<Byte>)): Option<seq<Byte>> {
    match c.decrypt(wrapped, stretched.0, stretched.1)
    case Some(p) => if |p| == USER_KEY_LENGTH then Some(p) else None
    case None => None
  }

  function Unlocked(c: Crypto, masterKey: seq<Byte>, wrapped: string,
                    run: (seq<Byte>, seq<Byte>) -> Option<string>): Exit {
    match Stretched(c, masterKey)
    case None => StretchFailed
    case Some(stretched) =>
      match UserKey(c, wrapped, stretched)
      case None => UnwrapFailed
      case Some(p) =>
        match run(p[..32], p[32..])
        case Some(value) => Finished(value)
        case None => OperationThrew
  }

  /** From the master key on: it has 32 bytes and both expansions of it, under "enc" and "mac" and
      the counter 1, come back, or nothing is decrypted; the wrapped key decrypts under exactly
      these two to 64 bytes, or nothing is run; and the operation runs on their first and their
      last half. */
  lemma UnlockOutcome(c: Crypto, masterKey: seq<Byte>, wrapped: string,
                      run: (seq<Byte>, seq<Byte>) -> Option<string>)
    ensures var e, m := c.hmac(masterKey, [101, 110, 99, 1]), c.hmac(masterKey, [109, 97, 99, 1]);
            var exit := Unlocked(c, masterKey, wrapped, run);
            if |masterKey| != 32 || e.None? || m.None? then exit == StretchFailed
            else
              var p := c.decrypt(wrapped, e.value, m.value);
              if p.None? || |p.value| != 64 then exit == UnwrapFailed
              else
                var enc, mac := p.value[0..32], p.value[32..64];
                exit == if run(enc, mac).Some? then Finished(run(enc, mac).value) else OperationThrew
  {
    assert ENC_INFO + [1] == [101, 110, 99, 1] && MAC_INFO + [1] == [109, 97, 99, 1];
    var e, m := c.hmac(masterKey, [101, 110, 99, 1]), c.hmac(masterKey, [109, 97, 99, 1]);
    if e.Some? && m.Some? {
      var p := c.decrypt(wrapped, e.value, m.value);
      if p.Some? && |p.value| == 64 { assert p.value[0..32] == p.value[..32] && p.value[32..64] == p.value[32..]; }
    }
  }

  // ---------------------------------------------------------------- buffers

  ghost predicate Zero(a: array<Byte>)
    reads a
  {
    forall i | 0 <= i < a.Length :: a[i] == 0
  }

  method Fill(a: array<Byte>)
    modifies a
    ensures Zero(a)
  {
    for i := 0 to a.Length
      invariant forall j | 0 <= j < i :: a[j] == 0
    {
      a[i] := 0;
    }
  }

  method Buffer(bytes: seq<Byte>) returns (a: array<Byte>)
    ensures fresh(a) && a[..] == bytes
  {
    a := new Byte[|bytes|](i requires 0 <= i < |bytes| => bytes[i]);
  }

  method ClearPair(p: Option<KeyPair>)
    modifies if p.Some? then {p.value.enc, p.value.mac} else {}
    ensures p.Some? ==> Zero(p.value.enc) && Zero(p.value.mac)
  {
    if p.Some? {
      Fill(p.value.enc);
      Fill(p.value.mac);
    }
  }

  /** `stretchMasterKey`. Both expansions are started; `half` is the buffer of one that
      succeeded while the other failed. */
  method Stretch(c: Crypto, masterKey: array<Byte>) returns (pair: Option<KeyPair>, half: Option<array<Byte>>)
    ensures pair.Some? <==> Stretched(c, masterKey[..]).Some?
    ensures pair.Some? ==> fresh(pair.value.enc) && fresh(pair.value.mac)
                           && Some(pair.value.enc[..]) == c.hmac(masterKey[..], [101, 110, 99] + [1])
                           && Some(pair.value.mac[..]) == c.hmac(masterKey[..], [109, 97, 99] + [1])
    ensures half.Some? <==> HalfFails(c, masterKey[..])
    ensures half.Some? ==> fresh(half.value)
    ensures half.Some? ==>
              || Some(half.value[..]) == Expand(c, masterKey[..], ENC_INFO)
              || Some(half.value[..]) == Expand(c, masterKey[..], MAC_INFO)
    ensures !(pair.Some? && half.Some?)
  {
    pair, half := None, None;
    if masterKey.Length != SHA256_LENGTH { return; }
    var e := Expand(c, masterKey[..], ENC_INFO);
    var m := Expand(c, masterKey[..], MAC_INFO);
    if e.Some? && m.Some? {
      var enc := Buffer(e.value);
      var mac := Buffer(m.value);
      pair := Some(KeyPair(enc, mac));
    } else if e.Some? {
      var b := Buffer(e.value);
      half := Some(b);
    } else if m.Some? {
      var b := Buffer(m.value);
      half := Some(b);
    }
  }

  /** `unwrapCompositeUserKey`: the plaintext buffer is wiped whether it splits or not. */
  method Unwrap(c: Crypto, wrapped: string, stretched: KeyPair)
    returns (key: Option<KeyPair>, plaintext: Option<array<Byte>>)
    ensures plaintext.Some? <==> c.decrypt(wrapped, stretched.enc[..], stretched.mac[..]).Some?
    ensures plaintext.Some? ==> fresh(plaintext.value) && Zero(plaintext.value)
                                && plaintext.value.Length
                                   == |c.decrypt(wrapped, stretched.enc[..], stretched.mac[..]).value|
    ensures var p := UserKey(c, wrapped, (stretched.enc[..], stretched.mac[..]));
            && (key.Some? <==> p.Some?)
            && (key.Some? ==> fresh(key.value.enc) && fresh(key.value.mac)
                              && key.value.enc[..] == p.value[..32] && key.value.mac[..] == p.value[32..])
  {
    key, plaintext := None, None;
    var p := c.decrypt(wrapped, stretched.enc[..], stretched.mac[..]);
    if p.None? { return; }
    var buffer := Buffer(p.value);
    if buffer.Length == USER_KEY_LENGTH {
      var enc := Buffer(buffer[..32]);
      var mac := Buffer(buffer[32..]);
      key := Some(KeyPair(enc, mac));
    }
    Fill(buffer);
    plaintext := Some(buffer);
  }

  /** What the operation found when it ran. */
  datatype Seen = Seen(enc: seq<Byte>, mac: seq<Byte>, plaintext: seq<Byte>)

  /** `withMasterPasswordUserKey`, from the derived master key on. Whatever the way out, the
      master key, the stretched pair, the user key and the plaintext end as zeros, while the
      operation saw the two halves of the 64 decrypted bytes and an already wiped plaintext.
      The one buffer that keeps its bytes is `half`: an expansion whose sibling failed. */
  method WithUserKey(c: Crypto, masterKey: array<Byte>, wrapped: string, run: (seq<Byte>, seq<Byte>) -> Option<string>)
    returns (exit: Exit, stretched: Option<KeyPair>, userKey: Option<KeyPair>, plaintext: Option<array<Byte>>,
             half: Option<array<Byte>>, seen: Option<Seen>)
    modifies masterKey
    ensures exit == Unlocked(c, old(masterKey[..]), wrapped, run)
    ensures Zero(masterKey)
    ensures stretched.Some? ==> Zero(stretched.value.enc) && Zero(stretched.value.mac)
    ensures userKey.Some? ==> Zero(userKey.value.enc) && Zero(userKey.value.mac)
    ensures plaintext.Some? ==> Zero(plaintext.value)
    ensures stretched.Some? <==> exit != StretchFailed
    ensures userKey.Some? <==> exit.Finished? || exit.OperationThrew?
    ensures seen.Some? <==> userKey.Some?
    ensures seen.Some? ==>
              var p := UserKey(c, wrapped, Stretched(c, old(masterKey[..])).value).value;
              seen.value.enc + seen.value.mac == p && |seen.value.enc| == 32
              && |seen.value.plaintext| == 64 && forall i | 0 <= i < 64 :: seen.value.plaintext[i] == 0
    ensures half.Some? <==> HalfFails(c, old(masterKey[..]))
    ensures half.Some? ==> exit == StretchFailed
    ensures half.Some? ==>
              || Some(half.value[..]) == Expand(c, old(masterKey[..]), ENC_INFO)
              || Some(half.value[..]) == Expand(c, old(masterKey[..]), MAC_INFO)
  {
    userKey, plaintext, seen := None, None, None;
    exit := StretchFailed;
    stretched, half := Stretch(c, masterKey);
    if stretched.Some? {
      userKey, plaintext := Unwrap(c, wrapped, stretched.value);
      exit := UnwrapFailed;
      if userKey.Some? {
        var enc, mac := userKey.value.enc[..], userKey.value.mac[..];
        seen := Some(Seen(enc, mac, plaintext.value[..]));
        var result := run(enc, mac);
        exit := if result.Some? then Finished(result.value) else OperationThrew;
      }
    }
    ClearPair(userKey);
    ClearPair(stretched);
    Fill(masterKey);
  }
}
