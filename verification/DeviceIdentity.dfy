/**
 The device identity inside a credential: a version byte and two length-prefixed
 names. Written and read are exact inverses.
 */
module DeviceIdentity {
  import opened Numerals
  import opened HistoryFormat

  const CREDENTIAL_FORMAT_VERSION: Byte := 1
  const MAX_ID_BYTES := 128

  datatype Identity = Identity(account: Bytes, device: Bytes)

  predicate Named(name: Bytes) { 0 < |name| <= MAX_ID_BYTES }

  predicate Nameable(i: Identity) { Named(i.account) && Named(i.device) }

  /** The identities a credential can hold. */
  type DeviceName = i: Identity | Nameable(i) witness Identity([0], [0])

  function Encode(i: Identity): Result<Bytes> {
    if !Nameable(i) then Err(InvalidInput)
    else Ok([CREDENTIAL_FORMAT_VERSION] + (Lp(i.account) + Lp(i.device)))
  }

  /** One name off the input: none, an empty one and a long one are refused. */
  function TakeName(b: Bytes): Result<Parsed<Bytes>> {
    var name :- TakeLp(b, MAX_ID_BYTES);
    if name.value == [] then Err(InvalidInput) else Ok(name)
  }

  function Decode(b: Bytes): Result<Identity> {
    if |b| == 0 || b[0] != CREDENTIAL_FORMAT_VERSION then Err(InvalidInput)
    else
      var account :- TakeName(b[1..]);
      var device :- TakeName(account.rest);
      if device.rest != [] then Err(InvalidInput) else Ok(Identity(account.value, device.value))
  }

  lemma NameExact(name: Bytes, b: Bytes, t: Bytes)
    ensures TakeName(b) == Ok(Parsed(name, t)) <==> Named(name) && b == Lp(name) + t
  {
    LpExact(name, MAX_ID_BYTES, b, t);
  }

  /** A credential reads as an identity exactly when it is its encoding. */
  lemma IdentityExact(i: Identity, b: Bytes)
    ensures Decode(b) == Ok(i) <==> Encode(i) == Ok(b)
  {
    var t := Lp(i.device);
    assert t + [] == t;
    if Encode(i) == Ok(b) {
      assert b[1..] == Lp(i.account) + t;
      NameExact(i.account, b[1..], t);
      NameExact(i.device, t, []);
    }
    if Decode(b) == Ok(i) {
      var account := TakeName(b[1..]).value;
      NameExact(i.account, b[1..], account.rest);
      NameExact(i.device, account.rest, []);
      assert b == [b[0]] + b[1..];
    }
  }
}
