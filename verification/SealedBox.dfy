/** The sealed box (internal/crypto/sealedbox.go) over abstract primitives: layout, key agreement
    and whole-box rejection. The primitives are parameters, and only their published laws are used. */
module SealedBox {
  import opened Basics
  import opened Envelopes

  const VERSION: Byte := 1
  const KEY_SIZE: nat := 32
  const NONCE_SIZE: nat := 24
  const TAG_SIZE: nat := 16
  const HEADER_SIZE: nat := 1 + KEY_SIZE + NONCE_SIZE

  /** X25519 (`None` is a rejected low-order point), HKDF-SHA256 with the construction's info string
      fixed, and XChaCha20-Poly1305 without associated data. */
  datatype Primitives = Primitives(
    x25519: (Bytes, Bytes) -> Option<Bytes>,
    publicOf: Bytes -> Bytes,
    hkdf: (Bytes, Bytes) -> Bytes,
    aeadSeal: (Bytes, Bytes, Bytes) -> Bytes,
    aeadOpen: (Bytes, Bytes, Bytes) -> Option<Bytes>)

  /** Section 6.1 of RFC 7748: both sides of an agreement compute the same shared secret. */
  ghost predicate AgreementCommutes(prim: Primitives) {
    forall a, b :: prim.x25519(a, prim.publicOf(b)) == prim.x25519(b, prim.publicOf(a))
  }

  /** Section 2.8 of RFC 8439: what a key and nonce sealed, the same key and nonce open; the output
      is one tag longer than the input. */
  ghost predicate AeadInverts(prim: Primitives) {
    forall k, n, m ::
      prim.aeadOpen(k, n, prim.aeadSeal(k, n, m)) == Some(m) && |prim.aeadSeal(k, n, m)| == |m| + TAG_SIZE
  }

  ghost predicate Lawful(prim: Primitives) {
    && AgreementCommutes(prim) && AeadInverts(prim)
    && forall a :: |prim.publicOf(a)| == KEY_SIZE
  }

  /** An X25519 identity: the public half is derived from the private one. */
  datatype Identity = Identity(priv: Bytes)

  function PublicKey(prim: Primitives, id: Identity): Bytes {
    prim.publicOf(id.priv)
  }

  /** deriveSealedBoxKey: the salt binds both public keys, ephemeral first. */
  function DeriveKey(prim: Primitives, shared: Bytes, ephPub: Bytes, recipientPub: Bytes): Bytes {
    prim.hkdf(shared, ephPub + recipientPub)
  }

  datatype OpenResult = Opened(plaintext: Bytes) | Truncated | UnknownVersion | KeyRejected | AuthFailed

  function Open(prim: Primitives, id: Identity, box: Bytes): OpenResult {
    if |box| < HEADER_SIZE + TAG_SIZE then Truncated
    else if box[0] != VERSION then UnknownVersion
    else
      var ephPub, nonce, body := box[1..1 + KEY_SIZE], box[1 + KEY_SIZE..HEADER_SIZE], box[HEADER_SIZE..];
      match prim.x25519(id.priv, ephPub)
      case None => KeyRejected
      case Some(shared) =>
        match prim.aeadOpen(DeriveKey(prim, shared, ephPub, PublicKey(prim, id)), nonce, body)
        case None => AuthFailed
        case Some(plaintext) => Opened(plaintext)
  }

  /** sealWithRand, given the entropy it read: the box is written field by field, and it opens for
      the holder of the recipient key. A recipient key the agreement rejects yields no box. */
  method SealWithRand(prim: Primitives, eph: Bytes, nonce: Bytes, recipient: Bytes, plaintext: Bytes)
    returns (box: Option<Bytes>)
    requires |nonce| == NONCE_SIZE
    ensures box == Seal(prim, eph, nonce, recipient, plaintext)
    ensures box.Some? ==>
      var ephPub, shared := prim.publicOf(eph), prim.x25519(eph, recipient).value;
      box.value == [0x01] + ephPub + nonce + prim.aeadSeal(prim.hkdf(shared, ephPub + recipient), nonce, plaintext)
    ensures box.None? <==> prim.x25519(eph, recipient).None?
    ensures forall id :: Lawful(prim) && recipient == PublicKey(prim, id) && box.Some? ==>
      Open(prim, id, box.value) == Opened(plaintext)
  {
    var ephPub := prim.publicOf(eph);
    var shared := prim.x25519(eph, recipient);
    if shared.None? {
      return None;
    }
    var salt := [];
    salt := salt + ephPub;
    salt := salt + recipient;
    assert salt == ephPub + recipient;
    var key := prim.hkdf(shared.value, salt);
    var out: Bytes := [];
    out := out + [VERSION];
    out := out + ephPub;
    out := out + nonce;
    out := out + prim.aeadSeal(key, nonce, plaintext);
    assert out == [VERSION] + ephPub + nonce + prim.aeadSeal(key, nonce, plaintext);
    box := Some(out);
    forall id | Lawful(prim) && recipient == PublicKey(prim, id)
      ensures Open(prim, id, out) == Opened(plaintext)
    {
      OpenInvertsSeal(prim, eph, nonce, id, plaintext);
    }
  }

  function Seal(prim: Primitives, eph: Bytes, nonce: Bytes, recipient: Bytes, plaintext: Bytes): Option<Bytes> {
    match prim.x25519(eph, recipient)
    case None => None
    case Some(shared) =>
      var ephPub := prim.publicOf(eph);
      Some([VERSION] + ephPub + nonce +
           prim.aeadSeal(DeriveKey(prim, shared, ephPub, recipient), nonce, plaintext))
  }

  /** Whatever is sealed to an identity's public key, that identity opens, to the very plaintext. */
  lemma OpenInvertsSeal(prim: Primitives, eph: Bytes, nonce: Bytes, id: Identity, plaintext: Bytes)
    requires Lawful(prim) && |nonce| == NONCE_SIZE
    requires Seal(prim, eph, nonce, PublicKey(prim, id), plaintext).Some?
    ensures Open(prim, id, Seal(prim, eph, nonce, PublicKey(prim, id), plaintext).value) == Opened(plaintext)
  {
    var ephPub := prim.publicOf(eph);
    var shared := prim.x25519(eph, PublicKey(prim, id)).value;
    assert prim.x25519(id.priv, ephPub) == prim.x25519(eph, prim.publicOf(id.priv));
    var body := prim.aeadSeal(DeriveKey(prim, shared, ephPub, PublicKey(prim, id)), nonce, plaintext);
    var box := [VERSION] + ephPub + nonce + body;
    assert box[1..1 + KEY_SIZE] == ephPub;
    assert box[1 + KEY_SIZE..HEADER_SIZE] == nonce;
    assert box[HEADER_SIZE..] == body;
  }

  /** The salt keeps both keys apart and in their order: where key derivation confuses no two inputs, two boxes
      share a key only if shared secret, ephemeral key and recipient key are the same. */
  lemma KeyBindsAllThree(prim: Primitives, s: Bytes, e: Bytes, r: Bytes, s': Bytes, e': Bytes, r': Bytes)
    requires forall a, x, b, y :: prim.hkdf(a, x) == prim.hkdf(b, y) ==> a == b && x == y
    requires |e| == |e'|
    ensures DeriveKey(prim, s, e, r) == DeriveKey(prim, s', e', r') <==> s == s' && e == e' && r == r'
  {
    if DeriveKey(prim, s, e, r) == DeriveKey(prim, s', e', r') {
      assert e + r == e' + r';
      assert e == (e + r)[..|e|] && e' == (e' + r')[..|e'|];
      assert r == (e + r)[|e|..] && r' == (e' + r')[|e'|..];
    }
  }

  /** What keeps a box shut, in the order it is looked at. */
  lemma OpenVerdicts(prim: Primitives, id: Identity, box: Bytes)
    ensures Open(prim, id, box) == Truncated <==> |box| < 73
    ensures Open(prim, id, box) == UnknownVersion <==> |box| >= 73 && box[0] != 0x01
    ensures Open(prim, id, box) == KeyRejected <==>
      |box| >= 73 && box[0] == 0x01 && prim.x25519(id.priv, box[1..33]).None?
  {
  }

  /** The laws ask nothing impossible: some primitives meet them. */
  lemma LawsAreSatisfiable() returns (prim: Primitives)
    ensures Lawful(prim)
  {
    var zeros: nat -> Bytes := (n: nat) => seq(n, _ => 0);
    prim := Primitives(
      (a, b) => Some([]),
      a => zeros(KEY_SIZE),
      (s, salt) => [],
      (k, n, m) => m + zeros(TAG_SIZE),
      (k, n, c) => if |c| < TAG_SIZE then None else Some(c[..|c| - TAG_SIZE]));
    forall k: Bytes, n: Bytes, m: Bytes
      ensures prim.aeadOpen(k, n, prim.aeadSeal(k, n, m)) == Some(m)
      ensures |prim.aeadSeal(k, n, m)| == |m| + TAG_SIZE
    {
      assert (m + zeros(TAG_SIZE))[..|m|] == m;
    }
  }
}
