/** The tunnel protocol as both ends see it: message types, frames and the
    cryptography as symbols. A key is the term it was derived from; a sealed
    payload opens only under the same key and header. */
module Protocol {
  import opened Text

  const SEQ_REKEY_LIMIT: nat := 0x8000_0000
  const SEQ_WORD: nat := 0x1_0000_0000
  const V_UDP: nat := 1
  const V_TCP: nat := 2

  // ---- symbols ------------------------------------------------------------------

  type Nonce = nat
  datatype Priv = Priv(id: nat)
  datatype Pub = Pub(priv: Priv)

  /** An X25519 shared secret is fixed by the two public keys. */
  datatype Secret = Shared(ends: set<Pub>)

  function Dh(own: Priv, peer: Pub): Secret
  {
    Shared({Pub(own), peer})
  }

  /** Tx protects client to server, Rx server to client. */
  datatype Direction = Tx | Rx
  datatype SessionKey = SessionKey(dir: Direction, secret: Secret, nonceC: Nonce, nonceS: Nonce)

  /** An Ed25519 identity; a signature names its signer and the signed text. */
  datatype SigKey = SigKey(id: nat)
  datatype SignedText = HelloText(nonceC: Nonce, nonceS: Nonce, dhSrv: Pub)
                 | IdentityText(nonceC: Nonce, nonceS: Nonce, dhCli: Pub, dhSrv: Pub, cliPub: SigKey, clientId: string)
  datatype Signature = Signature(signer: SigKey, text: SignedText) | Garbage

  predicate Verifies(key: SigKey, text: SignedText, sig: Signature)
  {
    sig == Signature(key, text)
  }

  // ---- frames -------------------------------------------------------------------

  datatype MsgType = MData | MHeart | MHeartResponse | MDisconnect | MAuthHello | MServerHello
                   | MClientHello | MIdentity | MIdentityOk | MIdentityDeny | MOther

  /** The types a receiver only accepts sealed. */
  predicate SealedType(t: MsgType)
  {
    t.MData? || t.MHeart? || t.MHeartResponse? || t.MIdentity? || t.MIdentityOk? || t.MIdentityDeny? || t.MDisconnect?
  }

  /** The types the server's send_packet seals: disconnect is not among them. */
  predicate ServerSeals(t: MsgType)
  {
    SealedType(t) && !t.MDisconnect?
  }

  datatype Header = Header(version: nat, typ: MsgType, seqNo: nat)

  /** An unsealed payload, named by its length: 16, 32, 112 bytes, or anything else. */
  datatype Clear = Hello(nonceC: Nonce)
                 | ClientHello(dhCli: Pub)
                 | ServerHello(nonceS: Nonce, dhSrv: Pub, sig: Signature)
                 | Junk

  datatype IdentityMsg = IdentityMsg(flags: nat, token: string, text: SignedText, sig: Signature)

  /** What a sealed payload says once opened. A data packet counts by its IPv4
      source address, None when it is not a well-formed IPv4 packet. */
  datatype Inner = InData(src: Option<nat>) | InHeart | InHeartResponse | InDisconnect
                 | InIdentity(msg: Option<IdentityMsg>)
                 | InIdentityOk(vip: nat, prefix: nat)
                 | InIdentityDeny(reason: nat)
                 | InOther

  datatype Payload = Open(clear: Clear) | Sealed(key: SessionKey, aad: Header, inner: Inner)
  datatype Frame = Frame(hdr: Header, payload: Payload)

  function Unseal(key: Option<SessionKey>, f: Frame): Option<Inner>
  {
    if f.payload.Sealed? && key == Some(f.payload.key) && f.payload.aad == f.hdr then Some(f.payload.inner) else None
  }
}
