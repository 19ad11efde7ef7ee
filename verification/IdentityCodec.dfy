/** The identity message: laid out by the client (src/UDP.cpp) and taken apart by
    the server (server/UDP/UDP.cpp). The two are inverse to each other. */
module IdentityCodec {
  import opened Text
  import opened Frames

  const NONCE: nat := 16
  const PUB: nat := 32
  const SIG: nat := 64
  const FIXED: nat := 129
  const MAX_DATA: nat := 1400
  const SEAL_OVERHEAD: nat := 29

  datatype Identity = Identity(nonceC: seq<byte>, nonceS: seq<byte>, dhCli: seq<byte>, dhSrv: seq<byte>,
                               cliPub: seq<byte>, clientId: seq<byte>)

  predicate Sized(id: Identity)
  {
    && |id.nonceC| == NONCE && |id.nonceS| == NONCE
    && |id.dhCli| == PUB && |id.dhSrv| == PUB && |id.cliPub| == PUB && |id.clientId| <= 255
  }

  /** What the client signs. */
  function Payload(id: Identity): (p: seq<byte>)
    requires Sized(id)
    ensures |p| == FIXED + |id.clientId|
  {
    id.nonceC + id.nonceS + id.dhCli + id.dhSrv + id.cliPub + [|id.clientId|] + id.clientId
  }

  function Body(flags: byte, token: seq<byte>, id: Identity, sig: seq<byte>): seq<byte>
    requires |token| <= 255 && Sized(id)
  {
    [flags, |token|] + token + Payload(id) + sig
  }

  /** The client's message. It signs exactly the payload it sends. */
  method BuildIdentityMessage(id: Identity, token: seq<byte>, Sign: seq<byte> -> Option<seq<byte>>)
    returns (out: Option<seq<byte>>)
    ensures out.Some? <==>
              Sized(id) && |token| <= 255 && Sign(Payload(id)).Some? && |Sign(Payload(id)).value| == SIG
    ensures out.Some? ==> out.value == Body(if token == [] then 0 else 1, token, id, Sign(Payload(id)).value)
  {
    if |id.nonceC| != NONCE || |id.nonceS| != NONCE || |id.dhCli| != PUB || |id.dhSrv| != PUB {
      return None;
    }
    if |id.clientId| > 255 {
      return None;
    }
    if |id.cliPub| != PUB {
      return None;
    }
    var payload: seq<byte> := [];
    payload := payload + id.nonceC;
    payload := payload + id.nonceS;
    payload := payload + id.dhCli;
    payload := payload + id.dhSrv;
    payload := payload + id.cliPub;
    payload := payload + [|id.clientId|];
    payload := payload + id.clientId;
    assert payload == Payload(id);
    var sig := Sign(payload);
    if sig.None? || |sig.value| != SIG {
      return None;
    }
    var message: seq<byte> := [];
    var flags: byte := if token == [] then 0 else 1;
    message := message + [flags];
    if |token| > 255 {
      return None;
    }
    message := message + [|token|];
    if token != [] {
      message := message + token;
    }
    message := message + payload;
    message := message + sig.value;
    return Some(message);
  }

  datatype Parsed = Parsed(flags: byte, token: seq<byte>, id: Identity, signed: seq<byte>, sig: seq<byte>) | Malformed

  /** The server's reading. It accepts exactly the bodies some client could have laid
      out, recovers every field, and verifies exactly the bytes that were signed. */
  method ParseIdentityMessage(inner: seq<byte>) returns (r: Parsed)
    ensures r.Parsed? ==>
              && |r.token| <= 255 && Sized(r.id) && |r.sig| == SIG
              && r.signed == Payload(r.id)
              && inner == Body(r.flags, r.token, r.id, r.sig)
    ensures r.Malformed? ==> !IsBody(inner)
  {
    if |inner| < 2 + FIXED + SIG {
      ShortIsNoBody(inner);
      return Malformed;
    }
    var flags := inner[0];
    var tokenLen := inner[1];
    if |inner| < 2 + tokenLen + FIXED + SIG {
      ShortIsNoBody(inner);
      return Malformed;
    }
    var pos := 2;
    var token := inner[pos..pos + tokenLen];
    pos := pos + tokenLen;
    var payload := inner[pos..|inner| - SIG];
    var sig := inner[|inner| - SIG..];
    var at := 0;
    var nonceC := payload[at..at + NONCE];
    at := at + NONCE;
    var nonceS := payload[at..at + NONCE];
    at := at + NONCE;
    var dhCli := payload[at..at + PUB];
    at := at + PUB;
    var dhSrv := payload[at..at + PUB];
    at := at + PUB;
    var cliPub := payload[at..at + PUB];
    at := at + PUB;
    var idLen := payload[at];
    at := at + 1;
    if |payload| != FIXED + idLen {
      WrongLengthIsNoBody(inner, payload);
      return Malformed;
    }
    assert |payload[at..]| == idLen;
    var id := Identity(nonceC, nonceS, dhCli, dhSrv, cliPub, payload[at..]);
    assert payload == Payload(id);
    assert inner == [flags, tokenLen] + token + payload + sig;
    return Parsed(flags, token, id, payload, sig);
  }

  /** Some client could have laid this out. */
  ghost predicate IsBody(inner: seq<byte>)
  {
    exists flags: byte, token: seq<byte>, id, sig: seq<byte> ::
      |token| <= 255 && Sized(id) && |sig| == SIG && inner == Body(flags, token, id, sig)
  }

  lemma ShortIsNoBody(inner: seq<byte>)
    requires |inner| < 2 + FIXED + SIG || |inner| < 2 + inner[1] + FIXED + SIG
    ensures !IsBody(inner)
  {
  }

  lemma WrongLengthIsNoBody(inner: seq<byte>, payload: seq<byte>)
    requires |inner| >= 2 + FIXED + SIG && |inner| >= 2 + inner[1] + FIXED + SIG
    requires payload == inner[2 + inner[1]..|inner| - SIG] && |payload| != FIXED + payload[FIXED - 1]
    ensures !IsBody(inner)
  {
    if IsBody(inner) {
      var flags: byte, token: seq<byte>, id, sig: seq<byte> :|
        |token| <= 255 && Sized(id) && |sig| == SIG && inner == Body(flags, token, id, sig);
      BodyLength(flags, token, id, sig);
    }
  }

  /** The id length byte accounts for the whole payload. */
  lemma BodyLength(flags: byte, token: seq<byte>, id: Identity, sig: seq<byte>)
    requires |token| <= 255 && Sized(id) && |sig| == SIG
    ensures var b := Body(flags, token, id, sig);
            && |b| >= 2 + b[1] + FIXED + SIG
            && var p := b[2 + b[1]..|b| - SIG];
            |p| == FIXED + p[FIXED - 1]
  {
    BodyParts(flags, token, id, sig);
    PayloadParts(id);
  }

  lemma BodyParts(flags: byte, token: seq<byte>, id: Identity, sig: seq<byte>)
    requires |token| <= 255 && Sized(id) && |sig| == SIG
    ensures var b := Body(flags, token, id, sig);
            && b[0] == flags && b[1] == |token| && b[2..2 + |token|] == token
            && b[2 + |token|..|b| - SIG] == Payload(id) && b[|b| - SIG..] == sig
  {
  }

  /** One body, one reading: nothing else the server could recover. */
  lemma BodyIsInjective(flags: byte, token: seq<byte>, id: Identity, sig: seq<byte>,
                        flags': byte, token': seq<byte>, id': Identity, sig': seq<byte>)
    requires |token| <= 255 && Sized(id) && |sig| == SIG
    requires |token'| <= 255 && Sized(id') && |sig'| == SIG
    requires Body(flags, token, id, sig) == Body(flags', token', id', sig')
    ensures flags == flags' && token == token' && id == id' && sig == sig'
  {
    BodyParts(flags, token, id, sig);
    BodyParts(flags', token', id', sig');
    PayloadParts(id);
    PayloadParts(id');
  }

  lemma PayloadParts(id: Identity)
    requires Sized(id)
    ensures var p := Payload(id);
            && p[..16] == id.nonceC && p[16..32] == id.nonceS && p[32..64] == id.dhCli && p[64..96] == id.dhSrv
            && p[96..128] == id.cliPub && p[128] == |id.clientId| && p[129..] == id.clientId
  {
  }

  /** The round trip, through both programs. */
  method RoundTrip(id: Identity, token: seq<byte>, Sign: seq<byte> -> Option<seq<byte>>)
    returns (out: Option<seq<byte>>, r: Parsed)
    ensures out.Some? ==>
              Sized(id) && Sign(Payload(id)).Some?
              && r == Parsed(if token == [] then 0 else 1, token, id, Payload(id), Sign(Payload(id)).value)
  {
    r := Malformed;
    out := BuildIdentityMessage(id, token, Sign);
    if out.Some? {
      r := ParseIdentityMessage(out.value);
      BodyIsInjective(r.flags, r.token, r.id, r.sig, if token == [] then 0 else 1, token, id, Sign(Payload(id)).value);
    }
  }

  /** Sealed, every such message fits one frame of either transport. */
  lemma FitsOneFrame(flags: byte, token: seq<byte>, id: Identity, sig: seq<byte>)
    requires |token| <= 255 && Sized(id) && |sig| == SIG
    ensures |Body(flags, token, id, sig)| <= MAX_DATA
    ensures |Body(flags, token, id, sig)| + SEAL_OVERHEAD <= MAX_PAYLOAD
    ensures HEADER + |Body(flags, token, id, sig)| + SEAL_OVERHEAD <= MAX_FRAME
  {
  }
}
