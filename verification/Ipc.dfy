/** The byte protocol between the server and its enclave process: request and response
    frames, the enclave's dispatch, and its serving loop (VPN/include/ipc_protocol.h,
    VPN/src/common/ipc_protocol.c, VPN/src/enclave/enclave_main.c,
    VPN/src/server/enclave_client.c). */
module Ipc {
  import opened Bytes
  import opened Crypto
  import K = KeyTable
  import S = Session

  const PING: byte := 0x01
  const ENCRYPT: byte := 0x02
  const DECRYPT: byte := 0x03
  const ADD_KEY: byte := 0x04
  const REMOVE_KEY: byte := 0x05
  const HANDSHAKE: byte := 0x06
  const SHUTDOWN: byte := 0xFF

  const REQUEST_HEADER: nat := 11
  const RESPONSE_HEADER: nat := 7
  const MAX_DATA: nat := S.IPC_MAX_DATA_SIZE

  datatype Request = Request(command: byte, id: nat, vpnIp: nat, data: seq<byte>)

  datatype Response = Response(id: nat, ok: bool, data: seq<byte>)

  function EncodeRequest(r: Request): (b: seq<byte>)
    ensures |b| == REQUEST_HEADER + |r.data|
  {
    [r.command] + ToBe(r.id, 4) + ToBe(r.vpnIp, 4) + ToBe(|r.data|, 2) + r.data
  }

  function EncodeResponse(r: Response): (b: seq<byte>)
    ensures |b| == RESPONSE_HEADER + |r.data|
  {
    ToBe(r.id, 4) + [if r.ok then 0 else 0xFF] + ToBe(|r.data|, 2) + r.data
  }

  /** What the enclave's buffers hold: 4096 bytes of data either way, so a plaintext must
      leave room for nonce and tag. */
  ghost predicate Fits(r: Request) {
    && r.id < 0x1_0000_0000 && r.vpnIp < 0x1_0000_0000
    && |r.data| <= MAX_DATA
    && (r.command == ENCRYPT ==> |r.data| <= MAX_DATA - NONCE_SIZE - MAC_SIZE)
  }

  /** Reading one frame off a stream: the header is peeked, then the announced length is
      taken. A short header takes nothing; a short body takes what is there. */
  datatype Taken<T> = Short(rest: seq<byte>) | Whole(frame: T, rest: seq<byte>)

  function RequestLength(stream: seq<byte>): nat
    requires |stream| >= REQUEST_HEADER
  {
    REQUEST_HEADER + FromBe(stream[9..11])
  }

  function TakeRequest(stream: seq<byte>): Taken<Request> {
    if |stream| < REQUEST_HEADER then Short(stream)
    else
      var n := RequestLength(stream);
      if |stream| < n then Short([])
      else Whole(Request(stream[0], FromBe(stream[1..5]), FromBe(stream[5..9]), stream[11..n]), stream[n..])
  }

  function TakeResponse(stream: seq<byte>): Taken<Response> {
    if |stream| < RESPONSE_HEADER then Short(stream)
    else
      var n := RESPONSE_HEADER + FromBe(stream[5..7]);
      if |stream| < n then Short([])
      else Whole(Response(FromBe(stream[0..4]), stream[4] == 0, stream[7..n]), stream[n..])
  }

  lemma TakeEncodedRequest(r: Request, tail: seq<byte>)
    requires r.id < 0x1_0000_0000 && r.vpnIp < 0x1_0000_0000 && |r.data| < 0x1_0000
    ensures TakeRequest(EncodeRequest(r) + tail) == Whole(r, tail)
  {
    var s := EncodeRequest(r) + tail;
    assert s[1..5] == ToBe(r.id, 4);
    assert s[5..9] == ToBe(r.vpnIp, 4);
    assert s[9..11] == ToBe(|r.data|, 2);
    assert s[11..11 + |r.data|] == r.data;
    assert s[11 + |r.data|..] == tail;
    Be32(r.id);
    Be32(r.vpnIp);
    Be16(|r.data|);
  }

  lemma TakeEncodedResponse(r: Response, tail: seq<byte>)
    requires r.id < 0x1_0000_0000 && |r.data| < 0x1_0000
    ensures TakeResponse(EncodeResponse(r) + tail) == Whole(r, tail)
  {
    var s := EncodeResponse(r) + tail;
    assert s[0..4] == ToBe(r.id, 4);
    assert s[5..7] == ToBe(|r.data|, 2);
    assert s[7..7 + |r.data|] == r.data;
    assert s[7 + |r.data|..] == tail;
    Be32(r.id);
    Be16(|r.data|);
  }

  /** A whole frame is taken exactly when the stream starts with its encoding. */
  lemma TakeRequestIff(stream: seq<byte>, r: Request, rest: seq<byte>)
    ensures TakeRequest(stream) == Whole(r, rest) <==>
              && r.id < 0x1_0000_0000 && r.vpnIp < 0x1_0000_0000 && |r.data| < 0x1_0000
              && stream == EncodeRequest(r) + rest
  {
    if TakeRequest(stream) == Whole(r, rest) {
      var n := 11 + |r.data|;
      assert stream == [stream[0]] + stream[1..5] + stream[5..9] + stream[9..11] + stream[11..n] + stream[n..];
      ToFromBe(stream[1..5]);
      ToFromBe(stream[5..9]);
      ToFromBe(stream[9..11]);
      Widths();
    } else if r.id < 0x1_0000_0000 && r.vpnIp < 0x1_0000_0000 && |r.data| < 0x1_0000 {
      if stream == EncodeRequest(r) + rest {
        TakeEncodedRequest(r, rest);
      }
    }
  }

  /** Otherwise a short header is left on the stream and a short body is lost. */
  lemma TakeRequestShort(stream: seq<byte>)
    ensures TakeRequest(stream).Short? <==>
              |stream| < 11 || |stream| < 11 + 256 * (stream[9] as int) + stream[10] as int
    ensures TakeRequest(stream).Short? ==> TakeRequest(stream).rest == if |stream| < 11 then stream else []
  {
    if |stream| >= 11 {
      FromBe16(stream[9..11]);
    }
  }

  /** A response is whole when its announced bytes are there, and good when its status is 0. */
  lemma TakeResponseIs(stream: seq<byte>)
    ensures TakeResponse(stream).Short? <==>
              |stream| < 7 || |stream| < 7 + 256 * (stream[5] as int) + stream[6] as int
    ensures TakeResponse(stream).Whole? ==>
              var r := TakeResponse(stream).frame;
              && (r.ok <==> stream[4] == 0) && stream[0..4] == ToBe(r.id, 4)
              && stream == stream[..7] + r.data + TakeResponse(stream).rest
  {
    if |stream| >= 7 {
      FromBe16(stream[5..7]);
      ToFromBe(stream[0..4]);
    }
  }

  lemma FromBe16(b: seq<byte>)
    requires |b| == 2
    ensures FromBe(b) == 256 * (b[0] as int) + b[1] as int
  {
    assert b[..1] == [b[0]] && b[..1][..0] == [];
    assert FromBe(b[..1]) == 256 * FromBe(b[..1][..0]) + b[0];
    assert FromBe(b) == 256 * FromBe(b[..1]) + b[1];
  }

  /** The bytes of a request: command, id, address and length in network order, data. */
  lemma RequestBytes(r: Request)
    ensures var b := EncodeRequest(r);
            && b[0] == r.command && b[1..5] == ToBe(r.id, 4) && b[5..9] == ToBe(r.vpnIp, 4)
            && b[9..11] == ToBe(|r.data|, 2) && b[11..] == r.data
  {
  }

  /** The bytes of a response: id, status 0 or -1, length, data. */
  lemma ResponseBytes(r: Response)
    ensures var b := EncodeResponse(r);
            && b[0..4] == ToBe(r.id, 4) && b[4] == (if r.ok then 0 else 255)
            && b[5..7] == ToBe(|r.data|, 2) && b[7..] == r.data
  {
  }

  // ---- Dispatch ----

  function Ok(r: Request, data: seq<byte>): Response {
    Response(r.id, true, data)
  }

  function Err(r: Request): Response {
    Response(r.id, false, [])
  }

  /** The switch of handle_ipc_request. The nonce is the one crypto_random_nonce gives. */
  function Dispatch(c: Suite, k: K.Keys, r: Request, nonce: seq<byte>): (K.Keys, Response) {
    if r.command == PING || r.command == SHUTDOWN then (k, Ok(r, []))
    else if r.command == ADD_KEY then
      if |r.data| != KEY_SIZE || K.Full(k) then (k, Err(r)) else (K.AddKey(k, r.vpnIp, r.data), Ok(r, []))
    else if r.command == REMOVE_KEY then (K.RemoveKey(k, r.vpnIp), Ok(r, []))
    else if r.command == ENCRYPT then
      match K.GetKey(k, r.vpnIp)
      case None => (k, Err(r))
      case Some(key) => (k, Ok(r, nonce + c.seal(key, nonce, r.data)))
    else if r.command == DECRYPT then
      match K.GetKey(k, r.vpnIp)
      case None => (k, Err(r))
      case Some(key) =>
        if |r.data| < NONCE_SIZE + MAC_SIZE then (k, Err(r))
        else match c.open(key, r.data[..NONCE_SIZE], r.data[NONCE_SIZE..])
          case None => (k, Err(r))
          case Some(plain) => (k, Ok(r, plain))
    else if r.command == HANDSHAKE then
      if |r.data| != KEY_SIZE then (k, Err(r))
      else
        var (k', key) := K.Handshake(c, k, r.vpnIp, r.data);
        (k', if key.None? then Err(r) else Ok(r, k.pub + key.value))
    else (k, Err(r))
  }

  /** Every response echoes the request's id and fits the response buffer. */
  lemma DispatchFits(c: Suite, k: K.Keys, r: Request, nonce: seq<byte>)
    requires Lawful(c) && Fits(r) && |nonce| == NONCE_SIZE && |k.pub| == KEY_SIZE
    ensures var (k', resp) := Dispatch(c, k, r, nonce);
            resp.id == r.id && |resp.data| <= MAX_DATA && k'.pub == k.pub
  {
  }

  /** Which commands succeed, by their codes: PING, REMOVE_KEY and SHUTDOWN always; ADD_KEY with
      32 bytes and room; ENCRYPT with a key on file; DECRYPT with one under which the data
      opens; HANDSHAKE with 32 bytes that Diffie-Hellman accepts. No other code does. */
  ghost predicate Succeeds(c: Suite, k: K.Keys, r: Request) {
    || r.command == 1 || r.command == 5 || r.command == 255
    || (r.command == 4 && |r.data| == 32 && exists i :: 0 <= i < |k.slots| && !k.slots[i].active)
    || (r.command == 2 && K.GetKey(k, r.vpnIp).Some?)
    || (r.command == 3 && K.GetKey(k, r.vpnIp).Some? && |r.data| >= 28
        && c.open(K.GetKey(k, r.vpnIp).value, r.data[..12], r.data[12..]).Some?)
    || (r.command == 6 && |r.data| == 32 && c.ecdh(k.priv, r.data).Some?)
  }

  /** What a successful command returns: the nonce and the sealed data, the opened data, the
      server's public key and the derived session key, or nothing. */
  ghost function Returned(c: Suite, k: K.Keys, r: Request, nonce: seq<byte>): seq<byte>
    requires Succeeds(c, k, r)
  {
    if r.command == 2 then nonce + c.seal(K.GetKey(k, r.vpnIp).value, nonce, r.data)
    else if r.command == 3 then c.open(K.GetKey(k, r.vpnIp).value, r.data[..12], r.data[12..]).value
    else if r.command == 6 then k.pub + c.kdf(c.ecdh(k.priv, r.data).value)
    else []
  }

  /** The enclave answers exactly so; it stores the key given, or derived, where there is room,
      removes the one named, and otherwise leaves its table alone. */
  lemma DispatchOutcome(c: Suite, k: K.Keys, r: Request, nonce: seq<byte>)
    ensures var (k', resp) := Dispatch(c, k, r, nonce);
            && resp.id == r.id && (resp.ok <==> Succeeds(c, k, r))
            && resp.data == (if Succeeds(c, k, r) then Returned(c, k, r, nonce) else [])
            && k' == (if r.command == 5 then K.RemoveKey(k, r.vpnIp)
                      else if !Succeeds(c, k, r) then k
                      else if r.command == 4 then K.AddKey(k, r.vpnIp, r.data)
                      else if r.command == 6 then K.AddKey(k, r.vpnIp, c.kdf(c.ecdh(k.priv, r.data).value))
                      else k)
  {
    var free := K.FreeSlot(k.slots);
    assert free < |k.slots| ==> !k.slots[free].active;
  }

  lemma HandshakeDispatch(c: Suite, k: K.Keys, r: Request, nonce: seq<byte>)
    requires r.command == HANDSHAKE && |r.data| == KEY_SIZE
    ensures var (k', key) := K.Handshake(c, k, r.vpnIp, r.data);
            Dispatch(c, k, r, nonce) == (k', Response(r.id, key.Some?, if key.None? then [] else k.pub + key.value))
  {
  }

  // ---- The serving loop ----

  datatype Enclave = Enclave(keys: K.Keys, running: bool)

  /** One pass of handle_ipc_request over the bytes waiting on the socket. */
  function Handle(c: Suite, e: Enclave, stream: seq<byte>, nonce: seq<byte>): (Enclave, seq<byte>, seq<byte>) {
    match TakeRequest(stream)
    case Short(rest) => (e, rest, [])
    case Whole(r, rest) =>
      var (k, resp) := Dispatch(c, e.keys, r, nonce);
      (Enclave(k, e.running && r.command != SHUTDOWN), rest, EncodeResponse(resp))
  }

  /** The inner loop of main: serve while running and a whole request is waiting. Returns
      the enclave, the bytes left and the bytes sent back. */
  function Serve(c: Suite, e: Enclave, stream: seq<byte>, nonceAt: nat -> seq<byte>, i: nat)
    : (Enclave, seq<byte>, seq<byte>)
    decreases |stream|
  {
    if !e.running || TakeRequest(stream).Short? then (e, stream, [])
    else
      var (e1, rest, reply) := Handle(c, e, stream, nonceAt(i));
      var (e2, left, replies) := Serve(c, e1, rest, nonceAt, i + 1);
      (e2, left, reply + replies)
  }

  /** The reference: the requests themselves, dispatched in order up to the first SHUTDOWN. */
  function Perform(c: Suite, e: Enclave, reqs: seq<Request>, nonceAt: nat -> seq<byte>, i: nat)
    : (Enclave, seq<Response>)
    decreases |reqs|
  {
    if !e.running || reqs == [] then (e, [])
    else
      var (k, resp) := Dispatch(c, e.keys, reqs[0], nonceAt(i));
      var (e', resps) := Perform(c, Enclave(k, reqs[0].command != SHUTDOWN), reqs[1..], nonceAt, i + 1);
      (e', [resp] + resps)
  }

  function Wire(reqs: seq<Request>): seq<byte> {
    if reqs == [] then [] else EncodeRequest(reqs[0]) + Wire(reqs[1..])
  }

  function ReplyWire(resps: seq<Response>): seq<byte> {
    if resps == [] then [] else EncodeResponse(resps[0]) + ReplyWire(resps[1..])
  }

  /** Reading every whole response off a stream. */
  function Responses(stream: seq<byte>): seq<Response>
    decreases |stream|
  {
    match TakeResponse(stream)
    case Short(_) => []
    case Whole(r, rest) => [r] + Responses(rest)
  }

  /** What the loop sends back is the responses of the reference, encoded in order, and
      what it leaves on the stream is the requests the reference did not reach. */
  lemma {:induction false} ServeIsPerform(c: Suite, e: Enclave, reqs: seq<Request>, nonceAt: nat -> seq<byte>, i: nat)
    requires forall j :: 0 <= j < |reqs| ==> Fits(reqs[j])
    ensures var (e', resps) := Perform(c, e, reqs, nonceAt, i);
            && |resps| <= |reqs|
            && Serve(c, e, Wire(reqs), nonceAt, i) == (e', Wire(reqs[|resps|..]), ReplyWire(resps))
    decreases |reqs|
  {
    if e.running && reqs != [] {
      var (k, resp) := Dispatch(c, e.keys, reqs[0], nonceAt(i));
      var e1 := Enclave(k, reqs[0].command != SHUTDOWN);
      TakeEncodedRequest(reqs[0], Wire(reqs[1..]));
      ServeIsPerform(c, e1, reqs[1..], nonceAt, i + 1);
      var resps := Perform(c, e1, reqs[1..], nonceAt, i + 1).1;
      assert reqs[1..][|resps|..] == reqs[|resps| + 1..];
      assert ([resp] + resps)[1..] == resps;
    }
  }

  /** A running enclave serves n requests of the list: all of them, or through the first
      SHUTDOWN. */
  ghost predicate Reaches(running: bool, reqs: seq<Request>, n: nat) {
    && n <= |reqs|
    && (forall j :: 0 <= j < n - 1 ==> reqs[j].command != 255)
    && (n < |reqs| ==> !running || (n > 0 && reqs[n - 1].command == 255))
    && (!running ==> n == 0)
  }

  /** The reference answers each request it reaches, with its id and within bounds, and
      stops early only at a SHUTDOWN, which it answers. */
  lemma {:induction false} PerformAnswers(c: Suite, e: Enclave, reqs: seq<Request>, nonceAt: nat -> seq<byte>, i: nat)
    requires Lawful(c) && |e.keys.pub| == KEY_SIZE
    requires forall j :: |nonceAt(j)| == NONCE_SIZE
    requires forall j :: 0 <= j < |reqs| ==> Fits(reqs[j])
    ensures var (e', resps) := Perform(c, e, reqs, nonceAt, i);
            && Reaches(e.running, reqs, |resps|)
            && e'.running == (e.running && forall j :: 0 <= j < |resps| ==> reqs[j].command != 255)
            && forall j :: 0 <= j < |resps| ==> resps[j].id == reqs[j].id && |resps[j].data| <= MAX_DATA
    decreases |reqs|
  {
    if e.running && reqs != [] {
      DispatchFits(c, e.keys, reqs[0], nonceAt(i));
      var k := Dispatch(c, e.keys, reqs[0], nonceAt(i)).0;
      PerformAnswers(c, Enclave(k, reqs[0].command != SHUTDOWN), reqs[1..], nonceAt, i + 1);
    }
  }

  lemma {:induction false} ResponsesParse(resps: seq<Response>)
    requires forall j :: 0 <= j < |resps| ==> resps[j].id < 0x1_0000_0000 && |resps[j].data| <= MAX_DATA
    ensures Responses(ReplyWire(resps)) == resps
  {
    if resps != [] {
      TakeEncodedResponse(resps[0], ReplyWire(resps[1..]));
      ResponsesParse(resps[1..]);
    }
  }

  /** Stream framing. However many requests arrive back to back, the loop recovers exactly
      them, in order: the key table ends as if each had been dispatched directly, what is
      not served (after a SHUTDOWN) is left untouched, and the bytes sent back parse into
      one response per served request, carrying its id. */
  lemma Framing(c: Suite, e: Enclave, reqs: seq<Request>, nonceAt: nat -> seq<byte>, i: nat)
    requires Lawful(c) && |e.keys.pub| == KEY_SIZE
    requires forall j :: |nonceAt(j)| == NONCE_SIZE
    requires forall j :: 0 <= j < |reqs| ==> Fits(reqs[j])
    ensures var (e', left, replies) := Serve(c, e, Wire(reqs), nonceAt, i);
            var (e'', resps) := Perform(c, e, reqs, nonceAt, i);
            && e' == e''
            && Reaches(e.running, reqs, |resps|)
            && left == Wire(reqs[|resps|..])
            && Responses(replies) == resps
            && forall j :: 0 <= j < |resps| ==> resps[j].id == reqs[j].id
  {
    ServeIsPerform(c, e, reqs, nonceAt, i);
    PerformAnswers(c, e, reqs, nonceAt, i);
    ResponsesParse(Perform(c, e, reqs, nonceAt, i).1);
  }

  // ---- One call from the server ----

  /** send_ipc_request over a reliable socket: the encoded request is served, and the reply
      is accepted if it is whole, fits the caller's buffer and reports success. */
  function Call(c: Suite, k: K.Keys, r: Request, nonce: seq<byte>, room: nat): (K.Keys, Option<seq<byte>>) {
    var (e, _, reply) := Handle(c, Enclave(k, true), EncodeRequest(r), nonce);
    (e.keys,
     match TakeResponse(reply)
     case Short(_) => None
     case Whole(resp, _) => if |resp.data| > room || !resp.ok then None else Some(resp.data))
  }

  /** Through the bytes, a call is the dispatched command. */
  lemma CallIsDispatch(c: Suite, k: K.Keys, r: Request, nonce: seq<byte>, room: nat)
    requires Lawful(c) && Fits(r) && |nonce| == NONCE_SIZE && |k.pub| == KEY_SIZE
    ensures var (k', resp) := Dispatch(c, k, r, nonce);
            Call(c, k, r, nonce, room)
            == (k', if resp.ok && |resp.data| <= room then Some(resp.data) else None)
  {
    TakeEncodedRequest(r, []);
    assert EncodeRequest(r) + [] == EncodeRequest(r);
    DispatchFits(c, k, r, nonce);
    var resp := Dispatch(c, k, r, nonce).1;
    TakeEncodedResponse(resp, []);
    assert EncodeResponse(resp) + [] == EncodeResponse(resp);
  }

  function Outcome(r: S.Sealed): Option<seq<byte>> {
    if r.Done? then Some(r.bytes) else None
  }

  /** enclave_encrypt: for every plaintext that leaves room for nonce and tag, the bytes
      exchanged amount to sealing under the key on file. */
  lemma EncryptCall(c: Suite, k: K.Keys, id: nat, ip: nat, plain: seq<byte>, nonce: seq<byte>)
    requires Lawful(c) && Fits(Request(ENCRYPT, id, ip, plain)) && |nonce| == NONCE_SIZE && |k.pub| == KEY_SIZE
    ensures Call(c, k, Request(ENCRYPT, id, ip, plain), nonce, MAX_DATA)
            == (k, match K.GetKey(k, ip) case None => None case Some(key) => Some(nonce + c.seal(key, nonce, plain)))
    ensures Call(c, k, Request(ENCRYPT, id, ip, plain), nonce, MAX_DATA).1 == Outcome(S.Encrypt(c, k, ip, plain, nonce))
  {
    CallIsDispatch(c, k, Request(ENCRYPT, id, ip, plain), nonce, MAX_DATA);
  }

  /** enclave_decrypt: what opens under the key on file, and nothing when the tag is wrong. */
  lemma DecryptCall(c: Suite, k: K.Keys, id: nat, ip: nat, body: seq<byte>, nonce: seq<byte>)
    requires Lawful(c) && Fits(Request(DECRYPT, id, ip, body)) && |nonce| == NONCE_SIZE && |k.pub| == KEY_SIZE
    ensures Call(c, k, Request(DECRYPT, id, ip, body), nonce, MAX_DATA)
            == (k, match K.GetKey(k, ip)
                   case None => None
                   case Some(key) => if |body| < 28 then None else c.open(key, body[..12], body[12..]))
    ensures Call(c, k, Request(DECRYPT, id, ip, body), nonce, MAX_DATA).1 == Outcome(S.Decrypt(c, k, ip, body))
  {
    CallIsDispatch(c, k, Request(DECRYPT, id, ip, body), nonce, MAX_DATA);
  }

  lemma HandshakeCall(c: Suite, k: K.Keys, id: nat, ip: nat, pub: seq<byte>, nonce: seq<byte>)
    requires Lawful(c) && Fits(Request(HANDSHAKE, id, ip, pub)) && |nonce| == NONCE_SIZE
    requires |k.pub| == KEY_SIZE && |pub| == KEY_SIZE
    ensures Call(c, k, Request(HANDSHAKE, id, ip, pub), nonce, 2 * KEY_SIZE)
            == match c.ecdh(k.priv, pub)
               case None => (k, None)
               case Some(secret) => (K.AddKey(k, ip, c.kdf(secret)), Some(k.pub + c.kdf(secret)))
  {
    CallIsDispatch(c, k, Request(HANDSHAKE, id, ip, pub), nonce, 2 * KEY_SIZE);
  }

  lemma RemoveKeyCall(c: Suite, k: K.Keys, id: nat, ip: nat, nonce: seq<byte>)
    requires Lawful(c) && Fits(Request(REMOVE_KEY, id, ip, [])) && |nonce| == NONCE_SIZE && |k.pub| == KEY_SIZE
    ensures Call(c, k, Request(REMOVE_KEY, id, ip, []), nonce, 0) == (K.RemoveKey(k, ip), Some([]))
  {
    CallIsDispatch(c, k, Request(REMOVE_KEY, id, ip, []), nonce, 0);
  }

  /** enclave_add_key: refused exactly when the key has another size or the table is full. */
  lemma AddKeyCall(c: Suite, k: K.Keys, id: nat, ip: nat, key: seq<byte>, nonce: seq<byte>)
    requires Lawful(c) && Fits(Request(ADD_KEY, id, ip, key)) && |nonce| == NONCE_SIZE && |k.pub| == KEY_SIZE
    ensures Call(c, k, Request(ADD_KEY, id, ip, key), nonce, 0)
            == if |key| != KEY_SIZE || K.Full(k) then (k, None) else (K.AddKey(k, ip, key), Some([]))
  {
    CallIsDispatch(c, k, Request(ADD_KEY, id, ip, key), nonce, 0);
  }
}
