/** The enclave process: handle_ipc_request over its two fixed buffers and the key manager
    (VPN/src/enclave/enclave_main.c). */
module EnclaveProcess {
  import opened Bytes
  import opened Crypto
  import opened Ipc
  import K = KeyTable
  import KeyManager

  /** Every request on the stream, taken in turn, fits the enclave's buffers. */
  ghost predicate AllFit(stream: seq<byte>)
    decreases |stream|
  {
    && (|stream| >= REQUEST_HEADER ==> RequestLength(stream) <= REQUEST_HEADER + MAX_DATA)
    && match TakeRequest(stream)
       case Short(_) => true
       case Whole(r, rest) => Fits(r) && AllFit(rest)
  }

  /** Back-to-back encodings of requests that fit are such a stream. */
  lemma {:induction false} WireFits(reqs: seq<Request>)
    requires forall j :: 0 <= j < |reqs| ==> Fits(reqs[j])
    ensures AllFit(Ipc.Wire(reqs))
  {
    if reqs != [] {
      var stream := Ipc.Wire(reqs);
      TakeEncodedRequest(reqs[0], Ipc.Wire(reqs[1..]));
      assert stream[9..11] == ToBe(|reqs[0].data|, 2);
      Be16(|reqs[0].data|);
      WireFits(reqs[1..]);
    }
  }

  /** all is what is left to serve, with the replies sent so far in front. */
  ghost predicate Extends(all: (Enclave, seq<byte>, seq<byte>), replies: seq<byte>,
      rest: (Enclave, seq<byte>, seq<byte>))
  {
    all == (rest.0, rest.1, replies + rest.2)
  }

  /** Handling one request moves its reply in front. */
  lemma ServeStep(c: Suite, e: Enclave, stream: seq<byte>, nonceAt: nat -> seq<byte>, i: nat,
      all: (Enclave, seq<byte>, seq<byte>), replies: seq<byte>)
    requires e.running && TakeRequest(stream).Whole?
    requires Extends(all, replies, Serve(c, e, stream, nonceAt, i))
    ensures var (e', rest, reply) := Handle(c, e, stream, nonceAt(i));
            Extends(all, replies + reply, Serve(c, e', rest, nonceAt, i + 1))
  {
    var (e', rest, reply) := Handle(c, e, stream, nonceAt(i));
    var next := Serve(c, e', rest, nonceAt, i + 1);
    assert replies + (reply + next.2) == (replies + reply) + next.2;
  }

  /** memcpy(dst + at, src, |src|). */
  method Copy(dst: array<byte>, at: nat, src: seq<byte>)
    requires at + |src| <= dst.Length
    modifies dst
    ensures dst[at..at + |src|] == src
    ensures dst[..at] == old(dst[..at])
    ensures dst[at + |src|..] == old(dst[at + |src|..])
  {
    for i := 0 to |src|
      invariant dst[at..at + i] == src[..i]
      invariant dst[..at] == old(dst[..at])
      invariant dst[at + i..] == old(dst[at + i..])
    {
      assert old(dst[at + i..])[1..] == old(dst[at + i + 1..]);
      dst[at + i] := src[i];
      assert dst[at..at + i + 1] == dst[at..at + i] + [src[i]];
      assert src[..i + 1] == src[..i] + [src[i]];
    }
    assert src[..|src|] == src;
  }

  /** The buffer starts with the response r. */
  ghost predicate Holds(b: seq<byte>, r: Response) {
    && RESPONSE_HEADER + |r.data| <= |b|
    && b[0..4] == ToBe(r.id, 4)
    && b[4] == (if r.ok then 0 else 0xFF)
    && b[5..7] == ToBe(|r.data|, 2)
    && b[7..7 + |r.data|] == r.data
  }

  lemma HeldResponse(b: seq<byte>, r: Response)
    requires Holds(b, r) && |r.data| < 0x1_0000
    ensures RESPONSE_HEADER + FromBe(b[5..7]) <= |b|
    ensures b[..RESPONSE_HEADER + FromBe(b[5..7])] == EncodeResponse(r)
  {
    Be16(|r.data|);
    var n := RESPONSE_HEADER + |r.data|;
    assert b[..n] == b[0..4] + [b[4]] + b[5..7] + b[7..n];
  }

  /** Status, then data, then its length: how every branch fills the response. */
  method Fill(response: array<byte>, ghost id: nat, ok: bool, data: seq<byte>)
    requires response.Length == RESPONSE_HEADER + MAX_DATA && |data| <= MAX_DATA
    requires response[0..4] == ToBe(id, 4)
    modifies response
    ensures Holds(response[..], Response(id, ok, data))
  {
    Copy(response, RESPONSE_HEADER, data);
    assert response[0..4] == response[..7][0..4];
    response[4] := if ok then 0 else 0xFF;
    assert response[7..7 + |data|] == data;
    Copy(response, 5, ToBe(|data|, 2));
    assert response[..5][0..4] == response[0..4];
    assert response[7..][..|data|] == response[7..7 + |data|];
    assert response[..][0..4] == response[0..4];
    assert response[..][5..7] == response[5..7];
    assert response[..][7..7 + |data|] == response[7..7 + |data|];
  }

  /** The whole request, read into its buffer. */
  method ReadRequest(stream: seq<byte>, request: array<byte>, total: nat) returns (r: Request)
    requires REQUEST_HEADER <= |stream| && total == RequestLength(stream) <= |stream|
    requires total <= request.Length == REQUEST_HEADER + MAX_DATA
    modifies request
    ensures TakeRequest(stream) == Whole(r, stream[total..]) && request[1..5] == ToBe(r.id, 4)
  {
    Copy(request, 0, stream[..total]);
    ghost var whole := request[0..total];
    assert whole == request[0..0 + total] == stream[..total];
    assert request[1..5] == whole[1..5] == stream[1..5];
    assert request[5..9] == whole[5..9] == stream[5..9];
    assert request[11..total] == whole[11..] == stream[11..total];
    assert request[0] == whole[0] == stream[0];
    r := Request(request[0], FromBe(request[1..5]), FromBe(request[5..9]), request[11..total]);
    ToFromBe(request[1..5]);
  }

  class Process {
    const km: KeyManager.Manager
    var running: bool

    ghost function View(): Enclave
      reads this, km, km.keys
    {
      Enclave(km.View(), running)
    }

    ghost predicate Valid()
      reads this, km, km.keys
    {
      km.Valid()
    }

    constructor (c: Suite, priv: seq<byte>)
      requires Lawful(c)
      ensures Valid() && running && km.View() == K.Init(priv, c.publicOf(priv)) && fresh(km) && fresh(km.keys)
    {
      km := new KeyManager.Manager(c, priv);
      running := true;
    }

    method Encrypt(c: Suite, response: array<byte>, r: Request, nonce: seq<byte>)
      requires Valid() && Lawful(c) && Fits(r) && r.command == ENCRYPT && |nonce| == NONCE_SIZE
      requires response.Length == RESPONSE_HEADER + MAX_DATA && response[0..4] == ToBe(r.id, 4)
      modifies response
      ensures Holds(response[..], Dispatch(c, km.View(), r, nonce).1)
    {
      var key := km.GetKey(r.vpnIp);
      if key.None? {
        Fill(response, r.id, false, []);
      } else {
        Fill(response, r.id, true, nonce + c.seal(key.value, nonce, r.data));
      }
    }

    method Decrypt(c: Suite, response: array<byte>, r: Request, nonce: seq<byte>)
      requires Valid() && Lawful(c) && Fits(r) && r.command == DECRYPT
      requires response.Length == RESPONSE_HEADER + MAX_DATA && response[0..4] == ToBe(r.id, 4)
      modifies response
      ensures Holds(response[..], Dispatch(c, km.View(), r, nonce).1)
    {
      var key := km.GetKey(r.vpnIp);
      if key.None? || |r.data| < NONCE_SIZE + MAC_SIZE {
        Fill(response, r.id, false, []);
        return;
      }
      var plain := c.open(key.value, r.data[..NONCE_SIZE], r.data[NONCE_SIZE..]);
      if plain.None? {
        Fill(response, r.id, false, []);
      } else {
        Fill(response, r.id, true, plain.value);
      }
    }

    method Handshake(c: Suite, response: array<byte>, r: Request, ghost nonce: seq<byte>)
      requires Valid() && Lawful(c) && Fits(r) && r.command == HANDSHAKE
      requires response.Length == RESPONSE_HEADER + MAX_DATA && response[0..4] == ToBe(r.id, 4)
      modifies response, km`count, km.keys
      ensures Valid() && km.View() == Dispatch(c, old(km.View()), r, nonce).0
      ensures Holds(response[..], Dispatch(c, old(km.View()), r, nonce).1)
    {
      if |r.data| != KEY_SIZE {
        Fill(response, r.id, false, []);
        return;
      }
      HandshakeDispatch(c, km.View(), r, nonce);
      Derive(c, response, r);
    }

    /** The handshake proper: the answer is the enclave's public key and the session key. */
    method Derive(c: Suite, response: array<byte>, r: Request)
      requires Valid() && Lawful(c) && |r.data| == KEY_SIZE
      requires response.Length == RESPONSE_HEADER + MAX_DATA && response[0..4] == ToBe(r.id, 4)
      modifies response, km`count, km.keys
      ensures Valid()
      ensures var (k, key) := K.Handshake(c, old(km.View()), r.vpnIp, r.data);
              && km.View() == k
              && Holds(response[..], Response(r.id, key.Some?, if key.None? then [] else km.pub + key.value))
    {
      var key := km.PerformHandshake(c, r.vpnIp, r.data);
      assert response[0..4] == ToBe(r.id, 4);
      var answer := if key.None? then [] else km.pub + key.value;
      Fill(response, r.id, key.Some?, answer);
    }

    method AddKey(response: array<byte>, r: Request, ghost c: Suite, ghost nonce: seq<byte>)
      requires Valid() && r.command == ADD_KEY
      requires response.Length == RESPONSE_HEADER + MAX_DATA && response[0..4] == ToBe(r.id, 4)
      modifies response, km`count, km.keys
      ensures Valid() && km.View() == Dispatch(c, old(km.View()), r, nonce).0
      ensures Holds(response[..], Dispatch(c, old(km.View()), r, nonce).1)
    {
      if |r.data| != KEY_SIZE {
        Fill(response, r.id, false, []);
        return;
      }
      var ok := km.AddKey(r.vpnIp, r.data);
      Fill(response, r.id, ok, []);
    }

    /** handle_ipc_request over the bytes waiting on the socket. The buffers demand that the
        announced length fits them. */
    method HandleIpcRequest(c: Suite, stream: seq<byte>, nonce: seq<byte>) returns (rest: seq<byte>, reply: seq<byte>)
      requires Valid() && Lawful(c) && |nonce| == NONCE_SIZE
      requires |stream| >= REQUEST_HEADER ==> RequestLength(stream) <= REQUEST_HEADER + MAX_DATA
      requires TakeRequest(stream).Whole? ==> Fits(TakeRequest(stream).frame)
      modifies this`running, km`count, km.keys
      ensures Valid() && (View(), rest, reply) == Handle(c, old(View()), stream, nonce)
    {
      var request := new byte[REQUEST_HEADER + MAX_DATA](_ => 0);
      var response := new byte[RESPONSE_HEADER + MAX_DATA](_ => 0);
      if |stream| < REQUEST_HEADER {
        return stream, [];
      }
      Copy(request, 0, stream[..REQUEST_HEADER]);
      assert request[9..11] == request[0..11][9..11] == stream[9..11];
      var total := REQUEST_HEADER + FromBe(request[9..11]);
      if |stream| < total {
        return [], [];
      }
      var r := ReadRequest(stream, request, total);
      rest := stream[total..];
      Copy(response, 0, request[1..5]);
      assert response[0..4] == response[0..0 + 4];
      ghost var resp := Dispatch(c, km.View(), r, nonce).1;
      DispatchFits(c, km.View(), r, nonce);
      Execute(c, response, r, nonce);
      HeldResponse(response[..], resp);
      reply := response[..RESPONSE_HEADER + FromBe(response[..][5..7])];
    }

    /** The inner loop of main, over everything the server has sent: serve while running and
        a whole request is waiting. */
    method ServeAll(c: Suite, stream: seq<byte>, nonceAt: nat -> seq<byte>)
      returns (left: seq<byte>, replies: seq<byte>)
      requires Valid() && Lawful(c) && forall j :: |nonceAt(j)| == NONCE_SIZE
      requires AllFit(stream)
      modifies this`running, km`count, km.keys
      ensures Valid() && (View(), left, replies) == Serve(c, old(View()), stream, nonceAt, 0)
    {
      left, replies := stream, [];
      var i := 0;
      ghost var goal := Serve(c, View(), stream, nonceAt, 0);
      assert [] + goal.2 == goal.2;
      while running && TakeRequest(left).Whole?
        invariant Valid() && AllFit(left)
        invariant Extends(goal, replies, Serve(c, View(), left, nonceAt, i))
        decreases |left|
      {
        ServeStep(c, View(), left, nonceAt, i, goal, replies);
        var rest, reply := HandleIpcRequest(c, left, nonceAt(i));
        left, replies, i := rest, replies + reply, i + 1;
      }
      assert Serve(c, View(), left, nonceAt, i) == (View(), left, []);
      assert replies + [] == replies;
    }

    /** The program, given the bytes of any requests back to back: its keys end as if each had
        been dispatched directly, the bytes it sends parse into one response per request
        served, each with its id, and it leaves unserved only what follows a SHUTDOWN. */
    method ServeRequests(c: Suite, stream: seq<byte>, ghost reqs: seq<Request>, nonceAt: nat -> seq<byte>)
      returns (left: seq<byte>, replies: seq<byte>)
      requires Valid() && Lawful(c) && forall j :: |nonceAt(j)| == NONCE_SIZE
      requires stream == Ipc.Wire(reqs) && forall j :: 0 <= j < |reqs| ==> Fits(reqs[j])
      modifies this`running, km`count, km.keys
      ensures Valid()
      ensures var (e, resps) := Perform(c, old(View()), reqs, nonceAt, 0);
              && View() == e && Responses(replies) == resps
              && Reaches(old(running), reqs, |resps|) && left == Ipc.Wire(reqs[|resps|..])
              && forall j :: 0 <= j < |resps| ==> resps[j].id == reqs[j].id
    {
      WireFits(reqs);
      Framing(c, View(), reqs, nonceAt, 0);
      left, replies := ServeAll(c, stream, nonceAt);
    }

    /** The switch on the command. */
    method Execute(c: Suite, response: array<byte>, r: Request, nonce: seq<byte>)
      requires Valid() && Lawful(c) && Fits(r) && |nonce| == NONCE_SIZE
      requires response.Length == RESPONSE_HEADER + MAX_DATA && response[0..4] == ToBe(r.id, 4)
      modifies this`running, response, km`count, km.keys
      ensures Valid() && km.View() == Dispatch(c, old(km.View()), r, nonce).0
      ensures running == (old(running) && r.command != SHUTDOWN)
      ensures Holds(response[..], Dispatch(c, old(km.View()), r, nonce).1)
    {
      if r.command == PING {
        Fill(response, r.id, true, []);
      } else if r.command == ADD_KEY {
        AddKey(response, r, c, nonce);
      } else if r.command == REMOVE_KEY {
        km.RemoveKey(r.vpnIp);
        Fill(response, r.id, true, []);
      } else if r.command == ENCRYPT {
        Encrypt(c, response, r, nonce);
      } else if r.command == DECRYPT {
        Decrypt(c, response, r, nonce);
      } else if r.command == HANDSHAKE {
        Handshake(c, response, r, nonce);
      } else if r.command == SHUTDOWN {
        running := false;
        Fill(response, r.id, true, []);
      } else {
        Fill(response, r.id, false, []);
      }
    }
  }
}
