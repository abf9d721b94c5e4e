/**
  The SIP004 chunk stream the Shadowsocks probe reads, over an abstract AEAD: a reference
  parser of the whole byte stream, and the judge and body loops that read it piece by piece.
 */
module Framing {
  import opened Wrappers
  import opened Nonces

  const TAG := 16
  const MAX_PACKET := 16383
  const NONCE := 12

  /** A sealed box under one key: nonce and text to bytes, and back unless tampered with. */
  datatype Aead = Aead(seal: (Bytes, Bytes) -> Bytes, unseal: (Bytes, Bytes) -> Option<Bytes>)

  ghost predicate Lawful(a: Aead) {
    && (forall n, p {:trigger a.seal(n, p)} :: |a.seal(n, p)| == |p| + TAG && a.unseal(n, a.seal(n, p)) == Some(p))
    && (forall n, c {:trigger a.unseal(n, c)} :: a.unseal(n, c).Some? ==> |a.unseal(n, c).value| + TAG == |c|)
  }

  /** `int.from_bytes(.., "big")`. */
  function BigEndian(s: Bytes): nat {
    if s == [] then 0 else 256 * BigEndian(s[..|s| - 1]) + s[|s| - 1]
  }

  function TwoBytes(n: nat): Bytes
    requires n < 65536
  {
    [n / 256, n % 256]
  }

  lemma TwoBytesBack(n: nat)
    requires n < 65536
    ensures BigEndian(TwoBytes(n)) == n
  {
    assert TwoBytes(n)[..1] == [n / 256];
    assert [n / 256][..0] == [];
    assert BigEndian([n / 256]) == n / 256;
  }

  // ----- The sender -----

  predicate Sendable(chunk: Bytes) { 1 <= |chunk| <= MAX_PACKET }

  /** One chunk: its sealed length, then itself sealed under the next nonce. */
  function Frame(a: Aead, chunk: Bytes, ops: nat): Bytes
    requires Sendable(chunk)
  {
    a.seal(NonceAt(NONCE, ops), TwoBytes(|chunk|)) + a.seal(NonceAt(NONCE, ops + 1), chunk)
  }

  /** A run of chunks, the first sealed as operation number `ops`. */
  function Framed(a: Aead, chunks: seq<Bytes>, ops: nat): Bytes
    requires forall c :: c in chunks ==> Sendable(c)
  {
    if chunks == [] then [] else Frame(a, chunks[0], ops) + Framed(a, chunks[1..], ops + 2)
  }

  /** The probe's own first chunk, as its send path builds it. */
  method FrameRequest(a: Aead, salt: Bytes, payload: Bytes) returns (sent: Bytes)
    requires Sendable(payload)
    ensures sent == salt + Framed(a, [payload], 0)
  {
    var nonce := new byte[NONCE](_ => 0);
    ZeroNonce(nonce[..]);
    var framed := a.seal(nonce[..], TwoBytes(|payload|));
    IncNonce(nonce);
    assert nonce[..] == NonceAt(NONCE, 1);
    framed := framed + a.seal(nonce[..], payload);
    assert Framed(a, [payload], 0) == Frame(a, payload, 0) + [];
    sent := salt + framed;
  }

  lemma ZeroNonce(s: Bytes)
    requires |s| == NONCE && forall i :: 0 <= i < NONCE ==> s[i] == 0
    ensures s == NonceAt(NONCE, 0)
  {
  }

  // ----- What a stream of bytes says -----

  datatype Head =
    | Chunk(body: Bytes, rest: Bytes)
    | ShortHead
    | BadLength(length: nat)
    | ShortBody
    | BadTag

  /** The next chunk of a stream at operation number `ops`, or why there is none. */
  function NextChunk(a: Aead, stream: Bytes, ops: nat): Head {
    if |stream| < 2 + TAG then ShortHead
    else
      var unsealed := a.unseal(NonceAt(NONCE, ops), stream[..2 + TAG]);
      if unsealed.None? then BadTag
      else
        var length, rest := BigEndian(unsealed.value), stream[2 + TAG..];
        if length == 0 || length > MAX_PACKET then BadLength(length)
        else if |rest| < length + TAG then ShortBody
        else
          var body := a.unseal(NonceAt(NONCE, ops + 1), rest[..length + TAG]);
          if body.None? then BadTag else Chunk(body.value, rest[length + TAG..])
  }

  /** All the chunks of a stream, up to the first that is not one. */
  function Parse(a: Aead, stream: Bytes, ops: nat): seq<Bytes>
    decreases |stream|
  {
    var head := NextChunk(a, stream, ops);
    if head.Chunk? then [head.body] + Parse(a, head.rest, ops + 2) else []
  }

  lemma NextOfFramed(a: Aead, chunk: Bytes, tail: Bytes, ops: nat)
    requires Lawful(a) && Sendable(chunk)
    ensures NextChunk(a, Frame(a, chunk, ops) + tail, ops) == Chunk(chunk, tail)
  {
    var head := a.seal(NonceAt(NONCE, ops), TwoBytes(|chunk|));
    var body := a.seal(NonceAt(NONCE, ops + 1), chunk);
    var stream := Frame(a, chunk, ops) + tail;
    assert |head| == 2 + TAG && |body| == |chunk| + TAG;
    assert stream[..2 + TAG] == head && stream[2 + TAG..] == body + tail;
    TwoBytesBack(|chunk|);
    assert (body + tail)[..|chunk| + TAG] == body && (body + tail)[|chunk| + TAG..] == tail;
  }

  /** Round trip: parsing what was framed gives back the chunks, in order, under the same nonces. */
  lemma {:induction false} ParseFramed(a: Aead, chunks: seq<Bytes>, ops: nat)
    requires Lawful(a) && forall c :: c in chunks ==> Sendable(c)
    ensures Parse(a, Framed(a, chunks, ops), ops) == chunks
  {
    if chunks != [] {
      NextOfFramed(a, chunks[0], Framed(a, chunks[1..], ops + 2), ops);
      ParseFramed(a, chunks[1..], ops + 2);
    } else {
      assert Framed(a, chunks, ops) == [];
    }
  }

  // ----- The reader -----

  /** How a receive can fail: nothing in time, or the connection reset. */
  datatype Fault = Timeout | Reset

  datatype Received = Got(bytes: Bytes) | Failed(fault: Fault)

  /** The socket: the bytes still to come before the peer closes, handed over in any portions. */
  class Socket {
    var stream: Bytes

    constructor (stream: Bytes)
      ensures this.stream == stream
    {
      this.stream := stream;
    }

    /** `recv`: at least one byte and at most `n`; none only at the end; or a failure. */
    method Recv(n: nat) returns (portion: Received)
      requires n > 0
      modifies this
      ensures portion.Failed? ==> stream == old(stream)
      ensures portion.Got? ==> old(stream) == portion.bytes + stream && |portion.bytes| <= n
      ensures portion.Got? && portion.bytes == [] ==> old(stream) == []
    {
      var late: bool := *;
      var reset: bool := *;
      if late { return Failed(Timeout); }
      if reset { return Failed(Reset); }
      var most := if n < |stream| then n else |stream|;
      var k := 0;
      if most > 0 { k :| 1 <= k <= most; }
      portion := Got(stream[..k]);
      stream := stream[k..];
    }
  }

  /** `_recvn`: exactly `n` bytes, or all there are before the close, however they arrive; or a failure. */
  method RecvN(sock: Socket, n: nat) returns (total: Received)
    modifies sock
    ensures total.Got? ==> total.bytes == old(sock.stream)[..if n < |old(sock.stream)| then n else |old(sock.stream)|]
    ensures total.Got? ==> old(sock.stream) == total.bytes + sock.stream
    ensures |sock.stream| <= |old(sock.stream)|
  {
    var sofar := [];
    while |sofar| < n
      invariant |sofar| <= n && old(sock.stream) == sofar + sock.stream
      decreases n - |sofar|
    {
      var portion := sock.Recv(n - |sofar|);
      if portion.Failed? { return portion; }
      if portion.bytes == [] { return Got(sofar); }
      sofar := sofar + portion.bytes;
    }
    total := Got(sofar);
  }

  /** What a read hears, or how it failed: before the sealed length was there, or after. */
  datatype Reading = Heard(head: Head) | FailedHead(fault: Fault) | FailedBody(fault: Fault)

  /**
    Reading one chunk, as the judge and the body loop both do: sealed length, sealed body, the
    nonce stepped after each. Whatever the portions, it hears what the stream says.
   */
  method ReadChunk(sock: Socket, server: Aead, nonce: array<byte>, ghost ops: nat) returns (reading: Reading)
    requires nonce.Length == NONCE && nonce[..] == NonceAt(NONCE, ops)
    modifies sock, nonce
    ensures reading.Heard? ==> reading.head == NextChunk(server, old(sock.stream), ops)
    ensures reading.Heard? && reading.head.Chunk? ==>
              sock.stream == reading.head.rest && nonce[..] == NonceAt(NONCE, ops + 2)
              && |sock.stream| < |old(sock.stream)|
    ensures reading == Heard(ShortHead) || reading.FailedHead? ==> nonce[..] == NonceAt(NONCE, ops)
    ensures |sock.stream| <= |old(sock.stream)|
  {
    ghost var stream := sock.stream;
    var head := RecvN(sock, 2 + TAG);
    if head.Failed? { return FailedHead(head.fault); }
    if |head.bytes| < 2 + TAG { return Heard(ShortHead); }
    assert head.bytes == stream[..2 + TAG] && sock.stream == stream[2 + TAG..];
    var unsealed := server.unseal(nonce[..], head.bytes);
    if unsealed.None? { return Heard(BadTag); }
    var length := BigEndian(unsealed.value);
    IncNonce(nonce);
    assert nonce[..] == NonceAt(NONCE, ops + 1);
    if length == 0 || length > MAX_PACKET { return Heard(BadLength(length)); }
    ghost var rest := sock.stream;
    var body := RecvN(sock, length + TAG);
    if body.Failed? { return FailedBody(body.fault); }
    if |body.bytes| < length + TAG { return Heard(ShortBody); }
    assert body.bytes == rest[..length + TAG] && sock.stream == rest[length + TAG..];
    var text := server.unseal(nonce[..], body.bytes);
    if text.None? { return Heard(BadTag); }
    IncNonce(nonce);
    assert nonce[..] == NonceAt(NONCE, ops + 2);
    reading := Heard(Chunk(text.value, sock.stream));
  }

  function TotalSize(chunks: seq<Bytes>): nat {
    if chunks == [] then 0 else TotalSize(chunks[..|chunks| - 1]) + |chunks[|chunks| - 1]|
  }

  lemma ParseUnfolds(a: Aead, stream: Bytes, ops: nat)
    ensures Parse(a, stream, ops) ==
            var head := NextChunk(a, stream, ops);
            if head.Chunk? then [head.body] + Parse(a, head.rest, ops + 2) else []
  {
  }

  /** The bodies taken so far are the stream's first, and the rest of the stream has the others. */
  ghost predicate Taken(a: Aead, stream: Bytes, ops: nat, taken: seq<Bytes>, left: Bytes) {
    Parse(a, stream, ops) == taken + Parse(a, left, ops + 2 * |taken|)
  }

  lemma TakeNext(a: Aead, stream: Bytes, ops: nat, taken: seq<Bytes>, left: Bytes)
    requires Taken(a, stream, ops, taken, left)
    ensures var head := NextChunk(a, left, ops + 2 * |taken|);
            if head.Chunk? then Taken(a, stream, ops, taken + [head.body], head.rest)
            else Parse(a, stream, ops) == taken
  {
    hide Parse, NextChunk;
    var now := ops + 2 * |taken|;
    ParseUnfolds(a, left, now);
    var head := NextChunk(a, left, now);
    if head.Chunk? {
      Regroup(taken, head.body, Parse(a, head.rest, now + 2));
      assert ops + 2 * |taken + [head.body]| == now + 2;
    }
  }

  lemma Regroup<T>(a: seq<T>, b: T, c: seq<T>)
    ensures a + ([b] + c) == a + [b] + c
  {
  }

  lemma TotalStep(taken: seq<Bytes>, body: Bytes)
    ensures TotalSize(taken + [body]) == TotalSize(taken) + |body|
    ensures (taken + [body])[..|taken + [body]| - 1] == taken
  {
    assert (taken + [body])[..|taken|] == taken;
  }

  /** Why the body loop stopped; it catches only a timeout before a chunk, any other failure escapes it. */
  datatype Stop = Enough | Expired | Interrupted | Ended(head: Head) | Escaped(fault: Fault)

  /**
    `_ss_body_kb`, up to its division by the elapsed time: the bodies counted are the first of
    the stream's chunks, in order; it stops early only for a full sample, the clock or a
    failing read; and until a read fails inside a chunk both sides' counters are at twice the chunks.
   */
  method ReadBody(sock: Socket, server: Aead, nonce: array<byte>, sampleBytes: int, ghost ops: nat)
    returns (received: nat, ghost taken: seq<Bytes>, stop: Stop)
    requires nonce.Length == NONCE && nonce[..] == NonceAt(NONCE, ops)
    modifies sock, nonce
    ensures received == TotalSize(taken) && taken <= Parse(server, old(sock.stream), ops)
    ensures stop.Ended? ==> taken == Parse(server, old(sock.stream), ops)
    ensures stop.Enough? ==> received >= sampleBytes
    ensures stop.Enough? || stop.Expired? ==> Taken(server, old(sock.stream), ops, taken, sock.stream)
    ensures stop.Enough? || stop.Expired? || stop.Interrupted? || stop == Ended(ShortHead) ==>
              nonce[..] == NonceAt(NONCE, ops + 2 * |taken|)
    ensures taken != [] ==> TotalSize(taken[..|taken| - 1]) < sampleBytes
  {
    hide Parse, NextChunk, NonceAt, TotalSize;
    ghost var stream := sock.stream;
    received, taken := 0, [];
    NothingTaken(server, stream, ops);
    while received < sampleBytes
      invariant received == TotalSize(taken)
      invariant Taken(server, stream, ops, taken, sock.stream)
      invariant nonce[..] == NonceAt(NONCE, ops + 2 * |taken|)
      invariant taken != [] ==> TotalSize(taken[..|taken| - 1]) < sampleBytes
      decreases |sock.stream|
    {
      var late: bool := *;
      if late { return received, taken, Expired; }
      TakeNext(server, stream, ops, taken, sock.stream);
      var reading := ReadChunk(sock, server, nonce, ops + 2 * |taken|);
      match reading {
        case FailedHead(fault) =>
          return received, taken, if fault == Timeout then Interrupted else Escaped(fault);
        case FailedBody(fault) => return received, taken, Escaped(fault);
        case Heard(head) =>
          if !head.Chunk? { return received, taken, Ended(head); }
          TotalStep(taken, head.body);
          received := received + |head.body|;
          taken := taken + [head.body];
      }
    }
    stop := Enough;
  }

  lemma NothingTaken(a: Aead, stream: Bytes, ops: nat)
    ensures Taken(a, stream, ops, [], stream) && TotalSize([]) == 0
  {
    assert [] + Parse(a, stream, ops) == Parse(a, stream, ops);
  }

  datatype Outcome =
    | NoSalt
    | Refused(head: Head)
    | Broken(fault: Fault)
    | Echo(first: Bytes)
    | NotRelayed(first: Bytes)
    | Judged(first: Bytes)
    | Measured(first: Bytes, received: nat, stop: Stop)

  /** What the judge makes of the first chunk: our own request back, or no success, is no relay. */
  function Verdict(payload: Bytes, successful: Bytes -> bool, first: Bytes): Outcome {
    if first <= payload then Echo(first)
    else if !successful(first) then NotRelayed(first)
    else Judged(first)
  }

  lemma VerdictMeans(payload: Bytes, successful: Bytes -> bool, first: Bytes)
    ensures Verdict(payload, successful, first) in {Echo(first), NotRelayed(first), Judged(first)}
  {
  }

  /** The chunks behind the server's salt, under the key that salt derives. */
  function Chunks(keyed: Bytes -> Aead, stream: Bytes, saltLen: nat): seq<Bytes>
    requires |stream| >= saltLen
  {
    Parse(keyed(stream[..saltLen]), stream[saltLen..], 0)
  }

  /**
    The reading half of `_attempt_ss_relay`: the server's salt, the judge's chunk and its
    verdict, then the body if it is to be measured, all on one counter. `keyed` derives the
    server's AEAD from its salt; `successful` reads the HTTP status. A failing receive ends it
    all, but for a timeout before a chunk of the body.
   */
  method ReadRelay(sock: Socket, saltLen: nat, keyed: Bytes -> Aead, payload: Bytes, successful: Bytes -> bool,
                   sampleBytes: Option<int>)
    returns (outcome: Outcome, ghost taken: seq<Bytes>)
    modifies sock
    ensures outcome.NoSalt? ==> |old(sock.stream)| < saltLen
    ensures !outcome.NoSalt? && !outcome.Broken? ==> |old(sock.stream)| >= saltLen
    ensures outcome.Refused? ==> Chunks(keyed, old(sock.stream), saltLen) == []
    ensures outcome.Echo? || outcome.NotRelayed? || outcome.Judged? || outcome.Measured? ==>
              var chunks := Chunks(keyed, old(sock.stream), saltLen);
              && chunks != [] && outcome.first == chunks[0]
              && Verdict(payload, successful, chunks[0]) ==
                 if outcome.Measured? then Judged(chunks[0]) else outcome
    ensures outcome.Judged? ==> sampleBytes.None?
    ensures outcome.Measured? ==>
              var chunks := Chunks(keyed, old(sock.stream), saltLen);
              && sampleBytes.Some? && [outcome.first] + taken <= chunks
              && outcome.received == TotalSize(taken) && !outcome.stop.Escaped?
              && (outcome.stop.Ended? ==> [outcome.first] + taken == chunks)
              && (outcome.stop.Enough? ==> outcome.received >= sampleBytes.value)
              && (taken != [] ==> TotalSize(taken[..|taken| - 1]) < sampleBytes.value)
  {
    hide Parse, NextChunk, TotalSize, Verdict, NonceAt;
    taken := [];
    ghost var stream := sock.stream;
    var salt := RecvN(sock, saltLen);
    if salt.Failed? { return Broken(salt.fault), []; }
    if |salt.bytes| < saltLen { return NoSalt, []; }
    assert salt.bytes == stream[..saltLen] && sock.stream == stream[saltLen..];
    var server := keyed(salt.bytes);
    var nonce := new byte[NONCE](_ => 0);
    ZeroNonce(nonce[..]);
    ParseUnfolds(server, sock.stream, 0);
    var reading := ReadChunk(sock, server, nonce, 0);
    if !reading.Heard? { return Broken(reading.fault), []; }
    if !reading.head.Chunk? { return Refused(reading.head), []; }
    outcome := Verdict(payload, successful, reading.head.body);
    VerdictMeans(payload, successful, reading.head.body);
    if outcome.Judged? && sampleBytes.Some? {
      var received, stop;
      received, taken, stop := ReadBody(sock, server, nonce, sampleBytes.value, 2);
      outcome := if stop.Escaped? then Broken(stop.fault) else Measured(reading.head.body, received, stop);
    }
  }

  /** Behind their salt, the chunks sent are the chunks there are. */
  lemma ChunksSent(keyed: Bytes -> Aead, salt: Bytes, chunks: seq<Bytes>, stream: Bytes)
    requires forall c :: c in chunks ==> Sendable(c)
    requires Lawful(keyed(salt)) && stream == salt + Framed(keyed(salt), chunks, 0)
    ensures |stream| >= |salt| && Chunks(keyed, stream, |salt|) == chunks
  {
    ParseFramed(keyed(salt), chunks, 0);
    assert stream[..|salt|] == salt && stream[|salt|..] == Framed(keyed(salt), chunks, 0);
  }

  /**
    Round trip over the socket: of any sendable chunks sent behind a salt, however the bytes
    arrive and wherever it stops, the reader hears the first ones, in order; all of them if it
    reads to the end, and none only if none was sent.
   */
  method RelayRoundTrip(sock: Socket, ghost salt: Bytes, ghost chunks: seq<Bytes>, saltLen: nat, keyed: Bytes -> Aead,
                        payload: Bytes, successful: Bytes -> bool, sampleBytes: Option<int>)
    returns (outcome: Outcome, ghost taken: seq<Bytes>)
    requires |salt| == saltLen && Lawful(keyed(salt)) && forall c :: c in chunks ==> Sendable(c)
    requires sock.stream == salt + Framed(keyed(salt), chunks, 0)
    modifies sock
    ensures !outcome.NoSalt? && (outcome.Refused? ==> chunks == [])
    ensures outcome.Echo? || outcome.NotRelayed? || outcome.Judged? || outcome.Measured? ==>
              && chunks != [] && outcome.first == chunks[0]
              && Verdict(payload, successful, chunks[0]) ==
                 if outcome.Measured? then Judged(chunks[0]) else outcome
    ensures outcome.Measured? ==>
              && [outcome.first] + taken <= chunks && outcome.received == TotalSize(taken)
              && (outcome.stop.Ended? ==> [outcome.first] + taken == chunks)
  {
    hide Parse, Chunks, Framed, Verdict;
    ChunksSent(keyed, salt, chunks, sock.stream);
    outcome, taken := ReadRelay(sock, saltLen, keyed, payload, successful, sampleBytes);
  }
}
