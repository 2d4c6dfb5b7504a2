/** Request signing between services: a keyed hash over a fixed-width framing of the request. A Go string and
    a byte slice are both a string of bytes here; the digest and the keyed hash are abstract. */
module Signing {
  import opened Text
  import opened Wrappers

  // Nanoseconds since the epoch.
  type Instant = int

  type Int64 = x: int | -0x8000_0000_0000_0000 <= x < 0x8000_0000_0000_0000

  const SECOND: int := 1_000_000_000
  const MAX_REQUEST_AGE: int := 300 * SECOND
  const MAX_FUTURE_SKEW: int := 60 * SECOND
  const DIGEST_SIZE: nat := 32
  const FRAME_SIZE: nat := 5 * DIGEST_SIZE + 8
  const MIN_SECRET: nat := 32

  /** SHA-256 of a byte string, and HMAC-SHA256 of a byte sequence under a secret. */
  datatype Hashes = Hashes(sha: string -> seq<byte>, mac: (string, seq<byte>) -> seq<byte>)

  ghost predicate Sized(h: Hashes) {
    && (forall s :: |h.sha(s)| == DIGEST_SIZE)
    && (forall k, b :: |h.mac(k, b)| == DIGEST_SIZE)
  }

  /** Everything a signature covers. */
  datatype Claim = Claim(
    verb: string, path: string, rawQuery: string, service: string, timestamp: Int64, body: string)

  // ---------- the framing ----------

  function BigEndian(v: nat, width: nat): (b: seq<byte>)
    ensures |b| == width
  {
    if width == 0 then [] else BigEndian(v / 256, width - 1) + [v % 256]
  }

  /** The conversion to an unsigned 64-bit number. */
  function Unsigned(t: Int64): (v: nat)
    ensures v < 0x1_0000_0000_0000_0000
  {
    if t < 0 then t + 0x1_0000_0000_0000_0000 else t
  }

  function Frame(h: Hashes, c: Claim): seq<byte> {
    h.sha(c.verb) + h.sha(c.path) + h.sha(c.rawQuery) + h.sha(c.service) + BigEndian(Unsigned(c.timestamp), 8)
    + h.sha(c.body)
  }

  function Signature(h: Hashes, secret: string, c: Claim): string { Hex(h.mac(secret, Frame(h, c))) }

  function Pow256(n: nat): nat { if n == 0 then 1 else 256 * Pow256(n - 1) }

  /** The number that bytes stand for, the most significant first. */
  function FromBytes(b: seq<byte>): nat {
    if b == [] then 0 else 256 * FromBytes(b[..|b| - 1]) + b[|b| - 1]
  }

  lemma {:induction false} BytesReadBack(v: nat, width: nat)
    requires v < Pow256(width)
    ensures FromBytes(BigEndian(v, width)) == v
  {
    if width != 0 {
      var b := BigEndian(v, width);
      assert b[..width - 1] == BigEndian(v / 256, width - 1) && b[width - 1] == v % 256;
      BytesReadBack(v / 256, width - 1);
    }
  }

  /** The eight bytes are the timestamp modulo 2^64, the most significant first, and so determine it. */
  lemma TimestampBytesAreInjective(t: Int64, u: Int64)
    ensures FromBytes(BigEndian(Unsigned(t), 8)) == if t < 0 then t + 0x1_0000_0000_0000_0000 else t
    ensures BigEndian(Unsigned(t), 8) == BigEndian(Unsigned(u), 8) <==> t == u
  {
    assert Pow256(8) == 0x1_0000_0000_0000_0000 by {
      assert Pow256(2) == 0x1_0000;
      assert Pow256(4) == 0x1_0000_0000;
      assert Pow256(6) == 0x1_0000_0000_0000;
    }
    BytesReadBack(Unsigned(t), 8);
    BytesReadBack(Unsigned(u), 8);
  }

  /** The pieces of a frame, by position. */
  lemma FramePieces(h: Hashes, c: Claim)
    requires Sized(h)
    ensures var f := Frame(h, c);
            && |f| == FRAME_SIZE
            && f[..32] == h.sha(c.verb) && f[32..64] == h.sha(c.path) && f[64..96] == h.sha(c.rawQuery)
            && f[96..128] == h.sha(c.service) && f[128..136] == BigEndian(Unsigned(c.timestamp), 8)
            && f[136..] == h.sha(c.body)
  {
  }

  /** The frame is 168 bytes and determines the timestamp and each field's digest, and is determined by them:
      no byte can move from one field to another. */
  lemma FramesAreExact(h: Hashes, c: Claim, d: Claim)
    requires Sized(h)
    ensures |Frame(h, c)| == 168
    ensures Frame(h, c) == Frame(h, d)
       <==> && h.sha(c.verb) == h.sha(d.verb) && h.sha(c.path) == h.sha(d.path)
            && h.sha(c.rawQuery) == h.sha(d.rawQuery) && h.sha(c.service) == h.sha(d.service)
            && c.timestamp == d.timestamp && h.sha(c.body) == h.sha(d.body)
  {
    FramePieces(h, c);
    FramePieces(h, d);
    TimestampBytesAreInjective(c.timestamp, d.timestamp);
  }

  /** The hashes tell these two claims apart wherever they differ. */
  predicate NoCollision(h: Hashes, secret: string, c: Claim, d: Claim) {
    && (h.sha(c.verb) == h.sha(d.verb) ==> c.verb == d.verb)
    && (h.sha(c.path) == h.sha(d.path) ==> c.path == d.path)
    && (h.sha(c.rawQuery) == h.sha(d.rawQuery) ==> c.rawQuery == d.rawQuery)
    && (h.sha(c.service) == h.sha(d.service) ==> c.service == d.service)
    && (h.sha(c.body) == h.sha(d.body) ==> c.body == d.body)
    && (h.mac(secret, Frame(h, c)) == h.mac(secret, Frame(h, d)) ==> Frame(h, c) == Frame(h, d))
  }

  /** Unless the hashes collide, two claims have the same signature exactly if they are the same claim. */
  lemma SignaturesAreExact(h: Hashes, secret: string, c: Claim, d: Claim)
    requires Sized(h) && NoCollision(h, secret, c, d)
    ensures Signature(h, secret, c) == Signature(h, secret, d) <==> c == d
  {
    if Signature(h, secret, c) == Signature(h, secret, d) {
      HexIsInjective(h.mac(secret, Frame(h, c)), h.mac(secret, Frame(h, d)));
      FramesAreExact(h, c, d);
    }
  }

  /** The framing the code replaced: fields joined with bars. */
  function Delimited(c: Claim, bodyHash: string): string {
    c.verb + "|" + c.path + "|" + c.rawQuery + "|" + c.service + "|" + FormatInt(c.timestamp) + "|" + bodyHash
  }

  /** It cannot tell a bar inside a field from a bar between fields. */
  lemma DelimitedCollides(c: Claim, b: string, x: string, bodyHash: string)
    ensures Delimited(c.(rawQuery := b + "|" + x), bodyHash)
         == Delimited(c.(path := c.path + "|" + b, rawQuery := x), bodyHash)
  {
  }

  // ---------- requests, signers and verification ----------

  /** A body is absent, readable, or fails to be read. */
  datatype Body = NoBody | Readable(bytes: string) | Broken

  /** An absent header reads as the empty string. */
  datatype Headers = Headers(signature: string, timestamp: string, service: string)

  class Request {
    const verb: string
    const path: string
    const rawQuery: string
    const body: Body
    var headers: Headers

    constructor (verb: string, path: string, rawQuery: string, body: Body, headers: Headers)
      ensures this.verb == verb && this.path == path && this.rawQuery == rawQuery && this.body == body
      ensures this.headers == headers
    {
      this.verb, this.path, this.rawQuery, this.body := verb, path, rawQuery, body;
      this.headers := headers;
    }

    /** What a service claims by signing this request at a time. */
    function ClaimOf(service: string, timestamp: Int64): Claim
    {
      Claim(verb, path, rawQuery, service, timestamp, if body.Readable? then body.bytes else "")
    }
  }

  datatype Error =
    | SecretTooShort
    | UnreadableBody
    | MissingSignature
    | MissingTimestamp
    | MissingService
    | InvalidTimestamp
    | RequestTooOld
    | RequestInFuture
    | InvalidSignature

  predicate IsInt64(n: int) { -0x8000_0000_0000_0000 <= n < 0x8000_0000_0000_0000 }

  /** Not older than five minutes at the first reading of the clock, nor more than one ahead at the second. */
  predicate Timely(timestamp: int, now: Instant, later: Instant) {
    now - timestamp * SECOND <= MAX_REQUEST_AGE && timestamp * SECOND - later <= MAX_FUTURE_SKEW
  }

  class Signer {
    const serviceName: string
    const secret: string

    constructor (serviceName: string, secret: string)
      requires MIN_SECRET <= |secret|
      ensures this.serviceName == serviceName && this.secret == secret
    {
      this.serviceName, this.secret := serviceName, secret;
    }

    /** Signs the request as of the clock's second and sets the three headers; a body that cannot be read
        leaves the request unsigned. */
    method SignRequest(h: Hashes, req: Request, now: Instant) returns (error: Option<Error>)
      requires IsInt64(now / SECOND)
      modifies req
      ensures error == if req.body.Broken? then Some(UnreadableBody) else None
      ensures req.headers == if error.Some? then old(req.headers)
                             else SignedHeaders(h, secret, req.ClaimOf(serviceName, now / 1_000_000_000))
    {
      var timestamp: Int64 := now / SECOND;
      var body := "";
      match req.body {
        case NoBody =>
        case Readable(bytes) => body := bytes;
        case Broken => return Some(UnreadableBody);
      }
      var signature := Signature(h, secret, Claim(req.verb, req.path, req.rawQuery, serviceName, timestamp, body));
      req.headers := Headers(signature, FormatInt(timestamp), serviceName);
      error := None;
    }

    /** The check without headers: the first failing condition is the error. */
    method VerifySignature(h: Hashes, c: Claim, signature: string, now: Instant, later: Instant)
      returns (error: Option<Error>)
      ensures error.None? <==> Timely(c.timestamp, now, later) && signature == Signature(h, secret, c)
      ensures error in {None, Some(RequestTooOld), Some(RequestInFuture), Some(InvalidSignature)}
      ensures error == Some(RequestTooOld) <==> MAX_REQUEST_AGE < now - c.timestamp * SECOND
      ensures error == Some(InvalidSignature) <==>
                Timely(c.timestamp, now, later) && signature != Signature(h, secret, c)
    {
      var age := now - c.timestamp * SECOND;
      if age > MAX_REQUEST_AGE {
        return Some(RequestTooOld);
      }
      if c.timestamp * SECOND - later > MAX_FUTURE_SKEW {
        return Some(RequestInFuture);
      }
      var expected := Signature(h, secret, c);
      if signature != expected {
        return Some(InvalidSignature);
      }
      error := None;
    }

    /** The check of an incoming request; a request that passes carries on as the service it names. */
    method VerifyMiddleware(h: Hashes, req: Request, now: Instant, later: Instant) returns (r: Result<string, Error>)
      ensures r.Ok? <==> Accepts(h, secret, req, req.headers, now, later)
      ensures r.Ok? ==> r.value == req.headers.service
      ensures r.Err? ==> r.error == Rejection(h, secret, req, req.headers, now, later)
    {
      var given := req.headers;
      if given.signature == "" {
        return Err(MissingSignature);
      }
      if given.timestamp == "" {
        return Err(MissingTimestamp);
      }
      if given.service == "" {
        return Err(MissingService);
      }
      var parsed := ParseInt(given.timestamp);
      if parsed.None? || !IsInt64(parsed.value) {
        return Err(InvalidTimestamp);
      }
      var timestamp: Int64 := parsed.value;
      if now - timestamp * SECOND > MAX_REQUEST_AGE {
        return Err(RequestTooOld);
      }
      if timestamp * SECOND - later > MAX_FUTURE_SKEW {
        return Err(RequestInFuture);
      }
      var body := "";
      match req.body {
        case NoBody =>
        case Readable(bytes) => body := bytes;
        case Broken => return Err(UnreadableBody);
      }
      var c := Claim(req.verb, req.path, req.rawQuery, given.service, timestamp, body);
      if given.signature != Signature(h, secret, c) {
        return Err(InvalidSignature);
      }
      r := Ok(given.service);
    }
  }

  method NewSigner(serviceName: string, secret: string) returns (r: Result<Signer, Error>)
    ensures |secret| < 32 ==> r == Err(SecretTooShort)
    ensures 32 <= |secret| ==> r.Ok? && fresh(r.value)
    ensures 32 <= |secret| ==> r.value.serviceName == serviceName && r.value.secret == secret
  {
    if |secret| < 32 {
      return Err(SecretTooShort);
    }
    var s := new Signer(serviceName, secret);
    r := Ok(s);
  }

  function SignedHeaders(h: Hashes, secret: string, c: Claim): Headers {
    Headers(Signature(h, secret, c), FormatInt(c.timestamp), c.service)
  }

  /** The timestamp a header gives, if it is a 64-bit number. */
  function Timestamp(header: string): Option<Int64> {
    match ParseInt(header)
    case None => None
    case Some(n) => if IsInt64(n) then Some(n) else None
  }

  /** The named service signed this very request within the window. */
  predicate Accepts(h: Hashes, secret: string, req: Request, given: Headers, now: Instant, later: Instant) {
    && given.signature != "" && given.service != "" && !req.body.Broken?
    && Timestamp(given.timestamp).Some?
    && var timestamp := Timestamp(given.timestamp).value;
       Timely(timestamp, now, later) && given.signature == Signature(h, secret, req.ClaimOf(given.service, timestamp))
  }

  /** Which check fails first. */
  function Rejection(h: Hashes, secret: string, req: Request, given: Headers, now: Instant, later: Instant): Error {
    if given.signature == "" then MissingSignature
    else if given.timestamp == "" then MissingTimestamp
    else if given.service == "" then MissingService
    else match Timestamp(given.timestamp)
      case None => InvalidTimestamp
      case Some(t) =>
        if MAX_REQUEST_AGE < now - t * SECOND then RequestTooOld
        else if !Timely(t, now, later) then RequestInFuture
        else if req.body.Broken? then UnreadableBody
        else InvalidSignature
  }

  /** The checks and their order, up to the signature itself. */
  lemma FirstFailingCheck(h: Hashes, secret: string, req: Request, given: Headers, now: Instant, later: Instant)
    ensures var e := Rejection(h, secret, req, given, now, later);
            var timestamp, present := ParseInt(given.timestamp), given.timestamp != "" && given.service != "";
            && (e == MissingSignature <==> given.signature == "")
            && (e == MissingTimestamp <==> given.signature != "" && given.timestamp == "")
            && (e == MissingService <==> given.signature != "" && given.timestamp != "" && given.service == "")
            && (given.signature != "" && present ==>
                  && (e == InvalidTimestamp
                      <==> timestamp.None? || timestamp.value < -0x8000_0000_0000_0000
                           || 0x7fff_ffff_ffff_ffff < timestamp.value)
                  && (timestamp.Some? && e != InvalidTimestamp ==>
                        var age := now - timestamp.value * 1_000_000_000;
                        var early := timestamp.value * 1_000_000_000 - later;
                        && (e == RequestTooOld <==> 300_000_000_000 < age)
                        && (e == RequestInFuture <==> age <= 300_000_000_000 && 60_000_000_000 < early)
                        && (e == UnreadableBody
                            <==> age <= 300_000_000_000 && early <= 60_000_000_000 && req.body == Broken)))
  {
  }

  /** A request that was signed and not altered passes exactly if it arrives within the window and its service
      has a name: a signer without a name signs requests that no middleware accepts. */
  lemma SignedPassesIffTimelyAndNamed(
    h: Hashes, secret: string, req: Request, service: string, timestamp: Int64, now: Instant, later: Instant)
    requires Sized(h) && !req.body.Broken?
    ensures Accepts(h, secret, req, SignedHeaders(h, secret, req.ClaimOf(service, timestamp)), now, later)
       <==> service != "" && now - timestamp * SECOND <= 300 * SECOND && -60 * SECOND <= later - timestamp * SECOND
  {
    ParseOfFormat(timestamp);
    assert |Signature(h, secret, req.ClaimOf(service, timestamp))| == 2 * DIGEST_SIZE;
  }

  /** What is read from a body that can be read. */
  function BytesOf(body: Body): string
    requires !body.Broken?
  {
    match body
    case NoBody => ""
    case Readable(bytes) => bytes
  }

  /** Unless the hashes collide, a signature made for one claim passes only on a request that claims the same:
      method, path, query, service, timestamp and body. */
  lemma SignaturePassesOnlyItsOwn(
    h: Hashes, secret: string, signed: Claim, req: Request, given: Headers, now: Instant, later: Instant)
    requires Sized(h) && given.signature == Signature(h, secret, signed)
    requires forall t: Int64 {:trigger req.ClaimOf(given.service, t)} ::
               NoCollision(h, secret, req.ClaimOf(given.service, t), signed)
    ensures Accepts(h, secret, req, given, now, later)
       <==> && given.service != "" && !req.body.Broken? && Timely(signed.timestamp, now, later)
            && Timestamp(given.timestamp) == Some(signed.timestamp)
            && req.verb == signed.verb && req.path == signed.path && req.rawQuery == signed.rawQuery
            && given.service == signed.service && BytesOf(req.body) == signed.body
  {
    assert |given.signature| == 2 * DIGEST_SIZE;
    if Timestamp(given.timestamp).Some? {
      SignaturesAreExact(h, secret, req.ClaimOf(given.service, Timestamp(given.timestamp).value), signed);
    }
  }

  /** The headers made for one request let another one pass, within the window and unless the hashes collide, exactly if
      method, path and query are the same and so is what is read from the bodies; whatever is changed, the signature is
      what is found wrong. */
  lemma AlteredRequestIsRejected(
    h: Hashes, secret: string, signed: Request, service: string, timestamp: Int64,
    req: Request, now: Instant, later: Instant)
    requires Sized(h) && signed.body != Broken && req.body != Broken && service != ""
    requires now - timestamp * 1_000_000_000 <= 300_000_000_000 && timestamp * 1_000_000_000 - later <= 60_000_000_000
    requires NoCollision(h, secret, req.ClaimOf(service, timestamp), signed.ClaimOf(service, timestamp))
    ensures var given := SignedHeaders(h, secret, signed.ClaimOf(service, timestamp));
            if req.verb == signed.verb && req.path == signed.path && req.rawQuery == signed.rawQuery
               && BytesOf(req.body) == BytesOf(signed.body)
            then Accepts(h, secret, req, given, now, later)
            else !Accepts(h, secret, req, given, now, later)
                 && Rejection(h, secret, req, given, now, later) == InvalidSignature
  {
    ParseOfFormat(timestamp);
    assert |Signature(h, secret, signed.ClaimOf(service, timestamp))| == 2 * DIGEST_SIZE;
    SignaturesAreExact(h, secret, req.ClaimOf(service, timestamp), signed.ClaimOf(service, timestamp));
  }
}
