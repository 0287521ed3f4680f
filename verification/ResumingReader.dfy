// The response body that survives a broken upstream by reconnecting at the byte where it broke.
module ResumingReader {
  import opened Basics
  import opened Ranges

  type Bytes = seq<bv8>

  /** A failure carries what isRetryableError asks of an error: whether it wraps a cancelled context, is the
      unexpected-EOF value, wraps a connection errno or a network error, and its text. */
  datatype Error =
    | Nil
    | EOF
    | ClosedPipe
    | Failure(cancelled: bool, unexpectedEOF: bool, errno: bool, network: bool, text: string)

  predicate FoundAt(s: string, part: string, i: nat) { i + |part| <= |s| && s[i..i + |part|] == part }

  predicate Contains(s: string, part: string)
  {
    exists i | 0 <= i <= |s| :: FoundAt(s, part, i)
  }

  predicate IsRetryable(e: Error)
  {
    e.Failure? && !e.cancelled &&
    (e.unexpectedEOF || e.errno || e.network ||
     Contains(e.text, "connection reset") || Contains(e.text, "broken pipe") || Contains(e.text, "unexpected EOF"))
  }

  // ---------------------------------------------------------------- connections

  /** What one network read yields, and a connection as the list of its reads. A connection may break with
      or without data in hand, at any byte; after its last read it keeps returning the last error. */
  datatype Reply = Reply(data: Bytes, err: Error)

  datatype RawBody = RawBody(replies: seq<Reply>, last: Error)

  type Body = b: RawBody | b.last != Nil witness RawBody([], EOF)

  const READ_ON_CLOSED := Failure(false, false, false, false, "http: read on closed response body")

  function Closed(): Body { RawBody([], READ_ON_CLOSED) }

  /** Read into a buffer of n bytes. */
  function Chunk(b: Body, n: nat): Bytes
  {
    if b.replies == [] then []
    else if |b.replies[0].data| <= n then b.replies[0].data
    else b.replies[0].data[..n]
  }

  function ErrorOf(b: Body, n: nat): Error
  {
    if b.replies == [] then b.last
    else if |b.replies[0].data| <= n then b.replies[0].err
    else Nil
  }

  function After(b: Body, n: nat): Body
  {
    if b.replies == [] then b
    else
      var r := b.replies[0];
      if |r.data| <= n then b.(replies := b.replies[1..])
      else b.(replies := [Reply(r.data[n..], r.err)] + b.replies[1..])
  }

  function Content(replies: seq<Reply>): Bytes
  {
    if replies == [] then [] else replies[0].data + Content(replies[1..])
  }

  /** Reads still to come, counting each byte and each reply. */
  function Weight(replies: seq<Reply>): nat
  {
    if replies == [] then 0 else 1 + |replies[0].data| + Weight(replies[1..])
  }

  /** The connection serves the object from offset off on, as far as it gets. */
  ghost predicate Honest(file: Bytes, off: int, b: Body)
  {
    0 <= off <= |file| && Content(b.replies) <= file[off..]
  }

  /** The connection ends cleanly only when it has delivered at least need more bytes. */
  ghost predicate Truthful(replies: seq<Reply>, last: Error, need: int)
  {
    if replies == [] then last == EOF ==> need <= 0
    else
      && (replies[0].err == EOF ==> |replies[0].data| >= need)
      && Truthful(replies[1..], last, need - |replies[0].data|)
  }

  lemma {:induction false} TruthfulForLess(replies: seq<Reply>, last: Error, need: int, less: int)
    requires Truthful(replies, last, need) && less <= need
    ensures Truthful(replies, last, less)
  {
    if replies != [] {
      TruthfulForLess(replies[1..], last, need - |replies[0].data|, less - |replies[0].data|);
    }
  }

  /** One read advances an honest connection by what it returns. */
  lemma ReadAdvances(file: Bytes, off: int, b: Body, n: nat)
    requires Honest(file, off, b)
    ensures var c := Chunk(b, n);
      && off + |c| <= |file| && c == file[off..off + |c|] && |c| <= n
      && Honest(file, off + |c|, After(b, n))
  {
  }

  lemma ReadStaysTruthful(b: Body, n: nat, need: int)
    requires Truthful(b.replies, b.last, need)
    ensures After(b, n).last == b.last && Truthful(After(b, n).replies, b.last, need - |Chunk(b, n)|)
    ensures ErrorOf(b, n) == EOF ==> need - |Chunk(b, n)| <= 0
  {
  }

  // ---------------------------------------------------------------- reconnecting

  /** What a reconnect attempt meets: no connection, or a response. */
  datatype Response = NoResponse | Response(status: int, contentRange: string, body: Body)

  datatype Reconnected = Connected(body: Body) | FullyDelivered | Failed

  /** reconnectFn, once the request for the open-ended range from newStart has been sent. */
  function Reconnect(resp: Response, newStart: int): Reconnected
  {
    if resp.NoResponse? then Failed
    else if resp.status == 416 then
      if UnsatisfiedTotal(resp.contentRange) == Some(newStart) then FullyDelivered else Failed
    else if resp.status != 206 then Failed
    else Connected(resp.body)
  }

  /** The first byte of the stream a response carries, or None when it cannot be told and the response is
      left alone. */
  function OrigStart(status: int, contentRange: string, rangeHeader: string): Option<int>
  {
    if status != 206 then Some(0)
    else
      match ParseContentRangeStart(contentRange)
      case Some(start) => Some(start)
      case None =>
        match ParseRange(rangeHeader)
        case Some(range) => Some(range.start)
        case None => None
  }

  /** Only successful responses of requests that allow retries are wrapped. */
  function Wraps(status: int, contentRange: string, rangeHeader: string, maxRetries: int): Option<int>
  {
    if maxRetries <= 0 || (status != 200 && status != 206) then None
    else OrigStart(status, contentRange, rangeHeader)
  }

  /** Only successful responses of requests that allow retries are wrapped; the resume offset is anchored where the
      upstream says the stream starts, else where the request asked, and never on a suffix range. */
  lemma OrigStartIsServedStart(start: nat, rest: string, asked: nat, suffix: string, unsized: nat, maxRetries: int)
    requires start <= MAX_INT64 && asked <= MAX_INT64 && unsized <= MAX_INT64
    ensures maxRetries > 0 ==>
      && Wraps(206, "bytes " + Decimal(start) + "-" + rest, suffix, maxRetries) == Some(start)
      && Wraps(206, "bytes */" + Decimal(unsized), ResumeRange(asked), maxRetries) == Some(asked)
      && Wraps(206, "bytes */" + Decimal(unsized), "bytes=-" + suffix, maxRetries) == None
      && Wraps(200, rest, suffix, maxRetries) == Some(0)
    ensures forall status | maxRetries <= 0 || (status != 200 && status != 206) ::
      Wraps(status, rest, suffix, maxRetries) == None
  {
    ContentRangeReadsBack(start, rest);
    ResumeRangeReadsBack(asked);
    UnsatisfiedTotalReadsBack(unsized);
    SuffixRangeHasNoStart(suffix);
  }

  /** Every partial response serves the object from the byte it was asked for. */
  ghost predicate HonestUpstream(file: Bytes, upstream: (nat, int) -> Response)
  {
    forall attempt: nat, start: int ::
      var resp := upstream(attempt, start);
      resp.Response? && resp.status == 206 ==> Honest(file, start, resp.body)
  }

  /** Open-ended responses end cleanly only at the object's end, and a 416 tells the object's true size. */
  ghost predicate TruthfulUpstream(file: Bytes, upstream: (nat, int) -> Response)
  {
    forall attempt: nat, start: int ::
      var resp := upstream(attempt, start);
      && (resp.Response? && resp.status == 206 ==>
            Truthful(resp.body.replies, resp.body.last, |file| - start))
      && (resp.Response? && resp.status == 416 && UnsatisfiedTotal(resp.contentRange).Some? ==>
            UnsatisfiedTotal(resp.contentRange).value == |file|)
  }

  // ---------------------------------------------------------------- one read

  /** What a reader is made with, and what it remembers. */
  datatype Setup = Setup(expected: int, maxRetries: nat, origStart: int, upstream: (nat, int) -> Response)

  datatype Reader = Reader(body: Body, bytesRead: nat, retries: nat, closed: bool)

  datatype Result = Result(reader: Reader, chunk: Bytes, err: Error)

  /** Read into a buffer of n bytes. */
  function Next(c: Setup, r: Reader, n: nat): Result
  {
    if r.closed then Result(r, [], ClosedPipe)
    else
      var chunk, err := Chunk(r.body, n), ErrorOf(r.body, n);
      Handled(c, r.(body := After(r.body, n), bytesRead := r.bytesRead + |chunk|), n, chunk, err)
  }

  /** What follows from a read of the connection. */
  function Handled(c: Setup, r: Reader, n: nat, chunk: Bytes, err: Error): Result
  {
    if err == Nil || err == EOF then Result(r, chunk, err)
    else if chunk != [] then Result(r, chunk, Nil)
    else if !IsRetryable(err) then Result(r, [], err)
    else if c.expected >= 0 && r.bytesRead >= c.expected then Result(r, [], EOF)
    else if r.retries >= c.maxRetries then Result(r, [], err)
    else Resumed(c, r.(retries := r.retries + 1), n, err)
  }

  function Resumed(c: Setup, r: Reader, n: nat, broken: Error): Result
    requires r.retries > 0
  {
    var start := c.origStart + r.bytesRead;
    match Reconnect(c.upstream(r.retries - 1, start), start)
    case FullyDelivered => Result(r.(body := Closed()), [], EOF)
    case Failed => Result(r.(body := Closed()), [], broken)
    case Connected(b) =>
      Result(r.(body := After(b, n), bytesRead := r.bytesRead + |Chunk(b, n)|), Chunk(b, n), ErrorOf(b, n))
  }

  /** The read of the current connection fails with nothing in hand, in a way that may be worth a reconnect. */
  predicate Broken(r: Reader, n: nat)
  {
    !r.closed && Chunk(r.body, n) == [] && IsRetryable(ErrorOf(r.body, n))
  }

  /** The whole original response has been delivered, as far as its length is known. */
  predicate Complete(c: Setup, r: Reader)
  {
    c.expected >= 0 && r.bytesRead >= c.expected
  }

  /** A retry is used up exactly on a broken read of an incomplete stream while there is one; a broken read of a
      complete stream is its end; any other read passes on what the connection yields, but holds an error back while
      there is data. A read without an error has used up a retry or part of the connection. */
  lemma RetriesExactlyWhenBroken(c: Setup, r: Reader, n: nat)
    ensures var (t, chunk, err) := (Next(c, r, n).reader, Next(c, r, n).chunk, Next(c, r, n).err);
      && |chunk| <= n && t.closed == r.closed && (r.closed ==> chunk == [] && err == ClosedPipe)
      && t.retries == r.retries + (if Broken(r, n) && !Complete(c, r) && r.retries < c.maxRetries then 1 else 0)
      && (Broken(r, n) && Complete(c, r) ==> chunk == [] && err == EOF)
      && (!r.closed && !(Broken(r, n) && (Complete(c, r) || r.retries < c.maxRetries)) ==>
            && chunk == Chunk(r.body, n)
            && err == if chunk != [] && ErrorOf(r.body, n) != EOF then Nil else ErrorOf(r.body, n))
      && (err == Nil && n > 0 ==> t.retries > r.retries || Lighter(t.body, r.body))
  {
  }

  // ---------------------------------------------------------------- lost connections

  ghost predicate Mentions(s: string, part: string)
  {
    exists a, b :: s == a + part + b
  }

  lemma ContainsMentions(s: string, part: string)
    ensures Contains(s, part) <==> Mentions(s, part)
  {
    if Contains(s, part) {
      var i :| 0 <= i <= |s| && FoundAt(s, part, i);
      assert s == s[..i] + part + s[i + |part|..];
    }
    if Mentions(s, part) {
      var a, b :| s == a + part + b;
      assert FoundAt(s, part, |a|);
    }
  }

  /** The upstream pod is gone: the stream ended early, the connection failed or the network did, and the client has not
      gone away itself. */
  ghost predicate Lost(e: Error)
  {
    e.Failure? && !e.cancelled &&
    (e.unexpectedEOF || e.errno || e.network
     || Mentions(e.text, "connection reset") || Mentions(e.text, "broken pipe") || Mentions(e.text, "unexpected EOF"))
  }

  lemma RetryableIsLost(e: Error)
    ensures (IsRetryable(e) <==> Lost(e)) && (Lost(e) ==> e.Failure?)
  {
    if e.Failure? {
      ContainsMentions(e.text, "connection reset");
      ContainsMentions(e.text, "broken pipe");
      ContainsMentions(e.text, "unexpected EOF");
      hide Contains, Mentions;
    }
  }

  /** A read with nothing in hand on an incomplete stream with a retry left reconnects, at the byte where it broke,
      exactly when the connection was lost; any other error is passed on. */
  lemma ReconnectsIffLost(c: Setup, r: Reader, n: nat)
    requires !r.closed && Chunk(r.body, n) == [] && r.retries < c.maxRetries && !(0 <= c.expected <= r.bytesRead)
    ensures var e, start, t := ErrorOf(r.body, n), c.origStart + r.bytesRead, Next(c, r, n);
      && (t.reader.retries == r.retries + 1 <==> Lost(e))
      && (Lost(e) ==> match Reconnect(c.upstream(r.retries, start), start)
                      case Connected(b) => t.chunk == Chunk(b, n) && t.err == ErrorOf(b, n)
                      case FullyDelivered => t.chunk == [] && t.err == EOF
                      case Failed => t.chunk == [] && t.err == e)
      && (!Lost(e) ==> t.reader.retries == r.retries && t.chunk == [] && t.err == e)
  {
    RetryableIsLost(ErrorOf(r.body, n));
    hide IsRetryable, Lost, Reconnect;
  }

  /** A read with data in hand keeps its error back, unless the stream has ended; a lost connection is the end of a
      stream that has been delivered, and an error once the retries are used up. */
  lemma OtherReads(c: Setup, r: Reader, n: nat)
    requires !r.closed
    ensures var e, chunk, t := ErrorOf(r.body, n), Chunk(r.body, n), Next(c, r, n);
      && (e == Nil || e == EOF ==> t.chunk == chunk && t.err == e && t.reader.retries == r.retries)
      && (chunk != [] && e != EOF ==> t.chunk == chunk && t.err == Nil && t.reader.retries == r.retries)
      && (chunk == [] && Lost(e) && 0 <= c.expected <= r.bytesRead ==>
            t.chunk == [] && t.err == EOF && t.reader.retries == r.retries)
      && (chunk == [] && Lost(e) && !(0 <= c.expected <= r.bytesRead) && r.retries >= c.maxRetries ==>
            t.chunk == [] && t.err == e && t.reader.retries == r.retries)
  {
    RetryableIsLost(ErrorOf(r.body, n));
    hide IsRetryable, Lost, Resumed;
  }

  predicate Fine(e: Error) { e == Nil || e == EOF }

  /** The connection breaks only by being lost, or not at all. */
  ghost predicate OnlyLost(b: Body)
  {
    (Fine(b.last) || Lost(b.last)) && forall r | r in b.replies :: Fine(r.err) || Lost(r.err)
  }

  predicate Unbroken(b: Body)
  {
    Fine(b.last) && forall r | r in b.replies :: Fine(r.err)
  }

  /** Every reconnect is answered: with the true size at the object's end, else with a connection that yields something
      before it is lost; the last one that the retries allow is not lost. */
  ghost predicate Answered(c: Setup, size: nat, n: nat)
  {
    forall attempt: nat, start: int | attempt < c.maxRetries && 0 <= start <= size ::
      var resp := c.upstream(attempt, start);
      && resp.Response?
      && (if resp.status == 416 then UnsatisfiedTotal(resp.contentRange) == Some(start)
          else
            && resp.status == 206 && Fine(ErrorOf(resp.body, n)) && OnlyLost(resp.body)
            && (attempt == c.maxRetries - 1 ==> Unbroken(resp.body)))
  }

  /** Connections are lost no more often than there are retries. */
  ghost predicate Survives(c: Setup, r: Reader, size: nat, n: nat)
  {
    && !r.closed && r.retries <= c.maxRetries && OnlyLost(r.body) && Answered(c, size, n)
    && (r.retries == c.maxRetries ==> Unbroken(r.body))
  }

  lemma AfterReads(b: Body, n: nat)
    ensures OnlyLost(b) ==> OnlyLost(After(b, n)) && (Fine(ErrorOf(b, n)) || Lost(ErrorOf(b, n)))
    ensures Unbroken(b) ==> Unbroken(After(b, n)) && Fine(ErrorOf(b, n))
  {
    hide Lost;
  }

  lemma NextSurvives(c: Setup, r: Reader, size: nat, n: nat)
    requires Survives(c, r, size, n) && 0 <= c.origStart && c.origStart + r.bytesRead <= size
    ensures var t := Next(c, r, n); Fine(t.err) && (t.err == Nil ==> Survives(c, t.reader, size, n))
  {
    var start := c.origStart + r.bytesRead;
    AfterReads(r.body, n);
    RetryableIsLost(ErrorOf(r.body, n));
    hide Lost, IsRetryable, OnlyLost, Unbroken, Chunk, After, ErrorOf, UnsatisfiedTotal;
    if r.retries < c.maxRetries {
      var resp := c.upstream(r.retries, start);
      assert Answered(c, size, n);
      assert resp.Response?;
      if resp.status == 206 { AfterReads(resp.body, n); }
    }
  }

  // ---------------------------------------------------------------- the reader

  class RetryingReader {
    var body: Body
    var bytesRead: nat
    const expected: int
    const maxRetries: nat
    var retries: nat
    var closed: bool
    const origStart: int
    const upstream: (nat, int) -> Response

    ghost const file: Bytes
    ghost const windowEnd: int
    ghost var delivered: Bytes

    /** What has been delivered is the object from origStart on, with no gap and no repeat, and the current
        connection goes on from there. */
    ghost predicate Valid()
      reads this
    {
      && bytesRead == |delivered| && retries <= maxRetries
      && 0 <= origStart && origStart + bytesRead <= |file|
      && delivered == file[origStart..origStart + bytesRead]
      && Honest(file, origStart + bytesRead, body)
      && HonestUpstream(file, upstream)
    }

    /** Besides, clean ends are truthful; the original response was to serve up to windowEnd. */
    ghost predicate TruthfulSoFar()
      reads this
    {
      && origStart <= windowEnd <= |file| && (expected >= 0 ==> windowEnd == origStart + expected)
      && TruthfulUpstream(file, upstream)
      && Truthful(body.replies, body.last, windowEnd - (origStart + bytesRead))
    }

    constructor (body: Body, expected: int, maxRetries: nat, origStart: int, upstream: (nat, int) -> Response,
                 ghost file: Bytes, ghost windowEnd: int)
      requires Honest(file, origStart, body) && HonestUpstream(file, upstream)
      ensures Valid() && delivered == [] && retries == 0 && !closed
      ensures this.body == body && this.expected == expected && this.maxRetries == maxRetries
      ensures this.origStart == origStart && this.upstream == upstream
      ensures this.file == file && this.windowEnd == windowEnd
    {
      this.body, this.expected, this.maxRetries, this.origStart := body, expected, maxRetries, origStart;
      this.upstream, this.file, this.windowEnd := upstream, file, windowEnd;
      bytesRead, retries, closed, delivered := 0, 0, false, [];
    }

    /** One read of the current connection. */
    method ReadBody(n: nat) returns (chunk: Bytes, err: Error)
      requires Valid()
      modifies this`body, this`bytesRead, this`delivered
      ensures Valid() && delivered == old(delivered) + chunk
      ensures chunk == Chunk(old(body), n) && err == ErrorOf(old(body), n)
      ensures State() == old(State()).(body := After(old(body), n), bytesRead := old(bytesRead) + |chunk|)
      ensures old(TruthfulSoFar()) ==> TruthfulSoFar() && (err == EOF ==> WindowDelivered())
    {
      hide Honest, Chunk, After, ErrorOf, Truthful;
      ReadAdvances(file, origStart + bytesRead, body, n);
      if TruthfulSoFar() {
        ReadStaysTruthful(body, n, windowEnd - (origStart + bytesRead));
      }
      chunk, err := Chunk(body, n), ErrorOf(body, n);
      body := After(body, n);
      assert delivered + chunk == file[origStart..origStart + bytesRead + |chunk|];
      bytesRead := bytesRead + |chunk|;
      delivered := delivered + chunk;
    }

    ghost function Setting(): Setup { Setup(expected, maxRetries, origStart, upstream) }

    ghost function State(): Reader
      reads this
    {
      Reader(body, bytesRead, retries, closed)
    }

    ghost predicate WindowDelivered()
      reads this
    {
      origStart + bytesRead >= windowEnd
    }

    lemma CompleteIsDelivered()
      requires TruthfulSoFar() && expected >= 0 && bytesRead >= expected
      ensures WindowDelivered()
    {
    }

    /** Read into a buffer of n bytes. */
    method Read(n: nat) returns (chunk: Bytes, err: Error)
      requires Valid()
      modifies this
      ensures Result(State(), chunk, err) == Next(Setting(), old(State()), n)
      ensures Valid() && delivered == old(delivered) + chunk
      ensures old(TruthfulSoFar()) ==> TruthfulSoFar() && (err == EOF ==> WindowDelivered())
    {
      if closed {
        return [], ClosedPipe;
      }
      hide Chunk, ErrorOf, After, Handled;
      ghost var truthful := TruthfulSoFar();
      var got, outcome := ReadBody(n);
      hide Valid, TruthfulSoFar, WindowDelivered;
      chunk, err := Handle(n, got, outcome, truthful);
    }

    /** The rest of Read, on what the connection has yielded. */
    method Handle(n: nat, got: Bytes, outcome: Error, ghost truthful: bool) returns (chunk: Bytes, err: Error)
      requires Valid() && (truthful ==> TruthfulSoFar() && (outcome == EOF ==> WindowDelivered()))
      modifies this
      ensures Result(State(), chunk, err) == Handled(Setting(), old(State()), n, got, outcome)
      ensures Valid() &&
        if got == [] then delivered == old(delivered) + chunk else chunk == got && delivered == old(delivered)
      ensures truthful ==> TruthfulSoFar() && (err == EOF ==> WindowDelivered())
    {
      hide IsRetryable, Resumed, Valid, TruthfulSoFar, WindowDelivered;
      if outcome == Nil || outcome == EOF {
        return got, outcome;
      }
      if |got| > 0 {
        return got, Nil;
      }
      if !IsRetryable(outcome) {
        return [], outcome;
      }
      if expected >= 0 && bytesRead >= expected {
        if truthful { CompleteIsDelivered(); }
        return [], EOF;
      }
      if retries >= maxRetries {
        return [], outcome;
      }
      chunk, err := Resume(n, outcome);
    }

    /** Closes the broken connection and goes on with a new one from bytesRead. Whatever the first read of the
        new connection returns goes to the caller as it is. */
    method Resume(n: nat, broken: Error) returns (chunk: Bytes, err: Error)
      requires Valid() && retries < maxRetries && broken != EOF
      modifies this
      ensures Result(State(), chunk, err) == Resumed(Setting(), old(State()).(retries := old(retries) + 1), n, broken)
      ensures Valid() && delivered == old(delivered) + chunk && |chunk| <= n && closed == old(closed)
      ensures retries == old(retries) + 1
      ensures old(TruthfulSoFar()) ==> TruthfulSoFar() && (err == EOF ==> WindowDelivered())
    {
      hide Chunk, After, ErrorOf, Honest, Truthful, UnsatisfiedTotal;
      Swap(Closed(), 0);
      var newStart := origStart + bytesRead;
      var outcome := Reconnect(upstream(retries, newStart), newStart);
      retries := retries + 1;
      match outcome {
        case FullyDelivered =>
          return [], EOF;
        case Failed =>
          return [], broken;
        case Connected(newBody) =>
          Swap(newBody, retries - 1);
          ReadShort(body, n);
          chunk, err := ReadBody(n);
      }
    }

    /** Goes on with a new connection, either closed or an open-ended one from the current position. */
    method Swap(newBody: Body, ghost attempt: nat)
      requires Valid()
      requires newBody == Closed() ||
        var resp := upstream(attempt, origStart + bytesRead);
        resp.Response? && resp.status == 206 && resp.body == newBody
      modifies this`body
      ensures Valid() && body == newBody && (old(TruthfulSoFar()) ==> TruthfulSoFar())
    {
      var newStart := origStart + bytesRead;
      if newBody != Closed() && TruthfulSoFar() {
        TruthfulForLess(newBody.replies, newBody.last, |file| - newStart, windowEnd - newStart);
      }
      body := newBody;
    }

    method Close()
      requires Valid()
      modifies this`closed, this`body
      ensures Valid() && closed
    {
      closed := true;
      body := Closed();
    }

    /** One more read of a consumer. */
    method ReadOn(n: nat) returns (chunk: Bytes, err: Error)
      requires Valid() && n > 0
      modifies this
      ensures Valid() && delivered == old(delivered) + chunk
      ensures old(TruthfulSoFar()) ==> TruthfulSoFar() && (err == EOF ==> WindowDelivered())
      ensures Survives(Setting(), old(State()), |file|, n) ==>
        Fine(err) && (err == Nil ==> Survives(Setting(), State(), |file|, n))
      ensures retries >= old(retries) && (err == Nil && retries == old(retries) ==> Lighter(body, old(body)))
    {
      RetriesExactlyWhenBroken(Setting(), State(), n);
      if Survives(Setting(), State(), |file|, n) { NextSurvives(Setting(), State(), |file|, n); }
      hide *;
      chunk, err := Read(n);
    }

    /** Reads until an error: the loop of every consumer. It ends, because every read either uses up a retry or
        lightens the current connection. Connections that are only ever lost, no more often than there are retries, do
        not keep it from the end of the stream. */
    method Drain(n: nat) returns (all: Bytes, err: Error)
      requires Valid() && n > 0
      modifies this
      ensures Valid() && delivered == old(delivered) + all && err != Nil
      ensures all == file[origStart + old(bytesRead)..][..|all|]
      ensures old(TruthfulSoFar()) && err == EOF ==>
        windowEnd - origStart <= |delivered| && delivered[..windowEnd - origStart] == file[origStart..windowEnd]
      ensures Survives(Setting(), old(State()), |file|, n) ==> err == EOF
    {
      ghost var survives := Survives(Setting(), State(), |file|, n);
      hide Survives, Honest, HonestUpstream, TruthfulUpstream, Truthful;
      all, err := [], Nil;
      while err == Nil
        invariant Valid() && delivered == old(delivered) + all
        invariant old(TruthfulSoFar()) ==> TruthfulSoFar() && (err == EOF ==> WindowDelivered())
        invariant survives ==> Fine(err) && (err == Nil ==> Survives(Setting(), State(), |file|, n))
        decreases err == Nil, maxRetries - retries, Weight(body.replies)
      {
        var chunk;
        chunk, err := ReadOn(n);
        all := all + chunk;
      }
      assert all == delivered[old(bytesRead)..];
    }
  }

  /** b has fewer bytes and replies to come than was. */
  ghost predicate Lighter(b: Body, was: Body) { Weight(b.replies) < Weight(was.replies) }

  lemma ReadShort(b: Body, n: nat)
    ensures |Chunk(b, n)| <= n
  {
  }

  // ---------------------------------------------------------------- past the end of a bounded range

  /** The reader after reads into buffers of the given sizes. */
  function Reads(c: Setup, r: Reader, sizes: seq<nat>): Reader
  {
    if sizes == [] then r
    else
      var n := |sizes| - 1;
      Next(c, Reads(c, r, sizes[..n]), sizes[n]).reader
  }

  /** A reader of a response of known length never delivers more than that. */
  ghost predicate StaysWithin(file: Bytes, c: Setup, body: Body, sizes: seq<nat>)
  {
    && 0 <= c.origStart && 0 <= c.expected && c.origStart + c.expected <= |file|
    && Content(body.replies) <= file[c.origStart..c.origStart + c.expected] && HonestUpstream(file, c.upstream) ==>
      Reads(c, Reader(body, 0, 0, false), sizes).bytesRead <= c.expected
  }

  /** What has been read and what the connection still holds stay within the first bytes of the object. */
  ghost predicate Bounded(file: Bytes, c: Setup, r: Reader, all: int)
  {
    r.bytesRead + |Content(r.body.replies)| <= all
  }

  lemma NextBounded(file: Bytes, c: Setup, r: Reader, n: nat, all: int)
    requires 0 <= c.origStart && HonestUpstream(file, c.upstream) && Bounded(file, c, r, all)
    requires c.maxRetries == 0 || c.expected == 0 || all == |file| - c.origStart
    ensures Bounded(file, c, Next(c, r, n).reader, all)
  {
  }

  lemma {:induction false} ReadsBounded(file: Bytes, c: Setup, r: Reader, sizes: seq<nat>, all: int)
    requires 0 <= c.origStart && HonestUpstream(file, c.upstream) && Bounded(file, c, r, all)
    requires c.maxRetries == 0 || c.expected == 0 || all == |file| - c.origStart
    ensures Bounded(file, c, Reads(c, r, sizes), all)
  {
    hide Next, HonestUpstream, Bounded;
    if sizes != [] {
      var n := |sizes| - 1;
      ReadsBounded(file, c, r, sizes[..n], all);
      NextBounded(file, c, Reads(c, r, sizes[..n]), sizes[n], all);
    }
  }

  /** An upstream that serves the whole object from every offset. */
  function WholeFile(file: Bytes): (nat, int) -> Response
  {
    (attempt: nat, start: int) =>
      if 0 <= start <= |file| then Response(206, "", RawBody([Reply(file[start..], EOF)], EOF)) else NoResponse
  }

  const RESET := Failure(false, false, true, false, "")

  lemma WholeFileHonest(file: Bytes)
    ensures HonestUpstream(file, WholeFile(file))
  {
    forall start: int | 0 <= start <= |file| ensures Honest(file, start, RawBody([Reply(file[start..], EOF)], EOF)) {
      assert Content([]) == [] && file[start..] + [] == file[start..];
    }
  }

  /** One broken connection, and the reconnect delivers everything up to the end of the object. */
  lemma ReadsToTheEnd(file: Bytes, c: Setup)
    requires 0 <= c.origStart < c.origStart + c.expected < |file| && c.maxRetries > 0 && c.upstream == WholeFile(file)
    ensures Reads(c, Reader(RawBody([], RESET), 0, 0, false), [|file|]).bytesRead == |file| - c.origStart
  {
  }

  /** No upstream, no body and no reads deliver more than the response announced exactly when it reached up to the
      object's end, announced nothing, or allows no retry: a reconnect asks for everything from its offset on. */
  lemma StaysWithinIff(file: Bytes, expected: int, maxRetries: nat, origStart: int)
    requires 0 <= origStart && 0 <= expected && origStart + expected <= |file|
    ensures (forall body: Body, upstream: (nat, int) -> Response, sizes: seq<nat> ::
               StaysWithin(file, Setup(expected, maxRetries, origStart, upstream), body, sizes))
       <==> origStart + expected == |file| || expected == 0 || maxRetries == 0
  {
    if origStart + expected == |file| || expected == 0 || maxRetries == 0 {
      forall body: Body, upstream: (nat, int) -> Response, sizes: seq<nat>
        ensures StaysWithin(file, Setup(expected, maxRetries, origStart, upstream), body, sizes)
      {
        var c := Setup(expected, maxRetries, origStart, upstream);
        if Content(body.replies) <= file[origStart..origStart + expected] && HonestUpstream(file, upstream) {
          ReadsBounded(file, c, Reader(body, 0, 0, false), sizes, expected);
        }
      }
    } else {
      var c := Setup(expected, maxRetries, origStart, WholeFile(file));
      WholeFileHonest(file);
      ReadsToTheEnd(file, c);
      assert !StaysWithin(file, c, RawBody([], RESET), [|file|]);
    }
  }
}
