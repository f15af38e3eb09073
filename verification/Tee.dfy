/** The streaming tee: a body handed to a reader while the same bytes go into a
    cache writer. Upstream, writer and finalize results are chosen by an
    adversary, one script per poll. */
module Tee {
  import opened Wrappers
  import opened Text
  import opened Http

  datatype WritePoll = WritePending | WriteError | Wrote(n: nat)
  datatype ReadPoll = ReadPending | ReadError | Read(n: nat)
  datatype FinalizePoll = FinalizePending | FinalizeReady(ok: bool)

  // Everything the outside decides during one `poll_read`.
  datatype PollIo = PollIo(
    bufLen: nat,
    resumed: FinalizePoll,
    drain: seq<WritePoll>,
    read: ReadPoll,
    write: WritePoll,
    finalize: FinalizePoll)

  datatype PollResult = Pending | Failed | Ready(bytes: Bytes)

  // The body still to come, and the trailers behind it.
  datatype Upstream = Upstream(rest: Bytes, trailers: Option<Headers>)

  // What was passed to `finalize`.
  datatype Finalized = Finalized(bytes: Bytes, trailers: Option<Headers>)

  datatype Writer = Writer(accepted: Bytes, finalized: Option<Finalized>)

  datatype TeeState = Active | Aborted | Finalizing | Done

  datatype Tee = Tee(
    upstream: Upstream,
    state: TeeState,
    cap: nat,
    bytesWritten: nat,
    pending: Bytes,
    trailers: Option<Headers>,
    writer: Writer)

  function NewTee(body: Bytes, trailers: Option<Headers>, cap: nat): Tee {
    Tee(Upstream(body, trailers), Active, cap, 0, [], None, Writer([], None))
  }

  function Min(a: nat, b: nat): nat {
    if a < b then a else b
  }

  function SaturatingAdd(a: nat, b: nat): nat {
    Min(a + b, U64_MAX)
  }

  // A read yields nothing at the end of the body or into an empty buffer, and
  // otherwise at least one byte.
  function ReadCount(u: Upstream, bufLen: nat, n: nat): (r: nat)
    ensures r <= |u.rest| && r <= bufLen
    ensures r == 0 <==> u.rest == [] || bufLen == 0
  {
    var room := Min(bufLen, |u.rest|);
    if room == 0 then 0 else if n == 0 then 1 else Min(n, room)
  }

  function Abort(t: Tee): Tee {
    t.(state := Aborted, pending := [])
  }

  // Offer bytes to the writer: how many it takes, none meaning refusal.
  function Accept(t: Tee, bytes: Bytes, n: nat): Tee {
    t.(writer := t.writer.(accepted := t.writer.accepted + bytes[..Min(n, |bytes|)]))
  }

  function Drain(t: Tee, polls: seq<WritePoll>): (Tee, bool)
    decreases |polls|
  {
    if t.pending == [] then (t, true)
    else if !t.state.Active? then (t.(pending := []), true)
    else if polls == [] then (t, false)
    else match polls[0] {
      case WritePending => (t, false)
      case WriteError => Drain(Abort(t), polls[1..])
      case Wrote(n) =>
        if n == 0 then Drain(Abort(t), polls[1..])
        else Drain(Accept(t, t.pending, n).(pending := t.pending[Min(n, |t.pending|)..]), polls[1..])
    }
  }

  // End of body: hand the trailers and the accepted bytes to `finalize`.
  function AtEof(t: Tee, io: PollIo): (Tee, PollResult) {
    if !t.state.Active? then (t, Ready([]))
    else
      var trailers := if t.upstream.rest == [] then t.upstream.trailers else None;
      var done := t.(trailers := trailers,
                     writer := t.writer.(finalized := Some(Finalized(t.writer.accepted, trailers))));
      if io.finalize.FinalizePending? then (done.(state := Finalizing), Pending)
      else (done.(state := Done), Ready([]))
  }

  function TeeChunk(t: Tee, chunk: Bytes, write: WritePoll): Tee {
    if !t.state.Active? then t
    else if SaturatingAdd(t.bytesWritten, |chunk|) > t.cap then Abort(t)
    else match write {
      case WriteError => Abort(t)
      case WritePending =>
        t.(bytesWritten := t.bytesWritten + |chunk|, pending := t.pending + chunk)
      case Wrote(n) =>
        if n == 0 then Abort(t)
        else
          Accept(t, chunk, n).(bytesWritten := t.bytesWritten + |chunk|,
                               pending := t.pending + chunk[Min(n, |chunk|)..])
    }
  }

  function ReadOn(t: Tee, io: PollIo): (Tee, PollResult) {
    match io.read {
      case ReadPending => (t, Pending)
      case ReadError => (t, Failed)
      case Read(n) =>
        var n := ReadCount(t.upstream, io.bufLen, n);
        if n == 0 then AtEof(t, io)
        else
          var chunk := t.upstream.rest[..n];
          var t := t.(upstream := t.upstream.(rest := t.upstream.rest[n..]));
          (TeeChunk(t, chunk, io.write), Ready(chunk))
    }
  }

  function Poll(t: Tee, io: PollIo): (Tee, PollResult) {
    if t.state.Finalizing? && io.resumed.FinalizePending? then (t, Pending)
    else if t.state.Finalizing? || t.state.Done? then (t.(state := Done), Ready([]))
    else
      var (t, drained) := Drain(t, io.drain);
      if drained then ReadOn(t, io) else (t, Pending)
  }

  // The reader object, with the fields and the drain loop of the source.
  class TeeingReader {
    var upstream: Upstream
    var state: TeeState
    var cap: nat
    var bytesWritten: nat
    var pending: Bytes
    var trailers: Option<Headers>
    var writer: Writer

    ghost function View(): Tee
      reads this
    {
      Tee(upstream, state, cap, bytesWritten, pending, trailers, writer)
    }

    constructor (body: Bytes, bodyTrailers: Option<Headers>, cap: nat)
      ensures View() == NewTee(body, bodyTrailers, cap)
    {
      upstream := Upstream(body, bodyTrailers);
      state := Active;
      this.cap := cap;
      bytesWritten := 0;
      pending := [];
      trailers := None;
      writer := Writer([], None);
    }

    method AbortWrite()
      modifies this
      ensures View() == Abort(old(View()))
    {
      state := Aborted;
      pending := [];
    }

    method DrainPending(polls: seq<WritePoll>) returns (drained: bool)
      modifies this
      ensures (View(), drained) == Drain(old(View()), polls)
    {
      var i := 0;
      while pending != []
        invariant 0 <= i <= |polls|
        invariant Drain(View(), polls[i..]) == Drain(old(View()), polls)
        decreases |polls| - i, |pending|
      {
        if !state.Active? {
          pending := [];
          break;
        }
        if i == |polls| { return false; }
        var poll := polls[i];
        assert polls[i..][0] == poll && polls[i..][1..] == polls[i + 1..];
        i := i + 1;
        match poll {
          case WritePending => return false;
          case WriteError => AbortWrite();
          case Wrote(n) =>
            if n == 0 {
              AbortWrite();
            } else {
              var taken := Min(n, |pending|);
              writer := writer.(accepted := writer.accepted + pending[..taken]);
              pending := pending[taken..];
            }
        }
      }
      drained := true;
    }

    method PollRead(io: PollIo) returns (r: PollResult)
      modifies this
      ensures (View(), r) == Poll(old(View()), io)
    {
      if state.Finalizing? {
        if io.resumed.FinalizePending? { return Pending; }
        state := Done;
      }
      if state.Done? { return Ready([]); }
      var drained := DrainPending(io.drain);
      if !drained { return Pending; }
      match io.read {
        case ReadPending => return Pending;
        case ReadError => return Failed;
        case Read(wanted) =>
          var n := ReadCount(upstream, io.bufLen, wanted);
          if n == 0 {
            if state.Active? {
              trailers := if upstream.rest == [] then upstream.trailers else None;
              writer := writer.(finalized := Some(Finalized(writer.accepted, trailers)));
              state := Finalizing;
              if io.finalize.FinalizePending? { return Pending; }
              state := Done;
            }
            return Ready([]);
          }
          var chunk := upstream.rest[..n];
          upstream := upstream.(rest := upstream.rest[n..]);
          if state.Active? {
            if SaturatingAdd(bytesWritten, n) > cap {
              AbortWrite();
            } else {
              match io.write {
                case WriteError => AbortWrite();
                case WritePending =>
                  bytesWritten := bytesWritten + n;
                  pending := pending + chunk;
                case Wrote(k) =>
                  if k == 0 {
                    AbortWrite();
                  } else {
                    var taken := Min(k, n);
                    writer := writer.(accepted := writer.accepted + chunk[..taken]);
                    bytesWritten := bytesWritten + n;
                    pending := pending + chunk[taken..];
                  }
              }
            }
          }
          return Ready(chunk);
      }
    }
  }

  // ---- Whole runs ----

  function Handed(r: PollResult): Bytes {
    if r.Ready? then r.bytes else []
  }

  // The tee after a sequence of polls, and everything the reader was handed.
  function Run(t: Tee, ios: seq<PollIo>): (Tee, Bytes) {
    if ios == [] then (t, [])
    else
      var n := |ios| - 1;
      var (mid, got) := Run(t, ios[..n]);
      var (end, r) := Poll(mid, ios[n]);
      (end, got + Handed(r))
  }

  function Fits(n: nat, cap: nat): bool {
    Min(n, U64_MAX) <= cap
  }

  // What holds of a tee that has handed out `got` of `body`.
  ghost predicate Inv(t: Tee, body: Bytes, got: Bytes) {
    && got + t.upstream.rest == body
    && (t.state.Active? ==>
          && t.writer.accepted + t.pending == got
          && t.bytesWritten == |got|
          && Fits(|got|, t.cap))
    && (t.state.Active? || t.state.Aborted? ==> t.writer.finalized.None? && t.trailers.None?)
    && (t.state.Aborted? ==> t.pending == [])
    && (t.state.Finalizing? || t.state.Done? ==>
          && t.pending == []
          && Fits(|got|, t.cap)
          && t.writer.finalized == Some(Finalized(got, t.trailers)))
  }

  lemma {:induction false} DrainKeepsInv(t: Tee, polls: seq<WritePoll>, body: Bytes, got: Bytes)
    requires Inv(t, body, got) && (t.state.Active? || t.state.Aborted?)
    ensures var (t', drained) := Drain(t, polls);
            && Inv(t', body, got)
            && t'.upstream == t.upstream && t'.cap == t.cap
            && (t'.state == t.state || t'.state.Aborted?)
            && (drained ==> t'.pending == [])
    decreases |polls|
  {
    if t.pending != [] && polls != [] {
      if polls[0].WriteError? || (polls[0].Wrote? && polls[0].n == 0) {
        DrainKeepsInv(Abort(t), polls[1..], body, got);
      } else if polls[0].Wrote? {
        var k := Min(polls[0].n, |t.pending|);
        assert t.pending == t.pending[..k] + t.pending[k..];
        DrainKeepsInv(Accept(t, t.pending, polls[0].n).(pending := t.pending[k..]), polls[1..],
                      body, got);
      }
    }
  }

  lemma TeeChunkKeepsInv(t: Tee, chunk: Bytes, write: WritePoll, body: Bytes, got: Bytes)
    requires Inv(t.(upstream := t.upstream.(rest := chunk + t.upstream.rest)), body, got)
    requires (t.state.Active? || t.state.Aborted?) && t.pending == []
    ensures var t' := TeeChunk(t, chunk, write);
            Inv(t', body, got + chunk) && t'.upstream == t.upstream && t'.cap == t.cap
  {
    assert got + (chunk + t.upstream.rest) == (got + chunk) + t.upstream.rest;
    if write.Wrote? {
      assert chunk == chunk[..Min(write.n, |chunk|)] + chunk[Min(write.n, |chunk|)..];
    }
  }

  lemma ReadOnKeepsInv(t: Tee, io: PollIo, body: Bytes, got: Bytes)
    requires Inv(t, body, got) && (t.state.Active? || t.state.Aborted?) && t.pending == []
    ensures var (t', r) := ReadOn(t, io);
            Inv(t', body, got + Handed(r)) && t'.cap == t.cap
  {
    assert got + [] == got && t.writer.accepted + [] == t.writer.accepted;
    if io.read.Read? {
      var n := ReadCount(t.upstream, io.bufLen, io.read.n);
      if n > 0 {
        var chunk := t.upstream.rest[..n];
        assert t.upstream.rest == chunk + t.upstream.rest[n..];
        TeeChunkKeepsInv(t.(upstream := t.upstream.(rest := t.upstream.rest[n..])), chunk,
                         io.write, body, got);
      }
    }
  }

  lemma PollKeepsInv(t: Tee, io: PollIo, body: Bytes, got: Bytes)
    requires Inv(t, body, got)
    ensures var (t', r) := Poll(t, io); Inv(t', body, got + Handed(r)) && t'.cap == t.cap
  {
    assert got + [] == got;
    if t.state.Active? || t.state.Aborted? {
      DrainKeepsInv(t, io.drain, body, got);
      var (mid, drained) := Drain(t, io.drain);
      if drained {
        ReadOnKeepsInv(mid, io, body, got);
      }
    }
  }

  // For every sequence of poll outcomes the reader gets the upstream bytes in
  // order and nothing else, and whatever reaches `finalize` is exactly what the
  // reader got.
  lemma {:induction false} TeeIsTransparent(
    body: Bytes, trailers: Option<Headers>, cap: nat, ios: seq<PollIo>)
    ensures var (t, got) := Run(NewTee(body, trailers, cap), ios);
            && Inv(t, body, got)
            && t.cap == cap
            && got <= body
            && (t.writer.finalized.Some? ==> t.writer.finalized.value.bytes == got)
  {
    var start := NewTee(body, trailers, cap);
    if ios == [] {
      assert [] + body == body;
    } else {
      var n := |ios| - 1;
      TeeIsTransparent(body, trailers, cap, ios[..n]);
      var (mid, got) := Run(start, ios[..n]);
      PollKeepsInv(mid, ios[n], body, got);
    }
    var (t, got) := Run(start, ios);
    assert (got + t.upstream.rest)[..|got|] == got;
  }

  // Once aborted, always aborted, and nothing is ever finalized.
  lemma {:induction false} AbortedForever(t: Tee, ios: seq<PollIo>)
    requires t.state.Aborted? && t.writer.finalized.None?
    ensures Run(t, ios).0.state.Aborted? && Run(t, ios).0.writer == t.writer
  {
    if ios != [] {
      AbortedForever(t, ios[..|ios| - 1]);
    }
  }

  // ---- Complete bodies ----

  predicate NonEmptyBuffers(ios: seq<PollIo>) {
    forall i :: 0 <= i < |ios| ==> ios[i].bufLen > 0
  }

  // The poll that finalizes stores the whole body, with its trailers, exactly
  // when the body is used up; and with a non-empty buffer it always is. A
  // zero-length buffer before the end passes for the end.
  lemma FinalizingPollIff(t: Tee, io: PollIo, body: Bytes, got: Bytes)
    requires Inv(t, body, got) && t.state.Active?
    requires Poll(t, io).0.writer.finalized.Some?
    ensures var f := Poll(t, io).0.writer.finalized.value;
            && (f.bytes == body <==> t.upstream.rest == [])
            && (t.upstream.rest == [] ==> f == Finalized(body, t.upstream.trailers))
            && (io.bufLen > 0 ==> t.upstream.rest == [])
  {
    DrainKeepsInv(t, io.drain, body, got);
    var (mid, _) := Drain(t, io.drain);
    assert mid.pending == [];
    assert mid.writer.accepted + [] == got;
  }

  // The truncation really happens: one poll with an empty buffer.
  lemma EmptyBufferTruncates(body: Bytes, trailers: Option<Headers>, cap: nat, io: PollIo)
    requires body != [] && io.bufLen == 0 && io.read.Read?
    ensures Poll(NewTee(body, trailers, cap), io).0.writer.finalized == Some(Finalized([], None))
  {
  }

  ghost predicate Whole(t: Tee, body: Bytes, trailers: Option<Headers>) {
    && t.upstream.trailers == trailers
    && (t.writer.finalized.Some? ==> t.writer.finalized.value == Finalized(body, trailers))
  }

  lemma {:induction false} DrainKeepsWriter(t: Tee, polls: seq<WritePoll>)
    ensures var (t', _) := Drain(t, polls);
            t'.upstream == t.upstream && t'.writer.finalized == t.writer.finalized
    decreases |polls|
  {
    if t.pending != [] && t.state.Active? && polls != [] {
      if polls[0].WriteError? || (polls[0].Wrote? && polls[0].n == 0) {
        DrainKeepsWriter(Abort(t), polls[1..]);
      } else if polls[0].Wrote? {
        var k := Min(polls[0].n, |t.pending|);
        DrainKeepsWriter(Accept(t, t.pending, polls[0].n).(pending := t.pending[k..]), polls[1..]);
      }
    }
  }

  // With non-empty buffers, only the complete body is ever finalized.
  lemma {:induction false} OnlyWholeBodiesFinalize(
    body: Bytes, trailers: Option<Headers>, cap: nat, ios: seq<PollIo>)
    requires NonEmptyBuffers(ios)
    ensures Whole(Run(NewTee(body, trailers, cap), ios).0, body, trailers)
  {
    if ios != [] {
      var n := |ios| - 1;
      OnlyWholeBodiesFinalize(body, trailers, cap, ios[..n]);
      TeeIsTransparent(body, trailers, cap, ios[..n]);
      var (mid, got) := Run(NewTee(body, trailers, cap), ios[..n]);
      DrainKeepsWriter(mid, ios[n].drain);
      if mid.state.Active? && Poll(mid, ios[n]).0.writer.finalized.Some? {
        FinalizingPollIff(mid, ios[n], body, got);
      }
    }
  }

  // ---- Independence from chunking ----

  // A writer that may stall or take less than offered, but never refuses.
  predicate Reliable(w: WritePoll) {
    w.WritePending? || (w.Wrote? && w.n > 0)
  }

  predicate ReliableIo(io: PollIo) {
    && io.bufLen > 0
    && Reliable(io.write)
    && forall i :: 0 <= i < |io.drain| ==> Reliable(io.drain[i])
  }

  lemma {:induction false} ReliableDrain(t: Tee, polls: seq<WritePoll>)
    requires forall i :: 0 <= i < |polls| ==> Reliable(polls[i])
    ensures Drain(t, polls).0.state == t.state && Drain(t, polls).0.cap == t.cap
    decreases |polls|
  {
    if t.pending != [] && t.state.Active? && polls != [] && polls[0].Wrote? {
      var k := Min(polls[0].n, |t.pending|);
      ReliableDrain(Accept(t, t.pending, polls[0].n).(pending := t.pending[k..]), polls[1..]);
    }
  }

  lemma ReliablePoll(t: Tee, io: PollIo, body: Bytes, got: Bytes)
    requires Inv(t, body, got) && ReliableIo(io)
    requires t.state.Aborted? ==> !Fits(|got|, t.cap)
    ensures var (t', r) := Poll(t, io);
            && (t'.state.Aborted? ==> !Fits(|got + Handed(r)|, t.cap))
            && (r == Ready([]) ==>
                  if t'.state.Aborted? then got == body else t'.state.Done?)
  {
    if t.state.Active? || t.state.Aborted? {
      ReliableDrain(t, io.drain);
      DrainKeepsInv(t, io.drain, body, got);
      assert got + [] == got;
    }
  }

  lemma {:induction false} ReliableRun(
    body: Bytes, trailers: Option<Headers>, cap: nat, ios: seq<PollIo>)
    requires forall i :: 0 <= i < |ios| ==> ReliableIo(ios[i])
    ensures var (t, got) := Run(NewTee(body, trailers, cap), ios);
            t.state.Aborted? ==> !Fits(|got|, cap)
  {
    if ios != [] {
      var n := |ios| - 1;
      ReliableRun(body, trailers, cap, ios[..n]);
      TeeIsTransparent(body, trailers, cap, ios[..n]);
      var (mid, got) := Run(NewTee(body, trailers, cap), ios[..n]);
      ReliablePoll(mid, ios[n], body, got);
    }
  }

  // What a store ends up with, whichever way the body was copied into it.
  function StoredOutcome(body: Bytes, trailers: Option<Headers>, cap: nat): Option<Finalized> {
    if Fits(|body|, cap) then Some(Finalized(body, trailers)) else None
  }

  // The writer never refuses and the last poll reports the end.
  predicate ReadToEnd(body: Bytes, trailers: Option<Headers>, cap: nat, ios: seq<PollIo>) {
    && ios != [] && (forall i :: 0 <= i < |ios| ==> ReliableIo(ios[i]))
    && var n := |ios| - 1;
    Poll(Run(NewTee(body, trailers, cap), ios[..n]).0, ios[n]).1 == Ready([])
  }

  // With a writer that never refuses and a body read to its end, what is
  // stored depends on the total length alone, never on chunking or stalls.
  lemma ChunkingDoesNotMatter(
    body: Bytes, trailers: Option<Headers>, cap: nat, ios: seq<PollIo>)
    requires ReadToEnd(body, trailers, cap, ios)
    ensures var (t, got) := Run(NewTee(body, trailers, cap), ios);
            got == body && t.writer.finalized == StoredOutcome(body, trailers, cap)
  {
    var n := |ios| - 1;
    var start := NewTee(body, trailers, cap);
    TeeIsTransparent(body, trailers, cap, ios[..n]);
    TeeIsTransparent(body, trailers, cap, ios);
    OnlyWholeBodiesFinalize(body, trailers, cap, ios);
    ReliableRun(body, trailers, cap, ios[..n]);
    ReliableRun(body, trailers, cap, ios);
    var (mid, got) := Run(start, ios[..n]);
    ReliablePoll(mid, ios[n], body, got);
    assert got + [] == got;
  }

  // And so what the reader is left with: the whole body, and the trailers
  // exactly when the body was stored.
  lemma TrailersFollowStorage(body: Bytes, trailers: Option<Headers>, cap: nat, ios: seq<PollIo>)
    requires ReadToEnd(body, trailers, cap, ios)
    ensures var (t, got) := Run(NewTee(body, trailers, cap), ios);
            got == body && t.trailers == if Fits(|body|, cap) then trailers else None
  {
    ChunkingDoesNotMatter(body, trailers, cap, ios);
    TeeIsTransparent(body, trailers, cap, ios);
  }

  // The background copy: read, count, write, finalize at the end. With
  // `faulty` false no read or write fails; the read sizes are arbitrary.
  method CopyIntoStorage(body: Bytes, trailers: Option<Headers>, cap: nat, faulty: bool)
    returns (stored: Option<Finalized>)
    ensures stored.Some? ==> stored == StoredOutcome(body, trailers, cap)
    ensures !faulty ==> stored == StoredOutcome(body, trailers, cap)
  {
    var rest, written := body, [];
    var total := 0;
    while rest != []
      invariant written + rest == body && total == Min(|written|, U64_MAX)
      invariant Fits(|written|, cap)
      decreases |rest|
    {
      if faulty {
        if * { return None; }
      }
      var n: nat :| 1 <= n <= |rest| && n <= 8192;
      total := SaturatingAdd(total, n);
      if total > cap { return None; }
      written, rest := written + rest[..n], rest[n..];
    }
    assert written == body;
    stored := Some(Finalized(written, trailers));
  }
}
