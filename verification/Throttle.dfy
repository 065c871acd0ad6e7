/**
 The throttled reader: internal/throttle/throttle.go. Time is a clock in
 nanoseconds that only moves forward; sleeping and reading move it by amounts
 that are not known beforehand.
 */
module Throttle {
  import opened Common

  const SECOND := 1_000_000_000

  class Clock {
    var now: nat

    constructor ()
    {
      now := 0;
    }

    /** Waits for `d` and, at the scheduler's whim, `over` more. */
    method Sleep(d: nat) returns (ghost over: nat)
      modifies this
      ensures now == old(now) + d + over
    {
      var late: nat :| 0 <= late;
      over := late;
      now := now + d + late;
    }
  }

  /** The stream being read: it hands out any part of what is left, up to a limit. */
  class Inner {
    const clock: Clock
    var rest: seq<byte>

    constructor (clock: Clock, rest: seq<byte>)
      ensures this.clock == clock && this.rest == rest
    {
      this.clock := clock;
      this.rest := rest;
    }

    method Read(limit: nat) returns (chunk: seq<byte>, err: bool)
      modifies this, clock
      ensures |chunk| <= limit && old(rest) == chunk + rest
      ensures clock.now >= old(clock.now)
    {
      var n: nat :| 0 <= n;
      var took: nat :| 0 <= took;
      err := *;
      n := if n <= limit then n else limit;
      n := if n <= |rest| then n else |rest|;
      chunk := rest[..n];
      rest := rest[n..];
      clock.now := clock.now + took;
    }
  }

  /** The most a single read returns. */
  function ChunkLimit(bps: int): nat
    requires bps > 0
  {
    Max(bps / 10, 1)
  }

  /** How long `bytes` bytes should take. */
  function ExpectedTime(bytes: nat, bps: int): nat
    requires bps > 0
  {
    bytes * SECOND / bps
  }

  /** No more bytes than the rate allows in `elapsed` nanoseconds. */
  predicate WithinRate(bytes: nat, elapsed: nat, bps: int) {
    bytes * SECOND < (elapsed + 1) * bps
  }

  /** Waiting for the expected time is exactly what keeps the rate. */
  lemma RateIffExpectedTime(bytes: nat, elapsed: nat, bps: int)
    requires bps > 0
    ensures WithinRate(bytes, elapsed, bps) <==> ExpectedTime(bytes, bps) <= elapsed
  {
    DivisionIff(bytes * SECOND, bps, elapsed);
  }

  lemma DivisionIff(total: nat, d: int, e: nat)
    requires d > 0
    ensures total < (e + 1) * d <==> total / d <= e
  {
    var q := total / d;
    assert total == q * d + total % d;
    assert (q + 1) * d == q * d + d;
    if q <= e {
      ProductGrows(q + 1, e + 1, d);
    } else {
      ProductGrows(e + 1, q, d);
    }
  }

  lemma ProductGrows(a: nat, b: nat, c: nat)
    requires a <= b
    ensures a * c <= b * c
  {
    assert b * c == a * c + (b - a) * c;
  }

  /** A finished read: the bytes it returned, the total so far and the time since the start. */
  datatype Return = Return(size: nat, total: nat, elapsed: nat)

  function Total(history: seq<Return>): nat {
    if history == [] then 0 else history[|history| - 1].total
  }

  /** Every read so far kept the rate and the chunk limit, and the totals add up. */
  ghost predicate KeptRate(history: seq<Return>, bps: int)
    requires bps > 0
  {
    forall i :: 0 <= i < |history| ==>
      && history[i].size <= ChunkLimit(bps)
      && history[i].total == Total(history[..i]) + history[i].size
      && WithinRate(history[i].total, history[i].elapsed, bps)
  }

  lemma KeptRateGrows(history: seq<Return>, r: Return, bps: int)
    requires bps > 0 && KeptRate(history, bps)
    requires r.size <= ChunkLimit(bps) && r.total == Total(history) + r.size && WithinRate(r.total, r.elapsed, bps)
    ensures KeptRate(history + [r], bps) && Total(history + [r]) == r.total
  {
    hide WithinRate, ChunkLimit;
    var all := history + [r];
    assert all[..|history|] == history;
    assert forall i :: 0 <= i < |history| ==> all[..i] == history[..i];
  }

  class Reader {
    const inner: Inner
    const bps: int
    const latency: int
    var started: bool
    var bytesRead: nat
    var startTime: nat

    ghost const source: seq<byte>
    ghost var delivered: seq<byte>
    ghost var history: seq<Return>

    /**
     Everything delivered so far is the front of the source, and every read of
     a limited reader so far kept the rate and the chunk limit.
     */
    ghost predicate Valid()
      reads this, inner, inner.clock
    {
      && source == delivered + inner.rest
      && startTime <= inner.clock.now
      && (!started ==> history == [] && delivered == [])
      && (bps > 0 ==> KeptRate(history, bps) && bytesRead == Total(history) == |delivered|)
    }

    constructor (inner: Inner, bps: int, latency: int)
      ensures Valid() && !started && history == [] && delivered == []
      ensures this.inner == inner && this.bps == bps && this.latency == latency && source == inner.rest
    {
      this.inner, this.bps, this.latency := inner, bps, latency;
      started, bytesRead, startTime := false, 0, 0;
      source, delivered, history := inner.rest, [], [];
    }

    /** The first read starts the clock and waits for the latency. */
    method Start()
      modifies this`started, this`startTime, inner.clock
      ensures started
      ensures startTime == if old(started) then old(startTime) else old(inner.clock.now)
      ensures inner.clock.now >= old(inner.clock.now) + if old(started) || latency < 0 then 0 else latency
    {
      if !started {
        started := true;
        startTime := inner.clock.now;
        if latency > 0 {
          ghost var late := inner.clock.Sleep(latency);
        }
      }
    }

    /** `readDone` is when the inner read came back, `over` how much the sleep overran. */
    method Read(size: nat) returns (chunk: seq<byte>, err: bool, ghost readDone: nat, ghost over: nat)
      requires Valid()
      modifies this, inner, inner.clock
      ensures Valid() && started
      ensures old(inner.rest) == chunk + inner.rest && delivered == old(delivered) + chunk
      ensures |chunk| <= size
      ensures old(started) ==> startTime == old(startTime)
      ensures !old(started) ==> startTime == old(inner.clock.now)
      ensures readDone >= old(inner.clock.now) + if old(started) || latency < 0 then 0 else latency
      ensures bps <= 0 ==> inner.clock.now == readDone && history == old(history)
      ensures bps > 0 ==>
                && |chunk| <= ChunkLimit(bps)
                && bytesRead == old(bytesRead) + |chunk|
                && history == old(history) + [Return(|chunk|, bytesRead, inner.clock.now - startTime)]
                && WithinRate(bytesRead, inner.clock.now - startTime, bps)
                && var due := startTime + ExpectedTime(bytesRead, bps);
                   inner.clock.now == if due > readDone then due + over else readDone
    {
      hide WithinRate, ExpectedTime, ChunkLimit, KeptRate, Total;
      over := 0;
      Start();
      if bps <= 0 {
        chunk, err := inner.Read(size);
        readDone := inner.clock.now;
        Reassociate(delivered, chunk, inner.rest);
        delivered := delivered + chunk;
        return;
      }
      var limit := if size > ChunkLimit(bps) then ChunkLimit(bps) else size;
      chunk, err := inner.Read(limit);
      readDone := inner.clock.now;
      Reassociate(delivered, chunk, inner.rest);
      delivered := delivered + chunk;
      bytesRead := bytesRead + |chunk|;
      var expected := ExpectedTime(bytesRead, bps);
      var actual := inner.clock.now - startTime;
      if expected > actual {
        over := inner.clock.Sleep(expected - actual);
      }
      RateIffExpectedTime(bytesRead, inner.clock.now - startTime, bps);
      KeptRateGrows(history, Return(|chunk|, bytesRead, inner.clock.now - startTime), bps);
      history := history + [Return(|chunk|, bytesRead, inner.clock.now - startTime)];
    }
  }
}
