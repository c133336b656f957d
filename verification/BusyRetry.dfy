/**
 The client's patience: one command re-sent while the daemon answers `busy`, within a
 budget, and started over when the watchdog has repaired a dead endpoint.
 */
module BusyRetry {
  import opened Basics

  const INITIAL_DELAY := 5.0
  const MAX_DELAY := 60.0
  const MIN_JITTER := 0.6
  const MAX_JITTER := 1.4
  const MAX_HEAL_RETRIES := 3

  /** What the client means to wait before round n + 1, before the jitter: five seconds, half as
      much again each time, at most a minute. */
  function Delay(n: nat): (d: real)
    ensures 5.0 <= d <= 60.0
  {
    if n == 0 then INITIAL_DELAY
    else if Delay(n - 1) * 1.5 < MAX_DELAY then Delay(n - 1) * 1.5 else MAX_DELAY
  }

  lemma NextDelay(n: nat)
    ensures Delay(0) == 5.0
    ensures Delay(n + 1) == if Delay(n) * 1.5 < 60.0 then Delay(n) * 1.5 else 60.0
  {
  }

  function Sum(waits: seq<real>): real {
    if waits == [] then 0.0 else Sum(waits[..|waits| - 1]) + waits[|waits| - 1]
  }

  /** Each wait is within the jitter of its delay; only the last may be cut short by the budget. */
  ghost predicate Jittered(waits: seq<real>) {
    forall i: nat | i < |waits| :: WithinJitter(waits[i], i, i == |waits| - 1)
  }

  predicate WithinJitter(wait: real, n: nat, last: bool) {
    wait <= 1.4 * Delay(n) && (!last ==> wait >= 0.6 * Delay(n))
  }

  lemma JitteredMore(waits: seq<real>, wait: real)
    requires Jittered(waits) && NotCut(waits) && wait <= 1.4 * Delay(|waits|)
    ensures Jittered(waits + [wait]) && Sum(waits + [wait]) == Sum(waits) + wait
    ensures wait >= 0.6 * Delay(|waits|) ==> NotCut(waits + [wait])
  {
    hide Delay;
    var more := waits + [wait];
    assert more[..|waits|] == waits;
    forall i: nat | i < |more|
      ensures WithinJitter(more[i], i, i == |more| - 1)
    {
      assert i < |waits| ==> WithinJitter(waits[i], i, i == |waits| - 1);
    }
  }

  lemma NoWaits()
    ensures Jittered([]) && NotCut([]) && Sum([]) == 0.0 && Delay(0) == INITIAL_DELAY
  {
  }

  predicate NotCut(waits: seq<real>) {
    waits != [] ==> waits[|waits| - 1] >= 0.6 * Delay(|waits| - 1)
  }

  lemma Product(x: real, y: real)
    requires x >= 0.0 && y >= 0.0
    ensures x * y >= 0.0
  {
  }

  lemma Factored(d: real, factor: real)
    requires 5.0 <= d && MIN_JITTER <= factor <= MAX_JITTER
    ensures 3.0 <= 0.6 * d <= d * factor <= 1.4 * d
  {
    Product(factor - 0.6, d);
    Product(1.4 - factor, d);
  }

  /** How one exchange ends. Dropped: a refused, reset or missing endpoint. */
  datatype Reply = Fine | Busy | Auth | Safety | Dropped | Broken

  /** How one command ends: the reply it is left with, or `WrdsBusyTimeout`. */
  datatype Outcome = Final(reply: Reply) | BusyTimeout

  /** Exchange number i gets `replies(i)`; wait number i for the watchdog ends in `repaired(i)`. */
  class Client {
    const replies: nat -> Reply
    const repaired: nat -> bool
    var sent: nat
    var waits: nat
    var clock: real

    constructor (replies: nat -> Reply, repaired: nat -> bool)
      ensures this.replies == replies && this.repaired == repaired && sent == 0 && waits == 0
    {
      this.replies, this.repaired, this.sent, this.waits, this.clock := replies, repaired, 0, 0, 0.0;
    }

    method Exchange() returns (reply: Reply)
      modifies this`sent, this`clock
      ensures sent == old(sent) + 1 && reply == replies(old(sent)) && clock >= old(clock)
    {
      reply := replies(sent);
      sent := sent + 1;
      var seconds: real := *;
      if seconds > 0.0 {
        clock := clock + seconds;
      }
    }

    /** Sleeps at least as long as it is told to. */
    method Sleep(seconds: real)
      requires seconds >= 0.0
      modifies this`clock
      ensures clock >= old(clock) + seconds
    {
      var more: real := *;
      clock := clock + seconds + if more > 0.0 then more else 0.0;
    }

    method Jitter() returns (factor: real)
      ensures MIN_JITTER <= factor <= MAX_JITTER
    {
      factor := *;
      if !(MIN_JITTER <= factor <= MAX_JITTER) {
        factor := 1.0;
      }
    }

    /** Exchanges from `first` up to `last` that were answered busy, except for the one
        handshake that succeeded. */
    ghost predicate OnlyBusy(first: nat, last: nat, hello: Option<nat>) {
      forall i | first <= i < last :: replies(i) == if hello == Some(i) then Fine else Busy
    }

    /** One round: the handshake, unless it is done, and if it succeeds the command. */
    method Round(handshakeDone: bool) returns (reply: Reply, done: bool)
      modifies this`sent, this`clock
      ensures done == (handshakeDone || replies(old(sent)) == Fine)
      ensures sent == old(sent) + if !handshakeDone && done then 2 else 1
      ensures clock >= old(clock) && reply == replies(sent - 1)
    {
      done := handshakeDone;
      if !done {
        reply := Exchange();
        done := reply.Fine?;
        if !done {
          return;
        }
      }
      reply := Exchange();
    }

    /** Waits the jittered delay, or what is left of the budget. */
    method Pause(delay: real, remaining: real) returns (wait: real)
      requires delay >= 5.0 && remaining > 0.0
      modifies this`clock
      ensures clock >= old(clock) + wait && 0.0 < wait <= remaining && wait <= 1.4 * delay
      ensures wait == remaining || (wait >= 3.0 && wait >= 0.6 * delay)
    {
      var factor := Jitter();
      Factored(delay, factor);
      var stretched := delay * factor;
      wait := if stretched < remaining then stretched else remaining;
      Sleep(wait);
    }

    /** `_checked_request_once`: busy is the only answer that is ever re-sent, and only
        within the budget. `hello` is the exchange that completed the handshake. */
    method CheckedRequestOnce(budget: real)
      returns (r: Outcome, rounds: nat, slept: real, ghost hello: Option<nat>, ghost waits: seq<real>)
      requires budget >= 0.0
      modifies this`sent, this`clock
      ensures sent > old(sent) && OnlyBusy(old(sent), sent - 1, hello)
      ensures r == if replies(sent - 1) == Busy then BusyTimeout else Final(replies(sent - 1))
      ensures hello.Some? ==> old(sent) <= hello.value < sent - 1
      ensures hello.None? ==> r != Final(Fine)
      ensures r.BusyTimeout? ==> clock - old(clock) >= budget
      ensures 0.0 <= slept <= budget
      ensures 3.0 * (rounds as real - 2.0) <= budget && sent - old(sent) <= rounds + 1
      ensures |waits| == rounds - 1 && Jittered(waits) && slept == Sum(waits)
    {
      hide Jittered, NotCut, Sum, Delay;
      var deadline := clock + budget;
      var delay := INITIAL_DELAY;
      NoWaits();
      var handshakeDone := false;
      rounds, slept, hello, waits := 0, 0.0, None, [];
      while true
        invariant delay == Delay(|waits|) && handshakeDone == hello.Some?
        invariant |waits| == rounds && Jittered(waits) && slept == Sum(waits)
        invariant clock < deadline ==> NotCut(waits)
        invariant old(sent) <= sent && OnlyBusy(old(sent), sent, hello)
        invariant hello.Some? ==> old(sent) <= hello.value < sent
        invariant clock >= old(clock) && deadline == old(clock) + budget
        invariant 0.0 <= slept && (clock < deadline ==> slept <= budget - (deadline - clock))
        invariant clock >= deadline ==> slept <= budget
        invariant clock < deadline ==> 3.0 * rounds as real <= budget - (deadline - clock)
        invariant 3.0 * (rounds as real - 1.0) <= budget
        invariant sent - old(sent) <= rounds + if handshakeDone then 1 else 0
        decreases if clock < deadline then deadline - clock + 2.0 else 1.0
      {
        ghost var first, before := sent, clock;
        var reply, done := Round(handshakeDone);
        if done && !handshakeDone {
          hello := Some(first);
        }
        handshakeDone := done;
        rounds := rounds + 1;
        if !reply.Busy? {
          return Final(reply), rounds, slept, hello, waits;
        }
        var remaining := deadline - clock;
        if remaining <= 0.0 {
          return BusyTimeout, rounds, slept, hello, waits;
        }
        var wait := Pause(delay, remaining);
        JitteredMore(waits, wait);
        NextDelay(|waits|);
        slept, waits := slept + wait, waits + [wait];
        delay := if delay * 1.5 < MAX_DELAY then delay * 1.5 else MAX_DELAY;
      }
    }

    /** Every one of these attempts met a dropped endpoint, and the watchdog repaired it. */
    ghost predicate Healed(first: nat, attempts: seq<Outcome>) {
      forall i: nat | i < |attempts| :: attempts[i] == Final(Dropped) && repaired(first + i)
    }

    /** `_checked_request`: started over at most three times, each time after a dropped
        endpoint that the watchdog has repaired. `before` are the attempts but the last. */
    method CheckedRequest(budget: real) returns (r: Outcome, before: seq<Outcome>)
      requires budget >= 0.0
      modifies this
      ensures |before| <= MAX_HEAL_RETRIES && Healed(old(waits), before)
      ensures r == Final(Dropped) ==> |before| == MAX_HEAL_RETRIES || !repaired(old(waits) + |before|)
      ensures sent > old(sent) && r == if replies(sent - 1) == Busy then BusyTimeout else Final(replies(sent - 1))
    {
      var heals: nat := 0;
      before := [];
      while true
        invariant heals == |before| <= MAX_HEAL_RETRIES && waits == old(waits) + heals && sent >= old(sent)
        invariant Healed(old(waits), before)
        decreases MAX_HEAL_RETRIES - heals
      {
        var rounds, slept;
        ghost var hello, pauses;
        r, rounds, slept, hello, pauses := CheckedRequestOnce(budget);
        if r != Final(Dropped) || heals >= MAX_HEAL_RETRIES {
          return;
        }
        var restored := repaired(waits);
        waits := waits + 1;
        if !restored {
          return;
        }
        before := before + [r];
        heals := heals + 1;
      }
    }
  }
}
