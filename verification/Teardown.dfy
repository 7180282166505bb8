/**
  Teardown of one envelope's process tree.

  The host answers each process inventory, lets time pass, and answers the one TERM frame.  Its
  behaviour is fixed by three unknowns that every statement ranges over: what the k-th inventory
  finds (nothing when it is unreadable), how much time slips by at the k-th look at the host beyond
  what was asked for, and how the worker replies.  Time is a real number of seconds; a wait lasts at
  least as long as it was asked to.
 */
module Teardown {
  import opened Prelude

  /** What the worker does with a TERM frame. */
  datatype Reply = SendFails | Eof | Acknowledged | Terminal | OtherFrame | TimedOut | Broken

  const MAX_POLL_INTERVAL: real := 0.025

  datatype Cleanup = Cleanup(descendants: seq<nat>, afterTerm: seq<nat>, afterKill: seq<nat>, termSent: bool,
                             killSent: bool, complete: bool, seconds: real, graceSeconds: real,
                             inventoryComplete: bool, acknowledged: bool, controlEof: bool)

  /** What qualification demands of a recorded cleanup. */
  predicate Qualifies(r: Cleanup, declared: real) {
    r.complete && |r.afterKill| == 0 && r.seconds <= declared
  }

  class Host {
    const found: nat -> Option<seq<nat>>
    const slip: nat -> real
    const reply: Reply
    const replyDelay: real
    var now: real
    var looks: nat
    var readings: nat
    var kills: nat

    constructor (found: nat -> Option<seq<nat>>, slip: nat -> real, reply: Reply, replyDelay: real)
      requires replyDelay >= 0.0 && forall k :: slip(k) >= 0.0
      ensures Valid() && readings == 0 && kills == 0
      ensures this.found == found && this.slip == slip && this.reply == reply && this.replyDelay == replyDelay
    {
      this.found, this.slip, this.reply, this.replyDelay := found, slip, reply, replyDelay;
      now, looks, readings, kills := 0.0, 0, 0, 0;
    }

    ghost predicate Valid() {
      replyDelay >= 0.0 && forall k :: slip(k) >= 0.0
    }

    /** Nothing but the waits themselves takes time. */
    ghost predicate Punctual() {
      forall k :: slip(k) == 0.0
    }

    /** And the worker's reply comes within `grace`. */
    ghost predicate Exact(grace: real) {
      replyDelay <= grace && Punctual()
    }

    function Seen(k: nat): seq<nat> {
      if found(k).Some? then found(k).value else []
    }

    ghost predicate AllReadable(from: nat, to: nat) {
      forall k :: from <= k < to ==> found(k).Some?
    }

    /** Every inventory but the last of these found something, so that it was worth looking again. */
    ghost predicate Waited(from: nat, to: nat) {
      forall k :: from <= k < to - 1 ==> found(k).Some? && Seen(k) != []
    }

    method Clock() returns (t: real)
      requires Valid()
      modifies this`now, this`looks
      ensures old(now) <= now && t == now
      ensures Punctual() ==> now == old(now)
    {
      now, looks := now + slip(looks), looks + 1;
      t := now;
    }

    method Sleep(seconds: real)
      requires Valid() && seconds >= 0.0
      modifies this`now, this`looks
      ensures old(now) + seconds <= now
      ensures Punctual() ==> now == old(now) + seconds
    {
      now, looks := now + seconds + slip(looks), looks + 1;
    }

    method Inventory() returns (pids: seq<nat>, readable: bool)
      requires Valid()
      modifies this`now, this`looks, this`readings
      ensures old(now) <= now && readings == old(readings) + 1
      ensures Punctual() ==> now == old(now)
      ensures pids == Seen(old(readings)) && readable == found(old(readings)).Some?
    {
      now, looks := now + slip(looks), looks + 1;
      pids, readable := Seen(readings), found(readings).Some?;
      readings := readings + 1;
    }

    method Kill()
      modifies this`kills
      ensures kills == old(kills) + 1
    {
      kills := kills + 1;
    }

    /** Ask the worker to terminate its tree, and wait for its answer. */
    method Term(grace: real) returns (acknowledged: bool, controlEof: bool)
      requires Valid() && grace >= 0.0
      modifies this`now, this`looks
      ensures acknowledged == (reply == Acknowledged) && controlEof == (reply in {SendFails, Eof, Broken})
      ensures old(now) <= now && (Exact(grace) ==> now <= old(now) + grace)
    {
      now, looks := now + replyDelay + slip(looks), looks + 1;
      acknowledged, controlEof := reply == Acknowledged, reply in {SendFails, Eof, Broken};
    }

    /** How many polls can still fit before `end`. */
    static function PollsLeft(end: real, t: real): nat {
      if t < end then ((end - t) * 40.0).Floor + 1 else 0
    }

    static lemma PollShortens(end: real, t: real, t': real)
      requires t < end
      requires t' >= end || t' >= t + MAX_POLL_INTERVAL
      ensures PollsLeft(end, t') < PollsLeft(end, t)
    {
      if t' < end {
        assert (end - t') * 40.0 <= (end - t) * 40.0 - 1.0;
      }
    }

    /**
      Look again, at most a poll interval apart, while the last inventory was readable and not empty
      and `end` has not come.
     */
    method Poll(end: real, first: seq<nat>, firstReadable: bool)
      returns (pids: seq<nat>, readable: bool, complete: bool)
      requires Valid() && readings >= 1
      requires first == Seen(readings - 1) && firstReadable == found(readings - 1).Some?
      modifies this`now, this`looks, this`readings
      ensures old(now) <= now && old(readings) <= readings
      ensures pids == Seen(readings - 1) && readable == found(readings - 1).Some?
      ensures complete == AllReadable(old(readings) - 1, readings)
      ensures Waited(old(readings) - 1, readings)
      ensures readable && pids != [] ==> end <= now
      ensures Punctual() && old(now) <= end ==> now <= end
    {
      pids, readable, complete := first, firstReadable, firstReadable;
      var waiting := false;
      var t := 0.0;
      if readable && pids != [] {
        t := Clock();
        waiting := t < end;
      }
      while waiting
        invariant Valid() && old(now) <= now && old(readings) <= readings
        invariant pids == Seen(readings - 1) && readable == found(readings - 1).Some?
        invariant complete == AllReadable(old(readings) - 1, readings)
        invariant Waited(old(readings) - 1, readings)
        invariant waiting ==> readable && pids != [] && t < end && t <= now
        invariant !waiting && readable && pids != [] ==> end <= now
        invariant Punctual() && old(now) <= end ==> now <= end && (waiting ==> t == now)
        decreases waiting, if waiting then PollsLeft(end, t) else 0
      {
        ghost var before := t;
        var u := Clock();
        var rest := if end - u > 0.0 then end - u else 0.0;
        Sleep(if MAX_POLL_INTERVAL < rest then MAX_POLL_INTERVAL else rest);
        pids, readable := Inventory();
        complete := complete && readable;
        waiting := false;
        if readable && pids != [] {
          t := Clock();
          waiting := t < end;
          PollShortens(end, before, t);
        }
      }
    }

    /** What a teardown that read the inventories `from .. to` and kept `r` has to report. */
    ghost predicate Reports(r: Cleanup, from: nat, to: nat) {
      && from < to
      && r.descendants == Seen(from) && r.afterKill == Seen(to - 1)
      && r.inventoryComplete == AllReadable(from, to)
      && (r.termSent <==> r.descendants != [])
      && r.acknowledged == (!r.termSent || reply == Acknowledged)
      && r.controlEof == (r.termSent && reply in {SendFails, Eof, Broken})
      && (r.complete <==> AllReadable(from, to) && Seen(to - 1) == []
                          && (Seen(from) != [] ==> reply == Acknowledged))
    }

    /** The first half: take inventory, send TERM if anything runs, and poll until half the allowance is gone. */
    method TermPhase(started: real, grace: real)
      returns (descendants: seq<nat>, afterTerm: seq<nat>, inventoryComplete: bool, acknowledged: bool,
               controlEof: bool)
      requires Valid() && grace >= 0.0 && started <= now
      modifies this`now, this`looks, this`readings
      ensures old(readings) + 1 < readings && old(now) <= now
      ensures descendants == Seen(old(readings)) && afterTerm == Seen(readings - 1)
      ensures Waited(old(readings) + 1, readings)
      ensures found(readings - 1).Some? && afterTerm != [] ==> started + grace <= now
      ensures inventoryComplete == AllReadable(old(readings), readings)
      ensures acknowledged == (descendants == [] || reply == Acknowledged)
      ensures controlEof == (descendants != [] && reply in {SendFails, Eof, Broken})
      ensures Exact(grace) && started == old(now) ==> now <= started + grace
    {
      var complete, readable, all;
      descendants, complete := Inventory();
      acknowledged, controlEof := descendants == [], false;
      if descendants != [] {
        acknowledged, controlEof := Term(grace);
      }
      afterTerm, readable := Inventory();
      afterTerm, readable, all := Poll(started + grace, afterTerm, readable);
      inventoryComplete := complete && all;
    }

    /** The second half: kill if needed, take inventory and poll until the whole allowance is gone. */
    method KillPhase(end: real, needed: bool) returns (afterKill: seq<nat>, all: bool)
      requires Valid()
      modifies this
      ensures kills == old(kills) + if needed then 1 else 0
      ensures old(readings) < readings && afterKill == Seen(readings - 1) && all == AllReadable(old(readings), readings)
      ensures Waited(old(readings), readings) && (found(readings - 1).Some? && afterKill != [] ==> end <= now)
      ensures old(now) <= now && (Punctual() && old(now) <= end ==> now <= end)
    {
      if needed {
        Kill();
      }
      var readable;
      afterKill, readable := Inventory();
      afterKill, readable, all := Poll(end, afterKill, readable);
    }

    /**
      TERM, a grace of half the allowance, KILL if anything is left or an inventory could not be
      read, then the other half.  Complete exactly when every inventory was readable, the last one
      was empty, and a TERM, if one was sent, was acknowledged (which excludes an EOF on control).  A
      kill is never issued without being reported; one is reported without being issued exactly when
      the first unreadable inventory came after it would have been.  In each half it goes on looking
      until nothing is found or an inventory fails, so what is left was there when time had run out.
     */
    method Terminate(seconds: real) returns (r: Cleanup, sendFailed: bool, ghost middle: nat, ghost midway: real)
      requires Valid() && seconds >= 0.0
      modifies this
      ensures Reports(r, old(readings), readings)
      ensures old(readings) < middle < readings - 1 && r.afterTerm == Seen(middle)
      ensures Waited(old(readings) + 1, middle + 1) && Waited(middle + 1, readings)
      ensures found(middle).Some? && r.afterTerm != [] ==> old(now) + seconds / 2.0 <= midway <= now
      ensures found(readings - 1).Some? && r.afterKill != [] ==> seconds <= r.seconds
      ensures kills == old(kills) + if r.afterTerm != [] || !AllReadable(old(readings), middle + 1) then 1 else 0
      ensures r.killSent <==> kills > old(kills) || !AllReadable(middle + 1, readings)
      ensures sendFailed == (r.termSent && reply == SendFails)
      ensures 0.0 <= r.seconds <= now - old(now) && r.graceSeconds == seconds / 2.0
      ensures Exact(seconds / 2.0) ==> r.seconds <= seconds && (Qualifies(r, seconds) <==> r.complete)
    {
      var started := Clock();
      var grace := seconds / 2.0;
      var descendants, afterTerm, inventoryComplete, acknowledged, controlEof := TermPhase(started, grace);
      middle, midway := readings - 1, now;
      var killSent := afterTerm != [];
      var afterKill, all := KillPhase(started + seconds, killSent || !inventoryComplete);
      var termSent, complete := descendants != [], inventoryComplete && all;
      var t := Clock();
      r := Cleanup(descendants, afterTerm, afterKill, termSent, killSent || !complete,
                   complete && afterKill == [] && (!termSent || acknowledged) && !controlEof,
                   if t - started > 0.0 then t - started else 0.0, grace, complete, acknowledged, controlEof);
      sendFailed := termSent && reply == SendFails;
    }

    /** The failed-launch teardown: kill at once, then wait for the tree to empty. */
    method KillAndWait(seconds: real) returns (r: Cleanup)
      requires Valid() && seconds >= 0.0
      modifies this
      ensures old(readings) < readings && r.descendants == Seen(old(readings)) && r.afterKill == Seen(readings - 1)
      ensures r.inventoryComplete == AllReadable(old(readings), readings)
      ensures r.complete <==> AllReadable(old(readings), readings) && Seen(readings - 1) == []
      ensures kills == old(kills) + 1 && r.killSent == (Seen(old(readings)) != [])
      ensures Waited(old(readings) + 1, readings)
      ensures found(readings - 1).Some? && r.afterKill != [] ==> seconds <= r.seconds
      ensures r.seconds >= 0.0 && (Punctual() ==> r.seconds <= seconds)
    {
      var started := Clock();
      var descendants, inventoryComplete := Inventory();
      var afterKill, all := KillPhase(started + seconds, true);
      inventoryComplete := inventoryComplete && all;
      var t := Clock();
      r := Cleanup(descendants, descendants, afterKill, false, descendants != [],
                  inventoryComplete && afterKill == [], if t - started > 0.0 then t - started else 0.0, 0.0,
                  inventoryComplete, true, false);
    }
  }

  /** A teardown that reports a kill it did not issue: the inventory fails only after nothing was found. */
  method KillNotIssued(seconds: real) returns (host: Host, r: Cleanup)
    requires seconds >= 0.0
    ensures fresh(host) && r.killSent && host.kills == 0
  {
    host := new Host(k => if k < 2 then Some([]) else None, _ => 0.0, TimedOut, 0.0);
    var sendFailed;
    ghost var middle, midway;
    r, sendFailed, middle, midway := host.Terminate(seconds);
    assert host.Seen(1) == [];
    assert host.found(2).None?;
  }

  /** A failed-launch teardown that issues a kill it does not report: nothing was found. */
  method KillNotReported(seconds: real) returns (host: Host, r: Cleanup)
    requires seconds >= 0.0
    ensures fresh(host) && !r.killSent && host.kills == 1
  {
    host := new Host(_ => Some([]), _ => 0.0, TimedOut, 0.0);
    r := host.KillAndWait(seconds);
  }
}
