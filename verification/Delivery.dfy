/**
 The event bus and the stream together: what one connection of `internal/api/sse.go` is sent when other
 processes write to the log as well, and the tailer (`internal/events/tail.go`) may pass over some of it.
 */
module Delivery {
  import opened EventBus
  import Sse

  /** The bus from a connection's subscription under key `k` to its replay, and on to now. */
  ghost function AtReplay(s: Ledger, k: nat, f: Filter, before: seq<Op>): Ledger {
    Run(Step(s, SubscribeOp(k, f)), before)
  }

  ghost function Now(s: Ledger, k: nat, f: Filter, before: seq<Op>, after: seq<Op>): Ledger {
    Run(AtReplay(s, k, f, before), after)
  }

  ghost function Replayed(s: Ledger, k: nat, f: Filter, from: nat, before: seq<Op>): seq<Event> {
    ReplaySpec(AtReplay(s, k, f, before).log, from, f, Sse.REPLAY_LIMIT)
  }

  /** What the connection has sent once it has forwarded what it took off its channel: replay, then live, deduplicated. */
  ghost function Sent(replayed: seq<Event>, taken: seq<Event>): seq<Event> {
    replayed + Sse.Beyond(taken, Sse.LastId(0, replayed))
  }

  // The subscription still stands and its channel is empty; the backlog was within the replay limit.
  ghost predicate Drained(s: Ledger, k: nat, f: Filter, from: nat, before: seq<Op>, after: seq<Op>) {
    var now := Now(s, k, f, before, after);
    && Ok(s) && k !in s.subs && from <= |s.log|
    && k in now.subs && now.subs[k].live && now.subs[k].buffer == []
    && |Rows(f, AtReplay(s, k, f, before).log[Min(from, |AtReplay(s, k, f, before).log|)..])| <= Sse.REPLAY_LIMIT
  }

  // ---- what a run keeps ----

  lemma {:induction false} PublishExtends(s: Ledger, es: seq<Event>, k: nat)
    requires k in s.subs
    ensures var s' := Publish(s, es);
            && s.fanned <= s'.fanned && k in s'.subs
            && s'.subs[k].filter == s.subs[k].filter && s'.subs[k].since == s.subs[k].since
    decreases |es|
  {
    if es != [] {
      PublishExtends(if es[0].id <= s.published then s else FanOut(Mark(s, es[0].id), es[0]), es[1..], k);
    }
  }

  lemma StepExtends(s: Ledger, op: Op, k: nat)
    requires k in s.subs
    ensures var s' := Step(s, op);
            && s.fanned <= s'.fanned && k in s'.subs
            && s'.subs[k].filter == s.subs[k].filter && s'.subs[k].since == s.subs[k].since
  {
    hide Publish;
    if op.DrainOp? {
      var pending := s.log[Min(s.published, |s.log|)..];
      PublishExtends(s, pending[..Min(DRAIN_LIMIT, |pending|)], k);
    }
  }

  lemma {:induction false} RunExtends(s: Ledger, ops: seq<Op>, k: nat)
    requires k in s.subs
    ensures var s' := Run(s, ops);
            && s.fanned <= s'.fanned && k in s'.subs
            && s'.subs[k].filter == s.subs[k].filter && s'.subs[k].since == s.subs[k].since
    decreases |ops|
  {
    hide Step;
    if ops != [] {
      StepExtends(s, ops[0], k);
      RunExtends(Step(s, ops[0]), ops[1..], k);
    }
  }

  // A drained live subscription has taken exactly the matching fan-outs since it was made.
  lemma TakenSinceSubscription(s: Ledger, k: nat, f: Filter, from: nat, before: seq<Op>, after: seq<Op>)
    requires Drained(s, k, f, from, before, after)
    ensures var at, now := AtReplay(s, k, f, before), Now(s, k, f, before, after);
            && Ok(at) && Ok(now) && s.log <= at.log <= now.log && s.fanned <= now.fanned
            && now.subs[k].consumed == Matching(f, now.fanned[|s.fanned|..])
  {
    hide Run, Step, Matching, Rows, Ok;
    var s1 := Step(s, SubscribeOp(k, f));
    StepKeepsOk(s, SubscribeOp(k, f));
    SubscribedAs(s, k, f);
    RunKeepsOk(s1, before);
    var at := AtReplay(s, k, f, before);
    RunKeepsOk(at, after);
    RunExtends(s1, before, k);
    RunExtends(at, after, k);
    var now := Now(s, k, f, before, after);
    TakenIs(now, k);
  }

  lemma SubscribedAs(s: Ledger, k: nat, f: Filter)
    requires k !in s.subs
    ensures var s1 := Step(s, SubscribeOp(k, f));
            k in s1.subs && s1.subs[k].filter == f && s1.subs[k].since == |s.fanned| && s1.fanned == s.fanned
  {
  }

  lemma TakenIs(s: Ledger, k: nat)
    requires Ok(s) && k in s.subs && s.subs[k].live && s.subs[k].buffer == []
    ensures s.subs[k].since <= |s.fanned| && s.subs[k].consumed == Matching(s.subs[k].filter, s.fanned[s.subs[k].since..])
  {
    assert SubOk(s.fanned, s.subs[k]);
  }

  /**
   Exactly what a connection sends. Once it has drained its channel, a wanted event past the id the
   client named has been sent if and only if it was logged when the replay ran, or was fanned out.
   */
  lemma SentIff(s: Ledger, k: nat, f: Filter, from: nat, before: seq<Op>, after: seq<Op>, id: nat)
    requires Drained(s, k, f, from, before, after)
    requires from < id <= |Now(s, k, f, before, after).log| && Asks(f, Now(s, k, f, before, after).log[id - 1])
    ensures var at, now := AtReplay(s, k, f, before), Now(s, k, f, before, after);
            now.log[id - 1] in Sent(Replayed(s, k, f, from, before), now.subs[k].consumed) <==>
              id <= |at.log| || Fanned(now, id)
  {
    hide Run, Step, Matching, Rows, ReplaySpec, Sse.Beyond, AtReplay, Now;
    var at, now := AtReplay(s, k, f, before), Now(s, k, f, before, after);
    TakenSinceSubscription(s, k, f, from, before, after);
    var e := now.log[id - 1];
    var replayed, taken := Replayed(s, k, f, from, before), now.subs[k].consumed;
    ReplayWithinLimit(at.log, from, f, Sse.REPLAY_LIMIT);
    assert replayed == Matching(f, at.log[from..]);
    assert at.log[from..|at.log|] == at.log[from..];
    Sse.MatchingOfSlice(f, at.log, from, |at.log|);
    MatchingHolds(f, at.log[from..], e);
    assert e in at.log[from..] <==> id <= |at.log| by {
      if id <= |at.log| {
        assert at.log[from..][id - 1 - from] == e;
      }
    }
    var lastSent := Sse.LastId(0, replayed);
    Sse.BeyondKeeps(taken, lastSent);
    MatchingHolds(f, now.fanned[|s.fanned|..], e);
    if id > |at.log| {
      FannedSince(s, now, id);
    }
  }

  // An event logged after the subscription can only have been fanned out after it.
  lemma FannedSince(s: Ledger, now: Ledger, id: nat)
    requires Ok(s) && Ok(now) && s.fanned <= now.fanned && |s.log| < id <= |now.log|
    ensures Fanned(now, id) <==> now.log[id - 1] in now.fanned[|s.fanned|..]
  {
    if Fanned(now, id) {
      var i :| 0 <= i < |now.fanned| && now.fanned[i].id == id;
      assert forall j :: 0 <= j < |s.fanned| ==> now.fanned[j] == s.fanned[j] && s.fanned[j].id <= |s.log|;
      assert now.fanned[|s.fanned|..][i - |s.fanned|] == now.log[id - 1];
    }
  }

  lemma {:induction false} RunAppend(s: Ledger, a: seq<Op>, b: seq<Op>)
    ensures Run(s, a + b) == Run(Run(s, a), b)
    decreases |a|
  {
    hide Step;
    if a == [] {
      assert a + b == b;
    } else {
      assert (a + b)[1..] == a[1..] + b;
      RunAppend(Step(s, a[0]), a[1..], b);
    }
  }

  /** The last id a client of this connection has seen once it has read all it was sent. */
  ghost function LastSeen(s: Ledger, k: nat, f: Filter, from: nat, before: seq<Op>, after: seq<Op>): nat
    requires k in Now(s, k, f, before, after).subs
  {
    Sse.LastId(from, Sent(Replayed(s, k, f, from, before), Now(s, k, f, before, after).subs[k].consumed))
  }

  lemma LastSeenIsLogged(s: Ledger, k: nat, f: Filter, from: nat, before: seq<Op>, after: seq<Op>)
    requires Drained(s, k, f, from, before, after)
    ensures LastSeen(s, k, f, from, before, after) <= |Now(s, k, f, before, after).log|
  {
    hide Run, Step, Matching, Rows, ReplaySpec, Sse.Beyond, AtReplay, Now;
    var at, now := AtReplay(s, k, f, before), Now(s, k, f, before, after);
    TakenSinceSubscription(s, k, f, from, before, after);
    var replayed, taken := Replayed(s, k, f, from, before), now.subs[k].consumed;
    ReplayWithinLimit(at.log, from, f, Sse.REPLAY_LIMIT);
    assert at.log[from..|at.log|] == at.log[from..];
    Sse.MatchingOfSlice(f, at.log, from, |at.log|);
    Sse.BeyondKeeps(taken, Sse.LastId(0, replayed));
    var sent := Sent(replayed, taken);
    if sent != [] {
      var e := sent[|sent| - 1];
      assert e in replayed || e in taken;
      MatchingHolds(f, now.fanned[|s.fanned|..], e);
    }
  }

  // Coming back at `last`, with the backlog within the limit, replays exactly what was logged past it.
  lemma ReplayedOnReturnIff(back: Ledger, f: Filter, last: nat, id: nat)
    requires Ok(back) && last <= |back.log| && |Rows(f, back.log[last..])| <= Sse.REPLAY_LIMIT
    requires 0 < id <= |back.log| && Asks(f, back.log[id - 1])
    ensures back.log[id - 1] in ReplaySpec(back.log, last, f, Sse.REPLAY_LIMIT) <==> id > last
  {
    hide Matching, Rows, ReplaySpec;
    ReplayWithinLimit(back.log, last, f, Sse.REPLAY_LIMIT);
    MatchingHolds(f, back.log[last..], back.log[id - 1]);
    if id > last {
      assert back.log[last..][id - 1 - last] == back.log[id - 1];
    }
  }

  /**
   What a resumed stream loses. Take an event another process logged after the replay, `rank` places
   past the bus's mark, and a client that then reads all it is sent and comes back at the last id it
   saw, with a backlog within the limit. The event is lost for good, neither sent nor replayed, if and
   only if the tailer does not poll far enough before this process next emits, and the client has
   seen a later event.
   */
  lemma LostForGoodIff(s: Ledger, k: nat, f: Filter, from: nat, before: seq<Op>, between: seq<Op>, after: seq<Op>,
                       rank: nat, back: Ledger)
    requires Drained(s, k, f, from, before, between + after)
    requires var mid := Now(s, k, f, before, between);
             var id := mid.published + rank + 1;
             |AtReplay(s, k, f, before).log| < id <= |mid.log| && Asks(f, mid.log[id - 1])
    requires Ok(back) && Now(s, k, f, before, between + after).log <= back.log
    requires var last := LastSeen(s, k, f, from, before, between + after);
             |Rows(f, back.log[Min(last, |back.log|)..])| <= Sse.REPLAY_LIMIT
    ensures var mid, now := Now(s, k, f, before, between), Now(s, k, f, before, between + after);
            var id := mid.published + rank + 1;
            var sent := Sent(Replayed(s, k, f, from, before), now.subs[k].consumed);
            var last := LastSeen(s, k, f, from, before, between + after);
            && id <= |now.log|
            && (now.log[id - 1] !in sent && now.log[id - 1] !in ReplaySpec(back.log, last, f, Sse.REPLAY_LIMIT) <==>
                  rank >= DRAIN_LIMIT * PollsBeforeSkip(after) && id <= last)
  {
    hide Run, Step, Matching, Rows, ReplaySpec, Sse.Beyond, AtReplay, Fanned, Ok, Sent, LastSeen;
    var at := AtReplay(s, k, f, before);
    var mid, now := Now(s, k, f, before, between), Now(s, k, f, before, between + after);
    var id := mid.published + rank + 1;
    TakenSinceSubscription(s, k, f, from, before, between + after);
    RunAppend(at, between, after);
    RunKeepsOk(at, between);
    RunKeepsOk(mid, after);
    assert now.log[id - 1] == mid.log[id - 1];
    ExternalDeliveredIff(mid, after, rank);
    SentIff(s, k, f, from, before, between + after, id);
    LastSeenIsLogged(s, k, f, from, before, between + after);
    ReplayedOnReturnIff(back, f, LastSeen(s, k, f, from, before, between + after), id);
  }
}
