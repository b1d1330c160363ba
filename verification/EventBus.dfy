/**
 `internal/events`: the persisted event log, live fan-out that never blocks, replay, and the
 tailer that picks up what other processes wrote. Each emit and each drained event is one
 atomic step.
 */
module EventBus {
  import opened Options

  const SUBSCRIBER_BUFFER: nat := 256
  const DRAIN_LIMIT: nat := 500

  datatype Event = Event(id: nat, kind: string, actor: string, projectId: string, containerId: string,
                         agentId: string, taskId: string, payload: string)

  datatype Filter = Filter(types: seq<string>, projectId: string, containerId: string, agentId: string, taskId: string)
  {
    predicate TypeMatches(e: Event) {
      |types| > 0 ==> e.kind in types
    }

    // The part of a filter that the replay query does in SQL.
    predicate RowMatches(e: Event) {
      && (projectId != "" ==> e.projectId == projectId)
      && (containerId != "" ==> e.containerId == containerId)
      && (agentId != "" ==> e.agentId == agentId)
      && (taskId != "" ==> e.taskId == taskId)
    }

    predicate Matches(e: Event) {
      if |types| > 0 && e.kind !in types then false
      else if projectId != "" && e.projectId != projectId then false
      else if containerId != "" && e.containerId != containerId then false
      else if agentId != "" && e.agentId != agentId then false
      else if taskId != "" && e.taskId != taskId then false
      else true
    }
  }

  /** What a filter asks for: a listed type, if any is listed, and in each column it fills in that very value. */
  ghost predicate Asks(f: Filter, e: Event) {
    && (f.types == [] || e.kind in f.types)
    && AsksColumns(f, e)
  }

  ghost predicate AsksColumns(f: Filter, e: Event) {
    && (f.projectId == "" || e.projectId == f.projectId)
    && (f.containerId == "" || e.containerId == f.containerId)
    && (f.agentId == "" || e.agentId == f.agentId)
    && (f.taskId == "" || e.taskId == f.taskId)
  }

  lemma MatchesIsAsked(f: Filter, e: Event)
    ensures f.Matches(e) <==> Asks(f, e)
    ensures f.RowMatches(e) <==> AsksColumns(f, e)
    ensures f.RowMatches(e) && f.TypeMatches(e) <==> Asks(f, e)
  {
  }

  const EVERYTHING := Filter([], "", "", "", "")

  ghost function Matching(f: Filter, es: seq<Event>): seq<Event> {
    if es == [] then []
    else Matching(f, es[..|es| - 1]) + if f.Matches(es[|es| - 1]) then [es[|es| - 1]] else []
  }

  lemma {:induction false} MatchingAppend(f: Filter, a: seq<Event>, b: seq<Event>)
    ensures Matching(f, a + b) == Matching(f, a) + Matching(f, b)
  {
    if b == [] {
      assert a + b == a;
    } else {
      assert (a + b)[..|a + b| - 1] == a + b[..|b| - 1];
      MatchingAppend(f, a, b[..|b| - 1]);
    }
  }

  // ---- specification: one subscriber ----

  /**
   A subscription. `live` says whether the bus still holds it; `closes` counts how often its
   channel was closed. `consumed` and `since` (how many fan-outs came before it) are history.
   */
  datatype Sub = Sub(filter: Filter, buffer: seq<Event>, live: bool, closes: nat, consumed: seq<Event>, since: nat)

  function Remove(s: Sub): Sub {
    if s.live then s.(live := false, closes := s.closes + 1) else s
  }

  /** A non-blocking send; a full buffer costs the subscription. */
  function Offer(s: Sub, e: Event): Sub {
    if !s.live || !s.filter.Matches(e) then s
    else if |s.buffer| < SUBSCRIBER_BUFFER then s.(buffer := s.buffer + [e])
    else Remove(s)
  }

  function Receive(s: Sub): Sub {
    if s.buffer == [] then s else s.(buffer := s.buffer[1..], consumed := s.consumed + [s.buffer[0]])
  }

  // ---- specification: the bus ----

  /** `fanned` records the events fanned out so far, in order. */
  datatype Ledger = Ledger(log: seq<Event>, published: nat, fanned: seq<Event>, subs: map<nat, Sub>)

  ghost function FanOut(s: Ledger, e: Event): Ledger {
    s.(fanned := s.fanned + [e], subs := map k | k in s.subs :: Offer(s.subs[k], e))
  }

  ghost function Mark(s: Ledger, id: nat): Ledger {
    if id <= s.published then s else s.(published := id)
  }

  // An event without a type or an actor is refused.
  predicate Wellformed(draft: Event) {
    draft.kind != "" && draft.actor != ""
  }

  ghost function Persist(s: Ledger, draft: Event): Ledger {
    s.(log := s.log + [draft.(id := |s.log| + 1)])
  }

  ghost function Emit(s: Ledger, draft: Event): Ledger {
    if !Wellformed(draft) then s
    else
      var e := draft.(id := |s.log| + 1);
      FanOut(Mark(Persist(s, draft), e.id), e)
  }

  /** Publishes `es` one by one, each only if it is past the high-water mark. */
  ghost function Publish(s: Ledger, es: seq<Event>): Ledger
    decreases |es|
  {
    if es == [] then s
    else Publish(if es[0].id <= s.published then s else FanOut(Mark(s, es[0].id), es[0]), es[1..])
  }

  function Min(a: nat, b: nat): nat {
    if a <= b then a else b
  }

  /** One poll of the tailer: up to 500 events past the mark. */
  ghost function Drain(s: Ledger): Ledger {
    var pending := s.log[Min(s.published, |s.log|)..];
    Publish(s, pending[..Min(DRAIN_LIMIT, |pending|)])
  }

  lemma DrainIs(s: Ledger)
    requires s.published <= |s.log|
    ensures Drain(s) == Publish(s, s.log[s.published..Min(s.published + DRAIN_LIMIT, |s.log|)])
  {
    var pending := s.log[s.published..];
    assert pending[..Min(DRAIN_LIMIT, |pending|)] == s.log[s.published..Min(s.published + DRAIN_LIMIT, |s.log|)];
  }

  datatype Op =
    // This process emits; another process writes to the log.
    | EmitOp(draft: Event)
    | ExternalOp(draft: Event)
    // The tailer starts (from where the log already is) and polls.
    | TailOp
    | DrainOp
    // A consumer subscribes (under a key not used before), cancels, or takes one event.
    | SubscribeOp(key: nat, filter: Filter)
    | CancelOp(key: nat)
    | ConsumeOp(key: nat)

  ghost function Step(s: Ledger, op: Op): Ledger {
    match op
    case EmitOp(draft) => Emit(s, draft)
    case ExternalOp(draft) => if Wellformed(draft) then Persist(s, draft) else s
    case TailOp => Mark(s, |s.log|)
    case DrainOp => Drain(s)
    case SubscribeOp(k, f) =>
      if k in s.subs then s else s.(subs := s.subs[k := Sub(f, [], true, 0, [], |s.fanned|)])
    case CancelOp(k) => if k in s.subs then s.(subs := s.subs[k := Remove(s.subs[k])]) else s
    case ConsumeOp(k) => if k in s.subs then s.(subs := s.subs[k := Receive(s.subs[k])]) else s
  }

  // ---- the invariant ----

  ghost predicate SubOk(fanned: seq<Event>, sub: Sub) {
    && sub.since <= |fanned|
    && sub.consumed + sub.buffer <= Matching(sub.filter, fanned[sub.since..])
    && (sub.live ==> sub.consumed + sub.buffer == Matching(sub.filter, fanned[sub.since..]))
    && |sub.buffer| <= SUBSCRIBER_BUFFER
    && sub.closes == if sub.live then 0 else 1
  }

  ghost predicate Ok(s: Ledger) {
    && (forall i :: 0 <= i < |s.log| ==> s.log[i].id == i + 1)
    && s.published <= |s.log|
    // What was fanned out are logged events, in strictly increasing id order, none past the mark.
    && (forall i :: 0 <= i < |s.fanned| ==>
          0 < s.fanned[i].id <= s.published && s.fanned[i] == s.log[s.fanned[i].id - 1])
    && (forall i, j :: 0 <= i < j < |s.fanned| ==> s.fanned[i].id < s.fanned[j].id)
    && (forall k :: k in s.subs ==> SubOk(s.fanned, s.subs[k]))
  }

  lemma OfferKeepsSub(fanned: seq<Event>, e: Event, sub: Sub)
    requires SubOk(fanned, sub)
    ensures SubOk(fanned + [e], Offer(sub, e))
  {
    var since := fanned[sub.since..];
    assert (fanned + [e])[sub.since..] == since + [e];
    MatchingAppend(sub.filter, since, [e]);
    assert Matching(sub.filter, [e]) == if sub.filter.Matches(e) then [e] else [] by {
      assert [e][..0] == [];
    }
    assert sub.consumed + (sub.buffer + [e]) == sub.consumed + sub.buffer + [e];
  }

  lemma MarkThenFanOutOk(s: Ledger, e: Event)
    requires Ok(s) && s.published < e.id <= |s.log| && e == s.log[e.id - 1]
    ensures Ok(FanOut(Mark(s, e.id), e)) && FanOut(Mark(s, e.id), e).log == s.log
  {
    hide SubOk, Offer, Matching;
    var s' := FanOut(Mark(s, e.id), e);
    forall k | k in s'.subs ensures SubOk(s'.fanned, s'.subs[k]) {
      OfferKeepsSub(s.fanned, e, s.subs[k]);
    }
  }

  lemma {:induction false} PublishOk(s: Ledger, from: nat, upto: nat)
    requires Ok(s) && from <= upto <= |s.log|
    ensures var s' := Publish(s, s.log[from..upto]);
            Ok(s') && s'.log == s.log && s'.published == if s.published < upto && from < upto then upto else s.published
    decreases upto - from
  {
    hide Matching, FanOut, Mark;
    if from < upto {
      var e := s.log[from];
      assert s.log[from..upto][0] == e && s.log[from..upto][1..] == s.log[from + 1..upto];
      if e.id > s.published {
        MarkThenFanOutOk(s, e);
        MarkRaises(s, e);
        PublishOk(FanOut(Mark(s, e.id), e), from + 1, upto);
      } else {
        PublishOk(s, from + 1, upto);
      }
    }
  }

  lemma MarkRaises(s: Ledger, e: Event)
    requires e.id > s.published
    ensures FanOut(Mark(s, e.id), e).published == e.id
  {
  }

  lemma PersistOk(s: Ledger, draft: Event)
    requires Ok(s)
    ensures Ok(Persist(s, draft))
  {
    hide SubOk;
  }

  lemma MarkOk(s: Ledger, id: nat)
    requires Ok(s) && id <= |s.log|
    ensures Ok(Mark(s, id)) && Mark(s, id).log == s.log
  {
    hide SubOk;
  }

  // Every operation of a consumer replaces one subscription.
  lemma ReplaceSubOk(s: Ledger, k: nat, sub: Sub)
    requires Ok(s) && SubOk(s.fanned, sub)
    ensures Ok(s.(subs := s.subs[k := sub]))
  {
    hide SubOk;
  }

  lemma FreshSubOk(fanned: seq<Event>, f: Filter)
    ensures SubOk(fanned, Sub(f, [], true, 0, [], |fanned|))
  {
    assert fanned[|fanned|..] == [];
  }

  lemma RemoveOk(fanned: seq<Event>, sub: Sub)
    requires SubOk(fanned, sub)
    ensures SubOk(fanned, Remove(sub))
  {
    hide Matching;
  }

  lemma ReceiveOk(fanned: seq<Event>, sub: Sub)
    requires SubOk(fanned, sub)
    ensures SubOk(fanned, Receive(sub))
  {
    hide Matching;
    if sub.buffer != [] {
      assert sub.consumed + [sub.buffer[0]] + sub.buffer[1..] == sub.consumed + sub.buffer;
    }
  }

  lemma StepKeepsOk(s: Ledger, op: Op)
    requires Ok(s)
    ensures Ok(Step(s, op))
    ensures s.log <= Step(s, op).log
  {
    hide SubOk, Offer, Publish, FanOut, Mark;
    match op {
      case EmitOp(draft) =>
        if Wellformed(draft) {
          PersistOk(s, draft);
          MarkThenFanOutOk(Persist(s, draft), draft.(id := |s.log| + 1));
        }
      case ExternalOp(draft) => PersistOk(s, draft);
      case TailOp => MarkOk(s, |s.log|);
      case DrainOp =>
        DrainIs(s);
        PublishOk(s, s.published, Min(s.published + DRAIN_LIMIT, |s.log|));
      case SubscribeOp(k, f) =>
        FreshSubOk(s.fanned, f);
        ReplaceSubOk(s, k, Sub(f, [], true, 0, [], |s.fanned|));
      case CancelOp(k) =>
        if k in s.subs {
          RemoveOk(s.fanned, s.subs[k]);
          ReplaceSubOk(s, k, Remove(s.subs[k]));
        }
      case ConsumeOp(k) =>
        if k in s.subs {
          ReceiveOk(s.fanned, s.subs[k]);
          ReplaceSubOk(s, k, Receive(s.subs[k]));
        }
    }
  }

  ghost function Run(s: Ledger, ops: seq<Op>): Ledger
    decreases |ops|
  {
    if ops == [] then s else Run(Step(s, ops[0]), ops[1..])
  }

  lemma {:induction false} RunKeepsOk(s: Ledger, ops: seq<Op>)
    requires Ok(s)
    ensures Ok(Run(s, ops)) && s.log <= Run(s, ops).log
    decreases |ops|
  {
    hide Ok, Step;
    if ops != [] {
      StepKeepsOk(s, ops[0]);
      RunKeepsOk(Step(s, ops[0]), ops[1..]);
    }
  }

  const EMPTY := Ledger([], 0, [], map[])

  // ---- what every run guarantees ----

  /**
   No silent gap. After any run, what a live subscriber has consumed and holds buffered is exactly
   the matching events fanned out since it subscribed; one that was dropped holds a prefix of
   them; a channel is closed exactly once when it is dropped and never before; and no buffer is
   over its limit.
   */
  lemma NoSilentGap(ops: seq<Op>, k: nat)
    requires k in Run(EMPTY, ops).subs
    ensures var s := Run(EMPTY, ops);
            var sub := s.subs[k];
            && sub.since <= |s.fanned|
            && sub.consumed + sub.buffer <= Matching(sub.filter, s.fanned[sub.since..])
            && (sub.live ==> sub.consumed + sub.buffer == Matching(sub.filter, s.fanned[sub.since..]))
            && (sub.closes == 0 <==> sub.live) && sub.closes <= 1
            && |sub.buffer| <= 256
  {
    hide Run, Matching;
    RunKeepsOk(EMPTY, ops);
    assert SubOk(Run(EMPTY, ops).fanned, Run(EMPTY, ops).subs[k]);
  }

  lemma {:induction false} MatchingHolds(f: Filter, es: seq<Event>, e: Event)
    ensures e in Matching(f, es) <==> e in es && Asks(f, e)
  {
    if es != [] {
      MatchingHolds(f, es[..|es| - 1], e);
      MatchesIsAsked(f, es[|es| - 1]);
      assert es == es[..|es| - 1] + [es[|es| - 1]];
    }
  }

  /**
   A subscriber gets what it asked for and nothing else, in every run: each event it was given has the columns
   it filled in and a type it listed, and while its subscription stands it has been given every such
   event fanned out since it subscribed.
   */
  lemma HeardAsAsked(ops: seq<Op>, k: nat, e: Event)
    requires k in Run(EMPTY, ops).subs
    ensures var s := Run(EMPTY, ops);
            var sub := s.subs[k];
            && (e in sub.consumed || e in sub.buffer ==> Asks(sub.filter, e) && e in s.fanned)
            && sub.since <= |s.fanned|
            && (sub.live && e in s.fanned[sub.since..] && Asks(sub.filter, e) ==> e in sub.consumed || e in sub.buffer)
  {
    hide Run, Matching, Asks;
    NoSilentGap(ops, k);
    var s := Run(EMPTY, ops);
    var sub := s.subs[k];
    var all := Matching(sub.filter, s.fanned[sub.since..]);
    MatchingHolds(sub.filter, s.fanned[sub.since..], e);
    assert e in sub.consumed + sub.buffer <==> e in sub.consumed || e in sub.buffer;
    assert e in sub.consumed + sub.buffer ==> e in all;
  }

  lemma {:induction false} MatchingIncreases(f: Filter, es: seq<Event>)
    requires forall i, j :: 0 <= i < j < |es| ==> es[i].id < es[j].id
    ensures forall e :: e in Matching(f, es) ==> e in es && f.Matches(e)
    ensures forall i, j :: 0 <= i < j < |Matching(f, es)| ==> Matching(f, es)[i].id < Matching(f, es)[j].id
  {
    if es != [] {
      var front, last := es[..|es| - 1], es[|es| - 1];
      MatchingIncreases(f, front);
      assert forall e :: e in front ==> e.id < last.id;
      assert forall i :: 0 <= i < |Matching(f, front)| ==> Matching(f, front)[i] in Matching(f, front);
    }
  }

  lemma SuffixIncreases(es: seq<Event>, n: nat)
    requires forall i, j :: 0 <= i < j < |es| ==> es[i].id < es[j].id
    requires n <= |es|
    ensures forall i, j :: 0 <= i < j < |es[n..]| ==> es[n..][i].id < es[n..][j].id
  {
  }

  /** No event reaches a subscriber twice, and events reach it in log order. */
  lemma DeliveredInOrderOnce(ops: seq<Op>, k: nat, i: nat, j: nat)
    requires k in Run(EMPTY, ops).subs
    requires var sub := Run(EMPTY, ops).subs[k]; i < j < |sub.consumed + sub.buffer|
    ensures var got := Run(EMPTY, ops).subs[k].consumed + Run(EMPTY, ops).subs[k].buffer;
            got[i].id < got[j].id
  {
    hide Matching, Run;
    RunKeepsOk(EMPTY, ops);
    var s := Run(EMPTY, ops);
    var sub := s.subs[k];
    assert SubOk(s.fanned, sub);
    SuffixIncreases(s.fanned, sub.since);
    MatchingIncreases(sub.filter, s.fanned[sub.since..]);
  }

  // ---- the tailer: exactly which external events reach subscribers ----

  // The steps that raise the mark to the end of the log without delivering what they pass.
  predicate Skips(op: Op) {
    op.TailOp? || (op.EmitOp? && Wellformed(op.draft))
  }

  /** How many polls a run makes before this process first emits an event itself, or starts a tailer. */
  ghost function PollsBeforeSkip(ops: seq<Op>): nat {
    if ops == [] || Skips(ops[0]) then 0
    else (if ops[0].DrainOp? then 1 else 0) + PollsBeforeSkip(ops[1..])
  }

  ghost predicate Fanned(s: Ledger, id: nat) {
    exists i :: 0 <= i < |s.fanned| && s.fanned[i].id == id
  }

  lemma FannedGrows(s: Ledger, e: Event, id: nat)
    ensures Fanned(FanOut(s, e), id) <==> Fanned(s, id) || e.id == id
  {
    var s' := FanOut(s, e);
    if Fanned(s, id) {
      var i :| 0 <= i < |s.fanned| && s.fanned[i].id == id;
      assert s'.fanned[i].id == id;
    }
    assert s'.fanned[|s.fanned|] == e;
  }

  lemma {:induction false} PublishFans(s: Ledger, from: nat, upto: nat, id: nat)
    requires Ok(s) && s.published <= from <= upto <= |s.log|
    ensures Fanned(Publish(s, s.log[from..upto]), id) <==> Fanned(s, id) || from < id <= upto
    decreases upto - from
  {
    hide FanOut, Mark, Fanned;
    if from < upto {
      var e := s.log[from];
      assert s.log[from..upto][0] == e && s.log[from..upto][1..] == s.log[from + 1..upto];
      MarkThenFanOutOk(s, e);
      MarkRaises(s, e);
      FannedGrows(Mark(s, e.id), e, id);
      MarkFansNothing(s, e.id, id);
      PublishFans(FanOut(Mark(s, e.id), e), from + 1, upto, id);
    }
  }

  lemma MarkFansNothing(s: Ledger, id: nat, x: nat)
    ensures Fanned(Mark(s, id), x) == Fanned(s, x)
  {
  }

  // What one step does to the mark and to an event that is already logged.
  lemma StepFans(s: Ledger, op: Op, id: nat)
    requires Ok(s) && 0 < id <= |s.log|
    ensures Fanned(Step(s, op), id) <==>
              Fanned(s, id) || (op.DrainOp? && s.published < id <= s.published + DRAIN_LIMIT)
    ensures Step(s, op).published ==
            if op.DrainOp? then Min(s.published + DRAIN_LIMIT, |s.log|)
            else if Skips(op) then |Step(s, op).log|
            else s.published
  {
    match op {
      case EmitOp(draft) =>
        if Wellformed(draft) {
          var e := draft.(id := |s.log| + 1);
          FannedGrows(Mark(Persist(s, draft), e.id), e, id);
        }
      case DrainOp =>
        DrainIs(s);
        PublishFans(s, s.published, Min(s.published + DRAIN_LIMIT, |s.log|), id);
        PublishOk(s, s.published, Min(s.published + DRAIN_LIMIT, |s.log|));
      case _ =>
    }
  }

  // An event behind the mark that was not fanned out never will be.
  lemma {:induction false} LostStaysLost(s: Ledger, ops: seq<Op>, id: nat)
    requires Ok(s) && 0 < id <= s.published && !Fanned(s, id)
    ensures !Fanned(Run(s, ops), id)
    decreases |ops|
  {
    hide Fanned, Step;
    if ops != [] {
      StepKeepsOk(s, ops[0]);
      StepFans(s, ops[0], id);
      LostStaysLost(Step(s, ops[0]), ops[1..], id);
    }
  }

  /**
   The tailer delivers at most once, and exactly when. An event another process logged, `rank`
   places past the mark, reaches the subscribers in a run if and only if the tailer polls often
   enough (500 events a poll) before this process next emits an event of its own (or starts
   tailing): that raises the mark past everything still pending, and what it passes over is never delivered.
   */
  lemma {:induction false} ExternalDeliveredIff(s: Ledger, ops: seq<Op>, rank: nat)
    requires Ok(s) && s.published + rank < |s.log|
    ensures Fanned(Run(s, ops), s.published + rank + 1) <==> rank < DRAIN_LIMIT * PollsBeforeSkip(ops)
    decreases |ops|
  {
    hide Step, FanOut;
    var id := s.published + rank + 1;
    PendingNotFanned(s, id);
    if ops != [] {
      StepKeepsOk(s, ops[0]);
      StepFans(s, ops[0], id);
      var s1 := Step(s, ops[0]);
      if Skips(ops[0]) {
        LostStaysLost(s1, ops[1..], id);
      } else if ops[0].DrainOp? {
        if rank < DRAIN_LIMIT {
          FannedStays(s1, ops[1..], id);
        } else {
          ExternalDeliveredIff(s1, ops[1..], rank - DRAIN_LIMIT);
        }
      } else {
        ExternalDeliveredIff(s1, ops[1..], rank);
      }
    }
  }

  lemma PendingNotFanned(s: Ledger, id: nat)
    requires Ok(s) && s.published < id
    ensures !Fanned(s, id)
  {
  }

  lemma {:induction false} FannedStays(s: Ledger, ops: seq<Op>, id: nat)
    requires Ok(s) && 0 < id <= |s.log| && Fanned(s, id)
    ensures Fanned(Run(s, ops), id)
    decreases |ops|
  {
    hide Fanned, Step;
    if ops != [] {
      StepKeepsOk(s, ops[0]);
      StepFans(s, ops[0], id);
      FannedStays(Step(s, ops[0]), ops[1..], id);
    }
  }

  /** An event this process emits is fanned out by that very step, and stays so. */
  lemma LocalEventsAreFanned(s: Ledger, draft: Event, ops: seq<Op>)
    requires Ok(s) && Wellformed(draft)
    ensures Fanned(Run(Step(s, EmitOp(draft)), ops), |s.log| + 1)
  {
    hide Fanned, FanOut, Run;
    var e := draft.(id := |s.log| + 1);
    StepKeepsOk(s, EmitOp(draft));
    FannedGrows(Mark(Persist(s, draft), e.id), e, e.id);
    EmitLogs(s, draft);
    FannedStays(Step(s, EmitOp(draft)), ops, e.id);
  }

  lemma EmitLogs(s: Ledger, draft: Event)
    requires Wellformed(draft)
    ensures Step(s, EmitOp(draft)).log == s.log + [draft.(id := |s.log| + 1)]
  {
  }

  // ---- replay ----

  function Rows(f: Filter, es: seq<Event>): seq<Event> {
    if es == [] then []
    else Rows(f, es[..|es| - 1]) + if f.RowMatches(es[|es| - 1]) then [es[|es| - 1]] else []
  }

  ghost function OfTypes(f: Filter, es: seq<Event>): seq<Event> {
    if es == [] then []
    else OfTypes(f, es[..|es| - 1]) + if f.TypeMatches(es[|es| - 1]) then [es[|es| - 1]] else []
  }

  /** The query: rows past `since` that the filter's columns admit, oldest first, at most `limit`. */
  function Query(log: seq<Event>, since: nat, f: Filter, limit: nat): seq<Event> {
    var rows := Rows(f, log[Min(since, |log|)..]);
    rows[..Min(limit, |rows|)]
  }

  /** A replay: the rows of the query that have a wanted type. */
  ghost function ReplaySpec(log: seq<Event>, since: nat, f: Filter, limit: nat): seq<Event> {
    OfTypes(f, Query(log, since, f, limit))
  }

  lemma {:induction false} RowsAppend(f: Filter, a: seq<Event>, b: seq<Event>)
    ensures Rows(f, a + b) == Rows(f, a) + Rows(f, b)
  {
    if b == [] {
      assert a + b == a;
    } else {
      assert (a + b)[..|a + b| - 1] == a + b[..|b| - 1];
      RowsAppend(f, a, b[..|b| - 1]);
    }
  }

  lemma {:induction false} OfTypesAppend(f: Filter, a: seq<Event>, b: seq<Event>)
    ensures OfTypes(f, a + b) == OfTypes(f, a) + OfTypes(f, b)
  {
    if b == [] {
      assert a + b == a;
    } else {
      assert (a + b)[..|a + b| - 1] == a + b[..|b| - 1];
      OfTypesAppend(f, a, b[..|b| - 1]);
    }
  }

  /** Within the limit, replay is exactly the matching log suffix. */
  lemma ReplayWithinLimit(log: seq<Event>, since: nat, f: Filter, limit: nat)
    requires |Rows(f, log[Min(since, |log|)..])| <= limit
    ensures ReplaySpec(log, since, f, limit) == Matching(f, log[Min(since, |log|)..])
  {
    var es := log[Min(since, |log|)..];
    assert Rows(f, es)[..Min(limit, |Rows(f, es)|)] == Rows(f, es);
    TypesOfRows(f, es);
  }

  /** How many of these rows have the columns a filter fills in. */
  ghost function Admitted(f: Filter, es: seq<Event>): nat {
    if es == [] then 0 else Admitted(f, es[..|es| - 1]) + if AsksColumns(f, es[|es| - 1]) then 1 else 0
  }

  lemma {:induction false} RowsAdmitted(f: Filter, es: seq<Event>)
    ensures |Rows(f, es)| == Admitted(f, es)
    ensures forall e :: e in Rows(f, es) <==> e in es && AsksColumns(f, e)
  {
    if es != [] {
      RowsAdmitted(f, es[..|es| - 1]);
      MatchesIsAsked(f, es[|es| - 1]);
      assert forall e :: e in es <==> e in es[..|es| - 1] || e == es[|es| - 1];
    }
  }

  lemma {:induction false} OfTypesHolds(f: Filter, es: seq<Event>, e: Event)
    ensures e in OfTypes(f, es) <==> e in es && f.TypeMatches(e)
  {
    if es != [] {
      OfTypesHolds(f, es[..|es| - 1], e);
      assert es == es[..|es| - 1] + [es[|es| - 1]];
    }
  }

  lemma RowsAround(f: Filter, es: seq<Event>, i: nat)
    requires i < |es| && AsksColumns(f, es[i])
    ensures Rows(f, es) == Rows(f, es[..i]) + [es[i]] + Rows(f, es[i + 1..])
  {
    hide AsksColumns;
    MatchesIsAsked(f, es[i]);
    RowsOfOne(f, es[i]);
    assert es == es[..i] + [es[i]] + es[i + 1..];
    RowsAppend(f, es[..i] + [es[i]], es[i + 1..]);
    RowsAppend(f, es[..i], [es[i]]);
  }

  lemma RowsOfOne(f: Filter, e: Event)
    requires f.RowMatches(e)
    ensures Rows(f, [e]) == [e]
  {
    assert [e][..0] == [];
  }

  // An event is among the first `limit` of a list exactly if fewer come before it.
  lemma AmongFirst(before: seq<Event>, e: Event, after: seq<Event>, limit: nat)
    requires e !in before
    ensures var all := before + [e] + after; e in all[..Min(limit, |all|)] <==> |before| < limit
  {
    var all := before + [e] + after;
    if |before| < limit {
      assert all[..Min(limit, |all|)][|before|] == e;
    } else {
      assert all[..Min(limit, |all|)] == before[..limit];
    }
  }

  // Row `i` of a numbered list is among the first `limit` admitted ones exactly if fewer come before it.
  lemma RowWithinLimit(f: Filter, es: seq<Event>, i: nat, limit: nat)
    requires i < |es| && AsksColumns(f, es[i])
    requires forall a, b :: 0 <= a < b < |es| ==> es[a].id < es[b].id
    ensures es[i] in Rows(f, es)[..Min(limit, |Rows(f, es)|)] <==> Admitted(f, es[..i]) < limit
  {
    hide AsksColumns, Rows, Admitted;
    RowsAround(f, es, i);
    RowsAdmitted(f, es[..i]);
    AmongFirst(Rows(f, es[..i]), es[i], Rows(f, es[i + 1..]), limit);
  }

  /**
   What a replay returns, row by row: an event past the id is among it if and only if the filter asks for it
   and fewer than the limit of the rows between have the filter's columns, whatever their types.
   */
  lemma ReplayHoldsIff(log: seq<Event>, since: nat, f: Filter, limit: nat, i: nat)
    requires since <= i < |log| && forall j :: 0 <= j < |log| ==> log[j].id == j + 1
    ensures log[i] in ReplaySpec(log, since, f, limit) <==> Asks(f, log[i]) && Admitted(f, log[since..i]) < limit
    ensures forall e :: e in ReplaySpec(log, since, f, limit) ==> e in log[since..]
  {
    hide Asks, AsksColumns;
    var es := log[since..];
    assert es[i - since] == log[i] && es[..i - since] == log[since..i];
    RowsAdmitted(f, es);
    var rows := Rows(f, es);
    var first := rows[..Min(limit, |rows|)];
    MatchesIsAsked(f, log[i]);
    OfTypesHolds(f, first, log[i]);
    if AsksColumns(f, log[i]) {
      RowWithinLimit(f, es, i - since, limit);
    } else {
      assert log[i] !in rows && forall e :: e in first ==> e in rows;
    }
    forall e | e in ReplaySpec(log, since, f, limit) ensures e in log[since..] {
      OfTypesHolds(f, first, e);
      assert e in rows;
    }
  }

  lemma {:induction false} TypesOfRows(f: Filter, es: seq<Event>)
    ensures OfTypes(f, Rows(f, es)) == Matching(f, es)
  {
    if es != [] {
      var front, last := es[..|es| - 1], es[|es| - 1];
      TypesOfRows(f, front);
      assert f.Matches(last) == (f.RowMatches(last) && f.TypeMatches(last));
      if f.RowMatches(last) {
        var rows := Rows(f, front) + [last];
        assert rows[..|rows| - 1] == Rows(f, front) && rows[|rows| - 1] == last;
        assert Rows(f, es) == rows;
      } else {
        assert Rows(f, es) == Rows(f, front);
      }
    }
  }

  lemma {:induction false} EverythingMatches(es: seq<Event>)
    ensures Rows(EVERYTHING, es) == es && OfTypes(EVERYTHING, es) == es
  {
    if es != [] {
      EverythingMatches(es[..|es| - 1]);
      assert es[..|es| - 1] + [es[|es| - 1]] == es;
    }
  }

  /** One poll, in full: the next 500 events past the mark, in order, and the mark behind them. */
  lemma DrainDelivers(s: Ledger)
    requires Ok(s)
    ensures Drain(s).fanned == s.fanned + s.log[s.published..Min(s.published + 500, |s.log|)]
    ensures Drain(s).published == Min(s.published + 500, |s.log|) && Drain(s).log == s.log
  {
    DrainIs(s);
    PublishAdds(s, s.published, Min(s.published + 500, |s.log|));
  }

  lemma {:induction false} PublishAdds(s: Ledger, from: nat, upto: nat)
    requires Ok(s) && s.published == from <= upto <= |s.log|
    ensures Publish(s, s.log[from..upto]).fanned == s.fanned + s.log[from..upto]
    ensures Publish(s, s.log[from..upto]).published == upto && Publish(s, s.log[from..upto]).log == s.log
    decreases upto - from
  {
    hide Ok, Offer;
    if from < upto {
      var e := s.log[from];
      assert e.id == from + 1 by { NumberedAt(s, from); }
      assert s.log[from..upto] == [e] + s.log[from + 1..upto];
      MarkThenFanOutOk(s, e);
      PublishAdds(FanOut(Mark(s, e.id), e), from + 1, upto);
    }
  }

  lemma NumberedAt(s: Ledger, i: nat)
    requires Ok(s) && i < |s.log|
    ensures s.log[i].id == i + 1
  {
  }

  // ---- the bus itself ----

  datatype Emitted = Stored(event: Event) | NoType | NoActor | NotPersisted

  class Bus {
    var log: seq<Event>
    var published: nat
    // One entry per subscription ever made; the bus holds those that are `live`.
    var subs: map<nat, Sub>
    // History: every event fanned out, in order.
    var fanned: seq<Event>

    ghost function State(): Ledger
      reads this
    {
      Ledger(log, published, fanned, subs)
    }

    constructor ()
      ensures State() == EMPTY
    {
      log, published, subs, fanned := [], 0, map[], [];
    }

    method MarkPublished(id: nat) returns (isNew: bool)
      modifies this`published
      ensures isNew == (id > old(published))
      ensures published == if id > old(published) then id else old(published)
      ensures State() == Mark(old(State()), id)
    {
      if id <= published { return false; }
      published := id;
      return true;
    }

    method Subscribe(key: nat, filter: Filter)
      requires key !in subs && published <= |log|
      modifies this`subs
      ensures State() == Step(old(State()), SubscribeOp(key, filter))
      ensures subs == old(subs)[key := Sub(filter, [], true, 0, [], |fanned|)]
    {
      subs := subs[key := Sub(filter, [], true, 0, [], |fanned|)];
    }

    /** Cancels a subscription; cancelling again, or after a drop, does nothing. */
    method Cancel(key: nat)
      requires key in subs
      modifies this`subs
      ensures subs == old(subs)[key := Remove(old(subs)[key])]
      ensures old(subs)[key].live ==> subs[key] == old(subs)[key].(live := false, closes := old(subs)[key].closes + 1)
      ensures !old(subs)[key].live ==> subs == old(subs)
    {
      var present := subs[key].live;
      if present {
        subs := subs[key := subs[key].(live := false, closes := subs[key].closes + 1)];
      } else {
        assert subs[key := subs[key]] == subs;
      }
    }

    method Targets(e: Event) returns (targets: seq<nat>)
      ensures forall k :: k in targets <==> k in subs && subs[k].live && subs[k].filter.Matches(e)
      ensures forall i, j :: 0 <= i < j < |targets| ==> targets[i] != targets[j]
    {
      targets := [];
      var rest := subs.Keys;
      while rest != {}
        invariant rest <= subs.Keys
        invariant forall k :: k in targets <==> k in subs && k !in rest && subs[k].live && subs[k].filter.Matches(e)
        invariant forall i, j :: 0 <= i < j < |targets| ==> targets[i] != targets[j]
        decreases |rest|
      {
        var k :| k in rest;
        rest := rest - {k};
        if subs[k].live && subs[k].filter.Matches(e) {
          targets := targets + [k];
        }
      }
    }

    // Non-blocking sends; the targets whose buffers are full are returned.
    method SendAll(targets: seq<nat>, e: Event) returns (stalled: seq<nat>)
      requires forall k :: k in targets ==> k in subs
      requires forall i, j :: 0 <= i < j < |targets| ==> targets[i] != targets[j]
      modifies this`subs
      ensures subs.Keys == old(subs).Keys
      ensures forall k :: k in subs ==>
        subs[k] == if k in targets && |old(subs)[k].buffer| < SUBSCRIBER_BUFFER
                   then old(subs)[k].(buffer := old(subs)[k].buffer + [e]) else old(subs)[k]
      ensures forall k :: k in stalled <==> k in targets && |old(subs)[k].buffer| >= SUBSCRIBER_BUFFER
    {
      var before := subs;
      stalled := [];
      for i := 0 to |targets|
        invariant subs.Keys == before.Keys
        invariant forall k :: k in stalled <==> k in targets[..i] && |before[k].buffer| >= SUBSCRIBER_BUFFER
        invariant forall k :: k in before ==>
          subs[k] == if k in targets[..i] && |before[k].buffer| < SUBSCRIBER_BUFFER
                     then before[k].(buffer := before[k].buffer + [e]) else before[k]
      {
        var k := targets[i];
        assert targets[..i + 1] == targets[..i] + [k];
        assert k !in targets[..i];
        if |subs[k].buffer| < SUBSCRIBER_BUFFER {
          subs := subs[k := subs[k].(buffer := subs[k].buffer + [e])];
        } else {
          stalled := stalled + [k];
        }
      }
      assert targets[..|targets|] == targets;
    }

    method DropAll(stalled: seq<nat>)
      requires forall k :: k in stalled ==> k in subs
      modifies this`subs
      ensures subs.Keys == old(subs).Keys
      ensures forall k :: k in subs ==> subs[k] == if k in stalled then Remove(old(subs)[k]) else old(subs)[k]
    {
      for i := 0 to |stalled|
        invariant subs.Keys == old(subs).Keys
        invariant forall k :: k in subs ==> subs[k] == if k in stalled[..i] then Remove(old(subs)[k]) else old(subs)[k]
      {
        assert stalled[..i + 1] == stalled[..i] + [stalled[i]];
        assert stalled[i] in stalled;
        Cancel(stalled[i]);
      }
      assert stalled[..|stalled|] == stalled;
    }

    /** Offers the event to every matching subscriber, then drops the ones that were full. */
    method Fanout(e: Event)
      modifies this`subs, this`fanned
      ensures State() == FanOut(old(State()), e)
      ensures fanned == old(fanned) + [e] && subs.Keys == old(subs).Keys
      ensures forall k :: k in subs ==>
        var was := old(subs)[k];
        subs[k] == if !was.live || !Asks(was.filter, e) then was
                   else if |was.buffer| < 256 then was.(buffer := was.buffer + [e])
                   else was.(live := false, closes := was.closes + 1)
    {
      forall k | k in subs ensures subs[k].filter.Matches(e) <==> Asks(subs[k].filter, e) {
        MatchesIsAsked(subs[k].filter, e);
      }
      hide Asks;
      var targets := Targets(e);
      var stalled := SendAll(targets, e);
      DropAll(stalled);
      fanned := fanned + [e];
      assert subs == map k | k in old(subs) :: Offer(old(subs)[k], e);
    }

    /** Persist, mark, fan out; `inserted` is whether the database took the row. */
    method EmitReturning(draft: Event, inserted: bool) returns (r: Emitted)
      modifies this
      ensures r.Stored? <==> inserted && draft.kind != "" && draft.actor != ""
      ensures r.NoType? <==> draft.kind == ""
      ensures r.NoActor? <==> draft.kind != "" && draft.actor == ""
      ensures State() == if r.Stored? then Emit(old(State()), draft) else old(State())
      ensures r.Stored? ==> r.event == draft.(id := |old(log)| + 1) && log == old(log) + [r.event]
      ensures r.Stored? ==>
        && fanned == old(fanned) + [r.event]
        && published == if |log| > old(published) then |log| else old(published)
      ensures !r.Stored? ==> unchanged(this)
    {
      if draft.kind == "" { return NoType; }
      if draft.actor == "" { return NoActor; }
      if !inserted { return NotPersisted; }
      var e := draft.(id := |log| + 1);
      log := log + [e];
      var _ := MarkPublished(e.id);
      Fanout(e);
      return Stored(e);
    }

    method Replay(since: nat, f: Filter, limit: int) returns (out: seq<Event>)
      ensures out == ReplaySpec(log, since, f, if limit <= 0 then 500 else limit)
    {
      var limit' := if limit <= 0 then 500 else limit;
      var rows := Query(log, since, f, limit');
      out := [];
      for i := 0 to |rows|
        invariant out == OfTypes(f, rows[..i])
      {
        assert rows[..i + 1][..i] == rows[..i];
        if |f.types| > 0 && rows[i].kind !in f.types { continue; }
        out := out + [rows[i]];
      }
      assert rows[..|rows|] == rows;
    }

    /** One poll: events past the mark, each marked before it is fanned out. */
    method DrainExternal()
      requires published <= |log|
      modifies this
      ensures State() == Drain(old(State()))
    {
      var pending := Replay(published, EVERYTHING, 500);
      DrainReads(log, published);
      DrainIs(State());
      ghost var goal := Publish(State(), pending);
      for i := 0 to |pending|
        invariant Publish(State(), pending[i..]) == goal
      {
        assert pending[i..][0] == pending[i] && pending[i..][1..] == pending[i + 1..];
        var isNew := MarkPublished(pending[i].id);
        if isNew {
          Fanout(pending[i]);
        }
      }
      assert pending[|pending|..] == [];
    }
  }

  lemma DrainReads(log: seq<Event>, published: nat)
    requires published <= |log|
    ensures ReplaySpec(log, published, EVERYTHING, DRAIN_LIMIT)
         == log[published..Min(published + DRAIN_LIMIT, |log|)]
  {
    var es := log[published..];
    EverythingMatches(es);
    EverythingMatches(es[..Min(DRAIN_LIMIT, |es|)]);
    assert es[..Min(DRAIN_LIMIT, |es|)] == log[published..Min(published + DRAIN_LIMIT, |log|)];
  }
}
