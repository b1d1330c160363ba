/**
 Emits of several callers at once (`internal/events/bus.go:99-135`), each in its three parts: insert, mark,
 fan out; and the tailer's poll (`internal/events/tail.go:49-65`) in its own: read, then mark and fan out
 one event after another. Anything may happen between two parts. Events are known by their ids.
 */
module ConcurrentEmits {
  import opened Options
  import EventBus

  /** An emit that has inserted its row; `marked` once it has raised the mark. */
  datatype Emitting = Emitting(id: nat, marked: bool)

  /**
   `count` is the last id of the log. `poll` is what the tailer has read and not come to yet; `holding` is
   an event it has marked and not fanned out yet. `local` and `fanned` are history: the ids this process
   inserted, and the fan-outs in order.
   */
  datatype Bus = Bus(count: nat, published: nat, emitting: map<nat, Emitting>, poll: seq<nat>,
                     holding: Option<nat>, local: set<nat>, fanned: seq<nat>)

  datatype Op =
    // One emit: its row is in the log, the mark is raised, the subscribers have it.
    | Insert(caller: nat)
    | MarkOwn(caller: nat)
    | FanOwn(caller: nat)
    // Another process writes to the log.
    | External
    // One poll: the rows past the mark, then each, if it is still past the mark.
    | ReadPoll
    | MarkNext
    | FanHeld

  // The ids from `a` to `b`.
  function Upto(a: nat, b: nat): seq<nat>
    decreases b
  {
    if b < a then [] else if b == 0 then [0] else Upto(a, b - 1) + [b]
  }

  ghost function Step(s: Bus, op: Op): Bus {
    match op
    case Insert(p) =>
      if p in s.emitting then s
      else s.(count := s.count + 1, local := s.local + {s.count + 1},
              emitting := s.emitting[p := Emitting(s.count + 1, false)])
    case MarkOwn(p) =>
      // Whether the id was new is not looked at.
      if p !in s.emitting || s.emitting[p].marked then s
      else s.(published := if s.emitting[p].id > s.published then s.emitting[p].id else s.published,
              emitting := s.emitting[p := s.emitting[p].(marked := true)])
    case FanOwn(p) =>
      if p !in s.emitting || !s.emitting[p].marked then s
      else s.(fanned := s.fanned + [s.emitting[p].id], emitting := s.emitting - {p})
    case External => s.(count := s.count + 1)
    case ReadPoll =>
      if s.poll != [] || s.holding.Some? then s
      else s.(poll := Upto(s.published + 1, EventBus.Min(s.count, s.published + EventBus.DRAIN_LIMIT)))
    case MarkNext =>
      if s.poll == [] || s.holding.Some? then s
      else if s.poll[0] <= s.published then s.(poll := s.poll[1..])
      else s.(published := s.poll[0], holding := Some(s.poll[0]), poll := s.poll[1..])
    case FanHeld =>
      if s.holding.None? then s else s.(fanned := s.fanned + [s.holding.value], holding := None)
  }

  ghost function Run(s: Bus, ops: seq<Op>): Bus
    decreases |ops|
  {
    if ops == [] then s else Run(Step(s, ops[0]), ops[1..])
  }

  ghost function Start(count: nat): Bus {
    Bus(count, count, map[], [], None, {}, [])
  }

  // ---- an emit without interruption ----

  ghost function IdsOf(es: seq<EventBus.Event>): seq<nat> {
    seq(|es|, i requires 0 <= i < |es| => es[i].id)
  }

  ghost function Seen(l: EventBus.Ledger, local: set<nat>): Bus {
    Bus(|l.log|, l.published, map[], [], None, local, IdsOf(l.fanned))
  }

  /** The three parts one after another are the emit of the event bus. */
  lemma EmitIsItsParts(l: EventBus.Ledger, local: set<nat>, draft: EventBus.Event, p: nat)
    requires EventBus.Wellformed(draft)
    ensures Step(Step(Step(Seen(l, local), Insert(p)), MarkOwn(p)), FanOwn(p))
            == Seen(EventBus.Step(l, EventBus.EmitOp(draft)), local + {|l.log| + 1})
  {
    var id := |l.log| + 1;
    var e := draft.(id := id);
    assert map[p := Emitting(id, false)][p := Emitting(id, true)] - {p} == map[];
    assert IdsOf(l.fanned + [e]) == IdsOf(l.fanned) + [id];
  }

  // ---- how often an event is fanned out ----

  function Count(fs: seq<nat>, id: nat): nat {
    if fs == [] then 0 else Count(fs[..|fs| - 1], id) + if fs[|fs| - 1] == id then 1 else 0
  }

  lemma CountOn(fs: seq<nat>, x: nat, id: nat)
    ensures Count(fs + [x], id) == Count(fs, id) + if x == id then 1 else 0
  {
    assert (fs + [x])[..|fs|] == fs;
  }

  /** The tailer takes `id` for an event of another process: it marks it before any mark has reached it. */
  ghost predicate Takes(s: Bus, op: Op, id: nat) {
    op == MarkNext && s.poll != [] && s.holding.None? && s.poll[0] == id > s.published
  }

  ghost predicate Taken(s: Bus, ops: seq<Op>, id: nat)
    decreases |ops|
  {
    ops != [] && (Takes(s, ops[0], id) || Taken(Step(s, ops[0]), ops[1..], id))
  }

  ghost predicate InHand(s: Bus, id: nat) {
    exists p :: p in s.emitting && s.emitting[p].id == id
  }

  // Ids are given out once; what the mark has passed is not taken again.
  ghost predicate Ok(s: Bus) {
    && s.published <= s.count
    && (forall p :: p in s.emitting ==> 0 < s.emitting[p].id <= s.count && s.emitting[p].id in s.local)
    && (forall p, q :: p in s.emitting && q in s.emitting && s.emitting[p].id == s.emitting[q].id ==> p == q)
    && (forall id :: id in s.local ==> id <= s.count)
    && (forall i :: 0 <= i < |s.poll| ==> s.poll[i] <= s.count)
    && (s.holding.Some? ==> s.holding.value <= s.published)
  }

  // Fan-outs so far, and those on their way.
  ghost function Due(s: Bus, id: nat): nat {
    Count(s.fanned, id) + (if InHand(s, id) then 1 else 0) + (if s.holding == Some(id) then 1 else 0)
  }

  lemma {:induction false} UptoIs(a: nat, b: nat)
    ensures forall i :: 0 <= i < |Upto(a, b)| ==> Upto(a, b)[i] <= b
    decreases b
  {
    if b >= a && b > 0 {
      UptoIs(a, b - 1);
    }
  }

  lemma EmitsKeepOk(s: Bus, op: Op)
    requires Ok(s) && (op.Insert? || op.MarkOwn? || op.FanOwn?)
    ensures Ok(Step(s, op)) && s.published <= Step(s, op).published
  {
  }

  lemma PollsKeepOk(s: Bus, op: Op)
    requires Ok(s) && !(op.Insert? || op.MarkOwn? || op.FanOwn?)
    ensures Ok(Step(s, op)) && s.published <= Step(s, op).published
  {
    UptoIs(s.published + 1, EventBus.Min(s.count, s.published + EventBus.DRAIN_LIMIT));
  }

  lemma StepKeepsOk(s: Bus, op: Op)
    requires Ok(s)
    ensures Ok(Step(s, op)) && s.published <= Step(s, op).published
  {
    hide Ok, Step;
    if op.Insert? || op.MarkOwn? || op.FanOwn? {
      EmitsKeepOk(s, op);
    } else {
      PollsKeepOk(s, op);
    }
  }

  ghost predicate DueMoves(s: Bus, op: Op, id: nat) {
    && Due(Step(s, op), id)
       == Due(s, id) + (if id in Step(s, op).local && id !in s.local then 1 else 0)
          + (if Takes(s, op, id) then 1 else 0)
    && s.local <= Step(s, op).local
    && (Takes(s, op, id) ==> Step(s, op).published == id > s.published)
  }

  lemma InsertDue(s: Bus, p: nat, id: nat)
    requires Ok(s) && p !in s.emitting
    ensures DueMoves(s, Insert(p), id)
  {
    var s' := Step(s, Insert(p));
    assert s'.emitting[p].id == s.count + 1;
    SameInHand(s, s', p, id);
  }

  lemma MarkDue(s: Bus, p: nat, id: nat)
    requires Ok(s) && p in s.emitting
    ensures DueMoves(s, MarkOwn(p), id)
  {
    SameInHand(s, Step(s, MarkOwn(p)), p, id);
  }

  lemma FanDue(s: Bus, p: nat, id: nat)
    requires Ok(s) && p in s.emitting && s.emitting[p].marked
    ensures DueMoves(s, FanOwn(p), id)
  {
    CountOn(s.fanned, s.emitting[p].id, id);
    SameInHand(s, Step(s, FanOwn(p)), p, id);
  }

  lemma PollDue(s: Bus, op: Op, id: nat)
    requires Ok(s) && !(op.Insert? || op.MarkOwn? || op.FanOwn?)
    ensures DueMoves(s, op, id)
  {
    if op.FanHeld? && s.holding.Some? {
      CountOn(s.fanned, s.holding.value, id);
    }
  }

  lemma StepDue(s: Bus, op: Op, id: nat)
    requires Ok(s)
    ensures DueMoves(s, op, id)
  {
    hide Ok, DueMoves;
    match op {
      case Insert(p) => if p !in s.emitting { InsertDue(s, p, id); } else { SameDue(s, op, id); }
      case MarkOwn(p) => if p in s.emitting { MarkDue(s, p, id); } else { SameDue(s, op, id); }
      case FanOwn(p) =>
        if p in s.emitting && s.emitting[p].marked { FanDue(s, p, id); } else { SameDue(s, op, id); }
      case _ => PollDue(s, op, id);
    }
  }

  lemma SameDue(s: Bus, op: Op, id: nat)
    requires Step(s, op) == s && !op.MarkNext?
    ensures DueMoves(s, op, id)
  {
  }

  // Callers other than `p` hold what they held.
  lemma SameInHand(s: Bus, s': Bus, p: nat, id: nat)
    requires Ok(s) && forall q :: q != p ==> (q in s'.emitting <==> q in s.emitting)
    requires forall q :: q != p && q in s.emitting ==> s'.emitting[q].id == s.emitting[q].id
    ensures InHand(s', id) <==>
              (p in s'.emitting && s'.emitting[p].id == id)
              || (InHand(s, id) && !(p in s.emitting && s.emitting[p].id == id))
              || (exists q :: q != p && q in s.emitting && s.emitting[q].id == id)
  {
    if InHand(s', id) {
      var q :| q in s'.emitting && s'.emitting[q].id == id;
    }
    if q :| q != p && q in s.emitting && s.emitting[q].id == id {
      assert q in s'.emitting;
    }
    if InHand(s, id) && !(p in s.emitting && s.emitting[p].id == id) {
      var q :| q in s.emitting && s.emitting[q].id == id;
      assert q in s'.emitting;
    }
  }

  lemma {:induction false} TakenOnlyAbove(s: Bus, ops: seq<Op>, id: nat)
    requires Ok(s) && id <= s.published
    ensures !Taken(s, ops, id)
    decreases |ops|
  {
    hide Step, Ok;
    if ops != [] {
      StepKeepsOk(s, ops[0]);
      TakenOnlyAbove(Step(s, ops[0]), ops[1..], id);
    }
  }

  lemma {:induction false} RunDue(s: Bus, ops: seq<Op>, id: nat)
    requires Ok(s)
    ensures Ok(Run(s, ops)) && s.local <= Run(s, ops).local
    ensures Due(Run(s, ops), id)
            == Due(s, id) + (if id in Run(s, ops).local && id !in s.local then 1 else 0)
               + (if Taken(s, ops, id) then 1 else 0)
    decreases |ops|
  {
    hide Step, Ok, Due, Takes;
    if ops != [] {
      StepKeepsOk(s, ops[0]);
      StepDue(s, ops[0], id);
      RunDue(Step(s, ops[0]), ops[1..], id);
      if Takes(s, ops[0], id) {
        TakenOnlyAbove(Step(s, ops[0]), ops[1..], id);
      }
    }
  }

  /**
   Exactly how often an event is fanned out. Over every run, once nobody has it in hand, an event of this
   process has been fanned out twice if the tailer marked it first, and otherwise once; an event of
   another process once if the tailer took it, and otherwise never.
   */
  lemma FannedExactly(count: nat, ops: seq<Op>, id: nat)
    requires var s := Run(Start(count), ops);
             !InHand(s, id) && s.holding != Some(id)
    ensures var s := Run(Start(count), ops);
            Count(s.fanned, id) == (if id in s.local then 1 else 0) + (if Taken(Start(count), ops, id) then 1 else 0)
  {
    hide Run, Taken;
    RunDue(Start(count), ops, id);
    NothingDue(count, id);
  }

  lemma NothingDue(count: nat, id: nat)
    ensures Ok(Start(count)) && Due(Start(count), id) == 0
  {
  }

  // ---- what a connection makes of it ----

  /** What a connection sends of the fan-outs it is given: those past the last one it sent. */
  function Sent(last: nat, fs: seq<nat>): seq<nat>
    decreases |fs|
  {
    if fs == [] then []
    else if fs[0] <= last then Sent(last, fs[1..])
    else [fs[0]] + Sent(fs[0], fs[1..])
  }

  function Only(fs: seq<nat>, wanted: set<nat>): seq<nat> {
    if fs == [] then []
    else Only(fs[..|fs| - 1], wanted) + if fs[|fs| - 1] in wanted then [fs[|fs| - 1]] else []
  }

  lemma {:induction false} SentIncreases(last: nat, fs: seq<nat>)
    ensures forall i :: 0 <= i < |Sent(last, fs)| ==> Sent(last, fs)[i] > last
    ensures forall i, j :: 0 <= i < j < |Sent(last, fs)| ==> Sent(last, fs)[i] < Sent(last, fs)[j]
    decreases |fs|
  {
    if fs != [] {
      SentIncreases(last, fs[1..]);
      SentIncreases(fs[0], fs[1..]);
    }
  }

  // One more fan-out is sent exactly if it is past everything before.
  lemma {:induction false} SentOn(last: nat, fs: seq<nat>, x: nat)
    ensures Sent(last, fs + [x])
            == Sent(last, fs) + if x > last && (forall i :: 0 <= i < |fs| ==> fs[i] < x) then [x] else []
    decreases |fs|
  {
    if fs == [] {
      assert [] + [x] == [x] && [x][1..] == [];
    } else {
      assert (fs + [x])[1..] == fs[1..] + [x];
      assert forall i :: 0 < i < |fs| ==> fs[i] == fs[1..][i - 1];
      SentOn(last, fs[1..], x);
      SentOn(fs[0], fs[1..], x);
    }
  }

  lemma {:induction false} OnlyIs(fs: seq<nat>, wanted: set<nat>)
    ensures forall x :: x in Only(fs, wanted) <==> x in fs && x in wanted
  {
    if fs != [] {
      OnlyIs(fs[..|fs| - 1], wanted);
      assert forall x :: x in fs <==> x in fs[..|fs| - 1] || x == fs[|fs| - 1];
    }
  }

  /** The step fans `id` out, for the first time, and a later wanted event has been fanned out already. */
  ghost predicate Overtaken(s: Bus, op: Op, id: nat, wanted: set<nat>) {
    Fans(s, op) == Some(id) && id !in s.fanned && exists x :: x in s.fanned && x in wanted && x > id
  }

  ghost function Fans(s: Bus, op: Op): Option<nat> {
    match op
    case FanOwn(p) => if p in s.emitting && s.emitting[p].marked then Some(s.emitting[p].id) else None
    case FanHeld => s.holding
    case _ => None
  }

  ghost predicate OvertakenIn(s: Bus, ops: seq<Op>, id: nat, wanted: set<nat>)
    decreases |ops|
  {
    ops != [] && (Overtaken(s, ops[0], id, wanted) || OvertakenIn(Step(s, ops[0]), ops[1..], id, wanted))
  }

  lemma StepFans(s: Bus, op: Op)
    ensures Step(s, op).fanned == s.fanned + if Fans(s, op).Some? then [Fans(s, op).value] else []
  {
    assert s.fanned + [] == s.fanned;
  }

  lemma {:induction false} SentIsAmong(last: nat, fs: seq<nat>)
    ensures forall x :: x in Sent(last, fs) ==> x in fs
    decreases |fs|
  {
    if fs != [] {
      SentIsAmong(last, fs[1..]);
      SentIsAmong(fs[0], fs[1..]);
    }
  }

  // Whether the next fan-out of `id` is past everything sent before.
  lemma PastAll(fs: seq<nat>, wanted: set<nat>, id: nat)
    requires id in wanted
    ensures (forall i :: 0 <= i < |Only(fs, wanted)| ==> Only(fs, wanted)[i] < id)
            <==> id !in fs && !(exists x :: x in fs && x in wanted && x > id)
  {
    OnlyIs(fs, wanted);
    var before := Only(fs, wanted);
    if forall i :: 0 <= i < |before| ==> before[i] < id {
      forall x | x in fs && x in wanted ensures x < id {
        assert x in before;
      }
    }
  }

  lemma FansSends(fs: seq<nat>, wanted: set<nat>, x: nat, id: nat)
    requires id in wanted && id > 0
    ensures id in fs ==> (id in Sent(0, Only(fs + [x], wanted)) <==> id in Sent(0, Only(fs, wanted)))
    ensures id !in fs && x == id ==>
              (id in Sent(0, Only(fs + [x], wanted)) <==> !exists y :: y in fs && y in wanted && y > id)
  {
    hide Sent, Only;
    var before := Only(fs, wanted);
    OnlyOn(fs, x, wanted);
    OnlyIs(fs, wanted);
    SentIsAmong(0, before);
    SentOn(0, before, x);
    PastAll(fs, wanted, id);
  }

  lemma OnlyOn(fs: seq<nat>, x: nat, wanted: set<nat>)
    ensures Only(fs + [x], wanted) == if x in wanted then Only(fs, wanted) + [x] else Only(fs, wanted)
  {
    assert (fs + [x])[..|fs|] == fs;
    assert Only(fs, wanted) + [] == Only(fs, wanted);
  }

  lemma StepSends(s: Bus, op: Op, id: nat, wanted: set<nat>)
    requires id in wanted && id > 0
    ensures var s' := Step(s, op);
            && (id in s.fanned ==>
                  && id in s'.fanned
                  && (id in Sent(0, Only(s'.fanned, wanted)) <==> id in Sent(0, Only(s.fanned, wanted))))
            && (id !in s.fanned && id in s'.fanned ==>
                  (id in Sent(0, Only(s'.fanned, wanted)) <==> !Overtaken(s, op, id, wanted)))
            && (id !in s'.fanned ==> !Overtaken(s, op, id, wanted))
  {
    hide Fans, Step, Sent, Only;
    StepFans(s, op);
    if Fans(s, op).Some? {
      FansSends(s.fanned, wanted, Fans(s, op).value, id);
    } else {
      assert s.fanned + [] == s.fanned;
    }
  }

  lemma {:induction false} OvertakenOnce(s: Bus, ops: seq<Op>, id: nat, wanted: set<nat>)
    requires id in s.fanned
    ensures !OvertakenIn(s, ops, id, wanted) && id in Run(s, ops).fanned
    decreases |ops|
  {
    hide Step;
    if ops != [] {
      StepFans(s, ops[0]);
      OvertakenOnce(Step(s, ops[0]), ops[1..], id, wanted);
    }
  }

  lemma {:induction false} RunSends(s: Bus, ops: seq<Op>, id: nat, wanted: set<nat>)
    requires id in wanted && id > 0
    ensures id in s.fanned ==>
              (id in Sent(0, Only(Run(s, ops).fanned, wanted)) <==> id in Sent(0, Only(s.fanned, wanted)))
    ensures id !in s.fanned && id in Run(s, ops).fanned ==>
              (id in Sent(0, Only(Run(s, ops).fanned, wanted)) <==> !OvertakenIn(s, ops, id, wanted))
    decreases |ops|
  {
    hide Step, Sent, Only, Overtaken;
    if ops != [] {
      var s1 := Step(s, ops[0]);
      StepSends(s, ops[0], id, wanted);
      RunSends(s1, ops[1..], id, wanted);
      if id in s1.fanned {
        OvertakenOnce(s1, ops[1..], id, wanted);
      }
    }
  }

  /**
   Exactly what a connection sends. Over every run of overlapping emits, a connection that has been given
   every wanted fan-out sends ids in strictly increasing order, and so each once at most; an event that
   was fanned out is among them if and only if no later wanted one had been fanned out before it.
   */
  lemma SentUnlessOvertaken(count: nat, ops: seq<Op>, id: nat, wanted: set<nat>)
    requires id in wanted && id > 0 && id in Run(Start(count), ops).fanned
    ensures var sent := Sent(0, Only(Run(Start(count), ops).fanned, wanted));
            && (forall i, j :: 0 <= i < j < |sent| ==> sent[i] < sent[j])
            && (id in sent <==> !OvertakenIn(Start(count), ops, id, wanted))
  {
    hide Run, Sent, Only, OvertakenIn;
    SentIncreases(0, Only(Run(Start(count), ops).fanned, wanted));
    RunSends(Start(count), ops, id, wanted);
  }

  // ---- overlaps ----

  lemma RunFirst(s: Bus, ops: seq<Op>)
    ensures Run(s, ops) == if ops == [] then s else Run(Step(s, ops[0]), ops[1..])
  {
  }

  lemma RunSix(s: Bus, a: Op, b: Op, c: Op, d: Op, e: Op, f: Op)
    ensures Run(s, [a, b, c, d, e, f]) == Step(Step(Step(Step(Step(Step(s, a), b), c), d), e), f)
  {
    hide Step, Run;
    RunFirst(s, [a, b, c, d, e, f]);
    RunFirst(Step(s, a), [b, c, d, e, f]);
    RunFirst(Step(Step(s, a), b), [c, d, e, f]);
    RunFirst(Step(Step(Step(s, a), b), c), [d, e, f]);
    RunFirst(Step(Step(Step(Step(s, a), b), c), d), [e, f]);
    RunFirst(Step(Step(Step(Step(Step(s, a), b), c), d), e), [f]);
    RunFirst(Step(Step(Step(Step(Step(Step(s, a), b), c), d), e), f), []);
    assert [a, b, c, d, e, f][1..] == [b, c, d, e, f] && [b, c, d, e, f][1..] == [c, d, e, f];
    assert [c, d, e, f][1..] == [d, e, f] && [d, e, f][1..] == [e, f] && [e, f][1..] == [f] && [f][1..] == [];
  }

  lemma SentOfTwo(x: nat, y: nat)
    requires 0 < x && y <= x
    ensures Sent(0, [x, y]) == [x]
  {
    assert [x, y][1..] == [y] && [y][1..] == [];
    assert Sent(x, [y]) == [];
  }

  /** Two emits at once: the later row is fanned out first, and the earlier event is never sent. */
  lemma OvertakenEmitIsLost(count: nat)
    ensures var s := Run(Start(count), [Insert(0), Insert(1), MarkOwn(1), FanOwn(1), MarkOwn(0), FanOwn(0)]);
            s.fanned == [count + 2, count + 1] && Sent(0, s.fanned) == [count + 2]
  {
    hide Run, Sent;
    RunSix(Start(count), Insert(0), Insert(1), MarkOwn(1), FanOwn(1), MarkOwn(0), FanOwn(0));
    SentOfTwo(count + 2, count + 1);
    var a, b := count + 1, count + 2;
    var s2 := Bus(b, count, map[0 := Emitting(a, false), 1 := Emitting(b, false)], [], None, {a, b}, []);
    assert Step(Step(Start(count), Insert(0)), Insert(1)) == s2;
    var s4 := Bus(b, b, map[0 := Emitting(a, false)], [], None, {a, b}, [b]);
    assert Step(Step(s2, MarkOwn(1)), FanOwn(1)) == s4 by {
      assert map[0 := Emitting(a, false), 1 := Emitting(b, true)] - {1} == map[0 := Emitting(a, false)];
    }
    assert Step(Step(s4, MarkOwn(0)), FanOwn(0)).fanned == [b, a];
  }

  /** The tailer polls between an emit's insert and its mark: the event is fanned out twice, and sent once. */
  lemma PolledEmitIsFannedTwice(count: nat)
    ensures var s := Run(Start(count), [Insert(0), ReadPoll, MarkNext, FanHeld, MarkOwn(0), FanOwn(0)]);
            s.fanned == [count + 1, count + 1] && Sent(0, s.fanned) == [count + 1]
  {
    hide Run, Sent;
    RunSix(Start(count), Insert(0), ReadPoll, MarkNext, FanHeld, MarkOwn(0), FanOwn(0));
    SentOfTwo(count + 1, count + 1);
    var a := count + 1;
    assert Upto(a, a) == [a];
    var s2 := Bus(a, count, map[0 := Emitting(a, false)], [a], None, {a}, []);
    assert Step(Step(Start(count), Insert(0)), ReadPoll) == s2;
    var s4 := Bus(a, a, map[0 := Emitting(a, false)], [], None, {a}, [a]);
    assert Step(Step(s2, MarkNext), FanHeld) == s4;
    assert Step(Step(s4, MarkOwn(0)), FanOwn(0)).fanned == [a, a];
  }
}
