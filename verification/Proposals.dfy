/**
 `internal/contextengine/proposals.go`: proposed changes, decided by several processes at once.

 `Decide` is not one transaction: it reads the proposal, compares versions, marks staleness,
 reads the item row, writes, and finally sets the status, and anything may happen in between.
 Each of those statements is one step of a `System`; the `Desk` class runs them in sequence.
 */
module Proposals {
  import opened Options
  import opened ContextStore

  datatype ProposalStatus = Open | Accepted | Rejected | Outdated

  datatype Proposal = Proposal(item: Ref, base: int, content: string, author: string,
                               status: ProposalStatus, decidedBy: string)

  datatype Decision = Accept | Reject

  /** How far one process has got. `p` is its own copy of the proposal row. */
  datatype Proc =
    // Propose has compared versions and is about to insert.
    | Proposing(id: string, p: Proposal)
    // Decide has read the row; has found the item moved; has found it in place; has read the item row.
    | HasRead(id: string, p: Proposal, decision: Decision, decider: string)
    | FoundMoved(id: string, p: Proposal, decision: Decision, decider: string)
    | FoundInPlace(id: string, p: Proposal, decision: Decision, decider: string)
    // Decide has written the content (when accepting) and is about to set the status.
    | HasWritten(id: string, p: Proposal, decision: Decision, decider: string)

  datatype System = System(store: Store, proposals: map<string, Proposal>, procs: map<nat, Proc>)

  datatype Event =
    // Anybody else's write or append.
    | Other(op: Op)
    | StartPropose(proc: nat, id: string, item: Ref, base: int, content: string, author: string)
    // Decide, or a plain read of the proposal: both read the row and refresh its staleness.
    | StartDecide(proc: nat, id: string, decision: Decision, decider: string)
    // The process runs its next statement.
    | Advance(proc: nat)
    // The process dies where it stands.
    | Crash(proc: nat)

  // ---- the statements ----

  ghost function Insert(ps: map<string, Proposal>, id: string, p: Proposal): map<string, Proposal> {
    if id in ps then ps else ps[id := p]
  }

  /** `UPDATE … SET status = 'stale' WHERE id = ? AND status = 'open'` */
  ghost function MarkOutdated(ps: map<string, Proposal>, id: string): map<string, Proposal> {
    if id in ps && ps[id].status == Open then ps[id := ps[id].(status := Outdated)] else ps
  }

  /** `UPDATE … SET status = ? WHERE id = ?`: whatever the status is by now. */
  ghost function SetStatus(ps: map<string, Proposal>, id: string, d: Decision, decider: string): map<string, Proposal> {
    if id in ps
    then ps[id := ps[id].(status := if d == Accept then Accepted else Rejected, decidedBy := decider)]
    else ps
  }

  // ---- steps and runs ----

  ghost function Forget(s: System, proc: nat): System {
    s.(procs := s.procs - {proc})
  }

  ghost function AdvanceProc(s: System, proc: nat): System
    requires s.store.Valid() && proc in s.procs
  {
    match s.procs[proc]
    case Proposing(id, p) => Forget(s, proc).(proposals := Insert(s.proposals, id, p))
    case HasRead(id, p, d, decider) =>
      if p.status != Open then Forget(s, proc)
      else if VersionOf(s.store, p.item) != p.base then s.(procs := s.procs[proc := FoundMoved(id, p, d, decider)])
      else s.(procs := s.procs[proc := FoundInPlace(id, p, d, decider)])
    case FoundMoved(id, _, _, _) => Forget(s, proc).(proposals := MarkOutdated(s.proposals, id))
    case FoundInPlace(id, p, d, decider) =>
      if d == Reject then s.(procs := s.procs[proc := HasWritten(id, p, d, decider)])
      else if VersionOf(s.store, p.item) != p.base then Forget(s, proc)
      else System(Put(s.store, p.item, p.content, p.author, AcceptedProposal(id, decider)), s.proposals,
                  s.procs[proc := HasWritten(id, p, d, decider)])
    case HasWritten(id, _, d, decider) =>
      Forget(s, proc).(proposals := SetStatus(s.proposals, id, d, decider))
  }

  ghost function Step(s: System, e: Event): (s': System)
    requires s.store.Valid()
    ensures s'.store.Valid()
  {
    match e
    case Other(op) => s.(store := ContextStore.Step(s.store, op))
    case StartPropose(proc, id, item, base, content, author) =>
      // Ids are drawn fresh: no other proposal, stored or on its way, has this one.
      if proc in s.procs || id in s.proposals || (exists q :: q in s.procs && s.procs[q].id == id)
         || item !in s.store.items || VersionOf(s.store, item) != base
      then s
      else s.(procs := s.procs[proc := Proposing(id, Proposal(item, base, content, author, Open, ""))])
    case StartDecide(proc, id, d, decider) =>
      if proc in s.procs || id !in s.proposals then s
      else s.(procs := s.procs[proc := HasRead(id, s.proposals[id], d, decider)])
    case Advance(proc) => if proc in s.procs then AdvanceProc(s, proc) else s
    case Crash(proc) => Forget(s, proc)
  }

  ghost function Run(s: System, es: seq<Event>): (s': System)
    requires s.store.Valid()
    ensures s'.store.Valid()
    decreases |es|
  {
    if es == [] then s else Run(Step(s, es[0]), es[1..])
  }

  // ---- the invariant ----

  ghost predicate Same(p: Proposal, q: Proposal) {
    p.item == q.item && p.base == q.base && p.content == q.content && p.author == q.author
  }

  // The item's history holds this proposal's content, as an acceptance of it, right at base+1.
  ghost predicate Applied(s: Store, id: string, p: Proposal)
    requires s.Valid()
  {
    var h := HistoryOf(s, p.item);
    && 0 < p.base < |h|
    && h[p.base].content == p.content && h[p.base].author == p.author
    && h[p.base].reason.AcceptedProposal? && h[p.base].reason.proposal == id
  }

  ghost predicate ProposalOk(s: Store, id: string, p: Proposal)
    requires s.Valid()
  {
    && 0 < p.base <= VersionOf(s, p.item)
    && (p.status == Accepted ==> Applied(s, id, p))
    && (p.status == Outdated ==> p.base < VersionOf(s, p.item))
  }

  ghost predicate ProcOk(s: System, q: Proc)
    requires s.store.Valid()
  {
    if q.Proposing? then q.id !in s.proposals && q.p.status == Open && ProposalOk(s.store, q.id, q.p)
    else
      && q.id in s.proposals && Same(q.p, s.proposals[q.id])
      && (q.FoundMoved? ==> q.p.base < VersionOf(s.store, q.p.item))
      && (q.HasWritten? && q.decision == Accept ==> Applied(s.store, q.id, q.p))
  }

  // A row left by an acceptance is where its proposal says it belongs.
  ghost predicate RowOk(s: System, ref: Ref, i: nat)
    requires s.store.Valid() && i < |HistoryOf(s.store, ref)|
  {
    var row := HistoryOf(s.store, ref)[i];
    row.reason.AcceptedProposal? ==>
      var id := row.reason.proposal;
      id in s.proposals && s.proposals[id].item == ref && s.proposals[id].base == i
  }

  ghost predicate Safe(s: System) {
    && s.store.Valid()
    && (forall id :: id in s.proposals ==> ProposalOk(s.store, id, s.proposals[id]))
    && (forall n :: n in s.procs ==> ProcOk(s, s.procs[n]))
    && (forall n, m :: n in s.procs && m in s.procs && n != m && s.procs[n].Proposing? ==>
          s.procs[n].id != s.procs[m].id)
    && (forall ref, i: nat :: i < |HistoryOf(s.store, ref)| ==> RowOk(s, ref, i))
  }

  // ---- every step keeps it ----

  ghost predicate Grows(s: Store, s': Store)
    requires s.Valid() && s'.Valid()
  {
    forall ref :: HistoryOf(s, ref) <= HistoryOf(s', ref)
  }

  lemma ProposalStaysOk(s: Store, s': Store, id: string, p: Proposal)
    requires s.Valid() && s'.Valid() && Grows(s, s') && ProposalOk(s, id, p)
    ensures ProposalOk(s', id, p)
  {
    VersionIsHistoryLength(s, p.item);
    VersionIsHistoryLength(s', p.item);
    assert HistoryOf(s, p.item) <= HistoryOf(s', p.item);
  }

  lemma AppliedStays(s: Store, s': Store, id: string, p: Proposal)
    requires s.Valid() && s'.Valid() && Grows(s, s') && Applied(s, id, p)
    ensures Applied(s', id, p)
  {
    assert HistoryOf(s, p.item) <= HistoryOf(s', p.item);
  }

  lemma VersionGrows(s: Store, s': Store, ref: Ref)
    requires s.Valid() && s'.Valid() && Grows(s, s')
    ensures VersionOf(s, ref) <= VersionOf(s', ref)
  {
    VersionIsHistoryLength(s, ref);
    VersionIsHistoryLength(s', ref);
    assert HistoryOf(s, ref) <= HistoryOf(s', ref);
  }

  // A store that only grew, with well-placed new rows.
  lemma SafeAfterStore(s: System, store': Store)
    requires Safe(s) && store'.Valid() && Grows(s.store, store')
    requires forall ref, i: nat :: |HistoryOf(s.store, ref)| <= i < |HistoryOf(store', ref)| ==>
               RowOk(s.(store := store'), ref, i)
    ensures Safe(s.(store := store'))
  {
    hide ContextStore.HistoryOf, ContextStore.VersionOf;
    var s' := s.(store := store');
    forall id | id in s.proposals ensures ProposalOk(store', id, s.proposals[id]) {
      ProposalStaysOk(s.store, store', id, s.proposals[id]);
    }
    forall n | n in s.procs ensures ProcOk(s', s.procs[n]) {
      var q := s.procs[n];
      assert ProcOk(s, q);
      VersionGrows(s.store, store', q.p.item);
      if q.Proposing? {
        ProposalStaysOk(s.store, store', q.id, q.p);
      } else if q.HasWritten? && q.decision == Accept {
        AppliedStays(s.store, store', q.id, q.p);
      }
    }
    forall ref, i: nat | i < |HistoryOf(store', ref)| ensures RowOk(s', ref, i) {
      if i < |HistoryOf(s.store, ref)| {
        assert RowOk(s, ref, i);
        assert HistoryOf(s.store, ref) <= HistoryOf(store', ref);
      }
    }
  }

  // Another status for a stored proposal.
  lemma SafeAfterStatus(s: System, id: string, p: Proposal)
    requires Safe(s) && id in s.proposals && Same(p, s.proposals[id]) && ProposalOk(s.store, id, p)
    ensures Safe(s.(proposals := s.proposals[id := p]))
  {
    hide ContextStore.HistoryOf, ContextStore.VersionOf, Applied, ProposalOk;
    var s' := s.(proposals := s.proposals[id := p]);
    forall n | n in s.procs ensures ProcOk(s', s.procs[n]) {
      assert ProcOk(s, s.procs[n]);
    }
    forall ref, i: nat | i < |HistoryOf(s.store, ref)| ensures RowOk(s', ref, i) {
      assert RowOk(s, ref, i);
    }
  }

  lemma SafeAfterForget(s: System, n: nat)
    requires Safe(s)
    ensures Safe(Forget(s, n))
  {
    hide ContextStore.HistoryOf, ContextStore.VersionOf, Applied, ProposalOk;
    var s' := Forget(s, n);
    forall m | m in s'.procs ensures ProcOk(s', s'.procs[m]) {
      assert ProcOk(s, s.procs[m]);
    }
    forall ref, i: nat | i < |HistoryOf(s.store, ref)| ensures RowOk(s', ref, i) {
      assert RowOk(s, ref, i);
    }
  }

  // A process at its next statement, or a new one.
  lemma SafeAfterProc(s: System, n: nat, q: Proc)
    requires Safe(s) && ProcOk(s, q)
    requires if n in s.procs then !q.Proposing? && s.procs[n].id == q.id
             else forall m :: m in s.procs ==> s.procs[m].id == q.id ==> !q.Proposing? && !s.procs[m].Proposing?
    ensures Safe(s.(procs := s.procs[n := q]))
  {
    hide ContextStore.HistoryOf, ContextStore.VersionOf, Applied, ProposalOk;
    var s' := s.(procs := s.procs[n := q]);
    forall m | m in s'.procs ensures ProcOk(s', s'.procs[m]) {
      assert m != n ==> ProcOk(s, s.procs[m]);
    }
    forall ref, i: nat | i < |HistoryOf(s.store, ref)| ensures RowOk(s', ref, i) {
      assert RowOk(s, ref, i);
    }
  }

  lemma SafeAfterInsert(s: System, n: nat)
    requires Safe(s) && n in s.procs && s.procs[n].Proposing?
    ensures Safe(AdvanceProc(s, n))
  {
    hide ContextStore.HistoryOf, ContextStore.VersionOf, Applied, ProposalOk;
    var q := s.procs[n];
    assert ProcOk(s, q);
    var s' := AdvanceProc(s, n);
    forall m | m in s'.procs ensures ProcOk(s', s'.procs[m]) {
      assert ProcOk(s, s.procs[m]) && s.procs[m].id != q.id;
    }
    forall ref, i: nat | i < |HistoryOf(s.store, ref)| ensures RowOk(s', ref, i) {
      assert RowOk(s, ref, i);
    }
  }

  lemma SafeAfterOther(s: System, op: Op)
    requires Safe(s)
    ensures Safe(Step(s, Other(op)))
  {
    var store' := ContextStore.Step(s.store, op);
    forall ref ensures HistoryOf(s.store, ref) <= HistoryOf(store', ref) {
      StepGrowsHistory(s.store, op, ref);
    }
    forall ref, i: nat | |HistoryOf(s.store, ref)| <= i < |HistoryOf(store', ref)|
      ensures RowOk(s.(store := store'), ref, i)
    {
      StepGrowsHistory(s.store, op, ref);
    }
    SafeAfterStore(s, store');
  }

  lemma SafeAfterAcceptance(s: System, n: nat)
    requires Safe(s) && n in s.procs && s.procs[n].FoundInPlace? && s.procs[n].decision == Accept
    ensures Safe(AdvanceProc(s, n))
  {
    var FoundInPlace(id, p, d, decider) := s.procs[n];
    assert ProcOk(s, s.procs[n]);
    if VersionOf(s.store, p.item) != p.base {
      SafeAfterForget(s, n);
    } else {
      var store' := Put(s.store, p.item, p.content, p.author, AcceptedProposal(id, decider));
      VersionIsHistoryLength(s.store, p.item);
      PutIsOneVersion(s.store, p.item, p.content, p.author, AcceptedProposal(id, decider), p.item);
      forall ref ensures HistoryOf(s.store, ref) <= HistoryOf(store', ref) {
        PutIsOneVersion(s.store, p.item, p.content, p.author, AcceptedProposal(id, decider), ref);
      }
      forall ref, i: nat | |HistoryOf(s.store, ref)| <= i < |HistoryOf(store', ref)|
        ensures RowOk(s.(store := store'), ref, i)
      {
        PutIsOneVersion(s.store, p.item, p.content, p.author, AcceptedProposal(id, decider), ref);
      }
      SafeAfterStore(s, store');
      var q := HasWritten(id, p, d, decider);
      assert ProposalOk(s.store, id, s.proposals[id]);
      assert ProcOk(s.(store := store'), q);
      SafeAfterProc(s.(store := store'), n, q);
    }
  }

  lemma SafeAfterAdvance(s: System, n: nat)
    requires Safe(s) && n in s.procs
    ensures Safe(AdvanceProc(s, n))
  {
    hide ContextStore.HistoryOf, ContextStore.VersionOf, ContextStore.Put;
    var q := s.procs[n];
    assert ProcOk(s, q);
    match q {
      case Proposing(id, p) => SafeAfterInsert(s, n);
      case HasRead(id, p, d, decider) =>
        assert ProposalOk(s.store, id, s.proposals[id]);
        if p.status != Open {
          SafeAfterForget(s, n);
        } else if VersionOf(s.store, p.item) != p.base {
          SafeAfterProc(s, n, FoundMoved(id, p, d, decider));
        } else {
          SafeAfterProc(s, n, FoundInPlace(id, p, d, decider));
        }
      case FoundMoved(id, p, _, _) =>
        SafeAfterForget(s, n);
        var stored := s.proposals[id];
        assert ProposalOk(s.store, id, stored);
        if stored.status == Open {
          SafeAfterStatus(Forget(s, n), id, stored.(status := Outdated));
        }
      case FoundInPlace(id, p, d, decider) =>
        if d == Reject {
          SafeAfterProc(s, n, HasWritten(id, p, d, decider));
        } else {
          SafeAfterAcceptance(s, n);
        }
      case HasWritten(id, p, d, decider) =>
        SafeAfterForget(s, n);
        var stored := s.proposals[id];
        assert ProposalOk(s.store, id, stored);
        var decided := stored.(status := if d == Accept then Accepted else Rejected, decidedBy := decider);
        SafeAfterStatus(Forget(s, n), id, decided);
    }
  }

  lemma StepKeepsSafe(s: System, e: Event)
    requires Safe(s)
    ensures Safe(Step(s, e))
  {
    match e {
      case Other(op) => SafeAfterOther(s, op);
      case StartPropose(n, id, item, base, content, author) =>
        if Step(s, e) != s {
          var q := Proposing(id, Proposal(item, base, content, author, Open, ""));
          VersionIsHistoryLength(s.store, item);
          SafeAfterProc(s, n, q);
        }
      case StartDecide(n, id, d, decider) =>
        if Step(s, e) != s {
          forall m | m in s.procs && s.procs[m].id == id ensures !s.procs[m].Proposing? {
            assert ProcOk(s, s.procs[m]);
          }
          SafeAfterProc(s, n, HasRead(id, s.proposals[id], d, decider));
        }
      case Advance(n) =>
        if n in s.procs {
          SafeAfterAdvance(s, n);
        }
      case Crash(n) => SafeAfterForget(s, n);
    }
  }

  lemma {:induction false} RunKeepsSafe(s: System, es: seq<Event>)
    requires Safe(s)
    ensures Safe(Run(s, es))
    decreases |es|
  {
    hide Step;
    if es != [] {
      StepKeepsSafe(s, es[0]);
      RunKeepsSafe(Step(s, es[0]), es[1..]);
    }
  }

  // ---- what every run from the empty system guarantees ----

  const EMPTY := System(Store(map[], map[]), map[], map[])

  lemma ReachableIsSafe(es: seq<Event>)
    ensures EMPTY.store.Valid() && Safe(Run(EMPTY, es))
  {
    assert Safe(EMPTY);
    RunKeepsSafe(EMPTY, es);
  }

  /** A proposal marked accepted was applied: its content is the item's version base+1. */
  lemma AcceptedWasApplied(es: seq<Event>, id: string)
    requires EMPTY.store.Valid() && id in Run(EMPTY, es).proposals
    requires Run(EMPTY, es).proposals[id].status == Accepted
    ensures Applied(Run(EMPTY, es).store, id, Run(EMPTY, es).proposals[id])
  {
    ReachableIsSafe(es);
    assert ProposalOk(Run(EMPTY, es).store, id, Run(EMPTY, es).proposals[id]);
  }

  // Some proposing call of these asked for this row.
  ghost predicate Asked(es: seq<Event>, id: string, p: Proposal) {
    exists i :: 0 <= i < |es| && es[i].StartPropose? && es[i].id == id
      && p.item == es[i].item && p.base == es[i].base && p.content == es[i].content && p.author == es[i].author
  }

  ghost predicate AllAsked(s: System, es: seq<Event>) {
    && (forall id :: id in s.proposals ==> Asked(es, id, s.proposals[id]))
    && (forall n :: n in s.procs && s.procs[n].Proposing? ==> Asked(es, s.procs[n].id, s.procs[n].p))
  }

  lemma AskedLonger(es: seq<Event>, e: Event, id: string, p: Proposal)
    ensures Asked(es, id, p) ==> Asked(es + [e], id, p)
    ensures e.StartPropose? && e.id == id && Same(p, Proposal(e.item, e.base, e.content, e.author, Open, "")) ==>
              Asked(es + [e], id, p)
  {
    var longer := es + [e];
    assert longer[|es|] == e && forall i :: 0 <= i < |es| ==> longer[i] == es[i];
  }

  lemma AskedAnyStatus(es: seq<Event>, id: string, p: Proposal, q: Proposal)
    requires Same(p, q) && Asked(es, id, p)
    ensures Asked(es, id, q)
  {
  }

  // What a step leaves in the tables: rows as they were, but for status and decider, or one newly proposed.
  lemma StepSources(s: System, e: Event)
    requires s.store.Valid()
    ensures var s' := Step(s, e);
            && (forall id :: id in s'.proposals ==>
                  (id in s.proposals && Same(s.proposals[id], s'.proposals[id]))
                  || exists n :: n in s.procs && s.procs[n].Proposing? && s.procs[n].id == id
                                 && Same(s.procs[n].p, s'.proposals[id]))
            && (forall n :: n in s'.procs && s'.procs[n].Proposing? ==>
                  (n in s.procs && s.procs[n] == s'.procs[n])
                  || (e.StartPropose? && s'.procs[n].id == e.id
                      && Same(s'.procs[n].p, Proposal(e.item, e.base, e.content, e.author, Open, ""))))
  {
    hide ContextStore.Put, ContextStore.VersionOf, ContextStore.Step;
  }

  lemma StepIsAsked(s: System, es: seq<Event>, e: Event)
    requires s.store.Valid() && AllAsked(s, es)
    ensures AllAsked(Step(s, e), es + [e])
  {
    hide Step, Asked;
    StepSources(s, e);
    var s' := Step(s, e);
    forall id | id in s'.proposals ensures Asked(es + [e], id, s'.proposals[id]) {
      var p := s'.proposals[id];
      if id in s.proposals && Same(s.proposals[id], p) {
        AskedAnyStatus(es, id, s.proposals[id], p);
      } else {
        var n :| n in s.procs && s.procs[n].Proposing? && s.procs[n].id == id && Same(s.procs[n].p, p);
        AskedAnyStatus(es, id, s.procs[n].p, p);
      }
      AskedLonger(es, e, id, p);
    }
    forall n | n in s'.procs && s'.procs[n].Proposing? ensures Asked(es + [e], s'.procs[n].id, s'.procs[n].p) {
      AskedLonger(es, e, s'.procs[n].id, s'.procs[n].p);
    }
  }

  lemma {:induction false} RunIsAsked(s: System, before: seq<Event>, es: seq<Event>)
    requires s.store.Valid() && AllAsked(s, before)
    ensures AllAsked(Run(s, es), before + es)
    decreases |es|
  {
    hide Step, Asked;
    if es == [] {
      assert before + es == before;
    } else {
      StepIsAsked(s, before, es[0]);
      RunIsAsked(Step(s, es[0]), before + [es[0]], es[1..]);
      assert before + [es[0]] + es[1..] == before + es;
    }
  }

  /**
   What is accepted is what was proposed. Over every run, an accepted proposal stems from a call that
   proposed it, and the version after the one that call named holds the content and the author it gave.
   */
  lemma AcceptedIsWhatWasProposed(es: seq<Event>, id: string)
    requires EMPTY.store.Valid() && id in Run(EMPTY, es).proposals
    requires Run(EMPTY, es).proposals[id].status == Accepted
    ensures var versions := Run(EMPTY, es).store.versions;
            exists i :: 0 <= i < |es| && es[i].StartPropose? && es[i].id == id
              && es[i].item in versions && 0 < es[i].base < |versions[es[i].item]|
              && versions[es[i].item][es[i].base].version == es[i].base + 1
              && versions[es[i].item][es[i].base].content == es[i].content
              && versions[es[i].item][es[i].base].author == es[i].author
  {
    hide Run;
    RunIsAsked(EMPTY, [], es);
    assert [] + es == es;
    var s := Run(EMPTY, es);
    assert Asked(es, id, s.proposals[id]);
    AcceptedWasApplied(es, id);
    assert Complete(s.store.items[s.proposals[id].item], s.store.versions[s.proposals[id].item]);
  }

  // Where a history records an acceptance of proposal `id`.
  ghost predicate AcceptanceAt(s: Store, ref: Ref, i: nat, id: string)
    requires s.Valid()
  {
    var h := HistoryOf(s, ref);
    i < |h| && h[i].reason.AcceptedProposal? && h[i].reason.proposal == id
  }

  /** However many processes decide it, a proposal is applied at most once, in all histories together. */
  lemma AppliedAtMostOnce(es: seq<Event>, id: string, r1: Ref, i1: nat, r2: Ref, i2: nat)
    requires EMPTY.store.Valid()
    requires AcceptanceAt(Run(EMPTY, es).store, r1, i1, id) && AcceptanceAt(Run(EMPTY, es).store, r2, i2, id)
    ensures r1 == r2 && i1 == i2
  {
    ReachableIsSafe(es);
    assert RowOk(Run(EMPTY, es), r1, i1) && RowOk(Run(EMPTY, es), r2, i2);
  }

  /** Of two proposals against the same version of an item, at most one is ever applied. */
  lemma RivalsAreNotBothApplied(es: seq<Event>, a: string, b: string, r1: Ref, i1: nat, r2: Ref, i2: nat)
    requires EMPTY.store.Valid() && a != b
    requires var s := Run(EMPTY, es);
             && a in s.proposals && b in s.proposals
             && s.proposals[a].item == s.proposals[b].item && s.proposals[a].base == s.proposals[b].base
    ensures !(AcceptanceAt(Run(EMPTY, es).store, r1, i1, a) && AcceptanceAt(Run(EMPTY, es).store, r2, i2, b))
  {
    ReachableIsSafe(es);
    var s := Run(EMPTY, es);
    if i1 < |HistoryOf(s.store, r1)| {
      assert RowOk(s, r1, i1);
    }
    if i2 < |HistoryOf(s.store, r2)| {
      assert RowOk(s, r2, i2);
    }
  }

  /** A proposal marked stale can no longer apply: the item is past its base for good. */
  lemma OutdatedNeverApplies(es: seq<Event>, more: seq<Event>, id: string)
    requires EMPTY.store.Valid() && id in Run(EMPTY, es).proposals
    requires Run(EMPTY, es).proposals[id].status == Outdated
    ensures var p := Run(EMPTY, es).proposals[id];
            var h := HistoryOf(Run(EMPTY, es).store, p.item);
            var later := HistoryOf(Run(Run(EMPTY, es), more).store, p.item);
            0 < p.base < |h| <= |later| && later[p.base] == h[p.base]
  {
    ReachableIsSafe(es);
    var s := Run(EMPTY, es);
    var p := s.proposals[id];
    assert ProposalOk(s.store, id, p);
    VersionIsHistoryLength(s.store, p.item);
    RunGrowsHistory(s, more, p.item);
  }

  // ---- what the row says in the end ----

  /** The status a step writes to the row of proposal `id`, if it writes one. */
  ghost function Writes(s: System, e: Event, id: string): Option<ProposalStatus> {
    if !e.Advance? || e.proc !in s.procs || id !in s.proposals || s.procs[e.proc].id != id then None
    else match s.procs[e.proc]
      case HasWritten(_, _, d, _) => Some(if d == Accept then Accepted else Rejected)
      case FoundMoved(_, _, _, _) => if s.proposals[id].status == Open then Some(Outdated) else None
      case _ => None
  }

  /** The last status written to the row of `id` along a run. */
  ghost function LastWrite(s: System, es: seq<Event>, id: string): Option<ProposalStatus>
    requires s.store.Valid()
    decreases |es|
  {
    if es == [] then None
    else
      var later := LastWrite(Step(s, es[0]), es[1..], id);
      if later.Some? then later else Writes(s, es[0], id)
  }

  ghost function StatusOf(s: System, id: string): ProposalStatus {
    if id in s.proposals then s.proposals[id].status else Open
  }

  lemma WritesAre(s: System, e: Event, id: string)
    requires s.store.Valid() && (forall n :: n in s.procs && s.procs[n].Proposing? ==> s.procs[n].p.status == Open)
    ensures StatusOf(Step(s, e), id) == if Writes(s, e, id).Some? then Writes(s, e, id).value else StatusOf(s, id)
    ensures id in s.proposals ==> id in Step(s, e).proposals
  {
    hide ContextStore.Put, ContextStore.VersionOf, ContextStore.Step;
  }

  lemma {:induction false} LastWriteStands(s: System, es: seq<Event>, id: string)
    requires Safe(s)
    ensures StatusOf(Run(s, es), id)
            == if LastWrite(s, es, id).Some? then LastWrite(s, es, id).value else StatusOf(s, id)
    decreases |es|
  {
    hide Step, Writes, StatusOf;
    if es != [] {
      WritesAre(s, es[0], id);
      StepKeepsSafe(s, es[0]);
      LastWriteStands(Step(s, es[0]), es[1..], id);
    }
  }

  /**
   Exactly when a proposal shows as accepted: the last status any decision wrote to its row, over every
   run, is the acceptance. Whether it was applied is another matter: an acceptance is, for good, but
   a proposal may be applied and show as open, stale or rejected, if its acceptance died before its
   status or a rejection wrote after it.
   */
  lemma AcceptedIffWrittenLast(es: seq<Event>, id: string)
    requires EMPTY.store.Valid() && id in Run(EMPTY, es).proposals
    ensures Run(EMPTY, es).proposals[id].status == Accepted <==> LastWrite(EMPTY, es, id) == Some(Accepted)
    ensures LastWrite(EMPTY, es, id) == Some(Accepted) ==>
              Applied(Run(EMPTY, es).store, id, Run(EMPTY, es).proposals[id])
  {
    hide Run, LastWrite, Applied;
    assert Safe(EMPTY);
    LastWriteStands(EMPTY, es, id);
    if Run(EMPTY, es).proposals[id].status == Accepted {
      AcceptedWasApplied(es, id);
    }
  }

  /** The proposal shows as accepted at every point of the run. */
  ghost predicate AcceptedThroughout(s: System, es: seq<Event>, id: string)
    requires s.store.Valid()
    decreases |es|
  {
    && id in s.proposals && s.proposals[id].status == Accepted
    && (es == [] || AcceptedThroughout(Step(s, es[0]), es[1..], id))
  }

  /** A decision to reject, past its checks, writes its status. */
  ghost predicate RejectsLate(s: System, e: Event, id: string) {
    && e.Advance? && e.proc in s.procs && s.procs[e.proc].HasWritten?
    && s.procs[e.proc].id == id && s.procs[e.proc].decision == Reject
  }

  ghost predicate NeverRejectedLate(s: System, es: seq<Event>, id: string)
    requires s.store.Valid()
    decreases |es|
  {
    es == [] || (!RejectsLate(s, es[0], id) && NeverRejectedLate(Step(s, es[0]), es[1..], id))
  }

  lemma RejectsLateWrites(s: System, e: Event, id: string)
    requires id in s.proposals && s.proposals[id].status == Accepted
    ensures RejectsLate(s, e, id) <==> Writes(s, e, id).Some? && Writes(s, e, id).value != Accepted
  {
  }

  /** An accepted proposal goes on showing as accepted if and only if no rejection that was past its checks writes. */
  lemma {:induction false} StaysAcceptedIff(s: System, es: seq<Event>, id: string)
    requires Safe(s) && id in s.proposals && s.proposals[id].status == Accepted
    ensures AcceptedThroughout(s, es, id) <==> NeverRejectedLate(s, es, id)
    decreases |es|
  {
    hide Step, Writes, RejectsLate;
    if es != [] {
      WritesAre(s, es[0], id);
      RejectsLateWrites(s, es[0], id);
      StepKeepsSafe(s, es[0]);
      var s1 := Step(s, es[0]);
      if RejectsLate(s, es[0], id) {
        NotAcceptedNow(s1, es[1..], id);
      } else {
        StaysAcceptedIff(s1, es[1..], id);
      }
    }
  }

  lemma NotAcceptedNow(s: System, es: seq<Event>, id: string)
    requires s.store.Valid() && id in s.proposals && s.proposals[id].status != Accepted
    ensures !AcceptedThroughout(s, es, id)
  {
  }

  // An open proposal in place, and nobody at work.
  ghost predicate Decidable(s: System, id: string) {
    && s.store.Valid() && s.procs == map[] && id in s.proposals && s.proposals[id].status == Open
    && 0 < s.proposals[id].base == VersionOf(s.store, s.proposals[id].item)
  }

  lemma {:induction false} RunAppend(s: System, es: seq<Event>, more: seq<Event>)
    requires s.store.Valid()
    ensures Run(s, es + more) == Run(Run(s, es), more)
    decreases |es|
  {
    hide Step;
    if es == [] {
      assert es + more == more;
    } else {
      assert (es + more)[1..] == es[1..] + more;
      RunAppend(Step(s, es[0]), es[1..], more);
    }
  }

  lemma RunFour(s: System, a: Event, b: Event, c: Event, d: Event)
    requires s.store.Valid()
    ensures Run(s, [a, b, c, d]) == Step(Step(Step(Step(s, a), b), c), d)
  {
    hide Step;
    RunTwo(s, a, b);
    RunTwo(Step(Step(s, a), b), c, d);
    assert [a, b, c, d] == [a, b] + [c, d];
    RunAppend(s, [a, b], [c, d]);
  }

  // One process accepts as far as its write.
  lemma WrittenByAcceptance(s: System, id: string, a: string, others: map<nat, Proc>)
    requires Decidable(s, id) && 0 !in others
    ensures var p := s.proposals[id];
            var store := Put(s.store, p.item, p.content, p.author, AcceptedProposal(id, a));
            && Step(s.(procs := others[0 := FoundInPlace(id, p, Accept, a)]), Advance(0))
               == System(store, s.proposals, others[0 := HasWritten(id, p, Accept, a)])
            && Applied(store, id, p) && VersionOf(store, p.item) != p.base
  {
    var p := s.proposals[id];
    PutIsOneVersion(s.store, p.item, p.content, p.author, AcceptedProposal(id, a), p.item);
    VersionIsHistoryLength(s.store, p.item);
    hide ContextStore.Put, ContextStore.VersionOf, ContextStore.HistoryOf;
    var procs := others[0 := FoundInPlace(id, p, Accept, a)];
    assert procs[0 := HasWritten(id, p, Accept, a)] == others[0 := HasWritten(id, p, Accept, a)];
  }

  /** A rejection checks before an acceptance writes, and sets its status after: applied, and shown as rejected. */
  lemma RejectedThoughApplied(s: System, id: string, a: string, b: string)
    requires Decidable(s, id)
    ensures var go, other := Advance(0), Advance(1);
            var s' := Run(s, [StartDecide(0, id, Accept, a), StartDecide(1, id, Reject, b),
                              go, other, go, go, other, other]);
            && id in s'.proposals && s'.proposals[id].status == Rejected
            && Applied(s'.store, id, s'.proposals[id])
  {
    hide Run, Step, Applied, ContextStore.VersionOf;
    var go, other := Advance(0), Advance(1);
    var e1, e2 := StartDecide(0, id, Accept, a), StartDecide(1, id, Reject, b);
    assert [e1, e2, go, other, go, go, other, other] == [e1, e2, go, other] + [go, go, other, other];
    RunAppend(s, [e1, e2, go, other], [go, go, other, other]);
    BothInPlace(s, id, a, b);
    RejectionWritesLast(s, id, a, b);
  }

  ghost function InPlaceTogether(s: System, id: string, a: string, b: string): System
    requires id in s.proposals
  {
    var p := s.proposals[id];
    s.(procs := map[1 := FoundInPlace(id, p, Reject, b)][0 := FoundInPlace(id, p, Accept, a)])
  }

  lemma BothInPlace(s: System, id: string, a: string, b: string)
    requires Decidable(s, id)
    ensures Run(s, [StartDecide(0, id, Accept, a), StartDecide(1, id, Reject, b), Advance(0), Advance(1)])
            == InPlaceTogether(s, id, a, b)
  {
    hide Run, ContextStore.Put, ContextStore.VersionOf, ContextStore.HistoryOf;
    var p, go, other := s.proposals[id], Advance(0), Advance(1);
    var e1, e2 := StartDecide(0, id, Accept, a), StartDecide(1, id, Reject, b);
    var s2 := s.(procs := map[0 := HasRead(id, p, Accept, a), 1 := HasRead(id, p, Reject, b)]);
    assert Step(Step(s, e1), e2) == s2;
    assert Step(Step(s2, go), other) == InPlaceTogether(s, id, a, b);
    RunFour(s, e1, e2, go, other);
  }

  lemma RejectionWritesLast(s: System, id: string, a: string, b: string)
    requires Decidable(s, id)
    ensures var s' := Run(InPlaceTogether(s, id, a, b), [Advance(0), Advance(0), Advance(1), Advance(1)]);
            && id in s'.proposals && s'.proposals[id].status == Rejected
            && Applied(s'.store, id, s'.proposals[id])
  {
    hide Run, ContextStore.Put, ContextStore.VersionOf, ContextStore.HistoryOf;
    var p, go, other := s.proposals[id], Advance(0), Advance(1);
    var in1 := FoundInPlace(id, p, Reject, b);
    var s4 := InPlaceTogether(s, id, a, b);
    WrittenByAcceptance(s, id, a, map[1 := in1]);
    var s5 := Step(s4, go);
    var s6 := System(s5.store, SetStatus(s5.proposals, id, Accept, a), map[1 := in1]);
    assert Step(s5, go) == s6 by { assert s5.procs - {0} == map[1 := in1]; }
    var s7 := s6.(procs := map[1 := HasWritten(id, p, Reject, b)]);
    assert Step(s6, other) == s7;
    RunFour(s4, go, go, other, other);
    LateRejection(s7, id, p, b);
  }

  lemma LateRejection(s: System, id: string, p: Proposal, b: string)
    requires s.store.Valid() && id in s.proposals && Same(p, s.proposals[id]) && Applied(s.store, id, p)
    requires s.procs == map[1 := HasWritten(id, p, Reject, b)]
    ensures var s' := Step(s, Advance(1));
            && id in s'.proposals && s'.proposals[id].status == Rejected && Applied(s'.store, id, s'.proposals[id])
  {
  }

  /** An acceptance dies between its write and its status, and somebody reads: applied, and shown as stale. */
  lemma OutdatedThoughApplied(s: System, id: string, a: string, d: Decision, b: string)
    requires Decidable(s, id)
    ensures var go, other := Advance(0), Advance(1);
            var s' := Run(s, [StartDecide(0, id, Accept, a), go, go, Crash(0), StartDecide(1, id, d, b), other, other]);
            && id in s'.proposals && s'.proposals[id].status == Outdated
            && Applied(s'.store, id, s'.proposals[id])
  {
    hide Run, Step, Applied, ContextStore.VersionOf;
    var go, other := Advance(0), Advance(1);
    var e1, e5 := StartDecide(0, id, Accept, a), StartDecide(1, id, d, b);
    assert [e1, go, go, Crash(0), e5, other, other] == [e1, go, go, Crash(0)] + [e5, other, other];
    RunAppend(s, [e1, go, go, Crash(0)], [e5, other, other]);
    DiesAfterWrite(s, id, a);
    ReadAfterWrite(s, id, a, d, b);
  }

  ghost function WrittenOnly(s: System, id: string, a: string): System
    requires s.store.Valid() && id in s.proposals
  {
    var p := s.proposals[id];
    s.(store := Put(s.store, p.item, p.content, p.author, AcceptedProposal(id, a)))
  }

  lemma DiesAfterWrite(s: System, id: string, a: string)
    requires Decidable(s, id)
    ensures Run(s, [StartDecide(0, id, Accept, a), Advance(0), Advance(0), Crash(0)]) == WrittenOnly(s, id, a)
  {
    hide Run, ContextStore.Put, ContextStore.VersionOf, ContextStore.HistoryOf;
    var p, go := s.proposals[id], Advance(0);
    var e1 := StartDecide(0, id, Accept, a);
    var s2 := s.(procs := map[][0 := FoundInPlace(id, p, Accept, a)]);
    assert Step(Step(s, e1), go) == s2;
    WrittenByAcceptance(s, id, a, map[]);
    assert Step(s2, go).procs - {0} == map[];
    RunFour(s, e1, go, go, Crash(0));
  }

  lemma ReadAfterWrite(s: System, id: string, a: string, d: Decision, b: string)
    requires Decidable(s, id)
    ensures var s' := Run(WrittenOnly(s, id, a), [StartDecide(1, id, d, b), Advance(1), Advance(1)]);
            && id in s'.proposals && s'.proposals[id].status == Outdated
            && Applied(s'.store, id, s'.proposals[id])
  {
    hide Run, ContextStore.Put, ContextStore.VersionOf, ContextStore.HistoryOf;
    var p, other, e5 := s.proposals[id], Advance(1), StartDecide(1, id, d, b);
    WrittenByAcceptance(s, id, a, map[]);
    var s4 := WrittenOnly(s, id, a);
    var s6 := s4.(procs := map[1 := FoundMoved(id, p, d, b)]);
    assert Step(Step(s4, e5), other) == s6;
    RunTwo(s4, e5, other);
    assert [e5, other, other] == [e5, other] + [other];
    RunAppend(s4, [e5, other], [other]);
    RunOne(s6, other);
    LateMark(s6, id, p, d, b);
  }

  lemma RunOne(s: System, e: Event)
    requires s.store.Valid()
    ensures Run(s, [e]) == Step(s, e)
  {
    hide Step;
    assert [e][1..] == [];
    assert Run(Step(s, e), []) == Step(s, e);
  }

  lemma LateMark(s: System, id: string, p: Proposal, d: Decision, b: string)
    requires s.store.Valid() && id in s.proposals && Same(p, s.proposals[id]) && Applied(s.store, id, p)
    requires s.proposals[id].status == Open && s.procs == map[1 := FoundMoved(id, p, d, b)]
    ensures var s' := Step(s, Advance(1));
            && id in s'.proposals && s'.proposals[id].status == Outdated && Applied(s'.store, id, s'.proposals[id])
  {
  }

  lemma {:induction false} RunGrowsHistory(s: System, es: seq<Event>, ref: Ref)
    requires s.store.Valid()
    ensures HistoryOf(s.store, ref) <= HistoryOf(Run(s, es).store, ref)
    decreases |es|
  {
    hide ContextStore.HistoryOf, Step;
    if es != [] {
      StepGrowsStore(s, es[0], ref);
      RunGrowsHistory(Step(s, es[0]), es[1..], ref);
    }
  }

  lemma StepGrowsStore(s: System, e: Event, ref: Ref)
    requires s.store.Valid()
    ensures HistoryOf(s.store, ref) <= HistoryOf(Step(s, e).store, ref)
  {
    hide ContextStore.HistoryOf, ContextStore.VersionOf, ContextStore.Put, ContextStore.Step;
    match e {
      case Other(op) => StepGrowsHistory(s.store, op, ref);
      case Advance(n) =>
        if n in s.procs && s.procs[n].FoundInPlace? {
          var q := s.procs[n];
          PutIsOneVersion(s.store, q.p.item, q.p.content, q.p.author, AcceptedProposal(q.id, q.decider), ref);
        }
      case _ =>
    }
  }

  // ---- the code, run without interruption ----

  // What a Decide that nobody interrupts goes through.
  ghost function Uninterrupted(id: string, d: Decision, decider: string): seq<Event> {
    [StartDecide(0, id, d, decider), Advance(0), Advance(0), Advance(0)]
  }

  datatype DecideResult = Decided(p: Proposal) | NotFound | NotOpen(p: Proposal) | LostRace

  class Desk {
    const engine: Engine
    var proposals: map<string, Proposal>

    ghost function State(): System
      reads this, engine
    {
      System(engine.State(), proposals, map[])
    }

    constructor (e: Engine)
      ensures engine == e && proposals == map[]
    {
      engine, proposals := e, map[];
    }

    /** Records a change proposed against the current version of an item that exists. */
    method Propose(id: string, item: Ref, base: int, content: string, author: string) returns (ok: bool)
      requires engine.State().Valid() && id !in proposals
      modifies this
      ensures ok <==> item in engine.items && base == VersionOf(engine.State(), item)
      ensures State() == Run(old(State()), [StartPropose(0, id, item, base, content, author), Advance(0)])
      ensures ok <==> item in engine.items && base == engine.items[item].version
      ensures ok ==> proposals == old(proposals)[id := Proposal(item, base, content, author, Open, "")]
      ensures !ok ==> proposals == old(proposals)
    {
      ghost var s0 := State();
      ghost var start := StartPropose(0, id, item, base, content, author);
      RunTwo(s0, start, Advance(0));
      if item !in engine.items || engine.items[item].version != base {
        return false;
      }
      proposals := proposals[id := Proposal(item, base, content, author, Open, "")];
      assert map[0 := Proposing(id, proposals[id])] - {0} == map[];
      return true;
    }

    /** Marks an open proposal stale once its item has moved past the base version. */
    method RefreshStale(id: string, p: Proposal) returns (p': Proposal)
      requires engine.State().Valid()
      modifies this
      ensures p' == if p.status == Open && VersionOf(engine.State(), p.item) != p.base
                    then p.(status := Outdated) else p
      ensures proposals == if p' == p then old(proposals) else MarkOutdated(old(proposals), id)
      ensures p' == p || p' == p.(status := Outdated)
      ensures p' != p <==>
              p.status == Open && p.base != if p.item in engine.items then engine.items[p.item].version else 0
      ensures p' != p && id in old(proposals) && old(proposals)[id].status == Open ==>
        proposals == old(proposals)[id := old(proposals)[id].(status := Outdated)]
      ensures p' == p || id !in old(proposals) || old(proposals)[id].status != Open ==> proposals == old(proposals)
    {
      p' := p;
      if p.status != Open {
        return;
      }
      var version := if p.item in engine.items then engine.items[p.item].version else 0;
      if version != p.base {
        if id in proposals && proposals[id].status == Open {
          proposals := proposals[id := proposals[id].(status := Outdated)];
        }
        p' := p.(status := Outdated);
      }
    }

    /** Accepts or rejects a proposal; accepting writes through the ordinary compare-and-set. */
    method Decide(id: string, d: Decision, decider: string) returns (r: DecideResult)
      requires engine.State().Valid()
      modifies this, engine
      ensures engine.State().Valid()
      ensures State() == Run(old(State()), Uninterrupted(id, d, decider))
      ensures r.NotFound? <==> id !in old(proposals)
      ensures r.Decided? <==> id in old(proposals) && old(proposals)[id].status == Open
                              && VersionOf(old(engine.State()), old(proposals)[id].item) == old(proposals)[id].base
      ensures r.Decided? ==> id in proposals && proposals[id] == r.p
                             && r.p.status == if d == Accept then Accepted else Rejected
      ensures !r.LostRace?
      // In the tables' own terms. A decision in time sets the row's status and decider and nothing else of it;
      // accepting also makes the proposed content the item's next version.
      ensures r.Decided? ==>
        var p := old(proposals)[id];
        && p.base == (if p.item in old(engine.items) then old(engine.items)[p.item].version else 0)
        && proposals == old(proposals)[id := p.(status := if d == Accept then Accepted else Rejected,
                                                decidedBy := decider)]
        && (d == Accept ==>
              && engine.items == old(engine.items)[p.item := Item(p.base + 1, p.content, p.author)]
              && p.item in engine.versions && 0 <= p.base < |engine.versions[p.item]|
              && engine.versions[p.item][p.base]
                 == Version(p.base + 1, p.content, p.author, AcceptedProposal(id, decider)))
      ensures !r.Decided? || d == Reject ==>
        engine.items == old(engine.items) && engine.versions == old(engine.versions)
      // Too late, it marks an open row as stale and leaves any other as it is.
      ensures r.NotOpen? ==>
        var p := old(proposals)[id];
        && r.p == (if p.status == Open then p.(status := Outdated) else p)
        && proposals == old(proposals)[id := r.p]
      ensures r.NotFound? ==> proposals == old(proposals)
    {
      ghost var s0 := State();
      UninterruptedRun(s0, id, d, decider);
      if id !in proposals {
        return NotFound;
      }
      var p := RefreshStale(id, proposals[id]);
      if p.status != Open {
        return NotOpen(p);
      }
      if d == Accept {
        var w := engine.Write(p.item, p.base, p.content, p.author, AcceptedProposal(id, decider));
        if w.Stale? {
          return LostRace;
        }
      }
      p := p.(status := if d == Accept then Accepted else Rejected, decidedBy := decider);
      proposals := proposals[id := p];
      return Decided(p);
    }
  }

  lemma RunTwo(s: System, e1: Event, e2: Event)
    requires s.store.Valid()
    ensures Run(s, [e1, e2]) == Step(Step(s, e1), e2)
  {
    assert [e1, e2][1..] == [e2];
    assert Run(Step(s, e1), [e2]) == Run(Step(Step(s, e1), e2), [e2][1..]);
  }

  // Uninterrupted, Decide either finds nothing to do, marks the proposal stale, or decides it.
  lemma UninterruptedRun(s: System, id: string, d: Decision, decider: string)
    requires s.store.Valid() && s.procs == map[]
    ensures var s' := Run(s, Uninterrupted(id, d, decider));
            if id !in s.proposals || s.proposals[id].status != Open then s' == s
            else
              var p := s.proposals[id];
              if VersionOf(s.store, p.item) != p.base
              then s' == s.(proposals := s.proposals[id := p.(status := Outdated)])
              else s' == System(
                  if d == Accept then Put(s.store, p.item, p.content, p.author, AcceptedProposal(id,
                    decider)) else s.store,
                  SetStatus(s.proposals, id, d, decider), map[])
  {
    hide ContextStore.Put, ContextStore.VersionOf;
    var go := Advance(0);
    var start := StartDecide(0, id, d, decider);
    var s1 := Step(s, start);
    assert Uninterrupted(id, d, decider)[1..] == [go, go, go];
    assert [go, go, go][1..] == [go, go];
    RunTwo(Step(s1, go), go, go);
    assert Run(s, Uninterrupted(id, d, decider)) == Step(Step(Step(s1, go), go), go);
    if id in s.proposals {
      assert s.procs[0 := s1.procs[0]] - {0} == map[];
      var s2 := Step(s1, go);
      assert s2.procs - {0} == map[];
      var s3 := Step(s2, go);
      assert s3.procs - {0} == map[];
    }
  }
}
