/**
 `internal/cli/sync.go`: the loop that syncs one container, or the whole forest parents first,
 each under its lease, recording the new base after every success.
 */
module Cascade {
  import opened Options
  import opened Commits
  import opened StackSync
  import opened Containers
  import opened RecordedBase
  import opened Lineage
  import opened Forest

  datatype ExitCode = Ok | UsageCode | ConflictCode | GitCode | LockedCode

  // The exit code the loop remembers for an outcome it reports and carries on after.
  function ExitFor(e: Eligibility, dryRun: bool): ExitCode {
    if dryRun then Ok
    else match e
      case Conflict => ConflictCode
      case Drifted => GitCode
      case _ => Ok
  }

  // ---- specification ----

  // `outcomes` covers the targets the loop got through before it ended.
  datatype PassResult = PassResult(world: World, outcomes: seq<Eligibility>, exit: ExitCode)

  ghost function Pass(w: World, targets: seq<Container>, o: SyncOptions, turns: seq<Turn>): PassResult
    requires w.Valid() && |targets| <= |turns|
    decreases |targets|
  {
    if targets == [] then PassResult(w, [], Ok)
    else
      TurnValid(w, targets[0], o, turns[0]);
      var w1 := AfterTurn(w, targets[0], o, turns[0]);
      var (e, exit) := Reported(w, targets[0], o, turns[0]);
      if e.None? then PassResult(w1, [], exit)
      else Prepend([e.value], exit, Pass(w1, targets[1..], o, turns[1..]))
  }

  /** What one target reports, and its exit code; `None` ends the loop with that code. */
  ghost function Reported(w: World, c: Container, o: SyncOptions, t: Turn): (Option<Eligibility>, ExitCode)
    requires w.Valid()
  {
    if t.leaseHeld then (None, LockedCode)
    else match Outcome(w.repo, c.Target(), o, t.answers)
      case None => (None, GitCode)
      case Some(e) =>
        // A new base that cannot be stored ends the loop; the branch stays rebased.
        if e == Synced && !o.dryRun && !t.stored then (None, UsageCode) else (Some(e), ExitFor(e, o.dryRun))
  }

  // The last remembered exit code wins, and an early end overrides it.
  ghost function Prepend(outcomes: seq<Eligibility>, exit: ExitCode, rest: PassResult): PassResult {
    rest.(outcomes := outcomes + rest.outcomes, exit := if rest.exit != Ok then rest.exit else exit)
  }

  // The targets are rows as stored, each container once, and no container's parent branch is
  // moved at or after its own turn.
  ghost predicate ParentsFirst(w: World, targets: seq<Container>)
    requires w.Valid()
  {
    && (forall i :: 0 <= i < |targets| ==> targets[i].id in w.rows && w.rows[targets[i].id] == targets[i])
    && (forall i, j :: 0 <= i < j < |targets| ==>
          targets[i].id != targets[j].id && targets[i].branch != targets[j].branch)
    && (forall i, j :: 0 <= i <= j < |targets| ==> targets[i].parentBranch != targets[j].branch)
  }

  // The container stands on its parent's tip, and a sync would find nothing to do.
  ghost predicate Converged(w: World, c: Container)
    requires w.Valid()
  {
    && c.id in w.rows && w.rows[c.id].branch == c.branch && w.rows[c.id].parentBranch == c.parentBranch
    && c.parentBranch in w.repo.refs
    && w.rows[c.id].baseSHA == w.repo.refs[c.parentBranch]
    && Classify(w.repo, w.rows[c.id].Target()) == UpToDate
  }

  // ---- one turn ----

  lemma TurnConverges(w: World, c: Container, o: SyncOptions, t: Turn)
    requires w.Valid() && c.id in w.rows && w.rows[c.id] == c && c.branch != c.parentBranch
    requires !o.dryRun && !t.leaseHeld
    requires Outcome(w.repo, c.Target(), o, t.answers) in {Some(Synced), Some(UpToDate)}
    requires Outcome(w.repo, c.Target(), o, t.answers) == Some(Synced) ==> t.stored
    ensures AfterTurn(w, c, o, t).Valid() && Converged(AfterTurn(w, c, o, t), c)
  {
    TurnValid(w, c, o, t);
    SyncKeepsBranches(w.repo, c.Target(), o, t.answers);
  }

  lemma TurnLeavesConverged(w: World, d: Container, o: SyncOptions, t: Turn, c: Container)
    requires w.Valid() && Converged(w, c)
    requires d.id != c.id && d.branch != c.branch && d.branch != c.parentBranch
    ensures AfterTurn(w, d, o, t).Valid() && Converged(AfterTurn(w, d, o, t), c)
  {
    TurnValid(w, d, o, t);
    SyncKeepsBranches(w.repo, d.Target(), o, t.answers);
    if !t.leaseHeld {
      WorkCarries(w.repo, SyncSpec(w.repo, d.Target(), o, t.answers), w.rows[c.id].Target());
    }
  }

  // ---- whole passes ----

  lemma ParentsFirstTail(w: World, targets: seq<Container>, o: SyncOptions, t: Turn)
    requires w.Valid() && targets != [] && ParentsFirst(w, targets)
    ensures AfterTurn(w, targets[0], o, t).Valid() && ParentsFirst(AfterTurn(w, targets[0], o, t), targets[1..])
  {
    TurnValid(w, targets[0], o, t);
    hide AfterTurn;
    var w1 := AfterTurn(w, targets[0], o, t);
    forall j | 0 <= j < |targets[1..]|
      ensures targets[1..][j].id in w1.rows && w1.rows[targets[1..][j].id] == targets[1..][j]
    {
      assert targets[1..][j] == targets[j + 1];
    }
  }

  lemma {:induction false} PassLeavesConverged(w: World, targets: seq<Container>, o: SyncOptions, turns: seq<Turn>,
                                               c: Container)
    requires w.Valid() && |targets| <= |turns| && Converged(w, c)
    requires forall j :: 0 <= j < |targets| ==>
               targets[j].id != c.id && targets[j].branch != c.branch && targets[j].branch != c.parentBranch
    ensures Pass(w, targets, o, turns).world.Valid() && Converged(Pass(w, targets, o, turns).world, c)
    decreases |targets|
  {
    hide Converged, AfterTurn, Outcome;
    if targets != [] {
      TurnLeavesConverged(w, targets[0], o, turns[0], c);
      PassLeavesConverged(AfterTurn(w, targets[0], o, turns[0]), targets[1..], o, turns[1..], c);
    }
  }

  /**
   Convergence. After one pass over targets in parents-first order, every container whose own
   sync reported Synced or UpToDate stands on its parent's final tip and is up to date, whatever
   became of the other targets and wherever the loop stopped.
   */
  lemma {:induction false} CascadeConverges(w: World, targets: seq<Container>, o: SyncOptions, turns: seq<Turn>,
                                            i: nat)
    requires w.Valid() && |targets| <= |turns| && ParentsFirst(w, targets) && !o.dryRun
    requires i < |Pass(w, targets, o, turns).outcomes|
    requires Pass(w, targets, o, turns).outcomes[i] in {Synced, UpToDate}
    ensures i < |targets|
    ensures Pass(w, targets, o, turns).world.Valid() && Converged(Pass(w, targets, o, turns).world, targets[i])
    decreases |targets|
  {
    hide Converged, AfterTurn, Outcome;
    var w1 := AfterTurn(w, targets[0], o, turns[0]);
    if i == 0 {
      TurnConverges(w, targets[0], o, turns[0]);
      PassLeavesConverged(w1, targets[1..], o, turns[1..], targets[0]);
    } else {
      ParentsFirstTail(w, targets, o, turns[0]);
      assert Pass(w1, targets[1..], o, turns[1..]).outcomes[i - 1] == Pass(w, targets, o, turns).outcomes[i];
      CascadeConverges(w1, targets[1..], o, turns[1..], i - 1);
    }
  }

  // A pass ends with a usage error exactly when the new base of the target it stopped at is lost.
  lemma {:induction false} UsageErrorIsALostBase(w: World, targets: seq<Container>, o: SyncOptions, turns: seq<Turn>)
    requires w.Valid() && |targets| <= |turns|
    ensures var p := Pass(w, targets, o, turns);
            p.exit == UsageCode ==> |p.outcomes| < |targets|
    decreases |targets|
  {
    hide AfterTurn, Outcome;
    if targets != [] {
      TurnValid(w, targets[0], o, turns[0]);
      UsageErrorIsALostBase(AfterTurn(w, targets[0], o, turns[0]), targets[1..], o, turns[1..]);
    }
  }

  /**
   A pass keeps every container of the project on its base with exactly its own work, except exactly
   the one at which it stopped with a usage error: that one is rebased and its new base is lost.
   */
  lemma {:induction false} CascadeKeepsWork(w: World, targets: seq<Container>, o: SyncOptions, turns: seq<Turn>,
                                            id: string)
    requires w.Valid() && |targets| <= |turns| && ParentsFirst(w, targets) && Stands(w, id)
    ensures var p := Pass(w, targets, o, turns);
            && p.world.Valid() && (p.exit == UsageCode ==> |p.outcomes| < |targets|)
            && (Stands(p.world, id) && Own(p.world, id) == Own(w, id)
                <==> !(p.exit == UsageCode && targets[|p.outcomes|].id == id))
    decreases |targets|
  {
    UsageErrorIsALostBase(w, targets, o, turns);
    hide Own, Stands, AfterTurn, Outcome;
    if targets != [] {
      TurnKeepsWork(w, targets[0], o, turns[0], id);
      LostEndsPass(w, targets, o, turns);
      if Reported(w, targets[0], o, turns[0]).0.Some? {
        var w1 := AfterTurn(w, targets[0], o, turns[0]);
        ParentsFirstTail(w, targets, o, turns[0]);
        CascadeKeepsWork(w1, targets[1..], o, turns[1..], id);
      }
    }
  }

  lemma LostEndsPass(w: World, targets: seq<Container>, o: SyncOptions, turns: seq<Turn>)
    requires w.Valid() && 0 < |targets| <= |turns|
    ensures LosesBase(w, targets[0], o, turns[0]) <==> Reported(w, targets[0], o, turns[0]) == (None, UsageCode)
  {
  }

  lemma ConvergedTurnIsIdle(w: World, c: Container, o: SyncOptions, t: Turn)
    requires w.Valid() && Converged(w, c) && w.rows[c.id] == c && !t.leaseHeld
    ensures AfterTurn(w, c, o, t) == w && Reported(w, c, o, t) == (Some(UpToDate), Ok)
  {
    assert w.rows[c.id := c] == w.rows;
  }

  /** Nothing is left for a second pass: it reports UpToDate throughout and changes nothing. */
  lemma {:induction false} ConvergedPassIsIdle(w: World, targets: seq<Container>, o: SyncOptions, turns: seq<Turn>)
    requires w.Valid() && |targets| <= |turns|
    requires forall i :: 0 <= i < |targets| ==>
               Converged(w, targets[i]) && w.rows[targets[i].id] == targets[i] && !turns[i].leaseHeld
    ensures var p := Pass(w, targets, o, turns);
            && p.world == w && p.exit == Ok && |p.outcomes| == |targets|
            && forall i :: 0 <= i < |targets| ==> p.outcomes[i] == UpToDate
    decreases |targets|
  {
    hide AfterTurn, Reported, Converged;
    if targets != [] {
      ConvergedTurnIsIdle(w, targets[0], o, turns[0]);
      ConvergedPassIsIdle(w, targets[1..], o, turns[1..]);
    }
  }

  /** A dry run changes no repository state and no row. */
  lemma {:induction false} DryPassChangesNothing(w: World, targets: seq<Container>, o: SyncOptions, turns: seq<Turn>)
    requires w.Valid() && |targets| <= |turns| && o.dryRun
    ensures Pass(w, targets, o, turns).world == w
    decreases |targets|
  {
    if targets != [] && !turns[0].leaseHeld {
      DryPassChangesNothing(w, targets[1..], o, turns[1..]);
    }
  }

  // ---- the forest order is parents first ----

  // One branch per container, a child stacked on its parent container's branch, and every other
  // parent branch (the repository base, or what a destroyed parent left behind) owned by nobody.
  ghost predicate Consistent(cs: seq<Container>) {
    && DistinctIds(cs)
    && (forall c, d :: c in cs && d in cs && c.branch == d.branch ==> c == d)
    && (forall c, d :: c in cs && d in cs && c.parentContainerId == d.id && d.id != "" ==> c.parentBranch == d.branch)
    && (forall c, d :: c in cs && d in cs && IsRoot(ParentsOf(cs), c.id) ==> c.parentBranch != d.branch)
  }

  lemma ForestOrderIsParentsFirst(w: World, cs: seq<Container>, order: seq<Container>)
    requires w.Valid() && Consistent(cs) && Conserves(cs, order)
    requires forall c :: c in cs ==> c.id in w.rows && w.rows[c.id] == c
    ensures ParentsFirst(w, order)
  {
    hide Grounded, OnOrBelowCycle;
    forall i, j | 0 <= i <= j < |order| ensures order[i].parentBranch != order[j].branch {
      var c, d := order[i], order[j];
      assert c in cs && d in cs;
      if !IsRoot(ParentsOf(cs), c.id) {
        var k :| 0 <= k < i && order[k].id == c.parentContainerId;
        assert order[k] in cs && order[k] != d;
      }
    }
    forall i, j | 0 <= i < j < |order|
      ensures order[i].id != order[j].id && order[i].branch != order[j].branch
    {
      assert order[i] in cs && order[j] in cs && order[i] != order[j];
    }
  }

  // ---- the code ----

  /** The container rows, as the store keeps them. */
  class Database {
    var rows: map<string, Container>

    constructor (r: map<string, Container>)
      ensures rows == r
    {
      rows := r;
    }

    /** Stores the new base, if the database lets it. */
    method UpdateContainerBaseSHA(id: string, base: CommitId, works: bool) returns (ok: bool)
      requires id in rows
      modifies this
      ensures ok == works
      ensures rows == if works then old(rows)[id := old(rows)[id].(baseSHA := base)] else old(rows)
    {
      ok := works;
      if works {
        rows := rows[id := rows[id].(baseSHA := base)];
      }
    }

    method UpdateContainerStatus(id: string, status: Status)
      requires id in rows
      modifies this
      ensures rows == old(rows)[id := old(rows)[id].(status := status)]
    {
      rows := rows[id := rows[id].(status := status)];
    }
  }

  /** What the loop does with one target's result; `ends` if it cannot go on. */
  method Record(db: Database, c: Container, res: Result, dryRun: bool, stored: bool)
    returns (ends: bool, exit: ExitCode)
    requires c.id in db.rows && (res.eligibility == Synced ==> res.newBaseSHA.Some?)
    modifies db
    ensures ends <==> res.eligibility == Synced && !dryRun && !stored
    ensures exit == if ends then UsageCode
                    else if dryRun then Ok
                    else if res.eligibility == Conflict then ConflictCode
                    else if res.eligibility == Drifted then GitCode
                    else Ok
    ensures db.rows ==
            if dryRun || ends then old(db.rows)
            else match res.eligibility
              case Synced =>
                old(db.rows)[c.id := old(db.rows)[c.id].(baseSHA := res.newBaseSHA.value, status := Running)]
              case Conflict => old(db.rows)[c.id := old(db.rows)[c.id].(status := InConflict)]
              case Drifted => old(db.rows)[c.id := old(db.rows)[c.id].(status := HasDrifted)]
              case _ => old(db.rows)
  {
    ends, exit := false, Ok;
    if dryRun {
      return;
    }
    match res.eligibility {
      case Synced =>
        var ok := db.UpdateContainerBaseSHA(c.id, res.newBaseSHA.value, stored);
        if !ok {
          return true, UsageCode;
        }
        db.UpdateContainerStatus(c.id, Running);
      case Conflict =>
        db.UpdateContainerStatus(c.id, InConflict);
        exit := ConflictCode;
      case Drifted =>
        db.UpdateContainerStatus(c.id, HasDrifted);
        exit := GitCode;
      case _ =>
    }
  }

  /** One target: the sync under the container's lease, then the row updates. `None` ends the loop. */
  method SyncTarget(g: Git, db: Database, c: Container, o: SyncOptions, turn: Turn)
    returns (outcome: Option<Eligibility>, exit: ExitCode)
    requires World(g.State(), db.rows).Valid() && c.id in db.rows
    modifies g, db
    ensures World(g.State(), db.rows) == old(AfterTurn(World(g.State(), db.rows), c, o, turn))
    ensures (outcome, exit) == old(Reported(World(g.State(), db.rows), c, o, turn))
  {
    hide SyncSpec, Outcome, Classify;
    if turn.leaseHeld {
      return None, LockedCode;
    }
    var res, err := Sync(g, c.Target(), o, turn.answers);
    if err {
      return None, GitCode;
    }
    var ends;
    ends, exit := Record(db, c, res, o.dryRun, turn.stored);
    outcome := if ends then None else Some(res.eligibility);
  }

  /** What one target's turn reports, and what becomes of its row, in the terms of the command. */
  lemma TurnReports(w: World, c: Container, o: SyncOptions, t: Turn)
    requires w.Valid() && c.id in w.rows
    ensures var (outcome, exit) := Reported(w, c, o, t);
            var w' := AfterTurn(w, c, o, t);
            && (t.leaseHeld ==> outcome == None && exit == LockedCode && w' == w)
            && (!t.leaseHeld && outcome.None? ==>
                  && exit == (if t.answers.statusOk && t.answers.rebase == Applies then UsageCode else GitCode)
                  && w'.rows == w.rows)
            && (outcome.Some? ==>
                  && !t.leaseHeld
                  && exit == (if o.dryRun then Ok
                              else if outcome.value == Conflict then ConflictCode
                              else if outcome.value == Drifted then GitCode
                              else Ok)
                  && (outcome.value == Synced ==> !o.dryRun && t.stored && c.parentBranch in w.repo.refs)
                  && w'.rows ==
                     if o.dryRun then w.rows
                     else if outcome.value == Synced
                     then w.rows[c.id := w.rows[c.id].(baseSHA := w.repo.refs[c.parentBranch], status := Running)]
                     else if outcome.value == Conflict then w.rows[c.id := w.rows[c.id].(status := InConflict)]
                     else if outcome.value == Drifted then w.rows[c.id := w.rows[c.id].(status := HasDrifted)]
                     else w.rows)
  {
    assert w.rows[c.id := w.rows[c.id]] == w.rows;
  }

  /** Syncs the targets one after another. */
  method SyncTargets(g: Git, db: Database, targets: seq<Container>, o: SyncOptions, turns: seq<Turn>)
    returns (outcomes: seq<Eligibility>, exit: ExitCode)
    requires World(g.State(), db.rows).Valid() && |targets| <= |turns|
    requires forall i :: 0 <= i < |targets| ==> targets[i].id in db.rows
    modifies g, db
    ensures World(g.State(), db.rows).Valid()
    ensures PassResult(World(g.State(), db.rows), outcomes, exit)
            == old(Pass(World(g.State(), db.rows), targets, o, turns))
  {
    hide AfterTurn, Reported;
    outcomes, exit := [], Ok;
    ghost var whole := Pass(World(g.State(), db.rows), targets, o, turns);
    for i := 0 to |targets|
      invariant World(g.State(), db.rows).Valid()
      invariant forall j :: 0 <= j < |targets| ==> targets[j].id in db.rows
      invariant whole == Prepend(outcomes, exit, Pass(World(g.State(), db.rows), targets[i..], o, turns[i..]))
    {
      ghost var w := World(g.State(), db.rows);
      var c, turn := targets[i], turns[i];
      assert targets[i..][0] == c && turns[i..][0] == turn;
      assert targets[i..][1..] == targets[i + 1..] && turns[i..][1..] == turns[i + 1..];
      TurnValid(w, c, o, turn);
      var outcome, code := SyncTarget(g, db, c, o, turn);
      if code != Ok {
        exit := code;
      }
      if outcome.None? {
        return;
      }
      outcomes := outcomes + [outcome.value];
    }
    assert targets[|targets|..] == [];
  }

  /**
   `aurium sync --cascade`: the whole forest in one pass. Each container whose parent chain ends
   is a target exactly once, and afterwards everything that reported success has converged.
   */
  method SyncCascade(g: Git, db: Database, all: seq<Container>, o: SyncOptions, turns: seq<Turn>)
    returns (order: seq<Container>, outcomes: seq<Eligibility>, exit: ExitCode)
    requires World(g.State(), db.rows).Valid() && Consistent(all) && |all| <= |turns|
    requires forall c :: c in all ==> c.id in db.rows && db.rows[c.id] == c
    modifies g, db
    ensures World(g.State(), db.rows).Valid() && Conserves(all, order)
    ensures |order| <= |turns| && |outcomes| <= |order|
    ensures |outcomes| == |order| ==> ExitsWith(outcomes, o.dryRun, exit)
    ensures |outcomes| < |order| ==>
              exit == if turns[|outcomes|].leaseHeld then LockedCode
                      else if turns[|outcomes|].answers == Answers(true, Applies) then UsageCode
                      else GitCode
    ensures PassResult(World(g.State(), db.rows), outcomes, exit)
            == old(Pass(World(g.State(), db.rows), order, o, turns))
    ensures !o.dryRun ==> forall i :: 0 <= i < |outcomes| && outcomes[i] in {Synced, UpToDate} ==>
              Converged(World(g.State(), db.rows), order[i])
    ensures o.dryRun ==> g.State() == old(g.State()) && db.rows == old(db.rows)
  {
    hide Converged, Consistent, AfterTurn, Outcome, Pass, Conserves, ExitsWith;
    ghost var w := World(g.State(), db.rows);
    ConsistentIds(all);
    order := Flatten(all);
    OrderFits(all, order);
    ForestOrderIsParentsFirst(w, all, order);
    outcomes, exit := SyncTargets(g, db, order, o, turns);
    OutcomesFit(w, order, o, turns);
    PassExit(w, order, o, turns);
    if o.dryRun {
      DryPassChangesNothing(w, order, o, turns);
    } else {
      forall i: nat | i < |outcomes| && outcomes[i] in {Synced, UpToDate}
        ensures i < |order| && Converged(World(g.State(), db.rows), order[i])
      {
        CascadeConverges(w, order, o, turns, i);
      }
    }
  }

  // The last target that ran into trouble.
  ghost predicate LastTrouble(outcomes: seq<Eligibility>, i: int) {
    && 0 <= i < |outcomes| && (outcomes[i] == Conflict || outcomes[i] == Drifted)
    && forall j :: i < j < |outcomes| ==> outcomes[j] != Conflict && outcomes[j] != Drifted
  }

  /** The exit code of a loop that got through: that of the last conflict or drift, if there was one. */
  ghost predicate ExitsWith(outcomes: seq<Eligibility>, dryRun: bool, exit: ExitCode) {
    if dryRun then exit == Ok
    else
      && (forall i :: LastTrouble(outcomes, i) ==> exit == if outcomes[i] == Conflict then ConflictCode else GitCode)
      && ((forall e :: e in outcomes ==> e != Conflict && e != Drifted) ==> exit == Ok)
  }

  lemma ExitsOn(first: Eligibility, rest: seq<Eligibility>, dryRun: bool, exit: ExitCode, code: ExitCode)
    requires ExitsWith(rest, dryRun, exit)
    requires code == if dryRun then Ok else if first == Conflict then ConflictCode
                     else if first == Drifted then GitCode else Ok
    ensures ExitsWith([first] + rest, dryRun, if exit != Ok then exit else code)
  {
    var all := [first] + rest;
    assert forall e :: e in all <==> e == first || e in rest;
    if forall e :: e in all ==> e != Conflict && e != Drifted {
      assert first in all && forall e :: e in rest ==> e in all;
    }
    forall i | LastTrouble(all, i) && !dryRun
      ensures (if exit != Ok then exit else code) == if all[i] == Conflict then ConflictCode else GitCode
    {
      if i > 0 {
        LastOfRest(first, rest, i);
      } else {
        forall e | e in rest ensures e != Conflict && e != Drifted {
          var j :| 0 <= j < |rest| && rest[j] == e;
          assert all[j + 1] == e;
        }
      }
    }
  }

  lemma LastOfRest(first: Eligibility, rest: seq<Eligibility>, i: int)
    requires LastTrouble([first] + rest, i) && i > 0
    ensures LastTrouble(rest, i - 1)
  {
    var all := [first] + rest;
    assert all[i] == rest[i - 1] && forall j :: 0 <= j < |rest| ==> rest[j] == all[j + 1];
  }

  /** How a pass exits: a loop that ends early by what ended it, any other by its outcomes. */
  lemma {:induction false} PassExit(w: World, targets: seq<Container>, o: SyncOptions, turns: seq<Turn>)
    requires w.Valid() && |targets| <= |turns|
    ensures var p := Pass(w, targets, o, turns);
            && |p.outcomes| <= |targets|
            && (|p.outcomes| == |targets| ==> ExitsWith(p.outcomes, o.dryRun, p.exit))
            && (|p.outcomes| < |targets| ==>
                  var t := turns[|p.outcomes|];
                  p.exit == if t.leaseHeld then LockedCode
                            else if t.answers.statusOk && t.answers.rebase == Applies then UsageCode
                            else GitCode)
    decreases |targets|
  {
    hide AfterTurn, ExitsWith;
    if targets == [] {
      NothingToReport(o.dryRun);
    } else {
      TurnValid(w, targets[0], o, turns[0]);
      var w1 := AfterTurn(w, targets[0], o, turns[0]);
      PassExit(w1, targets[1..], o, turns[1..]);
      var (e, exit) := Reported(w, targets[0], o, turns[0]);
      if e.Some? {
        var rest := Pass(w1, targets[1..], o, turns[1..]);
        if |rest.outcomes| == |targets| - 1 {
          ExitsOn(e.value, rest.outcomes, o.dryRun, rest.exit, exit);
        }
      }
    }
  }

  lemma NothingToReport(dryRun: bool)
    ensures ExitsWith([], dryRun, Ok)
  {
  }

  lemma ConsistentIds(cs: seq<Container>)
    requires Consistent(cs)
    ensures DistinctIds(cs)
  {
  }

  lemma OrderFits(cs: seq<Container>, order: seq<Container>)
    requires DistinctIds(cs) && Conserves(cs, order)
    ensures |order| <= |cs| && forall i :: 0 <= i < |order| ==> order[i] in cs
  {
    assert forall i :: 0 <= i < |order| ==> order[i] in order;
    DistinctFit(order, set c | c in cs);
    SetOfSeq(cs);
  }

  lemma {:induction false} SetOfSeq<T>(s: seq<T>)
    ensures |set x | x in s| <= |s|
  {
    if s != [] {
      SetOfSeq(s[1..]);
      assert (set x | x in s) == {s[0]} + set x | x in s[1..];
    }
  }

  lemma {:induction false} OutcomesFit(w: World, targets: seq<Container>, o: SyncOptions, turns: seq<Turn>)
    requires w.Valid() && |targets| <= |turns|
    ensures |Pass(w, targets, o, turns).outcomes| <= |targets|
    decreases |targets|
  {
    hide AfterTurn, Outcome;
    if targets != [] {
      TurnValid(w, targets[0], o, turns[0]);
      OutcomesFit(AfterTurn(w, targets[0], o, turns[0]), targets[1..], o, turns[1..]);
    }
  }
}
