/**
 `internal/gateway/approvals.go`: calls held for a human. Deciding reads the row, updates it and then
 executes the call; a sweep selects the overdue rows and then marks each. Decisions and sweeps of
 different processes may overlap. Times are integers.
 */
module Approvals {
  import Gateway
  import opened Options

  const APPROVAL_TTL: int := 30 * 60 * 1_000_000_000

  datatype Status = Pending | Approved | Rejected | Expired

  /**
   A held call. `capability` is stored as integration name, underscore, capability; manual requests have
   no integration.
   */
  datatype Approval = Approval(integration: string, capability: string, args: string, status: Status,
                               decidedBy: string, expires: int)

  /** A call as an upstream server receives it. */
  datatype Call = Call(id: string, integration: string, capability: string, args: string)

  /** A decision in progress: the row as it was read, and whether its own update is done. */
  datatype Deciding = Deciding(id: string, row: Approval, approve: bool, decider: string, updated: bool)

  /**
   `deciding` and `sweeping` are what processes have in hand: a decision, or the rows a sweep selected
   and has not marked yet. `asked` and `executed` are history: what each request was for, and what
   was sent upstream.
   */
  datatype System = System(now: int, approvals: map<string, Approval>, connected: set<string>,
                           deciding: map<nat, Deciding>, sweeping: map<nat, set<string>>,
                           asked: map<string, Call>, executed: seq<Call>)

  datatype Op =
    | Tick(d: nat)
    | Connect(integration: string)
    | Disconnect(integration: string)
    // A call in approve mode (its integration was found by a name without underscores), or a manual request.
    | Request(id: string, integration: string, name: string, capability: string, args: string)
    | RequestManual(id: string, action: string)
    // A decision without interruption, or in its three parts: read and check, update, execute.
    | Decide(id: string, decision: string, decider: string)
    | StartDecide(proc: nat, id: string, decision: string, decider: string)
    | UpdateRow(proc: nat)
    | Execute(proc: nat)
    // A sweep without interruption, or in its parts: select, then one update per row.
    | ExpireStale
    | StartSweep(proc: nat)
    | ExpireOne(proc: nat, id: string)
    // A process dies with what it has in hand.
    | Die(proc: nat)

  // ---- specification ----

  /** What follows the first underscore. */
  function AfterCut(text: string): string {
    if text == "" then "" else if text[0] == '_' then text[1..] else AfterCut(text[1..])
  }

  lemma {:induction false} AfterCutOfJoined(name: string, rest: string)
    requires '_' !in name
    ensures AfterCut(name + "_" + rest) == rest
  {
    var joined := name + "_" + rest;
    if name == "" {
      assert joined[0] == '_' && joined[1..] == rest;
    } else {
      assert joined[0] == name[0] && joined[1..] == name[1..] + "_" + rest;
      AfterCutOfJoined(name[1..], rest);
    }
  }

  ghost function Insert(s: System, id: string, row: Approval, call: Call): System {
    if id in s.approvals then s
    else s.(approvals := s.approvals[id := row], asked := s.asked[id := call])
  }

  ghost predicate CanDecide(s: System, id: string, decision: string) {
    id in s.approvals && s.approvals[id].status == Pending && (decision == "approved" || decision == "rejected")
  }

  ghost predicate Executes(s: System, row: Approval, approve: bool) {
    approve && row.integration != "" && row.integration in s.connected
  }

  // The update does not look at the status again.
  ghost function Update(s: System, d: Deciding): System {
    if d.id !in s.approvals then s
    else s.(approvals := s.approvals[d.id := s.approvals[d.id].(
              status := if d.approve then Approved else Rejected, decidedBy := d.decider)])
  }

  ghost function Send(s: System, d: Deciding): System {
    if !Executes(s, d.row, d.approve) then s
    else s.(executed := s.executed + [Call(d.id, d.row.integration, AfterCut(d.row.capability), d.row.args)])
  }

  ghost predicate Overdue(s: System, id: string) {
    id in s.approvals && s.approvals[id].status == Pending && s.approvals[id].expires < s.now
  }

  ghost predicate Selected(s: System, p: nat, id: string) {
    p in s.sweeping && id in s.sweeping[p]
  }

  ghost function ReadRow(s: System, id: string, decision: string, decider: string): Deciding
    requires id in s.approvals
  {
    Deciding(id, s.approvals[id], decision == "approved", decider, false)
  }

  ghost function Step(s: System, op: Op): System {
    match op
    case Tick(d) => s.(now := s.now + d)
    case Connect(i) => s.(connected := s.connected + {i})
    case Disconnect(i) => s.(connected := s.connected - {i})
    case Request(id, i, name, cap, args) =>
      if '_' in name || i == "" then s
      else Insert(s, id, Approval(i, name + "_" + cap, args, Pending, "", s.now + APPROVAL_TTL), Call(id, i, cap, args))
    case RequestManual(id, action) =>
      if action == "" then s
      else Insert(s, id, Approval("", "manual:" + action, "{}", Pending, "", s.now + APPROVAL_TTL),
                  Call(id, "", action, "{}"))
    case Decide(id, decision, decider) =>
      if !CanDecide(s, id, decision) then s
      else Send(Update(s, ReadRow(s, id, decision, decider)), ReadRow(s, id, decision, decider))
    case StartDecide(p, id, decision, decider) =>
      if p in s.deciding || !CanDecide(s, id, decision) then s
      else s.(deciding := s.deciding[p := ReadRow(s, id, decision, decider)])
    case UpdateRow(p) =>
      if p !in s.deciding || s.deciding[p].updated then s
      else Update(s, s.deciding[p]).(deciding := s.deciding[p := s.deciding[p].(updated := true)])
    case Execute(p) =>
      if p !in s.deciding || !s.deciding[p].updated then s
      else Send(s, s.deciding[p]).(deciding := s.deciding - {p})
    case ExpireStale =>
      s.(approvals := map id | id in s.approvals ::
           if Overdue(s, id) then s.approvals[id].(status := Expired) else s.approvals[id])
    case StartSweep(p) =>
      if p in s.sweeping && s.sweeping[p] != {} then s
      else s.(sweeping := s.sweeping[p := set id | id in s.approvals && Overdue(s, id)])
    case ExpireOne(p, id) =>
      // Nor does this update look at the status again.
      if !Selected(s, p, id) || id !in s.approvals then s
      else s.(approvals := s.approvals[id := s.approvals[id].(status := Expired)],
              sweeping := s.sweeping[p := s.sweeping[p] - {id}])
    case Die(p) => s.(deciding := s.deciding - {p}, sweeping := s.sweeping - {p})
  }

  ghost function Run(s: System, ops: seq<Op>): System
    decreases |ops|
  {
    if ops == [] then s else Run(Step(s, ops[0]), ops[1..])
  }

  ghost predicate Fresh(s: System) {
    && s.approvals == map[] && s.deciding == map[] && s.sweeping == map[]
    && s.asked == map[] && s.executed == []
  }

  /** The three parts of a decision, one after another, are the decision. */
  lemma DecideIsItsParts(s: System, p: nat, id: string, decision: string, decider: string)
    requires p !in s.deciding
    ensures Step(Step(Step(s, StartDecide(p, id, decision, decider)), UpdateRow(p)), Execute(p))
         == Step(s, Decide(id, decision, decider))
  {
    hide Update, Send;
    if CanDecide(s, id, decision) {
      var d := ReadRow(s, id, decision, decider);
      var done := d.(updated := true);
      var read := s.deciding[p := d];
      var written := read[p := done];
      UpdateApart(s, d, read);
      var s2 := Step(s.(deciding := read), UpdateRow(p));
      assert s2 == Update(s, d).(deciding := written);
      SendApart(Update(s, d), d, written);
      assert Step(s2, Execute(p)) == Send(Update(s, d), d).(deciding := written - {p});
      assert written - {p} == s.deciding;
    }
  }

  // Neither the update nor the call looks at what processes have in hand.
  lemma UpdateApart(s: System, d: Deciding, inHand: map<nat, Deciding>)
    ensures Update(s.(deciding := inHand), d) == Update(s, d).(deciding := inHand)
    ensures Update(s, d).deciding == s.deciding
  {
  }

  lemma SendApart(s: System, d: Deciding, inHand: map<nat, Deciding>)
    ensures Send(s.(deciding := inHand), d.(updated := true)) == Send(s, d).(deciding := inHand)
    ensures Send(s, d).deciding == s.deciding
  {
    hide AfterCut;
  }

  // ---- what a held call executes ----

  /** The row still says what was asked for. */
  ghost predicate Faithful(row: Approval, call: Call) {
    && row.integration == call.integration && row.args == call.args
    && (row.integration != "" ==> AfterCut(row.capability) == call.capability)
  }

  ghost predicate InHandOk(s: System, d: Deciding) {
    && d.id in s.approvals && d.id in s.asked && s.asked[d.id].id == d.id && Faithful(d.row, s.asked[d.id])
    && (d.updated ==> s.approvals[d.id].status != Pending)
  }

  ghost predicate Ok(s: System) {
    && s.asked.Keys == s.approvals.Keys
    && (forall id :: id in s.approvals ==> s.asked[id].id == id && Faithful(s.approvals[id], s.asked[id]))
    && (forall p :: p in s.deciding ==> InHandOk(s, s.deciding[p]))
    && (forall i :: 0 <= i < |s.executed| ==>
          && s.executed[i].id in s.approvals && s.executed[i] == s.asked[s.executed[i].id]
          && s.approvals[s.executed[i].id].status != Pending)
  }

  lemma InsertKeepsOk(s: System, id: string, row: Approval, call: Call)
    requires Ok(s) && call.id == id && Faithful(row, call)
    ensures Ok(Insert(s, id, row, call))
  {
    hide Faithful;
  }

  lemma UpdateKeepsOk(s: System, d: Deciding)
    requires Ok(s) && d.id in s.approvals
    ensures Ok(Update(s, d)) && Update(s, d).deciding == s.deciding && Update(s, d).approvals[d.id].status != Pending
  {
    hide AfterCut;
  }

  lemma SendKeepsOk(s: System, d: Deciding)
    requires Ok(s) && InHandOk(s, d) && s.approvals[d.id].status != Pending
    ensures Ok(Send(s, d)) && Send(s, d).deciding == s.deciding
  {
    hide AfterCut;
  }

  lemma ExpireKeepsOk(s: System)
    requires Ok(s)
    ensures Ok(Step(s, ExpireStale))
  {
    hide AfterCut;
  }

  lemma ExpireOneKeepsOk(s: System, p: nat, id: string)
    requires Ok(s)
    ensures Ok(Step(s, ExpireOne(p, id)))
  {
    hide AfterCut;
  }

  lemma DecideKeepsOk(s: System, id: string, decision: string, decider: string)
    requires Ok(s)
    ensures Ok(Step(s, Decide(id, decision, decider)))
  {
    hide AfterCut, Update, Send;
    if CanDecide(s, id, decision) {
      var d := ReadRow(s, id, decision, decider);
      UpdateKeepsOk(s, d);
      UpdateKeepsAsked(s, d);
      SendKeepsOk(Update(s, d), d);
    }
  }

  lemma UpdateKeepsAsked(s: System, d: Deciding)
    ensures Update(s, d).asked == s.asked && Update(s, d).approvals.Keys == s.approvals.Keys
  {
  }

  lemma PartsKeepOk(s: System, op: Op)
    requires Ok(s) && (op.StartDecide? || op.UpdateRow? || op.Execute?)
    ensures Ok(Step(s, op))
  {
    hide AfterCut, Update, Send, Faithful;
    match op {
      case UpdateRow(p) =>
        if p in s.deciding && !s.deciding[p].updated {
          UpdateKeepsOk(s, s.deciding[p]);
          UpdateKeepsAsked(s, s.deciding[p]);
        }
      case Execute(p) =>
        if p in s.deciding && s.deciding[p].updated {
          SendKeepsOk(s, s.deciding[p]);
        }
      case _ =>
    }
  }

  lemma StepKeepsOk(s: System, op: Op)
    requires Ok(s)
    ensures Ok(Step(s, op))
  {
    hide Insert, Update, Send, AfterCut, InHandOk;
    match op {
      case Request(id, i, name, cap, args) =>
        if '_' !in name && i != "" {
          AfterCutOfJoined(name, cap);
          InsertKeepsOk(s, id, Approval(i, name + "_" + cap, args, Pending, "", s.now + APPROVAL_TTL),
                        Call(id, i, cap, args));
        }
      case RequestManual(id, action) =>
        InsertKeepsOk(s, id, Approval("", "manual:" + action, "{}", Pending, "", s.now + APPROVAL_TTL),
                      Call(id, "", action, "{}"));
      case Decide(id, decision, decider) => DecideKeepsOk(s, id, decision, decider);
      case StartDecide(_, _, _, _) => PartsKeepOk(s, op);
      case UpdateRow(_) => PartsKeepOk(s, op);
      case Execute(_) => PartsKeepOk(s, op);
      case ExpireStale => ExpireKeepsOk(s);
      case ExpireOne(p, id) => ExpireOneKeepsOk(s, p, id);
      case _ => RestKeepsOk(s, op);
    }
  }

  lemma RestKeepsOk(s: System, op: Op)
    requires Ok(s) && (op.Tick? || op.Connect? || op.Disconnect? || op.StartSweep? || op.Die?)
    ensures Ok(Step(s, op))
  {
    hide Faithful;
  }

  lemma {:induction false} RunKeepsOk(s: System, ops: seq<Op>)
    requires Ok(s)
    ensures Ok(Run(s, ops))
    decreases |ops|
  {
    hide Ok, Step;
    if ops != [] {
      StepKeepsOk(s, ops[0]);
      RunKeepsOk(Step(s, ops[0]), ops[1..]);
    }
  }

  /** Whatever overlaps, a held call is executed only as it was asked for: integration, capability, arguments. */
  lemma ExecutedAsAsked(s: System, ops: seq<Op>, i: nat)
    requires Fresh(s) && i < |Run(s, ops).executed|
    ensures var s' := Run(s, ops);
            var call := s'.executed[i];
            call.id in s'.asked && call == s'.asked[call.id]
  {
    hide Run;
    RunKeepsOk(s, ops);
  }

  // Some request of these held this call, and some decision of these approved that id.
  ghost predicate RequestedAs(ops: seq<Op>, call: Call) {
    exists k :: 0 <= k < |ops| && ops[k].Request? && ops[k].id == call.id && ops[k].integration == call.integration
      && ops[k].capability == call.capability && ops[k].args == call.args
  }

  ghost predicate ApprovedBy(ops: seq<Op>, id: string) {
    exists k :: 0 <= k < |ops| && (ops[k].Decide? || ops[k].StartDecide?)
      && ops[k].id == id && ops[k].decision == "approved"
  }

  // Everything in the tables and in hand goes back to an operation.
  ghost predicate Traced(s: System, ops: seq<Op>) {
    && (forall id :: id in s.asked && s.asked[id].integration != "" ==> RequestedAs(ops, s.asked[id]))
    && (forall p :: p in s.deciding && s.deciding[p].approve ==> ApprovedBy(ops, s.deciding[p].id))
    && (forall i :: 0 <= i < |s.executed| ==> ApprovedBy(ops, s.executed[i].id) && s.executed[i].integration != "")
  }

  lemma LongerTraces(ops: seq<Op>, op: Op)
    ensures forall call :: RequestedAs(ops, call) ==> RequestedAs(ops + [op], call)
    ensures forall id :: ApprovedBy(ops, id) ==> ApprovedBy(ops + [op], id)
    ensures op.Request? ==> RequestedAs(ops + [op], Call(op.id, op.integration, op.capability, op.args))
    ensures (op.Decide? || op.StartDecide?) && op.decision == "approved" ==> ApprovedBy(ops + [op], op.id)
  {
    var longer := ops + [op];
    assert longer[|ops|] == op && forall k :: 0 <= k < |ops| ==> longer[k] == ops[k];
  }

  lemma StepTraced(s: System, ops: seq<Op>, op: Op)
    requires Traced(s, ops)
    ensures Traced(Step(s, op), ops + [op])
  {
    hide Step, RequestedAs, ApprovedBy;
    LongerTraces(ops, op);
    StepComesFrom(s, op);
  }

  // What a step adds to the tables and to what is in hand goes back to its operation.
  lemma StepComesFrom(s: System, op: Op)
    ensures var s' := Step(s, op);
            && (forall id :: id in s'.asked ==>
                  || (id in s.asked && s'.asked[id] == s.asked[id]) || s'.asked[id].integration == ""
                  || (op.Request? && s'.asked[id] == Call(op.id, op.integration, op.capability, op.args)))
            && (forall p :: p in s'.deciding && s'.deciding[p].approve ==>
                  || (p in s.deciding && s.deciding[p].approve && s.deciding[p].id == s'.deciding[p].id)
                  || (op.StartDecide? && op.decision == "approved" && op.id == s'.deciding[p].id))
            && s.executed <= s'.executed
            && (forall i :: |s.executed| <= i < |s'.executed| ==>
                  && s'.executed[i].integration != ""
                  && (|| (op.Decide? && op.decision == "approved" && op.id == s'.executed[i].id)
                      || (op.Execute? && op.proc in s.deciding && s.deciding[op.proc].approve
                          && s.deciding[op.proc].id == s'.executed[i].id)))
  {
    hide AfterCut;
  }

  lemma {:induction false} RunTraced(s: System, before: seq<Op>, ops: seq<Op>)
    requires Traced(s, before)
    ensures Traced(Run(s, ops), before + ops)
    decreases |ops|
  {
    hide Step, Traced;
    if ops == [] {
      assert before + ops == before;
    } else {
      StepTraced(s, before, ops[0]);
      RunTraced(Step(s, ops[0]), before + [ops[0]], ops[1..]);
      assert before + [ops[0]] + ops[1..] == before + ops;
    }
  }

  /**
   Nothing runs that nobody asked for and nobody approved. Over every run, whatever overlaps, each executed
   call was requested with that integration, capability and arguments, and a decision approved its id.
   */
  lemma ExecutedWasRequestedAndApproved(s: System, ops: seq<Op>, i: nat)
    requires Fresh(s) && i < |Run(s, ops).executed|
    ensures var call := Run(s, ops).executed[i];
            && (exists k :: 0 <= k < |ops| && ops[k].Request? && ops[k].id == call.id
                  && ops[k].integration == call.integration && ops[k].capability == call.capability
                  && ops[k].args == call.args)
            && (exists k :: 0 <= k < |ops| && (ops[k].Decide? || ops[k].StartDecide?) && ops[k].id == call.id
                  && ops[k].decision == "approved")
  {
    hide Run;
    ExecutedAsAsked(s, ops, i);
    RunTraced(s, [], ops);
    assert [] + ops == ops;
    var call := Run(s, ops).executed[i];
    assert RequestedAs(ops, call) && ApprovedBy(ops, call.id);
  }

  // ---- how often ----

  ghost function Count(calls: seq<Call>, id: string): nat {
    if calls == [] then 0
    else Count(calls[..|calls| - 1], id) + if calls[|calls| - 1].id == id then 1 else 0
  }

  /** A decision in hand that, along this run, comes to send its call. */
  ghost predicate WillExecute(s: System, ops: seq<Op>, p: nat)
    decreases |ops|
  {
    && p in s.deciding && ops != []
    && if ops[0] == Execute(p) && s.deciding[p].updated then Executes(s, s.deciding[p].row, s.deciding[p].approve)
       else p in Step(s, ops[0]).deciding && WillExecute(Step(s, ops[0]), ops[1..], p)
  }

  /** The decisions of `id` in hand that will execute it. */
  ghost function Coming(s: System, ops: seq<Op>, id: string): set<nat> {
    set p | p in s.deciding && s.deciding[p].id == id && WillExecute(s, ops, p)
  }

  ghost predicate ReadsPending(s: System, op: Op, id: string) {
    && (op.StartDecide? || op.Decide?) && op.id == id && CanDecide(s, id, op.decision)
    && (op.StartDecide? ==> op.proc !in s.deciding)
  }

  // Whether the decision that step `ops[0]` begins comes to execute.
  ghost predicate BeginsExecution(s: System, ops: seq<Op>)
    requires ops != [] && (ops[0].StartDecide? || ops[0].Decide?) && ReadsPending(s, ops[0], ops[0].id)
  {
    if ops[0].Decide? then Executes(s, s.approvals[ops[0].id], ops[0].decision == "approved")
    else WillExecute(Step(s, ops[0]), ops[1..], ops[0].proc)
  }

  /**
   The overlap: at some step a decision reads the call as pending while another, which read it before,
   is still in hand, and both come to execute it.
   */
  ghost predicate Overlap(s: System, ops: seq<Op>, id: string)
    decreases |ops|
  {
    ops != []
    && (|| (ReadsPending(s, ops[0], id) && BeginsExecution(s, ops) && Coming(s, ops, id) != {})
        || Overlap(Step(s, ops[0]), ops[1..], id))
  }

  ghost predicate IsDecided(s: System, id: string) {
    id in s.approvals && s.approvals[id].status != Pending
  }

  // The steps that send a call of `id`.
  ghost predicate Sends(s: System, op: Op, id: string) {
    || (op.Execute? && op.proc in s.deciding && s.deciding[op.proc].updated && s.deciding[op.proc].id == id
        && Executes(s, s.deciding[op.proc].row, s.deciding[op.proc].approve))
    || (op.Decide? && op.id == id && CanDecide(s, id, op.decision)
        && Executes(s, s.approvals[id], op.decision == "approved"))
  }

  lemma CountStep(s: System, op: Op, id: string)
    ensures Count(Step(s, op).executed, id) == Count(s.executed, id) + if Sends(s, op, id) then 1 else 0
  {
    hide AfterCut;
    var after := Step(s, op).executed;
    if after != s.executed {
      assert after[..|after| - 1] == s.executed;
    }
  }

  // A step only adds the decision it begins, and removes the one it ends.
  lemma InHandStep(s: System, op: Op, p: nat)
    ensures p in s.deciding && p in Step(s, op).deciding ==> Step(s, op).deciding[p].id == s.deciding[p].id
    ensures p !in s.deciding && p in Step(s, op).deciding ==>
              op.StartDecide? && op.proc == p && CanDecide(s, op.id, op.decision) && Step(s, op).deciding[p].id == op.id
  {
  }

  lemma ComingStep(s: System, ops: seq<Op>, id: string)
    requires ops != []
    ensures var op := ops[0];
            var later := Coming(Step(s, op), ops[1..], id);
            && Coming(s, ops, id)
               == (if op.StartDecide? && ReadsPending(s, op, id) then later - {op.proc} else later)
                  + (if op.Execute? && Sends(s, op, id) then {op.proc} else {})
            && (op.Execute? && Sends(s, op, id) ==> op.proc !in later)
            && (op.StartDecide? && ReadsPending(s, op, id) ==> (op.proc in later <==> BeginsExecution(s, ops)))
  {
    var op := ops[0];
    var s1 := Step(s, op);
    forall p ensures p in Coming(s, ops, id) <==>
      p in (if op.StartDecide? && ReadsPending(s, op, id) then Coming(s1, ops[1..], id) - {op.proc}
            else Coming(s1, ops[1..], id))
           + (if op.Execute? && Sends(s, op, id) then {op.proc} else {})
    {
      ComingOne(s, ops, id, p);
    }
    if op.StartDecide? && ReadsPending(s, op, id) {
      InHandStep(s, op, op.proc);
    }
  }

  lemma ComingOne(s: System, ops: seq<Op>, id: string, p: nat)
    requires ops != []
    ensures var op := ops[0];
            p in Coming(s, ops, id) <==>
              || (op == Execute(p) && Sends(s, op, id))
              || (p in s.deciding && p in Coming(Step(s, op), ops[1..], id))
  {
    InHandStep(s, ops[0], p);
  }

  lemma DecidedStep(s: System, op: Op, id: string)
    requires Ok(s)
    ensures IsDecided(s, id) ==> IsDecided(Step(s, op), id) && !ReadsPending(s, op, id)
    ensures !IsDecided(s, id) && Sends(s, op, id) ==> op.Decide? && ReadsPending(s, op, id)
    ensures op.Decide? && Sends(s, op, id) ==> IsDecided(Step(s, op), id)
    ensures op.Decide? && ReadsPending(s, op, id) ==> IsDecided(Step(s, op), id)
  {
    hide AfterCut;
  }

  // Once decided, exactly the decisions already in hand can still execute the call.
  lemma {:induction false} CountWhenDecided(s: System, ops: seq<Op>, id: string)
    requires Ok(s) && IsDecided(s, id)
    ensures Count(Run(s, ops).executed, id) == Count(s.executed, id) + |Coming(s, ops, id)|
    ensures !Overlap(s, ops, id)
    decreases |ops|
  {
    hide Ok, Step, IsDecided, Sends, Coming, ReadsPending, BeginsExecution, Count;
    if ops == [] {
      NothingComing(s, id);
    } else {
      var op := ops[0];
      StepKeepsOk(s, op);
      DecidedStep(s, op, id);
      CountStep(s, op, id);
      ComingStep(s, ops, id);
      CountWhenDecided(Step(s, op), ops[1..], id);
      OnlyTwoSend(s, op, id);
    }
  }

  lemma OnlyTwoSend(s: System, op: Op, id: string)
    ensures Sends(s, op, id) ==> op.Execute? || (op.Decide? && ReadsPending(s, op, id))
    ensures ReadsPending(s, op, id) ==> op.StartDecide? || op.Decide?
  {
  }

  lemma BeginsIsSends(s: System, ops: seq<Op>, id: string)
    requires ops != []
    ensures ReadsPending(s, ops[0], id) ==>
              && (ops[0].StartDecide? || ops[0].Decide?) && ops[0].id == id
              && (ops[0].Decide? ==> (BeginsExecution(s, ops) <==> Sends(s, ops[0], id)))
  {
  }

  lemma NothingComing(s: System, id: string)
    ensures Coming(s, [], id) == {}
  {
  }

  lemma {:induction false} CountWhenPending(s: System, ops: seq<Op>, id: string)
    requires Ok(s) && !IsDecided(s, id) && Count(s.executed, id) == 0
    ensures Count(Run(s, ops).executed, id) <= 1 <==> |Coming(s, ops, id)| <= 1 && !Overlap(s, ops, id)
    decreases |ops|
  {
    hide Ok, Step, IsDecided, Sends, Coming, ReadsPending, BeginsExecution, Count;
    if ops == [] {
      NothingComing(s, id);
    } else {
      var op := ops[0];
      var s1 := Step(s, op);
      StepKeepsOk(s, op);
      DecidedStep(s, op, id);
      CountStep(s, op, id);
      ComingStep(s, ops, id);
      OnlyTwoSend(s, op, id);
      BeginsIsSends(s, ops, id);
      var now, later := Coming(s, ops, id), Coming(s1, ops[1..], id);
      if op.StartDecide? && ReadsPending(s, op, id) && BeginsExecution(s, ops) {
        assert later == now + {op.proc};
        assert now != {} ==> |now| >= 1;
      }
      assert now != {} <==> |now| > 0;
      if IsDecided(s1, id) {
        CountWhenDecided(s1, ops[1..], id);
      } else {
        CountWhenPending(s1, ops[1..], id);
      }
    }
  }

  /**
   Exactly when a held call is executed more than once. In any run, over any mix of decisions, sweeps
   and deaths, it is executed at most once if and only if no decision that comes to execute it reads
   it as pending while another that comes to execute it has read it and is still in hand.
   */
  lemma AtMostOnceIff(s: System, ops: seq<Op>, id: string)
    requires Fresh(s)
    ensures Count(Run(s, ops).executed, id) <= 1 <==> !Overlap(s, ops, id)
  {
    CountWhenPending(s, ops, id);
  }

  /** Any pending call of a connected integration can meet such an overlap, and is then executed twice. */
  lemma OverlappingDecisionsExecuteTwice(s: System, id: string, a: string, b: string)
    requires id in s.approvals && s.approvals[id].status == Pending && s.deciding == map[]
    requires s.approvals[id].integration != "" && s.approvals[id].integration in s.connected
    ensures var call := Call(id, s.approvals[id].integration, AfterCut(s.approvals[id].capability), s.approvals[id].args);
            Run(s, [StartDecide(0, id, "approved", a), StartDecide(1, id, "approved", b),
                    UpdateRow(0), UpdateRow(1), Execute(0), Execute(1)]).executed == s.executed + [call, call]
  {
    hide Step, CanDecide, Executes, AfterCut, Run;
    var first, second := ReadRow(s, id, "approved", a), ReadRow(s, id, "approved", b);
    StartEffect(s, 0, id, "approved", a);
    var s1 := s.(deciding := s.deciding[0 := first]);
    StartEffect(s1, 1, id, "approved", b);
    var s2 := s1.(deciding := s1.deciding[1 := second]);
    UpdateEffect(s2, 0);
    UpdateEffect(Step(s2, UpdateRow(0)), 1);
    var s4 := Step(Step(s2, UpdateRow(0)), UpdateRow(1));
    ExecuteEffect(s4, 0);
    ExecuteEffect(Step(s4, Execute(0)), 1);
    var call := Call(id, s.approvals[id].integration, AfterCut(s.approvals[id].capability), s.approvals[id].args);
    assert s.executed + [call] + [call] == s.executed + [call, call];
    RunSix(s, StartDecide(0, id, "approved", a), StartDecide(1, id, "approved", b),
           UpdateRow(0), UpdateRow(1), Execute(0), Execute(1));
  }

  lemma StartEffect(s: System, p: nat, id: string, decision: string, decider: string)
    requires id in s.approvals && s.approvals[id].status == Pending && p !in s.deciding
    requires decision in {"approved", "rejected"}
    ensures Step(s, StartDecide(p, id, decision, decider))
         == s.(deciding := s.deciding[p := ReadRow(s, id, decision, decider)])
  {
  }

  lemma UpdateEffect(s: System, p: nat)
    requires p in s.deciding && !s.deciding[p].updated
    ensures var s' := Step(s, UpdateRow(p));
            && s'.executed == s.executed && s'.connected == s.connected
            && s'.deciding == s.deciding[p := s.deciding[p].(updated := true)]
  {
  }

  lemma ExecuteEffect(s: System, p: nat)
    requires p in s.deciding && s.deciding[p].updated && s.deciding[p].approve
    requires s.deciding[p].row.integration != "" && s.deciding[p].row.integration in s.connected
    ensures var s', d := Step(s, Execute(p)), s.deciding[p];
            && s'.executed == s.executed + [Call(d.id, d.row.integration, AfterCut(d.row.capability), d.row.args)]
            && s'.connected == s.connected && s'.deciding == s.deciding - {p}
  {
    hide AfterCut;
  }

  lemma RunSix(s: System, a: Op, b: Op, c: Op, d: Op, e: Op, f: Op)
    ensures Run(s, [a, b, c, d, e, f]) == Step(Step(Step(Step(Step(Step(s, a), b), c), d), e), f)
  {
    hide Step, Run;
    RunFirst(s, [a, b, c, d, e, f]);
    assert [a, b, c, d, e, f][1..] == [b, c, d, e, f];
    RunFive(Step(s, a), b, c, d, e, f);
  }

  lemma RunFive(s: System, a: Op, b: Op, c: Op, d: Op, e: Op)
    ensures Run(s, [a, b, c, d, e]) == Step(Step(Step(Step(Step(s, a), b), c), d), e)
  {
    hide Step, Run;
    RunFirst(s, [a, b, c, d, e]);
    RunFirst(Step(s, a), [b, c, d, e]);
    RunFirst(Step(Step(s, a), b), [c, d, e]);
    RunFirst(Step(Step(Step(s, a), b), c), [d, e]);
    RunFirst(Step(Step(Step(Step(s, a), b), c), d), [e]);
    assert [a, b, c, d, e][1..] == [b, c, d, e] && [b, c, d, e][1..] == [c, d, e];
    assert [c, d, e][1..] == [d, e] && [d, e][1..] == [e] && [e][1..] == [];
    RunFirst(Step(Step(Step(Step(Step(s, a), b), c), d), e), []);
  }

  lemma RunFirst(s: System, ops: seq<Op>)
    ensures Run(s, ops) == if ops == [] then s else Run(Step(s, ops[0]), ops[1..])
  {
  }

  /** In particular decisions one at a time never overlap: each call is executed once at most. */
  lemma {:induction false} SequentialNeverOverlaps(s: System, ops: seq<Op>, id: string)
    requires s.deciding == map[] && Sequential(ops)
    ensures !Overlap(s, ops, id)
    decreases |ops|
  {
    if ops != [] {
      assert forall i :: 0 <= i < |ops[1..]| ==> ops[1..][i] == ops[i + 1];
      SequentialNeverOverlaps(Step(s, ops[0]), ops[1..], id);
    }
  }

  ghost predicate Sequential(ops: seq<Op>) {
    forall i :: 0 <= i < |ops| ==> !ops[i].StartDecide?
  }

  // ---- only if approved ----

  ghost predicate Whole(ops: seq<Op>) {
    forall i :: 0 <= i < |ops| ==> !ops[i].StartDecide? && !ops[i].StartSweep?
  }

  /** Every executed call still shows as approved. */
  ghost predicate AllApproved(s: System) {
    && s.deciding == map[] && s.sweeping == map[]
    && forall i :: 0 <= i < |s.executed| ==>
         s.executed[i].id in s.approvals && s.approvals[s.executed[i].id].status == Approved
  }

  lemma StepKeepsApproved(s: System, op: Op)
    requires AllApproved(s) && !op.StartDecide? && !op.StartSweep?
    ensures AllApproved(Step(s, op))
  {
    hide AfterCut;
  }

  lemma {:induction false} RunKeepsApproved(s: System, ops: seq<Op>)
    requires AllApproved(s) && Whole(ops)
    ensures AllApproved(Run(s, ops))
    decreases |ops|
  {
    hide AllApproved, Step;
    if ops != [] {
      StepKeepsApproved(s, ops[0]);
      assert forall i :: 0 <= i < |ops[1..]| ==> ops[1..][i] == ops[i + 1];
      RunKeepsApproved(Step(s, ops[0]), ops[1..]);
    }
  }

  /** Decisions and sweeps one at a time: a held call executes at most once, and only if it was approved. */
  lemma AtMostOnce(s: System, ops: seq<Op>, id: string)
    requires Fresh(s) && Whole(ops)
    ensures var s' := Run(s, ops);
            && Count(s'.executed, id) <= 1
            && (Count(s'.executed, id) > 0 ==> id in s'.approvals && s'.approvals[id].status == Approved)
  {
    hide Run, Overlap;
    SequentialNeverOverlaps(s, ops, id);
    AtMostOnceIff(s, ops, id);
    RunKeepsApproved(s, ops);
    if Count(Run(s, ops).executed, id) > 0 {
      CountedIsThere(Run(s, ops).executed, id);
    }
  }

  lemma {:induction false} CountedIsThere(calls: seq<Call>, id: string)
    requires Count(calls, id) > 0
    ensures exists i :: 0 <= i < |calls| && calls[i].id == id
  {
    if calls[|calls| - 1].id != id {
      CountedIsThere(calls[..|calls| - 1], id);
    }
  }

  // ---- what the row says in the end ----

  /** The status a step writes to the row of `id`, if it writes one. */
  ghost function Writes(s: System, op: Op, id: string): Option<Status> {
    match op
    case Decide(x, decision, _) =>
      if x == id && CanDecide(s, id, decision)
      then Some(if decision == "approved" then Approved else Rejected) else None
    case UpdateRow(p) =>
      if p in s.deciding && s.deciding[p].id == id && !s.deciding[p].updated
      then Some(if s.deciding[p].approve then Approved else Rejected) else None
    case ExpireStale => if Overdue(s, id) then Some(Expired) else None
    case ExpireOne(p, x) => if x == id && Selected(s, p, id) then Some(Expired) else None
    case _ => None
  }

  lemma WritesAre(s: System, op: Op, id: string)
    requires id in s.approvals
    ensures id in Step(s, op).approvals
    ensures Step(s, op).approvals[id].status
            == if Writes(s, op, id).Some? then Writes(s, op, id).value else s.approvals[id].status
  {
    hide AfterCut;
  }

  /** The last status written to the row of `id` along a run. */
  ghost function LastWrite(s: System, ops: seq<Op>, id: string): Option<Status>
    decreases |ops|
  {
    if ops == [] then None
    else
      var later := LastWrite(Step(s, ops[0]), ops[1..], id);
      if later.Some? then later else Writes(s, ops[0], id)
  }

  /** No update looks at the status again, so over any run the last one written is what the row says in the end. */
  lemma {:induction false} LastWriteStands(s: System, ops: seq<Op>, id: string)
    requires id in s.approvals
    ensures id in Run(s, ops).approvals
    ensures Run(s, ops).approvals[id].status
            == if LastWrite(s, ops, id).Some? then LastWrite(s, ops, id).value else s.approvals[id].status
    decreases |ops|
  {
    hide Step, Writes;
    if ops != [] {
      WritesAre(s, ops[0], id);
      LastWriteStands(Step(s, ops[0]), ops[1..], id);
    }
  }

  /** The row says approved at every point of the run. */
  ghost predicate ApprovedThroughout(s: System, ops: seq<Op>, id: string)
    decreases |ops|
  {
    && id in s.approvals && s.approvals[id].status == Approved
    && (ops == [] || ApprovedThroughout(Step(s, ops[0]), ops[1..], id))
  }

  /** An update that was due before: of a rejection that read the call as pending, or of a sweep that selected it. */
  ghost predicate Overwrites(s: System, op: Op, id: string) {
    || (op.UpdateRow? && op.proc in s.deciding && s.deciding[op.proc].id == id
        && !s.deciding[op.proc].updated && !s.deciding[op.proc].approve)
    || (op.ExpireOne? && op.id == id && Selected(s, op.proc, id))
  }

  ghost predicate NeverOverwritten(s: System, ops: seq<Op>, id: string)
    decreases |ops|
  {
    ops == [] || (!Overwrites(s, ops[0], id) && NeverOverwritten(Step(s, ops[0]), ops[1..], id))
  }

  lemma OverwritesAre(s: System, op: Op, id: string)
    requires id in s.approvals && s.approvals[id].status == Approved
    ensures Overwrites(s, op, id) <==> Writes(s, op, id).Some? && Writes(s, op, id).value != Approved
  {
  }

  /**
   Exactly when an approved call, executed or not, stops showing as approved. From there on, over any
   run, its row says approved at every point if and only if no rejection that had read the call as pending
   makes its update, and no sweep that had selected it makes its own.
   */
  lemma {:induction false} ApprovedIsLostIff(s: System, ops: seq<Op>, id: string)
    requires id in s.approvals && s.approvals[id].status == Approved
    ensures ApprovedThroughout(s, ops, id) <==> NeverOverwritten(s, ops, id)
    decreases |ops|
  {
    hide Step, Writes, Overwrites;
    if ops != [] {
      WritesAre(s, ops[0], id);
      OverwritesAre(s, ops[0], id);
      var s1 := Step(s, ops[0]);
      if Overwrites(s, ops[0], id) {
        NotApprovedNow(s1, ops[1..], id);
      } else {
        ApprovedIsLostIff(s1, ops[1..], id);
      }
    }
  }

  lemma NotApprovedNow(s: System, ops: seq<Op>, id: string)
    requires id in s.approvals && s.approvals[id].status != Approved
    ensures !ApprovedThroughout(s, ops, id)
  {
  }

  /** Any pending call of a connected integration can be executed and then show as rejected. */
  lemma RejectionOverwritesExecuted(s: System, id: string, a: string, b: string)
    requires id in s.approvals && s.approvals[id].status == Pending && s.deciding == map[]
    requires s.approvals[id].integration != "" && s.approvals[id].integration in s.connected
    ensures var s' := Run(s, [StartDecide(0, id, "approved", a), StartDecide(1, id, "rejected", b),
                              UpdateRow(0), Execute(0), UpdateRow(1)]);
            && s'.executed == s.executed
               + [Call(id, s.approvals[id].integration, AfterCut(s.approvals[id].capability), s.approvals[id].args)]
            && id in s'.approvals && s'.approvals[id].status == Rejected
  {
    hide Step, CanDecide, Executes, AfterCut, Run;
    var first, second := ReadRow(s, id, "approved", a), ReadRow(s, id, "rejected", b);
    StartEffect(s, 0, id, "approved", a);
    var s1 := s.(deciding := s.deciding[0 := first]);
    StartEffect(s1, 1, id, "rejected", b);
    var s2 := s1.(deciding := s1.deciding[1 := second]);
    UpdateEffect(s2, 0);
    var s3 := Step(s2, UpdateRow(0));
    ExecuteEffect(s3, 0);
    var s4 := Step(s3, Execute(0));
    UpdateEffect(s4, 1);
    KeepsRow(s2, UpdateRow(0), id);
    KeepsRow(s3, Execute(0), id);
    WritesAre(s4, UpdateRow(1), id);
    RunFive(s, StartDecide(0, id, "approved", a), StartDecide(1, id, "rejected", b), UpdateRow(0), Execute(0),
            UpdateRow(1));
  }

  lemma KeepsRow(s: System, op: Op, id: string)
    requires id in s.approvals
    ensures id in Step(s, op).approvals
  {
    hide AfterCut;
  }

  /** Any overdue call of a connected integration can be executed and then show as expired. */
  lemma SweepOverwritesExecuted(s: System, id: string, a: string)
    requires Overdue(s, id) && 0 !in s.sweeping
    requires s.approvals[id].integration != "" && s.approvals[id].integration in s.connected
    ensures var s' := Run(s, [StartSweep(0), Decide(id, "approved", a), ExpireOne(0, id)]);
            && s'.executed == s.executed
               + [Call(id, s.approvals[id].integration, AfterCut(s.approvals[id].capability), s.approvals[id].args)]
            && id in s'.approvals && s'.approvals[id].status == Expired
  {
    hide AfterCut, Run;
    var e1, e2, e3 := StartSweep(0), Decide(id, "approved", a), ExpireOne(0, id);
    RunFirst(s, [e1, e2, e3]);
    RunFirst(Step(s, e1), [e2, e3]);
    RunFirst(Step(Step(s, e1), e2), [e3]);
    RunFirst(Step(Step(Step(s, e1), e2), e3), []);
    assert [e1, e2, e3][1..] == [e2, e3] && [e2, e3][1..] == [e3] && [e3][1..] == [];
  }

  // ---- expiry ----

  /** Some sweep marks `id` in this run: a whole one after the time given, or one that has selected it. */
  ghost predicate SweptAfter(s: System, ops: seq<Op>, id: string, expires: int)
    decreases |ops|
  {
    ops != []
    && (|| Sweeps(s, ops[0], id, expires)
        || SweptAfter(Step(s, ops[0]), ops[1..], id, expires))
  }

  ghost predicate Sweeps(s: System, op: Op, id: string, expires: int) {
    (op.ExpireStale? && s.now > expires) || (op.ExpireOne? && op.id == id && Selected(s, op.proc, id))
  }

  /** No decision of `id` reaches its update in this run. */
  ghost predicate Undecided(s: System, ops: seq<Op>, id: string)
    decreases |ops|
  {
    ops == []
    || (&& !(ops[0].Decide? && ops[0].id == id)
        && !(ops[0].UpdateRow? && ops[0].proc in s.deciding && s.deciding[ops[0].proc].id == id)
        && Undecided(Step(s, ops[0]), ops[1..], id))
  }

  lemma StepOfOthers(s: System, op: Op, id: string)
    requires id in s.approvals && s.approvals[id].status in {Pending, Expired} && Undecided(s, [op], id)
    ensures id in Step(s, op).approvals
    ensures Step(s, op).approvals[id]
         == s.approvals[id].(status := if s.approvals[id].status == Expired || Sweeps(s, op, id, s.approvals[id].expires)
                                       then Expired else Pending)
  {
    hide AfterCut;
  }

  lemma {:induction false} PendingUntilSwept(s: System, ops: seq<Op>, id: string)
    requires id in s.approvals && s.approvals[id].status in {Pending, Expired} && Undecided(s, ops, id)
    ensures id in Run(s, ops).approvals
    ensures Run(s, ops).approvals[id]
         == s.approvals[id].(status := if s.approvals[id].status == Expired
                                          || SweptAfter(s, ops, id, s.approvals[id].expires)
                                       then Expired else Pending)
    decreases |ops|
  {
    hide Step, Sweeps;
    if ops != [] {
      assert Undecided(s, [ops[0]], id);
      StepOfOthers(s, ops[0], id);
      PendingUntilSwept(Step(s, ops[0]), ops[1..], id);
    }
  }

  /**
   What expiry comes to. A held call that nobody decided can still be approved, however long ago it
   expired, and is then executed (if its integration is connected), if and only if no sweep has
   marked it. The decision itself does not look at the clock.
   */
  lemma ApprovableUntilSwept(s: System, ops: seq<Op>, id: string, decider: string)
    requires id in s.approvals && s.approvals[id].status == Pending && s.approvals[id].integration != ""
    requires Undecided(s, ops, id) && s.approvals[id].integration in Run(s, ops).connected
    ensures var s' := Run(s, ops);
            |Step(s', Decide(id, "approved", decider)).executed| > |s'.executed| <==>
              !SweptAfter(s, ops, id, s.approvals[id].expires)
  {
    hide Run, SweptAfter;
    PendingUntilSwept(s, ops, id);
  }

  // ---- the gateway's part ----

  datatype Decided = Done(row: Approval) | NotFound | Already(status: Status) | NotADecision

  class Desk {
    var now: int
    var approvals: map<string, Approval>
    var connected: set<string>
    var asked: map<string, Call>
    var executed: seq<Call>

    ghost function State(): System
      reads this
    {
      System(now, approvals, connected, map[], map[], asked, executed)
    }

    /** Holds a call for half an hour. The integration was found by a name without underscores. */
    method RequestApproval(id: string, integration: string, name: string, capability: string, args: string)
      requires id !in approvals && integration != "" && '_' !in name
      modifies this
      ensures State() == Step(old(State()), Request(id, integration, name, capability, args))
      ensures approvals == old(approvals)[id := Approval(integration, name + "_" + capability, args, Pending, "",
                                                         now + 30 * 60 * 1_000_000_000)]
      ensures executed == old(executed)
    {
      var row := Approval(integration, name + "_" + capability, args, Pending, "", now + APPROVAL_TTL);
      approvals := approvals[id := row];
      asked := asked[id := Call(id, integration, capability, args)];
    }

    /** Holds an action that is no tool call; approving it executes nothing. */
    method RequestManualApproval(id: string, action: string) returns (ok: bool)
      requires id !in approvals
      modifies this
      ensures State() == Step(old(State()), RequestManual(id, action))
      ensures ok <==> action != ""
      ensures ok ==> approvals == old(approvals)[id := Approval("", "manual:" + action, "{}", Pending, "",
                                                                now + 30 * 60 * 1_000_000_000)]
      ensures executed == old(executed) && (!ok ==> approvals == old(approvals))
    {
      if action == "" { return false; }
      approvals := approvals[id := Approval("", "manual:" + action, "{}", Pending, "", now + APPROVAL_TTL)];
      asked := asked[id := Call(id, "", action, "{}")];
      return true;
    }

    /** Approving executes the call at once, as it was stored. */
    method Decide(id: string, decision: string, decider: string) returns (r: Decided)
      modifies this
      ensures State() == Step(old(State()), Op.Decide(id, decision, decider))
      ensures r.Done? <==> CanDecide(old(State()), id, decision)
      ensures r.NotFound? <==> id !in old(approvals)
      ensures r.Already? ==> id in old(approvals) && r.status == old(approvals)[id].status != Pending
      // In the row's own terms.
      ensures r.Done? <==>
        id in old(approvals) && old(approvals)[id].status == Pending && decision in {"approved", "rejected"}
      ensures r.Done? ==>
        approvals == old(approvals)[id := old(approvals)[id].(
          status := if decision == "approved" then Approved else Rejected, decidedBy := decider)]
      ensures !r.Done? ==> approvals == old(approvals) && executed == old(executed)
      ensures r.Done? ==>
        var row := old(approvals)[id];
        if decision == "approved" && row.integration != "" && row.integration in connected
        then executed == old(executed) + [Call(id, row.integration, AfterCut(row.capability), row.args)]
        else executed == old(executed)
      ensures r.Done? ==>
        forall name, rest :: old(approvals)[id].capability == name + "_" + rest && '_' !in name ==>
          executed == old(executed) || executed[|executed| - 1].capability == rest
    {
      AfterCutIsCut(if id in approvals then approvals[id].capability else "");

      if id !in approvals { return NotFound; }
      var row := approvals[id];
      if row.status != Pending { return Already(row.status); }
      if decision != "approved" && decision != "rejected" { return NotADecision; }
      var updated := row.(status := if decision == "approved" then Approved else Rejected, decidedBy := decider);
      approvals := approvals[id := updated];
      if decision == "approved" && row.integration != "" {
        ExecuteApproved(id, row);
      }
      return Done(updated);
    }

    method ExecuteApproved(id: string, row: Approval)
      modifies this`executed
      ensures executed == old(executed)
        + if row.integration in connected then [Call(id, row.integration, AfterCut(row.capability), row.args)] else []
    {
      if row.integration !in connected { return; }
      var _, capability, _ := Gateway.Cut(row.capability);
      AfterCutIsCut(row.capability);
      executed := executed + [Call(id, row.integration, capability, row.args)];
    }

    method MarkExpired(todo: set<string>)
      requires todo <= approvals.Keys
      modifies this`approvals
      ensures approvals.Keys == old(approvals).Keys
      ensures forall id :: id in approvals ==>
        approvals[id] == if id in todo then old(approvals)[id].(status := Expired) else old(approvals)[id]
    {
      var left := todo;
      while left != {}
        invariant left <= todo && approvals.Keys == old(approvals).Keys
        invariant forall id :: id in approvals ==>
          approvals[id] == if id in todo - left then old(approvals)[id].(status := Expired) else old(approvals)[id]
        decreases |left|
      {
        var id :| id in left;
        approvals := approvals[id := approvals[id].(status := Expired)];
        left := left - {id};
      }
    }

    /** Selects the overdue rows, then marks each. */
    method ExpireStale() returns (n: nat)
      modifies this`approvals
      ensures State() == Step(old(State()), Op.ExpireStale)
      ensures n == |set id | id in old(approvals) && Overdue(old(State()), id)|
      ensures approvals.Keys == old(approvals).Keys
      ensures forall id :: id in approvals ==>
        var was := old(approvals)[id];
        approvals[id] == if was.status == Pending && was.expires < now then was.(status := Expired) else was
    {
      ghost var before := State();
      var todo := set id | id in approvals && approvals[id].status == Pending && approvals[id].expires < now;
      assert todo == set id | id in before.approvals && Overdue(before, id);
      n := |todo|;
      MarkExpired(todo);
      SweepIs(before, todo, approvals);
    }
  }

  lemma SweepIs(s: System, todo: set<string>, after: map<string, Approval>)
    requires todo == set id | id in s.approvals && Overdue(s, id)
    requires after.Keys == s.approvals.Keys
    requires forall id :: id in after ==>
               after[id] == if id in todo then s.approvals[id].(status := Expired) else s.approvals[id]
    ensures Step(s, Op.ExpireStale) == s.(approvals := after)
  {
    var swept := Step(s, Op.ExpireStale).approvals;
    assert swept.Keys == after.Keys;
    assert forall id :: id in after ==> after[id] == swept[id];
  }

  lemma AfterCutIsCut(text: string)
    ensures '_' !in text ==> AfterCut(text) == ""
    ensures forall before, after :: text == before + "_" + after && '_' !in before ==> AfterCut(text) == after
  {
    if '_' !in text {
      AfterCutNone(text);
    }
    forall before, after | text == before + "_" + after && '_' !in before ensures AfterCut(text) == after {
      AfterCutOfJoined(before, after);
    }
  }

  lemma {:induction false} AfterCutNone(text: string)
    requires '_' !in text
    ensures AfterCut(text) == ""
  {
    if text != "" {
      AfterCutNone(text[1..]);
    }
  }
}
