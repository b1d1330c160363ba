/**
 `internal/store/leases.go`: timed claims on a container's worktree. The clock is read before the
 transaction that uses it, holders may die, and leases are taken over once they expire. Times are
 integers (nanoseconds); the clock never runs backwards.
 */
module Leases {
  import opened Options

  const DEFAULT_TTL: int := 5 * 60 * 1_000_000_000

  /** A stored expiry, which may be text that does not parse as a time. */
  datatype Expiry = At(time: int) | Corrupt

  datatype Lease = Lease(holder: string, operation: string, expires: Expiry)

  // ---- the transactions ----

  // Only an explicit zero means the default; a negative duration is already over.
  function Ttl(ttl: int): int {
    if ttl == 0 then DEFAULT_TTL else ttl
  }

  /** A row that keeps others out of the container for a caller whose clock said `at`. */
  predicate Blocks(row: Option<Lease>, at: int) {
    row.Some? && row.value.expires.At? && at < row.value.expires.time
  }

  predicate HeldBy(row: Option<Lease>, holder: string) {
    row.Some? && row.value.holder == holder
  }

  ghost function Acquired(row: Option<Lease>, holder: string, operation: string, at: int, ttl: int): Option<Lease> {
    if Blocks(row, at) then row else Some(Lease(holder, operation, At(at + Ttl(ttl))))
  }

  ghost function Released(row: Option<Lease>, holder: string): Option<Lease> {
    if HeldBy(row, holder) then None else row
  }

  ghost function Renewed(row: Option<Lease>, holder: string, at: int, ttl: int): Option<Lease> {
    if HeldBy(row, holder) then Some(row.value.(expires := At(at + Ttl(ttl)))) else row
  }

  // ---- processes contending for one container ----

  /** `until` is the expiry the process was granted. */
  datatype Phase =
    | Idle
    // The clock has been read; the transaction has not run.
    | Acquiring(at: int, ttl: int)
    | Holding(until: int)
    | Renewing(until: int, at: int, ttl: int)

  datatype Proc = Proc(holder: string, phase: Phase)

  datatype System = System(now: int, row: Option<Lease>, procs: map<nat, Proc>)

  datatype Op =
    | Tick(d: nat)
    | StartAcquire(p: nat, ttl: int)
    | FinishAcquire(p: nat)
    | StartRenew(p: nat, ttl: int)
    | FinishRenew(p: nat)
    | Release(p: nat)
    // The process dies: it does no more work, and its row stays.
    | Crash(p: nat)

  ghost function SetPhase(s: System, p: nat, phase: Phase): System
    requires p in s.procs
  {
    s.(procs := s.procs[p := s.procs[p].(phase := phase)])
  }

  ghost function StepProc(s: System, p: nat, op: Op): System
    requires p in s.procs
  {
    var holder, phase := s.procs[p].holder, s.procs[p].phase;
    match op
    case StartAcquire(_, ttl) => if phase.Idle? then SetPhase(s, p, Acquiring(s.now, ttl)) else s
    case FinishAcquire(_) =>
      if !phase.Acquiring? then s
      else
        SetPhase(s.(row := Acquired(s.row, holder, "op", phase.at, phase.ttl)), p,
                 if Blocks(s.row, phase.at) then Idle else Holding(phase.at + Ttl(phase.ttl)))
    case StartRenew(_, ttl) => if phase.Holding? then SetPhase(s, p, Renewing(phase.until, s.now, ttl)) else s
    case FinishRenew(_) =>
      if !phase.Renewing? then s
      else
        SetPhase(s.(row := Renewed(s.row, holder, phase.at, phase.ttl)), p,
                 Holding(if HeldBy(s.row, holder) then phase.at + Ttl(phase.ttl) else phase.until))
    case Release(_) =>
      if phase.Holding? then SetPhase(s.(row := Released(s.row, holder)), p, Idle) else s
    case Crash(_) => SetPhase(s, p, Idle)
    case Tick(_) => s
  }

  ghost function Step(s: System, op: Op): System {
    if op.Tick? then s.(now := s.now + op.d)
    else if op.p in s.procs then StepProc(s, op.p, op)
    else s
  }

  ghost function Run(s: System, ops: seq<Op>): System
    decreases |ops|
  {
    if ops == [] then s else Run(Step(s, ops[0]), ops[1..])
  }

  /** A process that works under a lease, whether or not the lease is still good. */
  ghost predicate Working(s: System, p: nat) {
    p in s.procs && (s.procs[p].phase.Holding? || s.procs[p].phase.Renewing?)
  }

  /** A process inside the window it was granted. */
  ghost predicate Inside(s: System, p: nat) {
    Working(s, p) && s.now < s.procs[p].phase.until
  }

  ghost predicate Distinct(s: System) {
    forall p, q :: p in s.procs && q in s.procs && s.procs[p].holder == s.procs[q].holder ==> p == q
  }

  /** Processes about to start, over whatever row an earlier process left: held, expired or corrupt. */
  ghost predicate Start(s: System) {
    forall p :: p in s.procs ==> s.procs[p].phase.Idle?
  }

  // ---- the invariant ----

  ghost predicate Owns(s: System, p: nat)
    requires Working(s, p)
  {
    HeldBy(s.row, s.procs[p].holder) && s.row.value.expires == At(s.procs[p].phase.until)
  }

  ghost predicate Clocks(s: System, p: nat)
    requires p in s.procs
  {
    var phase := s.procs[p].phase;
    (phase.Acquiring? || phase.Renewing?) ==> phase.at <= s.now
  }

  /** Whoever is inside its window owns the row; clocks were read in the past. */
  ghost predicate Ok(s: System) {
    && Distinct(s)
    && (forall p :: p in s.procs ==> Clocks(s, p))
    && (forall p :: Inside(s, p) ==> Owns(s, p))
  }

  lemma StepKeepsOk(s: System, op: Op)
    requires Ok(s)
    ensures Ok(Step(s, op))
  {
    var s' := Step(s, op);
    forall p | Inside(s', p) ensures Owns(s', p) {
      assert Inside(s, p) ==> Owns(s, p);
    }
    forall p | p in s'.procs ensures Clocks(s', p) {
      assert Clocks(s, p);
    }
  }

  lemma {:induction false} RunKeepsOk(s: System, ops: seq<Op>)
    requires Ok(s)
    ensures Ok(Run(s, ops))
    decreases |ops|
  {
    hide Ok, Step;
    if ops != [] {
      StepKeepsOk(s, ops[0]);
      RunKeepsOk(Step(s, ops[0]), ops[1..]);
    }
  }

  // ---- what the lease promises ----

  /**
   Mutual exclusion. Over any run of acquires, renewals, releases, crashes and clock ticks, however
   long passes between reading the clock and the transaction, at most one process is inside the
   window it was granted, and the row is its own.
   */
  lemma MutualExclusion(s0: System, ops: seq<Op>, p: nat, q: nat)
    requires Start(s0) && Distinct(s0)
    requires Inside(Run(s0, ops), p) && Inside(Run(s0, ops), q)
    ensures p == q && Owns(Run(s0, ops), p)
  {
    hide Run;
    RunKeepsOk(s0, ops);
  }

  /** Nothing another process does, late or not, takes the row from whoever is inside its window. */
  lemma NobodyOustsTheHolder(s0: System, ops: seq<Op>, op: Op, q: nat)
    requires Start(s0) && Distinct(s0)
    requires Inside(Run(s0, ops), q)
    requires !op.Tick? && op.p != q
    ensures Step(Run(s0, ops), op).row == Run(s0, ops).row
  {
    hide Run;
    RunKeepsOk(s0, ops);
    var s := Run(s0, ops);
    assert Owns(s, q);
    if op.p in s.procs {
      assert Clocks(s, op.p);
    }
  }

  function Attempt(p: nat, ttl: int): seq<Op> {
    [StartAcquire(p, ttl), FinishAcquire(p)]
  }

  lemma AttemptEffect(s: System, p: nat, ttl: int)
    requires p in s.procs && s.procs[p].phase.Idle?
    ensures var s' := Run(s, Attempt(p, ttl));
            && s'.row == Acquired(s.row, s.procs[p].holder, "op", s.now, ttl)
            && s' == SetPhase(s, p, if Blocks(s.row, s.now) then Idle else Holding(s.now + Ttl(ttl))).(row := s'.row)
  {
    var s1 := Step(s, StartAcquire(p, ttl));
    var s2 := Step(s1, FinishAcquire(p));
    var ops := Attempt(p, ttl);
    assert ops[1..] == [FinishAcquire(p)] && ops[1..][1..] == [];
    assert Run(s, ops) == Run(s1, ops[1..]) == Run(s2, []);
    assert s.procs[p := s.procs[p].(phase := Acquiring(s.now, ttl))][p := s.procs[p].(phase := Idle)]
        == s.procs[p := s.procs[p].(phase := Idle)];
  }

  /**
   A dead holder is recovered from, no later and no sooner than its expiry: whatever the row, an
   attempt `d` later gets the container exactly when there is no row, the row is corrupt, or the
   clock has reached its expiry.
   */
  lemma TakeoverIff(s: System, p: nat, d: nat, ttl: int)
    requires p in s.procs && s.procs[p].phase.Idle?
    ensures Working(Run(Step(s, Tick(d)), Attempt(p, ttl)), p) <==>
              s.row.None? || s.row.value.expires.Corrupt? || s.now + d >= s.row.value.expires.time
  {
    hide Run, Attempt;
    AttemptEffect(Step(s, Tick(d)), p, ttl);
  }

  /**
   What a body run under a lease may rely on: while it owns the row, another process gets in, beside
   it, exactly when the body has outlived its window. A body that runs longer than its time to live
   and does not renew is not alone.
   */
  lemma AloneExactlyInTheWindow(s: System, p: nat, q: nat, ttl: int)
    requires Working(s, p) && Owns(s, p)
    requires q in s.procs && s.procs[q].phase.Idle?
    ensures var s' := Run(s, Attempt(q, ttl));
            && Working(s', p)
            && (Working(s', q) <==> !Inside(s, p))
  {
    hide Run, Attempt;
    AttemptEffect(s, q, ttl);
  }

  // ---- exactly when the promises hold ----

  ghost predicate Exclusive(s0: System) {
    forall ops: seq<Op>, p: nat, q: nat :: Inside(Run(s0, ops), p) && Inside(Run(s0, ops), q) ==> p == q
  }

  // Nobody's release, however late, takes the row from another process inside its window.
  ghost predicate ReleasesAreSafe(s0: System) {
    forall ops: seq<Op>, p: nat, q: nat ::
      Inside(Run(s0, ops), q) && p != q ==> Step(Run(s0, ops), Release(p)).row == Run(s0, ops).row
  }

  // How long until the row, whatever it is, keeps nobody out.
  ghost function Wait(s: System): nat {
    if Blocks(s.row, s.now) then s.row.value.expires.time - s.now else 0
  }

  /** The row is waited out, `p` gets the lease, its window passes, and `q` gets the lease. */
  ghost function TakenOver(s: System, p: nat, q: nat): seq<Op> {
    [Tick(Wait(s))] + Attempt(p, 1) + [Tick(1)] + Attempt(q, 1)
  }

  lemma TakenOverEffect(s0: System, p: nat, q: nat)
    requires Start(s0) && p in s0.procs && q in s0.procs && p != q
    ensures var s := Run(s0, TakenOver(s0, p, q));
            && s.procs.Keys == s0.procs.Keys
            && s.procs[p] == Proc(s0.procs[p].holder, Holding(s.now))
            && s.procs[q] == Proc(s0.procs[q].holder, Holding(s.now + 1))
            && s.row == Some(Lease(s0.procs[q].holder, "op", At(s.now + 1)))
  {
    hide Run, Attempt, Step, SetPhase;
    var a := [Tick(Wait(s0))];
    RunAppend(s0, a + Attempt(p, 1) + [Tick(1)], Attempt(q, 1));
    RunAppend(s0, a + Attempt(p, 1), [Tick(1)]);
    RunAppend(s0, a, Attempt(p, 1));
    RunOne(s0, Tick(Wait(s0)));
    TickEffect(s0, Wait(s0));
    var s1 := s0.(now := s0.now + Wait(s0));
    AttemptEffect(s1, p, 1);
    SetPhaseOnly(s1, p, Holding(s1.now + 1));
    var s2 := Run(s1, Attempt(p, 1));
    RunOne(s2, Tick(1));
    TickEffect(s2, 1);
    var s3 := s2.(now := s2.now + 1);
    AttemptEffect(s3, q, 1);
    SetPhaseOnly(s3, q, Holding(s3.now + 1));
  }

  lemma SetPhaseOnly(s: System, p: nat, phase: Phase)
    requires p in s.procs
    ensures var s' := SetPhase(s, p, phase);
            && s'.now == s.now && s'.procs.Keys == s.procs.Keys && s'.procs[p] == Proc(s.procs[p].holder, phase)
            && forall x :: x in s.procs && x != p ==> s'.procs[x] == s.procs[x]
  {
  }

  /**
   Distinct holder ids are exactly what mutual exclusion needs: processes about to start, over any
   row, exclude each other in every run if and only if no two of them share an id. Two that do need
   only one take-over: the ousted one's renewal succeeds, and both are inside.
   */
  lemma ExclusiveIffDistinct(s0: System)
    requires Start(s0)
    ensures Exclusive(s0) <==> Distinct(s0)
  {
    hide Run, TakenOver;
    if Distinct(s0) {
      forall ops: seq<Op>, p: nat, q: nat | Inside(Run(s0, ops), p) && Inside(Run(s0, ops), q) ensures p == q {
        MutualExclusion(s0, ops, p, q);
      }
    } else {
      var p, q :| p in s0.procs && q in s0.procs && s0.procs[p].holder == s0.procs[q].holder && p != q;
      TakenOverEffect(s0, p, q);
      var s := Run(s0, TakenOver(s0, p, q));
      var renew := [StartRenew(p, 1), FinishRenew(p)];
      RunAppend(s0, TakenOver(s0, p, q), renew);
      RenewEffect(s, p);
      assert Inside(Run(s0, TakenOver(s0, p, q) + renew), p) && Inside(Run(s0, TakenOver(s0, p, q) + renew), q);
    }
  }

  /** And exactly what a release needs to be harmless: shared ids let a late release drop a successor's lease. */
  lemma ReleasesAreSafeIffDistinct(s0: System)
    requires Start(s0)
    ensures ReleasesAreSafe(s0) <==> Distinct(s0)
  {
    hide Run, TakenOver;
    if Distinct(s0) {
      forall ops: seq<Op>, p: nat, q: nat | Inside(Run(s0, ops), q) && p != q
        ensures Step(Run(s0, ops), Release(p)).row == Run(s0, ops).row
      {
        NobodyOustsTheHolder(s0, ops, Release(p), q);
      }
    } else {
      var p, q :| p in s0.procs && q in s0.procs && s0.procs[p].holder == s0.procs[q].holder && p != q;
      TakenOverEffect(s0, p, q);
      var s := Run(s0, TakenOver(s0, p, q));
      ReleaseEffect(s, p);
      assert Inside(s, q) && Step(s, Release(p)).row == None;
    }
  }

  lemma RenewEffect(s: System, p: nat)
    requires p in s.procs && s.procs[p].phase.Holding? && HeldBy(s.row, s.procs[p].holder)
    ensures var s' := Run(s, [StartRenew(p, 1), FinishRenew(p)]);
            s' == SetPhase(s, p, Holding(s.now + 1)).(row := Renewed(s.row, s.procs[p].holder, s.now, 1))
  {
    var s1 := Step(s, StartRenew(p, 1));
    var s2 := Step(s1, FinishRenew(p));
    var ops := [StartRenew(p, 1), FinishRenew(p)];
    assert ops[1..] == [FinishRenew(p)] && ops[1..][1..] == [];
    assert Run(s, ops) == Run(s1, ops[1..]) == Run(s2, []);
  }

  lemma TickEffect(s: System, d: nat)
    ensures Step(s, Tick(d)) == s.(now := s.now + d)
  {
  }

  lemma ReleaseEffect(s: System, p: nat)
    requires p in s.procs && s.procs[p].phase.Holding?
    ensures Step(s, Release(p)) == SetPhase(s, p, Idle).(row := Released(s.row, s.procs[p].holder))
  {
  }

  lemma RunOne(s: System, op: Op)
    ensures Run(s, [op]) == Step(s, op)
  {
    assert [op][1..] == [];
  }

  lemma {:induction false} RunAppend(s: System, a: seq<Op>, b: seq<Op>)
    ensures Run(s, a + b) == Run(Run(s, a), b)
    decreases |a|
  {
    hide Step;
    if a == [] {
      assert a + b == b;
    } else {
      assert (a + b)[1..] == a[1..] + b;
      RunAppend(Step(s, a[0]), a[1..], b);
    }
  }

  // ---- the lease table ----

  datatype AcquireResult = Granted(lease: Lease) | ErrLeaseHeld(holder: string, operation: string, expires: Expiry)

  class LeaseTable {
    // One row per container at most.
    var rows: map<string, Lease>

    ghost function Row(container: string): Option<Lease>
      reads this
    {
      if container in rows then Some(rows[container]) else None
    }

    // Everybody else's rows stay as they were.
    twostate predicate OnlyTouches(container: string)
      reads this
    {
      forall c :: c != container ==> Row(c) == old(Row(c))
    }

    /** `at` is the clock, read before the transaction starts. */
    method AcquireLease(container: string, holder: string, operation: string, ttl: int, at: int)
      returns (r: AcquireResult)
      modifies this
      ensures Row(container) == Acquired(old(Row(container)), holder, operation, at, ttl)
      ensures OnlyTouches(container)
      ensures r.ErrLeaseHeld? <==> Blocks(old(Row(container)), at)
      ensures r.Granted? ==> Row(container) == Some(r.lease) && r.lease.holder == holder
      ensures r.ErrLeaseHeld? ==> r.holder == rows[container].holder && r.expires == rows[container].expires
      // In the row's own terms: five minutes where no duration is given.
      ensures r.ErrLeaseHeld? <==>
        container in old(rows) && old(rows)[container].expires.At? && at < old(rows)[container].expires.time
      ensures rows == if r.ErrLeaseHeld? then old(rows)
                      else old(rows)[container := Lease(holder, operation,
                                                        At(at + if ttl == 0 then 300_000_000_000 else ttl))]
    {
      var ttl' := ttl;
      if ttl == 0 { ttl' := DEFAULT_TTL; }
      var lease := Lease(holder, operation, At(at + ttl'));
      if container in rows {
        var existing := rows[container];
        if existing.expires.At? && at < existing.expires.time {
          return ErrLeaseHeld(existing.holder, existing.operation, existing.expires);
        }
        rows := rows - {container};
      }
      rows := rows[container := lease];
      assert rows == old(rows)[container := lease];
      return Granted(lease);
    }

    method ReleaseLease(container: string, holder: string)
      modifies this
      ensures Row(container) == Released(old(Row(container)), holder)
      ensures OnlyTouches(container)
      ensures rows == if container in old(rows) && old(rows)[container].holder == holder then old(rows) - {container}
                      else old(rows)
    {
      if container in rows && rows[container].holder == holder {
        rows := rows - {container};
      }
    }

    /** Fails when the holder no longer has the lease. */
    method RenewLease(container: string, holder: string, ttl: int, at: int) returns (ok: bool)
      modifies this
      ensures Row(container) == Renewed(old(Row(container)), holder, at, ttl)
      ensures OnlyTouches(container)
      ensures ok <==> HeldBy(old(Row(container)), holder)
      ensures ok <==> container in old(rows) && old(rows)[container].holder == holder
      ensures rows == if !ok then old(rows)
                      else old(rows)[container := old(rows)[container].(
                             expires := At(at + if ttl == 0 then 300_000_000_000 else ttl))]
    {
      if container !in rows || rows[container].holder != holder { return false; }
      var ttl' := if ttl == 0 then DEFAULT_TTL else ttl;
      rows := rows[container := rows[container].(expires := At(at + ttl'))];
      return true;
    }
  }
}
