/**
 Syncs of several processes at once. Each reads a container's row early (`internal/cli/sync.go:33-66`),
 syncs with the base it read under the container's lease (77-84), and stores the new base after the
 lease is released (100-104); anything may happen in between, and a process may die anywhere.
 */
module ConcurrentSyncs {
  import opened Options
  import opened Commits
  import opened StackSync
  import opened Containers
  import opened RecordedBase

  /** One process's work on one container: it has read the row; it has synced and is about to store. */
  datatype Job =
    | HasRead(c: Container)
    | HasSynced(c: Container, outcome: Eligibility, tip: CommitId)

  /** `onto` is history: the commit each container's branch was last put on, by stacking or by a rebase. */
  datatype Site = Site(world: World, jobs: map<nat, Job>, onto: map<string, CommitId>)

  datatype SiteEvent =
    // An event of a single process, among them a whole turn without interruption.
    | Plain(e: Event)
    | ReadRow(job: nat, id: string)
    | SyncUnderLease(job: nat, options: SyncOptions, leaseHeld: bool, answers: Answers)
    | StoreResult(job: nat, stored: bool)
    | Die(job: nat)

  /** The base a successful rebase of `id` in this step starts from; `None` if the step is no such rebase. */
  ghost function UsedBase(s: Site, se: SiteEvent, id: string): Option<CommitId>
    requires s.world.Valid()
  {
    var w := s.world;
    match se
    case Plain(e) =>
      if e.SyncOne? && e.id == id && id in w.rows && !e.turn.leaseHeld
         && Outcome(w.repo, w.rows[id].Target(), e.options, e.turn.answers) == Some(Synced)
      then Some(w.rows[id].baseSHA)
      else None
    case SyncUnderLease(j, o, leaseHeld, a) =>
      if j in s.jobs && s.jobs[j].HasRead? && s.jobs[j].c.id == id && !leaseHeld
         && Outcome(w.repo, s.jobs[j].c.Target(), o, a) == Some(Synced)
      then Some(s.jobs[j].c.baseSHA)
      else None
    case _ => None
  }

  // The container a step puts on a new commit, and that commit.
  ghost function Puts(s: Site, se: SiteEvent): Option<(string, CommitId)>
    requires s.world.Valid()
  {
    var w := s.world;
    match se
    case Plain(e) =>
      if e.Stack? && Possible(w, e) then Some((e.id, w.repo.refs[e.parentBranch]))
      else if e.SyncOne? && UsedBase(s, se, e.id).Some? then Some((e.id, Tip(w.repo, w.rows[e.id].parentBranch)))
      else None
    case SyncUnderLease(j, _, _, _) =>
      if j in s.jobs && UsedBase(s, se, s.jobs[j].c.id).Some?
      then Some((s.jobs[j].c.id, Tip(w.repo, s.jobs[j].c.parentBranch)))
      else None
    case _ => None
  }

  ghost function StepJobs(s: Site, se: SiteEvent): (World, map<nat, Job>)
    requires s.world.Valid()
  {
    var w := s.world;
    match se
    case Plain(e) => (Step(w, e), s.jobs)
    case ReadRow(j, id) =>
      if j in s.jobs || id !in w.rows then (w, s.jobs) else (w, s.jobs[j := HasRead(w.rows[id])])
    case SyncUnderLease(j, o, leaseHeld, a) =>
      if j !in s.jobs || !s.jobs[j].HasRead? then (w, s.jobs)
      else
        var c := s.jobs[j].c;
        var outcome := Outcome(w.repo, c.Target(), o, a);
        if leaseHeld then (w, s.jobs - {j})
        else (w.(repo := SyncSpec(w.repo, c.Target(), o, a)),
              if outcome.None? || o.dryRun then s.jobs - {j}
              else s.jobs[j := HasSynced(c, outcome.value, Tip(w.repo, c.parentBranch))])
    case StoreResult(j, stored) =>
      if j !in s.jobs || !s.jobs[j].HasSynced? then (w, s.jobs)
      else
        var job := s.jobs[j];
        (if job.c.id in w.rows
         then w.(rows := w.rows[job.c.id := StoredRow(w.rows[job.c.id], job.outcome, job.tip, stored)]) else w,
         s.jobs - {j})
    case Die(j) => (w, s.jobs - {j})
  }

  ghost function Next(s: Site, se: SiteEvent): Site
    requires s.world.Valid()
  {
    var (world, jobs) := StepJobs(s, se);
    var put := Puts(s, se);
    Site(world, jobs, if put.Some? then s.onto[put.value.0 := put.value.1] else s.onto)
  }

  /** A job's row is a row of the container it names, with a base that may be out of date. */
  ghost predicate Valid(s: Site) {
    && s.world.Valid()
    && forall j :: j in s.jobs ==>
         var c := s.jobs[j].c;
         && c.id in s.world.rows && s.world.rows[c.id].branch == c.branch
         && s.world.rows[c.id].parentBranch == c.parentBranch
  }

  // ---- validity ----

  lemma SyncJobValid(s: Site, c: Container, o: SyncOptions, a: Answers)
    requires s.world.Valid()
    ensures var w' := s.world.(repo := SyncSpec(s.world.repo, c.Target(), o, a));
            w'.Valid() && s.world.repo.history <= w'.repo.history
  {
    hide SyncSpec, Outcome;
    SyncKeepsBranches(s.world.repo, c.Target(), o, a);
  }

  lemma StoreValid(w: World, id: string, e: Eligibility, tip: CommitId, stored: bool)
    requires w.Valid() && id in w.rows
    ensures var w' := w.(rows := w.rows[id := StoredRow(w.rows[id], e, tip, stored)]);
            && w'.Valid() && w'.rows.Keys == w.rows.Keys
            && (forall x :: x in w.rows ==> w'.rows[x].branch == w.rows[x].branch
                                            && w'.rows[x].parentBranch == w.rows[x].parentBranch)
  {
  }

  lemma PlainKeepsRows(w: World, e: Event)
    requires w.Valid()
    ensures Step(w, e).Valid() && w.repo.history <= Step(w, e).repo.history
    ensures forall x :: x in w.rows ==>
              x in Step(w, e).rows && Step(w, e).rows[x].branch == w.rows[x].branch
              && Step(w, e).rows[x].parentBranch == w.rows[x].parentBranch
  {
    hide AfterTurn;
    StepValid(w, e);
    if Possible(w, e) && e.SyncOne? {
      TurnValid(w, w.rows[e.id], e.options, e.turn);
    }
  }

  lemma NextValid(s: Site, se: SiteEvent)
    requires Valid(s)
    ensures Valid(Next(s, se)) && s.world.repo.history <= Next(s, se).world.repo.history
    ensures forall x :: x in s.world.rows ==>
              x in Next(s, se).world.rows && Next(s, se).world.rows[x].branch == s.world.rows[x].branch
              && Next(s, se).world.rows[x].parentBranch == s.world.rows[x].parentBranch
  {
    hide Step, SyncSpec, Outcome, StoredRow, Puts;
    match se {
      case Plain(e) => PlainKeepsRows(s.world, e);
      case SyncUnderLease(j, o, _, a) =>
        if j in s.jobs && s.jobs[j].HasRead? {
          SyncJobValid(s, s.jobs[j].c, o, a);
        }
      case StoreResult(j, stored) =>
        if j in s.jobs && s.jobs[j].HasSynced? {
          StoreValid(s.world, s.jobs[j].c.id, s.jobs[j].outcome, s.jobs[j].tip, stored);
        }
      case _ =>
    }
  }

  ghost function Run(s: Site, es: seq<SiteEvent>): (s': Site)
    requires Valid(s)
    ensures Valid(s')
    decreases |es|
  {
    if es == [] then s
    else
      NextValid(s, es[0]);
      Run(Next(s, es[0]), es[1..])
  }

  // ---- a turn and its parts ----

  // The jobs and the world after the three parts, one by one.
  lemma AfterRead(s: Site, j: nat, id: string)
    requires Valid(s) && j !in s.jobs && id in s.world.rows
    ensures Valid(Next(s, ReadRow(j, id)))
    ensures Next(s, ReadRow(j, id)) == s.(jobs := s.jobs[j := HasRead(s.world.rows[id])])
  {
    hide SyncSpec, Outcome, Step;
    NextValid(s, ReadRow(j, id));
  }

  // The history of a site after a rebase of `c`, as `answers` would have it.
  ghost function OntoAfter(s: Site, c: Container, o: SyncOptions, t: Turn): map<string, CommitId>
    requires s.world.Valid()
  {
    if !t.leaseHeld && Outcome(s.world.repo, c.Target(), o, t.answers) == Some(Synced)
    then s.onto[c.id := Tip(s.world.repo, c.parentBranch)] else s.onto
  }

  lemma AfterLease(s: Site, j: nat, o: SyncOptions, t: Turn)
    requires Valid(s) && j in s.jobs && s.jobs[j].HasRead?
    ensures Valid(Next(s, SyncUnderLease(j, o, t.leaseHeld, t.answers)))
    ensures var s', c := Next(s, SyncUnderLease(j, o, t.leaseHeld, t.answers)), s.jobs[j].c;
            var e := Outcome(s.world.repo, c.Target(), o, t.answers);
            && s'.onto == OntoAfter(s, c, o, t) && s'.world.rows == s.world.rows
            && s'.world.repo == (if t.leaseHeld then s.world.repo else SyncSpec(s.world.repo, c.Target(), o, t.answers))
            && s'.jobs == (if t.leaseHeld || e.None? || o.dryRun then s.jobs - {j}
                           else s.jobs[j := HasSynced(c, e.value, Tip(s.world.repo, c.parentBranch))])
  {
    hide SyncSpec, Outcome, Step, Tip;
    NextValid(s, SyncUnderLease(j, o, t.leaseHeld, t.answers));
  }

  lemma AfterStore(s: Site, j: nat, stored: bool)
    requires Valid(s)
    ensures j !in s.jobs ==> Next(s, StoreResult(j, stored)) == s
    ensures j in s.jobs && s.jobs[j].HasSynced? ==>
              var id := s.jobs[j].c.id;
              var row := StoredRow(s.world.rows[id], s.jobs[j].outcome, s.jobs[j].tip, stored);
              Next(s, StoreResult(j, stored)) == Site(s.world.(rows := s.world.rows[id := row]), s.jobs - {j}, s.onto)
  {
    hide SyncSpec, Outcome, Step, StoredRow;
  }

  lemma AfterWhole(s: Site, id: string, o: SyncOptions, t: Turn)
    requires Valid(s) && id in s.world.rows
    ensures var s' := Next(s, Plain(SyncOne(id, o, t)));
            && s'.jobs == s.jobs && s'.world == AfterTurn(s.world, s.world.rows[id], o, t)
            && s'.onto == OntoAfter(s, s.world.rows[id], o, t)
  {
    hide SyncSpec, Outcome, AfterTurn, Tip;
  }

  /** A turn without interruption is its three parts one after another. */
  lemma TurnIsItsParts(s: Site, j: nat, id: string, o: SyncOptions, t: Turn)
    requires Valid(s) && j !in s.jobs && id in s.world.rows
    ensures var s1 := Next(s, ReadRow(j, id));
            Valid(s1)
            && var s2 := Next(s1, SyncUnderLease(j, o, t.leaseHeld, t.answers));
               Valid(s2) && Next(s2, StoreResult(j, t.stored)) == Next(s, Plain(SyncOne(id, o, t)))
  {
    hide SyncSpec, Outcome, Next, Tip, StoredRow;
    var c := s.world.rows[id];
    AfterRead(s, j, id);
    var s1 := Next(s, ReadRow(j, id));
    AfterLease(s1, j, o, t);
    var s2 := Next(s1, SyncUnderLease(j, o, t.leaseHeld, t.answers));
    AfterStore(s2, j, t.stored);
    AfterWhole(s, id, o, t);
    assert s.jobs[j := HasRead(c)] - {j} == s.jobs;
    assert s1.jobs[j := HasRead(c)] - {j} == s.jobs;
    var e := Outcome(s.world.repo, c.Target(), o, t.answers);
    if !t.leaseHeld && e.Some? && !o.dryRun {
      assert s2.jobs - {j} == s.jobs;
    }
  }

  // ---- one step ----

  // The container's branch stands on the commit it was last put on.
  ghost predicate StandsOn(s: Site, id: string)
    requires s.world.Valid()
  {
    var w := s.world;
    && id in w.rows && id in s.onto
    && w.rows[id].branch != w.rows[id].parentBranch
    && OnBase(w.repo, w.rows[id].Target().(baseSHA := s.onto[id]))
  }

  /** What the branch holds above the commit it was last put on. */
  ghost function TrueWork(s: Site, id: string): seq<Patch>
    requires s.world.Valid() && StandsOn(s, id)
  {
    OwnWork(s.world.repo, s.world.rows[id].Target().(baseSHA := s.onto[id]))
  }

  // The patch container `id` commits in a step, if it does.
  ghost function Committed(s: Site, se: SiteEvent, id: string): seq<Patch>
    requires s.world.Valid()
  {
    if se.Plain? && se.e.CommitOn? && se.e.id == id && Possible(s.world, se.e) then [se.e.patch] else []
  }

  // Somebody rewrites the branch by hand. Its own commits and its syncs are not rewrites.
  ghost predicate Rewrites(se: SiteEvent, branch: Branch) {
    se.Plain? && se.e.MoveBranch? && se.e.branch == branch
  }

  // What a step does to the branch of a container it does not rebase.
  lemma PlainKeepsTip(w: World, e: Event, id: string)
    requires w.Valid() && id in w.rows && w.rows[id].branch in w.repo.refs
    requires !(e.MoveBranch? && e.branch == w.rows[id].branch)
    requires e.SyncOne? && e.id == id && !e.turn.leaseHeld ==>
               Outcome(w.repo, w.rows[id].Target(), e.options, e.turn.answers) != Some(Synced)
    ensures var b, r, r' := w.rows[id].branch, w.repo, Step(w, e).repo;
            && b in r'.refs
            && if e.CommitOn? && e.id == id && Possible(w, e)
               then r'.history == r.history + [Commit(Some(r.refs[b]), e.patch)] && r'.refs[b] == |r.history|
               else r'.refs[b] == r.refs[b]
  {
    hide SyncSpec, Outcome;
    if Possible(w, e) && e.SyncOne? {
      SyncKeepsBranches(w.repo, w.rows[e.id].Target(), e.options, e.turn.answers);
    }
  }

  lemma LeasedKeepsTip(w: World, c: Container, o: SyncOptions, a: Answers, id: string)
    requires w.Valid() && id in w.rows && w.rows[id].branch in w.repo.refs
    requires c.id in w.rows && w.rows[c.id].branch == c.branch
    requires c.id == id ==> Outcome(w.repo, c.Target(), o, a) != Some(Synced)
    ensures var b, r' := w.rows[id].branch, SyncSpec(w.repo, c.Target(), o, a);
            b in r'.refs && r'.refs[b] == w.repo.refs[b]
  {
    hide SyncSpec, Outcome;
    SyncKeepsBranches(w.repo, c.Target(), o, a);
  }

  lemma QuietStepKeepsTip(s: Site, se: SiteEvent, id: string)
    requires Valid(s) && StandsOn(s, id) && !Rewrites(se, s.world.rows[id].branch)
    requires UsedBase(s, se, id).None?
    ensures var b, r, r' := s.world.rows[id].branch, s.world.repo, Next(s, se).world.repo;
            && b in r'.refs && id in Next(s, se).onto && Next(s, se).onto[id] == s.onto[id]
            && if Committed(s, se, id) != []
               then && r'.history == r.history + [Commit(Some(r.refs[b]), Committed(s, se, id)[0])]
                    && r'.refs[b] == |r.history|
               else r'.refs[b] == r.refs[b]
  {
    hide SyncSpec, Outcome, Step, AfterTurn, StoredRow;
    match se {
      case Plain(e) => PlainKeepsTip(s.world, e, id);
      case SyncUnderLease(j, o, leaseHeld, a) =>
        if j in s.jobs && s.jobs[j].HasRead? && !leaseHeld {
          LeasedKeepsTip(s.world, s.jobs[j].c, o, a, id);
        }
      case _ =>
    }
  }

  /** A step that does not rebase the container keeps its work, but for what the container commits. */
  lemma QuietStepKeepsWork(s: Site, se: SiteEvent, id: string)
    requires Valid(s) && StandsOn(s, id) && !Rewrites(se, s.world.rows[id].branch)
    requires UsedBase(s, se, id).None?
    ensures Valid(Next(s, se)) && StandsOn(Next(s, se), id)
    ensures TrueWork(Next(s, se), id) == TrueWork(s, id) + Committed(s, se, id)
  {
    hide Next, UsedBase, Possible, Committed;
    NextValid(s, se);
    QuietStepKeepsTip(s, se, id);
    var h, h', tip, base := s.world.repo.history, Next(s, se).world.repo.history,
      s.world.repo.refs[s.world.rows[id].branch], s.onto[id];
    CommittedIsOne(s, se, id);
    if Committed(s, se, id) != [] {
      CommitExtendsWork(h, base, tip, Committed(s, se, id)[0]);
    } else {
      ReachesStable(h, h', tip, base);
      WorkStable(h, h', base, tip);
    }
  }

  lemma CommittedIsOne(s: Site, se: SiteEvent, id: string)
    requires s.world.Valid()
    ensures Committed(s, se, id) == [] || Committed(s, se, id) == [Committed(s, se, id)[0]]
  {
  }

  // What the branch holds above a base some process has read.
  ghost function WorkFrom(s: Site, id: string, base: CommitId): seq<Patch>
    requires s.world.Valid() && id in s.world.rows
    requires OnBase(s.world.repo, s.world.rows[id].Target().(baseSHA := base))
  {
    OwnWork(s.world.repo, s.world.rows[id].Target().(baseSHA := base))
  }

  lemma RebaseLands(s: Site, s': Site, c: Container, o: SyncOptions, a: Answers, id: string)
    requires Valid(s) && Valid(s') && id in s.world.rows && id in s'.world.rows
    requires s.world.rows[id].branch == c.branch && s.world.rows[id].parentBranch == c.parentBranch
    requires s'.world.rows[id].branch == c.branch && s'.world.rows[id].parentBranch == c.parentBranch
    requires c.branch != c.parentBranch
    requires Outcome(s.world.repo, c.Target(), o, a) == Some(Synced)
    requires s'.world.repo == SyncSpec(s.world.repo, c.Target(), o, a)
    requires s'.onto == s.onto[id := Tip(s.world.repo, c.parentBranch)]
    ensures OnBase(s.world.repo, s.world.rows[id].Target().(baseSHA := c.baseSHA))
    ensures StandsOn(s', id) && TrueWork(s', id) == WorkFrom(s, id, c.baseSHA)
  {
    hide SyncSpec, Outcome, OnBase, OwnWork;
    var w := s.world;
    assert c.Target() == w.rows[id].Target().(baseSHA := c.baseSHA);
    SyncKeepsBranches(w.repo, c.Target(), o, a);
    assert s'.world.rows[id].Target().(baseSHA := w.repo.refs[c.parentBranch])
           == c.Target().(baseSHA := w.repo.refs[c.parentBranch]);
  }

  lemma RebaseEffect(s: Site, se: SiteEvent, id: string)
    requires Valid(s) && id in s.world.rows && s.world.rows[id].branch != s.world.rows[id].parentBranch
    requires UsedBase(s, se, id).Some?
    ensures Valid(Next(s, se)) && StandsOn(Next(s, se), id)
    ensures OnBase(s.world.repo, s.world.rows[id].Target().(baseSHA := UsedBase(s, se, id).value))
    ensures TrueWork(Next(s, se), id) == WorkFrom(s, id, UsedBase(s, se, id).value)
    ensures Next(s, se).onto == s.onto[id := Tip(s.world.repo, s.world.rows[id].parentBranch)]
  {
    hide SyncSpec, Outcome, OnBase, OwnWork, StoredRow;
    var w := s.world;
    NextValid(s, se);
    if se.Plain? {
      RebaseLands(s, Next(s, se), w.rows[id], se.e.options, se.e.turn.answers, id);
    } else {
      RebaseLands(s, Next(s, se), s.jobs[se.job].c, se.options, se.answers, id);
    }
  }

  /**
   A rebase keeps a container's work if and only if the base it uses, read before the lease was taken,
   is still the commit the branch stands on.
   */
  lemma RebaseKeepsWorkIff(s: Site, se: SiteEvent, id: string)
    requires Valid(s) && StandsOn(s, id) && UsedBase(s, se, id).Some?
    ensures Valid(Next(s, se)) && StandsOn(Next(s, se), id)
    ensures TrueWork(Next(s, se), id) == TrueWork(s, id) <==> UsedBase(s, se, id) == Some(s.onto[id])
  {
    hide Next, UsedBase, Reaches, Work;
    RebaseEffect(s, se, id);
    var w := s.world;
    WorkDeterminesBase(w.repo.history, w.repo.refs[w.rows[id].branch], UsedBase(s, se, id).value, s.onto[id]);
  }

  /**
   What a stale base does: an older one takes the commits in between, the parent's, for the container's
   own, in front of its work; a newer one drops the first part of the container's work.
   */
  lemma StaleBaseEffect(s: Site, se: SiteEvent, id: string)
    requires Valid(s) && StandsOn(s, id) && UsedBase(s, se, id).Some?
    ensures Valid(Next(s, se)) && StandsOn(Next(s, se), id)
    ensures var h, b, onto := s.world.repo.history, UsedBase(s, se, id).value, s.onto[id];
            && b < |h| && onto < |h|
            && (Reaches(h, onto, b) || Reaches(h, b, onto))
            && (Reaches(h, onto, b) ==> TrueWork(Next(s, se), id) == Work(h, b, onto) + TrueWork(s, id))
            && (Reaches(h, b, onto) ==> TrueWork(s, id) == Work(h, onto, b) + TrueWork(Next(s, se), id))
  {
    hide Next, UsedBase, Reaches, Work;
    RebaseEffect(s, se, id);
    var h, b, onto, tip := s.world.repo.history, UsedBase(s, se, id).value, s.onto[id],
      s.world.repo.refs[s.world.rows[id].branch];
    AncestorsAreLinear(h, tip, b, onto);
    if Reaches(h, onto, b) {
      WorkSplits(h, tip, onto, b);
    }
    if Reaches(h, b, onto) {
      WorkSplits(h, tip, b, onto);
    }
  }

  // ---- whole runs ----

  /** The patches container `id` commits along a run, in order. */
  ghost function Authored(s: Site, es: seq<SiteEvent>, id: string): seq<Patch>
    requires Valid(s)
    decreases |es|
  {
    if es == [] then []
    else
      NextValid(s, es[0]);
      Committed(s, es[0], id) + Authored(Next(s, es[0]), es[1..], id)
  }

  ghost predicate NeverRewritten(es: seq<SiteEvent>, branch: Branch) {
    forall i :: 0 <= i < |es| ==> !Rewrites(es[i], branch)
  }

  /** At every point of the run the branch holds `work` and what the container has committed since. */
  ghost predicate KeptThroughout(s: Site, es: seq<SiteEvent>, id: string, work: seq<Patch>)
    requires Valid(s)
    decreases |es|
  {
    && StandsOn(s, id) && TrueWork(s, id) == work
    && (es == [] ||
        (NextValid(s, es[0]);
         KeptThroughout(Next(s, es[0]), es[1..], id, work + Committed(s, es[0], id))))
  }

  /** Every rebase of the container uses the commit its branch stands on as the base. */
  ghost predicate BasesCurrent(s: Site, es: seq<SiteEvent>, id: string)
    requires Valid(s)
    decreases |es|
  {
    es == [] ||
    (NextValid(s, es[0]);
     && (UsedBase(s, es[0], id).Some? ==> id in s.onto && UsedBase(s, es[0], id).value == s.onto[id])
     && BasesCurrent(Next(s, es[0]), es[1..], id))
  }

  lemma CommittedOrRebased(s: Site, se: SiteEvent, id: string)
    requires s.world.Valid() && UsedBase(s, se, id).Some?
    ensures Committed(s, se, id) == []
  {
    hide Outcome;
  }

  lemma NextKeepsBranch(s: Site, se: SiteEvent, id: string)
    requires Valid(s) && StandsOn(s, id)
    ensures id in s.world.rows && id in s.onto && Valid(Next(s, se)) && id in Next(s, se).world.rows
    ensures Next(s, se).world.rows[id].branch == s.world.rows[id].branch
  {
    hide Next;
    NextValid(s, se);
  }

  /**
   Exactly when overlapping syncs do no harm. Whatever processes interleave, die or fail to store, the
   branch holds at every point of a run what it held before followed by what the container committed,
   if and only if every rebase of it uses a base that is still current.
   */
  lemma {:induction false} KeptThroughoutIff(s: Site, es: seq<SiteEvent>, id: string)
    requires Valid(s) && StandsOn(s, id) && NeverRewritten(es, s.world.rows[id].branch)
    ensures KeptThroughout(s, es, id, TrueWork(s, id)) <==> BasesCurrent(s, es, id)
    decreases |es|
  {
    hide Next, UsedBase, StandsOn, TrueWork, Committed;
    if es != [] {
      NextKeepsBranch(s, es[0], id);
      assert !Rewrites(es[0], s.world.rows[id].branch);
      var s1, rest := Next(s, es[0]), es[1..];
      var goal := TrueWork(s, id) + Committed(s, es[0], id);
      if UsedBase(s, es[0], id).None? {
        QuietStepKeepsWork(s, es[0], id);
        KeptThroughoutIff(s1, rest, id);
      } else {
        CommittedOrRebased(s, es[0], id);
        RebaseKeepsWorkIff(s, es[0], id);
        assert goal == TrueWork(s, id);
        KeptThroughoutIff(s1, rest, id);
      }
      assert KeptThroughout(s, es, id, TrueWork(s, id)) <==> KeptThroughout(s1, rest, id, goal);
    }
  }

  // ---- the recorded base ----

  /** The processes that have rebased the container and have not stored its new base yet. */
  ghost function InHand(s: Site, id: string): set<nat> {
    set j | j in s.jobs && s.jobs[j].HasSynced? && s.jobs[j].c.id == id && s.jobs[j].outcome == Synced
  }

  // The row holds the commit the branch stands on, or exactly one process is about to store it.
  ghost predicate Recorded(s: Site, id: string) {
    && id in s.world.rows && id in s.onto
    && (InHand(s, id) == {} ==> s.world.rows[id].baseSHA == s.onto[id])
    && (forall j :: j in InHand(s, id) ==> s.jobs[j].tip == s.onto[id])
    && (forall i, j :: i in InHand(s, id) && j in InHand(s, id) ==> i == j)
  }

  // A rebased container's new base is lost: its process dies, or cannot store it.
  ghost predicate Loses(s: Site, se: SiteEvent, id: string)
    requires s.world.Valid()
  {
    match se
    case Plain(e) =>
      e.SyncOne? && e.id == id && id in s.world.rows && LosesBase(s.world, s.world.rows[id], e.options, e.turn)
    case StoreResult(j, stored) => j in InHand(s, id) && !stored
    case Die(j) => j in InHand(s, id)
    case _ => false
  }

  /**
   The row a rebase started from is still the recorded one and no new base is on its way to the store,
   and no new base is lost.
   */
  ghost predicate Prompt(s: Site, es: seq<SiteEvent>, id: string)
    requires Valid(s)
    decreases |es|
  {
    es == [] ||
    (NextValid(s, es[0]);
     && !Loses(s, es[0], id)
     && (UsedBase(s, es[0], id).Some? ==>
           && InHand(s, id) == {} && id in s.world.rows
           && UsedBase(s, es[0], id).value == s.world.rows[id].baseSHA)
     && Prompt(Next(s, es[0]), es[1..], id))
  }

  lemma PlainKeepsBase(w: World, e: Event, id: string)
    requires w.Valid() && id in w.rows
    ensures id in Step(w, e).rows
    ensures Step(w, e).rows[id].baseSHA ==
            if e.SyncOne? && e.id == id && !e.turn.leaseHeld && e.turn.stored
               && Outcome(w.repo, w.rows[id].Target(), e.options, e.turn.answers) == Some(Synced)
            then Tip(w.repo, w.rows[id].parentBranch) else w.rows[id].baseSHA
  {
    hide SyncSpec, Tip;
  }

  lemma PromptPlain(s: Site, e: Event, id: string)
    requires Valid(s) && Recorded(s, id) && !Loses(s, Plain(e), id)
    requires UsedBase(s, Plain(e), id).Some? ==> InHand(s, id) == {}
    ensures Recorded(Next(s, Plain(e)), id)
  {
    hide SyncSpec, Outcome, Step, Tip;
    PlainKeepsBase(s.world, e, id);
    assert InHand(Next(s, Plain(e)), id) == InHand(s, id);
  }

  lemma SyncedIsReal(r: Repo, t: Target, o: SyncOptions, a: Answers)
    requires r.Valid() && o.dryRun
    ensures Outcome(r, t, o, a) != Some(Synced)
  {
  }

  lemma PromptLeased(s: Site, se: SiteEvent, id: string)
    requires Valid(s) && Recorded(s, id) && se.SyncUnderLease?
    requires UsedBase(s, se, id).Some? ==> InHand(s, id) == {}
    ensures Recorded(Next(s, se), id)
  {
    hide SyncSpec, Step, Tip, Outcome, Next;
    LeasedHands(s, se, id);
    if se.job in s.jobs && s.jobs[se.job].HasRead? {
      AfterLease(s, se.job, se.options, Turn(se.leaseHeld, se.answers, true));
    }
  }

  lemma LeasedHands(s: Site, se: SiteEvent, id: string)
    requires Valid(s) && se.SyncUnderLease?
    ensures InHand(Next(s, se), id) == InHand(s, id) + (if UsedBase(s, se, id).Some? then {se.job} else {})
    ensures !(se.job in s.jobs && s.jobs[se.job].HasRead?) ==> Next(s, se) == s
  {
    hide SyncSpec, Step, Tip, Outcome;
    if se.job in s.jobs && s.jobs[se.job].HasRead? {
      if se.options.dryRun {
        SyncedIsReal(s.world.repo, s.jobs[se.job].c.Target(), se.options, se.answers);
      }
      AfterLease(s, se.job, se.options, Turn(se.leaseHeld, se.answers, true));
      hide Next;
    }
  }

  lemma PromptStore(s: Site, j: nat, id: string)
    requires Valid(s) && Recorded(s, id)
    ensures Recorded(Next(s, StoreResult(j, true)), id)
    ensures j !in InHand(s, id) ==> Recorded(Next(s, StoreResult(j, false)), id)
  {
    hide Step, SyncSpec, Outcome;
    assert InHand(Next(s, StoreResult(j, true)), id) == InHand(s, id) - {j};
    assert InHand(Next(s, StoreResult(j, false)), id) == InHand(s, id) - {j};
  }

  lemma PromptOther(s: Site, se: SiteEvent, id: string)
    requires Valid(s) && Recorded(s, id) && (se.ReadRow? || se.Die?) && !Loses(s, se, id)
    ensures Recorded(Next(s, se), id)
  {
    hide Step, SyncSpec, Outcome;
    assert InHand(Next(s, se), id) == InHand(s, id);
  }

  /** Prompt syncs rebase from current bases, and the row follows the branch. */
  lemma {:induction false} PromptIsCurrent(s: Site, es: seq<SiteEvent>, id: string)
    requires Valid(s) && Recorded(s, id) && Prompt(s, es, id)
    ensures BasesCurrent(s, es, id) && Recorded(Run(s, es), id)
    decreases |es|
  {
    hide Next, UsedBase, Recorded, Loses;
    if es != [] {
      PromptStep(s, es[0], id);
      NextValid(s, es[0]);
      PromptIsCurrent(Next(s, es[0]), es[1..], id);
    }
  }

  lemma PromptStep(s: Site, se: SiteEvent, id: string)
    requires Valid(s) && Recorded(s, id) && !Loses(s, se, id)
    requires UsedBase(s, se, id).Some? ==> InHand(s, id) == {}
    ensures id in s.world.rows && id in s.onto && (InHand(s, id) == {} ==> s.world.rows[id].baseSHA == s.onto[id])
    ensures Recorded(Next(s, se), id)
  {
    hide Next, UsedBase;
    match se {
      case Plain(e) => PromptPlain(s, e, id);
      case SyncUnderLease(_, _, _, _) => PromptLeased(s, se, id);
      case StoreResult(j, _) => PromptStore(s, j, id);
      case _ => PromptOther(s, se, id);
    }
  }

  // The container and its row agree, and no new base is on its way to the store.
  ghost predicate Settled(s: Site, id: string)
    requires s.world.Valid()
  {
    Stands(s.world, id) && Recorded(s, id) && InHand(s, id) == {}
  }

  lemma SettledWork(s: Site, id: string)
    requires s.world.Valid() && Recorded(s, id) && InHand(s, id) == {}
    ensures Stands(s.world, id) <==> StandsOn(s, id)
    ensures Stands(s.world, id) ==> Own(s.world, id) == TrueWork(s, id)
  {
    hide OnBase, OwnWork;
    var t := s.world.rows[id].Target();
    assert t.(baseSHA := s.onto[id]) == t;
  }

  lemma {:induction false} KeptToTheEnd(s: Site, es: seq<SiteEvent>, id: string, work: seq<Patch>)
    requires Valid(s) && KeptThroughout(s, es, id, work)
    ensures StandsOn(Run(s, es), id) && TrueWork(Run(s, es), id) == work + Authored(s, es, id)
    decreases |es|
  {
    hide Next, StandsOn, TrueWork, Committed;
    if es == [] {
      assert work + [] == work;
    } else {
      NextValid(s, es[0]);
      KeptToTheEnd(Next(s, es[0]), es[1..], id, work + Committed(s, es[0], id));
    }
  }

  /**
   The recorded-base theorem. Over every run of any number of processes that does not rewrite the
   container's branch by hand, with prompt syncs, the recorded base is an ancestor of the branch
   whenever no new one is on its way to the store, and base..branch is then exactly what it held before
   followed by what the container committed, in order: nothing lost, doubled or inherited.
   */
  lemma RecordedBaseTheorem(s: Site, es: seq<SiteEvent>, id: string)
    requires Valid(s) && Settled(s, id) && NeverRewritten(es, s.world.rows[id].branch) && Prompt(s, es, id)
    ensures Recorded(Run(s, es), id)
    ensures InHand(Run(s, es), id) == {} ==>
              && Settled(Run(s, es), id)
              && Own(Run(s, es).world, id) == Own(s.world, id) + Authored(s, es, id)
    // In the repository's own terms: `w.rows[id].baseSHA..branch` before and after.
    ensures InHand(Run(s, es), id) == {} ==>
              var w, w' := s.world, Run(s, es).world;
              && w'.rows[id].branch in w'.repo.refs
              && Reaches(w'.repo.history, w'.repo.refs[w'.rows[id].branch], w'.rows[id].baseSHA)
              && Work(w'.repo.history, w'.rows[id].baseSHA, w'.repo.refs[w'.rows[id].branch])
                 == Work(w.repo.history, w.rows[id].baseSHA, w.repo.refs[w.rows[id].branch]) + Authored(s, es, id)
  {
    hide Run, Authored, Prompt, BasesCurrent, KeptThroughout, StandsOn, TrueWork, Own, Recorded, Stands;
    SettledWork(s, id);
    PromptIsCurrent(s, es, id);
    KeptThroughoutIff(s, es, id);
    KeptToTheEnd(s, es, id, TrueWork(s, id));
    if InHand(Run(s, es), id) == {} {
      SettledWork(Run(s, es), id);
      OwnIs(s.world, id);
      OwnIs(Run(s, es).world, id);
    }
  }

  lemma OwnIs(w: World, id: string)
    requires w.Valid() && Stands(w, id)
    ensures id in w.rows && w.rows[id].branch in w.repo.refs && w.rows[id].baseSHA < |w.repo.history|
    ensures Reaches(w.repo.history, w.repo.refs[w.rows[id].branch], w.rows[id].baseSHA)
    ensures Own(w, id) == Work(w.repo.history, w.rows[id].baseSHA, w.repo.refs[w.rows[id].branch])
  {
  }

  /** Stacking and any such run after it: base..branch is exactly the container's own commits. */
  lemma OwnWorkIsWhatWasAuthored(s: Site, stack: Event, es: seq<SiteEvent>)
    requires Valid(s) && stack.Stack? && Possible(s.world, stack)
    ensures Valid(Next(s, Plain(stack))) && Settled(Next(s, Plain(stack)), stack.id)
    ensures var s1, id := Next(s, Plain(stack)), stack.id;
            NeverRewritten(es, stack.branch) && Prompt(s1, es, id) && InHand(Run(s1, es), id) == {} ==>
              Settled(Run(s1, es), id) && Own(Run(s1, es).world, id) == Authored(s1, es, id)
  {
    hide Run, Authored, Prompt;
    var s1, id := Next(s, Plain(stack)), stack.id;
    NextValid(s, Plain(stack));
    StackedOwnsNothing(s.world, stack);
    assert InHand(s1, id) == {};
    if NeverRewritten(es, stack.branch) && Prompt(s1, es, id) {
      RecordedBaseTheorem(s1, es, id);
      assert Own(s1.world, id) + Authored(s1, es, id) == Authored(s1, es, id);
    }
  }

  /** Along such a run no sync that reads the row then reports drift. */
  lemma NeverDrifts(s: Site, es: seq<SiteEvent>, id: string, o: SyncOptions, a: Answers)
    requires Valid(s) && Settled(s, id) && NeverRewritten(es, s.world.rows[id].branch) && Prompt(s, es, id)
    requires InHand(Run(s, es), id) == {}
    ensures id in Run(s, es).world.rows
    ensures Outcome(Run(s, es).world.repo, Run(s, es).world.rows[id].Target(), o, a) != Some(Drifted)
  {
    hide Run, Authored, Prompt;
    RecordedBaseTheorem(s, es, id);
  }

  /** Syncs of one process at a time that store what they rebase are prompt. */
  lemma {:induction false} UninterruptedIsPrompt(s: Site, es: seq<SiteEvent>, id: string)
    requires Valid(s) && Recorded(s, id) && InHand(s, id) == {}
    requires forall i :: 0 <= i < |es| ==> es[i].Plain? && (es[i].e.SyncOne? ==> es[i].e.turn.stored)
    ensures Prompt(s, es, id)
    decreases |es|
  {
    hide Recorded, InHand, Step, SyncSpec, Outcome;
    if es != [] {
      NextValid(s, es[0]);
      PromptStep(s, es[0], id);
      SameHands(s, es[0].e, id);
      UninterruptedIsPrompt(Next(s, es[0]), es[1..], id);
    }
  }

  lemma SameHands(s: Site, e: Event, id: string)
    requires s.world.Valid()
    ensures InHand(Next(s, Plain(e)), id) == InHand(s, id)
  {
    hide Step, SyncSpec, Outcome, Puts;
  }

  // ---- when the row is right ----

  /** The base a step writes to the container's row, if it writes one. */
  ghost function StoredBase(s: Site, se: SiteEvent, id: string): Option<CommitId>
    requires s.world.Valid() && id in s.world.rows
  {
    match se
    case Plain(e) =>
      if UsedBase(s, se, id).Some? && e.SyncOne? && e.turn.stored
      then Some(Tip(s.world.repo, s.world.rows[id].parentBranch)) else None
    case StoreResult(j, stored) => if j in InHand(s, id) && stored then Some(s.jobs[j].tip) else None
    case _ => None
  }

  /** The commit a step rebases the container onto, if it does. */
  ghost function PutBase(s: Site, se: SiteEvent, id: string): Option<CommitId>
    requires s.world.Valid() && id in s.world.rows
  {
    if UsedBase(s, se, id).Some? then Some(Tip(s.world.repo, s.world.rows[id].parentBranch)) else None
  }

  function OrElse(a: Option<CommitId>, b: CommitId): CommitId {
    match a case Some(x) => x case None => b
  }

  /** The last base stored along a run, or `b` if none is. */
  ghost function LastStored(s: Site, es: seq<SiteEvent>, id: string, b: CommitId): CommitId
    requires Valid(s) && id in s.world.rows
    decreases |es|
  {
    if es == [] then b
    else
      NextValid(s, es[0]);
      LastStored(Next(s, es[0]), es[1..], id, OrElse(StoredBase(s, es[0], id), b))
  }

  /** The commit of the last rebase along a run, or `b` if there is none. */
  ghost function LastPut(s: Site, es: seq<SiteEvent>, id: string, b: CommitId): CommitId
    requires Valid(s) && id in s.world.rows
    decreases |es|
  {
    if es == [] then b
    else
      NextValid(s, es[0]);
      LastPut(Next(s, es[0]), es[1..], id, OrElse(PutBase(s, es[0], id), b))
  }

  lemma StepStores(s: Site, se: SiteEvent, id: string)
    requires Valid(s) && id in s.world.rows
    ensures id in Next(s, se).world.rows
    ensures Next(s, se).world.rows[id].baseSHA == OrElse(StoredBase(s, se, id), s.world.rows[id].baseSHA)
  {
    hide SyncSpec, Outcome, Tip, Step;
    if se.Plain? {
      PlainKeepsBase(s.world, se.e, id);
    }
  }

  lemma StepPuts(s: Site, se: SiteEvent, id: string)
    requires Valid(s) && StandsOn(s, id) && !Rewrites(se, s.world.rows[id].branch)
    ensures Valid(Next(s, se)) && StandsOn(Next(s, se), id)
    ensures Next(s, se).onto[id] == OrElse(PutBase(s, se, id), s.onto[id])
  {
    hide Next, UsedBase;
    if UsedBase(s, se, id).None? {
      QuietStepKeepsWork(s, se, id);
      QuietStepKeepsTip(s, se, id);
    } else {
      RebaseEffect(s, se, id);
    }
  }

  // The row holds the last base stored, and the branch stands on the commit of the last rebase.
  lemma {:induction false} RowAndBranch(s: Site, es: seq<SiteEvent>, id: string)
    requires Valid(s) && StandsOn(s, id) && NeverRewritten(es, s.world.rows[id].branch)
    ensures StandsOn(Run(s, es), id)
    ensures Run(s, es).world.rows[id].baseSHA == LastStored(s, es, id, s.world.rows[id].baseSHA)
    ensures Run(s, es).onto[id] == LastPut(s, es, id, s.onto[id])
    decreases |es|
  {
    hide Next, UsedBase, StoredBase, PutBase, OrElse;
    if es != [] {
      assert !Rewrites(es[0], s.world.rows[id].branch);
      NextValid(s, es[0]);
      StepStores(s, es[0], id);
      StepPuts(s, es[0], id);
      RowAndBranch(Next(s, es[0]), es[1..], id);
    }
  }

  /**
   Exactly when the row is right. Over any run whatever, promptly stored or not, the range from the
   recorded base is what the branch holds above the commit it stands on if and only if the last base
   stored is the commit of the last rebase. If the rebases used current bases, it is then, and only
   then, what it held before followed by what the container committed.
   */
  lemma RecordedBaseIff(s: Site, es: seq<SiteEvent>, id: string)
    requires Valid(s) && Settled(s, id) && NeverRewritten(es, s.world.rows[id].branch)
    ensures var s', b := Run(s, es), s.world.rows[id].baseSHA;
            && StandsOn(s', id)
            && (Stands(s'.world, id) && Own(s'.world, id) == TrueWork(s', id)
                <==> LastStored(s, es, id, b) == LastPut(s, es, id, b))
            && (BasesCurrent(s, es, id) ==>
                  (Stands(s'.world, id) && Own(s'.world, id) == Own(s.world, id) + Authored(s, es, id)
                   <==> LastStored(s, es, id, b) == LastPut(s, es, id, b)))
  {
    hide Run, Authored, BasesCurrent, KeptThroughout, StandsOn, TrueWork, Own, Stands, LastStored, LastPut;
    var s', b := Run(s, es), s.world.rows[id].baseSHA;
    SettledWork(s, id);
    RowAndBranch(s, es, id);
    WorkFromRow(s', id);
    if BasesCurrent(s, es, id) {
      KeptThroughoutIff(s, es, id);
      KeptToTheEnd(s, es, id, TrueWork(s, id));
    }
  }

  // From two different ancestors of the branch the work differs.
  lemma WorkFromRow(s: Site, id: string)
    requires Valid(s) && StandsOn(s, id)
    ensures id in s.world.rows && id in s.onto
    ensures Stands(s.world, id) && Own(s.world, id) == TrueWork(s, id) <==> s.world.rows[id].baseSHA == s.onto[id]
  {
    hide Reaches, Work;
    var w := s.world;
    var t := w.rows[id].Target();
    if w.rows[id].baseSHA == s.onto[id] {
      assert t.(baseSHA := s.onto[id]) == t;
    }
    if Stands(w, id) {
      WorkDeterminesBase(w.repo.history, w.repo.refs[w.rows[id].branch], w.rows[id].baseSHA, s.onto[id]);
    }
  }

  // ---- an overlap ----

  // A success leaves everything a sync looks at as it was, but for the branch itself.
  lemma SyncsAgain(w: World, id: string, o: SyncOptions, a: Answers)
    requires w.Valid() && Stands(w, id)
    requires Outcome(w.repo, w.rows[id].Target(), o, a) == Some(Synced)
    requires Reaches(w.repo.history, Tip(w.repo, w.rows[id].parentBranch), w.rows[id].baseSHA)
    ensures var r' := SyncSpec(w.repo, w.rows[id].Target(), o, a);
            r'.Valid() && Outcome(r', w.rows[id].Target(), o, a) == Some(Synced)
  {
    UnrecordedSync(w, id, o, a);
    SyncKeepsBranches(w.repo, w.rows[id].Target(), o, a);
    hide Reaches, Own, OwnWork;
  }

  /**
   Two syncs that read the row before either stores, on a parent that has only advanced: both succeed,
   each under its own lease, and the container then owns what the parent gained.
   */
  lemma OverlappingSyncsSwallow(s: Site, i: nat, j: nat, id: string, o: SyncOptions, a: Answers)
    requires Valid(s) && Settled(s, id) && i != j && i in s.jobs && j in s.jobs
    requires s.jobs[i] == s.jobs[j] == HasRead(s.world.rows[id]) && s.world.rows[id].id == id
    requires Outcome(s.world.repo, s.world.rows[id].Target(), o, a) == Some(Synced)
    requires Reaches(s.world.repo.history, Tip(s.world.repo, s.world.rows[id].parentBranch), s.world.rows[id].baseSHA)
    ensures var s' := Run(s, [SyncUnderLease(i, o, false, a), StoreResult(i, true), SyncUnderLease(j, o, false, a)]);
            var c, h := s.world.rows[id], s.world.repo.history;
            && StandsOn(s', id)
            && TrueWork(s', id) == Work(h, c.baseSHA, Tip(s.world.repo, c.parentBranch)) + Own(s.world, id)
            && TrueWork(s', id) != Own(s.world, id)
  {
    var w, c := s.world, s.world.rows[id];
    var e1, e2, e3 := SyncUnderLease(i, o, false, a), StoreResult(i, true), SyncUnderLease(j, o, false, a);
    hide SyncSpec, Outcome, Next, Stands, Own, OwnWork, OnBase, Reaches, Work, StandsOn, TrueWork, Run;
    RunsThree(s, e1, e2, e3);
    FirstOfTwo(s, i, j, id, o, a);
    SyncsAgain(w, id, o, a);
    SecondOfTwo(Next(Next(s, e1), e2), w, j, id, o, a);
  }

  lemma FirstOfTwo(s: Site, i: nat, j: nat, id: string, o: SyncOptions, a: Answers)
    requires Valid(s) && i != j && i in s.jobs && j in s.jobs && id in s.world.rows
    requires s.jobs[i] == s.jobs[j] == HasRead(s.world.rows[id]) && s.world.rows[id].id == id
    requires Outcome(s.world.repo, s.world.rows[id].Target(), o, a) == Some(Synced)
    ensures var s1 := Next(s, SyncUnderLease(i, o, false, a));
            Valid(s1) && var s2 := Next(s1, StoreResult(i, true));
            && Valid(s2) && j in s2.jobs && s2.jobs[j] == HasRead(s.world.rows[id])
            && s2.world.repo == SyncSpec(s.world.repo, s.world.rows[id].Target(), o, a)
  {
    hide SyncSpec, Outcome, Next, Tip;
    AfterLease(s, i, o, Turn(false, a, true));
    var s1 := Next(s, SyncUnderLease(i, o, false, a));
    AfterStore(s1, i, true);
    NextValid(s1, StoreResult(i, true));
    if o.dryRun {
      SyncedIsReal(s.world.repo, s.world.rows[id].Target(), o, a);
    }
  }

  lemma SecondOfTwo(s: Site, was: World, j: nat, id: string, o: SyncOptions, a: Answers)
    requires Valid(s) && j in s.jobs && was.Valid() && Stands(was, id) && was.rows[id].id == id
    requires s.jobs[j] == HasRead(was.rows[id])
    requires Outcome(was.repo, was.rows[id].Target(), o, a) == Some(Synced)
    requires s.world.repo == SyncSpec(was.repo, was.rows[id].Target(), o, a)
    requires Outcome(s.world.repo, was.rows[id].Target(), o, a) == Some(Synced)
    requires Reaches(was.repo.history, Tip(was.repo, was.rows[id].parentBranch), was.rows[id].baseSHA)
    ensures var s', c, h := Next(s, SyncUnderLease(j, o, false, a)), was.rows[id], was.repo.history;
            && Valid(s') && StandsOn(s', id)
            && TrueWork(s', id) == Work(h, c.baseSHA, Tip(was.repo, c.parentBranch)) + Own(was, id)
            && TrueWork(s', id) != Own(was, id)
  {
    hide SyncSpec, Outcome, Next, OwnWork, OnBase, Reaches, Work, StandsOn, TrueWork;
    var c := was.rows[id];
    UnrecordedSync(was, id, o, a);
    SyncedMoves(was.repo, c.Target(), o, a);
    WorkAboveIsSome(was.repo.history, c.baseSHA, Tip(was.repo, c.parentBranch));
    assert s.world.rows[id].Target().(baseSHA := c.baseSHA) == c.Target();
    RebaseEffect(s, SyncUnderLease(j, o, false, a), id);
  }

  lemma RunsThree(s: Site, a: SiteEvent, b: SiteEvent, c: SiteEvent)
    requires Valid(s)
    ensures Valid(Next(s, a)) && Valid(Next(Next(s, a), b)) && Run(s, [a, b, c]) == Next(Next(Next(s, a), b), c)
  {
    hide Next;
    NextValid(s, a);
    var s1 := Next(s, a);
    NextValid(s1, b);
    var s2 := Next(s1, b);
    NextValid(s2, c);
    assert [a, b, c][1..] == [b, c] && [b, c][1..] == [c] && [c][1..] == [];
    assert Run(s2, [c]) == Run(Next(s2, c), []);
  }
}
