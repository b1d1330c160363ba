/**
 `internal/stack/sync.go`: what a sync checks, and the rebase onto the recorded base.

 `Repo` is the state git keeps; `Classify` and `SyncSpec` say what one examination and one
 sync do to it. `Git` is the mutable repository the two methods of the source run against.
 */
module StackSync {
  import opened Options
  import opened Commits

  type Branch = string

  /**
   One repository with its linked worktrees. A branch has one worktree, so the two worktree
   facts a sync looks at are kept per branch: a half-finished rebase, and uncommitted changes.
   */
  datatype Repo = Repo(history: seq<Commit>, refs: map<Branch, CommitId>,
                       rebasing: set<Branch>, dirty: set<Branch>)
  {
    ghost predicate Valid() {
      Acyclic(history) && forall b :: b in refs ==> refs[b] < |history|
    }
  }

  datatype Eligibility =
    | Unset | Eligible | Synced | UpToDate | Dirty | Drifted | Conflict | InProgress | MissingParent

  datatype Target = Target(branch: Branch, parentBranch: Branch, baseSHA: CommitId)

  datatype SyncOptions = SyncOptions(dryRun: bool, autostash: bool, abortOnConflict: bool, force: bool)

  datatype Result = Result(eligibility: Eligibility, newBaseSHA: Option<CommitId>,
                           parentTip: Option<CommitId>, replayed: nat, behind: nat)

  const BLANK := Result(Unset, None, None, 0, 0)

  // How the rebase itself ends: git decides, so every run may meet every ending.
  datatype RebaseEnding = Applies | Conflicts | Fails

  // What git answers during one sync: whether `git status` works, and how the rebase ends.
  datatype Answers = Answers(statusOk: bool, rebase: RebaseEnding)

  // ---- specification ----

  ghost predicate OnBase(r: Repo, t: Target)
    requires r.Valid()
  {
    t.branch in r.refs && t.baseSHA < |r.history| && Reaches(r.history, r.refs[t.branch], t.baseSHA)
  }

  /** The first condition that holds decides; the order is the order of the checks. */
  ghost function Classify(r: Repo, t: Target): Eligibility
    requires r.Valid()
  {
    if t.branch in r.rebasing then InProgress
    else if t.parentBranch !in r.refs then MissingParent
    else if !OnBase(r, t) then Drifted
    else if r.refs[t.parentBranch] == t.baseSHA then UpToDate
    else if t.branch in r.dirty then Dirty
    else Eligible
  }

  /** Whether a sync gets as far as running `git rebase`. */
  ghost predicate RunsRebase(r: Repo, t: Target, o: SyncOptions)
    requires r.Valid()
  {
    && !o.dryRun
    && (Classify(r, t) == Eligible || (Classify(r, t) == Dirty && (o.autostash || o.force)))
  }

  /** The child's own patches: those between the recorded base and its tip. */
  ghost function OwnWork(r: Repo, t: Target): seq<Patch>
    requires r.Valid() && OnBase(r, t)
  {
    Work(r.history, t.baseSHA, r.refs[t.branch])
  }

  /** The repository after a sync. */
  ghost function SyncSpec(r: Repo, t: Target, o: SyncOptions, a: Answers): Repo
    requires r.Valid()
  {
    if !RunsRebase(r, t, o) || !a.statusOk then r
    else match a.rebase
      case Applies =>
        var (h, tip) := Replay(r.history, r.refs[t.parentBranch], OwnWork(r, t));
        r.(history := h, refs := r.refs[t.branch := tip])
      case Conflicts => if o.abortOnConflict then r else r.(rebasing := r.rebasing + {t.branch})
      case Fails => r
  }

  /** The eligibility a sync reports; `None` when it returns an error instead. */
  ghost function Outcome(r: Repo, t: Target, o: SyncOptions, a: Answers): Option<Eligibility>
    requires r.Valid()
  {
    var c := Classify(r, t);
    if c in {Dirty, Eligible} && !a.statusOk then None
    else if c == Dirty && o.dryRun && (o.autostash || o.force) then Some(Eligible)
    else if !RunsRebase(r, t, o) then Some(c)
    else match a.rebase
      case Applies => Some(Synced)
      case Conflicts => Some(Conflict)
      case Fails => None
  }

  // ---- the code ----

  /** The repository a sync runs git in. */
  class Git {
    var history: seq<Commit>
    var refs: map<Branch, CommitId>
    var rebasing: set<Branch>
    var dirty: set<Branch>

    ghost function State(): Repo
      reads this
    {
      Repo(history, refs, rebasing, dirty)
    }

    constructor (r: Repo)
      ensures State() == r
    {
      history, refs, rebasing, dirty := r.history, r.refs, r.rebasing, r.dirty;
    }

    /** `git rebase [--autostash] --onto parentTip base branch`, ending as `ending` says. */
    method Rebase(onto: CommitId, base: CommitId, branch: Branch, ending: RebaseEnding)
      requires State().Valid() && branch in refs && onto < |history| && base < |history|
      modifies this
      ensures ending == Applies ==>
                var (h, tip) := Replay(old(history), onto, Work(old(history), base, old(refs)[branch]));
                State() == old(State()).(history := h, refs := old(refs)[branch := tip])
      ensures ending == Conflicts ==> State() == old(State()).(rebasing := old(rebasing) + {branch})
      ensures ending == Fails ==> State() == old(State())
      ensures State().Valid()
    {
      match ending
      case Applies =>
        var (h, tip) := Replay(history, onto, Work(history, base, refs[branch]));
        history, refs := h, refs[branch := tip];
      case Conflicts =>
        rebasing := rebasing + {branch};
      case Fails =>
    }

    method RebaseAbort(branch: Branch)
      modifies this`rebasing
      ensures rebasing == old(rebasing) - {branch}
    {
      rebasing := rebasing - {branch};
    }
  }

  /** Examines a container and changes nothing. `err` means `git status` could not run. */
  method CheckEligibility(g: Git, t: Target, statusOk: bool) returns (res: Result, err: bool)
    requires g.State().Valid()
    ensures err <==> Classify(g.State(), t) in {Dirty, Eligible} && !statusOk
    ensures !err ==> res.eligibility == Classify(g.State(), t)
    ensures !err ==>
              (res.eligibility ==
                 if t.branch in g.rebasing then InProgress
                 else if t.parentBranch !in g.refs then MissingParent
                 else if t.branch !in g.refs || t.baseSHA >= |g.history|
                         || !Reaches(g.history, g.refs[t.branch], t.baseSHA) then Drifted
                 else if g.refs[t.parentBranch] == t.baseSHA then UpToDate
                 else if t.branch in g.dirty then Dirty
                 else Eligible)
    ensures res.eligibility !in {InProgress, MissingParent} ==>
              t.parentBranch in g.refs && res.parentTip == Some(g.refs[t.parentBranch])
    ensures res.newBaseSHA == if res.eligibility == UpToDate then Some(t.baseSHA) else None
    ensures res.eligibility == Eligible ==> res.behind == |Range(g.history, t.baseSHA, g.refs[t.parentBranch])|
    ensures res.replayed == 0
  {
    res, err := BLANK, false;
    if t.branch in g.rebasing {
      res := res.(eligibility := InProgress);
      return;
    }
    if t.parentBranch !in g.refs {
      res := res.(eligibility := MissingParent);
      return;
    }
    var parentTip := g.refs[t.parentBranch];
    res := res.(parentTip := Some(parentTip));
    if t.baseSHA >= |g.history| || t.branch !in g.refs || !Reaches(g.history, g.refs[t.branch], t.baseSHA) {
      res := res.(eligibility := Drifted);
      return;
    }
    if parentTip == t.baseSHA {
      res := res.(eligibility := UpToDate, newBaseSHA := Some(t.baseSHA));
      return;
    }
    if !statusOk {
      err := true;
      return;
    }
    if t.branch in g.dirty {
      res := res.(eligibility := Dirty);
      return;
    }
    res := res.(eligibility := Eligible);
    res := res.(behind := |Range(g.history, t.baseSHA, parentTip)|);
  }

  /** Brings a child up to date with its parent. */
  method Sync(g: Git, t: Target, o: SyncOptions, a: Answers) returns (res: Result, err: bool)
    requires g.State().Valid()
    modifies g
    ensures g.State().Valid()
    ensures g.State() == SyncSpec(old(g.State()), t, o, a)
    ensures err <==> Outcome(old(g.State()), t, o, a).None?
    ensures !err ==> Some(res.eligibility) == Outcome(old(g.State()), t, o, a)
    ensures !err && res.eligibility == Synced ==>
              && t.parentBranch in old(g.refs)
              && res.newBaseSHA == Some(old(g.refs)[t.parentBranch])
              && OnBase(old(g.State()), t)
              && res.replayed == |OwnWork(old(g.State()), t)|
    ensures !err && res.eligibility == UpToDate ==> res.newBaseSHA == Some(t.baseSHA)
    ensures !err && res.eligibility !in {Synced, UpToDate} ==> res.newBaseSHA == None
    ensures !err && res.eligibility == Conflict ==>
              OnBase(old(g.State()), t) && res.replayed == |OwnWork(old(g.State()), t)|
    // How far it gets: nothing stopped, the branch on its base and the parent elsewhere; and then whether it
    // rebases, a dirty worktree only with leave.
    ensures var onBase :=
              && t.branch in old(g.refs) && t.baseSHA < |old(g.history)|
              && Reaches(old(g.history), old(g.refs)[t.branch], t.baseSHA);
            var behind :=
              && t.branch !in old(g.rebasing) && t.parentBranch in old(g.refs) && onBase
              && old(g.refs)[t.parentBranch] != t.baseSHA;
            var mayRebase := t.branch in old(g.dirty) ==> o.autostash || o.force;
            var rebases := behind && a.statusOk && mayRebase && !o.dryRun;
            && (err <==> (behind && !a.statusOk) || (rebases && a.rebase == Fails))
            && (!rebases || a.rebase == Fails ==> g.State() == old(g.State()))
            && (!rebases && !err ==>
                  (res.eligibility ==
                     if t.branch in old(g.rebasing) then InProgress
                     else if t.parentBranch !in old(g.refs) then MissingParent
                     else if !onBase then Drifted
                     else if !behind then UpToDate
                     else if mayRebase then Eligible
                     else Dirty))
            && (rebases && a.rebase == Conflicts ==>
                  && res.eligibility == Conflict
                  && g.history == old(g.history) && g.refs == old(g.refs) && g.dirty == old(g.dirty)
                  && g.rebasing == if o.abortOnConflict then old(g.rebasing) else old(g.rebasing) + {t.branch})
            && (rebases && a.rebase == Applies ==>
                  && res.eligibility == Synced
                  && g.rebasing == old(g.rebasing) && g.dirty == old(g.dirty) && old(g.history) <= g.history
                  && t.branch in g.refs && g.refs == old(g.refs)[t.branch := g.refs[t.branch]]
                  && Reaches(g.history, g.refs[t.branch], old(g.refs)[t.parentBranch])
                  && Work(g.history, old(g.refs)[t.parentBranch], g.refs[t.branch])
                     == Work(old(g.history), t.baseSHA, old(g.refs)[t.branch]))
    ensures t.branch in old(g.dirty) && !o.autostash && !o.force ==>
              g.State() == old(g.State())
              && (!err ==> res.eligibility in {InProgress, MissingParent, Drifted, UpToDate, Dirty})
  {
    hide Reaches, Work, Range, Replay;
    res, err := CheckEligibility(g, t, a.statusOk);
    if err {
      return;
    }
    ghost var picks := if OnBase(g.State(), t) then OwnWork(g.State(), t) else [];
    if t.parentBranch in g.refs {
      ReplayLands(g.history, g.refs[t.parentBranch], picks);
    }
    match res.eligibility {
      case UpToDate => return;
      case Drifted => return;
      case MissingParent => return;
      case InProgress => return;
      case Dirty =>
        if !o.autostash && !o.force {
          return;
        }
      case _ =>
    }
    if o.dryRun {
      res := res.(eligibility := Eligible);
      return;
    }
    WorkIsRange(g.history, t.baseSHA, g.refs[t.branch]);
    res := res.(replayed := |Range(g.history, t.baseSHA, g.refs[t.branch])|);
    g.Rebase(res.parentTip.value, t.baseSHA, t.branch, a.rebase);
    match a.rebase {
      case Fails =>
        err := true;
      case Conflicts =>
        res := res.(eligibility := Conflict);
        if o.abortOnConflict {
          g.RebaseAbort(t.branch);
          assert g.rebasing == old(g.rebasing);
        }
      case Applies =>
        res := res.(eligibility := Synced, newBaseSHA := res.parentTip);
    }
  }
}
