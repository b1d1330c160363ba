/**
 The recorded base, one event at a time: containers commit, sync, conflict and abort, while anybody
 moves every other branch in any way. Here a sync is one uninterrupted turn of the loop;
 `ConcurrentSyncs` takes it apart and has the theorem for whole runs.
 */
module RecordedBase {
  import opened Options
  import opened Commits
  import opened StackSync
  import opened Containers

  datatype World = World(repo: Repo, rows: map<string, Container>)
  {
    // The schema's promises: rows are keyed by id and one container owns one branch.
    ghost predicate Valid() {
      && repo.Valid()
      && (forall id :: id in rows ==> rows[id].id == id)
      && (forall a, b :: a in rows && b in rows && rows[a].branch == rows[b].branch ==> a == b)
    }
  }

  // What `aurium sync` meets at one container: whether somebody holds its lease, git's answers, and
  // whether the new base can be stored.
  datatype Turn = Turn(leaseHeld: bool, answers: Answers, stored: bool)

  /** What the loop writes to a row for an outcome; a success whose base cannot be stored writes nothing. */
  function StoredRow(row: Container, e: Eligibility, tip: CommitId, stored: bool): Container {
    match e
    case Synced => if stored then row.(baseSHA := tip, status := Running) else row
    case Conflict => row.(status := InConflict)
    case Drifted => row.(status := HasDrifted)
    case _ => row
  }

  // The parent's tip as a sync finds it.
  function Tip(r: Repo, parentBranch: Branch): CommitId {
    if parentBranch in r.refs then r.refs[parentBranch] else 0
  }

  /** One container's turn in the sync loop without interruption: the sync under its lease, then the row updates. */
  ghost function AfterTurn(w: World, c: Container, o: SyncOptions, t: Turn): World
    requires w.Valid()
  {
    if t.leaseHeld then w
    else
      var repo := SyncSpec(w.repo, c.Target(), o, t.answers);
      var e := Outcome(w.repo, c.Target(), o, t.answers);
      var rows :=
        if o.dryRun || e.None? || c.id !in w.rows then w.rows
        else w.rows[c.id := StoredRow(w.rows[c.id], e.value, Tip(w.repo, c.parentBranch), t.stored)];
      World(repo, rows)
  }

  /** The rebase succeeds and the new base is lost. */
  ghost predicate LosesBase(w: World, c: Container, o: SyncOptions, t: Turn)
    requires w.Valid()
  {
    !t.leaseHeld && !t.stored && Outcome(w.repo, c.Target(), o, t.answers) == Some(Synced)
  }

  datatype Event =
    // A container's agent commits on its branch.
    | CommitOn(id: string, patch: Patch)
    // Somebody stores commits and points a branch at one of them, or deletes the branch:
    // an advance, an amend, a reset, a force push.
    | MoveBranch(branch: Branch, stored: seq<Commit>, tip: Option<CommitId>)
    // A container is stacked on the tip of a branch that exists.
    | Stack(id: string, branch: Branch, parentId: string, parentBranch: Branch)
    // A sync of one container, whatever its options and whatever git answers.
    | SyncOne(id: string, options: SyncOptions, turn: Turn)
    // `git rebase --abort` in a container's worktree.
    | Abort(id: string)
    // Files are edited, or cleaned up, in a container's worktree.
    | Edit(id: string, isDirty: bool)

  // Whether an event is possible in a world; an impossible event changes nothing.
  ghost predicate Possible(w: World, e: Event)
    requires w.Valid()
  {
    match e
    case CommitOn(id, _) =>
      // While a rebase is stopped, HEAD is detached and a commit does not land on the branch.
      id in w.rows && w.rows[id].branch in w.repo.refs && w.rows[id].branch !in w.repo.rebasing
    case MoveBranch(_, stored, tip) =>
      var h := w.repo.history + stored;
      Acyclic(h) && (tip.Some? ==> tip.value < |h|)
    case Stack(id, branch, _, parentBranch) =>
      && id !in w.rows && branch !in w.repo.refs && branch !in w.repo.rebasing && parentBranch in w.repo.refs
      && forall x :: x in w.rows ==> w.rows[x].branch != branch
    case SyncOne(id, _, _) => id in w.rows
    case Abort(id) => id in w.rows
    case Edit(id, _) => id in w.rows
  }

  ghost function Step(w: World, e: Event): (w': World)
    requires w.Valid()
  {
    if !Possible(w, e) then w
    else match e
      case CommitOn(id, patch) =>
        var b := w.rows[id].branch;
        w.(repo := w.repo.(history := w.repo.history + [Commit(Some(w.repo.refs[b]), patch)],
                           refs := w.repo.refs[b := |w.repo.history|]))
      case MoveBranch(branch, stored, tip) =>
        w.(repo := w.repo.(history := w.repo.history + stored,
                           refs := if tip.Some? then w.repo.refs[branch := tip.value]
                                   else w.repo.refs - {branch}))
      case Stack(id, branch, parentId, parentBranch) =>
        var base := w.repo.refs[parentBranch];
        World(w.repo.(refs := w.repo.refs[branch := base]),
              w.rows[id := Container(id, branch, parentId, parentBranch, base, Running)])
      case SyncOne(id, options, turn) => AfterTurn(w, w.rows[id], options, turn)
      case Abort(id) => w.(repo := w.repo.(rebasing := w.repo.rebasing - {w.rows[id].branch}))
      case Edit(id, isDirty) =>
        w.(repo := w.repo.(dirty := if isDirty then w.repo.dirty + {w.rows[id].branch}
                                    else w.repo.dirty - {w.rows[id].branch}))
  }

  // ---- validity ----

  // The repository side of one sync: what it does to the synced branch and to every other.
  lemma SyncKeepsBranches(r: Repo, t: Target, o: SyncOptions, a: Answers)
    requires r.Valid()
    ensures var r' := SyncSpec(r, t, o, a);
            && r'.Valid() && r.history <= r'.history
            && (forall b :: b in r.refs && b != t.branch ==> b in r'.refs && r'.refs[b] == r.refs[b])
            && r'.refs.Keys == r.refs.Keys
            && (Outcome(r, t, o, a) != Some(Synced) ==> r'.refs == r.refs && r'.history == r.history)
    ensures Outcome(r, t, o, a) == Some(Synced) ==>
              && t.parentBranch in r.refs && OnBase(r, t) && t.branch !in r.rebasing
              && var t' := t.(baseSHA := r.refs[t.parentBranch]);
                 var r' := SyncSpec(r, t, o, a);
                 OnBase(r', t') && OwnWork(r', t') == OwnWork(r, t)
  {
    if Outcome(r, t, o, a) == Some(Synced) {
      ReplayLands(r.history, r.refs[t.parentBranch], OwnWork(r, t));
    }
  }

  // A turn updates one row at most, and never its id or its branches.
  lemma TurnRows(w: World, c: Container, o: SyncOptions, t: Turn)
    requires w.Valid()
    ensures var w' := AfterTurn(w, c, o, t);
            && w'.rows.Keys == w.rows.Keys
            && (forall x :: x in w.rows && x != c.id ==> w'.rows[x] == w.rows[x])
            && (forall x :: x in w.rows ==> w'.rows[x].id == w.rows[x].id
                                            && w'.rows[x].branch == w.rows[x].branch
                                            && w'.rows[x].parentBranch == w.rows[x].parentBranch)
  {
    hide SyncSpec, Outcome;
  }

  lemma TurnValid(w: World, c: Container, o: SyncOptions, t: Turn)
    requires w.Valid()
    ensures var w' := AfterTurn(w, c, o, t);
            && w'.Valid() && w'.rows.Keys == w.rows.Keys
            && (forall x :: x in w.rows && x != c.id ==> w'.rows[x] == w.rows[x])
            && (forall x :: x in w.rows ==> w'.rows[x].branch == w.rows[x].branch
                                            && w'.rows[x].parentBranch == w.rows[x].parentBranch)
  {
    hide SyncSpec, Outcome;
    SyncKeepsBranches(w.repo, c.Target(), o, t.answers);
    TurnRows(w, c, o, t);
    assert AfterTurn(w, c, o, t).repo in {w.repo, SyncSpec(w.repo, c.Target(), o, t.answers)};
    hide AfterTurn;
  }

  lemma TurnGrows(w: World, c: Container, o: SyncOptions, t: Turn)
    requires w.Valid()
    ensures w.repo.history <= AfterTurn(w, c, o, t).repo.history
  {
    hide SyncSpec, Outcome;
    SyncKeepsBranches(w.repo, c.Target(), o, t.answers);
  }

  lemma StepValid(w: World, e: Event)
    requires w.Valid()
    ensures Step(w, e).Valid()
    ensures w.repo.history <= Step(w, e).repo.history
  {
    hide AfterTurn, SyncSpec, Outcome;
    if Possible(w, e) && e.SyncOne? {
      TurnValid(w, w.rows[e.id], e.options, e.turn);
      TurnGrows(w, w.rows[e.id], e.options, e.turn);
    }
  }

  // The container exists, stands on its recorded base, and is not its own parent.
  ghost predicate Stands(w: World, id: string)
    requires w.Valid()
  {
    && id in w.rows
    && w.rows[id].branch != w.rows[id].parentBranch
    && OnBase(w.repo, w.rows[id].Target())
  }

  ghost function Own(w: World, id: string): seq<Patch>
    requires w.Valid() && Stands(w, id)
  {
    OwnWork(w.repo, w.rows[id].Target())
  }

  // ---- one step ----

  // A branch that is neither moved nor orphaned holds the same work in a longer history.
  lemma WorkCarries(r: Repo, r': Repo, t: Target)
    requires r.Valid() && r'.Valid() && r.history <= r'.history && OnBase(r, t)
    requires t.branch in r'.refs && r'.refs[t.branch] == r.refs[t.branch]
    ensures OnBase(r', t) && OwnWork(r', t) == OwnWork(r, t)
  {
    ReachesStable(r.history, r'.history, r.refs[t.branch], t.baseSHA);
    WorkStable(r.history, r'.history, t.baseSHA, r.refs[t.branch]);
  }

  /**
   What recording the base is worth. If the rebase succeeds but the new base is never stored (a crash,
   or a failed update), the container still stands on its old base exactly when the parent's tip
   contains that base. Then its range has swallowed what the parent gained; otherwise it has drifted.
   */
  lemma UnrecordedSync(w: World, id: string, o: SyncOptions, a: Answers)
    requires w.Valid() && Stands(w, id)
    requires Outcome(w.repo, w.rows[id].Target(), o, a) == Some(Synced)
    ensures var c, h := w.rows[id], w.repo.history;
            var w' := World(SyncSpec(w.repo, c.Target(), o, a), w.rows);
            && w'.Valid() && c.parentBranch in w.repo.refs
            && (Stands(w', id) <==> Reaches(h, w.repo.refs[c.parentBranch], c.baseSHA))
            && (Stands(w', id) ==> Own(w', id) == Work(h, c.baseSHA, w.repo.refs[c.parentBranch]) + Own(w, id))
  {
    SyncKeepsBranches(w.repo, w.rows[id].Target(), o, a);
    var c := w.rows[id];
    ReplayFromBelow(w.repo.history, w.repo.refs[c.parentBranch], Own(w, id), c.baseSHA);
  }

  lemma UnrecordedNeverKeeps(w: World, id: string, o: SyncOptions, a: Answers)
    requires w.Valid() && Stands(w, id)
    requires Outcome(w.repo, w.rows[id].Target(), o, a) == Some(Synced)
    ensures var w' := World(SyncSpec(w.repo, w.rows[id].Target(), o, a), w.rows);
            w'.Valid() && !(Stands(w', id) && Own(w', id) == Own(w, id))
  {
    var c := w.rows[id];
    hide SyncSpec, Own, Stands;
    UnrecordedSync(w, id, o, a);
    SyncedMoves(w.repo, c.Target(), o, a);
    if Reaches(w.repo.history, w.repo.refs[c.parentBranch], c.baseSHA) {
      WorkAboveIsSome(w.repo.history, c.baseSHA, w.repo.refs[c.parentBranch]);
    }
  }

  lemma SyncedMoves(r: Repo, t: Target, o: SyncOptions, a: Answers)
    requires r.Valid() && Outcome(r, t, o, a) == Some(Synced)
    ensures t.parentBranch in r.refs && r.refs[t.parentBranch] != t.baseSHA && t.baseSHA < |r.history|
  {
  }

  // Any turn but a lost success keeps the container on its base with the same own work.
  lemma StoredTurnKeepsWork(w: World, c: Container, o: SyncOptions, t: Turn, id: string)
    requires w.Valid() && Stands(w, id) && c.id in w.rows && w.rows[c.id] == c
    requires c.id == id ==> !LosesBase(w, c, o, t)
    ensures AfterTurn(w, c, o, t).Valid()
    ensures Stands(AfterTurn(w, c, o, t), id)
    ensures Own(AfterTurn(w, c, o, t), id) == Own(w, id)
  {
    TurnValid(w, c, o, t);
    SyncKeepsBranches(w.repo, c.Target(), o, t.answers);
    var w', x := AfterTurn(w, c, o, t), w.rows[id];
    if t.leaseHeld {
    } else if c.id == id && Outcome(w.repo, c.Target(), o, t.answers) == Some(Synced) {
      assert w'.rows[id].Target() == x.Target().(baseSHA := w.repo.refs[c.parentBranch]);
    } else {
      assert w'.rows[id].Target() == x.Target();
      WorkCarries(w.repo, w'.repo, x.Target());
    }
  }

  /**
   A turn of any container, whatever it meets, keeps every container on its base with the same own work,
   except exactly the container whose rebase succeeded and whose new base was lost.
   */
  lemma TurnKeepsWork(w: World, c: Container, o: SyncOptions, t: Turn, id: string)
    requires w.Valid() && Stands(w, id)
    requires c.id in w.rows && w.rows[c.id] == c
    ensures AfterTurn(w, c, o, t).Valid()
    ensures Stands(AfterTurn(w, c, o, t), id) && Own(AfterTurn(w, c, o, t), id) == Own(w, id)
            <==> !(c.id == id && LosesBase(w, c, o, t))
  {
    hide Stands, Own, AfterTurn, LosesBase;
    TurnValid(w, c, o, t);
    if c.id == id && LosesBase(w, c, o, t) {
      LostTurnIs(w, c, o, t);
      UnrecordedNeverKeeps(w, id, o, t.answers);
    } else {
      StoredTurnKeepsWork(w, c, o, t, id);
    }
  }

  lemma LostTurnIs(w: World, c: Container, o: SyncOptions, t: Turn)
    requires w.Valid() && c.id in w.rows && LosesBase(w, c, o, t)
    ensures Outcome(w.repo, c.Target(), o, t.answers) == Some(Synced)
    ensures AfterTurn(w, c, o, t) == World(SyncSpec(w.repo, c.Target(), o, t.answers), w.rows)
  {
    hide SyncSpec, Outcome;
    assert w.rows[c.id := w.rows[c.id]] == w.rows;
  }

  /** A container stacked just now owns nothing yet, so the theorem starts from empty work. */
  lemma StackedOwnsNothing(w: World, e: Event)
    requires w.Valid() && e.Stack? && Possible(w, e)
    ensures Stands(Step(w, e), e.id) && Own(Step(w, e), e.id) == []
  {
  }

  /** A successful sync advances the base to the parent's tip; the next one has nothing to do. */
  lemma SyncedThenUpToDate(w: World, id: string, o: SyncOptions, t: Turn)
    requires w.Valid() && Stands(w, id)
    requires !t.leaseHeld && t.stored && Outcome(w.repo, w.rows[id].Target(), o, t.answers) == Some(Synced)
    ensures var w' := Step(w, SyncOne(id, o, t));
            && w'.Valid()
            && w'.rows[id].baseSHA == w.repo.refs[w.rows[id].parentBranch]
            && Reaches(w'.repo.history, w'.repo.refs[w.rows[id].branch], w'.rows[id].baseSHA)
            && Classify(w'.repo, w'.rows[id].Target()) == UpToDate
  {
    SyncKeepsBranches(w.repo, w.rows[id].Target(), o, t.answers);
    TurnValid(w, w.rows[id], o, t);
  }

  /** A sync that does not end in Synced moves no branch, stores no commit and keeps every base. */
  lemma RefusedSyncMovesNothing(w: World, id: string, o: SyncOptions, t: Turn)
    requires w.Valid() && id in w.rows
    requires t.leaseHeld || Outcome(w.repo, w.rows[id].Target(), o, t.answers) != Some(Synced)
    ensures var w' := Step(w, SyncOne(id, o, t));
            && w'.repo.history == w.repo.history && w'.repo.refs == w.repo.refs
            && w'.rows.Keys == w.rows.Keys
            && forall x :: x in w.rows ==> w'.rows[x].baseSHA == w.rows[x].baseSHA
  {
  }

  /**
   Why the base is recorded. A plain `git rebase parent` would replay parent..branch instead;
   that range takes in the inherited commit the container was built on exactly when the parent
   no longer contains it, which is what an amended or rebased parent looks like.
   */
  lemma NaiveRangeReplaysInherited(w: World, id: string)
    requires w.Valid() && Stands(w, id) && w.rows[id].parentBranch in w.repo.refs
    ensures var c, h, refs := w.rows[id], w.repo.history, w.repo.refs;
            && (c.baseSHA in Range(h, refs[c.parentBranch], refs[c.branch])
                <==> !Reaches(h, refs[c.parentBranch], c.baseSHA))
            && c.baseSHA !in Range(h, c.baseSHA, refs[c.branch])
  {
    var c, h, refs := w.rows[id], w.repo.history, w.repo.refs;
    RangeIsExact(h, refs[c.parentBranch], refs[c.branch], c.baseSHA);
    RangeIsExact(h, c.baseSHA, refs[c.branch], c.baseSHA);
  }
}
