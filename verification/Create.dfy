/**
 `internal/runtime/manager.go` `Create`, with the worktree operations of `internal/gitx/worktree.go`:
 a sequence of external effects, any of which may fail, each with a compensation that is run in
 reverse order. Compensations may fail too; the source ignores their errors.
 */
module Create {
  import opened Options

  datatype Status = Creating | Running

  datatype Row = Row(branch: string, slug: string, parentBranch: string, base: string, head: string,
                     runtime: string, status: Status)

  datatype Event = ContainerCreated(container: string) | AgentStarted(container: string, agent: string)

  /**
   What a create touches. `branches` maps to tips, `worktrees` slugs to branches, `runtimes` to
   whether they are running, `agents` to their container. The first five are what a rollback is for.
   */
  datatype World = World(branches: map<string, string>, worktrees: map<string, string>, rows: map<string, Row>,
                         agents: map<string, string>, runtimes: map<string, bool>,
                         networks: set<string>, homes: set<string>, events: seq<Event>)
  {
    ghost predicate SameCore(w: World) {
      && branches == w.branches && worktrees == w.worktrees && rows == w.rows
      && agents == w.agents && runtimes == w.runtimes
    }

    ghost predicate SameSurroundings(w: World) {
      networks == w.networks && homes == w.homes && events == w.events
    }

    // Agents belong to containers that exist (a foreign key).
    ghost predicate Valid() {
      forall a :: a in agents ==> agents[a] in rows
    }
  }

  /** The steps of Create that may fail, in order. */
  datatype Stage =
    | Driver | Available | Adapter | StartRef | Hooks | Exclude
    | Worktree
    | Insert
    | Home | Spec | Network | RuntimeCreate
    | Start | Ports | SetRuntime | Prepare | PostCreate | MarkRunning | Announce
    | AgentInsert | AgentSession | AgentStatus | AgentAnnounce

  datatype Undo =
    | UndoWorktree(slug: string, branch: string)
    | UndoRow(id: string)
    | UndoRuntime(id: string)

  // The single actions a compensation consists of.
  datatype Cleanup = RemoveWorktree | DeleteRef | DeleteRow | DestroyRuntime

  datatype Opts = Opts(branch: string, slug: string, parentBranch: string, startRef: string,
                       network: string, home: string, noAgent: bool)

  /**
   What the outside world does during one create: the stages that break, whether git has made the branch
   when the worktree breaks, the cleanups that would fail, the ids it hands out, and where a hook leaves
   the new branch.
   */
  datatype Env = Env(broken: set<Stage>, branchMade: bool, stuck: set<Cleanup>, rowId: string, runtimeId: string,
                     agentId: string, hookTip: string)

  /** `undone` lists the compensations in the order they were run. */
  datatype Outcome = Created(id: string) | Failed(stage: Stage, undone: seq<Undo>)

  // ---- slugs ----

  predicate Safe(c: char) {
    'a' <= c <= 'z' || 'A' <= c <= 'Z' || '0' <= c <= '9' || c in "._-"
  }

  // A run of unsafe characters becomes one dash.
  function Dashed(s: string): (r: string)
    ensures |r| <= |s| && forall c :: c in r ==> Safe(c)
    decreases |s|
  {
    if s == "" then ""
    else if Safe(s[0]) then [s[0]] + Dashed(s[1..])
    else "-" + Dashed(SkipUnsafe(s))
  }

  function SkipUnsafe(s: string): (r: string)
    ensures |r| <= |s| && (s != "" && !Safe(s[0]) ==> |r| < |s|)
  {
    if s == "" || Safe(s[0]) then s else SkipUnsafe(s[1..])
  }

  predicate Edge(c: char) {
    c in "-."
  }

  function TrimLeft(s: string): (r: string)
    ensures |r| <= |s| && r == s[|s| - |r|..] && (r != "" ==> !Edge(r[0]))
  {
    if s != "" && Edge(s[0]) then TrimLeft(s[1..]) else s
  }

  function TrimRight(s: string): (r: string)
    ensures r <= s && (r != "" ==> !Edge(r[|r| - 1]))
  {
    if s != "" && Edge(s[|s| - 1]) then TrimRight(s[..|s| - 1]) else s
  }

  function OrContainer(s: string): (t: string)
    requires (forall c :: c in s ==> Safe(c)) && (s != "" ==> !Edge(s[0]) && !Edge(s[|s| - 1]))
    ensures t != "" && !Edge(t[0]) && !Edge(t[|t| - 1]) && forall c :: c in t ==> Safe(c)
  {
    if s == "" then "container" else s
  }

  /** A branch name as a file and container name: safe characters, at least one and at most 60. */
  function Slugify(branch: string): (slug: string)
    ensures 0 < |slug| <= 60 && slug[0] !in "-." && (|slug| < 60 ==> slug[|slug| - 1] !in "-.")
    ensures forall c :: c in slug ==> Safe(c)
  {
    var t := OrContainer(TrimRight(TrimLeft(Dashed(branch))));
    if |t| > 60 then t[..60] else t
  }

  function WithDefaults(o: Opts): Opts {
    if o.slug == "" then o.(slug := Slugify(o.branch)) else o
  }

  lemma {:induction false} SkipReachesSafe(x: string, rest: string)
    requires x != "" && Safe(x[|x| - 1])
    ensures SkipUnsafe(x + rest) == SkipUnsafe(x) + rest
    ensures SkipUnsafe(x) != "" && Safe(SkipUnsafe(x)[|SkipUnsafe(x)| - 1])
    decreases |x|
  {
    assert (x + rest)[1..] == x[1..] + rest;
    if !Safe(x[0]) {
      SkipReachesSafe(x[1..], rest);
    }
  }

  // What follows a safe character is dashed on its own.
  lemma {:induction false} DashedSplits(x: string, rest: string)
    requires x != "" && Safe(x[|x| - 1])
    ensures Dashed(x + rest) == Dashed(x) + Dashed(rest)
    decreases |x|
  {
    assert (x + rest)[1..] == x[1..] + rest;
    if Safe(x[0]) {
      if |x| == 1 {
        assert x[1..] + rest == rest && x[1..] == "";
      } else {
        DashedSplits(x[1..], rest);
      }
    } else {
      SkipReachesSafe(x, rest);
      DashedSplits(SkipUnsafe(x), rest);
    }
  }

  /** Slugs collide: a run of characters a slug cannot keep, however long, and one dash give the same one. */
  lemma SlugsCollide(x: string, run: string, y: string)
    requires x != "" && Safe(x[|x| - 1]) && y != "" && Safe(y[0])
    requires run != "" && forall c :: c in run ==> !Safe(c)
    ensures Slugify(x + run + y) == Slugify(x + "-" + y)
    ensures x + run + y != x + "-" + y
  {
    hide Slugify, Dashed, SkipUnsafe;
    DashedSplits(x, run + y);
    DashedSplits(x, "-" + y);
    OneDash(run, y);
    DashedDash(y);
    assert x + (run + y) == x + run + y && x + ("-" + y) == x + "-" + y;
    assert run[0] in run;
    assert (x + run + y)[|x|] == run[0] && (x + "-" + y)[|x|] == '-';
    SlugOfDashed(x + run + y, x + "-" + y);
  }

  lemma OneDash(run: string, y: string)
    requires y != "" && Safe(y[0]) && run != "" && forall c :: c in run ==> !Safe(c)
    ensures Dashed(run + y) == "-" + Dashed(y)
  {
    SkipRun(run, y);
    assert run[0] in run && (run + y)[0] == run[0];
  }

  lemma {:induction false} SkipRun(run: string, y: string)
    requires y != "" && Safe(y[0]) && forall c :: c in run ==> !Safe(c)
    ensures SkipUnsafe(run + y) == y
  {
    if run == "" {
      assert run + y == y;
    } else {
      assert run[0] in run && forall c :: c in run[1..] ==> c in run;
      assert (run + y)[1..] == run[1..] + y;
      SkipRun(run[1..], y);
    }
  }

  lemma DashedDash(y: string)
    ensures Dashed("-" + y) == "-" + Dashed(y)
  {
    assert ("-" + y)[1..] == y;
  }

  lemma {:induction false} AllTrimmed(s: string)
    requires forall c :: c in s ==> c in "-."
    ensures TrimLeft(s) == ""
  {
    if s != "" {
      assert s[0] in s && forall c :: c in s[1..] ==> c in s;
      AllTrimmed(s[1..]);
    }
  }

  lemma {:induction false} DashedOfUnusable(s: string)
    requires forall c :: c in s ==> !Safe(c) || c in "-."
    ensures forall c :: c in Dashed(s) ==> c in "-."
    decreases |s|
  {
    if s != "" {
      assert s[0] in s;
      SkipIsSuffix(s);
      DashedOfUnusable(if Safe(s[0]) then s[1..] else SkipUnsafe(s));
    }
  }

  lemma {:induction false} SkipIsSuffix(s: string)
    ensures forall c :: c in SkipUnsafe(s) ==> c in s
  {
    if s != "" {
      SkipIsSuffix(s[1..]);
    }
  }

  /** A name with nothing to keep, only dashes, dots and characters a slug cannot have, is called `container`. */
  lemma NothingToKeep(s: string)
    requires forall c :: c in s ==> !('a' <= c <= 'z' || 'A' <= c <= 'Z' || '0' <= c <= '9' || c == '_')
    ensures Slugify(s) == "container"
  {
    DashedOfUnusable(s);
    AllTrimmed(Dashed(s));
  }

  lemma SlugOfDashed(a: string, b: string)
    requires Dashed(a) == Dashed(b)
    ensures Slugify(a) == Slugify(b)
  {
  }

  /** A name that is a slug already is its own slug. */
  lemma SafeNamesAreSlugs(s: string)
    requires 0 < |s| <= 60 && s[0] !in "-." && s[|s| - 1] !in "-."
    ensures Slugify(s) == s <==>
            forall c :: c in s ==> 'a' <= c <= 'z' || 'A' <= c <= 'Z' || '0' <= c <= '9' || c in "._-"
  {
    if forall c :: c in s ==> Safe(c) {
      DashedKeepsSafe(s);
    }
  }

  lemma {:induction false} DashedKeepsSafe(s: string)
    requires forall c :: c in s ==> Safe(c)
    ensures Dashed(s) == s
  {
    if s != "" {
      assert forall c :: c in s[1..] ==> c in s;
      DashedKeepsSafe(s[1..]);
    }
  }

  // ---- compensation ----

  function WithoutAgentsOf(agents: map<string, string>, id: string): map<string, string> {
    map a | a in agents && agents[a] != id :: agents[a]
  }

  ghost function Apply(w: World, u: Undo, stuck: set<Cleanup>): World {
    match u
    case UndoWorktree(slug, branch) =>
      w.(worktrees := if RemoveWorktree in stuck then w.worktrees else w.worktrees - {slug},
         branches := if DeleteRef in stuck then w.branches else w.branches - {branch})
    case UndoRow(id) =>
      // Deleting a container deletes its agents with it.
      if DeleteRow in stuck then w
      else w.(rows := w.rows - {id}, agents := WithoutAgentsOf(w.agents, id))
    case UndoRuntime(id) =>
      if DestroyRuntime in stuck then w else w.(runtimes := w.runtimes - {id})
  }

  /** Runs the compensations from the last to the first. */
  ghost function Unwind(w: World, undo: seq<Undo>, stuck: set<Cleanup>): World
    decreases |undo|
  {
    if undo == [] then w else Unwind(Apply(w, undo[|undo| - 1], stuck), undo[..|undo| - 1], stuck)
  }

  ghost function Backwards(undo: seq<Undo>): seq<Undo> {
    if undo == [] then [] else [undo[|undo| - 1]] + Backwards(undo[..|undo| - 1])
  }

  /** What has been acquired, oldest first, when `stage` fails. */
  ghost function Acquired(stage: Stage, o: Opts, env: Env): seq<Undo> {
    match stage
    case Driver | Available | Adapter | StartRef | Hooks | Exclude | Worktree => []
    case Insert => [UndoWorktree(o.slug, o.branch)]
    case Home | Spec | Network | RuntimeCreate => [UndoWorktree(o.slug, o.branch), UndoRow(env.rowId)]
    case _ => [UndoWorktree(o.slug, o.branch), UndoRow(env.rowId), UndoRuntime(env.runtimeId)]
  }

  /** The cleanups that a failure at `stage` relies on. */
  ghost function Relied(stage: Stage): set<Cleanup> {
    match stage
    case Driver | Available | Adapter | StartRef | Hooks | Exclude | Worktree => {}
    case Insert => {RemoveWorktree, DeleteRef}
    case Home | Spec | Network | RuntimeCreate => {RemoveWorktree, DeleteRef, DeleteRow}
    case _ => {RemoveWorktree, DeleteRef, DeleteRow, DestroyRuntime}
  }

  // ---- how far a create has got ----

  /** `w` is `w0` plus what has been acquired (and needs the cleanups `got`), in any state of use. */
  ghost predicate Grown(w0: World, w: World, got: set<Cleanup>, o: Opts, env: Env) {
    && (RemoveWorktree in got ==>
          && o.slug !in w0.worktrees && o.slug in w.worktrees && w.worktrees - {o.slug} == w0.worktrees
          && o.branch !in w0.branches && o.branch in w.branches && w.branches - {o.branch} == w0.branches)
    && (RemoveWorktree !in got ==> w.worktrees == w0.worktrees && w.branches == w0.branches)
    && (DeleteRow in got ==>
          && env.rowId !in w0.rows && env.rowId in w.rows && w.rows - {env.rowId} == w0.rows
          && WithoutAgentsOf(w.agents, env.rowId) == w0.agents)
    && (DeleteRow !in got ==> w.rows == w0.rows && w.agents == w0.agents)
    && (DestroyRuntime in got ==>
          env.runtimeId !in w0.runtimes && env.runtimeId in w.runtimes && w.runtimes - {env.runtimeId} == w0.runtimes)
    && (DestroyRuntime !in got ==> w.runtimes == w0.runtimes)
  }

  /** The world with the given cleanups done. */
  ghost function Cleaned(w: World, ran: set<Cleanup>, o: Opts, env: Env): World {
    w.(worktrees := if RemoveWorktree in ran then w.worktrees - {o.slug} else w.worktrees,
       branches := if DeleteRef in ran then w.branches - {o.branch} else w.branches,
       rows := if DeleteRow in ran then w.rows - {env.rowId} else w.rows,
       agents := if DeleteRow in ran then WithoutAgentsOf(w.agents, env.rowId) else w.agents,
       runtimes := if DestroyRuntime in ran then w.runtimes - {env.runtimeId} else w.runtimes)
  }

  // What unwinding does, cleanup by cleanup.
  lemma UnwindEffect(w: World, stage: Stage, o: Opts, env: Env)
    ensures Unwind(w, Acquired(stage, o, env), env.stuck) == Cleaned(w, Relied(stage) - env.stuck, o, env)
  {
    hide Unwind, Cleaned, Apply;
    var tree, row, run := UndoWorktree(o.slug, o.branch), UndoRow(env.rowId), UndoRuntime(env.runtimeId);
    var stuck := env.stuck;
    CleanUp(w, stuck, o, env);
    CleanUpAll(w, stuck, o, env);
    UnwindNothing(w, stuck);
    UnwindOne(w, tree, stuck);
    UnwindTwo(w, tree, row, stuck);
    UnwindTwo(Apply(w, run, stuck), tree, row, stuck);
    UnwindLast(w, [tree, row], run, stuck);
    assert [tree, row] + [run] == [tree, row, run];
    assert {} - stuck == {};
  }

  lemma CleanUp(w: World, stuck: set<Cleanup>, o: Opts, env: Env)
    ensures var tree, row := UndoWorktree(o.slug, o.branch), UndoRow(env.rowId);
            && w == Cleaned(w, {}, o, env)
            && Apply(w, tree, stuck) == Cleaned(w, {RemoveWorktree, DeleteRef} - stuck, o, env)
            && Apply(Apply(w, row, stuck), tree, stuck)
               == Cleaned(w, {RemoveWorktree, DeleteRef, DeleteRow} - stuck, o, env)
  {
    hide WithoutAgentsOf;
  }

  lemma CleanUpAll(w: World, stuck: set<Cleanup>, o: Opts, env: Env)
    ensures var tree, row, run := UndoWorktree(o.slug, o.branch), UndoRow(env.rowId), UndoRuntime(env.runtimeId);
            Apply(Apply(Apply(w, run, stuck), row, stuck), tree, stuck)
            == Cleaned(w, {RemoveWorktree, DeleteRef, DeleteRow, DestroyRuntime} - stuck, o, env)
  {
    hide WithoutAgentsOf, Apply, Cleaned;
    var w1 := Apply(w, UndoRuntime(env.runtimeId), stuck);
    var last, rest := {DestroyRuntime} - stuck, {RemoveWorktree, DeleteRef, DeleteRow} - stuck;
    CleanUp(w1, stuck, o, env);
    assert w1 == Cleaned(w, last, o, env) by { CleanRuntime(w, stuck, o, env); }
    CleanedTwice(w, last, rest, o, env);
    assert last + rest == {RemoveWorktree, DeleteRef, DeleteRow, DestroyRuntime} - stuck;
  }

  lemma CleanRuntime(w: World, stuck: set<Cleanup>, o: Opts, env: Env)
    ensures Apply(w, UndoRuntime(env.runtimeId), stuck) == Cleaned(w, {DestroyRuntime} - stuck, o, env)
  {
  }

  lemma CleanedTwice(w: World, a: set<Cleanup>, b: set<Cleanup>, o: Opts, env: Env)
    requires a !! b
    ensures Cleaned(Cleaned(w, a, o, env), b, o, env) == Cleaned(w, a + b, o, env)
  {
    hide WithoutAgentsOf;
  }

  /** Using what was acquired changes nothing else. */
  ghost predicate Used(w: World, w': World, o: Opts, env: Env) {
    && w'.worktrees == w.worktrees
    && o.branch in w'.branches && w'.branches - {o.branch} == w.branches - {o.branch}
    && env.rowId in w'.rows && w'.rows - {env.rowId} == w.rows - {env.rowId}
    && WithoutAgentsOf(w'.agents, env.rowId) == WithoutAgentsOf(w.agents, env.rowId)
    && env.runtimeId in w'.runtimes && w'.runtimes - {env.runtimeId} == w.runtimes - {env.runtimeId}
    && w'.networks == w.networks && w'.homes == w.homes
  }

  lemma UsedMore(w: World, w': World, o: Opts, env: Env, running: bool, row: Row, tip: string)
    requires Used(w, w', o, env)
    ensures Used(w, w'.(runtimes := w'.runtimes[env.runtimeId := running]), o, env)
    ensures Used(w, w'.(rows := w'.rows[env.rowId := row]), o, env)
    ensures Used(w, w'.(branches := w'.branches[o.branch := tip]), o, env)
  {
    assert w'.runtimes[env.runtimeId := running] - {env.runtimeId} == w'.runtimes - {env.runtimeId};
    assert w'.rows[env.rowId := row] - {env.rowId} == w'.rows - {env.rowId};
    assert w'.branches[o.branch := tip] - {o.branch} == w'.branches - {o.branch};
  }

  lemma NotYetUsed(w: World, o: Opts, env: Env)
    requires o.branch in w.branches && env.rowId in w.rows && env.runtimeId in w.runtimes
    ensures Used(w, w, o, env)
  {
  }

  lemma EventsAreNoUse(w: World, w': World, o: Opts, env: Env)
    requires Used(w, w, o, env) && w' == w.(events := w'.events)
    ensures Used(w, w', o, env)
  {
  }

  lemma AgentIsUse(w: World, o: Opts, env: Env)
    requires Used(w, w, o, env) && env.agentId !in w.agents
    ensures Used(w, w.(agents := w.agents[env.agentId := env.rowId]), o, env)
  {
    hide WithoutAgentsOf;
    AgentIsOfTheRow(w.agents, env.agentId, env.rowId);
  }

  lemma UsedThen(w: World, w1: World, w2: World, o: Opts, env: Env)
    requires Used(w, w1, o, env) && Used(w1, w2, o, env)
    ensures Used(w, w2, o, env)
  {
  }

  lemma UseKeepsGrown(w0: World, w: World, w': World, o: Opts, env: Env)
    requires Grown(w0, w, Relied(Start), o, env) && Used(w, w', o, env)
    ensures Grown(w0, w', Relied(Start), o, env)
  {
  }

  lemma AgentIsOfTheRow(agents: map<string, string>, agent: string, id: string)
    requires agent !in agents
    ensures WithoutAgentsOf(agents[agent := id], id) == WithoutAgentsOf(agents, id)
  {
  }

  lemma UnwindNothing(w: World, stuck: set<Cleanup>)
    ensures Unwind(w, [], stuck) == w
  {
  }

  lemma UnwindLast(w: World, undo: seq<Undo>, u: Undo, stuck: set<Cleanup>)
    ensures Unwind(w, undo + [u], stuck) == Unwind(Apply(w, u, stuck), undo, stuck)
  {
    assert (undo + [u])[..|undo|] == undo;
  }

  lemma UnwindOne(w: World, u: Undo, stuck: set<Cleanup>)
    ensures Unwind(w, [u], stuck) == Apply(w, u, stuck)
  {
    assert [u][..0] == [];
  }

  lemma UnwindTwo(w: World, u: Undo, v: Undo, stuck: set<Cleanup>)
    ensures Unwind(w, [u, v], stuck) == Apply(Apply(w, v, stuck), u, stuck)
  {
    assert [u] + [v] == [u, v];
    UnwindLast(w, [u], v, stuck);
    UnwindOne(Apply(w, v, stuck), u, stuck);
  }

  /**
   The heart of it: unwinding a grown world gives back the core of the original exactly when none of
   the cleanups relied on fails.
   */
  lemma UnwindRestoresIff(w0: World, w: World, stage: Stage, o: Opts, env: Env)
    requires Grown(w0, w, Relied(stage), o, env)
    ensures Unwind(w, Acquired(stage, o, env), env.stuck).SameCore(w0) <==> Relied(stage) !! env.stuck
  {
    hide Unwind, Acquired;
    UnwindEffect(w, stage, o, env);
    var got := Relied(stage);
    assert got !! env.stuck <==> (forall c :: c in got ==> c !in env.stuck);
    assert RemoveWorktree in got <==> DeleteRef in got;
    if RemoveWorktree in got {
      assert o.slug !in (w.worktrees - {o.slug}) && o.branch !in (w.branches - {o.branch});
    }
  }

  /** Each acquired thing stays exactly if its own cleanup fails. */
  lemma UnwindRemains(w0: World, w: World, stage: Stage, o: Opts, env: Env)
    requires Grown(w0, w, Relied(stage), o, env)
    ensures Remains(w0, Unwind(w, Acquired(stage, o, env), env.stuck), Relied(stage), o, env)
  {
    hide Unwind, Acquired;
    UnwindEffect(w, stage, o, env);
    CleanedRemains(w0, w, Relied(stage), o, env);
  }

  lemma CleanedRemains(w0: World, w: World, got: set<Cleanup>, o: Opts, env: Env)
    requires Grown(w0, w, got, o, env) && (RemoveWorktree in got <==> DeleteRef in got)
    ensures Remains(w0, Cleaned(w, got - env.stuck, o, env), got, o, env)
  {
    NoAgentsTwice(w.agents, env.rowId);
  }

  lemma NoAgentsTwice(agents: map<string, string>, id: string)
    ensures WithoutAgentsOf(WithoutAgentsOf(agents, id), id) == WithoutAgentsOf(agents, id)
  {
  }

  // ---- what a create promises ----

  function Ref(o: Opts): string {
    if o.startRef == "" then o.parentBranch else o.startRef
  }

  // The stages of starting the agent.
  predicate OfAgent(stage: Stage) {
    stage in {AgentInsert, AgentSession, AgentStatus, AgentAnnounce}
  }

  /** The stage applies to this create, and breaks. */
  predicate Breaks(o: Opts, env: Env, stage: Stage) {
    && stage in env.broken
    && (stage.Home? ==> o.home != "")
    && (stage.Network? ==> o.network != "")
    && (OfAgent(stage) ==> !o.noAgent)
  }

  /** What the stage needs is missing, or what it would make is there already. */
  predicate Taken(w: World, o: Opts, env: Env, stage: Stage) {
    match stage
    case StartRef => Ref(o) !in w.branches
    // `-b` refuses a branch that exists; a worktree needs a free path.
    case Worktree => o.branch in w.branches || o.slug in w.worktrees
    // A primary key, and one container per branch.
    case Insert => env.rowId in w.rows || exists id :: id in w.rows && w.rows[id].branch == o.branch
    case RuntimeCreate => env.runtimeId in w.runtimes
    case AgentInsert => !o.noAgent && env.agentId in w.agents
    case _ => false
  }

  /** The place of a stage in the sequence. */
  function Order(stage: Stage): nat {
    match stage
    case Driver => 0 case Available => 1 case Adapter => 2 case StartRef => 3 case Hooks => 4 case Exclude => 5
    case Worktree => 6
    case Insert => 7
    case Home => 8 case Spec => 9 case Network => 10 case RuntimeCreate => 11
    case Start => 12 case Ports => 13 case SetRuntime => 14
    case Prepare => 15 case PostCreate => 16 case MarkRunning => 17
    case Announce => 18 case AgentInsert => 19 case AgentSession => 20 case AgentStatus => 21 case AgentAnnounce => 22
  }

  /** No stage from place `a` up to place `b` breaks or finds something taken. */
  ghost predicate Clear(w: World, o: Opts, env: Env, a: nat, b: nat) {
    forall st: Stage :: a <= Order(st) < b ==> !Breaks(o, env, st) && !Taken(w, o, env, st)
  }

  /**
   `git worktree add -b` makes the branch before it looks at the path. When the branch is free and the
   path is not, it fails and the branch stays.
   */
  predicate LeavesBranch(w: World, o: Opts, env: Env) {
    && o.branch !in w.branches
    && (if Worktree in env.broken then env.branchMade else o.slug in w.worktrees)
  }

  /** The world after the command, whether or not it succeeds. */
  function AfterAdd(w: World, o: Opts, env: Env, start: string): World {
    if Worktree !in env.broken && !Taken(w, o, env, Worktree)
    then w.(worktrees := w.worktrees[o.slug := o.branch], branches := w.branches[o.branch := start])
    else if LeavesBranch(w, o, env) then w.(branches := w.branches[o.branch := start])
    else w
  }

  /** The world after a create that succeeded. */
  ghost function Done(w: World, o: Opts, env: Env): World
    requires Ref(o) in w.branches
  {
    var base := w.branches[Ref(o)];
    World(w.branches[o.branch := env.hookTip], w.worktrees[o.slug := o.branch],
          w.rows[env.rowId := Row(o.branch, o.slug, o.parentBranch, base, base, env.runtimeId, Running)],
          if o.noAgent then w.agents else w.agents[env.agentId := env.rowId],
          w.runtimes[env.runtimeId := true],
          if o.network == "" then w.networks else w.networks + {o.network},
          if o.home == "" then w.homes else w.homes + {o.home},
          w.events + Announced(o, env))
  }

  // The events of a whole create.
  function Announced(o: Opts, env: Env): seq<Event> {
    [ContainerCreated(env.rowId)] + if o.noAgent then [] else [AgentStarted(env.rowId, env.agentId)]
  }

  // The stages that come after the home directory, and after the network, have been made.
  predicate HomeMade(o: Opts, stage: Stage) {
    o.home != "" && (stage in {Spec, Network} || GroupOf(stage) in {Object, Boots, Furnishes, Launches})
  }

  predicate NetworkMade(o: Opts, stage: Stage) {
    o.network != "" && GroupOf(stage) in {Object, Boots, Furnishes, Launches}
  }

  /** What a failed create leaves behind whatever its cleanups do: network, home, and the event once announced. */
  ghost predicate Leftovers(w0: World, w: World, o: Opts, env: Env, stage: Stage) {
    && w.networks == (if NetworkMade(o, stage) then w0.networks + {o.network} else w0.networks)
    && w.homes == (if HomeMade(o, stage) then w0.homes + {o.home} else w0.homes)
    && w.events == w0.events + if OfAgent(stage) then [ContainerCreated(env.rowId)] else []
  }

  // Once the surroundings are made only the event is added.
  ghost predicate Trailing(w0: World, w: World, env: Env, stage: Stage) {
    && w.networks == w0.networks && w.homes == w0.homes
    && w.events == w0.events + if OfAgent(stage) then [ContainerCreated(env.rowId)] else []
  }

  /**
   What a failed create leaves of what it had acquired: each thing exactly if its own cleanup failed, and
   everything else as it was.
   */
  ghost predicate Remains(w0: World, w: World, got: set<Cleanup>, o: Opts, env: Env) {
    && (RemoveWorktree in got ==>
          && o.slug !in w0.worktrees && w.worktrees - {o.slug} == w0.worktrees
          && (o.slug in w.worktrees <==> RemoveWorktree in env.stuck))
    && (DeleteRef in got ==>
          && o.branch !in w0.branches && w.branches - {o.branch} == w0.branches
          && (o.branch in w.branches <==> DeleteRef in env.stuck))
    && (DeleteRow in got ==>
          && env.rowId !in w0.rows && w.rows - {env.rowId} == w0.rows
          && (env.rowId in w.rows <==> DeleteRow in env.stuck)
          && WithoutAgentsOf(w.agents, env.rowId) == w0.agents
          && (DeleteRow !in env.stuck ==> w.agents == w0.agents))
    && (DestroyRuntime in got ==>
          && env.runtimeId !in w0.runtimes && w.runtimes - {env.runtimeId} == w0.runtimes
          && (env.runtimeId in w.runtimes <==> DestroyRuntime in env.stuck))
    && (RemoveWorktree !in got ==> w.worktrees == w0.worktrees) && (DeleteRef !in got ==> w.branches == w0.branches)
    && (DeleteRow !in got ==> w.rows == w0.rows && w.agents == w0.agents)
    && (DestroyRuntime !in got ==> w.runtimes == w0.runtimes)
  }

  /** A create that succeeds: nothing broke, nothing was taken, and the world is as promised. */
  ghost predicate CreatedAs(w0: World, o: Opts, env: Env, id: string, w: World) {
    && (forall st: Stage :: !Breaks(o, env, st) && !Taken(w0, o, env, st))
    && id == env.rowId && Ref(o) in w0.branches && w == Done(w0, o, env)
  }

  /**
   A create that fails at `stage`: that stage, and none before it, broke or found something taken; the
   compensations ran in reverse; the core is what it was if and only if none of the cleanups relied on
   failed and git left no branch; and otherwise exactly what could not be cleaned up is still there.
   */
  ghost predicate FailedAs(w0: World, o: Opts, env: Env, stage: Stage, undone: seq<Undo>, w: World) {
    && (Breaks(o, env, stage) || Taken(w0, o, env, stage)) && Clear(w0, o, env, 0, Order(stage))
    && undone == Backwards(Acquired(stage, o, env))
    && (w.SameCore(w0) <==> Relied(stage) !! env.stuck && !(stage.Worktree? && LeavesBranch(w0, o, env)))
    && (stage.Worktree? ==> Ref(o) in w0.branches && w == AfterAdd(w0, o, env, w0.branches[Ref(o)]))
    && (!stage.Worktree? ==> Remains(w0, w, Relied(stage), o, env))
    && Leftovers(w0, w, o, env, stage)
  }

  /**
   A success in the caller's own terms. The branch starts at the start ref, or at the parent where none is
   given; nothing it makes was there before; and the world differs in just what was asked for.
   */
  lemma SuccessInFull(w0: World, given: Opts, env: Env, id: string, w: World)
    requires CreatedAs(w0, WithDefaults(given), env, id, w)
    ensures var start := if given.startRef != "" then given.startRef else given.parentBranch;
            var slug := if given.slug != "" then given.slug else Slugify(given.branch);
            && start in w0.branches && given.branch !in w0.branches && slug !in w0.worktrees
            && id == env.rowId && id !in w0.rows && env.runtimeId !in w0.runtimes
            && (forall other :: other in w0.rows ==> w0.rows[other].branch != given.branch)
            && (given.noAgent || env.agentId !in w0.agents)
            && (forall st :: st in env.broken ==>
                  || (st.Home? && given.home == "") || (st.Network? && given.network == "")
                  || (given.noAgent && (st.AgentInsert? || st.AgentSession? || st.AgentStatus? || st.AgentAnnounce?)))
            && w.branches == w0.branches[given.branch := env.hookTip]
            && w.worktrees == w0.worktrees[slug := given.branch]
            && w.rows == w0.rows[id := Row(given.branch, slug, given.parentBranch, w0.branches[start],
                                           w0.branches[start], env.runtimeId, Running)]
            && w.agents == (if given.noAgent then w0.agents else w0.agents[env.agentId := id])
            && w.runtimes == w0.runtimes[env.runtimeId := true]
            && w.networks == (if given.network == "" then w0.networks else w0.networks + {given.network})
            && w.homes == (if given.home == "" then w0.homes else w0.homes + {given.home})
            && w.events == w0.events
               + if given.noAgent then [ContainerCreated(id)] else [ContainerCreated(id), AgentStarted(id, env.agentId)]
  {
    hide Slugify;
    var o := WithDefaults(given);
    assert !Taken(w0, o, env, Worktree) && !Taken(w0, o, env, Insert) && !Taken(w0, o, env, RuntimeCreate);
    assert !Taken(w0, o, env, AgentInsert);
    forall st | st in env.broken ensures !Breaks(o, env, st) {}
  }

  /** Why a create failed at its stage, in the caller's own terms, and in which order it undid what. */
  lemma FailureInFull(w0: World, given: Opts, env: Env, stage: Stage, undone: seq<Undo>, w: World)
    requires FailedAs(w0, WithDefaults(given), env, stage, undone, w)
    ensures var start := if given.startRef != "" then given.startRef else given.parentBranch;
            var slug := if given.slug != "" then given.slug else Slugify(given.branch);
            var tree, row, run := UndoWorktree(slug, given.branch), UndoRow(env.rowId), UndoRuntime(env.runtimeId);
            && (|| stage in env.broken
                || (stage.StartRef? && start !in w0.branches)
                || (stage.Worktree? && (given.branch in w0.branches || slug in w0.worktrees))
                || (stage.Insert? && (env.rowId in w0.rows
                                      || exists other :: other in w0.rows && w0.rows[other].branch == given.branch))
                || (stage.RuntimeCreate? && env.runtimeId in w0.runtimes)
                || (stage.AgentInsert? && env.agentId in w0.agents))
            && (stage.Home? ==> given.home != "") && (stage.Network? ==> given.network != "")
            && (stage in {AgentInsert, AgentSession, AgentStatus, AgentAnnounce} ==> !given.noAgent)
            && undone == (match stage
                          case Driver | Available | Adapter | StartRef | Hooks | Exclude | Worktree => []
                          case Insert => [tree]
                          case Home | Spec | Network | RuntimeCreate => [row, tree]
                          case _ => [run, row, tree])
  {
    hide Slugify, Remains, Leftovers, Relied, AfterAdd;
    Reversed(UndoWorktree(WithDefaults(given).slug, given.branch), UndoRow(env.rowId), UndoRuntime(env.runtimeId));
  }

  /** It fails at the first stage that cannot be: none before it was broken, nothing they need was taken. */
  lemma FailsAtTheFirst(w0: World, given: Opts, env: Env, stage: Stage, undone: seq<Undo>, w: World)
    requires FailedAs(w0, WithDefaults(given), env, stage, undone, w)
    ensures var start := if given.startRef != "" then given.startRef else given.parentBranch;
            var slug := if given.slug != "" then given.slug else Slugify(given.branch);
            var beyondTree := stage !in {Driver, Available, Adapter, StartRef, Hooks, Exclude, Worktree};
            var beyondRow := beyondTree && stage != Insert;
            var beyondRuntime := beyondRow && stage !in {Home, Spec, Network, RuntimeCreate};
            && (forall st :: st in env.broken && Order(st) < Order(stage) ==>
                  || (st.Home? && given.home == "") || (st.Network? && given.network == "")
                  || (given.noAgent && (st.AgentInsert? || st.AgentSession? || st.AgentStatus? || st.AgentAnnounce?)))
            && (stage !in {Driver, Available, Adapter, StartRef} ==> start in w0.branches)
            && (beyondTree ==> given.branch !in w0.branches && slug !in w0.worktrees)
            && (beyondRow ==>
                  env.rowId !in w0.rows && forall other :: other in w0.rows ==> w0.rows[other].branch != given.branch)
            && (beyondRuntime ==> env.runtimeId !in w0.runtimes)
            && (stage in {AgentSession, AgentStatus, AgentAnnounce} ==> given.noAgent || env.agentId !in w0.agents)
  {
    hide *;
    var o := WithDefaults(given);
    ClearWhenFailed(w0, o, env, stage, undone, w);
    NothingBrokenBefore(w0, o, env, Order(stage));
    NothingTakenBefore(w0, o, env, stage);
    StartsAt(given);
    DefaultsAre(given);
  }

  lemma ClearWhenFailed(w0: World, o: Opts, env: Env, stage: Stage, undone: seq<Undo>, w: World)
    requires FailedAs(w0, o, env, stage, undone, w)
    ensures Clear(w0, o, env, 0, Order(stage))
  {
  }

  lemma DefaultsAre(given: Opts)
    ensures var o := WithDefaults(given);
            && o == given.(slug := o.slug) && o.slug == if given.slug != "" then given.slug else Slugify(given.branch)
  {
    hide Slugify;
  }

  lemma NothingBrokenBefore(w: World, o: Opts, env: Env, b: nat)
    requires Clear(w, o, env, 0, b)
    ensures forall st :: st in env.broken && Order(st) < b ==>
              || (st.Home? && o.home == "") || (st.Network? && o.network == "")
              || (o.noAgent && (st.AgentInsert? || st.AgentSession? || st.AgentStatus? || st.AgentAnnounce?))
  {
    hide Taken, Order;
    forall st | st in env.broken && Order(st) < b ensures !Breaks(o, env, st) {
    }
  }

  lemma NothingTakenBefore(w: World, o: Opts, env: Env, stage: Stage)
    requires Clear(w, o, env, 0, Order(stage))
    ensures var beyondTree := stage !in {Driver, Available, Adapter, StartRef, Hooks, Exclude, Worktree};
            var beyondRow := beyondTree && stage != Insert;
            var beyondRuntime := beyondRow && stage !in {Home, Spec, Network, RuntimeCreate};
            && (stage !in {Driver, Available, Adapter, StartRef} ==> Ref(o) in w.branches)
            && (beyondTree ==> o.branch !in w.branches && o.slug !in w.worktrees)
            && (beyondRow ==>
                  env.rowId !in w.rows && forall other :: other in w.rows ==> w.rows[other].branch != o.branch)
            && (beyondRuntime ==> env.runtimeId !in w.runtimes)
            && (stage in {AgentSession, AgentStatus, AgentAnnounce} ==> o.noAgent || env.agentId !in w.agents)
  {
    OrderedLate(stage);
    ClearAt(w, o, env, Order(stage), StartRef);
    ClearAt(w, o, env, Order(stage), Worktree);
    ClearAt(w, o, env, Order(stage), Insert);
    ClearAt(w, o, env, Order(stage), RuntimeCreate);
    ClearAt(w, o, env, Order(stage), AgentInsert);
    hide Clear, Order, Breaks;
  }

  lemma OrderedLate(stage: Stage)
    ensures stage !in {Driver, Available, Adapter, StartRef} <==> Order(StartRef) < Order(stage)
    ensures stage !in {Driver, Available, Adapter, StartRef, Hooks, Exclude, Worktree}
            <==> Order(Worktree) < Order(stage)
    ensures stage !in {Driver, Available, Adapter, StartRef, Hooks, Exclude, Worktree, Insert}
            <==> Order(Insert) < Order(stage)
    ensures stage !in {Driver, Available, Adapter, StartRef, Hooks, Exclude, Worktree, Insert, Home, Spec, Network,
                       RuntimeCreate}
            <==> Order(RuntimeCreate) < Order(stage)
    ensures stage in {AgentSession, AgentStatus, AgentAnnounce} <==> Order(AgentInsert) < Order(stage)
  {
  }

  lemma ClearAt(w: World, o: Opts, env: Env, b: nat, stage: Stage)
    requires Clear(w, o, env, 0, b)
    ensures Order(stage) < b ==> !Breaks(o, env, stage) && !Taken(w, o, env, stage)
  {
  }

  lemma StartsAt(given: Opts)
    ensures Ref(WithDefaults(given)) == if given.startRef != "" then given.startRef else given.parentBranch
  {
    hide Slugify;
  }

  lemma Reversed(a: Undo, b: Undo, c: Undo)
    ensures Backwards([]) == [] && Backwards([a]) == [a] && Backwards([a, b]) == [b, a]
    ensures Backwards([a, b, c]) == [c, b, a]
  {
    assert [a][..0] == [] && [a, b][..1] == [a] && [a, b, c][..2] == [a, b];
  }

  /**
   What a failure leaves, in the caller's own terms. Before the worktree command: everything as it was. At
   it: as it was, but for the branch where git had made it, cut at the start ref. Past it: each thing made
   by then is there still exactly if its own cleanup failed.
   */
  lemma FailureLeaves(w0: World, given: Opts, env: Env, stage: Stage, undone: seq<Undo>, w: World)
    requires FailedAs(w0, WithDefaults(given), env, stage, undone, w)
    ensures var start := if given.startRef != "" then given.startRef else given.parentBranch;
            var slug := if given.slug != "" then given.slug else Slugify(given.branch);
            var early := stage in {Driver, Available, Adapter, StartRef, Hooks, Exclude};
            var rowMade := !early && stage !in {Worktree, Insert};
            var runtimeMade := rowMade && stage !in {Home, Spec, Network, RuntimeCreate};
            && (early ==> w.branches == w0.branches && w.worktrees == w0.worktrees)
            && (stage.Worktree? ==>
                  && start in w0.branches
                  && w == if given.branch in w0.branches || (Worktree in env.broken && !env.branchMade) then w0
                          else w0.(branches := w0.branches[given.branch := w0.branches[start]]))
            && (!early && !stage.Worktree? ==>
                  && given.branch !in w0.branches && w.branches - {given.branch} == w0.branches
                  && (given.branch in w.branches <==> DeleteRef in env.stuck)
                  && slug !in w0.worktrees && w.worktrees - {slug} == w0.worktrees
                  && (slug in w.worktrees <==> RemoveWorktree in env.stuck))
            && (rowMade ==>
                  && env.rowId !in w0.rows && w.rows - {env.rowId} == w0.rows
                  && (env.rowId in w.rows <==> DeleteRow in env.stuck)
                  && (DeleteRow !in env.stuck ==> w.agents == w0.agents))
            && (!rowMade ==> w.rows == w0.rows && w.agents == w0.agents)
            && (runtimeMade ==>
                  && env.runtimeId !in w0.runtimes && w.runtimes - {env.runtimeId} == w0.runtimes
                  && (env.runtimeId in w.runtimes <==> DestroyRuntime in env.stuck))
            && (!runtimeMade ==> w.runtimes == w0.runtimes)
  {
    hide Slugify, Acquired, Backwards, WithoutAgentsOf, Leftovers;
  }

  /** No failure takes back a network, a home directory or the announcement. */
  lemma FailureKeeps(w0: World, given: Opts, env: Env, stage: Stage, undone: seq<Undo>, w: World)
    requires FailedAs(w0, WithDefaults(given), env, stage, undone, w)
    ensures var rowMade := stage !in {Driver, Available, Adapter, StartRef, Hooks, Exclude, Worktree, Insert};
            && w.networks == (if given.network != "" && rowMade && stage !in {Home, Spec, Network}
                              then w0.networks + {given.network} else w0.networks)
            && w.homes == (if given.home != "" && rowMade && stage != Home
                           then w0.homes + {given.home} else w0.homes)
            && w.events == w0.events
               + if stage in {AgentInsert, AgentSession, AgentStatus, AgentAnnounce}
                 then [ContainerCreated(env.rowId)] else []
  {
    hide Slugify, Acquired, Backwards, Remains, AfterAdd, Taken, Breaks;
  }

  // ---- the stages, group by group ----

  datatype Group = Checks | Tree | Record | Provisions | Object | Boots | Furnishes | Launches

  function GroupOf(stage: Stage): Group {
    match stage
    case Driver | Available | Adapter | StartRef | Hooks | Exclude => Checks
    case Worktree => Tree
    case Insert => Record
    case Home | Spec | Network => Provisions
    case RuntimeCreate => Object
    case Start | Ports | SetRuntime => Boots
    case Prepare | PostCreate | MarkRunning => Furnishes
    case Announce | AgentInsert | AgentSession | AgentStatus | AgentAnnounce => Launches
  }

  ghost predicate Sound(o: Opts, env: Env, group: Group) {
    forall st: Stage :: GroupOf(st) == group ==> !Breaks(o, env, st)
  }

  ghost function Provisioned(w: World, o: Opts): World {
    w.(networks := if o.network == "" then w.networks else w.networks + {o.network},
       homes := if o.home == "" then w.homes else w.homes + {o.home})
  }

  ghost function Booted(w: World, env: Env): World {
    w.(runtimes := w.runtimes[env.runtimeId := true],
       rows := if env.rowId !in w.rows then w.rows
               else w.rows[env.rowId := w.rows[env.rowId].(runtime := env.runtimeId)])
  }

  ghost function Furnished(w: World, o: Opts, env: Env): World {
    w.(branches := w.branches[o.branch := env.hookTip],
       rows := if env.rowId !in w.rows then w.rows
               else w.rows[env.rowId := w.rows[env.rowId].(status := Running)])
  }

  ghost function Launched(w: World, o: Opts, env: Env): World {
    w.(events := w.events + Announced(o, env),
       agents := if o.noAgent then w.agents else w.agents[env.agentId := env.rowId])
  }

  lemma GrownByWorktree(w0: World, o: Opts, env: Env, base: string)
    requires !Taken(w0, o, env, Worktree)
    ensures Grown(w0, w0.(worktrees := w0.worktrees[o.slug := o.branch], branches := w0.branches[o.branch := base]),
                  Relied(Insert), o, env)
  {
  }

  lemma GrownByRow(w0: World, w: World, o: Opts, env: Env, row: Row)
    requires w0.Valid() && Grown(w0, w, Relied(Insert), o, env) && env.rowId !in w.rows
    ensures Grown(w0, w.(rows := w.rows[env.rowId := row]), Relied(Home), o, env)
  {
    assert WithoutAgentsOf(w0.agents, env.rowId) == w0.agents;
  }

  lemma GrownByRuntime(w0: World, w: World, o: Opts, env: Env)
    requires Grown(w0, w, Relied(Home), o, env) && env.runtimeId !in w.runtimes
    ensures Grown(w0, w.(runtimes := w.runtimes[env.runtimeId := false]), Relied(Start), o, env)
  {
    hide WithoutAgentsOf;
  }

  lemma GrownHasAll(w0: World, w: World, o: Opts, env: Env)
    requires Grown(w0, w, Relied(Start), o, env)
    ensures o.branch in w.branches && env.rowId in w.rows && env.runtimeId in w.runtimes
  {
  }

  lemma SameCoreGrown(w0: World, w: World, w': World, got: set<Cleanup>, o: Opts, env: Env)
    requires Grown(w0, w, got, o, env) && w'.SameCore(w)
    ensures Grown(w0, w', got, o, env)
  {
    hide WithoutAgentsOf;
  }

  lemma LateStages(o: Opts, env: Env, stage: Stage)
    ensures GroupOf(stage) in {Boots, Furnishes, Launches} ==>
              Relied(stage) == Relied(Start) && Acquired(stage, o, env) == Acquired(Start, o, env)
    ensures GroupOf(stage) in {Provisions, Object} ==>
              Relied(stage) == Relied(Home) && Acquired(stage, o, env) == Acquired(Home, o, env)
    ensures GroupOf(stage) in {Checks, Tree} ==> Relied(stage) == {} && Acquired(stage, o, env) == []
  {
  }

  lemma Groups()
    ensures GroupOf(Start) == Boots && GroupOf(AgentInsert) == Launches && GroupOf(RuntimeCreate) == Object
    ensures GroupOf(Worktree) == Tree && GroupOf(Insert) == Record && GroupOf(Home) == Provisions
  {
  }

  lemma AllClear(w: World, o: Opts, env: Env)
    requires Sound(o, env, Checks) && Sound(o, env, Tree) && Sound(o, env, Record) && Sound(o, env, Provisions)
    requires Sound(o, env, Object) && Sound(o, env, Boots) && Sound(o, env, Furnishes) && Sound(o, env, Launches)
    requires !Taken(w, o, env, StartRef) && !Taken(w, o, env, Worktree) && !Taken(w, o, env, Insert)
    requires !Taken(w, o, env, RuntimeCreate) && !Taken(w, o, env, AgentInsert)
    ensures forall st: Stage :: !Breaks(o, env, st) && !Taken(w, o, env, st)
  {
    forall st: Stage ensures !Breaks(o, env, st) && !Taken(w, o, env, st) {
      assert Sound(o, env, GroupOf(st));
    }
  }

  lemma TakenReads(w: World, w': World, o: Opts, env: Env, stage: Stage)
    requires w.agents == w'.agents && GroupOf(stage) in {Provisions, Object, Boots, Furnishes, Launches}
    requires stage.RuntimeCreate? ==> w.runtimes == w'.runtimes
    ensures Taken(w, o, env, stage) == Taken(w', o, env, stage)
  {
  }

  lemma ClearNothing(w: World, o: Opts, env: Env, a: nat)
    ensures Clear(w, o, env, a, a)
  {
  }

  lemma NoAgentIsClear(w: World, o: Opts, env: Env)
    requires o.noAgent
    ensures Clear(w, o, env, 19, 23)
  {
  }

  lemma AnnounceIsClear(w: World, o: Opts, env: Env)
    requires Announce !in env.broken
    ensures Clear(w, o, env, 18, 19)
  {
  }

  // What furnishing may stumble over depends on nothing but what breaks.
  lemma FurnishIsClear(w: World, o: Opts, env: Env)
    ensures Clear(w, o, env, 15, Order(Prepare))
    ensures Prepare !in env.broken ==> Clear(w, o, env, 15, Order(PostCreate))
    ensures Prepare !in env.broken && PostCreate !in env.broken ==> Clear(w, o, env, 15, Order(MarkRunning))
    ensures Prepare !in env.broken && PostCreate !in env.broken && MarkRunning !in env.broken ==>
              Clear(w, o, env, 15, 18) && Sound(o, env, Furnishes)
    ensures forall st :: st in {Prepare, PostCreate, MarkRunning} && st in env.broken ==>
              Breaks(o, env, st) && GroupOf(st) == Furnishes
  {
  }

  lemma BootIsClear(w: World, o: Opts, env: Env)
    ensures Clear(w, o, env, 12, Order(Start))
    ensures Start !in env.broken ==> Clear(w, o, env, 12, Order(Ports))
    ensures Start !in env.broken && Ports !in env.broken ==> Clear(w, o, env, 12, Order(SetRuntime))
    ensures Start !in env.broken && Ports !in env.broken && SetRuntime !in env.broken ==> Clear(w, o, env, 12, 15)
  {
  }

  lemma OrderIs()
    ensures Order(Worktree) == 6 && Order(Insert) == 7 && Order(RuntimeCreate) == 11
  {
  }

  lemma ClearOne(w: World, o: Opts, env: Env, stage: Stage)
    ensures Clear(w, o, env, Order(stage), Order(stage) + 1) <==> !Breaks(o, env, stage) && !Taken(w, o, env, stage)
    ensures Order(Worktree) == 6 && Order(Insert) == 7 && Order(RuntimeCreate) == 11
  {
    hide Breaks, Taken;
  }

  lemma ClearOn(w: World, o: Opts, env: Env, a: nat, b: nat, c: nat)
    ensures Clear(w, o, env, a, b) && Clear(w, o, env, b, c) ==> Clear(w, o, env, a, c)
  {
    hide Breaks, Taken, Order;
  }

  // Past the runtime object only the agents matter, past the row the runtimes too.
  lemma ClearReads(w: World, w': World, o: Opts, env: Env, a: nat, b: nat)
    requires w.agents == w'.agents && a >= 12
    ensures Clear(w, o, env, a, b) == Clear(w', o, env, a, b)
  {
    hide Breaks;
    forall st: Stage | a <= Order(st) ensures Taken(w, o, env, st) == Taken(w', o, env, st) {
    }
  }

  lemma ClearFrom(w: World, w': World, o: Opts, env: Env, b: nat)
    requires w.agents == w'.agents && w.runtimes == w'.runtimes
    ensures Clear(w, o, env, 8, b) == Clear(w', o, env, 8, b)
  {
    hide Breaks;
    forall st: Stage | 8 <= Order(st) ensures Taken(w, o, env, st) == Taken(w', o, env, st) {
    }
  }

  lemma TrailNothing(w0: World, w: World, env: Env, stage: Stage)
    requires w.SameSurroundings(w0) && !OfAgent(stage)
    ensures Trailing(w0, w, env, stage)
  {
  }

  lemma TrailOn(w0: World, w1: World, w2: World, env: Env, stage: Stage)
    requires w1.SameSurroundings(w0)
    ensures Trailing(w1, w2, env, stage) ==> Trailing(w0, w2, env, stage)
    ensures w2.SameSurroundings(w1) ==> w2.SameSurroundings(w0)
  {
  }

  lemma TrailStays(w0: World, w1: World, w2: World, env: Env, stage: Stage)
    requires Trailing(w0, w1, env, stage) && w2.SameSurroundings(w1)
    ensures Trailing(w0, w2, env, stage)
  {
  }

  lemma GroupsOfAgent(stage: Stage)
    ensures GroupOf(stage) != Launches ==> !OfAgent(stage)
  {
  }

  // The surroundings are provisioned, then only the event is added.
  lemma LeftAfterProvision(w0: World, w1: World, w2: World, o: Opts, env: Env, stage: Stage)
    requires GroupOf(stage) in {Object, Boots, Furnishes, Launches}
    requires w1.SameSurroundings(Provisioned(w0, o)) && Trailing(w1, w2, env, stage)
    ensures Leftovers(w0, w2, o, env, stage)
  {
  }

  lemma LeftFrom(w0: World, w1: World, w2: World, o: Opts, env: Env, stage: Stage)
    requires w1.SameSurroundings(w0) && Leftovers(w1, w2, o, env, stage)
    ensures Leftovers(w0, w2, o, env, stage)
  {
  }

  lemma LeftThen(w0: World, w1: World, w2: World, o: Opts, env: Env, stage: Stage)
    requires Leftovers(w0, w1, o, env, stage) && w2.SameSurroundings(w1)
    ensures Leftovers(w0, w2, o, env, stage)
  {
  }

  lemma ProvisionedHolds(w0: World, w: World, o: Opts, env: Env)
    requires w == Provisioned(w0, o)
    ensures Leftovers(w0, w, o, env, RuntimeCreate)
  {
  }

  lemma SameButRuntimes(w: World, w': World)
    requires w' == w.(runtimes := w'.runtimes)
    ensures w'.SameSurroundings(w)
  {
  }

  lemma NothingLeft(w0: World, w: World, o: Opts, env: Env, stage: Stage)
    requires w.SameSurroundings(w0) && GroupOf(stage) in {Checks, Tree, Record}
    ensures Leftovers(w0, w, o, env, stage)
  {
  }

  lemma TakenAt(w: World, o: Opts, env: Env)
    ensures Taken(w, o, env, StartRef) <==> Ref(o) !in w.branches
    ensures Taken(w, o, env, Insert) <==>
              env.rowId in w.rows || exists id :: id in w.rows && w.rows[id].branch == o.branch
    ensures Taken(w, o, env, RuntimeCreate) <==> env.runtimeId in w.runtimes
  {
  }

  lemma BreaksOne(o: Opts, env: Env)
    ensures Breaks(o, env, Worktree) <==> Worktree in env.broken
    ensures Breaks(o, env, Insert) <==> Insert in env.broken
    ensures Breaks(o, env, RuntimeCreate) <==> RuntimeCreate in env.broken
  {
  }

  lemma AcquiredLast(o: Opts, env: Env)
    ensures Acquired(Insert, o, env) == [UndoWorktree(o.slug, o.branch)]
    ensures Acquired(Home, o, env) == Acquired(Insert, o, env) + [UndoRow(env.rowId)]
    ensures Acquired(Start, o, env) == Acquired(Home, o, env) + [UndoRuntime(env.runtimeId)]
    ensures Backwards([]) == []
  {
  }

  lemma SoundOne(o: Opts, env: Env)
    ensures Sound(o, env, Tree) <==> Worktree !in env.broken
    ensures Sound(o, env, Record) <==> Insert !in env.broken
    ensures Sound(o, env, Object) <==> RuntimeCreate !in env.broken
  {
    assert Worktree !in env.broken ==> !Breaks(o, env, Worktree);
    assert Breaks(o, env, Worktree) == (Worktree in env.broken) && GroupOf(Worktree) == Tree;
    assert Breaks(o, env, Insert) == (Insert in env.broken) && GroupOf(Insert) == Record;
    assert Breaks(o, env, RuntimeCreate) == (RuntimeCreate in env.broken) && GroupOf(RuntimeCreate) == Object;
  }

  // Nothing acquired, nothing to restore.
  lemma UntouchedAt(w: World, o: Opts, env: Env, stage: Stage)
    requires GroupOf(stage) in {Checks, Tree}
    ensures Acquired(stage, o, env) == [] && Backwards([]) == [] && Relied(stage) == {}
    ensures w.SameCore(w) && Relied(stage) !! env.stuck && Leftovers(w, w, o, env, stage)
    ensures Remains(w, w, Relied(stage), o, env)
  {
  }

  lemma FailedIs(w0: World, o: Opts, env: Env, stage: Stage, undone: seq<Undo>, w: World)
    requires GroupOf(stage) != Tree
    requires (Breaks(o, env, stage) || Taken(w0, o, env, stage)) && Clear(w0, o, env, 0, Order(stage))
    requires undone == Backwards(Acquired(stage, o, env))
    requires w.SameCore(w0) <==> Relied(stage) !! env.stuck
    requires Remains(w0, w, Relied(stage), o, env) && Leftovers(w0, w, o, env, stage)
    ensures FailedAs(w0, o, env, stage, undone, w)
  {
    hide Remains, Leftovers, Acquired, Clear;
  }

  lemma CreatedIs(w0: World, o: Opts, env: Env, w: World)
    requires forall st: Stage :: !Breaks(o, env, st) && !Taken(w0, o, env, st)
    requires Ref(o) in w0.branches && w == Done(w0, o, env)
    ensures CreatedAs(w0, o, env, env.rowId, w)
  {
  }

  lemma SameAround(w0: World, w: World, o: Opts, base: string)
    requires w == w0.(worktrees := w0.worktrees[o.slug := o.branch], branches := w0.branches[o.branch := base])
    ensures w.SameSurroundings(w0)
  {
  }

  lemma RowOnly(w: World, w': World)
    requires w' == w.(rows := w'.rows)
    ensures w'.SameSurroundings(w)
  {
  }

  lemma FailedAdd(w: World, w': World, o: Opts, env: Env, start: string)
    requires (Breaks(o, env, Worktree) || Taken(w, o, env, Worktree)) && Clear(w, o, env, 0, 6)
    requires w' == AfterAdd(w, o, env, start)
    ensures Acquired(Worktree, o, env) == [] && Backwards([]) == [] && Relied(Worktree) == {}
    ensures w'.SameCore(w) <==> !LeavesBranch(w, o, env)
    ensures Ref(o) in w.branches && w.branches[Ref(o)] == start ==> FailedAs(w, o, env, Worktree, [], w')
  {
  }

  // The successful steps one after the other come to the promised world.
  lemma AllSteps(w: World, o: Opts, env: Env)
    requires Ref(o) in w.branches
    ensures var base := w.branches[Ref(o)];
            var row := Row(o.branch, o.slug, o.parentBranch, base, base, "", Creating);
            var w1 := w.(worktrees := w.worktrees[o.slug := o.branch], branches := w.branches[o.branch := base]);
            var w2 := Provisioned(w1.(rows := w1.rows[env.rowId := row]), o);
            var w3 := w2.(runtimes := w2.runtimes[env.runtimeId := false]);
            Launched(Furnished(Booted(w3, env), o, env), o, env) == Done(w, o, env)
  {
  }

  // ---- a branch left behind ----

  /**
   Two branches, one slug. After `x-y` has been created, a create of `x/y` that gets as far as its worktree
   fails there, and the branch stays although the create is undone.
   */
  lemma OneSlugTwoBranches(w: World, x: string, y: string, first: Opts, second: Opts, env: Env, env': Env)
    requires x != "" && Safe(x[|x| - 1]) && y != "" && Safe(y[0])
    requires first.branch == x + "-" + y && second.branch == x + "/" + y && first.slug == second.slug == ""
    requires Ref(WithDefaults(first)) in w.branches && second.branch !in w.branches && Worktree !in env'.broken
    ensures var o, o' := WithDefaults(first), WithDefaults(second);
            var w1 := Done(w, o, env);
            && o.slug == o'.slug && Taken(w1, o', env', Worktree) && LeavesBranch(w1, o', env')
            && forall start :: !AfterAdd(w1, o', env', start).SameCore(w1)
  {
    hide Slugify;
    SlugsCollide(x, "/", y);
  }

  /** One create: what it was asked for, with defaults filled in, what it met, and what it answered. */
  datatype Call = Call(opts: Opts, env: Env, answer: Outcome)

  /** Creates one after another: the worlds between them are as `Manager.Create` leaves them. */
  ghost predicate CreateRun(ws: seq<World>, calls: seq<Call>) {
    && |ws| == |calls| + 1
    && forall i :: 0 <= i < |calls| ==> Leads(ws[i], calls[i], ws[i + 1])
  }

  ghost predicate Leads(w: World, c: Call, w': World) {
    match c.answer
    case Created(id) => CreatedAs(w, c.opts, c.env, id, w')
    case Failed(stage, undone) => FailedAs(w, c.opts, c.env, stage, undone, w')
  }

  /** No create, whatever becomes of it, removes or moves a branch that was there. */
  lemma CreatesKeepBranches(w: World, c: Call, w': World, branch: string)
    requires Leads(w, c, w') && branch in w.branches
    ensures branch in w'.branches && w'.branches[branch] == w.branches[branch]
  {
    hide WithoutAgentsOf, Leftovers, Acquired, Backwards;
    if c.answer.Created? {
      assert !Taken(w, c.opts, c.env, Worktree);
    } else if c.answer.stage != Worktree && DeleteRef in Relied(c.answer.stage) {
      assert branch in w'.branches - {c.opts.branch};
    }
  }

  /** A create of a branch that is there fails at its worktree at the latest. */
  lemma TakenBranchFails(w: World, c: Call, w': World)
    requires Leads(w, c, w') && c.opts.branch in w.branches
    ensures c.answer.Failed? && GroupOf(c.answer.stage) in {Checks, Tree} && w' == w
  {
    hide WithoutAgentsOf, Acquired, Backwards;
    assert Taken(w, c.opts, c.env, Worktree);
  }

  lemma {:induction false} BranchStays(ws: seq<World>, calls: seq<Call>, branch: string, i: nat, j: nat)
    requires CreateRun(ws, calls) && i <= j <= |calls| && branch in ws[i].branches
    ensures branch in ws[j].branches && ws[j].branches[branch] == ws[i].branches[branch]
    decreases j - i
  {
    hide Leads;
    if i < j {
      CreatesKeepBranches(ws[i], calls[i], ws[i + 1], branch);
      BranchStays(ws, calls, branch, i + 1, j);
    }
  }

  /**
   A branch left behind blocks every later create of it: over any run of creates, whatever their slugs
   and whatever becomes of them, each one of that branch fails at its worktree at the latest.
   */
  lemma LeftBranchBlocks(ws: seq<World>, calls: seq<Call>, i: nat, j: nat)
    requires CreateRun(ws, calls) && i < j < |calls| && calls[j].opts.branch == calls[i].opts.branch
    requires calls[i].answer.Failed? && calls[i].answer.stage == Worktree
    requires LeavesBranch(ws[i], calls[i].opts, calls[i].env)
    ensures calls[i].opts.branch !in ws[i].branches
    ensures calls[j].answer.Failed? && GroupOf(calls[j].answer.stage) in {Checks, Tree} && ws[j + 1] == ws[j]
  {
    assert Leads(ws[i], calls[i], ws[i + 1]) && Leads(ws[j], calls[j], ws[j + 1]);
    LeftIsThere(ws[i], calls[i], ws[i + 1]);
    hide Leads;
    BranchStays(ws, calls, calls[i].opts.branch, i + 1, j);
    TakenBranchFails(ws[j], calls[j], ws[j + 1]);
  }

  lemma LeftIsThere(w: World, c: Call, w': World)
    requires Leads(w, c, w') && c.answer.Failed? && c.answer.stage == Worktree && LeavesBranch(w, c.opts, c.env)
    ensures c.opts.branch in w'.branches
  {
  }

  // ---- the operation ----

  class Manager {
    var w: World

    constructor (w: World)
      ensures this.w == w
    {
      this.w := w;
    }

    /** `git worktree add -b branch path start`. */
    method AddWorktree(o: Opts, env: Env, start: string) returns (ok: bool)
      modifies this
      ensures ok <==> !Breaks(o, env, Worktree) && !Taken(old(w), o, env, Worktree)
      ensures w == AfterAdd(old(w), o, env, start)
      ensures ok ==> w == old(w).(worktrees := old(w).worktrees[o.slug := o.branch],
                                  branches := old(w).branches[o.branch := start])
      ensures !ok ==> w.worktrees == old(w).worktrees && (w == old(w) <==> !LeavesBranch(old(w), o, env))
      ensures ok <==> Worktree !in env.broken && o.branch !in old(w).branches && o.slug !in old(w).worktrees
      ensures !ok ==> w == if o.branch in old(w).branches || (Worktree in env.broken && !env.branchMade) then old(w)
                           else old(w).(branches := old(w).branches[o.branch := start])
    {
      if o.branch in w.branches { return false; }
      if Worktree in env.broken && !env.branchMade { return false; }
      w := w.(branches := w.branches[o.branch := start]);
      if Worktree in env.broken || o.slug in w.worktrees { return false; }
      w := w.(worktrees := w.worktrees[o.slug := o.branch]);
      return true;
    }

    /** Runs the compensations in reverse, ignoring those that fail. */
    method Rollback(undo: seq<Undo>, stuck: set<Cleanup>) returns (ran: seq<Undo>)
      modifies this
      ensures w == Unwind(old(w), undo, stuck)
      ensures ran == Backwards(undo)
      ensures |ran| == |undo| && forall i :: 0 <= i < |undo| ==> ran[i] == undo[|undo| - 1 - i]
    {
      ran := [];
      var i := |undo|;
      assert undo[..i] == undo;
      while i > 0
        invariant 0 <= i <= |undo|
        invariant Unwind(w, undo[..i], stuck) == Unwind(old(w), undo, stuck)
        invariant ran + Backwards(undo[..i]) == Backwards(undo)
        invariant |ran| == |undo| - i && forall j :: 0 <= j < |ran| ==> ran[j] == undo[|undo| - 1 - j]
      {
        assert undo[..i][..i - 1] == undo[..i - 1];
        i := i - 1;
        RunUndo(undo[i], stuck);
        ran := ran + [undo[i]];
      }
    }

    method RunUndo(u: Undo, stuck: set<Cleanup>)
      modifies this
      ensures w == Apply(old(w), u, stuck)
    {
      match u {
        case UndoWorktree(slug, branch) =>
          if RemoveWorktree !in stuck { w := w.(worktrees := w.worktrees - {slug}); }
          if DeleteRef !in stuck { w := w.(branches := w.branches - {branch}); }
        case UndoRow(id) =>
          if DeleteRow !in stuck {
            w := w.(rows := w.rows - {id}, agents := WithoutAgentsOf(w.agents, id));
          }
        case UndoRuntime(id) =>
          if DestroyRuntime !in stuck { w := w.(runtimes := w.runtimes - {id}); }
      }
    }

    method Abort(stage: Stage, undo: seq<Undo>, o: Opts, env: Env, ghost w0: World) returns (r: Outcome)
      requires undo == Acquired(stage, o, env)
      requires Grown(w0, w, Relied(stage), o, env)
      modifies this
      ensures r == Failed(stage, Backwards(Acquired(stage, o, env)))
      ensures w.SameCore(w0) <==> Relied(stage) !! env.stuck
      ensures Remains(w0, w, Relied(stage), o, env)
      ensures w.SameSurroundings(old(w))
    {
      hide Remains;
      UnwindRemains(w0, w, stage, o, env);
      UnwindRestoresIff(w0, w, stage, o, env);
      UnwindEffect(w, stage, o, env);
      var ran := Rollback(undo, env.stuck);
      return Failed(stage, ran);
    }

    // What is checked or prepared before anything is acquired.
    method Preflight(o: Opts, env: Env) returns (failed: Option<Stage>)
      ensures failed.None? ==> Sound(o, env, Checks) && !Taken(w, o, env, StartRef)
      ensures failed.Some? ==>
        GroupOf(failed.value).Checks? && (Breaks(o, env, failed.value) || Taken(w, o, env, failed.value))
      ensures Clear(w, o, env, 0, if failed.Some? then Order(failed.value) else 6)
    {
      if Driver in env.broken { return Some(Driver); }
      if Available in env.broken { return Some(Available); }
      if Adapter in env.broken { return Some(Adapter); }
      if StartRef in env.broken || Ref(o) !in w.branches { return Some(StartRef); }
      if Hooks in env.broken { return Some(Hooks); }
      if Exclude in env.broken { return Some(Exclude); }
      return None;
    }

    // The home, the spec and the network the runtime object needs.
    method Provision(o: Opts, env: Env) returns (failed: Option<Stage>)
      modifies this
      ensures failed.None? ==> Sound(o, env, Provisions)
      ensures failed.Some? ==> GroupOf(failed.value).Provisions? && Breaks(o, env, failed.value)
      ensures failed.None? ==> w == Provisioned(old(w), o)
      ensures w.SameCore(old(w)) && w.events == old(w).events
      ensures w.agents == old(w).agents && w.runtimes == old(w).runtimes && w.rows == old(w).rows
      ensures failed.Some? ==> Leftovers(old(w), w, o, env, failed.value)
      ensures Clear(old(w), o, env, 8, if failed.Some? then Order(failed.value) else 11)
    {
      if o.home != "" {
        if Home in env.broken { return Some(Home); }
        w := w.(homes := w.homes + {o.home});
      }
      if Spec in env.broken { return Some(Spec); }
      if o.network != "" {
        if Network in env.broken { return Some(Network); }
        w := w.(networks := w.networks + {o.network});
      }
      return None;
    }

    // Start, ports and the runtime's columns.
    method Boot(o: Opts, env: Env) returns (failed: Option<Stage>)
      requires o.branch in w.branches && env.rowId in w.rows && env.runtimeId in w.runtimes
      modifies this
      ensures failed.None? ==> Sound(o, env, Boots)
      ensures failed.Some? ==> GroupOf(failed.value).Boots? && Breaks(o, env, failed.value)
      ensures failed.None? ==> w == Booted(old(w), env)
      ensures Clear(old(w), o, env, 12, if failed.Some? then Order(failed.value) else 15)
      ensures Used(old(w), w, o, env) && w.agents == old(w).agents
      ensures w.SameSurroundings(old(w))
    {
      hide Used, Clear, Order;
      ghost var w0 := w;
      NotYetUsed(w, o, env);
      BootIsClear(w, o, env);
      if Start in env.broken { return Some(Start); }
      UsedMore(w0, w, o, env, true, w.rows[env.rowId], "");
      w := w.(runtimes := w.runtimes[env.runtimeId := true]);
      if Ports in env.broken { return Some(Ports); }
      if SetRuntime in env.broken { return Some(SetRuntime); }
      var row := w.rows[env.rowId].(runtime := env.runtimeId);
      UsedMore(w0, w, o, env, true, row, "");
      w := w.(rows := w.rows[env.rowId := row]);
      return None;
    }

    // The projection files, the hooks and the status.
    method Furnish(o: Opts, env: Env) returns (failed: Option<Stage>)
      requires o.branch in w.branches && env.rowId in w.rows && env.runtimeId in w.runtimes
      modifies this
      ensures failed.None? ==> Sound(o, env, Furnishes)
      ensures failed.Some? ==> GroupOf(failed.value).Furnishes? && Breaks(o, env, failed.value)
      ensures failed.None? ==> w == Furnished(old(w), o, env)
      ensures Clear(old(w), o, env, 15, if failed.Some? then Order(failed.value) else 18)
      ensures Used(old(w), w, o, env) && w.agents == old(w).agents
      ensures w.SameSurroundings(old(w))
    {
      hide Used, Clear, Order, Breaks, Taken, Sound, GroupOf;
      ghost var w0 := w;
      NotYetUsed(w, o, env);
      FurnishIsClear(w, o, env);
      if Prepare in env.broken { return Some(Prepare); }
      // A hook may commit on the new branch, whether or not it then fails.
      UsedMore(w0, w, o, env, true, w.rows[env.rowId], env.hookTip);
      w := w.(branches := w.branches[o.branch := env.hookTip]);
      if PostCreate in env.broken { return Some(PostCreate); }
      if MarkRunning in env.broken { return Some(MarkRunning); }
      var row := w.rows[env.rowId].(status := Running);
      UsedMore(w0, w, o, env, true, row, "");
      w := w.(rows := w.rows[env.rowId := row]);
      return None;
    }

    // The announcement and the agent.
    method Launch(o: Opts, env: Env) returns (failed: Option<Stage>)
      requires o.branch in w.branches && env.rowId in w.rows && env.runtimeId in w.runtimes
      modifies this
      ensures failed.None? ==> Sound(o, env, Launches) && !Taken(old(w), o, env, AgentInsert)
      ensures failed.None? ==> w == Launched(old(w), o, env)
      ensures failed.Some? ==>
        GroupOf(failed.value).Launches? && (Breaks(o, env, failed.value) || Taken(old(w), o, env, failed.value))
      ensures failed.Some? ==> Used(old(w), w, o, env)
      ensures failed.Some? ==> Trailing(old(w), w, env, failed.value)
      ensures Clear(old(w), o, env, 18, if failed.Some? then Order(failed.value) else 23)
    {
      hide WithoutAgentsOf, Used, Clear;
      NotYetUsed(w, o, env);
      ClearNothing(w, o, env, 18);
      if Announce in env.broken { return Some(Announce); }
      AnnounceIsClear(w, o, env);
      w := w.(events := w.events + [ContainerCreated(env.rowId)]);
      ghost var w1 := w;
      EventsAreNoUse(old(w), w, o, env);
      if !o.noAgent {
        failed := StartAgent(o, env);
        ClearReads(old(w), w1, o, env, 19, if failed.Some? then Order(failed.value) else 23);
        ClearOn(old(w), o, env, 18, 19, if failed.Some? then Order(failed.value) else 23);
        if failed.None? {
          assert old(w).events + [ContainerCreated(env.rowId)] + [AgentStarted(env.rowId, env.agentId)]
                 == old(w).events + Announced(o, env);
        } else {
          UsedThen(old(w), w1, w, o, env);
        }
        return;
      }
      NoAgentIsClear(old(w), o, env);
      ClearOn(old(w), o, env, 18, 19, 23);
      return None;
    }

    // The agent's row, session, status and event.
    method StartAgent(o: Opts, env: Env) returns (failed: Option<Stage>)
      requires !o.noAgent && o.branch in w.branches && env.rowId in w.rows && env.runtimeId in w.runtimes
      modifies this
      ensures failed.None? ==> forall st: Stage :: OfAgent(st) ==> !Breaks(o, env, st)
      ensures failed.None? ==> env.agentId !in old(w).agents
      ensures failed.None? ==> w == old(w).(agents := old(w).agents[env.agentId := env.rowId],
                                            events := old(w).events + [AgentStarted(env.rowId, env.agentId)])
      ensures failed.Some? ==>
        && OfAgent(failed.value) && (Breaks(o, env, failed.value) || Taken(old(w), o, env, failed.value))
        && Used(old(w), w, o, env) && w.events == old(w).events
      ensures Clear(old(w), o, env, 19, if failed.Some? then Order(failed.value) else 23)
    {
      hide WithoutAgentsOf, Used;
      ghost var w0 := w;
      NotYetUsed(w, o, env);
      if AgentInsert in env.broken || env.agentId in w.agents { return Some(AgentInsert); }
      AgentIsUse(w, o, env);
      w := w.(agents := w.agents[env.agentId := env.rowId]);
      if AgentSession in env.broken { return Some(AgentSession); }
      if AgentStatus in env.broken { return Some(AgentStatus); }
      if AgentAnnounce in env.broken { return Some(AgentAnnounce); }
      w := w.(events := w.events + [AgentStarted(env.rowId, env.agentId)]);
      return None;
    }

    // Everything after the runtime object exists.
    method Commission(o: Opts, env: Env, undo: seq<Undo>, ghost w0: World) returns (r: Outcome)
      requires undo == Acquired(Start, o, env)
      requires Grown(w0, w, Relied(Start), o, env)
      modifies this
      ensures r.Created? ==> r.id == env.rowId
      ensures r.Created? ==> w == Launched(Furnished(Booted(old(w), env), o, env), o, env)
      ensures r.Created? ==> Sound(o, env, Boots) && Sound(o, env, Furnishes) && Sound(o, env, Launches)
      ensures r.Created? ==> !Taken(old(w), o, env, AgentInsert)
      ensures r.Failed? ==> GroupOf(r.stage) in {Boots, Furnishes, Launches}
      ensures r.Failed? ==> Breaks(o, env, r.stage) || Taken(old(w), o, env, r.stage)
      ensures r.Failed? ==> r.undone == Backwards(Acquired(r.stage, o, env))
      ensures r.Failed? ==> (w.SameCore(w0) <==> Relied(r.stage) !! env.stuck)
      ensures r.Failed? ==> Remains(w0, w, Relied(r.stage), o, env)
      ensures r.Failed? ==> Trailing(old(w), w, env, r.stage)
      ensures r.Failed? ==> Clear(old(w), o, env, 12, Order(r.stage))
    {
      hide *;
      Groups();
      ghost var w1 := w;
      GrownHasAll(w0, w, o, env);
      var failed := Boot(o, env);
      UseKeepsGrown(w0, w1, w, o, env);
      GrownHasAll(w0, w, o, env);
      ghost var w2 := w;
      if failed.None? {
        failed := Furnish(o, env);
        ClearReads(w1, w2, o, env, 15, if failed.Some? then Order(failed.value) else 18);
        ClearOn(w1, o, env, 12, 15, if failed.Some? then Order(failed.value) else 18);
        TrailOn(w1, w2, w, env, Start);
        UseKeepsGrown(w0, w2, w, o, env);
        GrownHasAll(w0, w, o, env);
        if failed.None? {
          ghost var w3 := w;
          failed := Launch(o, env);
          TakenReads(w1, w3, o, env, if failed.None? then AgentInsert else failed.value);
          if failed.None? { return Created(env.rowId); }
          ClearReads(w1, w3, o, env, 18, Order(failed.value));
          ClearOn(w1, o, env, 12, 18, Order(failed.value));
          TrailOn(w1, w3, w, env, failed.value);
          UseKeepsGrown(w0, w3, w, o, env);
        }
      }
      GroupsOfAgent(failed.value);
      if GroupOf(failed.value) != Launches {
        TrailNothing(w1, w, env, failed.value);
      }
      LateStages(o, env, failed.value);
      ghost var w4 := w;
      r := Abort(failed.value, undo, o, env, w0);
      TrailStays(w1, w4, w, env, r.stage);
    }

    // Everything after the row exists.
    method Build(o: Opts, env: Env, undo: seq<Undo>, ghost w0: World) returns (r: Outcome)
      requires undo == Acquired(Home, o, env)
      requires Grown(w0, w, Relied(Home), o, env)
      modifies this
      ensures r.Created? ==> r.id == env.rowId
      ensures r.Created? ==>
        var w1 := Provisioned(old(w), o);
        w == Launched(Furnished(Booted(w1.(runtimes := w1.runtimes[env.runtimeId := false]), env), o, env), o, env)
      ensures r.Created? ==> Sound(o, env, Provisions) && Sound(o, env, Object)
      ensures r.Created? ==> Sound(o, env, Boots) && Sound(o, env, Furnishes) && Sound(o, env, Launches)
      ensures r.Created? ==> !Taken(old(w), o, env, RuntimeCreate) && !Taken(old(w), o, env, AgentInsert)
      ensures r.Failed? ==> GroupOf(r.stage) in {Provisions, Object, Boots, Furnishes, Launches}
      ensures r.Failed? ==> Breaks(o, env, r.stage) || Taken(old(w), o, env, r.stage)
      ensures r.Failed? ==> r.undone == Backwards(Acquired(r.stage, o, env))
      ensures r.Failed? ==> (w.SameCore(w0) <==> Relied(r.stage) !! env.stuck)
      ensures r.Failed? ==> Remains(w0, w, Relied(r.stage), o, env)
      ensures r.Failed? ==> Leftovers(old(w), w, o, env, r.stage)
      ensures r.Failed? ==> Clear(old(w), o, env, 8, Order(r.stage))
    {
      hide *;
      Groups();
      SoundOne(o, env);
      ghost var w1 := w;
      var failed := Provision(o, env);
      SameCoreGrown(w0, w1, w, Relied(Home), o, env);
      BreaksOne(o, env);
      TakenAt(w1, o, env);
      if failed.None? && (RuntimeCreate in env.broken || env.runtimeId in w.runtimes) {
        failed := Some(RuntimeCreate);
      }
      ghost var w2 := w;
      if failed.Some? {
        LateStages(o, env, failed.value);
        if failed == Some(RuntimeCreate) {
          ProvisionedHolds(w1, w2, o, env);
          OrderIs();
        }
        r := Abort(failed.value, undo, o, env, w0);
        LeftThen(w1, w2, w, o, env, r.stage);
        return;
      }
      GrownByRuntime(w0, w, o, env);
      w := w.(runtimes := w.runtimes[env.runtimeId := false]);
      ghost var w3 := w;
      AcquiredLast(o, env);
      r := Commission(o, env, undo + [UndoRuntime(env.runtimeId)], w0);
      TakenReads(w1, w3, o, env, if r.Failed? then r.stage else AgentInsert);
      if r.Failed? {
        ClearOne(w1, o, env, RuntimeCreate);
        ClearReads(w1, w3, o, env, 12, Order(r.stage));
        ClearOn(w1, o, env, 8, 11, 12);
        ClearOn(w1, o, env, 8, 12, Order(r.stage));
        SameButRuntimes(w2, w3);
        LeftAfterProvision(w1, w3, w, o, env, r.stage);
      }
    }

    /**
     All or nothing. It succeeds exactly when no stage breaks and nothing it needs is taken, and then
     the world is as promised. When it fails, whatever was acquired is compensated in reverse, and
     the branches, worktrees, container rows, agents and runtime objects are what they were before,
     if and only if none of the cleanups it relied on fails and git has not left the new branch behind.
     */
    method Create(given: Opts, env: Env) returns (r: Outcome)
      requires w.Valid()
      modifies this
      ensures r.Created? ==> CreatedAs(old(w), WithDefaults(given), env, r.id, w)
      ensures r.Failed? ==> FailedAs(old(w), WithDefaults(given), env, r.stage, r.undone, w)
      // The start ref is what counts where it is given, the parent where it is not.
      ensures var start := if given.startRef != "" then given.startRef else given.parentBranch;
              && (r.Created? ==>
                    r.id in w.rows && start in old(w).branches && w.rows[r.id].base == old(w).branches[start])
              && (start !in old(w).branches ==> r.Failed? && w == old(w))
    {
      hide *;
      var o := WithDefaults(given);
      StartsAt(given);
      Groups();
      SoundOne(o, env);
      BreaksOne(o, env);
      AcquiredLast(o, env);
      ghost var w0 := w;
      TakenAt(w0, o, env);
      var failed := Preflight(o, env);
      if failed.Some? {
        UntouchedAt(w0, o, env, failed.value);
        FailedIs(w0, o, env, failed.value, [], w);
        return Failed(failed.value, []);
      }
      var base := w.branches[Ref(o)];

      var ok := AddWorktree(o, env, base);
      ClearOne(w0, o, env, Worktree);
      ClearOne(w0, o, env, Insert);
      if !ok {
        FailedAdd(w0, w, o, env, base);
        return Failed(Worktree, []);
      }
      var undo := [UndoWorktree(o.slug, o.branch)];
      GrownByWorktree(w0, o, env, base);
      ghost var w1 := w;

      if Insert in env.broken || env.rowId in w.rows || (exists id :: id in w.rows && w.rows[id].branch == o.branch) {
        r := Abort(Insert, undo, o, env, w0);
        ClearOn(w0, o, env, 0, 6, 7);
        SameAround(w0, w1, o, base);
        NothingLeft(w0, w1, o, env, Insert);
        LeftThen(w0, w1, w, o, env, Insert);
        FailedIs(w0, o, env, Insert, r.undone, w);
        return;
      }
      var row := Row(o.branch, o.slug, o.parentBranch, base, base, "", Creating);
      GrownByRow(w0, w, o, env, row);
      w := w.(rows := w.rows[env.rowId := row]);
      ghost var w2 := w;
      r := Build(o, env, undo + [UndoRow(env.rowId)], w0);
      TakenReads(w0, w2, o, env, if r.Failed? then r.stage else AgentInsert);
      if r.Created? {
        TakenReads(w0, w2, o, env, RuntimeCreate);
        AllClear(w0, o, env);
        AllSteps(w0, o, env);
        CreatedIs(w0, o, env, w);
        SuccessInFull(w0, given, env, env.rowId, w);
      } else {
        SameAround(w0, w1, o, base);
        RowOnly(w1, w2);
        TrailOn(w0, w1, w2, env, Start);
        LeftFrom(w0, w2, w, o, env, r.stage);
        ClearOn(w0, o, env, 0, 6, 7);
        ClearOn(w0, o, env, 0, 7, 8);
        ClearFrom(w0, w2, o, env, Order(r.stage));
        ClearOn(w0, o, env, 0, 8, Order(r.stage));
        FailedIs(w0, o, env, r.stage, r.undone, w);
      }
    }
  }
}
