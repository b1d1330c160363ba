/**
 `internal/contextengine/grants.go`: what a subject may do with a context item, by stored grants and,
 for container context, by descent.
 */
module ContextGrants {
  import opened ContextStore
  import opened Lineage
  import opened Options

  datatype Perm = NoPerm | Read | Append | Propose | Write

  function Rank(p: Perm): nat {
    match p
    case NoPerm => 0
    case Read => 1
    case Append => 2
    case Propose => 3
    case Write => 4
  }

  predicate Allows(have: Perm, want: Perm) {
    Rank(have) >= Rank(want)
  }

  datatype Subject = Subject(agent: string, role: string, container: string, project: string, human: bool)

  datatype Grant = Grant(scope: string, scopeId: string, glob: string, subjectType: string, subject: string, perm: Perm)

  // ---- the ancestor walk ----

  const MAX_DEPTH: nat := 64

  /** `ancestor` is between 1 and `limit` parent hops above `child`. */
  ghost predicate Above(ps: Parents, child: string, ancestor: string, limit: nat) {
    exists k :: 1 <= k <= limit && Up(ps, child, k) == Some(ancestor)
  }

  // An id met again on the way up leads to nothing new.
  lemma {:induction false} CycleShowsNothingNew(ps: Parents, child: string, ancestor: string, i: nat, j: nat, m: nat)
    requires 1 <= i < j && Up(ps, child, i) == Up(ps, child, j)
    requires forall k :: 1 <= k <= j ==> Up(ps, child, k) != Some(ancestor)
    requires m >= 1
    ensures Up(ps, child, m) != Some(ancestor)
    decreases m
  {
    if m > j {
      UpRepeats(ps, child, i, j, m - j);
      CycleShowsNothingNew(ps, child, ancestor, i, j, i + (m - j));
    }
  }

  lemma {:induction false} NothingAboveNothing(ps: Parents, child: string, k: nat, m: nat)
    requires k <= m && Up(ps, child, k) == None
    ensures Up(ps, child, m) == None
    decreases m
  {
    if m > k {
      NothingAboveNothing(ps, child, k, m - 1);
    }
  }

  /**
   The walk: 64 hops at most, ended early by a missing row, an empty parent or a repeated one. None
   of the early ends costs an answer: it says yes exactly when the ancestor is 1 to 64 hops above.
   */
  method IsAncestorContainer(ps: Parents, child: string, ancestor: string) returns (yes: bool)
    ensures yes <==> Above(ps, child, ancestor, MAX_DEPTH)
  {
    hide Up;
    UpNone(ps, child);
    var seen: set<string> := {};
    var current := child;
    ghost var trail: seq<string> := [];
    for depth := 0 to MAX_DEPTH
      invariant Up(ps, child, depth) == Some(current)
      invariant |trail| == depth
      invariant forall k :: 0 <= k < depth ==> Up(ps, child, k + 1) == Some(trail[k]) && trail[k] != ancestor
      invariant forall id :: id in seen <==> id in trail
    {
      UpNext(ps, child, depth);
      if current !in ps || ps[current] == "" {
        NotAboveWhenEnded(ps, child, ancestor, trail);
        return false;
      }
      var parent := ps[current];
      if parent == ancestor {
        return true;
      }
      if parent in seen {
        NotAboveWhenRepeated(ps, child, ancestor, trail, parent);
        return false;
      }
      seen := seen + {parent};
      trail := trail + [parent];
      current := parent;
    }
    NotAboveYet(ps, child, ancestor, trail);
    return false;
  }

  lemma UpNone(ps: Parents, id: string)
    ensures Up(ps, id, 0) == Some(id)
  {
  }

  lemma UpNext(ps: Parents, id: string, k: nat)
    ensures Up(ps, id, k + 1)
         == match Up(ps, id, k)
            case Some(p) => if p in ps && ps[p] != "" then Some(ps[p]) else None
            case None => None
  {
  }

  ghost predicate Climbed(ps: Parents, child: string, ancestor: string, trail: seq<string>) {
    forall k :: 0 <= k < |trail| ==> Up(ps, child, k + 1) == Some(trail[k]) && trail[k] != ancestor
  }

  lemma NotAboveYet(ps: Parents, child: string, ancestor: string, trail: seq<string>)
    requires Climbed(ps, child, ancestor, trail)
    ensures !Above(ps, child, ancestor, |trail|)
  {
    hide Up;
    forall k | 1 <= k <= |trail| ensures Up(ps, child, k) != Some(ancestor) {
      assert Up(ps, child, (k - 1) + 1) == Some(trail[k - 1]);
    }
  }

  lemma NotAboveWhenEnded(ps: Parents, child: string, ancestor: string, trail: seq<string>)
    requires Climbed(ps, child, ancestor, trail) && Up(ps, child, |trail| + 1) == None
    ensures !Above(ps, child, ancestor, MAX_DEPTH)
  {
    hide Up;
    NotAboveYet(ps, child, ancestor, trail);
    forall k | 1 <= k <= MAX_DEPTH ensures Up(ps, child, k) != Some(ancestor) {
      if k > |trail| {
        NothingAboveNothing(ps, child, |trail| + 1, k);
      }
    }
  }

  lemma NotAboveWhenRepeated(ps: Parents, child: string, ancestor: string, trail: seq<string>, parent: string)
    requires Climbed(ps, child, ancestor, trail)
    requires parent in trail && parent != ancestor && Up(ps, child, |trail| + 1) == Some(parent)
    ensures !Above(ps, child, ancestor, MAX_DEPTH)
  {
    hide Up;
    NotAboveYet(ps, child, ancestor, trail);
    var i :| 0 <= i < |trail| && trail[i] == parent;
    forall k: nat | k >= 1 ensures Up(ps, child, k) != Some(ancestor) {
      CycleShowsNothingNew(ps, child, ancestor, i + 1, |trail| + 1, k);
    }
  }

  lemma {:induction false} UpStaysInRows(ps: Parents, child: string, k: nat, j: nat)
    requires j < k && Up(ps, child, k).Some?
    ensures Up(ps, child, j).Some? && Up(ps, child, j).value in ps
    decreases k
  {
    if j < k - 1 {
      UpStaysInRows(ps, child, k - 1, j);
    }
  }

  // The first time the climb meets `ancestor`, it has met no id twice.
  lemma {:induction false} ShortestClimb(ps: Parents, child: string, ancestor: string, k: nat) returns (least: nat)
    requires k >= 1 && Up(ps, child, k) == Some(ancestor)
    ensures 1 <= least <= k && Up(ps, child, least) == Some(ancestor)
    ensures forall m :: 1 <= m < least ==> Up(ps, child, m) != Some(ancestor)
    decreases k
  {
    if m :| 1 <= m < k && Up(ps, child, m) == Some(ancestor) {
      least := ShortestClimb(ps, child, ancestor, m);
    } else {
      least := k;
    }
  }

  /**
   The cap is no limit for small forests: with at most 64 containers, cycles or not, the walk finds
   every ancestor there is, however many hops are counted.
   */
  lemma CapIsEnough(ps: Parents, child: string, ancestor: string, k: nat)
    requires |ps| <= MAX_DEPTH
    requires k >= 1 && Up(ps, child, k) == Some(ancestor)
    ensures Above(ps, child, ancestor, MAX_DEPTH)
  {
    var least := ShortestClimb(ps, child, ancestor, k);
    forall j: nat | j < least ensures Up(ps, child, j).Some? && Up(ps, child, j).value in ps {
      UpStaysInRows(ps, child, least, j);
    }
    var climb := seq(least, j requires 0 <= j < least => Up(ps, child, j).value);
    forall i, j | 0 <= i < j < |climb| ensures climb[i] != climb[j] {
      if climb[i] == climb[j] {
        assert Up(ps, child, i) == Up(ps, child, j);
        UpRepeats(ps, child, i, j, least - j);
        assert false;
      }
    }
    DistinctFit(climb, ps.Keys);
    assert |ps.Keys| == |ps|;
  }

  // ---- keys and patterns ----

  /** `path.Match`; an ill-formed pattern matches nothing. */
  type Matcher = (string, string) -> bool

  predicate EndsWith(s: string, suffix: string) {
    |s| >= |suffix| && s[|s| - |suffix|..] == suffix
  }

  // Two stars cross slashes, one star does not; a directory with two stars is the directory and all below it.
  predicate MatchKey(pm: Matcher, glob: string, key: string) {
    if glob == "**" || (glob == "*" && '/' !in key) then true
    else if EndsWith(glob, "/**") then
      var below := glob[..|glob| - 3];
      key == below || below + "/" <= key
    else pm(glob, key)
  }

  /** Which keys a pattern fits, by its shape. */
  lemma KeyFits(pm: Matcher, glob: string, key: string, dir: string)
    ensures MatchKey(pm, "**", key)
    ensures MatchKey(pm, "*", key) <==> '/' !in key || pm("*", key)
    ensures MatchKey(pm, dir + "/**", key) <==> key == dir || dir + "/" <= key
    ensures glob !in {"*", "**"} && (forall d :: glob != d + "/**") ==> (MatchKey(pm, glob, key) <==> pm(glob, key))
  {
    assert (dir + "/**")[..|dir|] == dir && (dir + "/**")[|dir|..] == "/**";
    if EndsWith(glob, "/**") {
      assert glob == glob[..|glob| - 3] + "/**";
    }
  }

  // ---- grants ----

  predicate Speaks(pm: Matcher, g: Grant, ref: Ref, typ: string, id: string) {
    && g.subjectType == typ && g.subject == id
    && g.scope == ref.scope && (g.scopeId == ref.scopeId || g.scopeId == "*")
    && MatchKey(pm, g.glob, ref.key)
  }

  ghost predicate Says(pm: Matcher, grants: seq<Grant>, ref: Ref, typ: string, id: string, perm: Perm) {
    exists g :: g in grants && Speaks(pm, g, ref, typ, id) && g.perm == perm
  }

  /** The strongest of what a level's matching grants give; nothing if none matches. */
  ghost function BestAt(pm: Matcher, grants: seq<Grant>, ref: Ref, typ: string, id: string): Option<Perm> {
    if id == "" then None
    else if Says(pm, grants, ref, typ, id, Write) then Some(Write)
    else if Says(pm, grants, ref, typ, id, Propose) then Some(Propose)
    else if Says(pm, grants, ref, typ, id, Append) then Some(Append)
    else if Says(pm, grants, ref, typ, id, Read) then Some(Read)
    else None
  }

  /**
   What a level comes to, row by row. A row counts if it is for this very subject, in the item's scope, for
   the item's owner or for every owner, and its pattern fits the key; the strongest that counts is held.
   */
  lemma StrongestCounts(pm: Matcher, grants: seq<Grant>, ref: Ref, typ: string, id: string, perm: Perm)
    requires id != "" && Stored(grants)
    ensures BestAt(pm, grants, ref, typ, id) == Some(perm) <==>
              && (exists g :: g in grants && Counts(pm, g, ref, typ, id) && g.perm == perm)
              && forall g :: g in grants && Counts(pm, g, ref, typ, id) ==>
                   perm.Write? || g.perm.Read? || g.perm == perm || (perm.Propose? && g.perm.Append?)
    ensures BestAt(pm, grants, ref, typ, id) == None <==> forall g :: g in grants ==> !Counts(pm, g, ref, typ, id)
  {
    hide MatchKey;
    forall g | g in grants && Counts(pm, g, ref, typ, id) ensures Says(pm, grants, ref, typ, id, g.perm) {
      assert Speaks(pm, g, ref, typ, id);
    }
    forall p: Perm | Says(pm, grants, ref, typ, id, p)
      ensures p != NoPerm && exists g :: g in grants && Counts(pm, g, ref, typ, id) && g.perm == p
    {
      var g :| g in grants && Speaks(pm, g, ref, typ, id) && g.perm == p;
      assert Counts(pm, g, ref, typ, id);
    }
  }

  ghost predicate Counts(pm: Matcher, g: Grant, ref: Ref, typ: string, id: string) {
    && g.subjectType == typ && g.subject == id && g.scope == ref.scope && g.scopeId in {ref.scopeId, "*"}
    && MatchKey(pm, g.glob, ref.key)
  }

  // Stored permissions are never the empty one (a check of the table).
  ghost predicate Stored(grants: seq<Grant>) {
    forall g :: g in grants ==> g.perm != NoPerm
  }

  /** One pass over the rows, in any order. */
  method BestGrant(pm: Matcher, grants: seq<Grant>, ref: Ref, typ: string, id: string) returns (best: Perm, found: bool)
    requires id != "" && Stored(grants)
    ensures BestAt(pm, grants, ref, typ, id) == if found then Some(best) else None
  {
    best, found := NoPerm, false;
    for i := 0 to |grants|
      invariant found ==> exists k :: 0 <= k < i && Speaks(pm, grants[k], ref, typ, id) && grants[k].perm == best
      invariant forall k :: 0 <= k < i && Speaks(pm, grants[k], ref, typ, id) ==> found && Rank(grants[k].perm) <= Rank(best)
      invariant !found ==> best == NoPerm
    {
      if !Speaks(pm, grants[i], ref, typ, id) { continue; }
      assert grants[i] in grants;
      found := true;
      if Rank(grants[i].perm) > Rank(best) {
        best := grants[i].perm;
      }
    }
    forall perm: Perm | Says(pm, grants, ref, typ, id, perm) ensures found && Rank(perm) <= Rank(best) {
      var g :| g in grants && Speaks(pm, g, ref, typ, id) && g.perm == perm;
      var k :| 0 <= k < |grants| && grants[k] == g;
      assert Speaks(pm, grants[k], ref, typ, id);
    }
    if found {
      ghost var k :| 0 <= k < |grants| && Speaks(pm, grants[k], ref, typ, id) && grants[k].perm == best;
      assert grants[k] in grants;
      assert Says(pm, grants, ref, typ, id, best);
    }
  }

  // ---- resolving ----

  function Levels(s: Subject): seq<(string, string)> {
    [("agent", s.agent), ("role", s.role), ("container", s.container), ("project", s.project)]
  }

  /** The first level that says anything decides. */
  ghost function FirstSaid(pm: Matcher, grants: seq<Grant>, ref: Ref, levels: seq<(string, string)>): Option<Perm> {
    if levels == [] then None
    else
      var best := BestAt(pm, grants, ref, levels[0].0, levels[0].1);
      if best.Some? then best else FirstSaid(pm, grants, ref, levels[1..])
  }

  /** What holds when no grant speaks: read on the containers above, write on one's own, otherwise nothing. */
  ghost function Unstated(ps: Parents, s: Subject, ref: Ref): Perm {
    if ref.scope == "container" && s.container != "" && ref.scopeId != s.container
      && Above(ps, s.container, ref.scopeId, MAX_DEPTH)
    then Read
    else if (ref.scope == "container" && ref.scopeId == s.container) || (ref.scope == "agent" && ref.scopeId == s.agent)
    then Write
    else NoPerm
  }

  ghost function Resolved(pm: Matcher, grants: seq<Grant>, ps: Parents, s: Subject, ref: Ref): Perm {
    if s.human then Write
    else match FirstSaid(pm, grants, ref, Levels(s))
      case Some(perm) => perm
      case None => Unstated(ps, s, ref)
  }

  method ResolvePerm(pm: Matcher, grants: seq<Grant>, ps: Parents, s: Subject, ref: Ref) returns (perm: Perm)
    requires Stored(grants)
    ensures perm == Resolved(pm, grants, ps, s, ref)
  {
    hide BestAt;
    if s.human { return Write; }
    var levels := Levels(s);
    for i := 0 to |levels|
      invariant FirstSaid(pm, grants, ref, levels[i..]) == FirstSaid(pm, grants, ref, levels)
    {
      var (typ, id) := levels[i];
      assert levels[i..][0] == levels[i] && levels[i..][1..] == levels[i + 1..];
      if id == "" {
        NobodySaysNothing(pm, grants, ref, typ);
        continue;
      }
      var best, found := BestGrant(pm, grants, ref, typ, id);
      if found { return best; }
    }
    assert levels[|levels|..] == [];
    if ref.scope == "container" && s.container != "" && ref.scopeId != s.container {
      var ancestor := IsAncestorContainer(ps, s.container, ref.scopeId);
      if ancestor { return Read; }
    }
    if ref.scope == "container" && ref.scopeId == s.container { return Write; }
    if ref.scope == "agent" && ref.scopeId == s.agent { return Write; }
    return NoPerm;
  }

  /**
   The precedence, written out: a human may write; else agent, role, container, project decide in this order;
   else a container reads what is 1 to 64 hops above it, and a container and an agent write their own.
   */
  lemma ResolvedUnfolds(pm: Matcher, grants: seq<Grant>, ps: Parents, s: Subject, ref: Ref)
    ensures var agent, role := BestAt(pm, grants, ref, "agent", s.agent), BestAt(pm, grants, ref, "role", s.role);
            var container := BestAt(pm, grants, ref, "container", s.container);
            var project := BestAt(pm, grants, ref, "project", s.project);
            Resolved(pm, grants, ps, s, ref)
            == if s.human then Write
               else if agent.Some? then agent.value
               else if role.Some? then role.value
               else if container.Some? then container.value
               else if project.Some? then project.value
               else if ref.scope == "container" && s.container != "" && ref.scopeId != s.container
                       && Above(ps, s.container, ref.scopeId, 64) then Read
               else if ref.scope == "container" && ref.scopeId == s.container then Write
               else if ref.scope == "agent" && ref.scopeId == s.agent then Write
               else NoPerm
    // Each permission includes the weaker ones: write, propose, append, read.
    ensures forall have: Perm, want: Perm :: Allows(have, want) <==>
              || have == want || have.Write? || want.NoPerm? || (want.Read? && !have.NoPerm?)
              || (have.Propose? && want.Append?)
  {
    hide BestAt, Above;
    var l := Levels(s);
    assert l[1..][0] == l[1] && l[2..][0] == l[2] && l[3..][0] == l[3];
    assert l[1..][1..] == l[2..] && l[2..][1..] == l[3..] && l[3..][1..] == [];
    assert FirstSaid(pm, grants, ref, l[3..]) == BestAt(pm, grants, ref, "project", s.project);
    assert FirstSaid(pm, grants, ref, l[2..])
        == if BestAt(pm, grants, ref, "container", s.container).Some?
           then BestAt(pm, grants, ref, "container", s.container)
           else FirstSaid(pm, grants, ref, l[3..]);
    assert FirstSaid(pm, grants, ref, l[1..])
        == if BestAt(pm, grants, ref, "role", s.role).Some? then BestAt(pm, grants, ref, "role", s.role)
           else FirstSaid(pm, grants, ref, l[2..]);
  }

  lemma NobodySaysNothing(pm: Matcher, grants: seq<Grant>, ref: Ref, typ: string)
    ensures BestAt(pm, grants, ref, typ, "") == None
  {
  }

  /** The order in which the rows are read does not matter. */
  lemma {:induction false} RowOrderDoesNotMatter(pm: Matcher, grants: seq<Grant>, others: seq<Grant>, ref: Ref,
                                                 levels: seq<(string, string)>)
    requires forall g :: g in grants <==> g in others
    ensures FirstSaid(pm, grants, ref, levels) == FirstSaid(pm, others, ref, levels)
  {
    if levels != [] {
      forall perm: Perm
        ensures Says(pm, grants, ref, levels[0].0, levels[0].1, perm)
          == Says(pm, others, ref, levels[0].0, levels[0].1, perm)
      {
      }
      RowOrderDoesNotMatter(pm, grants, others, ref, levels[1..]);
    }
  }

  // ---- what the rows come to ----

  // Some row speaks at a level.
  ghost predicate SpeaksAt(pm: Matcher, grants: seq<Grant>, ref: Ref, level: (string, string)) {
    level.1 != "" && exists g :: g in grants && Speaks(pm, g, ref, level.0, level.1)
  }

  // Some row that speaks at a level gives at least `want`.
  ghost predicate GivesAt(pm: Matcher, grants: seq<Grant>, ref: Ref, level: (string, string), want: Perm) {
    level.1 != "" && exists g :: g in grants && Speaks(pm, g, ref, level.0, level.1) && Allows(g.perm, want)
  }

  /** No row speaks at any level. */
  ghost predicate Silent(pm: Matcher, grants: seq<Grant>, ref: Ref, levels: seq<(string, string)>) {
    forall i :: 0 <= i < |levels| ==> !SpeaksAt(pm, grants, ref, levels[i])
  }

  /** At the first level where a row speaks, one of those that do gives at least `want`. */
  ghost predicate FirstGives(pm: Matcher, grants: seq<Grant>, ref: Ref, levels: seq<(string, string)>, want: Perm) {
    exists i :: 0 <= i < |levels| && GivesAt(pm, grants, ref, levels[i], want)
                && Silent(pm, grants, ref, levels[..i])
  }

  lemma BestOfTheRows(pm: Matcher, grants: seq<Grant>, ref: Ref, level: (string, string), want: Perm)
    requires Stored(grants) && want != NoPerm
    ensures BestAt(pm, grants, ref, level.0, level.1).Some? <==> SpeaksAt(pm, grants, ref, level)
    ensures (BestAt(pm, grants, ref, level.0, level.1).Some?
             && Allows(BestAt(pm, grants, ref, level.0, level.1).value, want))
            <==> GivesAt(pm, grants, ref, level, want)
  {
    hide Speaks;
    var (typ, id) := level;
    if id != "" {
      forall g | g in grants && Speaks(pm, g, ref, typ, id) ensures Says(pm, grants, ref, typ, id, g.perm) {
      }
    }
  }

  lemma {:induction false} FirstSaidIff(pm: Matcher, grants: seq<Grant>, ref: Ref, levels: seq<(string, string)>,
                                        want: Perm)
    requires Stored(grants) && want != NoPerm
    ensures FirstSaid(pm, grants, ref, levels).None? <==> Silent(pm, grants, ref, levels)
    ensures FirstSaid(pm, grants, ref, levels).Some? ==>
              (Allows(FirstSaid(pm, grants, ref, levels).value, want)
               <==> FirstGives(pm, grants, ref, levels, want))
  {
    hide SpeaksAt, GivesAt, BestAt, Allows;
    if levels != [] {
      BestOfTheRows(pm, grants, ref, levels[0], want);
      FirstSaidIff(pm, grants, ref, levels[1..], want);
      FirstGivesUnfolds(pm, grants, ref, levels, want);
    }
  }

  lemma SilentTail(pm: Matcher, grants: seq<Grant>, ref: Ref, level: (string, string), rest: seq<(string, string)>)
    ensures Silent(pm, grants, ref, [level] + rest)
            <==> !SpeaksAt(pm, grants, ref, level) && Silent(pm, grants, ref, rest)
  {
    hide SpeaksAt;
    var all := [level] + rest;
    assert all[0] == level;
    assert forall i :: 0 <= i < |rest| ==> rest[i] == all[i + 1];
    assert forall i :: 0 < i < |all| ==> all[i] == rest[i - 1];
  }

  lemma FirstGivesUnfolds(pm: Matcher, grants: seq<Grant>, ref: Ref, levels: seq<(string, string)>, want: Perm)
    requires levels != []
    requires GivesAt(pm, grants, ref, levels[0], want) ==> SpeaksAt(pm, grants, ref, levels[0])
    ensures Silent(pm, grants, ref, levels) <==>
              !SpeaksAt(pm, grants, ref, levels[0]) && Silent(pm, grants, ref, levels[1..])
    ensures FirstGives(pm, grants, ref, levels, want) <==>
              if SpeaksAt(pm, grants, ref, levels[0]) then GivesAt(pm, grants, ref, levels[0], want)
              else FirstGives(pm, grants, ref, levels[1..], want)
  {
    hide SpeaksAt, GivesAt;
    var rest := levels[1..];
    assert forall i :: 0 < i < |levels| ==> levels[i] == rest[i - 1];
    if i :| 0 <= i < |levels| && GivesAt(pm, grants, ref, levels[i], want) && Silent(pm, grants, ref, levels[..i]) {
      if i > 0 {
        assert levels[..i][0] == levels[0];
        assert levels[..i] == [levels[0]] + rest[..i - 1];
        SilentTail(pm, grants, ref, levels[0], rest[..i - 1]);
        assert GivesAt(pm, grants, ref, rest[i - 1], want) && Silent(pm, grants, ref, rest[..i - 1]);
      }
    }
    if SpeaksAt(pm, grants, ref, levels[0]) {
      assert Silent(pm, grants, ref, levels[..0]);
    } else if k :| 0 <= k < |rest| && GivesAt(pm, grants, ref, rest[k], want) && Silent(pm, grants, ref, rest[..k]) {
      assert levels[..k + 1] == [levels[0]] + rest[..k];
      SilentTail(pm, grants, ref, levels[0], rest[..k]);
      assert GivesAt(pm, grants, ref, levels[k + 1], want) && Silent(pm, grants, ref, levels[..k + 1]);
    }
  }

  /**
   Who may do what, in terms of the rows. An agent has a permission exactly when, at the first of its levels
   where a row speaks, some row that speaks there gives it; or when none speaks and the item's place gives it.
   */
  lemma AllowedIff(pm: Matcher, grants: seq<Grant>, ps: Parents, s: Subject, ref: Ref, want: Perm)
    requires !s.human && Stored(grants) && want != NoPerm
    ensures Allows(Resolved(pm, grants, ps, s, ref), want)
            <==> || FirstGives(pm, grants, ref, Levels(s), want)
                 || (Silent(pm, grants, ref, Levels(s)) && Allows(Unstated(ps, s, ref), want))
  {
    hide FirstSaid, FirstGives, Unstated, Allows, Silent;
    FirstSaidIff(pm, grants, ref, Levels(s), want);
    GivingIsSpeaking(pm, grants, ref, Levels(s), want);
  }

  lemma GivingIsSpeaking(pm: Matcher, grants: seq<Grant>, ref: Ref, levels: seq<(string, string)>, want: Perm)
    ensures FirstGives(pm, grants, ref, levels, want) ==> !Silent(pm, grants, ref, levels)
  {
    hide Speaks, Allows;
    if i :| 0 <= i < |levels| && GivesAt(pm, grants, ref, levels[i], want) && Silent(pm, grants, ref, levels[..i]) {
      assert SpeaksAt(pm, grants, ref, levels[i]);
    }
  }

  /**
   A container's own context is not always its own: a grant at any of its levels decides first, so a
   project-wide read grant takes its write away. It may write exactly when no row speaks at any level,
   or one that speaks at the first such level gives write.
   */
  lemma OwnerWritesIff(pm: Matcher, grants: seq<Grant>, ps: Parents, s: Subject, ref: Ref)
    requires !s.human && Stored(grants) && ref.scope == "container" && ref.scopeId == s.container
    ensures Allows(Resolved(pm, grants, ps, s, ref), Write)
            <==> Silent(pm, grants, ref, Levels(s)) || FirstGives(pm, grants, ref, Levels(s), Write)
  {
    hide Silent, FirstGives, Resolved;
    AllowedIff(pm, grants, ps, s, ref, Write);
  }

  /**
   Another container's context. An agent reads it exactly when some row speaks at one of its levels, or
   that container is 1 to 64 hops above its own; everything beyond reading takes a row that gives it.
   */
  lemma DescendantsReadIff(pm: Matcher, grants: seq<Grant>, ps: Parents, s: Subject, ref: Ref, more: Perm)
    requires !s.human && Stored(grants) && more !in {NoPerm, Read}
    requires ref.scope == "container" && ref.scopeId != s.container && s.container != ""
    ensures Allows(Resolved(pm, grants, ps, s, ref), Read)
            <==> !Silent(pm, grants, ref, Levels(s)) || Above(ps, s.container, ref.scopeId, MAX_DEPTH)
    ensures Allows(Resolved(pm, grants, ps, s, ref), more) <==> FirstGives(pm, grants, ref, Levels(s), more)
  {
    hide Silent, FirstGives, Resolved, Above;
    AllowedIff(pm, grants, ps, s, ref, Read);
    AllowedIff(pm, grants, ps, s, ref, more);
    EveryRowGivesRead(pm, grants, ref, Levels(s));
  }

  // Stored rows give at least read.
  lemma EveryRowGivesRead(pm: Matcher, grants: seq<Grant>, ref: Ref, levels: seq<(string, string)>)
    requires Stored(grants)
    ensures FirstGives(pm, grants, ref, levels, Read) <==> !Silent(pm, grants, ref, levels)
  {
    FirstSaidIff(pm, grants, ref, levels, Read);
    GivingIsSpeaking(pm, grants, ref, levels, Read);
    SaidIsNotNothing(pm, grants, ref, levels);
    hide Silent, FirstGives, FirstSaid;
  }

  lemma {:induction false} SaidIsNotNothing(pm: Matcher, grants: seq<Grant>, ref: Ref, levels: seq<(string, string)>)
    ensures FirstSaid(pm, grants, ref, levels) != Some(NoPerm)
  {
    if levels != [] {
      SaidIsNotNothing(pm, grants, ref, levels[1..]);
    }
  }

  // ---- the defaults of a project ----

  function RoleDefaults(project: string, role: string): seq<Grant> {
    [Grant("project", project, "**", "role", role, Read),
     Grant("project", project, "architecture/**", "role", role, Propose),
     Grant("project", project, "conventions/**", "role", role, Propose),
     Grant("project", project, "decisions/**", "role", role, Append)]
  }

  function Defaults(project: string): seq<Grant> {
    RoleDefaults(project, "primary") + RoleDefaults(project, "master")
    + [Grant("project", project, "**", "role", "worker", Read)]
  }

  predicate Under(key: string, dir: string) {
    key == dir || dir + "/" <= key
  }

  /** What the defaults come to for every agent and every key of a project. */
  lemma DefaultsDecide(pm: Matcher, project: string, s: Subject, key: string)
    requires s.role != ""
    ensures var ref := Ref("project", project, key);
            FirstSaid(pm, Defaults(project), ref, Levels(s))
            == if s.role in {"primary", "master"} then
                 if Under(key, "architecture") || Under(key, "conventions") then Some(Propose)
                 else if Under(key, "decisions") then Some(Append)
                 else Some(Read)
               else if s.role == "worker" then Some(Read)
               else None
  {
    hide BestAt;
    var grants := Defaults(project);
    var ref := Ref("project", project, key);
    var l := Levels(s);
    assert l[1..][0] == l[1] && l[2..][0] == l[2] && l[3..][0] == l[3];
    assert l[1..][1..] == l[2..] && l[2..][1..] == l[3..] && l[3..][1..] == [];
    OnlyRolesSpeak(pm, project, ref, "agent", s.agent);
    OnlyRolesSpeak(pm, project, ref, "container", s.container);
    OnlyRolesSpeak(pm, project, ref, "project", s.project);
    DefaultsForRole(pm, project, key, s.role);
    assert FirstSaid(pm, grants, ref, l[3..]) == None;
    assert FirstSaid(pm, grants, ref, l[2..]) == None;
    assert FirstSaid(pm, grants, ref, l[1..]) == BestAt(pm, grants, ref, "role", s.role);
  }

  lemma OnlyRolesSpeak(pm: Matcher, project: string, ref: Ref, typ: string, id: string)
    requires typ != "role"
    ensures BestAt(pm, Defaults(project), ref, typ, id) == None
  {
    var grants := Defaults(project);
    assert forall g :: g in grants ==> g.subjectType == "role";
  }

  lemma DefaultsForRole(pm: Matcher, project: string, key: string, role: string)
    requires role != ""
    ensures var ref := Ref("project", project, key);
            BestAt(pm, Defaults(project), ref, "role", role)
            == if role in {"primary", "master"} then
                 if Under(key, "architecture") || Under(key, "conventions") then Some(Propose)
                 else if Under(key, "decisions") then Some(Append)
                 else Some(Read)
               else if role == "worker" then Some(Read)
               else None
  {
    hide MatchKey;
    var ref := Ref("project", project, key);
    var grants := Defaults(project);
    PatternsOfDefaults(pm, key);
    forall perm: Perm
      ensures Says(pm, grants, ref, "role", role, perm) <==>
                || (perm == Read && role in {"primary", "master", "worker"})
                || (perm == Propose && role in {"primary", "master"}
                  && (Under(key, "architecture") || Under(key, "conventions")))
                || (perm == Append && role in {"primary", "master"} && Under(key, "decisions"))
    {
      RoleSays(pm, project, key, role, perm);
    }
  }

  lemma PatternsOfDefaults(pm: Matcher, key: string)
    ensures MatchKey(pm, "**", key)
    ensures MatchKey(pm, "architecture/**", key) <==> Under(key, "architecture")
    ensures MatchKey(pm, "conventions/**", key) <==> Under(key, "conventions")
    ensures MatchKey(pm, "decisions/**", key) <==> Under(key, "decisions")
  {
    assert "architecture/**"[12..] == "/**" && "architecture/**"[..12] == "architecture";
    assert "conventions/**"[11..] == "/**" && "conventions/**"[..11] == "conventions";
    assert "decisions/**"[9..] == "/**" && "decisions/**"[..9] == "decisions";
  }

  lemma SaysAppend(pm: Matcher, a: seq<Grant>, b: seq<Grant>, ref: Ref, typ: string, id: string, perm: Perm)
    ensures Says(pm, a + b, ref, typ, id, perm) <==> Says(pm, a, ref, typ, id, perm) || Says(pm, b, ref, typ, id, perm)
  {
    hide Speaks;
    assert forall g :: g in a + b <==> g in a || g in b;
  }

  lemma SaysOne(pm: Matcher, g: Grant, ref: Ref, typ: string, id: string, perm: Perm)
    ensures Says(pm, [g], ref, typ, id, perm) <==> Speaks(pm, g, ref, typ, id) && g.perm == perm
  {
    hide Speaks;
    assert g in [g];
  }

  lemma RoleDefaultsSay(pm: Matcher, project: string, of: string, key: string, role: string, perm: Perm)
    ensures Says(pm, RoleDefaults(project, of), Ref("project", project, key), "role", role, perm) <==>
              role == of
              && (|| perm == Read
                  || (perm == Propose && (Under(key, "architecture") || Under(key, "conventions")))
                  || (perm == Append && Under(key, "decisions")))
  {
    hide MatchKey, Says;
    PatternsOfDefaults(pm, key);
    var r := RoleDefaults(project, of);
    var ref := Ref("project", project, key);
    assert r == [r[0]] + ([r[1]] + ([r[2]] + [r[3]]));
    SaysAppend(pm, [r[0]], [r[1]] + ([r[2]] + [r[3]]), ref, "role", role, perm);
    SaysAppend(pm, [r[1]], [r[2]] + [r[3]], ref, "role", role, perm);
    SaysAppend(pm, [r[2]], [r[3]], ref, "role", role, perm);
    SaysOne(pm, r[0], ref, "role", role, perm);
    SaysOne(pm, r[1], ref, "role", role, perm);
    SaysOne(pm, r[2], ref, "role", role, perm);
    SaysOne(pm, r[3], ref, "role", role, perm);
  }

  lemma RoleSays(pm: Matcher, project: string, key: string, role: string, perm: Perm)
    ensures Says(pm, Defaults(project), Ref("project", project, key), "role", role, perm) <==>
              || (perm == Read && role in {"primary", "master", "worker"})
              || (perm == Propose && role in {"primary", "master"}
                && (Under(key, "architecture") || Under(key, "conventions")))
              || (perm == Append && role in {"primary", "master"} && Under(key, "decisions"))
  {
    hide MatchKey, Says, RoleDefaults, Under;
    var ref := Ref("project", project, key);
    var primary, master := RoleDefaults(project, "primary"), RoleDefaults(project, "master");
    var worker := Grant("project", project, "**", "role", "worker", Read);
    PatternsOfDefaults(pm, key);
    SaysAppend(pm, primary + master, [worker], ref, "role", role, perm);
    SaysAppend(pm, primary, master, ref, "role", role, perm);
    RoleDefaultsSay(pm, project, "primary", key, role, perm);
    RoleDefaultsSay(pm, project, "master", key, role, perm);
    SaysOne(pm, worker, ref, "role", role, perm);
  }
}
