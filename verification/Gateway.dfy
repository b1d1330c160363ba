/**
 `internal/gateway`: which capabilities a caller has (`grants.go`), which tools it is shown and
 what a call to one of them does (`gateway.go`).
 */
module Gateway {
  import opened GoStrings
  import opened Options

  datatype Mode = Allow | Deny | Approve

  datatype Grant = Grant(integration: string, glob: string, subjectType: string, subject: string, mode: Mode)

  datatype Subject = Subject(agent: string, role: string, container: string, project: string)

  /** `path.Match`: whether a pattern matches a name (an ill-formed pattern matches nothing). */
  type Matcher = (string, string) -> bool

  predicate MatchCapability(pm: Matcher, glob: string, capability: string) {
    glob == "*" || glob == "**" || pm(glob, capability)
  }

  // ---- what a decision means ----

  /** A grant that speaks about this call at this level. */
  predicate Speaks(pm: Matcher, g: Grant, integration: string, capability: string, typ: string, subject: string) {
    && g.integration == integration && g.subjectType == typ && g.subject == subject
    && MatchCapability(pm, g.glob, capability)
  }

  ghost predicate Says(pm: Matcher, grants: seq<Grant>, integration: string, capability: string,
                       typ: string, subject: string, mode: Mode)
  {
    exists g :: g in grants && Speaks(pm, g, integration, capability, typ, subject) && g.mode == mode
  }

  /** The most restrictive of what the matching grants of a level say, in whatever order they come. */
  ghost function AtLevel(pm: Matcher, grants: seq<Grant>, integration: string, capability: string,
                         typ: string, subject: string): Option<Mode>
  {
    if subject == "" then None
    else if Says(pm, grants, integration, capability, typ, subject, Deny) then Some(Deny)
    else if Says(pm, grants, integration, capability, typ, subject, Approve) then Some(Approve)
    else if Says(pm, grants, integration, capability, typ, subject, Allow) then Some(Allow)
    else None
  }

  function Levels(s: Subject): seq<(string, string)> {
    [("agent", s.agent), ("role", s.role), ("container", s.container), ("project", s.project)]
  }

  /** The first of the levels that says anything. */
  ghost function FirstSaid(pm: Matcher, grants: seq<Grant>, integration: string, capability: string,
                           levels: seq<(string, string)>): Mode
  {
    if levels == [] then Deny
    else
      match AtLevel(pm, grants, integration, capability, levels[0].0, levels[0].1)
      case Some(mode) => mode
      case None => FirstSaid(pm, grants, integration, capability, levels[1..])
  }

  ghost function Decision(pm: Matcher, grants: seq<Grant>, s: Subject, integration: string, capability: string): Mode {
    FirstSaid(pm, grants, integration, capability, Levels(s))
  }

  /** The order in which the rows are read does not matter, nor do repeated rows. */
  lemma DecisionIgnoresRowOrder(pm: Matcher, grants: seq<Grant>, others: seq<Grant>, s: Subject,
                                integration: string, capability: string)
    requires forall g :: g in grants <==> g in others
    ensures Decision(pm, grants, s, integration, capability) == Decision(pm, others, s, integration, capability)
  {
    FirstSaidIgnoresRowOrder(pm, grants, others, integration, capability, Levels(s));
  }

  lemma {:induction false} FirstSaidIgnoresRowOrder(pm: Matcher, grants: seq<Grant>, others: seq<Grant>,
                                                    integration: string, capability: string,
                                                    levels: seq<(string, string)>)
    requires forall g :: g in grants <==> g in others
    ensures FirstSaid(pm, grants, integration, capability, levels)
      == FirstSaid(pm, others, integration, capability, levels)
  {
    if levels != [] {
      forall mode: Mode
        ensures Says(pm, grants, integration, capability, levels[0].0, levels[0].1, mode)
             == Says(pm, others, integration, capability, levels[0].0, levels[0].1, mode)
      {
      }
      FirstSaidIgnoresRowOrder(pm, grants, others, integration, capability, levels[1..]);
    }
  }

  // ---- resolving ----

  /** The rows of one level, in id order. */
  function LevelRows(grants: seq<Grant>, integration: string, typ: string, subject: string): (rows: seq<Grant>)
    ensures forall g :: g in rows <==>
              g in grants && g.integration == integration && g.subjectType == typ && g.subject == subject
  {
    if grants == [] then []
    else (if grants[0].integration == integration && grants[0].subjectType == typ && grants[0].subject == subject
          then [grants[0]] else [])
         + LevelRows(grants[1..], integration, typ, subject)
  }

  datatype Match = NoMatch | Match(mode: Mode, glob: string)

  function Strictness(m: Mode): nat {
    match m case Allow => 0 case Approve => 1 case Deny => 2
  }

  /**
   Reads the rows once. A deny ends the search; otherwise the strictest match so far is kept. The
   glob it names is that of the first row that says what was decided.
   */
  method MatchAtLevel(pm: Matcher, rows: seq<Grant>, capability: string) returns (m: Match)
    ensures m.NoMatch? <==> forall g :: g in rows ==> !MatchCapability(pm, g.glob, capability)
    ensures m.Match? ==>
              forall g :: g in rows && MatchCapability(pm, g.glob, capability) ==> Strictness(g.mode) <= Strictness(m.mode)
    ensures m.Match? ==> exists i :: 0 <= i < |rows| && MatchCapability(pm, rows[i].glob, capability)
                           && rows[i].mode == m.mode && rows[i].glob == m.glob
                           && forall j :: 0 <= j < i && MatchCapability(pm, rows[j].glob, capability) ==>
                                rows[j].mode != m.mode
    // The pattern is the row's glob, never the name asked for; a deny beats an approve, and that an allow.
    ensures m.NoMatch? <==> forall g :: g in rows ==> g.glob !in {"*", "**"} && !pm(g.glob, capability)
    ensures m == Match(Deny, if m.Match? then m.glob else "") <==>
              exists g :: g in rows && (g.glob in {"*", "**"} || pm(g.glob, capability)) && g.mode == Deny
    ensures m.Match? && m.mode == Allow <==>
              && (exists g :: g in rows && (g.glob in {"*", "**"} || pm(g.glob, capability)))
              && forall g :: g in rows && (g.glob in {"*", "**"} || pm(g.glob, capability)) ==> g.mode == Allow
    ensures m.Match? ==> m.glob in {"*", "**"} || pm(m.glob, capability)
  {
    m := NoMatch;
    ghost var at := 0;
    for i := 0 to |rows|
      invariant m.NoMatch? ==> forall j :: 0 <= j < i ==> !MatchCapability(pm, rows[j].glob, capability)
      invariant m.Match? ==> m.mode != Deny
      invariant m.Match? ==>
        forall j :: 0 <= j < i && MatchCapability(pm, rows[j].glob, capability) ==>
          Strictness(rows[j].mode) <= Strictness(m.mode)
      invariant m.Match? ==>
        && 0 <= at < i && MatchCapability(pm, rows[at].glob, capability)
        && rows[at].mode == m.mode && rows[at].glob == m.glob
        && forall j :: 0 <= j < at && MatchCapability(pm, rows[j].glob, capability) ==> rows[j].mode != m.mode
    {
      if !MatchCapability(pm, rows[i].glob, capability) { continue; }
      var glob, mode := rows[i].glob, rows[i].mode;
      if mode == Deny { return Match(Deny, glob); }
      if m.NoMatch? {
        m := Match(mode, glob);
        at := i;
      } else if mode == Approve && m.mode == Allow {
        m := Match(Approve, glob);
        at := i;
      }
    }
  }

  lemma MatchIsTheLevel(pm: Matcher, grants: seq<Grant>, integration: string, capability: string,
                        typ: string, subject: string, m: Match)
    requires subject != ""
    requires var rows := LevelRows(grants, integration, typ, subject);
             && (m.NoMatch? <==> forall g :: g in rows ==> !MatchCapability(pm, g.glob, capability))
             && (m.Match? ==> forall g :: g in rows && MatchCapability(pm, g.glob, capability) ==>
                                Strictness(g.mode) <= Strictness(m.mode))
             && (m.Match? ==> exists i :: 0 <= i < |rows| && MatchCapability(pm, rows[i].glob, capability)
                                          && rows[i].mode == m.mode)
    ensures AtLevel(pm, grants, integration, capability, typ, subject)
         == if m.NoMatch? then None else Some(m.mode)
  {
    var rows := LevelRows(grants, integration, typ, subject);
    if m.Match? {
      var i :| 0 <= i < |rows| && MatchCapability(pm, rows[i].glob, capability) && rows[i].mode == m.mode;
      assert Speaks(pm, rows[i], integration, capability, typ, subject) && rows[i] in grants;
      forall mode: Mode | Says(pm, grants, integration, capability, typ, subject, mode)
        ensures Strictness(mode) <= Strictness(m.mode)
      {
        var g :| g in grants && Speaks(pm, g, integration, capability, typ, subject) && g.mode == mode;
        assert g in rows;
      }
      assert Says(pm, grants, integration, capability, typ, subject, m.mode);
    } else {
      forall mode: Mode ensures !Says(pm, grants, integration, capability, typ, subject, mode) {
        forall g | g in grants ensures !Speaks(pm, g, integration, capability, typ, subject) {
          assert g in rows || g.integration != integration || g.subjectType != typ || g.subject != subject;
        }
      }
    }
  }

  /** The row is for this caller: for its agent, its role, its container or its project. */
  ghost predicate IsFor(g: Grant, s: Subject) {
    && g.subject != ""
    && (|| (g.subjectType == "agent" && g.subject == s.agent)
        || (g.subjectType == "role" && g.subject == s.role)
        || (g.subjectType == "container" && g.subject == s.container)
        || (g.subjectType == "project" && g.subject == s.project))
  }

  /** What a level comes to, row by row: a fitting row that denies denies, and only allows together allow. */
  lemma LevelSays(pm: Matcher, grants: seq<Grant>, integration: string, capability: string,
                  typ: string, subject: string)
    requires subject != ""
    ensures var at := AtLevel(pm, grants, integration, capability, typ, subject);
            && (at == Some(Deny) <==>
                  exists g :: g in grants && g.integration == integration && g.subjectType == typ
                              && g.subject == subject && (g.glob in {"*", "**"} || pm(g.glob, capability))
                              && g.mode == Deny)
            && (at == Some(Allow) <==>
                  && (exists g :: g in grants && g.integration == integration && g.subjectType == typ
                                  && g.subject == subject && (g.glob in {"*", "**"} || pm(g.glob, capability)))
                  && forall g :: g in grants && g.integration == integration && g.subjectType == typ
                                 && g.subject == subject && (g.glob in {"*", "**"} || pm(g.glob, capability)) ==>
                       g.mode == Allow)
            && (at == None <==>
                  forall g | g in grants && g.integration == integration && g.subjectType == typ
                             && g.subject == subject ::
                    g.glob !in {"*", "**"} && !pm(g.glob, capability))
  {
    forall g | g in grants && Speaks(pm, g, integration, capability, typ, subject)
      ensures Says(pm, grants, integration, capability, typ, subject, g.mode)
    {}
  }

  // All four levels are silent exactly when no row for the caller fits.
  lemma NobodySaid(pm: Matcher, grants: seq<Grant>, s: Subject, integration: string, capability: string)
    ensures && AtLevel(pm, grants, integration, capability, "agent", s.agent) == None
            && AtLevel(pm, grants, integration, capability, "role", s.role) == None
            && AtLevel(pm, grants, integration, capability, "container", s.container) == None
            && AtLevel(pm, grants, integration, capability, "project", s.project) == None
            <==>
            forall g :: g in grants && g.integration == integration && IsFor(g, s) ==>
              g.glob !in {"*", "**"} && !pm(g.glob, capability)
  {
    hide AtLevel;
    forall typ, subject | subject != "" ensures AtLevel(pm, grants, integration, capability, typ, subject) == None <==>
        forall g :: g in grants && g.integration == integration && g.subjectType == typ && g.subject == subject ==>
          g.glob !in {"*", "**"} && !pm(g.glob, capability)
    {
      LevelSays(pm, grants, integration, capability, typ, subject);
    }
    NobodySaysNothing(pm, grants, integration, capability, "agent");
    NobodySaysNothing(pm, grants, integration, capability, "role");
    NobodySaysNothing(pm, grants, integration, capability, "container");
    NobodySaysNothing(pm, grants, integration, capability, "project");
  }

  /** `glob` is the pattern that decided; a denial by default has none. */
  method Resolve(pm: Matcher, grants: seq<Grant>, s: Subject, integration: string, capability: string)
    returns (mode: Mode, glob: Option<string>)
    ensures mode == Decision(pm, grants, s, integration, capability)
    ensures glob.Some? ==> glob.value in {"*", "**"} || pm(glob.value, capability)
    ensures glob.None? ==> mode == Deny
    // By default exactly when no row of this integration is for the caller and fits the name.
    ensures glob.None? <==>
              forall g :: g in grants && g.integration == integration && IsFor(g, s) ==>
                g.glob !in {"*", "**"} && !pm(g.glob, capability)
  {
    DecisionUnfolds(pm, grants, s, integration, capability);
    NobodySaid(pm, grants, s, integration, capability);
    var levels := Levels(s);
    for i := 0 to |levels|
      invariant FirstSaid(pm, grants, integration, capability, levels[i..])
        == Decision(pm, grants, s, integration, capability)
      invariant forall j :: 0 <= j < i ==>
        AtLevel(pm, grants, integration, capability, levels[j].0, levels[j].1) == None
    {
      var (typ, id) := levels[i];
      assert levels[i..][0] == levels[i] && levels[i..][1..] == levels[i + 1..];
      if id == "" { continue; }
      var rows := LevelRows(grants, integration, typ, id);
      var m := MatchAtLevel(pm, rows, capability);
      MatchIsTheLevel(pm, grants, integration, capability, typ, id, m);
      if m.Match? {
        return m.mode, Some(m.glob);
      }
    }
    assert levels[|levels|..] == [];
    assert levels[0] == ("agent", s.agent) && levels[1] == ("role", s.role);
    assert levels[2] == ("container", s.container) && levels[3] == ("project", s.project);
    return Deny, None;
  }

  // ---- the first match ----

  predicate Matches(pm: Matcher, g: Grant, capability: string) {
    MatchCapability(pm, g.glob, capability)
  }

  /** The mode of a level's first matching row, which is what the documentation promises. */
  function FirstMatch(pm: Matcher, rows: seq<Grant>, capability: string): Option<Mode> {
    if rows == [] then None
    else if Matches(pm, rows[0], capability) then Some(rows[0].mode)
    else FirstMatch(pm, rows[1..], capability)
  }

  function FirstAtLevel(pm: Matcher, grants: seq<Grant>, integration: string, capability: string,
                        typ: string, subject: string): Option<Mode>
  {
    if subject == "" then None else FirstMatch(pm, LevelRows(grants, integration, typ, subject), capability)
  }

  /** The documented decision: the first match at the first level that has one, otherwise deny. */
  function Documented(pm: Matcher, grants: seq<Grant>, integration: string, capability: string,
                      levels: seq<(string, string)>): Mode
  {
    if levels == [] then Deny
    else
      match FirstAtLevel(pm, grants, integration, capability, levels[0].0, levels[0].1)
      case Some(mode) => mode
      case None => Documented(pm, grants, integration, capability, levels[1..])
  }

  /** Row `i` is the first that matches. */
  ghost predicate IsFirst(pm: Matcher, rows: seq<Grant>, capability: string, i: int) {
    && 0 <= i < |rows| && Matches(pm, rows[i], capability)
    && forall k :: 0 <= k < i ==> !Matches(pm, rows[k], capability)
  }

  /** A row after the first match also matches, and is stricter. */
  ghost predicate Overruled(pm: Matcher, rows: seq<Grant>, capability: string) {
    exists i, j :: IsFirst(pm, rows, capability, i) && i < j < |rows| && Matches(pm, rows[j], capability)
                   && Strictness(rows[j].mode) > Strictness(rows[i].mode)
  }

  /** At the first level where a row matches, a later matching row is stricter than the first. */
  ghost predicate OverruledAtFirst(pm: Matcher, grants: seq<Grant>, integration: string, capability: string,
                                   levels: seq<(string, string)>)
  {
    exists n :: 0 <= n < |levels| && OverruledAt(pm, grants, integration, capability, levels[n])
                && Silent(pm, grants, integration, capability, levels[..n])
  }

  ghost predicate OverruledAt(pm: Matcher, grants: seq<Grant>, integration: string, capability: string,
                              level: (string, string))
  {
    level.1 != "" && Overruled(pm, LevelRows(grants, integration, level.0, level.1), capability)
  }

  /** No row of these levels matches. */
  ghost predicate Silent(pm: Matcher, grants: seq<Grant>, integration: string, capability: string,
                         levels: seq<(string, string)>)
  {
    forall n :: 0 <= n < |levels| ==> !SpeaksAt(pm, grants, integration, capability, levels[n])
  }

  ghost predicate SpeaksAt(pm: Matcher, grants: seq<Grant>, integration: string, capability: string,
                           level: (string, string))
  {
    level.1 != "" && exists g :: g in LevelRows(grants, integration, level.0, level.1) && Matches(pm, g, capability)
  }

  lemma {:induction false} FirstMatchIs(pm: Matcher, rows: seq<Grant>, capability: string)
    ensures FirstMatch(pm, rows, capability).None? <==> forall g :: g in rows ==> !Matches(pm, g, capability)
    ensures FirstMatch(pm, rows, capability).Some? ==>
              exists i :: IsFirst(pm, rows, capability, i) && rows[i].mode == FirstMatch(pm, rows, capability).value
  {
    if rows != [] {
      var rest := rows[1..];
      FirstMatchIs(pm, rest, capability);
      assert forall g :: g in rows <==> g == rows[0] || g in rest;
      if Matches(pm, rows[0], capability) {
        assert IsFirst(pm, rows, capability, 0);
      } else if FirstMatch(pm, rest, capability).Some? {
        var i :| IsFirst(pm, rest, capability, i) && rest[i].mode == FirstMatch(pm, rest, capability).value;
        assert forall k :: 0 < k < |rows| ==> rows[k] == rest[k - 1];
        assert IsFirst(pm, rows, capability, i + 1);
      }
    }
  }

  /** One level: the first match decides if and only if no later match is stricter. */
  lemma FirstMatchDecidesIff(pm: Matcher, grants: seq<Grant>, integration: string, capability: string,
                             typ: string, subject: string)
    requires subject != ""
    ensures AtLevel(pm, grants, integration, capability, typ, subject)
            == FirstAtLevel(pm, grants, integration, capability, typ, subject)
            <==> !Overruled(pm, LevelRows(grants, integration, typ, subject), capability)
    ensures AtLevel(pm, grants, integration, capability, typ, subject).Some?
            <==> SpeaksAt(pm, grants, integration, capability, (typ, subject))
    ensures FirstAtLevel(pm, grants, integration, capability, typ, subject).Some?
            <==> SpeaksAt(pm, grants, integration, capability, (typ, subject))
  {
    var rows := LevelRows(grants, integration, typ, subject);
    FirstMatchIs(pm, rows, capability);
    var at := AtLevel(pm, grants, integration, capability, typ, subject);
    SaysIsARow(pm, grants, integration, capability, typ, subject);
    StrictestOfRows(pm, rows, capability, at);
  }

  // A mode said at a level is that of a matching row, and the other way round.
  lemma SaysIsARow(pm: Matcher, grants: seq<Grant>, integration: string, capability: string,
                   typ: string, subject: string)
    ensures forall mode :: Says(pm, grants, integration, capability, typ, subject, mode) <==>
              RowSays(pm, LevelRows(grants, integration, typ, subject), capability, mode)
  {
    var rows := LevelRows(grants, integration, typ, subject);
    forall mode ensures Says(pm, grants, integration, capability, typ, subject, mode) <==>
                          RowSays(pm, rows, capability, mode)
    {
      if Says(pm, grants, integration, capability, typ, subject, mode) {
        var g :| g in grants && Speaks(pm, g, integration, capability, typ, subject) && g.mode == mode;
        assert g in rows;
      }
      if RowSays(pm, rows, capability, mode) {
        var j :| 0 <= j < |rows| && Matches(pm, rows[j], capability) && rows[j].mode == mode;
        assert rows[j] in rows;
      }
    }
  }

  ghost predicate RowSays(pm: Matcher, rows: seq<Grant>, capability: string, mode: Mode) {
    exists j :: 0 <= j < |rows| && Matches(pm, rows[j], capability) && rows[j].mode == mode
  }

  lemma StrictestOfRows(pm: Matcher, rows: seq<Grant>, capability: string, at: Option<Mode>)
    requires at == if RowSays(pm, rows, capability, Deny) then Some(Deny)
                   else if RowSays(pm, rows, capability, Approve) then Some(Approve)
                   else if RowSays(pm, rows, capability, Allow) then Some(Allow)
                   else None
    ensures at.Some? <==> exists g :: g in rows && Matches(pm, g, capability)
    ensures at == FirstMatch(pm, rows, capability) <==> !Overruled(pm, rows, capability)
  {
    hide Matches, Overruled;
    FirstMatchIs(pm, rows, capability);
    if g :| g in rows && Matches(pm, g, capability) {
      assert RowSays(pm, rows, capability, g.mode);
      var i :| IsFirst(pm, rows, capability, i) && rows[i].mode == FirstMatch(pm, rows, capability).value;
      assert RowSays(pm, rows, capability, rows[i].mode);
      OverruledIff(pm, rows, capability, i);
    } else {
      assert forall mode :: !RowSays(pm, rows, capability, mode);
      NothingOverruled(pm, rows, capability);
    }
  }

  lemma NothingOverruled(pm: Matcher, rows: seq<Grant>, capability: string)
    requires forall g :: g in rows ==> !Matches(pm, g, capability)
    ensures !Overruled(pm, rows, capability)
  {
    hide Matches;
  }

  lemma OverruledIff(pm: Matcher, rows: seq<Grant>, capability: string, i: int)
    requires IsFirst(pm, rows, capability, i)
    ensures Overruled(pm, rows, capability) <==>
              exists mode :: RowSays(pm, rows, capability, mode) && Strictness(mode) > Strictness(rows[i].mode)
  {
    hide Matches;
    if mode :| RowSays(pm, rows, capability, mode) && Strictness(mode) > Strictness(rows[i].mode) {
      var j :| 0 <= j < |rows| && Matches(pm, rows[j], capability) && rows[j].mode == mode;
      assert i < j;
    }
    if Overruled(pm, rows, capability) {
      var k, j :| IsFirst(pm, rows, capability, k) && k < j < |rows| && Matches(pm, rows[j], capability)
                  && Strictness(rows[j].mode) > Strictness(rows[k].mode);
      assert i == k && RowSays(pm, rows, capability, rows[j].mode);
    }
  }

  /**
   Exactly when the documented rule holds: the decision is the first match at the first level that has
   one, if and only if no later match of that level is stricter.
   */
  lemma FirstGlobWinsIff(pm: Matcher, grants: seq<Grant>, s: Subject, integration: string, capability: string)
    ensures Decision(pm, grants, s, integration, capability)
            == Documented(pm, grants, integration, capability, Levels(s))
            <==> !OverruledAtFirst(pm, grants, integration, capability, Levels(s))
  {
    FirstGlobWinsAlong(pm, grants, integration, capability, Levels(s));
  }

  lemma {:induction false} FirstGlobWinsAlong(pm: Matcher, grants: seq<Grant>, integration: string, capability: string,
                                              levels: seq<(string, string)>)
    ensures FirstSaid(pm, grants, integration, capability, levels)
            == Documented(pm, grants, integration, capability, levels)
            <==> !OverruledAtFirst(pm, grants, integration, capability, levels)
  {
    hide AtLevel, FirstAtLevel, Overruled, SpeaksAt, OverruledAtFirst;
    if levels == [] {
      NoLevels(pm, grants, integration, capability);
    } else {
      var (typ, id) := levels[0];
      FirstGlobWinsAlong(pm, grants, integration, capability, levels[1..]);
      OverruledUnfolds(pm, grants, integration, capability, levels);
      if id == "" {
        NobodySaysNothing(pm, grants, integration, capability, typ);
      } else {
        FirstMatchDecidesIff(pm, grants, integration, capability, typ, id);
      }
    }
  }

  lemma NoLevels(pm: Matcher, grants: seq<Grant>, integration: string, capability: string)
    ensures !OverruledAtFirst(pm, grants, integration, capability, [])
  {
  }

  lemma NobodySaysNothing(pm: Matcher, grants: seq<Grant>, integration: string, capability: string, typ: string)
    ensures AtLevel(pm, grants, integration, capability, typ, "") == None
    ensures FirstAtLevel(pm, grants, integration, capability, typ, "") == None
    ensures !SpeaksAt(pm, grants, integration, capability, (typ, ""))
  {
  }

  lemma OverruledSpeaks(pm: Matcher, grants: seq<Grant>, integration: string, capability: string,
                        level: (string, string))
    requires OverruledAt(pm, grants, integration, capability, level)
    ensures SpeaksAt(pm, grants, integration, capability, level)
  {
    var rows := LevelRows(grants, integration, level.0, level.1);
    var i :| IsFirst(pm, rows, capability, i);
    assert rows[i] in rows;
  }

  lemma OverruledUnfolds(pm: Matcher, grants: seq<Grant>, integration: string, capability: string,
                         levels: seq<(string, string)>)
    requires levels != []
    ensures OverruledAtFirst(pm, grants, integration, capability, levels) <==>
              if SpeaksAt(pm, grants, integration, capability, levels[0])
              then OverruledAt(pm, grants, integration, capability, levels[0])
              else OverruledAtFirst(pm, grants, integration, capability, levels[1..])
  {
    hide OverruledAt, SpeaksAt, Silent;
    var rest := levels[1..];
    SilentNowhere(pm, grants, integration, capability);
    if OverruledAt(pm, grants, integration, capability, levels[0]) {
      OverruledSpeaks(pm, grants, integration, capability, levels[0]);
      assert levels[..0] == [];
    }
    forall n | 0 < n < |levels|
      ensures levels[n] == rest[n - 1]
      ensures Silent(pm, grants, integration, capability, levels[..n])
              <==> !SpeaksAt(pm, grants, integration, capability, levels[0])
                   && Silent(pm, grants, integration, capability, rest[..n - 1])
    {
      assert levels[..n] == [levels[0]] + rest[..n - 1];
      SilentTail(pm, grants, integration, capability, levels[0], rest[..n - 1]);
    }
    if n :| 0 <= n < |rest| && OverruledAt(pm, grants, integration, capability, rest[n])
            && Silent(pm, grants, integration, capability, rest[..n]) {
      assert levels[n + 1] == rest[n];
    }
  }

  lemma SilentNowhere(pm: Matcher, grants: seq<Grant>, integration: string, capability: string)
    ensures Silent(pm, grants, integration, capability, [])
  {
  }

  lemma SilentTail(pm: Matcher, grants: seq<Grant>, integration: string, capability: string,
                   level: (string, string), rest: seq<(string, string)>)
    ensures Silent(pm, grants, integration, capability, [level] + rest)
            <==> !SpeaksAt(pm, grants, integration, capability, level)
                 && Silent(pm, grants, integration, capability, rest)
  {
    hide SpeaksAt;
    var all := [level] + rest;
    assert all[0] == level;
    assert forall n :: 0 <= n < |rest| ==> rest[n] == all[n + 1];
    assert forall n :: 0 < n < |all| ==> all[n] == rest[n - 1];
  }

  /** Two project rows, allow and then deny: the first match is the allow, the decision the deny. */
  lemma LaterDenyWins(pm: Matcher, s: Subject, integration: string, capability: string)
    requires s.project != ""
    ensures var grants := [Grant(integration, "*", "project", s.project, Allow),
                           Grant(integration, "*", "project", s.project, Deny)];
            && Decision(pm, grants, s, integration, capability) == Deny
            && Documented(pm, grants, integration, capability, Levels(s)) == Allow
  {
    var first := Grant(integration, "*", "project", s.project, Allow);
    var second := Grant(integration, "*", "project", s.project, Deny);
    var grants := [first, second];
    DecisionUnfolds(pm, grants, s, integration, capability);
    assert second in grants && Speaks(pm, second, integration, capability, "project", s.project);
    assert Says(pm, grants, integration, capability, "project", s.project, Deny);
    OnlyProjectSpeaks(pm, grants, integration, capability, "agent", s.agent);
    OnlyProjectSpeaks(pm, grants, integration, capability, "role", s.role);
    OnlyProjectSpeaks(pm, grants, integration, capability, "container", s.container);
    var l := Levels(s);
    assert l[1..][0] == l[1] && l[2..][0] == l[2] && l[3..][0] == l[3];
    assert l[1..][1..] == l[2..] && l[2..][1..] == l[3..];
    assert grants[1..] == [second] && [second][1..] == [];
    assert LevelRows(grants, integration, "project", s.project)
        == [first] + LevelRows(grants[1..], integration, "project", s.project);
    assert FirstAtLevel(pm, grants, integration, capability, "project", s.project) == Some(Allow);
    hide FirstAtLevel, LevelRows, Decision;
    assert Documented(pm, grants, integration, capability, l[3..]) == Allow;
    assert Documented(pm, grants, integration, capability, l[2..]) == Allow;
    assert Documented(pm, grants, integration, capability, l[1..]) == Allow;
  }

  lemma OnlyProjectSpeaks(pm: Matcher, grants: seq<Grant>, integration: string, capability: string,
                          typ: string, subject: string)
    requires typ != "project" && forall g :: g in grants ==> g.subjectType == "project"
    ensures AtLevel(pm, grants, integration, capability, typ, subject) == None
    ensures FirstAtLevel(pm, grants, integration, capability, typ, subject) == None
  {
    FirstMatchIs(pm, LevelRows(grants, integration, typ, subject), capability);
    forall mode ensures !Says(pm, grants, integration, capability, typ, subject, mode) {
    }
  }

  // ---- revoking ----

  function Revocation(integration: string, container: string): Grant {
    Grant(integration, "*", "container", container, Deny)
  }

  /**
   Exactly how far revoking an integration for one container goes: its callers are denied unless an
   agent-level or a role-level grant speaks for them first.
   */
  lemma RevokedUnlessMoreSpecific(pm: Matcher, grants: seq<Grant>, s: Subject, integration: string, capability: string)
    requires s.container != ""
    ensures Decision(pm, grants + [Revocation(integration, s.container)], s, integration, capability)
         == match AtLevel(pm, grants, integration, capability, "agent", s.agent)
            case Some(mode) => mode
            case None =>
              match AtLevel(pm, grants, integration, capability, "role", s.role)
              case Some(mode) => mode
              case None => Deny
  {
    var revoked := grants + [Revocation(integration, s.container)];
    DecisionUnfolds(pm, revoked, s, integration, capability);
    OtherLevelsKept(pm, grants, s, integration, capability, "agent", s.agent);
    OtherLevelsKept(pm, grants, s, integration, capability, "role", s.role);
    var g := Revocation(integration, s.container);
    assert g in revoked && Speaks(pm, g, integration, capability, "container", s.container);
    assert Says(pm, revoked, integration, capability, "container", s.container, Deny);
  }

  /** Agent, then role, then container, then project; otherwise deny. */
  lemma DecisionUnfolds(pm: Matcher, grants: seq<Grant>, s: Subject, integration: string, capability: string)
    ensures var agent := AtLevel(pm, grants, integration, capability, "agent", s.agent);
            var role := AtLevel(pm, grants, integration, capability, "role", s.role);
            var container := AtLevel(pm, grants, integration, capability, "container", s.container);
            var project := AtLevel(pm, grants, integration, capability, "project", s.project);
            Decision(pm, grants, s, integration, capability)
            == if agent.Some? then agent.value
               else if role.Some? then role.value
               else if container.Some? then container.value
               else if project.Some? then project.value
               else Deny
  {
    hide AtLevel;
    var l := Levels(s);
    assert l[1..][0] == l[1] && l[2..][0] == l[2] && l[3..][0] == l[3];
    assert l[1..][1..] == l[2..] && l[2..][1..] == l[3..] && l[3..][1..] == [];
    assert FirstSaid(pm, grants, integration, capability, l[3..])
        == match AtLevel(pm, grants, integration, capability, l[3].0, l[3].1) case Some(m) => m case None => Deny;
    assert FirstSaid(pm, grants, integration, capability, l[2..])
        == match AtLevel(pm, grants, integration, capability, l[2].0, l[2].1)
           case Some(m) => m case None => FirstSaid(pm, grants, integration, capability, l[3..]);
    assert FirstSaid(pm, grants, integration, capability, l[1..])
        == match AtLevel(pm, grants, integration, capability, l[1].0, l[1].1)
           case Some(m) => m case None => FirstSaid(pm, grants, integration, capability, l[2..]);
  }

  lemma OtherLevelsKept(pm: Matcher, grants: seq<Grant>, s: Subject, integration: string, capability: string,
                        typ: string, subject: string)
    requires typ != "container"
    ensures AtLevel(pm, grants + [Revocation(integration, s.container)], integration, capability, typ, subject)
         == AtLevel(pm, grants, integration, capability, typ, subject)
  {
    var revoked := grants + [Revocation(integration, s.container)];
    forall mode: Mode
      ensures Says(pm, revoked, integration, capability, typ, subject, mode)
           == Says(pm, grants, integration, capability, typ, subject, mode)
    {
      forall g | g in revoked && Speaks(pm, g, integration, capability, typ, subject) ensures g in grants {
      }
      assert forall g :: g in grants ==> g in revoked;
    }
  }

  // ---- the defaults for a new integration ----

  datatype Risk = Low | Medium | High

  datatype Capability = Capability(name: string, description: string, risk: Risk, removed: bool)

  const WORKER := "worker"

  function ProjectSeed(integration: string, project: string, c: Capability): Grant {
    Grant(integration, c.name, "project", project, if c.risk == High then Approve else Allow)
  }

  function WorkerSeed(integration: string, c: Capability, mode: Mode): Grant {
    Grant(integration, c.name, "role", WORKER, mode)
  }

  /** The rows, in the order they are written: project rows, then worker rows for medium, then for high risk. */
  method SeedGrants(integration: string, project: string, caps: seq<Capability>) returns (rows: seq<Grant>)
    ensures forall g :: g in rows <==> IsSeed(integration, project, caps, g)
  {
    rows := [];
    for i := 0 to |caps|
      invariant forall g :: g in rows <==> exists k :: 0 <= k < i && g == ProjectSeed(integration, project, caps[k])
    {
      var mode := Allow;
      if caps[i].risk == High { mode := Approve; }
      rows := rows + [Grant(integration, caps[i].name, "project", project, mode)];
    }
    var seeds := [(Medium, Approve), (High, Deny)];
    ghost var projectRows := rows;
    for n := 0 to |seeds|
      invariant forall g :: g in rows <==>
        g in projectRows
        || (n >= 1 && exists k :: 0 <= k < |caps| && caps[k].risk == Medium && g == WorkerSeed(integration, caps[k], Approve))
        || (n >= 2 && exists k :: 0 <= k < |caps| && caps[k].risk == High && g == WorkerSeed(integration, caps[k], Deny))
    {
      ghost var before := rows;
      for i := 0 to |caps|
        invariant forall g :: g in rows <==>
          g in before
          || exists k :: 0 <= k < i && caps[k].risk == seeds[n].0 && g == WorkerSeed(integration, caps[k], seeds[n].1)
      {
        if caps[i].risk != seeds[n].0 { continue; }
        rows := rows + [Grant(integration, caps[i].name, "role", WORKER, seeds[n].1)];
      }
    }
  }

  ghost predicate IsSeed(integration: string, project: string, caps: seq<Capability>, g: Grant) {
    || (exists k :: 0 <= k < |caps| && g == ProjectSeed(integration, project, caps[k]))
    || (exists k :: 0 <= k < |caps| && caps[k].risk == Medium && g == WorkerSeed(integration, caps[k], Approve))
    || (exists k :: 0 <= k < |caps| && caps[k].risk == High && g == WorkerSeed(integration, caps[k], Deny))
  }

  // Names that are patterns for themselves only: no metacharacters.
  ghost predicate Literal(pm: Matcher, caps: seq<Capability>) {
    && (forall k :: 0 <= k < |caps| ==> caps[k].name != "*" && caps[k].name != "**")
    && (forall k, name :: 0 <= k < |caps| ==> (pm(caps[k].name, name) <==> caps[k].name == name))
    && (forall j, k :: 0 <= j < k < |caps| ==> caps[j].name != caps[k].name)
  }

  /** What a fresh integration's grants come to, for every caller in the project. */
  lemma SeededDecision(pm: Matcher, grants: seq<Grant>, integration: string, project: string, caps: seq<Capability>,
                       s: Subject, k: nat)
    requires forall g :: g in grants <==> IsSeed(integration, project, caps, g)
    requires Literal(pm, caps) && k < |caps| && s.project == project != ""
    ensures Decision(pm, grants, s, integration, caps[k].name)
         == if s.role == "worker" then (match caps[k].risk case Low => Allow case Medium => Approve case High => Deny)
            else if caps[k].risk == High then Approve else Allow
  {
    var name := caps[k].name;
    hide Literal;
    DecisionUnfolds(pm, grants, s, integration, name);
    forall typ: string, id: string, mode: Mode
      ensures Says(pm, grants, integration, name, typ, id, mode) <==>
                (typ == "project" && id == project && mode == (if caps[k].risk == High then Approve else Allow))
                || (typ == "role" && id == WORKER && caps[k].risk == Medium && mode == Approve)
                || (typ == "role" && id == WORKER && caps[k].risk == High && mode == Deny)
    {
      SeedsSay(pm, grants, integration, project, caps, k, typ, id, mode);
    }
  }

  // The only seeds that match a capability's name are its own.
  lemma OwnSeed(pm: Matcher, integration: string, project: string, caps: seq<Capability>, k: nat, g: Grant)
    requires Literal(pm, caps) && k < |caps|
    requires IsSeed(integration, project, caps, g) && MatchCapability(pm, g.glob, caps[k].name)
    ensures || g == ProjectSeed(integration, project, caps[k])
            || (caps[k].risk == Medium && g == WorkerSeed(integration, caps[k], Approve))
            || (caps[k].risk == High && g == WorkerSeed(integration, caps[k], Deny))
  {
    if j :| 0 <= j < |caps| && g == ProjectSeed(integration, project, caps[j]) {
      assert g.glob == caps[j].name && j == k;
    } else if j :| 0 <= j < |caps| && caps[j].risk == Medium && g == WorkerSeed(integration, caps[j], Approve) {
      assert g.glob == caps[j].name && j == k;
    } else {
      var j :| 0 <= j < |caps| && caps[j].risk == High && g == WorkerSeed(integration, caps[j], Deny);
      assert g.glob == caps[j].name && j == k;
    }
  }

  lemma OwnSeedSpeaks(pm: Matcher, grants: seq<Grant>, integration: string, project: string, caps: seq<Capability>,
                      k: nat, g: Grant)
    requires forall g :: g in grants <==> IsSeed(integration, project, caps, g)
    requires Literal(pm, caps) && k < |caps|
    requires || g == ProjectSeed(integration, project, caps[k])
             || (caps[k].risk == Medium && g == WorkerSeed(integration, caps[k], Approve))
             || (caps[k].risk == High && g == WorkerSeed(integration, caps[k], Deny))
    ensures Says(pm, grants, integration, caps[k].name, g.subjectType, g.subject, g.mode)
  {
    assert IsSeed(integration, project, caps, g);
    assert MatchCapability(pm, g.glob, caps[k].name);
    assert Speaks(pm, g, integration, caps[k].name, g.subjectType, g.subject);
  }

  lemma SeedsSay(pm: Matcher, grants: seq<Grant>, integration: string, project: string, caps: seq<Capability>,
                 k: nat, typ: string, id: string, mode: Mode)
    requires forall g :: g in grants <==> IsSeed(integration, project, caps, g)
    requires Literal(pm, caps) && k < |caps|
    ensures Says(pm, grants, integration, caps[k].name, typ, id, mode) <==>
              (typ == "project" && id == project && mode == (if caps[k].risk == High then Approve else Allow))
              || (typ == "role" && id == WORKER && caps[k].risk == Medium && mode == Approve)
              || (typ == "role" && id == WORKER && caps[k].risk == High && mode == Deny)
  {
    hide Literal, IsSeed, MatchCapability;
    if Says(pm, grants, integration, caps[k].name, typ, id, mode) {
      var g :| g in grants && Speaks(pm, g, integration, caps[k].name, typ, id) && g.mode == mode;
      OwnSeed(pm, integration, project, caps, k, g);
    }
    OwnSeedSpeaks(pm, grants, integration, project, caps, k, ProjectSeed(integration, project, caps[k]));
    if caps[k].risk == Medium {
      OwnSeedSpeaks(pm, grants, integration, project, caps, k, WorkerSeed(integration, caps[k], Approve));
    } else if caps[k].risk == High {
      OwnSeedSpeaks(pm, grants, integration, project, caps, k, WorkerSeed(integration, caps[k], Deny));
    }
  }

  // ---- the tool list ----

  datatype Integration = Integration(id: string, name: string)

  datatype Tool = Tool(name: string, description: string)

  /** A project's integrations and what each is registered to be capable of. */
  datatype Registry = Registry(integrations: seq<Integration>, capabilities: map<string, seq<Capability>>,
    grants: seq<Grant>)
  {
    function CapabilitiesOf(id: string): seq<Capability> {
      if id in capabilities then capabilities[id] else []
    }

    // Integration ids are primary keys; names are unique in a project.
    ghost predicate Valid() {
      forall i, j :: 0 <= i < j < |integrations| ==>
        integrations[i].id != integrations[j].id && integrations[i].name != integrations[j].name
    }
  }

  const APPROVAL_NOTE := "\n\n(This action requires human approval. The call returns " +
                         "immediately with a pending status; the result arrives later as a message.)"

  function ToolName(integration: Integration, capability: string): string {
    integration.name + "_" + capability
  }

  function ToolOf(integration: Integration, c: Capability, mode: Mode): Tool {
    Tool(ToolName(integration, c.name), c.description + if mode == Approve then APPROVAL_NOTE else "")
  }

  /** A tool of one integration that the caller is shown. */
  ghost predicate Shown(pm: Matcher, r: Registry, s: Subject, integration: Integration, c: Capability) {
    && integration in r.integrations && c in r.CapabilitiesOf(integration.id) && !c.removed
    && Decision(pm, r.grants, s, integration.id, c.name) != Deny
  }

  ghost predicate Listed(pm: Matcher, r: Registry, s: Subject, t: Tool) {
    exists integration, c ::
      Shown(pm, r, s, integration, c)
      && t == ToolOf(integration, c, Decision(pm, r.grants, s, integration.id, c.name))
  }

  ghost predicate SortedByName(tools: seq<Tool>) {
    forall i, j :: 0 <= i < j < |tools| ==> !Before(tools[j].name, tools[i].name)
  }

  method InsertTool(tools: seq<Tool>, t: Tool) returns (out: seq<Tool>)
    requires SortedByName(tools)
    ensures SortedByName(out) && forall x :: x in out <==> x in tools || x == t
    ensures multiset(out) == multiset(tools + [t])
  {
    hide Before;
    var i := |tools|;
    while i > 0 && Before(t.name, tools[i - 1].name)
      invariant 0 <= i <= |tools|
      invariant forall j :: i <= j < |tools| ==> !Before(tools[j].name, t.name)
    {
      i := i - 1;
      BeforeIsStrictOrder(t.name, tools[i].name, "");
    }
    forall j | 0 <= j < i ensures !Before(t.name, tools[j].name) {
      BeforeIsStrictOrder(tools[j].name, tools[i - 1].name, t.name);
    }
    out := tools[..i] + [t] + tools[i..];
    assert tools == tools[..i] + tools[i..];
  }

  /** What one integration's capabilities add to the list, and what the first `n` integrations add. */
  ghost function ToolsOf(pm: Matcher, r: Registry, s: Subject, integration: Integration,
    caps: seq<Capability>): seq<Tool> {
    if caps == [] then []
    else
      var c := caps[|caps| - 1];
      var mode := Decision(pm, r.grants, s, integration.id, c.name);
      ToolsOf(pm, r, s, integration, caps[..|caps| - 1])
      + if c.removed || mode == Deny then [] else [ToolOf(integration, c, mode)]
  }

  ghost function ToolsOfFirst(pm: Matcher, r: Registry, s: Subject, n: nat): seq<Tool>
    requires n <= |r.integrations|
  {
    if n == 0 then []
    else
      var integration := r.integrations[n - 1];
      ToolsOfFirst(pm, r, s, n - 1) + ToolsOf(pm, r, s, integration, r.CapabilitiesOf(integration.id))
  }

  method SortTools(found: seq<Tool>) returns (tools: seq<Tool>)
    ensures SortedByName(tools) && multiset(tools) == multiset(found)
    ensures forall t :: t in tools <==> t in found
  {
    tools := [];
    for i := 0 to |found|
      invariant SortedByName(tools)
      invariant multiset(tools) == multiset(found[..i])
      invariant forall t :: t in tools <==> t in found[..i]
    {
      assert found[..i + 1] == found[..i] + [found[i]];
      tools := InsertTool(tools, found[i]);
    }
    assert found[..|found|] == found;
  }

  // The inner loop: one integration's capabilities.
  method AddTools(pm: Matcher, r: Registry, s: Subject, integration: Integration, caps: seq<Capability>)
    returns (tools: seq<Tool>)
    ensures tools == ToolsOf(pm, r, s, integration, caps)
  {
    hide Decision;
    tools := [];
    for k := 0 to |caps|
      invariant tools == ToolsOf(pm, r, s, integration, caps[..k])
    {
      var c := caps[k];
      assert caps[..k + 1][..k] == caps[..k];
      if c.removed { continue; }
      var mode, _ := Resolve(pm, r.grants, s, integration.id, c.name);
      if mode == Deny { continue; }
      var description := c.description;
      if mode == Approve { description := description + APPROVAL_NOTE; }
      tools := tools + [Tool(integration.name + "_" + c.name, description)];
      assert Tool(integration.name + "_" + c.name, description) == ToolOf(integration, c, mode);
    }
    assert caps[..|caps|] == caps;
  }

  /** The native tools and, once each, the tools the caller may use, by name. Nothing it is denied appears. */
  method ToolsFor(pm: Matcher, r: Registry, s: Subject, native: seq<Tool>) returns (tools: seq<Tool>)
    ensures SortedByName(tools)
    ensures multiset(tools) == multiset(native + ToolsOfFirst(pm, r, s, |r.integrations|))
    ensures forall t :: t in tools <==> t in native || Listed(pm, r, s, t)
    ensures forall t :: t in tools && t !in native ==>
              exists integration, c: Capability :: integration in r.integrations && !c.removed
                && integration.id in r.capabilities && c in r.capabilities[integration.id]
                && Decision(pm, r.grants, s, integration.id, c.name) != Deny
                && t.name == integration.name + "_" + c.name
                && t.description == c.description
                   + if Decision(pm, r.grants, s, integration.id, c.name) == Approve then APPROVAL_NOTE else ""
    ensures forall integration, c: Capability
              | integration in r.integrations && !c.removed
                && integration.id in r.capabilities && c in r.capabilities[integration.id]
                && Decision(pm, r.grants, s, integration.id, c.name) != Deny ::
                var held := Decision(pm, r.grants, s, integration.id, c.name) == Approve;
                Tool(integration.name + "_" + c.name, c.description + if held then APPROVAL_NOTE else "") in tools
  {
    hide Listed, ToolsOf;
    var found := native;
    for i := 0 to |r.integrations|
      invariant found == native + ToolsOfFirst(pm, r, s, i)
    {
      var more := AddTools(pm, r, s, r.integrations[i], r.CapabilitiesOf(r.integrations[i].id));
      found := found + more;
    }
    tools := SortTools(found);
    forall t ensures t in tools <==> t in native || Listed(pm, r, s, t) {
      ListedWhenAdded(pm, r, s, |r.integrations|, t);
    }
    forall t | t in tools && t !in native
      ensures exists integration, c: Capability :: integration in r.integrations && !c.removed
                && integration.id in r.capabilities && c in r.capabilities[integration.id]
                && Decision(pm, r.grants, s, integration.id, c.name) != Deny
                && t.name == integration.name + "_" + c.name
                && t.description == c.description
                   + if Decision(pm, r.grants, s, integration.id, c.name) == Approve then APPROVAL_NOTE else ""
    {
      ListedInFull(pm, r, s, t);
    }
    forall integration, c: Capability | integration in r.integrations && !c.removed
      && integration.id in r.capabilities && c in r.capabilities[integration.id]
      && Decision(pm, r.grants, s, integration.id, c.name) != Deny
      ensures var held := Decision(pm, r.grants, s, integration.id, c.name) == Approve;
              Tool(integration.name + "_" + c.name, c.description + if held then APPROVAL_NOTE else "") in tools
    {
      PermittedIsListed(pm, r, s, integration, c);
    }
  }

  lemma PermittedIsListed(pm: Matcher, r: Registry, s: Subject, integration: Integration, c: Capability)
    requires integration in r.integrations && !c.removed
    requires integration.id in r.capabilities && c in r.capabilities[integration.id]
    ensures var mode := Decision(pm, r.grants, s, integration.id, c.name);
            mode != Deny ==>
              Listed(pm, r, s, Tool(integration.name + "_" + c.name,
                                    c.description + if mode == Approve then APPROVAL_NOTE else ""))
  {
    hide Decision;
    var mode := Decision(pm, r.grants, s, integration.id, c.name);
    if mode != Deny {
      assert Shown(pm, r, s, integration, c);
      assert ToolOf(integration, c, mode) == Tool(integration.name + "_" + c.name,
                                                  c.description + if mode == Approve then APPROVAL_NOTE else "");
    }
  }

  lemma ListedInFull(pm: Matcher, r: Registry, s: Subject, t: Tool)
    requires Listed(pm, r, s, t)
    ensures exists integration, c: Capability :: integration in r.integrations && !c.removed
              && integration.id in r.capabilities && c in r.capabilities[integration.id]
              && Decision(pm, r.grants, s, integration.id, c.name) != Deny
              && t.name == integration.name + "_" + c.name
              && t.description == c.description
                 + if Decision(pm, r.grants, s, integration.id, c.name) == Approve then APPROVAL_NOTE else ""
  {
    hide Decision;
  }

  lemma {:induction false} AddedOf(pm: Matcher, r: Registry, s: Subject, integration: Integration,
                                   caps: seq<Capability>, t: Tool)
    ensures t in ToolsOf(pm, r, s, integration, caps) <==>
              exists c :: c in caps && !c.removed && Decision(pm, r.grants, s, integration.id, c.name) != Deny
                && t == ToolOf(integration, c, Decision(pm, r.grants, s, integration.id, c.name))
  {
    hide Decision, ToolOf;
    if caps != [] {
      AddedOf(pm, r, s, integration, caps[..|caps| - 1], t);
      assert caps == caps[..|caps| - 1] + [caps[|caps| - 1]];
    }
  }

  ghost predicate ListedBy(pm: Matcher, r: Registry, s: Subject, integration: Integration, t: Tool) {
    exists c :: Shown(pm, r, s, integration, c)
      && t == ToolOf(integration, c, Decision(pm, r.grants, s, integration.id, c.name))
  }

  lemma AddedIsListedBy(pm: Matcher, r: Registry, s: Subject, integration: Integration, t: Tool)
    requires integration in r.integrations
    ensures t in ToolsOf(pm, r, s, integration, r.CapabilitiesOf(integration.id))
      <==> ListedBy(pm, r, s, integration, t)
  {
    hide Decision, ToolOf, ToolsOf;
    var caps := r.CapabilitiesOf(integration.id);
    AddedOf(pm, r, s, integration, caps, t);
    assert forall c :: Shown(pm, r, s, integration, c) <==>
      c in caps && !c.removed && Decision(pm, r.grants, s, integration.id, c.name) != Deny;
  }

  lemma {:induction false} ListedWhenAdded(pm: Matcher, r: Registry, s: Subject, n: nat, t: Tool)
    requires n <= |r.integrations|
    ensures t in ToolsOfFirst(pm, r, s, n) <==> exists i :: 0 <= i < n && ListedBy(pm, r, s, r.integrations[i], t)
    ensures n == |r.integrations| ==> (t in ToolsOfFirst(pm, r, s, n) <==> Listed(pm, r, s, t))
  {
    hide ListedBy, ToolsOf;
    if n > 0 {
      ListedWhenAdded(pm, r, s, n - 1, t);
      AddedIsListedBy(pm, r, s, r.integrations[n - 1], t);
    }
    if n == |r.integrations| {
      ListedIsBySome(pm, r, s, t);
    }
  }

  lemma ListedIsBySome(pm: Matcher, r: Registry, s: Subject, t: Tool)
    ensures Listed(pm, r, s, t) <==> exists i :: 0 <= i < |r.integrations| && ListedBy(pm, r, s, r.integrations[i], t)
  {
    hide Decision, ToolOf;
    if Listed(pm, r, s, t) {
      var x, c :| Shown(pm, r, s, x, c) && t == ToolOf(x, c, Decision(pm, r.grants, s, x.id, c.name));
      var i :| 0 <= i < |r.integrations| && r.integrations[i] == x;
      assert ListedBy(pm, r, s, r.integrations[i], t);
    }
  }

  // ---- calling a tool ----

  /** Splits at the first underscore; `found` says whether there is one. */
  method Cut(name: string) returns (before: string, after: string, found: bool)
    ensures found <==> '_' in name
    ensures found ==> name == before + "_" + after && '_' !in before
    ensures !found ==> before == name && after == ""
  {
    for i := 0 to |name|
      invariant '_' !in name[..i]
    {
      if name[i] == '_' {
        assert name == name[..i] + [name[i]] + name[i + 1..];
        return name[..i], name[i + 1..], true;
      }
      assert name[..i + 1] == name[..i] + [name[i]];
    }
    assert name[..|name|] == name;
    return name, "", false;
  }

  lemma CutIsUnique(a: string, b: string, c: string, d: string)
    requires '_' !in a && '_' !in c && a + "_" + b == c + "_" + d
    ensures a == c && b == d
  {
    var s, t := a + "_" + b, c + "_" + d;
    assert s[|a|] == '_' && t[|c|] == '_';
    assert forall i :: 0 <= i < |a| ==> s[i] == a[i];
    assert forall i :: 0 <= i < |c| ==> t[i] == c[i];
    assert |a| == |c|;
    assert a == s[..|a|] && c == t[..|c|] && b == s[|a| + 1..] && d == t[|c| + 1..];
  }

  datatype Answer =
    // Handled by Aurium itself; no such tool; held for a human; sent upstream.
    | Native
    | UnknownTool(name: string)
    | Held(integration: Integration, capability: string)
    | Forwarded(integration: Integration, capability: string)

  predicate IsNative(name: string) {
    "aurium_" <= name
  }

  /**
   What a call comes to: the part before the first underscore names an integration of the caller's
   project, the rest is put to the grants.
   */
  ghost predicate Answers(pm: Matcher, r: Registry, s: Subject, name: string, a: Answer) {
    if IsNative(name) then a == Native
    else if exists integration, rest :: Addresses(r, name, integration, rest) then
      exists integration, rest ::
        Addresses(r, name, integration, rest)
        && a == match Decision(pm, r.grants, s, integration.id, rest)
                case Deny => UnknownTool(name)
                case Approve => Held(integration, rest)
                case Allow => Forwarded(integration, rest)
    else a == UnknownTool(name)
  }

  ghost predicate Addresses(r: Registry, name: string, integration: Integration, rest: string) {
    integration in r.integrations && '_' !in integration.name && name == ToolName(integration, rest)
  }

  method CallTool(pm: Matcher, r: Registry, s: Subject, name: string) returns (a: Answer)
    ensures Answers(pm, r, s, name, a)
    ensures a.Native? <==> "aurium_" <= name
    ensures a.UnknownTool? ==> a.name == name
    ensures a.UnknownTool? && r.Valid() ==>
              forall integration, rest ::
                integration in r.integrations && '_' !in integration.name && name == integration.name + "_" + rest ==>
                  Decision(pm, r.grants, s, integration.id, rest) == Deny
    ensures a.Held? || a.Forwarded? ==>
              && a.integration in r.integrations && '_' !in a.integration.name
              && name == a.integration.name + "_" + a.capability
              && Decision(pm, r.grants, s, a.integration.id, a.capability) == if a.Held? then Approve else Allow
  {
    if "aurium_" <= name { return Native; }
    var before, capability, ok := Cut(name);
    if !ok {
      NoUnderscoreNoAddress(r, name);
      return UnknownTool(name);
    }
    for i := 0 to |r.integrations|
      invariant forall k :: 0 <= k < i ==> r.integrations[k].name != before
    {
      var integration := r.integrations[i];
      if integration.name == before {
        assert Addresses(r, name, integration, capability);
        var mode, _ := Resolve(pm, r.grants, s, integration.id, capability);
        forall other, rest | other in r.integrations && '_' !in other.name && name == other.name + "_" + rest
          ensures other.name == before && rest == capability
        {
          CutIsUnique(other.name, rest, before, capability);
        }
        match mode {
          case Deny => return UnknownTool(name);
          case Approve => return Held(integration, capability);
          case Allow => return Forwarded(integration, capability);
        }
      }
    }
    forall integration, rest | integration in r.integrations && '_' !in integration.name
      ensures !Addresses(r, name, integration, rest) && name != integration.name + "_" + rest
    {
      if name == integration.name + "_" + rest {
        CutIsUnique(integration.name, rest, before, capability);
        assert false;
      }
    }
    a := UnknownTool(name);
  }

  lemma NoUnderscoreNoAddress(r: Registry, name: string)
    requires '_' !in name
    ensures forall integration, rest :: !Addresses(r, name, integration, rest)
    ensures forall integration, rest :: integration in r.integrations ==> name != integration.name + "_" + rest
  {
    forall integration: Integration, rest ensures name != integration.name + "_" + rest {
      assert (integration.name + "_" + rest)[|integration.name|] == '_';
    }
    forall integration, rest ensures !Addresses(r, name, integration, rest) {
      assert ToolName(integration, rest)[|integration.name|] == '_';
    }
  }

  /** A call has one answer. */
  lemma AnswerIsUnique(pm: Matcher, r: Registry, s: Subject, name: string, a: Answer, b: Answer)
    requires r.Valid() && Answers(pm, r, s, name, a) && Answers(pm, r, s, name, b)
    ensures a == b
  {
    forall x, p, y, q | Addresses(r, name, x, p) && Addresses(r, name, y, q) ensures x == y && p == q {
      CutIsUnique(x.name, p, y.name, q);
    }
  }

  /**
   The tool list and the calls agree, exactly for well-named integrations: calling a listed tool by
   its name reaches the same integration and capability, in the mode it was listed with, if and only
   if the integration's name has no underscore and is not `aurium`.
   */
  lemma ListedToolIsCallableIff(pm: Matcher, r: Registry, s: Subject, integration: Integration, c: Capability,
    a: Answer)
    requires r.Valid() && Shown(pm, r, s, integration, c)
    requires Answers(pm, r, s, ToolName(integration, c.name), a)
    ensures a == (if Decision(pm, r.grants, s, integration.id, c.name) == Approve then Held(integration, c.name)
                  else Forwarded(integration, c.name))
            <==> '_' !in integration.name && integration.name != "aurium"
  {
    var name := ToolName(integration, c.name);
    if '_' !in integration.name {
      NativeIff(integration.name, c.name);
      assert Addresses(r, name, integration, c.name);
      forall x, p | Addresses(r, name, x, p) ensures x == integration && p == c.name {
        CutIsUnique(x.name, p, integration.name, c.name);
      }
    }
  }

  // A name without underscores leads to a native name only if it is Aurium's own.
  lemma NativeIff(name: string, rest: string)
    requires '_' !in name
    ensures IsNative(name + "_" + rest) <==> name == "aurium"
  {
    var full := name + "_" + rest;
    assert full[|name|] == '_';
    assert forall i :: 0 <= i < |name| ==> full[i] == name[i] && full[i] != '_';
    if IsNative(full) {
      assert full[..7] == "aurium_";
      assert full[6] == '_';
      assert forall i :: 0 <= i < 6 ==> full[i] == "aurium_"[i];
      assert |name| == 6 && name == full[..6] == "aurium";
    }
  }

  /**
   A tool the caller is denied is answered like one that does not exist. But a capability that was
   never registered, or was removed, is forwarded or held all the same when a grant matches its
   name: only the listing looks at the registry.
   */
  lemma UnknownIffDenied(pm: Matcher, r: Registry, s: Subject, integration: Integration, capability: string, a: Answer)
    requires r.Valid() && integration in r.integrations && '_' !in integration.name && integration.name != "aurium"
    requires Answers(pm, r, s, ToolName(integration, capability), a)
    ensures a == UnknownTool(ToolName(integration, capability)) <==>
              Decision(pm, r.grants, s, integration.id, capability) == Deny
  {
    var name := ToolName(integration, capability);
    NativeIff(integration.name, capability);
    assert Addresses(r, name, integration, capability);
    forall x, p | Addresses(r, name, x, p) ensures x == integration && p == capability {
      CutIsUnique(x.name, p, integration.name, capability);
    }
  }
}
