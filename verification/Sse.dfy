/**
 `internal/api/sse.go`: one client following the event log over connections that drop. The handler
 subscribes, replays from the id the client names, then forwards the live channel, skipping what
 the replay already sent. Events may be emitted between any two of these steps.
 */
module Sse {
  import opened EventBus

  const REPLAY_LIMIT: nat := 1000

  datatype Phase = Offline | Subscribed | Live | Ended

  /**
   What the client wants is the matching log past `start`; `seen` is what it has read, over all its
   connections. `wire` is what the current connection has written and the client has not read.
   `since`, `at` (log length at subscription), `lastSent` and `sub` belong to the connection.
   */
  datatype Session = Session(log: seq<Event>, filter: Filter, start: nat, seen: seq<Event>, wire: seq<Event>,
                             phase: Phase, since: int, at: nat, lastSent: nat, sub: Sub)

  function View(s: Session): seq<Event> {
    s.seen + s.wire
  }

  /** The id of the last event in a stream that started after `start`. */
  function LastId(start: nat, es: seq<Event>): nat {
    if es == [] then start else es[|es| - 1].id
  }

  // The query parameter wins over the Last-Event-ID header; a negative result means "from now".
  function Since(query: int, header: int): int {
    if query < 0 then header else query
  }

  function Send(s: Session, e: Event): Session {
    if e.id <= s.lastSent then s else s.(wire := s.wire + [e], lastSent := e.id)
  }

  function SendAll(s: Session, es: seq<Event>): Session
    decreases |es|
  {
    if es == [] then s else SendAll(Send(s, es[0]), es[1..])
  }

  /** What the handler replays; a failed query is passed over in silence. */
  ghost function Past(s: Session, ok: bool): seq<Event> {
    if s.since < 0 || !ok then [] else ReplaySpec(s.log, s.since, s.filter, REPLAY_LIMIT)
  }

  datatype Op =
    | LogEventOp(draft: Event)
    // The client opens a connection; the handler replays; the handler takes one event off its
    // channel; the client reads one event; the connection goes away.
    | ConnectOp(query: int, header: int)
    | ReplayOp(ok: bool)
    | ForwardOp
    | ReadOp
    | DropOp

  ghost function Next(s: Session, op: Op): Session {
    match op
    case LogEventOp(draft) =>
      if !Wellformed(draft) then s
      else
        var e := draft.(id := |s.log| + 1);
        s.(log := s.log + [e], sub := if s.phase.Offline? then s.sub else Offer(s.sub, e))
    case ConnectOp(query, header) =>
      if s.phase != Offline then s
      else s.(phase := Subscribed, since := Since(query, header), at := |s.log|, lastSent := 0,
              sub := Sub(s.filter, [], true, 0, [], |s.log|))
    case ReplayOp(ok) =>
      if s.phase != Subscribed then s else SendAll(s, Past(s, ok)).(phase := Live)
    case ForwardOp =>
      if s.phase != Live then s
      else if s.sub.buffer != [] then Send(s.(sub := Receive(s.sub)), s.sub.buffer[0])
      else if !s.sub.live then s.(phase := Ended)
      else s
    case ReadOp =>
      if s.wire == [] then s else s.(seen := s.seen + [s.wire[0]], wire := s.wire[1..])
    case DropOp => s.(phase := Offline, wire := [])
  }

  ghost function Run(s: Session, ops: seq<Op>): Session
    decreases |ops|
  {
    if ops == [] then s else Run(Next(s, ops[0]), ops[1..])
  }

  ghost function Fresh(log: seq<Event>, filter: Filter, start: nat): Session {
    Session(log, filter, start, [], [], Offline, -1, 0, 0, Sub(filter, [], false, 1, [], 0))
  }

  // ---- when a run is as the protocol intends ----

  /** The wanted events logged between two ids, whichever is the lower. */
  ghost function Between(log: seq<Event>, f: Filter, a: nat, b: nat): seq<Event> {
    if a <= b <= |log| then Matching(f, log[a..b])
    else if b < a <= |log| then Matching(f, log[b..a])
    else []
  }

  /**
   A client that comes back asks for events from now on, or names the last id it saw, or any other
   logged id with nothing it wants in between.
   */
  ghost predicate Faithful(s: Session, op: Op) {
    op.ConnectOp? && s.phase.Offline? ==>
      var since := if op.query >= 0 then op.query else op.header;
      since < 0 || (since <= |s.log| && Between(s.log, s.filter, since, LastId(s.start, s.seen)) == [])
  }

  // Where the replay starts to read.
  ghost function From(s: Session): nat {
    if s.since < 0 then LastId(s.start, View(s)) else s.since
  }

  ghost function Reach(s: Session, ok: bool): nat {
    if s.since < 0 || !ok then 0 else REPLAY_LIMIT
  }

  /**
   The backlog is within reach: of the rows logged between what the client named and its
   subscription, those past the replay limit hold nothing the client asked for. (No more than 1000
   backlog rows is enough.)
   */
  ghost predicate Covered(s: Session, ok: bool) {
    Missed(s.log, s.filter, From(s), s.at, Reach(s, ok)) == []
  }

  // The wanted events after `last` and up to `at` that lie beyond the first `limit` rows.
  ghost function Missed(log: seq<Event>, f: Filter, last: nat, at: nat, limit: nat): seq<Event> {
    if last <= at <= |log| then
      var rows := Rows(f, log[last..at]);
      OfTypes(f, rows[Min(limit, |rows|)..])
    else []
  }

  ghost predicate Intended(s: Session, ops: seq<Op>)
    decreases |ops|
  {
    ops == []
    || (&& Faithful(s, ops[0])
        && (ops[0].ReplayOp? && s.phase.Subscribed? ==> Covered(s, ops[0].ok))
        && Intended(Next(s, ops[0]), ops[1..]))
  }

  // ---- the invariant ----

  ghost predicate Numbered(log: seq<Event>) {
    forall i :: 0 <= i < |log| ==> log[i].id == i + 1
  }

  /** The events of a channel that the handler will not skip. */
  ghost function Beyond(es: seq<Event>, n: nat): seq<Event> {
    if es == [] then [] else (if es[0].id > n then [es[0]] else []) + Beyond(es[1..], n)
  }

  // A channel carries exactly `want` while the subscription stands, and a prefix once it was dropped.
  ghost predicate Carries(sub: Sub, got: seq<Event>, want: seq<Event>) {
    got <= want && (sub.live ==> got == want)
  }

  ghost predicate Ok(s: Session) {
    var last := LastId(s.start, View(s));
    && Numbered(s.log)
    && s.start <= last <= |s.log|
    && View(s) == Matching(s.filter, s.log[s.start..last])
    && s.sub.filter == s.filter && s.lastSent <= |s.log|
    && (s.phase.Offline? ==> s.wire == [])
    && (s.phase.Subscribed? ==>
          && s.wire == [] && s.lastSent == 0 && last <= s.at <= |s.log|
          && (s.since < 0 || (s.since <= s.at && Between(s.log, s.filter, s.since, last) == []))
          && Carries(s.sub, s.sub.buffer, Matching(s.filter, s.log[s.at..])))
    && (s.phase.Live? ==> Carries(s.sub, Beyond(s.sub.buffer, s.lastSent), Matching(s.filter, s.log[last..])))
  }

  // ---- slices of a numbered log ----

  lemma MatchingOfSlice(f: Filter, log: seq<Event>, a: nat, b: nat)
    requires Numbered(log) && a <= b <= |log|
    ensures var m := Matching(f, log[a..b]);
            && (forall i :: 0 <= i < |m| ==> a < m[i].id <= b && f.Matches(m[i]))
            && (forall i, j :: 0 <= i < j < |m| ==> m[i].id < m[j].id)
  {
    hide Matching;
    assert forall i :: 0 <= i < |log[a..b]| ==> log[a..b][i] == log[a + i];
    MatchingIncreases(f, log[a..b]);
    var m := Matching(f, log[a..b]);
    assert forall i :: 0 <= i < |m| ==> m[i] in m;
  }

  lemma MatchingSplit(f: Filter, log: seq<Event>, a: nat, p: nat, b: nat)
    requires a <= p <= b <= |log|
    ensures Matching(f, log[a..b]) == Matching(f, log[a..p]) + Matching(f, log[p..b])
  {
    assert log[a..b] == log[a..p] + log[p..b];
    MatchingAppend(f, log[a..p], log[p..b]);
  }

  // Cutting a stream of matching events after its n-th event cuts the log at that event's id.
  lemma MatchingCut(f: Filter, log: seq<Event>, a: nat, b: nat, n: nat)
    requires Numbered(log) && a <= b <= |log|
    requires n <= |Matching(f, log[a..b])|
    ensures var m := Matching(f, log[a..b]);
            var p := LastId(a, m[..n]);
            a <= p <= b && m[..n] == Matching(f, log[a..p]) && m[n..] == Matching(f, log[p..b])
  {
    hide Matching;
    var m := Matching(f, log[a..b]);
    var p := LastId(a, m[..n]);
    MatchingOfSlice(f, log, a, b);
    if n == 0 {
      assert log[a..a] == [];
      MatchingNothing(f);
    } else {
      MatchingSplit(f, log, a, p, b);
      MatchingOfSlice(f, log, a, p);
      MatchingOfSlice(f, log, p, b);
      var front, back := Matching(f, log[a..p]), Matching(f, log[p..b]);
      assert forall i :: 0 <= i < |m| ==> m[i] == if i < |front| then front[i] else back[i - |front|];
      assert m[n - 1].id == p;
      assert n < |m| ==> m[n].id > p;
    }
  }

  lemma MatchingNothing(f: Filter)
    ensures Matching(f, []) == []
  {
  }

  lemma {:induction false} BeyondCut(es: seq<Event>, n: nat, k: nat)
    requires k <= |es|
    requires forall i :: 0 <= i < |es| ==> (es[i].id > n <==> i >= k)
    ensures Beyond(es, n) == es[k..]
  {
    if es != [] {
      BeyondCut(es[1..], n, if k == 0 then 0 else k - 1);
    }
  }

  lemma {:induction false} BeyondAppend(a: seq<Event>, b: seq<Event>, n: nat)
    ensures Beyond(a + b, n) == Beyond(a, n) + Beyond(b, n)
  {
    if a == [] {
      assert a + b == b;
    } else {
      assert (a + b)[1..] == a[1..] + b;
      BeyondAppend(a[1..], b, n);
    }
  }

  // Skipping further into an increasing channel skips nothing that was not skipped already.
  lemma {:induction false} BeyondRaised(es: seq<Event>, n: nat, m: nat)
    requires n <= m && forall e :: e in Beyond(es, n) ==> e.id > m
    ensures Beyond(es, m) == Beyond(es, n)
  {
    if es != [] {
      BeyondRaised(es[1..], n, m);
    }
  }

  lemma {:induction false} SendAllSendsAll(s: Session, es: seq<Event>)
    requires forall i, j :: 0 <= i < j < |es| ==> es[i].id < es[j].id
    requires forall i :: 0 <= i < |es| ==> es[i].id > s.lastSent
    ensures SendAll(s, es) == s.(wire := s.wire + es, lastSent := LastId(s.lastSent, es))
    decreases |es|
  {
    if es == [] {
      assert s.wire + es == s.wire;
    } else {
      SendAllSendsAll(Send(s, es[0]), es[1..]);
      assert s.wire + [es[0]] + es[1..] == s.wire + es;
    }
  }

  // ---- what a replay covers ----

  /**
   A replay reads the rows before the subscription first. It is a prefix of the matching events,
   and it reaches past the subscription unless the rows beyond the limit hold matching events.
   */
  lemma ReplayReaches(f: Filter, log: seq<Event>, last: nat, at: nat, limit: nat)
    requires last <= at <= |log|
    ensures var past := ReplaySpec(log, last, f, limit);
            var missed := Missed(log, f, last, at, limit);
            var backlog := Matching(f, log[last..at]);
            && past <= Matching(f, log[last..])
            && (missed == [] ==> backlog <= past)
            && (missed != [] ==> backlog == past + missed)
  {
    hide Matching, Rows, OfTypes;
    var rows, more := Rows(f, log[last..at]), Rows(f, log[at..]);
    var all := Rows(f, log[last..]);
    assert log[last..] == log[last..at] + log[at..];
    RowsAppend(f, log[last..at], log[at..]);
    TypesOfRows(f, log[last..]);
    TypesOfRows(f, log[last..at]);
    var cut := Min(limit, |all|);
    assert all == all[..cut] + all[cut..];
    OfTypesAppend(f, all[..cut], all[cut..]);
    var k := Min(limit, |rows|);
    assert rows == rows[..k] + rows[k..];
    OfTypesAppend(f, rows[..k], rows[k..]);
    assert all[..cut] == rows[..k] + all[k..cut];
    OfTypesAppend(f, rows[..k], all[k..cut]);
    if k == limit {
      assert all[..cut] == rows[..k];
    } else {
      assert rows[k..] == [];
      OfNothing(f);
    }
  }

  // ---- the invariant is kept ----

  // Offering an event keeps a channel a faithful carrier, whichever part of it is still to be sent.
  lemma OfferCarries(sub: Sub, e: Event, n: nat, want: seq<Event>)
    requires e.id > n
    ensures Carries(sub, sub.buffer, want) ==>
              Carries(Offer(sub, e), Offer(sub, e).buffer, want + Matching(sub.filter, [e]))
    ensures Carries(sub, Beyond(sub.buffer, n), want) ==>
              Carries(Offer(sub, e), Beyond(Offer(sub, e).buffer, n), want + Matching(sub.filter, [e]))
  {
    MatchingOne(sub.filter, e);
    BeyondAppend(sub.buffer, [e], n);
    assert Beyond([e], n) == [e];
  }

  lemma LongerLog(f: Filter, log: seq<Event>, e: Event, a: nat)
    requires a <= |log|
    ensures Matching(f, (log + [e])[a..]) == Matching(f, log[a..]) + Matching(f, [e])
  {
    assert (log + [e])[a..] == log[a..] + [e];
    MatchingAppend(f, log[a..], [e]);
  }

  lemma BetweenStays(f: Filter, log: seq<Event>, e: Event, a: nat, b: nat)
    requires a <= |log| && b <= |log|
    ensures Between(log + [e], f, a, b) == Between(log, f, a, b)
  {
    hide Matching;
    if a <= b {
      assert (log + [e])[a..b] == log[a..b];
    } else {
      assert (log + [e])[b..a] == log[b..a];
    }
  }

  lemma EmitKeepsOk(s: Session, draft: Event)
    requires Ok(s) && Wellformed(draft)
    ensures Ok(Next(s, LogEventOp(draft)))
  {
    hide Matching, Beyond, Offer, Carries, Between;
    var e := draft.(id := |s.log| + 1);
    var last := LastId(s.start, View(s));
    if s.phase.Subscribed? && s.since >= 0 {
      BetweenStays(s.filter, s.log, e, s.since, last);
    }
    assert (s.log + [e])[s.start..last] == s.log[s.start..last];
    OfferKeepsFilter(s.sub, e);
    if s.phase.Subscribed? {
      LongerLog(s.filter, s.log, e, s.at);
      OfferCarries(s.sub, e, 0, Matching(s.filter, s.log[s.at..]));
    }
    if s.phase.Live? {
      LongerLog(s.filter, s.log, e, last);
      OfferCarries(s.sub, e, s.lastSent, Matching(s.filter, s.log[last..]));
    }
  }

  lemma OfferKeepsFilter(sub: Sub, e: Event)
    ensures Offer(sub, e).filter == sub.filter
  {
  }

  lemma MatchingOne(f: Filter, e: Event)
    ensures Matching(f, [e]) == if f.Matches(e) then [e] else []
  {
    assert [e][..0] == [];
  }

  // What a connection has sent stays the matching log up to a point when it is cut short.
  lemma CutView(s: Session, es: seq<Event>)
    requires Ok(s) && es <= View(s)
    ensures var p := LastId(s.start, es);
            s.start <= p <= |s.log| && es == Matching(s.filter, s.log[s.start..p])
  {
    hide Matching;
    var last := LastId(s.start, View(s));
    MatchingCut(s.filter, s.log, s.start, last, |es|);
    assert View(s)[..|es|] == es;
  }

  // A replay sends all it read: the rows come in id order.
  lemma SendPrefix(s: Session, past: seq<Event>, a: nat)
    requires Numbered(s.log) && a <= |s.log| && past <= Matching(s.filter, s.log[a..])
    requires s.lastSent == 0 && s.wire == []
    ensures SendAll(s, past) == s.(wire := past, lastSent := LastId(0, past))
  {
    hide Matching, SendAll;
    var m := Matching(s.filter, s.log[a..]);
    assert s.log[a..|s.log|] == s.log[a..];
    MatchingOfSlice(s.filter, s.log, a, |s.log|);
    assert forall i :: 0 <= i < |past| ==> past[i] == m[i];
    SendAllSendsAll(s, past);
    assert [] + past == past;
  }

  // The state after the replay, written out.
  lemma ReplayEffect(s: Session, ok: bool)
    requires Ok(s) && s.phase.Subscribed?
    ensures var past := Past(s, ok);
            && past <= Matching(s.filter, s.log[LastId(s.start, View(s))..])
            && Next(s, ReplayOp(ok)) == s.(wire := past, lastSent := LastId(0, past), phase := Live)
  {
    hide Matching, ReplaySpec, Beyond, Carries, SendAll, Past;
    PastIsPrefix(s, ok);
    SendPrefix(s, Past(s, ok), LastId(s.start, View(s)));
  }

  lemma PastIsPrefix(s: Session, ok: bool)
    requires Ok(s) && s.phase.Subscribed?
    ensures Past(s, ok) <= Matching(s.filter, s.log[LastId(s.start, View(s))..])
  {
    hide Matching, ReplaySpec, Missed, Between;
    PastIsReplay(s, ok);
    ReplayReaches(s.filter, s.log, From(s), s.at, Reach(s, ok));
    NothingBetween(s);
  }

  lemma ReplayKeepsOk(s: Session, ok: bool)
    requires Ok(s) && s.phase.Subscribed? && Covered(s, ok)
    ensures Ok(Next(s, ReplayOp(ok)))
  {
    hide Matching, Missed, ReplaySpec, Beyond, Carries, SendAll, Next, Covered, Past;
    var f, log, last := s.filter, s.log, LastId(s.start, View(s));
    var past := Past(s, ok);
    PastReaches(s, ok);
    ReplayEffect(s, ok);
    assert log[last..|log|] == log[last..];
    var s' := s.(wire := past, lastSent := LastId(0, past), phase := Live);
    MatchingCut(f, log, last, |log|, |past|);
    var m := Matching(f, log[last..]);
    assert m[..|past|] == past;
    var last' := LastId(last, past);
    assert LastId(s.start, View(s')) == last';
    MatchingSplit(f, log, s.start, last, last');
    assert View(s') == View(s) + past;
    ChannelAfterReplay(s, past);
    assert log[last'..|log|] == log[last'..];
  }

  lemma PastIsReplay(s: Session, ok: bool)
    requires s.since < 0 ==> LastId(s.start, View(s)) <= |s.log|
    ensures Past(s, ok) == ReplaySpec(s.log, From(s), s.filter, Reach(s, ok))
  {
    hide Matching, Rows;
    OfNothing(s.filter);
  }

  lemma PastReaches(s: Session, ok: bool)
    requires Ok(s) && s.phase.Subscribed? && Covered(s, ok)
    ensures var last := LastId(s.start, View(s));
            && Past(s, ok) <= Matching(s.filter, s.log[last..])
            && Matching(s.filter, s.log[last..s.at]) <= Past(s, ok)
  {
    hide Matching, ReplaySpec, Missed, Between;
    PastIsReplay(s, ok);
    ReplayReaches(s.filter, s.log, From(s), s.at, Reach(s, ok));
    NothingBetween(s);
  }

  // What the client named and what it saw last are as good as each other.
  lemma NothingBetween(s: Session)
    requires Ok(s) && s.phase.Subscribed?
    ensures var last := LastId(s.start, View(s));
            && From(s) <= s.at
            && Matching(s.filter, s.log[From(s)..s.at]) == Matching(s.filter, s.log[last..s.at])
            && Matching(s.filter, s.log[From(s)..]) == Matching(s.filter, s.log[last..])
  {
    hide Matching;
    var f, log, a, b := s.filter, s.log, From(s), LastId(s.start, View(s));
    assert log[a..|log|] == log[a..] && log[b..|log|] == log[b..];
    if a < b {
      MatchingSplit(f, log, a, b, s.at);
      MatchingSplit(f, log, a, b, |log|);
    } else if b < a {
      MatchingSplit(f, log, b, a, s.at);
      MatchingSplit(f, log, b, a, |log|);
    }
  }

  lemma OfNothing(f: Filter)
    ensures OfTypes(f, []) == []
  {
  }

  // Once the replay has covered the backlog, what the channel still holds is what comes after it.
  lemma ChannelAfterReplay(s: Session, past: seq<Event>)
    requires Ok(s) && s.phase.Subscribed?
    requires var last := LastId(s.start, View(s));
             Matching(s.filter, s.log[last..s.at]) <= past <= Matching(s.filter, s.log[last..])
    ensures var last := LastId(s.start, View(s));
            Carries(s.sub, Beyond(s.sub.buffer, LastId(0, past)), Matching(s.filter, s.log[last..])[|past|..])
  {
    hide Matching, Beyond;
    var f, log, last := s.filter, s.log, LastId(s.start, View(s));
    var backlog, later := Matching(f, log[last..s.at]), Matching(f, log[s.at..]);
    assert log[last..|log|] == log[last..] && log[s.at..|log|] == log[s.at..];
    MatchingSplit(f, log, last, s.at, |log|);
    MatchingOfSlice(f, log, last, s.at);
    MatchingOfSlice(f, log, s.at, |log|);
    MatchingOfSlice(f, log, last, |log|);
    var k := |past| - |backlog|;
    var m := backlog + later;
    assert m == Matching(f, log[last..]) && m[|past|..] == later[k..];
    BeyondCut(later, LastId(0, past), k) by {
      forall i | 0 <= i < |later| ensures later[i].id > LastId(0, past) <==> i >= k {
        assert later[i] == m[|backlog| + i];
        if past != [] {
          assert past[|past| - 1] == m[|past| - 1];
        }
      }
    }
    var n := |s.sub.buffer|;
    assert later == s.sub.buffer + later[n..];
    BeyondAppend(s.sub.buffer, later[n..], LastId(0, past));
  }

  lemma BeyondHead(es: seq<Event>, n: nat)
    requires es != []
    ensures Beyond(es, n) == if es[0].id > n then [es[0]] + Beyond(es[1..], n) else Beyond(es[1..], n)
  {
  }

  lemma CarriesFirst(sub: Sub, n: nat, want: seq<Event>)
    requires sub.buffer != [] && sub.buffer[0].id > n
    requires Carries(sub, Beyond(sub.buffer, n), want)
    ensures var rest := Beyond(sub.buffer[1..], n);
            && |want| > 0 && want[0] == sub.buffer[0]
            && rest <= want[1..]
            && Carries(Receive(sub), rest, want[1..])
  {
  }

  lemma ReceiveCarries(sub: Sub, got: seq<Event>, want: seq<Event>)
    ensures Carries(Receive(sub), got, want) == Carries(sub, got, want)
  {
  }

  // Forwarding: the head of the channel is skipped or is the next matching event of the log.
  lemma SkipKeepsOk(s: Session)
    requires Ok(s) && s.phase.Live? && s.sub.buffer != [] && s.sub.buffer[0].id <= s.lastSent
    ensures Ok(Next(s, ForwardOp))
  {
    hide Matching, Beyond, Carries;
    BeyondHead(s.sub.buffer, s.lastSent);
    var s' := s.(sub := Receive(s.sub));
    ReceiveCarries(s.sub, Beyond(s'.sub.buffer, s.lastSent), Matching(s.filter, s.log[LastId(s.start, View(s))..]));
    assert View(s') == View(s);
  }

  lemma SendNextKeepsOk(s: Session)
    requires Ok(s) && s.phase.Live? && s.sub.buffer != [] && s.sub.buffer[0].id > s.lastSent
    ensures Ok(Next(s, ForwardOp))
  {
    hide Matching, Beyond, Carries;
    var f, log, last := s.filter, s.log, LastId(s.start, View(s));
    var e := s.sub.buffer[0];
    var rest := Beyond(s.sub.buffer[1..], s.lastSent);
    var m := Matching(f, log[last..]);
    BeyondHead(s.sub.buffer, s.lastSent);
    CarriesFirst(s.sub, s.lastSent, m);
    FirstOfRest(f, log, s.start, last, e);
    assert Next(s, ForwardOp) == s.(sub := Receive(s.sub), wire := s.wire + [e], lastSent := e.id);
    assert View(s.(wire := s.wire + [e])) == View(s) + [e];
    assert forall i :: 0 <= i < |rest| ==> rest[i] == m[i + 1];
    BeyondRaised(s.sub.buffer[1..], s.lastSent, e.id);
  }

  lemma FirstOfRest(f: Filter, log: seq<Event>, start: nat, last: nat, e: Event)
    requires Numbered(log) && start <= last <= |log|
    requires |Matching(f, log[last..])| > 0 && Matching(f, log[last..])[0] == e
    ensures var m := Matching(f, log[last..]);
            && last < e.id <= |log|
            && Matching(f, log[start..e.id]) == Matching(f, log[start..last]) + [e]
            && Matching(f, log[e.id..]) == m[1..]
            && (forall i :: 0 < i < |m| ==> m[i].id > e.id)
  {
    hide Matching;
    assert log[last..|log|] == log[last..];
    MatchingOfSlice(f, log, last, |log|);
    MatchingCut(f, log, last, |log|, 1);
    assert Matching(f, log[last..])[..1] == [e];
    MatchingSplit(f, log, start, last, e.id);
    assert log[e.id..|log|] == log[e.id..];
  }

  lemma StepKeepsOk(s: Session, op: Op)
    requires Ok(s) && Faithful(s, op)
    requires op.ReplayOp? && s.phase.Subscribed? ==> Covered(s, op.ok)
    ensures Ok(Next(s, op))
  {
    hide Matching, Beyond, Missed, ReplaySpec, Covered;
    match op {
      case LogEventOp(draft) => if Wellformed(draft) { EmitKeepsOk(s, draft); }
      case ConnectOp(query, header) =>
        assert s.phase.Offline? ==> View(s) == s.seen;
        assert s.log[|s.log|..] == [];
        MatchingNothing(s.filter);
      case ReplayOp(ok) => if s.phase.Subscribed? { ReplayKeepsOk(s, ok); }
      case ForwardOp =>
        if s.phase.Live? && s.sub.buffer != [] {
          if s.sub.buffer[0].id <= s.lastSent { SkipKeepsOk(s); } else { SendNextKeepsOk(s); }
        }
      case ReadOp =>
        if s.wire != [] {
          assert s.seen + [s.wire[0]] + s.wire[1..] == s.seen + s.wire;
        }
      case DropOp =>
        CutView(s, s.seen);
        assert s.seen + [] == s.seen;
    }
  }

  lemma {:induction false} RunKeepsOk(s: Session, ops: seq<Op>)
    requires Ok(s) && Intended(s, ops)
    ensures Ok(Run(s, ops)) && Run(s, ops).filter == s.filter && Run(s, ops).start == s.start
    decreases |ops|
  {
    hide Ok, Next, Faithful, Covered;
    if ops != [] {
      StepKeepsOk(s, ops[0]);
      StepKeepsQuestion(s, ops[0]);
      RunKeepsOk(Next(s, ops[0]), ops[1..]);
    }
  }

  lemma StepKeepsQuestion(s: Session, op: Op)
    ensures Next(s, op).filter == s.filter && Next(s, op).start == s.start
  {
    if op.ReplayOp? {
      SendAllKeepsQuestion(s, Past(s, op.ok));
    }
  }

  lemma {:induction false} SendAllKeepsQuestion(s: Session, es: seq<Event>)
    ensures SendAll(s, es).filter == s.filter && SendAll(s, es).start == s.start
    decreases |es|
  {
    if es != [] {
      SendAllKeepsQuestion(Send(s, es[0]), es[1..]);
    }
  }

  // ---- the promise ----

  /**
   The stream is lossless. Over any run of connects, drops and faithful reconnects, with events
   emitted at any moment, what the client has read is always an initial part of the matching log past its
   starting point: no gap, no duplicate, nothing out of order. And once a standing connection has
   forwarded its channel and the client has read its wire, the client has all of it.
   */
  lemma StreamIsLossless(log: seq<Event>, filter: Filter, start: nat, ops: seq<Op>)
    requires Numbered(log) && start <= |log| && Intended(Fresh(log, filter, start), ops)
    ensures var s := Run(Fresh(log, filter, start), ops);
            && start <= |s.log|
            && s.seen <= Matching(filter, s.log[start..])
            && (s.phase.Live? && s.sub.live && s.sub.buffer == [] && s.wire == [] ==>
                  s.seen == Matching(filter, s.log[start..]))
            // The same without the selection: each event read is the log's own and asked for, ids ascend,
            // and nothing asked for is left out up to the last id read, or at all once it is drained.
            && (forall e :: e in s.seen ==> start < e.id <= |s.log| && e == s.log[e.id - 1] && Asks(filter, e))
            && (forall i, j :: 0 <= i < j < |s.seen| ==> s.seen[i].id < s.seen[j].id)
            && (forall i | start <= i < |s.log| && Asks(filter, s.log[i]) ::
                  s.seen != [] && i < s.seen[|s.seen| - 1].id ==> s.log[i] in s.seen)
            && (s.phase.Live? && s.sub.live && s.sub.buffer == [] && s.wire == [] ==>
                  forall i :: start <= i < |s.log| && Asks(filter, s.log[i]) ==> s.log[i] in s.seen)
  {
    hide Matching, Run, Intended, Missed, Asks;
    var s0 := Fresh(log, filter, start);
    assert Ok(s0) by {
      assert log[start..start] == [];
      MatchingNothing(filter);
    }
    RunKeepsOk(s0, ops);
    var s := Run(s0, ops);
    var last := LastId(start, View(s));
    MatchingSplit(filter, s.log, start, last, |s.log|);
    assert s.log[start..|s.log|] == s.log[start..] && s.log[last..|s.log|] == s.log[last..];
    assert s.wire == [] ==> View(s) == s.seen;
    CutView(s, s.seen);
    ReadAsAsked(filter, s.log, start, LastId(start, s.seen));
    ReadAsAsked(filter, s.log, start, |s.log|);
  }

  // What matches in a stretch of a numbered log, event by event.
  lemma ReadAsAsked(f: Filter, log: seq<Event>, a: nat, b: nat)
    requires Numbered(log) && a <= b <= |log|
    ensures var m := Matching(f, log[a..b]);
            && (forall e :: e in m ==> a < e.id <= b && e == log[e.id - 1] && Asks(f, e))
            && (forall i, j :: 0 <= i < j < |m| ==> m[i].id < m[j].id)
            && (forall i :: a <= i < b && Asks(f, log[i]) ==> log[i] in m)
  {
    hide Matching, Asks;
    var m := Matching(f, log[a..b]);
    MatchingOfSlice(f, log, a, b);
    forall e | e in m ensures a < e.id <= b && e == log[e.id - 1] && Asks(f, e) {
      MatchingHolds(f, log[a..b], e);
    }
    forall i | a <= i < b && Asks(f, log[i]) ensures log[i] in m {
      MatchingHolds(f, log[a..b], log[i]);
      assert log[a..b][i - a] == log[i];
    }
  }

  /**
   Exactly when a replay loses nothing: every matching event logged so far has then been sent or
   waits in the channel, if and only if the backlog is within reach of the replay.
   */
  lemma ReplayLosesNothingIff(s: Session, ok: bool)
    requires Ok(s) && s.phase.Subscribed? && s.sub.live
    ensures var s' := Next(s, ReplayOp(ok));
            Covered(s, ok) <==>
              forall e :: e in Matching(s.filter, s.log[s.start..]) ==> e in View(s') || e in s'.sub.buffer
  {
    hide Matching, Missed, ReplaySpec, Next, Past, SendAll;
    var f, log, last := s.filter, s.log, LastId(s.start, View(s));
    var backlog, later := Matching(f, log[last..s.at]), Matching(f, log[s.at..]);
    ReplayEffect(s, ok);
    PastIsReplay(s, ok);
    ReplayReaches(f, log, From(s), s.at, Reach(s, ok));
    NothingBetween(s);
    var past := Past(s, ok);
    assert log[s.start..|log|] == log[s.start..] && log[s.at..|log|] == log[s.at..];
    MatchingSplit(f, log, s.start, last, |log|);
    MatchingSplit(f, log, last, s.at, |log|);
    assert Matching(f, log[s.start..]) == View(s) + (backlog + later);
    assert View(s.(wire := past)) == View(s) + past;
    if !Covered(s, ok) {
      var e := Missed(log, f, From(s), s.at, Reach(s, ok))[0];
      MatchingOfSlice(f, log, s.start, last);
      MatchingOfSlice(f, log, last, s.at);
      MatchingOfSlice(f, log, s.at, |log|);
      assert e == backlog[|past|];
      assert forall i :: 0 <= i < |past| ==> past[i] == backlog[i] && past[i].id < e.id;
      assert forall i :: 0 <= i < |View(s)| ==> View(s)[i].id < e.id;
      assert forall i :: 0 <= i < |later| ==> later[i].id > e.id;
      assert e in Matching(f, log[s.start..]);
    }
  }

  // ---- reconnecting with any id ----

  // Where a connection that names `since` starts to read; past the end when it replays nothing.
  ghost function ReadsFrom(log: seq<Event>, since: int, ok: bool): nat {
    if since < 0 || !ok || since > |log| then |log| else since
  }

  /** The wanted events in reach of the replay that the client had already been past. */
  ghost function Repeated(s: Session, since: int, ok: bool): seq<Event> {
    var from, last := ReadsFrom(s.log, since, ok), LastId(s.start, s.seen);
    if from < last <= |s.log| then
      var rows := Rows(s.filter, s.log[from..last]);
      OfTypes(s.filter, rows[..Min(REPLAY_LIMIT, |rows|)])
    else []
  }

  /** The wanted events the client has not seen and this connection leaves out: jumped over, or out of reach. */
  ghost function Skipped(s: Session, since: int, ok: bool): seq<Event> {
    var from, last := ReadsFrom(s.log, since, ok), LastId(s.start, s.seen);
    (if last < from then Between(s.log, s.filter, last, from) else [])
    + Beyond(Missed(s.log, s.filter, from, |s.log|, REPLAY_LIMIT), last)
  }

  lemma {:induction false} BeyondKeeps(es: seq<Event>, n: nat)
    ensures forall e :: e in Beyond(es, n) <==> e in es && e.id > n
    ensures (forall e :: e in es ==> e.id > n) <==> Beyond(es, n) == es
    ensures |Beyond(es, n)| <= |es|
  {
    if es != [] {
      BeyondKeeps(es[1..], n);
      assert es == [es[0]] + es[1..];
    }
  }

  // What the replay of any connection reads: all from its starting point but what is out of reach.
  lemma ReadAnywhere(s: Session, query: int, header: int, ok: bool)
    requires Ok(s) && s.phase.Offline?
    ensures var since := Since(query, header);
            var from := ReadsFrom(s.log, since, ok);
            var past := Past(Next(s, ConnectOp(query, header)), ok);
            && past == ReplaySpec(s.log, from, s.filter, REPLAY_LIMIT)
            && Matching(s.filter, s.log[from..]) == past + Missed(s.log, s.filter, from, |s.log|, REPLAY_LIMIT)
            && View(Next(Next(s, ConnectOp(query, header)), ReplayOp(ok))) == s.seen + past
  {
    hide Matching, OfTypes, SendAll;
    var since := Since(query, header);
    var from := ReadsFrom(s.log, since, ok);
    var s1 := Next(s, ConnectOp(query, header));
    var rows := Rows(s.filter, s.log[from..]);
    var k := Min(REPLAY_LIMIT, |rows|);
    assert s.log[from..|s.log|] == s.log[from..];
    assert rows == rows[..k] + rows[k..];
    OfTypesAppend(s.filter, rows[..k], rows[k..]);
    TypesOfRows(s.filter, s.log[from..]);
    OfNothing(s.filter);
    var past := Past(s1, ok);
    assert past == OfTypes(s.filter, rows[..k]);
    assert Matching(s.filter, s.log[from..])[..|past|] == past;
    SendPrefix(s1, past, from);
  }

  // A replay from below `last` reads the rows up to `last` first, then later ones.
  lemma OldThenNew(f: Filter, log: seq<Event>, from: nat, last: nat, limit: nat) returns (later: seq<Event>)
    requires Numbered(log) && from <= last <= |log|
    ensures var rows := Rows(f, log[from..last]);
            var again := OfTypes(f, rows[..Min(limit, |rows|)]);
            && ReplaySpec(log, from, f, limit) == again + later
            && (forall e :: e in again ==> e.id <= last)
            && (forall e :: e in later ==> e.id > last)
  {
    hide Rows, OfTypes;
    var earlier, newer, all := Rows(f, log[from..last]), Rows(f, log[last..]), Rows(f, log[from..]);
    assert log[from..] == log[from..last] + log[last..];
    RowsAppend(f, log[from..last], log[last..]);
    var k, cut := Min(limit, |earlier|), Min(limit, |all|);
    assert all[..cut] == earlier[..k] + all[k..cut];
    OfTypesAppend(f, earlier[..k], all[k..cut]);
    later := OfTypes(f, all[k..cut]);
    RowsOfSlice(f, log, from, last);
    RowsOfSlice(f, log, last, |log|);
    assert log[last..|log|] == log[last..];
    OfTypesAmong(f, earlier[..k]);
    OfTypesAmong(f, all[k..cut]);
    assert forall e :: e in earlier[..k] ==> e in earlier;
    forall e | e in all[k..cut] ensures e in newer {
      var i :| 0 <= i < |all[k..cut]| && all[k..cut][i] == e;
      assert k == |earlier| && all[k..cut][i] == newer[i];
    }
  }

  // The replayed events the client had seen are the wanted ones in reach up to the last it saw.
  lemma RepeatedIsOld(s: Session, since: int, ok: bool)
    requires Ok(s) && s.phase.Offline?
    ensures var from, last := ReadsFrom(s.log, since, ok), LastId(s.start, s.seen);
            var past := ReplaySpec(s.log, from, s.filter, REPLAY_LIMIT);
            && Repeated(s, since, ok) <= past
            && (Repeated(s, since, ok) == [] <==> Beyond(past, last) == past)
            && (forall e :: e in Repeated(s, since, ok) ==> e.id <= last)
  {
    hide Matching, Rows, OfTypes, Beyond;
    var f, log := s.filter, s.log;
    var from, last := ReadsFrom(log, since, ok), LastId(s.start, s.seen);
    assert View(s) == s.seen;
    var past := ReplaySpec(log, from, f, REPLAY_LIMIT);
    BeyondKeeps(past, last);
    if from < last {
      var later := OldThenNew(f, log, from, last, REPLAY_LIMIT);
      var again := Repeated(s, since, ok);
      assert forall i :: 0 <= i < |again| ==> again[i] in again && past[i] == again[i];
      if again == [] {
        assert past == later;
      } else {
        assert again[0] in past;
      }
    } else {
      var all := Rows(f, log[from..]);
      RowsOfSlice(f, log, from, |log|);
      assert log[from..|log|] == log[from..];
      OfTypesAmong(f, all[..Min(REPLAY_LIMIT, |all|)]);
    }
  }

  lemma {:induction false} NoneBeyond(es: seq<Event>, n: nat)
    requires forall e :: e in es ==> e.id <= n
    ensures Beyond(es, n) == []
  {
    if es != [] {
      NoneBeyond(es[1..], n);
    }
  }

  lemma {:induction false} RowsOfSlice(f: Filter, log: seq<Event>, a: nat, b: nat)
    requires Numbered(log) && a <= b <= |log|
    ensures forall e :: e in Rows(f, log[a..b]) ==> a < e.id <= b
    decreases b
  {
    if a < b {
      assert log[a..b][..b - a - 1] == log[a..b - 1];
      RowsOfSlice(f, log, a, b - 1);
    }
  }

  lemma {:induction false} OfTypesAmong(f: Filter, es: seq<Event>)
    ensures forall e :: e in OfTypes(f, es) ==> e in es
  {
    if es != [] {
      OfTypesAmong(f, es[..|es| - 1]);
    }
  }

  /**
   Exactly when a client that comes back naming any id at all is sent what it should be. After the
   replay it has been sent the matching log suffix without gap or repetition if and only if
   nothing in reach was repeated and nothing was skipped. What is repeated it has seen before. When
   the rows fit the limit, this says that no wanted event lies between the id it named and the last
   it saw: below that id the stream repeats, above it there is a gap.
   */
  lemma ResumeIsExactIff(s: Session, query: int, header: int, ok: bool)
    requires Ok(s) && s.phase.Offline?
    ensures var since := if query >= 0 then query else header;
            var from, last := ReadsFrom(s.log, since, ok), LastId(s.start, s.seen);
            var s' := Next(Next(s, ConnectOp(query, header)), ReplayOp(ok));
            var exact := View(s') == Matching(s.filter, s.log[s.start..]);
            && (exact <==> Repeated(s, since, ok) == [] && Skipped(s, since, ok) == [])
            && (from >= s.start ==> forall e :: e in Repeated(s, since, ok) ==> e in s.seen)
            && (|Rows(s.filter, s.log[from..])| <= 1000 ==>
                  (exact <==> Between(s.log, s.filter, from, last) == []))
  {
    hide Matching, Rows, OfTypes, Beyond, Missed, ReplaySpec, Repeated, Next, Past, Between;
    var since := Since(query, header);
    var f, log, from, last := s.filter, s.log, ReadsFrom(s.log, since, ok), LastId(s.start, s.seen);
    assert View(s) == s.seen;
    ReadAnywhere(s, query, header, ok);
    RepeatedIsOld(s, since, ok);
    var past, missed := ReplaySpec(log, from, f, REPLAY_LIMIT), Missed(log, f, from, |log|, REPLAY_LIMIT);
    var rest := Matching(f, log[last..]);
    assert log[s.start..|log|] == log[s.start..] && log[last..|log|] == log[last..];
    MatchingSplit(f, log, s.start, last, |log|);
    MatchingOfSlice(f, log, last, |log|);
    assert s.seen + past == s.seen + rest <==> past == rest by {
      assert (s.seen + past)[|s.seen|..] == past && (s.seen + rest)[|s.seen|..] == rest;
    }
    NoneMissedWithinLimit(log, f, from);
    if from <= last {
      ReadFromBelow(s, from, past, missed);
    } else {
      ReadFromAbove(s, from, past, missed);
    }
  }

  lemma NoneMissedWithinLimit(log: seq<Event>, f: Filter, from: nat)
    requires from <= |log|
    ensures |Rows(f, log[from..])| <= REPLAY_LIMIT ==> Missed(log, f, from, |log|, REPLAY_LIMIT) == []
  {
    hide Rows;
    assert log[from..|log|] == log[from..];
    var rows := Rows(f, log[from..]);
    if |rows| <= REPLAY_LIMIT {
      assert rows[Min(REPLAY_LIMIT, |rows|)..] == [];
      OfNothing(f);
    }
  }

  // Reading from at or below the last id seen: the wanted events seen before come again.
  lemma ReadFromBelow(s: Session, from: nat, past: seq<Event>, missed: seq<Event>)
    requires Ok(s) && s.phase.Offline? && from <= LastId(s.start, s.seen)
    requires Matching(s.filter, s.log[from..]) == past + missed
    ensures var last := LastId(s.start, s.seen);
            var rest := Matching(s.filter, s.log[last..]);
            && (past == rest <==> Beyond(past, last) == past && Beyond(missed, last) == [])
            && (missed == [] ==> (past == rest <==> Between(s.log, s.filter, from, last) == []))
            && (from >= s.start ==> forall e :: e in past && e.id <= last ==> e in s.seen)
  {
    hide Matching, Beyond;
    var f, log, last := s.filter, s.log, LastId(s.start, s.seen);
    assert View(s) == s.seen;
    var again, rest := Matching(f, log[from..last]), Matching(f, log[last..]);
    assert log[from..|log|] == log[from..] && log[last..|log|] == log[last..];
    MatchingSplit(f, log, from, last, |log|);
    MatchingOfSlice(f, log, from, last);
    MatchingOfSlice(f, log, last, |log|);
    assert forall i :: 0 <= i < |again| ==> again[i] in again;
    NoneBeyond(again, last);
    BeyondKeeps(rest, last);
    BeyondAppend(again, rest, last);
    BeyondAppend(past, missed, last);
    BeyondKeeps(past, last);
    BeyondKeeps(missed, last);
    assert Beyond(past, last) + Beyond(missed, last) == rest;
    if missed == [] {
      assert past == again + rest;
    }
    if from >= s.start {
      MatchingSplit(f, log, s.start, from, last);
      forall e | e in past && e.id <= last ensures e in s.seen {
        assert e in past + missed;
        assert e in again + rest;
      }
    }
  }

  // Reading from above it: what lies in between is jumped over.
  lemma ReadFromAbove(s: Session, from: nat, past: seq<Event>, missed: seq<Event>)
    requires Ok(s) && s.phase.Offline? && LastId(s.start, s.seen) < from <= |s.log|
    requires Matching(s.filter, s.log[from..]) == past + missed
    ensures var last := LastId(s.start, s.seen);
            var rest := Matching(s.filter, s.log[last..]);
            && Beyond(past, last) == past && Beyond(missed, last) == missed
            && (past == rest <==> Between(s.log, s.filter, last, from) == [] && missed == [])
            && Between(s.log, s.filter, from, last) == Between(s.log, s.filter, last, from)
            && (forall e :: e in past ==> e.id > last)
  {
    hide Matching, Beyond;
    var f, log, last := s.filter, s.log, LastId(s.start, s.seen);
    assert View(s) == s.seen;
    var gap, rest := Matching(f, log[last..from]), Matching(f, log[last..]);
    assert log[from..|log|] == log[from..] && log[last..|log|] == log[last..];
    MatchingSplit(f, log, last, from, |log|);
    MatchingOfSlice(f, log, from, |log|);
    var m := past + missed;
    forall e | e in past || e in missed ensures e.id > last {
      assert e in m;
    }
    BeyondKeeps(past, last);
    BeyondKeeps(missed, last);
    assert rest == gap + (past + missed);
    assert |rest| == |gap| + |past| + |missed|;
    if gap == [] && missed == [] {
      assert rest == past;
    }
  }

  // ---- the handler itself ----

  ghost predicate Ascending(es: seq<Event>, after: nat) {
    && (forall i, j :: 0 <= i < j < |es| ==> es[i].id < es[j].id)
    && (forall i :: 0 <= i < |es| ==> es[i].id > after)
  }

  /** One connection's side of the handler: `session` holds the log and what the client has read. */
  class Handler {
    var session: Session

    constructor (s: Session)
      ensures session == s
    {
      session := s;
    }

    /** Subscribes first; the query parameter wins over the header unless it is absent or negative. */
    method Connect(query: int, header: int)
      requires session.phase.Offline?
      modifies this
      ensures session == Next(old(session), ConnectOp(query, header))
      ensures session.phase.Subscribed? && session.since == if query >= 0 then query else header
      ensures session.lastSent == 0 && session.at == |session.log|
      ensures session.sub == Sub(session.filter, [], true, 0, [], |session.log|)
      ensures session.log == old(session).log && session.seen == old(session).seen && session.wire == old(session).wire
    {
      var since := query;
      if since < 0 {
        since := header;
      }
      session := session.(phase := Subscribed, since := since, at := |session.log|, lastSent := 0,
        sub := Sub(session.filter, [], true, 0, [], |session.log|));
    }

    method SendOne(e: Event)
      modifies this
      ensures session == Send(old(session), e)
      ensures session == if e.id > old(session).lastSent
                         then old(session).(wire := old(session).wire + [e], lastSent := e.id) else old(session)
    {
      if e.id <= session.lastSent { return; }
      session := session.(wire := session.wire + [e], lastSent := e.id);
    }

    /** The replay half; `rows` is what the bus's replay returned. */
    method Replay(rows: seq<Event>, ok: bool)
      requires session.phase.Subscribed?
      requires session.since >= 0 && ok ==> rows == ReplaySpec(session.log, session.since, session.filter, 1000)
      modifies this
      ensures session == Next(old(session), ReplayOp(ok))
      ensures old(session).since < 0 || !ok ==> session == old(session).(phase := Live)
      // Rows past the last id sent are all written, in their order, and the last of them is remembered.
      ensures old(session).since >= 0 && ok && Ascending(rows, old(session).lastSent) ==>
        session == old(session).(wire := old(session).wire + rows, phase := Live,
          lastSent := if rows == [] then old(session).lastSent else rows[|rows| - 1].id)
    {
      if session.since >= 0 && ok {
        ghost var goal := SendAll(session, rows);
        if Ascending(rows, session.lastSent) {
          SendAllSendsAll(session, rows);
        }
        for i := 0 to |rows|
          invariant SendAll(session, rows[i..]) == goal
          invariant session.phase.Subscribed?
        {
          assert rows[i..][0] == rows[i] && rows[i..][1..] == rows[i + 1..];
          SendOne(rows[i]);
        }
        assert rows[|rows|..] == [];
      }
      session := session.(phase := Live);
    }

    /** One turn of the live half; a closed and empty channel ends the stream. */
    method Forward()
      requires session.phase.Live?
      modifies this
      ensures session == Next(old(session), ForwardOp)
      ensures var was := old(session);
              var buffer := was.sub.buffer;
              && (buffer == [] ==> session == if was.sub.live then was else was.(phase := Ended))
              && (buffer != [] ==>
                    && session.sub.buffer == buffer[1..] && session.sub.live == was.sub.live
                    && session.phase == was.phase
                    && session.log == was.log && session.seen == was.seen
                    && session.wire == (if buffer[0].id > was.lastSent then was.wire + [buffer[0]] else was.wire)
                    && session.lastSent == if buffer[0].id > was.lastSent then buffer[0].id else was.lastSent)
    {
      var buffer := session.sub.buffer;
      if |buffer| > 0 {
        session := session.(sub := Receive(session.sub));
        SendOne(buffer[0]);
      } else if !session.sub.live {
        session := session.(phase := Ended);
      }
    }
  }
}
