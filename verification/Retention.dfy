/**
 Snapshot retention (`internal/runtime/snapshot/retention.go`) and per-container sequence numbers
 (`internal/store/snapshots.go`). A container's snapshots are listed newest first; `number` and `tag`
 are the source's `Seq` and `Label`.
 */
module Retention {
  import opened Options

  datatype Snapshot = Snapshot(id: string, number: nat, tag: string, bytes: nat)

  type Shelf = map<string, seq<Snapshot>>

  // One container: numbers strictly decreasing (they are unique per container), ids distinct.
  ghost predicate Ordered(list: seq<Snapshot>) {
    && (forall i :: 0 <= i < |list| ==> list[i].number > 0)
    && (forall i, j :: 0 <= i < j < |list| ==> list[i].number > list[j].number)
    && (forall i, j :: 0 <= i < j < |list| ==> list[i].id != list[j].id)
  }

  ghost predicate Valid(shelf: Shelf) {
    forall c :: c in shelf ==> Ordered(shelf[c])
  }

  datatype Reason = Recent | Labelled | Referenced

  datatype Kept = Kept(id: string, number: nat, reason: Reason)

  datatype Report = Report(deleted: seq<string>, kept: seq<Kept>, bytesFreed: nat)

  const NOTHING := Report([], [], 0)

  /** One collection: how many to keep, what is referenced, whether it only looks, and which deletions fail. */
  datatype Policy = Policy(keepLast: int, referenced: set<string>, dryRun: bool, broken: set<string>)
  {
    function Keep(): (k: nat)
      ensures k > 0
    {
      if keepLast <= 0 then 10 else keepLast
    }
  }

  /** How far a collection has got on one container, or on the shelf. */
  datatype Progress<T> = Progress(rows: T, report: Report, ok: bool)

  function Without(list: seq<Snapshot>, id: string): seq<Snapshot> {
    if list == [] then []
    else if list[0].id == id then list[1..]
    else [list[0]] + Without(list[1..], id)
  }

  /** `ORDER BY seq DESC` with one more row. */
  function Inserted(list: seq<Snapshot>, s: Snapshot): seq<Snapshot> {
    if list == [] || s.number > list[0].number then [s] + list
    else [list[0]] + Inserted(list[1..], s)
  }

  // ---- specification of a collection ----

  ghost function Visit(a: Progress<seq<Snapshot>>, s: Snapshot, i: nat, p: Policy): Progress<seq<Snapshot>> {
    var r := a.report;
    if !a.ok then a
    else if i < p.Keep() then a.(report := r.(kept := r.kept + [Kept(s.id, s.number, Recent)]))
    else if s.tag != "" then a.(report := r.(kept := r.kept + [Kept(s.id, s.number, Labelled)]))
    else if s.id in p.referenced then a.(report := r.(kept := r.kept + [Kept(s.id, s.number, Referenced)]))
    else
      var r' := r.(deleted := r.deleted + [s.id], bytesFreed := r.bytesFreed + s.bytes);
      if p.dryRun then a.(report := r')
      else if s.id in p.broken then a.(ok := false)
      else Progress(Without(a.rows, s.id), r', true)
  }

  /** The first `n` snapshots of `list` visited. */
  ghost function Sweep(list: seq<Snapshot>, n: nat, p: Policy, r: Report): Progress<seq<Snapshot>>
    requires n <= |list|
  {
    if n == 0 then Progress(list, r, true) else Visit(Sweep(list, n - 1, p, r), list[n - 1], n - 1, p)
  }

  ghost function Rows(shelf: Shelf, c: string): seq<Snapshot> {
    if c in shelf then shelf[c] else []
  }

  ghost function SweepContainer(a: Progress<Shelf>, c: string, p: Policy): Progress<Shelf> {
    if !a.ok then a
    else
      var list := Rows(a.rows, c);
      var b := Sweep(list, |list|, p, a.report);
      Progress(a.rows[c := b.rows], b.report, b.ok)
  }

  /** A collection over the containers of a project, in order; it stops at the first failed deletion. */
  ghost function Collect(shelf: Shelf, cs: seq<string>, p: Policy): Progress<Shelf> {
    if cs == [] then Progress(shelf, NOTHING, true)
    else SweepContainer(Collect(shelf, cs[..|cs| - 1], p), cs[|cs| - 1], p)
  }

  // ---- what is kept ----

  /** Newest `keepLast`, labelled, or forked from. */
  ghost predicate Protected(list: seq<Snapshot>, i: nat, p: Policy)
    requires i < |list|
  {
    i < p.Keep() || list[i].tag != "" || list[i].id in p.referenced
  }

  ghost function Survivors(list: seq<Snapshot>, n: nat, p: Policy): seq<Snapshot>
    requires n <= |list|
  {
    if n == 0 then []
    else Survivors(list, n - 1, p) + if Protected(list, n - 1, p) then [list[n - 1]] else []
  }

  lemma {:induction false} WithoutSkips(a: seq<Snapshot>, s: Snapshot, b: seq<Snapshot>)
    requires forall i :: 0 <= i < |a| ==> a[i].id != s.id
    ensures Without(a + [s] + b, s.id) == a + b
  {
    if a == [] {
      assert [] + [s] + b == [s] + b && ([s] + b)[1..] == b;
    } else {
      WithoutSkips(a[1..], s, b);
      assert (a + [s] + b)[1..] == a[1..] + [s] + b;
      assert [a[0]] + (a[1..] + b) == a + b;
    }
  }

  lemma {:induction false} SurvivorsComeFrom(list: seq<Snapshot>, n: nat, p: Policy)
    requires n <= |list|
    ensures forall s :: s in Survivors(list, n, p) ==> exists i :: 0 <= i < n && list[i] == s && Protected(list, i, p)
    ensures forall i :: 0 <= i < n && Protected(list, i, p) ==> list[i] in Survivors(list, n, p)
  {
    if n > 0 {
      SurvivorsComeFrom(list, n - 1, p);
    }
  }

  lemma RemoveOne(a: seq<Snapshot>, x: Snapshot, b: seq<Snapshot>)
    requires Ordered(a + [x] + b)
    ensures Ordered(a + b)
    ensures forall i :: 0 <= i < |a| ==> a[i].id != x.id
  {
    var all, rest := a + [x] + b, a + b;
    assert all[|a|] == x;
    forall i | 0 <= i < |a| ensures a[i].id != x.id {
      assert all[i] == a[i];
    }
    forall i, j | 0 <= i < j < |rest| ensures rest[i].number > rest[j].number && rest[i].id != rest[j].id {
      var i', j' := if i < |a| then i else i + 1, if j < |a| then j else j + 1;
      assert rest[i] == all[i'] && rest[j] == all[j'];
    }
    forall i | 0 <= i < |rest| ensures rest[i].number > 0 {
      assert rest[i] == all[if i < |a| then i else i + 1];
    }
  }

  // What is left after `m` visits is ordered, and starts with the newest.
  lemma {:induction false} SurvivorsOrdered(list: seq<Snapshot>, m: nat, p: Policy)
    requires Ordered(list) && m <= |list|
    ensures Ordered(Survivors(list, m, p) + list[m..])
    ensures |list| > 0 ==> Survivors(list, m, p) + list[m..] != [] && (Survivors(list, m, p) + list[m..])[0] == list[0]
  {
    hide Ordered;
    if m == 0 {
      assert [] + list[0..] == list;
    } else {
      SurvivorsOrdered(list, m - 1, p);
      var front := Survivors(list, m - 1, p);
      assert front + list[m - 1..] == front + [list[m - 1]] + list[m..];
      if !Protected(list, m - 1, p) {
        RemoveOne(front, list[m - 1], list[m..]);
        assert front + [] == front;
        SurvivorsKeepFirst(list, m - 1, p);
      }
    }
  }

  lemma {:induction false} SurvivorsKeepFirst(list: seq<Snapshot>, m: nat, p: Policy)
    requires 0 < m <= |list|
    ensures Survivors(list, m, p) != [] && Survivors(list, m, p)[0] == list[0]
  {
    if m > 1 {
      SurvivorsKeepFirst(list, m - 1, p);
    } else {
      assert Survivors(list, 0, p) == [];
    }
  }

  // One visit, when deletions are for real.
  lemma SweepOnce(list: seq<Snapshot>, n: nat, p: Policy, r: Report)
    requires 0 < n <= |list| && !p.dryRun
    ensures var a, b := Sweep(list, n - 1, p, r), Sweep(list, n, p, r);
            && (b.ok ==> a.ok)
            && (!b.ok ==> b.rows == a.rows)
            && (b.ok ==> b.rows == if Protected(list, n - 1, p) then a.rows else Without(a.rows, list[n - 1].id))
  {
    hide Without;
  }

  lemma SurvivorsOnce(list: seq<Snapshot>, n: nat, p: Policy)
    requires 0 < n <= |list|
    ensures Survivors(list, n, p)
         == if Protected(list, n - 1, p) then Survivors(list, n - 1, p) + [list[n - 1]] else Survivors(list, n - 1, p)
  {
    assert Survivors(list, n - 1, p) + [] == Survivors(list, n - 1, p);
  }

  /** A sweep leaves the protected snapshots, and whatever it had not come to when a deletion failed. */
  lemma {:induction false} SweepLeaves(list: seq<Snapshot>, n: nat, p: Policy, r: Report) returns (m: nat)
    requires Ordered(list) && n <= |list| && !p.dryRun
    ensures m <= n && Sweep(list, n, p, r).rows == Survivors(list, m, p) + list[m..]
    ensures Sweep(list, n, p, r).ok ==> m == n
  {
    if n == 0 { return 0; }
    hide Ordered, Sweep, Survivors, Without, Protected;
    m := SweepLeaves(list, n - 1, p, r);
    SweepOnce(list, n, p, r);
    if !Sweep(list, n, p, r).ok { return; }
    m := n;
    SurvivorsOnce(list, n, p);
    SurvivorsOrdered(list, n - 1, p);
    DropNext(Survivors(list, n - 1, p), list, n);
  }

  lemma DropNext(front: seq<Snapshot>, list: seq<Snapshot>, n: nat)
    requires 0 < n <= |list| && Ordered(front + list[n - 1..])
    ensures front + list[n - 1..] == front + [list[n - 1]] + list[n..]
    ensures Without(front + list[n - 1..], list[n - 1].id) == front + list[n..]
  {
    hide Ordered;
    assert front + list[n - 1..] == front + [list[n - 1]] + list[n..];
    RemoveOne(front, list[n - 1], list[n..]);
    WithoutSkips(front, list[n - 1], list[n..]);
  }

  lemma {:induction false} DrySweepLeavesAll(list: seq<Snapshot>, n: nat, p: Policy, r: Report)
    requires n <= |list| && p.dryRun
    ensures Sweep(list, n, p, r).rows == list && Sweep(list, n, p, r).ok
  {
    if n > 0 {
      DrySweepLeavesAll(list, n - 1, p, r);
    }
  }

  /**
   What a sweep does to one container, failed deletions included: it stays ordered, the newest stays,
   nothing protected goes, nothing comes.
   */
  lemma SweepIsSafe(list: seq<Snapshot>, p: Policy, r: Report)
    requires Ordered(list)
    ensures var rows := Sweep(list, |list|, p, r).rows;
            && Ordered(rows)
            && (|list| > 0 ==> rows != [] && rows[0] == list[0])
            && (forall s :: s in rows ==> s in list)
            && (forall i :: 0 <= i < |list| && Protected(list, i, p) ==> list[i] in rows)
  {
    hide Sweep;
    if p.dryRun {
      DrySweepLeavesAll(list, |list|, p, r);
    } else {
      var m := SweepLeaves(list, |list|, p, r);
      SurvivorsOrdered(list, m, p);
      SurvivorsComeFrom(list, m, p);
      assert forall i :: m <= i < |list| ==> list[i] == list[m..][i - m];
    }
  }

  // ---- dry runs and second runs, one container ----

  lemma {:induction false} DrySweepSameReport(list: seq<Snapshot>, n: nat, p: Policy, r: Report)
    requires n <= |list| && !p.dryRun && Sweep(list, n, p, r).ok
    ensures Sweep(list, n, p.(dryRun := true), r).report == Sweep(list, n, p, r).report
    ensures Sweep(list, n, p.(dryRun := true), r).ok
  {
    if n > 0 {
      DrySweepSameReport(list, n - 1, p, r);
    }
  }

  // Survivor `i` stood at `i` or further back.
  lemma {:induction false} SurvivorFrom(list: seq<Snapshot>, n: nat, p: Policy, i: nat) returns (j: nat)
    requires n <= |list| && i < |Survivors(list, n, p)|
    ensures |Survivors(list, n, p)| <= n
    ensures i <= j < n && list[j] == Survivors(list, n, p)[i] && Protected(list, j, p)
  {
    var front := Survivors(list, n - 1, p);
    if i < |front| {
      j := SurvivorFrom(list, n - 1, p, i);
    } else {
      j := n - 1;
      if front != [] {
        var _ := SurvivorFrom(list, n - 1, p, 0);
      }
    }
    SurvivorsShrink(list, n, p);
  }

  lemma {:induction false} SurvivorsShrink(list: seq<Snapshot>, n: nat, p: Policy)
    requires n <= |list|
    ensures |Survivors(list, n, p)| <= n
  {
    if n > 0 {
      SurvivorsShrink(list, n - 1, p);
    }
  }

  lemma SurvivorsProtected(list: seq<Snapshot>, p: Policy)
    ensures forall i :: 0 <= i < |Survivors(list, |list|, p)| ==> Protected(Survivors(list, |list|, p), i, p)
  {
    var left := Survivors(list, |list|, p);
    forall i | 0 <= i < |left| ensures Protected(left, i, p) {
      var j := SurvivorFrom(list, |list|, p, i);
    }
  }

  lemma {:induction false} SweepOfProtected(list: seq<Snapshot>, n: nat, p: Policy, r: Report)
    requires n <= |list| && forall i :: 0 <= i < |list| ==> Protected(list, i, p)
    ensures var a := Sweep(list, n, p, r);
            a.ok && a.rows == list && a.report.deleted == r.deleted && a.report.bytesFreed == r.bytesFreed
  {
    if n > 0 {
      SweepOfProtected(list, n - 1, p, r);
      assert Protected(list, n - 1, p);
    }
  }

  // ---- the whole shelf ----

  ghost predicate Distinct(cs: seq<string>) {
    forall i, j :: 0 <= i < j < |cs| ==> cs[i] != cs[j]
  }

  /** What a collection may make of one container's list, whatever fails. */
  ghost predicate Spared(list: seq<Snapshot>, rows: seq<Snapshot>, p: Policy) {
    && Ordered(rows)
    && (|list| > 0 ==> rows != [] && rows[0] == list[0])
    && (forall s :: s in rows ==> s in list)
    && (forall i :: 0 <= i < |list| && Protected(list, i, p) ==> list[i] in rows)
  }

  lemma SparedItself(list: seq<Snapshot>, p: Policy)
    requires Ordered(list)
    ensures Spared(list, list, p)
  {
  }

  /**
   No collection, dry or not, complete or stopped by a failed deletion, loses a snapshot that is
   labelled, referenced or among the newest `keepLast`; the newest of every container stays newest.
   */
  lemma {:induction false} CollectSpares(shelf: Shelf, cs: seq<string>, p: Policy, c: string)
    requires Valid(shelf) && Distinct(cs)
    ensures Spared(Rows(shelf, c), Rows(Collect(shelf, cs, p).rows, c), p)
    ensures c !in cs ==> Rows(Collect(shelf, cs, p).rows, c) == Rows(shelf, c)
  {
    hide Spared, Sweep, Ordered;
    assert Ordered(Rows(shelf, c)) by { RowsOrdered(shelf, c); }
    if cs == [] {
      SparedItself(Rows(shelf, c), p);
    } else {
      var front, last := cs[..|cs| - 1], cs[|cs| - 1];
      CollectSpares(shelf, front, p, c);
      if c == last {
        assert c !in front;
        SweepSpares(Rows(shelf, c), p, Collect(shelf, front, p).report);
      }
    }
  }

  lemma RowsOrdered(shelf: Shelf, c: string)
    requires Valid(shelf)
    ensures Ordered(Rows(shelf, c))
  {
  }

  lemma SweepSpares(list: seq<Snapshot>, p: Policy, r: Report)
    requires Ordered(list)
    ensures Spared(list, Sweep(list, |list|, p, r).rows, p)
  {
    hide Sweep;
    SweepIsSafe(list, p, r);
  }

  /** A collection that meets no failed deletion keeps, of its containers, exactly what is protected. */
  lemma {:induction false} CollectKeepsExactly(shelf: Shelf, cs: seq<string>, p: Policy, c: string)
    requires Valid(shelf) && Distinct(cs) && !p.dryRun && Collect(shelf, cs, p).ok
    ensures Rows(Collect(shelf, cs, p).rows, c)
         == if c in cs then Survivors(Rows(shelf, c), |Rows(shelf, c)|, p) else Rows(shelf, c)
  {
    hide Sweep, Ordered, Survivors;
    if cs != [] {
      var front, last := cs[..|cs| - 1], cs[|cs| - 1];
      CollectKeepsExactly(shelf, front, p, c);
      if c == last {
        assert c !in front;
        RowsOrdered(shelf, c);
        var list := Rows(shelf, c);
        var m := SweepLeaves(list, |list|, p, Collect(shelf, front, p).report);
        assert Survivors(list, m, p) + list[m..] == Survivors(list, m, p);
      }
    }
  }

  /**
   Snapshot by snapshot, in the policy's own terms: what is among the newest 10, or `keepLast` where that is
   positive, what is labelled and what is referenced stays whatever fails; of the covered rest nothing stays
   unless the collection only looks or is stopped; and nothing comes.
   */
  lemma StaysIff(shelf: Shelf, cs: seq<string>, p: Policy, c: string, i: nat)
    requires Valid(shelf) && Distinct(cs) && i < |Rows(shelf, c)|
    ensures var x, after := Rows(shelf, c)[i], Rows(Collect(shelf, cs, p).rows, c);
            && (i < (if p.keepLast <= 0 then 10 else p.keepLast) || x.tag != "" || x.id in p.referenced || c !in cs ==>
                  x in after)
            && (Collect(shelf, cs, p).ok && !p.dryRun && c in cs ==>
                  (x in after <==>
                   i < (if p.keepLast <= 0 then 10 else p.keepLast) || x.tag != "" || x.id in p.referenced))
            && forall y :: y in after ==> y in Rows(shelf, c)
  {
    hide Collect, Sweep;
    var list := Rows(shelf, c);
    CollectSpares(shelf, cs, p, c);
    RowsOrdered(shelf, c);
    if Collect(shelf, cs, p).ok && !p.dryRun && c in cs {
      CollectKeepsExactly(shelf, cs, p, c);
      SurvivorsComeFrom(list, |list|, p);
    }
  }

  /** What a sweep reports of row `i`. */
  ghost predicate Says(r: Report, x: Snapshot, i: nat, p: Policy) {
    if i < (if p.keepLast <= 0 then 10 else p.keepLast) then Kept(x.id, x.number, Recent) in r.kept
    else if x.tag != "" then Kept(x.id, x.number, Labelled) in r.kept
    else if x.id in p.referenced then Kept(x.id, x.number, Referenced) in r.kept
    else x.id in r.deleted
  }

  ghost predicate Longer(r: Report, r': Report) {
    r.deleted <= r'.deleted && r.kept <= r'.kept && r.bytesFreed <= r'.bytesFreed
  }

  // One more line in the report for one more row.
  lemma VisitSays(a: Progress<seq<Snapshot>>, x: Snapshot, i: nat, p: Policy)
    ensures var b := Visit(a, x, i, p);
            && Longer(a.report, b.report) && (b.ok ==> a.ok && Says(b.report, x, i, p))
            && (b.ok ==> |b.report.deleted| + |b.report.kept| == |a.report.deleted| + |a.report.kept| + 1)
            && (!b.ok ==> b.report == a.report)
  {
  }

  lemma SaysLonger(r: Report, r': Report, x: Snapshot, i: nat, p: Policy)
    requires Longer(r, r') && Says(r, x, i, p)
    ensures Says(r', x, i, p)
  {
  }

  lemma {:induction false} SweepSays(list: seq<Snapshot>, n: nat, p: Policy, r: Report)
    requires n <= |list|
    ensures var a := Sweep(list, n, p, r);
            && Longer(r, a.report)
            && (a.ok ==> |a.report.deleted| + |a.report.kept| == |r.deleted| + |r.kept| + n)
            && (a.ok ==> forall i :: 0 <= i < n ==> Says(a.report, list[i], i, p))
  {
    hide Visit, Says;
    if n > 0 {
      SweepSays(list, n - 1, p, r);
      var a, b := Sweep(list, n - 1, p, r), Sweep(list, n, p, r);
      VisitSays(a, list[n - 1], n - 1, p);
      if b.ok {
        forall i | 0 <= i < n - 1 ensures Says(b.report, list[i], i, p) {
          SaysLonger(a.report, b.report, list[i], i, p);
        }
      }
    }
  }

  ghost function CountOf(shelf: Shelf, cs: seq<string>): nat {
    if cs == [] then 0 else CountOf(shelf, cs[..|cs| - 1]) + |Rows(shelf, cs[|cs| - 1])|
  }

  /**
   The report is complete and says why: a collection that is not stopped has one line for every snapshot of
   its containers, and it gives each as deleted or as kept for the first of the three reasons that applies.
   */
  lemma {:induction false} ReportSays(shelf: Shelf, cs: seq<string>, p: Policy)
    requires Valid(shelf) && Distinct(cs) && Collect(shelf, cs, p).ok
    ensures var r := Collect(shelf, cs, p).report;
            && |r.deleted| + |r.kept| == CountOf(shelf, cs)
            && forall c, i: nat | c in cs && i < |Rows(shelf, c)| :: Says(r, Rows(shelf, c)[i], i, p)
  {
    hide Sweep, Says, Rows;
    if cs != [] {
      var front, last := cs[..|cs| - 1], cs[|cs| - 1];
      ReportSays(shelf, front, p);
      CollectSpares(shelf, front, p, last);
      var a, b := Collect(shelf, front, p), Collect(shelf, cs, p);
      var list := Rows(shelf, last);
      SweepSays(list, |list|, p, a.report);
      forall c, i: nat | c in cs && i < |Rows(shelf, c)| ensures Says(b.report, Rows(shelf, c)[i], i, p) {
        if c != last {
          assert c in front;
          SaysLonger(a.report, b.report, Rows(shelf, c)[i], i, p);
        }
      }
    }
  }

  // ---- bytes ----

  ghost function Weight(list: seq<Snapshot>): nat {
    if list == [] then 0 else list[0].bytes + Weight(list[1..])
  }

  ghost function WeightOf(shelf: Shelf, cs: seq<string>): nat {
    if cs == [] then 0 else WeightOf(shelf, cs[..|cs| - 1]) + Weight(Rows(shelf, cs[|cs| - 1]))
  }

  lemma {:induction false} WeightSplits(a: seq<Snapshot>, x: Snapshot, b: seq<Snapshot>)
    ensures Weight(a + [x] + b) == Weight(a + b) + x.bytes
  {
    if a == [] {
      assert [] + [x] + b == [x] + b && ([x] + b)[1..] == b && [] + b == b;
    } else {
      assert (a + [x] + b)[1..] == a[1..] + [x] + b && (a + b)[1..] == a[1..] + b;
      WeightSplits(a[1..], x, b);
    }
  }

  lemma {:induction false} SweepConserves(list: seq<Snapshot>, n: nat, p: Policy, r: Report)
    requires Ordered(list) && n <= |list| && !p.dryRun
    ensures var a := Sweep(list, n, p, r); Weight(a.rows) + a.report.bytesFreed == Weight(list) + r.bytesFreed
  {
    hide Ordered, Without, Weight, Protected;
    if n > 0 {
      SweepConserves(list, n - 1, p, r);
      var a := Sweep(list, n - 1, p, r);
      if a.ok {
        var m := SweepLeaves(list, n - 1, p, r);
        var front := Survivors(list, n - 1, p);
        SurvivorsOrdered(list, n - 1, p);
        DropNext(front, list, n);
        WeightSplits(front, list[n - 1], list[n..]);
      }
    }
  }

  /** What is reported as freed is what has gone: stopped or not, bytes freed and bytes left add up. */
  lemma {:induction false} BytesAddUp(shelf: Shelf, cs: seq<string>, p: Policy)
    requires Valid(shelf) && Distinct(cs) && !p.dryRun
    ensures var a := Collect(shelf, cs, p); WeightOf(a.rows, cs) + a.report.bytesFreed == WeightOf(shelf, cs)
  {
    hide Sweep, Weight, Ordered;
    if cs != [] {
      var front, last := cs[..|cs| - 1], cs[|cs| - 1];
      var a, b := Collect(shelf, front, p), Collect(shelf, cs, p);
      BytesAddUp(shelf, front, p);
      CollectSpares(shelf, front, p, last);
      var list := Rows(shelf, last);
      RowsOrdered(shelf, last);
      SweepConserves(list, |list|, p, a.report);
      forall c | c in front ensures Rows(b.rows, c) == Rows(a.rows, c) {
        assert c != last;
      }
      WeightOfSame(a.rows, b.rows, front);
    }
  }

  lemma {:induction false} WeightOfSame(shelf: Shelf, shelf': Shelf, cs: seq<string>)
    requires forall c :: c in cs ==> Rows(shelf, c) == Rows(shelf', c)
    ensures WeightOf(shelf, cs) == WeightOf(shelf', cs)
  {
    hide Rows, Weight;
    if cs != [] {
      WeightOfSame(shelf, shelf', cs[..|cs| - 1]);
    }
  }

  /** A dry run deletes nothing and reports what the real run would: the same ids, reasons and bytes. */
  lemma {:induction false} DryRunForetells(shelf: Shelf, cs: seq<string>, p: Policy)
    requires Valid(shelf) && Distinct(cs) && !p.dryRun && Collect(shelf, cs, p).ok
    ensures var dry := Collect(shelf, cs, p.(dryRun := true));
            && dry.ok && dry.report == Collect(shelf, cs, p).report
            && forall c :: Rows(dry.rows, c) == Rows(shelf, c)
  {
    hide Sweep, Ordered, Survivors;
    if cs != [] {
      var front, last := cs[..|cs| - 1], cs[|cs| - 1];
      DryRunForetells(shelf, front, p);
      CollectKeepsExactly(shelf, front, p, last);
      assert last !in front;
      var list, r := Rows(shelf, last), Collect(shelf, front, p).report;
      DrySweepSameReport(list, |list|, p, r);
      DrySweepLeavesAll(list, |list|, p.(dryRun := true), r);
    }
  }

  /** A second run with the same policy deletes nothing. */
  lemma SecondRunDeletesNothing(shelf: Shelf, cs: seq<string>, p: Policy)
    requires Valid(shelf) && Distinct(cs) && !p.dryRun && Collect(shelf, cs, p).ok
    ensures var again := Collect(Collect(shelf, cs, p).rows, cs, p);
            && again.ok && again.report.deleted == [] && again.report.bytesFreed == 0
            && forall c :: Rows(again.rows, c) == Rows(Collect(shelf, cs, p).rows, c)
  {
    var after := Collect(shelf, cs, p).rows;
    forall c | c in cs ensures AllProtected(Rows(after, c), p) {
      CollectKeepsExactly(shelf, cs, p, c);
      SurvivorsProtected(Rows(shelf, c), p);
    }
    CollectOfProtected(after, cs, p);
  }

  ghost predicate AllProtected(list: seq<Snapshot>, p: Policy) {
    forall i :: 0 <= i < |list| ==> Protected(list, i, p)
  }

  lemma {:induction false} CollectOfProtected(shelf: Shelf, cs: seq<string>, p: Policy)
    requires forall c :: c in cs ==> AllProtected(Rows(shelf, c), p)
    ensures var a := Collect(shelf, cs, p);
            && a.ok && a.report.deleted == [] && a.report.bytesFreed == 0
            && forall c :: Rows(a.rows, c) == Rows(shelf, c)
  {
    if cs != [] {
      var front, last := cs[..|cs| - 1], cs[|cs| - 1];
      CollectOfProtected(shelf, front, p);
      var list := Rows(shelf, last);
      assert AllProtected(list, p);
      SweepOfProtected(list, |list|, p, Collect(shelf, front, p).report);
    }
  }

  // ---- numbers ----

  /** `max(seq) + 1`; one for a container without snapshots. */
  function NextNumber(list: seq<Snapshot>): nat {
    if list == [] then 1 else list[0].number + 1
  }

  /**
   `used` records every number ever given to a snapshot of a container. `taking` holds the takes
   under way: each has read its number and not yet written its row.
   */
  datatype State = State(shelf: Shelf, used: map<string, set<nat>>, taking: map<nat, (string, nat)>)

  datatype Op =
    | StartTake(proc: nat, container: string)
    | FinishTake(proc: nat, id: string, tag: string, bytes: nat)
    | CollectOp(containers: seq<string>, policy: Policy)

  ghost function Used(s: State, c: string): set<nat> {
    if c in s.used then s.used[c] else {}
  }

  /** The row is refused if the id, or the number within its container, is there. */
  ghost predicate Accepts(s: State, c: string, n: nat, id: string) {
    forall x :: x in Rows(s.shelf, c) ==> x.number != n && x.id != id
  }

  ghost function Step(s: State, op: Op): State {
    match op
    case StartTake(p, c) => s.(taking := s.taking[p := (c, NextNumber(Rows(s.shelf, c)))])
    case FinishTake(p, id, tag, bytes) =>
      if p !in s.taking then s
      else
        var (c, n) := s.taking[p];
        var s' := s.(taking := s.taking - {p});
        if !Accepts(s, c, n, id) then s'
        else s'.(shelf := s.shelf[c := Inserted(Rows(s.shelf, c), Snapshot(id, n, tag, bytes))],
                 used := s.used[c := Used(s, c) + {n}])
    case CollectOp(cs, policy) =>
      if Distinct(cs) then s.(shelf := Collect(s.shelf, cs, policy).rows) else s
  }

  ghost function Run(s: State, ops: seq<Op>): State
    decreases |ops|
  {
    if ops == [] then s else Run(Step(s, ops[0]), ops[1..])
  }

  const START := State(map[], map[], map[])

  /** The newest snapshot always carries the largest number ever used, and all below it were used too. */
  ghost predicate Ok(s: State) {
    && Valid(s.shelf)
    && (forall c, n: nat :: n in Used(s, c) <==> 0 < n < NextNumber(Rows(s.shelf, c)))
    && (forall p :: p in s.taking ==> 0 < s.taking[p].1 <= NextNumber(Rows(s.shelf, s.taking[p].0)))
  }

  lemma ConsOrdered(x: Snapshot, rest: seq<Snapshot>)
    requires Ordered(rest) && x.number > 0
    requires forall y :: y in rest ==> y.number < x.number && y.id != x.id
    ensures Ordered([x] + rest)
  {
  }

  lemma TailOrdered(list: seq<Snapshot>)
    requires Ordered(list) && list != []
    ensures Ordered(list[1..])
    ensures forall y :: y in list[1..] ==> y.number < list[0].number && y.id != list[0].id
    ensures forall y :: y in list <==> y == list[0] || y in list[1..]
  {
    assert list == [list[0]] + list[1..];
  }

  lemma {:induction false} InsertedOrdered(list: seq<Snapshot>, s: Snapshot)
    requires Ordered(list) && s.number > 0
    requires forall x :: x in list ==> x.number != s.number && x.id != s.id
    ensures Ordered(Inserted(list, s))
    ensures forall x :: x in Inserted(list, s) <==> x in list || x == s
    ensures Inserted(list, s) != []
         && Inserted(list, s)[0] == if list == [] || s.number > list[0].number then s else list[0]
  {
    hide Ordered;
    if list == [] {
      ConsOrdered(s, list);
    } else {
      TailOrdered(list);
      if s.number > list[0].number {
        ConsOrdered(s, list);
      } else {
        InsertedOrdered(list[1..], s);
        ConsOrdered(list[0], Inserted(list[1..], s));
      }
    }
  }

  lemma CollectKeepsOk(s: State, cs: seq<string>, policy: Policy)
    requires Ok(s) && Distinct(cs)
    ensures Ok(Step(s, CollectOp(cs, policy)))
    ensures forall c :: NextNumber(Rows(Step(s, CollectOp(cs, policy)).shelf, c)) == NextNumber(Rows(s.shelf, c))
  {
    hide Collect, Ordered;
    var s' := Step(s, CollectOp(cs, policy));
    forall c ensures NextNumber(Rows(s'.shelf, c)) == NextNumber(Rows(s.shelf, c)) && Ordered(Rows(s'.shelf, c)) {
      CollectSpares(s.shelf, cs, policy, c);
      RowsOrdered(s.shelf, c);
      var rows := Rows(s'.shelf, c);
      assert rows != [] ==> rows[0] in rows;
    }
    forall c | c in s'.shelf ensures Ordered(s'.shelf[c]) {
      assert s'.shelf[c] == Rows(s'.shelf, c);
    }
    assert forall c :: Used(s', c) == Used(s, c);
  }

  lemma FinishKeepsOk(s: State, p: nat, id: string, tag: string, bytes: nat)
    requires Ok(s)
    ensures Ok(Step(s, FinishTake(p, id, tag, bytes)))
  {
    hide Ordered, Inserted, Accepts;
    if p in s.taking {
      var (c, n) := s.taking[p];
      var s' := Step(s, FinishTake(p, id, tag, bytes));
      if Accepts(s, c, n, id) {
        var x := Snapshot(id, n, tag, bytes);
        InsertKeepsOk(s, c, n, x);
        var written := s.(shelf := s.shelf[c := Inserted(Rows(s.shelf, c), x)], used := s.used[c := Used(s, c) + {n}]);
        assert s' == written.(taking := s.taking - {p});
        assert forall d :: Used(s', d) == Used(written, d);
      } else {
        assert forall d :: Used(s', d) == Used(s, d);
      }
    }
  }

  lemma InsertKeepsOk(s: State, c: string, n: nat, x: Snapshot)
    requires Ok(s) && x.number == n && Accepts(s, c, n, x.id) && 0 < n <= NextNumber(Rows(s.shelf, c))
    ensures Ok(s.(shelf := s.shelf[c := Inserted(Rows(s.shelf, c), x)], used := s.used[c := Used(s, c) + {n}]))
  {
    hide Ordered, Inserted;
    RowsOrdered(s.shelf, c);
    InsertedOrdered(Rows(s.shelf, c), x);
    var s' := s.(shelf := s.shelf[c := Inserted(Rows(s.shelf, c), x)], used := s.used[c := Used(s, c) + {n}]);
    assert Used(s', c) == Used(s, c) + {n};
    assert forall d :: d != c ==> Used(s', d) == Used(s, d) && Rows(s'.shelf, d) == Rows(s.shelf, d);
  }

  lemma StepKeepsOk(s: State, op: Op)
    requires Ok(s)
    ensures Ok(Step(s, op))
  {
    hide Ordered, Collect, Valid;
    match op {
      case StartTake(p, c) => assert forall d :: Used(Step(s, op), d) == Used(s, d);
      case FinishTake(p, id, tag, bytes) => FinishKeepsOk(s, p, id, tag, bytes);
      case CollectOp(cs, policy) => if Distinct(cs) { CollectKeepsOk(s, cs, policy); }
    }
  }

  lemma {:induction false} RunKeepsOk(s: State, ops: seq<Op>)
    requires Ok(s)
    ensures Ok(Run(s, ops))
    decreases |ops|
  {
    hide Ok, Step;
    if ops != [] {
      StepKeepsOk(s, ops[0]);
      RunKeepsOk(Step(s, ops[0]), ops[1..]);
    }
  }

  /**
   Numbers are never reused by takes that run alone: after any run of takes and collections, a take
   that reads its number and writes its row with no other take of the container in between is
   given a number no snapshot of the container ever had.
   */
  lemma TakeIsFresh(ops: seq<Op>, p: nat, c: string, id: string, tag: string, bytes: nat)
    ensures var s := Run(START, ops);
            var s' := Step(Step(s, StartTake(p, c)), FinishTake(p, id, tag, bytes));
            (exists x :: x in Rows(s.shelf, c) && x.id == id)
            || exists n :: n !in Used(s, c) && Used(s', c) == Used(s, c) + {n}
  {
    hide Run, Ordered;
    RunKeepsOk(START, ops);
    var s := Run(START, ops);
    var n := NextNumber(Rows(s.shelf, c));
    RowsOrdered(s.shelf, c);
    NewestHasLargest(Rows(s.shelf, c));
    if forall x :: x in Rows(s.shelf, c) ==> x.id != id {
      var s1 := Step(s, StartTake(p, c));
      assert Rows(s1.shelf, c) == Rows(s.shelf, c) && Used(s1, c) == Used(s, c);
      assert Accepts(s1, c, n, id);
      assert n !in Used(s, c);
    }
  }

  lemma NewestHasLargest(list: seq<Snapshot>)
    requires Ordered(list)
    ensures forall x :: x in list ==> x.number < NextNumber(list)
  {
  }

  /**
   In general a take whose row is accepted gets a fresh number if and only if its number is still the
   next one when the row is written. The database refuses a stale number only while the snapshot
   that has it still exists.
   */
  lemma AcceptedIsFreshIff(ops: seq<Op>, p: nat, id: string)
    requires var s := Run(START, ops);
             p in s.taking && Accepts(s, s.taking[p].0, s.taking[p].1, id)
    ensures var s := Run(START, ops);
            var (c, n) := s.taking[p];
            n !in Used(s, c) <==> n == NextNumber(Rows(s.shelf, c))
  {
    hide Run, Ordered;
    RunKeepsOk(START, ops);
  }

  // ---- dense numbers ----

  /** The numbers are the count, one less, and so on to one. */
  ghost predicate Dense(list: seq<Snapshot>) {
    forall i :: 0 <= i < |list| ==> list[i].number == |list| - i
  }

  // Numbers strictly decrease to at least one, so the largest tells whether any is missing.
  lemma {:induction false} NumbersAtLeast(list: seq<Snapshot>)
    requires Ordered(list)
    ensures forall i :: 0 <= i < |list| ==> list[i].number >= |list| - i
  {
    if list != [] {
      TailOrdered(list);
      var rest := list[1..];
      NumbersAtLeast(rest);
      forall i | 0 < i < |list| ensures list[i].number >= |list| - i {
        assert list[i] == rest[i - 1];
      }
      assert rest != [] ==> rest[0] in rest;
    }
  }

  lemma {:induction false} NumbersAtMost(list: seq<Snapshot>, i: nat)
    requires Ordered(list) && i < |list|
    ensures list[i].number <= list[0].number - i
  {
    if i > 0 {
      NumbersAtMost(list, i - 1);
    }
  }

  lemma DenseIffNewest(list: seq<Snapshot>)
    requires Ordered(list)
    ensures Dense(list) <==> NextNumber(list) == |list| + 1
  {
    NumbersAtLeast(list);
    forall i: nat | i < |list| ensures list[i].number <= list[0].number - i {
      NumbersAtMost(list, i);
    }
  }

  /** A collection gets through this container: it only looks, or no deletion it attempts would fail. */
  ghost predicate Clean(list: seq<Snapshot>, p: Policy) {
    p.dryRun || forall i :: 0 <= i < |list| && !Protected(list, i, p) ==> list[i].id !in p.broken
  }

  ghost predicate FirstUnprotected(list: seq<Snapshot>, k: int, p: Policy) {
    0 <= k < |list| && !Protected(list, k, p) && forall j :: 0 <= j < k ==> Protected(list, j, p)
  }

  /** A collection that comes to this container deletes nothing: its first unprotected snapshot, if any, stops it. */
  ghost predicate DeletesNothing(list: seq<Snapshot>, p: Policy) {
    p.dryRun || forall k :: FirstUnprotected(list, k, p) ==> list[k].id in p.broken
  }

  lemma {:induction false} WithoutShortens(list: seq<Snapshot>, id: string)
    ensures |Without(list, id)| <= |list|
    ensures (exists i :: 0 <= i < |list| && list[i].id == id) ==> |Without(list, id)| < |list|
  {
    if list != [] && list[0].id != id {
      WithoutShortens(list[1..], id);
      assert forall i :: 0 < i < |list| ==> list[i] == list[1..][i - 1];
    }
  }

  // A real sweep is still at the whole list, stopped at its first deletion, or has made the list shorter.
  lemma {:induction false} SweepShortens(list: seq<Snapshot>, n: nat, p: Policy, r: Report)
    requires n <= |list| && !p.dryRun
    ensures (forall i :: 0 <= i < n ==> Protected(list, i, p)) ==>
              Sweep(list, n, p, r).ok && Sweep(list, n, p, r).rows == list
    ensures forall k :: k < n && FirstUnprotected(list, k, p) ==>
              if list[k].id in p.broken then !Sweep(list, n, p, r).ok && Sweep(list, n, p, r).rows == list
              else |Sweep(list, n, p, r).rows| < |list|
  {
    if n > 0 {
      SweepShortens(list, n - 1, p, r);
      WithoutShortens(Sweep(list, n - 1, p, r).rows, list[n - 1].id);
      if forall i :: 0 <= i < n ==> Protected(list, i, p) {
        assert Protected(list, n - 1, p);
      }
    }
  }

  lemma {:induction false} SomeFirst(list: seq<Snapshot>, i: nat, p: Policy) returns (k: nat)
    requires i < |list| && !Protected(list, i, p)
    ensures k <= i && FirstUnprotected(list, k, p)
  {
    if j :| 0 <= j < i && !Protected(list, j, p) {
      k := SomeFirst(list, j, p);
    } else {
      k := i;
    }
  }

  /**
   A collection over one container, dry, complete or stopped: its numbers are dense afterwards if and
   only if they were and nothing was deleted. Then the list is as before.
   */
  lemma SweepDenseIff(list: seq<Snapshot>, p: Policy, r: Report)
    requires Ordered(list)
    ensures Dense(Sweep(list, |list|, p, r).rows) <==> Dense(list) && DeletesNothing(list, p)
    ensures DeletesNothing(list, p) ==> Sweep(list, |list|, p, r).rows == list
  {
    hide Sweep, Protected, Dense;
    var rows := Sweep(list, |list|, p, r).rows;
    SweepIsSafe(list, p, r);
    DenseIffNewest(list);
    DenseIffNewest(rows);
    NumbersAtLeast(list);
    if p.dryRun {
      DrySweepLeavesAll(list, |list|, p, r);
    } else {
      SweepShortens(list, |list|, p, r);
      if i: nat :| i < |list| && !Protected(list, i, p) {
        var k := SomeFirst(list, i, p);
        assert FirstUnprotected(list, k, p);
        OneFirst(list, k, p);
      } else {
        assert rows == list;
      }
    }
  }

  lemma OneFirst(list: seq<Snapshot>, k: nat, p: Policy)
    requires FirstUnprotected(list, k, p)
    ensures forall j :: FirstUnprotected(list, j, p) ==> j == k
  {
  }

  lemma {:induction false} SweepOkIff(list: seq<Snapshot>, n: nat, p: Policy, r: Report)
    requires n <= |list|
    ensures Sweep(list, n, p, r).ok <==>
              p.dryRun || forall i :: 0 <= i < n && !Protected(list, i, p) ==> list[i].id !in p.broken
  {
    if n > 0 {
      SweepOkIff(list, n - 1, p, r);
    }
  }

  /** A collection meets no failed deletion exactly when every container it covers is clean. */
  lemma {:induction false} CollectOkIff(shelf: Shelf, cs: seq<string>, p: Policy)
    requires Valid(shelf) && Distinct(cs)
    ensures Collect(shelf, cs, p).ok <==> forall i :: 0 <= i < |cs| ==> Clean(Rows(shelf, cs[i]), p)
  {
    hide Sweep, Ordered, Clean;
    if cs != [] {
      var front, last := cs[..|cs| - 1], cs[|cs| - 1];
      CollectOkIff(shelf, front, p);
      CollectSpares(shelf, front, p, last);
      assert last !in front;
      CleanIs(Rows(shelf, last), p, Collect(shelf, front, p).report);
      assert forall i :: 0 <= i < |front| ==> front[i] == cs[i];
    }
  }

  lemma CleanIs(list: seq<Snapshot>, p: Policy, r: Report)
    ensures Sweep(list, |list|, p, r).ok <==> Clean(list, p)
  {
    hide Sweep;
    SweepOkIff(list, |list|, p, r);
  }

  /** The collection comes to container `c`, with every container before it clean, and deletes some of its snapshots. */
  ghost predicate Thins(shelf: Shelf, cs: seq<string>, p: Policy, c: string) {
    exists k :: 0 <= k < |cs| && cs[k] == c && !DeletesNothing(Rows(shelf, c), p)
                && forall j :: 0 <= j < k ==> Clean(Rows(shelf, cs[j]), p)
  }

  /** A whole collection leaves a container's numbers dense if and only if they were and it does not thin them. */
  lemma {:induction false} CollectDenseIff(shelf: Shelf, cs: seq<string>, p: Policy, c: string)
    requires Valid(shelf) && Distinct(cs)
    ensures Dense(Rows(Collect(shelf, cs, p).rows, c)) <==> Dense(Rows(shelf, c)) && !Thins(shelf, cs, p, c)
  {
    hide Sweep, Ordered, Dense, DeletesNothing, Clean;
    if cs != [] {
      var front, last := cs[..|cs| - 1], cs[|cs| - 1];
      CollectDenseIff(shelf, front, p, c);
      CollectOkIff(shelf, front, p);
      CollectSpares(shelf, front, p, c);
      assert last !in front;
      ThinsUnfolds(shelf, front, last, p, c);
      assert front + [last] == cs;
      if c == last {
        RowsOrdered(shelf, c);
        SweepDenseIff(Rows(shelf, c), p, Collect(shelf, front, p).report);
      }
    }
  }

  lemma ThinsUnfolds(shelf: Shelf, front: seq<string>, last: string, p: Policy, c: string)
    requires last !in front
    ensures Thins(shelf, front + [last], p, c) <==>
              if c == last
              then !DeletesNothing(Rows(shelf, c), p) && forall i :: 0 <= i < |front| ==> Clean(Rows(shelf, front[i]), p)
              else Thins(shelf, front, p, c)
  {
    hide DeletesNothing, Clean;
    var cs := front + [last];
    assert forall i :: 0 <= i < |front| ==> cs[i] == front[i];
    assert cs[|front|] == last;
  }

  ghost predicate ThinsNow(s: State, op: Op, c: string) {
    op.CollectOp? && Distinct(op.containers) && Thins(s.shelf, op.containers, op.policy, c)
  }

  lemma StepDenseIff(s: State, op: Op, c: string)
    requires Ok(s) && Dense(Rows(s.shelf, c))
    ensures Dense(Rows(Step(s, op).shelf, c)) <==> !ThinsNow(s, op, c)
  {
    hide Thins, Collect, Ordered;
    match op {
      case StartTake(_, _) =>
      case FinishTake(p, id, tag, bytes) =>
        if p in s.taking && s.taking[p].0 == c && Accepts(s, c, s.taking[p].1, id) {
          DenseTake(s, p, id, tag, bytes);
        }
      case CollectOp(cs, policy) =>
        if Distinct(cs) { CollectDenseIff(s.shelf, cs, policy, c); }
    }
  }

  // On dense numbers a stale number is refused, so whatever is accepted is the next one.
  lemma DenseTake(s: State, p: nat, id: string, tag: string, bytes: nat)
    requires Ok(s) && p in s.taking && Accepts(s, s.taking[p].0, s.taking[p].1, id)
    requires Dense(Rows(s.shelf, s.taking[p].0))
    ensures Dense(Rows(Step(s, FinishTake(p, id, tag, bytes)).shelf, s.taking[p].0))
  {
    hide Ordered;
    var (c, n) := s.taking[p];
    var list := Rows(s.shelf, c);
    if n != NextNumber(list) {
      StaleIsThere(list, n);
    }
    InsertedFront(list, Snapshot(id, n, tag, bytes));
    var all := [Snapshot(id, n, tag, bytes)] + list;
    assert forall i :: 0 < i < |all| ==> all[i] == list[i - 1];
  }

  lemma StaleIsThere(list: seq<Snapshot>, n: nat)
    requires Ordered(list) && Dense(list) && 0 < n < NextNumber(list)
    ensures HasNumber(list, n)
  {
    assert list[|list| - n] in list;
  }

  ghost predicate HasNumber(list: seq<Snapshot>, n: nat) {
    exists x :: x in list && x.number == n
  }

  ghost predicate DenseThroughout(s: State, ops: seq<Op>, c: string)
    decreases |ops|
  {
    Dense(Rows(s.shelf, c)) && (ops == [] || DenseThroughout(Step(s, ops[0]), ops[1..], c))
  }

  ghost predicate NeverThinned(s: State, ops: seq<Op>, c: string)
    decreases |ops|
  {
    ops == [] || (!ThinsNow(s, ops[0], c) && NeverThinned(Step(s, ops[0]), ops[1..], c))
  }

  lemma {:induction false} DenseUntilThinned(s: State, ops: seq<Op>, c: string)
    requires Ok(s) && Dense(Rows(s.shelf, c))
    ensures DenseThroughout(s, ops, c) <==> NeverThinned(s, ops, c)
    decreases |ops|
  {
    hide Ok, Step, Dense, ThinsNow;
    if ops != [] {
      StepKeepsOk(s, ops[0]);
      StepDenseIff(s, ops[0], c);
      if !ThinsNow(s, ops[0], c) {
        DenseUntilThinned(Step(s, ops[0]), ops[1..], c);
      } else {
        NotDenseNow(Step(s, ops[0]), ops[1..], c);
      }
    }
  }

  lemma NotDenseNow(s: State, ops: seq<Op>, c: string)
    requires !Dense(Rows(s.shelf, c))
    ensures !DenseThroughout(s, ops, c)
  {
  }

  /**
   Exactly when sequence numbers are dense. Over any run of takes, overlapping or not, and collections,
   dry, complete or stopped, a container's numbers are dense at every point if and only if no collection
   deletes one of its snapshots. At the end they are dense if and only if every number it ever gave out
   is on the shelf.
   */
  lemma DenseIffNeverThinned(ops: seq<Op>, c: string)
    ensures DenseThroughout(START, ops, c) <==> NeverThinned(START, ops, c)
    ensures var s := Run(START, ops);
            Dense(Rows(s.shelf, c)) <==> forall n :: n in Used(s, c) ==> HasNumber(Rows(s.shelf, c), n)
  {
    hide Run, Ordered, Step;
    DenseUntilThinned(START, ops, c);
    RunKeepsOk(START, ops);
    DenseIffAllUsedThere(Run(START, ops), c);
  }

  lemma DenseIffAllUsedThere(s: State, c: string)
    requires Ok(s)
    ensures Dense(Rows(s.shelf, c)) <==> forall n :: n in Used(s, c) ==> HasNumber(Rows(s.shelf, c), n)
  {
    var list := Rows(s.shelf, c);
    RowsOrdered(s.shelf, c);
    if Dense(list) {
      forall n | n in Used(s, c) ensures HasNumber(list, n) {
        StaleIsThere(list, n);
      }
    }
    if forall n :: n in Used(s, c) ==> HasNumber(list, n) {
      forall n: nat | 0 < n < NextNumber(list) ensures HasNumber(list, n) {
        assert n in Used(s, c);
      }
      AllThereIsDense(list);
    }
  }

  lemma {:induction false} AllThereIsDense(list: seq<Snapshot>)
    requires Ordered(list)
    requires forall n: nat :: 0 < n < NextNumber(list) ==> HasNumber(list, n)
    ensures Dense(list)
  {
    if list != [] {
      TailOrdered(list);
      var rest, top := list[1..], list[0].number;
      assert rest != [] ==> rest[0] in rest;
      forall n: nat | 0 < n < NextNumber(rest) ensures HasNumber(rest, n) {
        assert HasNumber(list, n);
      }
      AllThereIsDense(rest);
      TopFollows(list);
      DenseIffNewest(rest);
      DenseIffNewest(list);
    }
  }

  // With every number there, the newest is one above the next.
  lemma TopFollows(list: seq<Snapshot>)
    requires Ordered(list) && list != []
    requires forall n: nat :: 0 < n < NextNumber(list) ==> HasNumber(list, n)
    ensures list[0].number == NextNumber(list[1..])
  {
    TailOrdered(list);
    var rest, top := list[1..], list[0].number;
    NewestHasLargest(rest);
    assert rest != [] ==> rest[0] in rest;
    if top > 1 {
      assert HasNumber(list, top - 1);
    }
  }

  lemma FinishEffect(s: State, p: nat, id: string)
    requires p in s.taking && Accepts(s, s.taking[p].0, s.taking[p].1, id)
    ensures var (c, n) := s.taking[p];
            Step(s, FinishTake(p, id, "", 0))
            == State(s.shelf[c := Inserted(Rows(s.shelf, c), Snapshot(id, n, "", 0))],
                     s.used[c := Used(s, c) + {n}], s.taking - {p})
  {
  }

  lemma CollectTwo(c: string, new_: Snapshot, old_: Snapshot, p: Policy)
    requires p == Policy(1, {}, false, {}) && new_.tag == "" && old_.tag == "" && new_.id != old_.id
    ensures Collect(map[c := [new_, old_]], [c], p).rows == map[c := [new_]]
  {
    var list := [new_, old_];
    assert Sweep(list, 0, p, NOTHING).rows == list;
    assert Sweep(list, 1, p, NOTHING).rows == list && Sweep(list, 1, p, NOTHING).ok;
    assert Without(list, old_.id) == [new_] by { assert list[1..] == [old_] && [old_][1..] == []; }
    assert [c][..0] == [];
  }

  /**
   And it does happen: a take that is overtaken by two others and a collection writes a row under a
   number that a deleted snapshot had.
   */
  lemma OvertakenTakeReusesANumber(c: string)
    ensures var s := State(map[c := []], map[], map[]);
            var ops := [StartTake(0, c), StartTake(1, c), FinishTake(1, "a", "", 0), StartTake(1, c),
                        FinishTake(1, "b", "", 0), CollectOp([c], Policy(1, {}, false, {}))];
            var before := Run(s, ops);
            var after := Step(before, FinishTake(0, "x", "", 0));
            1 in Used(before, c) && Rows(after.shelf, c) == [Snapshot("b", 2, "", 0), Snapshot("x", 1, "", 0)]
  {
    hide Collect, Inserted, Step;
    var a, b, x := Snapshot("a", 1, "", 0), Snapshot("b", 2, "", 0), Snapshot("x", 1, "", 0);
    var policy := Policy(1, {}, false, {});
    var s0 := State(map[c := []], map[], map[]);
    RunSix(s0, StartTake(0, c), StartTake(1, c), FinishTake(1, "a", "", 0), StartTake(1, c),
           FinishTake(1, "b", "", 0), CollectOp([c], policy));
    TwoOvertake(c);
    var s5 := State(map[c := [b, a]], map[c := {1, 2}], map[0 := (c, 1)]);
    var s6 := s5.(shelf := map[c := [b]]);
    CollectStep(s5, c, policy);
    CollectTwo(c, b, a, policy);
    FinishEffect(s6, 0, "x");
    InsertedBehind(b, x);
  }

  lemma CollectStep(s: State, c: string, p: Policy)
    ensures Step(s, CollectOp([c], p)) == s.(shelf := Collect(s.shelf, [c], p).rows)
  {
  }

  // One take reads its number; another two complete.
  lemma TwoOvertake(c: string)
    ensures var s0 := State(map[c := []], map[], map[]);
            Step(Step(Step(Step(Step(s0, StartTake(0, c)), StartTake(1, c)), FinishTake(1, "a", "", 0)),
                      StartTake(1, c)), FinishTake(1, "b", "", 0))
            == State(map[c := [Snapshot("b", 2, "", 0), Snapshot("a", 1, "", 0)]], map[c := {1, 2}], map[0 := (c, 1)])
  {
    hide Inserted;
    var a, b := Snapshot("a", 1, "", 0), Snapshot("b", 2, "", 0);
    var s0 := State(map[c := []], map[], map[]);
    var s2 := s0.(taking := map[0 := (c, 1), 1 := (c, 1)]);
    assert Step(Step(s0, StartTake(0, c)), StartTake(1, c)) == s2;
    var s3 := State(map[c := [a]], map[c := {1}], map[0 := (c, 1)]);
    assert Step(s2, FinishTake(1, "a", "", 0)) == s3 by {
      FinishEffect(s2, 1, "a");
      InsertedFront([], a);
      assert [a] + [] == [a] && {} + {1} == {1};
      assert s2.shelf[c := [a]] == s3.shelf && s2.used[c := {1}] == s3.used && s2.taking - {1} == s3.taking;
    }
    var s4 := s3.(taking := map[0 := (c, 1), 1 := (c, 2)]);
    assert Step(s3, StartTake(1, c)) == s4;
    var s5 := State(map[c := [b, a]], map[c := {1, 2}], map[0 := (c, 1)]);
    assert Step(s4, FinishTake(1, "b", "", 0)) == s5 by {
      FinishEffect(s4, 1, "b");
      InsertedFront([a], b);
      assert [b] + [a] == [b, a] && {1} + {2} == {1, 2};
      assert s4.shelf[c := [b, a]] == s5.shelf && s4.used[c := {1, 2}] == s5.used && s4.taking - {1} == s5.taking;
    }
  }

  lemma {:induction false} RunLast(s: State, ops: seq<Op>, op: Op)
    ensures Run(s, ops + [op]) == Step(Run(s, ops), op)
    decreases |ops|
  {
    hide Step;
    if ops == [] {
      assert [] + [op] == [op] && [op][1..] == [];
    } else {
      assert (ops + [op])[1..] == ops[1..] + [op];
      RunLast(Step(s, ops[0]), ops[1..], op);
    }
  }

  /** Any container with an older snapshot that has no label can lose density: one more collection is enough. */
  lemma OneCollectionThins(ops: seq<Op>, c: string, i: nat)
    requires var list := Rows(Run(START, ops).shelf, c);
             0 < i < |list| && list[i].tag == ""
    ensures !Dense(Rows(Run(START, ops + [CollectOp([c], Policy(1, {}, false, {}))]).shelf, c))
  {
    hide Run, Collect, Dense;
    var s, p := Run(START, ops), Policy(1, {}, false, {});
    RunKeepsOk(START, ops);
    RunLast(START, ops, CollectOp([c], p));
    CollectDenseIff(s.shelf, [c], p, c);
    assert Thins(s.shelf, [c], p, c) by {
      var k := SomeFirst(Rows(s.shelf, c), i, p);
      assert [c][0] == c && !DeletesNothing(Rows(s.shelf, c), p);
    }
  }

  /** Two takes and such a collection: the first number is gone, and only number two is left. */
  lemma DensityIsLost(c: string)
    ensures var ops := [StartTake(0, c), FinishTake(0, "a", "", 0), StartTake(0, c), FinishTake(0, "b", "", 0),
                        CollectOp([c], Policy(1, {}, false, {}))];
            Rows(Run(START, ops).shelf, c) == [Snapshot("b", 2, "", 0)] && !DenseThroughout(START, ops, c)
  {
    hide Collect, Inserted;
    var a, b := Snapshot("a", 1, "", 0), Snapshot("b", 2, "", 0);
    var e1, e2, e3, e4 := StartTake(0, c), FinishTake(0, "a", "", 0), StartTake(0, c), FinishTake(0, "b", "", 0);
    var e5 := CollectOp([c], Policy(1, {}, false, {}));
    var s2 := State(map[c := [a]], map[c := {1}], map[]);
    assert Step(Step(START, e1), e2) == s2 by {
      FinishEffect(Step(START, e1), 0, "a");
      InsertedFront([], a);
      assert [a] + [] == [a] && {} + {1} == {1} && map[0 := (c, 1)] - {0} == map[];
    }
    var s4 := State(map[c := [b, a]], map[c := {1, 2}], map[]);
    assert Step(Step(s2, e3), e4) == s4 by {
      FinishEffect(Step(s2, e3), 0, "b");
      InsertedFront([a], b);
      assert [b] + [a] == [b, a] && {1} + {2} == {1, 2} && map[0 := (c, 2)] - {0} == map[];
      assert s2.shelf[c := [b, a]] == s4.shelf && s2.used[c := {1, 2}] == s4.used;
    }
    RunFive(START, e1, e2, e3, e4, e5);
    CollectTwo(c, b, a, Policy(1, {}, false, {}));
    var ops := [e1, e2, e3, e4, e5];
    assert [b][0] == b && !Dense([b]);
    DenseAtTheEnd(START, ops, c);
  }

  lemma {:induction false} DenseAtTheEnd(s: State, ops: seq<Op>, c: string)
    ensures DenseThroughout(s, ops, c) ==> Dense(Rows(Run(s, ops).shelf, c))
    decreases |ops|
  {
    hide Step, Dense;
    if ops != [] {
      DenseAtTheEnd(Step(s, ops[0]), ops[1..], c);
    }
  }

  lemma InsertedFront(list: seq<Snapshot>, s: Snapshot)
    requires list == [] || s.number > list[0].number
    ensures Inserted(list, s) == [s] + list
  {
  }

  lemma InsertedBehind(first: Snapshot, s: Snapshot)
    requires s.number < first.number
    ensures Inserted([first], s) == [first, s]
  {
    assert [first][1..] == [];
  }

  lemma RunSix(s: State, a: Op, b: Op, c: Op, d: Op, e: Op, f: Op)
    ensures Run(s, [a, b, c, d, e, f]) == Step(Step(Step(Step(Step(Step(s, a), b), c), d), e), f)
  {
    hide Step, Run;
    RunFirst(s, [a, b, c, d, e, f]);
    assert [a, b, c, d, e, f][1..] == [b, c, d, e, f];
    RunFive(Step(s, a), b, c, d, e, f);
  }

  lemma RunFive(s: State, a: Op, b: Op, c: Op, d: Op, e: Op)
    ensures Run(s, [a, b, c, d, e]) == Step(Step(Step(Step(Step(s, a), b), c), d), e)
  {
    hide Step, Run;
    RunFirst(s, [a, b, c, d, e]);
    RunFirst(Step(s, a), [b, c, d, e]);
    RunFirst(Step(Step(s, a), b), [c, d, e]);
    RunFirst(Step(Step(Step(s, a), b), c), [d, e]);
    RunFirst(Step(Step(Step(Step(s, a), b), c), d), [e]);
    assert [a, b, c, d, e][1..] == [b, c, d, e] && [b, c, d, e][1..] == [c, d, e];
    assert [c, d, e][1..] == [d, e] && [d, e][1..] == [e] && [e][1..] == [];
    RunNothing(Step(Step(Step(Step(Step(s, a), b), c), d), e));
  }

  lemma RunFirst(s: State, ops: seq<Op>)
    requires ops != []
    ensures Run(s, ops) == Run(Step(s, ops[0]), ops[1..])
  {
  }

  lemma RunNothing(s: State)
    ensures Run(s, []) == s
  {
  }

  // ---- the store ----

  class SnapshotStore {
    var shelf: Shelf

    method NextSnapshotSeq(container: string) returns (n: nat)
      requires Valid(shelf)
      ensures n == NextNumber(Rows(shelf, container))
      ensures forall x :: x in Rows(shelf, container) ==> x.number < n
      ensures if Rows(shelf, container) == [] then n == 1
              else exists x :: x in Rows(shelf, container) && x.number + 1 == n
    {
      var most := 0;
      if container in shelf {
        var list := shelf[container];
        for i := 0 to |list|
          invariant most == if i == 0 then 0 else list[0].number
        {
          if list[i].number > most { most := list[i].number; }
        }
      }
      n := most + 1;
    }

    /** One container's part of a collection: visits the listing taken at the start, newest first. */
    method SweepOne(container: string, p: Policy, before: Report) returns (report: Report, ok: bool)
      requires Valid(shelf)
      modifies this
      ensures Progress(shelf, report, ok) == SweepContainer(Progress(old(shelf), before, true), container, p)
    {
      hide Without, Ordered, Protected;
      var list := if container in shelf then shelf[container] else [];
      report := before;
      var rows := list;
      for i := 0 to |list|
        invariant Sweep(list, i, p, before) == Progress(rows, report, true)
      {
        var s := list[i];
        if i < p.Keep() {
          report := report.(kept := report.kept + [Kept(s.id, s.number, Recent)]);
        } else if s.tag != "" {
          report := report.(kept := report.kept + [Kept(s.id, s.number, Labelled)]);
        } else if s.id in p.referenced {
          report := report.(kept := report.kept + [Kept(s.id, s.number, Referenced)]);
        } else {
          if !p.dryRun {
            if s.id in p.broken {
              StoppedSweep(list, i + 1, p, before);
              shelf := shelf[container := rows];
              return report, false;
            }
            rows := Without(rows, s.id);
          }
          report := report.(deleted := report.deleted + [s.id], bytesFreed := report.bytesFreed + s.bytes);
        }
      }
      shelf := shelf[container := rows];
      ok := true;
    }

    /** Stops, with what it has done so far, at the first deletion that fails. */
    method GC(containers: seq<string>, p: Policy) returns (report: Report, ok: bool)
      requires Valid(shelf) && Distinct(containers)
      modifies this
      ensures Progress(shelf, report, ok) == Collect(old(shelf), containers, p)
      ensures Valid(shelf)
    {
      report, ok := NOTHING, true;
      ghost var shelf0 := shelf;
      for i := 0 to |containers|
        invariant Collect(shelf0, containers[..i], p) == Progress(shelf, report, ok) && ok
        invariant Valid(shelf)
      {
        assert containers[..i + 1][..i] == containers[..i];
        CollectValid(shelf0, containers[..i + 1], p);
        report, ok := SweepOne(containers[i], p, report);
        if !ok {
          StoppedCollect(shelf0, containers, i + 1, p);
          return;
        }
      }
      assert containers[..|containers|] == containers;
    }
  }

  lemma CollectValid(shelf: Shelf, cs: seq<string>, p: Policy)
    requires Valid(shelf) && Distinct(cs)
    ensures Valid(Collect(shelf, cs, p).rows)
  {
    hide Ordered;
    var rows := Collect(shelf, cs, p).rows;
    forall c | c in rows ensures Ordered(rows[c]) {
      CollectSpares(shelf, cs, p, c);
      assert rows[c] == Rows(rows, c);
    }
  }

  lemma {:induction false} StoppedSweep(list: seq<Snapshot>, n: nat, p: Policy, r: Report)
    requires n <= |list| && !Sweep(list, n, p, r).ok
    ensures Sweep(list, |list|, p, r) == Sweep(list, n, p, r)
    decreases |list| - n
  {
    if n < |list| {
      StoppedSweep(list, n + 1, p, r);
    }
  }

  lemma {:induction false} StoppedCollect(shelf: Shelf, cs: seq<string>, n: nat, p: Policy)
    requires n <= |cs| && !Collect(shelf, cs[..n], p).ok
    ensures Collect(shelf, cs, p) == Collect(shelf, cs[..n], p)
    decreases |cs| - n
  {
    if n < |cs| {
      assert cs[..n + 1][..n] == cs[..n];
      StoppedCollect(shelf, cs, n + 1, p);
    } else {
      assert cs[..n] == cs;
    }
  }
}
