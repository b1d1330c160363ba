/** Parent chains: who is how many hops above whom, in rows that may hold cycles. */
module Lineage {
  import opened Options

  // Parent ids by id; "" means no parent, and a parent need not have a row.
  type Parents = map<string, string>

  /** The id `k` parent hops above `id`, if the chain is that long. */
  ghost function Up(ps: Parents, id: string, k: nat): Option<string>
  {
    if k == 0 then Some(id)
    else match Up(ps, id, k - 1)
      case Some(p) => if p in ps && ps[p] != "" then Some(ps[p]) else None
      case None => None
  }

  // The id `k` hops up has a row, and that row has no parent row.
  ghost predicate ChainEnds(ps: Parents, id: string, k: nat) {
    var top := Up(ps, id, k);
    top.Some? && top.value in ps && (ps[top.value] == "" || ps[top.value] !in ps)
  }

  ghost predicate Grounded(ps: Parents, id: string) {
    exists k :: ChainEnds(ps, id, k)
  }

  // Some row is met twice on the way up.
  ghost predicate OnOrBelowCycle(ps: Parents, id: string) {
    exists i: nat, j: nat :: i < j && Up(ps, id, i) == Up(ps, id, j) && Up(ps, id, i).Some?
                             && Up(ps, id, i).value in ps
  }

  /** Climbing from the parent is climbing from the child one hop later. */
  lemma {:induction false} UpShift(ps: Parents, id: string, k: nat)
    requires id in ps && ps[id] != ""
    ensures Up(ps, id, k + 1) == Up(ps, ps[id], k)
  {
    if k > 0 {
      UpShift(ps, id, k - 1);
    } else {
      assert Up(ps, id, 0) == Some(id);
    }
  }

  lemma {:induction false} UpRepeats(ps: Parents, id: string, i: nat, j: nat, d: nat)
    requires Up(ps, id, i) == Up(ps, id, j)
    ensures Up(ps, id, i + d) == Up(ps, id, j + d)
    decreases d
  {
    if d > 0 {
      UpRepeats(ps, id, i, j, d - 1);
    }
  }

  // Above the end of a chain there is nothing, or one id without a row.
  lemma {:induction false} NothingAboveTheEnd(ps: Parents, id: string, k: nat, m: nat)
    requires ChainEnds(ps, id, k) && k < m
    ensures Up(ps, id, m).Some? ==> Up(ps, id, m).value !in ps
    decreases m
  {
    if m > k + 1 {
      NothingAboveTheEnd(ps, id, k, m - 1);
    }
  }

  /** A chain has one length. */
  lemma ChainLengthUnique(ps: Parents, id: string, k: nat, m: nat)
    requires ChainEnds(ps, id, k) && ChainEnds(ps, id, m)
    ensures k == m
  {
    if k < m {
      NothingAboveTheEnd(ps, id, k, m);
    } else if m < k {
      NothingAboveTheEnd(ps, id, m, k);
    }
  }

  lemma {:induction false} EndlessChain(ps: Parents, id: string, k: nat)
    requires id in ps && !Grounded(ps, id)
    ensures Up(ps, id, k).Some? && Up(ps, id, k).value in ps
  {
    if k > 0 {
      EndlessChain(ps, id, k - 1);
      assert !ChainEnds(ps, id, k - 1);
    }
  }

  lemma {:induction false} DistinctFit<T>(s: seq<T>, pool: set<T>)
    requires forall i :: 0 <= i < |s| ==> s[i] in pool
    requires forall i, j :: 0 <= i < j < |s| ==> s[i] != s[j]
    ensures |s| <= |pool|
  {
    if s != [] {
      DistinctFit(s[1..], pool - {s[0]});
    }
  }

  /** A row's chain ends unless the row is on or below a cycle. */
  lemma GroundedUnlessCyclic(ps: Parents, id: string)
    requires id in ps
    ensures Grounded(ps, id) <==> !OnOrBelowCycle(ps, id)
  {
    if Grounded(ps, id) && OnOrBelowCycle(ps, id) {
      var k: nat :| ChainEnds(ps, id, k);
      var i: nat, j: nat :| i < j && Up(ps, id, i) == Up(ps, id, j) && Up(ps, id, i).Some?
                            && Up(ps, id, i).value in ps;
      if i <= k {
        UpRepeats(ps, id, i, j, k - i);
        NothingAboveTheEnd(ps, id, k, j + (k - i));
      } else {
        NothingAboveTheEnd(ps, id, k, i);
      }
    }
    if !Grounded(ps, id) {
      var n := |ps.Keys|;
      forall k: nat ensures Up(ps, id, k).Some? && Up(ps, id, k).value in ps {
        EndlessChain(ps, id, k);
      }
      var climb := seq(n + 1, k requires 0 <= k => Up(ps, id, k).value);
      if forall i, j :: 0 <= i < j < |climb| ==> climb[i] != climb[j] {
        DistinctFit(climb, ps.Keys);
      } else {
        var i, j :| 0 <= i < j < |climb| && climb[i] == climb[j];
        assert Up(ps, id, i) == Up(ps, id, j);
      }
    }
  }
}
