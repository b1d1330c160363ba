/**
 Git, as far as a sync needs it: an append-only store of commits with at most one
 parent each, the ranges `base..tip`, and the replay that `git rebase --onto` does.
 */
module Commits {
  import opened Options

  type Patch = string
  type CommitId = nat
  datatype Commit = Commit(parent: Option<CommitId>, patch: Patch)

  // A commit is stored after its parent, so a history has no cycles.
  ghost predicate Acyclic(cs: seq<Commit>) {
    forall i :: 0 <= i < |cs| && cs[i].parent.Some? ==> cs[i].parent.value < i
  }

  type History = cs: seq<Commit> | Acyclic(cs) witness []

  /** Whether `anc` is `tip` or one of its ancestors (`merge-base --is-ancestor anc tip`). */
  predicate Reaches(h: History, tip: CommitId, anc: CommitId)
    requires tip < |h|
    decreases tip
  {
    tip == anc || (h[tip].parent.Some? && Reaches(h, h[tip].parent.value, anc))
  }

  /** The commits of `base..tip`, oldest first. */
  function Range(h: History, base: CommitId, tip: CommitId): seq<CommitId>
    requires base < |h| && tip < |h|
    decreases tip
  {
    if Reaches(h, base, tip) then []
    else (if h[tip].parent.Some? then Range(h, base, h[tip].parent.value) else []) + [tip]
  }

  /** The patches of `base..tip`, oldest first. */
  function Work(h: History, base: CommitId, tip: CommitId): seq<Patch>
    requires base < |h| && tip < |h|
    decreases tip
  {
    if Reaches(h, base, tip) then []
    else (if h[tip].parent.Some? then Work(h, base, h[tip].parent.value) else []) + [h[tip].patch]
  }

  /** Picks patches one after another on top of `onto`; yields the new history and the new tip. */
  function Replay(h: History, onto: CommitId, picks: seq<Patch>): (r: (History, CommitId))
    requires onto < |h|
    ensures h <= r.0 && r.1 < |r.0|
  {
    if picks == [] then (h, onto)
    else
      var (h1, tip1) := Replay(h, onto, picks[..|picks| - 1]);
      (h1 + [Commit(Some(tip1), picks[|picks| - 1])], |h1|)
  }

  lemma {:induction false} ReachesOlder(h: History, tip: CommitId, anc: CommitId)
    requires tip < |h| && Reaches(h, tip, anc)
    ensures anc <= tip
    decreases tip
  {
    if tip != anc {
      ReachesOlder(h, h[tip].parent.value, anc);
    }
  }

  lemma {:induction false} ReachesTransitive(h: History, a: CommitId, b: CommitId, c: CommitId)
    requires a < |h| && b < |h| && Reaches(h, a, b) && Reaches(h, b, c)
    ensures Reaches(h, a, c)
    decreases a
  {
    if a != b {
      ReachesTransitive(h, h[a].parent.value, b, c);
    }
  }

  /** Appending commits changes nothing about the commits already stored. */
  lemma {:induction false} ReachesStable(h: History, h': History, tip: CommitId, anc: CommitId)
    requires h <= h' && tip < |h|
    ensures Reaches(h', tip, anc) == Reaches(h, tip, anc)
    decreases tip
  {
    if h[tip].parent.Some? {
      ReachesStable(h, h', h[tip].parent.value, anc);
    }
  }

  lemma {:induction false} WorkStable(h: History, h': History, base: CommitId, tip: CommitId)
    requires h <= h' && base < |h| && tip < |h|
    ensures Work(h', base, tip) == Work(h, base, tip)
    decreases tip
  {
    ReachesStable(h, h', base, tip);
    if h[tip].parent.Some? {
      WorkStable(h, h', base, h[tip].parent.value);
    }
  }

  /** `base..tip` is exactly what `tip` reaches and `base` does not, for any two commits. */
  lemma {:induction false} RangeIsExact(h: History, base: CommitId, tip: CommitId, c: CommitId)
    requires base < |h| && tip < |h|
    ensures c in Range(h, base, tip) <==> Reaches(h, tip, c) && !Reaches(h, base, c)
    decreases tip
  {
    if Reaches(h, base, tip) {
      if Reaches(h, tip, c) {
        ReachesTransitive(h, base, tip, c);
      }
    } else if h[tip].parent.Some? {
      RangeIsExact(h, base, h[tip].parent.value, c);
    }
  }

  /** The patches of a range are the patches of its commits, in order. */
  lemma {:induction false} WorkIsRange(h: History, base: CommitId, tip: CommitId)
    requires base < |h| && tip < |h|
    ensures |Work(h, base, tip)| == |Range(h, base, tip)|
    ensures forall i :: 0 <= i < |Range(h, base, tip)| ==>
              Range(h, base, tip)[i] < |h| && Work(h, base, tip)[i] == h[Range(h, base, tip)[i]].patch
    decreases tip
  {
    if !Reaches(h, base, tip) && h[tip].parent.Some? {
      WorkIsRange(h, base, h[tip].parent.value);
    }
  }

  /** A commit on top of `tip` adds its own patch to the range, at the end. */
  lemma CommitExtendsWork(h: History, base: CommitId, tip: CommitId, patch: Patch)
    requires base < |h| && tip < |h|
    requires Reaches(h, tip, base)
    ensures var h' := h + [Commit(Some(tip), patch)];
            && Acyclic(h')
            && Reaches(h', |h|, base)
            && Work(h', base, |h|) == Work(h, base, tip) + [patch]
  {
    var h' := h + [Commit(Some(tip), patch)];
    ReachesStable(h, h', tip, base);
    WorkStable(h, h', base, tip);
    if Reaches(h', base, |h|) {
      ReachesOlder(h', base, |h|);
    }
  }

  /** Replaying lands on `onto`, and `onto..tip` is then exactly the picked patches in order. */
  lemma {:induction false} ReplayLands(h: History, onto: CommitId, picks: seq<Patch>)
    requires onto < |h|
    ensures var (h', tip) := Replay(h, onto, picks);
            Reaches(h', tip, onto) && Work(h', onto, tip) == picks
    decreases |picks|
  {
    if picks != [] {
      var front := picks[..|picks| - 1];
      ReplayLands(h, onto, front);
      var (h1, tip1) := Replay(h, onto, front);
      CommitExtendsWork(h1, onto, tip1, picks[|picks| - 1]);
    }
  }

  /** Seen from an older commit, a replay is what lay above that commit before, then the picks. */
  lemma {:induction false} ReplayFromBelow(h: History, onto: CommitId, picks: seq<Patch>, base: CommitId)
    requires onto < |h| && base < |h|
    ensures var (h', tip) := Replay(h, onto, picks);
            && (Reaches(h', tip, base) <==> Reaches(h, onto, base))
            && (Reaches(h, onto, base) ==> Work(h', base, tip) == Work(h, base, onto) + picks)
    decreases |picks|
  {
    if picks == [] {
      assert Work(h, base, onto) + [] == Work(h, base, onto);
    } else {
      var front, last := picks[..|picks| - 1], picks[|picks| - 1];
      ReplayFromBelow(h, onto, front, base);
      var (h1, tip1) := Replay(h, onto, front);
      var h' := h1 + [Commit(Some(tip1), last)];
      ReachesStable(h1, h', tip1, base);
      if Reaches(h, onto, base) {
        CommitExtendsWork(h1, base, tip1, last);
        assert Work(h, base, onto) + front + [last] == Work(h, base, onto) + picks;
      }
    }
  }

  /** The ancestors of a commit form one line. */
  lemma {:induction false} AncestorsAreLinear(h: History, tip: CommitId, a: CommitId, b: CommitId)
    requires tip < |h| && Reaches(h, tip, a) && Reaches(h, tip, b)
    ensures a < |h| && b < |h| && (Reaches(h, a, b) || Reaches(h, b, a))
    decreases tip
  {
    ReachesOlder(h, tip, a);
    ReachesOlder(h, tip, b);
    if tip != a && tip != b {
      AncestorsAreLinear(h, h[tip].parent.value, a, b);
    }
  }

  /** Going up through an ancestor adds up. */
  lemma {:induction false} WorkSplits(h: History, tip: CommitId, mid: CommitId, base: CommitId)
    requires tip < |h| && Reaches(h, tip, mid) && mid < |h| && Reaches(h, mid, base) && base < |h|
    ensures Work(h, base, tip) == Work(h, base, mid) + Work(h, mid, tip)
    decreases tip
  {
    if tip == mid {
      assert Work(h, base, mid) + [] == Work(h, base, mid);
    } else {
      WorkSplits(h, h[tip].parent.value, mid, base);
      ReachesOlder(h, h[tip].parent.value, mid);
      if Reaches(h, mid, tip) {
        ReachesOlder(h, mid, tip);
      }
      ReachesTransitive(h, h[tip].parent.value, mid, base);
      ReachesOlder(h, h[tip].parent.value, base);
      if Reaches(h, base, tip) {
        ReachesOlder(h, base, tip);
      }
    }
  }

  lemma WorkAboveIsSome(h: History, base: CommitId, tip: CommitId)
    requires tip < |h| && Reaches(h, tip, base) && base < |h|
    ensures Work(h, base, tip) == [] <==> base == tip
  {
    ReachesOlder(h, tip, base);
    if Reaches(h, base, tip) {
      ReachesOlder(h, base, tip);
    }
  }

  /** Only the base itself gives its work: two ancestors of a tip with the same work above are one. */
  lemma WorkDeterminesBase(h: History, tip: CommitId, a: CommitId, b: CommitId)
    requires tip < |h| && Reaches(h, tip, a) && Reaches(h, tip, b)
    ensures a < |h| && b < |h| && (Work(h, a, tip) == Work(h, b, tip) <==> a == b)
  {
    hide Work;
    AncestorsAreLinear(h, tip, a, b);
    if Reaches(h, a, b) {
      WorkSplits(h, tip, a, b);
      WorkAboveIsSome(h, b, a);
    } else {
      WorkSplits(h, tip, b, a);
      WorkAboveIsSome(h, a, b);
    }
  }
}
