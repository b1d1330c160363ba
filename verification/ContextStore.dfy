/**
 `internal/contextengine/engine.go`: versioned items written by compare-and-set and extended
 by appending. Every transaction is one atomic step; agents interleave in any order.
 */
module ContextStore {
  import opened Options

  datatype Ref = Ref(scope: string, scopeId: string, key: string)

  // Why a version was written. A proposal's acceptance is recorded in the reason it leaves.
  datatype Reason = Given(text: string) | Appended | AcceptedProposal(proposal: string, decider: string)

  datatype Item = Item(version: nat, content: string, updatedBy: string)
  datatype Version = Version(version: nat, content: string, author: string, reason: Reason)

  /** The item and history tables. An item is known by its ref, which is unique and never changes. */
  datatype Store = Store(items: map<Ref, Item>, versions: map<Ref, seq<Version>>)
  {
    ghost predicate Valid() {
      && versions.Keys == items.Keys
      && (forall r :: r in items ==> Complete(items[r], versions[r]))
    }
  }

  /** An item's version rows are exactly 1..version, and the last one is the current content. */
  ghost predicate Complete(item: Item, history: seq<Version>) {
    && |history| == item.version > 0
    && (forall i :: 0 <= i < |history| ==> history[i].version == i + 1)
    && history[|history| - 1].content == item.content
  }

  datatype WriteResult = Written(item: Item) | Stale(expected: int, current: nat, currentContent: string)

  // ---- specification ----

  ghost function VersionOf(s: Store, ref: Ref): nat
    requires s.Valid()
  {
    if ref in s.items then s.items[ref].version else 0
  }

  ghost function ContentOf(s: Store, ref: Ref): string
    requires s.Valid()
  {
    if ref in s.items then s.items[ref].content else ""
  }

  ghost function HistoryOf(s: Store, ref: Ref): seq<Version>
    requires s.Valid()
  {
    if ref in s.items then s.versions[ref] else []
  }

  /** The store once `ref` holds `content` as its next version. */
  ghost function Put(s: Store, ref: Ref, content: string, author: string, reason: Reason): (s': Store)
    requires s.Valid()
    ensures s'.Valid()
  {
    var next := VersionOf(s, ref) + 1;
    Store(s.items[ref := Item(next, content, author)],
          s.versions[ref := HistoryOf(s, ref) + [Version(next, content, author, reason)]])
  }

  /** A block at the end of some content, on a line of its own. */
  function Join(content: string, block: string): string {
    if content != "" && content[|content| - 1] != '\n' then content + "\n" + block else content + block
  }

  /** What appending `text` makes of an item's content. */
  ghost function Extended(s: Store, ref: Ref, text: string): string
    requires s.Valid()
  {
    if ref in s.items then Join(ContentOf(s, ref), text) else text
  }

  /** A put adds one version row to one item and touches no other. */
  lemma PutIsOneVersion(s: Store, ref: Ref, content: string, author: string, reason: Reason, r: Ref)
    requires s.Valid()
    ensures var s' := Put(s, ref, content, author, reason);
            && (r == ref ==>
                  && VersionOf(s', r) == VersionOf(s, r) + 1 && ContentOf(s', r) == content
                  && HistoryOf(s', r) == HistoryOf(s, r) + [Version(VersionOf(s, r) + 1, content, author, reason)])
            && (r != ref ==>
                  && VersionOf(s', r) == VersionOf(s, r) && ContentOf(s', r) == ContentOf(s, r)
                  && HistoryOf(s', r) == HistoryOf(s, r))
  {
  }

  // ---- the code ----

  class Engine {
    var items: map<Ref, Item>
    var versions: map<Ref, seq<Version>>

    ghost function State(): Store
      reads this
    {
      Store(items, versions)
    }

    constructor ()
      ensures State() == Store(map[], map[]) && State().Valid()
    {
      items, versions := map[], map[];
    }

    /** Replaces an item's content if it still is at `base`; `base` 0 creates it. */
    method Write(ref: Ref, base: int, content: string, author: string, reason: Reason) returns (r: WriteResult)
      requires State().Valid()
      modifies this
      ensures State().Valid()
      ensures r.Written? <==> base == VersionOf(old(State()), ref)
      ensures r.Written? ==> State() == Put(old(State()), ref, content, author, reason)
                             && ref in items && r.item == items[ref]
      ensures r.Stale? ==> State() == old(State())
                           && r == Stale(base, VersionOf(State(), ref), ContentOf(State(), ref))
      // In the tables' own terms: the version named is the row's, or 0 for a missing row.
      ensures r.Written? <==> base == if ref in old(items) then old(items)[ref].version else 0
      ensures r.Written? ==>
        && items == old(items)[ref := Item(base + 1, content, author)]
        && versions == old(versions)[ref := (if ref in old(versions) then old(versions)[ref] else [])
                                            + [Version(base + 1, content, author, reason)]]
    {
      if ref !in items {
        if base != 0 {
          return Stale(base, 0, "");
        }
        var first := Version(1, content, author, reason);
        assert [] + [first] == [first];
        items := items[ref := Item(1, content, author)];
        versions := versions[ref := [first]];
        return Written(items[ref]);
      }
      var version := items[ref].version;
      if version != base {
        return Stale(base, version, items[ref].content);
      }
      version := version + 1;
      items := items[ref := Item(version, content, author)];
      versions := versions[ref := versions[ref] + [Version(version, content, author, reason)]];
      return Written(items[ref]);
    }

    /** Adds a block to the end of an item, creating it when it is missing. */
    method Append(ref: Ref, text: string, author: string) returns (item: Item)
      requires State().Valid()
      modifies this
      ensures State() == Put(old(State()), ref, Extended(old(State()), ref, text), author, Appended)
      ensures State().Valid() && ref in items && item == items[ref]
      ensures ref !in old(items) ==>
        && items == old(items)[ref := Item(1, text, author)]
        && versions == old(versions)[ref := [Version(1, text, author, Appended)]]
      ensures ref in old(items) ==>
        var was := old(items)[ref];
        // A block starts on a line of its own, unless nothing precedes it.
        var ended := was.content == "" || was.content[|was.content| - 1] == '\n';
        var content := (if ended then was.content else was.content + "\n") + text;
        && items == old(items)[ref := Item(was.version + 1, content, author)]
        && versions == old(versions)[ref := old(versions)[ref] + [Version(was.version + 1, content, author, Appended)]]
    {
      hide Complete;
      var version, content := 1, text;
      if ref !in items {
        var first := Version(1, content, author, Appended);
        assert [] + [first] == [first];
        items := items[ref := Item(version, content, author)];
        versions := versions[ref := [first]];
      } else {
        version := items[ref].version + 1;
        content := items[ref].content;
        if content != "" && content[|content| - 1] != '\n' {
          content := content + "\n";
        }
        content := content + text;
        items := items[ref := Item(version, content, author)];
        versions := versions[ref := versions[ref] + [Version(version, content, author, Appended)]];
      }
      item := items[ref];
    }
  }

  // ---- interleavings ----

  datatype Op =
    | WriteOp(ref: Ref, base: int, content: string, author: string, text: string)
    | AppendOp(ref: Ref, block: string, author: string)

  ghost predicate Succeeds(s: Store, op: Op)
    requires s.Valid()
  {
    op.WriteOp? ==> op.base == VersionOf(s, op.ref)
  }

  ghost function Step(s: Store, op: Op): (s': Store)
    requires s.Valid()
    ensures s'.Valid()
  {
    if !Succeeds(s, op) then s
    else match op
      case WriteOp(ref, _, content, author, text) => Put(s, ref, content, author, Given(text))
      case AppendOp(ref, block, author) => Put(s, ref, Extended(s, ref, block), author, Appended)
  }

  /** The store after the first `i` operations of an interleaving. */
  ghost function After(s: Store, ops: seq<Op>, i: nat): (s': Store)
    requires s.Valid() && i <= |ops|
    ensures s'.Valid()
  {
    if i == 0 then s else Step(After(s, ops, i - 1), ops[i - 1])
  }

  lemma StepGrowsHistory(s: Store, op: Op, ref: Ref)
    requires s.Valid()
    ensures HistoryOf(s, ref) <= HistoryOf(Step(s, op), ref)
    ensures |HistoryOf(Step(s, op), ref)| == |HistoryOf(s, ref)| + if op.ref == ref && Succeeds(s, op) then 1 else 0
  {
  }

  lemma StepContent(s: Store, op: Op, ref: Ref)
    requires s.Valid()
    ensures ref in s.items || (op.ref == ref && Succeeds(s, op)) ==> ref in Step(s, op).items
    ensures ContentOf(Step(s, op), ref)
            == if op.ref != ref || !Succeeds(s, op) then ContentOf(s, ref)
               else if op.WriteOp? then op.content else Extended(s, ref, op.block)
  {
  }

  lemma VersionIsHistoryLength(s: Store, ref: Ref)
    requires s.Valid()
    ensures VersionOf(s, ref) == |HistoryOf(s, ref)|
  {
  }

  /** No version is ever rewritten or dropped: later histories extend earlier ones. */
  lemma {:induction false} HistoryOnlyGrows(s: Store, ops: seq<Op>, ref: Ref, i: nat, j: nat)
    requires s.Valid() && i <= j <= |ops|
    ensures HistoryOf(After(s, ops, i), ref) <= HistoryOf(After(s, ops, j), ref)
    decreases j
  {
    hide HistoryOf, Step;
    if i < j {
      HistoryOnlyGrows(s, ops, ref, i, j - 1);
      StepGrowsHistory(After(s, ops, j - 1), ops[j - 1], ref);
    }
  }

  /**
   No lost update. In every interleaving, of two writes of one item that both succeed the later
   one named a newer version: no two writers ever replace the same version, and each one replaced
   precisely the version it named, which still stands in the history right before its own.
   */
  lemma WritersReplaceWhatTheyNamed(s: Store, ops: seq<Op>, i: nat, j: nat)
    requires s.Valid() && i < j < |ops|
    requires ops[i].WriteOp? && ops[j].WriteOp? && ops[i].ref == ops[j].ref
    requires Succeeds(After(s, ops, i), ops[i]) && Succeeds(After(s, ops, j), ops[j])
    ensures ops[i].base < ops[j].base
    ensures var h := HistoryOf(After(s, ops, |ops|), ops[i].ref);
            && ops[j].base < |h|
            && h[ops[i].base].content == ops[i].content && h[ops[i].base].author == ops[i].author
            && h[ops[j].base].content == ops[j].content && h[ops[j].base].author == ops[j].author
            && h[..ops[j].base] == HistoryOf(After(s, ops, j), ops[j].ref)
  {
    var ref := ops[i].ref;
    WriteLands(s, ops, i);
    WriteLands(s, ops, j);
    HistoryOnlyGrows(s, ops, ref, i + 1, j);
    HistoryOnlyGrows(s, ops, ref, j, |ops|);
    VersionIsHistoryLength(After(s, ops, i), ref);
    VersionIsHistoryLength(After(s, ops, j), ref);
  }

  // A successful write's own row stays where it put it.
  lemma WriteLands(s: Store, ops: seq<Op>, i: nat)
    requires s.Valid() && i < |ops| && ops[i].WriteOp? && Succeeds(After(s, ops, i), ops[i])
    ensures 0 <= ops[i].base < |HistoryOf(After(s, ops, i + 1), ops[i].ref)|
                            <= |HistoryOf(After(s, ops, |ops|), ops[i].ref)|
    ensures ops[i].base == |HistoryOf(After(s, ops, i), ops[i].ref)|
    ensures HistoryOf(After(s, ops, |ops|), ops[i].ref)[ops[i].base]
            == Version(ops[i].base + 1, ops[i].content, ops[i].author, Given(ops[i].text))
  {
    hide Step, HistoryOf, VersionOf, Put, After;
    var now, ref := After(s, ops, i), ops[i].ref;
    AfterNext(s, ops, i);
    WriteAddsRow(now, ops[i]);
    HistoryOnlyGrows(s, ops, ref, i + 1, |ops|);
  }

  lemma WriteAddsRow(s: Store, op: Op)
    requires s.Valid() && op.WriteOp? && Succeeds(s, op)
    ensures op.base == |HistoryOf(s, op.ref)|
    ensures HistoryOf(Step(s, op), op.ref)
            == HistoryOf(s, op.ref) + [Version(op.base + 1, op.content, op.author, Given(op.text))]
  {
  }

  /** Joins blocks one after another. */
  ghost function JoinAll(content: string, blocks: seq<string>): string {
    if blocks == [] then content else Join(JoinAll(content, blocks[..|blocks| - 1]), blocks[|blocks| - 1])
  }

  /** The blocks that operations `from..upto` append to an item, in commit order. */
  ghost function BlocksOf(s: Store, ops: seq<Op>, ref: Ref, from: nat, upto: nat): seq<string>
    requires s.Valid() && from <= upto <= |ops|
  {
    if from == upto then []
    else
      BlocksOf(s, ops, ref, from, upto - 1)
      + (if ops[upto - 1].AppendOp? && ops[upto - 1].ref == ref && Succeeds(After(s, ops, upto - 1), ops[upto - 1])
         then [ops[upto - 1].block] else [])
  }

  /**
   Content since the last write is that write followed by every block appended after it, in
   commit order, whatever else the agents did in between.
   */
  lemma {:induction false} AppendsAccumulate(s: Store, ops: seq<Op>, w: nat, upto: nat)
    requires s.Valid() && w < upto <= |ops|
    requires ops[w].WriteOp? && Succeeds(After(s, ops, w), ops[w])
    requires forall i :: w < i < upto && ops[i].WriteOp? && ops[i].ref == ops[w].ref ==>
               !Succeeds(After(s, ops, i), ops[i])
    ensures ops[w].ref in After(s, ops, upto).items
    ensures ContentOf(After(s, ops, upto), ops[w].ref)
            == JoinAll(ops[w].content, BlocksOf(s, ops, ops[w].ref, w + 1, upto))
    decreases upto
  {
    hide Step, ContentOf, Succeeds, JoinAll, Join, After;
    var ref, was := ops[w].ref, After(s, ops, upto - 1);
    AfterNext(s, ops, upto - 1);
    StepContent(was, ops[upto - 1], ref);
    var blocks := BlocksOf(s, ops, ref, w + 1, upto - 1 + if upto == w + 1 then 1 else 0);
    if upto == w + 1 {
      JoinNothing(ops[w].content);
    } else {
      AppendsAccumulate(s, ops, w, upto - 1);
      JoinOneMore(ops[w].content, blocks, ops[upto - 1]);
      assert blocks + [] == blocks;
    }
  }

  lemma AfterNext(s: Store, ops: seq<Op>, i: nat)
    requires s.Valid() && i < |ops|
    ensures After(s, ops, i + 1) == Step(After(s, ops, i), ops[i])
  {
  }

  lemma JoinNothing(content: string)
    ensures JoinAll(content, []) == content
  {
  }

  lemma JoinOneMore(content: string, blocks: seq<string>, op: Op)
    ensures op.AppendOp? ==> JoinAll(content, blocks + [op.block]) == Join(JoinAll(content, blocks), op.block)
  {
    if op.AppendOp? {
      assert (blocks + [op.block])[..|blocks|] == blocks;
    }
  }

  // `whole` holds `block` somewhere after all of `base`.
  ghost predicate Holds(whole: string, base: string, block: string) {
    exists before, after :: base <= before && whole == before + block + after
  }

  /** Joining keeps every block: each stands in the content, after everything joined before it. */
  lemma {:induction false} JoinAllKeepsBlocks(content: string, blocks: seq<string>, i: nat)
    requires i < |blocks|
    ensures Holds(JoinAll(content, blocks), JoinAll(content, blocks[..i]), blocks[i])
    decreases |blocks|
  {
    hide Join, Holds;
    var front := blocks[..|blocks| - 1];
    JoinExtends(JoinAll(content, front), blocks[|blocks| - 1]);
    if i < |front| {
      JoinAllKeepsBlocks(content, front, i);
      assert front[..i] == blocks[..i];
      HoldsLonger(JoinAll(content, front), JoinAll(content, blocks), JoinAll(content, blocks[..i]), blocks[i]);
    } else {
      assert blocks[..i] == front;
    }
  }

  lemma HoldsLonger(whole: string, longer: string, base: string, block: string)
    requires Holds(whole, base, block) && whole <= longer
    ensures Holds(longer, base, block)
  {
    var before, after :| base <= before && whole == before + block + after;
    var rest := longer[|whole|..];
    assert longer == before + block + (after + rest);
  }

  lemma JoinExtends(content: string, block: string)
    ensures content <= Join(content, block)
    ensures Holds(Join(content, block), content, block)
  {
    var before := if content != "" && content[|content| - 1] != '\n' then content + "\n" else content;
    assert content <= before && Join(content, block) == before + block + "";
  }
}
