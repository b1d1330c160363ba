/**
 `internal/ipc/ipc.go`: messages wait in an inbox until they are acknowledged. Messages are kept in
 the order they were created.
 */
module Inbox {
  import opened Options

  datatype Status = Queued | Delivered | Acked

  datatype Addr = Addr(agent: string, container: string, human: bool)

  datatype Message = Message(id: string, sender: string, recipient: Addr, kind: string, high: bool, content: string,
    status: Status)

  // ---- specification ----

  /** Any of the parts an address names is enough. */
  predicate IsFor(m: Message, addr: Addr) {
    || (addr.agent != "" && m.recipient.agent == addr.agent)
    || (addr.container != "" && m.recipient.container == addr.container)
    || (addr.human && m.recipient.human)
  }

  function Waiting(ms: seq<Message>, addr: Addr, high: bool): seq<Message> {
    if ms == [] then []
    else (if IsFor(ms[0], addr) && ms[0].status != Acked && ms[0].high == high then [ms[0]] else [])
         + Waiting(ms[1..], addr, high)
  }

  /** What is outstanding: high priority first, then by age. */
  function Queue(ms: seq<Message>, addr: Addr): seq<Message> {
    Waiting(ms, addr, true) + Waiting(ms, addr, false)
  }

  function Take(q: seq<Message>, limit: nat): seq<Message> {
    if |q| <= limit then q else q[..limit]
  }

  function Ids(ms: seq<Message>): set<string> {
    set i | 0 <= i < |ms| :: ms[i].id
  }

  ghost function Hand(m: Message): Message {
    if m.status == Queued then m.(status := Delivered) else m
  }

  ghost function Handed(ms: seq<Message>, ids: set<string>): seq<Message> {
    seq(|ms|, i requires 0 <= i < |ms| => if ms[i].id in ids then Hand(ms[i]) else ms[i])
  }

  ghost function Acknowledged(ms: seq<Message>, ids: set<string>): seq<Message> {
    seq(|ms|, i requires 0 <= i < |ms| => if ms[i].id in ids then ms[i].(status := Acked) else ms[i])
  }

  ghost predicate Distinct(ms: seq<Message>) {
    forall i, j :: 0 <= i < j < |ms| ==> ms[i].id != ms[j].id
  }

  /** Reading an inbox: what it hands over and what becomes of the messages. */
  ghost function Read(ms: seq<Message>, addr: Addr, limit: nat): seq<Message> {
    Handed(ms, Ids(Take(Queue(ms, addr), limit)))
  }

  // ---- every run ----

  datatype Op =
    | SendOp(m: Message)
    | InboxOp(addr: Addr, limit: nat)
    | AckOp(ids: set<string>)

  ghost function Step(ms: seq<Message>, op: Op): seq<Message> {
    match op
    case SendOp(m) => if m.id in Ids(ms) then ms else ms + [m.(status := Queued)]
    case InboxOp(addr, limit) => Read(ms, addr, limit)
    case AckOp(ids) => Acknowledged(ms, ids)
  }

  ghost function Run(ms: seq<Message>, ops: seq<Op>): seq<Message>
    decreases |ops|
  {
    if ops == [] then ms else Run(Step(ms, ops[0]), ops[1..])
  }

  function Rank(s: Status): nat {
    match s case Queued => 0 case Delivered => 1 case Acked => 2
  }

  /** No message is lost or altered, and its status only moves forward. */
  ghost predicate Onward(ms: seq<Message>, later: seq<Message>) {
    && |ms| <= |later|
    && (forall i :: 0 <= i < |ms| ==> later[i].(status := ms[i].status) == ms[i])
    && (forall i :: 0 <= i < |ms| ==> Rank(ms[i].status) <= Rank(later[i].status))
  }

  lemma {:induction false} StatusMovesForward(ms: seq<Message>, ops: seq<Op>)
    requires Distinct(ms)
    ensures Onward(ms, Run(ms, ops)) && Distinct(Run(ms, ops))
    decreases |ops|
  {
    if ops != [] {
      StepMovesForward(ms, ops[0]);
      StatusMovesForward(Step(ms, ops[0]), ops[1..]);
      OnwardTwice(ms, Step(ms, ops[0]), Run(ms, ops));
    }
  }

  lemma StepMovesForward(ms: seq<Message>, op: Op)
    requires Distinct(ms)
    ensures Onward(ms, Step(ms, op)) && Distinct(Step(ms, op))
  {
  }

  lemma OnwardTwice(a: seq<Message>, b: seq<Message>, c: seq<Message>)
    requires Onward(a, b) && Onward(b, c)
    ensures Onward(a, c)
  {
  }

  // ---- draining ----

  /** Reading up to `limit` messages and acknowledging them. */
  ghost function Round(ms: seq<Message>, addr: Addr, limit: nat): seq<Message> {
    Acknowledged(Read(ms, addr, limit), Ids(Take(Queue(ms, addr), limit)))
  }

  ghost function Rounds(ms: seq<Message>, addr: Addr, limit: nat, k: nat): seq<Message>
    decreases k
  {
    if k == 0 then ms else Rounds(Round(ms, addr, limit), addr, limit, k - 1)
  }

  /** Everything handed over in `k` rounds, in order. */
  ghost function HandedOver(ms: seq<Message>, addr: Addr, limit: nat, k: nat): seq<Message>
    decreases k
  {
    if k == 0 then []
    else Take(Queue(ms, addr), limit) + HandedOver(Round(ms, addr, limit), addr, limit, k - 1)
  }

  lemma {:induction false} WaitingAfter(ms: seq<Message>, after: seq<Message>, ids: set<string>, addr: Addr, high: bool)
    requires |after| == |ms|
    requires forall i :: 0 <= i < |ms| ==> after[i] == if ms[i].id in ids then ms[i].(status := Acked) else ms[i]
    ensures Waiting(after, addr, high) == Without(Waiting(ms, addr, high), ids)
  {
    if ms != [] {
      WaitingAfter(ms[1..], after[1..], ids, addr, high);
      WithoutAppend(if IsFor(ms[0], addr) && ms[0].status != Acked && ms[0].high == high then [ms[0]] else [],
                    Waiting(ms[1..], addr, high), ids);
    }
  }

  ghost function Without(ms: seq<Message>, ids: set<string>): seq<Message> {
    if ms == [] then [] else (if ms[0].id in ids then [] else [ms[0]]) + Without(ms[1..], ids)
  }

  lemma {:induction false} WithoutAppend(a: seq<Message>, b: seq<Message>, ids: set<string>)
    ensures Without(a + b, ids) == Without(a, ids) + Without(b, ids)
  {
    if a == [] {
      assert a + b == b;
    } else {
      assert (a + b)[1..] == a[1..] + b;
      WithoutAppend(a[1..], b, ids);
    }
  }

  lemma {:induction false} WithoutAll(ms: seq<Message>, ids: set<string>)
    ensures (forall i :: 0 <= i < |ms| ==> ms[i].id in ids) ==> Without(ms, ids) == []
    ensures (forall i :: 0 <= i < |ms| ==> ms[i].id !in ids) ==> Without(ms, ids) == ms
  {
    if ms != [] {
      WithoutAll(ms[1..], ids);
    }
  }

  lemma {:induction false} WaitingIsAmong(ms: seq<Message>, addr: Addr, high: bool)
    requires Distinct(ms)
    ensures var w := Waiting(ms, addr, high);
            && (forall m :: m in w <==> m in ms && IsFor(m, addr) && m.status != Acked && m.high == high)
            && Distinct(w)
  {
    if ms != [] {
      WaitingIsAmong(ms[1..], addr, high);
      assert forall m :: m in ms <==> m == ms[0] || m in ms[1..];
      assert forall i :: 0 <= i < |ms[1..]| ==> ms[1..][i].id != ms[0].id;
      var rest := Waiting(ms[1..], addr, high);
      assert forall i :: 0 <= i < |rest| ==> rest[i] in rest;
    }
  }

  lemma QueueIsDistinct(ms: seq<Message>, addr: Addr)
    requires Distinct(ms)
    ensures Distinct(Queue(ms, addr))
    ensures forall m :: m in Queue(ms, addr) <==> m in ms && IsFor(m, addr) && m.status != Acked
  {
    WaitingIsAmong(ms, addr, true);
    WaitingIsAmong(ms, addr, false);
    var a, b := Waiting(ms, addr, true), Waiting(ms, addr, false);
    forall i, j | 0 <= i < |a| && 0 <= j < |b| ensures a[i].id != b[j].id {
      assert a[i] in a && b[j] in b;
    }
  }

  lemma RoundTakesTheFirst(ms: seq<Message>, addr: Addr, limit: nat)
    requires Distinct(ms)
    ensures Distinct(Round(ms, addr, limit))
    ensures Queue(Round(ms, addr, limit), addr) == Queue(ms, addr)[|Take(Queue(ms, addr), limit)|..]
  {
    hide Waiting, Without;
    var q := Queue(ms, addr);
    var taken := Take(q, limit);
    var rest := q[|taken|..];
    var ids := Ids(taken);
    var after := Round(ms, addr, limit);
    QueueIsDistinct(ms, addr);
    WaitingAfter(ms, after, ids, addr, true);
    WaitingAfter(ms, after, ids, addr, false);
    WithoutAppend(Waiting(ms, addr, true), Waiting(ms, addr, false), ids);
    assert q == taken + rest;
    WithoutFront(taken, rest);
  }

  lemma WithoutFront(front: seq<Message>, rest: seq<Message>)
    requires Distinct(front + rest)
    ensures Without(front + rest, Ids(front)) == rest
  {
    hide Without, Distinct, Ids;
    RestIsApart(front, rest);
    WithoutAppend(front, rest, Ids(front));
    WithoutAll(front, Ids(front));
    WithoutAll(rest, Ids(front));
  }

  lemma RestIsApart(front: seq<Message>, rest: seq<Message>)
    requires Distinct(front + rest)
    ensures forall i :: 0 <= i < |front| ==> front[i].id in Ids(front)
    ensures forall i :: 0 <= i < |rest| ==> rest[i].id !in Ids(front)
  {
    var all := front + rest;
    forall i, k | 0 <= i < |rest| && 0 <= k < |front| ensures front[k].id != rest[i].id {
      assert all[k].id != all[|front| + i].id;
    }
  }

  lemma {:induction false} RoundsInOrder(ms: seq<Message>, addr: Addr, limit: nat, k: nat)
    requires Distinct(ms)
    ensures HandedOver(ms, addr, limit, k) == Take(Queue(ms, addr), k * limit)
    ensures Queue(Rounds(ms, addr, limit, k), addr) == Queue(ms, addr)[|Take(Queue(ms, addr), k * limit)|..]
    decreases k
  {
    hide Queue, Round, Distinct;
    var q := Queue(ms, addr);
    if k > 0 {
      RoundTakesTheFirst(ms, addr, limit);
      RoundsInOrder(Round(ms, addr, limit), addr, limit, k - 1);
      assert k * limit == limit + (k - 1) * limit;
      var first := Take(q, limit);
      var rest := q[|first|..];
      assert q == first + rest;
      assert Take(q, k * limit) == first + Take(rest, (k - 1) * limit);
    }
  }

  /**
   With no new sends, reading and acknowledging `limit` at a time drains the inbox in exactly as many
   rounds as it takes: after `k` rounds it is empty if and only if `k * limit` reaches the number
   outstanding. By then every outstanding message has been handed over, once, high priority first
   and older before newer.
   */
  lemma DrainsExactly(ms: seq<Message>, addr: Addr, limit: nat, k: nat)
    requires Distinct(ms)
    ensures var q := Queue(ms, addr);
            && (Queue(Rounds(ms, addr, limit, k), addr) == [] <==> k * limit >= |q|)
            && (k * limit >= |q| ==> HandedOver(ms, addr, limit, k) == q)
            && Distinct(q)
            && (forall m :: m in q <==> m in ms && IsFor(m, addr) && m.status != Acked)
            && (forall i, j :: 0 <= i < j < |q| ==> (q[j].high ==> q[i].high))
  {
    hide Waiting;
    RoundsInOrder(ms, addr, limit, k);
    QueueIsDistinct(ms, addr);
    WaitingIsAmong(ms, addr, true);
    WaitingIsAmong(ms, addr, false);
    var a, b := Waiting(ms, addr, true), Waiting(ms, addr, false);
    assert forall i :: 0 <= i < |a| ==> a[i] in a;
    assert forall i :: 0 <= i < |b| ==> b[i] in b;
  }

  lemma {:induction false} WaitingWhenHanded(ms: seq<Message>, after: seq<Message>, ids: set<string>, addr: Addr,
    high: bool)
    requires |after| == |ms|
    requires forall i :: 0 <= i < |ms| ==> after[i] == if ms[i].id in ids then Hand(ms[i]) else ms[i]
    ensures var w, w' := Waiting(ms, addr, high), Waiting(after, addr, high);
            |w'| == |w| && forall i :: 0 <= i < |w| ==> w'[i] == if w[i].id in ids then Hand(w[i]) else w[i]
  {
    if ms != [] {
      WaitingWhenHanded(ms[1..], after[1..], ids, addr, high);
    }
  }

  /**
   Reading does not consume: read again at once, an inbox hands over the same messages in the same
   order, now marked delivered.
   */
  lemma RereadHandsOverTheSame(ms: seq<Message>, addr: Addr, limit: nat, i: nat)
    requires Distinct(ms) && i < |Take(Queue(ms, addr), limit)|
    ensures var again := Take(Queue(Read(ms, addr, limit), addr), limit);
            && |again| == |Take(Queue(ms, addr), limit)|
            && again[i] == Take(Queue(ms, addr), limit)[i].(status := Delivered)
  {
    hide Waiting;
    var q := Queue(ms, addr);
    var ids := Ids(Take(q, limit));
    var after := Read(ms, addr, limit);
    WaitingWhenHanded(ms, after, ids, addr, true);
    WaitingWhenHanded(ms, after, ids, addr, false);
    QueueIsDistinct(ms, addr);
    assert q[i] in q;
    assert Take(q, limit)[i].id in ids;
  }

  // ---- at least once ----

  /** Some acknowledgement of the run names this id. */
  ghost predicate Names(ops: seq<Op>, id: string) {
    exists k :: 0 <= k < |ops| && ops[k].AckOp? && id in ops[k].ids
  }

  /** Only an acknowledgement that names a message acknowledges it, and one that does always counts. */
  lemma {:induction false} AckedIff(ms: seq<Message>, ops: seq<Op>, i: nat)
    requires Distinct(ms) && i < |ms|
    ensures i < |Run(ms, ops)|
    ensures Run(ms, ops)[i] == ms[i].(status := Run(ms, ops)[i].status)
    ensures Run(ms, ops)[i].status == Acked <==> ms[i].status == Acked || Names(ops, ms[i].id)
    decreases |ops|
  {
    hide Step;
    if ops != [] {
      StepMovesForward(ms, ops[0]);
      AckedByStepIff(ms, ops[0], i);
      AckedIff(Step(ms, ops[0]), ops[1..], i);
      NamesFirst(ops, ms[i].id);
    }
  }

  lemma AckedByStepIff(ms: seq<Message>, op: Op, i: nat)
    requires Distinct(ms) && i < |ms|
    ensures i < |Step(ms, op)| && Step(ms, op)[i] == ms[i].(status := Step(ms, op)[i].status)
    ensures Step(ms, op)[i].status == Acked <==> ms[i].status == Acked || (op.AckOp? && ms[i].id in op.ids)
  {
  }

  lemma NamesFirst(ops: seq<Op>, id: string)
    requires ops != []
    ensures Names(ops, id) <==> (ops[0].AckOp? && id in ops[0].ids) || Names(ops[1..], id)
  {
    assert forall k :: 0 < k < |ops| ==> ops[k] == ops[1..][k - 1];
  }

  /** How many outstanding messages stand before message `i`: high ones first, then older ones of its priority. */
  function Ahead(ms: seq<Message>, addr: Addr, i: nat): nat
    requires i < |ms|
  {
    (if ms[i].high then 0 else |Waiting(ms, addr, true)|) + |Waiting(ms[..i], addr, ms[i].high)|
  }

  lemma {:induction false} WaitingAt(ms: seq<Message>, addr: Addr, i: nat)
    requires i < |ms| && IsFor(ms[i], addr) && ms[i].status != Acked
    ensures |Waiting(ms[..i], addr, ms[i].high)| < |Waiting(ms, addr, ms[i].high)|
    ensures Waiting(ms, addr, ms[i].high)[|Waiting(ms[..i], addr, ms[i].high)|] == ms[i]
  {
    if i > 0 {
      WaitingAt(ms[1..], addr, i - 1);
      assert ms[..i][1..] == ms[1..][..i - 1];
    }
  }

  lemma QueueAt(ms: seq<Message>, addr: Addr, i: nat)
    requires i < |ms| && IsFor(ms[i], addr) && ms[i].status != Acked
    ensures Ahead(ms, addr, i) < |Queue(ms, addr)| && Queue(ms, addr)[Ahead(ms, addr, i)] == ms[i]
  {
    hide Waiting;
    WaitingAt(ms, addr, i);
  }

  /**
   At least once. Whatever is sent, read and acknowledged in between, a message that was outstanding is
   still in the queue of everybody it is for, if and only if no acknowledgement named it. The next read
   of such a queue hands it over if and only if fewer than `limit` messages stand before it.
   */
  lemma UnackedComesBack(ms: seq<Message>, ops: seq<Op>, i: nat, addr: Addr, limit: nat)
    requires Distinct(ms) && i < |ms| && ms[i].status != Acked && IsFor(ms[i], addr)
    ensures var later := Run(ms, ops);
            && i < |later|
            && (later[i] in Queue(later, addr) <==> !Names(ops, ms[i].id))
            && (!Names(ops, ms[i].id) ==>
                  (later[i] in Take(Queue(later, addr), limit) <==> Ahead(later, addr, i) < limit))
  {
    hide Run, Queue, Ahead, Waiting;
    StatusMovesForward(ms, ops);
    AckedIff(ms, ops, i);
    var later := Run(ms, ops);
    QueueIsDistinct(later, addr);
    if !Names(ops, ms[i].id) {
      QueueAt(later, addr, i);
      TakenIff(Queue(later, addr), limit, Ahead(later, addr, i));
    }
  }

  lemma TakenIff(q: seq<Message>, limit: nat, k: nat)
    requires Distinct(q) && k < |q|
    ensures q[k] in Take(q, limit) <==> k < limit
  {
    if k < limit {
      assert Take(q, limit)[k] == q[k];
    }
  }

  // ---- in whose turn ----

  /** Not yet acknowledged, and addressed to this agent, this container, or a human if a human asks. */
  ghost predicate Awaits(m: Message, addr: Addr) {
    && m.status != Acked
    && (|| (addr.agent != "" && m.recipient.agent == addr.agent)
        || (addr.container != "" && m.recipient.container == addr.container)
        || (addr.human && m.recipient.human))
  }

  /** Message `k` comes before message `l`: by priority, then by age. */
  ghost predicate Sooner(ms: seq<Message>, k: nat, l: nat)
    requires k < |ms| && l < |ms|
  {
    (ms[k].high && !ms[l].high) || (ms[k].high == ms[l].high && k < l)
  }

  lemma SoonerIsAhead(ms: seq<Message>, addr: Addr, k: nat, l: nat)
    requires k < |ms| && l < |ms| && Awaits(ms[k], addr) && Awaits(ms[l], addr) && Sooner(ms, k, l)
    ensures Ahead(ms, addr, k) < Ahead(ms, addr, l)
  {
    hide Waiting;
    WaitingAt(ms, addr, k);
    if ms[k].high == ms[l].high {
      assert ms[..l][..k] == ms[..k];
      WaitingAt(ms[..l], addr, k);
    }
  }

  // Where an awaited message stands in the queue, and that it is taken exactly if it stands early enough.
  lemma StandsAt(ms: seq<Message>, addr: Addr, limit: nat, k: nat)
    requires Distinct(ms) && k < |ms| && Awaits(ms[k], addr)
    ensures Ahead(ms, addr, k) < |Queue(ms, addr)| && Queue(ms, addr)[Ahead(ms, addr, k)] == ms[k]
    ensures ms[k] in Take(Queue(ms, addr), limit) <==> Ahead(ms, addr, k) < limit
    ensures forall i :: 0 <= i < |Queue(ms, addr)| && Queue(ms, addr)[i] == ms[k] ==> i == Ahead(ms, addr, k)
  {
    hide Queue, Ahead;
    QueueAt(ms, addr, k);
    QueueIsDistinct(ms, addr);
    TakenIff(Queue(ms, addr), limit, Ahead(ms, addr, k));
  }

  /**
   A read hands over only what awaits this recipient, at most `limit` of it and all of it if it is less;
   nothing is passed over for something that comes later; and in the order of priority, then age.
   */
  lemma HandsOverInTurn(ms: seq<Message>, addr: Addr, limit: nat)
    requires Distinct(ms)
    ensures var taken := Take(Queue(ms, addr), limit);
            && |taken| <= limit && (forall m :: m in taken ==> m in ms && Awaits(m, addr))
            && (|taken| < limit ==> forall k :: 0 <= k < |ms| && Awaits(ms[k], addr) ==> ms[k] in taken)
            && (forall k: nat, l: nat | k < |ms| && l < |ms| && Awaits(ms[k], addr) && Sooner(ms, k, l) ::
                  ms[l] in taken ==> ms[k] in taken)
            && (forall i, j, k: nat, l: nat | 0 <= i < j < |taken| && k < |ms| && l < |ms| ::
                  taken[i] == ms[k] && taken[j] == ms[l] ==> Sooner(ms, k, l))
  {
    hide Queue, Ahead, Awaits, Sooner;
    var q := Queue(ms, addr);
    var taken := Take(q, limit);
    AwaitedIsQueued(ms, addr);
    assert forall i :: 0 <= i < |taken| ==> taken[i] == q[i] && q[i] in q;
    forall k | 0 <= k < |ms| && Awaits(ms[k], addr) ensures ms[k] in taken <==> Ahead(ms, addr, k) < limit {
      StandsAt(ms, addr, limit, k);
    }
    forall k | 0 <= k < |ms| && Awaits(ms[k], addr) ensures Ahead(ms, addr, k) < |q| {
      StandsAt(ms, addr, limit, k);
    }
    forall k: nat, l: nat | k < |ms| && l < |ms| && Awaits(ms[k], addr) && Sooner(ms, k, l) && ms[l] in taken
      ensures ms[k] in taken
    {
      SoonerIsAhead(ms, addr, k, l);
    }
    forall i, j, k: nat, l: nat | 0 <= i < j < |taken| && k < |ms| && l < |ms| && taken[i] == ms[k] && taken[j] == ms[l]
      ensures Sooner(ms, k, l)
    {
      StandsAt(ms, addr, limit, k);
      StandsAt(ms, addr, limit, l);
      OneIsSooner(ms, k, l);
      if Sooner(ms, l, k) {
        SoonerIsAhead(ms, addr, l, k);
      }
    }
  }

  lemma AwaitedIsQueued(ms: seq<Message>, addr: Addr)
    requires Distinct(ms)
    ensures forall m :: m in Queue(ms, addr) <==> m in ms && Awaits(m, addr)
  {
    QueueIsDistinct(ms, addr);
  }

  lemma OneIsSooner(ms: seq<Message>, k: nat, l: nat)
    requires k < |ms| && l < |ms|
    ensures k == l || Sooner(ms, k, l) || Sooner(ms, l, k)
  {
  }

  // ---- the message bus ----

  const KINDS := {"REQUEST", "RESPONSE", "INFORMATION", "WARNING", "BLOCKED", "APPROVAL_REQUIRED",
                  "ARTIFACT", "DEPENDENCY", "CONFLICT"}

  datatype Sent = Accepted(message: Message) | NotAType | NoContent | NoRecipient | NotAPriority

  // Unicode's white space, which is what `strings.TrimSpace` trims.
  predicate IsSpace(c: char) {
    var code := c as int;
    || 0x09 <= code <= 0x0D || code in {0x20, 0x85, 0xA0, 0x1680}
    || 0x2000 <= code <= 0x200A || code in {0x2028, 0x2029, 0x202F, 0x205F, 0x3000}
  }

  function TrimSpace(s: string): (t: string)
    ensures t != "" ==> !IsSpace(t[0]) && !IsSpace(t[|t| - 1])
    ensures t == "" <==> IsBlank(s)
  {
    if s == "" then ""
    else if IsSpace(s[0]) then TrimSpace(s[1..])
    else if IsSpace(s[|s| - 1]) then TrimSpace(s[..|s| - 1])
    else s
  }

  predicate IsBlank(content: string) {
    forall c :: c in content ==> IsSpace(c)
  }

  /** The newest `limit` of an agent's conversation, oldest first. */
  ghost function Recent(ms: seq<Message>, agent: string, limit: nat): seq<Message> {
    var all := Conversation(ms, agent);
    if |all| <= limit then all else all[|all| - limit..]
  }

  function Conversation(ms: seq<Message>, agent: string): seq<Message> {
    if ms == [] then []
    else (if ms[0].sender == agent || ms[0].recipient.agent
      == agent then [ms[0]] else []) + Conversation(ms[1..], agent)
  }

  // One message was written before another.
  ghost predicate Earlier(ms: seq<Message>, a: Message, b: Message) {
    exists k, l :: 0 <= k < l < |ms| && ms[k] == a && ms[l] == b
  }

  lemma NotBothEarlier(ms: seq<Message>, a: Message, b: Message)
    requires Distinct(ms)
    ensures !(Earlier(ms, a, b) && Earlier(ms, b, a)) && !Earlier(ms, a, a)
  {
  }

  lemma EarlierInRest(ms: seq<Message>, a: Message, b: Message)
    requires ms != []
    ensures Earlier(ms[1..], a, b) ==> Earlier(ms, a, b)
    ensures b in ms[1..] ==> Earlier(ms, ms[0], b)
  {
    assert forall k :: 0 < k < |ms| ==> ms[k] == ms[1..][k - 1];
    assert forall k :: 0 <= k < |ms| - 1 ==> ms[1..][k] == ms[k + 1];
  }

  lemma {:induction false} ConversationInOrder(ms: seq<Message>, agent: string)
    ensures var c := Conversation(ms, agent);
            && (forall m :: m in c <==> m in ms && (m.sender == agent || m.recipient.agent == agent))
            && (forall i, j :: 0 <= i < j < |c| ==> Earlier(ms, c[i], c[j]))
  {
    hide Earlier;
    if ms != [] {
      var rest := ms[1..];
      ConversationInOrder(rest, agent);
      assert forall m :: m in ms <==> m == ms[0] || m in rest;
      var c, tail := Conversation(ms, agent), Conversation(rest, agent);
      forall i, j | 0 <= i < j < |c| ensures Earlier(ms, c[i], c[j]) {
        var d := |c| - |tail|;
        EarlierInRest(ms, c[i], c[j]);
        assert c[j] == tail[j - d] && tail[j - d] in tail;
        if i >= d {
          assert c[i] == tail[i - d];
        }
      }
    }
  }

  /** A transcript is the newest part of what the agent sent and was sent, in the order it was written. */
  lemma RecentInFull(ms: seq<Message>, agent: string, limit: nat)
    requires Distinct(ms)
    ensures var r := Recent(ms, agent, limit);
            && |r| <= limit
            && (forall m :: m in r ==> m in ms && (m.sender == agent || m.recipient.agent == agent))
            && (|r| < limit ==> forall m :: m in ms && (m.sender == agent || m.recipient.agent == agent) ==> m in r)
            && (forall a, b | a in r && Earlier(ms, a, b) && (b.sender == agent || b.recipient.agent == agent) ::
                  b in r)
            && (forall i, j :: 0 <= i < j < |r| ==> Earlier(ms, r[i], r[j]))
  {
    hide Conversation, Earlier, Distinct;
    ConversationInOrder(ms, agent);
    var c, r := Conversation(ms, agent), Recent(ms, agent, limit);
    var d := |c| - |r|;
    assert r == c[d..];
    forall a, b | a in r && Earlier(ms, a, b) && (b.sender == agent || b.recipient.agent == agent) ensures b in r {
      NotBothEarlier(ms, a, b);
      EarlierIsThere(ms, a, b);
      LaterIsInSuffix(ms, c, d, a, b);
    }
    forall i, j | 0 <= i < j < |r| ensures Earlier(ms, r[i], r[j]) {
      assert r[i] == c[d + i] && r[j] == c[d + j];
    }
  }

  lemma EarlierIsThere(ms: seq<Message>, a: Message, b: Message)
    requires Earlier(ms, a, b)
    ensures a in ms && b in ms
  {
  }

  lemma LaterIsInSuffix(ms: seq<Message>, c: seq<Message>, d: nat, a: Message, b: Message)
    requires d <= |c| && forall i, j :: 0 <= i < j < |c| ==> Earlier(ms, c[i], c[j])
    requires a in c[d..] && b in c && a != b && !Earlier(ms, b, a)
    ensures b in c[d..]
  {
    hide Earlier;
    var p :| 0 <= p < |c[d..]| && c[d..][p] == a;
    var q :| 0 <= q < |c| && c[q] == b;
    assert c[d + p] == a;
    if q >= d {
      assert c[d..][q - d] == b;
    }
  }

  class MessageBus {
    var messages: seq<Message>

    /** Approval requests and blocked reports go to a human too, whoever they were addressed to. */
    method Send(id: string, sender: string, addr: Addr, kind: string, priority: string,
      content: string) returns (r: Sent)
      requires id !in Ids(messages)
      modifies this
      ensures r.Accepted? <==>
        && kind in {"REQUEST", "RESPONSE", "INFORMATION", "WARNING", "BLOCKED", "APPROVAL_REQUIRED", "ARTIFACT",
                    "DEPENDENCY", "CONFLICT"}
        && !IsBlank(content) && (addr.agent != "" || addr.container != "" || addr.human)
        && priority in {"", "normal", "high"}
      ensures messages == if r.Accepted? then old(messages) + [r.message] else old(messages)
      ensures r.Accepted? ==>
        && r.message == Message(id, sender, r.message.recipient, kind, priority == "high", content, Queued)
        && r.message.recipient == addr.(human := addr.human || kind in {"APPROVAL_REQUIRED", "BLOCKED"})
        && IsFor(r.message, addr)
        && (kind in {"APPROVAL_REQUIRED", "BLOCKED"} ==> IsFor(r.message, Addr("", "", true)))
    {
      if kind !in KINDS { return NotAType; }
      if TrimSpace(content) == "" { return NoContent; }
      if addr.agent == "" && addr.container == "" && !addr.human { return NoRecipient; }
      var routed := addr;
      if kind == "APPROVAL_REQUIRED" { routed := routed.(human := true); }
      if kind == "BLOCKED" { routed := routed.(human := true); }
      if priority != "" && priority != "normal" && priority != "high" { return NotAPriority; }
      var m := Message(id, sender, routed, kind, priority == "high", content, Queued);
      messages := messages + [m];
      return Accepted(m);
    }

    /** The update of one row; `changed` is whether it applied. */
    method SetStatus(id: string, unless: set<Status>, status: Status) returns (changed: bool)
      requires Distinct(messages)
      modifies this
      ensures |messages| == |old(messages)| && Distinct(messages)
      ensures forall i :: 0 <= i < |messages| ==>
        messages[i] == if old(messages)[i].id == id && old(messages)[i].status !in unless
                       then old(messages)[i].(status := status) else old(messages)[i]
      ensures changed <==>
        exists i :: 0 <= i < |old(messages)| && old(messages)[i].id == id && old(messages)[i].status !in unless
    {
      for i := 0 to |messages|
        invariant messages == old(messages)
        invariant forall j :: 0 <= j < i ==> messages[j].id != id
      {
        if messages[i].id == id {
          if messages[i].status in unless { return false; }
          messages := messages[i := messages[i].(status := status)];
          return true;
        }
      }
      return false;
    }

    /** An inbox without a recipient is refused. What is handed over is marked delivered. */
    method Inbox(addr: Addr, limit: int) returns (ok: bool, out: seq<Message>)
      requires Distinct(messages)
      modifies this
      ensures ok <==> addr.agent != "" || addr.container != "" || addr.human
      ensures !ok ==> messages == old(messages) && out == []
      ensures ok ==>
        var n := if limit <= 0 then 20 else limit;
        var taken := Take(Queue(old(messages), addr), n);
        && messages == Read(old(messages), addr, n)
        && |out| == |taken| && forall i :: 0 <= i < |out| ==> out[i] == Hand(taken[i])
      // Whatever is handed over names the agent, the container or the human who asks, and counts as delivered.
      ensures |out| <= if limit <= 0 then 20 else limit
      ensures forall m :: m in out ==>
        && m.status == Delivered
        && (|| (addr.agent != "" && m.recipient.agent == addr.agent)
            || (addr.container != "" && m.recipient.container == addr.container)
            || (addr.human && m.recipient.human))
      ensures ok && |out| < (if limit <= 0 then 20 else limit) ==>
        forall k :: 0 <= k < |old(messages)| && Awaits(old(messages)[k], addr) ==>
          old(messages)[k].(status := Delivered) in out
      ensures |messages| == |old(messages)|
      ensures forall k :: 0 <= k < |messages| ==>
        messages[k] == if old(messages)[k].(status := Delivered) in out then old(messages)[k].(status := Delivered)
                       else old(messages)[k]
    {
      hide Queue;
      if addr.agent == "" && addr.container == "" && !addr.human { return false, []; }
      var n: nat := if limit <= 0 then 20 else limit;
      out := Take(Queue(messages, addr), n);
      ghost var taken := out;
      ghost var before := messages;
      for i := 0 to |out|
        invariant |out| == |taken| && |messages| == |before| && Distinct(messages)
        invariant forall j :: 0 <= j < |out| ==> out[j] == if j < i then Hand(taken[j]) else taken[j]
        invariant forall j :: 0 <= j < |messages| ==>
          messages[j] == if before[j].id in Ids(taken[..i]) then Hand(before[j]) else before[j]
      {
        assert Ids(taken[..i + 1]) == Ids(taken[..i]) + {taken[i].id} by { IdsGrow(taken, i); }
        QueueHolds(before, addr, n, i);
        if out[i].status == Queued {
          var _ := SetStatus(out[i].id, {Delivered, Acked}, Delivered);
          out := out[i := out[i].(status := Delivered)];
        }
      }
      assert taken[..|taken|] == taken;
      ok := true;
      HandedInFull(before, messages, taken, out, addr, n);
    }

    /** Counts the messages that were not acknowledged before. */
    method Ack(ids: seq<string>) returns (acked: nat)
      requires Distinct(messages)
      modifies this
      ensures messages == Acknowledged(old(messages), set k | 0 <= k < |ids| :: ids[k])
      ensures acked == Outstanding(old(messages)) - Outstanding(messages)
      ensures |messages| == |old(messages)|
      ensures forall k :: 0 <= k < |messages| ==>
        messages[k] == if old(messages)[k].id in ids then old(messages)[k].(status := Acked) else old(messages)[k]
    {
      acked := 0;
      ghost var before := messages;
      for k := 0 to |ids|
        invariant |messages| == |before| && Distinct(messages)
        invariant forall j :: 0 <= j < |messages| ==>
          messages[j] == if before[j].id in ids[..k] then before[j].(status := Acked) else before[j]
        invariant acked == Outstanding(before) - Outstanding(messages)
      {
        assert ids[..k + 1] == ids[..k] + [ids[k]];
        ghost var was := messages;
        var changed := SetStatus(ids[k], {Acked}, Acked);
        CountOne(was, messages, ids[k], changed);
        if changed {
          acked := acked + 1;
        }
      }
      assert ids[..|ids|] == ids;
      assert messages == Acknowledged(before, set k | 0 <= k < |ids| :: ids[k]);
    }

    /** Reads newest first up to the limit, then reverses in place. Delivers nothing. */
    method History(agent: string, limit: int) returns (ok: bool, out: array<Message>)
      ensures ok <==> agent != ""
      ensures ok ==> out[..] == Recent(messages, agent, if limit <= 0 || limit > 500 then 200 else limit)
    {
      if agent == "" {
        out := new Message[0];
        return false, out;
      }
      var n: nat := if limit <= 0 || limit > 500 then 200 else limit;
      var all := Conversation(messages, agent);
      var size := if |all| <= n then |all| else n;
      out := new Message[size](i requires 0 <= i < size <= |all| => all[|all| - 1 - i]);
      ReverseInPlace(out);
      assert out[..] == all[|all| - size..];
      ok := true;
    }
  }

  lemma HandedIsDelivered(ms: seq<Message>, taken: seq<Message>, out: seq<Message>, addr: Addr, k: nat)
    requires Distinct(ms) && k < |ms| && |out| == |taken|
    requires forall m :: m in taken ==> m in ms && Awaits(m, addr)
    requires forall i :: 0 <= i < |out| ==> out[i] == Hand(taken[i])
    ensures ms[k].id in Ids(taken) <==> ms[k].(status := Delivered) in out
    ensures ms[k].id in Ids(taken) ==> Hand(ms[k]) == ms[k].(status := Delivered)
    ensures ms[k] in taken ==> ms[k].id in Ids(taken)
  {
    if ms[k].id in Ids(taken) {
      var i :| 0 <= i < |taken| && taken[i].id == ms[k].id;
      assert taken[i] in taken;
      assert out[i] == ms[k].(status := Delivered);
    }
    if ms[k].(status := Delivered) in out {
      var i :| 0 <= i < |out| && out[i] == ms[k].(status := Delivered);
      assert taken[i] in taken;
    }
  }

  // What a read hands over and leaves, with nothing of how it was selected.
  lemma HandedInFull(before: seq<Message>, after: seq<Message>, taken: seq<Message>, out: seq<Message>,
                     addr: Addr, n: nat)
    requires Distinct(before) && taken == Take(Queue(before, addr), n)
    requires |out| == |taken| && forall i :: 0 <= i < |out| ==> out[i] == Hand(taken[i])
    requires |after| == |before|
    requires forall j :: 0 <= j < |after| ==>
               after[j] == if before[j].id in Ids(taken) then Hand(before[j]) else before[j]
    ensures forall m :: m in out ==> m.status == Delivered && Awaits(m, addr)
    ensures |out| <= n
    ensures |out| < n ==>
              forall k :: 0 <= k < |before| && Awaits(before[k], addr) ==> before[k].(status := Delivered) in out
    ensures forall k :: 0 <= k < |after| ==>
              after[k] == if before[k].(status := Delivered) in out then before[k].(status := Delivered) else before[k]
  {
    hide Ids, Queue, Distinct;
    HandsOverInTurn(before, addr, n);
    forall m | m in out ensures m.status == Delivered && Awaits(m, addr) {
      var i :| 0 <= i < |out| && out[i] == m;
      assert taken[i] in taken;
    }
    hide Awaits;
    forall k | 0 <= k < |before|
      ensures before[k].id in Ids(taken) <==> before[k].(status := Delivered) in out
      ensures before[k].id in Ids(taken) ==> Hand(before[k]) == before[k].(status := Delivered)
      ensures before[k] in taken ==> before[k].id in Ids(taken)
    {
      HandedIsDelivered(before, taken, out, addr, k);
    }
  }

  method ReverseInPlace(a: array<Message>)
    modifies a
    ensures forall k :: 0 <= k < a.Length ==> a[k] == old(a[a.Length - 1 - k])
  {
    var i, j := 0, a.Length - 1;
    while i < j
      invariant 0 <= i <= a.Length && i + j == a.Length - 1
      invariant forall k :: 0 <= k < a.Length ==>
        a[k] == if k < i || k > j then old(a[a.Length - 1 - k]) else old(a[k])
    {
      a[i], a[j] := a[j], a[i];
      i, j := i + 1, j - 1;
    }
  }

  ghost function Outstanding(ms: seq<Message>): nat {
    if ms == [] then 0 else (if ms[0].status == Acked then 0 else 1) + Outstanding(ms[1..])
  }

  lemma {:induction false} CountOne(ms: seq<Message>, after: seq<Message>, id: string, changed: bool)
    requires Distinct(ms) && |after| == |ms|
    requires forall i :: 0 <= i < |ms| ==>
               after[i] == if ms[i].id == id && ms[i].status != Acked then ms[i].(status := Acked) else ms[i]
    requires changed <==> exists i :: 0 <= i < |ms| && ms[i].id == id && ms[i].status != Acked
    ensures Outstanding(ms) == Outstanding(after) + if changed then 1 else 0
  {
    if ms != [] {
      var here := ms[0].id == id && ms[0].status != Acked;
      assert forall i :: 0 <= i < |ms[1..]| ==> ms[1..][i] == ms[i + 1];
      CountOne(ms[1..], after[1..], id, changed && !here);
    }
  }

  lemma IdsGrow(ms: seq<Message>, i: nat)
    requires i < |ms|
    ensures Ids(ms[..i + 1]) == Ids(ms[..i]) + {ms[i].id}
  {
    assert ms[..i + 1] == ms[..i] + [ms[i]];
    forall x | x in Ids(ms[..i]) ensures x in Ids(ms[..i + 1]) {
      var k :| 0 <= k < i && ms[..i][k].id == x;
      assert ms[..i + 1][k].id == x;
    }
    assert ms[..i + 1][i].id == ms[i].id;
  }

  // What is handed over is a message of its own.
  lemma QueueHolds(ms: seq<Message>, addr: Addr, limit: nat, i: nat)
    requires Distinct(ms) && i < |Take(Queue(ms, addr), limit)|
    ensures var m := Take(Queue(ms, addr), limit)[i];
            && m in ms
            && m.id !in Ids(Take(Queue(ms, addr), limit)[..i])
  {
    QueueIsDistinct(ms, addr);
    assert Queue(ms, addr)[i] in Queue(ms, addr);
  }
}
