/** The offline message queue: stable priority order, bounded retry chains and the delivery
    counters, under every interleaving of attempts, retries, removals and clears. */
module MessageQueue {
  datatype Priority = Low | Normal | High | Urgent {
    function RawValue(): nat {
      match this
      case Low => 0
      case Normal => 1
      case High => 2
      case Urgent => 3
    }
  }

  type Id = string

  datatype Message = Message(id: Id, recipientId: string, content: seq<int>, priority: Priority, retryCount: nat)

  type TaskId = nat

  /** A running attempt chain link: waiting for its retry delay, or inside attemptSendMessage.
      `chain` is the task that started the chain. */
  datatype Task = Task(message: Message, sleeping: bool, chain: TaskId)

  const MAX_RETRY_COUNT := 5

  /** The queue object; `live` holds the tasks that can still act. */
  datatype Queue = Queue(
    pending: seq<Message>,
    retryTasks: map<Id, TaskId>,
    live: map<TaskId, Task>,
    queued: nat,
    delivered: nat,
    failed: nat)

  const EMPTY := Queue([], map[], map[], 0, 0, 0)

  // ---------------------------------------------------------------- list operations

  function Ids(p: seq<Message>): set<Id> {
    set m | m in p :: m.id
  }

  /** The first position whose message has a lower priority. */
  function InsertIndex(p: seq<Message>, priority: Priority): (i: nat)
    ensures i <= |p|
  {
    if p == [] then 0
    else if priority.RawValue() > p[0].priority.RawValue() then 0
    else 1 + InsertIndex(p[1..], priority)
  }

  function Insert(p: seq<Message>, m: Message): seq<Message> {
    var i := InsertIndex(p, m.priority);
    p[..i] + [m] + p[i..]
  }

  /** removeAll { $0.id == id } */
  function Without(p: seq<Message>, id: Id): seq<Message> {
    if p == [] then []
    else if p[0].id == id then Without(p[1..], id)
    else [p[0]] + Without(p[1..], id)
  }

  /** The first position with the given id, or the length of the list. */
  function IndexOf(p: seq<Message>, id: Id): (i: nat)
    ensures i <= |p|
  {
    if p == [] || p[0].id == id then 0 else 1 + IndexOf(p[1..], id)
  }

  /** Replaces the first message with the same id, if there is one. */
  function Replace(p: seq<Message>, m: Message): seq<Message> {
    if IndexOf(p, m.id) < |p| then p[IndexOf(p, m.id) := m] else p
  }

  // ---------------------------------------------------------------- what each handler does

  /** Cancelling interrupts a sleeping task; one that is already attempting goes on. */
  function Cancel(live: map<TaskId, Task>, t: TaskId): map<TaskId, Task> {
    if t in live && live[t].sleeping then live - {t} else live
  }

  function CancelAll(live: map<TaskId, Task>, ts: set<TaskId>): map<TaskId, Task> {
    map t | t in live && !(t in ts && live[t].sleeping) :: live[t]
  }

  function Remove(q: Queue, id: Id): Queue {
    q.(pending := Without(q.pending, id),
       live := if id in q.retryTasks then Cancel(q.live, q.retryTasks[id]) else q.live,
       retryTasks := q.retryTasks - {id})
  }

  function Clear(q: Queue): Queue {
    q.(pending := [], live := CancelAll(q.live, q.retryTasks.Values), retryTasks := map[])
  }

  function Enqueue(q: Queue, m: Message, connected: bool, t: TaskId): Queue {
    q.(pending := Insert(q.pending, m),
       queued := q.queued + 1,
       live := if connected then q.live[t := Task(m, false, t)] else q.live)
  }

  /** Reconnecting starts one new attempt for every message of the list. */
  function StartAll(live: map<TaskId, Task>, p: seq<Message>, ts: seq<TaskId>): map<TaskId, Task>
    requires |ts| == |p|
  {
    if p == [] then live
    else StartAll(live, p[..|p| - 1], ts[..|p| - 1])[ts[|p| - 1] := Task(p[|p| - 1], false, ts[|p| - 1])]
  }

  function Succeed(q: Queue, t: TaskId): Queue
    requires t in q.live
  {
    Remove(q.(delivered := q.delivered + 1, live := q.live - {t}), q.live[t].message.id)
  }

  function Retried(m: Message): Message {
    m.(retryCount := m.retryCount + 1)
  }

  function Power2(e: nat): nat {
    if e == 0 then 1 else 2 * Power2(e - 1)
  }

  /** Seconds before attempt number count + 1 of a chain. */
  function RetryDelay(count: nat): nat
    requires 1 <= count
  {
    var delay := Power2(count - 1);
    if delay < 30 then delay else 30
  }

  function Fail(q: Queue, t: TaskId, retry: TaskId): Queue
    requires t in q.live
  {
    var Task(message, _, chain) := q.live[t];
    var m := Retried(message);
    var rest := q.(live := q.live - {t});
    if m.retryCount >= MAX_RETRY_COUNT then
      Remove(rest.(failed := q.failed + 1), m.id)
    else
      rest.(pending := Replace(q.pending, m),
            live := rest.live[retry := Task(m, true, chain)],
            retryTasks := q.retryTasks[m.id := retry])
  }

  function Wake(q: Queue, t: TaskId): Queue
    requires t in q.live
  {
    q.(live := q.live[t := q.live[t].(sleeping := false)])
  }

  // ---------------------------------------------------------------- the mutable object

  class PendingQueue {
    var pendingMessages: seq<Message>
    var retryTasks: map<Id, TaskId>
    var live: map<TaskId, Task>
    var totalMessagesQueued: nat
    var totalMessagesDelivered: nat
    var totalMessagesFailed: nat

    constructor ()
      ensures View() == EMPTY
    {
      pendingMessages, retryTasks, live := [], map[], map[];
      totalMessagesQueued, totalMessagesDelivered, totalMessagesFailed := 0, 0, 0;
    }

    ghost function View(): Queue
      reads this
    {
      Queue(pendingMessages, retryTasks, live, totalMessagesQueued, totalMessagesDelivered, totalMessagesFailed)
    }

    method QueueMessage(m: Message, connected: bool, t: TaskId)
      modifies this
      ensures View() == Enqueue(old(View()), m, connected, t)
    {
      var insertIndex := 0;
      while insertIndex < |pendingMessages|
            && !(m.priority.RawValue() > pendingMessages[insertIndex].priority.RawValue())
        invariant insertIndex <= |pendingMessages|
        invariant InsertIndex(pendingMessages, m.priority)
                  == insertIndex + InsertIndex(pendingMessages[insertIndex..], m.priority)
      {
        insertIndex := insertIndex + 1;
      }
      pendingMessages := pendingMessages[..insertIndex] + [m] + pendingMessages[insertIndex..];
      totalMessagesQueued := totalMessagesQueued + 1;
      if connected {
        live := live[t := Task(m, false, t)];
      }
    }

    method RemoveMessage(messageId: Id) returns (removed: bool)
      modifies this
      ensures View() == Remove(old(View()), messageId)
      ensures removed <==> |pendingMessages| < |old(pendingMessages)|
    {
      var initial := pendingMessages;
      var kept := [];
      for i := 0 to |initial|
        invariant Without(initial, messageId) == kept + Without(initial[i..], messageId)
      {
        if initial[i].id != messageId {
          kept := kept + [initial[i]];
        }
        assert initial[i..][1..] == initial[i + 1..];
      }
      assert kept + [] == kept;
      pendingMessages := kept;
      if messageId in retryTasks {
        live := Cancel(live, retryTasks[messageId]);
      }
      retryTasks := retryTasks - {messageId};
      removed := |pendingMessages| < |initial|;
    }

    method UpdateMessageInQueue(m: Message)
      modifies this`pendingMessages
      ensures pendingMessages == Replace(old(pendingMessages), m)
    {
      var index := 0;
      while index < |pendingMessages| && pendingMessages[index].id != m.id
        invariant index <= |pendingMessages|
        invariant IndexOf(pendingMessages, m.id) == index + IndexOf(pendingMessages[index..], m.id)
      {
        index := index + 1;
      }
      if index < |pendingMessages| {
        pendingMessages := pendingMessages[index := m];
      }
    }

    method HandleMessageSuccess(t: TaskId)
      requires t in live
      modifies this
      ensures View() == Succeed(old(View()), t)
    {
      var message := live[t].message;
      totalMessagesDelivered := totalMessagesDelivered + 1;
      live := live - {t};
      var _ := RemoveMessage(message.id);
    }

    method HandleMessageFailure(t: TaskId, retry: TaskId) returns (retryDelay: nat)
      requires t in live
      modifies this
      ensures View() == Fail(old(View()), t, retry)
      ensures
        var count := old(live[t]).message.retryCount;
        if count >= 4
        then totalMessagesFailed == old(totalMessagesFailed) + 1
        else totalMessagesFailed == old(totalMessagesFailed) && retryDelay == [1, 2, 4, 8][count]
    {
      var Task(message, _, chain) := live[t];
      var updatedMessage := Retried(message);
      live := live - {t};
      if updatedMessage.retryCount >= MAX_RETRY_COUNT {
        totalMessagesFailed := totalMessagesFailed + 1;
        var _ := RemoveMessage(message.id);
        return 0;
      }
      UpdateMessageInQueue(updatedMessage);
      retryDelay := RetryDelay(updatedMessage.retryCount);
      live := live[retry := Task(updatedMessage, true, chain)];
      retryTasks := retryTasks[updatedMessage.id := retry];
    }

    method ClearQueue()
      modifies this
      ensures View() == Clear(old(View()))
    {
      pendingMessages := [];
      live := CancelAll(live, retryTasks.Values);
      retryTasks := map[];
    }
  }

  // ---------------------------------------------------------------- runs

  /** An enqueued message as it was when it arrived, and how many arrived before it. */
  datatype Arrival = Arrival(message: Message, rank: nat)

  /** What a chain has done: the retry count it started from, its sends and its delays so far. */
  datatype ChainLog = ChainLog(start: nat, sends: nat, delays: seq<nat>)

  /** The queue with the history needed to state its laws. `removed` counts messages taken out by
      the caller; `late` counts attempts that ended after their message had left the list. */
  datatype World = World(
    q: Queue,
    arrivals: map<Id, Arrival>,
    used: set<TaskId>,
    chains: map<TaskId, ChainLog>,
    removed: nat,
    late: nat)

  const START := World(EMPTY, map[], {}, map[], 0, 0)

  datatype Event =
    | EvEnqueue(message: Message, connected: bool, task: TaskId)
    | EvProcess(tasks: seq<TaskId>)
    | EvSucceed(task: TaskId)
    | EvFail(task: TaskId, retry: TaskId)
    | EvWake(task: TaskId)
    | EvRemove(id: Id)
    | EvClear

  ghost predicate FreshTasks(used: set<TaskId>, ts: seq<TaskId>) {
    && (forall i :: 0 <= i < |ts| ==> ts[i] !in used)
    && (forall i, j :: 0 <= i < j < |ts| ==> ts[i] != ts[j])
  }

  /** New identifiers are new; tasks that act are live and in the right phase. */
  ghost predicate Enabled(w: World, e: Event) {
    match e
    case EvEnqueue(m, _, t) => m.id !in w.arrivals && m.retryCount == 0 && t !in w.used
    case EvProcess(ts) => |ts| == |w.q.pending| && FreshTasks(w.used, ts)
    case EvSucceed(t) => t in w.q.live && !w.q.live[t].sleeping
    case EvFail(t, retry) => t in w.q.live && !w.q.live[t].sleeping && retry !in w.used
    case EvWake(t) => t in w.q.live && w.q.live[t].sleeping
    case EvRemove(_) => true
    case EvClear => true
  }

  function StartLogs(chains: map<TaskId, ChainLog>, p: seq<Message>, ts: seq<TaskId>): map<TaskId, ChainLog>
    requires |ts| == |p|
  {
    if p == [] then chains
    else StartLogs(chains, p[..|p| - 1], ts[..|p| - 1])[ts[|p| - 1] := ChainLog(p[|p| - 1].retryCount, 1, [])]
  }

  function Late(p: seq<Message>, id: Id): nat {
    if id in Ids(p) then 0 else 1
  }

  function WithDelay(chains: map<TaskId, ChainLog>, c: TaskId, delay: nat): map<TaskId, ChainLog> {
    if c in chains then chains[c := chains[c].(delays := chains[c].delays + [delay])] else chains
  }

  function WithSend(chains: map<TaskId, ChainLog>, c: TaskId): map<TaskId, ChainLog> {
    if c in chains then chains[c := chains[c].(sends := chains[c].sends + 1)] else chains
  }

  ghost function Step(w: World, e: Event): World
    requires Enabled(w, e)
  {
    var q := w.q;
    match e
    case EvEnqueue(m, connected, t) =>
      World(Enqueue(q, m, connected, t), w.arrivals[m.id := Arrival(m, q.queued)], w.used + {t},
            if connected then w.chains[t := ChainLog(0, 1, [])] else w.chains, w.removed, w.late)
    case EvProcess(ts) =>
      w.(q := q.(live := StartAll(q.live, q.pending, ts)),
         used := w.used + (set t | t in ts),
         chains := StartLogs(w.chains, q.pending, ts))
    case EvSucceed(t) =>
      w.(q := Succeed(q, t), late := w.late + Late(q.pending, q.live[t].message.id))
    case EvFail(t, retry) =>
      var Task(m, _, c) := q.live[t];
      if m.retryCount + 1 >= MAX_RETRY_COUNT then
        w.(q := Fail(q, t, retry), late := w.late + Late(q.pending, m.id))
      else
        w.(q := Fail(q, t, retry),
           used := w.used + {retry},
           chains := WithDelay(w.chains, c, RetryDelay(m.retryCount + 1)))
    case EvWake(t) =>
      w.(q := Wake(q, t), chains := WithSend(w.chains, q.live[t].chain))
    case EvRemove(id) =>
      w.(q := Remove(q, id), removed := w.removed + 1 - Late(q.pending, id))
    case EvClear =>
      w.(q := Clear(q), removed := w.removed + |q.pending|)
  }

  ghost function Run(es: seq<Event>): World {
    if es == [] then START
    else
      var w := Run(es[..|es| - 1]);
      if Enabled(w, es[|es| - 1]) then Step(w, es[|es| - 1]) else w
  }

  /** Every event was enabled when it happened. */
  ghost predicate ValidRun(es: seq<Event>) {
    es == [] || (ValidRun(es[..|es| - 1]) && Enabled(Run(es[..|es| - 1]), es[|es| - 1]))
  }

  // ---------------------------------------------------------------- facts about the list operations

  ghost predicate UniqueIds(p: seq<Message>) {
    forall i, j :: 0 <= i < j < |p| ==> p[i].id != p[j].id
  }

  lemma {:induction false} InsertIndexSpec(p: seq<Message>, priority: Priority)
    ensures
      var i := InsertIndex(p, priority);
      && (forall j :: 0 <= j < i ==> p[j].priority.RawValue() >= priority.RawValue())
      && (i < |p| ==> p[i].priority.RawValue() < priority.RawValue())
  {
    if p != [] && !(priority.RawValue() > p[0].priority.RawValue()) {
      InsertIndexSpec(p[1..], priority);
      var k := InsertIndex(p[1..], priority);
      forall j | 0 <= j < k + 1
        ensures p[j].priority.RawValue() >= priority.RawValue()
      {
        if j > 0 {
          assert p[j] == p[1..][j - 1];
        }
      }
    }
  }

  lemma {:induction false} IndexOfSpec(p: seq<Message>, id: Id)
    ensures IndexOf(p, id) < |p| ==> p[IndexOf(p, id)].id == id
    ensures IndexOf(p, id) < |p| <==> id in Ids(p)
    ensures forall j :: 0 <= j < IndexOf(p, id) ==> p[j].id != id
  {
    if p != [] {
      assert p == [p[0]] + p[1..];
      IndexOfSpec(p[1..], id);
      assert Ids(p) == {p[0].id} + Ids(p[1..]);
      if p[0].id != id {
        assert forall j :: 1 <= j < |p| ==> p[j] == p[1..][j - 1];
      }
    }
  }

  lemma {:induction false} WithoutAbsent(p: seq<Message>, id: Id)
    requires forall j :: 0 <= j < |p| ==> p[j].id != id
    ensures Without(p, id) == p
  {
    if p != [] {
      WithoutAbsent(p[1..], id);
    }
  }

  lemma OmitShifted(p: seq<Message>, k: nat)
    requires k + 1 < |p|
    ensures [p[0]] + (p[1..][..k] + p[1..][k + 1..]) == p[..k + 1] + p[k + 2..]
  {
  }

  /** With unique ids, removing by id takes out one position or nothing. */
  lemma {:induction false} WithoutShape(p: seq<Message>, id: Id)
    requires UniqueIds(p)
    ensures
      var k := IndexOf(p, id);
      Without(p, id) == if k < |p| then p[..k] + p[k + 1..] else p
  {
    if p != [] {
      if p[0].id == id {
        WithoutAbsent(p[1..], id);
      } else {
        WithoutShape(p[1..], id);
        if IndexOf(p[1..], id) < |p[1..]| {
          OmitShifted(p, IndexOf(p[1..], id));
        }
      }
    }
  }

  lemma IdsSplit(p: seq<Message>)
    requires p != []
    ensures Ids(p) == {p[0].id} + Ids(p[1..])
  {
  }

  lemma {:induction false} WithoutIds(p: seq<Message>, id: Id)
    ensures Ids(Without(p, id)) == Ids(p) - {id}
  {
    if p != [] {
      IdsSplit(p);
      WithoutIds(p[1..], id);
      if p[0].id != id {
        IdsSplit(Without(p, id));
      }
    }
  }

  lemma WithoutLength(p: seq<Message>, id: Id)
    requires UniqueIds(p)
    ensures |Without(p, id)| == |p| - 1 + Late(p, id)
  {
  }

  // ---------------------------------------------------------------- order

  /** Apart from its retry count a message never changes. */
  predicate SameMessage(m: Message, n: Message) {
    m.(retryCount := 0) == n.(retryCount := 0)
  }

  ghost predicate Known(arrivals: map<Id, Arrival>, m: Message) {
    m.id in arrivals && SameMessage(m, arrivals[m.id].message) && m.retryCount < MAX_RETRY_COUNT
  }

  /** a is served before b: higher priority, or same priority and earlier arrival. */
  ghost predicate Before(arrivals: map<Id, Arrival>, a: Message, b: Message) {
    && a.id in arrivals && b.id in arrivals
    && (a.priority.RawValue() > b.priority.RawValue()
        || (a.priority.RawValue() == b.priority.RawValue() && arrivals[a.id].rank < arrivals[b.id].rank))
  }

  ghost predicate Ordered(arrivals: map<Id, Arrival>, p: seq<Message>) {
    && (forall i :: 0 <= i < |p| ==> Known(arrivals, p[i]))
    && (forall i, j :: 0 <= i < j < |p| ==> Before(arrivals, p[i], p[j]))
  }

  ghost predicate OrderInv(w: World) {
    && Ordered(w.arrivals, w.q.pending) && UniqueIds(w.q.pending)
    && (forall id :: id in w.arrivals ==> w.arrivals[id].rank < w.q.queued)
    && (forall t :: t in w.q.live ==> Known(w.arrivals, w.q.live[t].message))
  }

  lemma SpliceAt(p: seq<Message>, m: Message, i: nat, j: nat)
    requires i <= |p| && j <= |p|
    ensures (p[..i] + [m] + p[i..])[j] == if j < i then p[j] else if j == i then m else p[j - 1]
  {
  }

  lemma InsertBefore(arrivals: map<Id, Arrival>, p: seq<Message>, m: Message, rank: nat, j: nat, k: nat)
    requires Ordered(arrivals, p) && UniqueIds(p) && m.id !in arrivals && j < k <= |p|
    requires forall id :: id in arrivals ==> arrivals[id].rank < rank
    ensures
      var r := Insert(p, m);
      Before(arrivals[m.id := Arrival(m, rank)], r[j], r[k]) && r[j].id != r[k].id
  {
    InsertIndexSpec(p, m.priority);
    var i, r := InsertIndex(p, m.priority), Insert(p, m);
    var j', k' := if j < i then j else j - 1, if k < i then k else k - 1;
    SpliceAt(p, m, i, j);
    SpliceAt(p, m, i, k);
    if j == i {
      assert Known(arrivals, p[k']);
      assert i < k' ==> Before(arrivals, p[i], p[k']);
    } else if k == i {
      assert Known(arrivals, p[j']);
    } else {
      assert Before(arrivals, p[j'], p[k']);
    }
  }

  lemma InsertOrdered(arrivals: map<Id, Arrival>, p: seq<Message>, m: Message, rank: nat)
    requires Ordered(arrivals, p) && UniqueIds(p) && m.id !in arrivals && m.retryCount == 0
    requires forall id :: id in arrivals ==> arrivals[id].rank < rank
    ensures Ordered(arrivals[m.id := Arrival(m, rank)], Insert(p, m)) && UniqueIds(Insert(p, m))
  {
    var r := Insert(p, m);
    forall j, k | 0 <= j < k < |r|
      ensures Before(arrivals[m.id := Arrival(m, rank)], r[j], r[k]) && r[j].id != r[k].id
    {
      InsertBefore(arrivals, p, m, rank, j, k);
    }
    forall j | 0 <= j < |r|
      ensures Known(arrivals[m.id := Arrival(m, rank)], r[j])
    {
      assert r[j] == m || r[j] in p;
    }
  }

  lemma InsertIds(p: seq<Message>, m: Message)
    ensures Ids(Insert(p, m)) == Ids(p) + {m.id}
  {
  }

  lemma OmitAt(p: seq<Message>, k: nat, i: nat)
    requires k < |p| && i + 1 < |p|
    ensures (p[..k] + p[k + 1..])[i] == p[if i < k then i else i + 1]
  {
  }

  lemma WithoutOrdered(arrivals: map<Id, Arrival>, p: seq<Message>, id: Id)
    requires Ordered(arrivals, p) && UniqueIds(p)
    ensures Ordered(arrivals, Without(p, id)) && UniqueIds(Without(p, id))
  {
    WithoutShape(p, id);
    if IndexOf(p, id) < |p| {
      OmitOrdered(arrivals, p, IndexOf(p, id));
    }
  }

  lemma OmitOrdered(arrivals: map<Id, Arrival>, p: seq<Message>, k: nat)
    requires Ordered(arrivals, p) && UniqueIds(p) && k < |p|
    ensures Ordered(arrivals, p[..k] + p[k + 1..]) && UniqueIds(p[..k] + p[k + 1..])
  {
    var r := p[..k] + p[k + 1..];
    forall i | 0 <= i < |r|
      ensures r[i] == p[if i < k then i else i + 1]
    {
      OmitAt(p, k, i);
    }
  }

  lemma ReplaceOrdered(arrivals: map<Id, Arrival>, p: seq<Message>, m: Message)
    requires Ordered(arrivals, p) && UniqueIds(p) && Known(arrivals, m)
    ensures Ordered(arrivals, Replace(p, m)) && UniqueIds(Replace(p, m))
    ensures Ids(Replace(p, m)) == Ids(p) && |Replace(p, m)| == |p|
  {
    IndexOfSpec(p, m.id);
    var k, r := IndexOf(p, m.id), Replace(p, m);
    if k < |p| {
      assert p[k].priority == m.priority;
      assert forall j :: 0 <= j < |r| ==> r[j].id == p[j].id && r[j].priority == p[j].priority;
    }
  }

  /** The tasks after a reconnect: the old ones, and one attempt per listed message. */
  lemma {:induction false} StartAllTasks(live: map<TaskId, Task>, p: seq<Message>, ts: seq<TaskId>, t: TaskId)
    requires |ts| == |p|
    requires t in StartAll(live, p, ts)
    ensures
      var task := StartAll(live, p, ts)[t];
      (t !in ts && t in live && task == live[t])
      || (exists i :: 0 <= i < |ts| && ts[i] == t && task == Task(p[i], false, t))
  {
    if p != [] {
      var n := |p| - 1;
      if t == ts[n] {
        assert StartAll(live, p, ts)[t] == Task(p[n], false, ts[n]);
      } else {
        StartAllTasks(live, p[..n], ts[..n], t);
        assert ts == ts[..n] + [ts[n]];
        if t in ts[..n] {
          var i :| 0 <= i < n && ts[..n][i] == t && StartAll(live, p[..n], ts[..n])[t] == Task(p[..n][i], false, t);
          assert ts[i] == t;
        }
      }
    }
  }

  lemma RetriedKnown(arrivals: map<Id, Arrival>, m: Message)
    requires Known(arrivals, m) && m.retryCount + 1 < MAX_RETRY_COUNT
    ensures Known(arrivals, Retried(m))
  {
  }

  lemma StepOrder(w: World, e: Event)
    requires OrderInv(w) && Enabled(w, e)
    ensures OrderInv(Step(w, e))
  {
    var q, q' := w.q, Step(w, e).q;
    match e
    case EvEnqueue(m, _, _) => InsertOrdered(w.arrivals, q.pending, m, q.queued);
    case EvProcess(ts) =>
      forall t | t in q'.live
        ensures Known(w.arrivals, q'.live[t].message)
      {
        StartAllTasks(q.live, q.pending, ts, t);
      }
    case EvSucceed(t) => WithoutOrdered(w.arrivals, q.pending, q.live[t].message.id);
    case EvFail(t, _) =>
      var m := q.live[t].message;
      WithoutOrdered(w.arrivals, q.pending, m.id);
      if m.retryCount + 1 < MAX_RETRY_COUNT {
        RetriedKnown(w.arrivals, m);
        ReplaceOrdered(w.arrivals, q.pending, Retried(m));
      }
    case EvWake(_) =>
    case EvRemove(id) => WithoutOrdered(w.arrivals, q.pending, id);
    case EvClear =>
  }

  lemma {:induction false} RunOrder(es: seq<Event>)
    requires ValidRun(es)
    ensures OrderInv(Run(es))
  {
    if es != [] {
      RunOrder(es[..|es| - 1]);
      StepOrder(Run(es[..|es| - 1]), es[|es| - 1]);
    }
  }

  /** Urgent before high before normal before low. */
  predicate NotBelow(a: Priority, b: Priority) {
    match b
    case Urgent => a.Urgent?
    case High => a.Urgent? || a.High?
    case Normal => !a.Low?
    case Low => true
  }

  /** In every interleaving the list is sorted by falling priority, first come first served within
      a priority, each id occurs once, and the messages are the enqueued ones. */
  lemma ServedInOrder(es: seq<Event>, i: nat, j: nat)
    requires ValidRun(es) && i < j < |Run(es).q.pending|
    ensures
      var p, arrivals := Run(es).q.pending, Run(es).arrivals;
      && p[i].id != p[j].id && p[i].id in arrivals && p[j].id in arrivals
      && NotBelow(p[i].priority, p[j].priority)
      && (p[i].priority == p[j].priority ==> arrivals[p[i].id].rank < arrivals[p[j].id].rank)
      && p[i] == arrivals[p[i].id].message.(retryCount := p[i].retryCount)
      && p[j] == arrivals[p[j].id].message.(retryCount := p[j].retryCount)
  {
    RunOrder(es);
  }

  // ---------------------------------------------------------------- what every event does

  /** The counters: an enqueue counts as queued, a success as delivered, and a failure as failed exactly
      when the message had failed four times before. */
  lemma CountersExactly(w: World, e: Event)
    requires OrderInv(w) && Enabled(w, e)
    ensures
      var q, q' := w.q, Step(w, e).q;
      && q'.queued == q.queued + (if e.EvEnqueue? then 1 else 0)
      && q'.delivered == q.delivered + (if e.EvSucceed? then 1 else 0)
      && q'.failed == q.failed + (if e.EvFail? && q.live[e.task].message.retryCount == 4 then 1 else 0)
  {
    if e.EvFail? {
      assert Known(w.arrivals, w.q.live[e.task].message);
    }
  }

  /** m with one failure more. */
  ghost predicate FailedOnceMore(m: Message, m': Message) {
    && m'.id == m.id && m'.recipientId == m.recipientId && m'.content == m.content && m'.priority == m.priority
    && m'.retryCount == m.retryCount + 1
  }

  /** x is listed after the event. */
  ghost predicate ListedAfter(w: World, e: Event, x: Message)
    requires Enabled(w, e)
  {
    var p := w.q.pending;
    match e
    case EvEnqueue(m, _, _) => x in p || x == m
    case EvProcess(_) => x in p
    case EvSucceed(t) => x in p && x.id != w.q.live[t].message.id
    case EvFail(t, _) =>
      var m := w.q.live[t].message;
      (x in p && x.id != m.id) || (m.retryCount < 4 && FailedOnceMore(m, x) && exists y :: y in p && y.id == m.id)
    case EvWake(_) => x in p
    case EvRemove(id) => x in p && x.id != id
    case EvClear => false
  }

  lemma {:induction false} WithoutMembers(p: seq<Message>, id: Id, x: Message)
    ensures x in Without(p, id) <==> x in p && x.id != id
  {
    if p != [] {
      WithoutMembers(p[1..], id, x);
      assert p == [p[0]] + p[1..];
    }
  }

  lemma ReplaceMembers(p: seq<Message>, m: Message, x: Message)
    requires UniqueIds(p)
    ensures x in Replace(p, m) <==> (x in p && x.id != m.id) || (x == m && exists y :: y in p && y.id == m.id)
  {
    IndexOfSpec(p, m.id);
    var k, r := IndexOf(p, m.id), Replace(p, m);
    if k < |p| {
      assert p[k] in p && r[k] == m;
      if x in p && x.id != m.id {
        var j :| 0 <= j < |p| && p[j] == x;
        assert r[j] == x;
      }
      if x in r {
        var j :| 0 <= j < |r| && r[j] == x;
        assert j != k ==> p[j] == x;
      }
    }
    assert forall y :: y in p ==> y.id in Ids(p);
  }

  /** The list: exactly these messages, each once (UniqueIds). */
  lemma ListExactly(w: World, e: Event, x: Message)
    requires OrderInv(w) && Enabled(w, e)
    ensures x in Step(w, e).q.pending <==> ListedAfter(w, e, x)
  {
    var p := w.q.pending;
    match e
    case EvEnqueue(m, _, _) => InsertMembers(p, m, x);
    case EvSucceed(t) => WithoutMembers(p, w.q.live[t].message.id, x);
    case EvFail(t, _) =>
      var m := w.q.live[t].message;
      assert Known(w.arrivals, m);
      WithoutMembers(p, m.id, x);
      ReplaceMembers(p, Retried(m), x);
    case EvRemove(id) => WithoutMembers(p, id, x);
    case _ =>
  }

  lemma InsertMembers(p: seq<Message>, m: Message, x: Message)
    ensures x in Insert(p, m) <==> x in p || x == m
  {
    var i := InsertIndex(p, m.priority);
    assert p == p[..i] + p[i..];
  }

  /** t is the retry of the message with this id and still waits for its delay. */
  predicate IsWaitingRetry(q: Queue, id: Id, t: TaskId) {
    RetryTaskIs(q, id, t) && t in q.live && q.live[t].sleeping
  }

  /** Task u is live after the event and looks like x. */
  ghost predicate LiveAfter(w: World, e: Event, u: TaskId, x: Task)
    requires Enabled(w, e)
  {
    var q := w.q;
    var same := u in q.live && x == q.live[u];
    match e
    case EvEnqueue(m, connected, t) => if connected && u == t then x == Task(m, false, t) else same
    case EvProcess(ts) => same || exists i :: 0 <= i < |ts| && ts[i] == u && x == Task(q.pending[i], false, u)
    case EvSucceed(t) => same && u != t && !IsWaitingRetry(q, q.live[t].message.id, u)
    case EvFail(t, retry) =>
      var Task(m, _, chain) := q.live[t];
      if m.retryCount == 4 then same && u != t && !IsWaitingRetry(q, m.id, u)
      else if u == retry then FailedOnceMore(m, x.message) && x.sleeping && x.chain == chain
      else same && u != t
    case EvWake(t) => if u == t then x == Task(q.live[t].message, false, q.live[t].chain) else same
    case EvRemove(id) => same && !IsWaitingRetry(q, id, u)
    case EvClear => same && !exists id :: IsWaitingRetry(q, id, u)
  }

  /** The tasks: an enqueue while connected and a reconnect start attempts, a failure that is not the fifth
      leaves a waiting retry, and what takes a message out cancels its waiting retry and nothing else. */
  lemma TasksExactly(w: World, e: Event, u: TaskId, x: Task)
    requires OrderInv(w) && ChainInv(w) && Enabled(w, e)
    ensures u in Step(w, e).q.live && Step(w, e).q.live[u] == x <==> LiveAfter(w, e, u, x)
  {
    match e
    case EvProcess(ts) => ProcessTasks(w, ts, u, x);
    case EvSucceed(t) => RemoveTasks(w.q.(live := w.q.live - {t}), w.q.live[t].message.id, u, x);
    case EvFail(t, retry) => FailTasks(w, t, retry, u, x);
    case EvRemove(id) => RemoveTasks(w.q, id, u, x);
    case EvClear => ClearTasks(w, u, x);
    case _ =>
  }

  lemma RemoveTasks(q: Queue, id: Id, u: TaskId, x: Task)
    ensures u in Remove(q, id).live && Remove(q, id).live[u] == x
            <==> u in q.live && q.live[u] == x && !IsWaitingRetry(q, id, u)
  {
  }

  lemma FailTasks(w: World, t: TaskId, retry: TaskId, u: TaskId, x: Task)
    requires OrderInv(w) && Enabled(w, EvFail(t, retry))
    ensures u in Fail(w.q, t, retry).live && Fail(w.q, t, retry).live[u] == x
            <==> LiveAfter(w, EvFail(t, retry), u, x)
  {
    var m := w.q.live[t].message;
    assert Known(w.arrivals, m);
    if m.retryCount == 4 {
      RemoveTasks(w.q.(live := w.q.live - {t}, failed := w.q.failed + 1), m.id, u, x);
    }
  }

  lemma ProcessTasks(w: World, ts: seq<TaskId>, u: TaskId, x: Task)
    requires ChainInv(w) && Enabled(w, EvProcess(ts))
    ensures u in StartAll(w.q.live, w.q.pending, ts) && StartAll(w.q.live, w.q.pending, ts)[u] == x
            <==> LiveAfter(w, EvProcess(ts), u, x)
  {
    var live, p := w.q.live, w.q.pending;
    StartAllKeeps(live, p, ts, u);
    if u in StartAll(live, p, ts) {
      StartAllTasks(live, p, ts, u);
    }
    assert u in live ==> u in w.used;
  }

  lemma ClearTasks(w: World, u: TaskId, x: Task)
    ensures u in Clear(w.q).live && Clear(w.q).live[u] == x <==> LiveAfter(w, EvClear, u, x)
  {
    var q := w.q;
    if u in q.retryTasks.Values {
      var id :| id in q.retryTasks && q.retryTasks[id] == u;
      assert RetryTaskIs(q, id, u);
      assert u in q.live && q.live[u].sleeping ==> IsWaitingRetry(q, id, u);
    }
    forall id | IsWaitingRetry(q, id, u)
      ensures u in q.retryTasks.Values
    {
      assert q.retryTasks[id] == u;
    }
  }

  // ---------------------------------------------------------------- no resurrection

  /** A step brings no id into the list except that of a message never enqueued before. */
  lemma StepIds(w: World, e: Event)
    requires OrderInv(w) && Enabled(w, e)
    ensures Ids(Step(w, e).q.pending) <= Ids(w.q.pending) + (if e.EvEnqueue? then {e.message.id} else {})
    ensures w.arrivals.Keys <= Step(w, e).arrivals.Keys
  {
    var q := w.q;
    match e
    case EvEnqueue(m, _, _) => InsertIds(q.pending, m);
    case EvProcess(_) =>
    case EvSucceed(t) => WithoutIds(q.pending, q.live[t].message.id);
    case EvFail(t, _) =>
      var m := q.live[t].message;
      WithoutIds(q.pending, m.id);
      if m.retryCount + 1 < MAX_RETRY_COUNT {
        RetriedKnown(w.arrivals, m);
        ReplaceOrdered(w.arrivals, q.pending, Retried(m));
      }
    case EvWake(_) =>
    case EvRemove(id) => WithoutIds(q.pending, id);
    case EvClear =>
  }

  /** An id that has left the list never re-enters it, whatever attempts are still in flight. */
  lemma {:induction false} NoResurrection(es: seq<Event>, n: nat, id: Id)
    requires ValidRun(es) && n <= |es|
    requires id in Run(es[..n]).arrivals && id !in Ids(Run(es[..n]).q.pending)
    ensures id in Run(es).arrivals && id !in Ids(Run(es).q.pending)
  {
    if n == |es| {
      assert es[..n] == es;
    } else {
      var init := es[..|es| - 1];
      assert init[..n] == es[..n];
      NoResurrection(init, n, id);
      RunOrder(init);
      StepIds(Run(init), es[|es| - 1]);
    }
  }

  // ---------------------------------------------------------------- conservation

  ghost predicate Balanced(w: World) {
    w.q.queued + w.late == w.q.delivered + w.q.failed + |w.q.pending| + w.removed
  }

  lemma StepBalanced(w: World, e: Event)
    requires OrderInv(w) && Balanced(w) && Enabled(w, e)
    ensures Balanced(Step(w, e))
  {
    var q := w.q;
    match e
    case EvEnqueue(m, _, _) => assert |Insert(q.pending, m)| == |q.pending| + 1;
    case EvProcess(_) =>
    case EvSucceed(t) => WithoutLength(q.pending, q.live[t].message.id);
    case EvFail(t, _) => WithoutLength(q.pending, q.live[t].message.id);
    case EvWake(_) =>
    case EvRemove(id) => WithoutLength(q.pending, id);
    case EvClear =>
  }

  /** Exact conservation over every run, double attempts included: each queued message is delivered,
      failed, pending or taken out by the caller, and each surplus delivery or failure is an attempt
      that ended after its message had left the list. So the plain balance holds if and only if there
      was no such attempt. */
  lemma {:induction false} Conservation(es: seq<Event>)
    requires ValidRun(es)
    ensures Balanced(Run(es))
    ensures PlainBalance(Run(es)) <==> Run(es).late == 0
  {
    if es != [] {
      var init := es[..|es| - 1];
      Conservation(init);
      RunOrder(init);
      StepBalanced(Run(init), es[|es| - 1]);
    }
  }

  // ---------------------------------------------------------------- retry chains

  ghost predicate LogBounded(l: ChainLog) {
    && l.start + l.sends <= MAX_RETRY_COUNT
    && l.start + |l.delays| < MAX_RETRY_COUNT
    && |l.delays| <= l.sends
    && forall i :: 0 <= i < |l.delays| ==> l.delays[i] == Power2(l.start + i)
  }

  /** How far the log of a live task's chain must have got. */
  ghost predicate InStep(l: ChainLog, task: Task) {
    && l.start + |l.delays| == task.message.retryCount
    && l.start + l.sends == task.message.retryCount + if task.sleeping then 0 else 1
  }

  ghost predicate ChainInv(w: World) {
    && w.chains.Keys <= w.used && w.q.live.Keys <= w.used
    && (forall c :: c in w.chains ==> LogBounded(w.chains[c]))
    && (forall t :: t in w.q.live ==> w.q.live[t].chain in w.chains && InStep(w.chains[w.q.live[t].chain], w.q.live[t]))
    && (forall s, t :: s in w.q.live && t in w.q.live && s != t ==> w.q.live[s].chain != w.q.live[t].chain)
  }

  /** Ending or cancelling tasks keeps the chains in step. */
  lemma FewerTasks(w: World, w': World)
    requires ChainInv(w) && w'.chains == w.chains && w.used <= w'.used
    requires forall t :: t in w'.q.live ==> t in w.q.live && w'.q.live[t] == w.q.live[t]
    ensures ChainInv(w')
  {
  }

  lemma {:induction false} StartLogsSpec(chains: map<TaskId, ChainLog>, p: seq<Message>, ts: seq<TaskId>, c: TaskId)
    requires |ts| == |p| && FreshTasks(chains.Keys, ts)
    ensures c in chains ==> c in StartLogs(chains, p, ts) && StartLogs(chains, p, ts)[c] == chains[c]
    ensures c in StartLogs(chains, p, ts) && c !in chains ==>
              exists i :: 0 <= i < |ts| && ts[i] == c && StartLogs(chains, p, ts)[c] == ChainLog(p[i].retryCount, 1, [])
    ensures forall i :: 0 <= i < |ts| ==>
              (ts[i] in StartLogs(chains, p, ts) && StartLogs(chains, p, ts)[ts[i]] == ChainLog(p[i].retryCount, 1, []))
  {
    if p != [] {
      var n := |p| - 1;
      StartLogsSpec(chains, p[..n], ts[..n], c);
      assert forall i :: 0 <= i < n ==> ts[..n][i] == ts[i] && p[..n][i] == p[i];
      if c in StartLogs(chains, p, ts) && c !in chains && c != ts[n] {
        var i :| 0 <= i < n && ts[..n][i] == c
                 && StartLogs(chains, p[..n], ts[..n])[c] == ChainLog(p[..n][i].retryCount, 1, []);
        assert ts[i] == c;
      }
    }
  }

  lemma ProcessChains(w: World, ts: seq<TaskId>)
    requires OrderInv(w) && ChainInv(w) && Enabled(w, EvProcess(ts))
    ensures ChainInv(Step(w, EvProcess(ts)))
  {
    var p, w' := w.q.pending, Step(w, EvProcess(ts));
    forall c | c in w'.chains
      ensures LogBounded(w'.chains[c]) && c in w'.used
    {
      StartLogsSpec(w.chains, p, ts, c);
    }
    forall t | t in w'.q.live
      ensures t in w'.used && w'.q.live[t].chain in w'.chains && InStep(w'.chains[w'.q.live[t].chain], w'.q.live[t])
      ensures w'.q.live[t].chain == t || (t in w.q.live && w'.q.live[t] == w.q.live[t])
    {
      StartAllTasks(w.q.live, p, ts, t);
      StartLogsSpec(w.chains, p, ts, w'.q.live[t].chain);
    }
    forall s, t | s in w'.q.live && t in w'.q.live && s != t
      ensures w'.q.live[s].chain != w'.q.live[t].chain
    {
      StartAllTasks(w.q.live, p, ts, s);
      StartAllTasks(w.q.live, p, ts, t);
    }
  }

  lemma FailChains(w: World, t: TaskId, retry: TaskId)
    requires OrderInv(w) && ChainInv(w) && Enabled(w, EvFail(t, retry))
    ensures ChainInv(Step(w, EvFail(t, retry)))
  {
    var Task(m, _, c) := w.q.live[t];
    if m.retryCount + 1 >= MAX_RETRY_COUNT {
      FewerTasks(w, Step(w, EvFail(t, retry)));
    } else {
      DelayedLog(w.chains[c], m.retryCount);
      RetryChains(w, Step(w, EvFail(t, retry)), t, retry);
    }
  }

  lemma RetryChains(w: World, w': World, t: TaskId, retry: TaskId)
    requires ChainInv(w) && t in w.q.live && !w.q.live[t].sleeping && retry !in w.used && w'.used == w.used + {retry}
    requires w'.q.live == (w.q.live - {t})[retry := Task(Retried(w.q.live[t].message), true, w.q.live[t].chain)]
    requires
      var Task(m, _, c) := w.q.live[t];
      var l := w.chains[c].(delays := w.chains[c].delays + [Power2(m.retryCount)]);
      w'.chains == w.chains[c := l] && LogBounded(l)
    ensures ChainInv(w')
  {
  }

  lemma DelayedLog(l: ChainLog, count: nat)
    requires LogBounded(l) && l.start + |l.delays| == count && l.start + l.sends == count + 1
             && count + 1 < MAX_RETRY_COUNT
    ensures LogBounded(l.(delays := l.delays + [Power2(count)]))
  {
  }

  lemma EnqueueChains(w: World, m: Message, connected: bool, t: TaskId)
    requires ChainInv(w) && Enabled(w, EvEnqueue(m, connected, t))
    ensures ChainInv(Step(w, EvEnqueue(m, connected, t)))
  {
  }

  lemma WakeChains(w: World, t: TaskId)
    requires OrderInv(w) && ChainInv(w) && Enabled(w, EvWake(t))
    ensures ChainInv(Step(w, EvWake(t)))
  {
    assert Known(w.arrivals, w.q.live[t].message);
    assert LogBounded(Step(w, EvWake(t)).chains[w.q.live[t].chain]);
  }

  lemma StepChains(w: World, e: Event)
    requires OrderInv(w) && ChainInv(w) && Enabled(w, e)
    ensures ChainInv(Step(w, e))
  {
    match e
    case EvEnqueue(m, connected, t) => EnqueueChains(w, m, connected, t);
    case EvProcess(ts) => ProcessChains(w, ts);
    case EvSucceed(_) => FewerTasks(w, Step(w, e));
    case EvFail(t, retry) => FailChains(w, t, retry);
    case EvWake(t) => WakeChains(w, t);
    case EvRemove(_) => FewerTasks(w, Step(w, e));
    case EvClear => FewerTasks(w, Step(w, e));
  }

  lemma {:induction false} RunChains(es: seq<Event>)
    requires ValidRun(es)
    ensures ChainInv(Run(es))
  {
    if es != [] {
      RunChains(es[..|es| - 1]);
      RunOrder(es[..|es| - 1]);
      StepChains(Run(es[..|es| - 1]), es[|es| - 1]);
    }
  }

  /** Every attempt chain ends: at most five sends, and the delays before its retries are 1, 2, 4, 8
      seconds (from where it started), so the cap of 30 seconds is never reached. */
  lemma ChainsAreBounded(es: seq<Event>, c: TaskId)
    requires ValidRun(es) && c in Run(es).chains
    ensures
      var l := Run(es).chains[c];
      && l.sends <= MAX_RETRY_COUNT - l.start
      && |l.delays| <= l.sends && l.start + |l.delays| <= 4
      && forall i :: 0 <= i < |l.delays| ==> l.delays[i] == [1, 2, 4, 8][l.start + i]
  {
    RunChains(es);
    assert Power2(0) == 1 && Power2(1) == 2 && Power2(2) == 4 && Power2(3) == 8;
  }

  /** A chain that gives its message up has made exactly the sends that lead from its start to the
      fifth, with exactly the remaining delays of 1, 2, 4 and 8 seconds between them. */
  lemma GivenUpAfterFive(es: seq<Event>, t: TaskId, retry: TaskId)
    requires ValidRun(es) && Enabled(Run(es), EvFail(t, retry))
    requires Step(Run(es), EvFail(t, retry)).q.failed > Run(es).q.failed
    ensures Run(es).q.live[t].chain in Run(es).chains
    ensures
      var l := Run(es).chains[Run(es).q.live[t].chain];
      l.start <= 4 && l.sends == 5 - l.start && l.delays == [1, 2, 4, 8][l.start..]
  {
    var w := Run(es);
    RunOrder(es);
    RunChains(es);
    CountersExactly(w, EvFail(t, retry));
    var l := w.chains[w.q.live[t].chain];
    ChainsAreBounded(es, w.q.live[t].chain);
    assert InStep(l, w.q.live[t]);
    assert |[1, 2, 4, 8][l.start..]| == |l.delays|;
  }

  // ---------------------------------------------------------------- one live chain per id

  /** What a caller must respect for plain conservation: no second attempt is started for a message
      that has one, and a message is taken out only while none of its attempts is in flight. */
  ghost predicate Disciplined(w: World, e: Event) {
    match e
    case EvProcess(_) => w.q.live == map[]
    case EvRemove(id) => forall t :: t in w.q.live && w.q.live[t].message.id == id ==> w.q.live[t].sleeping
    case EvClear => forall t :: t in w.q.live ==> w.q.live[t].sleeping
    case _ => true
  }

  /** Every event was enabled when it happened and respected the discipline. */
  ghost predicate DisciplinedRun(es: seq<Event>) {
    es == [] ||
    (var init, e := es[..|es| - 1], es[|es| - 1];
     DisciplinedRun(init) && Enabled(Run(init), e) && Disciplined(Run(init), e))
  }

  lemma {:induction false} DisciplinedIsValid(es: seq<Event>)
    requires DisciplinedRun(es)
    ensures ValidRun(es)
  {
    if es != [] {
      DisciplinedIsValid(es[..|es| - 1]);
    }
  }

  /** Each live task works for a listed message, no two for the same one, and a sleeping task is the
      one its message's removal would cancel. */
  ghost predicate Solo(w: World) {
    && w.late == 0
    && (forall t :: t in w.q.live ==> w.q.live[t].message.id in Ids(w.q.pending))
    && (forall s, t :: s in w.q.live && t in w.q.live && s != t ==> w.q.live[s].message.id != w.q.live[t].message.id)
    && (forall t :: t in w.q.live && w.q.live[t].sleeping ==> RetryTaskIs(w.q, w.q.live[t].message.id, t))
  }

  predicate RetryTaskIs(q: Queue, id: Id, t: TaskId) {
    id in q.retryTasks && q.retryTasks[id] == t
  }

  /** Taking one id out, when the remaining tasks work for other ids. */
  lemma RemoveSolo(w: World, w': World, id: Id)
    requires Solo(w) && w'.late == 0
    requires w'.q.pending == Without(w.q.pending, id) && w'.q.retryTasks == w.q.retryTasks - {id}
    requires forall t :: t in w'.q.live ==> t in w.q.live && w'.q.live[t] == w.q.live[t] && w.q.live[t].message.id != id
    ensures Solo(w')
  {
    WithoutIds(w.q.pending, id);
    forall t | t in w'.q.live && w'.q.live[t].sleeping
      ensures RetryTaskIs(w'.q, w'.q.live[t].message.id, t)
    {
      assert RetryTaskIs(w.q, w.q.live[t].message.id, t);
    }
  }

  lemma ProcessSolo(w: World, ts: seq<TaskId>)
    requires OrderInv(w) && Solo(w) && Enabled(w, EvProcess(ts)) && w.q.live == map[]
    ensures Solo(Step(w, EvProcess(ts)))
  {
    var p, w' := w.q.pending, Step(w, EvProcess(ts));
    forall t | t in w'.q.live
      ensures w'.q.live[t].message.id in Ids(p) && !w'.q.live[t].sleeping
    {
      StartAllTasks(w.q.live, p, ts, t);
    }
    forall s, t | s in w'.q.live && t in w'.q.live && s != t
      ensures w'.q.live[s].message.id != w'.q.live[t].message.id
    {
      StartAllTasks(w.q.live, p, ts, s);
      StartAllTasks(w.q.live, p, ts, t);
      var i :| 0 <= i < |ts| && ts[i] == s && w'.q.live[s] == Task(p[i], false, s);
      var j :| 0 <= j < |ts| && ts[j] == t && w'.q.live[t] == Task(p[j], false, t);
    }
  }

  lemma EnqueueSolo(w: World, m: Message, connected: bool, t: TaskId)
    requires OrderInv(w) && ChainInv(w) && Solo(w) && Enabled(w, EvEnqueue(m, connected, t))
    ensures Solo(Step(w, EvEnqueue(m, connected, t)))
  {
    InsertIds(w.q.pending, m);
    assert forall u :: u in w.q.live ==> Known(w.arrivals, w.q.live[u].message);
    AddSolo(w, Step(w, EvEnqueue(m, connected, t)), m, connected, t);
  }

  lemma AddSolo(w: World, w': World, m: Message, connected: bool, t: TaskId)
    requires Solo(w) && t !in w.q.live && w'.late == 0 && w'.q.retryTasks == w.q.retryTasks
    requires Ids(w'.q.pending) == Ids(w.q.pending) + {m.id}
    requires forall u :: u in w.q.live ==> w.q.live[u].message.id != m.id
    requires w'.q.live == if connected then w.q.live[t := Task(m, false, t)] else w.q.live
    ensures Solo(w')
  {
  }

  lemma FailSolo(w: World, t: TaskId, retry: TaskId)
    requires OrderInv(w) && ChainInv(w) && Solo(w) && Enabled(w, EvFail(t, retry))
    ensures Solo(Step(w, EvFail(t, retry)))
  {
    var m, w' := w.q.live[t].message, Step(w, EvFail(t, retry));
    if m.retryCount + 1 >= MAX_RETRY_COUNT {
      RemoveSolo(w, w', m.id);
    } else {
      RetriedKnown(w.arrivals, m);
      ReplaceOrdered(w.arrivals, w.q.pending, Retried(m));
      RetrySolo(w, w', t, retry);
    }
  }

  lemma RetrySolo(w: World, w': World, t: TaskId, retry: TaskId)
    requires Solo(w) && t in w.q.live && retry !in w.q.live && w'.late == 0
    requires Ids(w'.q.pending) == Ids(w.q.pending)
    requires w'.q.retryTasks == w.q.retryTasks[w.q.live[t].message.id := retry]
    requires w'.q.live == (w.q.live - {t})[retry := Task(Retried(w.q.live[t].message), true, w.q.live[t].chain)]
    ensures Solo(w')
  {
  }

  lemma CallerRemovesSolo(w: World, id: Id)
    requires Solo(w) && Disciplined(w, EvRemove(id))
    ensures Solo(Step(w, EvRemove(id)))
  {
    var w' := Step(w, EvRemove(id));
    forall t | t in w'.q.live
      ensures t in w.q.live && w'.q.live[t] == w.q.live[t] && w.q.live[t].message.id != id
    {
      assert w.q.live[t].message.id == id ==> RetryTaskIs(w.q, id, t);
    }
    RemoveSolo(w, w', id);
  }

  lemma ClearSolo(w: World)
    requires Solo(w) && Disciplined(w, EvClear)
    ensures Solo(Step(w, EvClear))
  {
  }

  lemma WakeSolo(w: World, t: TaskId)
    requires Solo(w) && Enabled(w, EvWake(t))
    ensures Solo(Step(w, EvWake(t)))
  {
  }

  lemma StepSolo(w: World, e: Event)
    requires OrderInv(w) && ChainInv(w) && Solo(w) && Enabled(w, e) && Disciplined(w, e)
    ensures Solo(Step(w, e))
  {
    match e
    case EvEnqueue(m, connected, t) => EnqueueSolo(w, m, connected, t);
    case EvProcess(ts) => ProcessSolo(w, ts);
    case EvSucceed(t) => RemoveSolo(w, Step(w, e), w.q.live[t].message.id);
    case EvFail(t, retry) => FailSolo(w, t, retry);
    case EvWake(t) => WakeSolo(w, t);
    case EvRemove(id) => CallerRemovesSolo(w, id);
    case EvClear => ClearSolo(w);
  }

  lemma {:induction false} RunSolo(es: seq<Event>)
    requires DisciplinedRun(es)
    ensures Solo(Run(es))
  {
    if es != [] {
      var init := es[..|es| - 1];
      RunSolo(init);
      DisciplinedIsValid(init);
      RunOrder(init);
      RunChains(init);
      StepSolo(Run(init), es[|es| - 1]);
    }
  }

  /** What was queued has been delivered, has failed, is pending, or was taken out by the caller. */
  ghost predicate PlainBalance(w: World) {
    w.q.queued == w.q.delivered + w.q.failed + |w.q.pending| + w.removed
  }

  /** With one live chain per id the counters balance. */
  lemma DisciplinedConservation(es: seq<Event>)
    requires DisciplinedRun(es)
    ensures PlainBalance(Run(es))
  {
    RunSolo(es);
    DisciplinedIsValid(es);
    Conservation(es);
  }

  // ---------------------------------------------------------------- the discipline is exact

  /** Events of the attempts themselves: waking up and ending. */
  predicate OnlyAttempts(fs: seq<Event>) {
    forall n :: 0 <= n < |fs| ==> fs[n].EvWake? || fs[n].EvSucceed? || fs[n].EvFail?
  }

  lemma Extend(es: seq<Event>, e: Event)
    requires ValidRun(es) && Enabled(Run(es), e)
    ensures ValidRun(es + [e]) && Run(es + [e]) == Step(Run(es), e)
  {
  }

  lemma OneMoreDisciplined(es: seq<Event>, e: Event)
    requires DisciplinedRun(es) && Enabled(Run(es), e) && Disciplined(Run(es), e)
    ensures DisciplinedRun(es + [e])
  {
    assert (es + [e])[..|es|] == es;
  }

  lemma {:induction false} DisciplinedBeyond(es: seq<Event>, fs: seq<Event>)
    requires DisciplinedRun(es) && OnlyAttempts(fs) && ValidRun(es + fs)
    ensures DisciplinedRun(es + fs)
  {
    if fs == [] {
      assert es + fs == es;
    } else {
      var n := |fs| - 1;
      var init := es + fs[..n];
      assert (es + fs)[..|es + fs| - 1] == init && es + fs == init + [fs[n]];
      DisciplinedBeyond(es, fs[..n]);
      OneMoreDisciplined(init, fs[n]);
    }
  }

  predicate InFlight(w: World, t: TaskId, id: Id) {
    t in w.q.live && !w.q.live[t].sleeping && w.q.live[t].message.id == id
  }

  /** An attempt that ends after its message left the list unbalances the counters. */
  lemma LateSuccess(es: seq<Event>, t: TaskId, id: Id)
    requires ValidRun(es) && InFlight(Run(es), t, id) && id !in Ids(Run(es).q.pending)
    ensures ValidRun(es + [EvSucceed(t)]) && !PlainBalance(Run(es + [EvSucceed(t)]))
  {
    Extend(es, EvSucceed(t));
    Conservation(es + [EvSucceed(t)]);
  }

  /** So do two attempts for one message. */
  lemma TwoSuccesses(es: seq<Event>, s: TaskId, t: TaskId, id: Id)
    requires ValidRun(es) && s != t && InFlight(Run(es), s, id) && InFlight(Run(es), t, id)
    ensures
      var all := es + [EvSucceed(s), EvSucceed(t)];
      ValidRun(all) && !PlainBalance(Run(all))
  {
    var w := Run(es);
    Extend(es, EvSucceed(s));
    WithoutIds(w.q.pending, id);
    LateSuccess(es + [EvSucceed(s)], t, id);
    assert es + [EvSucceed(s)] + [EvSucceed(t)] == es + [EvSucceed(s), EvSucceed(t)];
  }

  lemma {:induction false} StartAllKeeps(live: map<TaskId, Task>, p: seq<Message>, ts: seq<TaskId>, t: TaskId)
    requires |ts| == |p| && forall i, j :: 0 <= i < j < |ts| ==> ts[i] != ts[j]
    ensures t in live && t !in ts ==> t in StartAll(live, p, ts) && StartAll(live, p, ts)[t] == live[t]
    ensures forall i :: 0 <= i < |ts| ==>
              ts[i] in StartAll(live, p, ts) && StartAll(live, p, ts)[ts[i]] == Task(p[i], false, ts[i])
  {
    if p != [] {
      var n := |p| - 1;
      StartAllKeeps(live, p[..n], ts[..n], t);
      assert forall i :: 0 <= i < n ==> ts[..n][i] == ts[i] && p[..n][i] == p[i];
      assert t !in ts ==> t !in ts[..n];
    }
  }

  /** A reconnect while t is alive leaves t and a new attempt for the same message. */
  lemma SecondAttempt(w: World, ts: seq<TaskId>, t: TaskId) returns (u: TaskId)
    requires ChainInv(w) && Solo(w) && Enabled(w, EvProcess(ts)) && t in w.q.live
    ensures
      var w' := Step(w, EvProcess(ts));
      u != t && t in w'.q.live && w'.q.live[t] == w.q.live[t] && InFlight(w', u, w.q.live[t].message.id)
  {
    StartAllKeeps(w.q.live, w.q.pending, ts, t);
    var m :| m in w.q.pending && m.id == w.q.live[t].message.id;
    var i :| 0 <= i < |ts| && w.q.pending[i] == m;
    u := ts[i];
    assert t in w.used;
  }

  /** Two live chains for one message: if one of them sleeps, it wakes up first. */
  lemma TwoChains(es: seq<Event>, t: TaskId, u: TaskId, id: Id) returns (fs: seq<Event>)
    requires ValidRun(es) && t != u && t in Run(es).q.live && Run(es).q.live[t].message.id == id
    requires InFlight(Run(es), u, id)
    ensures OnlyAttempts(fs) && ValidRun(es + fs) && !PlainBalance(Run(es + fs))
  {
    if Run(es).q.live[t].sleeping {
      fs := [EvWake(t), EvSucceed(t), EvSucceed(u)];
      WakeThenTwoSuccesses(es, t, u, id);
    } else {
      fs := [EvSucceed(t), EvSucceed(u)];
      TwoSuccesses(es, t, u, id);
    }
  }

  lemma WakeThenTwoSuccesses(es: seq<Event>, t: TaskId, u: TaskId, id: Id)
    requires ValidRun(es) && t != u && t in Run(es).q.live && Run(es).q.live[t].message.id == id
    requires Run(es).q.live[t].sleeping && InFlight(Run(es), u, id)
    ensures
      var all := es + [EvWake(t), EvSucceed(t), EvSucceed(u)];
      ValidRun(all) && !PlainBalance(Run(all))
  {
    WokenUp(es, t, u, id);
    TwoSuccesses(es + [EvWake(t)], t, u, id);
    assert es + [EvWake(t)] + [EvSucceed(t), EvSucceed(u)] == es + [EvWake(t), EvSucceed(t), EvSucceed(u)];
  }

  lemma WokenUp(es: seq<Event>, t: TaskId, u: TaskId, id: Id)
    requires ValidRun(es) && t in Run(es).q.live && Run(es).q.live[t].message.id == id && Run(es).q.live[t].sleeping
    requires InFlight(Run(es), u, id)
    ensures ValidRun(es + [EvWake(t)])
    ensures InFlight(Run(es + [EvWake(t)]), t, id) && InFlight(Run(es + [EvWake(t)]), u, id)
  {
    Extend(es, EvWake(t));
  }

  lemma ReconnectUnbalances(es: seq<Event>, ts: seq<TaskId>) returns (fs: seq<Event>)
    requires DisciplinedRun(es) && Enabled(Run(es), EvProcess(ts)) && Run(es).q.live != map[]
    ensures OnlyAttempts(fs) && ValidRun(es + [EvProcess(ts)] + fs) && !PlainBalance(Run(es + [EvProcess(ts)] + fs))
  {
    var live := Run(es).q.live;
    DisciplinedIsValid(es);
    RunChains(es);
    RunSolo(es);
    Extend(es, EvProcess(ts));
    assert live.Keys != {};
    var t :| t in live.Keys;
    var u := SecondAttempt(Run(es), ts, t);
    fs := TwoChains(es + [EvProcess(ts)], t, u, live[t].message.id);
  }

  lemma RemovalUnbalances(es: seq<Event>, e: Event) returns (fs: seq<Event>)
    requires DisciplinedRun(es) && (e.EvRemove? || e.EvClear?) && !Disciplined(Run(es), e)
    ensures OnlyAttempts(fs) && ValidRun(es + [e] + fs) && !PlainBalance(Run(es + [e] + fs))
  {
    var w := Run(es);
    DisciplinedIsValid(es);
    Extend(es, e);
    var t :| t in w.q.live && !w.q.live[t].sleeping && (e.EvRemove? ==> w.q.live[t].message.id == e.id);
    var id := w.q.live[t].message.id;
    WithoutIds(w.q.pending, id);
    LateSuccess(es + [e], t, id);
    fs := [EvSucceed(t)];
  }

  /** The discipline is exactly what the balance needs: after a disciplined run, an event respects it
      if and only if the counters stay balanced however the attempts then go on. */
  lemma DisciplineIsExact(es: seq<Event>, e: Event)
    requires DisciplinedRun(es) && Enabled(Run(es), e)
    ensures Disciplined(Run(es), e) <==>
              forall fs :: OnlyAttempts(fs) && ValidRun(es + [e] + fs) ==> PlainBalance(Run(es + [e] + fs))
  {
    if Disciplined(Run(es), e) {
      OneMoreDisciplined(es, e);
      forall fs | OnlyAttempts(fs) && ValidRun(es + [e] + fs)
        ensures PlainBalance(Run(es + [e] + fs))
      {
        DisciplinedBeyond(es + [e], fs);
        DisciplinedConservation(es + [e] + fs);
      }
    } else {
      var fs;
      if e.EvProcess? {
        fs := ReconnectUnbalances(es, e.tasks);
      } else {
        fs := RemovalUnbalances(es, e);
      }
      assert OnlyAttempts(fs) && ValidRun(es + [e] + fs) && !PlainBalance(Run(es + [e] + fs));
    }
  }

  lemma StartOne(live: map<TaskId, Task>, m: Message, t: TaskId)
    ensures StartAll(live, [m], [t]) == live[t := Task(m, false, t)]
  {
  }

  /** Without the discipline the balance fails: a reconnect while the first attempt is in flight
      starts a second one, and a single message is counted as delivered twice. */
  lemma DoubleDelivery(m: Message) returns (es: seq<Event>)
    requires m.retryCount == 0
    ensures ValidRun(es) && Run(es).q.queued == 1 && Run(es).q.delivered == 2
  {
    var e0, e1, e2, e3 := EvEnqueue(m, true, 0), EvProcess([1]), EvSucceed(0), EvSucceed(1);
    es := [e0];
    assert es[..0] == [];
    var w1 := Step(START, e0);
    assert Run(es) == w1 && ValidRun(es);
    assert w1.q.pending == [m];
    es := [e0, e1];
    assert es[..1] == [e0];
    var w2 := Step(w1, e1);
    assert Run(es) == w2 && ValidRun(es);
    StartOne(w1.q.live, m, 1);
    assert w2.q.live[0] == Task(m, false, 0) && w2.q.live[1] == Task(m, false, 1);
    es := [e0, e1, e2];
    assert es[..2] == [e0, e1];
    var w3 := Step(w2, e2);
    assert Run(es) == w3 && ValidRun(es);
    es := [e0, e1, e2, e3];
    assert es[..3] == [e0, e1, e2];
    assert Run(es) == Step(w3, e3) && ValidRun(es);
  }
}
