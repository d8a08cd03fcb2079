/** The client worker of `tenstore/src/remote/client.rs`: GETs and prefetches that are in flight at once. */
module PrefetchProtocol {
  import opened Wrappers

  type Key(==, !new)
  type Data(==, 00, !new)
  type GetId = nat

  /** Keys are written once: whoever puts a key puts this value. */
  ghost const VALUE: Key -> Data

  datatype GetError = AlreadyReceiving | FetchFailed
  type Reply = Result<Data, GetError>

  /** What the monitor runs: a prefetch, a GET from the server, or a GET waiting for a prefetch. */
  datatype Task = PrefetchTask(key: Key) | GetTask(id: GetId) | WaitTask(id: GetId)
  datatype Prefetched = Prefetched(key: Key, result: Reply)
  datatype Answer = Answer(id: GetId, reply: Reply)

  /** The worker's fields, its channels, the answers it has sent, and the server. `asked` says which key each GET
      asked for. */
  datatype State = State(
    local: map<Key, Data>,
    prefetching: map<Key, Option<GetId>>,
    tasks: multiset<Task>,
    queue: seq<Prefetched>,
    subs: map<GetId, Reply>,
    answers: seq<Answer>,
    server: map<Key, Data>,
    asked: map<GetId, Key>)

  // ---------------------------------------------------------------- the worker's steps

  ghost function AfterPrefetch(s: State, key: Key): State {
    if key in s.local || key in s.prefetching then s
    else s.(prefetching := s.prefetching[key := None], tasks := s.tasks + multiset{PrefetchTask(key)})
  }

  ghost function AfterGet(s: State, id: GetId, key: Key): State {
    var asked := s.asked[id := key];
    if key in s.local then s.(asked := asked, answers := s.answers + [Answer(id, Ok(s.local[key]))])
    else if key !in s.prefetching then s.(asked := asked, tasks := s.tasks + multiset{GetTask(id)})
    else if s.prefetching[key].Some? then s.(asked := asked, answers := s.answers + [Answer(id, Err(AlreadyReceiving))])
    else s.(asked := asked, prefetching := s.prefetching[key := Some(id)], tasks := s.tasks + multiset{WaitTask(id)})
  }

  /** The first finished prefetch: to its subscriber, or else into the local store, which may fail. */
  ghost function AfterPrefetched(s: State, stored: bool): State
    requires s.queue != [] && s.queue[0].key in s.prefetching
  {
    var Prefetched(key, result) := s.queue[0];
    var t := s.(prefetching := s.prefetching - {key}, queue := s.queue[1..]);
    match s.prefetching[key]
    case Some(id) => t.(subs := s.subs[id := result])
    case None => if result.Ok? && stored then t.(local := s.local[key := result.value]) else t
  }

  /** What the server may answer to a fetch. */
  ghost predicate Fetches(s: State, key: Key, reply: Reply) {
    match reply
    case Ok(data) => key in s.server && data == s.server[key]
    case Err(error) => error == FetchFailed
  }

  ghost function KeyOf(s: State, t: Task): Option<Key> {
    match t
    case PrefetchTask(key) => Some(key)
    case GetTask(id) => if id in s.asked then Some(s.asked[id]) else None
    case WaitTask(_) => None
  }

  /** A task can finish: a fetch with what the server says, a wait once its result has been sent. */
  ghost predicate CanFinish(s: State, t: Task, reply: Reply) {
    && t in s.tasks
    && match t
       case WaitTask(id) => id in s.subs && reply == s.subs[id]
       case _ => KeyOf(s, t).Some? && Fetches(s, KeyOf(s, t).value, reply)
  }

  ghost function AfterTask(s: State, t: Task, reply: Reply): State
    requires CanFinish(s, t, reply)
  {
    var u := s.(tasks := s.tasks - multiset{t});
    match t
    case PrefetchTask(key) => u.(queue := s.queue + [Prefetched(key, reply)])
    case GetTask(id) => u.(answers := s.answers + [Answer(id, reply)])
    case WaitTask(id) => u.(answers := s.answers + [Answer(id, reply)], subs := s.subs - {id})
  }

  /** A PUT reaches the server, or only reports an error. */
  ghost function AfterPut(s: State, key: Key, arrived: bool): State {
    s.(server := if arrived then s.server[key := VALUE(key)] else s.server)
  }

  /** The keys of a run go from the local store, and sooner or later from the server. */
  ghost function AfterCleanUp(s: State, keys: set<Key>, reached: bool): State {
    s.(local := s.local - keys, server := if reached then s.server - keys else s.server)
  }

  // ---------------------------------------------------------------- the invariant

  function Queued(queue: seq<Prefetched>, key: Key): nat {
    if queue == [] then 0 else (if queue[0].key == key then 1 else 0) + Queued(queue[1..], key)
  }

  function Answered(answers: seq<Answer>, id: GetId): nat {
    if answers == [] then 0
    else Answered(answers[..|answers| - 1], id) + if answers[|answers| - 1].id == id then 1 else 0
  }

  ghost predicate PrefetchedOnce(s: State, key: Key) {
    s.tasks[PrefetchTask(key)] + Queued(s.queue, key) == if key in s.prefetching then 1 else 0
  }

  /** A key is in `prefetching` exactly when one task or one queued result exists for it; there is never more
      than one. */
  ghost predicate InvPrefetching(s: State) {
    forall key :: PrefetchedOnce(s, key)
  }

  ghost predicate InOnePlace(s: State, id: GetId) {
    s.tasks[GetTask(id)] + s.tasks[WaitTask(id)] + Answered(s.answers, id) == if id in s.asked then 1 else 0
  }

  /** Every GET is in exactly one place: answered, fetching, or waiting. */
  ghost predicate InvAnswers(s: State) {
    forall id: GetId :: InOnePlace(s, id)
  }

  ghost predicate SubscribedTo(s: State, id: GetId, key: Key) {
    key in s.prefetching && s.prefetching[key] == Some(id)
  }

  /** A waiting GET is subscribed to the prefetch of its key, or has been sent the result; nothing else is. */
  ghost predicate InvWaiting(s: State) {
    && (forall id :: WaitTask(id) in s.tasks ==> id in s.subs || (id in s.asked && SubscribedTo(s, id, s.asked[id])))
    && (forall id :: id in s.subs ==> WaitTask(id) in s.tasks)
    && forall id, key :: SubscribedTo(s, id, key) ==> WaitTask(id) in s.tasks && id !in s.subs && id in s.asked && s.asked[id] == key
  }

  ghost predicate Right(key: Key, reply: Reply) {
    reply.Ok? ==> reply.value == VALUE(key)
  }

  /** Only values that were put are anywhere. */
  ghost predicate InvValues(s: State) {
    && (forall key :: key in s.local ==> s.local[key] == VALUE(key))
    && (forall key :: key in s.server ==> s.server[key] == VALUE(key))
    && (forall i :: 0 <= i < |s.queue| ==> Right(s.queue[i].key, s.queue[i].result))
    && (forall id :: id in s.subs ==> id in s.asked && Right(s.asked[id], s.subs[id]))
    && forall i :: 0 <= i < |s.answers| ==> s.answers[i].id in s.asked && Right(s.asked[s.answers[i].id], s.answers[i].reply)
  }

  ghost predicate Inv(s: State) {
    InvPrefetching(s) && InvAnswers(s) && InvWaiting(s) && InvValues(s)
  }

  lemma {:induction false} QueuedSnoc(queue: seq<Prefetched>, p: Prefetched, key: Key)
    ensures Queued(queue + [p], key) == Queued(queue, key) + if p.key == key then 1 else 0
  {
    if queue == [] {
      assert ([] + [p])[1..] == [];
    } else {
      QueuedSnoc(queue[1..], p, key);
      assert (queue + [p])[1..] == queue[1..] + [p];
    }
  }

  lemma AnsweredSnoc(answers: seq<Answer>, a: Answer, id: GetId)
    ensures Answered(answers + [a], id) == Answered(answers, id) + if a.id == id then 1 else 0
  {
    assert (answers + [a])[..|answers|] == answers;
  }

  lemma {:induction false} AnsweredPositive(answers: seq<Answer>, i: nat)
    requires i < |answers|
    ensures Answered(answers, answers[i].id) >= 1
  {
    if i < |answers| - 1 {
      AnsweredPositive(answers[..|answers| - 1], i);
    }
  }

  /** Asked for once, a GET that is nowhere yet is not waiting and has no answer. */
  lemma NotAsked(s: State, id: GetId)
    requires InvAnswers(s) && id !in s.asked
    ensures GetTask(id) !in s.tasks && WaitTask(id) !in s.tasks
    ensures forall i :: 0 <= i < |s.answers| ==> s.answers[i].id != id
  {
    assert InOnePlace(s, id);
    forall i | 0 <= i < |s.answers|
      ensures s.answers[i].id != id
    {
      AnsweredPositive(s.answers, i);
    }
  }

  // ---------------------------------------------------------------- commands keep the invariant

  lemma PrefetchKeepsInv(s: State, key: Key)
    requires Inv(s)
    ensures Inv(AfterPrefetch(s, key))
  {
    hide Queued, Answered, InvValues;
    var t := AfterPrefetch(s, key);
    forall k
      ensures PrefetchedOnce(t, k)
    {
      assert PrefetchedOnce(s, k);
    }
    forall id: GetId
      ensures InOnePlace(t, id)
    {
      assert InOnePlace(s, id);
    }
    PrefetchWaiting(s, key);
    PrefetchValues(s, key);
  }

  lemma PrefetchWaiting(s: State, key: Key)
    requires InvWaiting(s)
    ensures InvWaiting(AfterPrefetch(s, key))
  {
    var t := AfterPrefetch(s, key);
    assert forall id, k :: SubscribedTo(t, id, k) <==> SubscribedTo(s, id, k);
    hide SubscribedTo;
  }

  lemma PrefetchValues(s: State, key: Key)
    requires InvValues(s)
    ensures InvValues(AfterPrefetch(s, key))
  {
    hide Right;
  }

  lemma GetKeepsInv(s: State, id: GetId, key: Key)
    requires Inv(s) && id !in s.asked
    ensures Inv(AfterGet(s, id, key))
  {
    hide InvPrefetching, InvAnswers, InvWaiting, InvValues, AfterGet;
    NotAsked(s, id);
    GetPrefetching(s, id, key);
    GetAnswers(s, id, key);
    GetWaiting(s, id, key);
    GetValues(s, id, key);
  }

  lemma GetPrefetching(s: State, id: GetId, key: Key)
    requires InvPrefetching(s)
    ensures InvPrefetching(AfterGet(s, id, key))
  {
    hide Queued;
    var t := AfterGet(s, id, key);
    forall k
      ensures PrefetchedOnce(t, k)
    {
      assert PrefetchedOnce(s, k);
    }
  }

  /** What a GET adds: one answer, one waiting task, or one fetching task. */
  ghost predicate AddsOne(s: State, t: State, id: GetId, task: Task, answer: Answer) {
    && answer.id == id && (task == WaitTask(id) || task == GetTask(id))
    && ((t.answers == s.answers + [answer] && t.tasks == s.tasks) || (t.answers == s.answers && t.tasks == s.tasks + multiset{task}))
  }

  lemma GetAdds(s: State, id: GetId, key: Key) returns (task: Task, answer: Answer)
    ensures AfterGet(s, id, key).asked == s.asked[id := key]
    ensures AddsOne(s, AfterGet(s, id, key), id, task, answer)
  {
    task := if Subscribes(s, key) then WaitTask(id) else GetTask(id);
    answer := Answer(id, if key in s.local then Ok(s.local[key]) else Err(AlreadyReceiving));
  }

  lemma GetAnswers(s: State, id: GetId, key: Key)
    requires InvAnswers(s) && id !in s.asked
    ensures InvAnswers(AfterGet(s, id, key))
  {
    hide Answered, AfterGet;
    var t := AfterGet(s, id, key);
    var task, answer := GetAdds(s, id, key);
    forall j: GetId
      ensures InOnePlace(t, j)
    {
      assert InOnePlace(s, j);
      AnsweredSnoc(s.answers, answer, j);
    }
  }

  predicate Subscribes(s: State, key: Key) {
    key !in s.local && key in s.prefetching && s.prefetching[key] == None
  }

  lemma GetKeeps(s: State, id: GetId, key: Key)
    ensures AfterGet(s, id, key).local == s.local && AfterGet(s, id, key).server == s.server
  {}

  lemma GetAsks(s: State, id: GetId, key: Key)
    ensures AfterGet(s, id, key).asked == s.asked[id := key]
    ensures AfterGet(s, id, key).subs == s.subs && AfterGet(s, id, key).queue == s.queue
  {}

  lemma GetSubscribes(s: State, id: GetId, key: Key)
    ensures Subscribes(s, key) ==> AfterGet(s, id, key).prefetching == s.prefetching[key := Some(id)]
    ensures !Subscribes(s, key) ==> AfterGet(s, id, key).prefetching == s.prefetching
  {}

  lemma GetWaits(s: State, id: GetId, key: Key, j: GetId)
    ensures WaitTask(j) in AfterGet(s, id, key).tasks <==> WaitTask(j) in s.tasks || (Subscribes(s, key) && j == id)
  {}

  lemma GetWaiting(s: State, id: GetId, key: Key)
    requires InvWaiting(s) && id !in s.asked && WaitTask(id) !in s.tasks
    ensures InvWaiting(AfterGet(s, id, key))
  {
    hide AfterGet;
    GetAsks(s, id, key);
    GetSubscribes(s, id, key);
    var t := AfterGet(s, id, key);
    forall j: GetId
      ensures WaitTask(j) in t.tasks <==> WaitTask(j) in s.tasks || (Subscribes(s, key) && j == id)
    {
      GetWaits(s, id, key, j);
    }
    assert id !in s.subs;
    assert forall j, k :: SubscribedTo(t, j, k) <==> SubscribedTo(s, j, k) || (Subscribes(s, key) && j == id && k == key);
    hide SubscribedTo, Subscribes;
  }

  lemma GetAnswer(s: State, id: GetId, key: Key)
    requires forall k :: k in s.local ==> s.local[k] == VALUE(k)
    ensures var t := AfterGet(s, id, key);
      t.answers == s.answers || exists reply :: Right(key, reply) && t.answers == s.answers + [Answer(id, reply)]
  {
    if key in s.local {
      assert Right(key, Ok(s.local[key]));
    } else if key in s.prefetching && s.prefetching[key].Some? {
      assert Right(key, Err(AlreadyReceiving));
    }
  }

  lemma GetValues(s: State, id: GetId, key: Key)
    requires InvValues(s) && id !in s.asked
    ensures InvValues(AfterGet(s, id, key))
  {
    GetAsks(s, id, key);
    GetKeeps(s, id, key);
    GetAnswer(s, id, key);
    var t := AfterGet(s, id, key);
    hide AfterGet, Right, Subscribes;
    forall i | 0 <= i < |t.answers|
      ensures t.answers[i].id in t.asked && Right(t.asked[t.answers[i].id], t.answers[i].reply)
    {
      assert i < |s.answers| ==> t.answers[i] == s.answers[i];
    }
  }

  // ---------------------------------------------------------------- the worker's own steps keep it

  /** The map entry of a finished prefetch is always there. */
  lemma EntryExists(s: State)
    requires InvPrefetching(s) && s.queue != []
    ensures s.queue[0].key in s.prefetching
    ensures s.tasks[PrefetchTask(s.queue[0].key)] == 0 && Queued(s.queue[1..], s.queue[0].key) == 0
  {
    assert PrefetchedOnce(s, s.queue[0].key);
  }

  lemma PrefetchedKeepsInv(s: State, stored: bool)
    requires Inv(s) && s.queue != []
    ensures s.queue[0].key in s.prefetching && Inv(AfterPrefetched(s, stored))
  {
    EntryExists(s);
    hide InvPrefetching, InvAnswers, InvWaiting, InvValues, AfterPrefetched, Queued;
    PrefetchedPrefetching(s, stored);
    PrefetchedAnswers(s, stored);
    PrefetchedWaiting(s, stored);
    PrefetchedValues(s, stored);
  }

  lemma PrefetchedPrefetching(s: State, stored: bool)
    requires InvPrefetching(s) && s.queue != [] && s.queue[0].key in s.prefetching
    ensures InvPrefetching(AfterPrefetched(s, stored))
  {
    var t := AfterPrefetched(s, stored);
    EntryExists(s);
    forall k
      ensures PrefetchedOnce(t, k)
    {
      assert PrefetchedOnce(s, k);
    }
  }

  lemma PrefetchedAnswers(s: State, stored: bool)
    requires InvAnswers(s) && s.queue != [] && s.queue[0].key in s.prefetching
    ensures InvAnswers(AfterPrefetched(s, stored))
  {
    hide Answered;
    var t := AfterPrefetched(s, stored);
    forall j: GetId
      ensures InOnePlace(t, j)
    {
      assert InOnePlace(s, j);
    }
  }

  lemma PrefetchedWaiting(s: State, stored: bool)
    requires InvWaiting(s) && s.queue != [] && s.queue[0].key in s.prefetching
    ensures InvWaiting(AfterPrefetched(s, stored))
  {
    var t, key := AfterPrefetched(s, stored), s.queue[0].key;
    assert forall j, k :: SubscribedTo(t, j, k) <==> SubscribedTo(s, j, k) && k != key;
    assert forall j :: j in t.subs <==> j in s.subs || SubscribedTo(s, j, key);
    assert t.tasks == s.tasks && t.asked == s.asked;
    hide SubscribedTo, AfterPrefetched;
  }

  lemma PrefetchedValues(s: State, stored: bool)
    requires InvValues(s) && InvWaiting(s) && s.queue != [] && s.queue[0].key in s.prefetching
    ensures InvValues(AfterPrefetched(s, stored))
  {
    var t, key, result := AfterPrefetched(s, stored), s.queue[0].key, s.queue[0].result;
    assert Right(key, result);
    forall i | 0 <= i < |t.queue|
      ensures Right(t.queue[i].key, t.queue[i].result)
    {
      assert t.queue[i] == s.queue[i + 1];
    }
    forall id | id in t.subs
      ensures id in t.asked && Right(t.asked[id], t.subs[id])
    {
      if id !in s.subs {
        assert SubscribedTo(s, id, key);
      } else if SubscribedTo(s, id, key) {
        assert false;
      }
    }
  }

  lemma TaskKeepsInv(s: State, task: Task, reply: Reply)
    requires Inv(s) && CanFinish(s, task, reply)
    ensures Inv(AfterTask(s, task, reply))
  {
    hide InvPrefetching, InvAnswers, InvWaiting, InvValues, AfterTask, CanFinish;
    TaskPrefetching(s, task, reply);
    TaskAnswers(s, task, reply);
    TaskWaiting(s, task, reply);
    TaskValues(s, task, reply);
  }

  lemma TaskPrefetching(s: State, task: Task, reply: Reply)
    requires InvPrefetching(s) && CanFinish(s, task, reply)
    ensures InvPrefetching(AfterTask(s, task, reply))
  {
    hide Queued;
    var t := AfterTask(s, task, reply);
    forall k
      ensures PrefetchedOnce(t, k)
    {
      assert PrefetchedOnce(s, k);
      if task.PrefetchTask? {
        QueuedSnoc(s.queue, Prefetched(task.key, reply), k);
      }
    }
  }

  lemma TaskAnswers(s: State, task: Task, reply: Reply)
    requires InvAnswers(s) && CanFinish(s, task, reply)
    ensures InvAnswers(AfterTask(s, task, reply))
  {
    hide Answered, Fetches;
    var t := AfterTask(s, task, reply);
    forall j: GetId
      ensures InOnePlace(t, j)
    {
      assert InOnePlace(s, j);
      if !task.PrefetchTask? {
        AnsweredSnoc(s.answers, Answer(task.id, reply), j);
      }
    }
  }

  lemma WaitsOnce(s: State, id: GetId)
    requires InvAnswers(s) && WaitTask(id) in s.tasks
    ensures s.tasks[WaitTask(id)] == 1 && id in s.asked
  {
    assert InOnePlace(s, id);
  }

  lemma TaskWaiting(s: State, task: Task, reply: Reply)
    requires InvWaiting(s) && InvAnswers(s) && CanFinish(s, task, reply)
    ensures InvWaiting(AfterTask(s, task, reply))
  {
    hide AfterTask, Fetches, InvAnswers, SubscribedTo;
    var t := AfterTask(s, task, reply);
    TaskKeeps(s, task, reply);
    if task.WaitTask? {
      WaitsOnce(s, task.id);
    }
    forall j: GetId
      ensures WaitTask(j) in t.tasks <==> WaitTask(j) in s.tasks && task != WaitTask(j)
      ensures j in t.subs <==> j in s.subs && task != WaitTask(j)
    {
      TaskLeaves(s, task, reply, j);
    }
    forall j, k
      ensures SubscribedTo(t, j, k) <==> SubscribedTo(s, j, k)
    {
      SameSubscribers(s, t, j, k);
    }
  }

  lemma TaskKeeps(s: State, task: Task, reply: Reply)
    requires CanFinish(s, task, reply)
    ensures AfterTask(s, task, reply).asked == s.asked && AfterTask(s, task, reply).prefetching == s.prefetching
  {}

  lemma TaskLeaves(s: State, task: Task, reply: Reply, j: GetId)
    requires CanFinish(s, task, reply) && (task.WaitTask? ==> s.tasks[task] == 1)
    ensures WaitTask(j) in AfterTask(s, task, reply).tasks <==> WaitTask(j) in s.tasks && task != WaitTask(j)
    ensures j in AfterTask(s, task, reply).subs <==> j in s.subs && task != WaitTask(j)
  {}

  lemma SameSubscribers(s: State, t: State, id: GetId, key: Key)
    requires t.prefetching == s.prefetching
    ensures SubscribedTo(t, id, key) <==> SubscribedTo(s, id, key)
  {}

  lemma TaskValues(s: State, task: Task, reply: Reply)
    requires InvValues(s) && CanFinish(s, task, reply)
    ensures InvValues(AfterTask(s, task, reply))
  {
    var t := AfterTask(s, task, reply);
    forall i | 0 <= i < |t.queue|
      ensures Right(t.queue[i].key, t.queue[i].result)
    {
      assert i < |s.queue| ==> t.queue[i] == s.queue[i];
    }
    forall i | 0 <= i < |t.answers|
      ensures t.answers[i].id in t.asked && Right(t.asked[t.answers[i].id], t.answers[i].reply)
    {
      assert i < |s.answers| ==> t.answers[i] == s.answers[i];
    }
  }

  // ---------------------------------------------------------------- draining

  /** Tasks and queued results, by the steps they still need. */
  ghost function Load(s: State): nat {
    TaskLoad(s.tasks) + |s.queue|
  }

  /** A prefetch takes two steps, one to finish and one to be handled. */
  ghost function TaskLoad(tasks: multiset<Task>): nat
    decreases |tasks|
  {
    if tasks == multiset{} then 0
    else
      var t :| t in tasks;
      (if t.PrefetchTask? then 2 else 1) + TaskLoad(tasks - multiset{t})
  }

  lemma {:induction false} TaskLoadMinus(tasks: multiset<Task>, t: Task)
    requires t in tasks
    ensures TaskLoad(tasks) == TaskLoad(tasks - multiset{t}) + if t.PrefetchTask? then 2 else 1
    decreases |tasks|
  {
    var u :| u in tasks && TaskLoad(tasks) == (if u.PrefetchTask? then 2 else 1) + TaskLoad(tasks - multiset{u});
    if u != t {
      var a, b := tasks - multiset{u}, tasks - multiset{t};
      TaskLoadMinus(a, t);
      TaskLoadMinus(b, u);
      assert a - multiset{t} == b - multiset{u};
    }
  }

  /** A step the worker takes without a command: handle a finished prefetch, or finish a task. */
  ghost predicate Internal(s: State, t: State) {
    || (exists stored :: s.queue != [] && s.queue[0].key in s.prefetching && t == AfterPrefetched(s, stored))
    || exists task, reply :: CanFinish(s, task, reply) && t == AfterTask(s, task, reply)
  }

  ghost predicate Drained(s: State) {
    s.tasks == multiset{} && s.queue == []
  }

  lemma InternalKeepsInv(s: State, t: State)
    requires Inv(s) && Internal(s, t)
    ensures Inv(t) && t.asked == s.asked && Load(t) == Load(s) - 1
  {
    hide Inv, CanFinish;
    if stored :| s.queue != [] && s.queue[0].key in s.prefetching && t == AfterPrefetched(s, stored) {
      PrefetchedKeepsInv(s, stored);
      PrefetchedLoad(s, stored);
    } else {
      var task, reply :| CanFinish(s, task, reply) && t == AfterTask(s, task, reply);
      TaskKeepsInv(s, task, reply);
      FinishedLoad(s, task, reply);
    }
  }

  lemma PrefetchedLoad(s: State, stored: bool)
    requires s.queue != [] && s.queue[0].key in s.prefetching
    ensures AfterPrefetched(s, stored).asked == s.asked && Load(AfterPrefetched(s, stored)) == Load(s) - 1
  {}

  lemma FinishedLoad(s: State, task: Task, reply: Reply)
    requires CanFinish(s, task, reply)
    ensures AfterTask(s, task, reply).asked == s.asked && Load(AfterTask(s, task, reply)) == Load(s) - 1
  {
    hide Fetches;
    TaskLoadMinus(s.tasks, task);
    hide TaskLoad;
  }

  ghost predicate CanStep(s: State) {
    exists t :: Internal(s, t)
  }

  /** Until everything is drained some step is possible: a waiting GET never waits for nothing. */
  lemma NeverStarves(s: State)
    requires Inv(s) && !Drained(s)
    ensures CanStep(s)
  {
    hide Queued, Answered, InvValues;
    if s.queue != [] {
      EntryExists(s);
      assert Internal(s, AfterPrefetched(s, false));
    } else {
      var task :| task in s.tasks;
      var next := Finishable(s, task);
      var reply := if next.WaitTask? then s.subs[next.id] else Err(FetchFailed);
      assert CanFinish(s, next, reply);
      assert Internal(s, AfterTask(s, next, reply));
    }
  }

  /** If a task has to wait, the prefetch it waits for can finish. */
  lemma Finishable(s: State, task: Task) returns (next: Task)
    requires InvPrefetching(s) && InvAnswers(s) && InvWaiting(s) && s.queue == [] && task in s.tasks
    ensures next in s.tasks && (next.WaitTask? ==> next.id in s.subs) && (next.GetTask? ==> next.id in s.asked)
  {
    next := task;
    match task {
      case PrefetchTask(_) =>
      case GetTask(id) => assert InOnePlace(s, id);
      case WaitTask(id) =>
        if id !in s.subs {
          next := PrefetchTask(s.asked[id]);
          assert PrefetchedOnce(s, s.asked[id]);
        }
    }
  }

  ghost predicate InternalRun(ss: seq<State>) {
    |ss| >= 1 && forall i :: 0 <= i < |ss| - 1 ==> Internal(ss[i], ss[i + 1])
  }

  lemma {:induction false} RunKeepsInv(ss: seq<State>, i: nat)
    requires InternalRun(ss) && Inv(ss[0]) && i < |ss|
    ensures Inv(ss[i]) && ss[i].asked == ss[0].asked && Load(ss[i]) == Load(ss[0]) - i
  {
    hide Inv, Internal, Load;
    if i > 0 {
      RunKeepsInv(ss, i - 1);
      InternalKeepsInv(ss[i - 1], ss[i]);
    }
  }

  ghost predicate RightlyAnswered(s: State, id: GetId, key: Key) {
    forall i :: 0 <= i < |s.answers| && s.answers[i].id == id ==> Right(key, s.answers[i].reply)
  }

  /** Left to itself the worker drains in exactly `Load` steps, whatever their order; a run that cannot go on has
      answered every GET exactly once, and every successful answer is the value that was put under its key. */
  lemma EveryGetAnswered(ss: seq<State>, id: GetId)
    requires InternalRun(ss) && Inv(ss[0]) && id in ss[0].asked
    ensures |ss| - 1 <= Load(ss[0])
    ensures |ss| - 1 == Load(ss[0]) <==> !CanStep(ss[|ss| - 1])
    ensures !CanStep(ss[|ss| - 1]) ==> Answered(ss[|ss| - 1].answers, id) == 1
    ensures RightlyAnswered(ss[|ss| - 1], id, ss[0].asked[id])
  {
    var last := ss[|ss| - 1];
    RunKeepsInv(ss, |ss| - 1);
    DrainedMeans(last);
    assert InvValues(last);
    assert InOnePlace(last, id);
    hide Internal, Inv, InvValues, Load, Right, Answered;
    if !Drained(last) {
      NeverStarves(last);
    }
  }

  lemma DrainedMeans(s: State)
    requires Inv(s)
    ensures Drained(s) <==> Load(s) == 0
    ensures Drained(s) ==> !CanStep(s)
  {
    if Load(s) == 0 && s.tasks != multiset{} {
      var t :| t in s.tasks;
      TaskLoadMinus(s.tasks, t);
    }
  }

  // ---------------------------------------------------------------- puts and clean-ups

  lemma StoresKeepInv(s: State, t: State)
    requires Inv(s) && t == s.(local := t.local, server := t.server)
    requires forall key :: key in t.local ==> t.local[key] == VALUE(key)
    requires forall key :: key in t.server ==> t.server[key] == VALUE(key)
    ensures Inv(t)
  {
    hide Queued, Answered, Right;
    assert forall key :: PrefetchedOnce(s, key) ==> PrefetchedOnce(t, key);
    assert forall id :: InOnePlace(s, id) ==> InOnePlace(t, id);
    hide PrefetchedOnce, InOnePlace;
    assert forall id, key :: SubscribedTo(t, id, key) <==> SubscribedTo(s, id, key);
    hide SubscribedTo;
  }

  lemma PutKeepsInv(s: State, key: Key, arrived: bool)
    requires Inv(s)
    ensures Inv(AfterPut(s, key, arrived))
  {
    assert InvValues(s);
    hide Inv, InvValues, Right;
    ValuesAre(s);
    StoresKeepInv(s, AfterPut(s, key, arrived));
  }

  lemma CleanUpKeepsInv(s: State, keys: set<Key>, reached: bool)
    requires Inv(s)
    ensures Inv(AfterCleanUp(s, keys, reached))
  {
    assert InvValues(s);
    hide Inv, InvValues, Right;
    ValuesAre(s);
    StoresKeepInv(s, AfterCleanUp(s, keys, reached));
  }

  lemma ValuesAre(s: State)
    requires InvValues(s)
    ensures forall key :: key in s.local ==> s.local[key] == VALUE(key)
    ensures forall key :: key in s.server ==> s.server[key] == VALUE(key)
  {}

  // ---------------------------------------------------------------- every interleaving

  /** Nothing in flight; the stores may hold values that were put earlier. */
  ghost function Idle(local: map<Key, Data>, server: map<Key, Data>): State {
    State(local, map[], multiset{}, [], map[], [], server, map[])
  }

  ghost predicate OnlyPut(m: map<Key, Data>) {
    forall key :: key in m ==> m[key] == VALUE(key)
  }

  lemma IdleInv(local: map<Key, Data>, server: map<Key, Data>)
    requires OnlyPut(local) && OnlyPut(server)
    ensures Inv(Idle(local, server))
  {
    assert forall key :: PrefetchedOnce(Idle(local, server), key);
    assert forall id: GetId :: InOnePlace(Idle(local, server), id);
  }

  /** The client asks for something: a prefetch, a GET with a new identity, a PUT or a clean-up. */
  ghost predicate Commanded(s: State, t: State) {
    || (exists key :: t == AfterPrefetch(s, key))
    || (exists id, key :: id !in s.asked && t == AfterGet(s, id, key))
    || (exists key, arrived :: t == AfterPut(s, key, arrived))
    || exists keys, reached :: t == AfterCleanUp(s, keys, reached)
  }

  ghost predicate Step(s: State, t: State) {
    Commanded(s, t) || Internal(s, t)
  }

  /** Commands, finished tasks and finished prefetches in any order, from an idle worker. */
  ghost predicate Execution(ss: seq<State>) {
    && |ss| >= 1 && (exists local, server :: OnlyPut(local) && OnlyPut(server) && ss[0] == Idle(local, server))
    && forall i :: 0 <= i < |ss| - 1 ==> Step(ss[i], ss[i + 1])
  }

  lemma CommandKeepsInv(s: State, t: State)
    requires Inv(s) && Commanded(s, t)
    ensures Inv(t)
  {
    hide Inv, AfterPrefetch, AfterGet, AfterPut, AfterCleanUp;
    if key :| t == AfterPrefetch(s, key) {
      PrefetchKeepsInv(s, key);
    } else if id, key :| id !in s.asked && t == AfterGet(s, id, key) {
      GetKeepsInv(s, id, key);
    } else if key, arrived :| t == AfterPut(s, key, arrived) {
      PutKeepsInv(s, key, arrived);
    } else {
      var keys, reached :| t == AfterCleanUp(s, keys, reached);
      CleanUpKeepsInv(s, keys, reached);
    }
  }

  lemma {:induction false} InvAlong(ss: seq<State>, i: nat)
    requires Execution(ss) && i < |ss|
    ensures Inv(ss[i])
  {
    hide Inv, Commanded, Internal, Idle, OnlyPut;
    if i == 0 {
      var local, server :| OnlyPut(local) && OnlyPut(server) && ss[0] == Idle(local, server);
      IdleInv(local, server);
    } else {
      InvAlong(ss, i - 1);
      StepKeepsInv(ss[i - 1], ss[i]);
    }
  }

  lemma StepKeepsInv(s: State, t: State)
    requires Inv(s) && Step(s, t)
    ensures Inv(t)
  {
    hide Inv, Commanded, Internal;
    if Commanded(s, t) {
      CommandKeepsInv(s, t);
    } else {
      InternalKeepsInv(s, t);
    }
  }

  /** In every interleaving and every state of it: a GET that was asked has at most one answer, one that was not has
      none; as soon as nothing is in flight it has exactly one; and every successful answer is the value put under its
      key. */
  lemma AnsweredInEveryRun(ss: seq<State>, i: nat, id: GetId)
    requires Execution(ss) && i < |ss|
    ensures id !in ss[i].asked ==> Answered(ss[i].answers, id) == 0
    ensures id in ss[i].asked ==> Answered(ss[i].answers, id) <= 1 && RightlyAnswered(ss[i], id, ss[i].asked[id])
    ensures id in ss[i].asked && Drained(ss[i]) ==> Answered(ss[i].answers, id) == 1
    ensures Drained(ss[i]) <==> !CanStep(ss[i])
  {
    InvAlong(ss, i);
    var s := ss[i];
    assert InOnePlace(s, id) && InvValues(s);
    DrainedMeans(s);
    hide Execution, Inv, InvValues, Internal, Answered, Right;
    if !Drained(s) {
      NeverStarves(s);
    }
    if id in s.asked {
      RightAnswers(s, id);
    }
  }

  lemma RightAnswers(s: State, id: GetId)
    requires InvValues(s) && id in s.asked
    ensures RightlyAnswered(s, id, s.asked[id])
  {}

  // ---------------------------------------------------------------- what each step is for

  ghost predicate AnswersNow(s: State, t: State, id: GetId, reply: Reply) {
    t.answers == s.answers + [Answer(id, reply)] && t.tasks == s.tasks && t.prefetching == s.prefetching
  }

  ghost predicate Spawns(s: State, t: State, task: Task) {
    t.answers == s.answers && t.tasks == s.tasks + multiset{task}
  }

  /** A GET is answered at once with the value of its key if and only if the key is held; at once with an error if and only if it
      is not held and another GET waits for its prefetch; it waits for the prefetch if and only if no other does; and it goes to
      the server if and only if the key is neither held nor on its way. It is never told at once that a fetch has failed. */
  lemma GetOutcome(s: State, id: GetId, key: Key)
    requires Inv(s) && id !in s.asked
    ensures var t := AfterGet(s, id, key);
      && (AnswersNow(s, t, id, Ok(VALUE(key))) <==> key in s.local)
      && (AnswersNow(s, t, id, Err(AlreadyReceiving)) <==> key !in s.local && exists other :: SubscribedTo(s, other, key))
      && !AnswersNow(s, t, id, Err(FetchFailed))
      && (Spawns(s, t, WaitTask(id)) <==> key !in s.local && key in s.prefetching && forall other :: !SubscribedTo(s, other, key))
      && (Spawns(s, t, WaitTask(id)) ==> SubscribedTo(t, id, key))
      && (Spawns(s, t, GetTask(id)) <==> key !in s.local && key !in s.prefetching)
  {
    ValuesAre(s);
    hide Inv, AfterGet;
    GetCases(s, id, key);
    var t := AfterGet(s, id, key);
    var held, refused := Answer(id, Ok(VALUE(key))), Answer(id, Err(AlreadyReceiving));
    LastOf(s.answers, held);
    LastOf(s.answers, refused);
    LastOf(s.answers, Answer(id, Err(FetchFailed)));
    MoreTasks(s.tasks, GetTask(id));
    MoreTasks(s.tasks, WaitTask(id));
    assert (s.tasks + multiset{GetTask(id)})[WaitTask(id)] == s.tasks[WaitTask(id)];
  }

  lemma GetCases(s: State, id: GetId, key: Key)
    requires key in s.local ==> s.local[key] == VALUE(key)
    ensures var t := AfterGet(s, id, key);
      && (key in s.local ==> AnswersNow(s, t, id, Ok(VALUE(key))))
      && (key !in s.local && (exists other :: SubscribedTo(s, other, key)) ==> AnswersNow(s, t, id, Err(AlreadyReceiving)))
      && (key !in s.local && key in s.prefetching && (forall other :: !SubscribedTo(s, other, key)) ==>
            Spawns(s, t, WaitTask(id)) && SubscribedTo(t, id, key))
      && (key !in s.local && key !in s.prefetching ==> Spawns(s, t, GetTask(id)))
  {
    if key in s.prefetching && s.prefetching[key].Some? {
      assert SubscribedTo(s, s.prefetching[key].value, key);
    }
  }

  lemma LastOf(answers: seq<Answer>, a: Answer)
    ensures (answers + [a])[|answers|] == a && answers + [a] != answers
  {}

  lemma MoreTasks(tasks: multiset<Task>, task: Task)
    ensures (tasks + multiset{task})[task] == tasks[task] + 1 && tasks + multiset{task} != tasks
  {
    assert (tasks + multiset{task})[task] == tasks[task] + 1;
  }

  /** A prefetch goes to the server if and only if the key is neither held nor on its way; otherwise nothing happens. */
  lemma PrefetchOutcome(s: State, key: Key)
    ensures var t := AfterPrefetch(s, key);
      && (t == s <==> key in s.local || key in s.prefetching)
      && (Spawns(s, t, PrefetchTask(key)) <==> key !in s.local && key !in s.prefetching)
      && (key in t.local || key in t.prefetching)
  {
    MoreTasks(s.tasks, PrefetchTask(key));
  }

  /** A finished prefetch leaves the map. Its subscriber gets the result, if there is one; otherwise a success is held from then
      on, when the local store works, and nothing else changes there. */
  lemma PrefetchedOutcome(s: State, stored: bool)
    requires Inv(s) && s.queue != []
    ensures s.queue[0].key in s.prefetching
    ensures var key, result, t := s.queue[0].key, s.queue[0].result, AfterPrefetched(s, stored);
      && key !in t.prefetching && t.queue == s.queue[1..] && t.local - {key} == s.local - {key}
      && (forall id :: SubscribedTo(s, id, key) ==> id in t.subs && t.subs[id] == result && t.local == s.local)
      && ((forall id :: !SubscribedTo(s, id, key)) ==>
            && t.subs == s.subs
            && (key in t.local <==> key in s.local || (result.Ok? && stored))
            && (key in t.local ==> t.local[key] == VALUE(key)))
  {
    EntryExists(s);
    PrefetchedKeepsInv(s, stored);
    ValuesAre(AfterPrefetched(s, stored));
    hide Inv;
    var key := s.queue[0].key;
    assert s.prefetching[key].Some? ==> SubscribedTo(s, s.prefetching[key].value, key);
  }

  /** What a PUT stores a fetch may return, and a fetch that succeeds returns that. */
  lemma FetchOutcome(s: State, key: Key, reply: Reply)
    requires Inv(s)
    ensures Fetches(s, key, reply) <==> reply == Err(FetchFailed) || (key in s.server && reply == Ok(VALUE(key)))
    ensures key in AfterPut(s, key, true).server && AfterPut(s, key, true).server[key] == VALUE(key)
    ensures forall other, arrived :: other != key || !arrived ==>
      (other in AfterPut(s, key, arrived).server <==> other in s.server)
  {
    ValuesAre(s);
    hide Inv;
  }

  /** After a clean-up none of the keys is held, and all others still are. */
  lemma CleanUpOutcome(s: State, keys: set<Key>, reached: bool, key: Key)
    ensures key in AfterCleanUp(s, keys, reached).local <==> key in s.local && key !in keys
    ensures key in AfterCleanUp(s, keys, reached).server <==> key in s.server && !(reached && key in keys)
  {}

  /** What prefetching is for: once it has worked, a GET of the key is answered from the local store. */
  lemma PrefetchedThenHeld(s: State, key: Key, id: GetId)
    requires Inv(s) && Drained(s) && key !in s.local && key in s.server && id !in s.asked
    ensures var s1, reply := AfterPrefetch(s, key), Ok(VALUE(key));
      && CanFinish(s1, PrefetchTask(key), reply)
      && var s2 := AfterTask(s1, PrefetchTask(key), reply);
      && s2.queue != [] && s2.queue[0].key in s2.prefetching
      && var s3 := AfterPrefetched(s2, true);
      && key in s3.local && AnswersNow(s3, AfterGet(s3, id, key), id, reply)
  {
    ValuesAre(s);
    assert PrefetchedOnce(s, key);
    hide Inv;
  }

  /** And a GET that comes while the prefetch is on its way gets its result, without another fetch. */
  lemma SubscriberServed(s: State, key: Key, id: GetId, stored: bool)
    requires Inv(s) && Drained(s) && key !in s.local && key in s.server && id !in s.asked
    ensures var s1, reply := AfterGet(AfterPrefetch(s, key), id, key), Ok(VALUE(key));
      && s1.tasks == multiset{PrefetchTask(key), WaitTask(id)} && CanFinish(s1, PrefetchTask(key), reply)
      && var s2 := AfterTask(s1, PrefetchTask(key), reply);
      && s2.queue != [] && s2.queue[0].key in s2.prefetching
      && var s3 := AfterPrefetched(s2, stored);
      && s3.local == s.local && CanFinish(s3, WaitTask(id), reply)
      && AfterTask(s3, WaitTask(id), reply).answers == s.answers + [Answer(id, reply)]
  {
    ValuesAre(s);
    assert PrefetchedOnce(s, key);
    hide Inv;
  }

  // ---------------------------------------------------------------- where every answer comes from

  /** In step k the GET is asked. */
  ghost predicate AskedAt(ss: seq<State>, k: nat, id: GetId, key: Key) {
    k + 1 < |ss| && id !in ss[k].asked && ss[k + 1] == AfterGet(ss[k], id, key)
  }

  /** In step k the task finishes. */
  ghost predicate FinishedAt(ss: seq<State>, k: nat, task: Task, reply: Reply) {
    k + 1 < |ss| && CanFinish(ss[k], task, reply) && ss[k + 1] == AfterTask(ss[k], task, reply)
  }

  /** Step k decides the answer: the GET is asked for a key that is held, or for one that is not and whose prefetch already has
      a subscriber; or a fetch ends, its own or that of the prefetch of its key. */
  ghost predicate Decides(ss: seq<State>, k: nat, id: GetId, key: Key, reply: Reply) {
    || (AskedAt(ss, k, id, key) && key in ss[k].local && reply == Ok(VALUE(key)))
    || (AskedAt(ss, k, id, key) && key !in ss[k].local && (exists other :: SubscribedTo(ss[k], other, key)) && reply == Err(AlreadyReceiving))
    || (FinishedAt(ss, k, GetTask(id), reply) && KeyOf(ss[k], GetTask(id)) == Some(key))
    || FinishedAt(ss, k, PrefetchTask(key), reply)
  }

  ghost predicate Decided(ss: seq<State>, i: nat, id: GetId, key: Key, reply: Reply) {
    exists k: nat :: k < i && Decides(ss, k, id, key, reply)
  }

  ghost predicate Fetched(ss: seq<State>, i: nat, key: Key, result: Reply) {
    exists k: nat :: k < i && FinishedAt(ss, k, PrefetchTask(key), result)
  }

  /** Every result and every answer in state i goes back to an earlier step. */
  ghost predicate Traced(ss: seq<State>, i: nat)
    requires i < |ss|
  {
    TracedQueue(ss, i, ss[i].queue) && TracedSubs(ss, i, ss[i].subs, ss[i].asked) && TracedAnswers(ss, i, ss[i].answers, ss[i].asked)
  }

  ghost predicate TracedQueue(ss: seq<State>, i: nat, queue: seq<Prefetched>) {
    forall q :: 0 <= q < |queue| ==> Fetched(ss, i, queue[q].key, queue[q].result)
  }

  ghost predicate TracedSubs(ss: seq<State>, i: nat, subs: map<GetId, Reply>, asked: map<GetId, Key>) {
    forall id :: id in subs ==> id in asked && Fetched(ss, i, asked[id], subs[id])
  }

  ghost predicate TracedAnswers(ss: seq<State>, i: nat, answers: seq<Answer>, asked: map<GetId, Key>) {
    forall j :: 0 <= j < |answers| ==>
      answers[j].id in asked && Decided(ss, i, answers[j].id, asked[answers[j].id], answers[j].reply)
  }

  /** What was traced stays so, also when another GET is asked. */
  lemma StaysTraced(ss: seq<State>, i: nat, queue: seq<Prefetched>, subs: map<GetId, Reply>, answers: seq<Answer>,
                    asked: map<GetId, Key>, now: map<GetId, Key>)
    requires TracedQueue(ss, i, queue) && TracedSubs(ss, i, subs, asked) && TracedAnswers(ss, i, answers, asked)
    requires forall id :: id in asked ==> id in now && now[id] == asked[id]
    ensures TracedQueue(ss, i + 1, queue) && TracedSubs(ss, i + 1, subs, now) && TracedAnswers(ss, i + 1, answers, now)
  {
    hide Fetched, Decided;
    TracesLast(ss, i);
  }

  lemma OneMoreAnswer(ss: seq<State>, i: nat, answers: seq<Answer>, a: Answer, asked: map<GetId, Key>)
    requires TracedAnswers(ss, i, answers, asked) && a.id in asked && Decided(ss, i, a.id, asked[a.id], a.reply)
    ensures TracedAnswers(ss, i, answers + [a], asked)
  {
    hide Decided;
  }

  lemma TracesLast(ss: seq<State>, i: nat)
    ensures forall key, result :: Fetched(ss, i, key, result) ==> Fetched(ss, i + 1, key, result)
    ensures forall id, key, reply :: Decided(ss, i, id, key, reply) ==> Decided(ss, i + 1, id, key, reply)
  {
    hide FinishedAt, Decides;
  }

  lemma FetchedDecides(ss: seq<State>, i: nat, id: GetId, key: Key, reply: Reply)
    requires Fetched(ss, i, key, reply)
    ensures Decided(ss, i, id, key, reply)
  {
    hide FinishedAt, AskedAt;
    var k: nat :| k < i && FinishedAt(ss, k, PrefetchTask(key), reply);
    assert Decides(ss, k, id, key, reply);
  }

  /** A step that leaves queue, subscribers, answers and questions alone. */
  lemma TracedSame(ss: seq<State>, i: nat)
    requires i + 1 < |ss| && Traced(ss, i)
    requires ss[i + 1].queue == ss[i].queue && ss[i + 1].subs == ss[i].subs && ss[i + 1].answers == ss[i].answers && ss[i + 1].asked == ss[i].asked
    ensures Traced(ss, i + 1)
  {
    hide TracedQueue, TracedSubs, TracedAnswers;
    StaysTraced(ss, i, ss[i].queue, ss[i].subs, ss[i].answers, ss[i].asked, ss[i].asked);
  }

  lemma TracedGet(ss: seq<State>, i: nat, id: GetId, key: Key)
    requires i + 1 < |ss| && Traced(ss, i) && AskedAt(ss, i, id, key) && Inv(ss[i])
    ensures Traced(ss, i + 1)
  {
    hide TracedQueue, TracedSubs, TracedAnswers, Inv, AfterGet, Decided;
    var s, t := ss[i], ss[i + 1];
    GetAsks(s, id, key);
    var reply := GetDecides(ss, i, id, key);
    StaysTraced(ss, i, s.queue, s.subs, s.answers, s.asked, t.asked);
    if t.answers != s.answers {
      OneMoreAnswer(ss, i + 1, s.answers, Answer(id, reply), t.asked);
    }
  }

  lemma GetDecides(ss: seq<State>, i: nat, id: GetId, key: Key) returns (reply: Reply)
    requires AskedAt(ss, i, id, key) && Inv(ss[i])
    ensures ss[i + 1].answers == ss[i].answers
         || (ss[i + 1].answers == ss[i].answers + [Answer(id, reply)] && Decided(ss, i + 1, id, key, reply))
  {
    var s := ss[i];
    ValuesAre(s);
    hide Inv;
    if key in s.local {
      reply := Ok(VALUE(key));
      assert Decides(ss, i, id, key, reply);
    } else {
      reply := Err(AlreadyReceiving);
      if key in s.prefetching && s.prefetching[key].Some? {
        assert SubscribedTo(s, s.prefetching[key].value, key);
        assert Decides(ss, i, id, key, reply);
      }
    }
  }

  lemma SubscriberTraced(ss: seq<State>, i: nat, s: State, stored: bool)
    requires TracedSubs(ss, i, s.subs, s.asked) && InvWaiting(s)
    requires s.queue != [] && s.queue[0].key in s.prefetching && Fetched(ss, i, s.queue[0].key, s.queue[0].result)
    ensures TracedSubs(ss, i, AfterPrefetched(s, stored).subs, s.asked)
  {
    hide Fetched;
    assert forall id :: SubscribedTo(s, id, s.queue[0].key) ==> id in s.asked && s.asked[id] == s.queue[0].key;
  }

  lemma QueueShrinks(ss: seq<State>, i: nat, queue: seq<Prefetched>)
    requires TracedQueue(ss, i, queue) && queue != []
    ensures TracedQueue(ss, i, queue[1..]) && Fetched(ss, i, queue[0].key, queue[0].result)
  {
    hide Fetched;
  }

  lemma QueueGrows(ss: seq<State>, i: nat, queue: seq<Prefetched>, p: Prefetched)
    requires TracedQueue(ss, i, queue) && Fetched(ss, i, p.key, p.result)
    ensures TracedQueue(ss, i, queue + [p])
  {
    hide Fetched;
  }

  lemma PrefetchedParts(s: State, stored: bool)
    requires s.queue != [] && s.queue[0].key in s.prefetching
    ensures var t := AfterPrefetched(s, stored); t.queue == s.queue[1..] && t.answers == s.answers && t.asked == s.asked
  {}

  lemma TracedPrefetched(ss: seq<State>, i: nat, stored: bool)
    requires i + 1 < |ss| && Traced(ss, i) && Inv(ss[i])
    requires ss[i].queue != [] && ss[i].queue[0].key in ss[i].prefetching && ss[i + 1] == AfterPrefetched(ss[i], stored)
    ensures Traced(ss, i + 1)
  {
    var s := ss[i];
    assert InvWaiting(s);
    hide TracedQueue, TracedSubs, TracedAnswers, Inv, InvWaiting, AfterPrefetched, Fetched;
    StaysTraced(ss, i, s.queue, s.subs, s.answers, s.asked, s.asked);
    QueueShrinks(ss, i + 1, s.queue);
    SubscriberTraced(ss, i + 1, s, stored);
    PrefetchedParts(s, stored);
  }

  lemma TracedTask(ss: seq<State>, i: nat, task: Task, reply: Reply)
    requires i + 1 < |ss| && Traced(ss, i) && FinishedAt(ss, i, task, reply) && Inv(ss[i])
    ensures Traced(ss, i + 1)
  {
    var s, t := ss[i], ss[i + 1];
    hide TracedQueue, TracedSubs, TracedAnswers, Inv, AfterTask, CanFinish, Fetched, Decided, Decides;
    StaysTraced(ss, i, s.queue, s.subs, s.answers, s.asked, s.asked);
    TaskKeeps(s, task, reply);
    AfterTaskParts(s, task, reply);
    FewerSubs(ss, i + 1, s.subs, t.subs, s.asked);
    match task {
      case PrefetchTask(key) =>
        JustFetched(ss, i, key, reply);
        QueueGrows(ss, i + 1, s.queue, Prefetched(key, reply));
      case GetTask(id) =>
        OwnFetch(ss, i, id, reply);
        OneMoreAnswer(ss, i + 1, s.answers, Answer(id, reply), s.asked);
      case WaitTask(id) =>
        SubFetched(ss, i + 1, s.subs, s.asked, id);
        FetchedDecides(ss, i + 1, id, s.asked[id], reply);
        OneMoreAnswer(ss, i + 1, s.answers, Answer(id, reply), s.asked);
    }
  }

  lemma JustFetched(ss: seq<State>, i: nat, key: Key, reply: Reply)
    requires FinishedAt(ss, i, PrefetchTask(key), reply)
    ensures Fetched(ss, i + 1, key, reply)
  {
    hide FinishedAt;
  }

  lemma OwnFetch(ss: seq<State>, i: nat, id: GetId, reply: Reply)
    requires FinishedAt(ss, i, GetTask(id), reply)
    ensures id in ss[i].asked && Decided(ss, i + 1, id, ss[i].asked[id], reply)
  {
    assert Decides(ss, i, id, ss[i].asked[id], reply);
  }

  lemma SubFetched(ss: seq<State>, i: nat, subs: map<GetId, Reply>, asked: map<GetId, Key>, id: GetId)
    requires TracedSubs(ss, i, subs, asked) && id in subs
    ensures id in asked && Fetched(ss, i, asked[id], subs[id])
  {
    hide Fetched;
  }

  lemma FewerSubs(ss: seq<State>, i: nat, subs: map<GetId, Reply>, now: map<GetId, Reply>, asked: map<GetId, Key>)
    requires TracedSubs(ss, i, subs, asked) && forall id :: id in now ==> id in subs && now[id] == subs[id]
    ensures TracedSubs(ss, i, now, asked)
  {
    hide Fetched;
  }

  lemma AfterTaskParts(s: State, task: Task, reply: Reply)
    requires CanFinish(s, task, reply)
    ensures var t := AfterTask(s, task, reply);
      && t.queue == s.queue + (if task.PrefetchTask? then [Prefetched(task.key, reply)] else [])
      && t.answers == s.answers + (if task.PrefetchTask? then [] else [Answer(task.id, reply)])
      && (forall id :: id in t.subs ==> id in s.subs && t.subs[id] == s.subs[id])
      && (task.WaitTask? ==> task.id in s.subs && s.subs[task.id] == reply)
  {}

  lemma TracedStep(ss: seq<State>, i: nat)
    requires i + 1 < |ss| && Traced(ss, i) && Inv(ss[i]) && Step(ss[i], ss[i + 1])
    ensures Traced(ss, i + 1)
  {
    hide Traced, Inv, CanFinish, AfterGet, AfterTask, AfterPrefetched;
    var s, t := ss[i], ss[i + 1];
    if id, key :| id !in s.asked && t == AfterGet(s, id, key) {
      TracedGet(ss, i, id, key);
    } else if stored :| s.queue != [] && s.queue[0].key in s.prefetching && t == AfterPrefetched(s, stored) {
      TracedPrefetched(ss, i, stored);
    } else if task, reply :| CanFinish(s, task, reply) && t == AfterTask(s, task, reply) {
      TracedTask(ss, i, task, reply);
    } else {
      TracedSame(ss, i);
    }
  }

  lemma {:induction false} TracedAlong(ss: seq<State>, i: nat)
    requires Execution(ss) && i < |ss|
    ensures Traced(ss, i)
  {
    hide Traced, Inv, Commanded, Internal, Idle, OnlyPut;
    if i == 0 {
      NothingToTrace(ss);
    } else {
      TracedAlong(ss, i - 1);
      InvAlong(ss, i - 1);
      TracedStep(ss, i - 1);
    }
  }

  lemma NothingToTrace(ss: seq<State>)
    requires Execution(ss)
    ensures Traced(ss, 0)
  {
    hide Step;
  }

  /** Why a GET is answered as it is. In every interleaving each answer was decided in one step: it is the value of the key, held
      when the GET was asked; or the error of a GET asked for a key that was not held and had a subscriber; or what the fetch of
      the GET, or of the prefetch of its key, has returned. So only a fetch that failed is reported as one. */
  lemma AnswerCauses(ss: seq<State>, i: nat, j: nat)
    requires Execution(ss) && i < |ss| && j < |ss[i].answers|
    ensures var a := ss[i].answers[j];
      a.id in ss[i].asked && Decided(ss, i, a.id, ss[i].asked[a.id], a.reply)
  {
    hide Decided, Execution;
    TracedAlong(ss, i);
  }

  /** A GET of a key that is held when it is asked has, from the next state on, that one answer. */
  lemma HeldIsAnswered(ss: seq<State>, k: nat, id: GetId, key: Key)
    requires Execution(ss) && AskedAt(ss, k, id, key) && key in ss[k].local
    ensures AnswersNow(ss[k], ss[k + 1], id, Ok(VALUE(key)))
  {
    InvAlong(ss, k);
    hide Execution, Inv, AfterGet;
    GetOutcome(ss[k], id, key);
  }

  // ---------------------------------------------------------------- the worker

  class ClientWorker {
    var localStore: map<Key, Data>
    var prefetching: map<Key, Option<GetId>>
    var monitor: multiset<Task>
    var prefetchSub: seq<Prefetched>
    var subscribers: map<GetId, Reply>
    var answers: seq<Answer>
    ghost var server: map<Key, Data>
    ghost var asked: map<GetId, Key>

    ghost function View(): State
      reads this
    {
      State(localStore, prefetching, monitor, prefetchSub, subscribers, answers, server, asked)
    }

    ghost predicate Valid()
      reads this
    {
      Inv(View())
    }

    constructor (localStore: map<Key, Data>, ghost server: map<Key, Data>)
      requires OnlyPut(localStore) && OnlyPut(server)
      ensures Valid() && View() == Idle(localStore, server)
    {
      this.localStore, this.server := localStore, server;
      prefetching, monitor, prefetchSub, subscribers, answers, asked := map[], multiset{}, [], map[], [], map[];
      new;
      IdleInv(localStore, server);
    }

    /** `prefetch`: does nothing for a key that is held or on its way. */
    method Prefetch(key: Key)
      requires Valid()
      modifies this`prefetching, this`monitor
      ensures Valid() && View() == AfterPrefetch(old(View()), key)
    {
      hide Inv;
      PrefetchKeepsInv(View(), key);
      if key in localStore || key in prefetching {
        return;
      }
      prefetching := prefetching[key := None];
      monitor := monitor + multiset{PrefetchTask(key)};
    }

    /** `get`: from the local store, or by subscribing to a prefetch, or from the server. */
    method Get(id: GetId, key: Key)
      requires Valid() && id !in asked
      modifies this`prefetching, this`monitor, this`answers, this`asked
      ensures Valid() && View() == AfterGet(old(View()), id, key)
    {
      hide Inv;
      GetKeepsInv(View(), id, key);
      asked := asked[id := key];
      if key in localStore {
        answers := answers + [Answer(id, Ok(localStore[key]))];
        return;
      }
      if key in prefetching {
        if prefetching[key].Some? {
          answers := answers + [Answer(id, Err(AlreadyReceiving))];
          return;
        }
        prefetching := prefetching[key := Some(id)];
        monitor := monitor + multiset{WaitTask(id)};
        return;
      }
      monitor := monitor + multiset{GetTask(id)};
    }

    /** The first branch of `run`: the map entry it expects is always there. */
    method HandlePrefetched(storeWorks: bool)
      requires Valid() && prefetchSub != []
      modifies this`localStore, this`prefetching, this`prefetchSub, this`subscribers
      ensures old(prefetchSub[0].key in prefetching) && Valid() && View() == AfterPrefetched(old(View()), storeWorks)
    {
      hide Inv;
      PrefetchedKeepsInv(View(), storeWorks);
      var Prefetched(key, result) := prefetchSub[0];
      prefetchSub := prefetchSub[1..];
      var sub := prefetching[key];
      prefetching := prefetching - {key};
      match sub {
        case Some(id) => subscribers := subscribers[id := result];
        case None =>
          if result.Ok? && storeWorks {
            localStore := localStore[key := result.value];
          }
      }
    }

    /** A spawned task ends with what the server, or the prefetch it waits for, gave it. */
    method FinishTask(task: Task, reply: Reply)
      requires Valid() && CanFinish(View(), task, reply)
      modifies this`monitor, this`prefetchSub, this`answers, this`subscribers
      ensures Valid() && View() == AfterTask(old(View()), task, reply)
    {
      hide Inv;
      TaskKeepsInv(View(), task, reply);
      monitor := monitor - multiset{task};
      match task {
        case PrefetchTask(key) => prefetchSub := prefetchSub + [Prefetched(key, reply)];
        case GetTask(id) => answers := answers + [Answer(id, reply)];
        case WaitTask(id) =>
          answers := answers + [Answer(id, reply)];
          subscribers := subscribers - {id};
      }
    }

    /** `put`: the server may have stored the value even when the transfer reports an error. */
    method Put(key: Key, data: Data, ghost arrived: bool)
      requires Valid() && data == VALUE(key)
      modifies this`server
      ensures Valid() && View() == AfterPut(old(View()), key, arrived)
    {
      hide Inv;
      PutKeepsInv(View(), key, arrived);
      if arrived {
        server := server[key := data];
      }
    }

    /** `clean_up` */
    method CleanUp(keys: set<Key>, ghost reached: bool)
      requires Valid()
      modifies this`localStore, this`server
      ensures Valid() && View() == AfterCleanUp(old(View()), keys, reached)
    {
      hide Inv;
      CleanUpKeepsInv(View(), keys, reached);
      localStore := localStore - keys;
      if reached {
        server := server - keys;
      }
    }
  }
}
