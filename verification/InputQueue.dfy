/** The input queue that replies and notifications wait in: RonghuaInputQueue. */
module InputQueue {
  import opened Wrappers

  /** A message as RonghuaSocketClient::from_json classifies it: with or without a correlation id. */
  datatype Message<R> = Message(payload: R, hasId: bool, id: int)

  /** The poppers' test: a non-negative id wants its reply, a negative one wants anything without an id. */
  predicate Matches<R>(m: Message<R>, id: int) {
    if id >= 0 then m.hasId && m.id == id else !m.hasId
  }

  /** The front-most match, or the length when there is none. */
  function Find<R>(q: seq<Message<R>>, id: int): (k: nat)
    ensures k <= |q|
    ensures forall j :: 0 <= j < k ==> !Matches(q[j], id)
    ensures k < |q| ==> Matches(q[k], id)
  {
    if q == [] || Matches(q[0], id) then 0 else 1 + Find(q[1..], id)
  }

  function Without<R>(q: seq<Message<R>>, k: nat): (r: seq<Message<R>>)
    requires k < |q|
    ensures |r| == |q| - 1
  {
    q[..k] + q[k + 1..]
  }

  lemma WithoutRemovesOne<R>(q: seq<Message<R>>, k: nat)
    requires k < |q|
    ensures multiset(Without(q, k)) + multiset{q[k]} == multiset(q)
  {
    assert q == q[..k] + [q[k]] + q[k + 1..];
  }

  /** What a bulk pop takes: the replies to the longest prefix of ids that have answered, and what stays. */
  function TakePrefix<R>(q: seq<Message<R>>, ids: seq<int>): (r: (seq<Message<R>>, seq<Message<R>>))
    ensures |r.0| <= |ids|
    decreases |ids|
  {
    if ids == [] then ([], q)
    else
      var k := Find(q, ids[0]);
      if k == |q| then ([], q)
      else
        var rest := TakePrefix(Without(q, k), ids[1..]);
        ([q[k]] + rest.0, rest.1)
  }

  /** A bulk pop loses and invents nothing. */
  lemma {:induction false} TakePrefixKeepsAll<R>(q: seq<Message<R>>, ids: seq<int>)
    ensures multiset(TakePrefix(q, ids).0) + multiset(TakePrefix(q, ids).1) == multiset(q)
    decreases |ids|
  {
    if ids != [] {
      var k := Find(q, ids[0]);
      if k < |q| {
        var less := Without(q, k);
        TakePrefixKeepsAll(less, ids[1..]);
        WithoutRemovesOne(q, k);
        assert multiset(TakePrefix(q, ids).0) == multiset{q[k]} + multiset(TakePrefix(less, ids[1..]).0);
      }
    }
  }

  /** A bulk pop answers id by id, and stops only at an id without a reply. */
  lemma {:induction false} TakePrefixAnswers<R>(q: seq<Message<R>>, ids: seq<int>)
    ensures var r := TakePrefix(q, ids);
            && (forall i :: 0 <= i < |r.0| ==> Matches(r.0[i], ids[i]))
            && (|r.0| < |ids| ==> Find(r.1, ids[|r.0|]) == |r.1|)
    decreases |ids|
  {
    if ids != [] {
      var k := Find(q, ids[0]);
      if k < |q| {
        TakePrefixAnswers(Without(q, k), ids[1..]);
      }
    }
  }

  /** Replies to other ids, stale ones included, and notifications stay queued. */
  lemma {:induction false} TakePrefixLeavesOthers<R>(q: seq<Message<R>>, ids: seq<int>, m: Message<R>)
    requires forall id :: id in ids ==> !Matches(m, id)
    ensures multiset(TakePrefix(q, ids).1)[m] == multiset(q)[m]
    decreases |ids|
  {
    if ids != [] {
      var k := Find(q, ids[0]);
      if k < |q| {
        assert !Matches(m, ids[0]);
        assert q[k] != m;
        WithoutRemovesOne(q, k);
        TakePrefixLeavesOthers(Without(q, k), ids[1..], m);
      }
    }
  }

  /** Membership only: what is taken or stays was there, and replies to other ids stay. */
  lemma TakePrefixMembers<R>(q: seq<Message<R>>, ids: seq<int>)
    requires forall id :: id in ids ==> id >= 0
    ensures forall m :: m in TakePrefix(q, ids).0 ==> m in q
    ensures forall m :: m in TakePrefix(q, ids).1 ==> m in q
    ensures forall m :: m in q && m.hasId && m.id !in ids ==> m in TakePrefix(q, ids).1
  {
    var r := TakePrefix(q, ids);
    TakePrefixKeepsAll(q, ids);
    forall m | m in r.0
      ensures m in q
    {
      assert m in multiset(r.0) && m in multiset(q);
    }
    forall m | m in r.1
      ensures m in q
    {
      assert m in multiset(r.1) && m in multiset(q);
    }
    forall m | m in q && m.hasId && m.id !in ids
      ensures m in r.1
    {
      TakePrefixLeavesOthers(q, ids, m);
      assert m in multiset(r.1);
    }
  }

  ghost predicate HasReply<R>(q: seq<Message<R>>, id: int) {
    exists m :: m in q && Matches(m, id)
  }

  lemma FindsReply<R>(q: seq<Message<R>>, id: int)
    ensures Find(q, id) < |q| <==> HasReply(q, id)
  {
  }

  predicate DistinctIds(ids: seq<int>) {
    forall i, j :: 0 <= i < j < |ids| ==> ids[i] != ids[j]
  }

  /** How far a bulk pop gets: to the first of the ids that has no reply in the queue. */
  lemma TakesLongestPrefix<R>(q: seq<Message<R>>, ids: seq<int>)
    requires DistinctIds(ids) && forall id :: id in ids ==> id >= 0
    ensures var n := |TakePrefix(q, ids).0|;
            && (forall i :: 0 <= i < n ==> HasReply(q, ids[i]))
            && (n < |ids| ==> !HasReply(q, ids[n]))
  {
    var (taken, stays) := TakePrefix(q, ids);
    var n := |taken|;
    TakePrefixAnswers(q, ids);
    TakePrefixMembers(q, ids);
    TakePrefixKeepsAll(q, ids);
    forall i | 0 <= i < n
      ensures HasReply(q, ids[i])
    {
      assert taken[i] in q && Matches(taken[i], ids[i]);
    }
    if n < |ids| {
      assert ids[n] in ids;
      forall m | m in q
        ensures !Matches(m, ids[n])
      {
        assert m in multiset(q);
        if m in taken {
          var k :| 0 <= k < n && taken[k] == m;
          assert ids[k] in ids;
        } else {
          assert m in stays;
          var k :| 0 <= k < |stays| && stays[k] == m;
        }
      }
    }
  }

  /** The queue; every method runs under the mutex, so each is one atomic step. */
  class RonghuaInputQueue<R> {
    var queue: seq<Message<R>>

    constructor ()
      ensures queue == []
    {
      queue := [];
    }

    method Push(message: Message<R>)
      modifies this
      ensures queue == [message] + old(queue)
    {
      queue := [message] + queue;
    }

    method FindMsgWithId(id: int) returns (k: nat)
      ensures k == Find(queue, id)
    {
      k := 0;
      while k < |queue| && !Matches(queue[k], id)
        invariant k <= |queue|
        invariant Find(queue, id) == k + Find(queue[k..], id)
      {
        k := k + 1;
      }
    }

    method ContainsMsgWithIdBulk(ids: seq<int>) returns (all: bool)
      ensures all <==> forall id :: id in ids ==> HasReply(queue, id)
    {
      hide HasReply;
      for i := 0 to |ids|
        invariant forall j :: 0 <= j < i ==> HasReply(queue, ids[j])
      {
        assert ids[i] in ids;
        FindsReply(queue, ids[i]);
        var k := FindMsgWithId(ids[i]);
        if k == |queue| {
          return false;
        }
      }
      return true;
    }

    /** The caller waits, off the mutex, until its message is there; the pop itself is this step. */
    method PopReply(id: int) returns (m: Message<R>)
      requires Find(queue, id) < |queue|
      modifies this
      ensures m == old(queue[Find(queue, id)]) && Matches(m, id)
      ensures queue == Without(old(queue), Find(old(queue), id))
    {
      var k := FindMsgWithId(id);
      m := queue[k];
      queue := queue[..k] + queue[k + 1..];
    }

    /** After the wait, complete or timed out: take replies in the order of the ids, and stop at the first missing. */
    method PopReplyBulk(ids: seq<int>) returns (messages: seq<Message<R>>)
      modifies this
      ensures (messages, queue) == TakePrefix(old(queue), ids)
    {
      messages := [];
      for i := 0 to |ids|
        invariant messages + TakePrefix(queue, ids[i..]).0 == TakePrefix(old(queue), ids).0
        invariant TakePrefix(queue, ids[i..]).1 == TakePrefix(old(queue), ids).1
      {
        var k := FindMsgWithId(ids[i]);
        TakePrefixUnfold(queue, ids[i..]);
        if k == |queue| {
          assert messages + [] == messages;
          return;
        }
        assert ids[i..][1..] == ids[i + 1..];
        messages := messages + [queue[k]];
        queue := queue[..k] + queue[k + 1..];
      }
      assert ids[|ids|..] == [];
      assert messages + [] == messages;
    }
  }

  lemma TakePrefixUnfold<R>(q: seq<Message<R>>, ids: seq<int>)
    requires ids != []
    ensures var k := Find(q, ids[0]);
            && (k == |q| ==> TakePrefix(q, ids) == ([], q))
            && (k < |q| ==>
                  && TakePrefix(q, ids).0 == [q[k]] + TakePrefix(Without(q, k), ids[1..]).0
                  && TakePrefix(q, ids).1 == TakePrefix(Without(q, k), ids[1..]).1)
  {
  }

  // ---------- whole runs: a log in which every push is taken at most once ----------

  datatype Event<R> = Pushed(m: Message<R>) | Popped(id: int, m: Message<R>)

  /** The queue after any interleaving of pushes and pops; None when a pop was not enabled. */
  function Queue<R(==)>(events: seq<Event<R>>): Option<seq<Message<R>>> {
    if events == [] then Some([])
    else
      match Queue(events[..|events| - 1])
      case None => None
      case Some(q) =>
        match events[|events| - 1]
        case Pushed(m) => Some([m] + q)
        case Popped(id, m) =>
          var k := Find(q, id);
          if k < |q| && q[k] == m then Some(Without(q, k)) else None
  }

  /** The simple form: everything ever pushed, oldest first, and which pushes have been taken. */
  datatype Log<R> = Log(pushed: seq<Message<R>>, taken: set<int>)

  /** The newest push below n that matches and is not taken, or -1. */
  function Newest<R>(log: Log<R>, id: int, n: nat): (i: int)
    requires n <= |log.pushed|
    ensures -1 <= i < n
    ensures i >= 0 ==> i !in log.taken && Matches(log.pushed[i], id)
    ensures forall j :: i < j < n && j !in log.taken ==> !Matches(log.pushed[j], id)
  {
    if n == 0 then -1
    else if n - 1 !in log.taken && Matches(log.pushed[n - 1], id) then n - 1
    else Newest(log, id, n - 1)
  }

  /** The pushes below n not taken, newest first. */
  function Live<R>(log: Log<R>, n: nat): seq<Message<R>>
    requires n <= |log.pushed|
  {
    if n == 0 then []
    else if n - 1 in log.taken then Live(log, n - 1)
    else [log.pushed[n - 1]] + Live(log, n - 1)
  }

  function Logged<R(==)>(events: seq<Event<R>>): (log: Option<Log<R>>)
    ensures log.Some? ==> forall i :: i in log.value.taken ==> 0 <= i < |log.value.pushed|
  {
    if events == [] then Some(Log([], {}))
    else
      match Logged(events[..|events| - 1])
      case None => None
      case Some(log) =>
        match events[|events| - 1]
        case Pushed(m) => Some(log.(pushed := log.pushed + [m]))
        case Popped(id, m) =>
          var i := Newest(log, id, |log.pushed|);
          if i >= 0 && log.pushed[i] == m then Some(log.(taken := log.taken + {i})) else None
  }

  lemma {:induction false} LiveAfterPush<R>(log: Log<R>, m: Message<R>, n: nat)
    requires n <= |log.pushed|
    ensures Live(log.(pushed := log.pushed + [m]), n) == Live(log, n)
  {
    if n > 0 {
      LiveAfterPush(log, m, n - 1);
    }
  }

  lemma FindInCons<R>(m: Message<R>, rest: seq<Message<R>>, id: int)
    ensures Find([m] + rest, id) == if Matches(m, id) then 0 else 1 + Find(rest, id)
  {
  }

  lemma WithoutInCons<R>(m: Message<R>, rest: seq<Message<R>>, k: nat)
    requires k <= |rest|
    ensures Without([m] + rest, k) == if k == 0 then rest else [m] + Without(rest, k - 1)
  {
  }

  /** Removing the front-most match of the queue is taking the newest matching push of the log. */
  lemma {:induction false} LiveAfterPop<R>(log: Log<R>, id: int, n: nat)
    requires n <= |log.pushed|
    ensures PopsAlike(Live(log, n), id, log, Newest(log, id, n), n)
  {
    hide Find, Without;
    if n > 0 {
      LiveAfterPop(log, id, n - 1);
      var rest, i := Live(log, n - 1), Newest(log, id, n);
      var m, after := log.pushed[n - 1], log.(taken := log.taken + {i});
      if n - 1 in log.taken {
        assert i >= 0 ==> Live(after, n) == Live(after, n - 1);
      } else {
        FindInCons(m, rest, id);
        if Matches(m, id) {
          LiveUnaffected(log, n - 1, n - 1);
          WithoutInCons(m, rest, 0);
          assert Live(after, n) == rest;
        } else if i >= 0 {
          WithoutInCons(m, rest, Find(rest, id) + 1);
          assert Live(after, n) == [m] + Live(after, n - 1);
        }
      }
    }
  }

  /** A pop of this queue and the taking of push i leave the same messages, or neither is possible. */
  ghost predicate PopsAlike<R>(q: seq<Message<R>>, id: int, log: Log<R>, i: int, n: nat)
    requires n <= |log.pushed|
  {
    var k := Find(q, id);
    && (k < |q| <==> i >= 0)
    && (i >= 0 ==> i < n && q[k] == log.pushed[i] && Live(log.(taken := log.taken + {i}), n) == Without(q, k))
  }

  lemma {:induction false} LiveUnaffected<R>(log: Log<R>, i: nat, n: nat)
    requires n <= i && n <= |log.pushed|
    ensures Live(log.(taken := log.taken + {i}), n) == Live(log, n)
  {
    if n > 0 {
      LiveUnaffected(log, i, n - 1);
    }
  }

  /** The deque refines the log: over every run, the same pops are possible and the queue is what is not taken, newest
      first. */
  lemma {:induction false} QueueRefinesLog<R>(events: seq<Event<R>>)
    ensures Queue(events).Some? <==> Logged(events).Some?
    ensures Queue(events).Some? ==> Queue(events).value == Live(Logged(events).value, |Logged(events).value.pushed|)
  {
    if events != [] {
      var before := events[..|events| - 1];
      QueueRefinesLog(before);
      if Queue(before).Some? {
        var log := Logged(before).value;
        match events[|events| - 1]
        case Pushed(m) =>
          LiveAfterPush(log, m, |log.pushed|);
        case Popped(id, m) =>
          LiveAfterPop(log, id, |log.pushed|);
      }
    }
  }

  function PushedIn<R>(events: seq<Event<R>>): seq<Message<R>> {
    if events == [] then []
    else PushedIn(events[..|events| - 1]) +
         match events[|events| - 1] case Pushed(m) => [m] case Popped(_, _) => []
  }

  function PoppedIn<R>(events: seq<Event<R>>): seq<Message<R>> {
    if events == [] then []
    else PoppedIn(events[..|events| - 1]) +
         match events[|events| - 1] case Pushed(_) => [] case Popped(_, m) => [m]
  }

  /** Exactly once: over every run, what was pushed is what was popped and what is still queued. */
  lemma {:induction false} ExactlyOnce<R>(events: seq<Event<R>>)
    requires Queue(events).Some?
    ensures multiset(PushedIn(events)) == multiset(PoppedIn(events)) + multiset(Queue(events).value)
  {
    if events != [] {
      ExactlyOnce(events[..|events| - 1]);
      var e, q := events[|events| - 1], Queue(events[..|events| - 1]).value;
      if e.Popped? {
        WithoutRemovesOne(q, Find(q, e.id));
      }
    }
  }

  /**
    * Every pop of every run gets a message of its own kind, and the newest there is: a later matching push
    * that is not yet taken does not exist. Notifications and the poison message so go to id -1 alone.
    */
  lemma PopGetsNewest<R>(events: seq<Event<R>>, n: nat)
    requires n < |events| && events[n].Popped? && Queue(events[..n + 1]).Some?
    ensures var log := Logged(events[..n]);
            && log.Some?
            && var i := Newest(log.value, events[n].id, |log.value.pushed|);
               && i >= 0 && events[n].m == log.value.pushed[i]
               && Logged(events[..n + 1]) == Some(log.value.(taken := log.value.taken + {i}))
    ensures events[n].m.hasId <==> events[n].id >= 0
    ensures events[n].m.hasId ==> events[n].m.id == events[n].id
  {
    assert events[..n + 1][..n] == events[..n];
    QueueRefinesLog(events[..n + 1]);
    QueueRefinesLog(events[..n]);
  }

  /** A bulk pop as single pops, one after the other. */
  function PopEvents<R>(ids: seq<int>, messages: seq<Message<R>>): (r: seq<Event<R>>)
    requires |messages| <= |ids|
    ensures |r| == |messages|
  {
    seq(|messages|, i requires 0 <= i < |messages| => Popped(ids[i], messages[i]))
  }

  lemma QueueAfterPop<R>(events: seq<Event<R>>, id: int)
    requires Queue(events).Some? && Find(Queue(events).value, id) < |Queue(events).value|
    ensures var q := Queue(events).value;
            var k := Find(q, id);
            Queue(events + [Popped(id, q[k])]) == Some(Without(q, k))
  {
    var more := events + [Popped(id, Queue(events).value[Find(Queue(events).value, id)])];
    assert more[..|more| - 1] == events;
  }

  /** A bulk pop is the pops of the prefix it takes: what holds of runs of single pops holds of runs with bulk pops. */
  lemma {:induction false} BulkPopIsPops<R>(events: seq<Event<R>>, ids: seq<int>)
    requires Queue(events).Some?
    ensures Queue(events + PopEvents(ids, TakePrefix(Queue(events).value, ids).0))
         == Some(TakePrefix(Queue(events).value, ids).1)
    decreases |ids|
  {
    hide Queue, Find, Without;
    var q := Queue(events).value;
    var messages := TakePrefix(q, ids).0;
    if messages == [] {
      assert events + PopEvents(ids, messages) == events;
    } else {
      TakePrefixUnfold(q, ids);
      QueueAfterPop(events, ids[0]);
      BulkPopIsPops(events + [Popped(ids[0], messages[0])], ids[1..]);
      assert events + PopEvents(ids, messages)
          == events + [Popped(ids[0], messages[0])] + PopEvents(ids[1..], messages[1..]);
    }
  }
}
