/** The bulk request/reply protocol: RonghuaClient over RonghuaSocketClient and its input queue. */
module RonghuaClient {
  import opened Wrappers
  import opened InputQueue

  /** A server reply: its "result", its "error", or a result that does not have the form asked for. */
  datatype Reply<A> = Answer(value: A) | ErrorReply(message: string) | Malformed(message: string)

  /** What the network may hand over: the reply to a request by id, or a message without an id. */
  datatype Arrival<A> = ReplyTo(id: int) | Notification(payload: Reply<A>)

  /** What the server replies to a request, by the id it was sent with: asked again, it may reply something else. */
  type Answering<!Q, A> = (int, Q) -> Reply<A>

  /** How a bulk call stands: returned, thrown, or still waiting for more replies. */
  datatype Outcome<A> = Returned(values: seq<A>) | Thrown(message: string) | Waiting(values: seq<A>)

  /** Reading a reply: getTransactionBulk throws on an error reply. */
  function ReadTransaction<A>(r: Reply<A>): Result<A, string> {
    match r
    case Answer(v) => Success(v)
    case ErrorReply(message) => Failure(message)
    case Malformed(message) => Failure(message)
  }

  /** getHistoryBulk reads an error reply, which has no "result", as an empty list. */
  function ReadHistory<I>(r: Reply<seq<I>>): Result<seq<I>, string> {
    match r
    case Answer(v) => Success(v)
    case ErrorReply(_) => Success([])
    case Malformed(message) => Failure(message)
  }

  /** Value i is what is read from the reply to request i, sent with ids[i]. */
  ghost predicate Aligned<Q, A>(answer: Answering<Q, A>, read: Reply<A> -> Result<A, string>, requests: seq<Q>,
                                ids: seq<int>, values: seq<A>)
  {
    && |values| == |ids| <= |requests|
    && forall i :: 0 <= i < |values| ==> read(answer(ids[i], requests[i])) == Success(values[i])
  }

  lemma AlignedNone<Q, A>(answer: Answering<Q, A>, read: Reply<A> -> Result<A, string>, requests: seq<Q>)
    ensures Aligned(answer, read, requests, [], [])
  {
  }

  lemma AlignedExtends<Q, A>(answer: Answering<Q, A>, read: Reply<A> -> Result<A, string>, requests: seq<Q>,
                             ids: seq<int>, values: seq<A>, chunk: seq<Q>, moreIds: seq<int>, more: seq<A>)
    requires Aligned(answer, read, requests, ids, values)
    requires Aligned(answer, read, chunk, moreIds, more)
    requires chunk <= requests[|values|..]
    ensures Aligned(answer, read, requests, ids + moreIds, values + more)
  {
  }

  function Min(a: nat, b: nat): nat {
    if a < b then a else b
  }

  // ---------- what arrives ----------

  /** The arrivals as queued messages, newest first. */
  function Arrived<Q, A>(answer: Answering<Q, A>, sent: map<int, Q>, arrivals: seq<Arrival<A>>)
    : seq<Message<Reply<A>>>
  {
    if arrivals == [] then []
    else
      var before := Arrived(answer, sent, arrivals[..|arrivals| - 1]);
      match arrivals[|arrivals| - 1]
      case ReplyTo(id) => if id in sent then [Message(answer(id, sent[id]), true, id)] + before else before
      case Notification(payload) => [Message(payload, false, 0)] + before
  }

  lemma {:induction false} ArrivedAppend<Q, A>(answer: Answering<Q, A>, sent: map<int, Q>, a: seq<Arrival<A>>,
                                               b: seq<Arrival<A>>)
    ensures Arrived(answer, sent, a + b) == Arrived(answer, sent, b) + Arrived(answer, sent, a)
  {
    if b == [] {
      assert a + b == a;
    } else {
      assert (a + b)[..|a + b| - 1] == a + b[..|b| - 1];
      ArrivedAppend(answer, sent, a, b[..|b| - 1]);
    }
  }

  lemma {:induction false} ArrivedMembers<Q, A>(answer: Answering<Q, A>, sent: map<int, Q>,
                                                arrivals: seq<Arrival<A>>)
    ensures forall m :: m in Arrived(answer, sent, arrivals) && m.hasId ==>
              m.id in sent && m.payload == answer(m.id, sent[m.id]) && ReplyTo(m.id) in arrivals
    ensures forall id :: ReplyTo(id) in arrivals && id in sent ==>
              Message(answer(id, sent[id]), true, id) in Arrived(answer, sent, arrivals)
  {
    if arrivals != [] {
      var front, last := arrivals[..|arrivals| - 1], arrivals[|arrivals| - 1];
      ArrivedMembers(answer, sent, front);
      assert arrivals == front + [last];
    }
  }

  /** A sent id has a reply in the queue if it had one before or one arrived. */
  lemma RepliesArrived<Q, A>(answer: Answering<Q, A>, sent: map<int, Q>, arrivals: seq<Arrival<A>>,
                             before: seq<Message<Reply<A>>>, id: int)
    requires id in sent && id >= 0
    ensures HasReply(Arrived(answer, sent, arrivals) + before, id)
       <==> HasReply(before, id) || ReplyTo(id) in arrivals
  {
    hide Arrived;
    var after := Arrived(answer, sent, arrivals) + before;
    ArrivedMembers(answer, sent, arrivals);
    if ReplyTo(id) in arrivals {
      var m := Message(answer(id, sent[id]), true, id);
      assert m in after && Matches(m, id);
    }
    if m :| m in before && Matches(m, id) {
      assert m in after;
    }
  }

  // ---------- rounds ----------

  /** One round of a bulk call: the ids firstId.. go out for the requests start.., and the first `got` are answered. */
  datatype Round = Round(firstId: int, start: nat, asked: nat, got: nat)

  /** The last id used, and how many requests are answered. */
  function EndId(rounds: seq<Round>, counter: int): int {
    if rounds == [] then counter else rounds[|rounds| - 1].firstId + rounds[|rounds| - 1].asked - 1
  }

  function Done(rounds: seq<Round>): nat {
    if rounds == [] then 0 else rounds[|rounds| - 1].start + rounds[|rounds| - 1].got
  }

  /** How many of the n ids from `first` on are answered, up to the first that is not. */
  ghost function AnsweredPrefix<A>(arrivals: seq<Arrival<A>>, first: int, n: nat): (k: nat)
    ensures k <= n
    ensures forall i :: first <= i < first + k ==> ReplyTo(i) in arrivals
    ensures k < n ==> ReplyTo(first + k) !in arrivals
    decreases n
  {
    if n == 0 || ReplyTo(first) !in arrivals then 0 else 1 + AnsweredPrefix(arrivals, first + 1, n - 1)
  }

  /** The round that comes after the others: the next chunk of what is not answered goes out under ids not used before,
      and the replies to its own ids are taken, up to the first that has not arrived. */
  ghost predicate Follows<A>(arrivals: seq<Arrival<A>>, front: seq<Round>, round: Round, counter: int, count: nat,
                             chunk: nat)
  {
    && round.start == Done(front) < count
    && round.firstId == EndId(front, counter) + 1
    && round.asked == Min(chunk, count - round.start)
    && round.got == AnsweredPrefix(arrivals, round.firstId, round.asked)
  }

  /** The rounds that a schedule of arrivals leads to. */
  ghost predicate Chain<A>(schedule: seq<seq<Arrival<A>>>, rounds: seq<Round>, counter: int, count: nat, chunk: nat)
    requires |rounds| <= |schedule|
  {
    rounds == [] ||
    var front, last := rounds[..|rounds| - 1], rounds[|rounds| - 1];
    Chain(schedule, front, counter, count, chunk) && Follows(schedule[|front|], front, last, counter, count, chunk)
  }

  /** The rounds in which the reply to the first outstanding id did not arrive. */
  ghost function SilentRounds<A>(schedule: seq<seq<Arrival<A>>>, rounds: seq<Round>): (n: nat)
    requires |rounds| <= |schedule|
    ensures n <= |rounds|
  {
    if rounds == [] then 0
    else
      var last := |rounds| - 1;
      SilentRounds(schedule, rounds[..last]) + if ReplyTo(rounds[last].firstId) in schedule[last] then 0 else 1
  }

  /** Every round that is not silent answers a request. */
  lemma {:induction false} RoundsProgress<A>(schedule: seq<seq<Arrival<A>>>, rounds: seq<Round>, counter: int,
                                             count: nat, chunk: nat)
    requires |rounds| <= |schedule| && chunk > 0 && Chain(schedule, rounds, counter, count, chunk)
    ensures |rounds| <= Done(rounds) + SilentRounds(schedule, rounds)
    ensures Done(rounds) <= count
  {
    if rounds != [] {
      RoundsProgress(schedule, rounds[..|rounds| - 1], counter, count, chunk);
    }
  }

  /** The schedule decides the rounds: two calls that saw the same arrivals went through the same rounds. */
  lemma {:induction false} RoundsUnique<A>(schedule: seq<seq<Arrival<A>>>, a: seq<Round>, b: seq<Round>, counter: int,
                                           count: nat, chunk: nat)
    requires |a| == |b| <= |schedule|
    requires Chain(schedule, a, counter, count, chunk) && Chain(schedule, b, counter, count, chunk)
    ensures a == b
  {
    if a != [] {
      RoundsUnique(schedule, a[..|a| - 1], b[..|b| - 1], counter, count, chunk);
    }
  }

  ghost predicate Within(rounds: seq<Round>, count: nat) {
    forall r :: 0 <= r < |rounds| ==> rounds[r].got <= rounds[r].asked && rounds[r].start + rounds[r].asked <= count
  }

  /** Every request of every round was sent under its id. */
  ghost predicate SentInRounds<Q>(sent: map<int, Q>, requests: seq<Q>, rounds: seq<Round>)
    requires Within(rounds, |requests|)
  {
    forall r :: 0 <= r < |rounds| ==>
      SentFrom(sent, requests[rounds[r].start..rounds[r].start + rounds[r].asked], rounds[r].firstId)
  }

  ghost predicate SentFrom<Q>(sent: map<int, Q>, chunk: seq<Q>, first: int) {
    forall id :: first <= id < first + |chunk| ==> id in sent && sent[id] == chunk[id - first]
  }

  /** The replies to a chunk of requests sent under the ids from `first` on. */
  function Replies<Q, A>(answer: Answering<Q, A>, chunk: seq<Q>, first: int): (r: seq<Message<Reply<A>>>)
    ensures |r| == |chunk|
    ensures forall k :: 0 <= k < |chunk| ==> r[k] == Message(answer(first + k, chunk[k]), true, first + k)
  {
    seq(|chunk|, k requires 0 <= k < |chunk| => Message(answer(first + k, chunk[k]), true, first + k))
  }

  /** All that the rounds take from the queue: value i is taken under the id its request was sent with that round. */
  function TakenIn<Q, A>(answer: Answering<Q, A>, requests: seq<Q>, rounds: seq<Round>): seq<Message<Reply<A>>>
    requires Within(rounds, |requests|)
  {
    if rounds == [] then []
    else
      var front, last := rounds[..|rounds| - 1], rounds[|rounds| - 1];
      TakenIn(answer, requests, front) +
      Replies(answer, requests[last.start..last.start + last.got], last.firstId)
  }

  /** The ids from `first` on. */
  function IdsFrom(first: int, n: nat): (r: seq<int>)
    ensures |r| == n && forall k :: 0 <= k < n ==> r[k] == first + k
  {
    seq(n, k => first + k)
  }

  /** The ids whose replies the rounds take, one for each value in turn. */
  function IdsOf(rounds: seq<Round>): seq<int> {
    if rounds == [] then []
    else
      var last := rounds[|rounds| - 1];
      IdsOf(rounds[..|rounds| - 1]) + IdsFrom(last.firstId, last.got)
  }

  function UpTo<Q>(sent: map<int, Q>, limit: int): map<int, Q> {
    map id | id in sent && id <= limit :: sent[id]
  }

  /** All that arrives during the rounds; each round can be sent replies to what was sent by then. */
  function ArrivedIn<Q, A>(answer: Answering<Q, A>, sent: map<int, Q>, schedule: seq<seq<Arrival<A>>>,
                           rounds: seq<Round>)
    : seq<Message<Reply<A>>>
    requires |rounds| <= |schedule|
  {
    if rounds == [] then []
    else
      var last := |rounds| - 1;
      Arrived(answer, UpTo(sent, EndId(rounds, 0)), schedule[last]) +
      ArrivedIn(answer, sent, schedule, rounds[..last])
  }

  lemma SentByIds<Q>(sent: map<int, Q>, requests: seq<Q>, first: int, ids: seq<int>)
    requires SentFrom(sent, requests, first) && first >= 0
    requires |ids| == |requests| && forall k :: 0 <= k < |ids| ==> ids[k] == first + k
    ensures DistinctIds(ids) && forall id :: id in ids ==> id >= 0 && id in sent
    ensures forall k :: 0 <= k < |ids| ==> sent[ids[k]] == requests[k]
  {
  }

  /** The ids rise from round to round. */
  ghost predicate Rising(rounds: seq<Round>, counter: int) {
    && counter <= EndId(rounds, counter)
    && (forall r :: 0 <= r < |rounds| ==> counter < rounds[r].firstId <= EndId(rounds, counter) + 1 - rounds[r].asked)
    && (forall p, r :: 0 <= p < r < |rounds| ==> rounds[p].firstId + rounds[p].asked <= rounds[r].firstId)
  }

  lemma RisesByOne<A>(arrivals: seq<Arrival<A>>, front: seq<Round>, round: Round, counter: int, count: nat, chunk: nat)
    requires Within(front, count) && Rising(front, counter)
    requires Follows(arrivals, front, round, counter, count, chunk)
    ensures Within(front + [round], count) && Rising(front + [round], counter)
  {
    hide AnsweredPrefix, Done;
    assert round.got <= round.asked;
  }

  lemma {:induction false} ChainRises<A>(schedule: seq<seq<Arrival<A>>>, rounds: seq<Round>, counter: int, count: nat,
                                         chunk: nat)
    requires |rounds| <= |schedule| && Chain(schedule, rounds, counter, count, chunk)
    ensures Within(rounds, count) && Rising(rounds, counter)
  {
    hide Follows, Rising, Within;
    if rounds == [] {
      NothingRises(counter, count);
    } else {
      var front, last := rounds[..|rounds| - 1], rounds[|rounds| - 1];
      ChainRises(schedule, front, counter, count, chunk);
      RisesByOne(schedule[|front|], front, last, counter, count, chunk);
      assert rounds == front + [last];
    }
  }

  lemma NothingRises(counter: int, count: nat)
    ensures Within([], count) && Rising([], counter)
  {
  }

  /** Requests sent later change nothing about what arrived. */
  lemma {:induction false} ArrivedInKept<Q, A>(answer: Answering<Q, A>, less: map<int, Q>, more: map<int, Q>,
                                               schedule: seq<seq<Arrival<A>>>, rounds: seq<Round>, counter: int)
    requires |rounds| <= |schedule| && Rising(rounds, counter)
    requires UpTo(less, EndId(rounds, counter)) == UpTo(more, EndId(rounds, counter))
    ensures ArrivedIn(answer, less, schedule, rounds) == ArrivedIn(answer, more, schedule, rounds)
  {
    if rounds != [] {
      var front := rounds[..|rounds| - 1];
      var limit := EndId(front, counter);
      if front != [] {
        assert front[|front| - 1] == rounds[|front| - 1];
        assert limit <= EndId(rounds, counter);
        assert UpTo(less, limit) == UpTo(UpTo(less, EndId(rounds, counter)), limit);
        assert UpTo(more, limit) == UpTo(UpTo(more, EndId(rounds, counter)), limit);
        ArrivedInKept(answer, less, more, schedule, front, counter);
      }
    }
  }

  /** The messages are the replies to the first requests, each to the id that its request was sent with. */
  ghost predicate Tagged<Q, A>(answer: Answering<Q, A>, requests: seq<Q>, ids: seq<int>,
                               messages: seq<Message<Reply<A>>>)
  {
    && |ids| == |messages| <= |requests|
    && forall i :: 0 <= i < |ids| ==> messages[i] == Message(answer(ids[i], requests[i]), true, ids[i])
  }

  lemma TaggedAppend<Q, A>(answer: Answering<Q, A>, requests: seq<Q>, ids: seq<int>, messages: seq<Message<Reply<A>>>,
                           first: int, got: nat)
    requires Tagged(answer, requests, ids, messages) && |ids| + got <= |requests|
    ensures Tagged(answer, requests, ids + IdsFrom(first, got),
                   messages + Replies(answer, requests[|ids|..|ids| + got], first))
  {
  }

  /** Value i is taken under IdsOf(rounds)[i], the id that its request was sent with in its round. */
  lemma {:induction false} TakenByIds<Q, A>(answer: Answering<Q, A>, requests: seq<Q>,
                                            schedule: seq<seq<Arrival<A>>>, rounds: seq<Round>, counter: int,
                                            chunk: nat)
    requires |rounds| <= |schedule| && Chain(schedule, rounds, counter, |requests|, chunk)
    requires Within(rounds, |requests|)
    ensures Tagged(answer, requests, IdsOf(rounds), TakenIn(answer, requests, rounds))
    ensures |IdsOf(rounds)| == Done(rounds)
  {
    hide AnsweredPrefix, Tagged, Replies;
    if rounds == [] {
      NothingTagged(answer, requests);
    } else {
      var front, last := rounds[..|rounds| - 1], rounds[|rounds| - 1];
      TakenByIds(answer, requests, schedule, front, counter, chunk);
      TaggedAppend(answer, requests, IdsOf(front), TakenIn(answer, requests, front), last.firstId, last.got);
    }
  }

  /** The ids are those that the requests from `start` on were sent with. */
  ghost predicate SentAs<Q>(sent: map<int, Q>, requests: seq<Q>, start: nat, ids: seq<int>) {
    && start + |ids| <= |requests|
    && forall k :: 0 <= k < |ids| ==> ids[k] in sent && sent[ids[k]] == requests[start + k]
  }

  lemma SentAsAppend<Q>(sent: map<int, Q>, requests: seq<Q>, ids: seq<int>, more: seq<int>)
    requires SentAs(sent, requests, 0, ids) && SentAs(sent, requests, |ids|, more)
    ensures SentAs(sent, requests, 0, ids + more)
  {
  }

  lemma AskedSent<Q>(sent: map<int, Q>, requests: seq<Q>, round: Round)
    requires round.start + round.asked <= |requests| && round.got <= round.asked
    requires SentFrom(sent, requests[round.start..round.start + round.asked], round.firstId)
    ensures SentAs(sent, requests, round.start, IdsFrom(round.firstId, round.got))
  {
    var ids := IdsFrom(round.firstId, round.got);
    forall k | 0 <= k < |ids|
      ensures ids[k] in sent && sent[ids[k]] == requests[round.start + k]
    {
      assert requests[round.start..round.start + round.asked][k] == requests[round.start + k];
    }
  }

  /** And IdsOf(rounds)[i] is an id that request i was sent with. */
  lemma {:induction false} IdsSent<Q, A>(sent: map<int, Q>, requests: seq<Q>, schedule: seq<seq<Arrival<A>>>,
                                         rounds: seq<Round>, counter: int, chunk: nat)
    requires |rounds| <= |schedule| && Chain(schedule, rounds, counter, |requests|, chunk)
    requires Within(rounds, |requests|) && SentInRounds(sent, requests, rounds)
    ensures |IdsOf(rounds)| == Done(rounds) && SentAs(sent, requests, 0, IdsOf(rounds))
  {
    hide AnsweredPrefix, SentInRounds, Within, SentAs;
    if rounds == [] {
      NothingSent(sent, requests);
    } else {
      var front, last := rounds[..|rounds| - 1], rounds[|rounds| - 1];
      SentInFront(sent, requests, rounds);
      IdsSent(sent, requests, schedule, front, counter, chunk);
      SentAsAppend(sent, requests, IdsOf(front), IdsFrom(last.firstId, last.got));
    }
  }

  lemma SentInFront<Q>(sent: map<int, Q>, requests: seq<Q>, rounds: seq<Round>)
    requires rounds != [] && Within(rounds, |requests|) && SentInRounds(sent, requests, rounds)
    ensures var front, last := rounds[..|rounds| - 1], rounds[|rounds| - 1];
            && Within(front, |requests|) && SentInRounds(sent, requests, front)
            && SentAs(sent, requests, last.start, IdsFrom(last.firstId, last.got))
  {
    hide SentFrom, SentAs;
    AskedSent(sent, requests, rounds[|rounds| - 1]);
  }

  lemma NothingSent<Q>(sent: map<int, Q>, requests: seq<Q>)
    ensures SentAs(sent, requests, 0, [])
  {
  }

  lemma NothingTagged<Q, A>(answer: Answering<Q, A>, requests: seq<Q>)
    ensures Tagged(answer, requests, [], [])
  {
  }

  // ---------- what is taken and what stays ----------

  /** An id whose reply some round took. */
  ghost predicate TakenId(rounds: seq<Round>, id: int) {
    exists r :: 0 <= r < |rounds| && rounds[r].firstId <= id < rounds[r].firstId + rounds[r].got
  }

  lemma {:induction false} TakenMembers<Q, A>(answer: Answering<Q, A>, requests: seq<Q>, rounds: seq<Round>)
    requires Within(rounds, |requests|)
    ensures forall m :: m in TakenIn(answer, requests, rounds) ==> m.hasId && TakenId(rounds, m.id)
  {
    if rounds != [] {
      var front, last := rounds[..|rounds| - 1], rounds[|rounds| - 1];
      TakenMembers(answer, requests, front);
      forall m | m in TakenIn(answer, requests, rounds)
        ensures m.hasId && TakenId(rounds, m.id)
      {
        if m in TakenIn(answer, requests, front) {
          var r :| 0 <= r < |front| && front[r].firstId <= m.id < front[r].firstId + front[r].got;
          assert rounds[r] == front[r];
        } else {
          assert rounds[|front|] == last;
        }
      }
    }
  }

  predicate RisingIds<R>(messages: seq<Message<R>>) {
    forall i, j :: 0 <= i < j < |messages| ==> messages[i].id < messages[j].id
  }

  lemma RisingAppend<R>(a: seq<Message<R>>, b: seq<Message<R>>, limit: int)
    requires RisingIds(a) && RisingIds(b)
    requires (forall m :: m in a ==> m.id < limit) && forall m :: m in b ==> limit <= m.id
    ensures RisingIds(a + b)
  {
  }

  /** No id is answered twice: every reply is taken at most once, and each under an id of its own. */
  lemma {:induction false} TakenOnce<Q, A>(answer: Answering<Q, A>, requests: seq<Q>, rounds: seq<Round>, counter: int)
    requires Within(rounds, |requests|) && Rising(rounds, counter)
    ensures RisingIds(TakenIn(answer, requests, rounds))
  {
    hide Rising;
    if rounds != [] {
      var front, last := rounds[..|rounds| - 1], rounds[|rounds| - 1];
      RisingPrefix(rounds, counter, |requests|);
      TakenOnce(answer, requests, front, counter);
      TakenMembers(answer, requests, front);
      RisingAppend(TakenIn(answer, requests, front),
                   Replies(answer, requests[last.start..last.start + last.got], last.firstId), last.firstId);
    }
  }

  lemma RisingPrefix(rounds: seq<Round>, counter: int, count: nat)
    requires rounds != [] && Rising(rounds, counter) && Within(rounds, count)
    ensures Rising(rounds[..|rounds| - 1], counter)
    ensures forall r :: 0 <= r < |rounds| - 1 ==> rounds[r].firstId + rounds[r].got <= rounds[|rounds| - 1].firstId
  {
  }

  /** The ids a round gives up on, and those used before the call, are never taken: later rounds use fresh ones. */
  lemma NeverTaken(rounds: seq<Round>, counter: int, count: nat, id: int)
    requires Within(rounds, count) && Rising(rounds, counter)
    requires id <= counter || exists r :: 0 <= r < |rounds| && Abandons(rounds[r], id)
    ensures !TakenId(rounds, id)
  {
    if id > counter {
      var p :| 0 <= p < |rounds| && Abandons(rounds[p], id);
      forall r | 0 <= r < |rounds|
        ensures !(rounds[r].firstId <= id < rounds[r].firstId + rounds[r].got)
      {
        assert r < p ==> rounds[r].firstId + rounds[r].asked <= rounds[p].firstId;
        assert p < r ==> rounds[p].firstId + rounds[p].asked <= rounds[r].firstId;
      }
    }
  }

  /** An id that a round sent and gave up on. */
  predicate Abandons(round: Round, id: int) {
    round.firstId + round.got <= id < round.firstId + round.asked
  }

  /** Conservation of messages over a call: queued before or arrived is taken or queued after. */
  ghost predicate Conserved<M>(before: seq<M>, arrived: seq<M>, taken: seq<M>, after: seq<M>) {
    multiset(before) + multiset(arrived) == multiset(taken) + multiset(after)
  }

  lemma ConservedTwice<M>(a: seq<M>, in1: seq<M>, out1: seq<M>, b: seq<M>, in2: seq<M>, out2: seq<M>, c: seq<M>)
    requires Conserved(a, in1, out1, b) && Conserved(b, in2, out2, c)
    ensures Conserved(a, in2 + in1, out1 + out2, c)
  {
    var m1, m2, o1, o2 := multiset(in1), multiset(in2), multiset(out1), multiset(out2);
    assert multiset(in2 + in1) == m2 + m1 && multiset(out1 + out2) == o1 + o2;
    assert multiset(a) + (m2 + m1) == (multiset(a) + m1) + m2;
    assert (o1 + multiset(b)) + m2 == o1 + (multiset(b) + m2);
    assert o1 + (o2 + multiset(c)) == (o1 + o2) + multiset(c);
  }

  /** What is not the reply to a taken id stays: notifications, replies to ids used before the call, and late or
      repeated replies to ids that a round of the call itself has abandoned. */
  lemma {:induction false} StaleStays<Q, A>(answer: Answering<Q, A>, requests: seq<Q>, rounds: seq<Round>, counter: int,
                                            before: seq<Message<Reply<A>>>, arrived: seq<Message<Reply<A>>>,
                                            after: seq<Message<Reply<A>>>, m: Message<Reply<A>>)
    requires Within(rounds, |requests|) && Rising(rounds, counter)
    requires Conserved(before, arrived, TakenIn(answer, requests, rounds), after)
    requires !m.hasId || m.id <= counter || exists r :: 0 <= r < |rounds| && Abandons(rounds[r], m.id)
    ensures multiset(after)[m] == multiset(before)[m] + multiset(arrived)[m]
  {
    TakenMembers(answer, requests, rounds);
    if m.hasId {
      NeverTaken(rounds, counter, |requests|, m.id);
    }
    assert m !in multiset(TakenIn(answer, requests, rounds));
    assert (multiset(before) + multiset(arrived))[m] == multiset(before)[m] + multiset(arrived)[m];
  }

  // ---------- the client ----------

  /** One connection: what was sent over it by id, and the queue that the receiver thread fills. */
  class RonghuaSocketClient<Q, A(!new)> {
    const answer: Answering<Q, A>
    const queue: RonghuaInputQueue<Reply<A>>
    var sent: map<int, Q>

    constructor (answer: Answering<Q, A>)
      ensures Valid() && sent == map[] && queue.queue == []
      ensures this.answer == answer && fresh(queue)
    {
      this.answer := answer;
      queue := new RonghuaInputQueue();
      sent := map[];
    }

    /** Every queued reply answers the request that was sent with its id. */
    ghost predicate Valid()
      reads this, queue
    {
      forall m :: m in queue.queue && m.hasId ==> m.id in sent && m.payload == answer(m.id, sent[m.id])
    }

    method SendRequest(request: Q, id: int)
      requires Valid() && id !in sent
      modifies this
      ensures Valid() && sent == old(sent)[id := request]
    {
      sent := sent[id := request];
    }

    /** Replies and notifications reach the front of the queue in any order; only what was sent can be answered. */
    method Receive(arrivals: seq<Arrival<A>>)
      requires Valid()
      modifies queue
      ensures queue.queue == Arrived(answer, sent, arrivals) + old(queue.queue)
    {
      for i := 0 to |arrivals|
        invariant queue.queue == Arrived(answer, sent, arrivals[..i]) + old(queue.queue)
      {
        assert arrivals[..i + 1][..i] == arrivals[..i];
        match arrivals[i] {
          case ReplyTo(id) =>
            if id in sent {
              queue.Push(Message(answer(id, sent[id]), true, id));
            }
          case Notification(payload) =>
            queue.Push(Message(payload, false, 0));
        }
      }
      assert arrivals[..|arrivals|] == arrivals;
    }

    /** condition_.wait_for: messages arrive until every id has a reply, or the time is over. */
    method WaitForReplies(ids: seq<int>, arrivals: seq<Arrival<A>>) returns (n: nat)
      requires Valid()
      modifies queue
      ensures n <= |arrivals| && queue.queue == Arrived(answer, sent, arrivals[..n]) + old(queue.queue)
      ensures n < |arrivals| ==> forall id :: id in ids ==> HasReply(queue.queue, id)
    {
      hide Arrived, HasReply;
      n := 0;
      NothingArrived(answer, sent, arrivals[..0]);
      var complete := queue.ContainsMsgWithIdBulk(ids);
      while n < |arrivals| && !complete
        invariant 0 <= n <= |arrivals|
        invariant queue.queue == Arrived(answer, sent, arrivals[..n]) + old(queue.queue)
        invariant complete <==> forall id :: id in ids ==> HasReply(queue.queue, id)
      {
        ArrivedValid(answer, sent, arrivals[..n], old(queue.queue));
        Receive([arrivals[n]]);
        assert arrivals[..n + 1] == arrivals[..n] + [arrivals[n]];
        ArrivedAppend(answer, sent, arrivals[..n], [arrivals[n]]);
        n := n + 1;
        complete := queue.ContainsMsgWithIdBulk(ids);
      }
    }

    /** receive_response_bulk: the wait, the pop, and what arrives after it. */
    method ReceiveResponseBulk(ids: seq<int>, arrivals: seq<Arrival<A>>)
      returns (responses: seq<Reply<A>>, ghost n: nat)
      requires Valid() && DistinctIds(ids) && forall id :: id in ids ==> id >= 0 && id in sent
      modifies queue
      ensures Valid() && n <= |arrivals|
      ensures var (taken, stays) := TakePrefix(Arrived(answer, sent, arrivals[..n]) + old(queue.queue), ids);
              && queue.queue == Arrived(answer, sent, arrivals[n..]) + stays && |responses| == |taken| <= |ids|
              && forall i :: 0 <= i < |responses| ==> taken[i] == Message(responses[i], true, ids[i])
      ensures forall i :: 0 <= i < |responses| ==> ids[i] in sent && responses[i] == answer(ids[i], sent[ids[i]])
      ensures forall i :: 0 <= i < |responses| ==> HasReply(old(queue.queue), ids[i]) || ReplyTo(ids[i]) in arrivals
      ensures var k := |responses|;
              k < |ids| ==> !HasReply(old(queue.queue), ids[k]) && ReplyTo(ids[k]) !in arrivals
    {
      hide TakePrefix, Arrived, HasReply;
      var waited := WaitForReplies(ids, arrivals);
      n := waited;
      ghost var before := queue.queue;
      ArrivedValid(answer, sent, arrivals[..n], old(queue.queue));
      var messages := queue.PopReplyBulk(ids);
      TakePrefixMembers(before, ids);
      TakePrefixAnswers(before, ids);
      TakesLongestPrefix(before, ids);
      forall i | 0 <= i < |ids|
        ensures HasReply(before, ids[i]) <==> HasReply(old(queue.queue), ids[i]) || ReplyTo(ids[i]) in arrivals[..n]
      {
        assert ids[i] in ids;
        RepliesArrived(answer, sent, arrivals[..n], old(queue.queue), ids[i]);
      }
      assert |messages| < |ids| ==> ids[|messages|] in ids;
      assert arrivals[..|arrivals|] == arrivals;
      ghost var stays := queue.queue;
      Receive(arrivals[waited..]);
      ArrivedValid(answer, sent, arrivals[n..], stays);
      responses := [];
      for i := 0 to |messages|
        invariant |responses| == i
        invariant forall k :: 0 <= k < i ==> messages[k] == Message(responses[k], true, ids[k])
        invariant forall k :: 0 <= k < i ==> ids[k] in sent && responses[k] == answer(ids[k], sent[ids[k]])
      {
        assert ids[i] in ids && Matches(messages[i], ids[i]) && messages[i] in before;
        responses := responses + [messages[i].payload];
      }
    }
  }

  lemma NothingArrived<Q, A>(answer: Answering<Q, A>, sent: map<int, Q>, none: seq<Arrival<A>>)
    requires none == []
    ensures Arrived(answer, sent, none) == []
  {
  }

  /** What arrives answers what was sent. */
  lemma ArrivedValid<Q, A>(answer: Answering<Q, A>, sent: map<int, Q>, arrivals: seq<Arrival<A>>,
                           before: seq<Message<Reply<A>>>)
    requires forall m :: m in before && m.hasId ==> m.id in sent && m.payload == answer(m.id, sent[m.id])
    ensures forall m :: m in Arrived(answer, sent, arrivals) + before && m.hasId ==>
              m.id in sent && m.payload == answer(m.id, sent[m.id])
  {
    hide Arrived;
    ArrivedMembers(answer, sent, arrivals);
  }

  /** The client. One caller at a time: the id counter is incremented and read again as two steps. */
  class RonghuaClient<Q, A(!new)> {
    var idCounter: int
    const client: RonghuaSocketClient<Q, A>

    constructor (answer: Answering<Q, A>)
      ensures Valid() && idCounter == 0 && client.answer == answer
      ensures fresh(client) && fresh(client.queue)
    {
      idCounter := 0;
      client := new RonghuaSocketClient(answer);
    }

    /** Ids already used are those up to the counter. */
    ghost predicate Valid()
      reads this, client, client.queue
    {
      && client.Valid()
      && idCounter >= 0
      && forall id :: id in client.sent ==> id <= idCounter
    }

    /** Every request goes out under a fresh id, in order. */
    method SendAll(requests: seq<Q>) returns (ids: seq<int>)
      requires Valid()
      modifies this, client
      ensures Valid() && idCounter == old(idCounter) + |requests|
      ensures |ids| == |requests| && forall k :: 0 <= k < |ids| ==> ids[k] == old(idCounter) + 1 + k
      ensures SentFrom(client.sent, requests, old(idCounter) + 1)
      ensures UpTo(client.sent, old(idCounter)) == old(client.sent)
      ensures client.queue.queue == old(client.queue.queue)
    {
      ids := [];
      for i := 0 to |requests|
        invariant Valid() && idCounter == old(idCounter) + i && |ids| == i
        invariant forall k :: 0 <= k < i ==> ids[k] == old(idCounter) + 1 + k
        invariant SentFrom(client.sent, requests[..i], old(idCounter) + 1)
        invariant UpTo(client.sent, old(idCounter)) == old(client.sent)
        invariant client.queue.queue == old(client.queue.queue)
      {
        idCounter := idCounter + 1;
        client.SendRequest(requests[i], idCounter);
        ids := ids + [idCounter];
      }
      assert requests[..|requests|] == requests;
    }

    /**
      * doGetHistoryBulk and doGetTransactionBulk: fresh ids for all, one bulk wait, and the prefix that answered.
      * `got` is how many replies were taken: those to its own ids, up to the first that has not arrived.
      */
    method DoGetBulk(requests: seq<Q>, read: Reply<A> -> Result<A, string>, arrivals: seq<Arrival<A>>, values: seq<A>)
      returns (r: Result<seq<A>, string>, ghost got: nat)
      requires Valid()
      modifies this, client, client.queue
      ensures Valid() && idCounter == old(idCounter) + |requests|
      ensures SentFrom(client.sent, requests, old(idCounter) + 1)
      ensures UpTo(client.sent, old(idCounter)) == old(client.sent)
      ensures got == AnsweredPrefix(arrivals, old(idCounter) + 1, |requests|)
      ensures Conserved(old(client.queue.queue), Arrived(client.answer, client.sent, arrivals),
                        Replies(client.answer, requests[..got], old(idCounter) + 1), client.queue.queue)
      ensures r.Success? ==>
                && values <= r.value && |r.value| == |values| + got
                && Aligned(client.answer, read, requests, IdsFrom(old(idCounter) + 1, got), r.value[|values|..])
      ensures r.Failure? ==>
                exists k :: 0 <= k < got && read(client.answer(old(idCounter) + 1 + k, requests[k])) == Failure(r.error)
    {
      hide Arrived, TakePrefix, AnsweredPrefix, HasReply, Conserved, Replies, SentFrom, UpTo;
      FreshUnanswered();
      ghost var before, first := client.queue.queue, idCounter + 1;
      var ids := SendAll(requests);
      SentByIds(client.sent, requests, first, ids);
      var responses;
      ghost var n;
      responses, n := client.ReceiveResponseBulk(ids, arrivals);
      got := |responses|;
      assert forall i :: 0 <= i < got ==> responses[i] == client.answer(ids[i], requests[i]);
      RoundDone(client.answer, client.sent, arrivals, n, before, requests, ids, responses, first);
      var result := values;
      for i := 0 to |responses|
        invariant values <= result && |result| == |values| + i
        invariant forall k :: 0 <= k < i ==>
                    read(client.answer(ids[k], requests[k])) == Success(result[|values| + k])
      {
        match read(responses[i]) {
          case Success(v) => result := result + [v];
          case Failure(message) =>
            assert ids[i] == first + i;
            return Failure(message), got;
        }
      }
      return Success(result), got;
    }

    /** Nothing queued answers an id above the counter. */
    lemma FreshUnanswered()
      requires Valid()
      ensures forall id :: id > idCounter ==> !HasReply(client.queue.queue, id)
    {
    }

    /**
      * getHistoryBulk (chunk factor 25) and getTransactionBulk (100): ask chunk by chunk, and ask again,
      * under new ids, for whatever did not answer. `schedule` is what arrives in each round: any replies to
      * anything sent, in any order, late, repeated or never. IdsOf(rounds) are the ids under which the values
      * were taken; every other message that was queued or arrived is still queued.
      */
    method GetBulk(requests: seq<Q>, chunkFactor: nat, read: Reply<A> -> Result<A, string>,
                   schedule: seq<seq<Arrival<A>>>)
      returns (r: Outcome<A>, ghost rounds: seq<Round>)
      requires Valid() && chunkFactor > 0
      modifies this, client, client.queue
      ensures Valid()
      ensures |rounds| <= |schedule| && Chain(schedule, rounds, old(idCounter), |requests|, chunkFactor)
      ensures idCounter == EndId(rounds, old(idCounter))
      ensures Within(rounds, |requests|) && SentInRounds(client.sent, requests, rounds)
      ensures r.Returned? ==>
                && Done(rounds) == |r.values| == |requests|
                && Aligned(client.answer, read, requests, IdsOf(rounds), r.values)
      ensures r.Waiting? ==>
                && Done(rounds) == |r.values| < |requests|
                && Aligned(client.answer, read, requests, IdsOf(rounds), r.values)
                && |rounds| == |schedule| <= |r.values| + SilentRounds(schedule, rounds)
      ensures r.Thrown? ==> Throws(client.answer, read, requests, rounds, r.message)
      ensures Conserved(old(client.queue.queue), ArrivedIn(client.answer, client.sent, schedule, rounds),
                        TakenIn(client.answer, requests, rounds), client.queue.queue)
    {
      hide Aligned, Chain, Rising, Within, SentFrom, SentInRounds, ArrivedIn, TakenIn, Conserved, Replies, Arrived;
      hide AnsweredPrefix, UpTo, SilentRounds, IdsOf, Throws;
      var values: seq<A> := [];
      AlignedNone(client.answer, read, requests);
      rounds := [];
      NoRounds(schedule, idCounter, requests, chunkFactor, client.answer, client.sent, client.queue.queue);
      var curPos, round := 0, 0;
      while curPos < |requests| && round < |schedule|
        invariant Valid() && |rounds| == round <= |schedule|
        invariant Chain(schedule, rounds, old(idCounter), |requests|, chunkFactor)
        invariant idCounter == EndId(rounds, old(idCounter))
        invariant Within(rounds, |requests|) && Rising(rounds, old(idCounter))
        invariant SentInRounds(client.sent, requests, rounds)
        invariant curPos == |values| == Done(rounds) <= |requests|
        invariant Aligned(client.answer, read, requests, IdsOf(rounds), values)
        invariant Conserved(old(client.queue.queue), ArrivedIn(client.answer, client.sent, schedule, rounds),
                            TakenIn(client.answer, requests, rounds), client.queue.queue)
        decreases |schedule| - round
      {
        var chunk := requests[curPos..Min(curPos + chunkFactor, |requests|)];
        ghost var before, sent, first := client.queue.queue, client.sent, idCounter + 1;
        ghost var got: nat;
        var more;
        more, got := DoGetBulk(chunk, read, schedule[round], values);
        ghost var next := Round(first, curPos, |chunk|, got);
        assert chunk == requests[curPos..curPos + |chunk|] && chunk[..got] == requests[curPos..curPos + got];
        ChainExtends(schedule, rounds, next, old(idCounter), |requests|, chunkFactor);
        SentInOneMore(rounds, next, old(idCounter), requests, sent, client.sent);
        ConservedByRound(client.answer, requests, schedule, rounds, next, old(idCounter), sent, client.sent,
                         old(client.queue.queue), before, client.queue.queue);
        ghost var front := rounds;
        rounds := rounds + [next];
        IdsOfOneMore(front, next);
        if more.Failure? {
          ThrowsLast(client.answer, read, requests, front, next, chunk, more.error);
          return Thrown(more.error), rounds;
        }
        AlignedExtends(client.answer, read, requests, IdsOf(front), values, chunk, IdsFrom(first, got),
                       more.value[|values|..]);
        assert values + more.value[|values|..] == more.value;
        values := more.value;
        curPos := |values|;
        round := round + 1;
      }
      RoundsProgress(schedule, rounds, old(idCounter), |requests|, chunkFactor);
      return if curPos < |requests| then Waiting(values) else Returned(values), rounds;
    }
  }

  // ---------- the steps of a bulk call ----------

  /** What a round gets, and that it loses nothing. */
  lemma RoundDone<Q, A>(answer: Answering<Q, A>, sent: map<int, Q>, arrivals: seq<Arrival<A>>, n: nat,
                        before: seq<Message<Reply<A>>>, requests: seq<Q>, ids: seq<int>, responses: seq<Reply<A>>,
                        first: int)
    requires n <= |arrivals|
    requires |ids| == |requests| && forall k :: 0 <= k < |ids| ==> ids[k] == first + k
    requires |responses| == |TakePrefix(Arrived(answer, sent, arrivals[..n]) + before, ids).0| <= |ids|
    requires forall i :: 0 <= i < |responses| ==>
               var taken := TakePrefix(Arrived(answer, sent, arrivals[..n]) + before, ids).0;
               taken[i] == Message(responses[i], true, ids[i]) && responses[i] == answer(ids[i], requests[i])
    requires forall id :: id >= first ==> !HasReply(before, id)
    requires forall i :: 0 <= i < |responses| ==> HasReply(before, ids[i]) || ReplyTo(ids[i]) in arrivals
    requires |responses| < |ids| ==> ReplyTo(ids[|responses|]) !in arrivals
    ensures |responses| == AnsweredPrefix(arrivals, first, |ids|)
    ensures Conserved(before, Arrived(answer, sent, arrivals), Replies(answer, requests[..|responses|], first),
                      Arrived(answer, sent, arrivals[n..])
                      + TakePrefix(Arrived(answer, sent, arrivals[..n]) + before, ids).1)
  {
    hide TakePrefix, HasReply, Arrived;
    forall id | first <= id < first + |responses|
      ensures ReplyTo(id) in arrivals
    {
      assert ids[id - first] == id;
    }
    var early, late := Arrived(answer, sent, arrivals[..n]), Arrived(answer, sent, arrivals[n..]);
    var (taken, stays) := TakePrefix(early + before, ids);
    ArrivedAppend(answer, sent, arrivals[..n], arrivals[n..]);
    assert arrivals[..n] + arrivals[n..] == arrivals;
    TakePrefixKeepsAll(early + before, ids);
    assert Replies(answer, requests[..|responses|], first) == taken;
    WaitConserved(before, early, late, taken, stays);
  }

  lemma WaitConserved<M>(before: seq<M>, early: seq<M>, late: seq<M>, taken: seq<M>, stays: seq<M>)
    requires multiset(taken) + multiset(stays) == multiset(early + before)
    ensures Conserved(before, late + early, taken, late + stays)
  {
    assert multiset(early + before) == multiset(early) + multiset(before);
    assert multiset(late + early) == multiset(late) + multiset(early);
    assert multiset(late + stays) == multiset(late) + multiset(stays);
    var (b, e, l, t, s) := (multiset(before), multiset(early), multiset(late), multiset(taken), multiset(stays));
    assert b + (l + e) == l + (e + b);
    assert l + (t + s) == t + (l + s);
  }

  /** The call threw at one of the replies that its last round took. */
  ghost predicate Throws<Q, A>(answer: Answering<Q, A>, read: Reply<A> -> Result<A, string>, requests: seq<Q>,
                               rounds: seq<Round>, message: string)
    requires Within(rounds, |requests|)
  {
    && rounds != []
    && var last := rounds[|rounds| - 1];
       exists i :: last.start <= i < last.start + last.got
         && read(answer(last.firstId + i - last.start, requests[i])) == Failure(message)
  }

  lemma ThrowsLast<Q, A>(answer: Answering<Q, A>, read: Reply<A> -> Result<A, string>, requests: seq<Q>,
                         front: seq<Round>, last: Round, chunk: seq<Q>, message: string)
    requires Within(front + [last], |requests|) && last.got <= |chunk| && last.start + |chunk| <= |requests|
    requires chunk == requests[last.start..last.start + |chunk|]
    requires exists k :: 0 <= k < last.got && read(answer(last.firstId + k, chunk[k])) == Failure(message)
    ensures Throws(answer, read, requests, front + [last], message)
  {
    var k :| 0 <= k < last.got && read(answer(last.firstId + k, chunk[k])) == Failure(message);
    assert requests[last.start + k] == chunk[k];
  }

  lemma IdsOfOneMore(front: seq<Round>, last: Round)
    ensures IdsOf(front + [last]) == IdsOf(front) + IdsFrom(last.firstId, last.got)
  {
    assert (front + [last])[..|front|] == front;
  }

  lemma NoRounds<Q, A>(schedule: seq<seq<Arrival<A>>>, counter: int, requests: seq<Q>, chunk: nat,
                       answer: Answering<Q, A>, sent: map<int, Q>, queue: seq<Message<Reply<A>>>)
    ensures Chain(schedule, [], counter, |requests|, chunk) && SentInRounds(sent, requests, [])
    ensures Within([], |requests|) && Rising([], counter) && IdsOf([]) == []
    ensures Conserved(queue, ArrivedIn(answer, sent, schedule, []), TakenIn(answer, requests, []), queue)
  {
  }

  lemma ChainExtends<A>(schedule: seq<seq<Arrival<A>>>, front: seq<Round>, round: Round, counter: int, count: nat,
                        chunk: nat)
    requires |front| < |schedule| && Chain(schedule, front, counter, count, chunk)
    requires Within(front, count) && Rising(front, counter)
    requires Follows(schedule[|front|], front, round, counter, count, chunk)
    ensures Chain(schedule, front + [round], counter, count, chunk)
    ensures Within(front + [round], count) && Rising(front + [round], counter)
  {
    hide Rising, Within, Follows;
    RisesByOne(schedule[|front|], front, round, counter, count, chunk);
    assert (front + [round])[..|front|] == front;
  }

  /** What earlier rounds sent is still known when more is sent. */
  lemma SentInOneMore<Q>(front: seq<Round>, round: Round, counter: int, requests: seq<Q>, sent: map<int, Q>,
                         sentMore: map<int, Q>)
    requires Within(front, |requests|) && Within(front + [round], |requests|)
    requires round.start + round.asked <= |requests|
    requires SentInRounds(sent, requests, front)
    requires UpTo(sentMore, EndId(front, counter)) == sent
    requires SentFrom(sentMore, requests[round.start..round.start + round.asked], round.firstId)
    ensures SentInRounds(sentMore, requests, front + [round])
  {
    hide UpTo, SentFrom;
    forall r | 0 <= r < |front|
      ensures SentFrom(sentMore, requests[front[r].start..front[r].start + front[r].asked], front[r].firstId)
    {
      SentFromKept(sent, sentMore, EndId(front, counter), requests[front[r].start..front[r].start + front[r].asked],
                   front[r].firstId);
    }
  }

  lemma SentFromKept<Q>(sent: map<int, Q>, sentMore: map<int, Q>, limit: int, chunk: seq<Q>, first: int)
    requires UpTo(sentMore, limit) == sent && SentFrom(sent, chunk, first)
    ensures SentFrom(sentMore, chunk, first)
  {
    forall id | first <= id < first + |chunk|
      ensures id in sentMore && sentMore[id] == chunk[id - first]
    {
      assert id in sent;
    }
  }

  /** A round takes from the queue its own replies only. */
  lemma ConservedByRound<Q, A>(answer: Answering<Q, A>, requests: seq<Q>, schedule: seq<seq<Arrival<A>>>,
                               front: seq<Round>, round: Round, counter: int, sent: map<int, Q>,
                               sentMore: map<int, Q>, start: seq<Message<Reply<A>>>, before: seq<Message<Reply<A>>>,
                               after: seq<Message<Reply<A>>>)
    requires |front| < |schedule| && Rising(front, counter)
    requires Within(front, |requests|) && Within(front + [round], |requests|)
    requires round.start + round.got <= |requests|
    requires UpTo(sentMore, EndId(front, counter)) == sent
    requires forall id :: id in sentMore ==> id < round.firstId + round.asked
    requires Conserved(start, ArrivedIn(answer, sent, schedule, front), TakenIn(answer, requests, front), before)
    requires Conserved(before, Arrived(answer, sentMore, schedule[|front|]),
                       Replies(answer, requests[round.start..round.start + round.got], round.firstId), after)
    ensures Conserved(start, ArrivedIn(answer, sentMore, schedule, front + [round]),
                      TakenIn(answer, requests, front + [round]), after)
  {
    hide Arrived, Replies, Conserved, Rising, Within;
    var arrivals, rounds := schedule[|front|], front + [round];
    assert rounds[..|front|] == front;
    assert UpTo(sent, EndId(front, counter)) == sent;
    ArrivedInKept(answer, sent, sentMore, schedule, front, counter);
    assert UpTo(sentMore, EndId(rounds, 0)) == sentMore;
    ConservedTwice(start, ArrivedIn(answer, sent, schedule, front), TakenIn(answer, requests, front), before,
                   Arrived(answer, sentMore, arrivals),
                   Replies(answer, requests[round.start..round.start + round.got], round.firstId), after);
  }

  // ---------- the two bulk calls ----------

  const HISTORY_CHUNK := 25
  const TRANSACTION_CHUNK := 100

  /** Every reply, to the id that its request was sent with when it was taken, reads as the server meant it. */
  ghost predicate Faithful<Q, A>(answer: Answering<Q, A>, ids: seq<int>, requests: seq<Q>, values: seq<A>) {
    && |values| == |requests| == |ids|
    && forall i :: 0 <= i < |values| ==> answer(ids[i], requests[i]) == Answer(values[i])
  }

  /** A transaction bulk call that returns is the server's answers, one to one; one that throws met a reply that is
      none. */
  method GetTransactionBulk<Q, A(!new)>(c: RonghuaClient<Q, A>, txids: seq<Q>, schedule: seq<seq<Arrival<A>>>)
    returns (r: Outcome<A>, ghost rounds: seq<Round>)
    requires c.Valid()
    modifies c, c.client, c.client.queue
    ensures c.Valid()
    ensures |rounds| <= |schedule| && Chain(schedule, rounds, old(c.idCounter), |txids|, 100)
    ensures r.Returned? ==> Faithful(c.client.answer, IdsOf(rounds), txids, r.values)
    ensures r.Thrown? ==>
              exists id, q :: q in txids &&
                (c.client.answer(id, q) == ErrorReply(r.message) || c.client.answer(id, q) == Malformed(r.message))
    ensures r.Waiting? ==> Done(rounds) < |txids| && |rounds| == |schedule|
  {
    hide Chain, Within, SentInRounds, Conserved, ArrivedIn, TakenIn, Done, SilentRounds, EndId, IdsOf;
    r, rounds := c.GetBulk(txids, TRANSACTION_CHUNK, ReadTransaction, schedule);
    if r.Thrown? {
      ghost var id, q := ThrowingReply(c.client.answer, ReadTransaction, txids, rounds, r.message);
      assert ReadTransaction(c.client.answer(id, q)) == Failure(r.message);
    }
  }

  lemma ThrowingReply<Q, A>(answer: Answering<Q, A>, read: Reply<A> -> Result<A, string>, requests: seq<Q>,
                            rounds: seq<Round>, message: string)
    returns (id: int, q: Q)
    requires Within(rounds, |requests|) && Throws(answer, read, requests, rounds, message)
    ensures q in requests && read(answer(id, q)) == Failure(message)
  {
    var last := rounds[|rounds| - 1];
    var i :| last.start <= i < last.start + last.got
             && read(answer(last.firstId + i - last.start, requests[i])) == Failure(message);
    id, q := last.firstId + i - last.start, requests[i];
  }

  /** A history bulk call throws at a malformed reply only. One that returns is the server's answers, one to one, if
      and only if none of those it took is an error. */
  method GetHistoryBulk<Q, I(!new)>(c: RonghuaClient<Q, seq<I>>, addresses: seq<Q>,
                                    schedule: seq<seq<Arrival<seq<I>>>>)
    returns (r: Outcome<seq<I>>, ghost rounds: seq<Round>)
    requires c.Valid()
    modifies c, c.client, c.client.queue
    ensures c.Valid()
    ensures |rounds| <= |schedule| && Chain(schedule, rounds, old(c.idCounter), |addresses|, 25)
    ensures r.Thrown? ==> exists id, q :: q in addresses && c.client.answer(id, q) == Malformed(r.message)
    ensures r.Returned? ==>
              var ids := IdsOf(rounds);
              && |r.values| == |addresses| == |ids|
              && (Faithful(c.client.answer, ids, addresses, r.values)
                  <==> forall i :: 0 <= i < |ids| ==> !c.client.answer(ids[i], addresses[i]).ErrorReply?)
              && forall i :: 0 <= i < |ids| && c.client.answer(ids[i], addresses[i]).ErrorReply? ==> r.values[i] == []
    ensures r.Waiting? ==> Done(rounds) < |addresses| && |rounds| == |schedule|
  {
    hide Chain, Within, SentInRounds, Conserved, ArrivedIn, TakenIn, Done, SilentRounds, EndId, IdsOf;
    r, rounds := c.GetBulk(addresses, HISTORY_CHUNK, ReadHistory, schedule);
    if r.Thrown? {
      ghost var id, q := ThrowingReply(c.client.answer, ReadHistory, addresses, rounds, r.message);
      assert ReadHistory(c.client.answer(id, q)) == Failure(r.message);
    }
  }

  /** It happens: one request, answered with an error, and the call returns one empty history. */
  method ErrorReadsAsEmpty(message: string) returns (r: Outcome<seq<int>>)
    ensures r == Returned([[]])
  {
    var c := new RonghuaClient<int, seq<int>>((id, address) => ErrorReply(message));
    ghost var rounds;
    r, rounds := GetHistoryBulk(c, [7], [[ReplyTo(1)]]);
    assert !r.Waiting? by {
      OneRound(rounds);
    }
  }

  lemma OneRound(rounds: seq<Round>)
    requires |rounds| <= 1 && Chain<seq<int>>([[ReplyTo(1)]], rounds, 0, 1, HISTORY_CHUNK)
    ensures |rounds| == 1 ==> Done(rounds) == 1
  {
    if |rounds| == 1 {
      assert AnsweredPrefix<seq<int>>([ReplyTo(1)], 2, 0) == 0;
    }
  }
}
