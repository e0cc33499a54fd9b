// The server-sent-event hub: one bounded queue per subscriber; a full queue drops its
// oldest event and the new one, and says so with a resync event.
module EventHub {
  import opened Wrappers

  const CAPACITY := 256

  // What is published: a name and its encoded payload.
  datatype Message = Message(name: string, data: string)

  datatype StreamEvent = Published(id: nat, message: Message) | Resync(id: nat)

  // One subscriber: what waits in its channel, what it has received, and, as history,
  // which event ids were offered to it and which of them it lost.
  datatype Sub = Sub(queue: seq<StreamEvent>, received: seq<StreamEvent>, offered: set<nat>, lost: set<nat>)

  const NEW_SUB := Sub([], [], {}, {})

  // What happens to one subscriber.
  datatype Move = Offer(eventId: nat, message: Message, resyncId: nat) | Receive

  function Step(s: Sub, m: Move): Sub {
    match m
    case Offer(eventId, message, resyncId) =>
      if |s.queue| < CAPACITY then
        s.(queue := s.queue + [Published(eventId, message)], offered := s.offered + {eventId})
      else
        s.(queue := s.queue[1..] + [Resync(resyncId)],
           offered := s.offered + {eventId, resyncId},
           lost := s.lost + {s.queue[0].id, eventId})
    case Receive =>
      if s.queue == [] then s
      else s.(queue := s.queue[1..], received := s.received + [s.queue[0]])
  }

  function Steps(s: Sub, moves: seq<Move>): Sub {
    if moves == [] then s else Step(Steps(s, moves[..|moves| - 1]), moves[|moves| - 1])
  }

  // Everything the subscriber has received or will.
  function Stream(s: Sub): seq<StreamEvent> {
    s.received + s.queue
  }

  ghost predicate Increasing(events: seq<StreamEvent>) {
    forall i, j :: 0 <= i < j < |events| ==> events[i].id < events[j].id
  }

  // Ids handed out so far are at most top.
  ghost predicate Below(s: Sub, top: nat) {
    forall id :: id in s.offered ==> id <= top
  }

  function Ids(events: seq<StreamEvent>): set<nat> {
    set e | e in events :: e.id
  }

  // A later resync, received or still waiting, announces every loss.
  ghost predicate Announced(s: Sub) {
    forall id :: id in s.lost ==> exists i :: 0 <= i < |Stream(s)| && Stream(s)[i].Resync? && Stream(s)[i].id > id
  }

  // Bounded, ordered, and nothing vanishes: every id offered is in the stream or lost.
  ghost predicate Healthy(s: Sub) {
    && |s.queue| <= CAPACITY
    && Increasing(Stream(s))
    && Ids(Stream(s)) + s.lost == s.offered
    && Ids(Stream(s)) !! s.lost
    && Announced(s)
  }

  // Ids of the moves grow from top on.
  ghost predicate Fresh(moves: seq<Move>, top: nat) {
    forall i :: 0 <= i < |moves| && moves[i].Offer? ==>
      && top < moves[i].eventId < moves[i].resyncId
      && forall k :: 0 <= k < i && moves[k].Offer? ==> moves[k].resyncId < moves[i].eventId
  }

  lemma IdsAppend(xs: seq<StreamEvent>, ys: seq<StreamEvent>)
    ensures Ids(xs + ys) == Ids(xs) + Ids(ys)
  {
    forall id | id in Ids(xs) + Ids(ys) ensures id in Ids(xs + ys) {
      if id in Ids(xs) {
        var e :| e in xs && e.id == id;
        assert e in xs + ys;
      } else {
        var e :| e in ys && e.id == id;
        assert e in xs + ys;
      }
    }
  }

  // An offer that fits is appended to the stream.
  lemma AppendKeeps(s: Sub, eventId: nat, message: Message, resyncId: nat, top: nat)
    requires Healthy(s) && Below(s, top) && top < eventId && |s.queue| < CAPACITY
    ensures Healthy(Step(s, Offer(eventId, message, resyncId)))
  {
    var e, s' := Published(eventId, message), Step(s, Offer(eventId, message, resyncId));
    assert Stream(s') == Stream(s) + [e];
    IdsAppend(Stream(s), [e]);
    assert Ids([e]) == {eventId};
    forall i | 0 <= i < |Stream(s)| ensures Stream(s)[i].id < eventId {
      assert Stream(s)[i] in Stream(s);
      assert Stream(s)[i].id in Ids(Stream(s));
    }
    forall id | id in s'.lost ensures exists i :: 0 <= i < |Stream(s')| && Stream(s')[i].Resync? && Stream(s')[i].id > id {
      var i :| 0 <= i < |Stream(s)| && Stream(s)[i].Resync? && Stream(s)[i].id > id;
      assert Stream(s')[i] == Stream(s)[i];
    }
  }

  // Dropping the oldest waiting event removes exactly its id from the stream.
  lemma DropIds(s: Sub)
    requires Increasing(Stream(s)) && s.queue != []
    ensures Ids(s.received + s.queue[1..]) == Ids(Stream(s)) - {s.queue[0].id}
    ensures Increasing(s.received + s.queue[1..])
  {
    var n, oldest, rest := |s.received|, s.queue[0], s.received + s.queue[1..];
    assert Stream(s) == s.received + ([oldest] + s.queue[1..]);
    IdsAppend(s.received, [oldest] + s.queue[1..]);
    IdsAppend([oldest], s.queue[1..]);
    IdsAppend(s.received, s.queue[1..]);
    assert Ids([oldest]) == {oldest.id};
    assert Stream(s)[n] == oldest;
    assert forall i :: 0 <= i < n ==> rest[i] == Stream(s)[i];
    assert forall i :: n <= i < |rest| ==> rest[i] == Stream(s)[i + 1];
    assert oldest.id !in Ids(rest);
  }

  // A full queue: two ids are lost, and a resync with a larger id follows.
  lemma DropKeeps(s: Sub, eventId: nat, message: Message, resyncId: nat, top: nat)
    requires Healthy(s) && Below(s, top) && top < eventId < resyncId && |s.queue| == CAPACITY
    ensures Healthy(Step(s, Offer(eventId, message, resyncId)))
  {
    var e, s' := Resync(resyncId), Step(s, Offer(eventId, message, resyncId));
    var rest := s.received + s.queue[1..];
    DropIds(s);
    assert Stream(s') == rest + [e];
    IdsAppend(rest, [e]);
    assert Ids([e]) == {resyncId};
    forall i | 0 <= i < |rest| ensures rest[i].id < eventId {
      assert rest[i] in rest;
      assert rest[i].id in Ids(rest);
    }
    assert s.queue[0] in Stream(s);
    assert Stream(s')[|rest|] == e;
    forall id | id in s'.lost ensures id < resyncId && id !in Ids(Stream(s')) {
      assert id in s.offered || id == eventId;
    }
  }

  lemma ReceiveKeeps(s: Sub)
    requires Healthy(s)
    ensures Healthy(Step(s, Receive))
  {
    if s.queue != [] {
      assert Stream(Step(s, Receive)) == Stream(s);
    }
  }

  lemma StepKeeps(s: Sub, m: Move, top: nat)
    requires Healthy(s) && Below(s, top)
    requires m.Offer? ==> top < m.eventId < m.resyncId
    ensures Healthy(Step(s, m)) && Below(Step(s, m), if m.Offer? then m.resyncId else top)
  {
    match m {
      case Offer(eventId, message, resyncId) =>
        if |s.queue| < CAPACITY {
          AppendKeeps(s, eventId, message, resyncId, top);
        } else {
          DropKeeps(s, eventId, message, resyncId, top);
        }
      case Receive => ReceiveKeeps(s);
    }
  }

  function TopOf(moves: seq<Move>, top: nat): nat {
    if moves == [] then top
    else if moves[|moves| - 1].Offer? then moves[|moves| - 1].resyncId
    else TopOf(moves[..|moves| - 1], top)
  }

  lemma {:induction false} TopIsLast(moves: seq<Move>, top: nat)
    requires Fresh(moves, top)
    ensures TopOf(moves, top) == top || exists k :: 0 <= k < |moves| && moves[k].Offer? && moves[k].resyncId == TopOf(moves, top)
  {
    if moves != [] && !moves[|moves| - 1].Offer? {
      var front := moves[..|moves| - 1];
      assert forall i :: 0 <= i < |front| ==> front[i] == moves[i];
      TopIsLast(front, top);
      if TopOf(front, top) != top {
        var k :| 0 <= k < |front| && front[k].Offer? && front[k].resyncId == TopOf(front, top);
        assert moves[k] == front[k];
      }
    }
  }

  // For every interleaving of offers with growing ids and receptions, slow or fast: the
  // queue stays within its bound, ids only grow, every id is delivered, waiting or lost,
  // and every loss is followed by a resync with a larger id, delivered or waiting.
  lemma {:induction false} EveryLifeIsHealthy(moves: seq<Move>, top: nat)
    requires Fresh(moves, top)
    ensures Healthy(Steps(NEW_SUB, moves)) && Below(Steps(NEW_SUB, moves), TopOf(moves, top))
  {
    if moves == [] {
      assert Stream(NEW_SUB) == [] && Ids([]) == {};
    } else {
      var front, m := moves[..|moves| - 1], moves[|moves| - 1];
      assert forall i :: 0 <= i < |front| ==> front[i] == moves[i];
      EveryLifeIsHealthy(front, top);
      TopIsLast(front, top);
      StepKeeps(Steps(NEW_SUB, front), m, TopOf(front, top));
    }
  }

  // ---- a life in terms of its offers ----

  // How many events wait: an offer to a full queue drops one and adds one.
  function Waiting(moves: seq<Move>): nat {
    if moves == [] then 0
    else
      var n := Waiting(moves[..|moves| - 1]);
      match moves[|moves| - 1]
      case Offer(_, _, _) => if n < 256 then n + 1 else n
      case Receive => if n > 0 then n - 1 else 0
  }

  // What is put into the queue, in order: for an offer that finds room the event itself,
  // for one that finds none a resync.
  function Sent(moves: seq<Move>): seq<StreamEvent> {
    if moves == [] then []
    else
      var front := moves[..|moves| - 1];
      match moves[|moves| - 1]
      case Offer(eventId, message, resyncId) =>
        Sent(front) + [if Waiting(front) < 256 then Published(eventId, message) else Resync(resyncId)]
      case Receive => Sent(front)
  }

  // The oldest event that waits.
  function Oldest(moves: seq<Move>): StreamEvent
    requires 0 < Waiting(moves) <= |Sent(moves)|
  {
    Sent(moves)[|Sent(moves)| - Waiting(moves)]
  }

  // The queue holds the last events sent, at most 256 of them.
  lemma {:induction false} QueueIsTail(moves: seq<Move>)
    ensures Waiting(moves) <= 256 && Waiting(moves) <= |Sent(moves)|
    ensures Steps(NEW_SUB, moves).queue == Sent(moves)[|Sent(moves)| - Waiting(moves)..]
  {
    if moves != [] {
      var front, m := moves[..|moves| - 1], moves[|moves| - 1];
      QueueIsTail(front);
      var s, sent, n := Steps(NEW_SUB, front), Sent(front), Waiting(front);
      assert |s.queue| == n;
      match m {
        case Offer(eventId, message, resyncId) =>
          var e := if n < 256 then Published(eventId, message) else Resync(resyncId);
          if n == 256 {
            assert s.queue[1..] == sent[|sent| - n + 1..];
          }
          assert (sent + [e])[|sent| + 1 - Waiting(moves)..] == sent[|sent| + 1 - Waiting(moves)..] + [e];
        case Receive =>
      }
    }
  }

  // A reception takes the oldest event that waits, if there is one.
  lemma ReceptionTakesOldest(moves: seq<Move>)
    ensures Waiting(moves) <= |Sent(moves)|
    ensures Steps(NEW_SUB, moves + [Receive]).received ==
      Steps(NEW_SUB, moves).received + if Waiting(moves) > 0 then [Oldest(moves)] else []
  {
    QueueIsTail(moves);
    assert (moves + [Receive])[..|moves|] == moves;
  }

  // Only an offer to a full queue loses anything: the oldest event, and the one offered.
  lemma OfferLoses(moves: seq<Move>, eventId: nat, message: Message, resyncId: nat)
    ensures Waiting(moves) <= |Sent(moves)|
    ensures var before, after := Steps(NEW_SUB, moves), Steps(NEW_SUB, moves + [Offer(eventId, message, resyncId)]);
      && after.received == before.received
      && after.lost == before.lost + if Waiting(moves) < 256 then {} else {Oldest(moves).id, eventId}
  {
    QueueIsTail(moves);
    assert (moves + [Offer(eventId, message, resyncId)])[..|moves|] == moves;
  }

  // The offer an event in the stream comes from.
  ghost predicate ComesFrom(moves: seq<Move>, e: StreamEvent, k: int) {
    && 0 <= k < |moves| && moves[k].Offer?
    && e == if Waiting(moves[..k]) < 256 then Published(moves[k].eventId, moves[k].message) else Resync(moves[k].resyncId)
  }

  ghost predicate FromAnOffer(moves: seq<Move>, e: StreamEvent) {
    exists k :: ComesFrom(moves, e, k)
  }

  lemma OfferStays(moves: seq<Move>, e: StreamEvent)
    requires moves != [] && FromAnOffer(moves[..|moves| - 1], e)
    ensures FromAnOffer(moves, e)
  {
    var front := moves[..|moves| - 1];
    var k :| ComesFrom(front, e, k);
    assert front[..k] == moves[..k];
    assert ComesFrom(moves, e, k);
  }

  lemma {:induction false} SentComesFrom(moves: seq<Move>)
    ensures forall e :: e in Sent(moves) ==> FromAnOffer(moves, e)
  {
    if moves != [] {
      var n := |moves| - 1;
      SentComesFrom(moves[..n]);
      forall e | e in Sent(moves) ensures FromAnOffer(moves, e) {
        if e in Sent(moves[..n]) {
          OfferStays(moves, e);
        } else {
          assert ComesFrom(moves, e, n);
        }
      }
    }
  }

  // Everything a subscriber has received or will is the very event of an offer that found
  // room, or the resync of one that did not.
  lemma {:induction false} StreamComesFrom(moves: seq<Move>)
    ensures forall e :: e in Stream(Steps(NEW_SUB, moves)) ==> FromAnOffer(moves, e)
  {
    QueueIsTail(moves);
    SentComesFrom(moves);
    if moves != [] {
      var front := moves[..|moves| - 1];
      StreamComesFrom(front);
      var before, after := Steps(NEW_SUB, front), Steps(NEW_SUB, moves);
      forall e | e in Stream(after) ensures FromAnOffer(moves, e) {
        if e in after.queue {
          assert e in Sent(moves);
        } else {
          assert e in before.received || e in before.queue;
          assert e in Stream(before);
          OfferStays(moves, e);
        }
      }
    }
  }

  // ---- the hub ----

  ghost predicate Fine(s: Sub, top: nat) {
    forall x {:trigger Named(x)} :: x == s ==> Healthy(x) && Below(x, top)
  }

  lemma FineIsHealthy(s: Sub, top: nat)
    ensures Fine(s, top) <==> Healthy(s) && Below(s, top)
  {
    assert Named(s);
  }

  lemma NewSubFine(top: nat)
    ensures Fine(NEW_SUB, top)
  {
    assert Stream(NEW_SUB) == [] && Ids([]) == {};
    assert Healthy(NEW_SUB);
    FineIsHealthy(NEW_SUB, top);
  }

  lemma FineGrows(s: Sub, top: nat, top': nat)
    requires Fine(s, top) && top <= top'
    ensures Fine(s, top')
  {
    assert Named(s);
    assert Below(s, top');
  }

  lemma StepFine(s: Sub, m: Move, top: nat)
    requires Fine(s, top) && (m.Offer? ==> top < m.eventId < m.resyncId)
    ensures Fine(Step(s, m), if m.Offer? then m.resyncId else top)
    ensures m.Offer? && |s.queue| < CAPACITY ==> Fine(Step(s, m), m.eventId)
  {
    assert Named(s);
    StepKeeps(s, m, top);
    FineIsHealthy(Step(s, m), if m.Offer? then m.resyncId else top);
    if m.Offer? {
      FineIsHealthy(Step(s, m), m.eventId);
    }
  }

  // s' is s after one offer. With room the event itself waits behind the others; otherwise
  // it and the oldest are lost, and a resync waits there under a newer id.
  ghost predicate OfferedIn(s: Sub, s': Sub, eventId: nat, message: Message, top: nat) {
    && s'.received == s.received
    && if |s.queue| < 256 then
         s'.queue == s.queue + [Published(eventId, message)] && s'.offered == s.offered + {eventId} && s'.lost == s.lost
       else exists resyncId ::
         && eventId < resyncId <= top
         && s'.queue == s.queue[1..] + [Resync(resyncId)]
         && s'.offered == s.offered + {eventId, resyncId} && s'.lost == s.lost + {s.queue[0].id, eventId}
  }

  // Subscribers in todo are untouched, the others have been offered the event.
  ghost predicate PublishedSoFar(before: map<nat, Sub>, now: map<nat, Sub>, todo: set<nat>, eventId: nat, message: Message, top: nat) {
    && now.Keys == before.Keys
    && (forall id :: id in before && id in todo ==> now[id] == before[id])
    && (forall id :: id in before && id !in todo ==> OfferedIn(before[id], now[id], eventId, message, top) && Fine(now[id], top))
  }

  lemma PublishOneMore(before: map<nat, Sub>, was: map<nat, Sub>, now: map<nat, Sub>, todo: set<nat>, id: nat,
                       eventId: nat, message: Message, top: nat, top': nat)
    requires PublishedSoFar(before, was, todo, eventId, message, top) && id in todo && id in was && top <= top'
    requires id in now && now == was[id := now[id]]
    requires OfferedIn(was[id], now[id], eventId, message, top') && Fine(now[id], top')
    ensures PublishedSoFar(before, now, todo - {id}, eventId, message, top')
  {
    forall x | x in before && x !in todo && x != id ensures Fine(now[x], top') && OfferedIn(before[x], now[x], eventId, message, top') {
      FineGrows(was[x], top, top');
    }
  }

  class Hub {
    var subscribers: map<nat, Sub>
    var nextID: nat
    var nextEventID: nat

    ghost predicate Valid()
      reads this
    {
      && (forall id :: id in subscribers ==> id <= nextID)
      && (forall id :: id in subscribers ==> Fine(subscribers[id], nextEventID))
    }

    constructor ()
      ensures Valid() && subscribers == map[] && nextID == 0 && nextEventID == 0
    {
      subscribers, nextID, nextEventID := map[], 0, 0;
    }

    method Subscribe() returns (id: nat)
      requires Valid()
      modifies this`subscribers, this`nextID
      ensures Valid() && id !in old(subscribers)
      ensures subscribers == old(subscribers)[id := NEW_SUB]
    {
      nextID := nextID + 1;
      id := nextID;
      subscribers := subscribers[id := NEW_SUB];
      NewSubFine(nextEventID);
    }

    method Unsubscribe(id: nat)
      requires Valid()
      modifies this`subscribers
      ensures Valid() && subscribers == old(subscribers) - {id}
    {
      subscribers := subscribers - {id};
    }

    // The stream handler takes the next event of its own queue.
    method Deliver(id: nat) returns (event: Option<StreamEvent>)
      requires Valid() && id in subscribers
      modifies this`subscribers
      ensures Valid() && subscribers == old(subscribers)[id := Step(old(subscribers)[id], Receive)]
      ensures event == if old(subscribers)[id].queue == [] then None else Some(old(subscribers)[id].queue[0])
    {
      var s := subscribers[id];
      event := if s.queue == [] then None else Some(s.queue[0]);
      StepFine(s, Receive, nextEventID);
      subscribers := subscribers[id := Step(s, Receive)];
    }

    // Publishing to every subscriber, in any order. A payload that cannot be encoded
    // publishes nothing.
    method Publish(name: string, payload: Option<string>)
      requires Valid()
      modifies this`subscribers, this`nextEventID
      ensures Valid() && subscribers.Keys == old(subscribers).Keys
      ensures payload.None? ==> subscribers == old(subscribers) && nextEventID == old(nextEventID)
      ensures payload.Some? ==> nextEventID > old(nextEventID)
      ensures payload.Some? ==>
        forall id :: id in subscribers ==>
          OfferedIn(old(subscribers)[id], subscribers[id], old(nextEventID) + 1, Message(name, payload.value), nextEventID)
    {
      if payload.None? {
        return;
      }
      nextEventID := nextEventID + 1;
      OfferToAll(nextEventID, Message(name, payload.value));
    }

    method OfferToAll(eventId: nat, message: Message)
      requires 0 < eventId == nextEventID
      requires forall id :: id in subscribers ==> Fine(subscribers[id], eventId - 1)
      modifies this`subscribers, this`nextEventID
      ensures nextEventID >= eventId
      ensures PublishedSoFar(old(subscribers), subscribers, {}, eventId, message, nextEventID)
    {
      ghost var before := subscribers;
      var todo := subscribers.Keys;
      while todo != {}
        invariant todo <= before.Keys && nextEventID >= eventId
        invariant PublishedSoFar(before, subscribers, todo, eventId, message, nextEventID)
      {
        var id :| id in todo;
        ghost var top, was := nextEventID, subscribers;
        OfferTo(id, eventId, message);
        PublishOneMore(before, was, subscribers, todo, id, eventId, message, top, nextEventID);
        todo := todo - {id};
      }
    }

    // The nested select: send, or else drop the oldest and send a resync.
    method OfferTo(id: nat, eventId: nat, message: Message)
      requires id in subscribers && 0 < eventId <= nextEventID && Fine(subscribers[id], eventId - 1)
      modifies this`subscribers, this`nextEventID
      ensures nextEventID >= old(nextEventID) && id in subscribers
      ensures subscribers == old(subscribers)[id := subscribers[id]]
      ensures OfferedIn(old(subscribers)[id], subscribers[id], eventId, message, nextEventID) && Fine(subscribers[id], nextEventID)
    {
      var s := subscribers[id];
      StepFine(s, Offer(eventId, message, nextEventID + 1), eventId - 1);
      var s';
      if |s.queue| < CAPACITY {
        s' := s.(queue := s.queue + [Published(eventId, message)], offered := s.offered + {eventId});
        FineGrows(s', eventId, nextEventID);
      } else {
        nextEventID := nextEventID + 1;
        s' := s.(queue := s.queue[1..] + [Resync(nextEventID)],
                 offered := s.offered + {eventId, nextEventID}, lost := s.lost + {s.queue[0].id, eventId});
        assert s' == Step(s, Offer(eventId, message, nextEventID));
      }
      subscribers := subscribers[id := s'];
    }
  }
}
