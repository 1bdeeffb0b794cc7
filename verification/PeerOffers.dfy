/** The folder offers the hub keeps for a peer until its next connection (internal/peerwire/hub.go): one message
    per folder and peer, the latest. */
module PeerOffers {
  import opened Options

  datatype Offer = Offer(folderID: string, body: string)

  predicate OnePerFolder(q: seq<Offer>) {
    forall i, j :: 0 <= i < j < |q| ==> q[i].folderID != q[j].folderID
  }

  /** The message q holds for folder f. */
  function Held(q: seq<Offer>, f: string): Option<Offer> {
    if q == [] then None
    else if q[0].folderID == f then Some(q[0])
    else Held(q[1..], f)
  }

  function Enqueue(q: seq<Offer>, m: Offer): seq<Offer> {
    if q == [] then [m]
    else if q[0].folderID == m.folderID then [m] + q[1..]
    else [q[0]] + Enqueue(q[1..], m)
  }

  function Cancelled(q: seq<Offer>, f: string): seq<Offer> {
    if q == [] then []
    else if q[0].folderID == f then Cancelled(q[1..], f)
    else [q[0]] + Cancelled(q[1..], f)
  }

  class Queues {
    var pendingOffers: map<string, seq<Offer>>

    function For(deviceID: string): seq<Offer>
      reads this
    {
      if deviceID in pendingOffers then pendingOffers[deviceID] else []
    }

    constructor ()
      ensures pendingOffers == map[]
    {
      pendingOffers := map[];
    }

    method QueueOffer(deviceID: string, msg: Offer)
      modifies this
      ensures pendingOffers == old(pendingOffers)[deviceID := Enqueue(old(For(deviceID)), msg)]
    {
      var existing := For(deviceID);
      for i := 0 to |existing|
        invariant Enqueue(existing, msg) == existing[..i] + Enqueue(existing[i..], msg)
      {
        assert existing[i..][1..] == existing[i + 1..];
        if existing[i].folderID == msg.folderID {
          assert existing[..i] + ([msg] + existing[i + 1..]) == existing[i := msg];
          pendingOffers := pendingOffers[deviceID := existing[i := msg]];
          return;
        }
        assert existing[..i] + ([existing[i]] + Enqueue(existing[i + 1..], msg))
               == existing[..i + 1] + Enqueue(existing[i + 1..], msg);
      }
      assert existing[..|existing|] == existing;
      pendingOffers := pendingOffers[deviceID := existing + [msg]];
    }

    method DrainOffers(deviceID: string) returns (msgs: seq<Offer>)
      modifies this
      ensures msgs == old(For(deviceID)) && pendingOffers == old(pendingOffers) - {deviceID}
    {
      msgs := For(deviceID);
      pendingOffers := pendingOffers - {deviceID};
    }

    method CancelOffer(deviceID: string, folderID: string)
      modifies this
      ensures For(deviceID) == Cancelled(old(For(deviceID)), folderID)
      ensures forall d :: d != deviceID ==> For(d) == old(For(d))
    {
      var msgs := For(deviceID);
      var kept: seq<Offer> := [];
      for i := 0 to |msgs|
        invariant kept + Cancelled(msgs[i..], folderID) == Cancelled(msgs, folderID)
      {
        assert msgs[i..][1..] == msgs[i + 1..];
        if msgs[i].folderID != folderID {
          var rest := Cancelled(msgs[i + 1..], folderID);
          assert kept + ([msgs[i]] + rest) == kept + [msgs[i]] + rest;
          kept := kept + [msgs[i]];
        }
      }
      assert kept + [] == kept;
      if |kept| == 0 {
        pendingOffers := pendingOffers - {deviceID};
      } else {
        pendingOffers := pendingOffers[deviceID := kept];
      }
    }
  }

  // --- What a queue holds after any history ---

  datatype Op = Queue(msg: Offer) | Cancel(folderID: string) | Drain

  function Perform(q: seq<Offer>, op: Op): seq<Offer> {
    match op
    case Queue(m) => Enqueue(q, m)
    case Cancel(f) => Cancelled(q, f)
    case Drain => []
  }

  function PerformAll(q: seq<Offer>, ops: seq<Op>): seq<Offer>
    decreases |ops|
  {
    if ops == [] then q else PerformAll(Perform(q, ops[0]), ops[1..])
  }

  /** The latest message for f that has been neither cancelled nor drained since, with before what came earlier. */
  function Outstanding(before: Option<Offer>, ops: seq<Op>, f: string): Option<Offer>
    decreases |ops|
  {
    if ops == [] then before else
    var after := match ops[0]
                 case Queue(m) => if m.folderID == f then Some(m) else before
                 case Cancel(g) => if g == f then None else before
                 case Drain => None;
    Outstanding(after, ops[1..], f)
  }

  lemma {:induction false} EnqueueHolds(q: seq<Offer>, m: Offer, f: string)
    requires OnePerFolder(q)
    ensures OnePerFolder(Enqueue(q, m))
    ensures Held(Enqueue(q, m), f) == if f == m.folderID then Some(m) else Held(q, f)
    ensures forall o :: o in Enqueue(q, m) ==> o in q || o == m
  {
    if q != [] && q[0].folderID != m.folderID {
      EnqueueHolds(q[1..], m, f);
      var e := Enqueue(q, m);
      forall j | 0 < j < |e| ensures e[0].folderID != e[j].folderID {
        assert e[j] in Enqueue(q[1..], m);
      }
    }
  }

  lemma {:induction false} CancelledHolds(q: seq<Offer>, g: string, f: string)
    requires OnePerFolder(q)
    ensures OnePerFolder(Cancelled(q, g))
    ensures Held(Cancelled(q, g), f) == if f == g then None else Held(q, f)
    ensures forall o :: o in Cancelled(q, g) ==> o in q
  {
    if q != [] {
      CancelledHolds(q[1..], g, f);
      if q[0].folderID != g {
        var e := Cancelled(q, g);
        forall j | 0 < j < |e| ensures e[0].folderID != e[j].folderID {
          assert e[j] in Cancelled(q[1..], g);
        }
      }
    }
  }

  /** After any history a queue holds at most one message per folder: the latest one queued and neither
      cancelled nor delivered since. */
  lemma {:induction false} QueueHoldsTheLatest(q: seq<Offer>, ops: seq<Op>, f: string)
    requires OnePerFolder(q)
    ensures OnePerFolder(PerformAll(q, ops))
    ensures Held(PerformAll(q, ops), f) == Outstanding(Held(q, f), ops, f)
    decreases |ops|
  {
    if ops != [] {
      match ops[0]
      case Queue(m) => EnqueueHolds(q, m, f);
      case Cancel(g) => CancelledHolds(q, g, f);
      case Drain =>
    }
    if ops != [] {
      QueueHoldsTheLatest(Perform(q, ops[0]), ops[1..], f);
    }
  }

  // --- The order of a queue ---

  /** An offer for a folder that has one already takes its place; any other goes to the end. */
  lemma {:induction false} EnqueueKeepsPlaces(q: seq<Offer>, m: Offer, i: nat)
    requires OnePerFolder(q)
    ensures i < |q| && q[i].folderID == m.folderID ==> Enqueue(q, m) == q[i := m]
    ensures (forall o :: o in q ==> o.folderID != m.folderID) ==> Enqueue(q, m) == q + [m]
  {
    if q != [] {
      assert q == [q[0]] + q[1..];
      assert forall o :: o in q[1..] ==> o in q;
      EnqueueKeepsPlaces(q[1..], m, if i > 0 then i - 1 else 0);
    }
  }

  /** Cancelling takes out the folder's offer and keeps the others in order. */
  lemma {:induction false} CancellingKeepsOrder(front: seq<Offer>, back: seq<Offer>, f: string, o: Offer)
    ensures Cancelled(front + back, f) == Cancelled(front, f) + Cancelled(back, f)
    ensures Cancelled([o], f) == if o.folderID == f then [] else [o]
  {
    assert [o][1..] == [];
    if front == [] {
      assert front + back == back;
    } else {
      assert (front + back)[1..] == front[1..] + back;
      CancellingKeepsOrder(front[1..], back, f, o);
    }
  }
}
