/** internal/hub/ws/request_manager.go lines 17-204 as a class. Each method that is one section under the lock,
    or one channel operation, makes exactly one step of the protocol; SendRequest and HandleResponse are what
    these amount to when no other goroutine runs in between. */
module RequestManagers {
  import opened Common
  import opened RequestProtocol

  /** `Done` is the state of the context, `Placed` the messages put on ResponseCh so far. The ghost fields say
      where the goroutines of the request are. */
  class PendingRequest {
    const ID: RequestID
    const CreatedAt: int
    var Placed: seq<Message>
    var Received: nat
    var Done: bool
    ghost const Index: nat
    ghost var Phase: Phase
    ghost var Watched: bool

    constructor (id: RequestID, now: int, ghost index: nat)
      ensures View() == Request(id, now, [], 0, false, Writing, false) && Index == index
    {
      ID, CreatedAt, Placed, Received, Done := id, now, [], 0, false;
      Index, Phase, Watched := index, Writing, false;
    }

    ghost function View(): Request
      reads this
    {
      Request(ID, CreatedAt, Placed, Received, Done, Phase, Watched)
    }

    /** The context's cancel function. */
    method Cancel()
      modifies this
      ensures View() == old(View()).(done := true)
    {
      Done := true;
    }
  }

  class RequestManager {
    var nextID: RequestID
    var pendingReqs: map<RequestID, PendingRequest>
    ghost var issued: nat
    ghost var drawn: set<RequestID>
    ghost var all: seq<PendingRequest>
    ghost var written: seq<nat>
    ghost var handler: Handler
    ghost var log: seq<Fate>

    ghost function Views(): (views: seq<Request>)
      reads this, all
      ensures |views| == |all|
    {
      seq(|all|, k requires 0 <= k < |all| reads this, all => all[k].View())
    }

    ghost function Pending(): map<RequestID, nat>
      reads this
    {
      map id | id in pendingReqs :: pendingReqs[id].Index
    }

    ghost function State(): State
      reads this, all
    {
      RequestProtocol.State(issued, drawn, Views(), Pending(), written, handler, log)
    }

    ghost predicate Owns(req: PendingRequest)
      reads this
    {
      req.Index < |all| && all[req.Index] == req
    }

    ghost predicate Linked()
      reads this
    {
      && nextID == issued % TWO32
      && (forall k | 0 <= k < |all| :: all[k].Index == k)
      && (forall id | id in pendingReqs :: pendingReqs[id].ID == id && Owns(pendingReqs[id]))
    }

    ghost predicate Valid()
      reads this, all
    {
      Linked() && RequestProtocol.Valid(State())
    }

    constructor ()
      ensures Valid() && State() == Init()
    {
      nextID, pendingReqs := 0, map[];
      issued, drawn, all, written, handler, log := 0, {}, [], [], Idle, [];
    }

    /** nextID.Add(1). */
    method DrawID() returns (id: RequestID)
      requires Valid() && Enabled(State(), Draw)
      modifies this
      ensures Valid() && all == old(all) && pendingReqs == old(pendingReqs)
      ensures State() == Apply(old(State()), Draw) && id in drawn && id == (old(issued) + 1) % TWO32
    {
      hide RequestProtocol.Valid;
      StepKeepsValid(State(), Draw);
      id := (nextID + 1) % TWO32;
      nextID := id;
      issued := issued + 1;
      drawn := drawn + {id};
      assert Views() == old(Views()) && Pending() == old(Pending());
      assert State() == Apply(old(State()), Draw);
    }

    /** The request is created and put into the map. */
    method Insert(id: RequestID, now: int) returns (req: PendingRequest)
      requires Valid() && Enabled(State(), Step.Insert(id, now))
      modifies this
      ensures Valid() && fresh(req) && all == old(all) + [req] && req.Index == |old(all)| && req.Phase.Writing?
      ensures State() == Apply(old(State()), Step.Insert(id, now)) && issued == old(issued) && drawn == old(drawn) - {id}
    {
      hide RequestProtocol.Valid;
      StepKeepsValid(State(), Step.Insert(id, now));
      req := new PendingRequest(id, now, |all|);
      pendingReqs := pendingReqs[id := req];
      drawn := drawn - {id};
      all := all + [req];
      assert Views() == old(Views()) + [req.View()];
      assert Pending() == old(Pending())[id := |old(all)|];
      assert State() == Apply(old(State()), Step.Insert(id, now));
    }

    /** The write succeeded: the watcher starts and SendRequest returns. */
    ghost method StartWatcher(req: PendingRequest)
      requires Valid() && req in all && Enabled(State(), WriteOk(req.Index))
      modifies this, req
      ensures Valid() && all == old(all) && State() == Apply(old(State()), WriteOk(req.Index))
    {
      hide RequestProtocol.Valid;
      StepKeepsValid(State(), WriteOk(req.Index));
      req.Phase := Sent;
      req.Watched := true;
      written := written + [req.Index];
      OneChanged(req);
      assert Pending() == old(Pending());
      assert State() == Apply(old(State()), WriteOk(req.Index));
    }

    /** cancelRequest. */
    method CancelRequest(id: RequestID)
      requires Linked() && State().InRange()
      modifies this, all
      ensures Linked() && all == old(all) && State() == Cancelled(old(State()), id)
    {
      if id in pendingReqs {
        var req := pendingReqs[id];
        req.Cancel();
        pendingReqs := pendingReqs - {id};
        OneChanged(req);
        assert Pending() == old(Pending()) - {id};
      }
    }

    /** The write failed. */
    method FailWrite(req: PendingRequest)
      requires Valid() && req in all && Enabled(State(), WriteFail(req.Index))
      modifies this, all
      ensures Valid() && all == old(all) && State() == Apply(old(State()), WriteFail(req.Index))
    {
      hide RequestProtocol.Valid;
      StepKeepsValid(State(), WriteFail(req.Index));
      CancelRequest(req.ID);
      label Cancelled:
      req.Phase := Failed;
      OneChanged@Cancelled(req);
      assert Pending() == old@Cancelled(Pending());
      assert State() == Apply(old(State()), WriteFail(req.Index));
    }

    /** cleanupRequest, once the context is done. */
    method CleanupRequest(req: PendingRequest)
      requires Valid() && req in all && Enabled(State(), Watch(req.Index))
      modifies this, all
      ensures Valid() && all == old(all) && State() == Apply(old(State()), Watch(req.Index))
    {
      hide RequestProtocol.Valid;
      StepKeepsValid(State(), Watch(req.Index));
      CancelRequest(req.ID);
      label Cancelled:
      req.Watched := false;
      OneChanged@Cancelled(req);
      assert Pending() == old@Cancelled(Pending());
      assert State() == Apply(old(State()), Watch(req.Index));
    }

    /** SendRequest, when nothing else happens before it returns. */
    method SendRequest(now: int, writeSucceeds: bool) returns (req: PendingRequest?)
      requires Valid() && issued + 1 < TWO32
      modifies this, all
      ensures Valid()
      ensures State() == Sending(old(State()), (old(issued) + 1) % TWO32, now, writeSucceeds)
      ensures req != null <==> writeSucceeds
      ensures req != null ==> fresh(req) && all == old(all) + [req]
    {
      hide RequestProtocol.Valid, Apply;
      ghost var s := State();
      var id := DrawID();
      assert State() == Next(s, Draw);
      var sent := Insert(id, now);
      assert State() == Next(Next(s, Draw), Step.Insert(id, now));
      assert State().requests[sent.Index] == sent.View() && sent.Index == |s.requests|;
      if writeSucceeds {
        StartWatcher(sent);
        assert State() == Next(Next(Next(s, Draw), Step.Insert(id, now)), WriteOk(sent.Index));
        req := sent;
      } else {
        FailWrite(sent);
        assert State() == Next(Next(Next(s, Draw), Step.Insert(id, now)), WriteFail(sent.Index));
        req := null;
      }
    }

    /** The oldest pending request, if there is one. */
    method OldestPending() returns (oldest: PendingRequest?)
      requires Linked()
      ensures oldest == null <==> pendingReqs == map[]
      ensures oldest != null ==> InMap(oldest) && forall id | id in pendingReqs :: oldest.CreatedAt <= pendingReqs[id].CreatedAt
    {
      oldest := null;
      var rest := pendingReqs.Keys;
      while rest != {}
        invariant rest <= pendingReqs.Keys
        invariant oldest == null ==> rest == pendingReqs.Keys
        invariant oldest != null ==> InMap(oldest)
        invariant oldest != null ==> forall id | id in pendingReqs.Keys - rest :: oldest.CreatedAt <= pendingReqs[id].CreatedAt
        decreases |rest|
      {
        var id :| id in rest;
        var req := pendingReqs[id];
        if oldest == null || req.CreatedAt < oldest.CreatedAt {
          oldest := req;
        }
        rest := rest - {id};
      }
    }

    lemma OldestIsOldest(oldest: PendingRequest)
      requires Valid() && InMap(oldest) && forall id | id in pendingReqs :: oldest.CreatedAt <= pendingReqs[id].CreatedAt
      ensures Owns(oldest) && State().InRange() && IsOldest(State(), oldest.Index)
    {
      hide RequestProtocol.Valid, IdsAreUnique, OneAnswerEach, PendingIsConsistent;
      ValidParts(State());
      forall id | id in pendingReqs
        ensures State().requests[pendingReqs[id].Index] == pendingReqs[id].View()
      {
      }
    }

    /** The lookup at the start of handleResponse and of routeLegacyResponse. A message for nobody is closed. */
    method LookUp(message: Message) returns (req: PendingRequest?, ghost oldest: nat)
      requires Valid() && handler.Idle? && message.serial == |log|
      modifies this
      ensures Valid() && all == old(all) && Enabled(old(State()), Arrive(message.id, oldest))
      ensures State() == Apply(old(State()), Arrive(message.id, oldest))
      ensures req == null ==> handler == Idle
      ensures req != null ==> req in all && handler == Looked(message, req.Index)
    {
      hide RequestProtocol.Valid;
      oldest := 0;
      if message.id.Some? {
        req := if message.id.value in pendingReqs then pendingReqs[message.id.value] else null;
      } else {
        req := OldestPending();
        if req != null {
          oldest := req.Index;
          OldestIsOldest(req);
        }
      }
      StepKeepsValid(State(), Arrive(message.id, oldest));
      if req == null {
        log := log + [Fate.Closed];
      } else {
        handler := Looked(message, req.Index);
      }
      assert Views() == old(Views()) && Pending() == old(Pending());
      assert State() == Apply(old(State()), Arrive(message.id, oldest));
    }

    /** The select: send on the channel, or close the message if the context is done. */
    method Offer(message: Message, req: PendingRequest, doneFirst: bool) returns (sent: bool)
      requires Valid() && req in all && handler == Looked(message, req.Index)
      modifies this, req
      ensures Valid() && all == old(all) && sent == !(doneFirst && old(req.Done))
      ensures State() == Next(old(State()), if sent then Deliver else Drop)
      ensures handler == if sent then Delivered(req.Index) else Idle
    {
      hide RequestProtocol.Valid;
      LookedHasRoom(State());
      assert State().requests[req.Index] == req.View();
      var hasRoom := |req.Placed| <= req.Received;
      assert hasRoom;
      sent := !(doneFirst && req.Done);
      StepKeepsValid(State(), if sent then Deliver else Drop);
      if sent {
        req.Placed := req.Placed + [message];
        handler := Delivered(req.Index);
        log := log + [Placed(req.Index)];
      } else {
        handler := Idle;
        log := log + [Fate.Closed];
      }
      OneChanged(req);
      assert Pending() == old(Pending());
      assert State() == Next(old(State()), if sent then Deliver else Drop);
    }

    /** deleteRequest, at the end of handleResponse. */
    method DeleteRequest(req: PendingRequest)
      requires Valid() && req in all && handler == Delivered(req.Index)
      modifies this
      ensures Valid() && all == old(all) && State() == Next(old(State()), Delete)
    {
      hide RequestProtocol.Valid;
      StepKeepsValid(State(), Delete);
      assert State().requests[req.Index] == req.View();
      pendingReqs := pendingReqs - {req.ID};
      handler := Idle;
      assert Views() == old(Views()) && Pending() == old(Pending()) - {req.ID};
      assert State() == Next(old(State()), Delete);
    }

    /** handleResponse, when nothing else happens before it returns. */
    method HandleResponse(message: Message, doneFirst: bool) returns (ghost oldest: nat)
      requires Valid() && handler.Idle? && message.serial == |log|
      modifies this, all
      ensures Valid() && all == old(all)
      ensures State() == Handling(old(State()), message.id, oldest, doneFirst)
    {
      hide RequestProtocol.Valid, Apply;
      ghost var s := State();
      var req, o := LookUp(message);
      oldest := o;
      assert State() == Next(s, Arrive(message.id, oldest));
      if req != null {
        assert State().requests[req.Index] == req.View();
        var sent := Offer(message, req, doneFirst);
        if sent {
          DeleteRequest(req);
        }
      }
    }

    /** Close: cancel all pending requests and forget them. */
    method Close()
      requires Valid()
      modifies this, all
      ensures Valid() && all == old(all) && State() == Apply(old(State()), Step.Close)
    {
      hide RequestProtocol.Valid;
      StepKeepsValid(State(), Step.Close);
      PendingMeansInMap();
      CancelAll();
      assert Views() == Shut(old(State())).requests;
      pendingReqs := map[];
      assert Pending() == map[];
      assert State() == Apply(old(State()), Step.Close);
    }

    method CancelAll()
      requires Linked()
      modifies all
      ensures forall k | 0 <= k < |all| ::
                all[k].View() == if InMap(all[k]) then old(all[k].View()).(done := true) else old(all[k].View())
    {
      var rest := pendingReqs.Keys;
      while rest != {}
        invariant rest <= pendingReqs.Keys
        invariant forall k | 0 <= k < |all| ::
                    all[k].View() == if InMap(all[k]) && all[k].ID !in rest then old(all[k].View()).(done := true) else old(all[k].View())
        decreases |rest|
      {
        var id :| id in rest;
        pendingReqs[id].Cancel();
        rest := rest - {id};
      }
    }

    ghost predicate InMap(req: PendingRequest)
      reads this
    {
      req.ID in pendingReqs && pendingReqs[req.ID] == req
    }

    lemma PendingMeansInMap()
      requires Linked()
      ensures forall k | 0 <= k < |all| :: State().IsPending(k) <==> InMap(all[k])
    {
      forall k | 0 <= k < |all|
        ensures State().IsPending(k) <==> InMap(all[k])
      {
        assert State().requests[k] == all[k].View();
      }
    }

    twostate lemma OneChanged(req: PendingRequest)
      requires old(Linked()) && all == old(all) && req in all
      requires forall k | 0 <= k < |all| && k != req.Index :: all[k].View() == old(all[k].View())
      ensures req.Index < |all| && Views() == old(Views())[req.Index := req.View()]
    {
    }
  }
}
