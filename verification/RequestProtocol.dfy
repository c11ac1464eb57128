/** The request/response protocol of one agent connection: internal/hub/ws/request_manager.go lines 14-204.

    Any number of goroutines may be in SendRequest, one goroutine handles responses (there is one read loop
    per connection, internal/hub/agent_connect.go line 31), and one watcher runs per request. A step is
    what one of them does between two points at which another may be scheduled: the draw of an ID, a
    section under the lock, a channel operation, a write. A run is any sequence of enabled steps. */
module RequestProtocol {
  import opened Common

  const TWO32: nat := 0x1_0000_0000

  type RequestID = x: int | 0 <= x < TWO32

  /** A response, numbered in order of arrival; a legacy agent sends no ID. */
  datatype Message = Message(serial: nat, id: Option<RequestID>)

  /** SendRequest is still writing; it returned the request, with a watcher; it returned an error. */
  datatype Phase = Writing | Sent | Failed

  /** `placed` holds every message ever put on ResponseCh, `received` counts those taken off again; `done` says
      that the context is done. `watched` is true while the watcher waits. */
  datatype Request = Request(id: RequestID, createdAt: int, placed: seq<Message>, received: nat, done: bool, phase: Phase, watched: bool)
  {
    /** Is there room on ResponseCh, a channel of capacity one? */
    predicate HasRoom() {
      |placed| <= received
    }
  }

  /** What the goroutine that handles responses is about to do. */
  datatype Handler = Idle | Looked(message: Message, k: nat) | Delivered(k: nat)

  /** What became of a message. */
  datatype Fate = Closed | Placed(k: nat)

  /** `issued` counts the draws from nextID, `drawn` are the IDs whose request is not in the map yet.
      Requests are numbered in order of insertion; `pending` is pendingReqs. `written` lists the requests in
      the order of their successful writes, `log` the fate of every message that is dealt with. */
  datatype State = State(issued: nat, drawn: set<RequestID>, requests: seq<Request>, pending: map<RequestID, nat>,
                         written: seq<nat>, handler: Handler, log: seq<Fate>)
  {
    predicate InRange() {
      && (forall id | id in pending :: pending[id] < |requests|)
      && (handler.Looked? || handler.Delivered? ==> handler.k < |requests|)
    }

    predicate IsPending(k: nat) {
      k < |requests| && requests[k].id in pending && pending[requests[k].id] == k
    }

    /** Number of messages that arrived. */
    function Arrived(): nat {
      |log| + if handler.Looked? then 1 else 0
    }
  }

  datatype Step =
    | Draw                                    // nextID.Add(1)
    | Insert(id: RequestID, createdAt: int)   // pendingReqs[reqID] = req
    | WriteOk(k: nat)                         // the write succeeds and the watcher starts
    | WriteFail(k: nat)                       // the write fails: cancelRequest
    | Expire(k: nat)                          // the context ends: timeout, parent, or the caller's Cancel
    | Watch(k: nat)                           // the watcher wakes up: cancelRequest
    | Arrive(messageId: Option<RequestID>, oldest: nat)  // lookup by ID, or of the oldest pending request
    | Deliver                                 // ResponseCh <- message
    | Drop                                    // <-Context.Done(): message.Close()
    | Delete                                  // deleteRequest
    | Receive(k: nat)                         // the caller takes the message
    | Close                                   // Close

  predicate IsOldest(s: State, k: nat)
    requires s.InRange()
  {
    s.IsPending(k) && forall id | id in s.pending :: s.requests[k].createdAt <= s.requests[s.pending[id]].createdAt
  }

  predicate Enabled(s: State, step: Step)
    requires s.InRange()
  {
    match step
    case Draw => s.issued + 1 < TWO32
    case Insert(id, _) => id in s.drawn
    case WriteOk(k) => k < |s.requests| && s.requests[k].phase.Writing?
    case WriteFail(k) => k < |s.requests| && s.requests[k].phase.Writing?
    case Expire(k) => k < |s.requests|
    case Watch(k) => k < |s.requests| && s.requests[k].watched && s.requests[k].done
    case Arrive(id, oldest) => s.handler.Idle? && (id.None? && s.pending != map[] ==> IsOldest(s, oldest))
    case Deliver => s.handler.Looked? && s.requests[s.handler.k].HasRoom()
    case Drop => s.handler.Looked? && s.requests[s.handler.k].done
    case Delete => s.handler.Delivered?
    case Receive(k) => k < |s.requests| && !s.requests[k].HasRoom()
    case Close => true
  }

  function WithRequest(s: State, k: nat, r: Request): State
    requires k < |s.requests|
  {
    s.(requests := s.requests[k := r])
  }

  /** cancelRequest. */
  function Cancelled(s: State, id: RequestID): State
    requires s.InRange()
  {
    if id !in s.pending then s
    else
      var k := s.pending[id];
      WithRequest(s, k, s.requests[k].(done := true)).(pending := s.pending - {id})
  }

  /** Lookup for a message: by ID, or the oldest pending request; the message is closed if there is none. */
  function Looking(s: State, id: Option<RequestID>, oldest: nat): State
    requires s.InRange() && s.handler.Idle?
  {
    var message := Message(|s.log|, id);
    match id
    case Some(n) => if n in s.pending then s.(handler := Looked(message, s.pending[n])) else s.(log := s.log + [Fate.Closed])
    case None => if s.pending != map[] then s.(handler := Looked(message, oldest)) else s.(log := s.log + [Fate.Closed])
  }

  /** Close: all pending requests are cancelled and forgotten. */
  function Shut(s: State): State {
    s.(requests := seq(|s.requests|, k requires 0 <= k < |s.requests| =>
                         if s.IsPending(k) then s.requests[k].(done := true) else s.requests[k]),
       pending := map[])
  }

  function Apply(s: State, step: Step): (t: State)
    requires s.InRange() && Enabled(s, step)
  {
    match step
    case Draw => s.(issued := s.issued + 1, drawn := s.drawn + {(s.issued + 1) % TWO32})
    case Insert(id, createdAt) =>
      s.(drawn := s.drawn - {id}, requests := s.requests + [Request(id, createdAt, [], 0, false, Writing, false)],
         pending := s.pending[id := |s.requests|])
    case WriteOk(k) =>
      WithRequest(s, k, s.requests[k].(phase := Sent, watched := true)).(written := s.written + [k])
    case WriteFail(k) =>
      var t := Cancelled(s, s.requests[k].id);
      WithRequest(t, k, t.requests[k].(phase := Failed))
    case Expire(k) => WithRequest(s, k, s.requests[k].(done := true))
    case Watch(k) =>
      var t := Cancelled(s, s.requests[k].id);
      WithRequest(t, k, t.requests[k].(watched := false))
    case Arrive(id, oldest) => Looking(s, id, oldest)
    case Deliver =>
      var k := s.handler.k;
      var r := s.requests[k];
      WithRequest(s, k, r.(placed := r.placed + [s.handler.message])).(handler := Delivered(k), log := s.log + [Placed(k)])
    case Drop => s.(handler := Idle, log := s.log + [Fate.Closed])
    case Delete => s.(handler := Idle, pending := s.pending - {s.requests[s.handler.k].id})
    case Receive(k) => WithRequest(s, k, s.requests[k].(received := s.requests[k].received + 1))
    case Close => Shut(s)
  }

  function Init(): State {
    State(0, {}, [], map[], [], Idle, [])
  }

  // ---------------------------------------------------------------------------------------------
  // What every step keeps
  // ---------------------------------------------------------------------------------------------

  /** IDs are never used twice. */
  predicate IdsAreUnique(s: State) {
    && s.issued < TWO32
    && (forall id | id in s.drawn :: 1 <= id <= s.issued)
    && (forall k | 0 <= k < |s.requests| :: 1 <= s.requests[k].id <= s.issued && s.requests[k].id !in s.drawn)
    && (forall j, k | 0 <= j < k < |s.requests| :: s.requests[j].id != s.requests[k].id)
  }

  /** A request is in the map under its own ID. A request that was inserted and is not in the map any more was
      answered or cancelled. */
  predicate PendingIsConsistent(s: State) {
    && s.InRange()
    && (forall id | id in s.pending :: s.requests[s.pending[id]].id == id)
    && (forall k | 0 <= k < |s.requests| :: s.IsPending(k) || s.requests[k].done || s.requests[k].placed != [])
  }

  /** No channel gets a second message, and a channel that has one belongs to a request that can no longer be
      looked up. */
  predicate OneAnswerEach(s: State) {
    && s.InRange()
    && (forall k | 0 <= k < |s.requests| :: |s.requests[k].placed| <= 1 && s.requests[k].received <= |s.requests[k].placed|)
    && (forall k | 0 <= k < |s.requests| && s.requests[k].placed != [] && s.IsPending(k) :: s.handler == Delivered(k))
    && (s.handler.Looked? ==> s.requests[s.handler.k].placed == [])
    && (s.handler.Delivered? ==> s.requests[s.handler.k].placed != [])
  }

  predicate IsFor(r: Request, message: Message) {
    message.id.None? || message.id.value == r.id
  }

  /** A message with an ID only reaches the request with that ID. */
  predicate RoutedById(s: State) {
    && s.InRange()
    && (forall k | 0 <= k < |s.requests| && s.requests[k].placed != [] :: IsFor(s.requests[k], s.requests[k].placed[0]))
    && (s.handler.Looked? ==> IsFor(s.requests[s.handler.k], s.handler.message))
  }

  /** The log says truly where the messages are. */
  predicate LogIsTrue(s: State) {
    && s.InRange()
    && (s.handler.Looked? ==> s.handler.message.serial == |s.log|)
    && (forall k | 0 <= k < |s.requests| && s.requests[k].placed != [] ::
          var n := s.requests[k].placed[0].serial; n < |s.log| && s.log[n] == Placed(k))
    && (forall n | 0 <= n < |s.log| && s.log[n].Placed? :: HasMessage(s, s.log[n].k, n))
  }

  predicate HasMessage(s: State, k: nat, serial: nat) {
    k < |s.requests| && s.requests[k].placed != [] && s.requests[k].placed[0].serial == serial
  }

  /** Every pending request is still being written or has a watcher. */
  predicate PendingIsWatched(s: State) {
    forall k | 0 <= k < |s.requests| && s.IsPending(k) :: s.requests[k].phase.Writing? || (s.requests[k].phase.Sent? && s.requests[k].watched)
  }

  predicate Valid(s: State) {
    && s.InRange()
    && IdsAreUnique(s)
    && PendingIsConsistent(s)
    && OneAnswerEach(s)
    && RoutedById(s)
    && LogIsTrue(s)
    && PendingIsWatched(s)
  }

  lemma CancelledFrame(s: State, id: RequestID)
    requires s.InRange()
    ensures var t := Cancelled(s, id);
            && |t.requests| == |s.requests|
            && forall k | 0 <= k < |s.requests| :: t.requests[k] == s.requests[k] || t.requests[k] == s.requests[k].(done := true)
  {
  }

  /** What a step can do to the requests: new ones come in by Insert, messages by Deliver; only cancellations
      and the end of a context set `done`. */
  lemma Frame(s: State, step: Step)
    requires s.InRange() && Enabled(s, step)
    ensures var t := Apply(s, step);
            && |t.requests| == |s.requests| + (if step.Insert? then 1 else 0)
            && forall k | 0 <= k < |s.requests| ::
                 && t.requests[k].id == s.requests[k].id
                 && t.requests[k].createdAt == s.requests[k].createdAt
                 && (s.requests[k].done ==> t.requests[k].done)
                 && t.requests[k].placed == s.requests[k].placed +
                      (if step.Deliver? && k == s.handler.k then [s.handler.message] else [])
  {
    hide Cancelled;
    if step.WriteFail? || step.Watch? {
      CancelledFrame(s, s.requests[step.k].id);
    }
  }

  /** What a step can do to the map. */
  lemma PendingFrame(s: State, step: Step)
    requires s.InRange() && Enabled(s, step)
    ensures var t := Apply(s, step);
            && t.InRange()
            && (forall id | id in t.pending ::
                  if step.Insert? && id == step.id then t.pending[id] == |s.requests|
                  else id in s.pending && t.pending[id] == s.pending[id])
  {
  }

  /** A request only leaves the map when it is cancelled or when the handler is done with it, and only under
      its own ID. */
  lemma LeavesMap(s: State, step: Step, k: nat)
    requires s.InRange() && Enabled(s, step) && IdsAreUnique(s) && s.IsPending(k)
    ensures var t := Apply(s, step);
            k < |t.requests| && (t.IsPending(k) || t.requests[k].done || (step.Delete? && s.requests[s.handler.k].id == s.requests[k].id))
  {
  }

  /** What a step can do to the handler. */
  lemma HandlerFrame(s: State, step: Step)
    requires s.InRange() && Enabled(s, step) && PendingIsConsistent(s)
    ensures var t := Apply(s, step);
            match step
            case Arrive(_, _) => s.handler.Idle? && (t.handler.Idle? || (t.handler.Looked? && s.IsPending(t.handler.k)))
            case Deliver => s.handler.Looked? && t.handler == Delivered(s.handler.k)
            case Drop => s.handler.Looked? && s.requests[s.handler.k].done && t.handler == Idle
            case Delete => s.handler.Delivered? && t.handler == Idle && s.requests[s.handler.k].id !in t.pending
            case _ => t.handler == s.handler
  {
  }

  lemma ReceivedFrame(s: State, step: Step)
    requires s.InRange() && Enabled(s, step)
    ensures var t := Apply(s, step);
            && (forall k | 0 <= k < |s.requests| && k < |t.requests| ::
                  t.requests[k].received == s.requests[k].received + if step == Receive(k) then 1 else 0)
            && (step.Insert? ==> |t.requests| > |s.requests| && t.requests[|s.requests|].placed == [] && t.requests[|s.requests|].received == 0)
  {
  }

  /** What a step can do to a request's sender and watcher. */
  lemma PhaseFrame(s: State, step: Step)
    requires s.InRange() && Enabled(s, step) && PendingIsConsistent(s)
    ensures var t := Apply(s, step);
            && (forall k | 0 <= k < |s.requests| && k < |t.requests| ::
                  || (t.requests[k].phase == s.requests[k].phase && t.requests[k].watched == s.requests[k].watched)
                  || (t.requests[k].phase.Sent? && t.requests[k].watched)
                  || !t.IsPending(k))
            && (step.Insert? ==> |t.requests| > |s.requests| && t.requests[|s.requests|].phase.Writing?)
  {
  }

  lemma WrittenFrame(s: State, step: Step)
    requires s.InRange() && Enabled(s, step)
    ensures Apply(s, step).written == s.written + if step.WriteOk? then [step.k] else []
  {
  }

  /** What ends a context. */
  lemma DoneFrame(s: State, step: Step)
    requires s.InRange() && Enabled(s, step) && PendingIsConsistent(s) && IdsAreUnique(s)
    ensures var t := Apply(s, step);
            forall k | 0 <= k < |t.requests| && t.requests[k].done ::
              (k < |s.requests| && s.requests[k].done) || step == Expire(k) || step.WriteFail? || step.Close?
  {
  }

  lemma KeepsIds(s: State, step: Step)
    requires s.InRange() && Enabled(s, step) && IdsAreUnique(s)
    ensures IdsAreUnique(Apply(s, step))
  {
    Frame(s, step);
    match step {
      case Draw =>
      case Insert(_, _) =>
      case _ =>
        assert Apply(s, step).issued == s.issued && Apply(s, step).drawn == s.drawn;
        hide Apply, Enabled;
    }
  }

  lemma KeepsPending(s: State, step: Step)
    requires s.InRange() && Enabled(s, step) && IdsAreUnique(s) && PendingIsConsistent(s) && OneAnswerEach(s)
    ensures PendingIsConsistent(Apply(s, step))
  {
    Frame(s, step);
    PendingFrame(s, step);
    var t := Apply(s, step);
    forall k | 0 <= k < |t.requests|
      ensures t.IsPending(k) || t.requests[k].done || t.requests[k].placed != []
    {
      if s.IsPending(k) {
        LeavesMap(s, step, k);
      }
    }
    hide Apply;
  }

  lemma KeepsOneAnswer(s: State, step: Step)
    requires s.InRange() && Enabled(s, step) && IdsAreUnique(s) && PendingIsConsistent(s) && OneAnswerEach(s)
    ensures OneAnswerEach(Apply(s, step))
  {
    hide Apply;
    Frame(s, step);
    PendingFrame(s, step);
    HandlerFrame(s, step);
    ReceivedFrame(s, step);
  }

  lemma KeepsRouting(s: State, step: Step)
    requires s.InRange() && Enabled(s, step) && PendingIsConsistent(s) && RoutedById(s) && OneAnswerEach(s)
    ensures RoutedById(Apply(s, step))
  {
    Frame(s, step);
    PendingFrame(s, step);
  }

  /** What a step can do to the log. */
  lemma LogFrame(s: State, step: Step)
    requires s.InRange() && Enabled(s, step)
    ensures var t := Apply(s, step);
            match step
            case Deliver => t.log == s.log + [Placed(s.handler.k)]
            case Drop => t.log == s.log + [Fate.Closed]
            case Arrive(id, _) => if t.handler.Looked? then t.log == s.log && t.handler.message == Message(|s.log|, id)
                                  else t.log == s.log + [Fate.Closed]
            case _ => t.log == s.log
  {
  }

  lemma KeepsLog(s: State, step: Step)
    requires s.InRange() && Enabled(s, step) && PendingIsConsistent(s) && OneAnswerEach(s) && LogIsTrue(s)
    ensures LogIsTrue(Apply(s, step))
  {
    hide Apply;
    Frame(s, step);
    PendingFrame(s, step);
    HandlerFrame(s, step);
    LogFrame(s, step);
    ReceivedFrame(s, step);
  }

  lemma KeepsWatched(s: State, step: Step)
    requires s.InRange() && Enabled(s, step) && IdsAreUnique(s) && PendingIsConsistent(s) && PendingIsWatched(s)
    ensures PendingIsWatched(Apply(s, step))
  {
    hide Apply;
    Frame(s, step);
    PendingFrame(s, step);
    PhaseFrame(s, step);
  }

  lemma StepKeepsValid(s: State, step: Step)
    requires Valid(s) && Enabled(s, step)
    ensures s.InRange() && Valid(Apply(s, step))
  {
    hide IdsAreUnique, PendingIsConsistent, OneAnswerEach, RoutedById, LogIsTrue, PendingIsWatched, Apply, Enabled;
    PendingFrame(s, step);
    KeepsIds(s, step);
    KeepsPending(s, step);
    KeepsOneAnswer(s, step);
    KeepsRouting(s, step);
    KeepsLog(s, step);
    KeepsWatched(s, step);
  }

  /** The state after any sequence of steps; a step that is not enabled waits. */
  function Next(s: State, step: Step): (t: State)
    requires Valid(s)
    ensures Valid(t)
  {
    if Enabled(s, step) then StepKeepsValid(s, step); Apply(s, step) else s
  }

  function After(steps: seq<Step>): (s: State)
    ensures Valid(s)
  {
    if steps == [] then Init() else Next(After(steps[..|steps| - 1]), steps[|steps| - 1])
  }

  // ---------------------------------------------------------------------------------------------
  // Consequences
  // ---------------------------------------------------------------------------------------------

  /** In every interleaving each message that is dealt with is either closed and on no channel, or it is on
      the channel of exactly one request. */
  lemma EveryMessageHasOneFate(steps: seq<Step>, n: nat, k: nat)
    requires n < |After(steps).log|
    ensures After(steps).log[n] == Placed(k) <==> HasMessage(After(steps), k, n)
    ensures forall j | HasMessage(After(steps), k, n) && HasMessage(After(steps), j, n) :: j == k
  {
    hide After;
  }

  /** The fate of a message never changes, and a message on a channel stays the only one ever placed there. */
  lemma FateIsFinal(s: State, step: Step)
    requires Valid(s)
    ensures s.log <= Next(s, step).log
    ensures forall k | 0 <= k < |s.requests| && s.requests[k].placed != [] ::
              k < |Next(s, step).requests| && Next(s, step).requests[k].placed == s.requests[k].placed
  {
    hide Valid, Apply, IdsAreUnique;
    ValidParts(s);
    if Enabled(s, step) {
      Frame(s, step);
      LogFrame(s, step);
    }
  }

  lemma LookedHasRoom(s: State)
    requires Valid(s) && s.handler.Looked?
    ensures s.InRange() && s.requests[s.handler.k].HasRoom()
  {
  }

  lemma ValidParts(s: State)
    requires Valid(s)
    ensures s.InRange() && OneAnswerEach(s) && IdsAreUnique(s) && PendingIsConsistent(s)
  {
  }

  /** A message with an ID only ever reaches the one request with that ID. */
  lemma MessagesReachTheirRequest(steps: seq<Step>, k: nat)
    requires k < |After(steps).requests| && After(steps).requests[k].placed != []
    ensures var s, message := After(steps), After(steps).requests[k].placed[0];
            && s.requests[k].placed == [message]
            && (message.id.Some? ==> forall j | 0 <= j < |s.requests| :: s.requests[j].id == message.id.value <==> j == k)
  {
    hide After;
  }

  /** The handler is never stuck: it can always take the next message, send on the channel it looked up
      (whatever the receiver does), or delete. */
  lemma HandlerIsNeverStuck(steps: seq<Step>, id: Option<RequestID>)
    ensures var s := After(steps);
            match s.handler
            case Idle => exists oldest: nat :: Enabled(s, Arrive(id, oldest))
            case Looked(_, k) => Enabled(s, Deliver) && s.requests[k].placed == []
            case Delivered(_) => Enabled(s, Delete)
  {
    hide After;
    var s := After(steps);
    if s.handler.Idle? {
      if s.pending == map[] {
        assert Enabled(s, Arrive(id, 0));
      } else {
        var k := Oldest(s, s.pending.Keys);
        assert Enabled(s, Arrive(id, k));
      }
    }
  }

  lemma {:induction false} Oldest(s: State, ids: set<RequestID>) returns (k: nat)
    requires Valid(s) && ids <= s.pending.Keys && ids != {}
    ensures s.IsPending(k) && s.requests[k].id in ids
    ensures forall id | id in ids :: s.requests[k].createdAt <= s.requests[s.pending[id]].createdAt
    decreases |ids|
  {
    hide Valid, IdsAreUnique, OneAnswerEach;
    ValidParts(s);
    var id :| id in ids;
    k := s.pending[id];
    var rest := ids - {id};
    if rest != {} {
      var j := Oldest(s, rest);
      if s.requests[j].createdAt < s.requests[k].createdAt {
        k := j;
      }
      forall other | other in ids
        ensures s.requests[k].createdAt <= s.requests[s.pending[other]].createdAt
      {
        assert other == id || other in rest;
      }
    } else {
      assert ids == {id};
    }
  }

  /** The watcher of a request that already left the map changes nothing but itself; that of a pending
      request removes just that one. */
  lemma WatcherOnlyAffectsItsRequest(s: State, k: nat)
    requires Valid(s) && k < |s.requests| && s.requests[k].watched && s.requests[k].done
    ensures var t := Next(s, Watch(k));
            && t == s.(requests := s.requests[k := s.requests[k].(watched := false)],
                       pending := if s.IsPending(k) then s.pending - {s.requests[k].id} else s.pending)
            && !t.IsPending(k)
            && forall j | 0 <= j < |s.requests| && j != k :: s.IsPending(j) <==> t.IsPending(j)
  {
    hide OneAnswerEach, RoutedById, LogIsTrue, PendingIsWatched, Valid;
    ValidParts(s);
    var id := s.requests[k].id;
    if id in s.pending {
      var j := s.pending[id];
      assert s.requests[j].id == id;
      assert j == k;
      assert s.requests[k].(done := true) == s.requests[k];
    }
  }

  /** All contexts are done and no SendRequest is between insertion and return. */
  predicate AllOver(s: State) {
    forall k | 0 <= k < |s.requests| :: s.requests[k].done && !s.requests[k].phase.Writing?
  }

  function Watchers(s: State, order: seq<nat>): (t: State)
    requires Valid(s)
    ensures Valid(t)
    decreases |order|
  {
    if order == [] then s else Watchers(Next(s, Watch(order[0])), order[1..])
  }

  /** Once all contexts are done, the watchers empty the map, in whatever order they run. */
  lemma {:induction false} WatchersDrain(s: State, order: seq<nat>)
    requires Valid(s) && AllOver(s)
    requires forall k | 0 <= k < |s.requests| && s.IsPending(k) :: k in order
    ensures Watchers(s, order).pending == map[]
    decreases |order|
  {
    hide Next;
    if order == [] {
      NothingPending(s);
    } else {
      var k := order[0];
      var t := Next(s, Watch(k));
      WatcherStep(s, k);
      forall j | 0 <= j < |t.requests| && t.IsPending(j)
        ensures j in order[1..]
      {
        assert order == [k] + order[1..];
      }
      WatchersDrain(t, order[1..]);
    }
  }

  /** Each watcher step takes its request out of the map, if it is there, and nothing else. */
  lemma WatcherStep(s: State, k: nat)
    requires Valid(s) && AllOver(s)
    ensures var t := Next(s, Watch(k));
            && AllOver(t) && |t.requests| == |s.requests| && !t.IsPending(k)
            && (forall j | 0 <= j < |s.requests| && t.IsPending(j) :: s.IsPending(j))
            && |t.pending| == |s.pending| - if s.IsPending(k) then 1 else 0
  {
    if k < |s.requests| && s.requests[k].watched {
      WatcherOnlyAffectsItsRequest(s, k);
      var id := s.requests[k].id;
      if s.IsPending(k) {
        var t := Next(s, Watch(k));
        assert t.pending.Keys == s.pending.Keys - {id};
      }
    } else {
      PendingHasWatcher(s, k);
    }
  }

  lemma PendingHasWatcher(s: State, k: nat)
    requires Valid(s) && AllOver(s)
    ensures k < |s.requests| && s.IsPending(k) ==> s.requests[k].watched
  {
  }

  lemma NothingPending(s: State)
    requires Valid(s) && forall k | 0 <= k < |s.requests| :: !s.IsPending(k)
    ensures s.pending == map[]
  {
    if id :| id in s.pending {
      assert s.IsPending(s.pending[id]);
    }
  }

  // ---------------------------------------------------------------------------------------------
  // Shutdown
  // ---------------------------------------------------------------------------------------------

  /** Close leaves no request pending. Exactly those that were have their contexts ended; nothing else changes. */
  lemma CloseCancelsAll(s: State)
    requires Valid(s)
    ensures var t := Next(s, Close);
            && t.pending == map[] && |t.requests| == |s.requests|
            && (forall k | 0 <= k < |s.requests| ::
                  t.requests[k] == if s.IsPending(k) then s.requests[k].(done := true) else s.requests[k])
            && t.issued == s.issued && t.drawn == s.drawn && t.written == s.written && t.handler == s.handler && t.log == s.log
  {
    hide Valid;
    ValidParts(s);
  }

  /** The request was put into the map and can never be looked up again. */
  predicate IsOut(s: State, k: nat) {
    k < |s.requests| && !s.IsPending(k) && !(s.handler.Looked? && s.handler.k == k)
  }

  /** A request that is out of the map and is not being served stays so, and its channel as it is. */
  lemma OutStaysOut(s: State, step: Step, k: nat)
    requires Valid(s) && IsOut(s, k)
    ensures var t := Next(s, step);
            IsOut(t, k) && t.requests[k].placed == s.requests[k].placed && t.requests[k].id == s.requests[k].id
  {
    hide Valid, Apply;
    ValidParts(s);
    if Enabled(s, step) {
      PendingFrame(s, step);
      Frame(s, step);
      HandlerFrame(s, step);
    }
  }

  /** The state after further steps. */
  function From(s: State, steps: seq<Step>): (t: State)
    requires Valid(s)
    ensures Valid(t)
    decreases |steps|
  {
    if steps == [] then s else Next(From(s, steps[..|steps| - 1]), steps[|steps| - 1])
  }

  lemma {:induction false} OutForGood(s: State, steps: seq<Step>, k: nat)
    requires Valid(s) && IsOut(s, k)
    ensures var t := From(s, steps);
            IsOut(t, k) && t.requests[k].placed == s.requests[k].placed && t.requests[k].id == s.requests[k].id
    decreases |steps|
  {
    hide Valid, IsOut, Next;
    if steps != [] {
      OutForGood(s, steps[..|steps| - 1], k);
      OutStaysOut(From(s, steps[..|steps| - 1]), steps[|steps| - 1], k);
    }
  }

  /** After Close, whatever follows, a message with the ID of a request that was pending is closed: only one that was
      looked up before Close can still be placed. */
  lemma NothingReachesAfterClose(s: State, k: nat, steps: seq<Step>)
    requires Valid(s) && s.IsPending(k) && !(s.handler.Looked? && s.handler.k == k)
    ensures var t := From(Next(s, Close), steps);
            && k < |t.requests| && t.requests[k].done && t.requests[k].placed == s.requests[k].placed
            && (t.handler.Idle? ==>
                  var u := Next(t, Arrive(Some(s.requests[k].id), 0)); u.handler.Idle? && u.log == t.log + [Fate.Closed])
  {
    hide Valid, Apply;
    ValidParts(s);
    CloseCancelsAll(s);
    var closed := Next(s, Close);
    OutForGood(closed, steps, k);
    DoneForGood(closed, steps, k);
    var t := From(closed, steps);
    ValidParts(t);
    OutIsNotInMap(t, k);
    if t.handler.Idle? {
      UnknownIdIsClosed(t, s.requests[k].id, 0);
    }
  }

  lemma {:induction false} DoneForGood(s: State, steps: seq<Step>, k: nat)
    requires Valid(s) && k < |s.requests| && s.requests[k].done
    ensures k < |From(s, steps).requests| && From(s, steps).requests[k].done
    decreases |steps|
  {
    hide Valid, Apply;
    if steps != [] {
      var before := From(s, steps[..|steps| - 1]);
      DoneForGood(s, steps[..|steps| - 1], k);
      ValidParts(before);
      if Enabled(before, steps[|steps| - 1]) {
        Frame(before, steps[|steps| - 1]);
      }
    }
  }

  lemma OutIsNotInMap(s: State, k: nat)
    requires Valid(s) && k < |s.requests|
    ensures s.IsPending(k) <==> s.requests[k].id in s.pending
  {
    hide Valid;
    ValidParts(s);
  }

  /** A message with an ID that is not pending is closed at its lookup, and nothing else happens. */
  lemma UnknownIdIsClosed(s: State, id: RequestID, oldest: nat)
    requires Valid(s) && id !in s.pending && s.handler.Idle?
    ensures Next(s, Arrive(Some(id), oldest)) == s.(log := s.log + [Fate.Closed])
  {
    hide Valid;
    ValidParts(s);
  }

  // ---------------------------------------------------------------------------------------------
  // Legacy agents
  // ---------------------------------------------------------------------------------------------

  /** Creation times are distinct and follow the order of the writes. */
  predicate CreatedInSendOrder(s: State) {
    && (forall i | 0 <= i < |s.written| :: s.written[i] < |s.requests|)
    && forall i | 0 <= i < |s.written| :: OlderThanLaterOnes(s, i)
  }

  /** The request sent at place `i` is older than all that are sent later or not yet sent. */
  predicate OlderThanLaterOnes(s: State, i: nat)
    requires i < |s.written| && s.written[i] < |s.requests|
  {
    forall k | 0 <= k < |s.requests| :: k in s.written[..i + 1] || s.requests[s.written[i]].createdAt < s.requests[k].createdAt
  }

  /** What may happen on a connection to an agent that answers every request that it was sent, in order and
      without IDs, when no request is cancelled before its answer. */
  predicate LegacyStep(s: State, step: Step) {
    match step
    case Arrive(id, _) => id.None? && s.Arrived() < |s.written|
    case WriteFail(_) => false
    case Close => false
    case Expire(k) => k < |s.requests| && s.requests[k].placed != []
    case _ => true
  }

  ghost predicate LegacyRun(steps: seq<Step>) {
    steps == [] ||
    var before, step := steps[..|steps| - 1], steps[|steps| - 1];
    LegacyRun(before) && LegacyStep(After(before), step) && CreatedInSendOrder(After(steps))
  }

  /** The requests that were sent and not answered, in the order in which they were sent. */
  function Queue(s: State): seq<nat>
    requires |s.log| <= |s.written|
  {
    s.written[|s.log|..]
  }

  ghost predicate QueueStep(s: State, step: Step, t: State) {
    && |s.log| <= |s.written| && |t.log| <= |t.written|
    && match step
       case WriteOk(k) => Queue(t) == Queue(s) + [k]
       case Deliver => s.handler.Looked? && Queue(s) == [s.handler.k] + Queue(t) && t.log == s.log + [Placed(s.handler.k)]
       case _ => Queue(t) == Queue(s)
  }

  ghost predicate SentOnce(s: State) {
    && (forall i, j | 0 <= i < j < |s.written| :: s.written[i] != s.written[j])
    && (forall k | 0 <= k < |s.requests| :: k in s.written <==> !s.requests[k].phase.Writing?)
    && (forall i | 0 <= i < |s.written| :: s.written[i] < |s.requests|)
  }

  ghost predicate AnsweredInOrder(s: State) {
    && s.InRange()
    && s.Arrived() <= |s.written|
    && (forall n | 0 <= n < |s.log| :: s.log[n] == Placed(s.written[n]))
    && (s.handler.Looked? ==> s.handler.k == s.written[|s.log|])
    && (s.handler.Delivered? ==> |s.log| > 0 && s.handler.k == s.written[|s.log| - 1])
    && EndedAfterAnswer(s)
  }

  ghost predicate EndedAfterAnswer(s: State) {
    forall k | 0 <= k < |s.requests| && s.requests[k].done :: s.requests[k].placed != []
  }

  lemma SentOnceKept(s: State, step: Step)
    requires Valid(s) && Enabled(s, step) && SentOnce(s) && !step.WriteFail?
    ensures SentOnce(Apply(s, step))
  {
    hide Valid, Apply, IdsAreUnique, PendingIsConsistent, OneAnswerEach;
    ValidParts(s);
    Frame(s, step);
    WrittenFrame(s, step);
    WritingFrame(s, step);
  }

  lemma WritingFrame(s: State, step: Step)
    requires s.InRange() && Enabled(s, step)
    ensures var t := Apply(s, step);
            && (forall k | 0 <= k < |s.requests| && k < |t.requests| ::
                  t.requests[k].phase.Writing? <==> s.requests[k].phase.Writing? && step != WriteOk(k) && step != WriteFail(k))
            && (step.Insert? ==> |t.requests| > |s.requests| && t.requests[|s.requests|].phase.Writing?)
  {
  }

  /** In a legacy state the oldest pending request is the head of the queue. */
  lemma OldestIsHead(s: State, oldest: nat)
    requires Valid(s) && SentOnce(s) && AnsweredInOrder(s) && CreatedInSendOrder(s)
    requires s.handler.Idle? && |s.log| < |s.written| && (s.pending != map[] ==> IsOldest(s, oldest))
    ensures s.pending != map[] && oldest == s.written[|s.log|]
  {
    var head := s.written[|s.log|];
    assert OlderThanLaterOnes(s, |s.log|);
    AnsweredAreFirst(s, head);
    assert s.IsPending(head);
    AnsweredAreFirst(s, oldest);
  }

  /** The requests with an answer are those at the front of the send order, and they are not pending. */
  lemma AnsweredAreFirst(s: State, k: nat)
    requires Valid(s) && SentOnce(s) && AnsweredInOrder(s) && s.handler.Idle? && k < |s.requests|
    ensures k in s.written[..|s.log|] <==> s.requests[k].placed != []
    ensures s.requests[k].placed != [] ==> !s.IsPending(k)
    ensures |s.log| < |s.written| && k in s.written[..|s.log| + 1] && k != s.written[|s.log|] ==> k in s.written[..|s.log|]
    ensures |s.log| < |s.written| ==> s.written[|s.log|] !in s.written[..|s.log|]
  {
    hide IdsAreUnique, RoutedById, PendingIsWatched;
    forall n | 0 <= n < |s.log|
      ensures HasMessage(s, s.written[n], n)
    {
      assert s.log[n] == Placed(s.written[n]);
    }
    if s.requests[k].placed != [] {
      var n := s.requests[k].placed[0].serial;
      assert s.log[n] == Placed(k) && s.written[..|s.log|][n] == k;
    }
  }

  lemma AnsweredInOrderKept(s: State, step: Step)
    requires Valid(s) && Enabled(s, step) && SentOnce(s) && AnsweredInOrder(s)
    requires CreatedInSendOrder(s) && LegacyStep(s, step)
    ensures AnsweredInOrder(Apply(s, step))
  {
    hide Valid, Apply, Enabled, SentOnce, CreatedInSendOrder, PendingIsConsistent, IdsAreUnique, EndedAfterAnswer, OneAnswerEach;
    if step.Arrive? {
      ArriveTakesHead(s, step);
    }
    ValidParts(s);
    PendingFrame(s, step);
    EndedAfterAnswerKept(s, step);
    LookedIsAlive(s);
    HandlerFrame(s, step);
    LogFrame(s, step);
    WrittenFrame(s, step);
  }

  lemma LookedIsAlive(s: State)
    requires s.InRange() && OneAnswerEach(s) && EndedAfterAnswer(s)
    ensures s.handler.Looked? ==> !s.requests[s.handler.k].done
  {
  }

  lemma EndedAfterAnswerKept(s: State, step: Step)
    requires Valid(s) && Enabled(s, step) && EndedAfterAnswer(s) && LegacyStep(s, step)
    ensures EndedAfterAnswer(Apply(s, step))
  {
    hide Valid, Apply, PendingIsConsistent, IdsAreUnique, OneAnswerEach;
    ValidParts(s);
    Frame(s, step);
    DoneFrame(s, step);
  }

  lemma ArriveTakesHead(s: State, step: Step)
    requires Valid(s) && Enabled(s, step) && SentOnce(s) && AnsweredInOrder(s)
    requires CreatedInSendOrder(s) && LegacyStep(s, step) && step.Arrive?
    ensures |s.log| < |s.written|
    ensures Apply(s, step).handler.Looked? && Apply(s, step).handler.k == s.written[|s.log|]
  {
    hide Valid, SentOnce, CreatedInSendOrder;
    OldestIsHead(s, step.oldest);
  }

  lemma {:induction false} LegacyRunIsInOrder(steps: seq<Step>)
    requires LegacyRun(steps)
    ensures SentOnce(After(steps)) && AnsweredInOrder(After(steps)) && CreatedInSendOrder(After(steps))
    decreases |steps|
  {
    if steps != [] {
      var before, step := steps[..|steps| - 1], steps[|steps| - 1];
      LegacyRunIsInOrder(before);
      var s := After(before);
      hide Valid, SentOnce, AnsweredInOrder, CreatedInSendOrder, Apply;
      if Enabled(s, step) {
        SentOnceKept(s, step);
        AnsweredInOrderKept(s, step);
      }
    }
  }

  /** Routing to the oldest request answers the requests in the order in which they were sent: message number n
      reaches the n-th request sent. */
  lemma LegacyAnswersReachTheirRequest(steps: seq<Step>, n: nat)
    requires LegacyRun(steps) && n < |After(steps).log|
    ensures n < |After(steps).written| && HasMessage(After(steps), After(steps).written[n], n)
  {
    LegacyRunIsInOrder(steps);
    hide After;
  }

  /** A FIFO queue is refined: a successful write enqueues the request, a delivery takes the head off and
      places the message there, and no other step changes the queue. */
  lemma LegacyRefinesQueue(steps: seq<Step>, step: Step)
    requires LegacyRun(steps + [step]) && Enabled(After(steps), step)
    ensures QueueStep(After(steps), step, After(steps + [step]))
  {
    hide Valid, Apply, SentOnce, AnsweredInOrder, CreatedInSendOrder, After, QueueStep;
    AfterOneMore(steps, step);
    LegacyRunIsInOrder(steps);
    LegacyRunIsInOrder(steps + [step]);
    QueueStepOf(After(steps), step);
  }

  lemma AfterOneMore(steps: seq<Step>, step: Step)
    ensures After(steps + [step]) == Next(After(steps), step)
    ensures LegacyRun(steps + [step]) ==> LegacyRun(steps) && LegacyStep(After(steps), step)
  {
    assert (steps + [step])[..|steps|] == steps;
  }

  lemma QueueStepOf(s: State, step: Step)
    requires Valid(s) && Enabled(s, step) && SentOnce(s) && AnsweredInOrder(s)
    requires CreatedInSendOrder(s) && LegacyStep(s, step) && AnsweredInOrder(Apply(s, step))
    ensures QueueStep(s, step, Apply(s, step))
  {
    if step.Arrive? {
      ArriveTakesHead(s, step);
    }
    hide Valid, Apply, SentOnce, CreatedInSendOrder, IdsAreUnique, PendingIsConsistent, OneAnswerEach;
    ValidParts(s);
    LookedIsAlive(s);
    HandlerFrame(s, step);
    LogFrame(s, step);
    WrittenFrame(s, step);
  }

  // What decides whether an agent's answers reach the requests they answer, whatever else happens: contexts that end,
  // watchers, failed writes, Close.

  /** Requests are written once, and none that was written is still being written. */
  ghost predicate WrittenOnce(s: State) {
    && (forall i, j | 0 <= i < j < |s.written| :: s.written[i] != s.written[j])
    && (forall i | 0 <= i < |s.written| :: s.written[i] < |s.requests| && !s.requests[s.written[i]].phase.Writing?)
  }

  /** The agent answers the requests that it was sent, in order, one message each, without IDs. */
  predicate AgentStep(s: State, step: Step) {
    step.Arrive? ==> step.messageId.None? && s.Arrived() < |s.written|
  }

  ghost predicate AgentRun(steps: seq<Step>) {
    steps == [] ||
    var before, step := steps[..|steps| - 1], steps[|steps| - 1];
    AgentRun(before) && AgentStep(After(before), step) && CreatedInSendOrder(After(steps))
  }

  /** Every answer so far is on the channel of the request that it answers, and the one that was looked up is on its
      way there. */
  ghost predicate AllRight(s: State) {
    && s.Arrived() <= |s.written|
    && (forall n | 0 <= n < |s.log| :: s.log[n] == Placed(s.written[n]))
    && (s.handler.Looked? ==> s.handler.k == s.written[|s.log|])
  }

  /** The answer that arrives finds the request it answers still pending, and is not dropped after that. */
  predicate Finds(s: State, step: Step)
    requires s.InRange()
  {
    && (step.Arrive? ==> |s.log| < |s.written| && s.IsPending(s.written[|s.log|]))
    && !step.Drop?
  }

  ghost predicate EachIsFound(steps: seq<Step>) {
    steps == [] ||
    var before, step := steps[..|steps| - 1], steps[|steps| - 1];
    EachIsFound(before) && (Enabled(After(before), step) ==> Finds(After(before), step))
  }

  lemma WrittenOnceKept(s: State, step: Step)
    requires Valid(s) && Enabled(s, step) && WrittenOnce(s)
    ensures WrittenOnce(Apply(s, step))
  {
    hide Valid, Apply, IdsAreUnique, PendingIsConsistent, OneAnswerEach;
    ValidParts(s);
    Frame(s, step);
    WrittenFrame(s, step);
    WritingFrame(s, step);
  }

  /** An answer to the next request is looked up for it exactly if it is still pending: all earlier ones have their answers
      and all others are younger. */
  lemma LookupFindsIff(s: State, step: Step)
    requires Valid(s) && Enabled(s, step) && WrittenOnce(s) && CreatedInSendOrder(s) && AllRight(s)
    requires step.Arrive? && AgentStep(s, step)
    ensures |s.log| < |s.written|
    ensures var head, t := s.written[|s.log|], Apply(s, step);
            t.handler.Looked? && t.handler.k == head <==> s.IsPending(head)
  {
    hide Valid, RoutedById, LogIsTrue, PendingIsWatched, IdsAreUnique;
    ValidParts(s);
    var head := s.written[|s.log|];
    assert OlderThanLaterOnes(s, |s.log|);
    if s.pending != map[] {
      AnsweredBefore(s, step.oldest);
    }
  }

  lemma AnsweredBefore(s: State, k: nat)
    requires Valid(s) && WrittenOnce(s) && AllRight(s) && s.handler.Idle? && |s.log| < |s.written| && s.IsPending(k)
    ensures k in s.written[..|s.log| + 1] ==> k == s.written[|s.log|]
  {
    forall n | 0 <= n < |s.log|
      ensures s.written[n] != k
    {
      AnsweredIsNotPending(s, n);
    }
    assert s.written[..|s.log| + 1] == s.written[..|s.log|] + [s.written[|s.log|]];
  }

  lemma AnsweredIsNotPending(s: State, n: nat)
    requires Valid(s) && s.handler.Idle? && n < |s.log| && n < |s.written| && s.log[n] == Placed(s.written[n])
    ensures !s.IsPending(s.written[n])
  {
    hide RoutedById, PendingIsWatched, IdsAreUnique;
    assert HasMessage(s, s.written[n], n);
  }

  /** So the next answer, undisturbed, reaches the request that it answers exactly if that is still pending. */
  lemma AnswerReachesItsRequestIff(s: State, oldest: nat)
    requires Valid(s) && WrittenOnce(s) && CreatedInSendOrder(s) && AllRight(s)
    requires s.handler.Idle? && |s.log| < |s.written| && Enabled(s, Arrive(None, oldest))
    ensures var head := s.written[|s.log|];
            Next(Next(s, Arrive(None, oldest)), Deliver).log == s.log + [Placed(head)] <==> s.IsPending(head)
  {
    hide Valid, WrittenOnce, CreatedInSendOrder, AllRight;
    var step := Arrive(None, oldest);
    LookupFindsIff(s, step);
    var t := Next(s, step);
    var u := Next(t, Deliver);
    if t.handler.Looked? {
      LookedHasRoom(t);
      assert u.log[|s.log|] == Placed(t.handler.k);
    } else {
      assert u.log[|s.log|] == Fate.Closed;
    }
  }

  /** One step of the agent's run: an answer that is right stays right, one that is wrong stays wrong, and a new one is
      right exactly if it finds its request. */
  lemma AllRightIff(s: State, step: Step)
    requires Valid(s) && Enabled(s, step) && WrittenOnce(s) && CreatedInSendOrder(s) && AgentStep(s, step)
    requires s.Arrived() <= |s.written|
    ensures s.InRange() && Apply(s, step).Arrived() <= |Apply(s, step).written|
    ensures AllRight(Apply(s, step)) <==> AllRight(s) && Finds(s, step)
  {
    hide Valid, Apply, WrittenOnce, CreatedInSendOrder, IdsAreUnique, OneAnswerEach, PendingIsConsistent;
    ValidParts(s);
    HandlerFrame(s, step);
    LogFrame(s, step);
    WrittenFrame(s, step);
    if step.Arrive? && AllRight(s) {
      LookupFindsIff(s, step);
    }
    var t := Apply(s, step);
    if AllRight(t) {
      assert s.log <= t.log && s.written <= t.written;
    }
  }

  /** Whatever else happens, every answer so far reached the request it answers exactly if each found its request still
      pending and was not dropped. */
  lemma {:induction false} AnswersAreRightIff(steps: seq<Step>)
    requires AgentRun(steps)
    ensures AllRight(After(steps)) <==> EachIsFound(steps)
    ensures WrittenOnce(After(steps)) && CreatedInSendOrder(After(steps)) && After(steps).Arrived() <= |After(steps).written|
    decreases |steps|
  {
    if steps != [] {
      var before, step := steps[..|steps| - 1], steps[|steps| - 1];
      AnswersAreRightIff(before);
      var s := After(before);
      hide Valid, WrittenOnce, AllRight, CreatedInSendOrder, Apply;
      if Enabled(s, step) {
        WrittenOnceKept(s, step);
        AllRightIff(s, step);
      }
    }
  }

  /** Exactly when a message without an ID reaches request `j`: `j` is still pending and the oldest. So the late
      answer to a cancelled request never reaches it, but lands on the oldest of the others. */
  lemma LegacyRouteIff(s: State, oldest: nat, j: nat)
    requires Valid(s) && s.handler.Idle? && Enabled(s, Arrive(None, oldest)) && j < |s.requests|
    requires forall i, k | 0 <= i < k < |s.requests| :: s.requests[i].createdAt != s.requests[k].createdAt
    ensures Next(Next(s, Arrive(None, oldest)), Deliver).log == s.log + [Placed(j)] <==> s.IsPending(j) && IsOldest(s, j)
    ensures s.pending != map[] ==> Next(Next(s, Arrive(None, oldest)), Deliver).log == s.log + [Placed(oldest)]
  {
    hide Valid, IdsAreUnique, RoutedById, LogIsTrue, PendingIsWatched;
    ValidParts(s);
    if s.pending != map[] {
      var t := Next(s, Arrive(None, oldest));
      assert t.requests == s.requests && t.handler == Looked(Message(|s.log|, None), oldest);
      assert t.requests[oldest].placed == [];
      assert Enabled(t, Deliver);
      if s.IsPending(j) && IsOldest(s, j) {
        assert s.requests[j].createdAt == s.requests[oldest].createdAt;
      }
      assert Next(t, Deliver).log[|s.log|] == Placed(oldest);
    } else {
      var t := Next(Next(s, Arrive(None, oldest)), Deliver);
      assert t.log[|s.log|] == Fate.Closed;
    }
  }

  /** Two requests are sent, the first one's context ends and its watcher runs, and then its answer comes. */
  function LateAnswer(): seq<Step> {
    [Draw, Insert(1, 0), WriteOk(0), Draw, Insert(2, 1), WriteOk(1), Expire(0), Watch(0), Arrive(None, 1), Deliver]
  }

  const FIRST := Request(1, 0, [], 0, false, Sent, true)
  const SECOND := Request(2, 1, [], 0, false, Sent, true)

  lemma OneIsSent()
    ensures After(LateAnswer()[..3]) == State(1, {}, [FIRST], map[1 := 0], [0], Idle, [])
  {
    hide Valid, After;
    NoSteps();
    Three([], Draw, Insert(1, 0), WriteOk(0));
    assert LateAnswer()[..3] == [] + [Draw, Insert(1, 0), WriteOk(0)];
  }

  lemma TwoAreSent()
    ensures After(LateAnswer()[..6]) == State(2, {}, [FIRST, SECOND], map[1 := 0, 2 := 1], [0, 1], Idle, [])
  {
    hide Valid, After;
    OneIsSent();
    Three(LateAnswer()[..3], Draw, Insert(2, 1), WriteOk(1));
    assert LateAnswer()[..6] == LateAnswer()[..3] + [Draw, Insert(2, 1), WriteOk(1)];
  }

  lemma OneIsCancelled()
    ensures After(LateAnswer()[..9]) ==
            State(2, {}, [FIRST.(done := true, watched := false), SECOND], map[2 := 1], [0, 1], Looked(Message(0, None), 1), [])
  {
    hide Valid, After;
    TwoAreSent();
    Three(LateAnswer()[..6], Expire(0), Watch(0), Arrive(None, 1));
    assert LateAnswer()[..9] == LateAnswer()[..6] + [Expire(0), Watch(0), Arrive(None, 1)];
    var sent := After(LateAnswer()[..6]);
    var expired := Next(sent, Expire(0));
    assert expired == sent.(requests := [FIRST.(done := true), SECOND]);
    var cancelled := Next(expired, Watch(0));
    assert cancelled == sent.(requests := [FIRST.(done := true, watched := false), SECOND], pending := map[2 := 1]);
    assert IsOldest(cancelled, 1);
  }

  /** The answer to request 0 lands on the channel of request 1. */
  lemma LateAnswerIsMisrouted()
    ensures var s := After(LateAnswer());
            s.written == [0, 1] && s.log == [Placed(1)]
  {
    hide Valid, After;
    OneIsCancelled();
    AfterOneMore(LateAnswer()[..9], Deliver);
    assert LateAnswer() == LateAnswer()[..9] + [Deliver];
  }

  lemma NoSteps()
    ensures After([]) == Init()
  {
  }

  lemma Three(before: seq<Step>, a: Step, b: Step, c: Step)
    ensures After(before + [a, b, c]) == Next(Next(Next(After(before), a), b), c)
  {
    hide Valid, Next, After, LegacyRun;
    AfterOneMore(before, a);
    AfterOneMore(before + [a], b);
    AfterOneMore(before + [a] + [b], c);
    assert before + [a] + [b] + [c] == before + [a, b, c];
  }

  // ---------------------------------------------------------------------------------------------
  // Calls that no other goroutine interrupts
  // ---------------------------------------------------------------------------------------------

  /** SendRequest. */
  function Sending(s: State, id: RequestID, now: int, succeeds: bool): State
    requires Valid(s)
  {
    var k := |s.requests|;
    Next(Next(Next(s, Draw), Insert(id, now)), if succeeds then WriteOk(k) else WriteFail(k))
  }

  /** handleResponse; `doneFirst` is the choice of select when the context is done and the channel has room. */
  function Handling(s: State, id: Option<RequestID>, oldest: nat, doneFirst: bool): State
    requires Valid(s)
  {
    var t := Next(s, Arrive(id, oldest));
    if !t.handler.Looked? then t
    else if doneFirst && t.InRange() && t.requests[t.handler.k].done then Next(t, Drop)
    else Next(Next(t, Deliver), Delete)
  }

  /** A failed SendRequest leaves the map as it was; a successful one adds just its request. */
  lemma SendingAddsOne(s: State, now: int, succeeds: bool)
    requires Valid(s) && s.issued + 1 < TWO32
    ensures var id := (s.issued + 1) % TWO32;
            var t := Sending(s, id, now, succeeds);
            && t.pending == (if succeeds then s.pending[id := |s.requests|] else s.pending)
            && |t.requests| == |s.requests| + 1 && t.requests[..|s.requests|] == s.requests
            && t.requests[|s.requests|] == Request(id, now, [], 0, !succeeds, if succeeds then Sent else Failed, succeeds)
            && id !in s.pending
  {
    hide Valid, OneAnswerEach;
    ValidParts(s);
    var id := (s.issued + 1) % TWO32;
    assert id == s.issued + 1;
    var k := |s.requests|;
    var a := Next(s, Draw);
    assert id in a.drawn;
    var b := Next(a, Insert(id, now));
    assert b.pending == s.pending[id := k];
    assert b.requests == s.requests + [Request(id, now, [], 0, false, Writing, false)];
    if !succeeds {
      assert s.pending[id := k] - {id} == s.pending;
    }
  }

  /** An undisturbed handleResponse for the ID of a live pending request puts the message on its channel and
      takes it out of the map, and changes nothing else. */
  lemma HandlingAnswers(s: State, id: RequestID, oldest: nat, doneFirst: bool)
    requires Valid(s) && s.handler.Idle? && id in s.pending
    ensures s.pending[id] < |s.requests|
    ensures var k, message := s.pending[id], Message(|s.log|, Some(id));
            !s.requests[k].done ==>
              Handling(s, Some(id), oldest, doneFirst) ==
              s.(requests := s.requests[k := s.requests[k].(placed := [message])], pending := s.pending - {id}, log := s.log + [Placed(k)])
  {
    hide Valid;
    ValidParts(s);
    var k, message := s.pending[id], Message(|s.log|, Some(id));
    assert s.requests[k].id == id && s.IsPending(k) && s.requests[k].placed == [];
    var t := Next(s, Arrive(Some(id), oldest));
    assert t == s.(handler := Looked(message, k));
    if !s.requests[k].done {
      assert Enabled(t, Deliver) && [] + [message] == [message];
      var u := Next(t, Deliver);
      assert u == s.(requests := s.requests[k := s.requests[k].(placed := [message])], handler := Delivered(k), log := s.log + [Placed(k)]);
    }
  }
}
