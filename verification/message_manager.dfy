/**
  The message manager: the last step of sending a message. A send request is
  settled without processors, buffered while a database transaction is open,
  or fanned out to the recipient's processors at once. The transaction
  callbacks either replay the buffer or discard it.

  The process-wide buffer becomes a field of an immutable `Manager` record.
  Everything the manager does to the outside world is an `Effect` appended to
  that record's `log`: a processor call, the "message sent" event, or marking
  the saved record read. Several inputs are external, so they are fields of an
  `Environment`: whether messaging is enabled, the number of "working" rows the
  database reports, and which processor calls report failure.
*/
module MessageManager {
  import opened Wrappers

  /** A user record carried by the event data. `profile` stands for every field
      other than `id` and `description`. */
  datatype User = User(id: int, profile: map<string, string>, description: Option<string>)

  /** The runtime class of the value passed as event data. */
  datatype EventClass = StdClass | MessageClass | OtherClass(name: string)

  /** The event data prepared for the processors. `payload` stands for its
      remaining fields (subject, bodies, component, ...). */
  datatype EventData = EventData(
    cls: EventClass,
    userFrom: User,
    userTo: User,
    courseId: Option<int>,
    notification: bool,
    payload: map<string, string>)

  /** The row already saved in the message table; only its id is used here. */
  datatype SavedMessage = SavedMessage(id: int)

  /** One buffered send request. */
  datatype Entry = Entry(eventData: EventData, saved: SavedMessage, processors: seq<string>)

  /** Which API call marks the record read. */
  datatype ReadPath = NotificationRead | MessageRead

  /** An observable action of the manager. A processor call records the
      event data the fan-out starts from. */
  datatype Effect =
    | ProcCall(processor: string, messageId: int, data: EventData, accepted: bool)
    | SentEvent(userFrom: int, userTo: int, messageId: int, courseId: Option<int>)
    | MarkRead(path: ReadPath, userTo: int, messageId: int)

  /** Inputs the manager reads but never changes. `working` maps a (message
      id, notification flag) pair to its count of working rows; a missing key
      means no rows. `rejecting` holds the (processor, message id) calls whose
      `send_message` returns false. */
  datatype Environment = Environment(
    messagingEnabled: bool,
    working: map<(int, bool), nat>,
    rejecting: set<(string, int)>)

  /** The manager's state: the pending buffer, the database's transaction
      flag, the environment and the append-only effect log. */
  datatype Manager = Manager(
    buffer: seq<Entry>,
    inTransaction: bool,
    env: Environment,
    log: seq<Effect>)

  datatype Error = CodingException(message: string)

  /** The state after a call together with what the call returned or threw. */
  datatype Step = Step(state: Manager, result: Result<int, Error>)

  // ---------------------------------------------------------------------
  // Views of an effect sequence
  // ---------------------------------------------------------------------

  /** Processor calls rank 0, the sent event 1 and read marks 2. */
  function Rank(e: Effect): nat
  {
    match e
    case ProcCall(_, _, _, _) => 0
    case SentEvent(_, _, _, _) => 1
    case MarkRead(_, _, _) => 2
  }

  /** All processor calls come before the sent event, which comes before any
      read mark. */
  ghost predicate PhaseOrdered(s: seq<Effect>)
  {
    forall i, j :: 0 <= i < j < |s| ==> Rank(s[i]) <= Rank(s[j])
  }

  /** The effects of rank `k`, in log order. */
  function OfRank(s: seq<Effect>, k: nat): seq<Effect>
  {
    if s == [] then []
    else (if Rank(s[0]) == k then [s[0]] else []) + OfRank(s[1..], k)
  }

  /** The processor calls a fan-out of `procs` for message `id` with event
      data `e` must make: one per processor, in list order, each handed `e`
      and recording what it returned. */
  function ExpectedCalls(env: Environment, procs: seq<string>, e: EventData, id: int): seq<Effect>
  {
    seq(|procs|, i requires 0 <= i < |procs| => ProcCall(procs[i], id, e, (procs[i], id) !in env.rejecting))
  }

  /** The "message sent" event for a request, if it is not a notification. */
  function ExpectedSent(e: EventData, s: SavedMessage): seq<Effect>
  {
    if e.notification then [] else [SentEvent(e.userFrom.id, e.userTo.id, s.id, e.courseId)]
  }

  function PathFor(notification: bool): ReadPath
  {
    if notification then NotificationRead else MessageRead
  }

  function WorkingCount(env: Environment, id: int, notification: bool): nat
  {
    if (id, notification) in env.working then env.working[(id, notification)] else 0
  }

  // ---------------------------------------------------------------------
  // Operations
  // ---------------------------------------------------------------------

  /** Only plain objects and message objects are accepted as event data. */
  predicate ValidClass(e: EventData)
  {
    e.cls.StdClass? || e.cls.MessageClass?
  }

  /** The effects of a request with an empty processor list. */
  function EmptyListEffects(env: Environment, e: EventData, s: SavedMessage): seq<Effect>
  {
    ExpectedSent(e, s)
    + (if e.notification || !env.messagingEnabled
       then [MarkRead(PathFor(e.notification), e.userTo.id, s.id)]
       else [])
  }

  /** Calls each processor in turn; a false return only produces a
      diagnostic, so the remaining processors are still called. */
  function ProcessorCalls(env: Environment, procs: seq<string>, e: EventData, id: int): (r: seq<Effect>)
    ensures r == ExpectedCalls(env, procs, e, id)
    decreases |procs|
  {
    if procs == [] then []
    else [ProcCall(procs[0], id, e, (procs[0], id) !in env.rejecting)] + ProcessorCalls(env, procs[1..], e, id)
  }

  /** The read marks of a synchronous dispatch: a notification is marked read
      when messaging is disabled, and the record is marked read when no
      working rows remain for it. */
  function DispatchReadMarks(env: Environment, e: EventData, s: SavedMessage): seq<Effect>
  {
    (if !env.messagingEnabled && e.notification
     then [MarkRead(NotificationRead, e.userTo.id, s.id)]
     else [])
    + (if WorkingCount(env, s.id, e.notification) == 0
       then [MarkRead(PathFor(e.notification), e.userTo.id, s.id)]
       else [])
  }

  /** The effects of a synchronous dispatch of one request: the processor
      calls, then the sent event, then the read marks. */
  function DispatchEffects(env: Environment, x: Entry): seq<Effect>
  {
    ProcessorCalls(env, x.processors, x.eventData, x.saved.id)
    + ExpectedSent(x.eventData, x.saved)
    + DispatchReadMarks(env, x.eventData, x.saved)
  }

  /** The copy that goes into the buffer: both users lose `description`;
      every other field is kept. */
  function Trim(e: EventData): (r: EventData)
    ensures r.userTo.description.None? && r.userFrom.description.None?
    ensures r.userTo.id == e.userTo.id && r.userTo.profile == e.userTo.profile
    ensures r.userFrom.id == e.userFrom.id && r.userFrom.profile == e.userFrom.profile
    ensures r.cls == e.cls && r.courseId == e.courseId
    ensures r.notification == e.notification && r.payload == e.payload
  {
    e.(userTo := e.userTo.(description := None), userFrom := e.userFrom.(description := None))
  }

  /** The entries the buffer receives for `requests`: each with its event
      data trimmed. */
  function Buffered(requests: seq<Entry>): seq<Entry>
  {
    seq(|requests|, i requires 0 <= i < |requests| =>
      Entry(Trim(requests[i].eventData), requests[i].saved, requests[i].processors))
  }

  /** Sends to the processors, or buffers the request while a transaction is
      open. The result is always the saved record's id. */
  function SendToProcessors(m: Manager, e: EventData, s: SavedMessage, procs: seq<string>): (r: Step)
    ensures r.result == Success(s.id)
    ensures r.state.env == m.env && r.state.inTransaction == m.inTransaction
    ensures m.inTransaction ==>
              && r.state.log == m.log
              && |r.state.buffer| == |m.buffer| + 1
              && r.state.buffer[..|m.buffer|] == m.buffer
              && r.state.buffer[|m.buffer|] == Entry(Trim(e), s, procs)
    ensures !m.inTransaction ==>
              && r.state.buffer == m.buffer
              && r.state.log == m.log + DispatchEffects(m.env, Entry(e, s, procs))
  {
    if m.inTransaction then
      Step(m.(buffer := m.buffer + [Entry(Trim(e), s, procs)]), Success(s.id))
    else
      Step(m.(log := m.log + DispatchEffects(m.env, Entry(e, s, procs))), Success(s.id))
  }

  /** The entry point: rejects event data of any other class, settles an empty
      processor list, and hands everything else to `SendToProcessors`. */
  function SendMessage(m: Manager, e: EventData, s: SavedMessage, procs: seq<string>): (r: Step)
    ensures !ValidClass(e) ==> r.state == m && r.result.Failure?
    ensures ValidClass(e) ==> r.result == Success(s.id)
    ensures r.state.env == m.env && r.state.inTransaction == m.inTransaction
    ensures |m.log| <= |r.state.log| && r.state.log[..|m.log|] == m.log
    ensures ValidClass(e) && procs == [] ==>
              r.state.buffer == m.buffer && r.state.log == m.log + EmptyListEffects(m.env, e, s)
    ensures ValidClass(e) && procs != [] ==> r == SendToProcessors(m, e, s, procs)
  {
    if !ValidClass(e) then
      Step(m, Failure(CodingException("Message should be of type stdClass or \\core\\message\\message")))
    else if procs == [] then
      Step(m.(log := m.log + EmptyListEffects(m.env, e, s)), Success(s.id))
    else
      SendToProcessors(m, e, s, procs)
  }

  /** The effects of dispatching `entries` one after another. */
  function DispatchAll(env: Environment, entries: seq<Entry>): seq<Effect>
    decreases |entries|
  {
    if entries == [] then [] else DispatchEffects(env, entries[0]) + DispatchAll(env, entries[1..])
  }

  /** Sends each entry through `SendToProcessors`, in order: dispatched
      outside a transaction, buffered again inside one. */
  function Replay(m: Manager, entries: seq<Entry>): (r: Manager)
    ensures r.env == m.env && r.inTransaction == m.inTransaction
    ensures !m.inTransaction ==> r.buffer == m.buffer && r.log == m.log + DispatchAll(m.env, entries)
    ensures m.inTransaction ==> r.log == m.log && r.buffer == m.buffer + Buffered(entries)
    decreases |entries|
  {
    if entries == [] then
      assert m.buffer + Buffered(entries) == m.buffer;
      m
    else
      var x := entries[0];
      var next := SendToProcessors(m, x.eventData, x.saved, x.processors).state;
      var r := Replay(next, entries[1..]);
      assert !m.inTransaction ==> r.log == m.log + DispatchAll(m.env, entries) by {
        if !m.inTransaction {
          calc {
            r.log;
            next.log + DispatchAll(m.env, entries[1..]);
            (m.log + DispatchEffects(m.env, x)) + DispatchAll(m.env, entries[1..]);
            m.log + (DispatchEffects(m.env, x) + DispatchAll(m.env, entries[1..]));
          }
        }
      }
      assert m.inTransaction ==> r.buffer == m.buffer + Buffered(entries) by {
        if m.inTransaction {
          BufferedCons(m.buffer, entries);
        }
      }
      r
  }

  /** Buffering the first entry and then the rest buffers them all. */
  lemma BufferedCons(buffer: seq<Entry>, entries: seq<Entry>)
    requires entries != []
    ensures (buffer + [Entry(Trim(entries[0].eventData), entries[0].saved, entries[0].processors)]) + Buffered(entries[1..])
            == buffer + Buffered(entries)
  {
    assert Buffered(entries) == [Buffered(entries)[0]] + Buffered(entries[1..]);
  }

  /** Empties the buffer first, then replays what it held. Should a
      transaction still be open, the replay buffers the entries again, so the
      buffer ends holding each of them once. */
  function ProcessBuffer(m: Manager): (r: Manager)
    ensures r.env == m.env && r.inTransaction == m.inTransaction
    ensures !m.inTransaction ==> r.buffer == [] && r.log == m.log + DispatchAll(m.env, m.buffer)
    ensures m.inTransaction ==> r.log == m.log && r.buffer == Buffered(m.buffer)
  {
    Replay(m.(buffer := []), m.buffer)
  }

  /** Called by the database layer after a commit. */
  function TransactionCommitted(m: Manager): (r: Manager)
    ensures m.buffer == [] ==> r == m
    ensures !m.inTransaction ==> r.buffer == [] && r.log == m.log + DispatchAll(m.env, m.buffer)
    ensures r.env == m.env && r.inTransaction == m.inTransaction
  {
    if m.buffer == [] then m else ProcessBuffer(m)
  }

  /** Called by the database layer after a rollback: drops the buffer. */
  function TransactionRolledBack(m: Manager): (r: Manager)
    ensures r.buffer == [] && r.log == m.log
    ensures r.env == m.env && r.inTransaction == m.inTransaction
  {
    m.(buffer := [])
  }
}
