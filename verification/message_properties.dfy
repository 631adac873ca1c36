/**
  Properties of the message manager: the shape of each dispatch path, the
  replay at commit and the discard at rollback, and the invariant that the
  buffer is empty whenever no transaction is open.
*/
module MessageProperties {
  import opened Wrappers
  import opened MessageManager

  // ---------------------------------------------------------------------
  // The database layer's side of the transaction protocol
  // ---------------------------------------------------------------------

  /** The database layer opens a transaction. */
  function DbBegin(m: Manager): Manager
  {
    m.(inTransaction := true)
  }

  /** The database layer commits: the transaction is closed first, then the
      manager's commit callback runs. */
  function DbCommit(m: Manager): Manager
  {
    TransactionCommitted(m.(inTransaction := false))
  }

  /** The database layer rolls back: the transaction is closed first, then the
      manager's rollback callback runs. */
  function DbRollback(m: Manager): Manager
  {
    TransactionRolledBack(m.(inTransaction := false))
  }

  /** The buffer never carries requests outside a transaction. */
  ghost predicate BufferOnlyInTransaction(m: Manager)
  {
    !m.inTransaction ==> m.buffer == []
  }

  /** Submits each request in turn, discarding the returned ids. */
  function SendAll(m: Manager, requests: seq<Entry>): Manager
    decreases |requests|
  {
    if requests == [] then m
    else
      var x := requests[0];
      SendAll(SendMessage(m, x.eventData, x.saved, x.processors).state, requests[1..])
  }

  /** The processor calls expected when `entries` are dispatched in order. */
  function AllExpectedCalls(env: Environment, entries: seq<Entry>): seq<Effect>
    decreases |entries|
  {
    if entries == [] then []
    else ExpectedCalls(env, entries[0].processors, entries[0].eventData, entries[0].saved.id) + AllExpectedCalls(env, entries[1..])
  }

  /** The sent events expected when `entries` are dispatched in order. */
  function AllExpectedSent(entries: seq<Entry>): seq<Effect>
    decreases |entries|
  {
    if entries == [] then []
    else ExpectedSent(entries[0].eventData, entries[0].saved) + AllExpectedSent(entries[1..])
  }

  // ---------------------------------------------------------------------
  // Shape of the two dispatch paths
  // ---------------------------------------------------------------------

  /** With an empty processor list nothing is called; the sent event appears
      exactly when the message is not a notification and comes before the
      read mark; the record is marked read exactly when it is a notification
      or messaging is disabled, through the path its kind selects. */
  lemma EmptyListShape(env: Environment, e: EventData, s: SavedMessage)
    ensures OfRank(EmptyListEffects(env, e, s), 0) == []
    ensures OfRank(EmptyListEffects(env, e, s), 1) == ExpectedSent(e, s)
    ensures PhaseOrdered(EmptyListEffects(env, e, s))
    ensures |OfRank(EmptyListEffects(env, e, s), 2)| == (if e.notification || !env.messagingEnabled then 1 else 0)
    ensures forall x :: x in EmptyListEffects(env, e, s) && x.MarkRead? ==>
              x == MarkRead(PathFor(e.notification), e.userTo.id, s.id)
  {
    var sent := ExpectedSent(e, s);
    var marks := if e.notification || !env.messagingEnabled
                 then [MarkRead(PathFor(e.notification), e.userTo.id, s.id)] else [];
    assert EmptyListEffects(env, e, s) == [] + sent + marks;
    OfRankOfUniform(sent, 1);
    OfRankOfUniform(marks, 2);
    OfRankOfConcat3([], sent, marks, 0);
    OfRankOfConcat3([], sent, marks, 1);
    OfRankOfConcat3([], sent, marks, 2);
    PhaseOrderedOfBlocks([], sent, marks);
  }

  /** A synchronous dispatch calls every processor once, in list order, with
      the recorded return value and without stopping at a failure; then emits
      the sent event exactly when the message is not a notification; then
      marks the record read, through the path its kind selects, exactly when
      no working rows remain or it is a notification and messaging is
      disabled. */
  lemma DispatchShape(env: Environment, x: Entry)
    ensures OfRank(DispatchEffects(env, x), 0) == ExpectedCalls(env, x.processors, x.eventData, x.saved.id)
    ensures OfRank(DispatchEffects(env, x), 1) == ExpectedSent(x.eventData, x.saved)
    ensures PhaseOrdered(DispatchEffects(env, x))
    ensures forall k :: k in DispatchEffects(env, x) && k.MarkRead? ==>
              k.userTo == x.eventData.userTo.id && k.messageId == x.saved.id
              && (k.path == NotificationRead <==> x.eventData.notification)
    ensures (exists k :: k in DispatchEffects(env, x) && k.MarkRead?) <==>
              WorkingCount(env, x.saved.id, x.eventData.notification) == 0
              || (!env.messagingEnabled && x.eventData.notification)
    ensures |OfRank(DispatchEffects(env, x), 2)|
            == (if !env.messagingEnabled && x.eventData.notification then 1 else 0)
               + (if WorkingCount(env, x.saved.id, x.eventData.notification) == 0 then 1 else 0)
  {
    var calls := ProcessorCalls(env, x.processors, x.eventData, x.saved.id);
    var sent := ExpectedSent(x.eventData, x.saved);
    var marks := DispatchReadMarks(env, x.eventData, x.saved);
    assert DispatchEffects(env, x) == calls + sent + marks;
    DispatchRanks(calls, sent, marks);
    DispatchMarks(env, x, calls + sent, marks);
  }

  /** The rank views of the three blocks of a dispatch. */
  lemma DispatchRanks(calls: seq<Effect>, sent: seq<Effect>, marks: seq<Effect>)
    requires forall k :: k in calls ==> k.ProcCall?
    requires forall k :: k in sent ==> k.SentEvent?
    requires forall k :: k in marks ==> k.MarkRead?
    ensures OfRank(calls + sent + marks, 0) == calls
    ensures OfRank(calls + sent + marks, 1) == sent
    ensures OfRank(calls + sent + marks, 2) == marks
    ensures PhaseOrdered(calls + sent + marks)
  {
    OfRankOfUniform(calls, 0);
    OfRankOfUniform(sent, 1);
    OfRankOfUniform(marks, 2);
    OfRankOfConcat3(calls, sent, marks, 0);
    OfRankOfConcat3(calls, sent, marks, 1);
    OfRankOfConcat3(calls, sent, marks, 2);
    assert OfRank(sent, 0) == [] && OfRank(marks, 0) == [];
    assert OfRank(calls, 2) == [] && OfRank(sent, 2) == [];
    assert OfRank(calls, 1) == [] && OfRank(marks, 1) == [];
    PhaseOrderedOfBlocks(calls, sent, marks);
  }

  /** The read marks of a dispatch are exactly those of `DispatchReadMarks`. */
  lemma DispatchMarks(env: Environment, x: Entry, before: seq<Effect>, marks: seq<Effect>)
    requires forall k :: k in before ==> !k.MarkRead?
    requires marks == DispatchReadMarks(env, x.eventData, x.saved)
    ensures forall k :: k in before + marks && k.MarkRead? ==>
              k.userTo == x.eventData.userTo.id && k.messageId == x.saved.id
              && (k.path == NotificationRead <==> x.eventData.notification)
    ensures (exists k :: k in before + marks && k.MarkRead?) <==>
              WorkingCount(env, x.saved.id, x.eventData.notification) == 0
              || (!env.messagingEnabled && x.eventData.notification)
  {
    assert forall k :: k in before + marks && k.MarkRead? ==> k in marks;
    if WorkingCount(env, x.saved.id, x.eventData.notification) == 0 {
      assert marks[|marks| - 1] in before + marks;
    } else if !env.messagingEnabled && x.eventData.notification {
      assert marks[0] in before + marks;
    }
  }

  // ---------------------------------------------------------------------
  // The three ways a send request is handled
  // ---------------------------------------------------------------------

  /** Empty processor list: the id is returned, the buffer is untouched and
      only the bookkeeping effects of `EmptyListShape` are logged, whether or
      not a transaction is open. */
  lemma EmptyListPath(m: Manager, e: EventData, s: SavedMessage)
    requires ValidClass(e)
    ensures SendMessage(m, e, s, []).result == Success(s.id)
    ensures SendMessage(m, e, s, []).state.buffer == m.buffer
    ensures var log := SendMessage(m, e, s, []).state.log;
            && log[..|m.log|] == m.log
            && OfRank(log[|m.log|..], 0) == []
            && OfRank(log[|m.log|..], 1) == ExpectedSent(e, s)
            && PhaseOrdered(log[|m.log|..])
            && |OfRank(log[|m.log|..], 2)| == (if e.notification || !m.env.messagingEnabled then 1 else 0)
            && (forall x :: x in log[|m.log|..] && x.MarkRead? ==> x == MarkRead(PathFor(e.notification), e.userTo.id, s.id))
  {
    var log := SendMessage(m, e, s, []).state.log;
    assert log[|m.log|..] == EmptyListEffects(m.env, e, s);
    EmptyListShape(m.env, e, s);
  }

  /** Non-empty list outside a transaction: the request is dispatched at once
      and the appended effects have the shape of `DispatchShape`. */
  lemma SynchronousPath(m: Manager, e: EventData, s: SavedMessage, procs: seq<string>)
    requires ValidClass(e) && procs != [] && !m.inTransaction
    ensures SendMessage(m, e, s, procs).result == Success(s.id)
    ensures SendMessage(m, e, s, procs).state.buffer == m.buffer
    ensures var log := SendMessage(m, e, s, procs).state.log;
            && log[..|m.log|] == m.log
            && OfRank(log[|m.log|..], 0) == ExpectedCalls(m.env, procs, e, s.id)
            && |OfRank(log[|m.log|..], 0)| == |procs|
            && OfRank(log[|m.log|..], 1) == ExpectedSent(e, s)
            && PhaseOrdered(log[|m.log|..])
  {
    var log := SendMessage(m, e, s, procs).state.log;
    assert log[|m.log|..] == DispatchEffects(m.env, Entry(e, s, procs));
    DispatchShape(m.env, Entry(e, s, procs));
  }

  /** Non-empty list inside a transaction: one trimmed entry is appended to
      the buffer and nothing is called, emitted or marked. */
  lemma BufferedPath(m: Manager, e: EventData, s: SavedMessage, procs: seq<string>)
    requires ValidClass(e) && procs != [] && m.inTransaction
    ensures SendMessage(m, e, s, procs).result == Success(s.id)
    ensures SendMessage(m, e, s, procs).state.log == m.log
    ensures SendMessage(m, e, s, procs).state.buffer == m.buffer + [Entry(Trim(e), s, procs)]
  {
    var b := SendMessage(m, e, s, procs).state.buffer;
    assert b == b[..|m.buffer|] + [b[|m.buffer|]];
  }

  // ---------------------------------------------------------------------
  // Commit and rollback
  // ---------------------------------------------------------------------

  /** Replaying entries calls the processors of each entry in buffer order and
      emits one sent event per non-notification entry, in buffer order. */
  lemma {:induction false} DispatchAllOrder(env: Environment, entries: seq<Entry>)
    ensures OfRank(DispatchAll(env, entries), 0) == AllExpectedCalls(env, entries)
    ensures OfRank(DispatchAll(env, entries), 1) == AllExpectedSent(entries)
    decreases |entries|
  {
    if entries != [] {
      DispatchShape(env, entries[0]);
      DispatchAllOrder(env, entries[1..]);
      OfRankOfConcat(DispatchEffects(env, entries[0]), DispatchAll(env, entries[1..]), 0);
      OfRankOfConcat(DispatchEffects(env, entries[0]), DispatchAll(env, entries[1..]), 1);
    }
  }

  /** After a commit the buffer is empty and the log has grown by the
      dispatch of every former entry, once each, in insertion order. */
  lemma CommitReplaysInOrder(m: Manager)
    requires m.inTransaction
    ensures DbCommit(m).buffer == [] && !DbCommit(m).inTransaction
    ensures DbCommit(m).log == m.log + DispatchAll(m.env, m.buffer)
    ensures OfRank(DbCommit(m).log[|m.log|..], 0) == AllExpectedCalls(m.env, m.buffer)
    ensures OfRank(DbCommit(m).log[|m.log|..], 1) == AllExpectedSent(m.buffer)
  {
    assert DbCommit(m).log[|m.log|..] == DispatchAll(m.env, m.buffer);
    DispatchAllOrder(m.env, m.buffer);
  }

  /** A rollback drops every buffered request without any effect. */
  lemma RollbackDiscards(m: Manager)
    ensures DbRollback(m).buffer == [] && DbRollback(m).log == m.log && !DbRollback(m).inTransaction
  {
  }

  /** Valid requests with processors, submitted inside a transaction, only
      fill the buffer, in submission order. */
  lemma {:induction false} SendAllBuffers(m: Manager, requests: seq<Entry>)
    requires m.inTransaction
    requires forall i :: 0 <= i < |requests| ==>
               ValidClass(requests[i].eventData) && requests[i].processors != []
    ensures SendAll(m, requests).log == m.log
    ensures SendAll(m, requests).buffer == m.buffer + Buffered(requests)
    ensures SendAll(m, requests).env == m.env && SendAll(m, requests).inTransaction
    decreases |requests|
  {
    if requests != [] {
      var x := requests[0];
      var next := SendMessage(m, x.eventData, x.saved, x.processors).state;
      BufferedPath(m, x.eventData, x.saved, x.processors);
      SendAllBuffers(next, requests[1..]);
      assert Buffered(requests) == [Buffered(requests)[0]] + Buffered(requests[1..]);
    }
  }

  /** Requests buffered in a transaction that is rolled back never reach a
      processor: the log is as it was before the transaction. */
  lemma RollbackAfterBuffering(m: Manager, requests: seq<Entry>)
    requires !m.inTransaction && m.buffer == []
    requires forall i :: 0 <= i < |requests| ==>
               ValidClass(requests[i].eventData) && requests[i].processors != []
    ensures DbRollback(SendAll(DbBegin(m), requests)).log == m.log
    ensures DbRollback(SendAll(DbBegin(m), requests)).buffer == []
  {
    SendAllBuffers(DbBegin(m), requests);
  }

  /** `s` with the event data of every processor call trimmed: the log as it
      reads when each processor is handed the buffered copy. */
  function TrimLog(s: seq<Effect>): seq<Effect>
  {
    seq(|s|, i requires 0 <= i < |s| => if s[i].ProcCall? then s[i].(data := Trim(s[i].data)) else s[i])
  }

  /** Dispatching the trimmed copy logs the same effects as dispatching the
      original, except that each processor is handed the copy whose users
      have no `description`. Trimming twice is the same as trimming once. */
  lemma DispatchOfTrimmed(env: Environment, e: EventData, s: SavedMessage, procs: seq<string>)
    ensures DispatchEffects(env, Entry(Trim(e), s, procs)) == TrimLog(DispatchEffects(env, Entry(e, s, procs)))
    ensures Trim(Trim(e)) == Trim(e)
  {
    var calls := ProcessorCalls(env, procs, e, s.id);
    var rest := ExpectedSent(e, s) + DispatchReadMarks(env, e, s);
    assert DispatchEffects(env, Entry(e, s, procs)) == calls + rest;
    TrimKeepsBookkeeping(env, e, s);
    assert DispatchEffects(env, Entry(Trim(e), s, procs)) == ProcessorCalls(env, procs, Trim(e), s.id) + rest;
    TrimLogOfConcat(calls, rest);
    TrimLogOfCalls(env, procs, e, s.id);
    TrimLogKeepsOthers(rest);
  }

  /** The sent event and the read marks read only ids and flags, which
      trimming keeps. */
  lemma TrimKeepsBookkeeping(env: Environment, e: EventData, s: SavedMessage)
    ensures ExpectedSent(Trim(e), s) == ExpectedSent(e, s)
    ensures DispatchReadMarks(env, Trim(e), s) == DispatchReadMarks(env, e, s)
    ensures forall k :: k in ExpectedSent(e, s) + DispatchReadMarks(env, e, s) ==> !k.ProcCall?
  {
  }

  /** Trimming the calls' data is the same as calling with the trimmed copy. */
  lemma TrimLogOfCalls(env: Environment, procs: seq<string>, e: EventData, id: int)
    ensures TrimLog(ProcessorCalls(env, procs, e, id)) == ProcessorCalls(env, procs, Trim(e), id)
  {
    var a := ProcessorCalls(env, procs, e, id);
    var b := ProcessorCalls(env, procs, Trim(e), id);
    assert |TrimLog(a)| == |b|;
    forall i | 0 <= i < |b| ensures TrimLog(a)[i] == b[i] {
      assert a[i] == ProcCall(procs[i], id, e, (procs[i], id) !in env.rejecting);
    }
  }

  /** A log without processor calls is left as it is. */
  lemma TrimLogKeepsOthers(s: seq<Effect>)
    requires forall k :: k in s ==> !k.ProcCall?
    ensures TrimLog(s) == s
  {
    forall i | 0 <= i < |s| ensures TrimLog(s)[i] == s[i] {
      assert s[i] in s;
    }
  }

  /** Replaying the buffered copies of requests logs what dispatching the
      requests themselves would, with every processor handed the copy. */
  lemma {:induction false} DispatchAllBuffered(env: Environment, requests: seq<Entry>)
    ensures DispatchAll(env, Buffered(requests)) == TrimLog(DispatchAll(env, requests))
    decreases |requests|
  {
    if requests != [] {
      var x := requests[0];
      DispatchOfTrimmed(env, x.eventData, x.saved, x.processors);
      assert Buffered(requests)[1..] == Buffered(requests[1..]);
      DispatchAllBuffered(env, requests[1..]);
      TrimLogOfConcat(DispatchEffects(env, x), DispatchAll(env, requests[1..]));
    }
  }

  /** Sending N requests in a transaction and committing it dispatches each
      request once, in submission order, failing processor calls included.
      The replay reads the environment as it is at commit time (`later`), and
      each processor is handed the trimmed copy. */
  lemma CommitAfterBuffering(m: Manager, requests: seq<Entry>, later: Environment)
    requires !m.inTransaction && m.buffer == []
    requires forall i :: 0 <= i < |requests| ==>
               ValidClass(requests[i].eventData) && requests[i].processors != []
    ensures DbCommit(SendAll(DbBegin(m), requests).(env := later)).log
            == m.log + DispatchAll(later, Buffered(requests))
    ensures DbCommit(SendAll(DbBegin(m), requests).(env := later)).log
            == m.log + TrimLog(DispatchAll(later, requests))
    ensures DbCommit(SendAll(DbBegin(m), requests).(env := later)).buffer == []
  {
    SendAllBuffers(DbBegin(m), requests);
    assert SendAll(DbBegin(m), requests).buffer == Buffered(requests);
    DispatchAllBuffered(later, requests);
  }

  /** One request sent inside a transaction that then commits, with the
      environment `later` at commit time, logs what sending it with no
      transaction open under `later` would, except that the processors are
      handed the trimmed copy. Requests that throw or have no processors take
      effect at once, as without a transaction. */
  lemma DeferredLikeImmediate(m: Manager, e: EventData, s: SavedMessage, procs: seq<string>, later: Environment)
    requires !m.inTransaction && m.buffer == []
    ensures ValidClass(e) && procs != [] ==>
              var immediate := SendMessage(m.(env := later), e, s, procs).state.log;
              DbCommit(SendMessage(DbBegin(m), e, s, procs).state.(env := later)).log
              == m.log + TrimLog(immediate[|m.log|..])
    ensures !ValidClass(e) || procs == [] ==>
              DbCommit(SendMessage(DbBegin(m), e, s, procs).state.(env := later)).log
              == SendMessage(m, e, s, procs).state.log
    ensures DbCommit(SendMessage(DbBegin(m), e, s, procs).state.(env := later)).buffer == []
  {
    if ValidClass(e) && procs != [] {
      var x := Entry(e, s, procs);
      var b := SendMessage(DbBegin(m), e, s, procs).state;
      BufferedPath(DbBegin(m), e, s, procs);
      assert b.buffer == [Entry(Trim(e), s, procs)];
      DispatchOfTrimmed(later, e, s, procs);
      assert DispatchAll(later, b.buffer) == DispatchEffects(later, Entry(Trim(e), s, procs)) + [];
      var immediate := SendMessage(m.(env := later), e, s, procs).state.log;
      assert immediate[|m.log|..] == DispatchEffects(later, x);
    }
  }

  /** Concatenation commutes with trimming the log. */
  lemma TrimLogOfConcat(a: seq<Effect>, b: seq<Effect>)
    ensures TrimLog(a + b) == TrimLog(a) + TrimLog(b)
  {
    assert forall i :: 0 <= i < |a| ==> (a + b)[i] == a[i];
    assert forall i :: |a| <= i < |a| + |b| ==> (a + b)[i] == b[i - |a|];
  }

  // ---------------------------------------------------------------------
  // The buffer is empty outside transactions
  // ---------------------------------------------------------------------

  lemma SendPreservesInvariant(m: Manager, e: EventData, s: SavedMessage, procs: seq<string>)
    requires BufferOnlyInTransaction(m)
    ensures BufferOnlyInTransaction(SendMessage(m, e, s, procs).state)
  {
  }

  lemma TransactionBoundariesEmptyBuffer(m: Manager)
    requires BufferOnlyInTransaction(m)
    ensures BufferOnlyInTransaction(DbBegin(m))
    ensures DbCommit(m).buffer == [] && BufferOnlyInTransaction(DbCommit(m))
    ensures DbRollback(m).buffer == [] && BufferOnlyInTransaction(DbRollback(m))
  {
  }

  // ---------------------------------------------------------------------
  // Facts about OfRank
  // ---------------------------------------------------------------------

  lemma {:induction false} OfRankOfConcat(a: seq<Effect>, b: seq<Effect>, k: nat)
    ensures OfRank(a + b, k) == OfRank(a, k) + OfRank(b, k)
    decreases |a|
  {
    if a == [] {
      assert a + b == b;
    } else {
      var head := if Rank(a[0]) == k then [a[0]] else [];
      assert (a + b)[0] == a[0] && (a + b)[1..] == a[1..] + b;
      assert OfRank(a + b, k) == head + OfRank(a[1..] + b, k);
      OfRankOfConcat(a[1..], b, k);
      assert OfRank(a, k) == head + OfRank(a[1..], k);
    }
  }

  lemma OfRankOfConcat3(a: seq<Effect>, b: seq<Effect>, c: seq<Effect>, k: nat)
    ensures OfRank(a + b + c, k) == OfRank(a, k) + OfRank(b, k) + OfRank(c, k)
  {
    OfRankOfConcat(a + b, c, k);
    OfRankOfConcat(a, b, k);
  }

  /** A sequence whose effects all have rank `k` keeps everything at rank `k`
      and nothing at any other rank. */
  lemma {:induction false} OfRankOfUniform(s: seq<Effect>, k: nat)
    requires forall e :: e in s ==> Rank(e) == k
    ensures OfRank(s, k) == s
    ensures forall j: nat :: j != k ==> OfRank(s, j) == []
    decreases |s|
  {
    if s != [] {
      OfRankOfUniform(s[1..], k);
    }
  }

  /** Three blocks of rank 0, 1 and 2 in that order are phase ordered. */
  lemma PhaseOrderedOfBlocks(a: seq<Effect>, b: seq<Effect>, c: seq<Effect>)
    requires forall e :: e in a ==> Rank(e) == 0
    requires forall e :: e in b ==> Rank(e) == 1
    requires forall e :: e in c ==> Rank(e) == 2
    ensures PhaseOrdered(a + b + c)
  {
    var s := a + b + c;
    forall i, j | 0 <= i < j < |s|
      ensures Rank(s[i]) <= Rank(s[j])
    {
      assert Rank(s[i]) == (if i < |a| then 0 else if i < |a| + |b| then 1 else 2) by {
        if i < |a| { assert s[i] == a[i]; }
        else if i < |a| + |b| { assert s[i] == b[i - |a|]; }
        else { assert s[i] == c[i - |a| - |b|]; }
      }
      assert Rank(s[j]) == (if j < |a| then 0 else if j < |a| + |b| then 1 else 2) by {
        if j < |a| { assert s[j] == a[j]; }
        else if j < |a| + |b| { assert s[j] == b[j - |a|]; }
        else { assert s[j] == c[j - |a| - |b|]; }
      }
    }
  }
}
