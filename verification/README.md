# Message dispatch buffer and grading-rule selection, in Dafny

This project models two small sequential pieces of a learning management
system and proves properties of them.

1. **The message manager** (`core\message\manager`). It is the last step of
   sending a message whose row is already saved. A request with no
   processors is settled right away: the "message sent" event, and possibly
   a read mark. A request made while a database transaction is open is
   copied into a process-wide buffer. Any other request is dispatched at
   once. Dispatching calls each processor in list order, then emits the
   "message sent" event for non-notifications, then marks the record read
   when needed. When the transaction commits, the buffer is swapped for an
   empty one and its entries are replayed in order. When it rolls back, the
   buffer is dropped.
2. **The grading-rule helper** (`core\grade\rule\rule_helper`). It decides
   which rule instances a grade item shows and stores the (grade item, rule
   name) associations. Applied ("active") instances come from association
   rows whose rule is enabled. Blank instances are added for enabled rules
   not in use, unless only active ones are wanted. The result is sorted by
   each name's position in the list of enabled rules.

Files:

- `wrappers.dfy`: `Option` and `Result`.
- `message_manager.dfy`, module `MessageManager`. The manager is an
  immutable record `Manager(buffer, inTransaction, env, log)`. `env` holds
  what the manager reads but never changes: whether messaging is enabled,
  the database's count of "working" rows per (message id, notification
  flag), and which processor calls return false. `log` is an append-only
  sequence of effects: `ProcCall`, which records the event data the
  fan-out starts from, `SentEvent` and `MarkRead`. The module
  has one function per method of the class. A thrown `coding_exception` is
  a `Step` whose result is `Failure` and whose state is the input state.
- `message_properties.dfy`, module `MessageProperties`. It holds the
  lemmas, plus the database layer's side of the protocol: `DbBegin` opens
  a transaction; `DbCommit` and `DbRollback` close it and then call the
  manager's callback, and `SendAll` submits several requests.
- `rule_helper.dfy`, module `RuleHelper`. The association table is a
  sequence of rows in storage order plus the next auto-increment id. The
  module has one function per method of the helper, and a stable insertion
  sort for `sort_rules`.
- `rule_properties.dfy`, module `RuleProperties`. It holds the lemmas about
  the selected instances and about the table.

Reading the effect log: `OfRank(s, 0)`, `OfRank(s, 1)` and `OfRank(s, 2)`
pick out the processor calls, the sent events and the read marks of `s`, in
order. `PhaseOrdered(s)` says that every processor call comes before every
sent event, and every sent event comes before every read mark.
`ExpectedCalls(env, procs, e, id)` is one call per listed processor, in list
order, each handed `e`. `TrimLog(s)` is `s` with the event data of every
processor call trimmed as the buffer trims it. `ExpectedSent(e, s)` is one event for a non-notification and none for
a notification.

## Model

| member | source | states |
|---|---|---|
| `MessageManager.SendMessage` | lib/classes/message/manager.php:59-105 | Event data that is neither a plain object nor a message object makes the call throw, and the state is returned unchanged. Otherwise the result is the saved message's id. The environment and the transaction flag never change, and the log only grows. An empty processor list leaves the buffer alone and logs only the bookkeeping effects. A non-empty list goes to `SendToProcessors`. |
| `MessageProperties.EmptyListShape` | lib/classes/message/manager.php:79-101 | With no processors, nothing is called. The sent event is logged exactly when the message is not a notification, and before any read mark. There is exactly one read mark when it is a notification or messaging is disabled, and none otherwise. That mark takes the notification path for a notification and the message path otherwise. |
| `MessageProperties.EmptyListPath` | lib/classes/message/manager.php:79-101 | An empty processor list returns the id and leaves the buffer unchanged. This holds inside a transaction too. The effects appended to the log have the shape `EmptyListShape` describes. |
| `MessageManager.SendToProcessors` | lib/classes/message/manager.php:115-175 | The result is always the saved id. Inside a transaction the buffer grows by exactly one entry at the end: the trimmed event data, the saved record and the processor list. The log is not touched. Outside a transaction the buffer is unchanged and the log grows by exactly one dispatch of the request. |
| `MessageManager.Trim` | lib/classes/message/manager.php:123-130 | The buffered copy's sender and recipient have no `description`. Their id and other fields, and every other field of the event data, are those of the caller's data. |
| `MessageProperties.BufferedPath` | lib/classes/message/manager.php:122-134 | Inside a transaction a valid request with processors returns the id. It logs no processor call, event or read mark, and the buffer becomes the old buffer plus one trimmed entry. |
| `MessageManager.ProcessorCalls` | lib/classes/message/manager.php:136-145 | The fan-out makes exactly one call per listed processor, in list order, each with the message id and the event data it was given. A call that returns false does not stop the calls after it. |
| `MessageProperties.DispatchShape` | lib/classes/message/manager.php:136-172 | A synchronous dispatch logs the processor calls of `ProcessorCalls`, then one sent event exactly for a non-notification, then the read marks. Every read mark names the recipient and the saved id, and takes the notification path exactly for a notification. Some read mark happens exactly when the working count for (id, notification) is 0, or when the message is a notification and messaging is disabled. There is one mark for each of those two conditions that holds, so a notification with messaging disabled and no working rows is marked twice. |
| `MessageProperties.SynchronousPath` | lib/classes/message/manager.php:136-174 | Outside a transaction, a valid request with processors returns the id and leaves the buffer unchanged. It appends one call per processor, in list order, and the sent event only for a non-notification, all in phase order. |
| `MessageManager.Replay` | lib/classes/message/manager.php:206-209 | Replaying entries outside a transaction leaves the buffer and the environment as they were. It appends the dispatch of each entry, in order. Inside a transaction it logs nothing and appends the trimmed copy of each entry to the buffer, in order. |
| `MessageManager.ProcessBuffer` | lib/classes/message/manager.php:201-210 | The buffer is emptied before the replay. Outside a transaction it ends empty, and the log has grown by the dispatches of all the former entries, in insertion order. Inside one, the replay buffers each former entry again exactly once, which holds only because the buffer was emptied first. |
| `MessageManager.TransactionCommitted` | lib/classes/message/manager.php:182-187 | With an empty buffer, the commit callback changes nothing. Otherwise, outside a transaction, it leaves an empty buffer and appends the dispatch of every buffered entry, in order. |
| `MessageManager.TransactionRolledBack` | lib/classes/message/manager.php:194-196 | The rollback callback empties the buffer unconditionally and logs nothing. |
| `MessageProperties.DispatchAllOrder` | lib/classes/message/manager.php:201-210 | Replaying entries in order calls exactly the processors of each entry, entry by entry, in list order. It emits one sent event per non-notification entry, in buffer order. |
| `MessageProperties.CommitReplaysInOrder` | lib/classes/message/manager.php:182-210 | After the database layer commits, the buffer is empty and no transaction is open. The log has grown by one dispatch per former entry, in insertion order. The calls and sent events appended are those of the entries, in buffer order. |
| `MessageProperties.RollbackDiscards` | lib/classes/message/manager.php:194-196 | After the database layer rolls back, the buffer is empty, no transaction is open and the log is unchanged. |
| `MessageProperties.SendAllBuffers` | lib/classes/message/manager.php:122-134 | Valid requests with processors, submitted inside a transaction, leave the log unchanged. They append their trimmed copies to the buffer in submission order. |
| `MessageProperties.RollbackAfterBuffering` | lib/classes/message/manager.php:194-196 | Requests buffered in a transaction that is rolled back never reach a processor. The log ends as it was before the transaction, and the buffer ends empty. |
| `MessageProperties.DispatchOfTrimmed` | lib/classes/message/manager.php:123-145 | Dispatching the trimmed copy logs the same effects as dispatching the original, except that each processor is handed the copy whose users have no `description`. Trimming twice is the same as trimming once. |
| `MessageProperties.DispatchAllBuffered` | lib/classes/message/manager.php:206-209 | Replaying the buffered copies of requests logs what dispatching the requests themselves would, with every processor handed the trimmed copy. |
| `MessageProperties.CommitAfterBuffering` | lib/classes/message/manager.php:122-210 | Buffer N requests in a transaction and commit it: the log grows by exactly the N dispatches of the buffered copies, in submission order. Failing processor calls are included. The replay reads the environment (messaging switch, working rows, processor results) as it is at commit time. The buffer ends empty. |
| `MessageProperties.DeferredLikeImmediate` | lib/classes/message/manager.php:79-134 | A request sent inside a transaction that then commits logs what sending it with no transaction open, under the environment at commit time, would log, except that the processors are handed the trimmed copy. A request that throws or has no processors takes effect at once, as without a transaction. The buffer ends empty. |
| `MessageProperties.SendPreservesInvariant` | lib/classes/message/manager.php:122-134 | A send never leaves entries in the buffer outside a transaction. |
| `MessageProperties.TransactionBoundariesEmptyBuffer` | lib/classes/message/manager.php:182-210 | Begin keeps the buffer-only-in-transaction invariant. Commit and rollback both leave the buffer empty and re-establish it. |
| `MessageManager.EmptyListEffects` | lib/classes/message/manager.php:79-98 | Characterised by `EmptyListShape` and `EmptyListPath`: no processor call, the sent event only for a non-notification, and one read mark exactly for a notification or with messaging disabled. |
| `MessageManager.DispatchReadMarks` | lib/classes/message/manager.php:157-172 | Characterised by `DispatchShape` (through `DispatchMarks`): every mark names the recipient and the saved id on the path the kind selects, and there is one mark for each of the two conditions that holds: no working rows remain, and a notification meets disabled messaging. |
| `MessageManager.DispatchEffects` | lib/classes/message/manager.php:136-172 | Characterised by `DispatchShape`: the calls of `ExpectedCalls`, then the sent event of `ExpectedSent`, then the read marks, in phase order. `DispatchOfTrimmed` relates the dispatch of the buffered copy to it. |
| `MessageManager.DispatchAll` | lib/classes/message/manager.php:206-209 | Characterised by `DispatchAllOrder` and `DispatchAllBuffered`: the calls and sent events of every entry, entry by entry, in order. |
| `RuleHelper.GetRecords` | lib/classes/grade/rule/rule_helper.php:63 | The rows read for a grade item are exactly the stored rows with that grade item id. |
| `RuleHelper.SaveRuleAssociation` | lib/classes/grade/rule/rule_helper.php:108-116 | After a save, the rule is in use by the grade item and the stored rows are kept as a prefix. In a valid table the returned id was free before, it now finds the new row, and the table stays valid. |
| `RuleHelper.DeleteRuleAssociation` | lib/classes/grade/rule/rule_helper.php:124-128 | The remaining rows are exactly the old rows whose id differs from the deleted one. |
| `RuleHelper.Insert` | lib/classes/grade/rule/rule_helper.php:155-172 | Inserting one instance adds exactly that instance and keeps every other instance. |
| `RuleHelper.InsertKeepsSorted` | lib/classes/grade/rule/rule_helper.php:158-171 | Inserting into a sequence ordered by position in the enabled list keeps it ordered. |
| `RuleHelper.SortRules` | lib/classes/grade/rule/rule_helper.php:155-172 | The sorted result is a permutation of its input. It is non-decreasing by each name's position in the enabled list. |
| `RuleHelper.PositionIsFirstIndex` | lib/classes/grade/rule/rule_helper.php:159-160 | A name's sort key is the index of its first occurrence in the enabled list. A name that is absent gets 0, the value a failed search compares equal to. |
| `RuleHelper.IsUsedByGradeItem` | lib/classes/grade/rule/rule_helper.php:95-99 | Characterised by `RecordsAreInUse`, `InUseNames` and `SaveThenUsed`: it holds for every row read for the grade item, and after the association is saved. |
| `RuleHelper.ActiveRules` | lib/classes/grade/rule/rule_helper.php:67-77 | Characterised by `ActiveRulesFacts` and `ActiveRulesOnce`: an applied instance for exactly the rows whose rule is enabled, carrying the grade item and the row id, and nothing else. For rows with distinct ids, each appears once. |
| `RuleHelper.BlankInstances` | lib/classes/grade/rule/rule_helper.php:136-147 | Characterised by `BlankFacts`, `BlankInstancesOnce` and `BlankInstancesInOrder`: exactly the enabled names not in use, each with neither grade item nor id. With each name listed once, each appears once, in enabled order. |
| `RuleHelper.GetRulesForGradeItem` | lib/classes/grade/rule/rule_helper.php:56-86 | Characterised by `NoGradeItem`, `ResultIsPermutation`, `ActiveInstancesMatchRows`, `OnlyActiveHasNoBlank`, `BlanksAreUnusedNames`, `ResultIsOrdered` and `ResultHasNoRepeats`. |
| `RuleProperties.RecordsAreInUse` | lib/classes/grade/rule/rule_helper.php:95-99 | Every row read for a grade item passes the is-used-by-grade-item check, so that check never drops a row. |
| `RuleProperties.ActiveRulesFacts` | lib/classes/grade/rule/rule_helper.php:67-77 | Every instance built from a grade item's rows carries that grade item and the id of a row naming an enabled rule. Every row naming an enabled rule yields one. |
| `RuleProperties.BlankFacts` | lib/classes/grade/rule/rule_helper.php:136-147 | The blank instances are exactly the enabled names missing from the names in use. Each has neither a grade item nor an id. |
| `RuleProperties.BlankWithNothingInUse` | lib/classes/grade/rule/rule_helper.php:136-147 | With no names in use, the blank instances are one per enabled name, in enabled order. |
| `RuleProperties.InUseNames` | lib/classes/grade/rule/rule_helper.php:63-77 | A name counts as in use exactly when it is enabled and some row associates it with the grade item. |
| `RuleProperties.UnsortedMembers` | lib/classes/grade/rule/rule_helper.php:63-81 | Before sorting there are two kinds of instance. Active instances correspond exactly to the grade item's rows that name enabled rules. Blank instances, present only when not restricted to active ones, correspond exactly to the enabled names the grade item does not use. |
| `RuleProperties.NoGradeItem` | lib/classes/grade/rule/rule_helper.php:59-61 | Without a grade item the result is one blank instance per enabled name, in enabled order. |
| `RuleProperties.ResultIsPermutation` | lib/classes/grade/rule/rule_helper.php:79-85 | With a grade item the result is a reordering of the active instances followed by the blank ones. Nothing is added or dropped. |
| `RuleProperties.ActiveInstancesMatchRows` | lib/classes/grade/rule/rule_helper.php:63-77 | Every applied instance in the result has a name in the enabled list. It carries the grade item and the id of a row associating that name with the grade item. Rows of rules that are not enabled produce nothing, and every other row of the grade item produces its instance. |
| `RuleProperties.OnlyActiveHasNoBlank` | lib/classes/grade/rule/rule_helper.php:79-81 | When only active instances are wanted, the result for a grade item holds no blank instance. |
| `RuleProperties.BlanksAreUnusedNames` | lib/classes/grade/rule/rule_helper.php:79-81 | When blank instances are wanted, a blank instance is shown exactly for the enabled names the grade item does not use. No name appears both applied and blank, and every enabled name appears. |
| `RuleProperties.ResultIsOrdered` | lib/classes/grade/rule/rule_helper.php:56-86 | With a grade item, the result is non-decreasing by position in the enabled list. Without one, it is in that order whenever each enabled name is listed once. |
| `RuleProperties.GetRecordsUnique` | lib/classes/grade/rule/rule_helper.php:63 | In a table whose ids are unique, the rows read for a grade item have unique ids too. |
| `RuleProperties.ActiveRulesOnce` | lib/classes/grade/rule/rule_helper.php:67-77 | From rows with distinct ids, no applied instance is built twice, and each carries the id of one of the rows. |
| `RuleProperties.BlankInstancesOnce` | lib/classes/grade/rule/rule_helper.php:136-147 | With each enabled name listed once, no blank instance appears twice. |
| `RuleProperties.BlankInstancesInOrder` | lib/classes/grade/rule/rule_helper.php:136-147 | With each enabled name listed once, the blank instances are strictly increasing by position in the enabled list, whatever names are in use. |
| `RuleProperties.ResultHasNoRepeats` | lib/classes/grade/rule/rule_helper.php:56-86 | In a table with unique ids, and with each enabled name listed once, no instance appears twice in the result. Together with the membership lemmas, each applied row and each unused enabled name is shown exactly once. |
| `RuleProperties.SaveThenUsed` | lib/classes/grade/rule/rule_helper.php:95-116 | After saving (g, r) into a valid table, `is_used_by_grade_item(g, r)` holds, the returned id maps to (g, r), and the table stays valid. |
| `RuleProperties.DeleteRemovesOnlyThatRow` | lib/classes/grade/rule/rule_helper.php:124-128 | Deleting an id from a valid table leaves a valid table in which that id finds nothing. Every other id finds the same row as before. |
| `RuleProperties.DeleteKeepsValid` | lib/classes/grade/rule/rule_helper.php:124-128 | Deleting keeps row ids unique and below the next id. |
| `RuleProperties.DeleteUndoesSave` | lib/classes/grade/rule/rule_helper.php:108-128 | Deleting the row a save just created gives back exactly the original rows. |

## Modelling notes

- The buffered copy is shallow. The event data and its two user objects
  are cloned, and both users lose `description`. Other nested objects stay
  shared with the caller. Values here are immutable, so the caller's data
  can never change through the buffer.
- A notification is also marked read when messaging is disabled, whatever
  the working count. The empty-list path marks the record read without
  consulting the count.
- A notification with messaging disabled and a working count of 0 is marked
  read twice during a synchronous dispatch. Both marks use the notification
  path. The model logs both, and `DispatchShape` counts them.
- The empty-processor path does not consult the transaction state. Its event
  and read mark happen at once, even inside a transaction
  (`EmptyListPath`).
- The commit callback does not change the transaction flag: the database
  layer closes the transaction before calling it (`DbCommit`). If the
  callback ran while a transaction was still open, the replay would buffer
  the entries again: `ProcessBuffer` then leaves each trimmed entry in the
  buffer once and logs nothing.
- `is_used_by_grade_item` is the predicate `RuleHelper.IsUsedByGradeItem`.
  For rows read by grade item it always holds (`RecordsAreInUse`).
- The lemmas that count instances assume what the storage guarantees. The
  enabled list lists each name once, because the registry returns the names
  as array keys (`Distinct`). Row ids are unique, because the id is the
  table's primary key (`Valid`).
- The PHP sort keeps array keys and is not guaranteed to be stable. The
  model returns the instances in iteration order and sorts stably. Its
  contracts promise only order and permutation.

## Left out

- Database access is not modelled as SQL: the transaction flag, the
  working-row count, record reads, inserts and deletes are state and inputs.
  `get_records` returns rows in storage order.
- Processor resolution (`get_processed_processor_object`), the processor's
  own `send_message`, and `get_eventobject_for_processor` are not modelled.
  A processor call is a log entry whose boolean result comes from the
  environment. It records the event data the fan-out starts from. For a
  message object the code hands each processor its own view of that data
  (`get_eventobject_for_processor`). That view is not modelled, because it
  is built by code outside this model.
- An exception thrown by a processor during dispatch or replay is not
  modelled. The buffer is already empty by then, so the remaining entries
  would be lost. Processors are external code.
- Event-trigger plumbing (`message_sent::create_from_ids(...)->trigger()`)
  is a single `SentEvent` log entry.
- `debugging()` diagnostics, the deprecated default of `courseid` for plain
  objects, and `require_once` have no observable effect on the state or the
  result. A missing `courseid` is `None` here.
- `get_enabled_rules` reads the plugin registry. Its result is the input
  `enabled`.
- `factory::create` is the constructor `Rule(name, gradeItem, ruleId)`. The
  rule and factory interfaces are not part of this model: they declare
  floating-point grade modifiers and form hooks.
- `array_search` compares loosely, so numeric-looking strings could compare
  equal. Rule names are plugin names, so the model compares them exactly.
- CommitAfterBuffering: the code buffers the caller's `$savemessage` object
  itself, and the cloned event data shares its nested objects other than
  the two users. A caller that changes those after the send would change
  what the replay uses. Values here are immutable, so the replay always
  uses the values of the time of the send.
- DeferredLikeImmediate: the same sharing is not modelled, for the same
  reason. The environment is modelled as replaced wholesale at commit time
  (`later`); how it changes in between is not modelled.
- Several transactions in one process are not modelled. The buffer assumes
  one execution context, and nested transactions are collapsed into one
  flag.
