# klever channels and review sessions, modelled in Dafny

This project models two parts of the klever repository and proves
properties about them.

**The channel state machine** (`src/klever/channel.py`). A channel object is
shared by its `Sender` and `Receiver` endpoints. It counts its open senders
and receivers, keeps the two availability flags, and holds the store of its
class:

- a work queue has one bounded FIFO;
- a broadcast channel has a dictionary of unbounded FIFOs, one per receiver;
- a rendezvous channel has two waiter registries, of senders and of receivers.

The channel and its endpoints are Dafny classes whose methods update their
fields in place. Each method is proved to perform exactly the transition that
a two-state predicate describes, and to keep the channel invariant `Valid`.
The invariant says:

- the counters equal the number of attached endpoints;
- each flag is set exactly when its counter is positive;
- the single-producer and single-consumer limits hold;
- a work-queue buffer stays within its capacity;
- the broadcast dictionary has exactly one mailbox per open receiver;
- the rendezvous events are consistent.

The modules are:

- `Values` (values, copy-on-send, outcomes);
- `Registry` (the FIFO registries and the loop that drains them);
- `Fanout` (the broadcast dictionary and its fan-out loop);
- `Channels` (the channel and endpoint classes, and `create`).

Each call is one step of the cooperative scheduler. Where the task would be
suspended (full or empty buffer, no rendezvous partner, waiting for an
endpoint), the operation returns `WouldBlock`. Tasks and events are numbers,
and the set of finished tasks is a parameter.

**The review tool** (`tools/review/review.py`). Its five SQLite tables are
values (`ReviewRules`, `ReviewTables`). Each command is a pure transition of
those tables (`ReviewSteps`): it either raises, and its write transaction
rolls the tables back, or it prints its result and leaves the tables after
its inserts and updates. The modules are:

- `ReviewInvariants` proves that every command keeps the schema's integrity
  constraints, as the predicate `Consistent`:
  - row ids;
  - `UNIQUE(issue, task)`;
  - the partial unique index on open reviews;
  - the foreign keys;
  - `UNIQUE(review_id, thread_no)`;
  - the token discipline, which implies the `UNIQUE` constraint on tokens.
- `ReviewProperties` proves what the commands promise their users.
- `ReviewDatabase` is the same database as a class with one field per table.
  Its command methods update the fields in place, and each is proved:
  - to return exactly what the transition returns;
  - to leave exactly the tables the transition leaves;
  - to keep `Consistent`.
- `Text` holds the string helpers: decimal digits, whitespace stripping and
  joining.

The current time is the parameter `now`.

## Model

| member | source | states |
|---|---|---|
| Values.Copy | src/klever/channel.py:165 | a copy keeps the payload and supports copying in turn, and it is a different object from the original (one more copy generation) |
| Values.CopyChain | src/klever/channel.py:212-213 | `n` copies taken one after the other keep the payload and are `n` generations away from the original |
| Values.PrepareForSend | src/klever/channel.py:162-165 | with `copy_on_send`, a value without `copy()` is refused with `TypeError` and any other value is replaced by its copy; without `copy_on_send` the value is passed on unchanged |
| Registry.FirstLive | src/klever/channel.py:250-254 | the position of the first registry entry whose task is not done: every entry before it belongs to a finished task |
| Registry.FirstLiveAt | src/klever/channel.py:250-254 | a live entry at `k`, preceded only by finished ones, is the position `FirstLive` finds |
| Registry.PopLive | src/klever/channel.py:250-254 | the drain of a registry finds nothing exactly when every entry belongs to a finished task, and what it finds belongs to a live one |
| Registry.PopLiveIsFifo | src/klever/channel.py:266-270 | draining hands out the earliest live entry, discards exactly the finished entries in front of it and keeps the rest in order; when nothing is live, everything is discarded |
| Registry.PopLiveSuffix | src/klever/channel.py:250-251 | what a drain leaves is a suffix of the registry, and what it hands out is one of its entries |
| Registry.Drain | src/klever/channel.py:266-270 | the popleft loop over a registry returns exactly the first live entry and the registry left after it |
| Fanout.Owners | src/klever/channel.py:191 | the keys of the receiver dictionary are exactly the owners of its mailboxes |
| Fanout.Attach | src/klever/channel.py:196 | registering a receiver keeps the existing mailboxes and adds an empty one for it at the end |
| Fanout.Detach | src/klever/channel.py:201 | popping a receiver removes one mailbox |
| Fanout.IndexOf | src/klever/channel.py:221 | the position of a receiver's mailbox: owned by it, and no earlier mailbox is |
| Fanout.IndexOfUnique | src/klever/channel.py:191 | in a dictionary with distinct keys, the mailbox a receiver owns is the one `IndexOf` finds |
| Fanout.AttachOwners | src/klever/channel.py:196 | registering a new receiver adds exactly its key and keeps the keys distinct |
| Fanout.DetachOwners | src/klever/channel.py:201 | popping a receiver removes exactly its key and one mailbox, and keeps the other keys distinct |
| Fanout.DetachKeepsOthers | src/klever/channel.py:201 | popping a receiver leaves every other receiver's mailbox, contents included, as it was |
| Fanout.DetachShape | src/klever/channel.py:201 | popping keeps the dictionary's order: mailboxes in front keep their positions and those behind move up one |
| Fanout.Delivered | src/klever/channel.py:211-213 | the item mailbox `k` receives carries the sent payload; without `copy_on_send` it is the sent object, with it a different object `k + 1` copy generations away |
| Fanout.FanOut | src/klever/channel.py:211-214 | one broadcast keeps the number of mailboxes; `FanOutAppendsOnce` states what each of them gains |
| Fanout.FanOutLoop | src/klever/channel.py:211-214 | the fan-out loop appends one value to every mailbox of the snapshot, reassigning the copy at each step, and yields exactly `FanOut` |
| Fanout.FanOutAppendsOnce | src/klever/channel.py:211-214 | a broadcast keeps the keys and their order and appends exactly one item, carrying the sent payload, to every mailbox |
| Fanout.FanOutChainsCopies | src/klever/channel.py:212-213 | with `copy_on_send`, mailbox `k` receives the copy of the copy given to mailbox `k - 1`, `k + 1` generations from the sent object |
| Fanout.SetItemsOwners | src/klever/channel.py:221 | taking an item from one mailbox keeps the dictionary's keys |
| Channels.SelectMode | src/klever/channel.py:526-531 | broadcast whenever asked, regardless of capacity; otherwise rendezvous exactly for capacity 0, a work queue for capacity at least 1, and `ValueError` for a negative capacity |
| Channels.SendKeepsEvents | src/klever/channel.py:246-253 | a rendezvous send keeps the events consistent: the event the sender waits on is new, and the event it sets belongs to a registry entry |
| Channels.TakeKeepsEvents | src/klever/channel.py:266-274 | a pass of the rendezvous receive loop keeps the events consistent |
| Channels.SendRetry | src/klever/channel.py:365-379 | the send-eventually loop never returns; it re-raises every error except `Disconnected`, and after `Disconnected` it waits for a receiver |
| Channels.ReceiveRetry | src/klever/channel.py:457-461 | the receive-eventually loop returns exactly a received value; it re-raises every error except `Disconnected`, and after `Disconnected` it waits for a sender |
| Channels.IterationOutcome | src/klever/channel.py:433-438 | iteration turns `Disconnected`, and only it, into the end of the iteration, and leaves every other outcome unchanged |
| Channels.Channel.constructor | src/klever/channel.py:69-85 | a new channel has no open endpoints, both flags cleared, an empty store of its class, and the given settings |
| Channels.Channel.AddSender | src/klever/channel.py:90-93 | one more open sender and the flag set; receivers and store unchanged; `Valid` kept |
| Channels.Channel.RemoveSender | src/klever/channel.py:100-104 | one open sender fewer, and the flag cleared exactly when none is left; `Valid` kept |
| Channels.Channel.AddReceiver | src/klever/channel.py:95-98 | one more open receiver and the flag set; in broadcast mode the receiver also gets a new empty mailbox at the end (line 193-196); `Valid` kept |
| Channels.Channel.CountReceiverIn | src/klever/channel.py:95-98 | the counting part of `add_receiver`: count and set of receivers up by the new one, flag set |
| Channels.Channel.RemoveReceiver | src/klever/channel.py:106-110 | one open receiver fewer, and the flag cleared exactly when none is left; in broadcast mode the receiver's mailbox is popped with its items (line 198-201); `Valid` kept |
| Channels.Channel.CountReceiverOut | src/klever/channel.py:106-110 | the counting part of `remove_receiver`: count and set of receivers down by the one removed, flag cleared exactly at zero |
| Channels.Channel.Send | src/klever/channel.py:128-131 | the send of the channel's class, as `Sent` describes |
| Channels.Channel.Receive | src/klever/channel.py:133-136 | the receive of the channel's class, as `Received` describes |
| Channels.Channel.QueueSend | src/klever/channel.py:160-170 | work-queue send: `TypeError` for an uncopyable value under `copy_on_send` first, then `Disconnected` without receivers, then the (copied) value put into the buffer or the task blocked when it is full |
| Channels.Channel.Put | src/klever/channel.py:170 | appends to the buffer when it is below capacity; otherwise the task blocks and nothing changes |
| Channels.Channel.QueueReceive | src/klever/channel.py:172-177 | work-queue receive: `Disconnected` as soon as no sender is open, even if items are buffered; otherwise a get |
| Channels.Channel.Get | src/klever/channel.py:177 | the oldest buffered item, removed from the buffer; the task blocks when the buffer is empty |
| Channels.Channel.BroadcastSend | src/klever/channel.py:203-214 | broadcast send: `TypeError` first, then `Disconnected`, then one item in every receiver's mailbox as `FanOut` says; `Valid` kept |
| Channels.Channel.BroadcastReceive | src/klever/channel.py:216-221 | broadcast receive: `Disconnected` as soon as no sender is open, even if the receiver's mailbox holds items; otherwise a get on its own mailbox |
| Channels.Channel.Take | src/klever/channel.py:221 | the oldest item of this receiver's mailbox, and only that mailbox changes; the task blocks when it is empty |
| Channels.Channel.RendezvousSend | src/klever/channel.py:235-257 | rendezvous send: `TypeError`, then `Disconnected`; otherwise two new events, the sender's entry appended with the second one, the first live waiting receiver woken, the done ones in front of it discarded; the task blocks on the first event, which nothing has set |
| Channels.Channel.ParkSender | src/klever/channel.py:246-257 | the writes of a rendezvous send past its checks, as listed for `RendezvousSend` |
| Channels.Channel.RendezvousReceive | src/klever/channel.py:259-264 | rendezvous receive: `Disconnected` when no sender is open, otherwise a pass of the receive loop |
| Channels.Channel.RendezvousTake | src/klever/channel.py:264-277 | the first live waiting sender is acknowledged and its value returned, the done ones in front of it discarded; with none, the receiver registers under a new wake-up event and blocks |
| Channels.Sender.Create | src/klever/channel.py:293-298 | with `only_single_producer` and a sender already open, `ValueError` and the channel unchanged (line 349-356); otherwise a fresh sender attached to the channel |
| Channels.Sender.Bind | src/klever/channel.py:289-291 | `_init` of the base class: the endpoint refers to the channel, before any attach step |
| Channels.Sender.IsClosed | src/klever/channel.py:315-318 | closed exactly when the endpoint no longer refers to a channel; an open one is among the channel's counted senders |
| Channels.Sender.SameChannel | src/klever/channel.py:320-324 | false once either endpoint is closed; an open endpoint shares its channel with itself |
| Channels.Sender.Clone | src/klever/channel.py:307-313 | `ValueError` on a closed endpoint, and always `ValueError` under `only_single_producer`; otherwise a new sender on the same channel, for which `SameChannel` holds both ways |
| Channels.Sender.DeriveReceiver | src/klever/channel.py:407-413 | `Closed` on a closed endpoint; otherwise what receiver creation does on the same channel |
| Channels.Sender.Send | src/klever/channel.py:358-363 | `Closed` on a closed endpoint; otherwise the channel's send |
| Channels.Sender.WaitForReceivers | src/klever/channel.py:381-393 | `Closed` on a closed endpoint; returns at once exactly while a receiver is open, otherwise the task waits |
| Channels.Sender.SendEventuallyStep | src/klever/channel.py:365-379 | one pass of the send-eventually loop: some `send` outcome steered by `SendRetry`, so the pass never returns |
| Channels.Sender.Close | src/klever/channel.py:395-405 | the first close detaches the sender and unbinds it; closing again changes nothing; afterwards it is closed and shares its channel with no sender |
| Channels.Receiver.Create | src/klever/channel.py:293-298 | with `only_single_consumer` and a receiver already open, `ValueError` and the channel unchanged (line 420-427); otherwise a fresh receiver attached to the channel |
| Channels.Receiver.Bind | src/klever/channel.py:289-291 | `_init` of the base class: the endpoint refers to the channel, before any attach step |
| Channels.Receiver.IsClosed | src/klever/channel.py:315-318 | closed exactly when the endpoint no longer refers to a channel; an open one is among the channel's counted receivers |
| Channels.Receiver.SameChannel | src/klever/channel.py:320-324 | false once either endpoint is closed; an open endpoint shares its channel with itself |
| Channels.Receiver.Clone | src/klever/channel.py:307-313 | `ValueError` on a closed endpoint, and always `ValueError` under `only_single_consumer`; otherwise a new receiver on the same channel, for which `SameChannel` holds both ways |
| Channels.Receiver.DeriveSender | src/klever/channel.py:486-492 | `Closed` on a closed endpoint; otherwise what sender creation does on the same channel |
| Channels.Receiver.Receive | src/klever/channel.py:440-445 | `Closed` on a closed endpoint; otherwise the channel's receive for this endpoint |
| Channels.Receiver.Next | src/klever/channel.py:433-438 | a receive whose `Disconnected` ends the iteration instead |
| Channels.Receiver.WaitForSenders | src/klever/channel.py:463-475 | `Closed` on a closed endpoint; returns at once exactly while a sender is open, otherwise the task waits |
| Channels.Receiver.ReceiveEventuallyStep | src/klever/channel.py:447-461 | one pass of the receive-eventually loop: some `receive` outcome steered by `ReceiveRetry` |
| Channels.Receiver.Close | src/klever/channel.py:477-484 | the first close detaches the receiver (dropping its broadcast mailbox) and unbinds it; closing again changes nothing; afterwards it is closed and shares its channel with no receiver |
| Channels.Create | src/klever/channel.py:495-533 | `ValueError` exactly for a negative capacity without broadcast; otherwise a fresh channel of the selected class with exactly one open sender and one open receiver, the settings passed through, and a single empty mailbox in broadcast mode |
| Text.NatToString | tools/review/review.py:359 | the decimal digits of a number: non-empty, digits only, no leading zero |
| Text.ParseNat | tools/review/review.py:359 | a value exactly for a non-empty string of digits |
| Text.ParseNatToString | tools/review/review.py:359 | reading back the decimal form of a number gives the number |
| Text.NatToStringInjective | tools/review/review.py:359 | different numbers have different decimal forms |
| Text.IntToStringInjective | tools/review/review.py:316 | different integers have different decimal forms, sign included |
| Text.SkipSpace | tools/review/review.py:322 | the position of the first non-whitespace character from `i`, or the end |
| Text.SkipSpaceBack | tools/review/review.py:322 | the position just after the last non-whitespace character before `hi`, or `lo` |
| Text.Strip | tools/review/review.py:322 | `str.strip()`: the infix left after an all-whitespace prefix and an all-whitespace suffix, which begins and ends with a non-whitespace character unless it is empty |
| Text.StripEmpty | tools/review/review.py:322-323 | the stripped text is empty exactly when the text is all whitespace |
| Text.StripIdempotent | tools/review/review.py:322 | stripping twice is stripping once |
| Text.Join | tools/review/review.py:322 | `sep.join(parts)`: empty for no parts and the part itself for a single one; what joining does to whitespace is `JoinSpacesBlank` |
| Text.JoinSpacesBlank | tools/review/review.py:322-323 | the joined text is all whitespace exactly when every part is |
| ReviewRules.ValidateNonNegative | tools/review/review.py:173-176 | refuses exactly the negative values, naming the argument |
| ReviewRules.NamePoolShape | tools/review/review.py:21-38 | the pool has 16 different names, none empty and none containing the token separator |
| ReviewRules.FirstUnused | tools/review/review.py:278-281 | the first pool position whose name is not in use, or the pool size |
| ReviewRules.SelectAvailableName | tools/review/review.py:274-281 | the first pool name, in pool order, that the review does not use; `None` exactly when all 16 are taken |
| ReviewRules.Token | tools/review/review.py:359 | the token `name-issue-task` starts with the name and a dash; `TokenRoundTrip` reads the three fields back |
| ReviewRules.ParseToken | tools/review/review.py:359 | reads a token back into its dash-free name and its two numbers |
| ReviewRules.TokenRoundTrip | tools/review/review.py:359 | a token `name-issue-task` of a dash-free name and non-negative numbers reads back as exactly those three fields |
| ReviewRules.TokenInjective | tools/review/review.py:359 | different (name, issue, task) triples give different tokens |
| ReviewRules.ParseComment | tools/review/review.py:320-325 | blank text is refused with `comment text is required` exactly when a comment is required, and is otherwise no comment; any other text is kept |
| ReviewRules.CommentIsStripped | tools/review/review.py:322-325 | the comment kept is the stripped join of the words: non-empty, and neither starting nor ending with whitespace |
| ReviewRules.ShowInt | tools/review/review.py:311-313 | a null column is printed as `-`, and only a null column |
| ReviewRules.ShowText | tools/review/review.py:312 | a null author is printed as `-`, any other as itself |
| ReviewRules.EventHead | tools/review/review.py:311-314 | the head fields of an event line begin with the event type and the thread label, and a null thread number prints `-` |
| ReviewRules.FormatEvent | tools/review/review.py:309-317 | the event line starts with the head fields; a resolution's line continues with ` with_comment:` and the flag, and any other line is the head alone |
| ReviewRules.FormatEventWithComment | tools/review/review.py:315-316 | only a resolution's line shows `with_comment`: other events print the same for any value, and a resolution prints different values differently |
| ReviewRules.RenderThread | tools/review/review.py:555-574 | the thread heading, then each comment's heading and body in order with one blank line between comments and none after the last |
| ReviewTables.Find | tools/review/review.py:179-199 | `fetchone`: the first row satisfying the `WHERE`, or none exactly when no row does |
| ReviewTables.Filter | tools/review/review.py:276 | `fetchall`: exactly the rows satisfying the `WHERE` |
| ReviewTables.FilterAscending | tools/review/review.py:645-652 | filtering keeps id order: rows in ascending order stay ascending |
| ReviewTables.FindReview | tools/review/review.py:179-181 | the row of (issue, task), or none exactly when there is no such row |
| ReviewTables.FindOpenReview | tools/review/review.py:293 | an open review of the issue, or none exactly when the issue has none |
| ReviewTables.FindReviewById | tools/review/review.py:184-186 | the review row with the id, or none exactly when no row has it |
| ReviewTables.FindParticipant | tools/review/review.py:189-191 | the participant holding the token, or none exactly when no row holds it |
| ReviewTables.FindParticipantUnique | tools/review/review.py:107 | with distinct tokens, a participant's token finds that participant |
| ReviewTables.FindThread | tools/review/review.py:194-199 | the thread numbered `number` in the review, or none exactly when there is none |
| ReviewTables.UsedNames | tools/review/review.py:276-277 | exactly the names the review's participants hold |
| ReviewTables.MaxThreadNo | tools/review/review.py:404-407 | `COALESCE(MAX(thread_no), -1)`: the review's largest thread number, or -1 without threads |
| ReviewTables.NextThreadNo | tools/review/review.py:404-408 | the new thread's number: 0 for the first thread, otherwise one past a number in use and above all of them |
| ReviewTables.MaxEventId | tools/review/review.py:360-363 | `COALESCE(MAX(id), 0)`: the review's latest event id, or 0 without events |
| ReviewTables.CountCommentsAppend | tools/review/review.py:220-223 | a comment insert raises its own thread's count by one and no other |
| ReviewTables.CountOpenThreads | tools/review/review.py:520-524 | the count is zero exactly when no thread of the review is open |
| ReviewTables.ThreadIds | tools/review/review.py:226-237 | exactly the ids of the review's threads, over which comments are joined |
| ReviewTables.NewEvents | tools/review/review.py:645-652 | exactly the review's events past the cursor |
| ReviewTables.TokensUnique | tools/review/review.py:107 | the `UNIQUE` constraint on tokens follows from the token format: no two participants ever share a token |
| ReviewTables.EnrolledTokensDiffer | tools/review/review.py:359 | participants that differ in review or in name hold different tokens |
| ReviewTables.EventsAscending | tools/review/review.py:145-147 | with `AUTOINCREMENT` ids, the event log is in ascending id order |
| ReviewSteps.Refuse | tools/review/review.py:160-170 | a raising command: the error, and the tables rolled back |
| ReviewSteps.LookupReview | tools/review/review.py:284-295 | the open review of (issue, task); `review is already closed` for a closed one; `review does not exist` exactly when it is missing and creation is not allowed; `already has an active review for task …`, naming that task, exactly when it is missing and another task of the issue is open; otherwise an insert |
| ReviewSteps.AddReview | tools/review/review.py:296-299 | the insert appends one open review with the next id and changes no other table |
| ReviewSteps.EnsureReview | tools/review/review.py:284-306 | on success, the position of an open review of (issue, task); the tables are unchanged or gain exactly that insert; a refusal rolls back |
| ReviewSteps.CreateStep | tools/review/review.py:328-347 | succeeds exactly for non-negative numbers whose review is open or can be inserted; a refusal rolls back |
| ReviewSteps.JoinStep | tools/review/review.py:350-384 | a successful join adds exactly one participant; a refusal rolls back everything, including a review inserted on the way |
| ReviewSteps.Enroll | tools/review/review.py:356-373 | refused with `name pool exhausted` exactly when all 16 names are in use in the review; otherwise one participant is added |
| ReviewSteps.NewParticipant | tools/review/review.py:359-370 | the inserted participant row: the review's id, the chosen name and role, and the token built from the name and the review's issue and task |
| ReviewSteps.CommentText | tools/review/review.py:389-393 | the comment text accepted by `parse_comment` with `required`, refused when blank; a text is returned only with no thread number or a non-negative one |
| ReviewSteps.StartThread | tools/review/review.py:401-403 | a reviewee is refused, and only a reviewee |
| ReviewSteps.Reply | tools/review/review.py:437-460 | `thread does not exist` exactly when the review has no such thread; `thread is resolved` for a resolved one; a reply leaves the threads table as it was |
| ReviewSteps.CommentStep | tools/review/review.py:387-461 | `invalid token` exactly for valid words with an unknown token; success needs valid text, a known token and, to open a thread, a reviewer; a refusal rolls back |
| ReviewSteps.ResolveRefusal | tools/review/review.py:464-481 | a refused resolve rolls back, and it names a negative thread number exactly when the number is negative |
| ReviewSteps.ResolveShape | tools/review/review.py:464-505 | a permitted resolve passed every check: a known token, an open review, an existing open thread opened by this token; its writes are `ResolveThread`'s |
| ReviewSteps.ResolveBy | tools/review/review.py:472-481 | the review and thread checks of a resolve: a refusal rolls back |
| ReviewSteps.ResolveStep | tools/review/review.py:464-506 | `cmd_resolve`: a negative thread number is refused first, then an unknown token, each with the tables rolled back; the other branches are stated by `ResolveRefusal`, `ResolveShape` and `ReviewProperties.Resolved` |
| ReviewSteps.ResolveThread | tools/review/review.py:482-505 | the writes of a permitted resolution always succeed |
| ReviewSteps.CloseStep | tools/review/review.py:509-525 | `invalid token` exactly for an unknown token; a refusal rolls back |
| ReviewSteps.CloseReview | tools/review/review.py:526-552 | the writes of a permitted close always succeed |
| ReviewSteps.PollStep | tools/review/review.py:642-664 | a refusal, or a pass that finds no event, leaves the tables as they were |
| ReviewSteps.WaitStep | tools/review/review.py:633-640 | `invalid token` exactly for an unknown token; a refusal leaves the tables as they were |
| ReviewInvariants.ReviewAtId | tools/review/review.py:91 | under `AUTOINCREMENT` ids, review `id` exists exactly for ids 1 to the row count and sits at position `id - 1` |
| ReviewInvariants.AppendParticipant | tools/review/review.py:364-370 | inserting a participant with the next id and its review's token, under a pool name unused in that review, keeps the tables consistent |
| ReviewInvariants.SetCursor | tools/review/review.py:655-658 | moving a participant's event cursor keeps the tables consistent |
| ReviewInvariants.AppendThread | tools/review/review.py:409-415 | inserting a thread into an existing review, with the next id and a number unused in that review, keeps the tables consistent |
| ReviewInvariants.AppendComment | tools/review/review.py:419-425 | inserting a comment with the next id into an existing thread keeps the tables consistent |
| ReviewInvariants.AppendEvent | tools/review/review.py:251-271 | appending an event with the next id to an existing review's log keeps the tables consistent |
| ReviewInvariants.MarkResolved | tools/review/review.py:491-494 | marking a thread resolved keeps the tables consistent |
| ReviewInvariants.MarkClosed | tools/review/review.py:526-529 | marking a review closed keeps the tables consistent |
| ReviewInvariants.AddReviewPreserves | tools/review/review.py:296-299 | the review insert keeps the unique constraints when (issue, task) is new and the issue has no open review |
| ReviewInvariants.EnsurePreserves | tools/review/review.py:284-306 | `ensure_review` keeps the tables consistent |
| ReviewInvariants.CreatePreserves | tools/review/review.py:328-347 | `create` keeps the tables consistent |
| ReviewInvariants.EnrollPreserves | tools/review/review.py:356-370 | the participant insert of `join` keeps the tables consistent |
| ReviewInvariants.JoinPreserves | tools/review/review.py:350-384 | `join` keeps the tables consistent |
| ReviewInvariants.ParticipantReview | tools/review/review.py:395-398 | a participant's token finds that participant, and its review sits at position `review_id - 1` |
| ReviewInvariants.StartThreadPreserves | tools/review/review.py:401-436 | opening a thread keeps the tables consistent |
| ReviewInvariants.ReplyPreserves | tools/review/review.py:437-460 | a reply keeps the tables consistent |
| ReviewInvariants.CommentPreserves | tools/review/review.py:387-461 | `comment` keeps the tables consistent |
| ReviewInvariants.ResolveThreadPreserves | tools/review/review.py:482-505 | the writes of a resolution keep the tables consistent |
| ReviewInvariants.ResolvePreserves | tools/review/review.py:464-506 | `resolve` keeps the tables consistent |
| ReviewInvariants.CloseReviewPreserves | tools/review/review.py:526-539 | the writes of a close keep the tables consistent |
| ReviewInvariants.ClosePreserves | tools/review/review.py:509-552 | `close` keeps the tables consistent |
| ReviewInvariants.PollPreserves | tools/review/review.py:642-664 | a pass of the wait loop keeps the tables consistent |
| ReviewInvariants.WaitPreserves | tools/review/review.py:633-664 | `wait` keeps the tables consistent |
| ReviewProperties.FindReviewAt | tools/review/review.py:97 | with `UNIQUE(issue, task)`, looking a pair up finds the row holding it |
| ReviewProperties.CreateOpenIsNoop | tools/review/review.py:333-336 | `create` on an open review succeeds and changes nothing |
| ReviewProperties.CreateIdempotent | tools/review/review.py:328-347 | repeating a successful `create` succeeds and changes nothing |
| ReviewProperties.ClosedReviewNotReopened | tools/review/review.py:287-289 | a closed (issue, task) is refused by `create` and by `join`, with `review is already closed`, and nothing changes |
| ReviewProperties.SecondTaskRefused | tools/review/review.py:291-295 | while an issue has an open review, creating a review for another task of it is refused, naming the open task; joining a missing review without `--create` is refused with `review does not exist` |
| ReviewProperties.NothingPastMaxEvent | tools/review/review.py:360-363 | no event of a review lies past its latest event id |
| ReviewProperties.EnrollRegisters | tools/review/review.py:356-373 | a join appends one participant: the first pool name unused in the review, the token `name-issue-task`, the requested role, and a cursor at the review's latest event; it prints that token and the thread, reviewer and reviewee counts after the insert, in which the requested role has one member more |
| ReviewProperties.JoinRegisters | tools/review/review.py:350-370 | a successful join enrolls into the open review of (issue, task), inserted first when asked and allowed |
| ReviewProperties.JoinPoolExhausted | tools/review/review.py:357-358 | with all 16 names in use, `join` is refused with `name pool exhausted` and changes nothing |
| ReviewProperties.PollAtEnd | tools/review/review.py:645-665 | a participant of an open review whose cursor is at the latest event polls nothing, and nothing changes |
| ReviewProperties.EnrollCursorAtEnd | tools/review/review.py:360-369 | right after enrolling in an open review, the new participant's poll returns no events |
| ReviewProperties.JoinCursorAtEnd | tools/review/review.py:360-369 | right after a join, a poll with the new token returns no events |
| ReviewProperties.StartThreadFacts | tools/review/review.py:404-436 | a reviewer's new thread gets number `NextThreadNo`, holds exactly one comment, and logs `thread_created` with count 1 |
| ReviewProperties.NewThread | tools/review/review.py:401-436 | `comment` without a thread number opens a thread only for a reviewer; it is numbered one past the review's largest (0 for the first), holds one comment, and logs `thread_created` with count 1 |
| ReviewProperties.NewReply | tools/review/review.py:437-460 | a reply goes into an existing open thread of the token's review; the thread's comment count rises by one, and the count is reported and logged in a `comment` event |
| ReviewProperties.Resolved | tools/review/review.py:464-506 | a resolution is by the thread's author, of an open thread; the thread becomes resolved; the count includes the closing comment if there is one; the event's `with_comment` is 1 exactly when a non-blank comment was given |
| ReviewProperties.CloseShape | tools/review/review.py:509-525 | a permitted close is by a reviewer, of an open review with no open thread; its writes are `CloseReview`'s |
| ReviewProperties.Closed | tools/review/review.py:509-552 | exactly that review becomes closed, a `review_closed` event without thread or count is logged, and the summary gives the review's issue and task and its thread, comment, reviewer and reviewee counts |
| ReviewProperties.ClosedRefusesToken | tools/review/review.py:399-400 | with the participant's review closed, `comment`, `resolve`, `close` and `wait` with its token are refused |
| ReviewProperties.ClosedReviewRefuses | tools/review/review.py:473-474 | once its review is closed, every command with a participant's token is refused and changes nothing |
| ReviewProperties.CloseIsFinal | tools/review/review.py:518-519 | right after a successful close, closing again and waiting are refused with `review is closed` |
| ReviewProperties.NewEventsAscending | tools/review/review.py:649 | the events past a cursor come in increasing id order |
| ReviewProperties.NothingPastDelivered | tools/review/review.py:655-658 | no event of the review lies past the last one delivered |
| ReviewProperties.PollShape | tools/review/review.py:642-664 | the branches of one pass: events delivered and the cursor moved to the last, or `review is closed`, or nothing |
| ReviewProperties.PollDelivers | tools/review/review.py:642-664 | one pass with a valid token delivers every event of the review past the cursor, in id order, and moves the cursor to the last of them; with none, it changes nothing and refuses exactly when the review is closed |
| ReviewProperties.PollDrains | tools/review/review.py:653-661 | after a pass that delivered events, the next pass with the same token delivers none |
| ReviewDatabase.Database.Snapshot | tools/review/review.py:86-157 | the five tables as a value |
| ReviewDatabase.Database.constructor | tools/review/review.py:86-157 | `init_db` on a new file: five empty tables |
| ReviewDatabase.Database.Rollback | tools/review/review.py:166-168 | the tables go back to those saved when the transaction began |
| ReviewDatabase.Database.EnsureOpenReview | tools/review/review.py:284-306 | the statements of `ensure_review` return and write exactly what `EnsureReview` says |
| ReviewDatabase.Database.Create | tools/review/review.py:328-347 | `cmd_create` in place: result and tables exactly `CreateStep`'s, consistency kept |
| ReviewDatabase.Database.CreateRows | tools/review/review.py:332-346 | the statements of `cmd_create` write exactly what `CreateStep` says |
| ReviewDatabase.Database.Join | tools/review/review.py:350-384 | `cmd_join` in place: result and tables exactly `JoinStep`'s, with the whole transaction rolled back on an exhausted pool; consistency kept |
| ReviewDatabase.Database.EnrollRows | tools/review/review.py:356-373 | the participant insert of `cmd_join` writes exactly what `Enroll` says |
| ReviewDatabase.Database.StartThreadRows | tools/review/review.py:401-436 | the inserts of a new thread write exactly what `StartThread` says |
| ReviewDatabase.Database.ReplyRows | tools/review/review.py:437-460 | the inserts of a reply write exactly what `Reply` says |
| ReviewDatabase.Database.AddComment | tools/review/review.py:387-461 | `cmd_comment` in place: result and tables exactly `CommentStep`'s, consistency kept |
| ReviewDatabase.Database.ResolveThreadRows | tools/review/review.py:482-505 | the writes of a resolution are exactly `ResolveThread`'s |
| ReviewDatabase.Database.Resolve | tools/review/review.py:464-506 | `cmd_resolve` in place: result and tables exactly `ResolveStep`'s, consistency kept |
| ReviewDatabase.Database.CloseReviewRows | tools/review/review.py:526-543 | the writes and counts of a close are exactly `CloseReview`'s |
| ReviewDatabase.Database.Close | tools/review/review.py:509-552 | `cmd_close` in place: result and tables exactly `CloseStep`'s, consistency kept |
| ReviewDatabase.Database.PollRows | tools/review/review.py:642-664 | the reads and cursor update of one pass are exactly `PollStep`'s |
| ReviewDatabase.Database.Poll | tools/review/review.py:642-664 | one pass of the wait loop in place: result and tables exactly `PollStep`'s, consistency kept |
| ReviewDatabase.Database.Wait | tools/review/review.py:633-664 | `cmd_wait` up to its first pass, in place: result and tables exactly `WaitStep`'s, consistency kept |

## Divergences between the documented intent and the code

The model follows the code as written in each case.

- **Rendezvous senders wait on the wrong event.** `send` creates `event`
  (channel.py:246). It registers a second, different `Event()` in its entry
  (247) and then waits on the first (257). A receiver sets only the entry's
  event (269), so nothing ever sets the event the sender waits on.
  `Channels.Channel.RendezvousSend` states this: the event it blocks on is
  in `parked`, and `Valid` keeps `parked` disjoint from the set events.
- **Broadcast copies are chained.** The fan-out loop assigns each copy back
  to `value` (212-213). With `copy_on_send`, the second mailbox therefore
  receives a copy of the first mailbox's copy, not a copy of the sent
  object. See `Fanout.FanOutChainsCopies`.
- **`send_eventually` never returns.** A successful `send` does not leave the
  `while True` loop (375-379). `Channels.SendRetry` never yields `Return`.
- **Receiving checks for senders before the buffer.** Work-queue and
  broadcast `receive` raise `DisconnectedError` once no sender is open, even
  while items are still buffered (174-177, 218-221). See
  `Channels.Channel.QueueReceive` and `Channels.Channel.BroadcastReceive`.
- **The single-producer and single-consumer limits hold at each moment.**
  Endpoint creation checks only whether an endpoint of that kind is open
  right now (351, 422). After the only sender closes, a new one may be
  derived. See the `Create` and `Derive*` methods.
- **`wait` on a closed review.** The pre-check of `cmd_wait` (635-640)
  refuses a closed review even when the participant still has unread
  events. The loop itself (642-664) would deliver those events before
  noticing the status. See `ReviewSteps.WaitStep` and
  `ReviewProperties.PollDelivers`.

## Left out

- The cocotb scheduler, `Lock`, `Event.wait` and `Queue` blocking are not
  modelled. A step that would suspend returns `WouldBlock`, and the resumed
  task is modelled by calling `Put`, `Get`, `Take` or `RendezvousTake` again.
  Concurrency and interleaving between tasks are not modelled.
- Task identities and `Task.done()` are numbers and a set parameter.
  `Event` objects are numbers, and an event being set is membership in
  `fired`.
- The `SupportsCopy` protocol is a flag on the value. `copy()` is a
  generation counter, so object identity is modelled only as "a copy is a
  different object".
- `__repr__` of channels and endpoints is left out: it is debugging output
  based on object addresses.
- `_Endpoint.__new__` (channel.py:286-287) refuses direct instantiation. Dafny
  has no such hook, so `Bind` constructs endpoints, and only `Create` calls it.
- `__aenter__` and `__aexit__` are left out. Leaving the context calls
  `close`, which `Close` models.
- The abstract `_Endpoint.close` and the property accessors (`capacity`,
  `copy_on_send`, …) are plain fields.
- `api.py` and `types.py` are not part of this model.
- SQLite itself is not modelled: SQL parsing, `PRAGMA`s, indexes used only
  for speed, `created_at`, `closed_at` and `resolved_at`. Of the schema,
  only the constraints the commands rely on are modelled, as `Consistent`.
  The timestamp of a comment is the parameter `now`.
- `write_transaction` is modelled only through its effect. A raising
  command leaves the tables as they were. Locking between processes is left
  out.
- Writes by other processes between two passes of `cmd_wait` are left out.
  Only one pass of its loop is modelled.
- The 0.5 s sleep of `cmd_wait` and its unbounded repetition are left out.
  `PollStep` is one pass.
- `argparse`, `main`, `connect`, standard output and standard error are left
  out. Each printed value is a result (`JoinSummary`, `CloseSummary`, a
  comment count, the polled events). Each error message is a `ReviewError`
  constructor.
- `cmd_view` and `cmd_list` are left out: they only read and print. The
  thread rendering `cmd_view` uses is modelled as `RenderThread`.
- The `failed to create review`, `failed to load review` and
  `failed to create thread` branches (review.py:301-305, 417-418) are left
  out. They cannot be reached after a successful insert.
- The fetch and count helpers and `add_event` (review.py:179-271) are not
  separate operations. They are the lookups and aggregates of `ReviewTables`,
  used inside the transitions.
- ReviewRules.EventHead: its contract states the event type, the thread
  label and the `-` for a null thread number. The author and count fields
  that follow are given only by its definition; `ShowInt` and `ShowText`
  state their `-` placeholders.
