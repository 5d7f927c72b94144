# Verification model of thinwire

thinwire is a desktop messenger: one core, protocol adapters behind a command and event
channel, and a thin frontend. This project is a Dafny model of the parts of it in which
several pieces of state must agree, with proofs of what its comments and tests promise.
`dafny verify dfyconfig.toml` checks the whole project.

Each component has a specification, functions over values with the branches, limits and
error paths of the source. Where the source changes state in place, a class with the
source's fields and loops is proved equal to that specification. Theorems about runs are
about a state machine whose step is one call of the UI thread, one section under a lock,
one atomic access, or one call into the OS that may succeed or fail.

| files | what they model |
|---|---|
| `commands.dfy`, `notify.dfy` | the notification rules, the pending notifications and the bounded queue of the core |
| `message_rules.dfy`, `sync_runs.dfy` | exactly when a message notifies and what it reads, and when a sync takes a notification away |
| `inbox.dfy`, `inbox_order.dfy`, `worker.dfy`, `worker_runs.dfy` | the merging inbox, the retry policy and the worker of the notifier, and every run of it |
| `pipeline.dfy`, `pipeline_promises.dfy` | all of these and an OS screen with one notification of each chat, as one machine |
| `queue_counts.dfy`, `inbox_limits.dfy`, `hide_limits.dfy`, `limits.dfy`, `hide_runs.dfy` | what the two limits keep: when the queue stays bounded, and when "Hide message text" reaches the screen |
| `id_book.dfy`, `id_limits.dfy`, `xdg.dfy`, `xdg_promises.dfy` | the server ids of the freedesktop backend and the backend's commands |
| `xdg_screen.dfy`, `xdg_shown.dfy` | what the freedesktop server shows for a chat after each command, and which one a limit closes |
| `hide_forms.dfy`, `desktop.dfy`, `desktop_hide.dfy` | the pipeline with the freedesktop backend as one machine, and "Hide message text" from the core to the server |
| `secrets.dfy`, `secret_flush.dfy`, `secret_sync.dfy` | the secret store, its attach and flush workers, and its dirty tracking |
| `sends.dfy`, `send_runs.dfy` | the sends in flight, late answers, and the order of one pump |
| `contract.dfy`, `fake.dfy` | the checker of adapter event streams, and the fake adapter it judges |
| `held.dfy`, `held_rules.dfy` | live forum messages that wait for their topic row |
| `frame.dfy` | the line reader of the helper pipe |
| `persist.dfy`, `mutes.dfy`, `mute_lines.dfy`, `toml.dfy`, `accounts.dfy`, `key_text.dfy` | overlapping file writes, the mute file, string values of the settings, account keys |
| `show.dfy` | the handshake between the show listener and the window |

## Environment

- The screen of the pipeline is that of a backend which knows a notification by its chat
  (`tagged.rs`, for Windows and macOS): a show replaces the notification of its chat, and an
  update changes only one that shows. Results about text on that screen hold on the freedesktop
  backend for a chat of which no call leaves an older notification (`RunsAsOneExactly`,
  `ShowsPendingText`, `HiddenTextLeavesServer`). Which chats show at all holds there in every
  run (`OnlyPendingChatsAreOpen`).
- The notification server (section 9 of the Desktop Notifications Specification) answers a
  `Notify` with the replaced id, open or closed, or with an id that is not open and in no
  collection of the backend. This is what `ReplyOk` in `xdg.dfy` asks of it; the source
  relies on it silently.
- A click waiter may end between any two commands of the backend. Nothing is assumed about
  the server then: its id can be closed, shown again, or open because a click did not close it.
- One attach worker of a secret store runs at a time.
- The clock of held notices does not go back. The send tracker makes no
  such assumption: its elapsed times saturate at zero, as in the source.
- Counters (requests, epochs, notification counts, failures) are natural numbers.

## Where the code does less than its comments say

- The core queue is bounded for content only. Dismisses are never dropped and a chat can be
  dismissed again and again, so a frontend that does not take the commands lets the queue
  grow without bound (`QueueGrowsWithoutBound`). It stays within its limit exactly as long as
  at most 64 chats left since the frontend last took the commands (`QueueBoundExactly`). That
  there is at most one dismiss for each pending chat does not hold either.
- Switching the preview off queues an update for each shown chat, and over the limit the queue
  drops the oldest show or update, so text stays on the screen. This takes no odd state: 65
  shown chats are enough (`ManyChatsHideExactly`), as are one shown chat and 64 dismisses
  (`HiddenTextCanSurvive`). For shown chats with nothing waiting the exact condition is that
  the chats with text and the dismisses fit in the core queue, and again in the inbox
  (`HideReachesScreenExactly`). A text that waits as a show counts too, because the loop can
  push it out and must then queue it again (`QueuedShowsCountToo`). Where such shows and older
  hidden content wait together, the order of the chats decides (`OrderDecides`,
  `HidesInOrderExactly`).
- A chat that is shown while 16 click waiters run has none, and its next show opens a second
  notification beside it, as thinwire's README says. But "Hide message text" is to take all text
  away, and it rewrites a show that waits instead of queueing an update. That show opens the
  second notification, and the older one keeps its text, with every call working and nothing
  dropped (`OldTextSurvivesHide`). All text of a chat goes exactly when its hidden content leaves
  as an update, which is when no first show of it waits, or it has no open unwatched notification
  with text (`HideOnServerExactly`, `HiddenFormExactly`; `HideLeavesOnServer` with failed closes).
  For the same reason an update that joins a show in the inbox does not do there what the two
  commands do (`JoinedUpdateLeavesText`).
- The store becomes ready before the attach worker stores the Discord token and the Slack
  keys that it read. A set and its flush that fall in between are undone in memory by the
  older reading and are not dirty any more (`OldReadingCanUndoSet`). The store of a reading is
  safe exactly when the key is dirty, no flush took it since the read, or the reading has
  nothing for it or what memory has (`SlackStoreIsSafeExactly`, `TokenStoreIsSafeExactly`).
  The Telegram keys are merged in the step that makes the store ready and do not have this gap.
- A click waiter that ends takes its id out of the book without looking at the server. When
  the server honours a replaced id that it had closed, and the waiter of the closed one ends
  after that, the notification stays open and no dismiss finds it (`ReopenedIdIsStranded`).
  A waiter that ends while its id is open and a failed close of an evicted id are the only ways
  an open id is lost (`OpenIdIsHeldExactly`, `StrandedExactly`, `LeakedExactly`).
- The order list of the unwatched ids is said to stay small. An id whose close failed goes back
  with one more entry, and compaction keeps every entry of an id that is in the book, so a close
  that keeps failing lets the list grow without bound (`OrderGrowsWithoutBound`).

## Model

| member | source | states |
|---|---|---|
| PipelinePromises.OnlyPendingChatsStay | crates/thinwire-core/src/notify.rs:366-436 | every run on a backend with one notification of each chat: once the running command, the inbox and the core queue have run, only pending chats are on the screen, each with its pending text; the exceptions are dismisses given up after their tries and text that a limit or the OS refused |
| PipelinePromises.NoDismissIsLost | crates/thinwire-notify/src/pipe.rs:94-100 | every run: a chat on the screen that is no longer pending has a dismiss as its newest command anywhere in the pipeline, or its dismiss was given up |
| PipelinePromises.ClosedAndDrainedIsEmpty | crates/thinwire-core/src/notify.rs:415-418 | every run: once the app closed and everything drained, the screen is empty but for dismisses that were given up |
| PipelinePromises.CloseIsFinal | crates/thinwire-core/src/notify.rs:226-235 | every run: after close, whatever comes, no chat is pending and the core queues dismisses only |
| PipelinePromises.StepIsCall | crates/thinwire-core/src/notify.rs:226-423 | each step of the pipeline does to the core what the call of the class does |
| PipelinePromises.HiddenTextReachesTheScreen | crates/thinwire-core/src/notify.rs:305-335 | every run on a backend with one notification of each chat: after the preview is switched off and while messages come with it off, each chat ends with hidden text, now and later, but for chats whose newest command a limit or the OS refused |
| Desktops.OnlyPendingChatsAreOpen | crates/thinwire-notify/src/lib.rs:176-225 | every run on the freedesktop backend, with any answers of the server, closes and waiter ends: a chat with an open notification that is not lost is pending, or its newest command is a dismiss, or its dismiss was given up |
| Desktops.ShowsPendingText | crates/thinwire-notify/src/xdg.rs:258-281 | every run on the freedesktop backend: a chat of which no call left an older notification shows its pending text once nothing of it waits, with the exceptions of the pipeline |
| Desktops.HiddenTextLeavesServer | crates/thinwire-core/src/notify.rs:305-335 | every run on the freedesktop backend: after the preview is switched off and while messages come with it off, such a chat shows no text once nothing of it waits |
| Desktops.ExecOk | crates/thinwire-notify/src/xdg.rs:384-420 | core, inbox, running call, id book and server as one machine: each keeps its invariant in every run, and a chat with an id in the book is one that the pipeline takes to be on the screen |
| DesktopHides.HideOnServerExactly | crates/thinwire-notify/src/xdg.rs:232-281 | hide, delivery and the run of what waits on the freedesktop backend, with any closes and waiter ends between: for a chat with nothing dropped or refused and no text that is lost, pushed out or fails to close, all its text is off the screen once its hidden content ran if and only if no first show of it waited at the hide, so that the content left as an update, or it had no open unwatched notification with text |
| DesktopHides.HideLeavesOnServer | crates/thinwire-notify/src/xdg.rs:232-281 | the same without the conditions on its texts: exactly which open notifications keep their text |
| DesktopHides.TextStaysOff | crates/thinwire-notify/src/xdg.rs:384-420 | after the last command of a chat no step brings text of it back, whatever the server does |
| DesktopHides.OldTextSurvivesHide | crates/thinwire-core/src/notify.rs:317-327 | a run from the start with every call working and nothing dropped: 16 chats are shown with click waiters and one without, a show of that one waits when the preview goes off, and in the end its older notification is open with its text and nothing of the chat waits |
| HideForms.HiddenFormExactly | crates/thinwire-core/src/notify.rs:305-335 | for a chat with text of which nothing is dropped, its hidden content is its newest command after hide and delivery, and it is a show if and only if a show waited in the core queue, or in the inbox with no dismiss queued after it |
| HideForms.DeliveryForm | crates/thinwire-notify/src/pipe.rs:37-88 | a delivery that drops nothing of a chat leaves a show of it in the inbox if and only if the delivery has one, or one waited and the delivery does not dismiss the chat |
| Pipelines.ExecOk | crates/thinwire-notify/src/lib.rs:176-225 | the invariant that ties pending chats, core queue, inbox, running call and screen holds after every sequence of UI calls, deliveries, worker steps and OS results |
| HideLimits.HideReachesScreenExactly | crates/thinwire-core/src/notify.rs:305-335 | the loop over all pending chats, the next delivery and everything that then runs: where each chat with text is on the screen with no command waiting, all text goes off the screen if and only if the chats with text and the dismisses together are at most 64, in the core queue and again in the inbox |
| HideLimits.HideDropsNothingExactly | crates/thinwire-core/src/notify.rs:305-335 | for every queue and every order of the chats: the loop drops no command if and only if the queue and the chats with text but no queued content together are at most 64, or there is no such chat |
| HideLimits.AllHidesQueuedExactly | crates/thinwire-core/src/notify.rs:317-333 | after the loop every chat with text has its hidden content in the queue if and only if the queued dismisses and the chats with text are at most 64; for queues without content hidden before, or without a text that waits as a show |
| HideLimits.HiddenContentFits | crates/thinwire-core/src/notify.rs:428-440 | the bound is necessary for every queue and every order |
| HideLimits.RoomyHideReachesScreen | crates/thinwire-core/src/notify.rs:305-335 | in every state on a backend with one notification of each chat, whatever waits or runs: with room for the new commands in 64 the hide and its delivery lose nothing more, and the screen ends without text but for chats that were stale or given up before |
| HideLimits.HidesInOrderExactly | crates/thinwire-core/src/notify.rs:317-344 | for every queue and every order of the chats: each chat with text keeps its hidden content in the queue if and only if no iteration of the loop drops a chat that the loop has already hidden |
| HideRuns.OrderDecides | crates/thinwire-core/src/notify.rs:337-344 | a queue outside those two kinds that loses content in one order of the chats and not in the other, so no condition on the queue alone is exact there |
| HideRuns.QueuedShowsCountToo | crates/thinwire-core/src/notify.rs:428-440 | a queue in which the dismisses and the chats that need an update are 64 and the loop still drops the update of a shown chat: queued shows with text count as well |
| HideRuns.ManyChatsHideExactly | crates/thinwire-core/src/notify.rs:305-335 | the run from the start that shows n chats and switches the preview off ends without text on the screen if and only if n is at most 64 |
| InboxLimits.DeliveryKeepsExactly | crates/thinwire-notify/src/pipe.rs:73-87 | for every inbox and every delivery: the content that comes last in the delivery, of chats with none in the inbox, all survives if and only if it and the distinct dismisses of inbox and delivery together are at most 64 |
| QueueLimits.HideOneReachesExactly | crates/thinwire-core/src/notify.rs:317-333 | one iteration of the loop, whatever waits in the inbox: the text of a chat with nothing in the core queue goes off the screen if and only if fewer than 64 dismisses wait in that queue |
| HideRuns.HiddenTextCanSurvive | crates/thinwire-core/src/notify.rs:305-335 | a run from the start, with every OS call working, after which the text of the one shown chat is still on the screen although the preview was switched off and the commands were delivered |
| QueueLimits.QueueBoundExactly | crates/thinwire-core/src/notify.rs:20-22 | every run: the core queue is within its limit if and only if, since the frontend last took the commands, chats stopped being pending at most 64 times |
| QueueLimits.QueueWithinLimitExactly | crates/thinwire-core/src/notify.rs:428-440 | a queue that agrees with the pending chats is within the limit if and only if its dismisses are |
| QueueLimits.PushWithinLimitExactly | crates/thinwire-core/src/notify.rs:428-440 | the same for one push onto any queue, and the push changes the number of dismisses by its own alone |
| QueueLimits.StepCounts | crates/thinwire-core/src/notify.rs:366-373 | each call but the delivery adds one dismiss for each chat that stops being pending, and no other |
| QueueLimits.QueueGrowsWithoutBound | crates/thinwire-core/src/notify.rs:428-440 | for every n a run that leaves n commands in the core queue: the limit bounds content, not dismisses |
| Notify.Notifications.MessageArrived | crates/thinwire-core/src/notify.rs:226-300 | the new state is the pending notification with its count raised and the newest show queued in place of older content, and nothing when a rule skips the message; queue and pending still agree |
| MessageRules.NotifiesExactly | crates/thinwire-core/src/notify.rs:226-300 | a message changes the core if and only if the app is not closing and it breaks none of the eight rules, each stated from the message, the chat and the settings; then its chat and topic has a count one higher, the newest thing queued for it is the show, and every other chat keeps its notification |
| MessageRules.FirstBrokenRule | crates/thinwire-core/src/notify.rs:144-185 | the reason given is the first of the eight rules, in their order, that the message breaks |
| MessageRules.NotificationReads | crates/thinwire-core/src/notify.rs:236-280 | what the notification reads: the start of the body, the picture or the file name, the sender in a group, the topic in the title, and neither text nor sender with previews off |
| MessageRules.HideKeepsRest | crates/thinwire-core/src/notify.rs:305-335 | hiding takes text and sender of the listed chats; title, count and what the core noted stay |
| Notify.Notifications.PushCommand | crates/thinwire-core/src/notify.rs:428-440 | the queue is the old one with the command, without the oldest content over the limit; the loop equals the recursive trim |
| Notify.Notifications.DismissKey | crates/thinwire-core/src/notify.rs:366-373 | a pending chat leaves, its queued content goes, and its dismiss is queued |
| Notify.Notifications.HidePreviews | crates/thinwire-core/src/notify.rs:305-335 | every pending chat is hidden, in the queued show or by a queued update, whatever the order of the chats |
| Notify.Notifications.SyncState | crates/thinwire-core/src/notify.rs:378-412 | the state after a sync is the marked state with exactly the chats that the rules drop dismissed |
| Notify.Notifications.ClearAll | crates/thinwire-core/src/notify.rs:301-304 | every pending chat is dismissed |
| Notify.Notifications.CloseApp | crates/thinwire-core/src/notify.rs:415-418 | every pending chat is dismissed, and later messages change nothing |
| Notify.Notifications.Take | crates/thinwire-core/src/notify.rs:420-423 | hands out the whole queue in order and empties it |
| Notify.OnMessageOk | crates/thinwire-core/src/notify.rs:226-300 | a message keeps the invariant: at most one queued content command of a chat, it is the newest of its chat and equals the pending notification, and over the limit only dismisses are queued |
| Notify.HideAllOk | crates/thinwire-core/src/notify.rs:305-335 | switching the preview off keeps that invariant, keeps the pending chats and hides each of them |
| Notify.SyncExact | crates/thinwire-core/src/notify.rs:378-412 | after a sync a chat is pending if and only if it was and none of the four rules drops it |
| SyncRuns.SyncTakesExactly | crates/thinwire-core/src/notify.rs:378-412 | every run, at every sync: a pending chat stays if and only if the sync lists it, its account is linked, the user does not look at it, and it has unread messages or no sync since its last notifying message listed it with any |
| SyncRuns.ReadElsewhereGoes | crates/thinwire-core/src/notify.rs:390-401 | a chat listed with unread messages after its last message, and later with none, is not pending any more |
| Notify.CloseOk | crates/thinwire-core/src/notify.rs:415-418 | after close nothing is pending and the invariant holds |
| Notify.HidePreviewsHides | crates/thinwire-core/src/notify.rs:305-335 | after the preview is switched off no queued or pending item has text or a sender |
| Notify.MessageKeepsHidden | crates/thinwire-core/src/notify.rs:144-200 | a message keeps it so exactly when it is skipped or what it brings is hidden itself |
| Notify.PushKeepsNewest | crates/thinwire-core/src/notify.rs:428-440 | new content survives its own push if and only if fewer dismisses than the limit wait before it |
| Commands.TrimKeepsNewest | crates/thinwire-core/src/notify.rs:428-440 | trimming keeps the newest content exactly under that condition, for any limit |
| Commands.TrimFacts | crates/thinwire-notify/src/pipe.rs:73-87 | trimming never drops a dismiss, adds nothing, and ends within the limit or with dismisses only |
| Commands.ScreenAfter | crates/thinwire-core/src/notify.rs:75-110 | what a chat shows in the end follows from its newest command alone |
| Inboxes.InboxRefinesRaw | crates/thinwire-notify/src/pipe.rs:37-88 | for every command sequence, start inbox and start screen with one notification of each chat: the coalesced inbox leaves each chat as the raw sequence does when the limit dropped none of its content; a dropped chat shows only where the raw sequence shows it, and then what it showed at the start or the text of one of its commands |
| Inboxes.Inbox.PushCommand | crates/thinwire-notify/src/pipe.rs:37-88 | the queue is the merge of the command with the content of its chat, trimmed to the limit |
| Inboxes.Inbox.RetryDismissOf | crates/thinwire-notify/src/pipe.rs:94-100 | a failed dismiss is queued again if and only if its chat has no queued command, and nothing is trimmed |
| Inboxes.PushOk | crates/thinwire-notify/src/pipe.rs:37-88 | a chat has at most one content command, last among its commands, and at most one dismiss; content stays within the limit |
| InboxOrder.ContentJoinsInPlace | crates/thinwire-notify/src/pipe.rs:37-72 | content that joins waiting content of its chat takes its place in the queue, and what waited as a show stays a show |
| InboxOrder.PushKeepsOthers | crates/thinwire-notify/src/pipe.rs:37-88 | a push leaves the commands of other chats in their order; a dismiss or content with nothing to join is the newest |
| InboxOrder.TrimDropsOldest | crates/thinwire-notify/src/pipe.rs:73-87 | a limit drops the oldest content first: where some content is kept, all later content is |
| InboxOrder.TrimLength | crates/thinwire-notify/src/pipe.rs:73-87 | and no more than needed: what is left is the limit, or the dismisses when they are more |
| Inboxes.MergedMeaning | crates/thinwire-notify/src/pipe.rs:39-72 | merging one command leaves the same screen as running it after the inbox, where a show replaces the notification of its chat |
| XdgScreens.JoinedUpdateLeavesText | crates/thinwire-notify/src/pipe.rs:53-62 | on the freedesktop backend it does not: a show and then an update close every unwatched text of the chat, and the one show that the two become leaves it |
| Inboxes.TrimMeaning | crates/thinwire-notify/src/pipe.rs:73-87 | dropping content of a chat takes the chat off the screen, or leaves what it showed at the start or the text of one of its queued commands; other chats do not change |
| Workers.FlushMeansDone | crates/thinwire-notify/src/lib.rs:142-164 | with the backend on, a flush is done if and only if no command waits and no call runs, and then no retry is owed |
| Workers.DrainEnds | crates/thinwire-notify/src/lib.rs:176-225 | with no new command the worker is idle after at most (queued content + remaining tries of the dismisses) OS calls, whatever fails |
| Workers.FinishOwes | crates/thinwire-notify/src/lib.rs:199-218 | every OS call lowers that bound, also when its dismiss goes back to the inbox |
| Workers.FinishOk | crates/thinwire-notify/src/lib.rs:199-218 | after a call every chat with recorded tries has its dismiss queued, with tries left |
| Workers.RetriesNeverTurnOff | crates/thinwire-notify/src/pipe.rs:193-214 | a dismiss that fails again changes no failure count and never turns notifications off |
| WorkerRuns.OffExactly | crates/thinwire-notify/src/pipe.rs:151-180 | every run, any results: notifications are off if and only if five counted failures came with no success between them, and they go off at the fifth; a failure counts when it is of content or of the first try of a dismiss |
| WorkerRuns.NextExactly | crates/thinwire-notify/src/pipe.rs:151-180 | every run: after a success the thread goes on with no failures in a row; after a failure it stops at the fifth counted one in a row and else waits for as many as there are |
| WorkerRuns.RetriedExactly | crates/thinwire-notify/src/pipe.rs:193-214 | every run: a failed dismiss goes back to the inbox, as its newest command, if and only if notifications stay on, fewer than two tries in a row went back before, and no command of its chat waits |
| Workers.FailurePolicy.RecordTry | crates/thinwire-notify/src/pipe.rs:144-178 | the failures in a row and what follows: go on, wait, or off at the fifth |
| Workers.FailurePolicy.RecordResult | crates/thinwire-notify/src/pipe.rs:193-214 | the tries of a chat, whether its dismiss is retried, and when it is given up |
| Workers.RetryWaitDoubles | crates/thinwire-notify/src/pipe.rs:227-231 | the wait doubles with each failure in a row up to 30 seconds |
| Workers.Notifier.SendAll | crates/thinwire-notify/src/lib.rs:123-137 | all commands join the inbox under one lock, or none when off |
| Workers.Notifier.TakeNext | crates/thinwire-notify/src/lib.rs:180-193 | the oldest command becomes the running one |
| Workers.Notifier.FinishCall | crates/thinwire-notify/src/lib.rs:199-218 | one section under the lock after a call: the retry is queued or forgotten, and off empties the inbox |
| Workers.Notifier.IsFlushed | crates/thinwire-notify/src/lib.rs:148-151 | what flush tests under the lock |
| Workers.Notifier.Run | crates/thinwire-notify/src/lib.rs:176-225 | the loop ends with the worker idle, as the drain function says, within the bound of OS calls |
| XdgPromises.OpenIdIsHeldExactly | crates/thinwire-notify/src/xdg.rs:66-151 | every run, any closes failing: an id that is open on the server is watched or unwatched of its chat if and only if its close as an evicted id did not fail and its click waiter did not end while it was open; nothing is left in the eviction list between commands |
| XdgPromises.StrandedExactly | crates/thinwire-notify/src/xdg.rs:337-341 | every run: an open id is stranded if and only if its click waiter ended while it was open, and it stayed open since |
| XdgPromises.LeakedExactly | crates/thinwire-notify/src/xdg.rs:374-381 | every run: an open id is leaked if and only if a show or update evicted it, the close of it failed, and it stayed open since |
| XdgPromises.ReopenedIdIsStranded | crates/thinwire-notify/src/xdg.rs:384-420 | for every notification and id, a run: shown, closed by the server, shown again with the replaced id, and then the waiter of the closed one ends; the id is open, in no list, and a dismiss of the chat does not close it |
| XdgScreens.StepShows | crates/thinwire-notify/src/xdg.rs:384-420 | every step and every chat: the open notifications after it are the older ones that it neither closed nor pushed out nor showed again, as they were, and the answered one with the new content |
| XdgScreens.OlderRemainsExactly | crates/thinwire-notify/src/xdg.rs:258-281 | after an answered show an older notification of the chat remains, with its text, if and only if it was open, the server did not replace it, and no limit closed it |
| XdgScreens.RunsAsOneExactly | crates/thinwire-notify/src/xdg.rs:232-281 | a call does on the server what it does on a screen with one notification of each chat if and only if no older notification of the chat with other content stays |
| XdgScreens.TextStaysExactly | crates/thinwire-notify/src/xdg.rs:189-281 | every run in which a chat gets no new text: a text of it is on the screen at the end if and only if it was there and every step left it |
| XdgScreens.HiddenContentLeaves | crates/thinwire-notify/src/xdg.rs:232-281 | hidden content that the server honours leaves the text of lost ids and of unwatched ids that no limit pushes out: all of these after a show, and only those whose close failed after an update |
| XdgScreens.HiddenContentTakesAllExactly | crates/thinwire-notify/src/xdg.rs:232-281 | for a chat none of whose texts is lost, pushed out or fails to close, hidden content takes all its text off the screen if and only if it comes as an update or the chat has no open unwatched notification with text |
| XdgPromises.LimitsHold | crates/thinwire-notify/src/xdg.rs:94-127 | every run: at most 8 unwatched ids of a chat, 64 of all chats, and 16 click waiters |
| XdgShown.ShownIsOpen | crates/thinwire-notify/src/xdg.rs:384-420 | after an answered show its notification is open with its content and in the book: no limit closes it, but an id that the server used for the chat before may go when the 64 places are full |
| XdgShown.WatchedExactly | crates/thinwire-notify/src/xdg.rs:258-281 | the answered id is the watched id of its chat if and only if it has a click waiter, because it had one or one of 16 is free and its thread starts; without a free waiter the older watched id stays, and when the thread fails the chat has none |
| XdgShown.NinthClosesOldest | crates/thinwire-notify/src/xdg.rs:94-105 | with 8 unwatched notifications of the chat and no free waiter, a show closes the oldest of them and nothing else |
| XdgShown.FullBookClosesOldest | crates/thinwire-notify/src/xdg.rs:106-120 | with 64 unwatched notifications in all, it closes the one with the oldest order entry, of whatever chat |
| XdgShown.OrderGrowsWithoutBound | crates/thinwire-notify/src/xdg.rs:121-127 | for every n a run that leaves n + 1 order entries of the one unwatched id: each close that fails adds one, and compaction keeps them |
| XdgPromises.ReplaceIsSafe | crates/thinwire-notify/src/xdg.rs:61-77 | every run: a non-zero replace id was given to this chat by the server, has a live waiter, and belongs to no other chat |
| XdgPromises.DismissClosesChat | crates/thinwire-notify/src/xdg.rs:189-218 | after a dismiss the chat has no open notification but those whose close failed and those lost before |
| XdgPromises.UpdateLeavesOnlyNewText | crates/thinwire-notify/src/xdg.rs:232-243 | after an update that replaced the watched id the chat shows the new notification only, but for failed closes and ids lost before; with no watched id nothing opens |
| XdgPromises.WaiterEndKeepsExactly | crates/thinwire-notify/src/xdg.rs:337-341 | the end of a click waiter keeps every open id in the book if and only if its own id is not open or was lost before |
| XdgBackends.ExecOk | crates/thinwire-notify/src/xdg.rs:384-420 | the invariant of book, waiters and open ids holds in every run of shows, updates, dismisses, waiter ends and server closes |
| XdgBackends.Backend.DismissChat | crates/thinwire-notify/src/xdg.rs:189-218 | book and open ids after a dismiss: forget, close each, keep those that failed; it works if and only if every close did |
| XdgBackends.Backend.CloseUnwatchedIds | crates/thinwire-notify/src/xdg.rs:303-317 | the unwatched ids of the chat are closed, those that failed go back, and it works if and only if every close did |
| XdgBackends.Backend.ShowChat | crates/thinwire-notify/src/xdg.rs:384-420 | a show with the replace id of its chat; the answer is watched, or unwatched when no waiter may start or its thread fails |
| XdgBackends.Backend.ShowNotification | crates/thinwire-notify/src/xdg.rs:459-465 | a show and then the close of everything evicted |
| XdgBackends.Backend.UpdateNotification | crates/thinwire-notify/src/xdg.rs:232-243 | unwatched ids close first, then a watched id is replaced, also after a failed close; nothing is shown without one |
| XdgBackends.Backend.WaiterEnded | crates/thinwire-notify/src/xdg.rs:337-341 | the id leaves the book and the waiters, open or not |
| IdBooks.ShownOk | crates/thinwire-notify/src/xdg.rs:66-77 | a shown id keeps the two maps inverse and evicts at most to the limits, when the id is the chat's own or in no map |
| IdBooks.AddUnwatchedOk | crates/thinwire-notify/src/xdg.rs:94-127 | an added id stays closable: it and every other id are unwatched or evicted after it, the limits hold, and under them nothing is evicted |
| IdLimits.ChatLimitEvictsOldest | crates/thinwire-notify/src/xdg.rs:94-105 | a chat with 8 unwatched ids loses the oldest of them to a new one, which joins at the end, and no other chat loses any |
| IdLimits.RoomyAddKeepsAll | crates/thinwire-notify/src/xdg.rs:94-105 | below both limits the id joins at the end and nothing is evicted |
| IdLimits.TotalLimitEvictsOldest | crates/thinwire-notify/src/xdg.rs:106-120 | with 64 ids in all, the one with the oldest order entry that is still in the book goes, and no other |
| IdLimits.NewestStays | crates/thinwire-notify/src/xdg.rs:94-120 | an id that was not in the book before, or for which there is room, is not the one that goes |
| IdLimits.KnownIdChangesNothing | crates/thinwire-notify/src/xdg.rs:94-101 | a known id changes nothing and gets no second order entry; a new one gets one entry, the newest |
| IdLimits.OrderIsShortOrLive | crates/thinwire-notify/src/xdg.rs:121-127 | after an added id there are at most 128 order entries, or only those of ids in the book |
| IdBooks.EvictOverOk | crates/thinwire-notify/src/xdg.rs:113-120 | the eviction loop never ends over the limit: each unwatched id has an entry in the order list |
| IdBooks.ClosedOk | crates/thinwire-notify/src/xdg.rs:80-92 | a closed id is in none of the collections afterwards, and every other id stays where it was |
| IdBooks.ForgetOk | crates/thinwire-notify/src/xdg.rs:131-140 | forget takes out exactly the ids of the chat |
| IdBooks.KeepOk | crates/thinwire-notify/src/xdg.rs:144-151 | putting back ids whose close failed evicts nothing and changes no other chat |
| IdBooks.IdBook.ShowUnwatched | crates/thinwire-notify/src/xdg.rs:94-127 | the in-place loops equal the book function, with lazy deletion and compaction of the order list |
| IdBooks.IdBook.Show | crates/thinwire-notify/src/xdg.rs:66-77 | the new maps, with the replaced id handed over to the unwatched ones |
| IdBooks.IdBook.Close | crates/thinwire-notify/src/xdg.rs:80-92 | the book without the id |
| IdBooks.IdBook.ForgetKey | crates/thinwire-notify/src/xdg.rs:131-140 | hands out the ids of the chat and forgets them |
| IdBooks.IdBook.KeepIds | crates/thinwire-notify/src/xdg.rs:144-151 | the book with the ids back |
| SecretFlush.OneWriterInOrder | crates/thinwire-core/src/secrets.rs:818-859 | every interleaving: at most one flush worker is alive, and it writes from the newest snapshot, which is not older than any written before |
| SecretFlush.FlushesCoalesce | crates/thinwire-core/src/secrets.rs:434-454 | every interleaving: attached and with no flush in flight, none is pending, every worker is done, and the newest snapshot was taken after every request outside the memory-only mode, also one from before the attach or during a flush, and after an attach that found a set to save |
| SecretFlush.AskedMeansSaved | crates/thinwire-core/src/secrets.rs:635-649 | then, if the last Telegram set came before the last request and the newest snapshot was written in full, the keychain holds what memory holds |
| SecretFlush.AskedMeansFlushed | crates/thinwire-core/src/secrets.rs:651-671 | every interleaving: attached and with no flush in flight, a token or Slack key set before the last request is not dirty, unless a write failed since the newest snapshot |
| SecretSync.AskedTokenIsSaved | crates/thinwire-core/src/secrets.rs:651-671 | then the keychain has the token that memory has, but for the gap of an old reading |
| SecretSync.AskedSlackIsSaved | crates/thinwire-core/src/secrets.rs:790-816 | the same for each Slack key that the OS should have |
| SecretFlush.NoTelegramSetIsUndone | crates/thinwire-core/src/secrets.rs:594-628 | every interleaving, any call failing: memory has for a Telegram key what was last set for it, trimmed |
| SecretFlush.OnlyAttachedWrites | crates/thinwire-core/src/secrets.rs:838-849 | every interleaving: until the store is attached the keychain is unchanged and no worker is alive; a memory-only store has no flush pending or in flight |
| SecretFlush.SignInStaysInMemory | crates/thinwire-core/src/secrets.rs:629-649 | every interleaving: the phone number, login code and password of Telegram and the code and state of a Slack sign-in never change in the keychain |
| SecretFlush.RequestNotLost | crates/thinwire-core/src/secrets.rs:434-454 | a request is ignored if and only if the store is memory only, and starts a worker if and only if it is attached with no flush in flight; any other is noted |
| SecretSync.NoSlackWriteIsForgotten | crates/thinwire-core/src/secrets.rs:790-816 | every interleaving, any write failing: with no flush in flight a persistent Slack key is dirty or equal in memory and keychain up to trimming, unless a flush took it while the attach worker held an older reading of it |
| SecretSync.NoTokenWriteIsForgotten | crates/thinwire-core/src/secrets.rs:651-671 | the same for the Discord token |
| SecretSync.SlackStoreIsSafeExactly | crates/thinwire-core/src/secrets.rs:766-788 | every run, at the step that stores the Slack keys read by the attach worker: a key stays dirty or agreed with the keychain if and only if it is dirty, or no flush took it since the read, or the read has no such key, or it has the value of memory |
| SecretSync.TokenStoreIsSafeExactly | crates/thinwire-core/src/secrets.rs:697-715 | the same for the Discord token, where a failed read stores nothing |
| SecretSync.AttachStoresSlack | crates/thinwire-core/src/secrets.rs:766-788 | the hydrate of the Slack keys is such a storing, for each key |
| SecretSync.OldReadingCanUndoSet | crates/thinwire-core/src/secrets.rs:537-543 | for any persistent key and two values: a run in which the UI sets a key and its flush ends while the attach worker waits to store what it read; memory ends with the older value, the keychain with the newer, and nothing is dirty |
| SecretSync.ItemStepOk | crates/thinwire-core/src/secrets.rs:651-671 | set, read, store, take for a flush and failed write each keep the tracking invariant of one item |
| Secrets.HydrateKeepsDirty | crates/thinwire-core/src/secrets.rs:697-715 | a hydrate changes no dirty key and no key that the OS does not have; any other key becomes what the OS has |
| Secrets.ReadyKeepsDirty | crates/thinwire-core/src/secrets.rs:594-627 | the same for the Telegram keys when the store becomes ready |
| Secrets.KeptAgain | crates/thinwire-core/src/secrets.rs:327-337 | a value that memory kept, without the Unicode white space at its ends, is unchanged when it is trimmed again |
| Secrets.TrimExactly | crates/thinwire-core/src/secrets.rs:327-337 | trimming takes the white space off both ends, all of it, and nothing else |
| Secrets.KeptExactly | crates/thinwire-core/src/secrets.rs:327-337 | a value of white space alone is no value |
| Secrets.SecretStore.Set | crates/thinwire-core/src/secrets.rs:327-337 | the trimmed value, or no value for a blank one, and the key is dirty |
| Secrets.SecretStore.SetDiscordToken | crates/thinwire-core/src/secrets.rs:340-350 | the same for the token |
| Secrets.SecretStore.SetSlackSecret | crates/thinwire-core/src/secrets.rs:893-906 | the same for a Slack key; only a key that persists becomes dirty |
| Secrets.SecretStore.RequestFlush | crates/thinwire-core/src/secrets.rs:434-454 | spawn, defer or ignore, and what each notes |
| Secrets.SecretStore.SettleReady | crates/thinwire-core/src/secrets.rs:594-627 | the loop over the OS values equals the merge; phase, pending flush and dirty keys change together |
| Secrets.SecretStore.SettleMemoryOnly | crates/thinwire-core/src/secrets.rs:557-563 | memory only: no flush is pending or in flight |
| Secrets.SecretStore.StoreHydratedToken | crates/thinwire-core/src/secrets.rs:697-715 | a dirty token stays; a read error or no token changes nothing |
| Secrets.SecretStore.StoreHydratedSlack | crates/thinwire-core/src/secrets.rs:766-788 | the loop over the read pairs equals the merge |
| Secrets.SecretStore.TakeFlushSnapshot | crates/thinwire-core/src/secrets.rs:838-849 | the snapshot, or the end of the flush when the store is not attached |
| Secrets.SecretStore.FinishFlushCycle | crates/thinwire-core/src/secrets.rs:851-859 | another round exactly when a request came meanwhile |
| Secrets.SecretStore.DrainSlack | crates/thinwire-core/src/secrets.rs:790-801 | the dirty keys, each once, with their values, and none stays dirty |
| Secrets.SecretStore.RequeueSlack | crates/thinwire-core/src/secrets.rs:802-816 | the key whose write failed and all after it are dirty again |
| SendRuns.RequestsAreNew | crates/thinwire-core/src/sends.rs:139-160 | every run: a begin fails exactly while the chat is busy, and otherwise issues a request that none before it issued |
| SendRuns.TrackedOnce | crates/thinwire-core/src/sends.rs:67-75 | every run: no request is both open and expired, and each keeps the chat and the text, topic and files, or the message, that its caller gave, field by field |
| SendRuns.AnsweredAtMostOnce | crates/thinwire-core/src/sends.rs:190-202 | every run: no request is given out twice by settle and settle_expired together, and what is given out has the chat and the text, topic and files, or the message, of its caller, field by field |
| SendRuns.RequestsAreConserved | crates/thinwire-core/src/sends.rs:256-259 | every run: an issued request is tracked or has ended, never both; a pruned one is at least 330 seconds old |
| SendRuns.EndsExactly | crates/thinwire-core/src/sends.rs:186-330 | every run, every step: a tracked request ends if and only if it is settled while open, settled late once expired, pruned 300 seconds or more after it expired, an open retry of the message that stops, or of the account whose session ends |
| SendRuns.ExpiresExactly | crates/thinwire-core/src/sends.rs:218-250 | every run: an open request expires, under the time of the expiry, if and only if it began at least 30 seconds ago |
| SendRuns.TracksExactly | crates/thinwire-core/src/sends.rs:262-270 | every run: the tracker tracks a request for a protocol if and only if it issued it for a chat of that protocol and it has not ended |
| SendRuns.QueuedAnswersAreNotPruned | crates/thinwire-core/src/core.rs:627-660 | in one pump, however late: an answer queued before it finds its request, unless another event of the batch ended the request first |
| SendRuns.SparesExactly | crates/thinwire-core/src/state.rs:3903-3925 | an event of the batch leaves a request in place if and only if it is not its answer, not the end of its session, and not a late accept that its retry repeats |
| Sends.ExpiresAtDeadline | crates/thinwire-core/src/sends.rs:206-211 | something expires at a time if and only if the next deadline has come |
| Sends.DeadlineMovesOn | crates/thinwire-core/src/sends.rs:226-252 | after an expiry the next deadline is later than its time |
| Sends.SendTracker.BeginSend | crates/thinwire-core/src/sends.rs:108-160 | nothing while the chat is busy, otherwise an open entry under the next request |
| Sends.SendTracker.BeginRetry | crates/thinwire-core/src/sends.rs:126-160 | the same for a retry |
| Sends.SendTracker.SettleOpen | crates/thinwire-core/src/sends.rs:190-202 | gives out and removes the entry only for the same request |
| Sends.SendTracker.SettleLate | crates/thinwire-core/src/sends.rs:274-283 | gives out and removes the expired entry |
| Sends.SendTracker.NextDeadline | crates/thinwire-core/src/sends.rs:206-211 | the earliest start plus the timeout, or none with nothing open |
| Sends.SendTracker.ExpireLate | crates/thinwire-core/src/sends.rs:226-252 | lists every late entry once and moves exactly those to the expired ones |
| Sends.SendTracker.PruneExpired | crates/thinwire-core/src/sends.rs:256-259 | keeps the entries that are younger than the limit |
| Sends.SendTracker.StopRetry | crates/thinwire-core/src/sends.rs:288-296 | drops an open retry of this message and nothing else |
| Sends.SendTracker.EndSession | crates/thinwire-core/src/sends.rs:321-324 | drops both kinds of entry of one account |
| Sends.SendTracker.Accepted | crates/thinwire-core/src/state.rs:3880-3925 | an accept settles the open entry, or the expired one and then ends a newer retry of the same message |
| Sends.SendTracker.Rejected | crates/thinwire-core/src/state.rs:4142-4151 | a rejection settles the open entry or forgets the expired one |
| Sends.SendTracker.TracksRequest | crates/thinwire-core/src/sends.rs:262-270 | true exactly when the request is open, or expired and kept, for a chat of the protocol |
| Contracts.Violations | crates/thinwire-protocol/src/contract.rs:487-560 | the list holds exactly the breaks of the rules, in the order of the events, and is empty if and only if the stream conforms |
| Contracts.NothingBreaksExactly | crates/thinwire-protocol/src/contract.rs:475-485 | the stream follows every rule if and only if no break exists; a request that is answered twice has a second answer to report |
| Contracts.ReportsAtExactly | crates/thinwire-protocol/src/contract.rs:495-558 | the reports at one event are the breaks at its place |
| Contracts.LinkedNext | crates/thinwire-protocol/src/contract.rs:504-510 | the session flag is the declarative one: a linked account event with no unlinked one after it |
| Contracts.SecondAnswerReported | crates/thinwire-protocol/src/contract.rs:541-547 | where a request was answered before, a report names its second answer |
| Fakes.FakeConformsExactly | crates/thinwire-protocol/src/fake.rs:55-184 | a run of the fake adapter conforms if and only if each request it answers is sent once, for the chat on record, and nothing that needs the session comes after a disconnect |
| Fakes.TraceHasExactly | crates/thinwire-protocol/src/fake.rs:55-184 | every run: an event is in the stream if and only if it is of the start or a command asks for it; a send is accepted, and a resend rejected, under its own chat and request |
| Fakes.RowBeforeMessage | crates/thinwire-protocol/src/fake.rs:55-184 | the row of the chat comes right before its message |
| Fakes.CheckFake | crates/thinwire-protocol/src/contract.rs:487-560 | the checker finds nothing in a run of the fake adapter under exactly that condition |
| Fakes.RunFake | crates/thinwire-protocol/src/host.rs:429-470 | the events of a run are the start and then what each command emits, in order |
| Fakes.FakeAdapter.Start | crates/thinwire-protocol/src/fake.rs:55-66 | a ready status, then the linked account |
| Fakes.FakeAdapter.Handle | crates/thinwire-protocol/src/fake.rs:68-184 | the events of each command; an unknown command or another account sends nothing and fails |
| Fakes.FakeAdapter.Dispatch | crates/thinwire-protocol/src/host.rs:429-470 | shutdown and the viewed chat bypass the handler, and a failure becomes one status event |
| Accounts.FromKeyOfKey | crates/thinwire-protocol/src/adapter.rs:165-184 | reading an account key back gives the account, for every account number |
| KeyTexts.FromKeyExactly | crates/thinwire-protocol/src/adapter.rs:175-184 | a text names an account if and only if it is the name of its protocol, for account 0, or the name, a number sign and a number from 1 to 8 in decimal digits, perhaps after a plus sign and zeros |
| HeldNotices.HoldsStayDistinct | crates/thinwire-core/src/core.rs:716-740 | every run: the holds are distinct per topic, at most 32, each below 99, and in the order in which they began |
| HeldNotices.ReleaseCountsMessages | crates/thinwire-core/src/core.rs:748-794 | every run: a release raises a held topic by exactly min(99, messages since its hold began) when it is freed and the rules allow, and by nothing otherwise |
| HeldNotices.ReleaseLeavesOthers | crates/thinwire-core/src/core.rs:748-794 | every run: a topic that is not held keeps its count and its notification |
| HeldNotices.HoldsEndExactly | crates/thinwire-core/src/core.rs:748-794 | every run: a hold outlives a release if and only if its chat and session are there, its row is missing and its wait has not passed |
| HeldRules.WaitsExactly | crates/thinwire-core/src/core.rs:700-712 | a message waits if and only if it is live, not our own, of a forum topic in a listed chat, and the topic has no row |
| HeldRules.HoldExactly | crates/thinwire-core/src/core.rs:716-740 | after a message the holds are its own, with the newest message, the older ones counted and the time of the first, and those of the other topics, but for the one that waits longest when 32 wait |
| HeldRules.FreesExactly | crates/thinwire-core/src/core.rs:748-794 | a hold is freed, or goes on waiting, exactly by its session, its chat, its row and four seconds |
| HeldRules.AllowsExactly | crates/thinwire-core/src/core.rs:686-698 | the rules let a held message through if and only if the settings, the mutes of chat and topic, the view and the age allow it, each stated from the state of the app |
| HeldRules.ReleaseShowsLast | crates/thinwire-core/src/core.rs:748-794 | every run: a release puts the last message of the topic on its one notification, with the count of all that came |
| HeldRules.ReadsExactly | crates/thinwire-core/src/notify.rs:236-280 | its title has the name of the topic once the row is there, and its text shows exactly when previews are on |
| HeldNotices.NotifyTimesIs | crates/thinwire-core/src/notify.rs:226-300 | the same message n times leaves one notification with its count raised by n, when the rules allow |
| HeldNotices.HoldOk | crates/thinwire-core/src/core.rs:716-740 | a hold keeps the list distinct, bounded and ordered, also when the oldest makes room |
| HeldNotices.TopicNotices.Hold | crates/thinwire-core/src/core.rs:716-740 | the hold of the topic takes the newer message, or a new hold is appended |
| HeldNotices.TopicNotices.NotifyMessage | crates/thinwire-core/src/core.rs:686-715 | a message whose topic row is missing waits and notifies nothing; any other notifies now |
| HeldNotices.TopicNotices.Release | crates/thinwire-core/src/core.rs:748-794 | list and notifications after a release, and whether one was released |
| HeldNotices.TopicNotices.DropHeld | crates/thinwire-core/src/core.rs:796-799 | drops the holds of one account |
| Frames.FrameReader.NextLine | crates/thinwire-ipc/src/frame.rs:107-128 | a call answers for the unread text alone, however it is cut; a call that is dropped or fails leaves that text as it was |
| Frames.FrameReader.Consume | crates/thinwire-ipc/src/frame.rs:113-126 | one piece is used up to its line end; the kept part stays within the limit and without a line end |
| Frames.FrameReader.ReadOn | crates/thinwire-ipc/src/frame.rs:84-128 | for every cutting and every series of dropped or failed calls the answers are the answers of the stream, in order |
| Frames.AnswersAreLines | crates/thinwire-ipc/src/frame.rs:103-106 | for every stream: its lines in order, the first line over the limit as a lasting error, the end as lasting, and the part after the last line end never a line |
| Frames.HasLines | crates/thinwire-ipc/src/frame.rs:103-106 | every stream is lines with their ends and a last part without one |
| Frames.WrittenLinesComeBack | crates/thinwire-ipc/src/frame.rs:55-63 | lines within the limit, each written with its line end, come back one by one |
| Frames.LastsForever | crates/thinwire-ipc/src/frame.rs:115-118 | a line over the limit and the end of the stream are the answer of every later call |
| Persist.WritesGoForward | crates/thinwire-core/src/settings.rs:55-82 | every interleaving: the completed writes have strictly increasing epochs |
| Persist.LatestWriteWins | crates/thinwire-core/src/settings.rs:55-82 | every interleaving: once all jobs have run, the last one taken was not skipped, and if its write did not fail the file holds its contents |
| Persist.ExecOk | crates/thinwire-core/src/settings.rs:55-86 | one lock holder, a worker about to write is newer than every write before it, and the newest job is never skipped |
| Persist.SharedFile.Commit | crates/thinwire-core/src/settings.rs:55-82 | a job that runs alone writes exactly when its epoch is the newest; the same as four steps of the interleaving |
| Persist.Saver.TakeJob | crates/thinwire-core/src/settings.rs:371-386 | a pending change becomes one job with the next epoch, and no job when nothing is pending or nothing may be written |
| Mutes.ParseOfRender | crates/thinwire-core/src/mutes.rs:198-252 | reading the written file back gives exactly the mutes without the ids that are empty or hold a line break, for every account number |
| MuteLines.FileExactly | crates/thinwire-core/src/mutes.rs:198-222 | a file mutes a chat if and only if a line of it, which may end with a carriage return, is the text of the account, a space and the id; comments and blank lines mute none |
| MuteLines.ReturnsReadSame | crates/thinwire-core/src/mutes.rs:203-204 | a file reads the same with a carriage return before each line feed |
| Mutes.ParseLineOf | crates/thinwire-core/src/mutes.rs:204-213 | a line gives back its account and its id; an empty id is skipped |
| Mutes.Parse | crates/thinwire-core/src/mutes.rs:198-222 | the loop over the lines equals the collection of their entries |
| Mutes.Render | crates/thinwire-core/src/mutes.rs:226-252 | the text is the header and the lines of each account and id in order |
| Mutes.SortedIdsOrder | crates/thinwire-core/src/mutes.rs:240-241 | the ids of an account are written in order, none twice |
| Mutes.ChatMutes.SetMuted | crates/thinwire-core/src/mutes.rs:140-153 | exactly this chat changes, and a write is due exactly when it did |
| Mutes.ChatMutes.Forget | crates/thinwire-core/src/mutes.rs:157-163 | the mutes of one account go, and a write is due exactly when there was one |
| Mutes.ChatMutes.TakeMutesJob | crates/thinwire-core/src/mutes.rs:167-182 | the job has the next epoch, and its text reads back as the mutes of now |
| Toml.UnescapeOfEscape | crates/thinwire-core/src/settings.rs:525-541 | unescaping an escaped value gives the value, for every string |
| Toml.TrailingBackslashGoes | crates/thinwire-core/src/settings.rs:530-541 | a backslash with nothing after it is dropped |
| Toml.EscapedHasNoBareQuote | crates/thinwire-core/src/settings.rs:525-527 | an escaped value has no bare quote and does not end in the middle of an escape |
| Toml.UnescapeToml | crates/thinwire-core/src/settings.rs:530-541 | the loop equals the recursive reading |
| ShowWakes.NoWakeIsLost | crates/thinwire-core/src/show.rs:153-174 | every interleaving: once a signal and a registration have both returned, the wake ran at or after the store of the signal, or a take got the show first |
| ShowWakes.NoShowIsLost | crates/thinwire-core/src/show.rs:172-174 | every interleaving: a stored show is pending or was taken later, and no more shows are taken than were stored |
| ShowWakes.ShowState.RaiseSignal | crates/thinwire-core/src/show.rs:153-159 | the flag is set, and the wake runs once if it is registered |
| ShowWakes.ShowState.SetWake | crates/thinwire-core/src/show.rs:162-170 | the wake is registered, and runs once if a show waits |
| ShowWakes.ShowState.TakeShow | crates/thinwire-core/src/show.rs:172-174 | true exactly when a show was waiting, and none waits after it |

## Left out

- OS notification calls (D-Bus, WinRT, the macOS center) and keychain calls are steps that succeed or fail. The tagged backend appears as the screen with one notification of each chat; its tags and click handlers, `crates/thinwire-notify/src/winrt.rs`, `macos.rs`, and the macOS backend without a bundle, which cannot replace, are not modelled.
- Timing of the worker: the wait of `back_off`, how a waiting flush ends it, the time limit of `flush` and the condition variable; only what the locked sections decide is modelled.
- Topic and protocol mutes that clear shown notifications (`dismiss_muted`) are an arbitrary dismiss of pending chats in the pipeline; which chats they pick is not stated.
- The order in which `pending_keys` sorts the chats: the theorems hold for every order.
- Notification bodies, log lines, and the text of error messages.
- Waiters that end in the middle of a dismiss, between `forget` and `keep`.
- Memory-only and demo secret stores as separate constructors, Slack app keys that several stores share, the reconnect hooks after a hydrate, and a poisoned lock.
- Failed Telegram writes: the source forgets which key failed, so memory and keychain are only claimed equal after a flush that wrote everything.
- The order in which a flush lists dirty Slack keys, and the pick of a key in loops over maps and sets: any order is allowed.
- What the state does with a settled or expired send (drafts, delivery marks, error lines), and `open_chats`, `open_of` and `expired_of`, which only list entries.
- Fields of events and commands that no rule of the contract reads, and the contract kit that drives an adapter over a live channel.
- Events that the host wraps for accounts after account 0: the checker sees the events of one adapter, as in the source.
- Which bytes are valid UTF-8: the line reader takes that test as a parameter. Lines of a mute file that are not UTF-8 are skipped in the source and are not part of this model, which reads characters.
- The JSON in a line, file permissions and the rename of a private write, and reading settings other than the escaping of strings.
- The socket and pipe exchange of the show listener and its closing answer, and memory orders weaker than sequential steps.
- Login screens, intents and views; the state module appears only as the rows, sessions and chats that the modelled code asks it for.
- Persist.LatestWriteWins: says nothing of the file after a failed last write, because a failed plain write may leave anything.
