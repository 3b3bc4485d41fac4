# Registration watch of the MSV Discord bot, in Dafny

The bot announces each week's tournament and watches its registrations on
start.gg. At the scheduled time it checks two guards: the run is cancelled
for the week, or no event slug is set. If neither holds, it posts the
announcement. It then queries the number of entrants every 30 seconds until
that number reaches the attendee cap or the event is not found. On reaching
the cap, it locks the previous waitlist thread and posts a closing note in
it. It then creates a new waitlist thread titled `Waitlist for <slug>`, and
that thread becomes the previous post. Operators set the slug (taken from an
event URL), set the cap, cancel or resume the run, forget the previous
thread, and run a `test` that goes through the thread steps in test
channels.

The project models:

- `slugs.dfy` (module `Slugs`): how the slug is taken from a URL. It models
  Python's `str.split('/')`, the slice `[-4:]` and `'/'.join`, all as
  functions. The lemmas prove that join undoes split, that the slug is a
  suffix of the URL, that its segments are the URL's last min(4, k)
  segments, that a short URL is unchanged, and that extraction is
  idempotent.
- `watch.dfy` (module `Watch`): the bot's four fields as a value
  (`BotState`). The weekly cycle, the polling loop and the `test` command
  are functions from that state and the outside world's answers to an
  ordered trace of side effects. The outside world's answers are the query
  results, which channels exist, and the handle of a newly created thread.
  The trace events are `Announce`, `Poll`, `Wait`, `Lock`, `Note` and
  `Create`. The lemmas prove where the loop stops, what it has done when it
  stops, and the order of the side effects.
- `commands.dfy` (module `Commands`): class `Bot` holds the four fields and
  updates them in place. Its methods are the scheduled jobs and the operator
  commands. `CheckAttendees` is the `while attendee_count < attendee_cap`
  loop, with its invariants. Each method is proved to give the trace and the
  new state that module `Watch` defines.
- `wrappers.dfy`: the `Option` type used for the nullable fields.

The outside world becomes input, as follows:

- The answers of the tournament API are a finite `seq<PollResult>`. Each
  answer is `Count(n)`, `NotFound` or `TransientError`.
- When the answers run out, the loop ends with the outcome `Exhausted`. The
  real loop retries forever.
- Which channels `get_channel` finds is a boolean per channel.
- The handle the chat platform returns for a new thread is a parameter.

Python's truthiness is modelled as written: `not bot.current_event_slug`
holds for an unset slug and also for an empty one (`HasSlug`). The cap is
any integer, as `set_attendee_cap` accepts any integer. With a cap of 0 or
less, the loop condition `0 < cap` fails at once. No query is made and no
thread is created (`CapAlreadyMet`).

In a few places the code does less than one might expect, and the model
follows the code:

- One might expect the `test` command to leave alone the previous-post
  reference used by the real cycle. The code overwrites it with the test
  thread (bot.py:248). `TestThreadLockedByNextCycle` proves the effect in
  the model: the next real cycle that reaches the cap locks the test
  thread. The source may behave differently there, because of how it
  stores that thread (see "## Left out").
- One might expect thread titles to be cut to the platform's maximum
  length, and the announcement and thread wording to depend on the cap.
  The code does neither. The title is exactly `Waitlist for <slug>`
  (bot.py:139), and the announcement only mentions the cap (bot.py:71).
- One might expect the cap to be positive. `set_attendee_cap` accepts any
  integer.

`Commands.TestThenCycle` is an example client of the class and not part of
the bot. It runs `test` and then a cycle that fills on its second query,
using only the methods' contracts.

## Model

| member | source | states |
|---|---|---|
| Commands.Bot.constructor | bot.py:24-34 | The bot starts not cancelled, with no previous thread, no slug and a cap of 32. |
| Commands.Bot.LockPreviousPost | bot.py:51-55 | The Tuesday job locks the previous thread and then posts the note in it, or does nothing when there is none. It changes no field, so the reference is kept. |
| Commands.Bot.ScheduledTask | bot.py:57-84 | It gives the trace, outcome and new state of `Watch.Cycle`. Only `previous_post` may change. |
| Commands.Bot.CheckAttendees | bot.py:86-150 | The polling loop gives the trace, outcome and previous post of `Watch.AttendeeWatch` for any sequence of answers. The invariants say that no earlier answer ended the loop, and that each turn so far added one query and one pause. |
| Commands.Bot.SetCurrentEvent | bot.py:152-156 | The slug field becomes `Some(ExtractSlug(url))`. The other fields are unchanged. |
| Commands.Bot.SetAttendeeCap | bot.py:158-162 | The cap becomes the given integer, with no range check. The other fields are unchanged. |
| Commands.Bot.CancelRun | bot.py:173-177 | Sets the cancel flag. Nothing else changes. |
| Commands.Bot.ResumeRun | bot.py:179-183 | Clears the cancel flag. Nothing else changes. |
| Commands.Bot.CleanPreviousPost | bot.py:185-198 | The previous post becomes unset. The result tells whether one was set, which decides the reply. |
| Commands.Bot.Test | bot.py:200-254 | It gives the trace and new state of `Watch.TestRun`. |
| Slugs.Split | bot.py:155 | `split('/')` returns at least one piece, and no piece contains a '/'. |
| Slugs.SplitCount | bot.py:155 | `split('/')` has one more piece than the string has '/' characters. |
| Slugs.JoinSplit | bot.py:155 | Joining the split pieces with '/' gives the string back. |
| Slugs.SplitJoin | bot.py:155 | Splitting a join of '/'-free pieces gives the pieces back. |
| Slugs.JoinAt | bot.py:155 | A join equals the join of the first pieces, then a '/', then the join of the rest. |
| Slugs.SlugIsSuffix | bot.py:155 | The slug is a suffix of the URL. When the URL has more than four segments, a '/' stands right before the slug. |
| Slugs.ShortUrlUnchanged | bot.py:155 | A URL with at most four segments is its own slug. |
| Slugs.SlugSegmentsOf | bot.py:155 | The slug's segments are the URL's last min(4, k) segments. |
| Slugs.SlugIdempotent | bot.py:155 | Extracting the slug from a slug gives it back unchanged. |
| Slugs.EventPageSlug | bot.py:155 | `start.gg/tournament/msv/event/ult` gives `tournament/msv/event/ult`. |
| Watch.PollLoop | bot.py:108-150 | The loop ends by reaching the cap, by a not-found answer, or by running out of answers. On reaching the cap, the count is at least the cap and the new thread becomes the previous post. Otherwise the previous post is unchanged. The loop never announces. |
| Watch.PollLoopReached | bot.py:110-148 | Suppose answer k is the first that ends the loop and it is a count. Then the trace is k rounds of query and pause, then one query, then the lock and note of the previous thread (if any), then one thread created with the slug's title. |
| Watch.PollLoopNotFound | bot.py:110-128 | Suppose answer k is the first that ends the loop and it is not-found. Then the trace is k rounds of query and pause, then one query. Nothing is locked or created, and the previous post is unchanged. |
| Watch.PollLoopExhausted | bot.py:110-132 | Suppose no answer is not-found and no count reaches the cap. Then the trace holds only query-and-pause rounds, one per answer. |
| Watch.StopOrRunOut | bot.py:110-150 | For every sequence of answers, either some answer is the first to end the loop, or none ends it. |
| Watch.PollLoopCounts | bot.py:110-148 | When answer k reaches the cap, the loop made exactly k + 1 queries and k pauses. It created exactly one thread, titled `Waitlist for <slug>`. |
| Watch.NoThreadBelowCap | bot.py:110-150 | Suppose no answer is a count at or above the cap. Then the trace holds only queries and pauses, and the previous post is unchanged. |
| Watch.LockBeforeCreate | bot.py:134-147 | Suppose the cap is reached and a previous thread exists. Then the last three events are that thread's lock, then its note, then the new thread's creation. Everything before them is a query or a pause. |
| Watch.CycleGuards | bot.py:57-64 | A cycle is skipped exactly when the week is cancelled or the slug is unset or empty. A skipped cycle has no side effect and changes no field. |
| Watch.AnnouncementFirst | bot.py:66-84 | When the cycle runs and the announcement channel exists, the first event is the announcement, naming the cap and the slug. No other event is an announcement, so every query comes after it. |
| Watch.CycleMovesOnlyPreviousPost | bot.py:57-148 | A cycle changes only the previous post. That changes only to the newly created thread, after the cap is reached. |
| Watch.NoPollWithoutPositiveCap | bot.py:108-110 | With a cap of 0 or less, the cycle makes no query and changes nothing. At most it sends the announcement. |
| Watch.ScenarioFillsOnThirdPoll | bot.py:57-148 | Cap 32 and counts 10, 20, 32 give: the announcement, three queries with two pauses, and one thread. |
| Watch.ScenarioNotFound | bot.py:57-128 | When the first answer is not-found: the announcement and one query. There is no lock, and the state is unchanged. |
| Watch.ScenarioRetryAfterError | bot.py:57-148 | An error and then a count of 32 at cap 32 give: two queries with one pause, the lock and note of the previous thread, and one thread. |
| Watch.TestRunReplacesPreviousPost | bot.py:209-248 | A test run with a test waitlist channel makes no query. It locks and notes the previous thread before anything else and creates the test thread last. The test thread becomes the previous post. |
| Watch.TestThreadLockedByNextCycle | bot.py:134-137 | In the model, after a test run the next real cycle that reaches the cap locks the test thread. |

## Left out

- Discord calls (`get_channel`, `send`, `create_thread`, `edit`) are trace events, or inputs that say whether a channel exists. The permission decorators are not modelled. Operator replies (`ctx.send`) are not in the trace, except that the result of `CleanPreviousPost` shows which reply is sent.
- The start.gg GraphQL request and its JSON decoding are replaced by the abstract `PollResult` answers. A `numEntrants` that is not an integer reaches the comparison at bot.py:134 as an uncaught Python type error, and it is not modelled.
- The real loop retries forever. The model consumes a finite sequence of answers and ends with `Exhausted` when they run out.
- Failures of chat-platform operations are not modelled. A failed lock, note or create escapes `check_attendees` in the source. In `test`, the `try`/`except` at bot.py:209-254 ends the command at the failing step.
- The APScheduler cron triggers, the time zones, and the 30-second sleep length are not modelled. A pause is one `Wait` event.
- Concurrency is not modelled, including a manual `test` that interleaves with a scheduled cycle at the `await` points. The cap and the slug are read once per cycle.
- Message and thread texts are not modelled beyond the cap and slug in the announcement and the thread titles. The note posted by `test` and the one posted by the real cycle are both the event `Note`.
- Commands.Bot.CheckAttendees: requires the slug to be set. Its only caller, `scheduled_task_wrapper`, returns early otherwise. Called with an unset slug, the source would query start.gg with a null slug. It would title a thread `Waitlist for None` only if such a query returned a count at or above the cap.
- `roll_dice` (randomness), the `check_current_event` display, the token loading and `bot.run` are not part of this model.
- Thread handles: the model treats the value stored at bot.py:248 as a thread that can be locked, like any other `ThreadRef`. The source stores the whole result of `create_thread` there, while bot.py:147 stores that result's `.thread`. The next `edit(locked=True)` (bot.py:53, 136, 212) may therefore act on something other than a thread in the source, and the model does not capture that.
- The console logging by `print` (bot.py:59, 63, 90, 125, 127, 130) is not modelled.
