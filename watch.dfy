/**
  The registration watch cycle of the bot, as values.  The bot's four
  in-memory fields form a `BotState`.  The outside world is an input: what
  each query to the tournament API answers (`PollResult`), which chat
  channels exist, and the handle the chat platform gives a newly created
  thread.  Everything the bot does to the outside world is an output:
  a sequence of `Event`s in the order they happen.

  `PollLoop` and `AttendeeWatch` are the polling loop of `check_attendees`,
  `Cycle` is `scheduled_task_wrapper`, `TestRun` is the `test` command.
  The class in module Commands runs them on mutable fields and is proved
  to agree with these functions.
 */
module Watch {
  import opened Wrappers

  /** The cap the bot starts with. */
  const DefaultAttendeeCap: int := 32

  /** An opaque reference to a discussion thread on the chat platform. */
  datatype ThreadRef = ThreadRef(id: nat)

  /** Where a message or thread goes: the real channels, or the ones of the `test` command. */
  datatype Destination = Live | Trial

  /** What one query for the number of entrants answers. */
  datatype PollResult =
    | Count(entrants: int)  // the event exists and has this many entrants
    | NotFound              // the answer names no event for the slug
    | TransientError        // the request or its decoding raised

  /** One side effect on the outside world. */
  datatype Event =
    | Announce(dest: Destination, cap: int, slug: string)  // registration announcement naming cap and slug
    | Poll                                                 // one query to the tournament API
    | Wait                                                 // the fixed pause between queries
    | Lock(thread: ThreadRef)                              // the thread is locked
    | Note(thread: ThreadRef)                              // the closing note is posted in the thread
    | Create(dest: Destination, title: string)             // a waitlist thread is created

  /** The bot's fields: `canceled_this_week`, `previous_post`, `current_event_slug`, `attendee_cap`. */
  datatype BotState = BotState(
    canceledThisWeek: bool,
    previousPost: Option<ThreadRef>,
    currentEventSlug: Option<string>,
    attendeeCap: int)

  /** The fields as set when the bot logs in. */
  const Initial: BotState := BotState(false, None, None, DefaultAttendeeCap)

  /** Python truthiness of the slug field: set and not empty. */
  predicate HasSlug(s: BotState)
  {
    s.currentEventSlug.Some? && s.currentEventSlug.value != []
  }

  /** The slug, or a stand-in when it is unset or empty (`slug or default`). */
  function SlugOr(s: BotState, default: string): string
  {
    if HasSlug(s) then s.currentEventSlug.value else default
  }

  function WaitlistTitle(slug: string): string
  {
    "Waitlist for " + slug
  }

  /** Locking a thread and posting the closing note in it, when there is one. */
  function Retire(previous: Option<ThreadRef>): seq<Event>
  {
    if previous.Some? then [Lock(previous.value), Note(previous.value)] else []
  }

  /** Whether a poll result ends the loop: the event is gone, or the cap is reached. */
  predicate Stops(p: PollResult, cap: int)
  {
    p.NotFound? || (p.Count? && p.entrants >= cap)
  }

  /** `k` is the position of the first poll result that ends the loop. */
  predicate FirstStop(polls: seq<PollResult>, cap: int, k: nat)
  {
    k < |polls| && Stops(polls[k], cap) &&
    forall j :: 0 <= j < k ==> !Stops(polls[j], cap)
  }

  /** How `check_attendees` ended. */
  datatype WatchOutcome =
    | NoWaitlistChannel  // the waitlist channel could not be found; nothing was polled
    | CapAlreadyMet      // the count 0 already meets the cap, so the loop never ran
    | Reached(count: int)
    | EventNotFound
    | Exhausted          // the model's input of poll results ran out (the real loop would go on)

  datatype WatchRun = WatchRun(events: seq<Event>, outcome: WatchOutcome, previous: Option<ThreadRef>)

  /** `k` rounds of a poll followed by a wait. */
  function Probes(k: nat): seq<Event>
  {
    if k == 0 then [] else [Poll, Wait] + Probes(k - 1)
  }

  /** A poll that did not end the loop, and the pause after it, come before what follows. */
  function Retry(r: WatchRun): WatchRun
  {
    r.(events := [Poll, Wait] + r.events)
  }

  /**
    The body of the `while attendee_count < attendee_cap` loop, once entered,
    fed with the answers `polls`.  A count at or above the cap retires the
    previous thread and creates the new one, which becomes the previous post.
   */
  function PollLoop(polls: seq<PollResult>, cap: int, slug: string, previous: Option<ThreadRef>, newThread: ThreadRef): (r: WatchRun)
    ensures r.outcome.Reached? ==> r.outcome.count >= cap && r.previous == Some(newThread)
    ensures !r.outcome.Reached? ==> r.previous == previous
    ensures r.outcome.Reached? || r.outcome.EventNotFound? || r.outcome.Exhausted?
    ensures forall e | e in r.events :: !e.Announce?
    decreases |polls|
  {
    if polls == [] then WatchRun([], Exhausted, previous)
    else match polls[0]
      case NotFound => WatchRun([Poll], EventNotFound, previous)
      case TransientError => Retry(PollLoop(polls[1..], cap, slug, previous, newThread))
      case Count(n) =>
        if n >= cap then
          WatchRun([Poll] + Retire(previous) + [Create(Live, WaitlistTitle(slug))], Reached(n), Some(newThread))
        else Retry(PollLoop(polls[1..], cap, slug, previous, newThread))
  }

  /** `check_attendees`: find the waitlist channel, then run the loop while `0 < cap`. */
  function AttendeeWatch(cap: int, slug: string, previous: Option<ThreadRef>, waitlistChannel: bool,
                         polls: seq<PollResult>, newThread: ThreadRef): WatchRun
  {
    if !waitlistChannel then WatchRun([], NoWaitlistChannel, previous)
    else if !(0 < cap) then WatchRun([], CapAlreadyMet, previous)
    else PollLoop(polls, cap, slug, previous, newThread)
  }

  /** What the outside world answers during one cycle. */
  datatype World = World(announcementChannel: bool, waitlistChannel: bool, polls: seq<PollResult>, newThread: ThreadRef)

  datatype CycleOutcome = Canceled | NoSlug | Ran(watch: WatchOutcome)

  datatype CycleRun = CycleRun(events: seq<Event>, outcome: CycleOutcome, after: BotState)

  /** The announcement, sent only when its channel is found. */
  function Announcement(channel: bool, dest: Destination, cap: int, slug: string): seq<Event>
  {
    if channel then [Announce(dest, cap, slug)] else []
  }

  /** `scheduled_task_wrapper`: the two guards, the announcement, then `check_attendees`. */
  function Cycle(s: BotState, w: World): CycleRun
  {
    if s.canceledThisWeek then CycleRun([], Canceled, s)
    else if !HasSlug(s) then CycleRun([], NoSlug, s)
    else
      var slug := s.currentEventSlug.value;
      var r := AttendeeWatch(s.attendeeCap, slug, s.previousPost, w.waitlistChannel, w.polls, w.newThread);
      CycleRun(Announcement(w.announcementChannel, Live, s.attendeeCap, slug) + r.events, Ran(r.outcome),
               s.(previousPost := r.previous))
  }

  datatype TestEffect = TestEffect(events: seq<Event>, after: BotState)

  function TrialTitle(s: BotState): string
  {
    WaitlistTitle(SlugOr(s, "Test Event")) + " (TEST MODE)"
  }

  /**
    The `test` command: retire the previous thread, announce in the test
    channel and create a thread in the test waitlist channel, each channel
    only when it is found.  No query is made.  The new thread replaces the
    previous post.
   */
  function TestRun(s: BotState, announcementChannel: bool, waitlistChannel: bool, newThread: ThreadRef): TestEffect
  {
    var created := if waitlistChannel then [Create(Trial, TrialTitle(s))] else [];
    TestEffect(Retire(s.previousPost) + Announcement(announcementChannel, Trial, s.attendeeCap, SlugOr(s, "test-event")) + created,
               if waitlistChannel then s.(previousPost := Some(newThread)) else s)
  }

  // ---------------------------------------------------------------------------
  // The polling loop

  lemma {:induction false} ProbesContent(k: nat)
    ensures |Probes(k)| == 2 * k
    ensures multiset(Probes(k))[Poll] == k && multiset(Probes(k))[Wait] == k
    ensures forall e | e in Probes(k) :: e == Poll || e == Wait
  {
    if k > 0 {
      ProbesContent(k - 1);
    }
  }

  lemma {:induction false} ProbesSnoc(k: nat)
    ensures Probes(k + 1) == Probes(k) + [Poll, Wait]
  {
    if k > 0 {
      ProbesSnoc(k - 1);
    }
  }

  /**
    When the `k`-th answer is the first to reach the cap, the loop made
    `k + 1` queries with a pause after each of the first `k`, then retired
    the previous thread and created exactly one new one, in that order.
   */
  lemma {:induction false} PollLoopReached(polls: seq<PollResult>, cap: int, slug: string,
                                           previous: Option<ThreadRef>, newThread: ThreadRef, k: nat)
    requires FirstStop(polls, cap, k) && polls[k].Count?
    ensures var r := PollLoop(polls, cap, slug, previous, newThread);
      r.events == Probes(k) + [Poll] + Retire(previous) + [Create(Live, WaitlistTitle(slug))] &&
      r.outcome == Reached(polls[k].entrants) &&
      r.previous == Some(newThread)
  {
    if k > 0 {
      PollLoopReached(polls[1..], cap, slug, previous, newThread, k - 1);
      assert polls[1..][k - 1] == polls[k];
    }
  }

  /** When the first answer that ends the loop says the event is gone: `k + 1` queries, nothing else. */
  lemma {:induction false} PollLoopNotFound(polls: seq<PollResult>, cap: int, slug: string,
                                            previous: Option<ThreadRef>, newThread: ThreadRef, k: nat)
    requires FirstStop(polls, cap, k) && polls[k].NotFound?
    ensures var r := PollLoop(polls, cap, slug, previous, newThread);
      r.events == Probes(k) + [Poll] && r.outcome == EventNotFound && r.previous == previous
  {
    if k > 0 {
      PollLoopNotFound(polls[1..], cap, slug, previous, newThread, k - 1);
      assert polls[1..][k - 1] == polls[k];
    }
  }

  /** Answers that never end the loop (errors, counts below the cap) give only queries and pauses. */
  lemma {:induction false} PollLoopExhausted(polls: seq<PollResult>, cap: int, slug: string,
                                             previous: Option<ThreadRef>, newThread: ThreadRef)
    requires forall j :: 0 <= j < |polls| ==> !Stops(polls[j], cap)
    ensures var r := PollLoop(polls, cap, slug, previous, newThread);
      r.events == Probes(|polls|) && r.outcome == Exhausted && r.previous == previous
  {
    if polls != [] {
      PollLoopExhausted(polls[1..], cap, slug, previous, newThread);
    }
  }

  /** Every input ends one of the three ways above. */
  lemma {:induction false} StopOrRunOut(polls: seq<PollResult>, cap: int)
    ensures (forall j :: 0 <= j < |polls| ==> !Stops(polls[j], cap)) ||
            exists k: nat :: FirstStop(polls, cap, k)
  {
    if polls != [] && !Stops(polls[0], cap) {
      StopOrRunOut(polls[1..], cap);
      if exists k: nat :: FirstStop(polls[1..], cap, k) {
        var k: nat :| FirstStop(polls[1..], cap, k);
        assert FirstStop(polls, cap, k + 1);
      } else {
        forall j | 0 <= j < |polls| ensures !Stops(polls[j], cap) {
          if j > 0 {
            assert polls[j] == polls[1..][j - 1];
          }
        }
      }
    } else if polls != [] {
      assert FirstStop(polls, cap, 0);
    }
  }

  /**
    Counting what the loop did: a thread is created exactly when the cap is
    reached, then exactly once, with the slug's title; the number of queries
    is the reaching answer's position plus one.
   */
  lemma {:induction false} PollLoopCounts(polls: seq<PollResult>, cap: int, slug: string,
                       previous: Option<ThreadRef>, newThread: ThreadRef, k: nat)
    requires FirstStop(polls, cap, k) && polls[k].Count?
    ensures var r := PollLoop(polls, cap, slug, previous, newThread);
      multiset(r.events)[Poll] == k + 1 && multiset(r.events)[Wait] == k &&
      multiset(r.events)[Create(Live, WaitlistTitle(slug))] == 1 &&
      forall e | e in r.events && e.Create? :: e == Create(Live, WaitlistTitle(slug))
  {
    PollLoopReached(polls, cap, slug, previous, newThread, k);
    ReachedShapeContent(k, previous, Create(Live, WaitlistTitle(slug)));
  }

  lemma ReachedShapeContent(k: nat, previous: Option<ThreadRef>, created: Event)
    requires created.Create?
    ensures var ev := Probes(k) + [Poll] + Retire(previous) + [created];
      multiset(ev)[Poll] == k + 1 && multiset(ev)[Wait] == k && multiset(ev)[created] == 1 &&
      forall e | e in ev && e.Create? :: e == created
  {
    ProbesContent(k);
    var tail := [Poll] + Retire(previous) + [created];
    HandoverContent(previous, created);
    assert created !in Probes(k);
    assert Probes(k) + [Poll] + Retire(previous) + [created] == Probes(k) + tail;
    assert multiset(Probes(k) + tail) == multiset(Probes(k)) + multiset(tail);
  }

  /** What follows the reaching query: one query, no pause, the thread created once and last. */
  lemma HandoverContent(previous: Option<ThreadRef>, created: Event)
    requires created.Create?
    ensures var tail := [Poll] + Retire(previous) + [created];
      multiset(tail)[Poll] == 1 && multiset(tail)[Wait] == 0 && multiset(tail)[created] == 1 &&
      forall e | e in tail && e.Create? :: e == created
  {
    if previous.Some? {
      assert [Poll] + Retire(previous) + [created] == [Poll, Lock(previous.value), Note(previous.value), created];
    } else {
      assert [Poll] + Retire(previous) + [created] == [Poll, created];
    }
  }

  /** Without an answer at or above the cap, no thread is created and nothing is locked. */
  lemma {:induction false} NoThreadBelowCap(polls: seq<PollResult>, cap: int, slug: string,
                         previous: Option<ThreadRef>, newThread: ThreadRef)
    requires forall j :: 0 <= j < |polls| ==> !(polls[j].Count? && polls[j].entrants >= cap)
    ensures var r := PollLoop(polls, cap, slug, previous, newThread);
      r.previous == previous && !r.outcome.Reached? &&
      forall e | e in r.events :: e == Poll || e == Wait
  {
    StopOrRunOut(polls, cap);
    if exists k: nat :: FirstStop(polls, cap, k) {
      var k: nat :| FirstStop(polls, cap, k);
      PollLoopNotFound(polls, cap, slug, previous, newThread, k);
      ProbesContent(k);
    } else {
      PollLoopExhausted(polls, cap, slug, previous, newThread);
      ProbesContent(|polls|);
    }
  }

  /**
    When the cap is reached and there was a previous thread, it is locked,
    then noted, then the new thread is created, and nothing follows.
   */
  lemma {:induction false} LockBeforeCreate(polls: seq<PollResult>, cap: int, slug: string, t: ThreadRef, newThread: ThreadRef)
    requires PollLoop(polls, cap, slug, Some(t), newThread).outcome.Reached?
    ensures var ev := PollLoop(polls, cap, slug, Some(t), newThread).events;
      |ev| >= 3 && ev[|ev| - 3] == Lock(t) && ev[|ev| - 2] == Note(t) && ev[|ev| - 1].Create? &&
      forall i | 0 <= i < |ev| - 3 :: ev[i] == Poll || ev[i] == Wait
  {
    StopOrRunOut(polls, cap);
    if exists k: nat :: FirstStop(polls, cap, k) {
      var k: nat :| FirstStop(polls, cap, k);
      if polls[k].NotFound? {
        PollLoopNotFound(polls, cap, slug, Some(t), newThread, k);
      } else {
        PollLoopReached(polls, cap, slug, Some(t), newThread, k);
        ProbesContent(k);
        var ev := PollLoop(polls, cap, slug, Some(t), newThread).events;
        assert ev == Probes(k) + [Poll, Lock(t), Note(t), Create(Live, WaitlistTitle(slug))];
        forall i | 0 <= i < |ev| - 3 ensures ev[i] == Poll || ev[i] == Wait {
          if i < 2 * k {
            assert ev[i] in Probes(k);
          }
        }
      }
    } else {
      PollLoopExhausted(polls, cap, slug, Some(t), newThread);
    }
  }

  // ---------------------------------------------------------------------------
  // The cycle

  /** A cancelled week or a missing slug: no side effect and no change, and only then. */
  lemma CycleGuards(s: BotState, w: World)
    ensures var r := Cycle(s, w);
      (s.canceledThisWeek || !HasSlug(s)) <==> !r.outcome.Ran?
    ensures var r := Cycle(s, w);
      !r.outcome.Ran? ==> r.events == [] && r.after == s
  {
  }

  /**
    When the cycle runs and the announcement channel exists, the first event
    is the one announcement, naming the cap and the slug; every query comes
    after it.
   */
  lemma AnnouncementFirst(s: BotState, w: World)
    requires !s.canceledThisWeek && HasSlug(s) && w.announcementChannel
    ensures var ev := Cycle(s, w).events;
      |ev| >= 1 && ev[0] == Announce(Live, s.attendeeCap, s.currentEventSlug.value) &&
      forall i | 0 <= i < |ev| && (ev[i].Announce? || ev[i] == Poll) :: (i == 0 <==> ev[i].Announce?)
  {
    var slug := s.currentEventSlug.value;
    var r := AttendeeWatch(s.attendeeCap, slug, s.previousPost, w.waitlistChannel, w.polls, w.newThread);
    var ev := Cycle(s, w).events;
    assert ev == [Announce(Live, s.attendeeCap, slug)] + r.events;
    forall i | 1 <= i < |ev| ensures !ev[i].Announce? {
      assert ev[i] == r.events[i - 1];
      assert ev[i] in r.events;
    }
  }

  /**
    A cycle changes only the previous post, and changes it only to the new
    thread, after reaching the cap.
   */
  lemma CycleMovesOnlyPreviousPost(s: BotState, w: World)
    ensures var r := Cycle(s, w);
      r.after == s.(previousPost := r.after.previousPost) &&
      (r.after.previousPost != s.previousPost ==> r.after.previousPost == Some(w.newThread) && r.outcome.Ran? && r.outcome.watch.Reached?)
  {
  }

  /** Registration fills on the third query: three queries, two pauses, one thread. */
  lemma ScenarioFillsOnThirdPoll(slug: string, newThread: ThreadRef)
    requires slug != []
    ensures var s := Initial.(currentEventSlug := Some(slug));
      var r := Cycle(s, World(true, true, [Count(10), Count(20), Count(32)], newThread));
      r.events == [Announce(Live, 32, slug), Poll, Wait, Poll, Wait, Poll, Create(Live, "Waitlist for " + slug)] &&
      r.outcome == Ran(Reached(32)) && r.after == s.(previousPost := Some(newThread))
  {
    var polls := [Count(10), Count(20), Count(32)];
    assert FirstStop(polls, 32, 2);
    PollLoopReached(polls, 32, slug, None, newThread, 2);
  }

  /** The event is not found on the first query: one query, no lock, no thread. */
  lemma ScenarioNotFound(s: BotState, newThread: ThreadRef, rest: seq<PollResult>)
    requires !s.canceledThisWeek && HasSlug(s) && s.attendeeCap > 0
    ensures var r := Cycle(s, World(true, true, [NotFound] + rest, newThread));
      r.events == [Announce(Live, s.attendeeCap, s.currentEventSlug.value), Poll] &&
      r.outcome == Ran(EventNotFound) && r.after == s
  {
  }

  /** A failed query, then a full count at cap 32: two queries, one pause, one thread. */
  lemma ScenarioRetryAfterError(slug: string, t: ThreadRef, newThread: ThreadRef)
    requires slug != []
    ensures var s := Initial.(currentEventSlug := Some(slug), previousPost := Some(t));
      var r := Cycle(s, World(true, true, [TransientError, Count(32)], newThread));
      r.events == [Announce(Live, 32, slug), Poll, Wait, Poll, Lock(t), Note(t), Create(Live, "Waitlist for " + slug)] &&
      r.outcome == Ran(Reached(32)) && r.after.previousPost == Some(newThread)
  {
    var polls := [TransientError, Count(32)];
    assert FirstStop(polls, 32, 1);
    PollLoopReached(polls, 32, slug, Some(t), newThread, 1);
  }

  /** With a cap of zero or below the loop is never entered: no query and no thread. */
  lemma NoPollWithoutPositiveCap(s: BotState, w: World)
    requires !s.canceledThisWeek && HasSlug(s) && s.attendeeCap <= 0
    ensures var r := Cycle(s, w);
      r.events == Announcement(w.announcementChannel, Live, s.attendeeCap, s.currentEventSlug.value) &&
      r.after == s
  {
  }

  // ---------------------------------------------------------------------------
  // The test command

  /**
    A test run makes no query, retires the previous thread before it creates
    the test thread, and leaves that test thread as the previous post.
   */
  lemma TestRunReplacesPreviousPost(s: BotState, announcementChannel: bool, newThread: ThreadRef)
    ensures var e := TestRun(s, announcementChannel, true, newThread);
      Poll !in e.events && e.after == s.(previousPost := Some(newThread)) &&
      e.events[|e.events| - 1] == Create(Trial, TrialTitle(s)) &&
      e.events[..|Retire(s.previousPost)|] == Retire(s.previousPost)
  {
    var e := TestRun(s, announcementChannel, true, newThread);
    var ann := Announcement(announcementChannel, Trial, s.attendeeCap, SlugOr(s, "test-event"));
    assert e.events == Retire(s.previousPost) + (ann + [Create(Trial, TrialTitle(s))]);
  }

  /**
    So the next real cycle that reaches the cap locks and notes the test
    thread rather than the last real waitlist thread.
   */
  lemma TestThreadLockedByNextCycle(s: BotState, announcementChannel: bool, trial: ThreadRef, w: World)
    requires !s.canceledThisWeek && HasSlug(s)
    requires Cycle(TestRun(s, announcementChannel, true, trial).after, w).outcome.Ran?
    requires Cycle(TestRun(s, announcementChannel, true, trial).after, w).outcome.watch.Reached?
    ensures Lock(trial) in Cycle(TestRun(s, announcementChannel, true, trial).after, w).events
  {
    var s' := TestRun(s, announcementChannel, true, trial).after;
    var slug := s.currentEventSlug.value;
    var r := PollLoop(w.polls, s.attendeeCap, slug, Some(trial), w.newThread);
    LockBeforeCreate(w.polls, s.attendeeCap, slug, trial, w.newThread);
    var ann := Announcement(w.announcementChannel, Live, s.attendeeCap, slug);
    assert Cycle(s', w).events == ann + r.events;
    assert r.events[|r.events| - 3] in r.events;
  }
}
