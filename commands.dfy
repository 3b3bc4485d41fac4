/**
  The bot object: its four fields are updated in place by the scheduled
  cycle and by the operator commands.  Each method returns the side effects
  it performs, in order, and is proved to agree with the functions of module
  Watch, whose properties are proved there.
 */
module Commands {
  import opened Wrappers
  import opened Watch
  import Slugs

  class Bot {
    var canceledThisWeek: bool
    var previousPost: Option<ThreadRef>
    var currentEventSlug: Option<string>
    var attendeeCap: int

    /** The fields as a value. */
    function State(): BotState
      reads this
    {
      BotState(canceledThisWeek, previousPost, currentEventSlug, attendeeCap)
    }

    /** `on_ready`: not cancelled, no previous thread, no slug, the default cap of 32. */
    constructor ()
      ensures State() == Initial
      ensures !canceledThisWeek && previousPost == None && currentEventSlug == None && attendeeCap == 32
    {
      canceledThisWeek := false;
      previousPost := None;
      currentEventSlug := None;
      attendeeCap := DefaultAttendeeCap;
    }

    /** The weekly lock job: lock and note the previous thread, but keep the reference. */
    method LockPreviousPost() returns (events: seq<Event>)
      ensures previousPost.None? ==> events == []
      ensures previousPost.Some? ==> events == [Lock(previousPost.value), Note(previousPost.value)]
      ensures events == Retire(previousPost)
    {
      events := Retire(previousPost);
    }

    /** `set_current_event`: the slug becomes the last four '/'-separated segments of the URL. */
    method SetCurrentEvent(url: string)
      modifies this`currentEventSlug
      ensures currentEventSlug == Some(Slugs.ExtractSlug(url))
      ensures State() == old(State()).(currentEventSlug := Some(Slugs.ExtractSlug(url)))
    {
      currentEventSlug := Some(Slugs.ExtractSlug(url));
    }

    /** `set_attendee_cap`: any integer is accepted. */
    method SetAttendeeCap(cap: int)
      modifies this`attendeeCap
      ensures State() == old(State()).(attendeeCap := cap)
    {
      attendeeCap := cap;
    }

    /** `cancel_run`. */
    method CancelRun()
      modifies this`canceledThisWeek
      ensures State() == old(State()).(canceledThisWeek := true)
    {
      canceledThisWeek := true;
    }

    /** `resume_run`. */
    method ResumeRun()
      modifies this`canceledThisWeek
      ensures State() == old(State()).(canceledThisWeek := false)
    {
      canceledThisWeek := false;
    }

    /** `clean_previous_post`: forget the previous thread; `cleared` tells which reply is sent. */
    method CleanPreviousPost() returns (cleared: bool)
      modifies this`previousPost
      ensures cleared == old(previousPost).Some?
      ensures State() == old(State()).(previousPost := None)
    {
      cleared := previousPost.Some?;
      if cleared {
        previousPost := None;
      }
    }

    /**
      `check_attendees`: the polling loop.  Each turn takes the next answer of
      `polls`; the model stops with `Exhausted` when they run out.  The slug is
      set, as the only caller checks it first.
     */
    method CheckAttendees(waitlistChannel: bool, polls: seq<PollResult>, newThread: ThreadRef)
      returns (events: seq<Event>, outcome: WatchOutcome)
      requires currentEventSlug.Some?
      modifies this`previousPost
      ensures var r := AttendeeWatch(attendeeCap, currentEventSlug.value, old(previousPost), waitlistChannel, polls, newThread);
        events == r.events && outcome == r.outcome && previousPost == r.previous
    {
      if !waitlistChannel {
        return [], NoWaitlistChannel;
      }
      var slug := currentEventSlug.value;
      var attendeeCount := 0;
      var i := 0;
      events, outcome := [], CapAlreadyMet;
      while attendeeCount < attendeeCap
        invariant 0 <= i <= |polls|
        invariant i == 0 ==> attendeeCount == 0
        invariant i > 0 ==> 0 < attendeeCap && attendeeCount < attendeeCap
        invariant forall j :: 0 <= j < i ==> !Stops(polls[j], attendeeCap)
        invariant events == Probes(i)
        invariant previousPost == old(previousPost)
        decreases |polls| - i
      {
        if i == |polls| {
          PollLoopExhausted(polls, attendeeCap, slug, previousPost, newThread);
          outcome := Exhausted;
          break;
        }
        var answer := polls[i];
        ProbesSnoc(i);
        i := i + 1;
        events := events + [Poll];
        if answer.NotFound? {
          PollLoopNotFound(polls, attendeeCap, slug, previousPost, newThread, i - 1);
          outcome := EventNotFound;
          break;
        }
        if answer.TransientError? {
          events := events + [Wait];
          continue;
        }
        attendeeCount := answer.entrants;
        if attendeeCount >= attendeeCap {
          PollLoopReached(polls, attendeeCap, slug, previousPost, newThread, i - 1);
          events := events + Retire(previousPost) + [Create(Live, WaitlistTitle(slug))];
          previousPost := Some(newThread);
          outcome := Reached(attendeeCount);
          break;
        }
        events := events + [Wait];
      }
    }

    /** `scheduled_task_wrapper`: the weekly cycle. */
    method ScheduledTask(w: World) returns (events: seq<Event>, outcome: CycleOutcome)
      modifies this`previousPost
      ensures var r := Cycle(old(State()), w);
        events == r.events && outcome == r.outcome && State() == r.after
    {
      if canceledThisWeek {
        return [], Canceled;
      }
      if currentEventSlug.None? || currentEventSlug.value == [] {
        return [], NoSlug;
      }
      events := [];
      if w.announcementChannel {
        events := [Announce(Live, attendeeCap, currentEventSlug.value)];
      }
      var watched, result := CheckAttendees(w.waitlistChannel, w.polls, w.newThread);
      events := events + watched;
      outcome := Ran(result);
    }

    /**
      The `test` command: retire the previous thread, announce and create a
      thread in the test channels when they exist.  The test thread becomes
      the previous post.
     */
    method Test(announcementChannel: bool, waitlistChannel: bool, newThread: ThreadRef) returns (events: seq<Event>)
      modifies this`previousPost
      ensures var e := TestRun(old(State()), announcementChannel, waitlistChannel, newThread);
        events == e.events && State() == e.after
    {
      events := Retire(previousPost);
      if announcementChannel {
        events := events + [Announce(Trial, attendeeCap, SlugOr(State(), "test-event"))];
      }
      if waitlistChannel {
        events := events + [Create(Trial, TrialTitle(State()))];
        previousPost := Some(newThread);
      }
    }
  }

  /**
    An example client of the class, not part of the bot: a test run followed
    by a scheduled cycle that fills on its second query.  In the model the
    cycle locks and notes the thread the test created, then replaces it.
   */
  method TestThenCycle(url: string, trial: ThreadRef, next: ThreadRef)
    requires Slugs.ExtractSlug(url) != []
  {
    var bot := new Bot();
    bot.SetCurrentEvent(url);
    var slug := Slugs.ExtractSlug(url);
    var testEvents := bot.Test(true, true, trial);
    assert testEvents == [Announce(Trial, 32, slug), Create(Trial, "Waitlist for " + slug + " (TEST MODE)")];
    assert bot.previousPost == Some(trial);

    var polls := [TransientError, Count(40)];
    assert FirstStop(polls, 32, 1);
    PollLoopReached(polls, 32, slug, Some(trial), next, 1);
    assert Probes(1) == [Poll, Wait];
    var events, outcome := bot.ScheduledTask(World(true, true, polls, next));
    assert events == [Announce(Live, 32, slug), Poll, Wait, Poll, Lock(trial), Note(trial), Create(Live, WaitlistTitle(slug))];
    assert outcome == Ran(Reached(40));
    assert bot.previousPost == Some(next);
  }
}
