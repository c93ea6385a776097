/**
 * Polling for a device code (sections 3.2 and 3.5 of RFC 8628) against a clock
 * that runs on by itself, and sleeps that may take longer than asked for.
 */
module DeviceCode {
  import opened Wrappers

  datatype PollResult =
    | Complete(value: string)
    | Failed(message: string)
    | SlowDown(intervalSeconds: int)
    | Pending
    | Broken(error: string)

  /** What the flow does to the outside: read the clock, poll, or ask for a sleep. */
  datatype Act = Read | Poll | Sleep(millis: int)

  /** The outside answers as it likes, knowing all that happened before. */
  datatype World = World(
    clock: seq<Act> -> int,
    poll: seq<Act> -> PollResult,
    cancelled: seq<Act> -> bool,
    interrupted: seq<Act> -> bool)   // a sleep asked for now ends early, with an error

  datatype Options = Options(intervalSeconds: int, expiresInSeconds: int, waitBeforeFirstPoll: bool)

  datatype Outcome =
    | Completed(value: string)
    | PollFailed(message: string)
    | PollBroke(error: string)
    | Cancelled
    | TimedOut(slowDown: bool)

  const DEFAULT_INTERVAL_SECONDS := 5
  const MINIMUM_INTERVAL_MILLIS := 1000
  const SLOW_DOWN_INCREMENT_MILLIS := 5000

  /** The clock never goes back, and a sleep that is not interrupted takes at least its time. */
  ghost predicate RunsOn(w: World) { forall h: seq<Act>, a: Act :: TakesTime(w, h, a) }

  predicate TakesTime(w: World, h: seq<Act>, a: Act) {
    w.clock(h + [a]) >= w.clock(h) + if a.Sleep? && a.millis > 0 && !w.interrupted(h) then a.millis else 0
  }

  predicate HasDeadline(o: Options) { o.expiresInSeconds > 0 }

  /** The flow reads the clock first, and the code expires so many seconds later. */
  function Deadline(w: World, o: Options): int { w.clock([]) + o.expiresInSeconds * 1000 }

  function AtLeastMinimum(millis: int): (r: int)
    ensures r >= MINIMUM_INTERVAL_MILLIS
  {
    if millis < MINIMUM_INTERVAL_MILLIS then MINIMUM_INTERVAL_MILLIS else millis
  }

  function FirstInterval(o: Options): int {
    AtLeastMinimum((if o.intervalSeconds <= 0 then DEFAULT_INTERVAL_SECONDS else o.intervalSeconds) * 1000)
  }

  /** The polling interval after what happened: the server's on a slow_down that names one, else five seconds more. */
  function Interval(w: World, o: Options, h: seq<Act>): (r: int)
    ensures r >= MINIMUM_INTERVAL_MILLIS
    decreases |h|
  {
    if h == [] then FirstInterval(o)
    else
      var before := h[..|h| - 1];
      var i := Interval(w, o, before);
      if h[|h| - 1] == Poll && w.poll(before).SlowDown? then
        AtLeastMinimum(if w.poll(before).intervalSeconds > 0 then w.poll(before).intervalSeconds * 1000 else i + SLOW_DOWN_INCREMENT_MILLIS)
      else i
  }

  ghost predicate SlowedDown(w: World, h: seq<Act>) {
    exists k :: 0 <= k < |h| && h[k] == Poll && w.poll(h[..k]).SlowDown?
  }

  function Polls(h: seq<Act>): nat { if h == [] then 0 else Polls(h[..|h| - 1]) + if h[|h| - 1] == Poll then 1 else 0 }

  /** The act at k was proper: a poll of a live context, right after a reading before the deadline, a sleep of the interval or up to the deadline. */
  predicate Proper(w: World, o: Options, h: seq<Act>, k: nat)
    requires k < |h|
  {
    match h[k]
    case Read => true
    case Poll =>
      && !w.cancelled(h[..k])
      && (HasDeadline(o) ==> k > 0 && h[k - 1] == Read && w.clock(h[..k - 1]) < Deadline(w, o))
    case Sleep(millis) =>
      if HasDeadline(o) then
        && k > 0 && h[k - 1] == Read
        && var remaining := Deadline(w, o) - w.clock(h[..k - 1]);
           0 < millis == if Interval(w, o, h[..k]) < remaining then Interval(w, o, h[..k]) else remaining
      else millis == Interval(w, o, h[..k])
  }

  predicate AllProper(w: World, o: Options, h: seq<Act>) { forall k | 0 <= k < |h| :: Proper(w, o, h, k) }

  lemma ProperNext(w: World, o: Options, h: seq<Act>, a: Act)
    requires AllProper(w, o, h) && Proper(w, o, h + [a], |h|)
    ensures AllProper(w, o, h + [a])
  {
    var g := h + [a];
    forall k | 0 <= k < |g| ensures Proper(w, o, g, k) {
      if k < |h| {
        assert Proper(w, o, h, k);
        assert g[..k] == h[..k];
        if k > 0 {
          assert g[..k - 1] == h[..k - 1];
        }
      }
    }
  }

  lemma HistoryNext(w: World, o: Options, h: seq<Act>, a: Act)
    ensures Polls(h + [a]) == Polls(h) + if a == Poll then 1 else 0
    ensures SlowedDown(w, h + [a]) <==> SlowedDown(w, h) || (a == Poll && w.poll(h).SlowDown?)
    ensures Interval(w, o, h + [a]) ==
              if a == Poll && w.poll(h).SlowDown? then
                AtLeastMinimum(if w.poll(h).intervalSeconds > 0 then w.poll(h).intervalSeconds * 1000
                               else Interval(w, o, h) + SLOW_DOWN_INCREMENT_MILLIS)
              else Interval(w, o, h)
  {
    var g := h + [a];
    assert g[..|h|] == h;
    if SlowedDown(w, h) {
      var k :| 0 <= k < |h| && h[k] == Poll && w.poll(h[..k]).SlowDown?;
      assert g[..k] == h[..k] && g[k] == Poll;
    }
    if a == Poll && w.poll(h).SlowDown? {
      assert g[|h|] == Poll && w.poll(g[..|h|]).SlowDown?;
    }
    if SlowedDown(w, g) {
      var k :| 0 <= k < |g| && g[k] == Poll && w.poll(g[..k]).SlowDown?;
      if k < |h| {
        assert h[k] == Poll && w.poll(h[..k]).SlowDown? by { assert g[..k] == h[..k]; }
      }
    }
  }

  // ----- Polls and sleeps take turns ---------------------------------------------------------------

  /** The polls and sleeps, without the readings of the clock. */
  function Beats(h: seq<Act>): seq<Act> {
    if h == [] then [] else Beats(h[..|h| - 1]) + if h[|h| - 1].Read? then [] else [h[|h| - 1]]
  }

  /** It is a poll's turn after so many polls and sleeps. */
  predicate PollsNext(o: Options, n: nat) { n % 2 == if o.waitBeforeFirstPoll then 1 else 0 }

  /** A sleep stands between any two polls, and before the first one if that is asked for. */
  predicate InTurn(o: Options, h: seq<Act>) {
    forall i | 0 <= i < |Beats(h)| :: Beats(h)[i] == Poll <==> PollsNext(o, i)
  }

  /** No poll so far has decided the flow. */
  predicate Undecided(w: World, h: seq<Act>) {
    forall k | 0 <= k < |h| && h[k] == Poll :: w.poll(h[..k]).Pending? || w.poll(h[..k]).SlowDown?
  }

  lemma BeatsNext(h: seq<Act>, a: Act)
    ensures Beats(h + [a]) == Beats(h) + if a.Read? then [] else [a]
  {
    assert (h + [a])[..|h|] == h;
  }

  lemma TurnNext(o: Options, h: seq<Act>, a: Act)
    requires InTurn(o, h) && (a.Poll? ==> PollsNext(o, |Beats(h)|)) && (a.Sleep? ==> !PollsNext(o, |Beats(h)|))
    ensures InTurn(o, h + [a]) && |Beats(h + [a])| == |Beats(h)| + if a.Read? then 0 else 1
  {
    hide Beats, PollsNext;
    BeatsNext(h, a);
    var beats := Beats(h);
    if a.Read? {
      assert beats + [] == beats;
    } else {
      assert forall i | 0 <= i < |beats| :: (beats + [a])[i] == beats[i];
    }
  }

  lemma UndecidedNext(w: World, h: seq<Act>, a: Act)
    ensures Undecided(w, h + [a]) <==> Undecided(w, h) && (a == Poll ==> w.poll(h).Pending? || w.poll(h).SlowDown?)
  {
    var g := h + [a];
    assert g[..|h|] == h && g[|h|] == a;
    assert forall k | 0 <= k < |h| :: g[k] == h[k] && g[..k] == h[..k];
  }

  // ----- The pace --------------------------------------------------------------------------------

  /** So many polls fit before the clock's time, one a second, unless the code has expired. */
  predicate OnPace(w: World, o: Options, h: seq<Act>, polls: int) {
    HasDeadline(o) ==> w.clock(h) >= Deadline(w, o) || w.clock(h) >= w.clock([]) + polls * 1000
  }

  lemma StillOnPace(w: World, o: Options, h: seq<Act>, a: Act, polls: int)
    requires RunsOn(w) && OnPace(w, o, h, polls)
    ensures OnPace(w, o, h + [a], polls) && w.clock(h + [a]) >= w.clock(h)
    ensures TakesTime(w, h, a)
  {
    assert TakesTime(w, h, a);
  }

  datatype Waited = Slept | Expired | Interrupted

  /** The sleep between polls: the interval, or what is left before the deadline. */
  method Wait(w: World, o: Options, before: seq<Act>, intervalMillis: int) returns (r: Waited, h: seq<Act>)
    requires RunsOn(w) && AllProper(w, o, before) && intervalMillis == Interval(w, o, before)
    requires OnPace(w, o, before, Polls(before) - 1)
    requires InTurn(o, before) && !PollsNext(o, |Beats(before)|)
    ensures AllProper(w, o, h) && Polls(h) == Polls(before) && Interval(w, o, h) == intervalMillis
    ensures InTurn(o, h) && (r.Slept? ==> PollsNext(o, |Beats(h)|)) && (Undecided(w, h) <==> Undecided(w, before))
    ensures SlowedDown(w, h) <==> SlowedDown(w, before)
    ensures |h| > |before| && w.clock(h) >= w.clock(before)
    ensures r.Slept? ==> OnPace(w, o, h, Polls(h)) && (HasDeadline(o) ==> w.clock(h) > w.clock(before))
    ensures r.Expired? ==> HasDeadline(o) && h[|h| - 1] == Read && w.clock(h[..|h| - 1]) >= Deadline(w, o)
    ensures r.Interrupted? ==> BrokenSleep(w, h)
  {
    hide AllProper, OnPace, Interval, SlowedDown, Polls, RunsOn, InTurn, Beats, Undecided;
    h := before;
    var wait := intervalMillis;
    if HasDeadline(o) {
      var remaining := Deadline(w, o) - w.clock(h);
      ReadNext(w, o, h, Polls(h) - 1);
      TurnNext(o, h, Read);
      UndecidedNext(w, h, Read);
      h := h + [Read];
      if remaining <= 0 {
        return Expired, h;
      }
      if remaining < wait {
        wait := remaining;
      }
    }
    SleepNext(w, o, before, h, wait);
    TurnNext(o, h, Sleep(wait));
    UndecidedNext(w, h, Sleep(wait));
    var interrupted := w.interrupted(h);
    assert (h + [Sleep(wait)])[..|h|] == h;
    h := h + [Sleep(wait)];
    if interrupted {
      return Interrupted, h;
    }
    r := Slept;
  }

  lemma ReadNext(w: World, o: Options, h: seq<Act>, polls: int)
    requires RunsOn(w) && AllProper(w, o, h) && OnPace(w, o, h, polls)
    ensures var g := h + [Read];
            && g[..|g| - 1] == h && g[|g| - 1] == Read && AllProper(w, o, g) && OnPace(w, o, g, polls)
            && Polls(g) == Polls(h) && Interval(w, o, g) == Interval(w, o, h) && (SlowedDown(w, g) <==> SlowedDown(w, h))
            && w.clock(g) >= w.clock(h)
  {
    HistoryNext(w, o, h, Read);
    ProperNext(w, o, h, Read);
    StillOnPace(w, o, h, Read, polls);
    assert (h + [Read])[..|h|] == h;
  }

  lemma SleepNext(w: World, o: Options, before: seq<Act>, h: seq<Act>, wait: int)
    requires RunsOn(w) && AllProper(w, o, h) && OnPace(w, o, before, Polls(before) - 1)
    requires h == if HasDeadline(o) then before + [Read] else before
    requires w.clock(h) >= w.clock(before) && Polls(h) == Polls(before)
    requires var i := Interval(w, o, h); var remaining := Deadline(w, o) - w.clock(before);
             if HasDeadline(o) && remaining <= i then wait == remaining > 0 else wait == i
    ensures var g := h + [Sleep(wait)];
            && AllProper(w, o, g) && Polls(g) == Polls(h) && Interval(w, o, g) == Interval(w, o, h)
            && (SlowedDown(w, g) <==> SlowedDown(w, h)) && w.clock(g) >= w.clock(h)
            && (!w.interrupted(h) ==> OnPace(w, o, g, Polls(g)) && (HasDeadline(o) ==> w.clock(g) > w.clock(before)))
  {
    hide Polls, SlowedDown, RunsOn;
    SleepIsProper(w, o, before, h, wait);
    HistoryNext(w, o, h, Sleep(wait));
    ProperNext(w, o, h, Sleep(wait));
    SleepTakesTime(w, h, wait);
  }

  lemma SleepTakesTime(w: World, h: seq<Act>, wait: int)
    requires RunsOn(w)
    ensures TakesTime(w, h, Sleep(wait))
  {
  }

  lemma SleepIsProper(w: World, o: Options, before: seq<Act>, h: seq<Act>, wait: int)
    requires h == if HasDeadline(o) then before + [Read] else before
    requires var i := Interval(w, o, h); var remaining := Deadline(w, o) - w.clock(before);
             if HasDeadline(o) && remaining <= i then wait == remaining > 0 else wait == i
    ensures Proper(w, o, h + [Sleep(wait)], |h|)
  {
    hide Interval;
    var g := h + [Sleep(wait)];
    assert g[..|h|] == h;
    assert HasDeadline(o) ==> g[..|h| - 1] == before && g[|h| - 1] == Read;
  }

  /** The loop's condition: the clock is read only if there is a deadline. */
  method IsExpired(w: World, o: Options, before: seq<Act>) returns (r: bool, h: seq<Act>)
    requires RunsOn(w) && AllProper(w, o, before) && OnPace(w, o, before, Polls(before)) && InTurn(o, before)
    ensures InTurn(o, h) && |Beats(h)| == |Beats(before)| && (Undecided(w, h) <==> Undecided(w, before))
    ensures r <==> HasDeadline(o) && w.clock(before) >= Deadline(w, o)
    ensures h == if HasDeadline(o) then before + [Read] else before
    ensures r ==> h != [] && h[..|h| - 1] == before
    ensures AllProper(w, o, h) && OnPace(w, o, h, Polls(h)) && Polls(h) == Polls(before)
    ensures Interval(w, o, h) == Interval(w, o, before) && (SlowedDown(w, h) <==> SlowedDown(w, before))
    ensures w.clock(h) >= w.clock(before)
  {
    if !HasDeadline(o) {
      return false, before;
    }
    ReadNext(w, o, before, Polls(before));
    TurnNext(o, before, Read);
    UndecidedNext(w, before, Read);
    h := before + [Read];
    r := w.clock(before) >= Deadline(w, o);
  }

  /** One poll, right after the reading, if any, that found the code alive. */
  method PollOnce(w: World, o: Options, ghost start: seq<Act>, before: seq<Act>) returns (r: PollResult, h: seq<Act>)
    requires RunsOn(w) && AllProper(w, o, before) && OnPace(w, o, start, Polls(before))
    requires before == if HasDeadline(o) then start + [Read] else start
    requires HasDeadline(o) ==> w.clock(start) < Deadline(w, o)
    requires !w.cancelled(before) && InTurn(o, before) && PollsNext(o, |Beats(before)|)
    ensures InTurn(o, h) && !PollsNext(o, |Beats(h)|)
    ensures Undecided(w, h) <==> Undecided(w, before) && (r.Pending? || r.SlowDown?)
    ensures h == before + [Poll] && h[..|h| - 1] == before && r == w.poll(before)
    ensures AllProper(w, o, h) && OnPace(w, o, h, Polls(h) - 1) && (HasDeadline(o) ==> Polls(h) <= o.expiresInSeconds)
    ensures Interval(w, o, h) ==
              if r.SlowDown? then AtLeastMinimum(if r.intervalSeconds > 0 then r.intervalSeconds * 1000
                                                 else Interval(w, o, before) + SLOW_DOWN_INCREMENT_MILLIS)
              else Interval(w, o, before)
    ensures SlowedDown(w, h) <==> SlowedDown(w, before) || r.SlowDown?
    ensures w.clock(h) >= w.clock(start)
  {
    hide AllProper, OnPace, Interval, SlowedDown, Polls, RunsOn, InTurn, Beats, Undecided, PollsNext;
    r := w.poll(before);
    h := before + [Poll];
    assert h[..|before|] == before;
    PollIsProper(w, o, start, before);
    PollKeepsPace(w, o, start, before);
    HistoryNext(w, o, before, Poll);
    TurnNext(o, before, Poll);
    TurnsOver(o, |Beats(before)|);
    UndecidedNext(w, before, Poll);
  }

  lemma TurnsOver(o: Options, n: nat)
    ensures PollsNext(o, n + 1) <==> !PollsNext(o, n)
  {
  }

  lemma PollIsProper(w: World, o: Options, start: seq<Act>, before: seq<Act>)
    requires AllProper(w, o, before) && before == if HasDeadline(o) then start + [Read] else start
    requires (HasDeadline(o) ==> w.clock(start) < Deadline(w, o)) && !w.cancelled(before)
    ensures AllProper(w, o, before + [Poll])
  {
    hide AllProper, Interval;
    var h := before + [Poll];
    assert h[..|before|] == before;
    assert HasDeadline(o) ==> h[..|before| - 1] == start && h[|before| - 1] == Read;
    ProperNext(w, o, before, Poll);
  }

  lemma PollKeepsPace(w: World, o: Options, start: seq<Act>, before: seq<Act>)
    requires RunsOn(w) && OnPace(w, o, start, Polls(before))
    requires before == if HasDeadline(o) then start + [Read] else start
    requires HasDeadline(o) ==> w.clock(start) < Deadline(w, o)
    ensures var h := before + [Poll];
            && OnPace(w, o, h, Polls(h) - 1) && (HasDeadline(o) ==> Polls(h) <= o.expiresInSeconds)
            && w.clock(h) >= w.clock(start)
  {
    hide RunsOn, Interval, SlowedDown, Polls;
    HistoryNext(w, o, before, Poll);
    StillOnPace(w, o, start, Read, Polls(before));
    StillOnPace(w, o, before, Poll, Polls(before));
  }

  /** The deadline is set, and the user gets time to enter the code. */
  method BeforeFirstPoll(w: World, o: Options) returns (r: Waited, h: seq<Act>)
    requires RunsOn(w)
    ensures AllProper(w, o, h) && Polls(h) == 0 && Interval(w, o, h) == FirstInterval(o) && !SlowedDown(w, h)
    ensures InTurn(o, h) && Undecided(w, h) && (r.Slept? ==> PollsNext(o, |Beats(h)|))
    ensures r.Slept? ==> OnPace(w, o, h, 0)
    ensures r.Expired? ==> HasDeadline(o) && h != [] && h[|h| - 1] == Read && w.clock(h[..|h| - 1]) >= Deadline(w, o)
    ensures r.Interrupted? ==> BrokenSleep(w, h)
  {
    r, h := Slept, [];
    if HasDeadline(o) {
      HistoryNext(w, o, h, Read);
      StillOnPace(w, o, h, Read, 0);
      TurnNext(o, h, Read);
      UndecidedNext(w, h, Read);
      h := h + [Read];
    }
    if o.waitBeforeFirstPoll {
      r, h := Wait(w, o, h, FirstInterval(o));
    }
  }

  /** The last act is a sleep that was interrupted. */
  predicate BrokenSleep(w: World, h: seq<Act>) { h != [] && h[|h| - 1].Sleep? && w.interrupted(h[..|h| - 1]) }

  /** What the end of the flow owes to what happened before it. */
  ghost predicate RightOutcome(w: World, o: Options, h: seq<Act>, r: Outcome) {
    && AllProper(w, o, h)
    && (o.expiresInSeconds > 0 ==> Polls(h) <= o.expiresInSeconds)
    && InTurn(o, h)
    && Undecided(w, if r.Cancelled? || r.TimedOut? || h == [] then h else h[..|h| - 1])
    && match r
       case Cancelled => w.cancelled(h) || BrokenSleep(w, h)
       case TimedOut(slowDown) =>
         && o.expiresInSeconds > 0 && (slowDown <==> SlowedDown(w, h))
         && h != [] && h[|h| - 1] == Read && w.clock(h[..|h| - 1]) >= w.clock([]) + 1000 * o.expiresInSeconds
       case Completed(value) => h != [] && h[|h| - 1] == Poll && w.poll(h[..|h| - 1]) == Complete(value)
       case PollBroke(error) => h != [] && h[|h| - 1] == Poll && w.poll(h[..|h| - 1]) == Broken(error)
       case PollFailed(text) =>
         && h != [] && h[|h| - 1] == Poll && w.poll(h[..|h| - 1]).Failed?
         && var message := w.poll(h[..|h| - 1]).message;
            text == if message == "" then "device flow failed" else message
  }

  /** Between two rounds of the loop. */
  ghost predicate BetweenRounds(w: World, o: Options, h: seq<Act>, intervalMillis: int, slowDowns: int) {
    && AllProper(w, o, h) && OnPace(w, o, h, Polls(h)) && intervalMillis == Interval(w, o, h)
    && (HasDeadline(o) ==> Polls(h) <= o.expiresInSeconds)
    && InTurn(o, h) && PollsNext(o, |Beats(h)|) && Undecided(w, h)
    && slowDowns >= 0 && (slowDowns > 0 <==> SlowedDown(w, h))
  }

  /** One round: None when the loop goes on. */
  method Round(w: World, o: Options, before: seq<Act>, interval: int, slow: int)
      returns (r: Option<Outcome>, h: seq<Act>, intervalMillis: int, slowDowns: int)
    requires RunsOn(w) && BetweenRounds(w, o, before, interval, slow)
    ensures r.Some? ==> RightOutcome(w, o, h, r.value)
    ensures r.None? ==> BetweenRounds(w, o, h, intervalMillis, slowDowns) && |h| > |before|
    ensures r.None? ==> if HasDeadline(o) then w.clock(before) < Deadline(w, o) && w.clock(h) > w.clock(before)
                        else !w.cancelled(before)
  {
    hide AllProper, OnPace, Interval, SlowedDown, Polls, RunsOn, InTurn, Beats, Undecided, PollsNext;
    intervalMillis, slowDowns := interval, slow;
    var expired;
    expired, h := IsExpired(w, o, before);
    if expired {
      return Some(TimedOut(slowDowns > 0)), h, intervalMillis, slowDowns;
    }
    if w.cancelled(h) {
      return Some(Cancelled), h, intervalMillis, slowDowns;
    }
    var result;
    result, h := PollOnce(w, o, before, h);
    if result.Complete? {
      return Some(Completed(result.value)), h, intervalMillis, slowDowns;
    }
    if result.Broken? {
      return Some(PollBroke(result.error)), h, intervalMillis, slowDowns;
    }
    if result.Failed? {
      var text := if result.message == "" then "device flow failed" else result.message;
      return Some(PollFailed(text)), h, intervalMillis, slowDowns;
    }
    if result.SlowDown? {
      slowDowns := slowDowns + 1;
      intervalMillis := AtLeastMinimum(if result.intervalSeconds > 0 then result.intervalSeconds * 1000
                                       else intervalMillis + SLOW_DOWN_INCREMENT_MILLIS);
    }
    var waited;
    waited, h := Wait(w, o, h, intervalMillis);
    r := match waited
         case Expired => Some(TimedOut(slowDowns > 0))
         case Interrupted => Some(Cancelled)
         case Slept => None;
  }

  /**
   * The flow starts no poll at or after the deadline, asks for no sleep past it,
   * polls at most once for every second that the code lives, and says slow_down
   * timeout exactly when it times out after some slow_down. With a deadline it
   * always ends; without one it is watched for so many rounds, all of which keep
   * to the interval, and it ends once the context stays cancelled.
   */
  method PollDeviceCodeFlow(w: World, o: Options, rounds: nat, ghost patience: nat) returns (r: Option<Outcome>, h: seq<Act>)
    requires RunsOn(w)
    ensures r.Some? ==> RightOutcome(w, o, h, r.value)
    ensures r.None? ==> !HasDeadline(o) && AllProper(w, o, h) && InTurn(o, h) && Undecided(w, h) && |h| >= rounds
    ensures (forall g: seq<Act> | |g| >= patience :: w.cancelled(g)) && rounds > patience ==> r.Some?
  {
    var early;
    early, h := BeforeFirstPoll(w, o);
    match early {
      case Expired => return Some(TimedOut(false)), h;
      case Interrupted => return Some(Cancelled), h;
      case Slept =>
    }
    hide RunsOn, AllProper, OnPace, Interval, SlowedDown, Polls, RightOutcome, InTurn, Beats, Undecided, PollsNext;
    var intervalMillis := FirstInterval(o);
    var slowDowns := 0;
    var round := 0;
    while HasDeadline(o) || round < rounds
      invariant BetweenRounds(w, o, h, intervalMillis, slowDowns)
      invariant !HasDeadline(o) ==> round <= rounds && |h| >= round
      invariant !HasDeadline(o) && (forall g: seq<Act> | |g| >= patience :: w.cancelled(g)) ==> round <= patience
      decreases if HasDeadline(o) then Deadline(w, o) - w.clock(h) else rounds - round
    {
      var done;
      done, h, intervalMillis, slowDowns := Round(w, o, h, intervalMillis, slowDowns);
      if done.Some? {
        return done, h;
      }
      round := round + 1;
    }
    r := None;
  }

  // ----- The interval, told from the answers -------------------------------------------------------

  /** The interval in seconds that the server named last, at the start or with a slow_down; five if it named none. */
  function Named(w: World, o: Options, h: seq<Act>): int
    decreases |h|
  {
    if h == [] then (if o.intervalSeconds > 0 then o.intervalSeconds else 5)
    else
      var before := h[..|h| - 1];
      if h[|h| - 1] == Poll && w.poll(before).SlowDown? && w.poll(before).intervalSeconds > 0
      then w.poll(before).intervalSeconds
      else Named(w, o, before)
  }

  /** The slow_downs since then, which named none. */
  function Unnamed(w: World, h: seq<Act>): nat
    decreases |h|
  {
    if h == [] then 0
    else
      var before := h[..|h| - 1];
      if h[|h| - 1] == Poll && w.poll(before).SlowDown?
      then if w.poll(before).intervalSeconds > 0 then 0 else Unnamed(w, before) + 1
      else Unnamed(w, before)
  }

  /** The interval is what the server named last, and five seconds more for each slow_down since; a second at least. */
  lemma {:induction false} IntervalExactly(w: World, o: Options, h: seq<Act>)
    ensures Named(w, o, h) >= 1 && Interval(w, o, h) == 1000 * (Named(w, o, h) + 5 * Unnamed(w, h))
    decreases |h|
  {
    if h != [] {
      IntervalExactly(w, o, h[..|h| - 1]);
    }
  }
}
