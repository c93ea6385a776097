/**
 * Refreshing a provider's model list: concurrent callers share one fetch. A
 * transition system over any number of callers, one step for each section under
 * a lock, each channel operation and each outcome of the fetch.
 */
module SingleFlight {
  import opened Wrappers

  /** None is success. */
  type Error = Option<string>

  datatype Pc =
    | Calling
    | Fetching(flight: nat)
    | Fetched(flight: nat, error: Error, list: seq<string>)
    | Stored(flight: nat, error: Error)      // the list is stored if there is one
    | Published(flight: nat, error: Error)   // lastErr set and inflight cleared, the channel not yet closed
    | Waiting(flight: nat)
    | Woken(flight: nat)
    | Returned(flight: nat, error: Error)

  /** Flights are numbered in the order they took off; published holds their errors in that order. */
  datatype System = System(
    callers: seq<Pc>,
    inflight: Option<nat>,
    lastErr: Error,
    models: seq<string>,
    flights: nat,
    closed: set<nat>,
    published: seq<Error>,
    fetched: seq<seq<string>>)      // the lists of the successful fetches, in order

  datatype Step =
    | Joins(i: nat)
    | TakesOff(i: nat)
    | FetchSucceeds(i: nat, list: seq<string>)
    | FetchFails(i: nat, error: string)
    | StoresModels(i: nat)
    | Publishes(i: nat)
    | Closes(i: nat)
    | Wakes(i: nat)
    | ReadsError(i: nat)

  predicate Enabled(s: System, step: Step) {
    step.i < |s.callers| &&
    var pc := s.callers[step.i];
    match step
    case Joins(_) => pc == Calling && s.inflight.Some?
    case TakesOff(_) => pc == Calling && s.inflight.None?
    case FetchSucceeds(_, _) => pc.Fetching?
    case FetchFails(_, _) => pc.Fetching?
    case StoresModels(_) => pc.Fetched?
    case Publishes(_) => pc.Stored?
    case Closes(_) => pc.Published?
    case Wakes(_) => pc.Waiting? && pc.flight in s.closed
    case ReadsError(_) => pc.Woken?
  }

  function NextPc(s: System, step: Step): Pc
    requires Enabled(s, step)
  {
    var pc := s.callers[step.i];
    match step
    case Joins(_) => Waiting(s.inflight.value)
    case TakesOff(_) => Fetching(s.flights)
    case FetchSucceeds(_, list) => Fetched(pc.flight, None, list)
    case FetchFails(_, e) => Fetched(pc.flight, Some(e), [])
    case StoresModels(_) => Stored(pc.flight, pc.error)
    case Publishes(_) => Published(pc.flight, pc.error)
    case Closes(_) => Returned(pc.flight, pc.error)
    case Wakes(_) => Woken(pc.flight)
    case ReadsError(_) => Returned(pc.flight, s.lastErr)
  }

  function After(s: System, step: Step): (t: System)
    requires Enabled(s, step)
    ensures t.callers == s.callers[step.i := NextPc(s, step)]
  {
    var pc := s.callers[step.i];
    var t := s.(callers := s.callers[step.i := NextPc(s, step)]);
    match step
    case TakesOff(_) => t.(inflight := Some(s.flights), flights := s.flights + 1)
    case FetchSucceeds(_, list) => t.(fetched := s.fetched + [list])
    case StoresModels(_) => if pc.error.None? then t.(models := pc.list) else t
    case Publishes(_) => t.(lastErr := pc.error, inflight := None, published := s.published + [pc.error])
    case Closes(_) => t.(closed := s.closed + {pc.flight})
    case _ => t
  }

  predicate Initial(s: System) {
    && (forall i | 0 <= i < |s.callers| :: s.callers[i] == Calling)
    && s.inflight.None? && s.flights == 0 && s.closed == {} && s.published == [] && s.fetched == []
  }

  function Run(s: System, steps: seq<Step>): Option<System>
    decreases |steps|
  {
    if steps == [] then Some(s)
    else if Enabled(s, steps[0]) then Run(After(s, steps[0]), steps[1..])
    else None
  }

  // ----- The invariant ---------------------------------------------------------------

  /** In the air: from take-off until the result is published. */
  predicate Flies(pc: Pc) { pc.Fetching? || pc.Fetched? || pc.Stored? }

  predicate Leads(pc: Pc) { Flies(pc) || pc.Published? }

  /** At most one flight is in the air, and it is the one inflight names. */
  predicate OneInTheAir(s: System) {
    && (s.inflight.Some? ==> s.inflight.value + 1 == s.flights == |s.published| + 1)
    && (s.inflight.None? ==> s.flights == |s.published|)
    && (forall i | 0 <= i < |s.callers| && Flies(s.callers[i]) :: s.inflight == Some(s.callers[i].flight))
    && (forall i, j | 0 <= i < j < |s.callers| && Flies(s.callers[i]) && Flies(s.callers[j]) :: false)
  }

  /** A flight that has not closed its channel has a caller that still leads it. */
  ghost predicate IsLed(s: System, flight: nat) {
    exists i :: 0 <= i < |s.callers| && Leads(s.callers[i]) && s.callers[i].flight == flight
  }

  ghost predicate NoneAbandoned(s: System) {
    forall f: nat | f < s.flights && f !in s.closed :: IsLed(s, f)
  }

  /** What a caller knows fits what was published. */
  predicate CallerAgrees(s: System, pc: Pc) {
    match pc
    case Calling => true
    case Fetching(_) => true
    case Fetched(_, error, list) => error.None? ==> s.fetched != [] && list == s.fetched[|s.fetched| - 1]
    case Stored(_, _) => true
    case Published(f, error) => f < |s.published| && s.published[f] == error
    case Waiting(f) => f < s.flights
    case Woken(f) => f < |s.published|
    case Returned(f, error) => exists g :: f <= g < |s.published| && s.published[g] == error
  }

  predicate CallersAgree(s: System) {
    && (forall f | f in s.closed :: f < |s.published|)
    && (s.published != [] ==> s.lastErr == s.published[|s.published| - 1])
    && (forall i | 0 <= i < |s.callers| :: CallerAgrees(s, s.callers[i]))
  }

  /** A fetch that succeeded and whose list is not stored yet. */
  ghost predicate Storing(s: System) {
    exists i :: 0 <= i < |s.callers| && s.callers[i].Fetched? && s.callers[i].error.None?
  }

  /** The list is the last one fetched, or the one before while that is being stored. */
  ghost predicate ModelsAreLatest(s: System, initial: seq<string>) {
    var lists := [initial] + s.fetched;
    && s.models == lists[if Storing(s) && |s.fetched| > 0 then |s.fetched| - 1 else |s.fetched|]
    && (Storing(s) ==> s.fetched != [])
  }

  ghost predicate Invariant(s: System, initial: seq<string>) {
    OneInTheAir(s) && NoneAbandoned(s) && CallersAgree(s) && ModelsAreLatest(s, initial)
  }

  lemma StepKeepsOne(s: System, step: Step)
    requires OneInTheAir(s) && Enabled(s, step)
    ensures OneInTheAir(After(s, step))
  {
  }

  lemma StepAbandonsNone(s: System, step: Step)
    requires NoneAbandoned(s) && Enabled(s, step)
    ensures NoneAbandoned(After(s, step))
  {
    var t := After(s, step);
    forall f: nat | f < t.flights && f !in t.closed ensures IsLed(t, f) {
      if f < s.flights {
        assert IsLed(s, f);
        var i :| 0 <= i < |s.callers| && Leads(s.callers[i]) && s.callers[i].flight == f;
        assert Leads(t.callers[i]) && t.callers[i].flight == f;
      } else {
        assert Leads(t.callers[step.i]) && t.callers[step.i].flight == f;
      }
    }
  }

  lemma StepKeepsAgreement(s: System, step: Step)
    requires OneInTheAir(s) && CallersAgree(s) && Enabled(s, step)
    ensures CallersAgree(After(s, step))
  {
    var t := After(s, step);
    forall i | 0 <= i < |t.callers| ensures CallerAgrees(t, t.callers[i]) {
      assert CallerAgrees(s, s.callers[i]);
      CallerStillAgrees(s, step, i);
    }
  }

  lemma CallerStillAgrees(s: System, step: Step, i: nat)
    requires OneInTheAir(s) && CallersAgree(s) && Enabled(s, step) && i < |s.callers|
    requires CallerAgrees(s, s.callers[i])
    ensures CallerAgrees(After(s, step), After(s, step).callers[i])
  {
    var t := After(s, step);
    var pc := s.callers[i];
    if pc.Returned? {
      var g :| pc.flight <= g < |s.published| && s.published[g] == pc.error;
      assert t.published[g] == pc.error;
    } else if step.i == i && step.ReadsError? {
      assert t.published[|t.published| - 1] == t.callers[i].error;
    } else if step.i == i && step.Closes? {
      assert t.published[pc.flight] == pc.error;
    }
  }

  lemma StepKeepsModels(s: System, step: Step, initial: seq<string>)
    requires OneInTheAir(s) && CallersAgree(s) && ModelsAreLatest(s, initial) && Enabled(s, step)
    ensures ModelsAreLatest(After(s, step), initial)
  {
    var t := After(s, step);
    if Storing(s) {
      var i :| 0 <= i < |s.callers| && s.callers[i].Fetched? && s.callers[i].error.None?;
      assert CallerAgrees(s, s.callers[i]);
      if step.i != i {
        assert t.callers[i] == s.callers[i];
      }
    }
    if step.FetchSucceeds? {
      assert t.callers[step.i].Fetched? && t.callers[step.i].error.None?;
    }
  }

  lemma StepKeepsInvariant(s: System, step: Step, initial: seq<string>)
    requires Invariant(s, initial) && Enabled(s, step)
    ensures Invariant(After(s, step), initial)
  {
    StepKeepsOne(s, step);
    StepAbandonsNone(s, step);
    StepKeepsAgreement(s, step);
    StepKeepsModels(s, step, initial);
  }

  lemma {:induction false} RunKeepsInvariant(s: System, steps: seq<Step>, initial: seq<string>)
    requires Invariant(s, initial) && Run(s, steps).Some?
    ensures Invariant(Run(s, steps).value, initial)
    decreases |steps|
  {
    hide Invariant, Enabled, After;
    if steps != [] {
      StepKeepsInvariant(s, steps[0], initial);
      RunKeepsInvariant(After(s, steps[0]), steps[1..], initial);
    }
  }

  lemma ReachableInvariant(s: System, steps: seq<Step>)
    requires Initial(s) && Run(s, steps).Some?
    ensures Invariant(Run(s, steps).value, s.models)
  {
    assert Invariant(s, s.models);
    RunKeepsInvariant(s, steps, s.models);
  }

  // ----- What callers may rely on ----------------------------------------------------------

  /** At most one fetch runs at a time. */
  lemma OneFetchAtATime(s: System, steps: seq<Step>, i: nat, j: nat)
    requires Initial(s) && Run(s, steps).Some?
    requires var cs := Run(s, steps).value.callers;
             i < |cs| && j < |cs| && Flies(cs[i]) && Flies(cs[j])
    ensures i == j
  {
    ReachableInvariant(s, steps);
  }

  /**
   * The list is always the initial one or the one of the latest successful
   * fetch; only while that one is being stored is it still the one before.
   */
  lemma ModelsComeFromLatestFetch(s: System, steps: seq<Step>)
    requires Initial(s) && Run(s, steps).Some?
    ensures var t := Run(s, steps).value;
            var lists := [s.models] + t.fetched;
            t.models == lists[if Storing(t) && |t.fetched| > 0 then |t.fetched| - 1 else |t.fetched|]
  {
    ReachableInvariant(s, steps);
  }

  /** A caller returns the error of the flight it led or joined, or of a later one that was published. */
  lemma ReturnedErrorIsOfThisFlightOrLater(s: System, steps: seq<Step>, i: nat)
    requires Initial(s) && Run(s, steps).Some?
    requires var cs := Run(s, steps).value.callers; i < |cs| && cs[i].Returned?
    ensures var t := Run(s, steps).value;
            exists g :: t.callers[i].flight <= g < |t.published| && t.published[g] == t.callers[i].error
  {
    ReachableInvariant(s, steps);
    assert CallerAgrees(Run(s, steps).value, Run(s, steps).value.callers[i]);
  }

  /** Steps left until a leader's channel is closed. */
  function StepsLeft(pc: Pc): nat {
    match pc
    case Fetching(_) => 4
    case Fetched(_, _, _) => 3
    case Stored(_, _) => 2
    case Published(_, _) => 1
    case _ => 0
  }

  /** The next step of a caller that leads a flight. */
  function LeaderStep(pc: Pc, i: nat): Step {
    match pc
    case Fetching(_) => FetchFails(i, "")
    case Fetched(_, _, _) => StoresModels(i)
    case Stored(_, _) => Publishes(i)
    case _ => Closes(i)
  }

  /**
   * A waiter is never stuck: when its flight's channel is closed it can wake,
   * and until then some caller leads the flight, can take its next step, and is
   * at most four steps away from closing the channel.
   */
  lemma WaiterNeverStuck(s: System, steps: seq<Step>, i: nat)
    requires Initial(s) && Run(s, steps).Some?
    requires var cs := Run(s, steps).value.callers; i < |cs| && cs[i].Waiting?
    ensures var t := Run(s, steps).value; var f := t.callers[i].flight;
            if f in t.closed then Enabled(t, Wakes(i)) && After(t, Wakes(i)).callers[i] == Woken(f)
            else exists j :: 0 <= j < |t.callers| && Leads(t.callers[j]) && t.callers[j].flight == f
                             && Enabled(t, LeaderStep(t.callers[j], j)) && StepsLeft(t.callers[j]) <= 4
  {
    ReachableInvariant(s, steps);
    var t := Run(s, steps).value;
    var f := t.callers[i].flight;
    assert CallerAgrees(t, t.callers[i]);
    if f !in t.closed {
      assert IsLed(t, f);
      var j :| 0 <= j < |t.callers| && Leads(t.callers[j]) && t.callers[j].flight == f;
      assert Enabled(t, LeaderStep(t.callers[j], j));
    }
  }

  /**
   * Nobody else is stuck either: a caller can call, a leader can take its next
   * step, whatever its fetch brings, and a caller that woke can read the error.
   */
  lemma OthersNeverStuck(s: System, steps: seq<Step>, i: nat)
    requires Initial(s) && Run(s, steps).Some? && i < |Run(s, steps).value.callers|
    ensures var t := Run(s, steps).value; var pc := t.callers[i];
            && (pc == Calling ==> Enabled(t, Joins(i)) || Enabled(t, TakesOff(i)))
            && (Leads(pc) ==> Enabled(t, LeaderStep(pc, i)))
            && (pc.Fetching? ==> (forall e :: Enabled(t, FetchFails(i, e))) && forall list :: Enabled(t, FetchSucceeds(i, list)))
            && (pc.Woken? ==> Enabled(t, ReadsError(i)) && After(t, ReadsError(i)).callers[i] == Returned(pc.flight, t.lastErr))
  {
  }

  /** A leader's own steps, whatever the fetch brings, bring it nearer to closing; no other step moves it. */
  lemma LeaderAdvances(s: System, step: Step, j: nat)
    requires Enabled(s, step) && j < |s.callers| && Leads(s.callers[j])
    ensures var r := After(s, step).callers[j];
            if step.i == j then StepsLeft(r) + 1 == StepsLeft(s.callers[j]) && (step.Closes? <==> StepsLeft(r) == 0)
            else r == s.callers[j]
    ensures step.i == j && step.Closes? ==> s.callers[j].flight in After(s, step).closed
  {
  }

  // ----- Told from the steps ----------------------------------------------------------------

  /** What the fetches of a run brought, in order: None, or the error they failed with. */
  function FetchErrors(steps: seq<Step>): seq<Error>
    decreases |steps|
  {
    if steps == [] then []
    else FetchErrors(steps[..|steps| - 1]) +
         match steps[|steps| - 1]
         case FetchSucceeds(_, _) => [None]
         case FetchFails(_, e) => [Some(e)]
         case _ => []
  }

  /** The lists of the fetches that succeeded, in order. */
  function FetchedLists(steps: seq<Step>): seq<seq<string>>
    decreases |steps|
  {
    if steps == [] then []
    else FetchedLists(steps[..|steps| - 1]) + if steps[|steps| - 1].FetchSucceeds? then [steps[|steps| - 1].list] else []
  }

  /** What caller i's own fetch brought, if it made one. */
  function OwnFetch(steps: seq<Step>, i: nat): Option<Error>
    decreases |steps|
  {
    if steps == [] then None
    else match steps[|steps| - 1]
      case FetchSucceeds(j, _) => if j == i then Some(None) else OwnFetch(steps[..|steps| - 1], i)
      case FetchFails(j, e) => if j == i then Some(Some(e)) else OwnFetch(steps[..|steps| - 1], i)
      case _ => OwnFetch(steps[..|steps| - 1], i)
  }

  /** The number of take-offs before caller i called: the flight it led or joined. */
  function FlightOf(steps: seq<Step>, i: nat): nat
    decreases |steps|
  {
    if steps == [] then 0
    else
      var before, last := steps[..|steps| - 1], steps[|steps| - 1];
      if last.i == i && last.TakesOff? then TakeOffs(before)
      else if last.i == i && last.Joins? && TakeOffs(before) > 0 then TakeOffs(before) - 1
      else FlightOf(before, i)
  }

  function TakeOffs(steps: seq<Step>): nat
    decreases |steps|
  {
    if steps == [] then 0 else TakeOffs(steps[..|steps| - 1]) + if steps[|steps| - 1].TakesOff? then 1 else 0
  }

  lemma {:induction false} RunNext(s: System, steps: seq<Step>)
    requires steps != [] && Run(s, steps).Some?
    ensures var before, last := steps[..|steps| - 1], steps[|steps| - 1];
            && Run(s, before).Some? && Enabled(Run(s, before).value, last)
            && Run(s, steps).value == After(Run(s, before).value, last)
    decreases |steps|
  {
    hide Enabled, After;
    if |steps| > 1 {
      RunNext(After(s, steps[0]), steps[1..]);
      assert steps[1..][..|steps| - 2] == steps[..|steps| - 1][1..];
    } else {
      assert steps[1..] == [];
    }
  }

  /** A caller knows what its own fetch brought, and which flight it is on. */
  predicate CallerRecalls(pc: Pc, own: Option<Error>, flight: nat) {
    match pc
    case Calling => own.None?
    case Fetching(f) => f == flight && own.None?
    case Fetched(f, e, _) => f == flight && own == Some(e)
    case Stored(f, e) => f == flight && own == Some(e)
    case Published(f, e) => f == flight && own == Some(e)
    case Waiting(f) => f == flight && own.None?
    case Woken(f) => f == flight && own.None?
    case Returned(f, e) => f == flight && (own.Some? ==> own == Some(e))
  }

  /** Each flight in the air has fetched or not; published flights have. */
  predicate FetchesAgree(s: System, errors: seq<Error>) {
    && s.published <= errors && |errors| <= |s.published| + 1
    && (forall i | 0 <= i < |s.callers| ::
          match s.callers[i]
          case Fetching(_) => errors == s.published
          case Fetched(f, e, _) => errors == s.published + [e]
          case Stored(f, e) => errors == s.published + [e]
          case _ => true)
    && (s.inflight.None? ==> errors == s.published)
  }

  ghost predicate StepsSay(s: System, steps: seq<Step>) {
    && TakeOffs(steps) == s.flights
    && s.fetched == FetchedLists(steps)
    && FetchesAgree(s, FetchErrors(steps))
    && forall i | 0 <= i < |s.callers| :: CallerRecalls(s.callers[i], OwnFetch(steps, i), FlightOf(steps, i))
  }

  lemma NextFetchAgrees(s: System, errors: seq<Error>, step: Step)
    requires OneInTheAir(s) && FetchesAgree(s, errors) && Enabled(s, step)
    ensures FetchesAgree(After(s, step), errors + match step
                                                   case FetchSucceeds(_, _) => [None]
                                                   case FetchFails(_, e) => [Some(e)]
                                                   case _ => [])
  {
    assert errors + [] == errors;
  }

  lemma NextCallerRecalls(s: System, before: seq<Step>, step: Step, i: nat)
    requires OneInTheAir(s) && StepsSay(s, before) && Enabled(s, step) && i < |s.callers|
    ensures CallerRecalls(After(s, step).callers[i], OwnFetch(before + [step], i), FlightOf(before + [step], i))
  {
    hide FetchesAgree, FetchErrors, FetchedLists;
    assert (before + [step])[..|before|] == before;
    assert CallerRecalls(s.callers[i], OwnFetch(before, i), FlightOf(before, i));
  }

  /** The state says nothing about fetches that the steps of the run do not. */
  lemma {:induction false} RunSays(s: System, steps: seq<Step>)
    requires Initial(s) && Run(s, steps).Some?
    ensures StepsSay(Run(s, steps).value, steps)
    decreases |steps|
  {
    hide Enabled, After, FetchesAgree, CallerRecalls;
    if steps == [] {
      StartSays(s);
    } else {
      var before, last := steps[..|steps| - 1], steps[|steps| - 1];
      RunNext(s, steps);
      RunSays(s, before);
      ReachableInvariant(s, before);
      var t := Run(s, before).value;
      assert steps == before + [last];
      NextFetchAgrees(t, FetchErrors(before), last);
      CountsNext(t, last);
      forall i | 0 <= i < |t.callers| ensures CallerRecalls(After(t, last).callers[i], OwnFetch(steps, i), FlightOf(steps, i)) {
        NextCallerRecalls(t, before, last, i);
      }
    }
  }

  lemma StartSays(s: System)
    requires Initial(s)
    ensures StepsSay(s, [])
  {
  }

  lemma CountsNext(s: System, step: Step)
    requires Enabled(s, step)
    ensures After(s, step).flights == s.flights + if step.TakesOff? then 1 else 0
    ensures After(s, step).fetched == s.fetched + if step.FetchSucceeds? then [step.list] else []
    ensures |After(s, step).callers| == |s.callers|
  {
    assert s.fetched + [] == s.fetched;
  }

  /** The fetch that a run ends with is the one of the flight that its caller led: fetches come in the order of flights. */
  lemma FetchesInFlightOrder(s: System, before: seq<Step>, fetch: Step)
    requires Initial(s) && Run(s, before + [fetch]).Some? && (fetch.FetchSucceeds? || fetch.FetchFails?)
    ensures FlightOf(before, fetch.i) == |FetchErrors(before)|
  {
    hide After, FetchErrors, FetchedLists, FlightOf, OwnFetch;
    RunNext(s, before + [fetch]);
    assert (before + [fetch])[..|before|] == before;
    RunSays(s, before);
    ReachableInvariant(s, before);
    var t := Run(s, before).value;
    assert CallerRecalls(t.callers[fetch.i], OwnFetch(before, fetch.i), FlightOf(before, fetch.i));
  }

  /** The errors published are those that the fetches of the run brought, flight by flight; at most one is still to come. */
  lemma PublishedIsFetched(s: System, steps: seq<Step>)
    requires Initial(s) && Run(s, steps).Some?
    ensures var t := Run(s, steps).value;
            t.published <= FetchErrors(steps) && |FetchErrors(steps)| <= |t.published| + 1
  {
    RunSays(s, steps);
  }

  /**
   * A caller that made a fetch returns what that brought. One that waited
   * returns what the fetch of the flight it joined brought, or of a later one.
   */
  lemma CallersReturnFetchedErrors(s: System, steps: seq<Step>, i: nat)
    requires Initial(s) && Run(s, steps).Some?
    requires var cs := Run(s, steps).value.callers; i < |cs| && cs[i].Returned?
    ensures var error, own := Run(s, steps).value.callers[i].error, OwnFetch(steps, i);
            if own.Some? then error == own.value
            else exists g :: FlightOf(steps, i) <= g < |FetchErrors(steps)| && FetchErrors(steps)[g] == error
  {
    hide Enabled, After;
    RunSays(s, steps);
    ReturnedErrorIsOfThisFlightOrLater(s, steps, i);
    var t := Run(s, steps).value;
    assert CallerRecalls(t.callers[i], OwnFetch(steps, i), FlightOf(steps, i));
    var g :| t.callers[i].flight <= g < |t.published| && t.published[g] == t.callers[i].error;
    assert FetchErrors(steps)[g] == t.published[g];
  }

  /** The list is the initial one or that of the last fetch of the run that succeeded, or the one before while it is being stored. */
  lemma ModelsAreTheLastFetched(s: System, steps: seq<Step>)
    requires Initial(s) && Run(s, steps).Some?
    ensures var t, n := Run(s, steps).value, |FetchedLists(steps)|;
            var lists := [s.models] + FetchedLists(steps);
            && (n == 0 ==> t.models == s.models)
            && (n > 0 ==> t.models == if Storing(t) then lists[n - 1] else FetchedLists(steps)[n - 1])
  {
    RunSays(s, steps);
    ModelsComeFromLatestFetch(s, steps);
  }
}
