/**
 * Any number of requests, logins and logouts of any number of providers, over
 * one credential store: double-checked refresh under a per-provider lock, as a
 * transition system. Each step reads or writes one shared thing.
 */
module OAuthRefresh {
  import opened Wrappers
  import opened CredentialStore

  /** A stored credential; every write to the store makes a new version. */
  datatype Stored = Stored(credential: Credential, version: nat)

  datatype Kind = Request | Login | Logout

  datatype Pc =
    | Idle                                   // a request reads the store first, a login or logout wants the lock
    | HasRead(read: Stored)                  // an OAuth credential, expiry not yet looked at
    | WantsLock
    | HasLock
    | ReadUnderLock(current: Option<Stored>)
    | Refreshing(stale: Stored)              // the provider's refresh is running
    | Refreshed(stale: Stored, next: Credential)
    | LoggingIn(next: Credential)
    | Releasing(result: Outcome<Option<Stored>>)
    | Deriving(use: Stored)                  // handed to ToAuth
    | Over(result: Outcome<Option<Stored>>)

  /** What a process did so far is kept beside its program counter. */
  datatype Process = Process(
    kind: Kind, provider: string, pc: Pc,
    unexpired: set<Stored>,      // credentials it saw unexpired at a check
    wrote: Option<Stored>)    // the credential it stored

  datatype System = System(
    store: map<string, Stored>,
    lockedBy: map<string, nat>,
    clock: int,
    versions: nat,                          // writes so far
    exchanged: seq<(string, nat)>,          // successful refreshes: provider and version consumed
    processes: seq<Process>)

  datatype Step =
    | Clock(time: int)
    | Reads(i: nat)
    | Checks(i: nat)
    | Locks(i: nat)
    | ReadsUnderLock(i: nat)
    | ChecksUnderLock(i: nat)
    | RefreshSucceeds(i: nat, credential: Credential)
    | RefreshFails(i: nat, error: string)
    | LoginSucceeds(i: nat, credential: Credential)
    | LoginFails(i: nat, error: string)
    | Writes(i: nat)
    | Deletes(i: nat)
    | Unlocks(i: nat)
    | Derives(i: nat)

  function StoredFor(s: System, provider: string): Option<Stored> {
    if provider in s.store then Some(s.store[provider]) else None
  }

  predicate IsOAuth(o: Option<Stored>) { o.Some? && o.value.credential.OAuth? }

  predicate Unexpired(c: Stored, clock: int) { c.credential.OAuth? && clock < c.credential.expires }

  predicate Enabled(s: System, step: Step) {
    match step
    case Clock(_) => true
    case _ =>
      step.i < |s.processes| &&
      var p := s.processes[step.i];
      match step
      case Reads(_) => p.pc == Idle && p.kind == Request
      case Checks(_) => p.pc.HasRead?
      case Locks(_) => (p.pc == WantsLock || (p.pc == Idle && p.kind != Request)) && p.provider !in s.lockedBy
      case ReadsUnderLock(_) => p.pc == HasLock && p.kind == Request
      case ChecksUnderLock(_) => p.pc.ReadUnderLock?
      case RefreshSucceeds(_, c) => p.pc.Refreshing? && c.OAuth?
      case RefreshFails(_, _) => p.pc.Refreshing?
      case LoginSucceeds(_, _) => p.pc == HasLock && p.kind == Login
      case LoginFails(_, _) => p.pc == HasLock && p.kind == Login
      case Writes(_) => p.pc.Refreshed? || p.pc.LoggingIn?
      case Deletes(_) => p.pc == HasLock && p.kind == Logout
      case Unlocks(_) => p.pc.Releasing?
      case Derives(_) => p.pc.Deriving?
      case Clock(_) => true
  }

  /** The process after its step. */
  function Moved(s: System, step: Step): Process
    requires Enabled(s, step) && !step.Clock?
  {
    var p := s.processes[step.i];
    match step
    case Reads(_) =>
      p.(pc := if IsOAuth(StoredFor(s, p.provider)) then HasRead(s.store[p.provider]) else Over(Ok(None)))
    case Checks(_) =>
      if !Unexpired(p.pc.read, s.clock) then p.(pc := WantsLock)
      else p.(pc := Deriving(p.pc.read), unexpired := p.unexpired + {p.pc.read})
    case Locks(_) => p.(pc := HasLock)
    case ReadsUnderLock(_) => p.(pc := ReadUnderLock(StoredFor(s, p.provider)))
    case ChecksUnderLock(_) =>
      if !IsOAuth(p.pc.current) then p.(pc := Releasing(Ok(p.pc.current)))
      else if Unexpired(p.pc.current.value, s.clock)
      then p.(pc := Releasing(Ok(p.pc.current)), unexpired := p.unexpired + {p.pc.current.value})
      else p.(pc := Refreshing(p.pc.current.value))
    case RefreshSucceeds(_, c) => p.(pc := Refreshed(p.pc.stale, c))
    case RefreshFails(_, e) => p.(pc := Releasing(Failed(e)))
    case LoginSucceeds(_, c) => p.(pc := LoggingIn(c))
    case LoginFails(_, e) => p.(pc := Releasing(Failed(e)))
    case Writes(_) =>
      var written := Stored(p.pc.next, s.versions);
      p.(pc := Releasing(Ok(Some(written))), wrote := Some(written))
    case Deletes(_) => p.(pc := Releasing(Ok(None)))
    case Unlocks(_) =>
      if p.kind == Request && p.pc.result.Ok? && IsOAuth(p.pc.result.value) then p.(pc := Deriving(p.pc.result.value.value))
      else if p.pc.result.Ok? then p.(pc := Over(Ok(None)))
      else p.(pc := Over(p.pc.result))
    case Derives(_) => p.(pc := Over(Ok(Some(p.pc.use))))
    case Clock(_) => p
  }

  function After(s: System, step: Step): (t: System)
    requires Enabled(s, step)
    ensures |t.processes| == |s.processes|
    ensures step.Clock? ==> t == s.(clock := step.time)
    ensures !step.Clock? ==> t.processes == s.processes[step.i := Moved(s, step)]
  {
    if step.Clock? then s.(clock := step.time)
    else
      var p := s.processes[step.i];
      var t := s.(processes := s.processes[step.i := Moved(s, step)]);
      match step
      case Locks(_) => t.(lockedBy := s.lockedBy[p.provider := step.i])
      case RefreshSucceeds(_, _) => t.(exchanged := s.exchanged + [(p.provider, p.pc.stale.version)])
      case Writes(_) =>
        t.(store := s.store[p.provider := Stored(p.pc.next, s.versions)], versions := s.versions + 1)
      case Deletes(_) => t.(store := s.store - {p.provider})
      case Unlocks(_) => t.(lockedBy := s.lockedBy - {p.provider})
      case _ => t
  }

  predicate Initial(s: System) {
    && s.lockedBy == map[] && s.exchanged == []
    && (forall p | p in s.store :: s.store[p].version < s.versions)
    && forall i | 0 <= i < |s.processes| ::
         s.processes[i].pc == Idle && s.processes[i].unexpired == {} && s.processes[i].wrote == None
  }

  function Run(s: System, steps: seq<Step>): Option<System>
    decreases |steps|
  {
    if steps == [] then Some(s)
    else if Enabled(s, steps[0]) then Run(After(s, steps[0]), steps[1..])
    else None
  }

  // ----- The invariant ---------------------------------------------------------------

  predicate HoldsLock(pc: Pc) {
    pc == HasLock || pc.ReadUnderLock? || pc.Refreshing? || pc.Refreshed? || pc.LoggingIn? || pc.Releasing?
  }

  /** The lock of a provider is held by the one process that is between Locks and Unlocks. */
  predicate LocksAgree(s: System) {
    && (forall i | 0 <= i < |s.processes| && HoldsLock(s.processes[i].pc) ::
          s.processes[i].provider in s.lockedBy && s.lockedBy[s.processes[i].provider] == i)
    && (forall p | p in s.lockedBy :: s.lockedBy[p] < |s.processes|
          && s.processes[s.lockedBy[p]].provider == p && HoldsLock(s.processes[s.lockedBy[p]].pc))
  }

  /** Under the lock, what was read is what is stored. */
  predicate SeesStore(s: System, p: Process) {
    match p.pc
    case ReadUnderLock(current) => StoredFor(s, p.provider) == current
    case Refreshing(stale) => StoredFor(s, p.provider) == Some(stale)
    case Refreshed(stale, _) => StoredFor(s, p.provider) == Some(stale)
    case _ => true
  }

  /** Only a credential that was seen unexpired, or that the process itself stored, is used. */
  predicate Vouched(p: Process, c: Stored) { p.wrote == Some(c) || c in p.unexpired }

  predicate UsesOnlyVouched(p: Process) {
    && (forall c | c in p.unexpired :: c.credential.OAuth?)
    && match p.pc
       case HasRead(read) => read.credential.OAuth? && p.wrote.None?
       case Deriving(c) => p.kind == Request && Vouched(p, c)
       case Releasing(Ok(Some(c))) => p.kind == Request && c.credential.OAuth? ==> Vouched(p, c)
       case Over(Ok(Some(c))) => Vouched(p, c)
       case _ => true
  }

  /** Nothing is stored before the write, nor by a refresh that failed or met a logout. */
  predicate WritesOnlyOnSuccess(p: Process) {
    match p.pc
    case Releasing(r) => p.wrote.Some? ==> r == Ok(p.wrote)
    case Deriving(c) => p.wrote.Some? ==> p.wrote == Some(c)
    case Over(r) => p.wrote.Some? && p.kind == Request ==> r == Ok(p.wrote)
    case _ => p.wrote.None?
  }

  predicate KindAgrees(p: Process) {
    && (p.kind == Request ||
          !(p.pc.HasRead? || p.pc == WantsLock || p.pc.ReadUnderLock? || p.pc.Refreshing? || p.pc.Refreshed? || p.pc.Deriving?))
    && (p.pc.LoggingIn? ==> p.kind == Login)
    && (p.pc.Refreshed? ==> p.pc.next.OAuth?)
    && (p.wrote.Some? && p.kind == Request ==> p.wrote.value.credential.OAuth?)
  }

  predicate ProcessInvariant(s: System, p: Process) {
    SeesStore(s, p) && UsesOnlyVouched(p) && WritesOnlyOnSuccess(p) && KindAgrees(p)
  }

  /** A version that was exchanged is no longer stored, unless its replacement is about to be written. */
  predicate Consumed(s: System, provider: string, version: nat) {
    && version < s.versions
    && (provider in s.store && s.store[provider].version == version ==>
          provider in s.lockedBy && s.lockedBy[provider] < |s.processes| &&
          s.processes[s.lockedBy[provider]].pc.Refreshed?)
  }

  predicate ExchangedOnce(s: System) {
    && (forall p | p in s.store :: s.store[p].version < s.versions)
    && (forall k | 0 <= k < |s.exchanged| :: Consumed(s, s.exchanged[k].0, s.exchanged[k].1))
    && (forall j, k | 0 <= j < k < |s.exchanged| :: s.exchanged[j] != s.exchanged[k])
  }

  predicate Invariant(s: System) {
    && LocksAgree(s) && ExchangedOnce(s)
    && forall i | 0 <= i < |s.processes| :: ProcessInvariant(s, s.processes[i])
  }

  lemma MovedLock(s: System, step: Step)
    requires Enabled(s, step) && !step.Clock?
    ensures var p, q := s.processes[step.i], Moved(s, step);
            && q.provider == p.provider && q.kind == p.kind
            && (step.Locks? ==> !HoldsLock(p.pc) && HoldsLock(q.pc))
            && (step.Unlocks? ==> HoldsLock(p.pc) && !HoldsLock(q.pc))
            && (step.Writes? || step.Deletes? || step.RefreshSucceeds? ==> HoldsLock(p.pc))
            && (!step.Locks? && !step.Unlocks? ==> HoldsLock(p.pc) == HoldsLock(q.pc))
  {
  }

  lemma StepKeepsLocks(s: System, step: Step)
    requires LocksAgree(s) && Enabled(s, step)
    ensures LocksAgree(After(s, step))
  {
    if !step.Clock? {
      MovedLock(s, step);
      hide Moved, HoldsLock, Enabled;
      var t := After(s, step);
      forall i | 0 <= i < |t.processes| && HoldsLock(t.processes[i].pc)
        ensures t.processes[i].provider in t.lockedBy && t.lockedBy[t.processes[i].provider] == i
      {
        if i != step.i {
          assert t.processes[i] == s.processes[i];
        }
      }
    }
  }

  lemma MovedKeepsProcess(s: System, step: Step)
    requires Enabled(s, step) && !step.Clock? && ProcessInvariant(s, s.processes[step.i])
    ensures var p := Moved(s, step); UsesOnlyVouched(p) && WritesOnlyOnSuccess(p) && KindAgrees(p)
  {
  }

  /** The store is changed only by the process that holds the provider's lock. */
  lemma StepKeepsSight(s: System, step: Step, i: nat)
    requires LocksAgree(s) && Enabled(s, step) && i < |s.processes| && SeesStore(s, s.processes[i])
    ensures SeesStore(After(s, step), After(s, step).processes[i])
  {
    if !step.Clock? {
      MovedLock(s, step);
      if step.i == i {
        OwnStepKeepsSight(s, step);
      } else {
        OtherStepKeepsSight(s, step, i);
      }
    }
  }

  lemma OwnStepKeepsSight(s: System, step: Step)
    requires Enabled(s, step) && !step.Clock? && SeesStore(s, s.processes[step.i])
    ensures SeesStore(After(s, step), After(s, step).processes[step.i])
  {
  }

  lemma OtherStepKeepsSight(s: System, step: Step, i: nat)
    requires LocksAgree(s) && Enabled(s, step) && !step.Clock? && step.i != i && i < |s.processes|
    requires SeesStore(s, s.processes[i])
    requires step.Writes? || step.Deletes? ==> HoldsLock(s.processes[step.i].pc)
    ensures SeesStore(After(s, step), After(s, step).processes[i])
  {
    hide Moved;
    if HoldsLock(s.processes[i].pc) && (step.Writes? || step.Deletes?) {
      assert s.processes[i].provider != s.processes[step.i].provider;
    }
  }

  lemma StepExchangesOnce(s: System, step: Step)
    requires Invariant(s) && Enabled(s, step)
    ensures ExchangedOnce(After(s, step))
  {
    hide SeesStore, UsesOnlyVouched, WritesOnlyOnSuccess, KindAgrees;
    if !step.Clock? {
      MovedLock(s, step);
      assert ProcessInvariant(s, s.processes[step.i]);
      StepConsumes(s, step);
    }
  }

  lemma StepConsumes(s: System, step: Step)
    requires LocksAgree(s) && ExchangedOnce(s) && Enabled(s, step) && !step.Clock?
    requires SeesStore(s, s.processes[step.i])
    ensures forall k | 0 <= k < |s.exchanged| :: Consumed(After(s, step), s.exchanged[k].0, s.exchanged[k].1)
    ensures step.RefreshSucceeds? ==>
              var used := (s.processes[step.i].provider, s.processes[step.i].pc.stale.version);
              used !in s.exchanged && Consumed(After(s, step), used.0, used.1)
  {
    hide UsesOnlyVouched, WritesOnlyOnSuccess, KindAgrees;
    MovedLock(s, step);
    forall k | 0 <= k < |s.exchanged| ensures Consumed(After(s, step), s.exchanged[k].0, s.exchanged[k].1) {
      assert Consumed(s, s.exchanged[k].0, s.exchanged[k].1);
    }
  }

  lemma StepKeepsInvariant(s: System, step: Step)
    requires Invariant(s) && Enabled(s, step)
    ensures Invariant(After(s, step))
  {
    hide LocksAgree, ExchangedOnce, SeesStore, UsesOnlyVouched, WritesOnlyOnSuccess, KindAgrees, Moved, Enabled;
    StepKeepsLocks(s, step);
    StepExchangesOnce(s, step);
    var t := After(s, step);
    forall i | 0 <= i < |t.processes| ensures ProcessInvariant(t, t.processes[i]) {
      StepKeepsSight(s, step, i);
      if !step.Clock? && step.i == i {
        MovedKeepsProcess(s, step);
      }
    }
  }

  lemma {:induction false} RunKeepsInvariant(s: System, steps: seq<Step>)
    requires Invariant(s) && Run(s, steps).Some?
    ensures Invariant(Run(s, steps).value)
    decreases |steps|
  {
    hide Invariant, After;
    if steps != [] {
      assert Enabled(s, steps[0]);
      StepKeepsInvariant(s, steps[0]);
      RunKeepsInvariant(After(s, steps[0]), steps[1..]);
    }
  }

  lemma InitialInvariant(s: System)
    requires Initial(s)
    ensures Invariant(s)
  {
  }

  lemma ReachableInvariant(s: System, steps: seq<Step>)
    requires Initial(s) && Run(s, steps).Some?
    ensures Invariant(Run(s, steps).value)
  {
    InitialInvariant(s);
    RunKeepsInvariant(s, steps);
  }

  // ----- What it means for requests -----------------------------------------------------

  predicate IsRefreshing(p: Process) { p.pc.Refreshing? || p.pc.Refreshed? }

  /** From the start of a refresh to its write, nobody else refreshes the provider. */
  lemma RefreshesNeverOverlap(s: System, steps: seq<Step>, i: nat, j: nat)
    requires Initial(s) && Run(s, steps).Some?
    requires var ps := Run(s, steps).value.processes;
             && i < |ps| && j < |ps| && ps[i].provider == ps[j].provider && IsRefreshing(ps[i]) && IsRefreshing(ps[j])
    ensures i == j
  {
    ReachableInvariant(s, steps);
  }

  /** And all that time the store holds exactly the credential that the refresh was given. */
  lemma RefreshConsumesTheStored(s: System, steps: seq<Step>, i: nat)
    requires Initial(s) && Run(s, steps).Some?
    requires var t := Run(s, steps).value; i < |t.processes| && IsRefreshing(t.processes[i])
    ensures var t := Run(s, steps).value;
            StoredFor(t, t.processes[i].provider) == Some(t.processes[i].pc.stale)
  {
    ReachableInvariant(s, steps);
    assert ProcessInvariant(Run(s, steps).value, Run(s, steps).value.processes[i]);
  }

  /** No stored version is exchanged twice. */
  lemma VersionsExchangedOnce(s: System, steps: seq<Step>, j: nat, k: nat)
    requires Initial(s) && Run(s, steps).Some?
    requires j < k < |Run(s, steps).value.exchanged|
    ensures Run(s, steps).value.exchanged[j] != Run(s, steps).value.exchanged[k]
  {
    ReachableInvariant(s, steps);
  }

  /** While a provider's lock is free, no version that was ever exchanged for it is stored. */
  lemma ExchangedIsReplaced(s: System, steps: seq<Step>, k: nat)
    requires Initial(s) && Run(s, steps).Some?
    requires k < |Run(s, steps).value.exchanged|
    ensures var t := Run(s, steps).value; var (provider, version) := t.exchanged[k];
            provider !in t.lockedBy && provider in t.store ==> t.store[provider].version != version
  {
    ReachableInvariant(s, steps);
    assert Consumed(Run(s, steps).value, Run(s, steps).value.exchanged[k].0, Run(s, steps).value.exchanged[k].1);
  }

  // ----- What a process did, step by step ------------------------------------------------

  /** Step n of the run is the one by which process i saw c unexpired. */
  ghost predicate SawUnexpired(s: System, steps: seq<Step>, i: nat, c: Stored, n: nat) {
    && n < |steps| && (steps[n] == Checks(i) || steps[n] == ChecksUnderLock(i))
    && Run(s, steps[..n]).Some? && c.credential.OAuth? && Run(s, steps[..n]).value.clock < c.credential.expires
  }

  lemma SeenLater(s: System, steps: seq<Step>, i: nat, c: Stored, n: nat)
    requires steps != [] && Enabled(s, steps[0]) && SawUnexpired(After(s, steps[0]), steps[1..], i, c, n)
    ensures SawUnexpired(s, steps, i, c, n + 1)
  {
    hide Enabled, After, Unexpired;
    assert steps[..n + 1][0] == steps[0] && steps[..n + 1][1..] == steps[1..][..n];
  }

  lemma UnexpiredGrows(s: System, step: Step, i: nat, c: Stored)
    requires Enabled(s, step) && i < |s.processes|
    requires c in After(s, step).processes[i].unexpired && c !in s.processes[i].unexpired
    ensures (step == Checks(i) || step == ChecksUnderLock(i)) && Unexpired(c, s.clock)
  {
  }

  lemma {:induction false} SeenDuringRun(s: System, steps: seq<Step>, i: nat, c: Stored)
    requires Run(s, steps).Some? && i < |s.processes| == |Run(s, steps).value.processes|
    requires c !in s.processes[i].unexpired && c in Run(s, steps).value.processes[i].unexpired
    ensures exists n :: SawUnexpired(s, steps, i, c, n)
    decreases |steps|
  {
    hide Enabled, After, Unexpired;
    if steps != [] {
      RunKeepsCount(After(s, steps[0]), steps[1..]);
      if c in After(s, steps[0]).processes[i].unexpired {
        UnexpiredGrows(s, steps[0], i, c);
        assert steps[..0] == [];
        assert SawUnexpired(s, steps, i, c, 0);
      } else {
        SeenDuringRun(After(s, steps[0]), steps[1..], i, c);
        var n: nat :| SawUnexpired(After(s, steps[0]), steps[1..], i, c, n);
        SeenLater(s, steps, i, c, n);
      }
    }
  }

  lemma {:induction false} RunKeepsCount(s: System, steps: seq<Step>)
    requires Run(s, steps).Some?
    ensures |Run(s, steps).value.processes| == |s.processes|
    decreases |steps|
  {
    hide Enabled, After;
    if steps != [] {
      RunKeepsCount(After(s, steps[0]), steps[1..]);
    }
  }

  /**
   * Every credential that a request hands to ToAuth was seen unexpired by a
   * check of that request, or is the one that the request itself refreshed and stored.
   */
  lemma HandedCredentialIsVouched(s: System, steps: seq<Step>, i: nat, c: Stored)
    requires Initial(s) && Run(s, steps).Some?
    requires i < |s.processes| == |Run(s, steps).value.processes|
    requires Run(s, steps).value.processes[i].pc == Deriving(c)
    ensures (exists n :: SawUnexpired(s, steps, i, c, n)) || Run(s, steps).value.processes[i].wrote == Some(c)
  {
    ReachableInvariant(s, steps);
    var p := Run(s, steps).value.processes[i];
    assert ProcessInvariant(Run(s, steps).value, p);
    if p.wrote != Some(c) {
      SeenDuringRun(s, steps, i, c);
    }
  }

  lemma WroteChanges(s: System, step: Step, i: nat)
    requires Enabled(s, step) && i < |s.processes|
    ensures After(s, step).processes[i].wrote.Some? <==> step == Writes(i) || s.processes[i].wrote.Some?
    ensures !step.Writes? && !step.Deletes? ==> After(s, step).store == s.store
  {
  }

  lemma {:induction false} WroteExactly(s: System, steps: seq<Step>, i: nat)
    requires Run(s, steps).Some? && i < |s.processes| == |Run(s, steps).value.processes|
    ensures Run(s, steps).value.processes[i].wrote.Some? <==> s.processes[i].wrote.Some? || Writes(i) in steps
    decreases |steps|
  {
    hide Enabled, After;
    if steps != [] {
      WroteChanges(s, steps[0], i);
      RunKeepsCount(After(s, steps[0]), steps[1..]);
      WroteExactly(After(s, steps[0]), steps[1..], i);
      assert steps == [steps[0]] + steps[1..];
    }
  }

  /** A request that failed, or that met a logout, has stored nothing. */
  lemma FailureStoresNothing(s: System, steps: seq<Step>, i: nat)
    requires Initial(s) && Run(s, steps).Some?
    requires i < |s.processes| == |Run(s, steps).value.processes|
    requires var p := Run(s, steps).value.processes[i];
             p.kind == Request && p.pc.Over? && (p.pc.result.Failed? || p.pc.result.value.None?)
    ensures Writes(i) !in steps
  {
    ReachableInvariant(s, steps);
    assert ProcessInvariant(Run(s, steps).value, Run(s, steps).value.processes[i]);
    WroteExactly(s, steps, i);
  }

  // ----- What a request's steps tell about it ------------------------------------------------------

  lemma {:induction false} RunNext(s: System, before: seq<Step>, last: Step)
    requires Run(s, before + [last]).Some?
    ensures Run(s, before).Some? && Enabled(Run(s, before).value, last)
    ensures Run(s, before + [last]).value == After(Run(s, before).value, last)
    decreases |before|
  {
    hide Enabled, After;
    var all := before + [last];
    if before == [] {
      assert all[1..] == [];
    } else {
      assert all[1..] == before[1..] + [last];
      RunNext(After(s, before[0]), before[1..], last);
    }
  }

  /** Step n of the run is the one by which process i saw c expired, under the lock. */
  ghost predicate SawExpired(s: System, steps: seq<Step>, i: nat, c: Stored, n: nat) {
    && n < |steps| && steps[n] == ChecksUnderLock(i)
    && Run(s, steps[..n]).Some? && c.credential.OAuth? && Run(s, steps[..n]).value.clock >= c.credential.expires
  }

  /** What a request refreshes it saw expired. */
  ghost predicate StepsTell(s: System, steps: seq<Step>, i: nat, p: Process) {
    p.kind == Request && IsRefreshing(p) ==> exists n :: SawExpired(s, steps, i, p.pc.stale, n)
  }

  lemma SawExpiredLater(s: System, steps: seq<Step>, last: Step, i: nat, c: Stored, n: nat)
    requires SawExpired(s, steps, i, c, n)
    ensures SawExpired(s, steps + [last], i, c, n)
  {
    assert (steps + [last])[..n] == steps[..n];
  }

  lemma OwnStepTells(s: System, before: seq<Step>, last: Step, i: nat)
    requires Run(s, before).Some? && Enabled(Run(s, before).value, last) && !last.Clock? && last.i == i
    requires StepsTell(s, before, i, Run(s, before).value.processes[i]) && KindAgrees(Run(s, before).value.processes[i])
    ensures StepsTell(s, before + [last], i, Moved(Run(s, before).value, last))
  {
    var t, steps := Run(s, before).value, before + [last];
    var p, q := t.processes[i], Moved(Run(s, before).value, last);
    assert steps[|before|] == last && steps[..|before|] == before;
    if q.kind == Request {
      if p.pc.Refreshing? || p.pc.Refreshed? {
        var n: nat :| SawExpired(s, before, i, p.pc.stale, n);
        SawExpiredLater(s, before, last, i, p.pc.stale, n);
      } else if q.pc.Refreshing? {
        assert SawExpired(s, steps, i, q.pc.stale, |before|);
      }
    }
  }

  lemma OtherStepTells(s: System, before: seq<Step>, last: Step, i: nat, p: Process)
    requires StepsTell(s, before, i, p)
    ensures StepsTell(s, before + [last], i, p)
  {
    if p.kind == Request && (p.pc.Refreshing? || p.pc.Refreshed?) {
      var n: nat :| SawExpired(s, before, i, p.pc.stale, n);
      SawExpiredLater(s, before, last, i, p.pc.stale, n);
    }
  }

  lemma {:induction false} RunTells(s: System, steps: seq<Step>, i: nat)
    requires Initial(s) && Run(s, steps).Some? && i < |s.processes|
    ensures i < |Run(s, steps).value.processes| && StepsTell(s, steps, i, Run(s, steps).value.processes[i])
    decreases |steps|
  {
    hide Enabled, After, Moved, StepsTell, Invariant;
    RunKeepsCount(s, steps);
    if steps == [] {
      StartTells(s, i);
    } else {
      var before, last := steps[..|steps| - 1], steps[|steps| - 1];
      assert steps == before + [last];
      RunNext(s, before, last);
      RunTells(s, before, i);
      RunKeepsCount(s, before);
      var t := Run(s, before).value;
      if !last.Clock? && last.i == i {
        ReachableInvariant(s, before);
        KindsOf(t, i);
        OwnStepTells(s, before, last, i);
      } else {
        OthersStay(t, last, i);
        OtherStepTells(s, before, last, i, t.processes[i]);
      }
    }
  }

  lemma StartTells(s: System, i: nat)
    requires Initial(s) && i < |s.processes|
    ensures StepsTell(s, [], i, s.processes[i])
  {
  }

  lemma KindsOf(t: System, i: nat)
    requires Invariant(t) && i < |t.processes|
    ensures KindAgrees(t.processes[i])
  {
    assert ProcessInvariant(t, t.processes[i]);
  }

  lemma OthersStay(t: System, step: Step, i: nat)
    requires Enabled(t, step) && i < |t.processes| && (step.Clock? || step.i != i)
    ensures After(t, step).processes[i] == t.processes[i]
  {
  }

  /** A request refreshes a credential only after a check of its own that saw it expired under the lock. */
  lemma OnlyExpiredAreRefreshed(s: System, steps: seq<Step>, i: nat)
    requires Initial(s) && Run(s, steps).Some? && i < |s.processes| == |Run(s, steps).value.processes|
    requires var p := Run(s, steps).value.processes[i]; p.kind == Request && IsRefreshing(p)
    ensures exists n :: SawExpired(s, steps, i, Run(s, steps).value.processes[i].pc.stale, n)
  {
    RunTells(s, steps, i);
  }

  // ----- How a process ends, told by its steps -------------------------------------------------

  predicate EndsWith(pc: Pc, r: Outcome<Option<Stored>>) { (pc.Releasing? || pc.Over?) && pc.result == r }

  /** The credential that is about to be written, or was. */
  predicate Brought(p: Process, c: Credential) {
    || ((p.pc.Refreshed? || p.pc.LoggingIn?) && p.pc.next == c)
    || (p.wrote.Some? && p.wrote.value.credential == c)
  }

  /** What the process has found of its provider is no OAuth credential. */
  predicate FoundNone(pc: Pc) {
    match pc
    case ReadUnderLock(current) => !IsOAuth(current)
    case Releasing(Ok(found)) => !IsOAuth(found)
    case Over(Ok(found)) => found.None?
    case _ => false
  }

  /** Step n of the run is the one by which process i saw that no OAuth credential was stored. */
  ghost predicate SawNone(s: System, steps: seq<Step>, i: nat, n: nat) {
    && n < |steps| && (steps[n] == Reads(i) || steps[n] == ReadsUnderLock(i))
    && Run(s, steps[..n]).Some?
    && var t := Run(s, steps[..n]).value;
       i < |t.processes| && !IsOAuth(StoredFor(t, t.processes[i].provider))
  }

  ghost predicate OutcomeTells(s: System, steps: seq<Step>, i: nat, p: Process) {
    && (forall e :: RefreshFails(i, e) in steps <==> p.kind == Request && EndsWith(p.pc, Failed(e)))
    && (forall e :: LoginFails(i, e) in steps <==> p.kind != Request && EndsWith(p.pc, Failed(e)))
    && (forall c :: RefreshSucceeds(i, c) in steps <==> p.kind == Request && Brought(p, c))
    && (forall c :: LoginSucceeds(i, c) in steps <==> p.kind != Request && Brought(p, c))
    && (Derives(i) in steps <==> p.pc.Over? && p.pc.result.Ok? && p.pc.result.value.Some?)
    && (p.kind == Request && FoundNone(p.pc) ==> exists n :: SawNone(s, steps, i, n))
  }

  lemma SawNoneLater(s: System, steps: seq<Step>, last: Step, i: nat)
    requires exists n :: SawNone(s, steps, i, n)
    ensures exists n :: SawNone(s, steps + [last], i, n)
  {
    var n: nat :| SawNone(s, steps, i, n);
    assert (steps + [last])[..n] == steps[..n];
    assert SawNone(s, steps + [last], i, n);
  }

  lemma OwnStepFinds(s: System, before: seq<Step>, last: Step, i: nat)
    requires Run(s, before).Some? && Enabled(Run(s, before).value, last) && !last.Clock? && last.i == i
    requires OutcomeTells(s, before, i, Run(s, before).value.processes[i])
    requires ProcessInvariant(Run(s, before).value, Run(s, before).value.processes[i])
    ensures var q := Moved(Run(s, before).value, last);
            q.kind == Request && FoundNone(q.pc) ==> exists n :: SawNone(s, before + [last], i, n)
  {
    hide Run, Brought, Vouched;
    var t, steps := Run(s, before).value, before + [last];
    var p, q := t.processes[i], Moved(t, last);
    if q.kind == Request && FoundNone(q.pc) {
      if FoundNone(p.pc) {
        SawNoneLater(s, before, last, i);
      } else {
        assert steps[|before|] == last && steps[..|before|] == before;
        assert SawNone(s, steps, i, |before|);
      }
    }
  }

  /** Where a process stands after its step, as far as its outcome goes. */
  lemma OwnStepMoves(t: System, last: Step)
    requires Enabled(t, last) && !last.Clock? && ProcessInvariant(t, t.processes[last.i])
    ensures var p, q := t.processes[last.i], Moved(t, last);
            && q.kind == p.kind
            && (last.RefreshSucceeds? || last.RefreshFails? ==> p.kind == Request)
            && (last.LoginSucceeds? || last.LoginFails? ==> p.kind != Request)
            && (forall e :: EndsWith(q.pc, Failed(e)) <==>
                  EndsWith(p.pc, Failed(e)) || last == RefreshFails(last.i, e) || last == LoginFails(last.i, e))
            && (forall c :: Brought(q, c) <==>
                  Brought(p, c) || last == RefreshSucceeds(last.i, c) || last == LoginSucceeds(last.i, c))
            && !p.pc.Over?
            && (q.pc.Over? && q.pc.result.Ok? && q.pc.result.value.Some? <==> last.Derives?)
  {
    hide SeesStore, Vouched;
  }

  lemma OwnStepEnds(s: System, before: seq<Step>, last: Step, i: nat)
    requires Run(s, before).Some? && Enabled(Run(s, before).value, last) && !last.Clock? && last.i == i
    requires OutcomeTells(s, before, i, Run(s, before).value.processes[i])
    requires ProcessInvariant(Run(s, before).value, Run(s, before).value.processes[i])
    ensures OutcomeTells(s, before + [last], i, Moved(Run(s, before).value, last))
  {
    hide Run, Enabled, Moved, ProcessInvariant, SawNone, FoundNone, EndsWith, Brought;
    OwnStepFinds(s, before, last, i);
    OwnStepMoves(Run(s, before).value, last);
  }

  lemma OtherStepEnds(s: System, before: seq<Step>, last: Step, i: nat, p: Process)
    requires OutcomeTells(s, before, i, p) && (last.Clock? || last.i != i)
    ensures OutcomeTells(s, before + [last], i, p)
  {
    hide SawNone, FoundNone, EndsWith, Brought;
    if p.kind == Request && FoundNone(p.pc) {
      SawNoneLater(s, before, last, i);
    }
  }

  lemma {:induction false} RunEnds(s: System, steps: seq<Step>, i: nat)
    requires Initial(s) && Run(s, steps).Some? && i < |s.processes|
    ensures i < |Run(s, steps).value.processes| && OutcomeTells(s, steps, i, Run(s, steps).value.processes[i])
    decreases |steps|
  {
    hide Enabled, After, Moved, OutcomeTells, ProcessInvariant;
    RunKeepsCount(s, steps);
    if steps == [] {
      StartEnds(s, i);
    } else {
      var before, last := steps[..|steps| - 1], steps[|steps| - 1];
      assert steps == before + [last];
      RunNext(s, before, last);
      RunEnds(s, before, i);
      RunKeepsCount(s, before);
      var t := Run(s, before).value;
      if !last.Clock? && last.i == i {
        ReachableInvariant(s, before);
        OwnStepEnds(s, before, last, i);
      } else {
        OthersStay(t, last, i);
        OtherStepEnds(s, before, last, i, t.processes[i]);
      }
    }
  }

  lemma StartEnds(s: System, i: nat)
    requires Initial(s) && i < |s.processes|
    ensures OutcomeTells(s, [], i, s.processes[i])
  {
  }

  /**
   * A request that is over failed exactly if its refresh did, with that error;
   * it hands a credential on exactly if it came to derive; it ends with what its
   * own refresh brought, if it refreshed; and with nothing only if it found, before
   * or under the lock, that no OAuth credential was stored.
   */
  lemma RequestEndsExactly(s: System, steps: seq<Step>, i: nat)
    requires Initial(s) && Run(s, steps).Some? && i < |Run(s, steps).value.processes|
    requires var p := Run(s, steps).value.processes[i]; p.kind == Request && p.pc.Over?
    ensures var p := Run(s, steps).value.processes[i]; var r := p.pc.result;
            && (forall e :: r == Failed(e) <==> RefreshFails(i, e) in steps)
            && (Derives(i) in steps <==> exists c :: r == Ok(Some(c)))
            && (forall c :: RefreshSucceeds(i, c) in steps <==>
                  p.wrote.Some? && p.wrote.value.credential == c && r == Ok(p.wrote))
            && (r == Ok(None) ==> exists n :: SawNone(s, steps, i, n))
  {
    hide Run, SawNone;
    RunKeepsCount(s, steps);
    RunEnds(s, steps, i);
    ReachableInvariant(s, steps);
    var p := Run(s, steps).value.processes[i];
    assert ProcessInvariant(Run(s, steps).value, p);
    assert p.pc.result.Ok? && p.pc.result.value.Some? ==> p.pc.result == Ok(Some(p.pc.result.value.value));
  }

  /** At any time, what a request has stored is what a refresh of its own brought. */
  lemma StoredIsRefreshed(s: System, steps: seq<Step>, i: nat)
    requires Initial(s) && Run(s, steps).Some? && i < |Run(s, steps).value.processes|
    ensures var p := Run(s, steps).value.processes[i];
            p.kind == Request && p.wrote.Some? ==> RefreshSucceeds(i, p.wrote.value.credential) in steps
  {
    hide Run, SawNone;
    RunKeepsCount(s, steps);
    RunEnds(s, steps, i);
  }

  /** A login or a logout fails exactly if the provider's login did, and stores exactly what it brought. */
  lemma LoginEndsExactly(s: System, steps: seq<Step>, i: nat)
    requires Initial(s) && Run(s, steps).Some? && i < |Run(s, steps).value.processes|
    requires var p := Run(s, steps).value.processes[i]; p.kind != Request && p.pc.Over?
    ensures var p := Run(s, steps).value.processes[i];
            && (forall e :: p.pc.result == Failed(e) <==> LoginFails(i, e) in steps)
            && (forall c :: LoginSucceeds(i, c) in steps <==> p.wrote.Some? && p.wrote.value.credential == c)
  {
    hide Run, SawNone;
    RunKeepsCount(s, steps);
    RunEnds(s, steps, i);
  }

  // ----- What is stored, told by the steps ----------------------------------------------------

  /** The step writes or deletes the credential of a provider. */
  predicate Stores(s: System, step: Step, provider: string) {
    (step.Writes? || step.Deletes?) && step.i < |s.processes| && s.processes[step.i].provider == provider
  }

  lemma StepStores(s: System, step: Step, provider: string)
    requires Enabled(s, step)
    ensures StoredFor(After(s, step), provider) ==
              if !Stores(s, step, provider) then StoredFor(s, provider)
              else if step.Deletes? then None
              else After(s, step).processes[step.i].wrote
    ensures forall other, p :: Stores(After(s, step), other, p) <==> Stores(s, other, p)
    ensures Stores(s, step, provider) ==> step.i < |After(s, step).processes|
  {
  }

  /** A run that neither writes nor deletes a provider's credential leaves it alone. */
  lemma {:induction false} RestStoresNothing(s: System, steps: seq<Step>, provider: string)
    requires Run(s, steps).Some? && forall step | step in steps :: !Stores(s, step, provider)
    ensures StoredFor(Run(s, steps).value, provider) == StoredFor(s, provider)
    decreases |steps|
  {
    hide Enabled, After, Stores, StoredFor;
    if steps != [] {
      StepStores(s, steps[0], provider);
      assert steps[0] in steps && forall step | step in steps[1..] :: step in steps;
      RestStoresNothing(After(s, steps[0]), steps[1..], provider);
    }
  }

  /**
   * A provider's stored credential is what the last write for it stored, or none
   * if the last such step was a logout.
   */
  lemma {:induction false} StoredIsLastWritten(s: System, before: seq<Step>, last: Step, rest: seq<Step>, provider: string)
    requires Run(s, before + [last] + rest).Some?
    requires Stores(s, last, provider) && forall step | step in rest :: !Stores(s, step, provider)
    ensures Run(s, before + [last]).Some? && last.i < |Run(s, before + [last]).value.processes|
    ensures StoredFor(Run(s, before + [last] + rest).value, provider) ==
              if last.Deletes? then None else Run(s, before + [last]).value.processes[last.i].wrote
    decreases |before|
  {
    hide Enabled, After, Stores, StoredFor;
    var all := before + [last] + rest;
    if before == [] {
      assert all[0] == last && all[1..] == rest && (before + [last])[1..] == [];
      StepStores(s, last, provider);
      RestStoresNothing(After(s, last), rest, provider);
    } else {
      assert all[0] == before[0] && all[1..] == before[1..] + [last] + rest;
      assert (before + [last])[0] == before[0] && (before + [last])[1..] == before[1..] + [last];
      StepStores(s, before[0], provider);
      StoredIsLastWritten(After(s, before[0]), before[1..], last, rest, provider);
    }
  }

  // ----- Every process gets to its end ------------------------------------------------------

  /** A bound on the steps that a process has still to take. */
  function Left(pc: Pc): nat {
    match pc
    case Idle => 9
    case HasRead(_) => 8
    case WantsLock => 7
    case HasLock => 6
    case ReadUnderLock(_) => 5
    case Refreshing(_) => 4
    case Refreshed(_, _) => 3
    case LoggingIn(_) => 3
    case Releasing(_) => 2
    case Deriving(_) => 1
    case Over(_) => 0
  }

  ghost predicate MayStep(s: System, i: nat) { exists step: Step | !step.Clock? && step.i == i :: Enabled(s, step) }

  lemma HolderMayStep(s: System, i: nat)
    requires i < |s.processes| && KindAgrees(s.processes[i]) && HoldsLock(s.processes[i].pc)
    ensures MayStep(s, i)
  {
    var p := s.processes[i];
    match p.pc
    case HasLock =>
      match p.kind {
        case Request => assert Enabled(s, ReadsUnderLock(i));
        case Login => assert Enabled(s, LoginFails(i, ""));
        case Logout => assert Enabled(s, Deletes(i));
      }
    case ReadUnderLock(_) => assert Enabled(s, ChecksUnderLock(i));
    case Refreshing(_) => assert Enabled(s, RefreshFails(i, ""));
    case Refreshed(_, _) => assert Enabled(s, Writes(i));
    case LoggingIn(_) => assert Enabled(s, Writes(i));
    case Releasing(_) => assert Enabled(s, Unlocks(i));
    case _ =>
  }

  lemma FreeMayStep(s: System, i: nat)
    requires i < |s.processes| && !s.processes[i].pc.Over? && !HoldsLock(s.processes[i].pc)
    requires s.processes[i].provider !in s.lockedBy
    ensures MayStep(s, i)
  {
    var p := s.processes[i];
    match p.pc
    case Idle => assert p.kind == Request ==> Enabled(s, Reads(i)); assert p.kind != Request ==> Enabled(s, Locks(i));
    case HasRead(_) => assert Enabled(s, Checks(i));
    case WantsLock => assert Enabled(s, Locks(i));
    case Deriving(_) => assert Enabled(s, Derives(i));
    case _ =>
  }

  /**
   * In every reachable state a process that is not at its end can step, or the
   * process that holds its provider's lock can.
   */
  lemma NobodyIsStuck(s: System, steps: seq<Step>, i: nat)
    requires Initial(s) && Run(s, steps).Some? && i < |Run(s, steps).value.processes|
    ensures var t := Run(s, steps).value; var p := t.processes[i];
            !p.pc.Over? ==>
              MayStep(t, i) || (p.provider in t.lockedBy && t.lockedBy[p.provider] != i && MayStep(t, t.lockedBy[p.provider]))
  {
    hide Run, Initial, Enabled, MayStep, ExchangedOnce, ProcessInvariant, KindAgrees;
    ReachableInvariant(s, steps);
    var t := Run(s, steps).value;
    var p := t.processes[i];
    if HoldsLock(p.pc) {
      KindsOf(t, i);
      HolderMayStep(t, i);
    } else if p.provider in t.lockedBy {
      KindsOf(t, t.lockedBy[p.provider]);
      HolderMayStep(t, t.lockedBy[p.provider]);
    } else if !p.pc.Over? {
      FreeMayStep(t, i);
    }
  }

  /** A refresh may bring any OAuth credential and a login any, and either may fail with any error. */
  lemma AnyOutcomeMayCome(s: System, i: nat)
    requires i < |s.processes|
    ensures var p := s.processes[i];
            && (p.pc.Refreshing? ==>
                  && (forall c: Credential | c.OAuth? :: Enabled(s, RefreshSucceeds(i, c)))
                  && (forall e :: Enabled(s, RefreshFails(i, e))))
            && (p.pc == HasLock && p.kind == Login ==>
                  (forall c :: Enabled(s, LoginSucceeds(i, c))) && (forall e :: Enabled(s, LoginFails(i, e))))
  {
  }

  /** Only a process's own steps move it, and each brings it nearer to its end. */
  lemma StepBringsNearer(s: System, step: Step, i: nat)
    requires Enabled(s, step) && i < |s.processes|
    ensures if !step.Clock? && step.i == i
            then Left(After(s, step).processes[i].pc) < Left(s.processes[i].pc)
            else After(s, step).processes[i] == s.processes[i]
  {
  }
}
