/**
 The claim on a socket path: any number of daemons and shims, each running its
 own program one system call at a time, any of them killed at any moment.

 Rule 1: a daemon takes the claim before it touches the path, and keeps it until
 it has stopped serving and unlinked its socket. Rule 2: nobody unlinks without
 the claim. The machine below follows the programs, not the rules; with
 `claims` false the lock excludes nobody, to show what the rules are for.
 */
module SocketClaim {
  import opened Text

  const PROBE_ATTEMPTS: nat := 3

  // ---------------------------------------------------------------------
  // The machine
  // ---------------------------------------------------------------------

  /** What one `connect` says: a connection, "nobody is there", or some other error. */
  datatype Answer = Accepted | Unreachable | Inconclusive

  /** Where a process is in its program; a file is named by its inode. */
  datatype Phase =
    | DaemonStart                 // about to take the claim
    | DaemonClaimed               // about to look at the path
    | DaemonFound                 // a file of ours is there: about to connect
    | DaemonCondemned             // the connect failed: about to unlink
    | DaemonClear                 // about to bind
    | DaemonBound(inode: nat)     // bound, not yet listening
    | DaemonListening(inode: nat)
    | DaemonEnding                // about to drop the claim and exit
    | ShimStart                   // about to take the claim, or to do without
    | ShimProbing(refusals: nat)
    | ShimCondemned               // every probe failed: about to unlink
    | ShimEnding                  // about to drop the claim
    | Gone

  datatype State = State(
    processes: map<nat, Phase>,
    holder: Option<nat>,          // who has the lock file's `flock`
    path: Option<nat>,            // what the socket path names
    nextInode: nat,
    strangers: set<nat>)          // sockets of listeners that know nothing of claims

  datatype Event =
    | Spawn(p: nat, daemon: bool)
    | Kill(p: nat)
    | Litter(listening: bool)               // a stranger leaves a file at the path
    | TakeClaim(p: nat)
    | ClaimRefused(p: nat)                  // held by another, or unanswerable
    | LookAtPath(p: nat, ours: bool)
    | Connect(p: nat, answer: Answer)
    | ProbeRefusedAsNotOurs(p: nat)
    | Unlink(p: nat)
    | Bind(p: nat)
    | Listen(p: nat, ok: bool)
    | FailBeforeServing(p: nat)             // signal handlers, or the PID file
    | StopServing(p: nat)                   // `cleanup`: unlink whatever the path names
    | DropClaim(p: nat)

  function Start(): State {
    State(map[], None, None, 0, {})
  }

  function PhaseOf(s: State, p: nat): Phase {
    if p in s.processes then s.processes[p] else Gone
  }

  predicate Serves(phase: Phase) {
    phase.DaemonBound? || phase.DaemonListening?
  }

  /** The phases in which a program has its claim open. */
  predicate Holds(phase: Phase) {
    !(phase.DaemonStart? || phase.ShimStart? || phase.Gone?)
  }

  /** Somebody listens behind the path. A listener may still refuse, its backlog full. */
  predicate Answering(s: State) {
    s.path.Some? &&
    (s.path.value in s.strangers ||
     exists p :: p in s.processes && s.processes[p] == DaemonListening(s.path.value))
  }

  predicate Enabled(claims: bool, s: State, e: Event) {
    match e
    case Spawn(p, _) => p !in s.processes
    case Kill(p) => !PhaseOf(s, p).Gone?
    case Litter(_) => s.path.None?
    case TakeClaim(p) =>
      (PhaseOf(s, p).DaemonStart? || PhaseOf(s, p).ShimStart?) && (claims ==> s.holder.None?)
    case ClaimRefused(p) => PhaseOf(s, p).DaemonStart? || PhaseOf(s, p).ShimStart?
    case LookAtPath(p, _) => PhaseOf(s, p).DaemonClaimed?
    case Connect(p, answer) =>
      (PhaseOf(s, p).DaemonFound? || PhaseOf(s, p).ShimProbing?) &&
      (answer.Accepted? ==> Answering(s))
    case ProbeRefusedAsNotOurs(p) => PhaseOf(s, p) == ShimProbing(0)
    case Unlink(p) => PhaseOf(s, p).DaemonCondemned? || PhaseOf(s, p).ShimCondemned?
    case Bind(p) => PhaseOf(s, p).DaemonClear?
    case Listen(p, _) => PhaseOf(s, p).DaemonBound?
    case FailBeforeServing(p) => PhaseOf(s, p).DaemonListening?
    case StopServing(p) => PhaseOf(s, p).DaemonListening?
    case DropClaim(p) => PhaseOf(s, p).DaemonEnding? || PhaseOf(s, p).ShimEnding?
  }

  function Goto(s: State, p: nat, phase: Phase): State {
    s.(processes := s.processes[p := phase])
  }

  /** The kernel releases a lock with its holder's last descriptor. */
  function Released(s: State, p: nat): State {
    if s.holder == Some(p) then s.(holder := None) else s
  }

  function Next(claims: bool, s: State, e: Event): State
    requires Enabled(claims, s, e)
  {
    match e
    case Spawn(p, daemon) => Goto(s, p, if daemon then DaemonStart else ShimStart)
    case Kill(p) => Released(Goto(s, p, Gone), p)
    case Litter(listening) =>
      s.(path := Some(s.nextInode), nextInode := s.nextInode + 1,
         strangers := if listening then s.strangers + {s.nextInode} else s.strangers)
    case TakeClaim(p) =>
      Goto(s.(holder := Some(p)), p, if PhaseOf(s, p).DaemonStart? then DaemonClaimed else ShimProbing(0))
    case ClaimRefused(p) => Goto(s, p, if PhaseOf(s, p).DaemonStart? then Gone else ShimStart)
    case LookAtPath(p, ours) =>
      Goto(s, p, if s.path.None? then DaemonClear else if ours then DaemonFound else DaemonEnding)
    case Connect(p, answer) =>
      Goto(s, p,
           if PhaseOf(s, p).DaemonFound? then
             if answer.Accepted? then DaemonEnding else DaemonCondemned
           else if answer.Unreachable? then
             if PhaseOf(s, p).refusals + 1 < PROBE_ATTEMPTS
             then ShimProbing(PhaseOf(s, p).refusals + 1) else ShimCondemned
           else ShimEnding)
    case ProbeRefusedAsNotOurs(p) => Goto(s, p, ShimEnding)
    case Unlink(p) =>
      Goto(s.(path := None), p,
           if PhaseOf(s, p).ShimCondemned? then ShimEnding
           else if s.path.Some? then DaemonClear else DaemonEnding)
    case Bind(p) =>
      if s.path.None?
      then Goto(s.(path := Some(s.nextInode), nextInode := s.nextInode + 1), p, DaemonBound(s.nextInode))
      else Goto(s, p, DaemonEnding)
    case Listen(p, ok) =>
      Goto(s, p, if ok then DaemonListening(PhaseOf(s, p).inode) else DaemonEnding)
    case FailBeforeServing(p) => Goto(s, p, DaemonEnding)
    case StopServing(p) => Goto(s.(path := None), p, DaemonEnding)
    case DropClaim(p) =>
      Released(Goto(s, p, if PhaseOf(s, p).DaemonEnding? then Gone else ShimStart), p)
  }

  ghost predicate IsRun(claims: bool, events: seq<Event>)
    decreases |events|, 0
  {
    events == [] ||
    (IsRun(claims, events[..|events| - 1]) &&
     Enabled(claims, Run(claims, events[..|events| - 1]), events[|events| - 1]))
  }

  ghost function Run(claims: bool, events: seq<Event>): State
    requires IsRun(claims, events)
    decreases |events|, 1
  {
    if events == [] then Start()
    else Next(claims, Run(claims, events[..|events| - 1]), events[|events| - 1])
  }

  // ---------------------------------------------------------------------
  // What every run keeps
  // ---------------------------------------------------------------------

  /** Having the claim open and having the lock are the same. */
  ghost predicate LockIsExclusive(s: State) {
    forall p: nat :: Holds(PhaseOf(s, p)) <==> s.holder == Some(p)
  }

  /** A daemon's socket file is its own, and the path names it. */
  ghost predicate OwnersAreNamed(s: State) {
    forall p :: p in s.processes && Serves(s.processes[p]) ==> s.path == Some(s.processes[p].inode)
  }

  ghost predicate Sound(s: State) {
    LockIsExclusive(s) && OwnersAreNamed(s)
  }

  lemma StepKeepsSound(s: State, e: Event)
    requires Sound(s) && Enabled(true, s, e)
    ensures Sound(Next(true, s, e))
  {
    var t := Next(true, s, e);
    forall p: nat ensures Holds(PhaseOf(t, p)) <==> t.holder == Some(p) {
      assert Holds(PhaseOf(s, p)) <==> s.holder == Some(p);
    }
    forall p | p in t.processes && Serves(t.processes[p])
      ensures t.path == Some(t.processes[p].inode)
    {
      assert Holds(PhaseOf(t, p));
    }
  }

  lemma {:induction false} RunKeepsSound(events: seq<Event>)
    requires IsRun(true, events)
    ensures Sound(Run(true, events))
  {
    if events != [] {
      RunKeepsSound(events[..|events| - 1]);
      StepKeepsSound(Run(true, events[..|events| - 1]), events[|events| - 1]);
    }
  }

  /** In every run, a bound or listening daemon has the claim, and the path names its own socket. */
  lemma LiveDaemonOwnsThePath(events: seq<Event>, p: nat)
    requires IsRun(true, events)
    requires Serves(PhaseOf(Run(true, events), p))
    ensures Run(true, events).holder == Some(p)
    ensures Run(true, events).path == Some(PhaseOf(Run(true, events), p).inode)
  {
    RunKeepsSound(events);
    var s := Run(true, events);
    assert Holds(PhaseOf(s, p));
  }

  lemma AtMostOneServes(events: seq<Event>, p: nat, q: nat)
    requires IsRun(true, events)
    requires Serves(PhaseOf(Run(true, events), p)) && Serves(PhaseOf(Run(true, events), q))
    ensures p == q
  {
    LiveDaemonOwnsThePath(events, p);
    LiveDaemonOwnsThePath(events, q);
  }

  /** No step but a daemon's own stopping takes the name of its socket away. */
  lemma NobodyUnlinksALiveSocket(events: seq<Event>, e: Event, p: nat)
    requires IsRun(true, events) && Enabled(true, Run(true, events), e)
    requires Serves(PhaseOf(Run(true, events), p)) && e != StopServing(p)
    ensures Next(true, Run(true, events), e).path == Run(true, events).path
  {
    var s := Run(true, events);
    LiveDaemonOwnsThePath(events, p);
    if e.Unlink? || e.StopServing? || e.Bind? {
      RunKeepsSound(events);
      assert Holds(PhaseOf(s, e.p));
    }
  }

  /** Under the claim, the only one who can answer a probe is one who never asked for the claim. */
  lemma OnlyStrangersAnswerAProbe(events: seq<Event>, p: nat)
    requires IsRun(true, events) && Enabled(true, Run(true, events), Connect(p, Accepted))
    ensures Run(true, events).path.value in Run(true, events).strangers
  {
    var s := Run(true, events);
    RunKeepsSound(events);
    assert Holds(PhaseOf(s, p));
    forall q | q in s.processes ensures !s.processes[q].DaemonListening? {
      assert Holds(PhaseOf(s, q)) ==> q == p;
    }
  }

  /** A daemon that stops takes away its own socket and nothing else, while it still has the claim. */
  lemma StoppingUnlinksItsOwn(events: seq<Event>, p: nat)
    requires IsRun(true, events) && Enabled(true, Run(true, events), StopServing(p))
    ensures var s, t := Run(true, events), Next(true, Run(true, events), StopServing(p));
            && s.path == Some(PhaseOf(s, p).inode) && t.path == None
            && s.holder == t.holder == Some(p)
  {
    LiveDaemonOwnsThePath(events, p);
  }

  /** Binding takes an empty path; where there is a file, the daemon gives up and the file stays. */
  lemma OnlyAnEmptyPathIsBound(claims: bool, s: State, p: nat)
    requires Enabled(claims, s, Bind(p))
    ensures var t := Next(claims, s, Bind(p));
            if s.path.None?
            then Serves(PhaseOf(t, p)) && t.path == Some(PhaseOf(t, p).inode) && t.path != s.path
            else t.path == s.path && !Serves(PhaseOf(t, p))
  {
  }

  // ---------------------------------------------------------------------
  // Nothing is condemned that answered
  // ---------------------------------------------------------------------

  /** What a process has done since it last took the claim. */
  ghost function SinceClaim(events: seq<Event>, p: nat): seq<Event> {
    if events == [] then []
    else
      var e, before := events[|events| - 1], SinceClaim(events[..|events| - 1], p);
      if e.Litter? || e.p != p then before
      else if e.TakeClaim? then [e] else before + [e]
  }

  function Refusals(p: nat, n: nat): seq<Event> {
    if n == 0 then [] else Refusals(p, n - 1) + [Connect(p, Unreachable)]
  }

  /** A daemon that claimed, found a file of its own user's, and was not let in. */
  predicate DaemonWasRefused(done: seq<Event>, p: nat) {
    && |done| == 3 && done[0] == TakeClaim(p) && done[1] == LookAtPath(p, true)
    && (done[2] == Connect(p, Unreachable) || done[2] == Connect(p, Inconclusive))
  }

  /** A shim that claimed and found nobody there three times in a row. */
  predicate ShimWasRefused(done: seq<Event>, p: nat) {
    done == [TakeClaim(p), Connect(p, Unreachable), Connect(p, Unreachable), Connect(p, Unreachable)]
  }

  predicate NeverLetIn(done: seq<Event>, p: nat) {
    Connect(p, Accepted) !in done
  }

  /** What a process in each phase has done to get there. */
  predicate GotThere(phase: Phase, done: seq<Event>, p: nat) {
    match phase
    case DaemonClaimed => done == [TakeClaim(p)]
    case DaemonFound => done == [TakeClaim(p), LookAtPath(p, true)]
    case DaemonCondemned => DaemonWasRefused(done, p)
    case DaemonClear =>
      || (|done| == 2 && done[0] == TakeClaim(p) && done[1].LookAtPath?)
      || (|done| == 4 && DaemonWasRefused(done[..3], p) && done[3] == Unlink(p))
    case DaemonBound(_) => NeverLetIn(done, p)
    case DaemonListening(_) => NeverLetIn(done, p)
    case ShimProbing(n) => n < PROBE_ATTEMPTS && done == [TakeClaim(p)] + Refusals(p, n)
    case ShimCondemned => ShimWasRefused(done, p)
    case _ => true
  }

  lemma StepGetsThere(claims: bool, s: State, e: Event, p: nat, done: seq<Event>)
    requires Enabled(claims, s, e) && !e.Litter? && e.p == p && GotThere(PhaseOf(s, p), done, p)
    ensures GotThere(PhaseOf(Next(claims, s, e), p), if e.TakeClaim? then [e] else done + [e], p)
  {
    match e
    case Connect(_, _) => ConnectGetsThere(claims, s, e, p, done);
    case Unlink(_) => assert (done + [e])[..|done|] == done;
    case Bind(_) => BindGetsThere(done, p);
    case _ =>
  }

  lemma ConnectGetsThere(claims: bool, s: State, e: Event, p: nat, done: seq<Event>)
    requires e.Connect? && Enabled(claims, s, e) && e.p == p && GotThere(PhaseOf(s, p), done, p)
    ensures GotThere(PhaseOf(Next(claims, s, e), p), done + [e], p)
  {
    if PhaseOf(s, p).ShimProbing? && e.answer.Unreachable? {
      var n := PhaseOf(s, p).refusals;
      assert done + [e] == [TakeClaim(p)] + Refusals(p, n + 1);
      ThreeRefusals(p);
    }
  }

  lemma ThreeRefusals(p: nat)
    ensures ShimWasRefused([TakeClaim(p)] + Refusals(p, PROBE_ATTEMPTS), p)
  {
    assert Refusals(p, 1) == [Connect(p, Unreachable)];
    assert Refusals(p, 2) == [Connect(p, Unreachable), Connect(p, Unreachable)];
    assert Refusals(p, 3) == [Connect(p, Unreachable), Connect(p, Unreachable), Connect(p, Unreachable)];
  }

  lemma BindGetsThere(done: seq<Event>, p: nat)
    requires GotThere(DaemonClear, done, p)
    ensures NeverLetIn(done, p) && NeverLetIn(done + [Bind(p)], p)
  {
    if |done| == 4 {
      assert done[2] == done[..3][2] && done[0] == done[..3][0] && done[1] == done[..3][1];
    }
  }

  lemma OtherStepStays(claims: bool, s: State, e: Event, p: nat)
    requires Enabled(claims, s, e) && (e.Litter? || e.p != p)
    ensures PhaseOf(Next(claims, s, e), p) == PhaseOf(s, p)
  {
  }

  lemma {:induction false} RunGetsThere(claims: bool, events: seq<Event>, p: nat)
    requires IsRun(claims, events)
    ensures GotThere(PhaseOf(Run(claims, events), p), SinceClaim(events, p), p)
  {
    if events != [] {
      var before, e := events[..|events| - 1], events[|events| - 1];
      RunGetsThere(claims, before, p);
      if e.Litter? || e.p != p {
        OtherStepStays(claims, Run(claims, before), e, p);
      } else {
        StepGetsThere(claims, Run(claims, before), e, p, SinceClaim(before, p));
      }
    }
  }

  /**
   In every run, claims or no claims, whoever unlinks on the way in was refused by
   every connect it made since it took the claim: a daemon once, at a path of its
   own user's; a shim three times in a row.
   */
  lemma OnlyTheRefusedUnlink(claims: bool, events: seq<Event>, p: nat)
    requires IsRun(claims, events) && Enabled(claims, Run(claims, events), Unlink(p))
    ensures DaemonWasRefused(SinceClaim(events, p), p) || ShimWasRefused(SinceClaim(events, p), p)
  {
    RunGetsThere(claims, events, p);
  }

  /**
   A process whose connect was accepted since it took the claim leaves the path
   alone: no step of its own changes what the path names until it claims again.
   */
  lemma AcceptedMeansHandsOff(claims: bool, events: seq<Event>, p: nat, e: Event)
    requires IsRun(claims, events) && Enabled(claims, Run(claims, events), e) && !e.Litter? && e.p == p
    requires Connect(p, Accepted) in SinceClaim(events, p)
    ensures Next(claims, Run(claims, events), e).path == Run(claims, events).path
    ensures !e.Unlink? && !e.Bind? && !e.Listen? && !e.StopServing?
  {
    RunGetsThere(claims, events, p);
    AcceptedIsOut(PhaseOf(Run(claims, events), p), SinceClaim(events, p), p);
  }

  lemma AcceptedIsOut(phase: Phase, done: seq<Event>, p: nat)
    requires GotThere(phase, done, p) && Connect(p, Accepted) in done
    ensures phase.DaemonStart? || phase.DaemonEnding? || phase.ShimStart? || phase.ShimEnding? || phase.Gone?
  {
    var i :| 0 <= i < |done| && done[i] == Connect(p, Accepted);
    match phase
    case DaemonClear => BindGetsThere(done, p);
    case ShimProbing(n) => RefusalsAre(p, n, done[i]);
    case _ =>
  }

  lemma {:induction false} RefusalsAre(p: nat, n: nat, e: Event)
    ensures e in Refusals(p, n) ==> e == Connect(p, Unreachable)
  {
    if n > 0 {
      RefusalsAre(p, n - 1, e);
    }
  }

  // ---------------------------------------------------------------------
  // Over time
  // ---------------------------------------------------------------------

  lemma {:induction false} PrefixIsRun(claims: bool, events: seq<Event>, k: nat)
    requires IsRun(claims, events) && k <= |events|
    ensures IsRun(claims, events[..k])
  {
    if k == |events| {
      assert events[..k] == events;
    } else {
      PrefixIsRun(claims, events[..|events| - 1], k);
      assert events[..|events| - 1][..k] == events[..k];
    }
  }

  ghost function At(events: seq<Event>, k: nat): State
    requires IsRun(true, events) && k <= |events|
  {
    PrefixIsRun(true, events, k);
    Run(true, events[..k])
  }

  lemma AtSteps(events: seq<Event>, k: nat)
    requires IsRun(true, events) && k < |events|
    ensures Enabled(true, At(events, k), events[k])
    ensures At(events, k + 1) == Next(true, At(events, k), events[k])
  {
    PrefixIsRun(true, events, k + 1);
    assert events[..k + 1][..k] == events[..k];
  }

  /** A daemon that has served serves on, on the same socket, or is on its way out for good. */
  predicate ServedOn(phase: Phase, inode: nat) {
    phase == DaemonBound(inode) || phase == DaemonListening(inode) || phase.DaemonEnding? || phase.Gone?
  }

  lemma {:induction false} ServiceEndsOnce(events: seq<Event>, first: nat, last: nat, p: nat)
    requires IsRun(true, events) && first <= last <= |events|
    requires p in At(events, first).processes
    requires Serves(PhaseOf(At(events, first), p))
    ensures p in At(events, last).processes
    ensures ServedOn(PhaseOf(At(events, last), p), PhaseOf(At(events, first), p).inode)
    ensures forall k :: first <= k <= last && Serves(PhaseOf(At(events, last), p)) ==> Serves(PhaseOf(At(events, k), p))
    decreases last
  {
    if first < last {
      ServiceEndsOnce(events, first, last - 1, p);
      AtSteps(events, last - 1);
    }
  }

  /**
   From the moment a daemon binds to its last moment of service, through every
   step anybody takes, it has the claim and the path names that one socket.
   */
  lemma NameIsKept(events: seq<Event>, first: nat, k: nat, last: nat, p: nat)
    requires IsRun(true, events) && first <= k <= last <= |events|
    requires Serves(PhaseOf(At(events, first), p)) && Serves(PhaseOf(At(events, last), p))
    ensures At(events, k).path == Some(PhaseOf(At(events, first), p).inode)
    ensures At(events, k).holder == Some(p)
  {
    ServiceEndsOnce(events, first, last, p);
    ServiceEndsOnce(events, first, k, p);
    PrefixIsRun(true, events, k);
    LiveDaemonOwnsThePath(events[..k], p);
  }

  // ---------------------------------------------------------------------
  // No stale claims, and what goes wrong without them
  // ---------------------------------------------------------------------

  lemma Do(claims: bool, events: seq<Event>, e: Event) returns (after: seq<Event>)
    requires IsRun(claims, events) && Enabled(claims, Run(claims, events), e)
    ensures IsRun(claims, after) && Run(claims, after) == Next(claims, Run(claims, events), e)
    ensures after == events + [e]
  {
    after := events + [e];
    assert after[..|events|] == events;
  }

  /** Only `p` acted, from one run to the other. */
  ghost predicate ActedAlone(before: seq<Event>, after: seq<Event>, p: nat) {
    before <= after && forall i :: |before| <= i < |after| ==> !after[i].Litter? && after[i].p == p
  }

  lemma StartsAndClaims(claims: bool, s: State, p: nat)
    requires p !in s.processes && (claims ==> s.holder.None?)
    ensures Enabled(claims, s, Spawn(p, true))
    ensures var started := Next(claims, s, Spawn(p, true));
            && Enabled(claims, started, TakeClaim(p))
            && Next(claims, started, TakeClaim(p)) ==
               s.(processes := s.processes[p := DaemonClaimed], holder := Some(p))
  {
    assert PhaseOf(Goto(s, p, DaemonStart), p) == DaemonStart;
  }

  lemma ClaimsThePath(claims: bool, events: seq<Event>, p: nat) returns (after: seq<Event>)
    requires IsRun(claims, events) && p !in Run(claims, events).processes
    requires claims ==> Run(claims, events).holder.None?
    ensures IsRun(claims, after) && ActedAlone(events, after, p)
    ensures var s := Run(claims, events);
            Run(claims, after) == s.(processes := s.processes[p := DaemonClaimed], holder := Some(p))
  {
    StartsAndClaims(claims, Run(claims, events), p);
    after := Do(claims, events, Spawn(p, true));
    after := Do(claims, after, TakeClaim(p));
  }

  lemma EmptiesThePath(claims: bool, events: seq<Event>, p: nat, answer: Answer)
    returns (after: seq<Event>)
    requires IsRun(claims, events) && PhaseOf(Run(claims, events), p).DaemonFound?
    requires Run(claims, events).path.Some? && !answer.Accepted?
    ensures IsRun(claims, after) && ActedAlone(events, after, p)
    ensures var s := Run(claims, events);
            Run(claims, after) == s.(processes := s.processes[p := DaemonClear], path := None)
    ensures Connect(p, answer) in after
  {
    after := Do(claims, events, Connect(p, answer));
    after := Do(claims, after, Unlink(p));
  }

  /** A daemon starts on its own, up to an empty path that is its to bind. */
  lemma ClearsThePath(claims: bool, events: seq<Event>, p: nat, answer: Answer)
    returns (after: seq<Event>)
    requires IsRun(claims, events) && p !in Run(claims, events).processes && !answer.Accepted?
    requires claims ==> Run(claims, events).holder.None?
    ensures IsRun(claims, after) && ActedAlone(events, after, p)
    ensures var s := Run(claims, events);
            Run(claims, after) ==
              s.(processes := s.processes[p := DaemonClear], holder := Some(p), path := None)
    ensures Run(claims, events).path.Some? ==> Connect(p, answer) in after
  {
    after := ClaimsThePath(claims, events, p);
    after := Do(claims, after, LookAtPath(p, true));
    if Run(claims, events).path.Some? {
      after := EmptiesThePath(claims, after, p, answer);
    }
  }

  lemma Binds(claims: bool, events: seq<Event>, p: nat) returns (after: seq<Event>)
    requires IsRun(claims, events)
    requires PhaseOf(Run(claims, events), p).DaemonClear? && Run(claims, events).path.None?
    ensures IsRun(claims, after) && ActedAlone(events, after, p)
    ensures var s := Run(claims, events);
            Run(claims, after) ==
              s.(processes := s.processes[p := DaemonBound(s.nextInode)],
                 path := Some(s.nextInode), nextInode := s.nextInode + 1)
  {
    after := Do(claims, events, Bind(p));
  }

  /**
   Whoever died and whatever file of ours they left, when nobody alive has the
   claim and nobody listens behind the path, a new daemon gets to serve - whichever
   answer its connect is given that a path nobody listens behind can give.
   */
  lemma FreshDaemonTakesOver(events: seq<Event>, p: nat, answer: Answer) returns (after: seq<Event>)
    requires IsRun(true, events) && p !in Run(true, events).processes
    requires forall q :: q in Run(true, events).processes ==> !Holds(Run(true, events).processes[q])
    requires !Answering(Run(true, events))
    requires answer.Accepted? ==> Answering(Run(true, events))
    ensures IsRun(true, after) && ActedAlone(events, after, p)
    ensures PhaseOf(Run(true, after), p).DaemonListening?
    ensures Run(true, events).path.Some? ==> Connect(p, answer) in after
  {
    RunKeepsSound(events);
    var s := Run(true, events);
    assert s.holder.Some? ==> Holds(PhaseOf(s, s.holder.value));
    var cleared := ClearsThePath(true, events, p, answer);
    after := Binds(true, cleared, p);
    after := Do(true, after, Listen(p, true));
    assert forall e :: e in cleared ==> e in after;
  }

  /** Without the claim, a daemon caught between bind and listen loses its name to another. */
  lemma WithoutClaimsADaemonIsOrphaned() returns (events: seq<Event>)
    ensures IsRun(false, events)
    ensures var s := Run(false, events);
            && PhaseOf(s, 0).DaemonListening? && PhaseOf(s, 1).DaemonListening?
            && s.path != Some(PhaseOf(s, 0).inode)
  {
    events := ClearsThePath(false, [], 0, Unreachable);
    events := Binds(false, events, 0);
    events := ClearsThePath(false, events, 1, Unreachable);
    events := Binds(false, events, 1);
    events := Do(false, events, Listen(1, true));
    events := Do(false, events, Listen(0, true));
  }
}
