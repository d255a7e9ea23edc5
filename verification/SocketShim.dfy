/**
 The shim's own code at a socket path: the probing loop and the clearing that
 relies on it, with every other process running in between.

 The methods extend a ghost trace of `SocketClaim` events, so what holds in
 every run of that machine holds of this code.
 */
module SocketShim {
  import opened Text
  import opened SocketClaim

  datatype Probe = Live | Dead | Unknown

  /** What came of `clear_socket`. */
  datatype Cleared = Cleared(connected: bool, unlinked: bool, pidRemoved: bool)

  /** The events of one process. */
  ghost function Own(events: seq<Event>, p: nat): seq<Event> {
    if events == [] then []
    else
      var last := events[|events| - 1];
      Own(events[..|events| - 1], p) + if !last.Litter? && last.p == p then [last] else []
  }

  ghost predicate OthersActed(before: seq<Event>, after: seq<Event>, p: nat) {
    before <= after && forall i :: |before| <= i < |after| ==> after[i].Litter? || after[i].p != p
  }

  lemma OtherLeavesMe(s: State, e: Event, p: nat)
    requires Enabled(true, s, e) && (e.Litter? || e.p != p)
    ensures PhaseOf(Next(true, s, e), p) == PhaseOf(s, p)
  {
  }

  lemma {:induction false} OthersLeaveMe(before: seq<Event>, after: seq<Event>, p: nat)
    requires IsRun(true, before) && IsRun(true, after) && OthersActed(before, after, p)
    ensures PhaseOf(Run(true, after), p) == PhaseOf(Run(true, before), p)
    ensures Own(after, p) == Own(before, p)
    decreases |after|
  {
    if |before| < |after| {
      var middle := after[..|after| - 1];
      OthersLeaveMe(before, middle, p);
      OtherLeavesMe(Run(true, middle), after[|after| - 1], p);
    } else {
      assert before == after;
    }
  }

  /** A daemon serving before and after still has its name. */
  ghost predicate NamesKept(before: State, after: State) {
    forall p: nat :: Serves(PhaseOf(before, p)) && Serves(PhaseOf(after, p)) ==> after.path == before.path
  }

  lemma RunKeepsNames(before: seq<Event>, after: seq<Event>)
    requires IsRun(true, before) && IsRun(true, after) && before <= after
    ensures NamesKept(Run(true, before), Run(true, after))
  {
    assert after[..|before|] == before && after[..|after|] == after;
    forall p: nat | Serves(PhaseOf(Run(true, before), p)) && Serves(PhaseOf(Run(true, after), p))
      ensures Run(true, after).path == Run(true, before).path
    {
      NameIsKept(after, |before|, |before|, |after|, p);
      NameIsKept(after, |before|, |after|, |after|, p);
    }
  }

  predicate AllRefused(said: seq<Answer>) {
    |said| == PROBE_ATTEMPTS && forall i :: 0 <= i < |said| ==> said[i].Unreachable?
  }

  function Probes(p: nat, said: seq<Answer>): seq<Event> {
    if said == [] then [] else Probes(p, said[..|said| - 1]) + [Connect(p, said[|said| - 1])]
  }

  /** What a process does that probes and is given these answers. */
  function ProbeDeeds(p: nat, notOurs: bool, said: seq<Answer>): seq<Event> {
    if notOurs then [ProbeRefusedAsNotOurs(p)] else Probes(p, said)
  }

  /** The last probe connected, and the connection could be used. */
  predicate Reached(notOurs: bool, said: seq<Answer>, wraps: bool) {
    !notOurs && said != [] && said[|said| - 1].Accepted? && wraps
  }

  /** What a process does that has the claim and clears the path. */
  function ClaimedDeeds(p: nat, notOurs: bool, said: seq<Answer>): seq<Event> {
    ProbeDeeds(p, notOurs, said) +
    (if !notOurs && AllRefused(said) then [Unlink(p)] else []) + [DropClaim(p)]
  }

  function ClearDeeds(p: nat, claimed: bool, notOurs: bool, said: seq<Answer>): seq<Event> {
    if claimed then [TakeClaim(p)] + ClaimedDeeds(p, notOurs, said) else [ClaimRefused(p)]
  }

  class Shim {
    const me: nat
    /** The machine all processes share. */
    var kernel: State
    ghost var trace: seq<Event>

    ghost predicate Tracked()
      reads this
    {
      IsRun(true, trace) && kernel == Run(true, trace)
    }

    constructor (p: nat)
      ensures Tracked() && me == p && trace == [Spawn(p, false)]
      ensures PhaseOf(kernel, me).ShimStart?
    {
      me := p;
      kernel := Next(true, Start(), Spawn(p, false));
      ghost var events := Do(true, [], Spawn(p, false));
      trace := events;
    }

    /** The other processes run for a while; callers learn only that they may have. */
    method Interfere()
      requires Tracked()
      modifies this
      ensures Tracked() && OthersActed(old(trace), trace, me)
    {
    }

    /** One system call of this process's own. */
    method Act(e: Event)
      requires Tracked() && Enabled(true, kernel, e) && !e.Litter? && e.p == me
      modifies this
      ensures Tracked() && kernel == Next(true, old(kernel), e)
      ensures trace == old(trace) + [e] && Own(trace, me) == Own(old(trace), me) + [e]
    {
      kernel := Next(true, kernel, e);
      ghost var events := Do(true, trace, e);
      assert events[..|events| - 1] == trace;
      trace := events;
    }

    /** Waits while the others run, keeping this process where it is. */
    method Rest()
      requires Tracked()
      modifies this
      ensures Tracked() && old(trace) <= trace && Own(trace, me) == Own(old(trace), me)
      ensures PhaseOf(kernel, me) == PhaseOf(old(kernel), me)
    {
      Interfere();
      OthersLeaveMe(old(trace), trace, me);
    }

    /** This process has done `deeds` since, whatever others have done. */
    twostate predicate Did(deeds: seq<Event>)
      reads this
    {
      Tracked() && old(trace) <= trace && Own(trace, me) == Own(old(trace), me) + deeds
    }

    method Connect(wish: Answer) returns (answer: Answer)
      requires Tracked() && PhaseOf(kernel, me).ShimProbing?
      modifies this
      ensures Did([Event.Connect(me, answer)])
      ensures answer == wish || (wish.Accepted? && answer.Unreachable?)
      ensures var refusals := PhaseOf(old(kernel), me).refusals;
              PhaseOf(kernel, me) ==
                if !answer.Unreachable? then ShimEnding
                else if refusals + 1 < PROBE_ATTEMPTS then ShimProbing(refusals + 1) else ShimCondemned
    {
      Rest();
      answer := if wish.Accepted? && !Answering(kernel) then Unreachable else wish;
      Act(Event.Connect(me, answer));
    }

    method Claim(lockFails: bool) returns (claimed: bool)
      requires Tracked() && PhaseOf(kernel, me).ShimStart?
      modifies this
      ensures Did([if claimed then TakeClaim(me) else ClaimRefused(me)])
      ensures lockFails ==> !claimed
      ensures PhaseOf(kernel, me) == if claimed then ShimProbing(0) else ShimStart
    {
      Rest();
      claimed := !lockFails && kernel.holder.None?;
      Act(if claimed then TakeClaim(me) else ClaimRefused(me));
    }

    method RefuseToProbe()
      requires Tracked() && PhaseOf(kernel, me) == ShimProbing(0)
      modifies this
      ensures Did([ProbeRefusedAsNotOurs(me)]) && PhaseOf(kernel, me).ShimEnding?
    {
      Act(ProbeRefusedAsNotOurs(me));
    }

    method Remove()
      requires Tracked() && PhaseOf(kernel, me).ShimCondemned?
      modifies this
      ensures Did([Unlink(me)]) && PhaseOf(kernel, me).ShimEnding?
    {
      Rest();
      Act(Unlink(me));
    }

    method Release()
      requires Tracked() && PhaseOf(kernel, me).ShimEnding?
      modifies this
      ensures Did([DropClaim(me)]) && PhaseOf(kernel, me).ShimStart?
    {
      Rest();
      Act(DropClaim(me));
    }

    /**
     `probe_socket`: dead exactly if the path is ours and every attempt was
     refused; live exactly if the last attempt connected. Every attempt before
     the last was refused.
     */
    method ProbeSocket(notOurs: bool, wishes: nat -> Answer, wraps: bool)
      returns (probe: Probe, ghost said: seq<Answer>)
      requires Tracked() && PhaseOf(kernel, me) == ShimProbing(0)
      modifies this
      ensures Did(ProbeDeeds(me, notOurs, said))
      ensures |said| <= PROBE_ATTEMPTS && forall i :: 0 <= i < |said| - 1 ==> said[i].Unreachable?
      ensures notOurs <==> said == []
      ensures probe.Dead? <==> AllRefused(said)
      ensures probe.Live? <==> said != [] && said[|said| - 1].Accepted? && wraps
      ensures PhaseOf(kernel, me) == if probe.Dead? then ShimCondemned else ShimEnding
    {
      if notOurs {
        RefuseToProbe();
        return Unknown, [];
      }
      probe, said := ProbeOurs(wishes, wraps);
    }

    /** The loop of `probe_socket`. */
    method ProbeOurs(wishes: nat -> Answer, wraps: bool) returns (probe: Probe, ghost said: seq<Answer>)
      requires Tracked() && PhaseOf(kernel, me) == ShimProbing(0)
      modifies this
      ensures Did(Probes(me, said))
      ensures 0 < |said| <= PROBE_ATTEMPTS && forall i :: 0 <= i < |said| - 1 ==> said[i].Unreachable?
      ensures probe.Dead? <==> AllRefused(said)
      ensures probe.Live? <==> said[|said| - 1].Accepted? && wraps
      ensures PhaseOf(kernel, me) == if probe.Dead? then ShimCondemned else ShimEnding
    {
      said := [];
      probe := Unknown;
      var tries := 0;
      while tries < PROBE_ATTEMPTS
        invariant tries == |said| <= PROBE_ATTEMPTS
        invariant forall i :: 0 <= i < |said| ==> said[i].Unreachable?
        invariant Did(Probes(me, said))
        invariant PhaseOf(kernel, me) ==
                  if tries < PROBE_ATTEMPTS then ShimProbing(tries) else ShimCondemned
        invariant if tries == 0 then probe.Unknown? else probe.Dead?
      {
        var answer := Connect(wishes(tries));
        tries := tries + 1;
        assert (said + [answer])[..|said|] == said;
        said := said + [answer];
        match answer {
          case Accepted => return if wraps then Live else Unknown, said;
          case Unreachable => probe := Dead;
          case Inconclusive => return Unknown, said;
        }
      }
    }

    /**
     `clear_socket`: the path is unlinked exactly when the claim was taken and
     every probe under it was refused, the PID file only along with it; a
     connection is returned exactly when the last probe, or without the claim the
     one attempt, made one; and whatever the others do meanwhile no serving daemon
     loses its name.
     */
    method ClearSocket(pidGiven: bool, lockFails: bool, notOurs: bool, wishes: nat -> Answer, wraps: bool)
      returns (r: Cleared, ghost claimed: bool, ghost said: seq<Answer>)
      requires Tracked() && PhaseOf(kernel, me).ShimStart?
      modifies this
      ensures Did(ClearDeeds(me, claimed, notOurs, said)) && PhaseOf(kernel, me).ShimStart?
      ensures NamesKept(old(kernel), kernel)
      ensures lockFails ==> !claimed
      ensures r.unlinked <==> claimed && !notOurs && AllRefused(said)
      ensures r.pidRemoved <==> r.unlinked && pidGiven
      ensures r.connected <==> if claimed then Reached(notOurs, said, wraps)
                               else Answering(kernel) && wishes(0).Accepted?
    {
      var taken := Claim(lockFails);
      claimed := taken;
      if taken {
        r, said := ProbeAndUnlink(pidGiven, notOurs, wishes, wraps);
      } else {
        said := [];
        r := Cleared(Answering(kernel) && wishes(0).Accepted?, false, false);
      }
      RunKeepsNames(old(trace), trace);
    }

    /** `clear_socket` from the moment it has the claim. */
    method ProbeAndUnlink(pidGiven: bool, notOurs: bool, wishes: nat -> Answer, wraps: bool)
      returns (r: Cleared, ghost said: seq<Answer>)
      requires Tracked() && PhaseOf(kernel, me) == ShimProbing(0)
      modifies this
      ensures Did(ClaimedDeeds(me, notOurs, said))
      ensures PhaseOf(kernel, me).ShimStart?
      ensures r.unlinked <==> !notOurs && AllRefused(said)
      ensures r.pidRemoved <==> r.unlinked && pidGiven
      ensures r.connected <==> Reached(notOurs, said, wraps)
    {
      var probe: Probe;
      probe, said := ProbeSocket(notOurs, wishes, wraps);
      r := Cleared(probe.Live?, probe.Dead?, probe.Dead? && pidGiven);
      if probe.Dead? {
        Remove();
      }
      Release();
    }
  }
}
