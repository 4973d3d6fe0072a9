/**
 * The theorems about sessions, stated of the object: a fresh `Hsm` that any
 * events happen to, with any faults.
 */
module HsmRuns {
  import opened Options
  import opened AbRecords
  import opened TrustedTime
  import opened Session
  import opened SessionShape
  import opened HsmObject
  import PinLog
  import PinBudget
  import Backoff
  import KeyCache
  import Lockout
  import SessionTime
  import opened Wiping
  import Authority
  import Locking
  import Outcomes

  /** Event `n` locked the device out, and no later boot was a physical recovery. */
  ghost predicate LockedForGood(events: seq<Event>, n: nat)
    requires n < |events|
  {
    var locked := Run(Factory(), events[..n + 1]);
    && PinLog.Lockouts(locked.log) > PinLog.Lockouts(Run(Factory(), events[..n]).log)
    && (Powered(locked) ==> !locked.time.physical)
    && forall i :: n < i < |events| ==> Lockout.WithoutPhysicalRecovery(events[i])
  }

  lemma {:induction false} RunAppends(d: Device, first: seq<Event>, later: seq<Event>)
    ensures Run(d, first + later) == Run(Run(d, first), later)
    decreases |later|
  {
    hide Step;
    if later == [] {
      assert first + later == first;
    } else {
      var init := later[..|later| - 1];
      assert (first + later)[..|first + later| - 1] == first + init;
      RunAppends(d, first, init);
    }
  }

  lemma NoneAfterLockout(events: seq<Event>, n: nat)
    requires AllReadReliably(events) && n < |events| && LockedForGood(events, n)
    ensures PinLog.Certificates(Run(Factory(), events).log)
            == PinLog.Certificates(Run(Factory(), events[..n + 1]).log)
  {
    hide Step, Run;
    var before, later := events[..n], events[n + 1..];
    assert events[..n + 1] == before + [events[n]];
    assert events == events[..n + 1] + later;
    RunAppends(Factory(), events[..n + 1], later);
    OneEvent(Run(Factory(), before), events[n]);
    RunAppends(Factory(), before, [events[n]]);
    assert ReadsReliably(events[n]);
    Lockout.LockoutIsFinal(before, events[n], later);
  }

  lemma OneEvent(d: Device, e: Event)
    ensures Run(d, [e]) == Step(d, e)
  {
    hide Step;
    assert [e][..0] == [];
  }

  /** Event `n` did not go beyond its authority. */
  ghost predicate LawfulAt(events: seq<Event>, n: nat)
    requires n < |events|
  {
    Authority.LawfulEvent(Run(Factory(), events[..n]), events[n], Run(Factory(), events[..n + 1]))
  }

  lemma LawfulThere(events: seq<Event>, n: nat)
    requires n < |events|
    ensures LawfulAt(events, n)
  {
    assert events[..n + 1] == events[..n] + [events[n]];
    Authority.EveryEventIsLawful(events[..n], events[n]);
  }

  /**
   * Whatever happens to a fresh object: no event goes beyond its authority, its
   * session is consistent and its clock is in its window; and if the reads at boot succeed, the PIN budget was kept
   * and the backoff paid at every moment, counted either way, the caches agree
   * with the flash, and no certificate was issued after a final lockout.
   */
  method Operate(events: seq<Event>) returns (h: Hsm)
    ensures fresh(h)
    ensures h.View() == Run(Factory(), events)
    ensures Shape(h.View().ram) && SessionTime.WallInWindow(h.View())
    ensures AllReadReliably(events) ==>
              && PinLog.BudgetKept(h.log)
              && PinLog.BudgetSinceErasureKept(h.log)
              && Backoff.BackoffPaid(h.log)
              && Backoff.DelaysPaid(h.log)
              && (|events| < SEQUENCE_SPACE ==> KeyCache.Cached(h.View(), |events|))
              && forall n :: 0 <= n < |events| && LockedForGood(events, n) ==>
                   PinLog.Certificates(h.log) == PinLog.Certificates(Run(Factory(), events[..n + 1]).log)
    ensures forall n :: 0 <= n < |events| ==> LawfulAt(events, n)
  {
    hide Step, LockedForGood, LawfulAt;
    h := new Hsm();
    for i := 0 to |events|
      invariant fresh(h) && h.View() == Run(Factory(), events[..i])
    {
      assert events[..i + 1][..i] == events[..i];
      h.Happen(events[i]);
    }
    assert events[..|events|] == events;
    SessionStaysConsistent(Factory(), events);
    SessionTime.RunKeepsWall(Factory(), events);
    forall n | 0 <= n < |events| ensures LawfulAt(events, n) {
      LawfulThere(events, n);
    }
    if AllReadReliably(events) {
      PinBudget.PinBudgetHolds(events);
      PinBudget.PinBudgetSinceErasure(events);
      Backoff.BackoffIsAlwaysPaid(events);
      Backoff.BackoffIsPaidSinceErasure(events);
      if |events| < SEQUENCE_SPACE {
        KeyCache.CacheAgreesWithFlash(events);
      }
      forall n | 0 <= n < |events| && LockedForGood(events, n)
        ensures PinLog.Certificates(h.log) == PinLog.Certificates(Run(Factory(), events[..n + 1]).log)
      {
        NoneAfterLockout(events, n);
      }
    }
  }

  /**
   * One request to a consistent, powered object. It stays within its authority; a
   * lock leaves no secret; an unforced key generation spares an existing key; and
   * a wrong PIN at the limit wipes exactly as configured.
   */
  method PutRequest(h: Hsm, r: Request, env: Env) returns (reply: Reply)
    requires Shape(h.View().ram) && Powered(h.View())
    modifies h
    ensures Shape(h.View().ram)
    ensures Authority.Lawful(old(h.View()), r, h.View())
    ensures r.Lock? && reply == Success ==> NoSecrets(h.View().ram) && h.state != ProdReady
    ensures r.Lock? && old(h.state) in {ProdLocked, ProdReady, LockedOut} ==> reply == Success
    ensures r.GenerateKey? && !r.force && old(h.caPubkey).Some? && old(h.state) in {DevReady, ProdReady} ==>
              reply == Fail(KeyExists) && h.View() == old(h.View())
    ensures old(h.state) in {ProdLocked, ProdReady} && h.state == LockedOut && reply.PinFail? ==>
              LockoutEffect(old(h.View()), old(h.config).value.wipeOnLockout, h.View(), Refused(reply))
  {
    hide Handle, Authority.Lawful, LockoutEffect;
    ghost var d := h.View();
    Authority.RequestLawful(d, r, env);
    HandleShapes(d, r, env);
    Locking.LockDropsSecrets(d);
    if d.ram.state in {ProdLocked, ProdReady} {
      Authority.RequestWipesAsConfigured(d, r, env);
    }
    if r.GenerateKey? && !r.force && d.ram.caPubkey.Some? && d.ram.state in {DevReady, ProdReady} {
      Outcomes.UnforcedKeepsTheKey(d, env.draws);
    }
    HandleOf(d, r, env);
    reply := h.Process(r, env);
  }

  lemma HandleOf(d: Device, r: Request, env: Env)
    ensures r.Lock? ==> Handle(d, r, env) == HandleLock(d)
    ensures r.GenerateKey? ==> Handle(d, r, env) == HandleGenerateKey(d, r.force, env.draws)
  {
  }
}
