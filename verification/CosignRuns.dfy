/** Safety of the validator over all interleaved runs: what a cached result means, how long a pin is
    backed by a usable entry, and what the back-off forbids. */
module CosignRuns {
  import opened Text
  import opened ImageRef
  import opened CosignConfig
  import opened CosignCache

  // ---------------------------------------------------------------------------
  // Soundness of the cache
  // ---------------------------------------------------------------------------

  ghost predicate Sound(s: Settings, sys: System) {
    EntriesJustified(s, sys) && ClockSane(sys)
  }

  lemma StepSound(s: Settings, sys: System, e: Event)
    requires Enabled(sys, e) && Sound(s, sys)
    ensures Sound(s, Next(s, sys, e))
  {
    if e.CompleteEvent? {
      CompleteJustified(s, sys, e);
    }
  }

  lemma {:induction false} RunSound(s: Settings, from: System, events: seq<Event>)
    requires Sound(s, from) && Run(s, from, events).Some?
    ensures Sound(s, Run(s, from, events).value)
  {
    if events != [] {
      var before := events[..|events| - 1];
      RunSound(s, from, before);
      StepSound(s, Run(s, from, before).value, events[|events| - 1]);
    }
  }

  lemma ReachableSound(s: Settings, sys: System)
    requires Reachable(s, sys)
    ensures Sound(s, sys)
  {
    var start: real, events :| start >= 0.0 && Run(s, Initial(start), events) == Some(sys);
    RunSound(s, Initial(start), events);
  }

  /** `r` is an answer for `image` or for a tag of the same repository that resolved to it, given under
      the same verification configuration and stored less than its lifetime before `now`. */
  ghost predicate FreshSuccess(s: Settings, r: Record, image: string, now: real) {
    && SpeaksFor(s, r, image)
    && r.at <= now < r.at + TtlOf(s, r)
    && ConfigFor(s, r.image) == ConfigFor(s, image)
    && StripTag(r.image) == StripTag(image)
  }

  ghost predicate FreshFailure(s: Settings, r: Record, image: string, now: real) {
    && r.image == image && r.answer.IsFailure()
    && r.at <= now < r.at + (if IsDigestPinned(image) then s.failureTtl else s.tagFailureTtl) as real
  }

  lemma SpeaksForSameConfig(s: Settings, r: Record, image: string)
    requires SpeaksFor(s, r, image)
    ensures ConfigFor(s, r.image) == ConfigFor(s, image) && StripTag(r.image) == StripTag(image)
  {
    if r.image != image {
      PinnedRefSameConfig(s, r.image, r.answer.digest.value);
      StripTagOfPinned(r.image, r.answer.digest.value);
    }
  }

  /** In every interleaved run a verification returns True only when cosign said so in this very call,
      or the reference is digest-pinned and a still fresh success of cosign speaks for it. */
  lemma TrueIsBacked(s: Settings, sys: System, e: Event)
    requires Reachable(s, sys) && Enabled(sys, e)
    requires Output(s, sys, e) == Some(Returned(true))
    ensures e.CompleteEvent? ==> e.answer.IsSuccess()
    ensures e.BeginEvent? ==>
              && IsDigestPinned(e.image)
              && exists i :: 0 <= i < |sys.log| && FreshSuccess(s, sys.log[i], e.image, e.lookupAt)
  {
    ReachableSound(s, sys);
    if e.BeginEvent? {
      var entry := sys.caches.entries[e.image];
      assert Justified(s, sys.log, e.image, entry);
      var i :| 0 <= i < |sys.log| && Justifies(s, sys.log[i], e.image, entry);
      SpeaksForSameConfig(s, sys.log[i], e.image);
      assert FreshSuccess(s, sys.log[i], e.image, e.lookupAt);
    }
  }

  /** A verification that fails before asking cosign repeats a fresh answer for that very string, or
      the back-off is on. */
  lemma FailureIsBacked(s: Settings, sys: System, e: Event)
    requires Reachable(s, sys) && Enabled(sys, e) && e.BeginEvent?
    ensures Output(s, sys, e) == Some(Returned(false)) ==>
              exists i :: 0 <= i < |sys.log| && FreshFailure(s, sys.log[i], e.image, e.lookupAt)
    ensures Output(s, sys, e).Some? && Output(s, sys, e).value.RaisedUnavailable? ==>
              exists i :: 0 <= i < |sys.log|
                && sys.log[i].image == e.image
                && sys.log[i].answer == Unavailable(Output(s, sys, e).value.error)
                && sys.log[i].at <= e.lookupAt < sys.log[i].at + TRANSIENT_SECONDS
    ensures Output(s, sys, e) == Some(RaisedRateLimit) ==> e.checkAt < sys.caches.limitedUntil
  {
    ReachableSound(s, sys);
    if Cached(sys.caches.entries, e.image, e.lookupAt).Some? {
      var entry := sys.caches.entries[e.image];
      assert Justified(s, sys.log, e.image, entry);
      var i :| 0 <= i < |sys.log| && Justifies(s, sys.log[i], e.image, entry);
      if entry.verdict == BadSignature {
        assert FreshFailure(s, sys.log[i], e.image, e.lookupAt);
      }
    }
  }

  /** What cosign would say at any time: a digest names fixed content, so its answer is fixed, and a
      tag that resolves to a digest under a valid signature makes that digest's answer a success. */
  ghost predicate Truthful(truth: string -> bool, log: seq<Record>) {
    forall i :: 0 <= i < |log| ==>
      var r := log[i];
      && (IsDigestPinned(r.image) && r.answer.IsSuccess() ==> truth(r.image))
      && (IsDigestPinned(r.image) && r.answer.IsFailure() ==> !truth(r.image))
      && (r.answer.IsSuccess() && r.answer.digest.Some? ==> truth(PinnedRef(r.image, r.answer.digest.value)))
  }

  /** The cache agrees with asking cosign every time, on every digest-pinned reference. */
  lemma AgreesWithCosign(s: Settings, sys: System, e: Event, truth: string -> bool)
    requires Reachable(s, sys) && Enabled(sys, e) && e.BeginEvent? && IsDigestPinned(e.image)
    requires Truthful(truth, sys.log)
    requires Output(s, sys, e).Some? && Output(s, sys, e).value.Returned?
    ensures Output(s, sys, e).value.valid == truth(e.image)
  {
    if Output(s, sys, e).value.valid {
      TrueIsBacked(s, sys, e);
      var i :| 0 <= i < |sys.log| && FreshSuccess(s, sys.log[i], e.image, e.lookupAt);
    } else {
      FailureIsBacked(s, sys, e);
      var i :| 0 <= i < |sys.log| && FreshFailure(s, sys.log[i], e.image, e.lookupAt);
    }
  }

  // ---------------------------------------------------------------------------
  // Pins and the entries behind them
  // ---------------------------------------------------------------------------

  /** Until `deadline` the digest reference `ref` is answered True from the cache, and nothing that is
      under way can change that. */
  ghost predicate Protected(s: Settings, sys: System, ref: string, deadline: real) {
    && IsDigestPinned(ref)
    && PinTtl(s.pinWhitelist, StripTag(ref)).Some?
    && deadline <= sys.now + PinTtl(s.pinWhitelist, StripTag(ref)).value as real
    && (sys.now < deadline ==>
          && ref in sys.caches.entries
          && sys.caches.entries[ref].verdict == Valid
          && sys.caches.entries[ref].expiresAt >= deadline
          && !InFlight(sys, ref))
  }

  lemma NotInFlightAfter(sys: System, sys': System, ref: string)
    requires !InFlight(sys, ref)
    requires forall id :: id in sys'.inFlight ==>
               sys'.inFlight[id] != ref || (id in sys.inFlight && sys.inFlight[id] == sys'.inFlight[id])
    ensures !InFlight(sys', ref)
  {
  }

  lemma BeginKeepsProtected(s: Settings, sys: System, e: Event, ref: string, deadline: real)
    requires Enabled(sys, e) && e.BeginEvent? && Protected(s, sys, ref, deadline)
    ensures Protected(s, Next(s, sys, e), ref, deadline)
  {
    var sys' := Next(s, sys, e);
    if sys'.now < deadline {
      NotInFlightAfter(sys, sys', ref);
    }
  }

  lemma CompleteKeepsProtected(s: Settings, sys: System, e: Event, ref: string, deadline: real)
    requires Enabled(sys, e) && e.CompleteEvent? && Protected(s, sys, ref, deadline)
    ensures Protected(s, Next(s, sys, e), ref, deadline)
  {
    var sys' := Next(s, sys, e);
    var image, a := sys.inFlight[e.id], e.answer;
    if sys'.now < deadline {
      NotInFlightAfter(sys, sys', ref);
      assert image != ref;
      var pin := NewPin(s, image, a, e.clock.first);
      if pin.Some? && PinnedRef(image, pin.value.digest) == ref {
        StripTagOfPinned(image, pin.value.digest);
      }
    }
  }

  lemma {:induction false} RunKeepsProtected(s: Settings, sys: System, events: seq<Event>, ref: string, deadline: real)
    requires Run(s, sys, events).Some? && Protected(s, sys, ref, deadline)
    ensures Protected(s, Run(s, sys, events).value, ref, deadline)
    ensures sys.now <= Run(s, sys, events).value.now
  {
    if events != [] {
      var before, e := events[..|events| - 1], events[|events| - 1];
      RunKeepsProtected(s, sys, before, ref, deadline);
      var mid := Run(s, sys, before).value;
      if e.BeginEvent? {
        BeginKeepsProtected(s, mid, e, ref, deadline);
      } else {
        CompleteKeepsProtected(s, mid, e, ref, deadline);
      }
    }
  }

  /** The step `e` stores a sha pin. */
  ghost predicate StoresPin(s: Settings, sys: System, e: Event) {
    && Enabled(sys, e) && e.CompleteEvent?
    && var pin := NewPin(s, sys.inFlight[e.id], e.answer, e.clock.first);
       pin.Some? && IsShaDigest(pin.value.digest)
  }

  ghost function StoredRef(s: Settings, sys: System, e: Event): string
    requires StoresPin(s, sys, e)
  {
    PinnedRef(sys.inFlight[e.id], e.answer.digest.value)
  }

  ghost function StoredDeadline(s: Settings, sys: System, e: Event): real
    requires StoresPin(s, sys, e)
  {
    NewPin(s, sys.inFlight[e.id], e.answer, e.clock.first).value.ExpiresAt()
  }

  /** However a run goes on, the pinned reference is answered True from the cache until the pin ends. */
  ghost predicate Survives(s: Settings, sys: System, ref: string, deadline: real) {
    forall events, t: real ::
      Run(s, sys, events).Some? && Run(s, sys, events).value.now <= t < deadline ==>
        Cached(Run(s, sys, events).value.caches.entries, ref, t) == Some(Returned(true))
  }

  lemma StoreProtects(s: Settings, sys: System, e: Event)
    requires StoresPin(s, sys, e) && !InFlight(sys, StoredRef(s, sys, e))
    ensures Protected(s, Next(s, sys, e), StoredRef(s, sys, e), StoredDeadline(s, sys, e))
  {
    var image, d := sys.inFlight[e.id], e.answer.digest.value;
    PinnedRefIsDigestPinned(image, d);
    StripTagOfPinned(image, d);
    NotInFlightAfter(sys, Next(s, sys, e), PinnedRef(image, d));
  }

  lemma ProtectedSurvives(s: Settings, sys: System, ref: string, deadline: real)
    requires Protected(s, sys, ref, deadline)
    ensures Survives(s, sys, ref, deadline)
  {
    forall events, t: real | Run(s, sys, events).Some? && Run(s, sys, events).value.now <= t < deadline
      ensures Cached(Run(s, sys, events).value.caches.entries, ref, t) == Some(Returned(true))
    {
      RunKeepsProtected(s, sys, events, ref, deadline);
    }
  }

  /** A verification of the reference that is still in flight can end with a failure and overwrite
      the entry. */
  lemma InFlightBreaks(s: Settings, sys: System, ref: string, deadline: real)
    requires InFlight(sys, ref) && IsDigestPinned(ref) && sys.now < deadline
    ensures !Survives(s, sys, ref, deadline)
  {
    var id :| id in sys.inFlight && sys.inFlight[id] == ref;
    var e := CompleteEvent(id, Crashed, Reads(sys.now, sys.now, sys.now));
    assert [e][..0] == [];
    assert Run(s, sys, []) == Some(sys);
    var after := Next(s, sys, e);
    assert Run(s, sys, [e]) == Some(after);
    assert Cached(after.caches.entries, ref, sys.now) != Some(Returned(true));
  }

  /** A sha pin is good for its whole lifetime, whatever else runs, if and only if no verification of
      the pinned reference was in flight when the pin was stored. */
  lemma PinSurvivesIff(s: Settings, sys: System, e: Event)
    requires StoresPin(s, sys, e) && e.clock.put < StoredDeadline(s, sys, e)
    ensures Survives(s, Next(s, sys, e), StoredRef(s, sys, e), StoredDeadline(s, sys, e))
            <==> !InFlight(sys, StoredRef(s, sys, e))
  {
    var ref := StoredRef(s, sys, e);
    var sys' := Next(s, sys, e);
    PinnedRefIsDigestPinned(sys.inFlight[e.id], e.answer.digest.value);
    if InFlight(sys, ref) {
      var id :| id in sys.inFlight && sys.inFlight[id] == ref;
      assert id in sys'.inFlight && sys'.inFlight[id] == ref;
      InFlightBreaks(s, sys', ref, StoredDeadline(s, sys, e));
    } else {
      StoreProtects(s, sys, e);
      ProtectedSurvives(s, sys', ref, StoredDeadline(s, sys, e));
    }
  }

  /** Overlap really loses pins: from the start, for every whitelisted tag and sha digest, a
      verification of the digest that ends badly after the tag was pinned leaves a live pin whose
      reference is no longer answered True. */
  lemma OverlapLosesPin(s: Settings, image: string, d: string)
    requires !IsDigestPinned(image) && IsShaDigest(d) && d != ""
    requires PinTtl(s.pinWhitelist, StripTag(image)).Some?
    requires PinTtl(s.pinWhitelist, StripTag(image)).value > 0
    ensures exists sys :: Reachable(s, sys)
              && PinnedDigest(sys.caches.pins, image, sys.now) == Some(d)
              && Cached(sys.caches.entries, PinnedRef(image, d), sys.now) != Some(Returned(true))
  {
    var ref := PinnedRef(image, d);
    var sys := OverlapReached(s, image, d);
    var id :| id in sys.inFlight && sys.inFlight[id] == ref;
    var e := CompleteEvent(id, Crashed, Reads(sys.now, sys.now, sys.now));
    ReachableStep(s, sys, e);
    PinnedRefIsDigestPinned(image, d);
  }

  /** The verification of the digest starts first, then the tag is verified and pinned. */
  lemma OverlapReached(s: Settings, image: string, d: string) returns (sys: System)
    requires !IsDigestPinned(image) && IsShaDigest(d) && d != ""
    requires PinTtl(s.pinWhitelist, StripTag(image)).Some?
    requires PinTtl(s.pinWhitelist, StripTag(image)).value > 0
    ensures Reachable(s, sys) && InFlight(sys, PinnedRef(image, d))
    ensures PinnedDigest(sys.caches.pins, image, sys.now) == Some(d)
  {
    var ref := PinnedRef(image, d);
    PinnedRefIsDigestPinned(image, d);
    var e0, e1 := BeginEvent(0, ref, 0.0, 0.0), BeginEvent(1, image, 0.0, 0.0);
    var e2 := CompleteEvent(1, Answered(true, Some(d)), Reads(0.0, 0.0, 0.0));
    var s0 := Initial(0.0);
    assert Run(s, s0, []) == Some(s0);
    ReachableStep(s, s0, e0);
    var s1 := Next(s, s0, e0);
    ReachableStep(s, s1, e1);
    var s2 := Next(s, s1, e1);
    assert s2.inFlight[0] == ref && s2.inFlight[1] == image;
    ReachableStep(s, s2, e2);
    sys := Next(s, s2, e2);
    assert sys.inFlight[0] == ref;
  }

  lemma ReachableStep(s: Settings, sys: System, e: Event)
    requires Reachable(s, sys) && Enabled(sys, e)
    ensures Reachable(s, Next(s, sys, e))
  {
    var start: real, events :| start >= 0.0 && Run(s, Initial(start), events) == Some(sys);
    RunExtends(s, Initial(start), events, e);
  }

  lemma RunExtends(s: Settings, from: System, events: seq<Event>, e: Event)
    requires Run(s, from, events).Some? && Enabled(Run(s, from, events).value, e)
    ensures Run(s, from, events + [e]) == Some(Next(s, Run(s, from, events).value, e))
  {
    assert (events + [e])[..|events|] == events;
  }

  /** Every undisturbed sha pin is protected until it ends. */
  ghost predicate PinsProtected(s: Settings, sys: System) {
    forall image :: image in sys.undisturbed ==>
      && image in sys.caches.pins
      && var pin := sys.caches.pins[image];
         IsShaDigest(pin.digest) ==> Protected(s, sys, PinnedRef(image, pin.digest), pin.ExpiresAt())
  }

  lemma StepKeepsPins(s: Settings, sys: System, e: Event)
    requires Enabled(sys, e) && PinsProtected(s, sys)
    ensures PinsProtected(s, Next(s, sys, e))
  {
    var sys' := Next(s, sys, e);
    forall image | image in sys'.undisturbed
      ensures image in sys'.caches.pins
      ensures IsShaDigest(sys'.caches.pins[image].digest) ==>
                Protected(s, sys', PinnedRef(image, sys'.caches.pins[image].digest),
                          sys'.caches.pins[image].ExpiresAt())
    {
      if e.CompleteEvent? && sys.inFlight[e.id] == image && NewPin(s, image, e.answer, e.clock.first).Some? {
        if StoresPin(s, sys, e) {
          StoreProtects(s, sys, e);
        }
      } else {
        var pin := sys.caches.pins[image];
        assert sys'.caches.pins[image] == pin;
        if IsShaDigest(pin.digest) {
          if e.BeginEvent? {
            BeginKeepsProtected(s, sys, e, PinnedRef(image, pin.digest), pin.ExpiresAt());
          } else {
            CompleteKeepsProtected(s, sys, e, PinnedRef(image, pin.digest), pin.ExpiresAt());
          }
        }
      }
    }
  }

  lemma {:induction false} RunKeepsPins(s: Settings, from: System, events: seq<Event>)
    requires PinsProtected(s, from) && Run(s, from, events).Some?
    ensures PinsProtected(s, Run(s, from, events).value)
  {
    if events != [] {
      var before := events[..|events| - 1];
      RunKeepsPins(s, from, before);
      StepKeepsPins(s, Run(s, from, before).value, events[|events| - 1]);
    }
  }

  /** In every reachable state, an undisturbed sha digest read for pinning is backed by a live True
      entry under exactly the reference the webhook emits: validating the patched image before the pin
      ends succeeds without a call of cosign. */
  lemma PinnedDigestValidates(s: Settings, sys: System, image: string, readAt: real, lookupAt: real, checkAt: real)
    requires Reachable(s, sys) && image in sys.undisturbed
    requires sys.now <= readAt && PinnedDigest(sys.caches.pins, image, readAt).Some?
    requires IsShaDigest(PinnedDigest(sys.caches.pins, image, readAt).value)
    requires sys.now <= lookupAt <= checkAt && lookupAt < sys.caches.pins[image].ExpiresAt()
    ensures var ref := PinnedRef(image, PinnedDigest(sys.caches.pins, image, readAt).value);
            Begin(sys.caches, ref, lookupAt, checkAt) == Finished(Returned(true))
  {
    var start: real, events :| start >= 0.0 && Run(s, Initial(start), events) == Some(sys);
    RunKeepsPins(s, Initial(start), events);
  }

  /** At most one verification in flight at every point of the run. */
  ghost predicate Atomic(s: Settings, from: System, events: seq<Event>) {
    forall n :: 0 <= n <= |events| ==>
      Run(s, from, events[..n]).Some? && |Run(s, from, events[..n]).value.inFlight| <= 1
  }

  lemma OnlyOneInFlight(sys: System, id: nat, image: string)
    requires id in sys.inFlight && |sys.inFlight| <= 1 && sys.inFlight[id] != image
    ensures !InFlight(sys, image)
  {
    if InFlight(sys, image) {
      var id' :| id' in sys.inFlight && sys.inFlight[id'] == image;
      assert {id, id'} <= sys.inFlight.Keys;
      assert |{id, id'}| == 2;
      SubsetSize({id, id'}, sys.inFlight.Keys);
    }
  }

  lemma {:induction false} SubsetSize(a: set<nat>, b: set<nat>)
    requires a <= b
    ensures |a| <= |b|
  {
    if a != {} {
      var x :| x in a;
      SubsetSize(a - {x}, b - {x});
    }
  }

  /** A sha pin that a step leaves behind was undisturbed before, or is stored by the step while nothing
      else is in flight. */
  lemma AtomicStep(s: Settings, sys: System, e: Event, image: string)
    requires Enabled(sys, e) && |sys.inFlight| <= 1
    requires image in Next(s, sys, e).caches.pins && IsShaDigest(Next(s, sys, e).caches.pins[image].digest)
    requires image in sys.caches.pins && IsShaDigest(sys.caches.pins[image].digest) ==> image in sys.undisturbed
    ensures image in Next(s, sys, e).undisturbed
  {
    if e.CompleteEvent? && sys.inFlight[e.id] == image && NewPin(s, image, e.answer, e.clock.first).Some? {
      AtomicPin(s, sys, e, image);
    } else {
      OtherPinsStay(s, sys, e, image);
    }
  }

  /** The pin that the step stores is undisturbed when nothing else is in flight. */
  lemma AtomicPin(s: Settings, sys: System, e: Event, image: string)
    requires Enabled(sys, e) && e.CompleteEvent? && |sys.inFlight| <= 1 && sys.inFlight[e.id] == image
    requires NewPin(s, image, e.answer, e.clock.first).Some? && IsShaDigest(e.answer.digest.value)
    ensures image in Next(s, sys, e).undisturbed
  {
    PinnedRefIsDigestPinned(image, e.answer.digest.value);
    OnlyOneInFlight(sys, e.id, PinnedRef(image, e.answer.digest.value));
  }

  /** A step that stores no pin for the image leaves its pin, and whether it is undisturbed. */
  lemma OtherPinsStay(s: Settings, sys: System, e: Event, image: string)
    requires Enabled(sys, e)
    requires e.CompleteEvent? && sys.inFlight[e.id] == image ==> NewPin(s, image, e.answer, e.clock.first).None?
    ensures image in Next(s, sys, e).caches.pins ==>
              image in sys.caches.pins && sys.caches.pins[image] == Next(s, sys, e).caches.pins[image]
    ensures image in sys.undisturbed <==> image in Next(s, sys, e).undisturbed
  {
  }

  /** Without overlapping verifications every sha pin is undisturbed. */
  lemma {:induction false} AtomicRunsUndisturbed(s: Settings, start: real, events: seq<Event>, image: string)
    requires start >= 0.0 && Atomic(s, Initial(start), events)
    requires Run(s, Initial(start), events).Some?
    requires image in Run(s, Initial(start), events).value.caches.pins
    requires IsShaDigest(Run(s, Initial(start), events).value.caches.pins[image].digest)
    ensures image in Run(s, Initial(start), events).value.undisturbed
    decreases |events|
  {
    if events != [] {
      var before, e := events[..|events| - 1], events[|events| - 1];
      var sys := Run(s, Initial(start), before).value;
      assert forall n :: 0 <= n <= |before| ==> before[..n] == events[..n];
      assert events[..|before|] == before && |sys.inFlight| <= 1;
      if image in sys.caches.pins && IsShaDigest(sys.caches.pins[image].digest) {
        AtomicRunsUndisturbed(s, start, before, image);
      }
      AtomicStep(s, sys, e, image);
    }
  }

  // ---------------------------------------------------------------------------
  // The back-off
  // ---------------------------------------------------------------------------

  /** Over a whole run the back-off deadline never moves back. */
  lemma {:induction false} BackoffMonotone(s: Settings, from: System, events: seq<Event>)
    requires Sound(s, from) && Run(s, from, events).Some?
    ensures from.caches.limitedUntil <= Run(s, from, events).value.caches.limitedUntil
  {
    if events != [] {
      var before := events[..|events| - 1];
      BackoffMonotone(s, from, before);
      RunSound(s, from, before);
    }
  }

  /** No call of cosign starts before any deadline that was in force earlier in the run. */
  lemma NoCallDuringBackoff(s: Settings, sys: System, events: seq<Event>, e: Event)
    requires Reachable(s, sys) && Run(s, sys, events).Some?
    requires e.BeginEvent? && Enabled(Run(s, sys, events).value, e)
    requires Output(s, Run(s, sys, events).value, e).None?
    ensures sys.caches.limitedUntil <= e.checkAt
  {
    ReachableSound(s, sys);
    BackoffMonotone(s, sys, events);
    RunSound(s, sys, events);
  }

  /** A rate-limited answer silences cosign for the back-off period. */
  lemma RateLimitSilences(s: Settings, sys: System, e: Event, events: seq<Event>, next: Event)
    requires Reachable(s, sys) && Enabled(sys, e) && e.CompleteEvent? && e.answer == RateLimited
    requires Run(s, Next(s, sys, e), events).Some? && Enabled(Run(s, Next(s, sys, e), events).value, next)
    requires next.BeginEvent? && next.checkAt < e.clock.first + 300.0
    ensures Output(s, Run(s, Next(s, sys, e), events).value, next).Some?
  {
    ReachableSound(s, sys);
    var mid := Next(s, sys, e);
    StepSound(s, sys, e);
    BackoffMonotone(s, mid, events);
    RunSound(s, mid, events);
  }
}
