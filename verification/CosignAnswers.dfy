/** What a verification answers, over all interleaved runs of the validator: what cosign just said, or the
    latest thing it said for that reference, for exactly as long as that is remembered. */
module CosignAnswers {
  import opened Text
  import opened ImageRef
  import opened CosignConfig
  import opened CosignCache

  /** How long an answer for `image` is remembered, if it is. */
  ghost function Lifetime(s: Settings, image: string, a: Answer): Option<real> {
    match a
    case RateLimited => None
    case Unavailable(_) => Some(30.0)
    case _ =>
      if IsDigestPinned(image) then Some((if a.IsSuccess() then s.successTtl else s.failureTtl) as real)
      else if a.IsFailure() && s.tagFailureTtl > 0 then Some(s.tagFailureTtl as real)
      else None
  }

  /** A success for a whitelisted tag that resolved to `digest`. */
  ghost predicate Pins(s: Settings, image: string, a: Answer, digest: string) {
    && !IsDigestPinned(image) && a == Answered(true, Some(digest)) && digest != ""
    && PinTtl(s.pinWhitelist, StripTag(image)).Some?
  }

  lemma PinsIff(s: Settings, image: string, a: Answer, now: real)
    ensures NewPin(s, image, a, now).Some? <==> exists digest :: Pins(s, image, a, digest)
    ensures forall digest :: Pins(s, image, a, digest) ==>
              NewPin(s, image, a, now) == Some(Pin(digest, now, PinTtl(s.pinWhitelist, StripTag(image)).value))
  {
    if NewPin(s, image, a, now).Some? {
      assert Pins(s, image, a, a.digest.value);
    }
  }

  /** A result to give without asking cosign, until an instant. A pinned reference whose digest is no
      sha256 or sha512 one is not answered from the cache. */
  datatype Memory = Memory(result: Option<Result>, until: real)

  /** What the step makes the validator remember for `key`. */
  ghost function Told(s: Settings, sys: System, e: Event, key: string): Option<Memory>
    requires Enabled(sys, e)
  {
    if e.BeginEvent? then None
    else
      var image, a := sys.inFlight[e.id], e.answer;
      var lifetime := Lifetime(s, image, a);
      if image == key && lifetime.Some? then Some(Memory(Some(AnswerOf(a)), e.clock.put + lifetime.value))
      else if a.Answered? && a.digest.Some? && Pins(s, image, a, a.digest.value)
              && key == PinnedRef(image, a.digest.value)
      then Some(Memory(if IsDigestPinned(key) then Some(Returned(true)) else None,
                       e.clock.put + PinTtl(s.pinWhitelist, StripTag(image)).value as real))
      else None
  }

  ghost function Recalled(m: Memory, t: real): Option<Result> {
    if t < m.until then m.result else None
  }

  lemma PutRecalls(entries: map<string, Entry>, key: string, verdict: Verdict, ttl: real, t: Reads, image: string,
                   at: real)
    requires t.Ordered() && t.put <= at
    ensures Cached(Put(entries, key, verdict, ttl, t), image, at)
         == if image == key then Cached(map[key := Entry(verdict, t.put + ttl)], image, at)
            else Cached(entries, image, at)
  {
  }

  /** One step: the cache answers what the step told it, or as before. */
  lemma StepRecalls(s: Settings, sys: System, e: Event, key: string, t: real)
    requires Enabled(sys, e) && Next(s, sys, e).now <= t
    ensures Cached(Next(s, sys, e).caches.entries, key, t)
         == var told := Told(s, sys, e, key);
            if told.Some? then Recalled(told.value, t) else Cached(sys.caches.entries, key, t)
  {
    if e.CompleteEvent? {
      CompleteRecalls(s, sys, e, key, t);
    }
  }

  lemma CompleteRecalls(s: Settings, sys: System, e: Event, key: string, t: real)
    requires Enabled(sys, e) && e.CompleteEvent? && e.clock.put <= t
    ensures Cached(Complete(s, sys.caches, sys.inFlight[e.id], e.answer, e.clock).0.entries, key, t)
         == var told := Told(s, sys, e, key);
            if told.Some? then Recalled(told.value, t) else Cached(sys.caches.entries, key, t)
  {
    var image, a, c := sys.inFlight[e.id], e.answer, sys.caches.entries;
    PinsIff(s, image, a, e.clock.first);
    if a.Unavailable? {
      PutRecalls(c, image, Transient(a.error), TRANSIENT_SECONDS, e.clock, key, t);
    } else if a.RateLimited? {
    } else if IsDigestPinned(image) {
      var ttl := if a.IsSuccess() then s.successTtl else s.failureTtl;
      PutRecalls(c, image, if a.IsSuccess() then Valid else BadSignature, ttl as real, e.clock, key, t);
    } else if !a.IsSuccess() {
      if s.tagFailureTtl > 0 {
        PutRecalls(c, image, BadSignature, s.tagFailureTtl as real, e.clock, key, t);
      }
    } else if NewPin(s, image, a, e.clock.first).Some? {
      var digest :| Pins(s, image, a, digest);
      var ttl := PinTtl(s.pinWhitelist, StripTag(image)).value;
      PutRecalls(c, PinnedRef(image, digest), Valid, ttl as real, e.clock, key, t);
    }
  }

  /** The latest thing that a run told the validator about `key`. */
  ghost function Latest(s: Settings, from: System, events: seq<Event>, key: string): Option<Memory>
    requires Run(s, from, events).Some?
  {
    if events == [] then None
    else
      var before, e := events[..|events| - 1], events[|events| - 1];
      var told := Told(s, Run(s, from, before).value, e, key);
      if told.Some? then told else Latest(s, from, before, key)
  }

  /** Over every run, the cache answers for a reference exactly the latest thing it was told about it, until
      that ends, and before anything was told as it did at the start. */
  lemma {:induction false} LatestIsRecalled(s: Settings, from: System, events: seq<Event>, key: string, t: real)
    requires Run(s, from, events).Some? && Run(s, from, events).value.now <= t
    ensures Cached(Run(s, from, events).value.caches.entries, key, t)
         == var latest := Latest(s, from, events, key);
            if latest.Some? then Recalled(latest.value, t) else Cached(from.caches.entries, key, t)
  {
    if events != [] {
      var before, e := events[..|events| - 1], events[|events| - 1];
      var mid := Run(s, from, before).value;
      assert mid.now <= Next(s, mid, e).now;
      LatestIsRecalled(s, from, before, key, t);
      StepRecalls(s, mid, e, key, t);
    }
  }

  /** A finished verification answers what cosign said; and while nothing else is told about the reference,
      every verification that begins before the answer's lifetime ends gets that same answer without a call
      of cosign. */
  lemma AnswerIsReused(s: Settings, sys: System, e: Event, events: seq<Event>, lookupAt: real, checkAt: real)
    requires Enabled(sys, e) && e.CompleteEvent?
    requires Run(s, Next(s, sys, e), events).Some? && Run(s, Next(s, sys, e), events).value.now <= lookupAt <= checkAt
    ensures Output(s, sys, e) == Some(AnswerOf(e.answer))
    ensures var image := sys.inFlight[e.id];
            var lifetime := Lifetime(s, image, e.answer);
            lifetime.Some? && lookupAt < e.clock.put + lifetime.value
            && Latest(s, Next(s, sys, e), events, image).None? ==>
              Begin(Run(s, Next(s, sys, e), events).value.caches, image, lookupAt, checkAt)
              == Finished(AnswerOf(e.answer))
  {
    var image := sys.inFlight[e.id];
    if Latest(s, Next(s, sys, e), events, image).None? {
      LatestIsRecalled(s, Next(s, sys, e), events, image, lookupAt);
      RunClock(s, Next(s, sys, e), events);
      StepRecalls(s, sys, e, image, lookupAt);
    }
  }

  lemma {:induction false} RunClock(s: Settings, from: System, events: seq<Event>)
    requires Run(s, from, events).Some?
    ensures from.now <= Run(s, from, events).value.now
  {
    if events != [] {
      RunClock(s, from, events[..|events| - 1]);
    }
  }

  /** The pin that the step stores for the tag. */
  ghost function PinTold(s: Settings, sys: System, e: Event, image: string): Option<Pin>
    requires Enabled(sys, e)
  {
    if e.CompleteEvent? && sys.inFlight[e.id] == image && e.answer.Answered? && e.answer.digest.Some?
       && Pins(s, image, e.answer, e.answer.digest.value)
    then Some(Pin(e.answer.digest.value, e.clock.first, PinTtl(s.pinWhitelist, StripTag(image)).value))
    else None
  }

  lemma StepReads(s: Settings, sys: System, e: Event, image: string, t: real)
    requires Enabled(sys, e)
    ensures PinnedDigest(Next(s, sys, e).caches.pins, image, t)
         == var told := PinTold(s, sys, e, image);
            if told.Some? then Read(told.value, t) else PinnedDigest(sys.caches.pins, image, t)
  {
    if e.CompleteEvent? {
      PinsIff(s, sys.inFlight[e.id], e.answer, e.clock.first);
    }
  }

  ghost function Read(pin: Pin, t: real): Option<string> {
    if t < pin.verifiedAt + pin.ttl as real then Some(pin.digest) else None
  }

  /** The pin that the latest success for a whitelisted tag stored. */
  ghost function LatestPin(s: Settings, from: System, events: seq<Event>, image: string): Option<Pin>
    requires Run(s, from, events).Some?
  {
    if events == [] then None
    else
      var before, e := events[..|events| - 1], events[|events| - 1];
      var told := PinTold(s, Run(s, from, before).value, e, image);
      if told.Some? then told else LatestPin(s, from, before, image)
  }

  lemma {:induction false} LatestPinIsGood(s: Settings, from: System, events: seq<Event>, image: string)
    requires Run(s, from, events).Some? && LatestPin(s, from, events, image).Some?
    ensures !IsDigestPinned(image) && LatestPin(s, from, events, image).value.digest != ""
  {
    var before, e := events[..|events| - 1], events[|events| - 1];
    if PinTold(s, Run(s, from, before).value, e, image).None? {
      LatestPinIsGood(s, from, before, image);
    }
  }

  /** Over every run from the start, the digest read for a tag is the one of its latest pin, until that ends. */
  lemma {:induction false} LatestPinIsRead(s: Settings, start: real, events: seq<Event>, image: string, t: real)
    requires Run(s, Initial(start), events).Some?
    ensures PinnedDigest(Run(s, Initial(start), events).value.caches.pins, image, t)
         == var latest := LatestPin(s, Initial(start), events, image);
            if latest.Some? then Read(latest.value, t) else None
  {
    if events != [] {
      var before, e := events[..|events| - 1], events[|events| - 1];
      LatestPinIsRead(s, start, before, image, t);
      StepReads(s, Run(s, Initial(start), before).value, e, image, t);
    }
  }

  // ---------------------------------------------------------------------------
  // When cosign is called
  // ---------------------------------------------------------------------------

  /** When the latest rate-limit answer of a run came. */
  ghost function LatestLimit(s: Settings, from: System, events: seq<Event>): Option<real>
    requires Run(s, from, events).Some?
  {
    if events == [] then None
    else
      var e := events[|events| - 1];
      if e.CompleteEvent? && e.answer == RateLimited then Some(e.clock.first)
      else LatestLimit(s, from, events[..|events| - 1])
  }

  lemma {:induction false} LimitIsLatest(s: Settings, start: real, events: seq<Event>)
    requires start >= 0.0 && Run(s, Initial(start), events).Some?
    ensures var latest := LatestLimit(s, Initial(start), events);
            && (latest.Some? ==> latest.value >= 0.0)
            && Run(s, Initial(start), events).value.caches.limitedUntil
               == if latest.Some? then latest.value + 300.0 else 0.0
  {
    if events != [] {
      var before := events[..|events| - 1];
      LimitIsLatest(s, start, before);
      RunClock(s, Initial(start), before);
    }
  }

  /** Over every run from the start, what a verification begins with: the answer that is remembered, else the
      back-off of 300 seconds from the latest rate-limit answer, else a call of cosign. */
  lemma BeginIsDetermined(s: Settings, start: real, events: seq<Event>, image: string, lookupAt: real, checkAt: real)
    requires start >= 0.0 && Run(s, Initial(start), events).Some?
    requires Run(s, Initial(start), events).value.now <= lookupAt <= checkAt
    ensures Begin(Run(s, Initial(start), events).value.caches, image, lookupAt, checkAt)
         == var told, limit := Latest(s, Initial(start), events, image), LatestLimit(s, Initial(start), events);
            if told.Some? && Recalled(told.value, lookupAt).Some? then Finished(Recalled(told.value, lookupAt).value)
            else if limit.Some? && checkAt < limit.value + 300.0 then Finished(RaisedRateLimit)
            else AwaitingCosign
  {
    LatestIsRecalled(s, Initial(start), events, image, lookupAt);
    LimitIsLatest(s, start, events);
  }
}
