/** The object of src/sek8s/sek8s/validators/cosign.py whose methods update the caches. */
module CosignValidator {
  import opened Text
  import opened ImageRef
  import opened CosignConfig
  import opened CosignCache

  class Validator {
    const settings: Settings
    var cache: map<string, Entry>
    var tagCache: map<string, Pin>
    var rateLimitedUntil: real

    ghost function State(): Caches
      reads this
    {
      Caches(cache, tagCache, rateLimitedUntil)
    }

    constructor (settings: Settings)
      ensures this.settings == settings && State() == Initial(0.0).caches
    {
      this.settings := settings;
      cache, tagCache, rateLimitedUntil := map[], map[], 0.0;
    }

    method Store(key: string, verdict: Verdict, ttl: real, t: Reads)
      modifies this`cache
      ensures cache == Put(old(cache), key, verdict, ttl, t)
    {
      if |cache| >= CACHE_MAX_SIZE {
        cache := map k | k in cache && cache[k].expiresAt > t.purge :: cache[k];
      }
      cache := cache[key := Entry(verdict, t.put + ttl)];
    }

    method ReadCache(image: string, digestPinned: bool, now: real) returns (hit: Option<Result>)
      requires digestPinned == IsDigestPinned(image)
      ensures hit == Cached(cache, image, now)
    {
      if image !in cache || now >= cache[image].expiresAt {
        return None;
      }
      match cache[image].verdict {
        case Transient(error) => return Some(RaisedUnavailable(error));
        case BadSignature => return Some(Returned(false));
        case Valid =>
          if digestPinned {
            return Some(Returned(true));
          }
          return None;
      }
    }

    /** `_verify_image_signature` up to the call of cosign. */
    method BeginVerify(image: string, lookupAt: real, checkAt: real) returns (r: Started)
      ensures r == Begin(State(), image, lookupAt, checkAt)
    {
      var digestPinned := IsDigestPinned(image);
      var cached := ReadCache(image, digestPinned, lookupAt);
      if cached.Some? {
        return Finished(cached.value);
      }
      if rateLimitedUntil != 0.0 && checkAt < rateLimitedUntil {
        return Finished(RaisedRateLimit);
      }
      return AwaitingCosign;
    }

    /** `_verify_image_signature` from the answer of cosign on. */
    method CompleteVerify(image: string, answer: Answer, t: Reads) returns (r: Result)
      modifies this`cache, this`tagCache, this`rateLimitedUntil
      ensures (State(), r) == Complete(settings, old(State()), image, answer, t)
      ensures r == AnswerOf(answer)
    {
      var valid, verifiedDigest := false, None;
      match answer {
        case Unavailable(error) =>
          Store(image, Transient(error), TRANSIENT_SECONDS, t);
          return RaisedUnavailable(error);
        case RateLimited =>
          rateLimitedUntil := t.first + RATE_LIMIT_BACKOFF;
          return RaisedRateLimit;
        case Crashed =>
        case Answered(v, d) =>
          valid, verifiedDigest := v, d;
      }
      if IsDigestPinned(image) {
        var ttl := if valid then settings.successTtl else settings.failureTtl;
        Store(image, if valid then Valid else BadSignature, ttl as real, t);
      } else if !valid {
        var ttl := settings.tagFailureTtl;
        if ttl > 0 {
          Store(image, BadSignature, ttl as real, t);
        }
      } else if verifiedDigest.Some? && verifiedDigest.value != "" {
        var imageNoTag := StripTag(image);
        var pinTtl := GetPinTtl(settings, imageNoTag);
        if pinTtl.Some? {
          tagCache := tagCache[image := Pin(verifiedDigest.value, t.first, pinTtl.value)];
          Store(imageNoTag + "@" + verifiedDigest.value, Valid, pinTtl.value as real, t);
        }
      }
      return Returned(valid);
    }

    method GetPinnedDigest(image: string, now: real) returns (digest: Option<string>)
      ensures digest == PinnedDigest(tagCache, image, now)
    {
      if image in tagCache && !(now >= tagCache[image].verifiedAt + tagCache[image].ttl as real) {
        return Some(tagCache[image].digest);
      }
      return None;
    }
  }
}
