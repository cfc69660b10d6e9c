/** The rule sets and the decision of CosignValidator.validate, src/sek8s/sek8s/validators/cosign.py. */
module AdmissionRules {
  import opened Text
  import opened ImageRef
  import opened CosignConfig
  import opened CosignCache
  import opened CosignRuns

  datatype Rule = RequireConfig | RejectDisabled | RequireKeyVerification | RequireContextKey | VerifySignatures

  const KINDS: seq<string> := ["Pod", "Deployment", "StatefulSet", "DaemonSet", "Job", "CronJob", "ReplicaSet"]

  type Lookup = string -> Option<CosignConfig.VerificationConfig>

  /** `lookup` is the configuration of an image; `requiredKey` is only set for the chutes namespace. */
  datatype Context = Context(lookup: Lookup, images: seq<string>, requiredKey: Option<string>)

  /** How the verification of one image ends. */
  datatype Check = Checked(valid: bool) | CannotReach(error: string) | Paused | Failed(error: string)

  type Checks = string -> Check

  datatype Outcome = Violations(messages: seq<string>)
    | RaisedOutage(error: string) | RaisedPause | RaisedOther(error: string)

  // ---------------------------------------------------------------------------
  // Rules
  // ---------------------------------------------------------------------------

  /** The images without later repetitions, as the `seen` sets leave them. */
  function Distinct(images: seq<string>): seq<string> {
    if images == [] then []
    else
      var r, x := Distinct(images[..|images| - 1]), images[|images| - 1];
      if x in images[..|images| - 1] then r else r + [x]
  }

  lemma {:induction false} DistinctMembers(images: seq<string>)
    ensures forall x :: x in Distinct(images) <==> x in images
  {
    if images != [] {
      var t := images[..|images| - 1];
      DistinctMembers(t);
      assert images == t + [images[|images| - 1]];
    }
  }

  /** What a rule makes of one image: nothing, a violation, or an exception that ends the rule. */
  datatype Judgement = Silent | Complaint(message: string) | Outage(error: string) | Pause

  type Judge = string -> Judgement

  /** The outcome of judging the images in order. */
  function JudgeAll(judge: Judge, images: seq<string>): Outcome {
    if images == [] then Violations([])
    else
      var before := JudgeAll(judge, images[..|images| - 1]);
      if !before.Violations? then before
      else
        match judge(images[|images| - 1])
        case Silent => before
        case Complaint(message) => Violations(before.messages + [message])
        case Outage(error) => RaisedOutage(error)
        case Pause => RaisedPause
  }

  lemma {:induction false} AllSilentIff(judge: Judge, images: seq<string>)
    ensures JudgeAll(judge, images) == Violations([])
            <==> forall image :: image in images ==> judge(image) == Silent
  {
    if images != [] {
      var t, x := images[..|images| - 1], images[|images| - 1];
      AllSilentIff(judge, t);
      assert images == t + [x];
      assert x in images;
    }
  }

  lemma DistinctStep(images: seq<string>, i: nat)
    requires i < |images|
    ensures images[i] in images[..i] ==> Distinct(images[..i + 1]) == Distinct(images[..i])
    ensures images[i] !in images[..i] ==> Distinct(images[..i + 1]) == Distinct(images[..i]) + [images[i]]
  {
    assert images[..i + 1][..i] == images[..i];
  }

  lemma JudgeLast(judge: Judge, images: seq<string>, x: string)
    requires JudgeAll(judge, images).Violations?
    ensures var before := JudgeAll(judge, images);
            JudgeAll(judge, images + [x]) ==
              match judge(x)
              case Silent => before
              case Complaint(message) => Violations(before.messages + [message])
              case Outage(error) => RaisedOutage(error)
              case Pause => RaisedPause
  {
    assert (images + [x])[..|images|] == images;
  }

  /** What is raised while some images remain is what the whole rule raises. */
  lemma {:induction false} RaisedStays(judge: Judge, images: seq<string>, i: nat)
    requires i <= |images| && !JudgeAll(judge, Distinct(images[..i])).Violations?
    ensures JudgeAll(judge, Distinct(images)) == JudgeAll(judge, Distinct(images[..i]))
    decreases |images|
  {
    if i == |images| {
      assert images[..i] == images;
    } else {
      var t, x := images[..|images| - 1], images[|images| - 1];
      assert t[..i] == images[..i];
      RaisedStays(judge, t, i);
      var d := Distinct(t);
      assert (d + [x])[..|d|] == d;
    }
  }

  /** How one turn of the loop of a rule goes from one outcome to the next; `last` is the final one. */
  ghost predicate Turn(verdict: Judgement, repeated: bool, before: Outcome, after: Outcome, last: Outcome) {
    if !before.Violations? then true
    else if repeated then after == before
    else
      match verdict
      case Silent => after == before
      case Complaint(message) => after == Violations(before.messages + [message])
      case Outage(error) => last == RaisedOutage(error)
      case Pause => last == RaisedPause
  }

  lemma JudgeStep(judge: Judge, images: seq<string>, i: nat)
    requires i < |images|
    ensures Turn(judge(images[i]), images[i] in images[..i], JudgeAll(judge, Distinct(images[..i])),
                 JudgeAll(judge, Distinct(images[..i + 1])), JudgeAll(judge, Distinct(images)))
  {
    if JudgeAll(judge, Distinct(images[..i])).Violations? {
      DistinctStep(images, i);
      JudgeLast(judge, Distinct(images[..i]), images[i]);
      if !JudgeAll(judge, Distinct(images[..i + 1])).Violations? {
        RaisedStays(judge, images, i + 1);
      }
    }
  }

  /** The outcome after each turn of the loop. */
  lemma Outcomes(judge: Judge, images: seq<string>) returns (os: seq<Outcome>)
    ensures |os| == |images| + 1 && os[0] == Violations([]) && os[|images|] == JudgeAll(judge, Distinct(images))
    ensures forall i :: 0 <= i < |images| ==>
              Turn(judge(images[i]), images[i] in images[..i], os[i], os[i + 1], os[|images|])
  {
    os := seq(|images| + 1, i requires 0 <= i <= |images| => JudgeAll(judge, Distinct(images[..i])));
    assert images[..|images|] == images;
    forall i | 0 <= i < |images|
      ensures Turn(judge(images[i]), images[i] in images[..i], os[i], os[i + 1], os[|images|])
    {
      JudgeStep(judge, images, i);
    }
  }

  /** The loop of every rule: each image once, in order, through its `seen` set. */
  method JudgeImages(judge: Judge, images: seq<string>) returns (outcome: Outcome)
    ensures outcome == JudgeAll(judge, Distinct(images))
  {
    ghost var os := Outcomes(judge, images);
    var violations: seq<string> := [];
    var seen: set<string> := {};
    var i := 0;
    while i < |images|
      invariant 0 <= i <= |images|
      invariant forall x :: x in seen <==> x in images[..i]
      invariant os[i] == Violations(violations)
    {
      var image := images[i];
      assert Turn(judge(image), image in images[..i], os[i], os[i + 1], os[|images|]);
      assert images[..i + 1] == images[..i] + [image];
      if image !in seen {
        seen := seen + {image};
        match judge(image) {
          case Silent =>
          case Complaint(message) =>
            violations := violations + [message];
          case Outage(error) => return RaisedOutage(error);
          case Pause => return RaisedPause;
        }
      }
      i := i + 1;
    }
    return Violations(violations);
  }

  /** No configuration, or one that asks for no signature. */
  predicate Skipped(ctx: Context, image: string) {
    var vc := ctx.lookup(image);
    vc.None? || vc.value.IsDisabled()
  }

  function JudgeImage(rule: Rule, ctx: Context, checks: Checks, image: string): Judgement {
    var vc := ctx.lookup(image);
    match rule
    case RequireConfig =>
      if vc.None? then Complaint("Image " + image + " has no cosign configuration") else Silent
    case RejectDisabled =>
      if vc.Some? && vc.value.IsDisabled() then Complaint("Image " + image + " has verification disabled") else Silent
    case RequireKeyVerification =>
      if vc.Some? && (vc.value.verifyMethod != Key || vc.value.publicKey.None?)
      then Complaint("Image " + image + " must use key-based verification") else Silent
    case RequireContextKey =>
      if vc.Some? && vc.value.publicKey.Some? && vc.value.publicKey != ctx.requiredKey
      then Complaint("Image " + image + " uses a different cosign key") else Silent
    case VerifySignatures =>
      if Skipped(ctx, image) then Silent
      else
        match checks(image)
        case Checked(valid) =>
          if valid then Silent else Complaint("Image " + image + " has invalid or missing signature")
        case Failed(error) => Complaint("Verification failed for " + image + ": " + error)
        case CannotReach(error) => Outage(error)
        case Paused => Pause
  }

  function JudgeOf(rule: Rule, ctx: Context, checks: Checks): Judge {
    image => JudgeImage(rule, ctx, checks, image)
  }

  function RuleOutcome(rule: Rule, ctx: Context, checks: Checks): Outcome {
    if rule == RequireContextKey && ctx.requiredKey.None? then RaisedOther("no key path")
    else JudgeAll(JudgeOf(rule, ctx, checks), Distinct(ctx.images))
  }

  /** What it takes for one image to pass one rule. */
  predicate ImagePasses(rule: Rule, ctx: Context, checks: Checks, image: string) {
    JudgeImage(rule, ctx, checks, image) == Silent
  }

  ghost predicate RulePasses(rule: Rule, ctx: Context, checks: Checks) {
    && (rule == RequireContextKey ==> ctx.requiredKey.Some?)
    && forall image :: image in ctx.images ==> ImagePasses(rule, ctx, checks, image)
  }

  /** A rule reports nothing exactly when every image passes it. */
  lemma RulePassesIff(rule: Rule, ctx: Context, checks: Checks)
    ensures RuleOutcome(rule, ctx, checks) == Violations([]) <==> RulePasses(rule, ctx, checks)
  {
    DistinctMembers(ctx.images);
    AllSilentIff(JudgeOf(rule, ctx, checks), Distinct(ctx.images));
  }

  method RunRule(rule: Rule, ctx: Context, checks: Checks) returns (outcome: Outcome)
    ensures outcome == RuleOutcome(rule, ctx, checks)
  {
    if rule == RequireContextKey && ctx.requiredKey.None? {
      outcome := RaisedOther("no key path");
    } else {
      outcome := JudgeImages(JudgeOf(rule, ctx, checks), ctx.images);
    }
  }

  // ---------------------------------------------------------------------------
  // The decision
  // ---------------------------------------------------------------------------

  function RuleSet(namespace: string): set<Rule> {
    (if namespace == "chutes"
     then {RequireConfig, RejectDisabled, RequireKeyVerification, RequireContextKey, VerifySignatures}
     else {})
    + {VerifySignatures}
  }

  ghost predicate RulesPass(rules: set<Rule>, ctx: Context, checks: Checks) {
    forall r :: r in rules ==> RulePasses(r, ctx, checks)
  }

  lemma QuietIffPass(order: seq<Rule>, ctx: Context, checks: Checks)
    ensures (forall j :: 0 <= j < |order| ==> RuleOutcome(order[j], ctx, checks) == Violations([]))
            <==> RulesPass(Elements(order), ctx, checks)
  {
    forall r ensures RuleOutcome(r, ctx, checks) == Violations([]) <==> RulePasses(r, ctx, checks) {
      RulePassesIff(r, ctx, checks);
    }
    if RulesPass(Elements(order), ctx, checks) {
      forall j | 0 <= j < |order| ensures RuleOutcome(order[j], ctx, checks) == Violations([]) {
        assert order[j] in Elements(order);
      }
    }
  }

  /** The violations after the rules of `order`, and whether one of them has ended the loop: an outage
      replaces what was found before it, a pause is added to it. */
  datatype Collected = Collected(messages: seq<string>, stopped: bool)

  function Collect(order: seq<Rule>, f: Rule -> Outcome): Collected {
    if order == [] then Collected([], false)
    else
      var before, outcome := Collect(order[..|order| - 1], f), f(order[|order| - 1]);
      if before.stopped then before
      else if outcome.RaisedOutage? then Collected(Report(outcome), true)
      else Collected(before.messages + Report(outcome), outcome.RaisedPause?)
  }

  lemma CollectNext(order: seq<Rule>, i: nat, f: Rule -> Outcome)
    requires i < |order|
    ensures Collect(order[..i + 1], f)
         == var before, outcome := Collect(order[..i], f), f(order[i]);
            if before.stopped then before
            else if outcome.RaisedOutage? then Collected(Report(outcome), true)
            else Collected(before.messages + Report(outcome), outcome.RaisedPause?)
  {
    assert order[..i + 1][..i] == order[..i];
  }

  lemma {:induction false} StopStays(order: seq<Rule>, i: nat, f: Rule -> Outcome)
    requires i <= |order| && Collect(order[..i], f).stopped
    ensures Collect(order, f) == Collect(order[..i], f)
  {
    if i == |order| {
      assert order[..i] == order;
    } else {
      var t := order[..|order| - 1];
      assert t[..i] == order[..i];
      StopStays(t, i, f);
    }
  }

  /** There is no violation exactly when every rule is quiet. */
  lemma {:induction false} NothingCollectedIff(order: seq<Rule>, f: Rule -> Outcome)
    ensures Collect(order, f).messages == [] <==> forall j :: 0 <= j < |order| ==> f(order[j]) == Violations([])
    ensures Collect(order, f).stopped ==> Collect(order, f).messages != []
  {
    if order != [] {
      var t := order[..|order| - 1];
      NothingCollectedIff(t, f);
      assert forall j :: 0 <= j < |t| ==> t[j] == order[j];
    }
  }

  /** The loop over the rules; `f` names the outcomes, so that the proof need not open them. */
  method RunRules(order: seq<Rule>, ctx: Context, checks: Checks, ghost f: Rule -> Outcome)
    returns (violations: seq<string>)
    requires forall r {:trigger RuleOutcome(r, ctx, checks)} :: f(r) == RuleOutcome(r, ctx, checks)
    ensures violations == Collect(order, f).messages
  {
    violations := [];
    var i := 0;
    while i < |order|
      invariant 0 <= i <= |order|
      invariant Collect(order[..i], f) == Collected(violations, false)
    {
      var outcome := RunRule(order[i], ctx, checks);
      var messages := Report(outcome);
      assert outcome == f(order[i]);
      CollectNext(order, i, f);
      if outcome.RaisedOutage? {
        StopStays(order, i + 1, f);
        return messages;
      }
      violations := violations + messages;
      if outcome.RaisedPause? {
        StopStays(order, i + 1, f);
        return;
      }
      i := i + 1;
    }
    assert order[..i] == order;
  }

  /** What the loop over the rules adds to the violations. */
  function Report(outcome: Outcome): (messages: seq<string>)
    ensures |messages| == 0 <==> outcome == Violations([])
  {
    match outcome
    case RaisedOutage(error) => ["Cosign verification unavailable (network/infra): " + error]
    case RaisedPause => ["Cosign verification paused due to upstream rate limiting"]
    case RaisedOther(error) => ["Verification failed: " + error]
    case Violations(messages) => messages
  }

  function ContextOf(settings: Settings, namespace: string, images: seq<string>, chutesKey: Option<string>): Context {
    Context(image => ConfigFor(settings, image), images, if namespace == "chutes" then chutesKey else None)
  }

  /** An image of a chutes pod is in order: an enabled key-based configuration with the required key,
      and a signature that verified. */
  ghost predicate ChutesImageOk(ctx: Context, checks: Checks, image: string) {
    var vc := ctx.lookup(image);
    && vc.Some? && !vc.value.IsDisabled() && vc.value.verifyMethod == Key
    && vc.value.publicKey.Some? && vc.value.publicKey == ctx.requiredKey
    && checks(image) == Checked(true)
  }

  ghost predicate PassesAll(ctx: Context, checks: Checks, image: string) {
    && ImagePasses(RequireConfig, ctx, checks, image) && ImagePasses(RejectDisabled, ctx, checks, image)
    && ImagePasses(RequireKeyVerification, ctx, checks, image) && ImagePasses(RequireContextKey, ctx, checks, image)
    && ImagePasses(VerifySignatures, ctx, checks, image)
  }

  lemma ChutesImageIff(ctx: Context, checks: Checks, image: string)
    ensures PassesAll(ctx, checks, image) <==> ChutesImageOk(ctx, checks, image)
  {
  }

  lemma ChutesRules(ctx: Context, checks: Checks)
    ensures RulesPass(RuleSet("chutes"), ctx, checks) <==>
              && RulePasses(RequireConfig, ctx, checks) && RulePasses(RejectDisabled, ctx, checks)
              && RulePasses(RequireKeyVerification, ctx, checks) && RulePasses(RequireContextKey, ctx, checks)
              && RulePasses(VerifySignatures, ctx, checks)
  {
    assert RuleSet("chutes") ==
      {RequireConfig, RejectDisabled, RequireKeyVerification, RequireContextKey, VerifySignatures};
  }

  /** The chutes rules together: a pod passes exactly when the key path is set and each image is in
      order. */
  lemma ChutesDecision(ctx: Context, checks: Checks)
    ensures RulesPass(RuleSet("chutes"), ctx, checks) <==>
              ctx.requiredKey.Some? && forall image :: image in ctx.images ==> ChutesImageOk(ctx, checks, image)
  {
    ChutesRules(ctx, checks);
    forall image ensures PassesAll(ctx, checks, image) <==> ChutesImageOk(ctx, checks, image) {
      ChutesImageIff(ctx, checks, image);
    }
    assert RulesPass(RuleSet("chutes"), ctx, checks) <==>
           ctx.requiredKey.Some? && forall image :: image in ctx.images ==> PassesAll(ctx, checks, image);
  }

  /** Elsewhere: a pod passes exactly when each image with an enabled configuration verified. */
  lemma DefaultDecision(namespace: string, ctx: Context, checks: Checks)
    requires namespace != "chutes"
    ensures RulesPass(RuleSet(namespace), ctx, checks) <==>
              forall image :: image in ctx.images ==> Skipped(ctx, image) || checks(image) == Checked(true)
  {
    assert RulesPass(RuleSet(namespace), ctx, checks) <==> RulePasses(VerifySignatures, ctx, checks);
  }

  /** A kind of object that makes pods. */
  ghost predicate MakesPods(kind: string) {
    || kind == "Pod" || kind == "Deployment" || kind == "StatefulSet" || kind == "DaemonSet"
    || kind == "Job" || kind == "CronJob" || kind == "ReplicaSet"
  }

  lemma KindsIff(kind: string)
    ensures kind in KINDS <==> MakesPods(kind)
  {
    assert KINDS[0] == "Pod" && KINDS[1] == "Deployment" && KINDS[2] == "StatefulSet" && KINDS[3] == "DaemonSet";
    assert KINDS[4] == "Job" && KINDS[5] == "CronJob" && KINDS[6] == "ReplicaSet";
  }

  /** What a pod needs. In the chutes namespace: the required key is set, and each image has a configuration
      that asks for a signature by that very key, and it verified. Elsewhere: each image verified, unless it
      has no configuration or one that asks for no signature. */
  ghost predicate Accepted(settings: Settings, namespace: string, images: seq<string>, chutesKey: Option<string>,
                           checks: Checks) {
    if namespace == "chutes" then
      && chutesKey.Some?
      && forall image :: image in images ==>
           && checks(image) == Checked(true)
           && match ConfigFor(settings, image)
              case None => false
              case Some(vc) => vc.requireSignature && vc.verifyMethod == Key && vc.publicKey == chutesKey
    else
      forall image :: image in images ==>
        || checks(image) == Checked(true)
        || match ConfigFor(settings, image)
           case None => true
           case Some(vc) => vc.verifyMethod == Disabled || !vc.requireSignature
  }

  lemma AcceptedIff(settings: Settings, namespace: string, images: seq<string>, chutesKey: Option<string>,
                    checks: Checks)
    ensures RulesPass(RuleSet(namespace), ContextOf(settings, namespace, images, chutesKey), checks)
       <==> Accepted(settings, namespace, images, chutesKey, checks)
  {
    var ctx := ContextOf(settings, namespace, images, chutesKey);
    if namespace == "chutes" {
      ChutesDecision(ctx, checks);
    } else {
      DefaultDecision(namespace, ctx, checks);
    }
  }

  /** `validate`, for any listing of the rule set: what the decision rests on, whatever the order of the
      rules; a denial comes with the messages collected in that order. */
  method Validate(kind: string, operation: string, namespace: string, images: seq<string>, settings: Settings,
                  chutesKey: Option<string>, order: seq<Rule>, checks: Checks)
    returns (allowed: bool, violations: seq<string>)
    requires Elements(order) == RuleSet(namespace)
    ensures allowed <==>
      || !MakesPods(kind) || operation == "DELETE" || images == []
      || Accepted(settings, namespace, images, chutesKey, checks)
    ensures violations == if allowed then [] else
              var ctx := ContextOf(settings, namespace, images, chutesKey);
              Collect(order, r => RuleOutcome(r, ctx, checks)).messages
    ensures allowed <==> violations == []
  {
    KindsIff(kind);
    if kind !in KINDS || operation == "DELETE" || images == [] {
      return true, [];
    }
    var ctx := ContextOf(settings, namespace, images, chutesKey);
    violations := RunRules(order, ctx, checks, r => RuleOutcome(r, ctx, checks));
    NothingCollectedIff(order, r => RuleOutcome(r, ctx, checks));
    QuietIffPass(order, ctx, checks);
    AcceptedIff(settings, namespace, images, chutesKey, checks);
    return |violations| == 0, violations;
  }

  // ---------------------------------------------------------------------------
  // How a rule ends
  // ---------------------------------------------------------------------------

  /** A signature is checked, and the verification of the image ends the rule. */
  ghost predicate EndsRule(ctx: Context, checks: Checks, image: string) {
    !Skipped(ctx, image) && (checks(image).CannotReach? || checks(image).Paused?)
  }

  /** The verification rule ends with the exception of the first image that has one, and otherwise goes through
      all images. No other rule ends early. */
  lemma {:induction false} VerifyEnds(ctx: Context, checks: Checks, images: seq<string>) returns (i: nat)
    ensures i <= |images| && forall j :: 0 <= j < i ==> !EndsRule(ctx, checks, images[j])
    ensures var outcome := JudgeAll(JudgeOf(VerifySignatures, ctx, checks), images);
            if i == |images| then outcome.Violations?
            else EndsRule(ctx, checks, images[i])
                 && outcome == match checks(images[i])
                               case CannotReach(error) => RaisedOutage(error)
                               case _ => RaisedPause
  {
    if images == [] {
      i := 0;
    } else {
      var t := images[..|images| - 1];
      i := VerifyEnds(ctx, checks, t);
      if i == |t| && !EndsRule(ctx, checks, images[|t|]) {
        i := |images|;
      }
    }
  }

  lemma OtherRulesEnd(rule: Rule, ctx: Context, checks: Checks)
    requires rule != VerifySignatures
    ensures RuleOutcome(rule, ctx, checks).RaisedOther? <==> rule == RequireContextKey && ctx.requiredKey.None?
    ensures RuleOutcome(rule, ctx, checks).RaisedOther? || RuleOutcome(rule, ctx, checks).Violations?
  {
    JudgesWithoutStop(JudgeOf(rule, ctx, checks), Distinct(ctx.images));
  }

  ghost predicate Mentions(message: string, text: string) {
    exists a, b :: message == a + text + b
  }

  /** Every complaint names its image. */
  lemma ComplaintsName(rule: Rule, ctx: Context, checks: Checks, image: string)
    requires JudgeImage(rule, ctx, checks, image).Complaint?
    ensures Mentions(JudgeImage(rule, ctx, checks, image).message, image)
  {
    var m := JudgeImage(rule, ctx, checks, image).message;
    var before := if rule == VerifySignatures && checks(image).Failed? then "Verification failed for " else "Image ";
    assert m == before + image + m[|before| + |image|..];
  }

  /** The report of an outage or of another exception gives its cause. */
  lemma ReportsName(error: string)
    ensures |Report(RaisedOutage(error))| == 1 && Mentions(Report(RaisedOutage(error))[0], error)
    ensures |Report(RaisedOther(error))| == 1 && Mentions(Report(RaisedOther(error))[0], error)
  {
    var p := Report(RaisedOutage(error))[0];
    assert p == p[..|p| - |error|] + error + "";
    var q := Report(RaisedOther(error))[0];
    assert q == q[..|q| - |error|] + error + "";
  }

  // ---------------------------------------------------------------------------
  // Which violations are found
  // ---------------------------------------------------------------------------

  /** `order` lists the rules of a set, each once. */
  ghost predicate Lists(order: seq<Rule>, rules: set<Rule>) {
    Elements(order) == rules && forall i, j :: 0 <= i < j < |order| ==> order[i] != order[j]
  }

  predicate Stops(outcome: Outcome) {
    outcome.RaisedOutage? || outcome.RaisedPause?
  }

  /** Only the verification of signatures can end the loop over the rules. */
  ghost predicate OnlyVerifyStops(f: Rule -> Outcome) {
    forall r :: Stops(f(r)) ==> r == VerifySignatures
  }

  lemma {:induction false} JudgesWithoutStop(judge: Judge, images: seq<string>)
    requires forall image :: judge(image).Silent? || judge(image).Complaint?
    ensures JudgeAll(judge, images).Violations?
  {
    if images != [] {
      JudgesWithoutStop(judge, images[..|images| - 1]);
    }
  }

  lemma RulesStop(ctx: Context, checks: Checks)
    ensures OnlyVerifyStops(r => RuleOutcome(r, ctx, checks))
  {
    forall r | r != VerifySignatures ensures !Stops(RuleOutcome(r, ctx, checks)) {
      JudgesWithoutStop(JudgeOf(r, ctx, checks), Distinct(ctx.images));
    }
  }

  function Term(rules: set<Rule>, g: Rule -> nat, r: Rule): nat {
    if r in rules then g(r) else 0
  }

  /** The sum of `g` over a set of rules. */
  function Sum(rules: set<Rule>, g: Rule -> nat): nat {
    Term(rules, g, RequireConfig) + Term(rules, g, RejectDisabled) + Term(rules, g, RequireKeyVerification)
    + Term(rules, g, RequireContextKey) + Term(rules, g, VerifySignatures)
  }

  lemma SumWithout(rules: set<Rule>, g: Rule -> nat, r: Rule)
    requires r in rules
    ensures Sum(rules, g) == Sum(rules - {r}, g) + g(r)
  {
    assert forall q :: q != r ==> Term(rules - {r}, g, q) == Term(rules, g, q);
  }

  /** How often a rule reports a message. */
  function Times(f: Rule -> Outcome, message: string): Rule -> nat {
    r => multiset(Report(f(r)))[message]
  }

  lemma ListsInit(order: seq<Rule>, rules: set<Rule>)
    requires Lists(order, rules) && order != []
    ensures var x := order[|order| - 1];
            x in rules && Lists(order[..|order| - 1], rules - {x})
  {
    SplitLast(order);
    var t, x := order[..|order| - 1], order[|order| - 1];
    assert Elements(order) == Elements(t) + {x};
    assert x !in Elements(t);
  }

  lemma AppendTimes(a: seq<string>, b: seq<string>, message: string)
    ensures multiset(a + b)[message] == multiset(a)[message] + multiset(b)[message]
  {
  }

  lemma {:induction false} CollectAll(order: seq<Rule>, rules: set<Rule>, f: Rule -> Outcome, message: string)
    requires Lists(order, rules) && forall r :: r in rules ==> !Stops(f(r))
    ensures !Collect(order, f).stopped
    ensures multiset(Collect(order, f).messages)[message] == Sum(rules, Times(f, message))
  {
    if order != [] {
      var t, x := order[..|order| - 1], order[|order| - 1];
      ListsInit(order, rules);
      CollectAll(t, rules - {x}, f, message);
      SumWithout(rules, Times(f, message), x);
      AppendTimes(Collect(t, f).messages, Report(f(x)), message);
    } else {
      assert rules == {};
    }
  }

  /** An outage is all that is reported, wherever its rule stands. */
  lemma {:induction false} CollectOutage(order: seq<Rule>, rules: set<Rule>, f: Rule -> Outcome)
    requires Lists(order, rules) && OnlyVerifyStops(f)
    requires VerifySignatures in rules && f(VerifySignatures).RaisedOutage?
    ensures Collect(order, f) == Collected(Report(f(VerifySignatures)), true)
  {
    NoElements(order);
    ListsInit(order, rules);
    var t, x := order[..|order| - 1], order[|order| - 1];
    if x == VerifySignatures {
      CollectAll(t, rules - {x}, f, "");
    } else {
      CollectOutage(t, rules - {x}, f);
    }
  }

  lemma {:induction false} CollectPause(order: seq<Rule>, rules: set<Rule>, f: Rule -> Outcome)
    requires Lists(order, rules) && OnlyVerifyStops(f)
    requires VerifySignatures in rules && f(VerifySignatures).RaisedPause?
    requires forall r :: r in rules && r != VerifySignatures ==> Report(f(r)) == []
    ensures Collect(order, f) == Collected(Report(RaisedPause), true)
  {
    NoElements(order);
    ListsInit(order, rules);
    var t, x := order[..|order| - 1], order[|order| - 1];
    if x == VerifySignatures {
      CollectSilent(t, rules - {x}, f);
    } else {
      CollectPause(t, rules - {x}, f);
    }
  }

  lemma CollectSilent(order: seq<Rule>, rules: set<Rule>, f: Rule -> Outcome)
    requires Lists(order, rules) && forall r :: r in rules ==> !Stops(f(r)) && Report(f(r)) == []
    ensures Collect(order, f) == Collected([], false)
  {
    NothingCollectedIff(order, f);
    CollectAll(order, rules, f, "");
    assert forall j :: 0 <= j < |order| ==> order[j] in Elements(order);
  }

  lemma {:induction false} SomeListing(rules: set<Rule>) returns (order: seq<Rule>)
    ensures Lists(order, rules)
  {
    order := [];
    if rules != {} {
      var r :| r in rules;
      var t := SomeListing(rules - {r});
      order := [r] + t;
      assert r !in Elements(t);
      assert Elements(order) == {r} + Elements(t);
    }
  }

  /** With a pause, a rule that has something to say is heard before it and not after it. */
  lemma PauseDepends(rules: set<Rule>, f: Rule -> Outcome, r: Rule) returns (a: seq<Rule>, b: seq<Rule>)
    requires VerifySignatures in rules && r in rules && r != VerifySignatures && Report(f(r)) != []
    requires f(VerifySignatures).RaisedPause? && !Stops(f(r))
    ensures Lists(a, rules) && Lists(b, rules)
    ensures multiset(Collect(a, f).messages) != multiset(Collect(b, f).messages)
  {
    var rest := SomeListing(rules - {VerifySignatures, r});
    a, b := [VerifySignatures, r] + rest, [r, VerifySignatures] + rest;
    PairListed(VerifySignatures, r, rest, rules);
    PairListed(r, VerifySignatures, rest, rules);
    PauseFirst(r, rest, f);
    PauseSecond(r, rest, f);
    SameSize(Collect(a, f).messages, Collect(b, f).messages);
  }

  lemma SameSize(a: seq<string>, b: seq<string>)
    ensures multiset(a) == multiset(b) ==> |a| == |b|
  {
    assert |multiset(a)| == |a| && |multiset(b)| == |b|;
  }

  lemma PairListed(x: Rule, y: Rule, rest: seq<Rule>, rules: set<Rule>)
    requires Lists(rest, rules - {x, y}) && x != y && x in rules && y in rules
    ensures Lists([x, y] + rest, rules)
  {
    var a := [x, y] + rest;
    assert x !in Elements(rest) && y !in Elements(rest);
    assert Elements(a) == {x, y} + Elements(rest);
    assert forall i :: 2 <= i < |a| ==> a[i] == rest[i - 2] && a[i] in Elements(rest);
  }

  lemma PauseFirst(r: Rule, rest: seq<Rule>, f: Rule -> Outcome)
    requires f(VerifySignatures).RaisedPause?
    ensures |Collect([VerifySignatures, r] + rest, f).messages| == 1
  {
    var a := [VerifySignatures, r] + rest;
    assert a[..0] == [];
    CollectNext(a, 0, f);
    StopStays(a, 1, f);
  }

  lemma PauseSecond(r: Rule, rest: seq<Rule>, f: Rule -> Outcome)
    requires f(VerifySignatures).RaisedPause? && !Stops(f(r))
    ensures |Collect([r, VerifySignatures] + rest, f).messages| == |Report(f(r))| + 1
  {
    var a := [r, VerifySignatures] + rest;
    assert a[..0] == [];
    CollectNext(a, 0, f);
    CollectNext(a, 1, f);
    StopStays(a, 2, f);
  }

  ghost predicate OrderFree(rules: set<Rule>, f: Rule -> Outcome) {
    forall a, b :: Lists(a, rules) && Lists(b, rules) ==>
      multiset(Collect(a, f).messages) == multiset(Collect(b, f).messages)
  }

  lemma SameMessages(a: seq<Rule>, b: seq<Rule>, rules: set<Rule>, f: Rule -> Outcome)
    requires Lists(a, rules) && Lists(b, rules) && forall r :: r in rules ==> !Stops(f(r))
    ensures multiset(Collect(a, f).messages) == multiset(Collect(b, f).messages)
  {
    forall message ensures multiset(Collect(a, f).messages)[message] == multiset(Collect(b, f).messages)[message] {
      CollectAll(a, rules, f, message);
      CollectAll(b, rules, f, message);
    }
  }

  /** Which violations are found does not depend on the order of the rules, if and only if the
      verification is not paused or no other rule has anything to report. */
  lemma ViolationsOrderFreeIff(rules: set<Rule>, f: Rule -> Outcome)
    requires OnlyVerifyStops(f) && VerifySignatures in rules
    ensures OrderFree(rules, f) <==>
              || !f(VerifySignatures).RaisedPause?
              || forall r :: r in rules && r != VerifySignatures ==> Report(f(r)) == []
  {
    if f(VerifySignatures).RaisedPause? {
      if r :| r in rules && r != VerifySignatures && Report(f(r)) != [] {
        var a, b := PauseDepends(rules, f, r);
      } else {
        forall a | Lists(a, rules) ensures Collect(a, f) == Collected(Report(RaisedPause), true) {
          CollectPause(a, rules, f);
        }
      }
    } else if f(VerifySignatures).RaisedOutage? {
      forall a | Lists(a, rules) ensures Collect(a, f) == Collected(Report(f(VerifySignatures)), true) {
        CollectOutage(a, rules, f);
      }
    } else {
      forall a, b | Lists(a, rules) && Lists(b, rules)
        ensures multiset(Collect(a, f).messages) == multiset(Collect(b, f).messages)
      {
        SameMessages(a, b, rules, f);
      }
    }
  }

  /** For the rules of a namespace: the violations depend on their order only when the verification is
      paused and another rule has something to report. */
  lemma ReportedOrderFreeIff(namespace: string, ctx: Context, checks: Checks)
    ensures OrderFree(RuleSet(namespace), r => RuleOutcome(r, ctx, checks)) <==>
              || !RuleOutcome(VerifySignatures, ctx, checks).RaisedPause?
              || forall r :: r in RuleSet(namespace) && r != VerifySignatures ==> RulePasses(r, ctx, checks)
  {
    RulesStop(ctx, checks);
    ViolationsOrderFreeIff(RuleSet(namespace), r => RuleOutcome(r, ctx, checks));
    forall r ensures Report(RuleOutcome(r, ctx, checks)) == [] <==> RulePasses(r, ctx, checks) {
      RulePassesIff(r, ctx, checks);
    }
  }

  // ---------------------------------------------------------------------------
  // From the decision back to cosign
  // ---------------------------------------------------------------------------

  /** The image whose verification the step `e` continues. */
  function Subject(sys: System, e: Event): string
    requires Enabled(sys, e)
  {
    if e.BeginEvent? then e.image else sys.inFlight[e.id]
  }

  /** Step `k` of the run is where the verification of `image` ended with True. */
  ghost predicate VerifiedAt(s: Settings, start: real, events: seq<Event>, k: nat, image: string) {
    && k < |events|
    && var before := Run(s, Initial(start), events[..k]);
       && before.Some? && Enabled(before.value, events[k])
       && Subject(before.value, events[k]) == image
       && Output(s, before.value, events[k]) == Some(Returned(true))
  }

  /** In one run of the validator, `ends` tells at which step the verification of an image ended: there
      is no True among the results without such a step. */
  ghost predicate ChecksComeFrom(s: Settings, start: real, events: seq<Event>, ends: string -> nat, images: seq<string>,
                                 checks: Checks) {
    && start >= 0.0
    && forall image :: image in images && checks(image) == Checked(true) ==>
                         VerifiedAt(s, start, events, ends(image), image)
  }

  /** At step `k` of the run cosign vouches for the image: in that very call, or by a fresh success under
      the same configuration for the same repository. */
  ghost predicate VouchedAt(s: Settings, start: real, events: seq<Event>, k: nat, image: string) {
    && k < |events|
    && var before := Run(s, Initial(start), events[..k]);
       && before.Some?
       && if events[k].CompleteEvent? then events[k].answer.IsSuccess()
          else
            && IsDigestPinned(image)
            && exists i :: 0 <= i < |before.value.log|
                        && FreshSuccess(s, before.value.log[i], image, events[k].lookupAt)
  }

  lemma VerifiedIsVouched(s: Settings, start: real, events: seq<Event>, k: nat, image: string)
    requires start >= 0.0 && VerifiedAt(s, start, events, k, image)
    ensures VouchedAt(s, start, events, k, image)
  {
    var before := Run(s, Initial(start), events[..k]);
    assert Reachable(s, before.value);
    TrueIsBacked(s, before.value, events[k]);
  }

  /** In the very run whose verifications the decision used, cosign vouches for every image of a chutes
      pod that passes, under an enabled configuration with the required key. */
  lemma AllowedChutesPodIsVouched(s: Settings, images: seq<string>, key: Option<string>, checks: Checks, start: real,
                                  events: seq<Event>, ends: string -> nat, image: string)
    requires RulesPass(RuleSet("chutes"), ContextOf(s, "chutes", images, key), checks) && image in images
    requires ChecksComeFrom(s, start, events, ends, images, checks)
    ensures VouchedAt(s, start, events, ends(image), image)
    ensures var vc := ConfigFor(s, image);
            vc.Some? && !vc.value.IsDisabled() && vc.value.verifyMethod == Key && key.Some? && vc.value.publicKey == key
  {
    var ctx := ContextOf(s, "chutes", images, key);
    ChutesDecision(ctx, checks);
    assert ChutesImageOk(ctx, checks, image);
    VerifiedIsVouched(s, start, events, ends(image), image);
  }

  /** `validate` for the chutes namespace while the verifier runs: when it allows the pod, cosign has
      vouched for every image at the step where that image's verification ended. */
  method ValidateInRun(kind: string, operation: string, images: seq<string>, settings: Settings, key: Option<string>,
                       order: seq<Rule>, checks: Checks, ghost start: real, ghost events: seq<Event>,
                       ghost ends: string -> nat)
    returns (allowed: bool)
    requires Elements(order) == RuleSet("chutes")
    requires ChecksComeFrom(settings, start, events, ends, images, checks)
    ensures allowed && MakesPods(kind) && operation != "DELETE" ==>
              forall image :: image in images ==> VouchedAt(settings, start, events, ends(image), image)
  {
    var violations;
    allowed, violations := Validate(kind, operation, "chutes", images, settings, key, order, checks);
    if allowed && MakesPods(kind) && operation != "DELETE" {
      AcceptedIff(settings, "chutes", images, key, checks);
      forall image | image in images ensures VouchedAt(settings, start, events, ends(image), image) {
        AllowedChutesPodIsVouched(settings, images, key, checks, start, events, ends, image);
      }
    }
  }
}
