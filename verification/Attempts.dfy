/**
 * One attempt of `crates/libsubby/src/proxy/codex.rs:420-641` and `proxy/claude.rs`: what it does to the
 * router, as steps of the same run as everyone else's, and how it ends.
 */
module Attempts {
  import opened Prelude
  import opened Balance
  import opened Strategy
  import opened Router
  import opened RouterWorld

  // ---- One attempt ----

  /** What upstream answered; `limits` are the usage figures of Claude's rate-limit headers. */
  datatype Reply = NoReply | Reply(status: nat, body: string, limits: Option<Usage>)

  datatype Refresh = Fresh | Refused(permanent: bool)

  /**
   * How the body of a success ended: handed on under upstream's status, folded to one response, found to hold no
   * terminal event, or dead before a byte of it was handed on.
   */
  datatype BodyEnd = HandedOn | Aggregated | NoTerminal | Died {
    /** The status the client gets, if it gets an answer. */
    function Answer(status: nat): Option<nat> {
      match this
      case HandedOn => Some(status)
      case Aggregated => Some(200)
      case NoTerminal => Some(502)
      case Died => None
    }
  }

  /**
   * One pass of the exchange: the first reply, the refresh and second reply after a 401, how the body of a
   * success ended, the usage fetched for a quarantine, and what others did meanwhile.
   */
  datatype Pass = Pass(first: Reply, refresh: Refresh, second: Reply, body: BodyEnd, usage: Option<Usage>,
                       beforeRefresh: seq<Step>, beforeReply: seq<Step>, beforeVerdict: seq<Step>)

  datatype Inputs = Inputs(refresh: Refresh, beforeRefresh: seq<Step>, pass0: Pass, pass1: Pass)

  datatype Outcome = Done(status: nat) | Rotate(terminal: nat) | Fail(status: nat)

  /** A failure only about the bytes sent: everything but a 401 and a real usage limit. */
  predicate RequestScopedReply(status: nat, body: string) { status != 401 && !IsUsageLimitError(status, body) }

  function ClassOf(reply: Reply, retried: bool): FailureClass
    requires reply.Reply?
  {
    Attempt(reply.status, reply.body, RequestScopedReply(reply.status, reply.body), retried).Classify()
  }

  function Own(event: Event): seq<Step> { [Step(0, event)] }

  /** What the router's verdict on a failure means for the request. */
  function Verdict(disposition: Disposition, failure: FailureClass, status: nat): Outcome {
    match disposition
    case Rotate => Outcome.Rotate(if failure.UsageLimit? then 429 else 503)
    case Fail(s) => Outcome.Fail(s)
    case PassThrough | RetrySameSub => Done(status)
  }

  function RefreshClass(permanent: bool): FailureClass { if permanent then RefreshPermanent else RefreshTransient }

  function RefreshVerdict(disposition: Disposition): Outcome {
    match disposition
    case Fail(s) => Outcome.Fail(s)
    case Rotate => Outcome.Rotate(503)
    case PassThrough | RetrySameSub => Outcome.Fail(503)
  }

  /** The disposition the router gives a failure recorded after these steps. */
  function DispositionAfter(w: World, log: seq<Step>, id: SubId, failure: FailureClass,
                            usage: Option<Usage>): Disposition
  {
    var now := Run(w, log);
    OnFailure(now.router, id, failure, usage, now.clock).1
  }

  /** A refused refresh: the failure is recorded and ends the attempt. */
  function RefusedRefresh(w: World, log: seq<Step>, id: SubId, permanent: bool): (seq<Step>, Outcome) {
    var failure := RefreshClass(permanent);
    (log + Own(Failed(id, failure, None)), RefreshVerdict(DispositionAfter(w, log, id, failure, None)))
  }

  /** A reply was received: quarantine on its headers, hand it on, or classify its failure. */
  function Received(w: World, log: seq<Step>, id: SubId, pass: Pass, reply: Reply,
                    retried: bool): (seq<Step>, Option<Outcome>)
    requires reply.Reply?
  {
    var log1 := log + pass.beforeReply;
    var reported := reply.limits.Some? && IsExhausted(reply.limits.value);
    var log2 := if reported then log1 + Own(Exhausted(id, reply.limits)) else log1;
    if 200 <= reply.status < 300 then
      (log2, match pass.body.Answer(reply.status) case Some(status) => Some(Done(status)) case None => None)
    else
      var failure := ClassOf(reply, retried);
      var usage := if !failure.UsageLimit? then None else if reply.limits.Some? then reply.limits else pass.usage;
      var log3 := log2 + pass.beforeVerdict;
      (log3 + Own(Failed(id, failure, usage)),
       Some(Verdict(DispositionAfter(w, log3, id, failure, usage), failure, reply.status)))
  }

  /** One pass: no outcome means the body died before a byte of it was handed on. */
  function PassOf(w: World, log: seq<Step>, id: SubId, pass: Pass): (seq<Step>, Option<Outcome>) {
    if pass.first.NoReply? then (log, Some(Outcome.Fail(502)))
    else if pass.first.status != 401 then Received(w, log, id, pass, pass.first, false)
    else
      var log1 := log + pass.beforeRefresh;
      match pass.refresh
      case Refused(permanent) =>
        var r := RefusedRefresh(w, log1, id, permanent);
        (r.0, Some(r.1))
      case Fresh =>
        if pass.second.NoReply? then (log1, Some(Outcome.Fail(502))) else Received(w, log1, id, pass, pass.second, true)
  }

  /** The exchange is repeated at most once. */
  method RunAttempt(w: World, id: SubId, inputs: Inputs) returns (log: seq<Step>, outcome: Outcome)
    ensures (log, outcome) == AttemptOf(w, id, inputs)
  {
    hide PassOf, RefusedRefresh;
    log := inputs.beforeRefresh;
    if inputs.refresh.Refused? {
      var refused := RefusedRefresh(w, log, id, inputs.refresh.permanent);
      return refused.0, refused.1;
    }
    var resent := false;
    while true
      invariant !resent ==> log == inputs.beforeRefresh
      invariant resent ==> PassOf(w, inputs.beforeRefresh, id, inputs.pass0) == (log, None)
      decreases !resent
    {
      var (more, verdict) := PassOf(w, log, id, if resent then inputs.pass1 else inputs.pass0);
      log := more;
      if verdict.Some? {
        return log, verdict.value;
      }
      if resent {
        return log, Outcome.Fail(502);
      }
      resent := true;
    }
  }

  function AttemptOf(w: World, id: SubId, inputs: Inputs): (seq<Step>, Outcome) {
    if inputs.refresh.Refused? then RefusedRefresh(w, inputs.beforeRefresh, id, inputs.refresh.permanent)
    else
      var (log0, verdict0) := PassOf(w, inputs.beforeRefresh, id, inputs.pass0);
      if verdict0.Some? then (log0, verdict0.value)
      else
        var (log1, verdict1) := PassOf(w, log0, id, inputs.pass1);
        (log1, if verdict1.Some? then verdict1.value else Outcome.Fail(502))
  }

  // ---- Runs ----

  lemma {:induction false} RunAppend(w: World, a: seq<Step>, b: seq<Step>)
    ensures Run(w, a + b) == Run(Run(w, a), b)
    decreases |b|
  {
    hide Apply;
    if b == [] {
      assert a + b == a;
    } else {
      var last := |b| - 1;
      assert (a + b)[..|a + b| - 1] == a + b[..last];
      RunAppend(w, a, b[..last]);
    }
  }

  lemma RunOwn(w: World, log: seq<Step>, event: Event)
    ensures Run(w, log + Own(event)) == Apply(Run(w, log), Step(0, event))
  {
    hide Apply;
    RunAppend(w, log, Own(event));
    RunOfOne(Run(w, log), Step(0, event));
  }

  // ---- What an attempt promises ----

  /** In these loops a reply is a usage limit, a 401 that survived its retry, or only about the request. */
  lemma ClassesSeen(reply: Reply, retried: bool)
    requires reply.Reply?
    ensures var failure := ClassOf(reply, retried);
            && (failure.UsageLimit? <==> reply.status == 429 && IsUsageLimitBody(reply.body))
            && (failure.AuthPermanent? <==> reply.status == 401 && retried)
            && !failure.RefreshPermanent? && !failure.RefreshTransient?
            && (!failure.UsageLimit? && reply.status != 401 ==> failure.RequestScoped?)
  {
    hide IsUsageLimitBody;
  }

  /** The last step recorded this failure, which left the sub quarantined while switching is allowed. */
  ghost predicate RotatedAfter(w: World, log: seq<Step>, id: SubId, terminal: nat) {
    && log != [] && log[|log| - 1].event.Failed? && log[|log| - 1].event.sub == id
    && terminal == (if log[|log| - 1].event.failure.UsageLimit? then 429 else 503)
    && id in Run(w, log).router.exhausted
    && Run(w, log).router.settings.autoSwitch
  }

  lemma FailureRotates(w: World, log: seq<Step>, id: SubId, failure: FailureClass, usage: Option<Usage>)
    requires DispositionAfter(w, log, id, failure, usage).Rotate?
    ensures RotatedAfter(w, log + Own(Failed(id, failure, usage)), id, if failure.UsageLimit? then 429 else 503)
  {
    hide Run, ExhaustUntil, EffectivePct;
    RunOwn(w, log, Failed(id, failure, usage));
  }

  lemma ReceivedRotates(w: World, log: seq<Step>, id: SubId, pass: Pass, reply: Reply, retried: bool)
    requires reply.Reply?
    ensures var (after, verdict) := Received(w, log, id, pass, reply, retried);
            verdict.Some? && verdict.value.Rotate? ==>
              && RotatedAfter(w, after, id, verdict.value.terminal)
              && (verdict.value.terminal == 429 <==> reply.status == 429 && IsUsageLimitBody(reply.body))
              && (verdict.value.terminal == 503 <==> reply.status == 401 && retried)
  {
    hide RotatedAfter, DispositionAfter, IsUsageLimitBody, ClassOf;
    ClassesSeen(reply, retried);
    if !(200 <= reply.status < 300) {
      var log1 := log + pass.beforeReply;
      var reported := reply.limits.Some? && IsExhausted(reply.limits.value);
      var log2 := if reported then log1 + Own(Exhausted(id, reply.limits)) else log1;
      var failure := ClassOf(reply, retried);
      var usage := if !failure.UsageLimit? then None else if reply.limits.Some? then reply.limits else pass.usage;
      var log3 := log2 + pass.beforeVerdict;
      OnlyQuarantinesRotate(w, log3, id, failure, usage);
      if DispositionAfter(w, log3, id, failure, usage).Rotate? {
        FailureRotates(w, log3, id, failure, usage);
      }
    }
  }

  lemma OnlyQuarantinesRotate(w: World, log: seq<Step>, id: SubId, failure: FailureClass, usage: Option<Usage>)
    ensures DispositionAfter(w, log, id, failure, usage).Rotate? ==> failure.Quarantines()
  {
  }

  lemma PassRotates(w: World, log: seq<Step>, id: SubId, pass: Pass)
    ensures var (after, verdict) := PassOf(w, log, id, pass);
            verdict.Some? && verdict.value.Rotate? ==> RotatedAfter(w, after, id, verdict.value.terminal)
  {
    hide RotatedAfter, DispositionAfter, Received;
    if pass.first.Reply? {
      if pass.first.status != 401 {
        ReceivedRotates(w, log, id, pass, pass.first, false);
      } else {
        var log1 := log + pass.beforeRefresh;
        match pass.refresh {
          case Refused(permanent) =>
            if DispositionAfter(w, log1, id, RefreshClass(permanent), None).Rotate? {
              FailureRotates(w, log1, id, RefreshClass(permanent), None);
            }
          case Fresh =>
            if pass.second.Reply? {
              ReceivedRotates(w, log1, id, pass, pass.second, true);
            }
        }
      }
    }
  }

  /** An attempt that asks for another sub has left its own quarantined, by its last step. */
  lemma AttemptRotates(w: World, id: SubId, inputs: Inputs)
    ensures var (log, outcome) := AttemptOf(w, id, inputs);
            outcome.Rotate? ==> RotatedAfter(w, log, id, outcome.terminal)
  {
    hide RotatedAfter, DispositionAfter, PassOf;
    if inputs.refresh.Refused? {
      if DispositionAfter(w, inputs.beforeRefresh, id, RefreshClass(inputs.refresh.permanent), None).Rotate? {
        FailureRotates(w, inputs.beforeRefresh, id, RefreshClass(inputs.refresh.permanent), None);
      }
    } else {
      PassRotates(w, inputs.beforeRefresh, id, inputs.pass0);
      var log0 := PassOf(w, inputs.beforeRefresh, id, inputs.pass0).0;
      PassRotates(w, log0, id, inputs.pass1);
    }
  }

  // ---- What spares a sub ----

  /** Recording a failure that does not quarantine leaves the router as it was. */
  lemma HarmlessFailure(w: World, log: seq<Step>, id: SubId, failure: FailureClass, usage: Option<Usage>)
    requires !failure.Quarantines()
    ensures Run(w, log + Own(Failed(id, failure, usage))).router == Run(w, log).router
  {
    hide Run;
    RunOwn(w, log, Failed(id, failure, usage));
  }

  /** A refresh that failed for now answers 502 and quarantines nothing; one refused for good quarantines its sub. */
  lemma RefusedRefreshSpares(w: World, log: seq<Step>, id: SubId, permanent: bool)
    ensures var (after, outcome) := RefusedRefresh(w, log, id, permanent);
            && (!permanent ==> outcome == Outcome.Fail(502) && Run(w, after).router == Run(w, log).router)
            && (permanent ==>
                  && id in Run(w, after).router.exhausted
                  && var switches := Run(w, log).router.settings.autoSwitch;
                     outcome == if switches then Outcome.Rotate(503) else Outcome.Fail(503))
  {
    hide Run, ExhaustUntil, EffectivePct;
    RunOwn(w, log, Failed(id, RefreshClass(permanent), None));
    if !permanent {
      HarmlessFailure(w, log, id, RefreshTransient, None);
    }
  }

  /** A failure about the request alone is answered with its own status, and burns no sub. */
  lemma BadRequestBurnsNoSub(w: World, log: seq<Step>, id: SubId, pass: Pass, reply: Reply, retried: bool)
    requires reply.Reply? && !(200 <= reply.status < 300) && RequestScopedReply(reply.status, reply.body)
    requires reply.limits.Some? ==> !IsExhausted(reply.limits.value)
    ensures var (after, verdict) := Received(w, log, id, pass, reply, retried);
            && verdict == Some(Done(reply.status))
            && Run(w, after).router == Run(w, log + pass.beforeReply + pass.beforeVerdict).router
  {
    hide Run, IsUsageLimitError, IsExhausted;
    HarmlessFailure(w, log + pass.beforeReply + pass.beforeVerdict, id, RequestScoped, None);
  }

  // ---- What each reply leads to ----

  predicate IsSuccess(reply: Reply) { reply.Reply? && 200 <= reply.status < 300 }

  /** This reply decides the pass: the first one, or the second after a 401 and a refresh that worked. */
  predicate Decides(pass: Pass, reply: Reply, retried: bool) {
    && reply.Reply? && pass.first.Reply?
    && (if retried then pass.first.status == 401 && pass.refresh.Fresh? && reply == pass.second
        else pass.first.status != 401 && reply == pass.first)
  }

  /** The body of the success that decided the pass died before a byte of it was handed on. */
  predicate Dies(pass: Pass) {
    && pass.body.Died?
    && ((Decides(pass, pass.first, false) && IsSuccess(pass.first))
        || (Decides(pass, pass.second, true) && IsSuccess(pass.second)))
  }

  /** The step a reply costs whose headers say that the sub is used up. */
  function Reported(id: SubId, reply: Reply): seq<Step>
    requires reply.Reply?
  {
    if reply.limits.Some? && UsedUp(reply.limits.value) then [Step(0, Exhausted(id, reply.limits))] else []
  }

  /** What others did until the deciding reply, and what its headers cost. */
  function UpToReply(id: SubId, pass: Pass, reply: Reply, retried: bool): seq<Step>
    requires reply.Reply?
  {
    (if retried then pass.beforeRefresh else []) + pass.beforeReply + Reported(id, reply)
  }

  /** Where a pass decided by this reply leaves the log. */
  lemma PassDecided(w: World, log: seq<Step>, id: SubId, pass: Pass, reply: Reply, retried: bool)
    requires Decides(pass, reply, retried)
    ensures PassOf(w, log, id, pass)
         == Received(w, if retried then log + pass.beforeRefresh else log, id, pass, reply, retried)
    ensures var seen := log + UpToReply(id, pass, reply, retried);
            IsSuccess(reply) ==>
              PassOf(w, log, id, pass)
              == (seen, if pass.body.Died? then None
                        else Some(Done(if pass.body.HandedOn? then reply.status
                                       else if pass.body.Aggregated? then 200 else 502)))
  {
    hide DispositionAfter, ClassOf, IsExhausted, UsedUp;
    if reply.limits.Some? {
      UsedUpByEither(reply.limits.value);
    }
    var waited := if retried then pass.beforeRefresh else [];
    var own := Reported(id, reply);
    assert log + (waited + pass.beforeReply + own) == log + waited + pass.beforeReply + own;
    assert log + [] == log && log + waited + pass.beforeReply + [] == log + waited + pass.beforeReply;
  }

  /**
   * A success is answered as its body was: handed on under its own status, as one response under 200, or under 502
   * when it held none. Nothing is recorded but what its headers say.
   */
  lemma SuccessAnswers(w: World, id: SubId, inputs: Inputs, reply: Reply, retried: bool)
    requires inputs.refresh.Fresh? && Decides(inputs.pass0, reply, retried) && IsSuccess(reply)
    requires !inputs.pass0.body.Died?
    ensures var (log, outcome) := AttemptOf(w, id, inputs);
            && log == inputs.beforeRefresh + UpToReply(id, inputs.pass0, reply, retried)
            && (inputs.pass0.body.HandedOn? ==> outcome == Done(reply.status))
            && (inputs.pass0.body.Aggregated? ==> outcome == Done(200))
            && (inputs.pass0.body.NoTerminal? ==> outcome == Done(502))
  {
    hide PassOf, Received, UpToReply;
    PassDecided(w, inputs.beforeRefresh, id, inputs.pass0, reply, retried);
  }

  /** A body that died has the exchange asked for once more, and only a second death ends it with 502. */
  lemma DeathAsksAgain(w: World, id: SubId, inputs: Inputs, reply: Reply, retried: bool)
    requires inputs.refresh.Fresh? && Decides(inputs.pass0, reply, retried) && Dies(inputs.pass0)
    ensures var seen := inputs.beforeRefresh + UpToReply(id, inputs.pass0, reply, retried);
            if Dies(inputs.pass1) then
              AttemptOf(w, id, inputs).1 == Outcome.Fail(502)
              && exists last, again :: Decides(inputs.pass1, last, again)
                   && AttemptOf(w, id, inputs).0 == seen + UpToReply(id, inputs.pass1, last, again)
            else AttemptOf(w, id, inputs) == AttemptOf(w, id, Inputs(Fresh, seen, inputs.pass1, inputs.pass1))
  {
    hide PassOf, Received, UpToReply;
    PassDecided(w, inputs.beforeRefresh, id, inputs.pass0, reply, retried);
    var seen := inputs.beforeRefresh + UpToReply(id, inputs.pass0, reply, retried);
    DiesIffNothing(w, seen, id, inputs.pass1);
    if Dies(inputs.pass1) {
      var again := inputs.pass1.first.status == 401;
      var last := if again then inputs.pass1.second else inputs.pass1.first;
      PassDecided(w, seen, id, inputs.pass1, last, again);
    }
  }

  lemma DiesIffNothing(w: World, log: seq<Step>, id: SubId, pass: Pass)
    ensures PassOf(w, log, id, pass).1 == None <==> Dies(pass)
  {
    hide DispositionAfter, ClassOf, IsExhausted, RefusedRefresh;
  }

  /**
   * A failure is recorded last, as what its reply says: a usage limit with its figures, a 401 that outlived the
   * refresh, or one about the request. The first two go on to another sub while switching is allowed; everything
   * else is answered with the reply's own status.
   */
  lemma FailureAnswers(w: World, id: SubId, inputs: Inputs, reply: Reply, retried: bool)
    requires inputs.refresh.Fresh? && Decides(inputs.pass0, reply, retried) && !IsSuccess(reply)
    ensures var (log, outcome) := AttemptOf(w, id, inputs);
            var limit := reply.status == 429 && IsUsageLimitBody(reply.body);
            var failure := if limit then UsageLimit else if reply.status == 401 then AuthPermanent else RequestScoped;
            var usage := if !limit then None else if reply.limits.Some? then reply.limits else inputs.pass0.usage;
            var seen := inputs.beforeRefresh + UpToReply(id, inputs.pass0, reply, retried) + inputs.pass0.beforeVerdict;
            && log == seen + [Step(0, Failed(id, failure, usage))]
            && (reply.status == 401 ==> retried)
            && outcome == (if (limit || reply.status == 401) && Run(w, seen).router.settings.autoSwitch
                           then Outcome.Rotate(if limit then 429 else 503)
                           else Done(reply.status))
  {
    hide PassOf, Received, UpToReply, IsUsageLimitBody;
    PassDecided(w, inputs.beforeRefresh, id, inputs.pass0, reply, retried);
    var log := if retried then inputs.beforeRefresh + inputs.pass0.beforeRefresh else inputs.beforeRefresh;
    FailureReceived(w, log, id, inputs.pass0, reply, retried);
    UpToReplyIs(inputs.beforeRefresh, id, inputs.pass0, reply, retried);
  }

  lemma UpToReplyIs(log: seq<Step>, id: SubId, pass: Pass, reply: Reply, retried: bool)
    requires reply.Reply?
    ensures log + UpToReply(id, pass, reply, retried)
         == (if retried then log + pass.beforeRefresh else log) + pass.beforeReply + Reported(id, reply)
  {
    hide Reported;
    assert log + [] == log;
  }

  lemma FailureReceived(w: World, log: seq<Step>, id: SubId, pass: Pass, reply: Reply, retried: bool)
    requires reply.Reply? && !IsSuccess(reply) && (reply.status == 401 ==> retried)
    ensures var limit := reply.status == 429 && IsUsageLimitBody(reply.body);
            var failure := if limit then UsageLimit else if reply.status == 401 then AuthPermanent else RequestScoped;
            var usage := if !limit then None else if reply.limits.Some? then reply.limits else pass.usage;
            var seen := log + pass.beforeReply + Reported(id, reply) + pass.beforeVerdict;
            Received(w, log, id, pass, reply, retried)
            == (seen + [Step(0, Failed(id, failure, usage))],
                Some(if (limit || reply.status == 401) && Run(w, seen).router.settings.autoSwitch
                     then Outcome.Rotate(if limit then 429 else 503)
                     else Done(reply.status)))
  {
    hide IsUsageLimitBody, IsExhausted, UsedUp, Run, ExhaustUntil, EffectivePct;
    ClassesSeen(reply, retried);
    if reply.limits.Some? {
      UsedUpByEither(reply.limits.value);
    }
    var log1 := log + pass.beforeReply;
    assert log1 + [] == log1;
  }

  /** Without a reply the attempt is over: 502, and no step of its own. */
  lemma NoReplyFails(w: World, id: SubId, inputs: Inputs)
    requires inputs.refresh.Fresh?
    ensures inputs.pass0.first.NoReply? ==> AttemptOf(w, id, inputs) == (inputs.beforeRefresh, Outcome.Fail(502))
    ensures var pass := inputs.pass0;
            pass.first.Reply? && pass.first.status == 401 && pass.refresh.Fresh? && pass.second.NoReply? ==>
              AttemptOf(w, id, inputs) == (inputs.beforeRefresh + pass.beforeRefresh, Outcome.Fail(502))
  {
    hide Received;
  }

  /** A refused refresh, before the first send or after a 401, is the last step of the attempt and ends it. */
  lemma RefusalEnds(w: World, id: SubId, inputs: Inputs, permanent: bool)
    requires || inputs.refresh == Refresh.Refused(permanent)
             || (inputs.refresh.Fresh? && inputs.pass0.first.Reply? && inputs.pass0.first.status == 401
                 && inputs.pass0.refresh == Refresh.Refused(permanent))
    ensures var (log, outcome) := AttemptOf(w, id, inputs);
            var seen := inputs.beforeRefresh + if inputs.refresh.Fresh? then inputs.pass0.beforeRefresh else [];
            && log == seen + [Step(0, Failed(id, if permanent then RefreshPermanent else RefreshTransient, None))]
            && outcome == (if !permanent then Outcome.Fail(502)
                           else if Run(w, seen).router.settings.autoSwitch then Outcome.Rotate(503)
                           else Outcome.Fail(503))
  {
    hide Run, ExhaustUntil, EffectivePct, Received;
    assert inputs.beforeRefresh + [] == inputs.beforeRefresh;
  }

  /** Nothing but its status is read off a 401 that is answered by a refresh. */
  lemma FirstReplyForgotten(w: World, id: SubId, inputs: Inputs, body: string, limits: Option<Usage>)
    requires inputs.pass0.first.Reply? && inputs.pass0.first.status == 401
    ensures AttemptOf(w, id, inputs)
         == AttemptOf(w, id, inputs.(pass0 := inputs.pass0.(first := Reply(401, body, limits))))
  {
    hide PassOf;
    OnlyStatusOf401(w, inputs.beforeRefresh, id, inputs.pass0, body, limits);
  }

  lemma OnlyStatusOf401(w: World, log: seq<Step>, id: SubId, pass: Pass, body: string, limits: Option<Usage>)
    requires pass.first.Reply? && pass.first.status == 401
    ensures PassOf(w, log, id, pass) == PassOf(w, log, id, pass.(first := Reply(401, body, limits)))
  {
    hide ClassOf, IsExhausted, RefusedRefresh, DispositionAfter;
  }
}
