/** What holds in every state that a run of the ValsSecret machine can reach: the
    finalizer protocol, the namespace policy and the rate of writes. */
module ValsSecretSafety {
  import opened Wrappers
  import opened Utils
  import opened Store
  import opened Assembly
  import opened ValsSecret
  import RefPattern

  // ---- the finalizer ----

  predicate PastGate(pc: Pc) {
    !(pc.Idle? || pc.AddingFinalizer? || pc.Finishing? || pc.ForgettingErrors? || pc.Deleting? || pc.RemovingFinalizer?)
  }

  ghost predicate CopyKnown(s: State) {
    match s.pc
    case Idle => true
    case AddingFinalizer(cr) => CopyOf(cr, s.w.crs) && !cr.deleting && FINALIZER !in cr.finalizers
    case Guarded(cr) => CopyOf(cr, s.w.crs)
    case Assembling(cr) => CopyOf(cr, s.w.crs)
    case CountingError(cr) => CopyOf(cr, s.w.crs)
    case BackingOff(cr) => CopyOf(cr, s.w.crs)
    case ForgettingErrors(cr) => CopyOf(cr, s.w.crs) && cr.deleting
    case Deleting(cr) => CopyOf(cr, s.w.crs) && cr.deleting
    case RemovingFinalizer(cr) => CopyOf(cr, s.w.crs) && cr.deleting && !s.w.ours
    case _ => true
  }

  ghost predicate FinalizerInv(s: State) {
    && Numbered(s.w.crs)
    && CopyKnown(s)
    && (PastGate(s.pc) ==> Held(s.w.crs, FINALIZER))
    && (s.w.ours ==> s.w.secret.Some? && Held(s.w.crs, FINALIZER))
  }

  lemma FinalizerAdded(s: State, fault: Fault)
    requires FinalizerInv(s) && s.pc.AddingFinalizer?
    ensures FinalizerInv(AddFinalizer(s.w, s.pc.cr, fault))
  {
    var finalizers := s.pc.cr.finalizers + [FINALIZER];
    assert finalizers[|s.pc.cr.finalizers|] == FINALIZER;
  }

  lemma FinalizerPastGate(cfg: Config, s: State, fault: Fault)
    requires FinalizerInv(s) && PastGate(s.pc)
    ensures FinalizerInv(Called(cfg, s.w, s.pc, fault))
  {
  }

  lemma FinalizerStep(cfg: Config, s: State, e: Event)
    requires FinalizerInv(s)
    ensures FinalizerInv(Apply(cfg, s, e))
  {
    if e.User? {
      ActKeeps(s.w.crs, e.act, FINALIZER);
    } else if e.Call? && s.pc.AddingFinalizer? {
      FinalizerAdded(s, e.fault);
    } else if e.Call? && PastGate(s.pc) {
      FinalizerPastGate(cfg, s, e.fault);
    }
  }

  /** Whatever other parties do between two calls, however calls fail and passes break
      off: a Secret that the operator wrote has its resource, with the finalizer on it. */
  lemma {:induction false} FinalizerGuardsSecret(cfg: Config, s: State, es: seq<Event>)
    requires Initial(s)
    ensures var w := Exec(cfg, s, es).w;
      w.ours ==> w.secret.Some? && w.crs.cr.Some? && FINALIZER in w.crs.cr.value.finalizers
    ensures FinalizerInv(Exec(cfg, s, es))
  {
    if es != [] {
      FinalizerGuardsSecret(cfg, s, es[..|es| - 1]);
      FinalizerStep(cfg, Exec(cfg, s, es[..|es| - 1]), es[|es| - 1]);
    }
  }

  /** The operator changes nothing of the resource but its own finalizer. */
  lemma OperatorTouchesOnlyItsFinalizer(cfg: Config, s: State, es: seq<Event>, e: Event)
    requires Initial(s)
    requires e.Call? || e.Crash? || e.Assemble?
    ensures TouchesOnly(FINALIZER, Exec(cfg, s, es).w.crs.cr, Exec(cfg, s, es + [e]).w.crs.cr)
  {
    assert (es + [e])[..|es|] == es;
    FinalizerGuardsSecret(cfg, s, es);
    OperatorStep(cfg, Exec(cfg, s, es), e);
  }

  lemma OperatorStep(cfg: Config, s: State, e: Event)
    requires FinalizerInv(s)
    requires e.Call? || e.Crash? || e.Assemble?
    ensures TouchesOnly(FINALIZER, s.w.crs.cr, Apply(cfg, s, e).w.crs.cr)
  {
    if e.Call? {
      match s.pc
      case AddingFinalizer(cr) =>
        WithoutConcat(cr.finalizers, [FINALIZER], FINALIZER);
        UpdateTouchesOnly(FINALIZER, s.w.crs, cr, cr.finalizers + [FINALIZER], e.fault);
      case RemovingFinalizer(cr) =>
        UpdateTouchesOnly(FINALIZER, s.w.crs, cr, Without(cr.finalizers, FINALIZER), e.fault);
      case BackingOff(cr) =>
        UpdateTouchesOnly(FINALIZER, s.w.crs, cr, cr.finalizers, e.fault);
      case _ =>
        assert Called(cfg, s.w, s.pc, e.fault).w.crs == s.w.crs;
    }
  }

  // ---- the namespace policy ----

  /** The pass has something to write. */
  predicate Writing(pc: Pc) {
    pc.Upserting? || pc.Stamping? || pc.Creating? || pc.Replacing?
  }

  predicate PolicyInv(cfg: Config, s: State) {
    Writing(s.pc) ==> forall k | k in s.pc.cr.spec.data :: !Denied(cfg.policy, cfg.namespace, s.pc.cr.spec.data[k].ref)
  }

  lemma PolicyAtAssembly(cfg: Config, s: State, sources: Sources)
    requires s.pc.Assembling?
    ensures PolicyInv(cfg, AssembleData(cfg, s.w, s.pc.cr, sources))
  {
    var spec := s.pc.cr.spec;
    if k :| k in spec.data && Denied(cfg.policy, cfg.namespace, spec.data[k].ref) {
      DeniedAssemblesNothing(cfg.policy, cfg.tools, cfg.namespace, spec.data, spec.template, sources, k);
    }
  }

  lemma PolicyStep(cfg: Config, s: State, e: Event)
    requires PolicyInv(cfg, s)
    ensures PolicyInv(cfg, Apply(cfg, s, e))
  {
    if e.Assemble? && s.pc.Assembling? {
      PolicyAtAssembly(cfg, s, e.sources);
    }
  }

  /** The event is the operator's writing of the Secret. */
  predicate WritesSecret(cfg: Config, s: State, e: Event) {
    |Apply(cfg, s, e).w.stamps| > |s.w.stamps|
  }

  /** No run reaches a write for a resource with a reference that the policy denies, so
      no event of such a pass writes the Secret. */
  lemma {:induction false} DeniedIsNeverWritten(cfg: Config, s: State, es: seq<Event>)
    requires Initial(s)
    ensures PolicyInv(cfg, Exec(cfg, s, es))
    ensures var t := Exec(cfg, s, es);
      forall e | WritesSecret(cfg, t, e) ::
        && Writing(t.pc)
        && forall k | k in t.pc.cr.spec.data :: !Denied(cfg.policy, cfg.namespace, t.pc.cr.spec.data[k].ref)
  {
    if es != [] {
      DeniedIsNeverWritten(cfg, s, es[..|es| - 1]);
      PolicyStep(cfg, Exec(cfg, s, es[..|es| - 1]), es[|es| - 1]);
    }
  }

  /** In terms of the flags: a pass that writes has references to other Secrets only in the
      own namespace if sync is disabled, and else, if there is a list, only there or in
      namespaces that the list maps to true. */
  lemma WritesKeepToTheFlags(cfg: Config, s: State, es: seq<Event>, e: Event, k: string)
    requires Initial(s) && WritesSecret(cfg, Exec(cfg, s, es), e)
    ensures Writing(Exec(cfg, s, es).pc)
    ensures var data := Exec(cfg, s, es).pc.cr.spec.data;
      k in data && "ref+k8s://" <= data[k].ref ==>
        && var found := RefPattern.Find(data[k].ref);
        && found.Some?
        && (cfg.policy.disabled ==> found.value.namespace == cfg.namespace)
        && (!cfg.policy.disabled && cfg.policy.allowed != map[] ==>
              || found.value.namespace == cfg.namespace
              || (found.value.namespace in cfg.policy.allowed && cfg.policy.allowed[found.value.namespace]))
  {
    DeniedIsNeverWritten(cfg, s, es);
    var data := Exec(cfg, s, es).pc.cr.spec.data;
    if k in data && "ref+k8s://" <= data[k].ref {
      assert !Denied(cfg.policy, cfg.namespace, data[k].ref);
      PolicyInFlags(cfg.policy, cfg.namespace, RefPattern.Find(data[k].ref).value.namespace);
    }
  }

  // ---- the rate of writes ----

  /** Nobody else edits the Secret, and the time to live stays the same. */
  predicate Steady(cfg: Config, ttl: int, e: Event) {
    match e
    case Outside(_) => false
    case User(Edit(_, _, _, spec)) => Lives(cfg, spec, ttl)
    case User(Create(_, _, _, spec)) => Lives(cfg, spec, ttl)
    case _ => true
  }

  /** The resource asks for this time to live, or for none, and then it is the default. */
  predicate Lives(cfg: Config, spec: Spec, ttl: int) {
    && (spec.ttl > 0 ==> ttl == spec.ttl)
    && (spec.ttl <= 0 ==> ttl == cfg.defaultTtl)
  }

  /** Without a stamp, or with one that does not parse, a Secret has always expired. */
  lemma UnstampedHasExpired(cfg: Config, spec: Spec, secret: Secret, now: real)
    requires At(secret.annotations, LastUpdated) == "" || cfg.parse(At(secret.annotations, LastUpdated)).None?
    ensures HasExpired(cfg, spec, secret, now)
  {
  }

  /** A Secret whose stamp is that second has expired if and only if one second more than
      the time to live has gone by. */
  lemma ExpiryInNumbers(cfg: Config, spec: Spec, secret: Secret, stamp: int, now: real, ttl: int)
    requires KeepsSeconds(cfg) && 0 <= stamp <= LAST && At(secret.annotations, LastUpdated) == cfg.format(stamp)
    requires Lives(cfg, spec, ttl) && ttl >= 0
    ensures HasExpired(cfg, spec, secret, now) <==> now >= (stamp + ttl + 1) as real
  {
    assert cfg.parse(cfg.format(stamp)) == Some(stamp);
  }

  /** The last second of the year 9999: the layout has four digits for the year. */
  const LAST: int := 253_402_300_799

  /** What was formatted can be parsed, to the second. */
  ghost predicate KeepsSeconds(cfg: Config) {
    forall t | 0 <= t <= LAST :: cfg.format(t) != "" && cfg.parse(cfg.format(t)) == Some(t)
  }

  /** A write is accepted at most `delay` after the time that is stamped on it. */
  predicate Prompt(delay: real, s: State, e: Event) {
    e.Call? && (s.pc.Creating? || s.pc.Replacing?) ==> s.w.now <= s.pc.stamp + delay
  }

  ghost predicate PromptRun(cfg: Config, delay: real, s: State, es: seq<Event>) {
    es != [] ==>
      && PromptRun(cfg, delay, s, es[..|es| - 1])
      && Prompt(delay, Exec(cfg, s, es[..|es| - 1]), es[|es| - 1])
  }

  /** Every write is accepted at its stamp or up to `delay` later. */
  predicate Accepted(w: World, delay: real) {
    && |w.writes| == |w.stamps|
    && forall i | 0 <= i < |w.stamps| :: w.stamps[i] <= w.writes[i] <= w.stamps[i] + delay
  }

  predicate Past(w: World, stamp: real) {
    0.0 <= stamp <= w.now
  }

  predicate TtlKnown(cfg: Config, ttl: int, s: State) {
    && (s.w.crs.cr.Some? ==> Lives(cfg, s.w.crs.cr.value.spec, ttl))
    && (!s.pc.Idle? && !s.pc.Finishing? ==> Lives(cfg, s.pc.cr.spec, ttl))
  }

  predicate Spaced(stamps: seq<real>, ttl: int) {
    forall i | 0 < i < |stamps| :: stamps[i] > stamps[i - 1] + ttl as real
  }

  /** A write at that time would keep the distance. */
  predicate Due(w: World, ttl: int, time: real) {
    w.secret.Some? ==> w.stamps != [] && time > w.stamps[|w.stamps| - 1] + ttl as real
  }

  predicate StampedAs(cfg: Config, secret: Secret, stamp: real) {
    At(secret.annotations, LastUpdated) == cfg.format(stamp.Floor)
  }

  predicate RateInv(cfg: Config, ttl: int, s: State) {
    && TtlKnown(cfg, ttl, s)
    && Spaced(s.w.stamps, ttl)
    && (s.w.secret.None? <==> s.w.stamps == [])
    && (s.w.secret.Some? ==> StampedAs(cfg, s.w.secret.value, s.w.stamps[|s.w.stamps| - 1]))
    && (s.pc.Assembling? || s.pc.Upserting? || s.pc.Stamping? ==> Due(s.w, ttl, s.w.now))
    && (s.pc.Creating? || s.pc.Replacing? ==> Due(s.w, ttl, s.pc.stamp) && StampedAs(cfg, s.pc.obj, s.pc.stamp))
  }

  /** No time stamp is in the future. */
  predicate ClockInv(s: State) {
    && 0.0 <= s.w.now
    && (s.w.stamps != [] ==> Past(s.w, s.w.stamps[|s.w.stamps| - 1]))
    && (s.pc.Creating? || s.pc.Replacing? ==> Past(s.w, s.pc.stamp))
  }

  lemma ClockStep(cfg: Config, s: State, e: Event)
    requires ClockInv(s)
    ensures ClockInv(Apply(cfg, s, e)) && s.w.now <= Apply(cfg, s, e).w.now
  {
  }

  /** The seconds that were cut off the stamp do not let a write through early. */
  lemma RateAtGate(cfg: Config, ttl: int, s: State)
    requires RateInv(cfg, ttl, s) && KeepsSeconds(cfg) && ttl >= 0 && s.pc.Guarded?
    requires ClockInv(s) && s.w.now.Floor <= LAST
    ensures RateInv(cfg, ttl, CheckAge(cfg, s.w, s.pc.cr))
  {
    if s.w.secret.Some? && HasExpired(cfg, s.pc.cr.spec, s.w.secret.value, s.w.now) {
      var stamp := s.w.stamps[|s.w.stamps| - 1];
      var age := s.w.now - stamp.Floor as real;
      assert Past(s.w, stamp);
      assert cfg.parse(At(s.w.secret.value.annotations, LastUpdated)) == Some(stamp.Floor);
      assert age.Floor >= ttl + 1;
    }
  }

  lemma RateAtWrite(cfg: Config, ttl: int, s: State, fault: Fault)
    requires RateInv(cfg, ttl, s)
    ensures s.pc.Creating? ==> RateInv(cfg, ttl, WriteNew(s.w, s.pc.cr, s.pc.obj, s.pc.stamp, fault))
    ensures s.pc.Replacing? ==> RateInv(cfg, ttl, WriteOver(s.w, s.pc.obj, s.pc.stamp, fault))
  {
  }

  lemma RateAtStamp(cfg: Config, ttl: int, s: State)
    requires RateInv(cfg, ttl, s) && s.pc.Stamping?
    ensures var obj := Upserted(cfg, s.pc.cr, s.pc.data, s.pc.cur, s.w.now.Floor);
      RateInv(cfg, ttl, State(s.w, Creating(s.pc.cr, obj, s.w.now)))
  {
  }

  lemma RateBetweenCalls(cfg: Config, ttl: int, s: State, e: Event)
    requires RateInv(cfg, ttl, s) && Steady(cfg, ttl, e) && !e.Call?
    ensures RateInv(cfg, ttl, Apply(cfg, s, e))
  {
  }

  lemma RateAtResource(cfg: Config, ttl: int, s: State, fault: Fault)
    requires RateInv(cfg, ttl, s)
    ensures s.pc.AddingFinalizer? ==> RateInv(cfg, ttl, AddFinalizer(s.w, s.pc.cr, fault))
    ensures s.pc.BackingOff? ==> RateInv(cfg, ttl, BackOff(s.w, s.pc.cr, fault))
    ensures s.pc.RemovingFinalizer? ==> RateInv(cfg, ttl, RemoveFinalizer(s.w, s.pc.cr, fault))
  {
  }

  lemma RateAtRead(cfg: Config, ttl: int, s: State, fault: Fault)
    requires RateInv(cfg, ttl, s) && s.pc.Idle?
    ensures RateInv(cfg, ttl, Called(cfg, s.w, s.pc, fault))
  {
  }

  lemma RateAtCounter(cfg: Config, ttl: int, s: State, fault: Fault)
    requires RateInv(cfg, ttl, s)
    requires s.pc.Assembling? || s.pc.CountingError? || s.pc.Finishing? || s.pc.ForgettingErrors?
    ensures RateInv(cfg, ttl, Called(cfg, s.w, s.pc, fault))
  {
  }

  lemma RateAtSecret(cfg: Config, ttl: int, s: State, fault: Fault)
    requires RateInv(cfg, ttl, s)
    ensures s.pc.Upserting? ==> RateInv(cfg, ttl, CheckUpdate(s.w, s.pc.cr, s.pc.data))
    ensures s.pc.Deleting? ==> RateInv(cfg, ttl, Remove(s.w, s.pc.cr, fault))
  {
  }

  lemma RateCall(cfg: Config, ttl: int, s: State, fault: Fault)
    requires RateInv(cfg, ttl, s) && KeepsSeconds(cfg) && ttl >= 0 && ClockInv(s) && s.w.now.Floor <= LAST
    ensures RateInv(cfg, ttl, Called(cfg, s.w, s.pc, fault))
  {
    if s.pc.Guarded? {
      RateAtGate(cfg, ttl, s);
    } else if s.pc.Stamping? {
      RateAtStamp(cfg, ttl, s);
    } else if s.pc.Creating? || s.pc.Replacing? {
      RateAtWrite(cfg, ttl, s, fault);
    } else if s.pc.Upserting? || s.pc.Deleting? {
      RateAtSecret(cfg, ttl, s, fault);
    } else if s.pc.Idle? {
      RateAtRead(cfg, ttl, s, fault);
    } else if s.pc.AddingFinalizer? || s.pc.BackingOff? || s.pc.RemovingFinalizer? {
      RateAtResource(cfg, ttl, s, fault);
    } else {
      RateAtCounter(cfg, ttl, s, fault);
    }
  }

  lemma RateStep(cfg: Config, ttl: int, s: State, e: Event)
    requires RateInv(cfg, ttl, s) && KeepsSeconds(cfg) && ttl >= 0 && Steady(cfg, ttl, e)
    requires ClockInv(s) && s.w.now.Floor <= LAST
    ensures RateInv(cfg, ttl, Apply(cfg, s, e))
  {
    if !e.Call? {
      RateBetweenCalls(cfg, ttl, s, e);
    } else {
      RateCall(cfg, ttl, s, e.fault);
    }
  }

  lemma {:induction false} ClockRun(cfg: Config, s: State, es: seq<Event>)
    requires ClockInv(s)
    ensures ClockInv(Exec(cfg, s, es))
    ensures es != [] ==> Exec(cfg, s, es[..|es| - 1]).w.now <= Exec(cfg, s, es).w.now
  {
    if es != [] {
      ClockRun(cfg, s, es[..|es| - 1]);
      ClockStep(cfg, Exec(cfg, s, es[..|es| - 1]), es[|es| - 1]);
    }
  }

  lemma {:induction false} StampsAreSpaced(cfg: Config, ttl: int, s: State, es: seq<Event>)
    requires Initial(s) && KeepsSeconds(cfg) && ttl >= 0
    requires forall i :: 0 <= i < |es| ==> Steady(cfg, ttl, es[i])
    requires 0.0 <= s.w.now && Exec(cfg, s, es).w.now.Floor <= LAST
    ensures RateInv(cfg, ttl, Exec(cfg, s, es))
  {
    if es != [] {
      var before, e := es[..|es| - 1], es[|es| - 1];
      ClockRun(cfg, s, es);
      ClockRun(cfg, s, before);
      StampsAreSpaced(cfg, ttl, s, before);
      RateStep(cfg, ttl, Exec(cfg, s, before), e);
    }
  }

  lemma AcceptedStep(cfg: Config, delay: real, s: State, e: Event)
    requires Accepted(s.w, delay) && Prompt(delay, s, e)
    requires s.pc.Creating? || s.pc.Replacing? ==> s.pc.stamp <= s.w.now
    ensures Accepted(Apply(cfg, s, e).w, delay)
  {
    if e.Call? && s.pc.Creating? {
      AcceptedWrite(s.w, s.pc.stamp, delay);
    } else if e.Call? && s.pc.Replacing? {
      AcceptedWrite(s.w, s.pc.stamp, delay);
    }
  }

  lemma AcceptedWrite(w: World, stamp: real, delay: real)
    requires Accepted(w, delay) && stamp <= w.now <= stamp + delay
    ensures forall secret :: Accepted(Stored(w, secret, stamp), delay)
  {
  }

  lemma {:induction false} WritesAreAccepted(cfg: Config, delay: real, s: State, es: seq<Event>)
    requires Initial(s) && 0.0 <= s.w.now
    requires PromptRun(cfg, delay, s, es)
    ensures Accepted(Exec(cfg, s, es).w, delay)
  {
    if es != [] {
      var before, e := es[..|es| - 1], es[|es| - 1];
      ClockRun(cfg, s, before);
      WritesAreAccepted(cfg, delay, s, before);
      AcceptedStep(cfg, delay, Exec(cfg, s, before), e);
    }
  }

  /** The time stamps of a Secret's writes are more than the time to live apart, and its
      writes themselves no more than the delay short of that, however many there are and
      whatever fails between them. */
  lemma WritesAreSpaced(cfg: Config, ttl: int, delay: real, s: State, es: seq<Event>)
    requires Initial(s) && KeepsSeconds(cfg) && ttl >= 0
    requires forall i :: 0 <= i < |es| ==> Steady(cfg, ttl, es[i])
    requires 0.0 <= s.w.now && Exec(cfg, s, es).w.now.Floor <= LAST
    requires PromptRun(cfg, delay, s, es)
    ensures var stamps := Exec(cfg, s, es).w.stamps;
      forall i | 0 < i < |stamps| ::
        && stamps[i] > stamps[i - 1] + ttl as real
        && stamps[i] > stamps[0] + (i * ttl) as real
    ensures var writes := Exec(cfg, s, es).w.writes;
      && |writes| == |Exec(cfg, s, es).w.stamps|
      && forall i | 0 < i < |writes| ::
        && writes[i] > writes[i - 1] + ttl as real - delay
        && writes[i] > writes[0] + (i * ttl) as real - delay
  {
    StampsAreSpaced(cfg, ttl, s, es);
    WritesAreAccepted(cfg, delay, s, es);
    var w := Exec(cfg, s, es).w;
    forall i | 0 < i < |w.stamps|
      ensures w.stamps[i] > w.stamps[0] + (i * ttl) as real
    {
      SpacedAddsUp(w.stamps, ttl, i);
    }
    WritesFollowStamps(w, ttl, delay);
  }

  lemma WritesFollowStamps(w: World, ttl: int, delay: real)
    requires Accepted(w, delay) && Spaced(w.stamps, ttl)
    requires forall i | 0 < i < |w.stamps| :: w.stamps[i] > w.stamps[0] + (i * ttl) as real
    ensures forall i | 0 < i < |w.writes| ::
      && w.writes[i] > w.writes[i - 1] + ttl as real - delay
      && w.writes[i] > w.writes[0] + (i * ttl) as real - delay
  {
    forall i | 0 < i < |w.writes|
      ensures w.writes[i] > w.writes[i - 1] + ttl as real - delay
      ensures w.writes[i] > w.writes[0] + (i * ttl) as real - delay
    {
      assert w.stamps[i] > w.stamps[i - 1] + ttl as real && w.stamps[i] <= w.writes[i];
      assert w.writes[i - 1] <= w.stamps[i - 1] + delay && w.writes[0] <= w.stamps[0] + delay;
    }
  }

  lemma {:induction false} SpacedAddsUp(stamps: seq<real>, ttl: int, i: nat)
    requires Spaced(stamps, ttl) && 0 < i < |stamps|
    ensures stamps[i] > stamps[0] + (i * ttl) as real
  {
    if i > 1 {
      SpacedAddsUp(stamps, ttl, i - 1);
      assert i * ttl == (i - 1) * ttl + ttl;
    }
  }

  // ---- passes that nothing repeats ----

  /** The resource is gone or excluded. */
  predicate NothingToDo(cfg: Config, w: World, pc: Pc, fault: Fault) {
    pc.Idle? && fault.Sound? && (w.crs.cr.None? || cfg.excluded)
  }

  /** The resource is being deleted, and there is nothing left to do, or it is done. */
  predicate Retired(w: World, pc: Pc, fault: Fault) {
    || pc.ForgettingErrors?
    || (pc.RemovingFinalizer? &&
        UpdateCr(w.crs, pc.cr.(finalizers := Without(pc.cr.finalizers, FINALIZER)), fault).1.Some?)
  }

  predicate NotDue(cfg: Config, w: World, pc: Pc, fault: Fault) {
    && pc.Guarded? && fault.Sound? && w.secret.Some?
    && !HasExpired(cfg, pc.cr.spec, w.secret.value, w.now)
  }

  /** `upsertSecret` failed: its read, or its write as far as the operator knows. */
  predicate Unsaved(pc: Pc) {
    pc.Upserting? || pc.Creating? || pc.Replacing?
  }

  /** A pass ends with neither an error nor a wish to come again if and only if the resource
      is gone, excluded or being deleted, or its Secret could not be stored; the failure is
      not counted either. It asks to come again after the period if and only if the Secret
      is not due, or all is done and the failures are forgotten. */
  lemma SilentEnd(cfg: Config, w: World, pc: Pc, fault: Fault, delay: int)
    requires Called(cfg, w, pc, fault).pc.Idle?
    ensures ResultOf(w, pc, fault, delay) == SILENT
       <==> NothingToDo(cfg, w, pc, fault) || Retired(w, pc, fault) || Unsaved(pc)
    ensures Unsaved(pc) ==> Called(cfg, w, pc, fault).w.failures == w.failures
    ensures ResultOf(w, pc, fault, delay).requeue.Period? <==> pc.Finishing? || NotDue(cfg, w, pc, fault)
    ensures pc.Finishing? ==> Called(cfg, w, pc, fault).w.failures == 0
  {
  }
}
