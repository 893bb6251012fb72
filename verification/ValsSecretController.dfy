/** `ValsSecretReconciler` of controllers/valssecret_controller.go. Other parties act
    before every call, and every call may fail; whatever happens, a pass is a part of a
    run of the machine in `ValsSecret`, so all that is proved of runs holds of it. */
module ValsSecretController {
  import opened Wrappers
  import opened Utils
  import opened Store
  import opened Assembly
  import opened ValsSecret
  import Backoff
  import Decimal
  import ErrorCounts
  import RefPattern

  lemma ExecExtended(cfg: Config, s: State, es: seq<Event>, e: Event)
    ensures Exec(cfg, s, es + [e]) == Apply(cfg, Exec(cfg, s, es), e)
  {
    assert (es + [e])[..|es|] == es;
  }

  /** The events lead to this state, none of them breaks a pass off, and `latest` is the
      last one with the state that it met. */
  ghost predicate Ran(cfg: Config, start: State, events: seq<Event>, s: State, latest: (State, Event)) {
    && Exec(cfg, start, events) == s
    && (forall i :: 0 <= i < |events| ==> !events[i].Crash?)
    && (events != [] ==> latest == (Exec(cfg, start, events[..|events| - 1]), events[|events| - 1]))
  }

  lemma RanOn(cfg: Config, start: State, events: seq<Event>, s: State, latest: (State, Event), e: Event, t: State)
    requires Ran(cfg, start, events, s, latest) && !e.Crash? && Apply(cfg, s, e) == t
    ensures Ran(cfg, start, events + [e], t, (s, e))
  {
    ExecExtended(cfg, start, events, e);
    assert (events + [e])[..|events|] == events;
  }

  /** A Secret in the operator's memory, which its functions change before it is sent. */
  class SecretCopy {
    var data: map<string, string>
    var labels: Meta
    var annotations: Meta

    function Value(): Secret
      reads this
    {
      SecretObj(data, labels, annotations)
    }

    constructor (secret: Secret)
      ensures Value() == secret
    {
      data, labels, annotations := secret.data, secret.labels, secret.annotations;
    }
  }

  class ValsSecretReconciler {
    const cfg: Config
    const name: string
    const counter: ErrorCounts.ErrorCounter

    /** The cluster, which the operator reaches only through calls. */
    var w: World

    /** The Secrets read for references. */
    var consulted: set<RefPattern.Ref>

    ghost const start: State
    ghost var pc: Pc
    ghost var events: seq<Event>

    /** The last event, and the state that it met. */
    ghost var latest: (State, Event)

    /** What has happened so far is a run of the machine in which no pass was broken off. */
    ghost predicate Running()
      reads this
    {
      Ran(cfg, start, events, State(w, pc), latest)
    }

    /** The last event was the last call of a pass, which reports this. */
    ghost predicate Ended(result: Result)
      reads this
    {
      && events != [] && latest.1.Call? && pc.Idle?
      && result == ResultOf(latest.0.w, latest.0.pc, latest.1.fault,
                            if result.requeue.After? then result.requeue.delay else 0)
    }

    /** Besides, the counter of this object is the machine's. With namespace sync disabled,
        all Secrets ever read are in the namespace of the resource; else, with a list, they
        are there or in a namespace that the list maps to true. */
    ghost predicate Valid()
      reads this, counter
    {
      && Running()
      && counter.Valid() && '/' !in cfg.namespace
      && ErrorCounts.FailuresSince(counter.history, cfg.namespace, name) == w.failures
      && (cfg.policy.disabled ==> forall ref | ref in consulted :: ref.namespace == cfg.namespace)
      && (!cfg.policy.disabled && cfg.policy.allowed != map[] ==>
            forall ref | ref in consulted ::
              || ref.namespace == cfg.namespace
              || (ref.namespace in cfg.policy.allowed && cfg.policy.allowed[ref.namespace]))
    }

    constructor (cfg: Config, name: string, w: World)
      requires '/' !in cfg.namespace && w.failures == 0
      ensures Valid() && pc.Idle? && events == [] && this.cfg == cfg && this.w == w
      ensures start == State(w, Idle) && fresh(counter)
    {
      var c := new ErrorCounts.ErrorCounter();
      this.cfg, this.name, this.w := cfg, name, w;
      counter := c;
      consulted := {};
      start, pc, events := State(w, Idle), Idle, [];
      latest := (State(w, Idle), Tick(0.0));
    }

    /** For steps that leave the counter alone. */
    method Take(ghost e: Event, next: World, ghost to: Pc)
      requires Valid() && !e.Crash?
      requires Apply(cfg, State(w, pc), e) == State(next, to)
      requires next.failures == w.failures
      modifies this`w, this`pc, this`events, this`latest
      ensures Valid() && w == next && pc == to && events == old(events) + [e]
      ensures latest == (old(State(w, pc)), e)
    {
      Step(e, next, to);
    }

    /** Time passes, and other parties do what they like; so do the passes over other
        objects with the shared counters. */
    method Meanwhile()
      requires Valid()
      modifies this`w, this`pc, this`events, this`latest, counter
      ensures Valid() && pc == old(pc) && old(events) <= events && Kept(old(w), w)
    {
      var steps: nat := *;
      while steps > 0
        invariant Valid() && pc == old(pc) && old(events) <= events && Kept(old(w), w)
        decreases steps
      {
        var dt: real, act: UserAct<Spec>, secret: Option<Secret>, which: int := *, *, *, *;
        if which == 0 {
          Take(Tick(dt), w.(now := w.now + if dt > 0.0 then dt else 0.0), pc);
        } else if which == 1 {
          Take(User(act), w.(crs := Act(w.crs, act, FINALIZER)), pc);
        } else if which == 2 {
          Take(Outside(secret), w.(secret := secret, ours := w.ours && secret.Some?), pc);
        } else {
          OtherObject();
        }
        steps := steps - 1;
      }
    }

    predicate Kept(before: World, after: World) {
      after == before.(now := after.now, crs := after.crs, secret := after.secret, ours := after.ours)
    }

    method OtherObject()
      requires Valid()
      modifies counter
      ensures Valid()
    {
      var namespace: string, other: string, failed: bool := *, *, *;
      if '/' !in namespace && (namespace != cfg.namespace || other != name) {
        if failed {
          ErrorCounts.Extended(counter.history, ErrorCounts.Failed(namespace, other));
          var count := counter.Inc(namespace, other);
        } else {
          ErrorCounts.Extended(counter.history, ErrorCounts.Cleared(namespace, other));
          counter.Clear(namespace, other);
        }
      }
    }

    method IncErrorCount() returns (count: int)
      requires Valid() && pc.CountingError?
      modifies this`w, this`pc, this`events, this`latest, counter
      ensures Valid() && old(events) <= events
      ensures pc == BackingOff(old(pc).cr)
      ensures count == w.failures == old(w.failures) + 1
    {
      count := counter.Inc(cfg.namespace, name);
      Step(Call(Sound), w.(failures := w.failures + 1), BackingOff(pc.cr));
    }

    method ClearErrorCount()
      requires Valid() && (pc.ForgettingErrors? || pc.Finishing?)
      modifies this`w, this`pc, this`events, this`latest, counter
      ensures Valid() && old(events) <= events && w.failures == 0
      ensures if old(pc).Finishing? then Ended(Result(false, Period)) else pc == ForgetErrors(w, old(pc).cr).pc
      ensures old(pc).ForgettingErrors? && pc.Idle? ==> Ended(SILENT)
    {
      counter.Clear(cfg.namespace, name);
      Step(Call(Sound), w.(failures := 0), if pc.Finishing? then Idle else ForgetErrors(w, pc.cr).pc);
    }

    /** The machine's part of a step. */
    method Step(ghost e: Event, next: World, ghost to: Pc)
      requires Running() && !e.Crash?
      requires Apply(cfg, State(w, pc), e) == State(next, to)
      modifies this`w, this`pc, this`events, this`latest
      ensures w == next && pc == to && events == old(events) + [e]
      ensures latest == (old(State(w, pc)), e)
      ensures Running()
    {
      ghost var met := State(w, pc);
      RanOn(cfg, start, events, met, latest, e, State(next, to));
      w, pc, events, latest := next, to, events + [e], (met, e);
    }

    /** A pass goes on to restart workloads exactly if it has written the Secret. */
    predicate Recorded(before: World, after: World, written: bool) {
      && after.failures == before.failures
      && after.rollouts == before.rollouts + if written then 1 else 0
    }

    // ---- calls to the API server ----

    method GetCr() returns (ok: bool, got: Option<ValsCr>)
      requires Valid() && pc.Idle?
      modifies this`w, this`pc, this`events, this`latest, counter
      ensures Valid() && old(events) < events
      ensures got.Some? ==> ok
      ensures w.failures == old(w.failures)
      ensures if got.Some? && !cfg.excluded then pc == AfterRead(w, got.value).pc else Ended(Result(!ok, Never))
    {
      Meanwhile();
      var fault: Fault := *;
      ok := fault.Sound?;
      got := if ok then w.crs.cr else None;
      Take(Call(fault), w, if got.Some? && !cfg.excluded then AfterRead(w, got.value).pc else Idle);
    }

    method SubmitCr(copy: ValsCr) returns (stored: Option<ValsCr>)
      requires Valid()
      requires match pc
               case AddingFinalizer(cr) => copy == cr.(finalizers := cr.finalizers + [FINALIZER])
               case RemovingFinalizer(cr) => copy == cr.(finalizers := Without(cr.finalizers, FINALIZER))
               case BackingOff(cr) => copy == cr
               case _ => false
      modifies this`w, this`pc, this`events, this`latest, counter
      ensures Valid() && old(events) <= events
      ensures pc == if stored.Some? && old(pc).AddingFinalizer? then Guarded(stored.value) else Idle
      ensures pc.Idle? && !old(pc).BackingOff? ==> Ended(Result(stored.None?, Never))
      ensures old(pc).BackingOff? ==> forall delay :: Ended(Result(false, Requeue.After(delay)))
      ensures w.failures == old(w.failures)
      ensures stored.Some? ==> (Held(w.crs, FINALIZER) <==> FINALIZER in copy.finalizers)
    {
      Meanwhile();
      var fault: Fault := *;
      var (crs, reply) := UpdateCr(w.crs, copy, fault);
      stored := reply;
      Take(Call(fault), w.(crs := crs), if stored.Some? && pc.AddingFinalizer? then Guarded(stored.value) else Idle);
    }

    method GetSecret() returns (ok: bool, secret: Option<Secret>)
      requires Valid()
      modifies this`w, this`pc, this`events, this`latest, counter
      ensures Valid() && pc == old(pc) && old(events) <= events
      ensures secret == w.secret && Kept(old(w), w)
    {
      Meanwhile();
      ok, secret := *, w.secret;
    }

    method Create(cr: ValsCr, obj: Secret, stamp: real) returns (reply: Reply)
      requires Valid() && pc == Creating(cr, obj, stamp)
      modifies this`w, this`pc, this`events, this`latest, counter
      ensures Valid() && old(events) <= events
      ensures match reply
              case Done => pc.Finishing?
              case AlreadyExists => pc == Replacing(cr, obj, stamp)
              case _ => Ended(SILENT)
      ensures Recorded(old(w), w, reply.Done?)
    {
      Meanwhile();
      var fault: Fault := *;
      reply := CreateSecret(w.secret, obj, fault).1;
      var next := WriteNew(w, cr, obj, stamp, fault);
      Take(Call(fault), next.w, next.pc);
    }

    method Update(cr: ValsCr, obj: Secret, stamp: real) returns (reply: Reply)
      requires Valid() && pc == Replacing(cr, obj, stamp)
      modifies this`w, this`pc, this`events, this`latest, counter
      ensures Valid() && old(events) <= events
      ensures if reply.Done? then pc.Finishing? else Ended(SILENT)
      ensures Recorded(old(w), w, reply.Done?)
    {
      Meanwhile();
      var fault: Fault := *;
      reply := UpdateSecret(w.secret, obj, fault).1;
      var next := WriteOver(w, obj, stamp, fault);
      Take(Call(fault), next.w, next.pc);
    }

    method Delete(cr: ValsCr) returns (ok: bool)
      requires Valid() && pc == Deleting(cr)
      modifies this`w, this`pc, this`events, this`latest, counter
      ensures Valid() && old(events) <= events
      ensures if ok then pc == RemovingFinalizer(cr) else Ended(Result(true, Never))
      ensures w.failures == old(w.failures)
    {
      Meanwhile();
      var fault: Fault := *;
      ok := !DeleteSecret(w.secret, fault).1.Failed?;
      var next := Remove(w, cr, fault);
      Take(Call(fault), next.w, next.pc);
    }

    // ---- the reconciler ----

    /** A delay is that of one more failure; the period goes with a Secret that is not
        due, or with no failures; an error leaves the failures alone or has none. */
    predicate Accounted(result: Result, failures: nat, random: real)
      reads this
    {
      match result.requeue
      case After(delay) =>
        && !result.error && w.failures == failures + 1
        && delay == Backoff.Jittered(Backoff.Delay(w.failures), random)
      case Period => !result.error && (w.failures == failures || w.failures == 0)
      case Never => w.failures == failures || w.failures == 0
    }

    method IsNamespaceSyncAllowed(target: string) returns (ok: bool)
      ensures ok <==> Allowed(cfg.policy, cfg.namespace, target)
      ensures cfg.policy.disabled ==> (ok <==> target == cfg.namespace)
      ensures !cfg.policy.disabled && cfg.policy.allowed != map[] ==>
        (ok <==> target == cfg.namespace || (target in cfg.policy.allowed && cfg.policy.allowed[target]))
      ensures !cfg.policy.disabled && cfg.policy.allowed == map[] ==> ok
    {
      PolicyInFlags(cfg.policy, cfg.namespace, target);
      if target == cfg.namespace {
        return true;
      }
      if cfg.policy.disabled {
        return false;
      }
      if |cfg.policy.allowed| > 0 && !(target in cfg.policy.allowed && cfg.policy.allowed[target]) {
        return false;
      }
      return true;
    }

    /** No Secret is read before the policy has allowed it. */
    method GetKeyFromK8sSecret(ref: string, sources: Sources) returns (value: Option<string>)
      requires Valid() && IsSecretRef(ref)
      modifies this`consulted
      ensures Valid()
      ensures value == Resolve(cfg.policy, cfg.namespace, sources, ref)
      ensures consulted == if Denied(cfg.policy, cfg.namespace, ref) then old(consulted)
                           else old(consulted) + {RefPattern.Find(ref).value}
      ensures var found := RefPattern.Find(ref);
        found.Some? ==>
        (found.value.namespace == cfg.namespace || (!cfg.policy.disabled && cfg.policy.allowed == map[])) ==>
          found.value in consulted && value == sources.fetch(found.value)
    {
      var found := RefPattern.Find(ref);
      if found.None? {
        return None;
      }
      var allowed := IsNamespaceSyncAllowed(found.value.namespace);
      if !allowed {
        return None;
      }
      consulted := consulted + {found.value};
      value := sources.fetch(found.value);
    }

    /** The loop over the references. */
    method ResolveAll(data: map<string, Source>, sources: Sources) returns (r: Option<map<string, string>>)
      requires Valid()
      modifies this`consulted
      ensures Valid()
      ensures r == if AllResolve(cfg.policy, cfg.namespace, sources, data)
                   then Some(Resolved(cfg.policy, cfg.namespace, sources, data)) else None
    {
      var resolved := map[];
      var keys := data.Keys;
      while keys != {}
        invariant Valid()
        invariant keys <= data.Keys
        invariant resolved.Keys == data.Keys - keys
        invariant forall k | k in resolved ::
          Resolve(cfg.policy, cfg.namespace, sources, data[k].ref) == Some(resolved[k])
        decreases |keys|
      {
        var k :| k in keys;
        keys := keys - {k};
        var ref := data[k].ref;
        if IsSecretRef(ref) {
          var value := GetKeyFromK8sSecret(ref, sources);
          if value.None? {
            return None;
          }
          resolved := resolved[k := value.value];
        } else {
          resolved := resolved[k := ref];
        }
      }
      assert resolved == Resolved(cfg.policy, cfg.namespace, sources, data);
      r := Some(resolved);
    }

    method Assemble(spec: Spec, sources: Sources) returns (r: Option<map<string, string>>)
      requires Valid()
      modifies this`consulted
      ensures Valid()
      ensures r == Assembled(cfg.policy, cfg.tools, cfg.namespace, spec.data, spec.template, sources)
    {
      var secretYaml := ResolveAll(spec.data, sources);
      if secretYaml.None? {
        return None;
      }
      var valsRendered := sources.eval(secretYaml.value);
      if valsRendered.None? {
        return None;
      }
      var decoded := DecodeAll(cfg.tools, spec.data, valsRendered.value);
      if decoded.None? {
        return None;
      }
      var data := RenderAll(cfg.tools, spec.template, decoded.value);
      r := Some(data);
    }

    method HasSecretExpired(spec: Spec, secret: Secret, now: real) returns (expired: bool)
      ensures expired <==> HasExpired(cfg, spec, secret, now)
    {
      var ttl := spec.ttl;
      if ttl <= 0 {
        ttl := cfg.defaultTtl;
      }
      var lastUpdated := At(secret.annotations, LastUpdated);
      if lastUpdated == "" {
        return true;
      }
      var s := cfg.parse(lastUpdated);
      if s.None? {
        return true;
      }
      if Truncate(now - s.value as real) > ttl {
        return true;
      }
      return false;
    }

    method SecretNeedsUpdate(cr: ValsCr, secret: Option<Secret>, data: map<string, string>) returns (needed: bool)
      ensures needed <==> NeedsUpdate(cr, secret, data)
    {
      if secret.None? {
        return true;
      }
      var sameData := ByteMapsMatch(secret.value.data, data);
      if !sameData {
        return true;
      }
      var annotations, labels := [LastApplied, LastUpdated], [ManagedBy];
      assert (set k | k in annotations) == IGNORED_ANNOTATIONS && (set k | k in labels) == IGNORED_LABELS;
      var sameAnnotations := StringMapsMatch(secret.value.annotations, cr.annotations, annotations);
      if !sameAnnotations {
        return true;
      }
      var sameLabels := StringMapsMatch(secret.value.labels, cr.labels, labels);
      return !sameLabels;
    }

    method PrepareSecret(cr: ValsCr, data: map<string, string>, cur: Option<Secret>, now: int) returns (obj: Secret)
      ensures obj == Upserted(cfg, cr, data, cur, now)
    {
      var secret := new SecretCopy(if cur.Some? then cur.value else EMPTY);
      secret.data := data;
      secret.labels := MergeMap(secret.labels, cr.labels);
      secret.labels := secret.labels[ManagedBy := "vals-operator"];
      secret.annotations := MergeMap(secret.annotations, cr.annotations);
      secret.annotations := secret.annotations[LastUpdated := cfg.format(now)];
      secret.annotations := secret.annotations - {LastApplied};
      obj := secret.Value();
    }

    method UpsertSecret(cr: ValsCr, data: map<string, string>) returns (ok: bool, updated: bool)
      requires Valid() && pc == Upserting(cr, data)
      modifies this`w, this`pc, this`events, this`latest, counter
      ensures Valid() && old(events) <= events
      ensures if ok then pc.Finishing? else Ended(SILENT)
      ensures Recorded(old(w), w, ok && updated)
    {
      var read, needed, secret := CompareSecret(cr, data);
      if !read {
        return false, false;
      }
      if !needed {
        return true, false;
      }
      ok := StampAndSend(cr, data, secret);
      updated := ok;
    }

    method CompareSecret(cr: ValsCr, data: map<string, string>)
      returns (read: bool, needed: bool, secret: Option<Secret>)
      requires Valid() && pc == Upserting(cr, data)
      modifies this`w, this`pc, this`events, this`latest, counter
      ensures Valid() && old(events) <= events && Kept(old(w), w)
      ensures if !read then Ended(SILENT)
              else pc == if needed then Stamping(cr, data, secret) else Finishing
    {
      read, secret := GetSecret();
      needed := SecretNeedsUpdate(cr, secret, data);
      Take(Call(if read then Sound else Before), w,
           if !read then Idle else if needed then Stamping(cr, data, secret) else Finishing);
    }

    method StampAndSend(cr: ValsCr, data: map<string, string>, secret: Option<Secret>) returns (ok: bool)
      requires Valid() && pc == Stamping(cr, data, secret)
      modifies this`w, this`pc, this`events, this`latest, counter
      ensures Valid() && old(events) <= events
      ensures if ok then pc.Finishing? else Ended(SILENT)
      ensures Recorded(old(w), w, ok)
    {
      Meanwhile();
      var stamp := w.now;
      var obj := PrepareSecret(cr, data, secret, stamp.Floor);
      Take(Call(Sound), w, Creating(cr, obj, stamp));
      ok := SendSecret(cr, obj, stamp);
    }

    method SendSecret(cr: ValsCr, obj: Secret, stamp: real) returns (ok: bool)
      requires Valid() && pc == Creating(cr, obj, stamp)
      modifies this`w, this`pc, this`events, this`latest, counter
      ensures Valid() && old(events) <= events
      ensures if ok then pc.Finishing? else Ended(SILENT)
      ensures Recorded(old(w), w, ok)
    {
      var owned: bool := *;
      if !owned {
        Take(Call(Before), w, Idle);
        return false;
      }
      var reply := Create(cr, obj, stamp);
      if reply.AlreadyExists? {
        reply := Update(cr, obj, stamp);
      }
      ok := reply.Done?;
    }

    /** The arithmetic of `errorBackoff`. */
    method BackoffFor(errCount: nat, random: real) returns (delay: int)
      requires 0.0 <= random < 1.0
      ensures delay == Backoff.Jittered(Backoff.Delay(errCount), random)
      ensures 9 * Backoff.MIN_BACKOFF / 10 <= delay <= 11 * Backoff.MAX_BACKOFF / 10
    {
      var factor := Decimal.Wrap64(Backoff.Round(Backoff.Power(errCount)));
      var backoffTime := ClampedDelay(factor);
      Backoff.DelayInRange(factor, random);
      delay := WithJitter(backoffTime, random);
    }

    method ClampedDelay(factor: int) returns (backoffTime: int)
      ensures backoffTime == Backoff.DelayOf(factor)
    {
      backoffTime := Decimal.Wrap64(Backoff.MIN_BACKOFF + Decimal.Wrap64(Backoff.SECOND * factor));
      if backoffTime < Backoff.MIN_BACKOFF {
        backoffTime := Backoff.MIN_BACKOFF;
      } else if backoffTime > Backoff.MAX_BACKOFF {
        backoffTime := Backoff.MAX_BACKOFF;
      }
    }

    method WithJitter(backoffTime: int, random: real) returns (delay: int)
      ensures delay == Backoff.Jittered(backoffTime, random)
    {
      delay := backoffTime + Backoff.Round((random - 0.5) * backoffTime as real * 0.2);
    }

    /** The delay is the one for the failures of this object since it last succeeded. */
    method ErrorBackoff(cr: ValsCr, random: real) returns (result: Result)
      requires Valid() && pc == CountingError(cr)
      requires 0.0 <= random < 1.0
      modifies this`w, this`pc, this`events, this`latest, counter
      ensures Valid() && old(events) <= events && Ended(result)
      ensures result == Result(false, Requeue.After(Backoff.Jittered(Backoff.Delay(w.failures), random)))
      ensures w.failures == old(w.failures) + 1
      ensures 9 * Backoff.MIN_BACKOFF / 10 <= result.requeue.delay <= 11 * Backoff.MAX_BACKOFF / 10
    {
      var errCount := IncErrorCount();
      var delay := BackoffFor(errCount, random);
      var stored := SubmitCr(cr);
      return Result(false, Requeue.After(delay));
    }

    method HandleDeletion(cr: ValsCr) returns (ok: bool)
      requires Valid() && pc == ForgettingErrors(cr)
      modifies this`w, this`pc, this`events, this`latest, counter
      ensures Valid() && old(events) <= events && Ended(Result(!ok, Never))
      ensures w.failures == 0
      ensures ok && FINALIZER in cr.finalizers ==> !Held(w.crs, FINALIZER)
    {
      ClearErrorCount();
      ok := true;
      var held := ContainsString(cr.finalizers, FINALIZER);
      if held {
        ok := Delete(cr);
        if ok {
          var others := RemoveString(cr.finalizers, FINALIZER);
          var stored := SubmitCr(cr.(finalizers := others));
          ok := stored.Some?;
        }
      }
    }

    /** The read of the current Secret, and the TTL gate. */
    method CheckSecret(cr: ValsCr) returns (ok: bool, due: bool)
      requires Valid() && pc == Guarded(cr)
      modifies this`w, this`pc, this`events, this`latest, counter
      ensures Valid() && old(events) <= events && w.failures == old(w.failures)
      ensures if ok && due then pc == Assembling(cr)
              else Ended(if ok then Result(false, Period) else Result(true, Never))
      ensures ok ==> (due <==> w.secret.Some? ==> HasExpired(cfg, cr.spec, w.secret.value, w.now))
    {
      var currentSecret;
      ok, currentSecret := GetSecret();
      due := true;
      if ok && currentSecret.Some? {
        due := HasSecretExpired(cr.spec, currentSecret.value, w.now);
      }
      Take(Call(if ok then Sound else Before), w, if ok && due then Assembling(cr) else Idle);
    }

    /** What a pass does for a resource that carries the finalizer. */
    method Serve(cr: ValsCr, sources: Sources, random: real) returns (result: Result)
      requires Valid() && pc == Guarded(cr)
      requires 0.0 <= random < 1.0
      modifies this, counter
      ensures Valid() && old(events) <= events && Ended(result)
      ensures Accounted(result, old(w.failures), random)
    {
      var ok, due := CheckSecret(cr);
      if !ok {
        return Result(true, Never);
      }
      if !due {
        return Result(false, Period);
      }
      result := AssembleAndStore(cr, sources, random);
    }

    method AssembleAndStore(cr: ValsCr, sources: Sources, random: real) returns (result: Result)
      requires Valid() && pc == Assembling(cr)
      requires 0.0 <= random < 1.0
      modifies this, counter
      ensures Valid() && old(events) <= events && Ended(result)
      ensures Accounted(result, old(w.failures), random)
    {
      var data := AssembleNow(cr, sources);
      if data.None? {
        result := ErrorBackoff(cr, random);
        return;
      }
      result := Store(cr, data.value);
    }

    /** All that lies between the gate and the write. */
    method AssembleNow(cr: ValsCr, sources: Sources) returns (data: Option<map<string, string>>)
      requires Valid() && pc == Assembling(cr)
      modifies this, counter
      ensures Valid() && old(events) <= events && w.failures == old(w.failures)
      ensures pc == if data.None? then CountingError(cr) else Upserting(cr, data.value)
    {
      Meanwhile();
      data := Assemble(cr.spec, sources);
      Take(Event.Assemble(sources), w, if data.None? then CountingError(cr) else Upserting(cr, data.value));
    }

    method Store(cr: ValsCr, data: map<string, string>) returns (result: Result)
      requires Valid() && pc == Upserting(cr, data)
      modifies this`w, this`pc, this`events, this`latest, counter
      ensures Valid() && old(events) <= events && Ended(result)
      ensures if result.requeue.Period? then w.failures == 0 else result.requeue.Never? && w.failures == old(w.failures)
      ensures !result.error
    {
      var ok, updated := UpsertSecret(cr, data);
      if !ok {
        return Result(false, Never);
      }
      ClearErrorCount();
      return Result(false, Period);
    }

    /** One pass, from a machine at rest to a machine at rest; what it reports is what its
        last call makes of it. */
    method Reconcile(sources: Sources, random: real) returns (result: Result)
      requires Valid() && pc.Idle?
      requires 0.0 <= random < 1.0
      modifies this, counter
      ensures Valid() && old(events) < events && Ended(result)
      ensures Accounted(result, old(w.failures), random)
    {
      var ok, got := GetCr();
      if got.None? || cfg.excluded {
        return Result(!ok, Never);
      }
      var cr := got.value;
      if !cr.deleting {
        var held := ContainsString(cr.finalizers, FINALIZER);
        if !held {
          var stored := SubmitCr(cr.(finalizers := cr.finalizers + [FINALIZER]));
          if stored.None? {
            return Result(true, Never);
          }
          cr := stored.value;
        }
      } else {
        var deleted := HandleDeletion(cr);
        return Result(!deleted, Never);
      }
      result := Serve(cr, sources, random);
    }
  }
}
