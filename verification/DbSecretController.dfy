/** `DbSecretReconciler` of controllers/dbsecret_controller.go. Other parties act before
    every call, and every call may fail; whatever happens, a pass is a part of a run of
    the machine in `DbSecret`, so all that is proved of runs holds of it. */
module DbSecretController {
  import opened Wrappers
  import opened Utils
  import opened Store
  import opened DbSecret
  import DbSecretValues
  import Decimal
  import Lease
  import Text
  import Vault

  lemma ExecExtended(cfg: Config, s: State, es: seq<Event>, e: Event)
    ensures Exec(cfg, s, es + [e]) == Apply(cfg, Exec(cfg, s, es), e)
  {
    assert (es + [e])[..|es|] == es;
  }

  /** What Vault makes of the call that renews a lease. */
  lemma RenewalAnswers(w: World, cr: DbCr, secret: Secret, increment: int, fault: Fault)
    requires Decimal.Parse(At(secret.annotations, LeaseDuration)) == Some(increment)
    ensures var lease := RebuiltLease(cr.spec, secret.annotations);
      var granted := !fault.Before? && lease in w.expiry && w.now < w.expiry[lease];
      RenewLease(w, cr, secret, fault) ==
        State(if granted then w.(expiry := w.expiry[lease := w.now + increment as real]) else w,
              if granted && fault.Sound? then StampingRenewal(secret, increment, w.now) else Idle)
  {
  }

  lemma IssueCalled(cfg: Config, w: World, cr: DbCr, cur: Option<Secret>, creds: Vault.Credentials, fault: Fault)
    ensures Apply(cfg, State(w, Issuing(cr, cur)), Call(fault, false, creds, {}))
         == IssueLease(w, cr, cur, creds, fault)
  {
  }

  lemma RenewalCalled(cfg: Config, w: World, cr: DbCr, secret: Secret, fault: Fault, t: State)
    requires RenewLease(w, cr, secret, fault) == t
    ensures Apply(cfg, State(w, Renewing(cr, secret)), CallWith(fault)) == t
  {
  }

  const NO_CREDENTIALS := Vault.Credentials("", 0, "", "", "", "")

  function Unusable(lease: string, duration: int): Vault.Credentials {
    Vault.Credentials(lease, duration, "", "", "", "")
  }

  function CallWith(fault: Fault): Event {
    Call(fault, false, NO_CREDENTIALS, {})
  }

  lemma RenderedReads(cfg: Config, template: map<string, string>, values: map<string, string>, before: set<string>)
    ensures var data := Rendered(cfg, template, values, before);
      && (forall k | k in data :: k in template && cfg.engine(k, template[k], values) == Some(data[k]))
      && (Renders(cfg.engine, template, values) ==> data.Keys == template.Keys)
  {
  }

  /** A template that fails stops the rendering where it is. */
  lemma RenderedUpTo(cfg: Config, template: map<string, string>, values: map<string, string>,
      left: set<string>, k: string)
    requires k in template && cfg.engine(k, template[k], values).None?
    ensures Rendered(cfg, template, values, template.Keys - left)
         == Seen(Rendered(cfg, template, values, template.Keys), left)
  {
    assert !Renders(cfg.engine, template, values);
  }

  /** The events lead to this state, none of them breaks a pass off, and `latest` is the
      last one with the state that it met. */
  ghost predicate Ran(cfg: Config, start: State, events: seq<Event>, s: State, latest: (State, Event)) {
    && Exec(cfg, start, events) == s
    && (forall i :: 0 <= i < |events| ==> !events[i].Crash?)
    && (events != [] ==> latest == (Exec(cfg, start, events[..|events| - 1]), events[|events| - 1]))
  }

  lemma RanOn(cfg: Config, start: State, events: seq<Event>, s: State, latest: (State, Event), e: Event, t: State)
    requires Ran(cfg, start, events, s, latest) && !e.Crash? && Apply(cfg, s, e) == t
    ensures Ran(cfg, start, events + [e], t, (s, e))
  {
    ExecExtended(cfg, start, events, e);
    assert (events + [e])[..|events|] == events;
  }

  /** A Secret in the operator's memory, which its functions change before it is sent. */
  class SecretCopy {
    var values: map<string, Value>
    var lease: string
    var labels: Meta
    var annotations: Meta

    function Value(): Secret
      reads this
    {
      SecretObj(Data(values, lease), labels, annotations)
    }

    constructor (secret: Secret)
      ensures Value() == secret
    {
      values, lease := secret.data.values, secret.data.lease;
      labels, annotations := secret.labels, secret.annotations;
    }

    /** A Secret that has no template any more keeps only the credentials. */
    method DropRendered(spec: Spec)
      modifies this`values
      ensures Value() == Trimmed(spec, old(Value()))
    {
      if |spec.template| == 0 {
        var keys := values.Keys;
        while keys != {}
          invariant keys <= old(values).Keys
          invariant values ==
            map k | k in old(values) && (k in keys || k == "username" || k == "password") :: old(values)[k]
          decreases |keys|
        {
          var k :| k in keys;
          keys := keys - {k};
          if k != "username" && k != "password" {
            values := values - {k};
          }
        }
        assert values == Trimmed(spec, old(Value())).data.values;
      }
    }
  }

  class DbSecretReconciler {
    const cfg: Config

    /** The cluster and Vault, which the operator reaches only through calls. */
    var w: World

    ghost const start: State
    ghost var pc: Pc
    ghost var events: seq<Event>

    /** The last event, and the state that it met. */
    ghost var latest: (State, Event)

    /** What has happened so far is a run of the machine in which no pass was broken off. */
    ghost predicate Valid()
      reads this
    {
      Ran(cfg, start, events, State(w, pc), latest)
    }

    /** The last event was the last call of a pass, which reports this. */
    ghost predicate Ended(result: Result)
      reads this
    {
      && events != [] && latest.1.Call? && pc.Idle?
      && result == ResultOf(latest.0.w, latest.0.pc, latest.1.fault)
    }

    constructor (cfg: Config, w: World)
      ensures Valid() && pc.Idle? && events == [] && this.cfg == cfg && this.w == w
      ensures start == State(w, Idle)
    {
      this.cfg, this.w := cfg, w;
      start, pc, events := State(w, Idle), Idle, [];
      latest := (State(w, Idle), Tick(0.0));
    }

    method Take(ghost e: Event, next: World, ghost to: Pc)
      requires Valid() && !e.Crash?
      requires Apply(cfg, State(w, pc), e) == State(next, to)
      modifies this
      ensures Valid() && w == next && pc == to && events == old(events) + [e]
      ensures latest == (old(State(w, pc)), e)
    {
      ghost var met := State(w, pc);
      RanOn(cfg, start, events, met, latest, e, State(next, to));
      w, pc, events, latest := next, to, events + [e], (met, e);
    }

    /** Time passes, and other parties do what they like; Vault and the ledger stay. */
    method Meanwhile()
      requires Valid()
      modifies this
      ensures Valid() && pc == old(pc) && old(events) <= events
      ensures Later(old(w), w)
    {
      var steps: nat := *;
      while steps > 0
        invariant Valid() && pc == old(pc) && old(events) <= events
        invariant Later(old(w), w)
        decreases steps
      {
        var e: Event := *;
        match e {
          case Tick(dt) => Take(e, w.(now := w.now + if dt > 0.0 then dt else 0.0), pc);
          case User(act) => Take(e, w.(crs := Act(w.crs, act, FINALIZER)), pc);
          case Outside(secret) => Take(e, w.(secret := secret, ours := w.ours && secret.Some?), pc);
          case _ =>
        }
        steps := steps - 1;
      }
    }

    predicate Later(before: World, after: World) {
      && after == before.(now := after.now, crs := after.crs, secret := after.secret, ours := after.ours)
      && before.now <= after.now
    }

    /** This Secret was stored just now. */
    predicate Confirmed(secret: Option<Secret>)
      reads this
    {
      w.secret == secret && w.confirmed == w.now
    }

    // ---- calls to the API server ----

    method GetCr() returns (ok: bool, got: Option<DbCr>)
      requires Valid() && pc.Idle?
      modifies this
      ensures Valid() && old(events) < events
      ensures got.Some? ==> ok
      ensures if got.Some? && !cfg.excluded then pc == GotCr(got.value) else Ended(Result(false, !ok))
    {
      Meanwhile();
      var fault: Fault := *;
      ok := fault.Sound?;
      got := if ok then w.crs.cr else None;
      Take(CallWith(fault), w, if got.Some? && !cfg.excluded then GotCr(got.value) else Idle);
    }

    method GetSecret(cr: DbCr) returns (ok: bool, cur: Option<Secret>)
      requires Valid() && pc == GotCr(cr)
      modifies this
      ensures Valid() && old(events) <= events
      ensures if ok then pc == AfterRead(w, cr, cur).pc else Ended(Result(false, true))
      ensures ok && pc.Idle? ==> Ended(SILENT)
    {
      Meanwhile();
      var fault: Fault := *;
      ok, cur := fault.Sound?, w.secret;
      Take(CallWith(fault), w, if ok then AfterRead(w, cr, cur).pc else Idle);
    }

    method SubmitCr(copy: DbCr) returns (stored: Option<DbCr>)
      requires Valid()
      requires match pc
               case AddingFinalizer(cr, _) => copy == cr.(finalizers := cr.finalizers + [FINALIZER])
               case RemovingFinalizer(cr) => copy == cr.(finalizers := Without(cr.finalizers, FINALIZER))
               case _ => false
      modifies this
      ensures Valid() && old(events) <= events
      ensures pc == if stored.Some? && old(pc).AddingFinalizer? then Gate(w, stored.value, old(pc).cur).pc else Idle
      ensures pc.Idle? ==> Ended(Result(false, stored.None?))
      ensures stored.Some? ==> (Held(w.crs, FINALIZER) <==> FINALIZER in copy.finalizers)
    {
      Meanwhile();
      var fault: Fault := *;
      var (crs, reply) := UpdateCr(w.crs, copy, fault);
      stored := reply;
      Take(CallWith(fault), w.(crs := crs),
           if stored.Some? && pc.AddingFinalizer? then Gate(w, stored.value, pc.cur).pc else Idle);
    }

    method Create(obj: Secret) returns (reply: Reply)
      requires Valid() && pc.Creating? && pc.obj == obj
      modifies this
      ensures Valid() && old(events) <= events
      ensures if reply.AlreadyExists? then pc == Replacing(obj, old(pc).granted) else Ended(Result(reply.Done?, false))
      ensures old(w).now <= w.now
      ensures !reply.NotFound? && (reply.Done? ==> Confirmed(Some(obj)))
    {
      Meanwhile();
      var fault: Fault := *;
      reply := CreateSecret(w.secret, obj, fault).1;
      Take(CallWith(fault), WriteNew(w, obj, 0.0, fault).w,
           if reply.AlreadyExists? then Replacing(obj, pc.granted) else Idle);
    }

    /** The update of a Secret whose lease was renewed. */
    method UpdateRenewed(obj: Secret) returns (reply: Reply)
      requires Valid() && (pc.WritingRenewal? || pc.ForcingIssue?) && pc.obj == obj
      modifies this
      ensures Valid() && old(events) <= events
      ensures if old(pc).WritingRenewal? && !reply.Done? then pc == ForcingIssue(Forced(obj), old(pc).granted)
              else Ended(Result(true, !reply.Done?))
      ensures old(w).now <= w.now
      ensures reply.Done? ==> Confirmed(Some(obj))
    {
      Meanwhile();
      var fault: Fault := *;
      var (next, answer) := Overwrite(w, obj, fault);
      reply := answer;
      Take(CallWith(fault), next,
           if pc.WritingRenewal? && !reply.Done? then ForcingIssue(Forced(obj), pc.granted) else Idle);
    }

    /** The update of a Secret that holds new credentials. */
    method UpdateIssued(obj: Secret) returns (reply: Reply)
      requires Valid() && pc.Replacing? && pc.obj == obj
      modifies this
      ensures Valid() && old(events) <= events && Ended(Result(reply.Done?, false))
      ensures old(w).now <= w.now
      ensures reply.Done? ==> Confirmed(Some(obj))
    {
      Meanwhile();
      var fault: Fault := *;
      reply := Overwrite(w, obj, fault).1;
      Take(CallWith(fault), WriteOver(w, obj, fault).w, Idle);
    }

    method Delete() returns (ok: bool)
      requires Valid() && pc.Deleting?
      modifies this
      ensures Valid() && old(events) <= events
      ensures if ok then pc == RemovingFinalizer(old(pc).cr) else Ended(Result(false, true))
    {
      Meanwhile();
      var fault: Fault := *;
      var (secret, reply) := Store.DeleteSecret(w.secret, fault);
      ok := !reply.Failed?;
      Take(CallWith(fault), w.(secret := secret, ours := w.ours && secret.Some?),
           if ok then RemovingFinalizer(pc.cr) else Idle);
    }

    // ---- the clock and Vault ----

    method UnixTime() returns (now: int)
      requires Valid()
      modifies this
      ensures Valid() && pc == old(pc) && old(events) <= events
      ensures now == w.now.Floor && Later(old(w), w)
    {
      Meanwhile();
      now := w.now.Floor;
    }

    /** What Vault answers to a lookup is up to Vault. */
    method Lookup(lease: string, asked: seq<string>) returns (found: bool, log: seq<string>)
      ensures log == asked + [lease]
    {
      found, log := *, asked + [lease];
    }

    /** Vault grants the whole increment, from now on. */
    method RenewDbCredentials(lease: string, increment: int, ghost cr: DbCr, ghost copy: Secret) returns (ok: bool)
      requires Valid() && pc == Renewing(cr, copy)
      requires lease == RebuiltLease(cr.spec, copy.annotations)
      requires Decimal.Parse(At(copy.annotations, LeaseDuration)) == Some(increment)
      modifies this
      ensures Valid() && old(events) <= events
      ensures if ok then pc.StampingRenewal? && pc.secret == copy && pc.increment == increment
              else Ended(Result(true, true))
      ensures old(w).now <= w.now
    {
      Meanwhile();
      var fault: Fault := *;
      var granted := !fault.Before? && lease in w.expiry && w.now < w.expiry[lease];
      ok := granted && fault.Sound?;
      var next := if granted then w.(expiry := w.expiry[lease := w.now + increment as real]) else w;
      RenewalAnswers(w, cr, copy, increment, fault);
      RenewalCalled(cfg, w, cr, copy, fault, State(next, if ok then StampingRenewal(copy, increment, w.now) else Idle));
      Take(CallWith(fault), next, if ok then StampingRenewal(copy, increment, w.now) else Idle);
    }

    /** Vault may have issued a lease even if nothing usable comes back. */
    method GetDbCredentials() returns (creds: Option<Vault.Credentials>)
      requires Valid() && pc.Issuing?
      modifies this
      ensures Valid() && old(events) <= events
      ensures if creds.None? then Ended(Result(false, true))
        else pc.StampingIssue? && pc.creds == creds.value && pc.cr == old(pc).cr && pc.cur == old(pc).cur
    {
      Meanwhile();
      var answer: Option<Vault.CredsReply> := *;
      var config: Vault.ConfigReply := *;
      creds := Vault.GetDbCredentials(answer, config);
      if !answer.Some? {
        Take(CallWith(Before), w, Idle);
      } else {
        var lease, duration := answer.value.leaseId, answer.value.leaseDuration;
        var granted := w.(issued := w.issued + {lease}, expiry := w.expiry[lease := w.now + duration as real]);
        IssueCalled(cfg, w, pc.cr, pc.cur, if creds.Some? then creds.value else Unusable(lease, duration),
                    if creds.Some? then Sound else After);
        if creds.None? {
          Take(Call(After, false, Unusable(lease, duration), {}),
               granted.(lost := granted.lost + {lease}), Idle);
        } else {
          Take(Call(Sound, false, creds.value, {}), granted, StampingIssue(pc.cr, pc.cur, creds.value, w.now));
        }
      }
    }

    // ---- the reconciler ----

    /** Asks Vault to revoke the lease only for a Secret without a name. */
    method RevokeLease(spec: Spec, currentSecret: Option<Secret>)
      requires Valid()
      requires match pc
               case Revoking(cr, cur) => cr.spec == spec && cur == currentSecret
               case Superseding(cr, secret) => cr.spec == spec && Some(secret) == currentSecret
               case _ => false
      modifies this
      ensures Valid() && old(events) <= events
      ensures pc == if old(pc).Revoking? then Deleting(old(pc).cr) else Issuing(old(pc).cr, currentSecret)
      ensures w.handed == old(w).handed + LeaseOf(currentSecret)
      ensures w.revoked == old(w).revoked + Revocation(cfg, spec, currentSecret)
      ensures cfg.secretName != "" ==> w.revoked == old(w).revoked && w.expiry == old(w).expiry
    {
      Meanwhile();
      var next := w.(handed := w.handed + LeaseOf(currentSecret));
      if currentSecret.Some? && cfg.secretName == "" && At(currentSecret.value.annotations, LeaseId) != "" {
        var lease := Lease.Path(spec.mount, spec.role, At(currentSecret.value.annotations, LeaseId));
        next := next.(revoked := next.revoked + {lease}, expiry := next.expiry - {lease});
      } else {
        assert next.revoked + {} == next.revoked && next.expiry - {} == next.expiry;
      }
      Take(CallWith(Sound), next, if pc.Revoking? then Deleting(pc.cr) else Issuing(pc.cr, currentSecret));
    }

    /** `asked` are the leases that Vault was asked about. */
    method IsLeaseValid(spec: Spec, secret: SecretCopy) returns (ok: bool, found: bool, asked: seq<string>)
      ensures asked == if At(secret.annotations, LeaseId) == "" then [] else [RebuiltLease(spec, secret.annotations)]
      ensures ok <==> asked != [] && found
    {
      found := false;
      if At(secret.annotations, LeaseId) == "" {
        return false, found, [];
      }
      found, asked := Lookup(Lease.Path(spec.mount, spec.role, At(secret.annotations, LeaseId)), []);
      ok := found;
    }

    /** What has to happen to a Secret that exists. */
    method Assess(spec: Spec, secret: SecretCopy, now: int) returns (shouldUpdate: bool, canRenew: bool, found: bool)
      modifies secret`values
      ensures secret.Value() == Trimmed(spec, old(secret.Value()))
      ensures Decide(cfg, spec, secret.annotations, now, found) ==
        if !shouldUpdate then NoOp else if canRenew && spec.renew then Renew else Issue
      ensures canRenew ==> At(secret.annotations, LeaseId) != ""
    {
      shouldUpdate, canRenew := false, true;
      var due := IsDue(secret, now);
      if due {
        shouldUpdate := true;
      }
      var valid, asked;
      valid, found, asked := IsLeaseValid(spec, secret);
      if !valid {
        shouldUpdate := true;
        canRenew := false;
      } else if At(secret.annotations, Force) == "true" {
        canRenew := false;
      }
      secret.DropRendered(spec);
      var changed := HasNewTemplate(spec, secret);
      if changed {
        shouldUpdate := true;
      }
    }

    method IsDue(secret: SecretCopy, now: int) returns (due: bool)
      ensures due <==> Expired(secret.annotations, now)
    {
      var expiry := Decimal.Parse(At(secret.annotations, ExpiresOn));
      due := false;
      if expiry.None? {
        due := true;
      } else if now >= expiry.value || now + GRACE >= expiry.value {
        due := true;
      }
    }

    method HasNewTemplate(spec: Spec, secret: SecretCopy) returns (changed: bool)
      ensures changed <==> TemplateChanged(cfg, spec, secret.annotations)
    {
      var newHash := CreateFakeHash(cfg.engine, cfg.digest, spec.template);
      changed := false;
      if newHash != "" && At(secret.annotations, TemplateHash) != "" {
        if newHash != At(secret.annotations, TemplateHash) {
          changed := true;
        }
      }
    }

    method CheckSecret(cr: DbCr, secret: SecretCopy) returns (shouldUpdate: bool, canRenew: bool)
      requires Valid() && pc == Guarded(cr, secret.Value())
      modifies this, secret`values
      ensures Valid() && old(events) <= events
      ensures pc == if !shouldUpdate then Idle
                    else if canRenew && cr.spec.renew then Renewing(cr, secret.Value())
                    else if At(secret.annotations, LeaseId) == "" then Issuing(cr, Some(secret.Value()))
                    else Superseding(cr, secret.Value())
      ensures !shouldUpdate ==> w.confirmed == w.now && Ended(Result(true, false))
      ensures canRenew ==> At(secret.annotations, LeaseId) != ""
    {
      var now := UnixTime();
      var found;
      shouldUpdate, canRenew, found := Assess(cr.spec, secret, now);
      Take(Call(Sound, found, NO_CREDENTIALS, {}), if shouldUpdate then w else w.(confirmed := w.now),
           CheckLease(cfg, w, cr, pc.secret, found).pc);
    }

    /** `stamp` is the time from which the Secret counts the new end of its lease. */
    method RenewLease(cr: DbCr, secret: SecretCopy) returns (ok: bool, ghost stamp: int)
      requires Valid() && pc == Renewing(cr, secret.Value())
      requires At(secret.annotations, LeaseId) != ""
      modifies this, secret`annotations
      ensures Valid() && old(events) <= events && Ended(Result(true, !ok))
      ensures ok ==> Confirmed(Some(secret.Value()))
      ensures ok ==>
        && old(w).now.Floor <= stamp <= w.now.Floor
        && var increment := Decimal.Parse(At(old(secret.annotations), LeaseDuration));
           increment.Some? && IsRenewed(old(secret.Value()), stamp, increment.value, secret.Value())
    {
      stamp := 0;
      var lease := Lease.Path(cr.spec.mount, cr.spec.role, At(secret.annotations, LeaseId));
      var increment := Decimal.Parse(At(secret.annotations, LeaseDuration));
      if increment.None? {
        Take(CallWith(Sound), w, Idle);
        return false, stamp;
      }
      var renewed := RenewDbCredentials(lease, increment.value, cr, secret.Value());
      if !renewed {
        return false, stamp;
      }
      ok, stamp := StoreRenewal(secret, increment.value);
    }

    /** The new end is in the annotations; the mark that forces new credentials is too if
        the first attempt to store them failed. */
    predicate IsRenewed(before: Secret, stamp: int, increment: int, after: Secret) {
      after == Renewed(cfg, before, stamp, increment) || after == Forced(Renewed(cfg, before, stamp, increment))
    }

    /** The second half of `renewLease`. */
    method StoreRenewal(secret: SecretCopy, increment: int) returns (ok: bool, ghost stamp: int)
      requires Valid() && pc.StampingRenewal? && pc.secret == secret.Value() && pc.increment == increment
      modifies this, secret`annotations
      ensures Valid() && old(events) <= events && Ended(Result(true, !ok))
      ensures ok ==> Confirmed(Some(secret.Value()))
      ensures old(w).now.Floor <= stamp <= w.now.Floor
      ensures IsRenewed(old(secret.Value()), stamp, increment, secret.Value())
    {
      var now := UnixTime();
      stamp := now;
      secret.annotations := secret.annotations[ExpiresOn := Decimal.Format(now + increment)];
      secret.annotations := secret.annotations[LastUpdated := cfg.stamp(now)];
      Take(CallWith(Sound), w, WritingRenewal(secret.Value(), pc.granted));
      var reply := UpdateRenewed(secret.Value());
      if !reply.Done? {
        secret.annotations := secret.annotations[Force := "true"];
        reply := UpdateRenewed(secret.Value());
      }
      ok := reply.Done?;
    }

    /** Stops at the first template that fails, with what it has. */
    method RenderTemplate(template: map<string, string>, values: map<string, string>)
      returns (data: map<string, string>, ghost before: set<string>)
      ensures data == Rendered(cfg, template, values, before)
      ensures forall k | k in data :: k in template && cfg.engine(k, template[k], values) == Some(data[k])
      ensures Renders(cfg.engine, template, values) ==> data.Keys == template.Keys
    {
      data := map[];
      ghost var all := Rendered(cfg, template, values, template.Keys);
      var keys := template.Keys;
      while keys != {}
        invariant keys <= template.Keys
        invariant data == Seen(all, keys)
        invariant forall k | k in template && k !in keys :: k in all
        decreases |keys|
      {
        var k :| k in keys;
        var rendered := cfg.engine(k, template[k], values);
        if rendered.None? {
          before := template.Keys - keys;
          RenderedUpTo(cfg, template, values, keys, k);
          RenderedReads(cfg, template, values, before);
          return;
        }
        SeenMore(all, keys, k);
        keys := keys - {k};
        data := data[k := rendered.value];
      }
      before := template.Keys;
      assert Seen(all, {}) == all;
      RenderedReads(cfg, template, values, before);
    }

    method Annotate(secret: SecretCopy, cr: DbCr, duration: int, short: string, now: int)
      modifies secret`annotations
      ensures secret.annotations == UpsertedMeta(cfg, old(secret.annotations) + cr.annotations, short, duration, now,
                                                 FakeHash(cfg.engine, cfg.digest, cr.spec.template))
    {
      secret.annotations := MergeMap(secret.annotations, cr.annotations);
      secret.annotations := secret.annotations[ManagedBy := "vals-operator"];
      secret.annotations := secret.annotations[LeaseId := short];
      secret.annotations := secret.annotations[LeaseDuration := Decimal.Format(duration)];
      secret.annotations := secret.annotations[LastUpdated := cfg.stamp(now)];
      secret.annotations := secret.annotations[ExpiresOn := Decimal.Format(now + duration)];
      var hash := CreateFakeHash(cfg.engine, cfg.digest, cr.spec.template);
      secret.annotations := secret.annotations[TemplateHash := hash];
      secret.annotations := secret.annotations - {Force};
    }

    /** The rendered templates, or, when there is nothing of them, the credentials as
        `StringData` over the values that are there. */
    method NewValues(template: map<string, string>, creds: Vault.Credentials, values: map<string, Value>)
      returns (data: map<string, Value>, ghost before: set<string>)
      ensures var rendered := Rendered(cfg, template, ValuesOf(creds), before);
        data == if |rendered| < 1 then values + From(ValuesOf(creds), creds.leaseId) else From(rendered, creds.leaseId)
    {
      var dataStr := map["username" := creds.username, "password" := creds.password];
      if creds.connectionUrl != "" {
        dataStr := dataStr["connection_url" := creds.connectionUrl];
      }
      if creds.hosts != "" {
        dataStr := dataStr["hosts" := creds.hosts];
      }
      assert dataStr == ValuesOf(creds);
      var rendered;
      rendered, before := RenderTemplate(template, dataStr);
      if |rendered| < 1 {
        data := values + From(dataStr, creds.leaseId);
      } else {
        data := From(rendered, creds.leaseId);
      }
    }

    method FillIn(secret: SecretCopy, cr: DbCr, creds: Vault.Credentials) returns (ghost before: set<string>)
      modifies secret
      ensures var rendered := Rendered(cfg, cr.spec.template, ValuesOf(creds), before);
        secret.values == if |rendered| < 1 then old(secret.values) + From(ValuesOf(creds), creds.leaseId)
                         else From(rendered, creds.leaseId)
      ensures secret.lease == creds.leaseId
      ensures secret.labels == old(secret.labels) + cr.labels
      ensures secret.annotations == old(secret.annotations)
    {
      var data, reached := NewValues(cr.spec.template, creds, secret.values);
      before := reached;
      secret.values := data;
      secret.lease := creds.leaseId;
      secret.labels := MergeMap(secret.labels, cr.labels);
    }

    /** The Secret as it is to be stored; `None` stands for a panic. */
    method PrepareSecret(cr: DbCr, creds: Vault.Credentials, cur: Option<Secret>, now: int)
      returns (prepared: Option<Secret>, ghost before: set<string>)
      ensures prepared == Upserted(cfg, cr, creds, cur, now, before)
      ensures prepared.Some? <==> Lease.ShortId(creds.leaseId).Some?
      ensures prepared.Some? ==> prepared.value.data.lease == creds.leaseId
    {
      var secret := new SecretCopy(if cur.Some? then cur.value else EMPTY);
      before := FillIn(secret, cr, creds);
      var parts := Text.Split(creds.leaseId, '/');
      if |parts| <= 3 {
        return None, before;
      }
      Annotate(secret, cr, creds.leaseDuration, parts[3], now);
      prepared := Some(secret.Value());
    }

    /** `stamp` is the time from which the Secret counts the end of its lease, `before` the
        templates reached before one that fails. */
    method UpsertSecret(cr: DbCr, creds: Vault.Credentials, cur: Option<Secret>)
      returns (ok: bool, panicked: bool, ghost stamp: int, ghost before: set<string>)
      requires Valid() && pc.StampingIssue? && pc.cr == cr && pc.creds == creds && pc.cur == cur
      modifies this
      ensures Valid() && old(events) <= events && Ended(Result(ok, panicked))
      ensures panicked <==> Lease.ShortId(creds.leaseId).None?
      ensures ok ==> old(w).now.Floor <= stamp <= w.now.Floor
      ensures ok ==> w.secret.Some? && Confirmed(Upserted(cfg, cr, creds, cur, stamp, before))
      ensures ok ==> DbSecretValues.HasTexts(cr.spec, w.secret.value.data.values, creds)
    {
      var prepared;
      prepared, stamp, before := PrepareNow(cr, creds, cur);
      panicked := prepared.None?;
      if panicked {
        return false, true, stamp, before;
      }
      ok := SendSecret(prepared.value);
    }

    method PrepareNow(cr: DbCr, creds: Vault.Credentials, cur: Option<Secret>)
      returns (prepared: Option<Secret>, ghost stamp: int, ghost before: set<string>)
      requires Valid() && pc.StampingIssue? && pc.cr == cr && pc.creds == creds && pc.cur == cur
      modifies this
      ensures Valid() && old(events) <= events
      ensures prepared == Upserted(cfg, cr, creds, cur, stamp, before)
      ensures prepared.None? <==> Lease.ShortId(creds.leaseId).None?
      ensures prepared.Some? ==> DbSecretValues.HasTexts(cr.spec, prepared.value.data.values, creds)
      ensures if prepared.Some? then pc == Creating(prepared.value, old(pc).granted) else Ended(Result(false, true))
      ensures old(w).now.Floor <= stamp == w.now.Floor
    {
      var now := UnixTime();
      stamp := now;
      prepared, before := PrepareSecret(cr, creds, cur, now);
      if prepared.Some? {
        DbSecretValues.UpsertedTexts(cfg, cr, creds, cur, now, before);
      }
      Stamp(prepared, creds, before);
    }

    /** The step of the machine that `PrepareSecret` is. */
    method Stamp(prepared: Option<Secret>, creds: Vault.Credentials, ghost before: set<string>)
      requires Valid() && pc.StampingIssue? && pc.creds == creds
      requires prepared == Upserted(cfg, pc.cr, creds, pc.cur, w.now.Floor, before)
      modifies this
      ensures Valid() && old(events) <= events
      ensures if prepared.Some? then pc == Creating(prepared.value, old(pc).granted) else Ended(Result(false, true))
      ensures w.now == old(w).now
    {
      Take(Call(Sound, false, NO_CREDENTIALS, before),
           if prepared.Some? then w else w.(lost := w.lost + {creds.leaseId}),
           if prepared.Some? then Creating(prepared.value, pc.granted) else Idle);
    }

    method SendSecret(obj: Secret) returns (ok: bool)
      requires Valid() && pc.Creating? && pc.obj == obj
      modifies this
      ensures Valid() && old(events) <= events && Ended(Result(ok, false))
      ensures old(w).now <= w.now
      ensures ok ==> Confirmed(Some(obj))
    {
      var owned: bool := *;
      if !owned {
        Take(CallWith(Before), w.(lost := w.lost + {obj.data.lease}), Idle);
        return false;
      }
      var reply := Create(obj);
      if reply.AlreadyExists? {
        reply := UpdateIssued(obj);
      }
      ok := reply.Done?;
    }

    method HandleDeletion(cr: DbCr, cur: Option<Secret>) returns (ok: bool)
      requires Valid() && pc == Revoking(cr, cur)
      modifies this
      ensures Valid() && old(events) <= events && Ended(Result(false, !ok))
      ensures ok ==> !Held(w.crs, FINALIZER)
    {
      RevokeLease(cr.spec, cur);
      ok := Delete();
      if ok {
        var others := RemoveString(cr.finalizers, FINALIZER);
        var stored := SubmitCr(cr.(finalizers := others));
        ok := stored.Some?;
      }
    }

    method IssueCredentials(cr: DbCr, cur: Option<Secret>) returns (result: Result)
      requires Valid() && pc == Issuing(cr, cur)
      modifies this
      ensures Valid() && old(events) <= events && Ended(result)
      ensures result.requeue && !result.error ==> w.confirmed == w.now
    {
      var creds := GetDbCredentials();
      if creds.None? {
        return Result(false, true);
      }
      var written, panicked, stamp, before := UpsertSecret(cr, creds.value, cur);
      return Result(written, panicked);
    }

    /** What a pass does for a resource that carries the finalizer. */
    method Serve(cr: DbCr, cur: Option<Secret>) returns (result: Result)
      requires Valid() && pc == Gate(w, cr, cur).pc
      modifies this
      ensures Valid() && old(events) <= events && Ended(result)
      ensures result.requeue && !result.error ==> w.confirmed == w.now
    {
      if cur.None? {
        result := IssueCredentials(cr, None);
        return;
      }
      var secret := new SecretCopy(cur.value);
      var shouldUpdate, canRenew := CheckSecret(cr, secret);
      if !shouldUpdate {
        return Result(true, false);
      }
      if canRenew && cr.spec.renew {
        var renewed, stamp := RenewLease(cr, secret);
        return Result(true, !renewed);
      }
      if At(secret.annotations, LeaseId) != "" {
        RevokeLease(cr.spec, Some(secret.Value()));
      }
      result := IssueCredentials(cr, Some(secret.Value()));
    }

    /** One pass, from a machine at rest to a machine at rest. One that asks for the next
        without an error has just written the Secret or found it good; what it reports is
        what its last call makes of it. */
    method Reconcile() returns (result: Result)
      requires Valid() && pc.Idle?
      modifies this
      ensures Valid() && old(events) < events && Ended(result)
      ensures result.requeue && !result.error ==> w.confirmed == w.now
    {
      var ok, got := GetCr();
      if got.None? || cfg.excluded {
        return Result(false, !ok);
      }
      var cr := got.value;
      var read, cur := GetSecret(cr);
      if !read {
        return Result(false, true);
      }
      var held := ContainsString(cr.finalizers, FINALIZER);
      if !cr.deleting {
        if !held {
          var stored := SubmitCr(cr.(finalizers := cr.finalizers + [FINALIZER]));
          if stored.None? {
            return Result(false, true);
          }
          cr := stored.value;
        }
      } else {
        if held {
          var deleted := HandleDeletion(cr, cur);
          return Result(false, !deleted);
        }
        return Result(false, false);
      }
      result := Serve(cr, cur);
    }
  }
}
