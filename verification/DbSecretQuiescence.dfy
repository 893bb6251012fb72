/** When a pass over a DbSecret leaves everything as it is. */
module DbSecretQuiescence {
  import opened Wrappers
  import opened Utils
  import opened Store
  import opened DbSecret
  import Decimal
  import Lease
  import Vault

  /** After an issue, a pass with the same templates does nothing exactly as long as
      Vault recognises the lease and its end is more than the grace away. */
  lemma QuietAfterIssue(cfg: Config, cr: DbCr, creds: Vault.Credentials, cur: Option<Secret>, stamp: int,
      before: set<string>, later: Spec, now: int, found: bool)
    requires Lease.ShortId(creds.leaseId).Some? && Lease.ShortId(creds.leaseId) != Some("")
    requires Decimal.IsInt64(stamp + creds.leaseDuration)
    requires later.template == cr.spec.template
    ensures var obj := Upserted(cfg, cr, creds, cur, stamp, before);
      && obj.Some?
      && (Decide(cfg, later, obj.value.annotations, now, found).NoOp?
          <==> found && now + GRACE < stamp + creds.leaseDuration)
  {
    Decimal.ParseFormat(stamp + creds.leaseDuration);
    var base := if cur.Some? then cur.value else EMPTY;
    var hash := FakeHash(cfg.engine, cfg.digest, cr.spec.template);
    var short := Lease.ShortId(creds.leaseId).value;
    var meta := UpsertedMeta(cfg, base.annotations + cr.annotations, short, creds.leaseDuration, stamp, hash);
    UpsertedMetaReads(cfg, base.annotations + cr.annotations, short, creds.leaseDuration, stamp, hash);
    QuietUntilGrace(cfg, later, meta, stamp + creds.leaseDuration, now, found);
  }

  lemma QuietUntilGrace(cfg: Config, spec: Spec, meta: Meta, expiry: int, now: int, found: bool)
    requires At(meta, LeaseId) != "" && Decimal.Parse(At(meta, ExpiresOn)) == Some(expiry)
    requires !TemplateChanged(cfg, spec, meta)
    ensures Decide(cfg, spec, meta, now, found).NoOp? <==> found && now + GRACE < expiry
  {
  }

  /** The same after a renewal, and also when the renewal could be stored only at the
      second attempt: the mark that is to force new credentials waits for the end of
      the renewed lease. */
  lemma QuietAfterRenewal(cfg: Config, secret: Secret, stamp: int, increment: int, spec: Spec, now: int, found: bool)
    requires At(secret.annotations, LeaseId) != ""
    requires Decimal.IsInt64(stamp + increment)
    requires !TemplateChanged(cfg, spec, secret.annotations)
    ensures var renewed := Renewed(cfg, secret, stamp, increment);
      && (Decide(cfg, spec, renewed.annotations, now, found).NoOp? <==> found && now + GRACE < stamp + increment)
      && (Decide(cfg, spec, Forced(renewed).annotations, now, found).NoOp?
          <==> found && now + GRACE < stamp + increment)
      && (now + GRACE >= stamp + increment ==> Decide(cfg, spec, Forced(renewed).annotations, now, found).Issue?)
  {
    Decimal.ParseFormat(stamp + increment);
  }

  /** Changed templates: a pass renews exactly if the lease is found, its renewal asked for
      and no new credentials forced, and issues otherwise; after a renewal this is the same,
      at whatever time. */
  lemma ChangedTemplateOnlyRenews(cfg: Config, secret: Secret, stamp: int, increment: int, spec: Spec,
      now: int, found: bool)
    requires TemplateChanged(cfg, spec, secret.annotations)
    ensures var renewed := Renewed(cfg, Trimmed(spec, secret), stamp, increment).annotations;
      var live := found && At(secret.annotations, LeaseId) != "";
      var action := if live && At(secret.annotations, Force) != "true" && spec.renew then Renew else Issue;
      && Decide(cfg, spec, secret.annotations, now, found) == action
      && Decide(cfg, spec, renewed, now, found) == action
      && TemplateChanged(cfg, spec, renewed)
  {
  }

  /** The same but for the time. */
  predicate Untouched(before: World, after: World) {
    after == before.(now := after.now, confirmed := after.confirmed)
  }

  /** A pass that has not got beyond its decision. */
  predicate Undecided(w: World, pc: Pc)
    requires w.crs.cr.Some? && w.secret.Some?
  {
    pc.Idle? || pc == GotCr(w.crs.cr.value) || pc == Guarded(w.crs.cr.value, w.secret.value)
  }

  /** Nobody acts but the operator, which may be restarted and whose calls may fail;
      Vault finds the lease whenever it is asked. */
  predicate Alone(e: Event) {
    e.Tick? || e.Crash? || (e.Call? && e.found)
  }

  /** Passes over this Secret have nothing to do before that time. */
  ghost predicate Fresh(cfg: Config, w: World, expiry: int) {
    && w.crs.cr.Some? && !w.crs.cr.value.deleting && FINALIZER in w.crs.cr.value.finalizers
    && w.secret.Some?
    && var meta := w.secret.value.annotations;
       At(meta, LeaseId) != "" && Decimal.Parse(At(meta, ExpiresOn)) == Some(expiry)
       && !TemplateChanged(cfg, w.crs.cr.value.spec, meta)
  }

  lemma QuietStep(cfg: Config, s: State, e: Event, expiry: int)
    requires Fresh(cfg, s.w, expiry) && Undecided(s.w, s.pc)
    requires Alone(e) && s.w.now.Floor + GRACE < expiry
    ensures var t := Apply(cfg, s, e); Untouched(s.w, t.w) && Undecided(t.w, t.pc)
  {
    if e.Call? && s.pc.Guarded? {
      QuietUntilGrace(cfg, s.w.crs.cr.value.spec, s.w.secret.value.annotations, expiry, s.w.now.Floor, e.found);
    }
  }

  lemma TimePasses(cfg: Config, s: State, e: Event)
    ensures s.w.now <= Apply(cfg, s, e).w.now
  {
    if e.Call? {
      CallsTakeNoTime(cfg, s.w, s.pc, e);
    }
  }

  lemma CallsTakeNoTime(cfg: Config, w: World, pc: Pc, e: Event)
    requires e.Call?
    ensures Called(cfg, w, pc, e).w.now == w.now
  {
  }

  /** However many passes there are before the grace, and wherever they fail or break
      off: the cluster, Vault and the ledger stay as they are. */
  lemma {:induction false} QuietUntilDue(cfg: Config, s: State, es: seq<Event>, expiry: int)
    requires s.pc.Idle? && Fresh(cfg, s.w, expiry)
    requires forall i :: 0 <= i < |es| ==> Alone(es[i])
    requires Exec(cfg, s, es).w.now.Floor + GRACE < expiry
    ensures var t := Exec(cfg, s, es); Untouched(s.w, t.w) && Undecided(t.w, t.pc)
  {
    if es != [] {
      var before, e := es[..|es| - 1], es[|es| - 1];
      TimePasses(cfg, Exec(cfg, s, before), e);
      QuietUntilDue(cfg, s, before, expiry);
      QuietStep(cfg, Exec(cfg, s, before), e, expiry);
    }
  }
}
