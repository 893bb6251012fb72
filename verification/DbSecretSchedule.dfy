/** From a schedule of passes to the punctuality that `DbSecretTiming` asks for: passes
    that succeed keep the Secret confirmed. */
module DbSecretSchedule {
  import opened Wrappers
  import opened Store
  import opened DbSecret
  import opened DbSecretTiming
  import DbSecretValues
  import Vault

  /** When a pass last came to rest, or else the start of the run. */
  ghost function RestedAt(cfg: Config, s: State, es: seq<Event>): real {
    if es == [] then s.w.now
    else
      var t := Exec(cfg, s, es);
      if es[|es| - 1].Call? && t.pc.Idle? then t.w.now else RestedAt(cfg, s, es[..|es| - 1])
  }

  ghost predicate HasRested(cfg: Config, s: State, es: seq<Event>) {
    es != [] && ((es[|es| - 1].Call? && Exec(cfg, s, es).pc.Idle?) || HasRested(cfg, s, es[..|es| - 1]))
  }

  /** Nobody acts but the operator, whose calls succeed. It comes to rest at least once in
      every period, and no pass takes longer than the delay from a grant to its end. */
  ghost predicate Scheduled(cfg: Config, b: Bounds, s: State, es: seq<Event>) {
    es != [] ==>
      && var before, e, t := es[..|es| - 1], es[|es| - 1], Exec(cfg, s, es);
      && Scheduled(cfg, b, s, before)
      && (e.Tick? || (e.Call? && e.fault.Sound?)) && Fits(b, Exec(cfg, s, before), e)
      && t.w.now <= RestedAt(cfg, s, es) + b.period
      && (GrantedAt(t.pc).Some? ==> t.w.now <= GrantedAt(t.pc).value + b.delay)
      && 0 <= t.w.now.Floor <= FAR
  }

  /** A resource that stays, and a pass that has met with no failure. */
  predicate Smooth(cfg: Config, s: State) {
    && !cfg.excluded && s.w.crs.cr.Some? && !s.w.crs.cr.value.deleting
    && match s.pc
       case GotCr(cr) => cr == s.w.crs.cr.value
       case AddingFinalizer(cr, _) => cr == s.w.crs.cr.value
       case ForcingIssue(_, _) => false
       case Revoking(_, _) => false
       case Deleting(_) => false
       case RemovingFinalizer(_) => false
       case Idle => true
       case Issuing(_, _) => true
       case StampingIssue(_, _, _, _) => true
       case Creating(_, _) => true
       case _ => s.w.secret.Some?
  }

  /** What a call that succeeds makes of a smooth pass: it goes on, or ends with the Secret
      just written or found good. */
  predicate GoesOn(cfg: Config, s: State, t: State) {
    && Smooth(cfg, t)
    && if t.pc.Idle? then t.w.secret.Some? && t.w.confirmed == t.w.now
       else t.w.confirmed == s.w.confirmed && t.w.secret == s.w.secret
  }

  /** A punctual lease can be renewed. */
  lemma RenewalGoesOn(cfg: Config, b: Bounds, s: State)
    requires Smooth(cfg, s) && TimedInv(b, s) && OnTime(b, s) && s.pc.Renewing?
    ensures GoesOn(cfg, s, RenewLease(s.w, s.pc.cr, s.pc.secret, Sound))
  {
    assert RebuiltLease(s.pc.cr.spec, s.pc.secret.annotations) == s.w.secret.value.data.lease;
  }

  lemma StampGoesOn(cfg: Config, b: Bounds, s: State, cr: DbCr, cur: Option<Secret>, creds: Vault.Credentials,
      granted: real, e: Event)
    requires s.pc == StampingIssue(cr, cur, creds, granted) && e.Call?
    requires Smooth(cfg, s) && TimedInv(b, s) && OnTime(b, s) && b.Valid()
    ensures GoesOn(cfg, s, Called(cfg, s.w, StampingIssue(cr, cur, creds, granted), e))
  {
    var obj := Upserted(cfg, cr, creds, cur, s.w.now.Floor, e.before);
    UpsertedIsLabelled(b, s, cfg, e.before);
    StampCall(cfg, s.w, cr, cur, creds, granted, e, obj);
    PreparedGoesOn(cfg, s, obj);
  }

  lemma PreparedGoesOn(cfg: Config, s: State, obj: Option<Secret>)
    requires Smooth(cfg, s) && s.pc.StampingIssue? && obj.Some?
    ensures GoesOn(cfg, s, StampIssue(s.w, obj, s.pc.creds, s.pc.granted))
  {
  }

  lemma CheckGoesOn(cfg: Config, s: State, e: Event)
    requires Smooth(cfg, s) && s.pc.Guarded? && e.Call?
    ensures GoesOn(cfg, s, Apply(cfg, s, e))
  {
  }

  lemma EntryGoesOn(cfg: Config, s: State, e: Event)
    requires Smooth(cfg, s) && e.Call? && e.fault.Sound?
    requires s.pc.Idle? || s.pc.GotCr? || s.pc.AddingFinalizer?
    requires s.pc.AddingFinalizer? ==> s.pc.cur == s.w.secret
    ensures GoesOn(cfg, s, Apply(cfg, s, e))
  {
  }

  lemma RestGoesOn(cfg: Config, s: State, e: Event)
    requires Smooth(cfg, s) && e.Call? && e.fault.Sound?
    requires s.pc.StampingRenewal? || s.pc.WritingRenewal? || s.pc.Superseding? || s.pc.Issuing?
          || s.pc.Creating? || s.pc.Replacing?
    ensures GoesOn(cfg, s, Apply(cfg, s, e))
  {
  }

  lemma CallGoesOn(cfg: Config, b: Bounds, s: State, e: Event)
    requires Smooth(cfg, s) && b.Valid() && TimedInv(b, s) && OnTime(b, s) && e.Call? && e.fault.Sound?
    ensures GoesOn(cfg, s, Apply(cfg, s, e))
  {
    if s.pc.Renewing? {
      RenewalGoesOn(cfg, b, s);
    } else if s.pc.StampingIssue? {
      StampGoesOn(cfg, b, s, s.pc.cr, s.pc.cur, s.pc.creds, s.pc.granted, e);
    } else if s.pc.Guarded? {
      CheckGoesOn(cfg, s, e);
    } else if s.pc.Idle? || s.pc.GotCr? || s.pc.AddingFinalizer? {
      EntryGoesOn(cfg, s, e);
    } else {
      RestGoesOn(cfg, s, e);
    }
  }

  /** The resource is there and no Secret yet. */
  predicate Announced(cfg: Config, b: Bounds, s: State) {
    && s.pc.Idle? && s.w.secret.None? && !cfg.excluded
    && s.w.crs.cr.Some? && !s.w.crs.cr.value.deleting && b.Names(s.w.crs.cr.value.spec)
    && 0 <= s.w.now.Floor <= FAR
  }

  /** A scheduled run is punctual: at every moment the Secret, once it is there, was
      confirmed when a pass last came to rest. */
  lemma {:induction false} ScheduleIsPunctual(cfg: Config, b: Bounds, s: State, es: seq<Event>)
    requires b.Valid() && cfg.secretName != "" && Announced(cfg, b, s)
    requires Scheduled(cfg, b, s, es)
    ensures Punctual(cfg, b, s, es)
    ensures var t := Exec(cfg, s, es);
      && Smooth(cfg, t) && TimedInv(b, t) && OnTime(b, t)
      && (t.w.secret.Some? ==> t.w.confirmed == RestedAt(cfg, s, es))
      && (HasRested(cfg, s, es) ==> t.w.secret.Some?)
  {
    if es != [] {
      var before, e := es[..|es| - 1], es[|es| - 1];
      ScheduleIsPunctual(cfg, b, s, before);
      var t := Exec(cfg, s, before);
      if e.Call? {
        CallGoesOn(cfg, b, t, e);
      }
      TimedStep(b, t, cfg, e);
    }
  }

  /** Passes that succeed, a period apart at most, keep the credentials from expiring; the
      Secret is there as soon as one of them has come to rest. */
  lemma ScheduledCredentialsNeverExpire(cfg: Config, b: Bounds, s: State, es: seq<Event>)
    requires b.Valid() && cfg.secretName != "" && Announced(cfg, b, s)
    requires Scheduled(cfg, b, s, es) && DbSecretValues.ReplacingRun(cfg, s, es)
    ensures HasRested(cfg, s, es) ==> Exec(cfg, s, es).w.secret.Some?
    ensures var w := Exec(cfg, s, es).w;
      w.secret.Some? ==> forall k | k in w.secret.value.data.values :: Alive(w, w.secret.value.data.values[k].lease)
  {
    ScheduleIsPunctual(cfg, b, s, es);
    DbSecretValues.ValuesAreCurrent(cfg, s, es);
  }
}
