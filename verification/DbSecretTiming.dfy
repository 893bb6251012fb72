/** How long the credentials in the Secret live: timed runs of the DbSecret machine. */
module DbSecretTiming {
  import opened Wrappers
  import opened Utils
  import opened Store
  import opened DbSecret
  import DbSecretValues
  import Decimal
  import Lease
  import Vault

  const FAR: int := 0x3FFF_FFFF_FFFF_FFFF

  /** The two delays that the deployment promises, and the Vault role in use. */
  datatype Bounds = Bounds(period: real, delay: real, mount: string, role: string) {
    predicate Valid() {
      && period >= 0.0 && delay >= 0.0
      && period + delay < GRACE as real
    }

    /** Vault grants leases of this role, for long enough and under an id that can be
        rebuilt from its fourth element; `Lease.RoundTrip` says which ids are. */
    predicate Grants(creds: Vault.Credentials) {
      && var id := Lease.ShortId(creds.leaseId);
      && id.Some? && id.value != ""
      && creds.leaseId == Lease.Path(mount, role, id.value)
      && Lasts(creds.leaseDuration)
    }

    predicate Lasts(seconds: int) {
      period + delay < seconds as real && seconds <= FAR
    }

    predicate Names(spec: Spec) {
      spec.mount == mount && spec.role == role
    }
  }

  /** The time of the grant that the pass has not finished storing. */
  function GrantedAt(pc: Pc): Option<real> {
    match pc
    case StampingRenewal(_, _, granted) => Some(granted)
    case WritingRenewal(_, granted) => Some(granted)
    case ForcingIssue(_, granted) => Some(granted)
    case StampingIssue(_, _, _, granted) => Some(granted)
    case Creating(_, granted) => Some(granted)
    case Replacing(_, granted) => Some(granted)
    case _ => None
  }

  /** A stored Secret is written or found good once in every period, and no pass takes
      longer than the delay from a grant to its end. */
  predicate OnTime(b: Bounds, s: State) {
    && 0 <= s.w.now.Floor <= FAR
    && (s.w.secret.Some? ==> s.w.now <= s.w.confirmed + b.period)
    && (GrantedAt(s.pc).Some? ==> s.w.now <= GrantedAt(s.pc).value + b.delay)
  }

  /** Nobody else edits the Secret, the role stays, and Vault never gives out a lease
      id twice. */
  predicate Fits(b: Bounds, s: State, e: Event) {
    match e
    case Outside(_) => false
    case User(Edit(_, _, _, spec)) => b.Names(spec)
    case User(Create(_, _, _, spec)) => b.Names(spec)
    case Call(_, _, creds, _) => s.pc.Issuing? ==> b.Grants(creds) && creds.leaseId !in s.w.issued
    case _ => true
  }

  ghost predicate Punctual(cfg: Config, b: Bounds, s: State, es: seq<Event>) {
    es != [] ==>
      && Punctual(cfg, b, s, es[..|es| - 1])
      && Fits(b, Exec(cfg, s, es[..|es| - 1]), es[|es| - 1])
      && OnTime(b, Exec(cfg, s, es))
  }

  /** The annotations say which lease it is, for how long it was granted, and nothing
      about its end that is more than the delay too late. */
  predicate Labelled(b: Bounds, w: World, secret: Secret) {
    && var lease, meta := secret.data.lease, secret.annotations;
    && var expiresOn, duration := Decimal.Parse(At(meta, ExpiresOn)), Decimal.Parse(At(meta, LeaseDuration));
    && lease in w.expiry && lease in w.issued
    && At(meta, LeaseId) != "" && lease == Lease.Path(b.mount, b.role, At(meta, LeaseId))
    && duration.Some? && b.Lasts(duration.value)
    && expiresOn.Some? && expiresOn.value as real <= w.expiry[lease] + b.delay
    && w.expiry[lease] <= w.now + duration.value as real
  }

  /** A grant at that time of the lease in the Secret. */
  predicate Granted(w: World, secret: Secret, granted: real) {
    && var duration := Decimal.Parse(At(secret.annotations, LeaseDuration));
    && granted <= w.now
    && secret.data.lease in w.expiry && duration.Some?
    && w.expiry[secret.data.lease] == granted + duration.value as real
  }

  predicate SpecKnown(b: Bounds, pc: Pc) {
    match pc
    case GotCr(cr) => b.Names(cr.spec)
    case AddingFinalizer(cr, _) => b.Names(cr.spec)
    case Guarded(cr, _) => b.Names(cr.spec)
    case Renewing(cr, _) => b.Names(cr.spec)
    case Superseding(cr, _) => b.Names(cr.spec)
    case Issuing(cr, _) => b.Names(cr.spec)
    case StampingIssue(cr, _, _, _) => b.Names(cr.spec)
    case Revoking(cr, _) => b.Names(cr.spec)
    case Deleting(cr) => b.Names(cr.spec)
    case RemovingFinalizer(cr) => b.Names(cr.spec)
    case _ => true
  }

  predicate CopyOfStored(w: World, secret: Secret) {
    && w.secret.Some?
    && secret.annotations == w.secret.value.annotations
    && secret.data.lease == w.secret.value.data.lease
  }

  predicate GrantKnown(b: Bounds, s: State) {
    match s.pc
    case AddingFinalizer(_, cur) => cur == s.w.secret
    case Guarded(_, secret) => Some(secret) == s.w.secret
    case Renewing(_, secret) => CopyOfStored(s.w, secret)
    case StampingRenewal(secret, increment, granted) =>
      && CopyOfStored(s.w, secret) && Granted(s.w, secret, granted)
      && Decimal.Parse(At(secret.annotations, LeaseDuration)) == Some(increment)
    case WritingRenewal(obj, granted) => Labelled(b, s.w, obj) && Granted(s.w, obj, granted)
    case ForcingIssue(obj, granted) => Labelled(b, s.w, obj) && Granted(s.w, obj, granted)
    case StampingIssue(_, _, creds, granted) =>
      && b.Grants(creds) && creds.leaseId in s.w.issued && granted <= s.w.now
      && creds.leaseId in s.w.expiry && s.w.expiry[creds.leaseId] == granted + creds.leaseDuration as real
    case Creating(obj, granted) => Labelled(b, s.w, obj) && Granted(s.w, obj, granted)
    case Replacing(obj, granted) => Labelled(b, s.w, obj) && Granted(s.w, obj, granted)
    case _ => true
  }

  predicate TimedInv(b: Bounds, s: State) {
    && (s.w.crs.cr.Some? ==> b.Names(s.w.crs.cr.value.spec))
    && SpecKnown(b, s.pc)
    && GrantKnown(b, s)
    && (s.w.secret.Some? ==>
          && Labelled(b, s.w, s.w.secret.value)
          && s.w.expiry[s.w.secret.value.data.lease] > s.w.confirmed + b.period)
  }

  /** An annotation that is more than the grace ahead is more than the period ahead of
      the true end of the lease, whatever fractions of seconds were cut off. */
  lemma NoOpLeavesAPeriod(b: Bounds, s: State, cfg: Config, e: Event)
    requires b.Valid() && TimedInv(b, s) && e.Call? && s.pc.Guarded?
    ensures TimedInv(b, Apply(cfg, s, e))
  {
    var meta := s.pc.secret.annotations;
    if Decide(cfg, s.pc.cr.spec, meta, s.w.now.Floor, e.found).NoOp? {
      assert Decimal.Parse(At(meta, ExpiresOn)).value >= s.w.now.Floor + GRACE + 1;
    }
    assert Trimmed(s.pc.cr.spec, s.pc.secret).annotations == meta;
  }

  lemma TimedAtRenewal(b: Bounds, s: State, fault: Fault)
    requires b.Valid() && TimedInv(b, s) && s.pc.Renewing?
    ensures TimedInv(b, RenewLease(s.w, s.pc.cr, s.pc.secret, fault))
  {
  }

  lemma RenewalIsLabelled(b: Bounds, s: State, cfg: Config)
    requires b.Valid() && TimedInv(b, s) && OnTime(b, s) && s.pc.StampingRenewal?
    ensures var obj := Renewed(cfg, s.pc.secret, s.w.now.Floor, s.pc.increment);
      TimedInv(b, State(s.w, WritingRenewal(obj, s.pc.granted)))
  {
    Decimal.ParseFormat(s.w.now.Floor + s.pc.increment);
  }

  lemma TimedAtRenewalWrite(b: Bounds, s: State, fault: Fault)
    requires b.Valid() && TimedInv(b, s) && OnTime(b, s)
    requires s.pc.WritingRenewal? || s.pc.ForcingIssue?
    ensures s.pc.WritingRenewal? ==> TimedInv(b, WriteRenewal(s.w, s.pc.obj, s.pc.granted, fault))
    ensures s.pc.ForcingIssue? ==> TimedInv(b, ForceIssue(s.w, s.pc.obj, fault))
  {
  }

  lemma UpsertedIsLabelled(b: Bounds, s: State, cfg: Config, before: set<string>)
    requires b.Valid() && TimedInv(b, s) && OnTime(b, s) && s.pc.StampingIssue?
    ensures var obj := Upserted(cfg, s.pc.cr, s.pc.creds, s.pc.cur, s.w.now.Floor, before);
      && obj.Some? && Labelled(b, s.w, obj.value) && Granted(s.w, obj.value, s.pc.granted)
  {
    var obj := Upserted(cfg, s.pc.cr, s.pc.creds, s.pc.cur, s.w.now.Floor, before);
    UpsertedSays(cfg, s.pc.cr, s.pc.creds, s.pc.cur, s.w.now.Floor, before);
    IssueIsLabelled(b, s, obj.value);
  }

  predicate Says(obj: Option<Secret>, creds: Vault.Credentials, now: int) {
    && obj.Some? && obj.value.data.lease == creds.leaseId
    && Some(At(obj.value.annotations, LeaseId)) == Lease.ShortId(creds.leaseId)
    && At(obj.value.annotations, LeaseDuration) == Decimal.Format(creds.leaseDuration)
    && At(obj.value.annotations, ExpiresOn) == Decimal.Format(now + creds.leaseDuration)
  }

  lemma UpsertedSays(cfg: Config, cr: DbCr, creds: Vault.Credentials, cur: Option<Secret>, now: int,
      before: set<string>)
    requires Lease.ShortId(creds.leaseId).Some?
    ensures Says(Upserted(cfg, cr, creds, cur, now, before), creds, now)
  {
    var base := if cur.Some? then cur.value else EMPTY;
    var obj, all := Upserted(cfg, cr, creds, cur, now, before), base.annotations + cr.annotations;
    MetaSays(cfg, obj, all, creds, now, FakeHash(cfg.engine, cfg.digest, cr.spec.template));
  }

  lemma MetaSays(cfg: Config, obj: Option<Secret>, base: Meta, creds: Vault.Credentials, now: int, hash: string)
    requires obj.Some? && obj.value.data.lease == creds.leaseId && Lease.ShortId(creds.leaseId).Some?
    requires obj.value.annotations
          == UpsertedMeta(cfg, base, Lease.ShortId(creds.leaseId).value, creds.leaseDuration, now, hash)
    ensures Says(obj, creds, now)
  {
    UpsertedMetaReads(cfg, base, Lease.ShortId(creds.leaseId).value, creds.leaseDuration, now, hash);
  }

  lemma IssueIsLabelled(b: Bounds, s: State, obj: Secret)
    requires b.Valid() && TimedInv(b, s) && OnTime(b, s) && s.pc.StampingIssue?
    requires obj.data.lease == s.pc.creds.leaseId
    requires Some(At(obj.annotations, LeaseId)) == Lease.ShortId(s.pc.creds.leaseId)
    requires At(obj.annotations, LeaseDuration) == Decimal.Format(s.pc.creds.leaseDuration)
    requires At(obj.annotations, ExpiresOn) == Decimal.Format(s.w.now.Floor + s.pc.creds.leaseDuration)
    ensures Labelled(b, s.w, obj) && Granted(s.w, obj, s.pc.granted)
  {
    Decimal.ParseFormat(s.w.now.Floor + s.pc.creds.leaseDuration);
    Decimal.ParseFormat(s.pc.creds.leaseDuration);
  }

  lemma TimedAtStamp(b: Bounds, s: State, obj: Option<Secret>)
    requires TimedInv(b, s) && s.pc.StampingIssue?
    requires obj.Some? && Labelled(b, s.w, obj.value) && Granted(s.w, obj.value, s.pc.granted)
    ensures TimedInv(b, StampIssue(s.w, obj, s.pc.creds, s.pc.granted))
  {
  }

  lemma TimedAtIssue(b: Bounds, s: State, creds: Vault.Credentials, fault: Fault)
    requires b.Valid() && TimedInv(b, s) && s.pc.Issuing?
    requires b.Grants(creds) && creds.leaseId !in s.w.issued
    ensures TimedInv(b, IssueLease(s.w, s.pc.cr, s.pc.cur, creds, fault))
  {
  }

  lemma TimedAtWrite(b: Bounds, s: State, fault: Fault)
    requires b.Valid() && TimedInv(b, s) && OnTime(b, s)
    requires s.pc.Creating? || s.pc.Replacing?
    ensures s.pc.Creating? ==> TimedInv(b, WriteNew(s.w, s.pc.obj, s.pc.granted, fault))
    ensures s.pc.Replacing? ==> TimedInv(b, WriteOver(s.w, s.pc.obj, fault))
  {
  }

  lemma TimedBetweenCalls(b: Bounds, s: State, cfg: Config, e: Event)
    requires b.Valid() && TimedInv(b, s) && OnTime(b, s) && Fits(b, s, e) && !e.Call?
    ensures TimedInv(b, Apply(cfg, s, e))
  {
  }

  lemma TimedAtRead(b: Bounds, s: State, fault: Fault)
    requires TimedInv(b, s)
    ensures s.pc.GotCr? ==> TimedInv(b, AfterRead(s.w, s.pc.cr, s.w.secret))
    ensures s.pc.AddingFinalizer? ==> TimedInv(b, AddFinalizer(s.w, s.pc.cr, s.pc.cur, fault))
  {
  }

  lemma TimedAtDeletion(b: Bounds, s: State, fault: Fault)
    requires TimedInv(b, s)
    ensures s.pc.Deleting? ==> TimedInv(b, Remove(s.w, s.pc.cr, fault))
    ensures s.pc.RemovingFinalizer? ==> TimedInv(b, RemoveFinalizer(s.w, s.pc.cr, fault))
  {
  }

  lemma TimedAtRevocation(b: Bounds, s: State, cfg: Config)
    requires TimedInv(b, s) && cfg.secretName != ""
    ensures s.pc.Superseding? ==>
      TimedInv(b, State(RevokeLease(cfg, s.w, s.pc.cr.spec, Some(s.pc.secret)), Issuing(s.pc.cr, Some(s.pc.secret))))
    ensures s.pc.Revoking? ==>
      TimedInv(b, State(RevokeLease(cfg, s.w, s.pc.cr.spec, s.pc.cur), Deleting(s.pc.cr)))
  {
  }

  lemma TimedStep(b: Bounds, s: State, cfg: Config, e: Event)
    requires b.Valid() && TimedInv(b, s) && OnTime(b, s) && Fits(b, s, e) && cfg.secretName != ""
    ensures TimedInv(b, Apply(cfg, s, e))
  {
    if !e.Call? {
      TimedBetweenCalls(b, s, cfg, e);
    } else if s.pc.Guarded? {
      NoOpLeavesAPeriod(b, s, cfg, e);
    } else if s.pc.Renewing? {
      TimedAtRenewal(b, s, e.fault);
    } else if s.pc.StampingRenewal? {
      RenewalIsLabelled(b, s, cfg);
    } else if s.pc.WritingRenewal? || s.pc.ForcingIssue? {
      TimedAtRenewalWrite(b, s, e.fault);
    } else if s.pc.StampingIssue? {
      UpsertedIsLabelled(b, s, cfg, e.before);
      TimedAtStamp(b, s, Upserted(cfg, s.pc.cr, s.pc.creds, s.pc.cur, s.w.now.Floor, e.before));
    } else if s.pc.Issuing? {
      TimedAtIssue(b, s, e.creds, e.fault);
    } else if s.pc.Creating? || s.pc.Replacing? {
      TimedAtWrite(b, s, e.fault);
    } else {
      TimedAtRead(b, s, e.fault);
      TimedAtDeletion(b, s, e.fault);
      TimedAtRevocation(b, s, cfg);
    }
  }

  lemma {:induction false} TimedRun(cfg: Config, b: Bounds, s: State, es: seq<Event>)
    requires b.Valid() && TimedInv(b, s) && OnTime(b, s) && cfg.secretName != ""
    requires Punctual(cfg, b, s, es)
    ensures TimedInv(b, Exec(cfg, s, es)) && OnTime(b, Exec(cfg, s, es))
  {
    if es != [] {
      TimedRun(cfg, b, s, es[..|es| - 1]);
      TimedStep(b, Exec(cfg, s, es[..|es| - 1]), cfg, es[|es| - 1]);
    }
  }

  /** Vault has not ended this lease. */
  predicate Alive(w: World, lease: string) {
    lease in w.expiry && w.now < w.expiry[lease]
  }

  /** In every punctual run, at every moment, the lease that the Secret names has not
      reached the end that Vault gave it. */
  lemma LeaseNeverRunsOut(cfg: Config, b: Bounds, s: State, es: seq<Event>)
    requires b.Valid() && Initial(s) && OnTime(b, s) && cfg.secretName != ""
    requires Punctual(cfg, b, s, es)
    ensures var w := Exec(cfg, s, es).w; w.secret.Some? ==> Alive(w, w.secret.value.data.lease)
  {
    TimedRun(cfg, b, s, es);
  }

  /** In every such run in which every issue replaces the values that are there, no value
      in the Secret is ever past the end of the lease that it was made from. */
  lemma CredentialsNeverExpire(cfg: Config, b: Bounds, s: State, es: seq<Event>)
    requires b.Valid() && Initial(s) && OnTime(b, s) && cfg.secretName != ""
    requires Punctual(cfg, b, s, es) && DbSecretValues.ReplacingRun(cfg, s, es)
    ensures var w := Exec(cfg, s, es).w;
      w.secret.Some? ==> forall k | k in w.secret.value.data.values :: Alive(w, w.secret.value.data.values[k].lease)
  {
    LeaseNeverRunsOut(cfg, b, s, es);
    DbSecretValues.ValuesAreCurrent(cfg, s, es);
  }
}
