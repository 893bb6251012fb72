/** What a pass does to a stored Secret, in terms of its annotations, the resource, the
    clock and Vault's answer. */
module DbSecretDecision {
  import opened Wrappers
  import opened Utils
  import opened Store
  import opened DbSecret
  import opened DbSecretProgress
  import DbSecretTiming
  import Decimal
  import Lease
  import Vault

  /** The facts that a pass decides on. Due: the annotated end is unreadable or at most two
      minutes away. Changed: the templates and the Secret have different hashes. Live: the
      Secret names a lease, and Vault finds it. */
  datatype Facts = Facts(due: bool, changed: bool, live: bool, forced: bool, renew: bool)

  ghost predicate Hold(f: Facts, cfg: Config, w: World, e: Event) {
    && w.crs.cr.Some? && w.secret.Some? && e.Call?
    && var spec, meta := w.crs.cr.value.spec, w.secret.value.annotations;
    && var end, hash := Decimal.Parse(At(meta, ExpiresOn)), FakeHash(cfg.engine, cfg.digest, spec.template);
    && (f.due <==> (end.Some? ==> end.value - w.now.Floor <= 120))
    && (f.changed <==> hash != "" && At(meta, TemplateHash) != "" && hash != At(meta, TemplateHash))
    && (f.live <==> At(meta, LeaseId) != "" && e.found)
    && (f.forced <==> At(meta, Force) == "true")
    && (f.renew <==> spec.renew)
  }

  /** The lease in the annotations, as Vault names it. */
  function NamedLease(spec: Spec, meta: Meta): string {
    spec.mount + "/creds/" + spec.role + "/" + At(meta, LeaseId)
  }

  /** A renewal that Vault can grant. */
  predicate CanRenew(w: World, increment: int)
    requires w.crs.cr.Some? && w.secret.Some?
  {
    var spec, meta := w.crs.cr.value.spec, w.secret.value.annotations;
    && Decimal.Parse(At(meta, LeaseDuration)) == Some(increment)
    && NamedLease(spec, meta) in w.expiry && w.now < w.expiry[NamedLease(spec, meta)]
  }

  /** No credentials are issued or given up; the lease ends the increment from now, and the
      Secret says so. All other labels and annotations stay. */
  predicate MovesOnlyTheEnd(cfg: Config, w: World, t: World, increment: int, key: MetaKey)
    requires w.crs.cr.Some? && w.secret.Some?
  {
    var spec, meta := w.crs.cr.value.spec, w.secret.value.annotations;
    && t.issued == w.issued && t.handed == w.handed && t.lost == w.lost
    && NamedLease(spec, meta) in t.expiry
    && t.expiry[NamedLease(spec, meta)] == w.now + increment as real
    && t.secret.Some? && t.secret.value.labels == w.secret.value.labels
    && At(t.secret.value.annotations, ExpiresOn) == Decimal.Format(w.now.Floor + increment)
    && At(t.secret.value.annotations, LastUpdated) == cfg.stamp(w.now.Floor)
    && (key != ExpiresOn && key != LastUpdated ==> At(t.secret.value.annotations, key) == At(meta, key))
  }

  /** The values stay as they are, or, without templates, those of them that are credentials. */
  predicate KeepsValue(w: World, t: World, k: string)
    requires w.crs.cr.Some? && w.secret.Some?
  {
    && t.secret.Some? && t.secret.value.data.lease == w.secret.value.data.lease
    && var before, after := w.secret.value.data.values, t.secret.value.data.values;
    && (k in after <==> k in before && (w.crs.cr.value.spec.template != map[] || k == "username" || k == "password"))
    && (k in after ==> after[k] == before[k])
  }

  /** The Secret has a new lease, which Vault has granted from now on. */
  predicate IssuedAnew(w: World, t: World, creds: Vault.Credentials) {
    && creds.leaseId in t.issued
    && creds.leaseId in t.expiry && t.expiry[creds.leaseId] == w.now + creds.leaseDuration as real
    && t.secret.Some? && t.secret.value.data.lease == creds.leaseId
    && At(t.secret.value.annotations, ExpiresOn) == Decimal.Format(w.now.Floor + creds.leaseDuration)
    && Some(At(t.secret.value.annotations, LeaseId)) == Lease.ShortId(creds.leaseId)
  }

  predicate LeftAlone(w: World, t: World) {
    t.secret == w.secret && t.issued == w.issued && t.expiry == w.expiry && t.handed == w.handed && t.lost == w.lost
  }

  /** A lease that is live, not due, and has its templates is left alone. One that is due, or
      whose templates changed, is renewed if it is live, the resource asks for renewals and
      nothing forces new credentials. In all other cases new credentials are issued. */
  lemma PassDecides(cfg: Config, s: State, e: Event, f: Facts, increment: int, k: string, key: MetaKey)
    requires Serving(cfg, s) && Usable(e) && Hold(f, cfg, s.w, e)
    requires f.live && (f.due || f.changed) && f.renew && !f.forced ==> CanRenew(s.w, increment)
    ensures var t := Calls(cfg, s, e, PassCalls(cfg, s.w, e)).w;
      if f.live && !f.due && !f.changed then LeftAlone(s.w, t)
      else if f.live && f.renew && !f.forced then
        MovesOnlyTheEnd(cfg, s.w, t, increment, key) && KeepsValue(s.w, t, k)
      else IssuedAnew(s.w, t, e.creds)
  {
    PassCompletes(cfg, s, e);
    EntersOnly(s.w, e, cfg);
    StillHold(f, cfg, s.w, Entered(s.w), e);
    ServiceDecides(cfg, s.w, Entered(s.w), e, f, increment, k, key);
  }

  /** Where there is no Secret, one with new credentials is created. */
  lemma FirstPassIssues(cfg: Config, s: State, e: Event)
    requires Serving(cfg, s) && Usable(e) && s.w.secret.None?
    ensures IssuedAnew(s.w, Calls(cfg, s, e, PassCalls(cfg, s.w, e)).w, e.creds)
  {
    PassCompletes(cfg, s, e);
    EntersOnly(s.w, e, cfg);
    ServiceIssues(cfg, s.w, Entered(s.w), e);
  }

  /** The first calls of a pass: they change nothing but the finalizers. */
  predicate HasEntered(w: World, entered: World) {
    && entered == w.(crs := entered.crs)
    && w.crs.cr.Some? && entered.crs.cr.Some? && entered.crs.cr.value.spec == w.crs.cr.value.spec
  }

  lemma ServiceDecides(cfg: Config, w: World, entered: World, e: Event, f: Facts, increment: int, k: string,
      key: MetaKey)
    requires Hold(f, cfg, w, e) && Hold(f, cfg, entered, e) && Usable(e)
    requires HasEntered(w, entered)
    requires f.live && (f.due || f.changed) && f.renew && !f.forced ==> CanRenew(w, increment)
    requires ActionOf(cfg, entered, e).Renew? ==> Renewable(entered, w.crs.cr.value.spec, w.secret.value)
    ensures var t := Served(cfg, entered, e);
      if f.live && !f.due && !f.changed then LeftAlone(w, t)
      else if f.live && f.renew && !f.forced then
        MovesOnlyTheEnd(cfg, w, t, increment, key) && KeepsValue(w, t, k)
      else IssuedAnew(w, t, e.creds)
  {
    FactsDecide(f, cfg, entered, e);
    if f.live && !f.due && !f.changed {
    } else if f.live && f.renew && !f.forced {
      ServiceRenews(cfg, w, entered, e, increment, key);
      ServiceKeepsValue(cfg, w, entered, e, k);
    } else {
      ServiceIssues(cfg, w, entered, e);
    }
  }

  lemma StillHold(f: Facts, cfg: Config, w: World, entered: World, e: Event)
    requires Hold(f, cfg, w, e) && HasEntered(w, entered)
    ensures Hold(f, cfg, entered, e)
  {
  }

  lemma FactsDecide(f: Facts, cfg: Config, w: World, e: Event)
    requires Hold(f, cfg, w, e)
    ensures ActionOf(cfg, w, e) ==
      if f.live && !f.due && !f.changed then NoOp
      else if f.live && f.renew && !f.forced then Renew
      else Issue
  {
  }

  lemma ServiceRenews(cfg: Config, w: World, entered: World, e: Event, increment: int, key: MetaKey)
    requires w.secret.Some? && w.crs.cr.Some? && e.Call?
    requires HasEntered(w, entered)
    requires ActionOf(cfg, entered, e).Renew? && CanRenew(w, increment)
    requires Renewable(entered, w.crs.cr.value.spec, w.secret.value)
    ensures MovesOnlyTheEnd(cfg, w, Served(cfg, entered, e), increment, key)
  {
  }

  lemma ServiceKeepsValue(cfg: Config, w: World, entered: World, e: Event, k: string)
    requires w.secret.Some? && w.crs.cr.Some? && e.Call?
    requires HasEntered(w, entered)
    requires ActionOf(cfg, entered, e).Renew? && Renewable(entered, w.crs.cr.value.spec, w.secret.value)
    ensures KeepsValue(w, Served(cfg, entered, e), k)
  {
  }

  lemma ProvidedAnew(cfg: Config, w: World, cr: DbCr, cur: Option<Secret>, e: Event)
    requires Usable(e)
    ensures IssuedAnew(w, Provided(cfg, w, cr, cur, e), e.creds)
  {
    DbSecretTiming.UpsertedSays(cfg, cr, e.creds, cur, w.now.Floor, e.before);
  }

  lemma AnewFrom(cfg: Config, w: World, freed: World, cr: DbCr, cur: Option<Secret>, e: Event, t: World)
    requires Usable(e) && freed.now == w.now && t == Provided(cfg, freed, cr, cur, e)
    ensures IssuedAnew(w, t, e.creds)
  {
    ProvidedAnew(cfg, freed, cr, cur, e);
  }

  /** The world in which new credentials are asked for, and the copy they are stored over. */
  lemma IssueStart(cfg: Config, w: World, e: Event) returns (freed: World, cur: Option<Secret>)
    requires w.crs.cr.Some? && e.Call? && ActionOf(cfg, w, e).Issue?
    ensures Served(cfg, w, e) == Provided(cfg, freed, w.crs.cr.value, cur, e) && freed.now == w.now
  {
    var spec := w.crs.cr.value.spec;
    if w.secret.None? {
      freed, cur := w, None;
    } else {
      cur := Some(Trimmed(spec, w.secret.value));
      freed := if At(cur.value.annotations, LeaseId) == "" then w else RevokeLease(cfg, w, spec, cur);
    }
  }

  lemma ServiceIssues(cfg: Config, w: World, entered: World, e: Event)
    requires w.crs.cr.Some? && Usable(e)
    requires HasEntered(w, entered)
    requires ActionOf(cfg, entered, e).Issue?
    ensures IssuedAnew(w, Served(cfg, entered, e), e.creds)
  {
    var freed, cur := IssueStart(cfg, entered, e);
    AnewFrom(cfg, w, freed, entered.crs.cr.value, cur, e, Served(cfg, entered, e));
  }
}
