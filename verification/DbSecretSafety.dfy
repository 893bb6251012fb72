/** What holds in every state that a run of the DbSecret machine can reach: the
    finalizer protocol and the lease ledger. */
module DbSecretSafety {
  import opened Wrappers
  import opened Utils
  import opened Store
  import opened DbSecret
  import Lease
  import Vault

  // ---- the finalizer ----

  /** The pass has seen the finalizer on a resource that was not being deleted. */
  predicate PastGate(pc: Pc) {
    !(pc.Idle? || pc.GotCr? || pc.AddingFinalizer? || pc.Revoking? || pc.Deleting? || pc.RemovingFinalizer?)
  }

  ghost predicate CopyKnown(s: State) {
    match s.pc
    case GotCr(cr) => CopyOf(cr, s.w.crs) && (FINALIZER in cr.finalizers ==> Held(s.w.crs, FINALIZER))
    case AddingFinalizer(cr, _) => CopyOf(cr, s.w.crs) && !cr.deleting && FINALIZER !in cr.finalizers
    case Revoking(cr, _) => CopyOf(cr, s.w.crs) && cr.deleting
    case Deleting(cr) => CopyOf(cr, s.w.crs) && cr.deleting
    case RemovingFinalizer(cr) => CopyOf(cr, s.w.crs) && cr.deleting && !s.w.ours
    case _ => true
  }

  ghost predicate FinalizerInv(s: State) {
    && Numbered(s.w.crs)
    && CopyKnown(s)
    && (PastGate(s.pc) ==> Held(s.w.crs, FINALIZER))
    && (s.w.ours ==> s.w.secret.Some? && Held(s.w.crs, FINALIZER))
  }

  lemma FinalizerPastGate(cfg: Config, s: State, e: Event)
    requires FinalizerInv(s) && PastGate(s.pc) && e.Call?
    ensures FinalizerInv(Apply(cfg, s, e))
  {
    var t := Apply(cfg, s, e);
    assert t.w.crs == s.w.crs;
    assert t.pc.Idle? || PastGate(t.pc);
  }

  lemma FinalizerAdded(s: State, fault: Fault)
    requires FinalizerInv(s) && s.pc.AddingFinalizer?
    ensures FinalizerInv(AddFinalizer(s.w, s.pc.cr, s.pc.cur, fault))
  {
    var finalizers := s.pc.cr.finalizers + [FINALIZER];
    assert finalizers[|s.pc.cr.finalizers|] == FINALIZER;
  }

  lemma FinalizerStep(cfg: Config, s: State, e: Event)
    requires FinalizerInv(s)
    ensures FinalizerInv(Apply(cfg, s, e))
  {
    if e.User? {
      ActKeeps(s.w.crs, e.act, FINALIZER);
    } else if e.Call? && s.pc.AddingFinalizer? {
      FinalizerAdded(s, e.fault);
    } else if e.Call? && PastGate(s.pc) {
      FinalizerPastGate(cfg, s, e);
    }
  }

  /** Whatever other parties do between two calls, however calls fail and passes break
      off: a Secret that the operator wrote has its resource, with the finalizer on it. */
  lemma {:induction false} FinalizerGuardsSecret(cfg: Config, s: State, es: seq<Event>)
    requires Initial(s)
    ensures var w := Exec(cfg, s, es).w;
      w.ours ==> w.secret.Some? && w.crs.cr.Some? && FINALIZER in w.crs.cr.value.finalizers
    ensures FinalizerInv(Exec(cfg, s, es))
  {
    if es != [] {
      FinalizerGuardsSecret(cfg, s, es[..|es| - 1]);
      FinalizerStep(cfg, Exec(cfg, s, es[..|es| - 1]), es[|es| - 1]);
    }
  }

  /** The operator changes nothing of the resource but its own finalizer. */
  lemma OperatorTouchesOnlyItsFinalizer(cfg: Config, s: State, es: seq<Event>, e: Event)
    requires Initial(s)
    requires e.Call? || e.Crash?
    ensures TouchesOnly(FINALIZER, Exec(cfg, s, es).w.crs.cr, Exec(cfg, s, es + [e]).w.crs.cr)
  {
    assert (es + [e])[..|es|] == es;
    FinalizerGuardsSecret(cfg, s, es);
    OperatorStep(cfg, Exec(cfg, s, es), e);
  }

  lemma OperatorStep(cfg: Config, s: State, e: Event)
    requires FinalizerInv(s)
    requires e.Call? || e.Crash?
    ensures TouchesOnly(FINALIZER, s.w.crs.cr, Apply(cfg, s, e).w.crs.cr)
  {
    if e.Crash? {
      return;
    }
    match s.pc
    case AddingFinalizer(cr, cur) =>
      WithoutConcat(cr.finalizers, [FINALIZER], FINALIZER);
      UpdateTouchesOnly(FINALIZER, s.w.crs, cr, cr.finalizers + [FINALIZER], e.fault);
    case RemovingFinalizer(cr) =>
      UpdateTouchesOnly(FINALIZER, s.w.crs, cr, Without(cr.finalizers, FINALIZER), e.fault);
    case _ =>
      OtherCallsKeepResource(cfg, s.w, s.pc, e);
  }

  lemma OtherCallsKeepResource(cfg: Config, w: World, pc: Pc, e: Event)
    requires e.Call? && !pc.AddingFinalizer? && !pc.RemovingFinalizer?
    ensures Called(cfg, w, pc, e).w.crs == w.crs
  {
  }

  // ---- the lease ledger ----

  /** Nobody else edits the Secret, and Vault's lease ids have a fourth element that is
      not empty, if they have one. */
  predicate Undisturbed(e: Event) {
    && !e.Outside?
    && (e.Call? ==> Lease.ShortId(e.creds.leaseId) != Some(""))
  }

  /** The stored Secret may be replaced: `revokeLease` was given it. */
  predicate HandedOver(w: World) {
    LeaseOf(w.secret) <= w.handed
  }

  /** The id in the annotations is that of the lease. */
  predicate Named(secret: Secret) {
    && At(secret.annotations, LeaseId) != ""
    && Lease.ShortId(secret.data.lease) == Some(At(secret.annotations, LeaseId))
  }

  predicate SameLease(stored: Option<Secret>, copy: Secret) {
    stored.Some? && stored.value.data.lease == copy.data.lease && Named(copy)
  }

  ghost predicate CopyCurrent(s: State) {
    match s.pc
    case AddingFinalizer(_, cur) => cur == s.w.secret
    case Guarded(_, secret) => Some(secret) == s.w.secret
    case Renewing(_, secret) => SameLease(s.w.secret, secret)
    case StampingRenewal(secret, _, _) => SameLease(s.w.secret, secret)
    case WritingRenewal(obj, _) => SameLease(s.w.secret, obj)
    case ForcingIssue(obj, _) => SameLease(s.w.secret, obj)
    case Superseding(_, secret) => SameLease(s.w.secret, secret)
    case Issuing(_, _) => HandedOver(s.w)
    case StampingIssue(_, _, creds, _) => HandedOver(s.w) && Lease.ShortId(creds.leaseId) != Some("")
    case Creating(obj, _) => HandedOver(s.w) && Named(obj)
    case Replacing(obj, _) => HandedOver(s.w) && Named(obj)
    case Revoking(_, cur) => cur == s.w.secret
    case Deleting(_) => HandedOver(s.w)
    case _ => true
  }

  ghost predicate LedgerInv(s: State) {
    && s.w.issued == LeaseOf(s.w.secret) + s.w.handed + s.w.lost + InFlight(s.pc)
    && (s.w.secret.Some? ==> Named(s.w.secret.value))
    && CopyCurrent(s)
  }

  lemma UpsertedNamesLease(cfg: Config, cr: DbCr, creds: Vault.Credentials, cur: Option<Secret>, now: int,
      before: set<string>)
    ensures var r := Upserted(cfg, cr, creds, cur, now, before);
      && (r.Some? <==> Lease.ShortId(creds.leaseId).Some?)
      && (r.Some? ==>
            && r.value.data.lease == creds.leaseId
            && Some(At(r.value.annotations, LeaseId)) == Lease.ShortId(creds.leaseId))
  {
    var base := if cur.Some? then cur.value else EMPTY;
    if Lease.ShortId(creds.leaseId).Some? {
      UpsertedMetaReads(cfg, base.annotations + cr.annotations, Lease.ShortId(creds.leaseId).value,
        creds.leaseDuration, now, FakeHash(cfg.engine, cfg.digest, cr.spec.template));
    }
  }

  lemma LedgerAtIssue(s: State, creds: Vault.Credentials, fault: Fault)
    requires LedgerInv(s) && s.pc.Issuing?
    requires Lease.ShortId(creds.leaseId) != Some("")
    ensures LedgerInv(IssueLease(s.w, s.pc.cr, s.pc.cur, creds, fault))
  {
  }

  lemma LedgerAtCreate(s: State, fault: Fault)
    requires LedgerInv(s) && s.pc.Creating?
    ensures LedgerInv(WriteNew(s.w, s.pc.obj, s.pc.granted, fault))
  {
  }

  lemma LedgerAtReplace(s: State, fault: Fault)
    requires LedgerInv(s) && s.pc.Replacing?
    ensures LedgerInv(WriteOver(s.w, s.pc.obj, fault))
  {
  }

  lemma LedgerAtStamp(s: State, obj: Option<Secret>)
    requires LedgerInv(s) && s.pc.StampingIssue?
    requires obj.Some? ==> obj.value.data.lease == s.pc.creds.leaseId && Named(obj.value)
    ensures LedgerInv(StampIssue(s.w, obj, s.pc.creds, s.pc.granted))
  {
  }

  lemma LedgerAtRenewal(cfg: Config, s: State, fault: Fault)
    requires LedgerInv(s)
    ensures s.pc.Renewing? ==> LedgerInv(RenewLease(s.w, s.pc.cr, s.pc.secret, fault))
    ensures s.pc.StampingRenewal? ==>
      LedgerInv(State(s.w, WritingRenewal(Renewed(cfg, s.pc.secret, s.w.now.Floor, s.pc.increment), s.pc.granted)))
  {
  }

  lemma LedgerAtRenewalWrite(s: State, fault: Fault)
    requires LedgerInv(s)
    ensures s.pc.WritingRenewal? ==> LedgerInv(WriteRenewal(s.w, s.pc.obj, s.pc.granted, fault))
    ensures s.pc.ForcingIssue? ==> LedgerInv(ForceIssue(s.w, s.pc.obj, fault))
  {
  }

  lemma LedgerAtCheck(cfg: Config, s: State, e: Event)
    requires LedgerInv(s) && e.Call? && s.pc.Guarded?
    ensures LedgerInv(Apply(cfg, s, e))
  {
    assert Trimmed(s.pc.cr.spec, s.pc.secret).data.lease == s.pc.secret.data.lease;
    assert Trimmed(s.pc.cr.spec, s.pc.secret).annotations == s.pc.secret.annotations;
  }

  lemma LedgerBetweenCalls(cfg: Config, s: State, e: Event)
    requires LedgerInv(s) && Undisturbed(e) && !e.Call?
    ensures LedgerInv(Apply(cfg, s, e))
  {
  }

  lemma LedgerAtResource(s: State, fault: Fault)
    requires LedgerInv(s)
    ensures s.pc.GotCr? ==> LedgerInv(AfterRead(s.w, s.pc.cr, s.w.secret))
    ensures s.pc.AddingFinalizer? ==> LedgerInv(AddFinalizer(s.w, s.pc.cr, s.pc.cur, fault))
  {
  }

  lemma LedgerAtDeletion(s: State, fault: Fault)
    requires LedgerInv(s)
    ensures s.pc.Deleting? ==> LedgerInv(Remove(s.w, s.pc.cr, fault))
    ensures s.pc.RemovingFinalizer? ==> LedgerInv(RemoveFinalizer(s.w, s.pc.cr, fault))
  {
  }

  lemma LedgerAtRevocation(cfg: Config, s: State)
    requires LedgerInv(s)
    ensures s.pc.Superseding? ==>
      LedgerInv(State(RevokeLease(cfg, s.w, s.pc.cr.spec, Some(s.pc.secret)), Issuing(s.pc.cr, Some(s.pc.secret))))
    ensures s.pc.Revoking? ==> LedgerInv(State(RevokeLease(cfg, s.w, s.pc.cr.spec, s.pc.cur), Deleting(s.pc.cr)))
  {
  }

  lemma LedgerStep(cfg: Config, s: State, e: Event)
    requires LedgerInv(s) && Undisturbed(e)
    ensures LedgerInv(Apply(cfg, s, e))
  {
    if !e.Call? {
      LedgerBetweenCalls(cfg, s, e);
    } else {
      if s.pc.Guarded? {
        LedgerAtCheck(cfg, s, e);
      } else if s.pc.Renewing? || s.pc.StampingRenewal? {
        LedgerAtRenewal(cfg, s, e.fault);
      } else if s.pc.WritingRenewal? || s.pc.ForcingIssue? {
        LedgerAtRenewalWrite(s, e.fault);
      } else if s.pc.StampingIssue? {
        UpsertedNamesLease(cfg, s.pc.cr, s.pc.creds, s.pc.cur, s.w.now.Floor, e.before);
        LedgerAtStamp(s, Upserted(cfg, s.pc.cr, s.pc.creds, s.pc.cur, s.w.now.Floor, e.before));
      } else if s.pc.Issuing? {
        LedgerAtIssue(s, e.creds, e.fault);
      } else if s.pc.Creating? {
        LedgerAtCreate(s, e.fault);
      } else if s.pc.Replacing? {
        LedgerAtReplace(s, e.fault);
      } else if s.pc.Superseding? || s.pc.Revoking? {
        LedgerAtRevocation(cfg, s);
      } else if s.pc.Deleting? || s.pc.RemovingFinalizer? {
        LedgerAtDeletion(s, e.fault);
      } else {
        LedgerAtResource(s, e.fault);
      }
    }
  }

  /** Every lease ever issued is the one in the stored Secret, was in a Secret that was
      passed to `revokeLease`, was lost by a pass that could not store it, or is just
      about to be stored; and there are no other leases in these places. The one in the
      stored Secret is the one that its annotations name. */
  lemma {:induction false} LedgerBalances(cfg: Config, s: State, es: seq<Event>)
    requires Initial(s)
    requires forall i :: 0 <= i < |es| ==> Undisturbed(es[i])
    ensures var t := Exec(cfg, s, es);
      t.w.issued == LeaseOf(t.w.secret) + t.w.handed + t.w.lost + InFlight(t.pc)
    ensures var secret := Exec(cfg, s, es).w.secret;
      secret.Some? ==> Lease.ShortId(secret.value.data.lease) == Some(At(secret.value.annotations, LeaseId))
    ensures LedgerInv(Exec(cfg, s, es))
  {
    if es != [] {
      LedgerBalances(cfg, s, es[..|es| - 1]);
      LedgerStep(cfg, Exec(cfg, s, es[..|es| - 1]), es[|es| - 1]);
    }
  }

  /** A Secret in the cluster has a name, so no lease is ever revoked: not when it is
      superseded and not when its resource is deleted. Vault keeps every lease that it
      issued until the lease runs out by itself. */
  lemma {:induction false} NothingIsEverRevoked(cfg: Config, s: State, es: seq<Event>)
    requires Initial(s) && cfg.secretName != ""
    ensures var w := Exec(cfg, s, es).w;
      w.revoked == {} && w.issued <= w.expiry.Keys
  {
    if es != [] {
      NothingIsEverRevoked(cfg, s, es[..|es| - 1]);
      RevokesNothing(cfg, Exec(cfg, s, es[..|es| - 1]), es[|es| - 1]);
    }
  }

  predicate NothingRevoked(w: World) {
    w.revoked == {} && w.issued <= w.expiry.Keys
  }

  lemma RevokesNothing(cfg: Config, s: State, e: Event)
    requires cfg.secretName != "" && NothingRevoked(s.w)
    ensures NothingRevoked(Apply(cfg, s, e).w)
  {
    if e.Call? {
      if s.pc.Superseding? || s.pc.Revoking? {
        RevocationIsEmpty(cfg, s.w, s.pc.cr.spec, if s.pc.Revoking? then s.pc.cur else Some(s.pc.secret));
      } else {
        OtherCallsRevokeNothing(cfg, s.w, s.pc, e);
      }
    }
  }

  lemma RevocationIsEmpty(cfg: Config, w: World, spec: Spec, cur: Option<Secret>)
    requires cfg.secretName != "" && NothingRevoked(w)
    ensures NothingRevoked(RevokeLease(cfg, w, spec, cur))
  {
  }

  lemma OtherCallsRevokeNothing(cfg: Config, w: World, pc: Pc, e: Event)
    requires e.Call? && !pc.Superseding? && !pc.Revoking? && NothingRevoked(w)
    ensures NothingRevoked(Called(cfg, w, pc, e).w)
  {
  }

  // ---- passes that nothing repeats ----

  /** A write with new credentials that the operator does not know to have succeeded. */
  predicate Unsaved(w: World, pc: Pc, fault: Fault) {
    || (pc.Creating? && !CreateSecret(w.secret, pc.obj, fault).1.Done?)
    || (pc.Replacing? && !Overwrite(w, pc.obj, fault).1.Done?)
  }

  /** The resource is gone or excluded. */
  predicate NothingToDo(cfg: Config, w: World, pc: Pc, fault: Fault) {
    pc.Idle? && fault.Sound? && (w.crs.cr.None? || cfg.excluded)
  }

  /** The resource is being deleted, and there is nothing left to do, or it is done. */
  predicate Retired(w: World, pc: Pc, fault: Fault) {
    || (pc.GotCr? && fault.Sound? && pc.cr.deleting && FINALIZER !in pc.cr.finalizers)
    || (pc.RemovingFinalizer? &&
        UpdateCr(w.crs, pc.cr.(finalizers := Without(pc.cr.finalizers, FINALIZER)), fault).1.Some?)
  }

  /** A pass ends with neither an error nor a wish to come again if and only if the resource
      is gone, excluded or being deleted, or the new credentials could not be stored; the
      lease of these is lost, and no pass is asked for that would try again. */
  lemma SilentEnd(cfg: Config, w: World, pc: Pc, e: Event)
    requires e.Call? && Called(cfg, w, pc, e).pc.Idle?
    ensures ResultOf(w, pc, e.fault) == SILENT
       <==> NothingToDo(cfg, w, pc, e.fault) || Retired(w, pc, e.fault) || Unsaved(w, pc, e.fault)
    ensures Unsaved(w, pc, e.fault) ==> pc.obj.data.lease in Called(cfg, w, pc, e).w.lost
  {
  }
}
