/** What a pass over a DbSecret achieves when none of its calls fails. */
module DbSecretProgress {
  import opened Wrappers
  import opened Utils
  import opened Store
  import opened DbSecret
  import DbSecretQuiescence
  import DbSecretTiming
  import DbSecretValues
  import Decimal
  import Lease
  import Vault

  function Repeat(e: Event, n: nat): seq<Event> {
    if n == 0 then [] else Repeat(e, n - 1) + [e]
  }

  /** What `n` calls come to, all with the same inputs; each takes those it needs. */
  ghost function Calls(cfg: Config, s: State, e: Event, n: nat): State {
    Exec(cfg, s, Repeat(e, n))
  }

  lemma OneMore(cfg: Config, s: State, e: Event, n: nat)
    ensures Calls(cfg, s, e, 0) == s
    ensures Calls(cfg, s, e, n + 1) == Apply(cfg, Calls(cfg, s, e, n), e)
  {
    assert Repeat(e, n + 1)[..|Repeat(e, n + 1)| - 1] == Repeat(e, n);
  }

  lemma {:induction false} ExecConcat(cfg: Config, s: State, a: seq<Event>, b: seq<Event>)
    ensures Exec(cfg, s, a + b) == Exec(cfg, Exec(cfg, s, a), b)
  {
    if b == [] {
      assert a + b == a;
    } else {
      assert (a + b)[..|a + b| - 1] == a + b[..|b| - 1];
      ExecConcat(cfg, s, a, b[..|b| - 1]);
    }
  }

  lemma {:induction false} RepeatConcat(e: Event, m: nat, n: nat)
    ensures Repeat(e, m + n) == Repeat(e, m) + Repeat(e, n)
  {
    if n > 0 {
      RepeatConcat(e, m, n - 1);
    }
  }

  lemma FurtherCalls(cfg: Config, s: State, e: Event, m: nat, n: nat)
    ensures Calls(cfg, s, e, m + n) == Calls(cfg, Calls(cfg, s, e, m), e, n)
  {
    RepeatConcat(e, m, n);
    ExecConcat(cfg, s, Repeat(e, m), Repeat(e, n));
  }

  predicate Sound(e: Event) {
    e.Call? && e.fault.Sound?
  }

  /** At rest, with a resource that a pass will look at. */
  predicate Ready(cfg: Config, s: State) {
    s.pc.Idle? && !cfg.excluded && s.w.crs.cr.Some?
  }

  predicate Serving(cfg: Config, s: State) {
    Ready(cfg, s) && !s.w.crs.cr.value.deleting
  }

  lemma Reads(cfg: Config, s: State, e: Event)
    requires Ready(cfg, s) && Sound(e)
    ensures Calls(cfg, s, e, 2) == AfterRead(s.w, s.w.crs.cr.value, s.w.secret)
  {
    OneMore(cfg, s, e, 0);
    OneMore(cfg, s, e, 1);
  }

  // ---- deletion ----

  /** The end of a pass over a resource that is being deleted. */
  function Retired(cfg: Config, w: World, cr: DbCr): World {
    RevokeLease(cfg, w, cr.spec, w.secret).(
      secret := None, ours := false, crs := Put(w.crs, cr.(finalizers := Without(cr.finalizers, FINALIZER))))
  }

  lemma Retires(cfg: Config, s: State, e: Event)
    requires Ready(cfg, s) && Sound(e)
    requires s.w.crs.cr.value.deleting && FINALIZER in s.w.crs.cr.value.finalizers
    ensures Calls(cfg, s, e, 5) == ToIdle(Retired(cfg, s.w, s.w.crs.cr.value))
  {
    var w, cr := s.w, s.w.crs.cr.value;
    var freed := RevokeLease(cfg, w, cr.spec, w.secret);
    var removed := freed.(secret := None, ours := false);
    Reads(cfg, s, e);
    FurtherCalls(cfg, s, e, 2, 1);
    HandsOver(cfg, w, cr, w.secret, e);
    FurtherCalls(cfg, s, e, 3, 1);
    Removes(cfg, freed, cr, e);
    FurtherCalls(cfg, s, e, 4, 1);
    LetsGo(cfg, removed, cr, e);
  }

  /** One pass without failures is enough: the Secret is gone, its lease was passed to
      `revokeLease`, and the resource is gone too unless others still hold it. */
  lemma DeletionCompletes(cfg: Config, s: State, e: Event)
    requires Ready(cfg, s) && Sound(e)
    requires s.w.crs.cr.value.deleting && FINALIZER in s.w.crs.cr.value.finalizers
    ensures var t, others := Calls(cfg, s, e, 5), Without(s.w.crs.cr.value.finalizers, FINALIZER);
      && t.pc.Idle? && t.w.secret.None? && !t.w.ours
      && LeaseOf(s.w.secret) <= t.w.handed
      && (t.w.crs.cr.None? <==> others == [])
      && (t.w.crs.cr.Some? ==> t.w.crs.cr.value.finalizers == others)
  {
    Retires(cfg, s, e);
    RetiredWorld(cfg, s.w, s.w.crs.cr.value);
  }

  lemma RetiredWorld(cfg: Config, w: World, cr: DbCr)
    requires cr.deleting
    ensures var t, others := Retired(cfg, w, cr), Without(cr.finalizers, FINALIZER);
      && t.secret.None? && !t.ours
      && LeaseOf(w.secret) <= t.handed
      && (t.crs.cr.None? <==> others == [])
      && (t.crs.cr.Some? ==> t.crs.cr.value.finalizers == others)
  {
  }

  lemma HandsOver(cfg: Config, w: World, cr: DbCr, cur: Option<Secret>, e: Event)
    requires Sound(e)
    ensures Calls(cfg, State(w, Revoking(cr, cur)), e, 1) == State(RevokeLease(cfg, w, cr.spec, cur), Deleting(cr))
  {
    var s := State(w, Revoking(cr, cur));
    OneMore(cfg, s, e, 0);
    assert Apply(cfg, s, e) == Called(cfg, w, s.pc, e);
  }

  lemma Removes(cfg: Config, w: World, cr: DbCr, e: Event)
    requires Sound(e)
    ensures Calls(cfg, State(w, Deleting(cr)), e, 1)
         == State(w.(secret := None, ours := false), RemovingFinalizer(cr))
  {
    OneMore(cfg, State(w, Deleting(cr)), e, 0);
  }

  lemma LetsGo(cfg: Config, w: World, cr: DbCr, e: Event)
    requires Sound(e) && w.crs.cr == Some(cr)
    ensures Calls(cfg, State(w, RemovingFinalizer(cr)), e, 1)
         == ToIdle(w.(crs := Put(w.crs, cr.(finalizers := Without(cr.finalizers, FINALIZER)))))
  {
    OneMore(cfg, State(w, RemovingFinalizer(cr)), e, 0);
    assert Calls(cfg, State(w, RemovingFinalizer(cr)), e, 1) == RemoveFinalizer(w, cr, e.fault);
  }

  // ---- new credentials ----

  function Granted(w: World, creds: Vault.Credentials): World {
    w.(issued := w.issued + {creds.leaseId},
       expiry := w.expiry[creds.leaseId := w.now + creds.leaseDuration as real])
  }

  /** The world after credentials were issued and stored over `cur`. */
  ghost function Provided(cfg: Config, w: World, cr: DbCr, cur: Option<Secret>, e: Event): World
    requires e.Call?
  {
    Stored(Granted(w, e.creds), Upserted(cfg, cr, e.creds, cur, w.now.Floor, e.before))
  }

  /** All that a pass may ask for goes well: its calls succeed, and the id of a new
      lease has a fourth element. */
  predicate Usable(e: Event) {
    Sound(e) && Lease.ShortId(e.creds.leaseId).Some? && Lease.ShortId(e.creds.leaseId) != Some("")
  }

  lemma Grants(cfg: Config, w: World, cr: DbCr, cur: Option<Secret>, e: Event)
    requires Sound(e)
    ensures Calls(cfg, State(w, Issuing(cr, cur)), e, 1)
         == State(Granted(w, e.creds), StampingIssue(cr, cur, e.creds, w.now))
  {
    OneMore(cfg, State(w, Issuing(cr, cur)), e, 0);
  }

  /** `obj` is the Secret that the pass prepares. */
  lemma Prepares(cfg: Config, w: World, cr: DbCr, cur: Option<Secret>, e: Event, obj: Option<Secret>)
    requires Sound(e) && obj == Upserted(cfg, cr, e.creds, cur, w.now.Floor, e.before)
    ensures Calls(cfg, State(w, StampingIssue(cr, cur, e.creds, w.now)), e, 1) == StampIssue(w, obj, e.creds, w.now)
  {
    var s := State(w, StampingIssue(cr, cur, e.creds, w.now));
    OneMore(cfg, s, e, 0);
    StampCall(cfg, w, cr, cur, e.creds, w.now, e, obj);
  }

  lemma UpsertedIsThere(cfg: Config, w: World, cr: DbCr, cur: Option<Secret>, e: Event)
    requires Usable(e)
    ensures Upserted(cfg, cr, e.creds, cur, w.now.Floor, e.before).Some?
  {
  }

  /** The create finds the Secret there or not. */
  function SendCalls(w: World): nat {
    if w.secret.Some? then 2 else 1
  }

  lemma Sends(cfg: Config, w: World, obj: Secret, granted: real, e: Event)
    requires Sound(e)
    ensures Calls(cfg, State(w, Creating(obj, granted)), e, SendCalls(w)) == ToIdle(Stored(w, Some(obj)))
  {
    var s := State(w, Creating(obj, granted));
    OneMore(cfg, s, e, 0);
    assert Calls(cfg, s, e, 1) == WriteNew(w, obj, granted, e.fault);
    if w.secret.Some? {
      assert Calls(cfg, s, e, 1) == State(w, Replacing(obj, granted));
      OneMore(cfg, s, e, 1);
      assert Calls(cfg, s, e, 2) == WriteOver(w, obj, e.fault);
    }
  }

  lemma Issues(cfg: Config, w: World, cr: DbCr, cur: Option<Secret>, e: Event)
    requires Usable(e)
    ensures Calls(cfg, State(w, Issuing(cr, cur)), e, 2 + SendCalls(w)) == ToIdle(Provided(cfg, w, cr, cur, e))
  {
    var s, granted := State(w, Issuing(cr, cur)), Granted(w, e.creds);
    var obj := Upserted(cfg, cr, e.creds, cur, w.now.Floor, e.before);
    Grants(cfg, w, cr, cur, e);
    FurtherCalls(cfg, s, e, 1, 1);
    Prepares(cfg, granted, cr, cur, e, obj);
    UpsertedIsThere(cfg, w, cr, cur, e);
    assert Calls(cfg, s, e, 2) == State(granted, Creating(obj.value, w.now));
    FurtherCalls(cfg, s, e, 2, SendCalls(w));
    Sends(cfg, granted, obj.value, w.now, e);
  }

  // ---- renewal ----

  /** Vault still knows the lease that the Secret names, and the Secret says for how
      long to renew it. */
  predicate Renewable(w: World, spec: Spec, secret: Secret) {
    && Decimal.Parse(At(secret.annotations, LeaseDuration)).Some?
    && var lease := RebuiltLease(spec, secret.annotations);
       lease in w.expiry && w.now < w.expiry[lease]
  }

  function Extended(cfg: Config, w: World, spec: Spec, secret: Secret): World
    requires Renewable(w, spec, secret)
  {
    var increment := Decimal.Parse(At(secret.annotations, LeaseDuration)).value;
    Stored(w.(expiry := w.expiry[RebuiltLease(spec, secret.annotations) := w.now + increment as real]),
           Some(Renewed(cfg, secret, w.now.Floor, increment)))
  }

  lemma Extends(cfg: Config, w: World, cr: DbCr, secret: Secret, e: Event)
    requires Sound(e)
    ensures Calls(cfg, State(w, Renewing(cr, secret)), e, 1) == RenewLease(w, cr, secret, e.fault)
  {
    OneMore(cfg, State(w, Renewing(cr, secret)), e, 0);
  }

  lemma Stamps(cfg: Config, w: World, secret: Secret, increment: int, granted: real, e: Event)
    requires Sound(e) && w.secret.Some?
    ensures Calls(cfg, State(w, StampingRenewal(secret, increment, granted)), e, 2)
         == ToIdle(Stored(w, Some(Renewed(cfg, secret, w.now.Floor, increment))))
  {
    var s, obj := State(w, StampingRenewal(secret, increment, granted)), Renewed(cfg, secret, w.now.Floor, increment);
    OneMore(cfg, s, e, 0);
    assert Calls(cfg, s, e, 1) == State(w, WritingRenewal(obj, granted));
    OneMore(cfg, s, e, 1);
    assert Calls(cfg, s, e, 2) == WriteRenewal(w, obj, granted, e.fault);
  }

  lemma Renews(cfg: Config, w: World, cr: DbCr, secret: Secret, e: Event)
    requires Sound(e) && w.secret.Some? && Renewable(w, cr.spec, secret)
    ensures Calls(cfg, State(w, Renewing(cr, secret)), e, 3) == ToIdle(Extended(cfg, w, cr.spec, secret))
  {
    var increment := Decimal.Parse(At(secret.annotations, LeaseDuration)).value;
    var extended := w.(expiry := w.expiry[RebuiltLease(cr.spec, secret.annotations) := w.now + increment as real]);
    Extends(cfg, w, cr, secret, e);
    FurtherCalls(cfg, State(w, Renewing(cr, secret)), e, 1, 2);
    Stamps(cfg, extended, secret, increment, w.now, e);
  }

  // ---- a whole pass ----

  /** What a pass decides: with no Secret there is nothing to renew. */
  ghost function ActionOf(cfg: Config, w: World, e: Event): Action
    requires w.crs.cr.Some? && e.Call?
  {
    if w.secret.None? then Issue
    else Decide(cfg, w.crs.cr.value.spec, w.secret.value.annotations, w.now.Floor, e.found)
  }

  // ---- the finalizer ----

  function Entered(w: World): World
    requires w.crs.cr.Some? && !w.crs.cr.value.deleting
  {
    w.(crs := Hold(w.crs, FINALIZER))
  }

  function HeldCr(w: World): DbCr
    requires w.crs.cr.Some? && !w.crs.cr.value.deleting
  {
    Hold(w.crs, FINALIZER).cr.value
  }

  function EntryCalls(w: World): nat
    requires w.crs.cr.Some?
  {
    if FINALIZER in w.crs.cr.value.finalizers then 2 else 3
  }

  lemma Enters(cfg: Config, s: State, e: Event)
    requires Serving(cfg, s) && Sound(e)
    ensures Calls(cfg, s, e, EntryCalls(s.w)) == Gate(Entered(s.w), HeldCr(s.w), s.w.secret)
  {
    var cr := s.w.crs.cr.value;
    Reads(cfg, s, e);
    if FINALIZER !in cr.finalizers {
      OneMore(cfg, s, e, 2);
      assert Calls(cfg, s, e, 3) == AddFinalizer(s.w, cr, s.w.secret, e.fault);
    }
  }

  // ---- the rest of the pass ----

  /** The world after the rest of a pass without failures, in one step. */
  ghost function Served(cfg: Config, w: World, e: Event): World
    requires w.crs.cr.Some? && e.Call?
    requires ActionOf(cfg, w, e).Renew? ==> Renewable(w, w.crs.cr.value.spec, w.secret.value)
  {
    var cr := w.crs.cr.value;
    match ActionOf(cfg, w, e)
    case NoOp => w.(confirmed := w.now)
    case Renew => Extended(cfg, w, cr.spec, Trimmed(cr.spec, w.secret.value))
    case Issue =>
      if w.secret.None? then Provided(cfg, w, cr, None, e)
      else
        var copy := Some(Trimmed(cr.spec, w.secret.value));
        var freed := if At(copy.value.annotations, LeaseId) == "" then w else RevokeLease(cfg, w, cr.spec, copy);
        Provided(cfg, freed, cr, copy, e)
  }

  ghost function ServiceCalls(cfg: Config, w: World, e: Event): nat
    requires w.crs.cr.Some? && e.Call?
  {
    match ActionOf(cfg, w, e)
    case NoOp => 1
    case Renew => 4
    case Issue =>
      if w.secret.None? then 3 else if At(w.secret.value.annotations, LeaseId) == "" then 5 else 6
  }

  lemma Checks(cfg: Config, w: World, cr: DbCr, secret: Secret, e: Event)
    requires Sound(e)
    ensures Calls(cfg, State(w, Guarded(cr, secret)), e, 1) == CheckLease(cfg, w, cr, secret, e.found)
  {
    OneMore(cfg, State(w, Guarded(cr, secret)), e, 0);
  }

  /** A stored Secret that needs new credentials. */
  lemma Reissues(cfg: Config, w: World, cr: DbCr, e: Event)
    requires w.crs.cr == Some(cr) && Usable(e) && w.secret.Some? && ActionOf(cfg, w, e).Issue?
    ensures Calls(cfg, Gate(w, cr, w.secret), e, ServiceCalls(cfg, w, e)) == ToIdle(Served(cfg, w, e))
  {
    var s := State(w, Guarded(cr, w.secret.value));
    var copy := Trimmed(cr.spec, w.secret.value);
    Checks(cfg, w, cr, w.secret.value, e);
    if At(copy.annotations, LeaseId) == "" {
      assert Calls(cfg, s, e, 1) == State(w, Issuing(cr, Some(copy)));
      FurtherCalls(cfg, s, e, 1, 4);
      Issues(cfg, w, cr, Some(copy), e);
    } else {
      assert Calls(cfg, s, e, 1) == State(w, Superseding(cr, copy));
      OneMore(cfg, s, e, 1);
      var freed := RevokeLease(cfg, w, cr.spec, Some(copy));
      assert Calls(cfg, s, e, 2) == State(freed, Issuing(cr, Some(copy)));
      FurtherCalls(cfg, s, e, 2, 4);
      Issues(cfg, freed, cr, Some(copy), e);
    }
  }

  lemma Serves(cfg: Config, w: World, cr: DbCr, e: Event)
    requires w.crs.cr == Some(cr) && Usable(e)
    requires ActionOf(cfg, w, e).Renew? ==> Renewable(w, cr.spec, w.secret.value)
    ensures Calls(cfg, Gate(w, cr, w.secret), e, ServiceCalls(cfg, w, e)) == ToIdle(Served(cfg, w, e))
  {
    if w.secret.None? {
      Issues(cfg, w, cr, None, e);
    } else if ActionOf(cfg, w, e).Issue? {
      Reissues(cfg, w, cr, e);
    } else {
      var s := State(w, Guarded(cr, w.secret.value));
      Checks(cfg, w, cr, w.secret.value, e);
      if ActionOf(cfg, w, e).Renew? {
        FurtherCalls(cfg, s, e, 1, 3);
        Renews(cfg, w, cr, Trimmed(cr.spec, w.secret.value), e);
      }
    }
  }

  // ---- a whole pass ----

  /** Calls that succeed, and, if the pass is going to renew, a lease that can be. */
  ghost predicate GoesWell(cfg: Config, s: State, e: Event)
    requires Serving(cfg, s)
  {
    Usable(e) && (ActionOf(cfg, s.w, e).Renew? ==> Renewable(s.w, s.w.crs.cr.value.spec, s.w.secret.value))
  }

  ghost function Passed(cfg: Config, s: State, e: Event): World
    requires Serving(cfg, s) && GoesWell(cfg, s, e)
  {
    Served(cfg, Entered(s.w), e)
  }

  ghost function PassCalls(cfg: Config, w: World, e: Event): nat
    requires w.crs.cr.Some? && !w.crs.cr.value.deleting && e.Call?
  {
    EntryCalls(w) + ServiceCalls(cfg, Entered(w), e)
  }

  /** The calls of a pass, taken together. */
  lemma PassCompletes(cfg: Config, s: State, e: Event)
    requires Serving(cfg, s) && GoesWell(cfg, s, e)
    ensures Calls(cfg, s, e, PassCalls(cfg, s.w, e)) == ToIdle(Passed(cfg, s, e))
    ensures Passed(cfg, s, e).crs.cr == Some(HeldCr(s.w))
  {
    Enters(cfg, s, e);
    FurtherCalls(cfg, s, e, EntryCalls(s.w), ServiceCalls(cfg, Entered(s.w), e));
    Serves(cfg, Entered(s.w), HeldCr(s.w), e);
  }

  /** The templates changed, but the lease is found and to be renewed: a pass renews it
      and leaves the templates as they are. */
  ghost predicate Stuck(cfg: Config, w: World, found: bool)
    requires w.crs.cr.Some?
  {
    && w.secret.Some?
    && var meta := w.secret.value.annotations;
       LeaseValid(meta, found) && At(meta, Force) != "true" && w.crs.cr.value.spec.renew
       && TemplateChanged(cfg, w.crs.cr.value.spec, meta)
  }

  lemma IssueReads(cfg: Config, w: World, e: Event)
    requires w.crs.cr.Some? && Usable(e) && ActionOf(cfg, w, e).Issue?
    ensures var t := Served(cfg, w, e);
      && t.secret.Some? && t.crs == w.crs
      && At(t.secret.value.annotations, LeaseId) != ""
      && !TemplateChanged(cfg, w.crs.cr.value.spec, t.secret.value.annotations)
  {
    var cr := w.crs.cr.value;
    var cur := if w.secret.None? then None else Some(Trimmed(cr.spec, w.secret.value));
    var base := if cur.Some? then cur.value else EMPTY;
    UpsertedMetaReads(cfg, base.annotations + cr.annotations, Lease.ShortId(e.creds.leaseId).value,
      e.creds.leaseDuration, w.now.Floor, FakeHash(cfg.engine, cfg.digest, cr.spec.template));
  }

  lemma ServiceSettles(cfg: Config, w: World, e: Event, now: int, found: bool)
    requires w.crs.cr.Some? && Usable(e)
    requires ActionOf(cfg, w, e).Renew? ==> Renewable(w, w.crs.cr.value.spec, w.secret.value)
    ensures var t := Served(cfg, w, e);
      && t.secret.Some?
      && (Decide(cfg, w.crs.cr.value.spec, t.secret.value.annotations, now, found).NoOp?
          <==> found && !Expired(t.secret.value.annotations, now) && !Stuck(cfg, w, e.found))
  {
    if ActionOf(cfg, w, e).Issue? {
      IssueReads(cfg, w, e);
    }
  }

  /** From rest, with or without the finalizer and whatever the stored Secret looks like,
      one pass without failures ends with a Secret, and a pass after it does nothing if and
      only if Vault recognises the lease, the end in the Secret is more than the grace
      away, and the first pass did not find changed templates with a lease to renew. */
  lemma PassSettles(cfg: Config, s: State, e: Event, now: int, found: bool)
    requires Serving(cfg, s) && GoesWell(cfg, s, e)
    ensures var t := Calls(cfg, s, e, PassCalls(cfg, s.w, e));
      && t.pc.Idle? && t.w.secret.Some? && t.w.crs.cr == Some(HeldCr(s.w))
      && (Decide(cfg, s.w.crs.cr.value.spec, t.w.secret.value.annotations, now, found).NoOp?
          <==> found && !Expired(t.w.secret.value.annotations, now) && !Stuck(cfg, s.w, e.found))
  {
    PassCompletes(cfg, s, e);
    ServiceSettles(cfg, Entered(s.w), e, now, found);
  }

  /** A renewal at this moment would move the end that Vault has for the lease. */
  ghost predicate MovesEnd(w: World, spec: Spec, annotations: Meta) {
    var increment, lease := Decimal.Parse(At(annotations, LeaseDuration)), RebuiltLease(spec, annotations);
    increment.Some? && lease in w.expiry ==> w.expiry[lease] != w.now + increment.value as real
  }

  lemma ServiceShows(cfg: Config, w: World, e: Event)
    requires w.crs.cr.Some? && Usable(e) && e.creds.leaseId !in w.issued
    requires ActionOf(cfg, w, e).Renew? ==>
      && Renewable(w, w.crs.cr.value.spec, w.secret.value)
      && MovesEnd(w, w.crs.cr.value.spec, w.secret.value.annotations)
    ensures Served(cfg, w, e).crs == w.crs
    ensures DbSecretQuiescence.Untouched(w, Served(cfg, w, e)) <==> ActionOf(cfg, w, e).NoOp?
  {
    var t, cr := Served(cfg, w, e), w.crs.cr.value;
    match ActionOf(cfg, w, e)
    case NoOp =>
    case Renew =>
      var lease := RebuiltLease(cr.spec, w.secret.value.annotations);
      assert t.expiry[lease] != w.expiry[lease];
    case Issue =>
      assert e.creds.leaseId in t.issued;
  }

  /** A pass without failures leaves the cluster, Vault and the ledger as they are if and
      only if the finalizer is in place and its decision is to do nothing. */
  lemma QuietPass(cfg: Config, s: State, e: Event)
    requires Serving(cfg, s) && GoesWell(cfg, s, e) && e.creds.leaseId !in s.w.issued
    requires ActionOf(cfg, s.w, e).Renew? ==> MovesEnd(s.w, s.w.crs.cr.value.spec, s.w.secret.value.annotations)
    ensures DbSecretQuiescence.Untouched(s.w, Calls(cfg, s, e, PassCalls(cfg, s.w, e)).w)
       <==> FINALIZER in s.w.crs.cr.value.finalizers && ActionOf(cfg, s.w, e).NoOp?
  {
    PassCompletes(cfg, s, e);
    EntersOnly(s.w, e, cfg);
    ServiceShows(cfg, Entered(s.w), e);
    assert FINALIZER !in s.w.crs.cr.value.finalizers ==> Entered(s.w).crs.next == s.w.crs.next + 1;
  }

  lemma ServiceLeavesFresh(cfg: Config, w: World, e: Event)
    requires w.crs.cr.Some? && !w.crs.cr.value.deleting && FINALIZER in w.crs.cr.value.finalizers
    requires Usable(e) && !Stuck(cfg, w, e.found)
    requires ActionOf(cfg, w, e).Renew? ==> Renewable(w, w.crs.cr.value.spec, w.secret.value)
    ensures Served(cfg, w, e).secret.Some?
    ensures var t := Served(cfg, w, e);
      var expiry := Decimal.Parse(At(t.secret.value.annotations, ExpiresOn));
      expiry.Some? ==> DbSecretQuiescence.Fresh(cfg, t, expiry.value)
  {
    if ActionOf(cfg, w, e).Issue? {
      IssueReads(cfg, w, e);
    }
  }

  /** One pass without failures, and then any number of passes that may fail or break
      off: until the grace before the end in the Secret, nothing changes any more. */
  lemma PassThenQuiet(cfg: Config, s: State, e: Event, es: seq<Event>)
    requires Serving(cfg, s) && GoesWell(cfg, s, e) && !Stuck(cfg, s.w, e.found)
    requires forall i :: 0 <= i < |es| ==> DbSecretQuiescence.Alone(es[i])
    requires Passed(cfg, s, e).secret.Some? ==>
      !Expired(Passed(cfg, s, e).secret.value.annotations, Exec(cfg, ToIdle(Passed(cfg, s, e)), es).w.now.Floor)
    ensures var t := Calls(cfg, s, e, PassCalls(cfg, s.w, e));
      DbSecretQuiescence.Untouched(t.w, Exec(cfg, t, es).w)
  {
    PassCompletes(cfg, s, e);
    Enters(cfg, s, e);
    ServiceLeavesFresh(cfg, Entered(s.w), e);
    var w := Passed(cfg, s, e);
    var expiry := Decimal.Parse(At(w.secret.value.annotations, ExpiresOn)).value;
    DbSecretQuiescence.QuietUntilDue(cfg, ToIdle(w), es, expiry);
  }

  // ---- stale values ----

  /** An issue that does not replace the values, over a Secret with one that the new
      credentials do not have: the Secret names the new lease and keeps the value, which
      is past its end as soon as its own lease is. */
  lemma StaleValueOutlivesItsLease(cfg: Config, s: State, e: Event, k: string, dt: real)
    requires Serving(cfg, s) && Usable(e) && cfg.secretName != "" && dt >= 0.0
    requires StaleUnder(cfg, s.w, e, k)
    ensures var value := s.w.secret.value.data.values[k];
      var t := Apply(cfg, Calls(cfg, s, e, PassCalls(cfg, s.w, e)), Tick(dt)).w;
      && DbSecretValues.Keeps(t.secret, e.creds.leaseId, k, value)
      && (value.lease != e.creds.leaseId && DbSecretTiming.Alive(s.w, value.lease) ==>
            (DbSecretTiming.Alive(t, value.lease) <==> s.w.now + dt < s.w.expiry[value.lease]))
  {
    PassCompletes(cfg, s, e);
    StaleAfterPass(cfg, s, e, k);
    OutdatedLater(cfg, s.w, Passed(cfg, s, e), e.creds.leaseId, k, s.w.secret.value.data.values[k], dt);
  }

  lemma EntersOnly(w: World, e: Event, cfg: Config)
    requires w.crs.cr.Some? && !w.crs.cr.value.deleting && e.Call?
    ensures Entered(w) == w.(crs := Entered(w).crs) && Entered(w).crs.cr == Some(HeldCr(w))
    ensures ActionOf(cfg, Entered(w), e) == ActionOf(cfg, w, e)
  {
  }

  /** Vault has this lease as it had it before. */
  predicate SameEnd(w: World, t: World, lease: string) {
    && (lease in t.expiry <==> lease in w.expiry)
    && (lease in t.expiry ==> t.expiry[lease] == w.expiry[lease])
  }

  /** The Secret names the new lease and has an old value, whose lease, if it is another
      one, ends when it did. */
  predicate Outdated(w: World, t: World, lease: string, k: string, value: Value) {
    && t.now == w.now
    && DbSecretValues.Keeps(t.secret, lease, k, value)
    && (value.lease != lease ==> SameEnd(w, t, value.lease))
  }

  /** `entered` is the world after the first calls, and `t` that after the pass. */
  lemma StaleAfterEntry(cfg: Config, w: World, entered: World, cr: DbCr, e: Event, k: string, t: World)
    requires entered == w.(crs := entered.crs) && entered.crs.cr == Some(cr)
    requires StaleUnder(cfg, w, e, k) && cr.spec == w.crs.cr.value.spec
    requires Usable(e) && ActionOf(cfg, entered, e).Issue? && cfg.secretName != "" && t == Served(cfg, entered, e)
    ensures Outdated(w, t, e.creds.leaseId, k, w.secret.value.data.values[k])
  {
    ReissuedWorld(cfg, entered, cr, w.secret.value, e, w.secret.value.data.values[k].lease);
    DbSecretValues.StaleValueStays(cfg, cr, e.creds, w.secret.value, w.now.Floor, e.before, k);
  }

  lemma StaleAfterPass(cfg: Config, s: State, e: Event, k: string)
    requires Serving(cfg, s) && Usable(e) && cfg.secretName != ""
    requires StaleUnder(cfg, s.w, e, k)
    ensures Outdated(s.w, Passed(cfg, s, e), e.creds.leaseId, k, s.w.secret.value.data.values[k])
  {
    EntersOnly(s.w, e, cfg);
    StaleAfterEntry(cfg, s.w, Entered(s.w), HeldCr(s.w), e, k, Passed(cfg, s, e));
  }

  lemma OutdatedLater(cfg: Config, w: World, t: World, lease: string, k: string, value: Value, dt: real)
    requires Outdated(w, t, lease, k, value) && dt >= 0.0
    ensures var u := Apply(cfg, ToIdle(t), Tick(dt)).w;
      && DbSecretValues.Keeps(u.secret, lease, k, value)
      && (value.lease != lease && DbSecretTiming.Alive(w, value.lease) ==>
            (DbSecretTiming.Alive(u, value.lease) <==> w.now + dt < w.expiry[value.lease]))
  {
  }

  ghost predicate StaleUnder(cfg: Config, w: World, e: Event, k: string) {
    && w.crs.cr.Some? && w.secret.Some? && e.Call? && ActionOf(cfg, w, e).Issue?
    && k in w.secret.value.data.values && k !in ValuesOf(e.creds)
    && !DbSecretValues.Replaces(cfg, w.crs.cr.value.spec.template, e.creds, w.secret.value.data.values.Keys, e.before)
  }

  lemma ReissuedWorld(cfg: Config, w: World, cr: DbCr, stored: Secret, e: Event, lease: string)
    requires w.crs.cr == Some(cr) && w.secret == Some(stored)
    requires e.Call? && ActionOf(cfg, w, e).Issue? && cfg.secretName != ""
    ensures var t := Served(cfg, w, e);
      && t.now == w.now && (lease != e.creds.leaseId ==> SameEnd(w, t, lease))
      && t.secret == Upserted(cfg, cr, e.creds, Some(Trimmed(cr.spec, stored)), w.now.Floor, e.before)
  {
    NothingIsFreed(cfg, w, cr.spec, Some(Trimmed(cr.spec, stored)));
  }

  lemma NothingIsFreed(cfg: Config, w: World, spec: Spec, cur: Option<Secret>)
    requires cfg.secretName != ""
    ensures RevokeLease(cfg, w, spec, cur).now == w.now && RevokeLease(cfg, w, spec, cur).expiry == w.expiry
  {
    assert w.expiry - {} == w.expiry;
  }

  // ---- stale templates ----

  /** Some time goes by, then a pass without failures. */
  datatype Round = Round(dt: real, e: Event)

  ghost function Rounds(cfg: Config, s: State, rounds: seq<Round>): State {
    if rounds == [] then s
    else
      var last := rounds[|rounds| - 1];
      var t := Apply(cfg, Rounds(cfg, s, rounds[..|rounds| - 1]), Tick(last.dt));
      if t.w.crs.cr.Some? && !t.w.crs.cr.value.deleting && last.e.Call? then
        Calls(cfg, t, last.e, PassCalls(cfg, t.w, last.e))
      else
        t
  }

  /** The lease can be renewed for that long from now on, and then again. */
  ghost predicate StuckFor(cfg: Config, s: State, left: real) {
    && Serving(cfg, s) && Stuck(cfg, s.w, true)
    && var meta := s.w.secret.value.annotations;
    && var increment, lease := Decimal.Parse(At(meta, LeaseDuration)), RebuiltLease(s.w.crs.cr.value.spec, meta);
    && increment.Some? && left <= increment.value as real
    && lease in s.w.expiry && s.w.now + left <= s.w.expiry[lease]
  }

  lemma ServiceStaysStuck(cfg: Config, w: World, e: Event)
    requires w.crs.cr.Some? && e.Call? && e.found
    requires Stuck(cfg, w, true) && Renewable(w, w.crs.cr.value.spec, w.secret.value)
    ensures ActionOf(cfg, w, e).Renew?
    ensures var t, secret := Served(cfg, w, e), Trimmed(w.crs.cr.value.spec, w.secret.value);
      && t == Extended(cfg, w, w.crs.cr.value.spec, secret)
      && Stuck(cfg, t, true)
      && t.secret.value.data == secret.data
      && At(t.secret.value.annotations, LeaseId) == At(secret.annotations, LeaseId)
      && At(t.secret.value.annotations, LeaseDuration) == At(secret.annotations, LeaseDuration)
      && At(t.secret.value.annotations, TemplateHash) == At(secret.annotations, TemplateHash)
  {
  }

  lemma StuckPass(cfg: Config, s: State, e: Event, left: real, anew: real)
    requires StuckFor(cfg, s, left) && left > 0.0 && Usable(e) && e.found
    requires anew <= Decimal.Parse(At(s.w.secret.value.annotations, LeaseDuration)).value as real
    ensures var t := Calls(cfg, s, e, PassCalls(cfg, s.w, e));
      && StuckFor(cfg, t, anew)
      && t.w.crs.cr.value.spec == s.w.crs.cr.value.spec && t.w.issued == s.w.issued
      && t.w.secret.value.data == Trimmed(s.w.crs.cr.value.spec, s.w.secret.value).data
      && At(t.w.secret.value.annotations, TemplateHash) == At(s.w.secret.value.annotations, TemplateHash)
  {
    Enters(cfg, s, e);
    ServiceStaysStuck(cfg, Entered(s.w), e);
    PassCompletes(cfg, s, e);
  }

  lemma StuckLater(cfg: Config, s: State, left: real, dt: real)
    requires StuckFor(cfg, s, left) && dt >= 0.0
    ensures var t := Apply(cfg, s, Tick(dt));
      && StuckFor(cfg, t, left - dt)
      && t.w == s.w.(now := t.w.now)
  {
  }

  /** What no pass over stale templates changes. */
  predicate SameIssue(s: State, t: State)
    requires s.w.crs.cr.Some? && t.w.crs.cr.Some? && s.w.secret.Some? && t.w.secret.Some?
  {
    && t.w.crs.cr.value.spec == s.w.crs.cr.value.spec && t.w.issued == s.w.issued
    && At(t.w.secret.value.annotations, TemplateHash) == At(s.w.secret.value.annotations, TemplateHash)
  }

  lemma StuckRound(cfg: Config, s: State, round: Round, left: real)
    requires StuckFor(cfg, s, left) && 0.0 <= round.dt < left && Usable(round.e) && round.e.found
    ensures var u := Apply(cfg, s, Tick(round.dt));
      var t := Calls(cfg, u, round.e, PassCalls(cfg, u.w, round.e));
      && StuckFor(cfg, t, left) && SameIssue(s, t)
      && t.w.secret.value.data == Trimmed(s.w.crs.cr.value.spec, s.w.secret.value).data
  {
    StuckLater(cfg, s, left, round.dt);
    StuckPass(cfg, Apply(cfg, s, Tick(round.dt)), round.e, left - round.dt, left);
  }

  lemma TrimmedOnce(spec: Spec, secret: Secret, later: Secret)
    requires later.data == secret.data || later.data == Trimmed(spec, secret).data
    ensures Trimmed(spec, later).data == Trimmed(spec, secret).data
  {
  }

  /** However many passes there are, as long as each comes before the renewed lease ends:
      no credentials are issued and nothing is rendered. The hash stays the old one and the
      values stay, or, if the templates were removed, lose all but the credentials. */
  lemma {:induction false} StaleTemplatesForever(cfg: Config, s: State, rounds: seq<Round>, left: real)
    requires StuckFor(cfg, s, left)
    requires forall r | r in rounds :: 0.0 <= r.dt < left && Usable(r.e) && r.e.found
    ensures var t := Rounds(cfg, s, rounds);
      && StuckFor(cfg, t, left)
      && SameIssue(s, t)
      && t.w.secret.value.data ==
           (if rounds == [] then s.w.secret.value.data else Trimmed(s.w.crs.cr.value.spec, s.w.secret.value).data)
  {
    if rounds != [] {
      var before, last := rounds[..|rounds| - 1], rounds[|rounds| - 1];
      assert last in rounds;
      StaleTemplatesForever(cfg, s, before, left);
      var t := Rounds(cfg, s, before);
      StuckRound(cfg, t, last, left);
      TrimmedOnce(s.w.crs.cr.value.spec, s.w.secret.value, t.w.secret.value);
    }
  }
}
