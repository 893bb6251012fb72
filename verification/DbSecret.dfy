/** controllers/dbsecret_controller.go as a machine: what the operator knows between
    two calls, and what every call makes of the cluster and of Vault. */
module DbSecret {
  import opened Wrappers
  import opened Utils
  import opened Store
  import Decimal
  import Lease
  import Vault

  const FINALIZER: string := "dbsecret.digitalis.io/finalizer"
  const GRACE: int := 120

  datatype Spec = Spec(mount: string, role: string, template: map<string, string>, renew: bool)

  /** Every value carries the lease whose user name and password it was made from. */
  datatype Value = Value(text: string, lease: string)

  /** `lease` is the one that was issued when the Secret was last written with new
      credentials; its id and its end are in the annotations. */
  datatype Data = Data(values: map<string, Value>, lease: string)

  function From(texts: map<string, string>, lease: string): map<string, Value> {
    map k | k in texts :: Value(texts[k], lease)
  }

  type Secret = SecretObj<Data>
  type DbCr = Cr<Spec>

  /** What the operator is built with: the template engine, the digest, and the format
      of a time in seconds; then the name of the Secret, as `getSecretName` gives it, and
      whether its namespace is excluded. */
  datatype Config = Config(
    engine: Engine, digest: Digest, stamp: int -> string, secretName: string, excluded: bool)

  // ---- what a pass decides and writes ----

  datatype Action = NoOp | Renew | Issue

  predicate Expired(annotations: Meta, now: int) {
    var expiry := Decimal.Parse(At(annotations, ExpiresOn));
    expiry.None? || now + GRACE >= expiry.value
  }

  predicate LeaseValid(annotations: Meta, found: bool) {
    At(annotations, LeaseId) != "" && found
  }

  ghost predicate TemplateChanged(cfg: Config, spec: Spec, annotations: Meta) {
    var hash := FakeHash(cfg.engine, cfg.digest, spec.template);
    hash != "" && At(annotations, TemplateHash) != "" && hash != At(annotations, TemplateHash)
  }

  /** `found` is Vault's answer to a lookup of the lease. */
  ghost function Decide(cfg: Config, spec: Spec, annotations: Meta, now: int, found: bool): Action {
    var valid := LeaseValid(annotations, found);
    if !Expired(annotations, now) && valid && !TemplateChanged(cfg, spec, annotations) then NoOp
    else if valid && At(annotations, Force) != "true" && spec.renew then Renew
    else Issue
  }

  /** Without a template only the credentials themselves stay in the copy. */
  function Trimmed(spec: Spec, secret: Secret): Secret {
    if |spec.template| != 0 then secret
    else
      var values := secret.data.values;
      secret.(data := secret.data.(values := map k | k in values && (k == "username" || k == "password") :: values[k]))
  }

  function Renewed(cfg: Config, secret: Secret, now: int, increment: int): Secret {
    secret.(annotations :=
      secret.annotations[ExpiresOn := Decimal.Format(now + increment)][LastUpdated := cfg.stamp(now)])
  }

  function Forced(secret: Secret): Secret {
    secret.(annotations := secret.annotations[Force := "true"])
  }

  function ValuesOf(creds: Vault.Credentials): map<string, string> {
    var values := map["username" := creds.username, "password" := creds.password];
    var located := if creds.connectionUrl != "" then values["connection_url" := creds.connectionUrl] else values;
    if creds.hosts != "" then located["hosts" := creds.hosts] else located
  }

  /** What `renderTemplate` returns: everything, or, when some template fails, what
      was rendered before it. `before` are the keys that Go happened to reach. */
  function Rendered(cfg: Config, template: map<string, string>, values: map<string, string>,
      before: set<string>): map<string, string> {
    map k | k in template && cfg.engine(k, template[k], values).Some?
            && (Renders(cfg.engine, template, values) || k in before) :: cfg.engine(k, template[k], values).value
  }

  const EMPTY: Secret := SecretObj(Data(map[], ""), map[], map[])

  function UpsertedMeta(cfg: Config, base: Meta, short: string, duration: int, now: int, hash: string): Meta {
    base
      [ManagedBy := "vals-operator"]
      [LeaseId := short]
      [LeaseDuration := Decimal.Format(duration)]
      [LastUpdated := cfg.stamp(now)]
      [ExpiresOn := Decimal.Format(now + duration)]
      [TemplateHash := hash]
    - {Force}
  }

  lemma UpsertedMetaReads(cfg: Config, base: Meta, short: string, duration: int, now: int, hash: string)
    ensures var meta := UpsertedMeta(cfg, base, short, duration, now, hash);
      && At(meta, LeaseId) == short
      && At(meta, LeaseDuration) == Decimal.Format(duration)
      && At(meta, ExpiresOn) == Decimal.Format(now + duration)
      && At(meta, Force) == ""
      && At(meta, TemplateHash) == hash
  {
  }

  /** The Secret that `upsertSecret` sends; `None` when it panics on the lease id. The
      API server lays `StringData` over the data that is there. */
  ghost function Upserted(cfg: Config, cr: DbCr, creds: Vault.Credentials, cur: Option<Secret>, now: int,
      before: set<string>): Option<Secret> {
    var base := if cur.Some? then cur.value else EMPTY;
    var short := Lease.ShortId(creds.leaseId);
    var rendered := Rendered(cfg, cr.spec.template, ValuesOf(creds), before);
    if short.None? then None
    else Some(SecretObj(
      Data(if |rendered| < 1 then base.data.values + From(ValuesOf(creds), creds.leaseId)
           else From(rendered, creds.leaseId),
           creds.leaseId),
      base.labels + cr.labels,
      UpsertedMeta(cfg, base.annotations + cr.annotations, short.value, creds.leaseDuration, now,
                   FakeHash(cfg.engine, cfg.digest, cr.spec.template))))
  }

  // ---- the machine ----

  /** `expiry` is Vault's own view of its leases. `ours` says that the operator wrote
      the Secret. The last five record what happened: the leases issued, those in a
      Secret that was passed to `revokeLease`, those that Vault was asked to revoke,
      those issued in a pass that did not get to store them, and the last time the
      stored Secret was written or found good. */
  datatype World = World(
    crs: Crs<Spec>, secret: Option<Secret>, ours: bool, now: real, expiry: map<string, real>,
    issued: set<string>, handed: set<string>, revoked: set<string>, lost: set<string>, confirmed: real)

  /** The next call of the pass, with the local variables that matter to it. */
  datatype Pc =
    | Idle
    | GotCr(cr: DbCr)
    | AddingFinalizer(cr: DbCr, cur: Option<Secret>)
    | Guarded(cr: DbCr, secret: Secret)
    | Renewing(cr: DbCr, secret: Secret)
    | StampingRenewal(secret: Secret, increment: int, granted: real)
    | WritingRenewal(obj: Secret, granted: real)
    | ForcingIssue(obj: Secret, granted: real)
    | Superseding(cr: DbCr, secret: Secret)
    | Issuing(cr: DbCr, cur: Option<Secret>)
    | StampingIssue(cr: DbCr, cur: Option<Secret>, creds: Vault.Credentials, granted: real)
    | Creating(obj: Secret, granted: real)
    | Replacing(obj: Secret, granted: real)
    | Revoking(cr: DbCr, cur: Option<Secret>)
    | Deleting(cr: DbCr)
    | RemovingFinalizer(cr: DbCr)

  datatype State = State(w: World, pc: Pc)

  /** The clock moves, other parties act on the resource or on the Secret, the operator
      is restarted, or its pass makes its next call. Of a call's inputs each step takes
      those it needs: whether the call fails, Vault's answer to a lookup, Vault's new
      credentials, the templates rendered before a failing one. */
  datatype Event =
    | Tick(dt: real)
    | User(act: UserAct<Spec>)
    | Outside(secret: Option<Secret>)
    | Crash
    | Call(fault: Fault, found: bool, creds: Vault.Credentials, before: set<string>)

  function LeaseOf(secret: Option<Secret>): set<string> {
    if secret.Some? then {secret.value.data.lease} else {}
  }

  /** The lease that is granted but not stored yet. */
  function InFlight(pc: Pc): set<string> {
    match pc
    case StampingIssue(_, _, creds, _) => {creds.leaseId}
    case Creating(obj, _) => {obj.data.lease}
    case Replacing(obj, _) => {obj.data.lease}
    case _ => {}
  }

  function ToIdle(w: World): State {
    State(w, Idle)
  }

  function Stored(w: World, secret: Option<Secret>): World {
    w.(secret := secret, ours := true, confirmed := w.now)
  }

  function Gate(w: World, cr: DbCr, cur: Option<Secret>): State {
    State(w, if cur.Some? then Guarded(cr, cur.value) else Issuing(cr, None))
  }

  function AfterRead(w: World, cr: DbCr, cur: Option<Secret>): State {
    if !cr.deleting then
      if FINALIZER in cr.finalizers then Gate(w, cr, cur) else State(w, AddingFinalizer(cr, cur))
    else if FINALIZER in cr.finalizers then
      State(w, Revoking(cr, cur))
    else
      ToIdle(w)
  }

  function AddFinalizer(w: World, cr: DbCr, cur: Option<Secret>, fault: Fault): State {
    var (crs, reply) := UpdateCr(w.crs, cr.(finalizers := cr.finalizers + [FINALIZER]), fault);
    if reply.Some? then Gate(w.(crs := crs), reply.value, cur) else ToIdle(w.(crs := crs))
  }

  ghost function CheckLease(cfg: Config, w: World, cr: DbCr, secret: Secret, found: bool): (s: State)
    ensures s.w.crs == w.crs && s.w.now == w.now && s.w.revoked == w.revoked
    ensures w.issued <= w.expiry.Keys ==> s.w.issued <= s.w.expiry.Keys
  {
    match Decide(cfg, cr.spec, secret.annotations, w.now.Floor, found)
    case NoOp => ToIdle(w.(confirmed := w.now))
    case Renew => State(w, Renewing(cr, Trimmed(cr.spec, secret)))
    case Issue =>
      var copy := Trimmed(cr.spec, secret);
      State(w, if At(secret.annotations, LeaseId) == "" then Issuing(cr, Some(copy)) else Superseding(cr, copy))
  }

  function RebuiltLease(spec: Spec, annotations: Meta): string {
    Lease.Path(spec.mount, spec.role, At(annotations, LeaseId))
  }

  /** `revokeLease` asks Vault for nothing if the Secret has a name. */
  function Revocation(cfg: Config, spec: Spec, cur: Option<Secret>): set<string> {
    if cur.None? || cfg.secretName != "" || At(cur.value.annotations, LeaseId) == "" then {}
    else {RebuiltLease(spec, cur.value.annotations)}
  }

  function RevokeLease(cfg: Config, w: World, spec: Spec, cur: Option<Secret>): World {
    var asked := Revocation(cfg, spec, cur);
    w.(handed := w.handed + LeaseOf(cur), revoked := w.revoked + asked, expiry := w.expiry - asked)
  }

  /** Vault renews a lease it knows and that has not run out. */
  function RenewLease(w: World, cr: DbCr, secret: Secret, fault: Fault): (s: State)
    ensures s.w.crs == w.crs && s.w.now == w.now && s.w.revoked == w.revoked
    ensures w.issued <= w.expiry.Keys ==> s.w.issued <= s.w.expiry.Keys
  {
    var increment := Decimal.Parse(At(secret.annotations, LeaseDuration));
    var lease := RebuiltLease(cr.spec, secret.annotations);
    if increment.None? || fault.Before? || lease !in w.expiry || w.now >= w.expiry[lease] then
      ToIdle(w)
    else
      var granted := w.(expiry := w.expiry[lease := w.now + increment.value as real]);
      if fault.After? then ToIdle(granted)
      else State(granted, StampingRenewal(secret, increment.value, w.now))
  }

  /** A Secret that the operator sends over the stored one. */
  function Overwrite(w: World, obj: Secret, fault: Fault): (World, Reply) {
    var (secret, reply) := UpdateSecret(w.secret, obj, fault);
    (if w.secret.None? || fault.Before? then w else Stored(w, secret), reply)
  }

  function WriteRenewal(w: World, obj: Secret, granted: real, fault: Fault): (s: State)
    ensures s.w.crs == w.crs && s.w.now == w.now && s.w.revoked == w.revoked
    ensures w.issued <= w.expiry.Keys ==> s.w.issued <= s.w.expiry.Keys
  {
    var (w', reply) := Overwrite(w, obj, fault);
    if reply.Done? then ToIdle(w') else State(w', ForcingIssue(Forced(obj), granted))
  }

  function ForceIssue(w: World, obj: Secret, fault: Fault): (s: State)
    ensures s.w.crs == w.crs && s.w.now == w.now && s.w.revoked == w.revoked
    ensures w.issued <= w.expiry.Keys ==> s.w.issued <= s.w.expiry.Keys
  {
    ToIdle(Overwrite(w, obj, fault).0)
  }

  function IssueLease(w: World, cr: DbCr, cur: Option<Secret>, creds: Vault.Credentials, fault: Fault): (s: State)
    ensures s.w.crs == w.crs && s.w.now == w.now && s.w.revoked == w.revoked
    ensures w.issued <= w.expiry.Keys ==> s.w.issued <= s.w.expiry.Keys
  {
    if fault.Before? then
      ToIdle(w)
    else
      var granted := w.(issued := w.issued + {creds.leaseId},
                        expiry := w.expiry[creds.leaseId := w.now + creds.leaseDuration as real]);
      if fault.After? then ToIdle(granted.(lost := granted.lost + {creds.leaseId}))
      else State(granted, StampingIssue(cr, cur, creds, w.now))
  }

  /** `obj` is what `upsertSecret` has prepared, or `None` if it panicked. */
  function StampIssue(w: World, obj: Option<Secret>, creds: Vault.Credentials, granted: real): (s: State)
    ensures s.w.crs == w.crs && s.w.now == w.now && s.w.revoked == w.revoked
    ensures w.issued <= w.expiry.Keys ==> s.w.issued <= s.w.expiry.Keys
  {
    if obj.Some? then State(w, Creating(obj.value, granted))
    else ToIdle(w.(lost := w.lost + {creds.leaseId}))
  }

  function WriteNew(w: World, obj: Secret, granted: real, fault: Fault): (s: State)
    ensures s.w.crs == w.crs && s.w.now == w.now && s.w.revoked == w.revoked
    ensures w.issued <= w.expiry.Keys ==> s.w.issued <= s.w.expiry.Keys
  {
    var (secret, reply) := CreateSecret(w.secret, obj, fault);
    var w' := if w.secret.Some? || fault.Before? then w else Stored(w, secret);
    match reply
    case Done => ToIdle(w')
    case AlreadyExists => State(w', Replacing(obj, granted))
    case _ => ToIdle(w'.(lost := w'.lost + {obj.data.lease}))
  }

  function WriteOver(w: World, obj: Secret, fault: Fault): (s: State)
    ensures s.w.crs == w.crs && s.w.now == w.now && s.w.revoked == w.revoked
    ensures w.issued <= w.expiry.Keys ==> s.w.issued <= s.w.expiry.Keys
  {
    var (w', reply) := Overwrite(w, obj, fault);
    ToIdle(if reply.Done? then w' else w'.(lost := w'.lost + {obj.data.lease}))
  }

  function Remove(w: World, cr: DbCr, fault: Fault): (s: State)
    ensures s.w.crs == w.crs && s.w.now == w.now && s.w.revoked == w.revoked
    ensures w.issued <= w.expiry.Keys ==> s.w.issued <= s.w.expiry.Keys
  {
    var (secret, reply) := DeleteSecret(w.secret, fault);
    State(w.(secret := secret, ours := w.ours && secret.Some?),
          if reply.Failed? then Idle else RemovingFinalizer(cr))
  }

  function RemoveFinalizer(w: World, cr: DbCr, fault: Fault): State {
    ToIdle(w.(crs := UpdateCr(w.crs, cr.(finalizers := Without(cr.finalizers, FINALIZER)), fault).0))
  }

  ghost function Called(cfg: Config, w: World, pc: Pc, e: Event): State
    requires e.Call?
  {
    match pc
    case Idle =>
      State(w, if e.fault.Sound? && w.crs.cr.Some? && !cfg.excluded then GotCr(w.crs.cr.value) else Idle)
    case GotCr(cr) => if e.fault.Sound? then AfterRead(w, cr, w.secret) else ToIdle(w)
    case AddingFinalizer(cr, cur) => AddFinalizer(w, cr, cur, e.fault)
    case Guarded(cr, secret) => CheckLease(cfg, w, cr, secret, e.found)
    case Renewing(cr, secret) => RenewLease(w, cr, secret, e.fault)
    case StampingRenewal(secret, increment, granted) =>
      State(w, WritingRenewal(Renewed(cfg, secret, w.now.Floor, increment), granted))
    case WritingRenewal(obj, granted) => WriteRenewal(w, obj, granted, e.fault)
    case ForcingIssue(obj, _) => ForceIssue(w, obj, e.fault)
    case Superseding(cr, secret) => State(RevokeLease(cfg, w, cr.spec, Some(secret)), Issuing(cr, Some(secret)))
    case Issuing(cr, cur) => IssueLease(w, cr, cur, e.creds, e.fault)
    case StampingIssue(cr, cur, creds, granted) =>
      StampIssue(w, Upserted(cfg, cr, creds, cur, w.now.Floor, e.before), creds, granted)
    case Creating(obj, granted) => WriteNew(w, obj, granted, e.fault)
    case Replacing(obj, _) => WriteOver(w, obj, e.fault)
    case Revoking(cr, cur) => State(RevokeLease(cfg, w, cr.spec, cur), Deleting(cr))
    case Deleting(cr) => Remove(w, cr, e.fault)
    case RemovingFinalizer(cr) => RemoveFinalizer(w, cr, e.fault)
  }

  /** `obj` is the Secret that the pass prepares. */
  lemma StampCall(cfg: Config, w: World, cr: DbCr, cur: Option<Secret>, creds: Vault.Credentials,
      granted: real, e: Event, obj: Option<Secret>)
    requires e.Call? && obj == Upserted(cfg, cr, creds, cur, w.now.Floor, e.before)
    ensures Called(cfg, w, StampingIssue(cr, cur, creds, granted), e) == StampIssue(w, obj, creds, granted)
  {
    var pc := StampingIssue(cr, cur, creds, granted);
    assert pc.cr == cr && pc.cur == cur && pc.creds == creds && pc.granted == granted;
  }

  ghost function Apply(cfg: Config, s: State, e: Event): State {
    match e
    case Tick(dt) => s.(w := s.w.(now := s.w.now + if dt > 0.0 then dt else 0.0))
    case User(act) => s.(w := s.w.(crs := Act(s.w.crs, act, FINALIZER)))
    case Outside(secret) => s.(w := s.w.(secret := secret, ours := s.w.ours && secret.Some?))
    case Crash => ToIdle(s.w.(lost := s.w.lost + InFlight(s.pc)))
    case Call(_, _, _, _) => Called(cfg, s.w, s.pc, e)
  }

  ghost function Exec(cfg: Config, s: State, es: seq<Event>): State {
    if es == [] then s else Apply(cfg, Exec(cfg, s, es[..|es| - 1]), es[|es| - 1])
  }

  /** Before the resource is created. */
  predicate Initial(s: State) {
    && s.pc.Idle?
    && s.w.crs.cr.None?
    && s.w.secret.None? && !s.w.ours
    && s.w.issued == s.w.handed == s.w.revoked == s.w.lost == {}
  }

  // ---- what a pass reports ----

  /** Whether to come again after the period, and whether there was an error, after which
      the pass is repeated too. */
  datatype Result = Result(requeue: bool, error: bool)

  const SILENT := Result(false, false)

  /** What a pass reports that has come to rest with this call. A panic is reported as an
      error. */
  function ResultOf(w: World, pc: Pc, fault: Fault): Result {
    match pc
    case Idle => Result(false, !fault.Sound?)
    case GotCr(_) => Result(false, !fault.Sound?)
    case Guarded(_, _) => Result(true, false)
    case Renewing(_, _) => Result(true, true)
    case WritingRenewal(obj, _) => Result(true, !Overwrite(w, obj, fault).1.Done?)
    case ForcingIssue(obj, _) => Result(true, !Overwrite(w, obj, fault).1.Done?)
    case Creating(obj, _) => Result(CreateSecret(w.secret, obj, fault).1.Done?, false)
    case Replacing(obj, _) => Result(Overwrite(w, obj, fault).1.Done?, false)
    case RemovingFinalizer(cr) =>
      Result(false, UpdateCr(w.crs, cr.(finalizers := Without(cr.finalizers, FINALIZER)), fault).1.None?)
    case _ => Result(false, true)
  }
}
