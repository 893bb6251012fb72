/** controllers/valssecret_controller.go as a machine: what the operator knows between
    two calls, and what every call makes of the cluster. */
module ValsSecret {
  import opened Wrappers
  import opened Utils
  import opened Store
  import opened Assembly

  const FINALIZER: string := "vals.digitalis.io/finalizer"

  datatype Spec = Spec(data: map<string, Source>, ttl: int, template: map<string, string>)

  type Secret = SecretObj<map<string, string>>
  type ValsCr = Cr<Spec>

  /** `format` and `parse` are those of `timeLayout`, for a time in seconds. */
  datatype Config = Config(
    namespace: string, excluded: bool, policy: Policy, tools: Tools, defaultTtl: int,
    format: int -> string, parse: string -> Option<int>)

  // ---- what a pass decides and writes ----

  /** Go's conversion of a number of seconds to `int64`. */
  function Truncate(x: real): int {
    if x >= 0.0 then x.Floor else -((-x).Floor)
  }

  function EffectiveTtl(cfg: Config, spec: Spec): int {
    if spec.ttl <= 0 then cfg.defaultTtl else spec.ttl
  }

  /** `hasSecretExpired` */
  predicate HasExpired(cfg: Config, spec: Spec, secret: Secret, now: real) {
    var lastUpdated := At(secret.annotations, LastUpdated);
    || lastUpdated == ""
    || cfg.parse(lastUpdated).None?
    || Truncate(now - cfg.parse(lastUpdated).value as real) > EffectiveTtl(cfg, spec)
  }

  const IGNORED_ANNOTATIONS: set<MetaKey> := {LastApplied, LastUpdated}
  const IGNORED_LABELS: set<MetaKey> := {ManagedBy}

  /** `secretNeedsUpdate`; a Secret that was not found has no name. */
  predicate NeedsUpdate(cr: ValsCr, secret: Option<Secret>, data: map<string, string>) {
    || secret.None?
    || secret.value.data != data
    || Seen(secret.value.annotations, IGNORED_ANNOTATIONS) != Seen(cr.annotations, IGNORED_ANNOTATIONS)
    || Seen(secret.value.labels, IGNORED_LABELS) != Seen(cr.labels, IGNORED_LABELS)
  }

  const EMPTY: Secret := SecretObj(map[], map[], map[])

  /** The Secret that `upsertSecret` sends. */
  function Upserted(cfg: Config, cr: ValsCr, data: map<string, string>, cur: Option<Secret>, now: int): Secret {
    var base := if cur.Some? then cur.value else EMPTY;
    SecretObj(
      data,
      (base.labels + cr.labels)[ManagedBy := "vals-operator"],
      (base.annotations + cr.annotations)[LastUpdated := cfg.format(now)] - {LastApplied})
  }

  // ---- the machine ----

  /** `stamps` are the times stamped on the Secret's writes since it came to be, `writes`
      the times at which the API server accepted them,
      `rollouts` the passes that went on to restart workloads, `failures` the calls of
      `errorBackoff` since a pass last succeeded or the resource was being deleted. */
  datatype World = World(
    crs: Crs<Spec>, secret: Option<Secret>, ours: bool, now: real, stamps: seq<real>, writes: seq<real>,
    rollouts: nat, failures: nat)

  datatype Pc =
    | Idle
    | AddingFinalizer(cr: ValsCr)
    | Guarded(cr: ValsCr)
    | Assembling(cr: ValsCr)
    | CountingError(cr: ValsCr)
    | BackingOff(cr: ValsCr)
    | Upserting(cr: ValsCr, data: map<string, string>)
    | Stamping(cr: ValsCr, data: map<string, string>, cur: Option<Secret>)
    | Creating(cr: ValsCr, obj: Secret, stamp: real)
    | Replacing(cr: ValsCr, obj: Secret, stamp: real)
    | Finishing
    | ForgettingErrors(cr: ValsCr)
    | Deleting(cr: ValsCr)
    | RemovingFinalizer(cr: ValsCr)

  datatype State = State(w: World, pc: Pc)

  datatype Event =
    | Tick(dt: real)
    | User(act: UserAct<Spec>)
    | Outside(secret: Option<Secret>)
    | Crash
    | Call(fault: Fault)
    | Assemble(sources: Sources)

  function ToIdle(w: World): State {
    State(w, Idle)
  }

  function AfterRead(w: World, cr: ValsCr): State {
    if !cr.deleting then
      State(w, if FINALIZER in cr.finalizers then Guarded(cr) else AddingFinalizer(cr))
    else
      State(w, ForgettingErrors(cr))
  }

  function ForgetErrors(w: World, cr: ValsCr): State {
    State(w.(failures := 0), if FINALIZER in cr.finalizers then Deleting(cr) else Idle)
  }

  function AddFinalizer(w: World, cr: ValsCr, fault: Fault): State {
    var (crs, reply) := UpdateCr(w.crs, cr.(finalizers := cr.finalizers + [FINALIZER]), fault);
    State(w.(crs := crs), if reply.Some? then Guarded(reply.value) else Idle)
  }

  /** The TTL gate. */
  function CheckAge(cfg: Config, w: World, cr: ValsCr): State {
    if w.secret.Some? && !HasExpired(cfg, cr.spec, w.secret.value, w.now) then ToIdle(w) else State(w, Assembling(cr))
  }

  function AssembleData(cfg: Config, w: World, cr: ValsCr, sources: Sources): State {
    var data := Assembled(cfg.policy, cfg.tools, cfg.namespace, cr.spec.data, cr.spec.template, sources);
    if data.Some? then State(w, Upserting(cr, data.value)) else State(w, CountingError(cr))
  }

  /** `errorBackoff` also sends the resource back as it was read. */
  function BackOff(w: World, cr: ValsCr, fault: Fault): State {
    ToIdle(w.(crs := UpdateCr(w.crs, cr, fault).0))
  }

  function CheckUpdate(w: World, cr: ValsCr, data: map<string, string>): State {
    if NeedsUpdate(cr, w.secret, data) then State(w, Stamping(cr, data, w.secret)) else State(w, Finishing)
  }

  function Stored(w: World, secret: Option<Secret>, stamp: real): World {
    w.(secret := secret, ours := true, stamps := w.stamps + [stamp], writes := w.writes + [w.now])
  }

  function RolledOut(w: World): State {
    State(w.(rollouts := w.rollouts + 1), Finishing)
  }

  function WriteNew(w: World, cr: ValsCr, obj: Secret, stamp: real, fault: Fault): State {
    var (secret, reply) := CreateSecret(w.secret, obj, fault);
    var w' := if w.secret.Some? || fault.Before? then w else Stored(w, secret, stamp);
    match reply
    case Done => RolledOut(w')
    case AlreadyExists => State(w', Replacing(cr, obj, stamp))
    case _ => ToIdle(w')
  }

  function WriteOver(w: World, obj: Secret, stamp: real, fault: Fault): State {
    var (secret, reply) := UpdateSecret(w.secret, obj, fault);
    var w' := if w.secret.None? || fault.Before? then w else Stored(w, secret, stamp);
    if reply.Done? then RolledOut(w') else ToIdle(w')
  }

  function Remove(w: World, cr: ValsCr, fault: Fault): State {
    var (secret, reply) := DeleteSecret(w.secret, fault);
    State(w.(secret := secret, ours := w.ours && secret.Some?, stamps := if secret.Some? then w.stamps else [],
            writes := if secret.Some? then w.writes else []),
          if reply.Failed? then Idle else RemovingFinalizer(cr))
  }

  function RemoveFinalizer(w: World, cr: ValsCr, fault: Fault): State {
    ToIdle(w.(crs := UpdateCr(w.crs, cr.(finalizers := Without(cr.finalizers, FINALIZER)), fault).0))
  }

  function Called(cfg: Config, w: World, pc: Pc, fault: Fault): State {
    match pc
    case Idle => if fault.Sound? && w.crs.cr.Some? && !cfg.excluded then AfterRead(w, w.crs.cr.value) else ToIdle(w)
    case AddingFinalizer(cr) => AddFinalizer(w, cr, fault)
    case Guarded(cr) => if fault.Sound? then CheckAge(cfg, w, cr) else ToIdle(w)
    case Assembling(cr) => State(w, pc)
    case CountingError(cr) => State(w.(failures := w.failures + 1), BackingOff(cr))
    case BackingOff(cr) => BackOff(w, cr, fault)
    case Upserting(cr, data) => if fault.Sound? then CheckUpdate(w, cr, data) else ToIdle(w)
    case Stamping(cr, data, cur) => State(w, Creating(cr, Upserted(cfg, cr, data, cur, w.now.Floor), w.now))
    case Creating(cr, obj, stamp) => WriteNew(w, cr, obj, stamp, fault)
    case Replacing(_, obj, stamp) => WriteOver(w, obj, stamp, fault)
    case Finishing => ToIdle(w.(failures := 0))
    case ForgettingErrors(cr) => ForgetErrors(w, cr)
    case Deleting(cr) => Remove(w, cr, fault)
    case RemovingFinalizer(cr) => RemoveFinalizer(w, cr, fault)
  }

  function Apply(cfg: Config, s: State, e: Event): State {
    match e
    case Tick(dt) => s.(w := s.w.(now := s.w.now + if dt > 0.0 then dt else 0.0))
    case User(act) => s.(w := s.w.(crs := Act(s.w.crs, act, FINALIZER)))
    case Outside(secret) => s.(w := s.w.(secret := secret, ours := s.w.ours && secret.Some?))
    case Crash => ToIdle(s.w.(failures := 0))
    case Call(fault) => Called(cfg, s.w, s.pc, fault)
    case Assemble(sources) => if s.pc.Assembling? then AssembleData(cfg, s.w, s.pc.cr, sources) else s
  }

  function Exec(cfg: Config, s: State, es: seq<Event>): State {
    if es == [] then s else Apply(cfg, Exec(cfg, s, es[..|es| - 1]), es[|es| - 1])
  }

  /** Before the resource is created. */
  predicate Initial(s: State) {
    && s.pc.Idle? && s.w.crs.cr.None? && s.w.secret.None? && !s.w.ours
    && s.w.stamps == [] && s.w.writes == [] && s.w.rollouts == 0 && s.w.failures == 0
  }

  // ---- what a pass reports ----

  /** When to come again; a delay is in nanoseconds. */
  datatype Requeue = Never | Period | After(delay: int)

  /** After an error the pass is repeated, too. */
  datatype Result = Result(error: bool, requeue: Requeue)

  const SILENT := Result(false, Never)

  /** What a pass reports that has come to rest with this call; `delay` is the backoff. */
  function ResultOf(w: World, pc: Pc, fault: Fault, delay: int): Result {
    match pc
    case Idle => Result(!fault.Sound?, Never)
    case AddingFinalizer(_) => Result(true, Never)
    case Guarded(_) => if fault.Sound? then Result(false, Period) else Result(true, Never)
    case BackingOff(_) => Result(false, Requeue.After(delay))
    case Finishing => Result(false, Period)
    case Deleting(_) => Result(true, Never)
    case RemovingFinalizer(cr) =>
      Result(UpdateCr(w.crs, cr.(finalizers := Without(cr.finalizers, FINALIZER)), fault).1.None?, Never)
    case _ => SILENT
  }
}
