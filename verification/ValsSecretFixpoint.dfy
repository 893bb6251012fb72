/** When a ValsSecret's pass writes its Secret again. */
module ValsSecretFixpoint {
  import opened Wrappers
  import opened Utils
  import opened Store
  import opened Assembly
  import opened ValsSecret

  /** The Secret has an annotation or a label that is compared but that the resource
      does not have: merging never removes it. */
  predicate HasStaleKeys(cr: ValsCr, cur: Option<Secret>) {
    && cur.Some?
    && ((exists k :: k in cur.value.annotations && k !in IGNORED_ANNOTATIONS && k !in cr.annotations)
        || (exists k :: k in cur.value.labels && k !in IGNORED_LABELS && k !in cr.labels))
  }

  lemma SameWhenCovered(base: Meta, over: Meta, merged: Meta, ignored: set<MetaKey>)
    requires Seen(merged, ignored) == Seen(base + over, ignored)
    ensures Seen(merged, ignored) == Seen(over, ignored) <==> forall k | k in base && k !in ignored :: k in over
  {
    var seen := Seen(base + over, ignored);
    if k :| k in base && k !in ignored && k !in over {
      assert k in seen;
    } else {
      assert seen.Keys == Seen(over, ignored).Keys;
    }
  }

  /** What `upsertSecret` has written needs an update again, with the same resource and
      data, if and only if the Secret before it had stale keys. */
  lemma UpsertIsFixpoint(cfg: Config, cr: ValsCr, data: map<string, string>, cur: Option<Secret>, now: int)
    ensures NeedsUpdate(cr, Some(Upserted(cfg, cr, data, cur, now)), data) <==> HasStaleKeys(cr, cur)
  {
    var base := if cur.Some? then cur.value else EMPTY;
    var written := Upserted(cfg, cr, data, cur, now);
    SameWhenCovered(base.annotations, cr.annotations, written.annotations, IGNORED_ANNOTATIONS);
    SameWhenCovered(base.labels, cr.labels, written.labels, IGNORED_LABELS);
  }

  /** One has the key and the other has not, or both have it with different texts. */
  predicate Differ(m: Meta, n: Meta, key: MetaKey) {
    (key in m <==> key !in n) || (key in m && key in n && m[key] != n[key])
  }

  /** A Secret needs an update exactly if its data differ, an annotation besides the time
      stamp and kubectl's own, or a label besides the one that names the operator. */
  lemma UpdateNeeded(cr: ValsCr, secret: Secret, data: map<string, string>)
    ensures NeedsUpdate(cr, Some(secret), data) <==>
      || secret.data != data
      || (exists key :: key != LastUpdated && key != LastApplied && Differ(secret.annotations, cr.annotations, key))
      || (exists key :: key != ManagedBy && Differ(secret.labels, cr.labels, key))
    ensures NeedsUpdate(cr, None, data)
  {
    SeenAlike(secret.annotations, cr.annotations, IGNORED_ANNOTATIONS);
    SeenAlike(secret.labels, cr.labels, IGNORED_LABELS);
  }

  lemma SeenAlike(m: Meta, n: Meta, ignored: set<MetaKey>)
    ensures Seen(m, ignored) == Seen(n, ignored) <==> forall key | key !in ignored :: !Differ(m, n, key)
  {
    var a, b := Seen(m, ignored), Seen(n, ignored);
    assert forall key :: (key in a <==> key in m && key !in ignored) && (key in b <==> key in n && key !in ignored);
  }

  /** What a write stores: the data, the resource's labels and annotations over those of the
      Secret, the operator's name and the time; kubectl's own annotation is gone. */
  lemma WrittenMeta(cfg: Config, cr: ValsCr, data: map<string, string>, cur: Option<Secret>, now: int, key: MetaKey)
    ensures var written, base := Upserted(cfg, cr, data, cur, now), if cur.Some? then cur.value else EMPTY;
      && written.data == data
      && At(written.labels, ManagedBy) == "vals-operator"
      && At(written.annotations, LastUpdated) == cfg.format(now)
      && LastApplied !in written.annotations
      && (key != ManagedBy ==> At(written.labels, key) == At(if key in cr.labels then cr.labels else base.labels, key))
      && (key != LastUpdated && key != LastApplied ==>
            At(written.annotations, key) == At(if key in cr.annotations then cr.annotations else base.annotations, key))
  {
  }

  lemma StaleKeysStay(cfg: Config, cr: ValsCr, data: map<string, string>, cur: Option<Secret>, now: int)
    ensures HasStaleKeys(cr, Some(Upserted(cfg, cr, data, cur, now))) <==> HasStaleKeys(cr, cur)
  {
    var written := Upserted(cfg, cr, data, cur, now);
    if cur.Some? {
      forall k | k in cur.value.annotations && k !in IGNORED_ANNOTATIONS ensures k in written.annotations {}
      forall k | k in cur.value.labels ensures k in written.labels {}
    }
  }

  lemma ExpiryIsMonotone(cfg: Config, spec: Spec, secret: Secret, earlier: real, later: real)
    requires earlier <= later && HasExpired(cfg, spec, secret, earlier)
    ensures HasExpired(cfg, spec, secret, later)
  {
    if cfg.parse(At(secret.annotations, LastUpdated)).Some? {
      var s := cfg.parse(At(secret.annotations, LastUpdated)).value as real;
      TruncateIsMonotone(earlier - s, later - s);
    }
  }

  lemma TruncateIsMonotone(x: real, y: real)
    requires x <= y
    ensures Truncate(x) <= Truncate(y)
  {
  }

  /** A resource at rest whose Secret is what the last write made of it. */
  predicate Settled(cfg: Config, s: State, cr: ValsCr, data: map<string, string>, before: Option<Secret>, stamp: int) {
    && s.pc.Idle? && !cfg.excluded
    && s.w.crs.cr == Some(cr) && !cr.deleting && FINALIZER in cr.finalizers
    && s.w.secret == Some(Upserted(cfg, cr, data, before, stamp))
  }

  predicate Yields(cfg: Config, cr: ValsCr, sources: Sources, data: map<string, string>) {
    Assembled(cfg.policy, cfg.tools, cfg.namespace, cr.spec.data, cr.spec.template, sources) == Some(data)
  }

  /** The calls of a pass up to the decision to write, none of which fails. */
  function Reads(sources: Sources): seq<Event> {
    [Call(Sound), Call(Sound), Assemble(sources), Call(Sound)]
  }

  function Entered(w: World): World
    requires w.crs.cr.Some? && !w.crs.cr.value.deleting
  {
    w.(crs := Hold(w.crs, FINALIZER))
  }

  function HeldCr(w: World): ValsCr
    requires w.crs.cr.Some? && !w.crs.cr.value.deleting
  {
    Hold(w.crs, FINALIZER).cr.value
  }

  /** The same for a pass that may have to add the finalizer first. */
  function FirstReads(w: World, sources: Sources): seq<Event>
    requires w.crs.cr.Some?
  {
    (if FINALIZER in w.crs.cr.value.finalizers then [] else [Call(Sound)]) + Reads(sources)
  }

  /** The create, the update, and the end of the pass. */
  function Sends(): seq<Event> {
    [Call(Sound), Call(Sound), Call(Sound)]
  }

  /** The rest of the pass, from the stamp on. */
  function Writes(): seq<Event> {
    [Call(Sound)] + Sends()
  }

  /** The next pass over the same resource with the same data goes on to write if and
      only if the time to live is over and the Secret had stale keys before. Otherwise
      nothing changes, so nothing is rolled out. */
  lemma SecondPass(cfg: Config, s: State, cr: ValsCr, data: map<string, string>, before: Option<Secret>,
      stamp: int, sources: Sources)
    requires Settled(cfg, s, cr, data, before, stamp) && Yields(cfg, cr, sources, data)
    ensures var t, expired := Exec(cfg, s, Reads(sources)), HasExpired(cfg, cr.spec, s.w.secret.value, s.w.now);
      && (expired && HasStaleKeys(cr, before) ==> t == State(s.w, Stamping(cr, data, s.w.secret)))
      && (expired && !HasStaleKeys(cr, before) ==> t == State(s.w, Finishing))
      && (!expired ==> Exec(cfg, s, Reads(sources)[..2]) == s)
  {
    UpsertIsFixpoint(cfg, cr, data, before, stamp);
    ReachesGate(cfg, s, cr, sources);
    if HasExpired(cfg, cr.spec, s.w.secret.value, s.w.now) {
      assert Reads(sources) == Reads(sources)[..2] + [Assemble(sources), Call(Sound)];
      ExecConcat(cfg, s, Reads(sources)[..2], [Assemble(sources), Call(Sound)]);
      ReachesCheck(cfg, s.w, cr, data, sources);
    }
  }

  lemma ReachesGate(cfg: Config, s: State, cr: ValsCr, sources: Sources)
    requires s.pc.Idle? && !cfg.excluded
    requires s.w.crs.cr == Some(cr) && !cr.deleting && FINALIZER in cr.finalizers
    ensures Exec(cfg, s, Reads(sources)[..2]) == CheckAge(cfg, s.w, cr)
  {
    assert Reads(sources)[..2] == [Call(Sound)] + [Call(Sound)];
    ExecConcat(cfg, s, [Call(Sound)], [Call(Sound)]);
    OneStep(cfg, s, Call(Sound));
    OneStep(cfg, State(s.w, Guarded(cr)), Call(Sound));
  }

  lemma ReachesCheck(cfg: Config, w: World, cr: ValsCr, data: map<string, string>, sources: Sources)
    requires Yields(cfg, cr, sources, data)
    ensures Exec(cfg, State(w, Assembling(cr)), [Assemble(sources), Call(Sound)]) == CheckUpdate(w, cr, data)
  {
    assert [Assemble(sources), Call(Sound)] == [Assemble(sources)] + [Call(Sound)];
    ExecConcat(cfg, State(w, Assembling(cr)), [Assemble(sources)], [Call(Sound)]);
    OneStep(cfg, State(w, Assembling(cr)), Assemble(sources));
    OneStep(cfg, State(w, Upserting(cr, data)), Call(Sound));
  }

  lemma {:induction false} ExecConcat(cfg: Config, s: State, a: seq<Event>, b: seq<Event>)
    ensures Exec(cfg, s, a + b) == Exec(cfg, Exec(cfg, s, a), b)
  {
    if b == [] {
      assert a + b == a;
    } else {
      assert (a + b)[..|a + b| - 1] == a + b[..|b| - 1];
      ExecConcat(cfg, s, a, b[..|b| - 1]);
    }
  }

  lemma SendsOver(cfg: Config, w: World, cr: ValsCr, obj: Secret, stamp: real)
    requires w.secret.Some?
    ensures Exec(cfg, State(w, Creating(cr, obj, stamp)), Sends())
         == ToIdle(Stored(w, Some(obj), stamp).(rollouts := w.rollouts + 1, failures := 0))
  {
    var s, es := State(w, Creating(cr, obj, stamp)), Sends();
    assert es[..2][..1] == es[..1] && es[..1][..0] == [];
    assert Exec(cfg, s, es[..1]) == State(w, Replacing(cr, obj, stamp));
    assert Exec(cfg, s, es[..2]) == RolledOut(Stored(w, Some(obj), stamp));
  }

  lemma OneStep(cfg: Config, s: State, e: Event)
    ensures Exec(cfg, s, [e]) == Apply(cfg, s, e)
  {
    assert [e][..0] == [];
  }

  lemma Stamps(cfg: Config, w: World, cr: ValsCr, data: map<string, string>, cur: Option<Secret>)
    ensures Apply(cfg, State(w, Stamping(cr, data, cur)), Call(Sound))
         == State(w, Creating(cr, Upserted(cfg, cr, data, cur, w.now.Floor), w.now))
  {
  }

  lemma WritesOver(cfg: Config, w: World, cr: ValsCr, data: map<string, string>)
    requires w.secret.Some?
    ensures Exec(cfg, State(w, Stamping(cr, data, w.secret)), Writes())
         == ToIdle(Stored(w, Some(Upserted(cfg, cr, data, w.secret, w.now.Floor)), w.now)
                   .(rollouts := w.rollouts + 1, failures := 0))
  {
    var s, obj := State(w, Stamping(cr, data, w.secret)), Upserted(cfg, cr, data, w.secret, w.now.Floor);
    calc {
      Exec(cfg, s, Writes());
      { ExecConcat(cfg, s, [Call(Sound)], Sends()); }
      Exec(cfg, Exec(cfg, s, [Call(Sound)]), Sends());
      { OneStep(cfg, s, Call(Sound)); Stamps(cfg, w, cr, data, w.secret); }
      Exec(cfg, State(w, Creating(cr, obj, w.now)), Sends());
      { SendsOver(cfg, w, cr, obj, w.now); }
      ToIdle(Stored(w, Some(obj), w.now).(rollouts := w.rollouts + 1, failures := 0));
    }
  }

  /** With stale keys, a pass without failures after the time to live writes the same
      data again and rolls the workloads out again, and leaves the stale keys for the
      next one. */
  lemma StaleKeysRollOutForever(cfg: Config, s: State, cr: ValsCr, data: map<string, string>,
      before: Option<Secret>, stamp: int, sources: Sources)
    requires Settled(cfg, s, cr, data, before, stamp) && Yields(cfg, cr, sources, data)
    requires HasExpired(cfg, cr.spec, s.w.secret.value, s.w.now) && HasStaleKeys(cr, before)
    ensures var t := Exec(cfg, s, Reads(sources) + Writes());
      && t.w.rollouts == s.w.rollouts + 1
      && Settled(cfg, t, cr, data, s.w.secret, s.w.now.Floor)
      && HasStaleKeys(cr, s.w.secret)
  {
    SecondPass(cfg, s, cr, data, before, stamp, sources);
    ExecConcat(cfg, s, Reads(sources), Writes());
    WritesOver(cfg, s.w, cr, data);
    StaleKeysStay(cfg, cr, data, before, stamp);
  }

  /** The create, which finds no Secret, and the end of the pass. */
  function Creates(): seq<Event> {
    [Call(Sound), Call(Sound), Call(Sound)]
  }

  lemma WritesFirst(cfg: Config, w: World, cr: ValsCr, data: map<string, string>)
    requires w.secret.None?
    ensures Exec(cfg, State(w, Stamping(cr, data, None)), Creates())
         == ToIdle(Stored(w, Some(Upserted(cfg, cr, data, None, w.now.Floor)), w.now)
                   .(rollouts := w.rollouts + 1, failures := 0))
  {
    var s, obj, es := State(w, Stamping(cr, data, None)), Upserted(cfg, cr, data, None, w.now.Floor), Creates();
    assert es[..2][..1] == es[..1] && es[..1][..0] == [];
    assert Exec(cfg, s, es[..1]) == State(w, Creating(cr, obj, w.now));
    assert Exec(cfg, s, es[..2]) == RolledOut(Stored(w, Some(obj), w.now));
  }

  predicate NoSecretYet(cfg: Config, s: State) {
    && s.pc.Idle? && !cfg.excluded && s.w.secret.None?
    && s.w.crs.cr.Some? && !s.w.crs.cr.value.deleting
  }

  lemma Holds(cfg: Config, s: State, sources: Sources)
    requires NoSecretYet(cfg, s)
    ensures Exec(cfg, s, FirstReads(s.w, sources))
         == Exec(cfg, State(Entered(s.w), Guarded(HeldCr(s.w))), Reads(sources)[1..])
  {
    var rest := Reads(sources)[1..];
    OneStep(cfg, s, Call(Sound));
    if FINALIZER in s.w.crs.cr.value.finalizers {
      assert FirstReads(s.w, sources) == [Call(Sound)] + rest;
      ExecConcat(cfg, s, [Call(Sound)], rest);
    } else {
      assert FirstReads(s.w, sources) == [Call(Sound)] + ([Call(Sound)] + rest);
      ExecConcat(cfg, s, [Call(Sound)], [Call(Sound)] + rest);
      ExecConcat(cfg, State(s.w, AddingFinalizer(s.w.crs.cr.value)), [Call(Sound)], rest);
      OneStep(cfg, State(s.w, AddingFinalizer(s.w.crs.cr.value)), Call(Sound));
    }
  }

  lemma ReachesStamp(cfg: Config, s: State, data: map<string, string>, sources: Sources)
    requires NoSecretYet(cfg, s) && Yields(cfg, s.w.crs.cr.value, sources, data)
    ensures Exec(cfg, s, FirstReads(s.w, sources)) == State(Entered(s.w), Stamping(HeldCr(s.w), data, None))
  {
    var w, cr := Entered(s.w), HeldCr(s.w);
    Holds(cfg, s, sources);
    assert Reads(sources)[1..] == [Call(Sound)] + [Assemble(sources), Call(Sound)];
    ExecConcat(cfg, State(w, Guarded(cr)), [Call(Sound)], [Assemble(sources), Call(Sound)]);
    OneStep(cfg, State(w, Guarded(cr)), Call(Sound));
    ReachesCheck(cfg, w, cr, data, sources);
  }

  /** Where there is no Secret, a pass without failures creates it and rolls out once;
      the next pass with the same data, at any later time, ends without a write. */
  lemma FreshSecretIsWrittenOnce(cfg: Config, s: State, data: map<string, string>, sources: Sources, dt: real)
    requires NoSecretYet(cfg, s) && Yields(cfg, s.w.crs.cr.value, sources, data)
    ensures var t := Exec(cfg, s, FirstReads(s.w, sources) + Creates());
      && t.w.rollouts == s.w.rollouts + 1
      && Settled(cfg, t, HeldCr(s.w), data, None, s.w.now.Floor)
      && var u := Apply(cfg, t, Tick(dt));
         Exec(cfg, u, Reads(sources)[..2]) == u || Exec(cfg, u, Reads(sources) + [Call(Sound)]) == u
  {
    var cr := HeldCr(s.w);
    ExecConcat(cfg, s, FirstReads(s.w, sources), Creates());
    ReachesStamp(cfg, s, data, sources);
    WritesFirst(cfg, Entered(s.w), cr, data);
    var t := Exec(cfg, s, FirstReads(s.w, sources) + Creates());
    LaterPass(cfg, Apply(cfg, t, Tick(dt)), cr, data, s.w.now.Floor, sources);
  }

  lemma LaterPass(cfg: Config, u: State, cr: ValsCr, data: map<string, string>, stamp: int, sources: Sources)
    requires Settled(cfg, u, cr, data, None, stamp) && Yields(cfg, cr, sources, data)
    requires u.w.failures == 0
    ensures Exec(cfg, u, Reads(sources)[..2]) == u || Exec(cfg, u, Reads(sources) + [Call(Sound)]) == u
  {
    SecondPass(cfg, u, cr, data, None, stamp, sources);
    if HasExpired(cfg, cr.spec, u.w.secret.value, u.w.now) {
      ExecConcat(cfg, u, Reads(sources), [Call(Sound)]);
      OneStep(cfg, State(u.w, Finishing), Call(Sound));
    }
  }

  /** A pass without failures over a resource that is being deleted: the Secret is gone,
      its error count is forgotten, and only other parties can still hold the resource. */
  lemma DeletionCompletes(cfg: Config, s: State, cr: ValsCr)
    requires s.pc.Idle? && !cfg.excluded
    requires s.w.crs.cr == Some(cr) && cr.deleting && FINALIZER in cr.finalizers
    ensures var t, others := Exec(cfg, s, [Call(Sound)] + Sends()), Without(cr.finalizers, FINALIZER);
      && t.pc.Idle? && t.w.secret.None? && !t.w.ours && t.w.failures == 0
      && (t.w.crs.cr.None? <==> others == [])
      && (t.w.crs.cr.Some? ==> t.w.crs.cr.value.finalizers == others)
  {
    ExecConcat(cfg, s, [Call(Sound)], Sends());
    OneStep(cfg, s, Call(Sound));
    Retires(cfg, s.w, cr);
  }

  lemma Retires(cfg: Config, w: World, cr: ValsCr)
    requires FINALIZER in cr.finalizers && w.crs.cr == Some(cr)
    ensures Exec(cfg, State(w, ForgettingErrors(cr)), Sends())
         == ToIdle(w.(secret := None, ours := false, stamps := [], writes := [], failures := 0,
                      crs := Put(w.crs, cr.(finalizers := Without(cr.finalizers, FINALIZER)))))
  {
    var s, es := State(w, ForgettingErrors(cr)), Sends();
    assert es[..2][..1] == es[..1] && es[..1][..0] == [];
    assert Exec(cfg, s, es[..1]) == State(w.(failures := 0), Deleting(cr));
    assert Exec(cfg, s, es[..2])
        == State(w.(failures := 0, secret := None, ours := false, stamps := [], writes := []), RemovingFinalizer(cr));
  }

  /** The same resource; only its version may have changed. */
  predicate SameCr(cr: ValsCr, other: ValsCr) {
    other == cr.(version := other.version)
  }

  /** Nobody acts but the operator, which may be restarted and whose calls may fail, and
      whatever can be assembled is the same as before. */
  predicate Unchanging(cfg: Config, cr: ValsCr, data: map<string, string>, e: Event) {
    match e
    case Tick(_) => true
    case Crash => true
    case Call(_) => true
    case Assemble(sources) =>
      var r := Assembled(cfg.policy, cfg.tools, cfg.namespace, cr.spec.data, cr.spec.template, sources);
      r.None? || r == Some(data)
    case _ => false
  }

  /** A pass that does not get to a write. */
  predicate Harmless(cr: ValsCr, data: map<string, string>, pc: Pc) {
    match pc
    case Idle => true
    case Guarded(c) => SameCr(cr, c)
    case Assembling(c) => SameCr(cr, c)
    case CountingError(c) => SameCr(cr, c)
    case BackingOff(c) => SameCr(cr, c)
    case Upserting(c, d) => SameCr(cr, c) && d == data
    case Finishing => true
    case _ => false
  }

  predicate Same(cr: ValsCr, w: World, after: World) {
    && after.crs.cr.Some? && SameCr(cr, after.crs.cr.value)
    && after.secret == w.secret && after.ours == w.ours
    && after.stamps == w.stamps && after.writes == w.writes && after.rollouts == w.rollouts
  }

  lemma HarmlessStep(cfg: Config, cr: ValsCr, data: map<string, string>, w: World, s: State, e: Event)
    requires !cr.deleting && FINALIZER in cr.finalizers
    requires w.secret.Some? && !NeedsUpdate(cr, w.secret, data)
    requires Same(cr, w, s.w) && Harmless(cr, data, s.pc) && Unchanging(cfg, cr, data, e)
    ensures var t := Apply(cfg, s, e); Same(cr, w, t.w) && Harmless(cr, data, t.pc)
  {
  }

  /** Once written without stale keys, a Secret is written and rolled out again by no
      pass whatever, at whatever time, as long as nobody changes the resource, the Secret
      or the values; and failures in between do not matter. */
  lemma {:induction false} NeverWrittenAgain(cfg: Config, s: State, cr: ValsCr, data: map<string, string>,
      before: Option<Secret>, stamp: int, es: seq<Event>)
    requires Settled(cfg, s, cr, data, before, stamp) && !HasStaleKeys(cr, before)
    requires forall i :: 0 <= i < |es| ==> Unchanging(cfg, cr, data, es[i])
    ensures Same(cr, s.w, Exec(cfg, s, es).w) && Harmless(cr, data, Exec(cfg, s, es).pc)
  {
    if es != [] {
      NeverWrittenAgain(cfg, s, cr, data, before, stamp, es[..|es| - 1]);
      UpsertIsFixpoint(cfg, cr, data, before, stamp);
      HarmlessStep(cfg, cr, data, s.w, Exec(cfg, s, es[..|es| - 1]), es[|es| - 1]);
    }
  }

  lemma TimePasses(cfg: Config, s: State, e: Event)
    ensures s.w.now <= Apply(cfg, s, e).w.now
  {
  }

  lemma {:induction false} TimeHasPassed(cfg: Config, s: State, es: seq<Event>)
    ensures s.w.now <= Exec(cfg, s, es).w.now
  {
    if es != [] {
      TimeHasPassed(cfg, s, es[..|es| - 1]);
      TimePasses(cfg, Exec(cfg, s, es[..|es| - 1]), es[|es| - 1]);
    }
  }

  /** In all these runs the stamp stays the old one, too. So a pass asks the stores for the
      values exactly if the time to live was over at its gate, and once it is over, every
      pass from then on does. */
  lemma GateStaysOpen(cfg: Config, s: State, cr: ValsCr, data: map<string, string>, before: Option<Secret>, stamp: int,
                      es: seq<Event>)
    requires Settled(cfg, s, cr, data, before, stamp) && !HasStaleKeys(cr, before)
    requires forall i :: 0 <= i < |es| ==> Unchanging(cfg, cr, data, es[i])
    ensures var t := Exec(cfg, s, es);
      t.pc.Guarded? ==>
        (Apply(cfg, t, Call(Sound)).pc.Assembling? <==> HasExpired(cfg, cr.spec, s.w.secret.value, t.w.now))
    ensures HasExpired(cfg, cr.spec, s.w.secret.value, s.w.now) ==>
      HasExpired(cfg, cr.spec, s.w.secret.value, Exec(cfg, s, es).w.now)
  {
    NeverWrittenAgain(cfg, s, cr, data, before, stamp, es);
    TimeHasPassed(cfg, s, es);
    if HasExpired(cfg, cr.spec, s.w.secret.value, s.w.now) {
      ExpiryIsMonotone(cfg, cr.spec, s.w.secret.value, s.w.now, Exec(cfg, s, es).w.now);
    }
  }
}
