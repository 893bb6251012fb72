/** How far apart two writes of a ValsSecret's Secret can be at the least. */
module ValsSecretSpacing {
  import opened Wrappers
  import opened Utils
  import opened Store
  import opened Assembly
  import opened ValsSecret
  import opened ValsSecretFixpoint
  import opened ValsSecretSafety
  import RefPattern

  // ---- prompt runs ----

  /** Time and calls that succeed, and nothing else. */
  predicate NoFailure(e: Event) {
    e.Tick? || e.Assemble? || (e.Call? && e.fault.Sound?)
  }

  /** A run without failures whose writes are all accepted within the delay. */
  ghost predicate Leads(cfg: Config, delay: real, s: State, es: seq<Event>, t: State) {
    && Exec(cfg, s, es) == t
    && PromptRun(cfg, delay, s, es)
    && forall i :: 0 <= i < |es| ==> NoFailure(es[i])
  }

  lemma {:induction false} PromptConcat(cfg: Config, delay: real, s: State, a: seq<Event>, b: seq<Event>)
    requires PromptRun(cfg, delay, s, a) && PromptRun(cfg, delay, Exec(cfg, s, a), b)
    ensures PromptRun(cfg, delay, s, a + b)
  {
    if b == [] {
      assert a + b == a;
    } else {
      assert (a + b)[..|a + b| - 1] == a + b[..|b| - 1];
      PromptConcat(cfg, delay, s, a, b[..|b| - 1]);
      ExecConcat(cfg, s, a, b[..|b| - 1]);
    }
  }

  lemma Joined(cfg: Config, delay: real, s: State, a: seq<Event>, mid: State, b: seq<Event>, t: State)
    requires Leads(cfg, delay, s, a, mid) && Leads(cfg, delay, mid, b, t)
    ensures Leads(cfg, delay, s, a + b, t)
  {
    PromptConcat(cfg, delay, s, a, b);
    ExecConcat(cfg, s, a, b);
  }

  /** The next write is not late yet. */
  predicate OnTime(delay: real, s: State) {
    s.pc.Creating? || s.pc.Replacing? ==> s.w.now <= s.pc.stamp + delay
  }

  lemma CallKeepsTime(cfg: Config, delay: real, s: State, e: Event)
    requires delay >= 0.0 && OnTime(delay, s) && (e.Call? || e.Assemble?)
    ensures OnTime(delay, Apply(cfg, s, e))
  {
  }

  /** Calls take no time of their own, so only time between them can make a write late. */
  lemma {:induction false} CallsArePrompt(cfg: Config, delay: real, s: State, es: seq<Event>)
    requires delay >= 0.0 && OnTime(delay, s)
    requires forall i :: 0 <= i < |es| ==> es[i].Call? || es[i].Assemble?
    ensures PromptRun(cfg, delay, s, es) && OnTime(delay, Exec(cfg, s, es))
  {
    if es != [] {
      CallsArePrompt(cfg, delay, s, es[..|es| - 1]);
      CallKeepsTime(cfg, delay, Exec(cfg, s, es[..|es| - 1]), es[|es| - 1]);
    }
  }

  lemma {:induction false} LaterIsPromptToo(cfg: Config, delay: real, longer: real, s: State, es: seq<Event>)
    requires PromptRun(cfg, delay, s, es) && delay <= longer
    ensures PromptRun(cfg, longer, s, es)
  {
    if es != [] {
      LaterIsPromptToo(cfg, delay, longer, s, es[..|es| - 1]);
    }
  }

  lemma Waits(cfg: Config, delay: real, w: World, pc: Pc, dt: real)
    requires dt >= 0.0
    ensures Leads(cfg, delay, State(w, pc), [Tick(dt)], State(w.(now := w.now + dt), pc))
  {
    OneStep(cfg, State(w, pc), Tick(dt));
  }

  // ---- the first write ----

  lemma StampsFirst(cfg: Config, w: World, cr: ValsCr, data: map<string, string>)
    ensures Exec(cfg, State(w, Stamping(cr, data, None)), [Call(Sound)])
         == State(w, Creating(cr, Upserted(cfg, cr, data, None, w.now.Floor), w.now))
  {
    OneStep(cfg, State(w, Stamping(cr, data, None)), Call(Sound));
    Stamps(cfg, w, cr, data, None);
  }

  function Created(cfg: Config, w: World, cr: ValsCr, data: map<string, string>, delay: real): World {
    Stored(w.(now := w.now + delay), Some(Upserted(cfg, cr, data, None, w.now.Floor)), w.now)
      .(rollouts := w.rollouts + 1, failures := 0)
  }

  lemma SoundCreate(cfg: Config, w: World, cr: ValsCr, obj: Secret, stamp: real)
    requires w.secret.None?
    ensures Exec(cfg, State(w, Creating(cr, obj, stamp)), [Call(Sound), Call(Sound)])
         == ToIdle(Stored(w, Some(obj), stamp).(rollouts := w.rollouts + 1, failures := 0))
  {
    var s := State(w, Creating(cr, obj, stamp));
    assert [Call(Sound), Call(Sound)] == [Call(Sound)] + [Call(Sound)];
    ExecConcat(cfg, s, [Call(Sound)], [Call(Sound)]);
    OneStep(cfg, s, Call(Sound));
    OneStep(cfg, RolledOut(Stored(w, Some(obj), stamp)), Call(Sound));
  }

  /** The pass up to the stamp. */
  lemma FirstStamp(cfg: Config, s: State, data: map<string, string>, sources: Sources, delay: real)
    returns (es: seq<Event>)
    requires NoSecretYet(cfg, s) && Yields(cfg, s.w.crs.cr.value, sources, data) && delay >= 0.0
    ensures var w, cr := Entered(s.w), HeldCr(s.w);
      Leads(cfg, delay, s, es, State(w, Creating(cr, Upserted(cfg, cr, data, None, w.now.Floor), w.now)))
  {
    var w, cr := Entered(s.w), HeldCr(s.w);
    ReachesStamp(cfg, s, data, sources);
    StampsFirst(cfg, w, cr, data);
    var stamping := State(w, Stamping(cr, data, None));
    var calls := OnlyCalls(s.w, sources);
    es := [Call(Sound)];
    CallsLead(cfg, delay, s, calls, stamping);
    CallsLead(cfg, delay, stamping, es, Exec(cfg, stamping, es));
    Joined(cfg, delay, s, calls, stamping, es, Exec(cfg, stamping, es));
    es := calls + es;
  }

  lemma OnlyCalls(w: World, sources: Sources) returns (es: seq<Event>)
    requires w.crs.cr.Some?
    ensures es == FirstReads(w, sources)
    ensures forall i :: 0 <= i < |es| ==> NoFailure(es[i]) && !es[i].Tick?
  {
    es := FirstReads(w, sources);
  }

  lemma CallsLead(cfg: Config, delay: real, s: State, es: seq<Event>, t: State)
    requires Exec(cfg, s, es) == t && delay >= 0.0 && OnTime(delay, s)
    requires forall i :: 0 <= i < |es| ==> NoFailure(es[i]) && !es[i].Tick?
    ensures Leads(cfg, delay, s, es, t)
  {
    CallsArePrompt(cfg, delay, s, es);
  }

  lemma SlowCreate(cfg: Config, w: World, cr: ValsCr, data: map<string, string>, delay: real) returns (es: seq<Event>)
    requires w.secret.None? && delay >= 0.0
    ensures Leads(cfg, delay, State(w, Creating(cr, Upserted(cfg, cr, data, None, w.now.Floor), w.now)), es,
                  ToIdle(Created(cfg, w, cr, data, delay)))
  {
    var obj, late := Upserted(cfg, cr, data, None, w.now.Floor), w.(now := w.now + delay);
    var creating, waited := State(w, Creating(cr, obj, w.now)), State(late, Creating(cr, obj, w.now));
    var calls := [Call(Sound), Call(Sound)];
    Waits(cfg, delay, w, Creating(cr, obj, w.now), delay);
    SoundCreate(cfg, late, cr, obj, w.now);
    CallsArePrompt(cfg, delay, waited, calls);
    Joined(cfg, delay, creating, [Tick(delay)], waited, calls, ToIdle(Created(cfg, w, cr, data, delay)));
    es := [Tick(delay)] + calls;
  }

  /** A pass whose create is accepted only after the delay. */
  lemma FirstWrite(cfg: Config, s: State, data: map<string, string>, sources: Sources, delay: real)
    returns (es: seq<Event>)
    requires NoSecretYet(cfg, s) && Yields(cfg, s.w.crs.cr.value, sources, data) && delay >= 0.0
    ensures Leads(cfg, delay, s, es, ToIdle(Created(cfg, Entered(s.w), HeldCr(s.w), data, delay)))
  {
    var w, cr := Entered(s.w), HeldCr(s.w);
    var head := FirstStamp(cfg, s, data, sources, delay);
    var tail := SlowCreate(cfg, w, cr, data, delay);
    Joined(cfg, delay, s, head, State(w, Creating(cr, Upserted(cfg, cr, data, None, w.now.Floor), w.now)), tail,
      ToIdle(Created(cfg, w, cr, data, delay)));
    es := head + tail;
  }

  // ---- the second write ----

  /** At rest, with these stamps and writes. */
  predicate Wrote(s: State, now: real, stamps: seq<real>, writes: seq<real>) {
    s.pc.Idle? && s.w.now == now && s.w.stamps == stamps && s.w.writes == writes
  }

  /** Other values are found once the time to live is over, and written at once. */
  lemma WritesOtherValues(cfg: Config, s: State, cr: ValsCr, data: map<string, string>, other: map<string, string>,
                          stamp: int, sources: Sources) returns (es: seq<Event>)
    requires Settled(cfg, s, cr, data, None, stamp) && Yields(cfg, cr, sources, other) && other != data
    requires HasExpired(cfg, cr.spec, s.w.secret.value, s.w.now)
    ensures forall i :: 0 <= i < |es| ==> NoFailure(es[i]) && !es[i].Tick?
    ensures Wrote(Exec(cfg, s, es), s.w.now, s.w.stamps + [s.w.now], s.w.writes + [s.w.now])
  {
    ReachesGate(cfg, s, cr, sources);
    assert Reads(sources) == Reads(sources)[..2] + [Assemble(sources), Call(Sound)];
    ExecConcat(cfg, s, Reads(sources)[..2], [Assemble(sources), Call(Sound)]);
    ReachesCheck(cfg, s.w, cr, other, sources);
    ExecConcat(cfg, s, Reads(sources), Writes());
    WritesOver(cfg, s.w, cr, other);
    es := Reads(sources) + Writes();
  }

  /** The first moment at which a Secret with that stamp has expired. */
  function NextPass(stamp: real, ttl: int): real {
    (stamp.Floor + ttl + 1) as real
  }

  lemma ExpiresInTime(cfg: Config, cr: ValsCr, data: map<string, string>, stamp: real, ttl: int)
    requires KeepsSeconds(cfg) && Lives(cfg, cr.spec, ttl) && ttl >= 0
    requires 0.0 <= stamp && stamp.Floor <= LAST
    ensures HasExpired(cfg, cr.spec, Upserted(cfg, cr, data, None, stamp.Floor), NextPass(stamp, ttl))
  {
    ExpiryInNumbers(cfg, cr.spec, Upserted(cfg, cr, data, None, stamp.Floor), stamp.Floor, NextPass(stamp, ttl), ttl);
  }

  /** The state in which the second pass starts. */
  function DueState(cfg: Config, w: World, data: map<string, string>, delay: real, ttl: int): State
    requires w.crs.cr.Some? && !w.crs.cr.value.deleting
  {
    ToIdle(Created(cfg, Entered(w), HeldCr(w), data, delay).(now := NextPass(w.now, ttl)))
  }

  lemma SecondWrite(cfg: Config, w: World, data: map<string, string>, other: map<string, string>, sources: Sources,
                    delay: real, ttl: int) returns (es: seq<Event>)
    requires w.crs.cr.Some? && !w.crs.cr.value.deleting && w.secret.None? && !cfg.excluded
    requires KeepsSeconds(cfg) && Lives(cfg, w.crs.cr.value.spec, ttl) && ttl >= 0
    requires 0.0 <= w.now && w.now.Floor <= LAST && delay >= 0.0
    requires Yields(cfg, w.crs.cr.value, sources, other) && data != other
    ensures var due := DueState(cfg, w, data, delay, ttl);
      && Leads(cfg, delay, due, es, Exec(cfg, due, es))
      && Wrote(Exec(cfg, due, es), due.w.now, due.w.stamps + [due.w.now], due.w.writes + [due.w.now])
  {
    var due := DueState(cfg, w, data, delay, ttl);
    ExpiresInTime(cfg, HeldCr(w), data, w.now, ttl);
    es := WritesOtherValues(cfg, due, HeldCr(w), data, other, w.now.Floor, sources);
    CallsArePrompt(cfg, delay, due, es);
  }

  // ---- the run ----

  /** A first pass with a slow create, and a second one in the first second after the time
      to live, which finds other values and writes at once. No call fails, and every write
      is accepted within the delay. */
  lemma DelayShortensTheGap(cfg: Config, s: State, data: map<string, string>, other: map<string, string>,
                            first: Sources, second: Sources, delay: real, ttl: int) returns (es: seq<Event>)
    requires NoSecretYet(cfg, s) && KeepsSeconds(cfg)
    requires Lives(cfg, s.w.crs.cr.value.spec, ttl) && ttl >= 0
    requires 0.0 <= s.w.now && s.w.now.Floor <= LAST && 0.0 <= delay <= NextPass(s.w.now, ttl) - s.w.now
    requires Yields(cfg, s.w.crs.cr.value, first, data) && Yields(cfg, s.w.crs.cr.value, second, other) && data != other
    ensures Leads(cfg, delay, s, es, Exec(cfg, s, es))
    ensures var next := NextPass(s.w.now, ttl);
      Wrote(Exec(cfg, s, es), next, s.w.stamps + [s.w.now, next], s.w.writes + [s.w.now + delay, next])
  {
    var created, due := Created(cfg, Entered(s.w), HeldCr(s.w), data, delay), DueState(cfg, s.w, data, delay, ttl);
    var head := FirstWrite(cfg, s, data, first, delay);
    var wait := due.w.now - created.now;
    Waits(cfg, delay, created, Idle, wait);
    var tail := SecondWrite(cfg, s.w, data, other, second, delay, ttl);
    var end := Exec(cfg, due, tail);
    Joined(cfg, delay, ToIdle(created), [Tick(wait)], due, tail, end);
    Joined(cfg, delay, s, head, ToIdle(created), [Tick(wait)] + tail, end);
    es := head + ([Tick(wait)] + tail);
  }

  /** Stores that answer with one value. */
  function Answers(value: string): Sources {
    Sources((ref: RefPattern.Ref) => None, (yaml: map<string, string>) => Some(map["k" := value]))
  }

  /** One plain reference; `asked` is the time to live that the resource asks for. */
  function PlainSpec(asked: int): Spec {
    Spec(map["k" := Source("v", "")], asked, map[])
  }

  lemma AnswersYield(cfg: Config, cr: ValsCr, value: string)
    requires cr.spec == PlainSpec(cr.spec.ttl)
    ensures Yields(cfg, cr, Answers(value), map["k" := value])
  {
    var data, values := cr.spec.data, map["k" := value];
    assert !IsSecretRef("v");
    assert AllResolve(cfg.policy, cfg.namespace, Answers(value), data);
    assert AllDecode(cfg.tools, data, values);
    assert DecodedValues(cfg.tools, data, values) == values;
    assert RenderedTemplates(cfg.tools, cr.spec.template, values) == map[];
    assert values + map[] == values;
    assert Answers(value).eval(Resolved(cfg.policy, cfg.namespace, Answers(value), data)) == Some(values);
  }

  lemma TwoAnswers(cfg: Config, s: State, delay: real, ttl: int) returns (es: seq<Event>)
    requires NoSecretYet(cfg, s) && KeepsSeconds(cfg)
    requires s.w.crs.cr.value.spec == PlainSpec(s.w.crs.cr.value.spec.ttl)
    requires Lives(cfg, s.w.crs.cr.value.spec, ttl) && ttl >= 0
    requires 0.0 <= s.w.now && s.w.now.Floor <= LAST && 0.0 <= delay <= NextPass(s.w.now, ttl) - s.w.now
    ensures Leads(cfg, delay, s, es, Exec(cfg, s, es))
    ensures var next := NextPass(s.w.now, ttl);
      Wrote(Exec(cfg, s, es), next, s.w.stamps + [s.w.now, next], s.w.writes + [s.w.now + delay, next])
  {
    AnswersYield(cfg, s.w.crs.cr.value, "1");
    AnswersYield(cfg, s.w.crs.cr.value, "2");
    assert map["k" := "1"]["k"] != map["k" := "2"]["k"];
    es := DelayShortensTheGap(cfg, s, map["k" := "1"], map["k" := "2"], Answers("1"), Answers("2"), delay, ttl);
  }

  /** With a time to live of 100 seconds, a create that is stamped at 0 and accepted at 100
      is followed by an update at 101. */
  lemma OneSecondApart(cfg: Config, s: State) returns (es: seq<Event>)
    requires NoSecretYet(cfg, s) && KeepsSeconds(cfg) && s.w.now == 0.0 && s.w.stamps == s.w.writes == []
    requires s.w.crs.cr.value.spec == PlainSpec(100)
    ensures Leads(cfg, 100.0, s, es, Exec(cfg, s, es))
    ensures Wrote(Exec(cfg, s, es), 101.0, [0.0, 101.0], [100.0, 101.0])
  {
    es := TwoAnswers(cfg, s, 100.0, 100);
  }

  // ---- the exact bound ----

  /** The resource always asks for this time to live. */
  predicate Asks(asked: int, e: Event) {
    match e
    case User(Edit(_, _, _, spec)) => spec.ttl == asked
    case User(Create(_, _, _, spec)) => spec.ttl == asked
    case _ => true
  }

  /** What `WritesAreSpaced` asks of a run. */
  ghost predicate Admissible(cfg: Config, asked: int, delay: real, s: State, es: seq<Event>) {
    && Initial(s) && 0.0 <= s.w.now && Exec(cfg, s, es).w.now.Floor <= LAST
    && PromptRun(cfg, delay, s, es)
    && forall i :: 0 <= i < |es| ==> Asks(asked, es[i]) && !es[i].Outside?
  }

  predicate GapsExceed(writes: seq<real>, bound: real) {
    forall i | 0 < i < |writes| :: writes[i] > writes[i - 1] + bound
  }

  /** In all these runs the writes are more than that far apart. */
  ghost predicate AlwaysApart(cfg: Config, asked: int, delay: real, bound: real) {
    forall s, es | Admissible(cfg, asked, delay, s, es) :: GapsExceed(Exec(cfg, s, es).w.writes, bound)
  }

  /** A namespace that is not excluded, and a resource that asks for a time to live or, with
      zero or less, leaves it to the default. */
  ghost predicate Configured(cfg: Config, asked: int, ttl: int) {
    && KeepsSeconds(cfg) && !cfg.excluded && 0 <= ttl < LAST
    && ttl == if asked > 0 then asked else cfg.defaultTtl
  }

  function Start(now: real): State {
    ToIdle(World(Crs(None, 0), None, false, now, [], [], 0, 0))
  }

  function NewCr(asked: int): Event {
    User(UserAct.Create([], map[], map[], PlainSpec(asked)))
  }

  lemma Creates(cfg: Config, now: real, asked: int, delay: real)
    requires !cfg.excluded
    ensures var t := Exec(cfg, Start(now), [NewCr(asked)]);
      && t.w == Start(now).w.(crs := t.w.crs) && NoSecretYet(cfg, t) && t.w.crs.cr.value.spec == PlainSpec(asked)
    ensures PromptRun(cfg, delay, Start(now), [NewCr(asked)])
  {
    OneStep(cfg, Start(now), NewCr(asked));
  }

  /** That run, from before the resource is created. */
  lemma TightRun(cfg: Config, asked: int, ttl: int, start: real, delay: real) returns (s: State, es: seq<Event>)
    requires Configured(cfg, asked, ttl) && 0.0 <= start < 1.0 && 0.0 <= delay <= (ttl + 1) as real - start
    ensures Admissible(cfg, asked, delay, s, es)
    ensures Exec(cfg, s, es).w.writes == [start + delay, (ttl + 1) as real]
  {
    s := Start(start);
    var create := [NewCr(asked)];
    Creates(cfg, start, asked, delay);
    var rest := TwoAnswers(cfg, Exec(cfg, s, create), delay, ttl);
    Continued(cfg, asked, delay, s, create, rest, Exec(cfg, Exec(cfg, s, create), rest));
    es := create + rest;
  }

  lemma Continued(cfg: Config, asked: int, delay: real, s: State, a: seq<Event>, b: seq<Event>, t: State)
    requires Initial(s) && 0.0 <= s.w.now && PromptRun(cfg, delay, s, a)
    requires forall i :: 0 <= i < |a| ==> Asks(asked, a[i]) && !a[i].Outside?
    requires Leads(cfg, delay, Exec(cfg, s, a), b, t) && t.w.now.Floor <= LAST
    ensures Admissible(cfg, asked, delay, s, a + b) && Exec(cfg, s, a + b) == t
  {
    PromptConcat(cfg, delay, s, a, b);
    ExecConcat(cfg, s, a, b);
    assert forall i :: 0 <= i < |b| ==> NoFailure(b[i]);
  }

  lemma AdmissibleIsSpaced(cfg: Config, asked: int, ttl: int, delay: real, s: State, es: seq<Event>)
    requires Configured(cfg, asked, ttl) && Admissible(cfg, asked, delay, s, es)
    ensures GapsExceed(Exec(cfg, s, es).w.writes, ttl as real - delay)
  {
    forall i | 0 <= i < |es|
      ensures Steady(cfg, ttl, es[i])
    {
      assert Asks(asked, es[i]);
    }
    WritesAreSpaced(cfg, ttl, delay, s, es);
  }

  /** The bound of `WritesAreSpaced` is the best there is, for a time to live that is asked
      for and for the default. */
  lemma SpacingIsExact(cfg: Config, asked: int, ttl: int, delay: real, bound: real)
    requires Configured(cfg, asked, ttl) && 0.0 <= delay <= ttl as real
    ensures AlwaysApart(cfg, asked, delay, bound) <==> bound <= ttl as real - delay
  {
    if bound <= ttl as real - delay {
      forall s, es | Admissible(cfg, asked, delay, s, es)
        ensures GapsExceed(Exec(cfg, s, es).w.writes, bound)
      {
        AdmissibleIsSpaced(cfg, asked, ttl, delay, s, es);
      }
    } else {
      var excess := bound - (ttl as real - delay);
      var start := if excess >= 1.0 then 0.0 else 1.0 - excess;
      var s, es := TightRun(cfg, asked, ttl, start, delay);
      var writes := Exec(cfg, s, es).w.writes;
      assert writes[1] <= writes[1 - 1] + bound;
    }
  }

  /** So writes are always more than the time to live apart if and only if none is ever
      accepted later than it was stamped. */
  lemma TtlHoldsIffPrompt(cfg: Config, asked: int, ttl: int, delay: real)
    requires Configured(cfg, asked, ttl)
    ensures AlwaysApart(cfg, asked, delay, ttl as real) <==> delay <= 0.0
  {
    if delay <= 0.0 {
      forall s, es | Admissible(cfg, asked, delay, s, es)
        ensures GapsExceed(Exec(cfg, s, es).w.writes, ttl as real)
      {
        AdmissibleIsSpaced(cfg, asked, ttl, delay, s, es);
      }
    } else {
      var late := if delay < 0.5 then delay else 0.5;
      var s, es := TightRun(cfg, asked, ttl, 1.0 - late, late);
      LaterIsPromptToo(cfg, late, delay, s, es);
      var writes := Exec(cfg, s, es).w.writes;
      assert writes[1] <= writes[1 - 1] + ttl as real;
    }
  }
}
