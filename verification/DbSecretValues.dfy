/** What issues and renewals make of the values in the Secret. */
module DbSecretValues {
  import opened Wrappers
  import opened Utils
  import opened Store
  import opened DbSecret
  import Decimal
  import Lease
  import Vault

  const CREDENTIAL_KEYS: set<string> := {"username", "password"}

  // ---- an issue ----

  /** The four texts that Vault's answer comes to, the last two only if they are not empty. */
  predicate TextsOf(texts: map<string, string>, creds: Vault.Credentials) {
    && texts.Keys == {"username", "password"}
                     + (if creds.hosts == "" then {} else {"hosts"})
                     + (if creds.connectionUrl == "" then {} else {"connection_url"})
    && texts["username"] == creds.username && texts["password"] == creds.password
    && ("hosts" in texts ==> texts["hosts"] == creds.hosts)
    && ("connection_url" in texts ==> texts["connection_url"] == creds.connectionUrl)
  }

  lemma KeysDiffer()
    ensures "username" != "password" && "username" != "hosts" && "username" != "connection_url"
    ensures "password" != "hosts" && "password" != "connection_url" && "hosts" != "connection_url"
  {
    assert "username"[0] != "password"[0];
    assert |"username"| == |"password"| == 8 && |"hosts"| == 5 && |"connection_url"| == 14;
  }

  lemma CredentialTexts(creds: Vault.Credentials)
    ensures TextsOf(ValuesOf(creds), creds)
  {
    KeysDiffer();
  }

  lemma OneAnswer(texts: map<string, string>, others: map<string, string>, creds: Vault.Credentials)
    requires TextsOf(texts, creds) && TextsOf(others, creds)
    ensures texts == others
  {
    KeysDiffer();
  }

  /** The stored values are those four texts if there are no templates, and what was
      rendered with them if anything was; else they are laid over whatever is there. */
  lemma IssuedValues(cfg: Config, cr: DbCr, creds: Vault.Credentials, stored: Secret, now: int, before: set<string>,
      texts: map<string, string>)
    requires Lease.ShortId(creds.leaseId).Some? && TextsOf(texts, creds)
    ensures var template, lease := cr.spec.template, creds.leaseId;
      var rendered := Rendered(cfg, template, texts, before);
      Upserted(cfg, cr, creds, Some(Trimmed(cr.spec, stored)), now, before).value.data ==
        Data(if template == map[] then From(texts, lease)
             else if rendered != map[] then From(rendered, lease)
             else stored.data.values + From(texts, lease),
             lease)
  {
    ValuesAre(texts, creds);
    IssuedFrom(cfg, cr, creds, stored, now, before, texts);
  }

  lemma ValuesAre(texts: map<string, string>, creds: Vault.Credentials)
    requires TextsOf(texts, creds)
    ensures texts == ValuesOf(creds)
  {
    CredentialTexts(creds);
    OneAnswer(texts, ValuesOf(creds), creds);
  }

  lemma IssuedFrom(cfg: Config, cr: DbCr, creds: Vault.Credentials, stored: Secret, now: int, before: set<string>,
      texts: map<string, string>)
    requires Lease.ShortId(creds.leaseId).Some? && texts == ValuesOf(creds)
    ensures var template, lease := cr.spec.template, creds.leaseId;
      var rendered := Rendered(cfg, template, texts, before);
      Upserted(cfg, cr, creds, Some(Trimmed(cr.spec, stored)), now, before).value.data ==
        Data(if template == map[] then From(texts, lease)
             else if rendered != map[] then From(rendered, lease)
             else stored.data.values + From(texts, lease),
             lease)
  {
    var template, lease := cr.spec.template, creds.leaseId;
    var rendered := Rendered(cfg, template, texts, before);
    if template == map[] {
      assert rendered == map[];
      assert Trimmed(cr.spec, stored).data.values + From(texts, lease) == From(texts, lease);
    }
  }

  /** What is rendered is what the engine makes of the template of that name with the four
      texts; if all templates render, it is there for all of them. */
  lemma RenderedTexts(cfg: Config, template: map<string, string>, texts: map<string, string>, before: set<string>,
      k: string)
    ensures var rendered := Rendered(cfg, template, texts, before);
      && (k in rendered ==> k in template && cfg.engine(k, template[k], texts) == Some(rendered[k]))
      && ((forall t | t in template :: cfg.engine(t, template[t], texts).Some?) ==> rendered.Keys == template.Keys)
  {
  }

  /** A Secret without templates has each of the texts under its own key. */
  predicate HasTexts(spec: Spec, values: map<string, Value>, creds: Vault.Credentials) {
    spec.template == map[] ==>
      && "username" in values && values["username"].text == creds.username
      && "password" in values && values["password"].text == creds.password
      && (creds.hosts != "" ==> "hosts" in values && values["hosts"].text == creds.hosts)
      && (creds.connectionUrl != "" ==>
            "connection_url" in values && values["connection_url"].text == creds.connectionUrl)
  }

  lemma OverlaidTexts(spec: Spec, base: map<string, Value>, texts: map<string, string>, creds: Vault.Credentials)
    requires TextsOf(texts, creds)
    ensures var values := base + From(texts, creds.leaseId);
      && HasTexts(spec, values, creds)
      && (base.Keys <= CREDENTIAL_KEYS ==>
            && ("hosts" in values <==> creds.hosts != "")
            && ("connection_url" in values <==> creds.connectionUrl != ""))
  {
    KeysDiffer();
  }

  lemma PlainUpsert(cfg: Config, cr: DbCr, creds: Vault.Credentials, cur: Option<Secret>, now: int,
      before: set<string>)
    requires Lease.ShortId(creds.leaseId).Some? && cr.spec.template == map[]
    ensures Upserted(cfg, cr, creds, cur, now, before).value.data.values
         == (if cur.Some? then cur.value.data.values else map[]) + From(ValuesOf(creds), creds.leaseId)
  {
    assert Rendered(cfg, cr.spec.template, ValuesOf(creds), before) == map[];
  }

  /** Over any copy; and over one that has lost its rendered values the last two are there
      exactly if they are not empty. */
  lemma UpsertedTexts(cfg: Config, cr: DbCr, creds: Vault.Credentials, cur: Option<Secret>, now: int,
      before: set<string>)
    requires Lease.ShortId(creds.leaseId).Some?
    ensures var values := Upserted(cfg, cr, creds, cur, now, before).value.data.values;
      && HasTexts(cr.spec, values, creds)
      && (cr.spec.template == map[] && Cut(cr.spec, cur) ==>
            && ("hosts" in values <==> creds.hosts != "")
            && ("connection_url" in values <==> creds.connectionUrl != ""))
  {
    if cr.spec.template == map[] {
      CredentialTexts(creds);
      PlainUpsert(cfg, cr, creds, cur, now, before);
      OverlaidTexts(cr.spec, if cur.Some? then cur.value.data.values else map[], ValuesOf(creds), creds);
    }
  }

  /** Every value is from the lease that the Secret names. */
  predicate Current(secret: Secret) {
    forall k | k in secret.data.values :: secret.data.values[k].lease == secret.data.lease
  }

  /** No value under these keys outlives an issue: there are no templates, something is
      rendered, or the new credentials have all the keys. */
  predicate Replaces(cfg: Config, template: map<string, string>, creds: Vault.Credentials, keys: set<string>,
      before: set<string>) {
    || template == map[]
    || Rendered(cfg, template, ValuesOf(creds), before) != map[]
    || keys <= ValuesOf(creds).Keys
  }

  /** An issue leaves only values of the new lease exactly under that condition. */
  lemma IssueReplacesValues(cfg: Config, cr: DbCr, creds: Vault.Credentials, stored: Secret, now: int,
      before: set<string>)
    requires Lease.ShortId(creds.leaseId).Some?
    requires forall k | k in stored.data.values :: stored.data.values[k].lease != creds.leaseId
    ensures Current(Upserted(cfg, cr, creds, Some(Trimmed(cr.spec, stored)), now, before).value)
       <==> Replaces(cfg, cr.spec.template, creds, stored.data.values.Keys, before)
  {
    CredentialTexts(creds);
    IssuedValues(cfg, cr, creds, stored, now, before, ValuesOf(creds));
    var values := Upserted(cfg, cr, creds, Some(Trimmed(cr.spec, stored)), now, before).value.data.values;
    if !Replaces(cfg, cr.spec.template, creds, stored.data.values.Keys, before) {
      var k :| k in stored.data.values && k !in ValuesOf(creds);
      assert values[k] == stored.data.values[k];
    }
  }

  /** The Secret names that lease and has that value, which may be from another one. */
  predicate Keeps(secret: Option<Secret>, lease: string, k: string, value: Value) {
    secret.Some? && secret.value.data.lease == lease
    && k in secret.value.data.values && secret.value.data.values[k] == value
  }

  /** Otherwise a value that the new credentials do not have stays, with its own lease. */
  lemma StaleValueStays(cfg: Config, cr: DbCr, creds: Vault.Credentials, stored: Secret, now: int,
      before: set<string>, k: string)
    requires Lease.ShortId(creds.leaseId).Some?
    requires k in stored.data.values && k !in ValuesOf(creds)
    requires !Replaces(cfg, cr.spec.template, creds, stored.data.values.Keys, before)
    ensures Keeps(Upserted(cfg, cr, creds, Some(Trimmed(cr.spec, stored)), now, before),
                  creds.leaseId, k, stored.data.values[k])
  {
    CredentialTexts(creds);
    IssuedValues(cfg, cr, creds, stored, now, before, ValuesOf(creds));
  }

  lemma FailingTemplates(cfg: Config, template: map<string, string>, creds: Vault.Credentials,
      keys: set<string>, before: set<string>, k: string)
    requires template != map[] && k in keys && k !in ValuesOf(creds)
    requires forall t | t in template :: cfg.engine(t, template[t], ValuesOf(creds)).None?
    ensures !Replaces(cfg, template, creds, keys, before)
  {
  }

  lemma UndatedIsReissued(cfg: Config, spec: Spec, annotations: Meta, now: int)
    requires ExpiresOn !in annotations && !spec.renew
    ensures Decide(cfg, spec, annotations, now, true).Issue?
  {
  }

  lemma NewKeys(creds: Vault.Credentials, k: string)
    requires |k| < 4
    ensures k !in ValuesOf(creds)
  {
    assert |"username"| == |"password"| == 8 && |"hosts"| == 5 && |"connection_url"| == 14;
  }

  lemma TwoLeases()
    ensures Lease.ShortId(Lease.Path("db", "app", "2")).Some?
    ensures Lease.Path("db", "app", "1") != Lease.Path("db", "app", "2")
  {
    Lease.RoundTrip("db", "app", "2");
    if Lease.Path("db", "app", "1") == Lease.Path("db", "app", "2") {
      Lease.PathInjective("db", "app", "1", "2");
    }
  }

  /** A template that does not parse, over a Secret in which an earlier one left a text
      with the old credentials: the issue keeps that text, under the new lease. */
  lemma StaleValueIsKept(digest: Digest, stamp: int -> string, now: int, before: set<string>)
    ensures var cfg := Config((k, text, values) => None, digest, stamp, "db", false);
      var cr := Cr(0, false, [FINALIZER], map[], map[], Spec("db", "app", map["dsn" := "{{"], false));
      var stale := Value("old-user:old-password", Lease.Path("db", "app", "1"));
      var stored := SecretObj(Data(map["dsn" := stale], stale.lease), map[], map[LeaseId := "1"]);
      var creds := Vault.Credentials(Lease.Path("db", "app", "2"), 3600, "user", "password", "", "");
      && Decide(cfg, cr.spec, stored.annotations, now, true).Issue?
      && stale.lease != creds.leaseId
      && Keeps(Upserted(cfg, cr, creds, Some(Trimmed(cr.spec, stored)), now, before), creds.leaseId, "dsn", stale)
  {
    var cfg := Config((k, text, values) => None, digest, stamp, "db", false);
    var cr := Cr(0, false, [FINALIZER], map[], map[], Spec("db", "app", map["dsn" := "{{"], false));
    var stale := Value("old-user:old-password", Lease.Path("db", "app", "1"));
    var stored := SecretObj(Data(map["dsn" := stale], stale.lease), map[], map[LeaseId := "1"]);
    var creds := Vault.Credentials(Lease.Path("db", "app", "2"), 3600, "user", "password", "", "");
    UndatedIsReissued(cfg, cr.spec, stored.annotations, now);
    TwoLeases();
    assert "dsn" in stored.data.values && "dsn" in cr.spec.template;
    NewKeys(creds, "dsn");
    FailingTemplates(cfg, cr.spec.template, creds, stored.data.values.Keys, before, "dsn");
    StaleValueStays(cfg, cr, creds, stored, now, before, "dsn");
  }

  /** Labels and annotations of the resource win over those of the Secret, which stay
      otherwise; only the operator's own annotations are its own, and the mark that
      forces new credentials is gone even if the resource carries it. */
  lemma IssuedMeta(cfg: Config, cr: DbCr, creds: Vault.Credentials, stored: Secret, now: int,
      before: set<string>, key: MetaKey)
    requires Lease.ShortId(creds.leaseId).Some?
    ensures var issued := Upserted(cfg, cr, creds, Some(Trimmed(cr.spec, stored)), now, before).value;
      && At(issued.labels, key) == At(if key in cr.labels then cr.labels else stored.labels, key)
      && (key.Plain? || key.Record? || key.LastApplied? ==>
            At(issued.annotations, key)
              == At(if key in cr.annotations then cr.annotations else stored.annotations, key))
      && Force !in issued.annotations
      && At(issued.annotations, ManagedBy) == "vals-operator"
      && At(issued.annotations, LastUpdated) == cfg.stamp(now)
      && At(issued.annotations, LeaseDuration) == Decimal.Format(creds.leaseDuration)
  {
    UpsertedMetaKeeps(cfg, stored.annotations, cr.annotations, Lease.ShortId(creds.leaseId).value,
      creds.leaseDuration, now, FakeHash(cfg.engine, cfg.digest, cr.spec.template), key);
    MergedReads(stored.labels, cr.labels, key);
  }

  lemma MergedReads(base: Meta, over: Meta, key: MetaKey)
    ensures At(base + over, key) == At(if key in over then over else base, key)
  {
  }

  lemma UpsertedMetaKeeps(cfg: Config, base: Meta, over: Meta, short: string, duration: int, now: int,
      hash: string, key: MetaKey)
    ensures var meta := UpsertedMeta(cfg, base + over, short, duration, now, hash);
      && Force !in meta
      && At(meta, ManagedBy) == "vals-operator" && At(meta, LastUpdated) == cfg.stamp(now)
      && At(meta, LeaseDuration) == Decimal.Format(duration)
      && (key.Plain? || key.Record? || key.LastApplied? ==>
            At(meta, key) == At(if key in over then over else base, key))
  {
  }

  /** What is rendered depends on the order in which Go ranges over the templates,
      unless all of them render or none does. */
  lemma RenderingOrder(cfg: Config, template: map<string, string>, values: map<string, string>)
    ensures (forall b1, b2 :: Rendered(cfg, template, values, b1) == Rendered(cfg, template, values, b2))
       <==> || Renders(cfg.engine, template, values)
            || forall k | k in template :: cfg.engine(k, template[k], values).None?
  {
    if !Renders(cfg.engine, template, values) && exists k :: k in template && cfg.engine(k, template[k], values).Some? {
      var k :| k in template && cfg.engine(k, template[k], values).Some?;
      assert k in Rendered(cfg, template, values, {k}) && k !in Rendered(cfg, template, values, {});
    }
    if Renders(cfg.engine, template, values) {
      forall b1, b2
        ensures Rendered(cfg, template, values, b1) == Rendered(cfg, template, values, b2)
      {
        assert Rendered(cfg, template, values, b1).Keys == template.Keys == Rendered(cfg, template, values, b2).Keys;
      }
    }
    if forall k | k in template :: cfg.engine(k, template[k], values).None? {
      forall b ensures Rendered(cfg, template, values, b) == map[] {}
    }
  }

  // ---- a renewal ----

  /** A renewal keeps the values if and only if there are templates or the Secret holds
      nothing but a user name and a password. */
  lemma RenewalKeepsValues(cfg: Config, spec: Spec, stored: Secret, now: int, increment: int)
    ensures Renewed(cfg, Trimmed(spec, stored), now, increment).data.values == stored.data.values
       <==> spec.template != map[] || stored.data.values.Keys <= CREDENTIAL_KEYS
  {
    var kept := Trimmed(spec, stored).data.values;
    if spec.template == map[] {
      assert kept.Keys == stored.data.values.Keys * CREDENTIAL_KEYS;
    }
  }

  /** So, without templates, the hosts and the URL that the issue had stored are lost. */
  lemma RenewalKeepsIssued(cfg: Config, cr: DbCr, creds: Vault.Credentials, stored: Secret, stamp: int,
      before: set<string>, now: int, increment: int)
    requires Lease.ShortId(creds.leaseId).Some?
    ensures var issued := Upserted(cfg, cr, creds, Some(Trimmed(cr.spec, stored)), stamp, before).value;
      (Renewed(cfg, Trimmed(cr.spec, issued), now, increment).data.values == issued.data.values) <==>
      (cr.spec.template != map[] || (creds.hosts == "" && creds.connectionUrl == ""))
  {
    var issued := Upserted(cfg, cr, creds, Some(Trimmed(cr.spec, stored)), stamp, before).value;
    RenewalKeepsValues(cfg, cr.spec, issued, now, increment);
    CredentialTexts(creds);
    IssuedValues(cfg, cr, creds, stored, stamp, before, ValuesOf(creds));
    if cr.spec.template == map[] {
      assert issued.data.values.Keys == ValuesOf(creds).Keys;
      ExtraKeys(creds);
    }
  }

  lemma ExtraKeys(creds: Vault.Credentials)
    ensures ValuesOf(creds).Keys <= CREDENTIAL_KEYS <==> creds.hosts == "" && creds.connectionUrl == ""
  {
    assert |"hosts"| == 5 && |"connection_url"| == 14 && |"username"| == |"password"| == 8;
    assert creds.hosts != "" ==> "hosts" in ValuesOf(creds);
    assert creds.connectionUrl != "" ==> "connection_url" in ValuesOf(creds);
  }

  /** The templates of a resource are removed, with `renew` and a live lease: the pass
      renews the lease and stores a Secret without any credentials, if it held rendered
      values only. */
  lemma EmptiedSecret(cfg: Config, spec: Spec, stored: Secret, now: int, increment: int)
    requires spec.template == map[] && spec.renew
    requires At(stored.annotations, LeaseId) != "" && At(stored.annotations, Force) != "true"
    requires TemplateChanged(cfg, spec, stored.annotations)
    ensures Decide(cfg, spec, stored.annotations, now, true).Renew?
    ensures Renewed(cfg, Trimmed(spec, stored), now, increment).data.values == map[]
       <==> stored.data.values.Keys !! CREDENTIAL_KEYS
  {
    var kept := Trimmed(spec, stored).data.values;
    assert kept.Keys == stored.data.values.Keys * CREDENTIAL_KEYS;
    if stored.data.values.Keys !! CREDENTIAL_KEYS {
      assert kept.Keys == {};
    } else {
      var k :| k in stored.data.values.Keys && k in CREDENTIAL_KEYS;
      assert k in kept;
    }
  }

  // ---- runs ----

  /** A copy that is to be written over has lost its rendered values. */
  predicate Cut(spec: Spec, cur: Option<Secret>) {
    cur.Some? && spec.template == map[] ==> cur.value.data.values.Keys <= CREDENTIAL_KEYS
  }

  predicate MaybeCurrent(cur: Option<Secret>) {
    cur.Some? ==> Current(cur.value)
  }

  ghost predicate ValuesInv(s: State) {
    && MaybeCurrent(s.w.secret)
    && match s.pc
       case AddingFinalizer(_, cur) => MaybeCurrent(cur)
       case Guarded(_, secret) => Current(secret)
       case Renewing(_, secret) => Current(secret)
       case StampingRenewal(secret, _, _) => Current(secret)
       case WritingRenewal(obj, _) => Current(obj)
       case ForcingIssue(obj, _) => Current(obj)
       case Superseding(cr, secret) => Cut(cr.spec, Some(secret))
       case Issuing(cr, cur) => Cut(cr.spec, cur)
       case StampingIssue(cr, cur, _, _) => Cut(cr.spec, cur)
       case Creating(obj, _) => Current(obj)
       case Replacing(obj, _) => Current(obj)
       case _ => true
  }

  function KeysOf(cur: Option<Secret>): set<string> {
    if cur.Some? then cur.value.data.values.Keys else {}
  }

  /** Nobody else edits the Secret, and every issue replaces the values. */
  ghost predicate ReplacingEvent(cfg: Config, s: State, e: Event) {
    && !e.Outside?
    && (e.Call? && s.pc.StampingIssue? ==> Replaces(cfg, s.pc.cr.spec.template, s.pc.creds, KeysOf(s.pc.cur), e.before))
  }

  ghost predicate ReplacingRun(cfg: Config, s: State, es: seq<Event>) {
    es != [] ==>
      && ReplacingRun(cfg, s, es[..|es| - 1])
      && ReplacingEvent(cfg, Exec(cfg, s, es[..|es| - 1]), es[|es| - 1])
  }

  lemma UpsertedIsCurrent(cfg: Config, cr: DbCr, creds: Vault.Credentials, cur: Option<Secret>, now: int,
      before: set<string>)
    requires Cut(cr.spec, cur) && Replaces(cfg, cr.spec.template, creds, KeysOf(cur), before)
    ensures MaybeCurrent(Upserted(cfg, cr, creds, cur, now, before))
  {
    var values, rendered := ValuesOf(creds), Rendered(cfg, cr.spec.template, ValuesOf(creds), before);
    var base := if cur.Some? then cur.value else EMPTY;
    if rendered == map[] {
      assert |rendered| == 0;
      assert base.data.values + From(values, creds.leaseId) == From(values, creds.leaseId);
    }
  }

  lemma ValuesAtCheck(cfg: Config, s: State, e: Event)
    requires ValuesInv(s) && e.Call? && s.pc.Guarded?
    ensures ValuesInv(Apply(cfg, s, e))
  {
  }

  lemma ValuesAtStamp(cfg: Config, s: State, e: Event)
    requires ValuesInv(s) && e.Call? && s.pc.StampingIssue? && ReplacingEvent(cfg, s, e)
    ensures ValuesInv(Apply(cfg, s, e))
  {
    UpsertedIsCurrent(cfg, s.pc.cr, s.pc.creds, s.pc.cur, s.w.now.Floor, e.before);
  }

  lemma ValuesElsewhere(cfg: Config, s: State, e: Event)
    requires ValuesInv(s) && !e.Outside?
    requires e.Call? ==> !s.pc.Guarded? && !s.pc.StampingIssue?
    ensures ValuesInv(Apply(cfg, s, e))
  {
  }

  /** As long as every issue replaces the values, all of them are at every moment from
      the lease that the Secret names; renewals do not mix leases. */
  lemma {:induction false} ValuesAreCurrent(cfg: Config, s: State, es: seq<Event>)
    requires ValuesInv(s) && ReplacingRun(cfg, s, es)
    ensures ValuesInv(Exec(cfg, s, es))
  {
    if es != [] {
      var before, e := es[..|es| - 1], es[|es| - 1];
      ValuesAreCurrent(cfg, s, before);
      var t := Exec(cfg, s, before);
      if e.Call? && t.pc.Guarded? {
        ValuesAtCheck(cfg, t, e);
      } else if e.Call? && t.pc.StampingIssue? {
        ValuesAtStamp(cfg, t, e);
      } else {
        ValuesElsewhere(cfg, t, e);
      }
    }
  }
}
