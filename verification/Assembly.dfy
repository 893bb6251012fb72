/** How a ValsSecret's data comes together, lines 148 to 225 of
    controllers/valssecret_controller.go. Every loop takes its keys in any order. */
module Assembly {
  import opened Wrappers
  import opened Utils
  import RefPattern

  datatype Source = Source(ref: string, encoding: string)

  /** `-disable-namespace-sync` and `-allowed-namespaces-for-sync`. */
  datatype Policy = Policy(disabled: bool, allowed: map<string, bool>)

  /** What the outside answers in a pass: the value under a key of another Secret, which
      is empty if only the key is missing, and the result of `vals.Eval`. */
  datatype Sources = Sources(
    fetch: RefPattern.Ref -> Option<string>,
    eval: map<string, string> -> Option<map<string, string>>)

  /** The decoder for base64 and the template engine. */
  datatype Tools = Tools(decode: string -> Option<string>, engine: Engine)

  /** `isNamespaceSyncAllowed` */
  predicate Allowed(policy: Policy, own: string, target: string) {
    || target == own
    || (!policy.disabled && (|policy.allowed| == 0 || (target in policy.allowed && policy.allowed[target])))
  }

  /** With sync disabled only the own namespace is allowed; else, with a list, also those
      that the list maps to true; and without either, every one. */
  lemma PolicyInFlags(policy: Policy, own: string, target: string)
    ensures policy.disabled ==> (Allowed(policy, own, target) <==> target == own)
    ensures !policy.disabled && policy.allowed != map[] ==>
      (Allowed(policy, own, target) <==> target == own || (target in policy.allowed && policy.allowed[target]))
    ensures !policy.disabled && policy.allowed == map[] ==> Allowed(policy, own, target)
  {
    if policy.allowed != map[] {
      var k :| k in policy.allowed;
      assert |policy.allowed| != 0;
    }
  }

  predicate IsSecretRef(ref: string) {
    RefPattern.PREFIX <= ref
  }

  predicate Denied(policy: Policy, own: string, ref: string) {
    && IsSecretRef(ref)
    && (RefPattern.Find(ref).None? || !Allowed(policy, own, RefPattern.Find(ref).value.namespace))
  }

  function Resolve(policy: Policy, own: string, sources: Sources, ref: string): Option<string> {
    if !IsSecretRef(ref) then Some(ref)
    else if Denied(policy, own, ref) then None
    else sources.fetch(RefPattern.Find(ref).value)
  }

  predicate AllResolve(policy: Policy, own: string, sources: Sources, data: map<string, Source>) {
    forall k | k in data :: Resolve(policy, own, sources, data[k].ref).Some?
  }

  function Resolved(policy: Policy, own: string, sources: Sources, data: map<string, Source>): map<string, string>
    requires AllResolve(policy, own, sources, data)
  {
    map k | k in data :: Resolve(policy, own, sources, data[k].ref).value
  }

  function Decoded(tools: Tools, data: map<string, Source>, k: string, value: string): Option<string> {
    if k in data && data[k].encoding == "base64" && !IsSecretRef(data[k].ref) then tools.decode(value) else Some(value)
  }

  predicate AllDecode(tools: Tools, data: map<string, Source>, values: map<string, string>) {
    forall k | k in values :: Decoded(tools, data, k, values[k]).Some?
  }

  function DecodedValues(tools: Tools, data: map<string, Source>, values: map<string, string>): map<string, string>
    requires AllDecode(tools, data, values)
  {
    map k | k in values :: Decoded(tools, data, k, values[k]).value
  }

  /** The templates that render. */
  function RenderedTemplates(tools: Tools, template: map<string, string>, values: map<string, string>)
    : map<string, string>
  {
    map k | k in template && tools.engine(k, template[k], values).Some? :: tools.engine(k, template[k], values).value
  }

  /** All or nothing, and no mention of any order. */
  function Assembled(policy: Policy, tools: Tools, own: string, data: map<string, Source>,
      template: map<string, string>, sources: Sources): Option<map<string, string>> {
    if !AllResolve(policy, own, sources, data) then None
    else
      var values := sources.eval(Resolved(policy, own, sources, data));
      if values.None? || !AllDecode(tools, data, values.value) then None
      else
        var decoded := DecodedValues(tools, data, values.value);
        Some(decoded + RenderedTemplates(tools, template, decoded))
  }

  lemma EachDecodes(tools: Tools, data: map<string, Source>, values: map<string, string>, decoded: map<string, string>)
    requires decoded.Keys == values.Keys
    requires forall k | k in decoded :: Decoded(tools, data, k, values[k]) == Some(decoded[k])
    ensures AllDecode(tools, data, values) && DecodedValues(tools, data, values) == decoded
  {
  }

  method DecodeValue(tools: Tools, data: map<string, Source>, k: string, value: string) returns (r: Option<string>)
    ensures r == Decoded(tools, data, k, value)
  {
    r := Some(value);
    if k in data && data[k].encoding == "base64" && !IsSecretRef(data[k].ref) {
      r := tools.decode(value);
    }
  }

  /** The loop over the results of `vals.Eval`. */
  method DecodeAll(tools: Tools, data: map<string, Source>, values: map<string, string>)
    returns (r: Option<map<string, string>>)
    ensures r == if AllDecode(tools, data, values) then Some(DecodedValues(tools, data, values)) else None
  {
    var decoded := map[];
    var keys := values.Keys;
    while keys != {}
      invariant keys <= values.Keys
      invariant decoded.Keys == values.Keys - keys
      invariant forall k | k in decoded :: Decoded(tools, data, k, values[k]) == Some(decoded[k])
      decreases |keys|
    {
      var k :| k in keys;
      keys := keys - {k};
      var value := DecodeValue(tools, data, k, values[k]);
      if value.None? {
        return None;
      }
      decoded := decoded[k := value.value];
    }
    EachDecodes(tools, data, values, decoded);
    r := Some(decoded);
  }

  /** The loop over the templates; one that fails is left out. */
  method RenderAll(tools: Tools, template: map<string, string>, decoded: map<string, string>)
    returns (data: map<string, string>)
    ensures data == decoded + RenderedTemplates(tools, template, decoded)
  {
    data := decoded;
    ghost var rendered := RenderedTemplates(tools, template, decoded);
    var keys := template.Keys;
    while keys != {}
      invariant keys <= template.Keys
      invariant data == decoded + Seen(rendered, keys)
      decreases |keys|
    {
      var k :| k in keys;
      SeenMore(rendered, keys, k);
      keys := keys - {k};
      var text := tools.engine(k, template[k], decoded);
      if text.None? {
        continue;
      }
      data := data[k := text.value];
    }
    assert Seen(rendered, {}) == rendered;
  }

  /** One reference that is denied is enough: whatever the stores answer, there is
      nothing to write. */
  lemma DeniedAssemblesNothing(policy: Policy, tools: Tools, own: string, data: map<string, Source>,
      template: map<string, string>, sources: Sources, k: string)
    requires k in data && Denied(policy, own, data[k].ref)
    ensures Assembled(policy, tools, own, data, template, sources).None?
  {
    assert Resolve(policy, own, sources, data[k].ref).None?;
  }

  // ---- what comes out ----

  /** A plain reference is passed on as it is; one to another Secret gives what is stored
      there, if it parses, its namespace is allowed and the Secret can be read. */
  lemma ResolvedMeans(policy: Policy, own: string, sources: Sources, data: map<string, Source>, k: string)
    requires k in data
    ensures !("ref+k8s://" <= data[k].ref) ==> Resolve(policy, own, sources, data[k].ref) == Some(data[k].ref)
    ensures "ref+k8s://" <= data[k].ref ==>
      Resolve(policy, own, sources, data[k].ref) ==
        var found := RefPattern.Find(data[k].ref);
        if found.Some? && Allowed(policy, own, found.value.namespace) then sources.fetch(found.value) else None
  {
  }

  /** The answer of the store under this key is base64 that is to be decoded. */
  predicate IsEncoded(data: map<string, Source>, k: string) {
    k in data && data[k].encoding == "base64" && !("ref+k8s://" <= data[k].ref)
  }

  /** A single reference that does not resolve is enough for there to be no result. */
  lemma AllOrNothing(policy: Policy, tools: Tools, own: string, data: map<string, Source>,
      template: map<string, string>, sources: Sources, k: string)
    requires k in data && Resolve(policy, own, sources, data[k].ref).None?
    ensures Assembled(policy, tools, own, data, template, sources).None?
  {
  }

  /** All references resolve, and without templates: there is a result if and only if the
      stores answer and all that is base64 decodes. It has the keys of the answer; base64
      under a plain reference is decoded, and all else is taken as it is. */
  lemma AssembledPlain(policy: Policy, tools: Tools, own: string, data: map<string, Source>, sources: Sources,
      refs: map<string, string>)
    requires refs.Keys == data.Keys
    requires forall k | k in data :: Resolve(policy, own, sources, data[k].ref) == Some(refs[k])
    ensures var answer, r := sources.eval(refs), Assembled(policy, tools, own, data, map[], sources);
      && (r.Some? <==>
            && answer.Some?
            && forall k | k in answer.value :: IsEncoded(data, k) ==> tools.decode(answer.value[k]).Some?)
      && (r.Some? ==>
            && r.value.Keys == answer.value.Keys
            && forall k | k in answer.value ::
                 if IsEncoded(data, k) then Some(r.value[k]) == tools.decode(answer.value[k])
                 else r.value[k] == answer.value[k])
  {
    assert Resolved(policy, own, sources, data) == refs;
    var answer := sources.eval(refs);
    if answer.Some? {
      forall k | k in answer.value
        ensures Decoded(tools, data, k, answer.value[k])
             == if IsEncoded(data, k) then tools.decode(answer.value[k]) else Some(answer.value[k])
      {
      }
      assert RenderedTemplates(tools, map[], map[]) == map[];
    }
  }

  /** Templates are rendered with the values that there are without them, and those that
      render replace or add the values of their names; the others change nothing. */
  lemma AssembledOver(policy: Policy, tools: Tools, own: string, data: map<string, Source>,
      template: map<string, string>, sources: Sources)
    ensures var plain, r := Assembled(policy, tools, own, data, map[], sources),
                            Assembled(policy, tools, own, data, template, sources);
      && (r.Some? <==> plain.Some?)
      && (r.Some? ==> forall k ::
            if k in template && tools.engine(k, template[k], plain.value).Some? then
              k in r.value && Some(r.value[k]) == tools.engine(k, template[k], plain.value)
            else if k in plain.value then k in r.value && r.value[k] == plain.value[k]
            else k !in r.value)
  {
    if AllResolve(policy, own, sources, data) {
      var answer := sources.eval(Resolved(policy, own, sources, data));
      if answer.Some? && AllDecode(tools, data, answer.value) {
        var decoded := DecodedValues(tools, data, answer.value);
        assert RenderedTemplates(tools, map[], decoded) == map[];
        assert decoded + map[] == decoded;
      }
    }
  }
}
