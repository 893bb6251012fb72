/** The part of the Kubernetes API that a reconciler sees: one custom resource, the
    Secret made from it, and calls that may fail on either side of their effect. */
module Store {
  import opened Wrappers
  import opened Utils

  /** Annotation and label keys. The named ones are the constants of
      controllers/common.go and kubectl's own; every other key is `Plain`. */
  datatype MetaKey =
    | LeaseId
    | LeaseDuration
    | ExpiresOn
    | LastUpdated
    | Record
    | Force
    | TemplateHash
    | ManagedBy
    | LastApplied
    | Plain(name: string)

  type Meta = map<MetaKey, string>

  /** Go's reading of a map: the empty string for a key that is not there. */
  function At(m: Meta, key: MetaKey): string {
    if key in m then m[key] else ""
  }

  /** `Before`: the call is refused. `After`: it takes effect, but its caller is told
      that it failed. */
  datatype Fault = Sound | Before | After

  // ---- the custom resource ----

  /** `version` stands for `metadata.resourceVersion`, `deleting` for a deletion
      timestamp that is set. */
  datatype Cr<S> = Cr(
    version: nat, deleting: bool, finalizers: seq<string>, labels: Meta, annotations: Meta, spec: S)

  datatype Crs<S> = Crs(cr: Option<Cr<S>>, next: nat)

  /** Stores a resource under a new version; one that is being deleted goes away with
      its last finalizer. */
  function Put<S>(crs: Crs<S>, cr: Cr<S>): (r: Crs<S>) {
    Crs(if cr.deleting && cr.finalizers == [] then None else Some(cr.(version := crs.next)), crs.next + 1)
  }

  /** An update is accepted only for the version that is stored. The reply is the
      stored resource. */
  function UpdateCr<S>(crs: Crs<S>, copy: Cr<S>, fault: Fault): (Crs<S>, Option<Cr<S>>) {
    if fault.Before? || crs.cr.None? || crs.cr.value.version != copy.version then
      (crs, None)
    else
      (Put(crs, copy), if fault.After? then None else Some(copy.(version := crs.next)))
  }

  /** What other parties do to the resource. They leave the operator's finalizer as
      they found it. */
  datatype UserAct<S> =
    | Delete
    | Edit(finalizers: seq<string>, labels: Meta, annotations: Meta, spec: S)
    | Create(finalizers: seq<string>, labels: Meta, annotations: Meta, spec: S)

  function Act<S>(crs: Crs<S>, act: UserAct<S>, finalizer: string): Crs<S> {
    match act
    case Delete =>
      if crs.cr.None? then crs else Put(crs, crs.cr.value.(deleting := true))
    case Edit(finalizers, labels, annotations, spec) =>
      if crs.cr.None? then crs
      else
        var cr := crs.cr.value;
        var kept := if finalizer in finalizers <==> finalizer in cr.finalizers then finalizers else cr.finalizers;
        Put(crs, Cr(cr.version, cr.deleting, kept, labels, annotations, spec))
    case Create(finalizers, labels, annotations, spec) =>
      if crs.cr.Some? then crs else Put(crs, Cr(crs.next, false, finalizers, labels, annotations, spec))
  }

  /** The resource exists and carries the finalizer. */
  predicate Held<S>(crs: Crs<S>, finalizer: string) {
    crs.cr.Some? && finalizer in crs.cr.value.finalizers
  }

  predicate Numbered<S>(crs: Crs<S>) {
    crs.cr.Some? ==> crs.cr.value.version < crs.next
  }

  /** A copy with the stored version is the stored resource. */
  ghost predicate CopyOf<S>(copy: Cr<S>, crs: Crs<S>) {
    && copy.version < crs.next
    && (crs.cr.Some? && crs.cr.value.version == copy.version ==> crs.cr.value == copy)
  }

  lemma ActKeeps<S>(crs: Crs<S>, act: UserAct<S>, finalizer: string)
    requires Numbered(crs)
    ensures var r := Act(crs, act, finalizer);
      && Numbered(r)
      && (Held(crs, finalizer) ==> Held(r, finalizer))
      && (forall copy | CopyOf(copy, crs) :: CopyOf(copy, r))
      && (crs.cr.Some? && r.cr.Some? && Held(r, finalizer) ==> Held(crs, finalizer))
      && (crs.cr.Some? && r.cr.Some? && crs.cr.value.deleting ==> r.cr.value.deleting)
  {
  }

  /** The resource as the first calls of a pass leave it. */
  function Hold<S>(crs: Crs<S>, finalizer: string): (r: Crs<S>)
    requires crs.cr.Some? && !crs.cr.value.deleting
    ensures r.cr.Some? && finalizer in r.cr.value.finalizers
    ensures r.cr.value == crs.cr.value.(version := r.cr.value.version, finalizers := r.cr.value.finalizers)
    ensures Without(r.cr.value.finalizers, finalizer) == Without(crs.cr.value.finalizers, finalizer)
  {
    var cr := crs.cr.value;
    if finalizer in cr.finalizers then crs
    else
      WithoutConcat(cr.finalizers, [finalizer], finalizer);
      assert (cr.finalizers + [finalizer])[|cr.finalizers|] == finalizer;
      Put(crs, cr.(finalizers := cr.finalizers + [finalizer]))
  }

  /** A step that changes nothing of the resource but this finalizer: the others keep
      their order, the finalizer never comes back once the resource is being deleted, and
      the resource goes away only when no finalizer was left but this. */
  ghost predicate TouchesOnly<S>(finalizer: string, before: Option<Cr<S>>, after: Option<Cr<S>>) {
    && (before.None? ==> after.None?)
    && (before.Some? && after.None? ==>
          before.value.deleting && Without(before.value.finalizers, finalizer) == [])
    && (before.Some? && after.Some? ==>
          && after.value == before.value.(version := after.value.version, finalizers := after.value.finalizers)
          && Without(after.value.finalizers, finalizer) == Without(before.value.finalizers, finalizer)
          && (finalizer in after.value.finalizers && finalizer !in before.value.finalizers ==> !before.value.deleting))
  }

  lemma UpdateTouchesOnly<S>(finalizer: string, crs: Crs<S>, cr: Cr<S>, finalizers: seq<string>, fault: Fault)
    requires CopyOf(cr, crs)
    requires Without(finalizers, finalizer) == Without(cr.finalizers, finalizer)
    requires cr.deleting && finalizers != cr.finalizers ==> finalizer !in finalizers
    ensures TouchesOnly(finalizer, crs.cr, UpdateCr(crs, cr.(finalizers := finalizers), fault).0.cr)
  {
  }

  // ---- the Secret ----

  datatype SecretObj<D> = SecretObj(data: D, labels: Meta, annotations: Meta)

  datatype Reply = Done | AlreadyExists | NotFound | Failed

  function CreateSecret<D>(stored: Option<SecretObj<D>>, obj: SecretObj<D>, fault: Fault)
    : (Option<SecretObj<D>>, Reply)
  {
    if fault.Before? then (stored, Failed)
    else if stored.Some? then (stored, if fault.After? then Failed else AlreadyExists)
    else (Some(obj), if fault.After? then Failed else Done)
  }

  /** Unconditional: the operator clears the version before it updates. */
  function UpdateSecret<D>(stored: Option<SecretObj<D>>, obj: SecretObj<D>, fault: Fault)
    : (Option<SecretObj<D>>, Reply)
  {
    if fault.Before? then (stored, Failed)
    else if stored.None? then (stored, if fault.After? then Failed else NotFound)
    else (Some(obj), if fault.After? then Failed else Done)
  }

  function DeleteSecret<D>(stored: Option<SecretObj<D>>, fault: Fault): (Option<SecretObj<D>>, Reply) {
    if fault.Before? then (stored, Failed)
    else (None, if fault.After? then Failed else if stored.None? then NotFound else Done)
  }
}
