# The vals-operator, modelled in Dafny

The operator runs two reconcilers. For a `DbSecret` it asks Vault for database
credentials, keeps them in a Secret, and renews or reissues their lease before it runs
out. For a `ValsSecret` it collects values from stores and from other Secrets, and keeps
a Secret up to date with them. Both move the cluster forward one API call at a time, and
any call may fail, before or after its effect.

Each reconciler is described twice:

- as a machine (`DbSecret`, `ValsSecret`): a state of the cluster, of Vault and of the
  clock, the point a pass has reached with the local variables that still matter, and one
  step for each call. Between two calls time may pass, other parties may delete, edit or
  create the resource or change the Secret, and the operator may be restarted. A run is
  any sequence of such events. The safety theorems are about every run.
- as a class (`DbSecretController`, `ValsSecretController`), statement by statement as in
  Go, with the in-memory Secret as an object that the functions change in place. `Valid()`
  says that what has happened so far is a run of the machine, so `Reconcile` inherits all
  that is proved of runs.

Beneath them are the algorithms: lease identifiers, the matcher for `ref+k8s://`
references, map comparison and merging, the template hash, the backoff, the error
counters, the host list, and SQL and CQL quoting.

Where the code is not what a reader would expect, the theorems say so:

- `revokeLease` returns early for every Secret with a name, so Vault is never asked to
  revoke anything (`NothingIsEverRevoked`); the ledger is about leases handed to it.
- With a slash in the mount, the role or the lease id, the operator in general asks about
  a lease it was not given (`RoundTrip`, `NestedMountNamesAnotherLease`).
- With changed templates and `renew`, a live lease is renewed at every pass, however many
  there are, and nothing is rendered again (`StaleTemplatesForever`, `PassSettles`).
- If the templates are removed, with `renew` and a live lease, and the Secret has nothing
  under `username` and `password`, the pass stores a Secret without any credentials, and so
  it stays while renewals succeed (`EmptiedSecret`, `StaleTemplatesForever`).
- When no template renders, an issue lays the new credentials over the values that are
  there: a rendered value from the old credentials stays, under the annotations of the new
  lease, and outlives its own (`StaleValueIsKept`, `StaleValueOutlivesItsLease`). Therefore
  every value in the model carries the lease it was made from.
- The annotation that is to force new credentials after a failed write does nothing until
  the renewed lease nears its end (`QuietAfterRenewal`).
- A renewal without templates drops the hosts and the connection URL from the Secret
  (`RenewalKeepsValues`, `RenewalKeepsIssued`).
- When one template of a `DbSecret` fails, what the others leave depends on the order in
  which Go ranges over a map (`RenderingOrder`).
- `MergeMap` never removes keys, contrary to the comment "Replace all labels and
  annotations": a stale key makes every pass after the TTL write and roll out again
  (`UpsertIsFixpoint`, `StaleKeysRollOutForever`).
- A pass whose write fails reports neither an error nor a time to come again, so nothing
  repeats it (`SilentEnd` of both reconcilers).
- A `ValsSecret` stamps its Secret before the API server accepts it, so writes are always
  more than the TTL apart only if none is accepted later than it is stamped
  (`TtlHoldsIffPrompt`, `OneSecondApart`).
- A pass that finds nothing to update does not refresh the time stamp, so once the TTL is
  over every pass asks all stores again (`GateStaysOpen`).
- The placeholders of the connection URL are filled one after the other, so a user name
  with `{{password}}` in it takes the password's place (`UrlIsFilled`).
- The backoff falls from two minutes to three seconds at the 57th failure
  (`DelayCollapses`).
- `UpdateUserPassword` of MySQL reports success if there is no host at all.
- A server with NO_BACKSLASH_ESCAPES stores another text for a password with a backslash
  (`MysqlWithoutBackslashEscapes`).
- The hashed string has no separators, so different templates can share it
  (`KeysAndValuesRunTogether`).

## Model

| member | source | states |
|---|---|---|
| DbSecretController.DbSecretReconciler.Reconcile | controllers/dbsecret_controller.go:80-235 | a pass, with anything happening between its calls and any call failing, takes the machine from rest to rest along one of its runs and makes at least one call; what it reports is exactly what its last call stands for, and if it asks for the next pass without an error, the Secret was written or found good at that moment |
| DbSecretSafety.SilentEnd | controllers/dbsecret_controller.go:213-220 | a pass reports neither an error nor a time to come again if and only if the resource is gone, excluded or being deleted, or the write with new credentials failed, whose lease is then lost |
| DbSecretController.DbSecretReconciler.Serve | controllers/dbsecret_controller.go:143-235 | the decision between doing nothing, renewing and issuing, and all that follows from it, is a run from the gate of the machine to rest |
| DbSecretController.DbSecretReconciler.Assess | controllers/dbsecret_controller.go:144-188 | the two flags amount to the machine's decision for the annotations, the time and Vault's answer, and the copy of the Secret has lost its rendered keys if there are no templates |
| DbSecretDecision.PassDecides | controllers/dbsecret_controller.go:143-235 | a whole pass without failures over a stored Secret: a lease that is live, more than 120 s from its end and has its templates is left alone; one that is due or has changed templates is renewed, if it is live, `renew` is set and nothing forces new credentials: nothing is issued, Vault's end of it and the annotation move to now plus the increment, the values and all other labels and annotations stay, or without templates the values that are credentials; in all other cases new credentials are issued |
| DbSecretDecision.FirstPassIssues | controllers/dbsecret_controller.go:200-220 | where there is no Secret, a pass without failures stores one with a new lease |
| Decimal.InFull | controllers/dbsecret_controller.go:362-364 | numbers in annotations are decimal, with a minus in front |
| Decimal.ParseFormat | controllers/dbsecret_controller.go:147-364 | what an annotation is written with is what it is read back as, exactly within 64 bits |
| DbSecretController.DbSecretReconciler.HandleDeletion | controllers/dbsecret_controller.go:108-141 | lease handed over, Secret deleted, finalizer removed, in this order along a run; if it succeeds, the finalizer is gone |
| DbSecretController.DbSecretReconciler.RevokeLease | controllers/dbsecret_controller.go:237-253 | exactly the lease of the given Secret counts as handed over from here; Vault is asked to revoke only for a Secret without a name, so for one with a name its leases stay as they are |
| DbSecretController.DbSecretReconciler.IsLeaseValid | controllers/dbsecret_controller.go:256-269 | valid means that Vault was asked and found it; the lease asked about is the one rebuilt from mount, role and annotation, and without an id Vault is not asked |
| DbSecretController.DbSecretReconciler.RenewLease | controllers/dbsecret_controller.go:272-315 | success means that the Secret is stored at this moment, at the first or at the second attempt, with its end counted from a second within the call; a second attempt leaves the mark that forces new credentials |
| DbSecretController.DbSecretReconciler.RenderTemplate | controllers/dbsecret_controller.go:537-563 | everything if all templates render, else exactly those reached before the first failure |
| DbSecretController.DbSecretReconciler.PrepareSecret | controllers/dbsecret_controller.go:318-367 | the object that is sent is the specified merge of the old Secret, the resource and the credentials; none if the lease id has fewer than four elements |
| DbSecretController.DbSecretReconciler.UpsertSecret | controllers/dbsecret_controller.go:318-401 | success means that exactly the specified merge of the old Secret, the resource and the new credentials, stamped within the call, is stored at this moment; without templates it has the user name, the password and, if they are not empty, the hosts and the URL, each under its own key |
| DbSecretController.SecretCopy.DropRendered | controllers/dbsecret_controller.go:172-179 | without templates only the user name and the password stay, whatever the order of the keys |
| DbSecretSafety.FinalizerGuardsSecret | controllers/dbsecret_controller.go:100-141 | in every run, a Secret that the operator wrote has its resource with the operator's finalizer on it |
| DbSecretSafety.OperatorTouchesOnlyItsFinalizer | controllers/dbsecret_controller.go:100-135 | no step of the operator changes anything of the resource but its own finalizer, the others keep their order, the finalizer is never added again during deletion, and the resource goes only when no other finalizer is left |
| DbSecretSafety.LedgerBalances | controllers/dbsecret_controller.go:109-124 | in every run without outside edits of the Secret, the leases issued are exactly those stored, handed to `revokeLease`, lost by a failed pass, or about to be stored; and the stored one has the id that the annotations hold |
| DbSecretSafety.NothingIsEverRevoked | controllers/dbsecret_controller.go:237-240 | in every run Vault is asked to revoke nothing and keeps every lease it issued |
| DbSecretTiming.CredentialsNeverExpire | controllers/dbsecret_controller.go:147-198 | in every run in which the Secret is written or found good once a period P, a pass ends at most d after a grant, P + d is less than 120 s and than the lease, and every issue replaces the values, each value in the Secret is before the true end of the lease it was made from, at every moment, whole seconds and all |
| DbSecretTiming.LeaseNeverRunsOut | controllers/dbsecret_controller.go:147-198 | the same of the lease that the Secret names, without the condition on the values |
| DbSecretSchedule.ScheduleIsPunctual | controllers/dbsecret_controller.go:80-235 | passes whose calls succeed, that start with a new resource and come to rest at least once a period, meet the hypothesis of these two: each of them ends with the Secret just written or found good |
| DbSecretSchedule.ScheduledCredentialsNeverExpire | controllers/dbsecret_controller.go:80-235 | so on such a schedule there is a Secret once a pass has come to rest, and none of its values is ever past its end, if every issue replaces the values |
| DbSecretValues.ValuesAreCurrent | controllers/dbsecret_controller.go:318-343 | in every run without outside edits in which every issue replaces the values, all values are from the lease that the Secret names |
| DbSecretTiming.NoOpLeavesAPeriod | controllers/dbsecret_controller.go:151-157 | a pass that does nothing leaves the true end of the lease more than a period away |
| DbSecretProgress.PassSettles | controllers/dbsecret_controller.go:143-235 | from rest, with or without the finalizer and whatever the stored Secret, one pass without failures ends with a Secret, and a later pass does nothing if and only if Vault finds the lease, its end is more than the grace away, and the first pass did not meet changed templates with a lease found, not forced and to be renewed |
| DbSecretProgress.PassCompletes | controllers/dbsecret_controller.go:143-235 | the 3 to 9 calls of a pass without failures, the one that adds the finalizer among them, come to one specified change of the cluster, of Vault and of the ledger |
| DbSecretProgress.PassThenQuiet | controllers/dbsecret_controller.go:143-235 | after one pass without failures, any number of passes, failing or broken off anywhere, leave cluster, Vault and ledger as they are until 120 s before the end in the Secret, as long as nobody else acts and Vault finds the lease |
| DbSecretProgress.StaleTemplatesForever | controllers/dbsecret_controller.go:172-198 | any number of passes over changed templates with a lease to renew, each before the renewed lease ends: nothing is issued or rendered, the hash stays the old one, and the values stay or, without templates, are cut down to user name and password |
| DbSecretProgress.StaleValueOutlivesItsLease | controllers/dbsecret_controller.go:335-341 | a pass whose issue does not replace the values leaves an old value under the new lease, and the value is past its end as soon as its own lease is |
| DbSecretProgress.DeletionCompletes | controllers/dbsecret_controller.go:106-141 | one pass without failures removes the Secret, hands over its lease, and leaves the resource exactly if others hold it, with their finalizers in order |
| DbSecretQuiescence.QuietAfterIssue | controllers/dbsecret_controller.go:349-367 | after an issue, with the same templates, a pass does nothing if and only if Vault finds the lease and its end is more than 120 s away |
| DbSecretQuiescence.QuietAfterRenewal | controllers/dbsecret_controller.go:297-309 | the same after a renewal, also one stored with the mark that forces new credentials, which takes effect only near the end |
| DbSecretQuiescence.ChangedTemplateOnlyRenews | controllers/dbsecret_controller.go:181-197 | with changed templates a pass renews exactly if the lease is found, not forced and to be renewed, and issues otherwise; after a renewal this is the same at whatever time |
| DbSecretProgress.QuietPass | controllers/dbsecret_controller.go:80-235 | over a resource with or without the finalizer, a Secret or none, a pass without failures leaves cluster, Vault and ledger as they are if and only if the finalizer is in place and its decision is to do nothing; a new lease has a new id, and a renewal moves the end that Vault has |
| DbSecretQuiescence.QuietUntilDue | controllers/dbsecret_controller.go:143-192 | the same for every run that starts at rest with a Secret that names its lease, its end and no other templates |
| DbSecretValues.IssuedValues | controllers/dbsecret_controller.go:327-343 | exactly which values an issue stores: without templates the user name, the password and, if not empty, the hosts and the URL, each under its own key; what was rendered with these texts if anything was; else these texts over the old values |
| DbSecretValues.UpsertedTexts | controllers/dbsecret_controller.go:327-341 | without templates each of the four texts is under its own key, whatever was there before; the hosts and the URL are there exactly if they are not empty |
| DbSecretValues.RenderedTexts | controllers/dbsecret_controller.go:537-563 | what is rendered is the engine's answer for the template of that name and these texts, and it is there for every template if all render |
| DbSecretValues.OneAnswer | controllers/dbsecret_controller.go:327-334 | the keys and their texts determine what the templates get |
| DbSecretValues.IssueReplacesValues | controllers/dbsecret_controller.go:327-341 | an issue leaves only values of the new lease if and only if there are no templates, something rendered, or the new credentials have all the old keys |
| DbSecretValues.StaleValueIsKept | controllers/dbsecret_controller.go:335-341 | the input that fails: the template `{{` over a Secret with a rendered `dsn` |
| DbSecretValues.IssuedMeta | controllers/dbsecret_controller.go:358-368 | labels and annotations of the resource win, the others of the Secret stay, the forcing mark is gone even if the resource carries it, and the operator names itself, the time and the duration of the lease |
| DbSecretValues.RenderingOrder | controllers/dbsecret_controller.go:537-563 | what is rendered is the same for every order if and only if all templates render or none does |
| DbSecretValues.RenewalKeepsValues | controllers/dbsecret_controller.go:172-179 | for any Secret, a renewal keeps its values if and only if there are templates or it holds nothing but user name and password |
| DbSecretValues.RenewalKeepsIssued | controllers/dbsecret_controller.go:172-179 | what an issue has stored survives the renewal if and only if there are templates or neither hosts nor a connection URL |
| DbSecretValues.EmptiedSecret | controllers/dbsecret_controller.go:172-197 | templates removed, `renew` set and a live lease: the pass renews, and the Secret it stores has no values at all if and only if none was under `username` or `password` |
| ValsSecretController.ValsSecretReconciler.Reconcile | controllers/valssecret_controller.go:88-253 | a pass takes the machine from rest to rest along one of its runs; what it reports is exactly what its last call stands for, and a delay asked for is the backoff for exactly one more failure |
| ValsSecretSafety.SilentEnd | controllers/valssecret_controller.go:227-252 | a pass reports neither an error nor a time to come again if and only if the resource is gone, excluded or being deleted, or `upsertSecret` failed, which is not counted as a failure either; it asks for the period if and only if the Secret is not due or all is done and the failures are forgotten |
| ValsSecretController.ValsSecretReconciler.HandleDeletion | controllers/valssecret_controller.go:109-130 | the failures are forgotten, the Secret deleted and the finalizer removed, along a run; if it succeeds, the finalizer is gone |
| ValsSecretController.ValsSecretReconciler.CheckSecret | controllers/valssecret_controller.go:139-146 | the pass goes on exactly if there is no Secret or its time to live is over |
| ValsSecretController.ValsSecretReconciler.GetKeyFromK8sSecret | controllers/valssecret_controller.go:464-479 | a Secret is read exactly if the reference parses and the policy allows its namespace; `Valid()` says of every Secret ever read that it is in the own namespace if sync is disabled, and else, with a list, there or in a namespace that the list maps to true |
| ValsSecretController.ValsSecretReconciler.IsNamespaceSyncAllowed | controllers/valssecret_controller.go:449-462 | with sync disabled exactly the own namespace; else with a list exactly that and those mapped to true; with neither every namespace |
| ValsSecretController.ValsSecretReconciler.Assemble | controllers/valssecret_controller.go:148-225 | three loops over maps, in any order, yield the order-free result: all references resolved and decoded, overridden by exactly the templates that render, or nothing |
| ValsSecretController.ValsSecretReconciler.HasSecretExpired | controllers/valssecret_controller.go:481-503 | expired means no time stamp, an unreadable one, or an age in whole seconds above the effective TTL |
| ValsSecretController.ValsSecretReconciler.SecretNeedsUpdate | controllers/valssecret_controller.go:408-419 | an update is needed exactly if there is no Secret or data, annotations or labels differ outside the ignored keys |
| ValsSecretController.ValsSecretReconciler.UpsertSecret | controllers/valssecret_controller.go:278-352 | read, comparison, create and update along a run; success leads to the end of the pass, anything else stops it and leaves the failures alone; the flag that decides the rollout is set exactly if the Secret was written |
| ValsSecretController.ValsSecretReconciler.ErrorBackoff | controllers/valssecret_controller.go:506-533 | the delay is the jittered one for the failures of this object since it last succeeded or was deleted, and between 2.7 s and 132 s |
| ValsSecretController.ValsSecretReconciler.IncErrorCount | controllers/valssecret_controller.go:535-544 | the shared counter for this object is the machine's count of its failures, whatever other objects' passes did between |
| ValsSecretSafety.FinalizerGuardsSecret | controllers/valssecret_controller.go:100-131 | in every run, a Secret that the operator wrote has its resource with the operator's finalizer on it |
| ValsSecretSafety.OperatorTouchesOnlyItsFinalizer | controllers/valssecret_controller.go:100-131 | as for DbSecret, and the resource sent back by `errorBackoff` changes nothing |
| ValsSecretSafety.DeniedIsNeverWritten | controllers/valssecret_controller.go:148-162 | in every run, an event that writes the Secret belongs to a pass none of whose references the policy denies |
| ValsSecretSafety.WritesKeepToTheFlags | controllers/valssecret_controller.go:449-462 | in every run, a pass that writes has references only to the own namespace if sync is disabled, and else, with a list, only there or to namespaces that the list maps to true |
| Assembly.PolicyInFlags | controllers/valssecret_controller.go:449-462 | what the two flags allow, case by case |
| ValsSecretSafety.ExpiryInNumbers | controllers/valssecret_controller.go:481-503 | a Secret has expired if and only if one second more than its TTL has gone by since the second of its stamp; a TTL of zero or less is the default |
| ValsSecretSafety.UnstampedHasExpired | controllers/valssecret_controller.go:487-496 | without a readable stamp a Secret has always expired |
| ValsSecretSafety.WritesAreSpaced | controllers/valssecret_controller.go:144-146 | in every run with a fixed TTL and no outside edits, in which a write is accepted at most d after its stamp, consecutive stamps are more than TTL apart and consecutive writes more than TTL - d, and the i-th is more than i times TTL, or that less d, after the first |
| ValsSecretSpacing.DelayShortensTheGap | controllers/valssecret_controller.go:317-327 | from any moment at which there is no Secret, with any d up to the next moment of expiry, there is a run in which no call fails, every write is accepted within d, the first exactly d after its stamp, and the second in the first second after the TTL |
| ValsSecretSpacing.OneSecondApart | controllers/valssecret_controller.go:317-327 | with a TTL of 100 s there is such a run in which a create is stamped at 0 s and accepted at 100 s, and an update is stamped and accepted at 101 s |
| ValsSecretSpacing.SpacingIsExact | controllers/valssecret_controller.go:317-327 | for d up to the TTL, the one asked for or the default, consecutive writes are more than a bound apart in all runs that `WritesAreSpaced` is about if and only if the bound is at most TTL - d |
| ValsSecretSpacing.TtlHoldsIffPrompt | controllers/valssecret_controller.go:317-327 | they are more than the TTL apart in all these runs if and only if d is not above 0, for a latency below a second, too |
| ValsSecretSafety.RateAtGate | controllers/valssecret_controller.go:481-503 | the fraction of a second cut off a time stamp never lets a write through early, as long as the clock is within the four-digit years that the layout can express |
| ValsSecretFixpoint.UpsertIsFixpoint | controllers/valssecret_controller.go:278-327 | what was written needs an update again, with the same resource and data, if and only if the Secret before it had an annotation or label that is compared and that the resource lacks |
| ValsSecretFixpoint.UpdateNeeded | controllers/valssecret_controller.go:408-419 | an update is needed if and only if the data, an annotation besides the time stamp and kubectl's own, or a label besides the operator's differs in presence or text |
| ValsSecretFixpoint.WrittenMeta | controllers/valssecret_controller.go:305-318 | a write stores the data, the resource's labels and annotations over the old ones, the operator's label and the time, and drops kubectl's annotation |
| ValsSecretFixpoint.SecondPass | controllers/valssecret_controller.go:144-235 | the next pass goes on to write if and only if the TTL is over and there were stale keys; otherwise it changes nothing |
| ValsSecretFixpoint.FreshSecretIsWrittenOnce | controllers/valssecret_controller.go:227-252 | where there was no Secret, one pass, with or without the finalizer in place, creates it and rolls out once, and the next one, at any later time, changes nothing |
| ValsSecretFixpoint.NeverWrittenAgain | controllers/valssecret_controller.go:144-253 | once written without stale keys, no run of passes, failing or not, at whatever times, writes the Secret or rolls out again, as long as nobody else changes the resource, the Secret or the values |
| ValsSecretFixpoint.GateStaysOpen | controllers/valssecret_controller.go:139-165 | in all these runs a pass asks the stores if and only if the TTL since the old stamp was over at its gate, and once it is over, every later pass does |
| ValsSecretFixpoint.StaleKeysStay | controllers/valssecret_controller.go:313-318 | a write keeps stale keys exactly if there were some |
| ValsSecretFixpoint.StaleKeysRollOutForever | controllers/valssecret_controller.go:237-250 | with stale keys, every pass after the TTL writes the same data again, rolls out again, and leaves the state in which the next one will |
| ValsSecretFixpoint.ExpiryIsMonotone | controllers/valssecret_controller.go:481-503 | once expired, a Secret stays expired until the next write |
| ValsSecretFixpoint.DeletionCompletes | controllers/valssecret_controller.go:109-130 | one pass without failures removes the Secret, forgets the failures, and leaves the resource exactly if others hold it |
| Assembly.DecodeAll | controllers/valssecret_controller.go:179-199 | all values decoded as their encoding asks, or nothing if one does not decode, in any order |
| Assembly.RenderAll | controllers/valssecret_controller.go:201-225 | the decoded values overridden by exactly the templates that render, in any order |
| Assembly.ResolvedMeans | controllers/valssecret_controller.go:149-162 | a plain reference is passed on as it is; `ref+k8s://` gives the other Secret's value if it parses, is allowed and can be read |
| Assembly.AllOrNothing | controllers/valssecret_controller.go:150-158 | one reference that does not resolve, and there is no result |
| Assembly.AssembledPlain | controllers/valssecret_controller.go:164-199 | without templates: a result if and only if the stores answer and all base64 under plain references decodes; that is decoded, and everything else is taken as it is |
| Assembly.AssembledOver | controllers/valssecret_controller.go:201-225 | templates get the values that there are without them; those that render replace or add, the others change nothing |
| Assembly.DeniedAssemblesNothing | controllers/valssecret_controller.go:148-162 | one denied reference is enough for nothing to be assembled, whatever the stores answer |
| RefPattern.FindExact | controllers/valssecret_controller.go:464-470 | the matcher finds a reference if and only if the text holds one; from the leftmost start on, the text is the three parts with their separators |
| RefPattern.PrintFind | controllers/valssecret_controller.go:464-478 | a printed reference is read back as it was if and only if neither `/` occurs in the name nor `#` in the key before the last character |
| RefPattern.ReferenceInFull | controllers/valssecret_controller.go:464-478 | `ref+k8s://ns/name#key` is read as `ns`, `name` and `key` |
| RefPattern.MatchesWhereARefIs | utils/utils.go:102-123 | at any position, backtracking over greedy groups succeeds exactly where some reference is spelled |
| Lease.RoundTrip | controllers/dbsecret_controller.go:248-263 | element 3 of the split, put back behind mount and role, is the id that Vault issued if and only if the id has no slash and, when mount or role have one, element 3 of their own path is the id |
| Lease.NestedMountNamesAnotherLease | controllers/dbsecret_controller.go:360 | for the mount `db/prod` the stored id is that of the role |
| Lease.PathInFull | controllers/dbsecret_controller.go:260-263 | `db/creds/app/1a` |
| Vault.GetDbCredentials | vault/vault.go:184-258 | which answers of Vault are refused, that each host of the list gains the port, in order, and which URL comes out |
| Vault.HostsGainThePort | vault/vault.go:242-245 | the rewritten list splits into the original hosts, each with the port, if and only if the port has no comma |
| Vault.UrlIsFilled | vault/vault.go:237-240 | a URL with the user name before the password gets both texts in their places if no password placeholder comes to stand further left; and only then, unless the password begins with a brace |
| Vault.PlainUrlIsFilled | vault/vault.go:237-240 | so it does for every password and every user name without a brace, if there is none around the placeholders either |
| Vault.UrlWithoutPlaceholders | vault/vault.go:237-240 | a URL without placeholders stays as it is |
| ErrorCounts.ErrorCounter.Inc | controllers/valssecret_controller.go:535-544 | the count is the number of failures of the object since it was last cleared, for all objects at once |
| ErrorCounts.ErrorCounter.Clear | controllers/valssecret_controller.go:546-554 | clearing forgets this object and no other |
| ErrorCounts.Extended | controllers/valssecret_controller.go:538-553 | an event touches the count and the key of its own object and of no other |
| ErrorCounts.KeyInjective | controllers/valssecret_controller.go:538 | namespaces have no slash, so different objects have different keys |
| Backoff.DelayInRange | controllers/valssecret_controller.go:506-525 | for whatever 64-bit factor the conversion yields, the delay is between 3 s and 120 s, and jittered between 2.7 s and 132 s |
| Backoff.DelayGrows | controllers/valssecret_controller.go:516-521 | up to 56 failures the delay never falls, and is 120 s exactly from 12 on |
| Backoff.DelayIsExact | controllers/valssecret_controller.go:516 | up to 56 failures no 64-bit operation wraps |
| Backoff.FirstDelays | controllers/valssecret_controller.go:506-521 | 5, 5, 6, 8 and 11 seconds after the first five failures |
| Backoff.JitterFollowsRandom | controllers/valssecret_controller.go:523-525 | the jitter is proportional to the random number, to the nanosecond, from a tenth below to a tenth above the delay |
| Backoff.DelayCollapses | controllers/valssecret_controller.go:516-521 | 120 s at 56 failures, 3 s at 57 |
| Utils.StringMapsMatch | utils/utils.go:16-46 | true if and only if the maps without the ignored keys are equal |
| Utils.ByteMapsMatch | utils/utils.go:49-68 | true if and only if the maps are equal, though the loop looks one way only |
| Utils.MergeMap | utils/utils.go:70-74 | the union in which the source wins, in any order |
| Utils.ContainsString | utils/utils.go:77-84 | membership |
| Utils.RemoveString | utils/utils.go:87-98 | all other strings, in their order |
| Utils.SortedKeysMapString | utils/utils.go:158-165 | the one sorted list of the keys |
| Utils.SortedIsUnique | utils/utils.go:158-165 | there is only one sorted list of the same strings, so the order of the map does not matter |
| Utils.SecretHashString | utils/utils.go:125-133 | the digest of an input that depends on the map alone |
| Utils.CreateFakeHash | utils/utils.go:135-156 | empty if and only if some template fails to render, in any order; else the digest of all rendered templates |
| Utils.OneValueShows | utils/utils.go:125-129 | a change to the value of one key always changes what is hashed |
| Utils.OneKeyShows | utils/utils.go:125-129 | a key added or removed changes what is hashed unless both the key and its value are empty |
| Utils.SameShapeShows | utils/utils.go:125-129 | with the same keys and values of the same lengths, what is hashed is the same only for equal maps |
| Utils.HashInputInFull | utils/utils.go:125-129 | sorted by key, every key before its value |
| Utils.FakeHashOf | utils/utils.go:135-156 | the hashed texts are rendered with the word `fake` for user name and password |
| Utils.KeysAndValuesRunTogether | utils/utils.go:127-129 | two different maps with the same hash input |
| Quoting.ChainedReplaceIsEscape | db/mysql/mysql.go:15-17 | the two chained replacements are one escape per character |
| Quoting.QuotedInFull | db/mysql/mysql.go:15-17 | a quote, a backslash and a letter, quoted |
| Quoting.MysqlRoundTrip | db/mysql/mysql.go:15-17 | for every text, MySQL's scanner reads back exactly what was quoted if and only if no quote follows |
| Quoting.MysqlWithoutBackslashEscapes | db/mysql/mysql.go:15-17 | without backslash escapes the server stops at the same place but reads the same text only if there is no backslash in it |
| Quoting.AlterUserSaysWhatItWasGiven | db/mysql/mysql.go:33-36 | the statement reads back as the three given texts and nothing more |
| Quoting.CqlRoundTrip | db/cassandra/cassandra.go:15-21 | for every text and either quote, the scanner reads back exactly what was quoted if and only if no further quote follows |
| Mysql.UpdateUserPassword | db/mysql/mysql.go:50-77 | hosts are tried in order with the defaults until one succeeds; no error exactly if one did or there was none |

## Left out

- The Kubernetes client, cache and API server are an abstract store. Reads are fresh: what a stale cache would return is not modelled.
- The version of the Secret: the operator clears it before it creates or replaces one, so writes are unconditional. The update after a renewal keeps it; its conflicts appear only as updates that may be refused at any time.
- One object and one Secret name for each machine; a change of `secretName` under way, and the Secret's type and owner reference (which appears only as a write that may be refused).
- The rollout of workloads: only whether a `ValsSecret` pass gets to it is counted. The synchronisation of databases after a write is left out but for quoting and failover.
- `tokenRenewer` and `manageTokenLifecycle`, the loop that copies delivered tokens into environment variables, and the channels behind `RenewCh`.
- `vals.Eval`, the template engine, base64, MD5 and the time layout are functions given as parameters, with only what a theorem needs of them as its hypothesis. That they are functions says that they are deterministic. Vault's lease table is a map, and Vault grants a renewal in full, though the operator ignores the response.
- `math.Pow` and the jitter are exact reals. Rounding of floating-point numbers is not modelled, nor is the conversion of a power beyond 64 bits, for which Go leaves the value open; `DelayInRange` holds for any value.
- The random number of `errorBackoff`, the clock, faults and interleaved parties are inputs or arbitrary choices. Two readings of the clock within one decision are one.
- A panic in a pass counts as an error, as the library that calls the pass reports it.
- Nil maps are empty maps, and byte strings are strings of characters.
- Events, logs, metrics, flags, watches and their predicates, and `rollout` errors, which are only logged.
- Utils.MergeMap: returns the merged map, which the caller stores where the old one was; the source writes into it.
- DbSecretController.DbSecretReconciler.RevokeLease: that Vault fails to revoke is not modelled, since the source only logs it and never gets there for a Secret in the cluster.
- DbSecretTiming.CredentialsNeverExpire: assumes that Vault grants every renewal in full and that mount, role and Secret name stay, as the source checks neither, and that every issue replaces the values; `IssueReplacesValues` says when one does.
- ValsSecretSafety.WritesAreSpaced: times are from 1970 to the end of the year 9999, beyond which the layout of the time stamps does not read back.
- The error counters of `DbSecretReconciler`, which are cleared but never incremented.
- `UpdateUserPassword` of Cassandra, PostgreSQL and Elasticsearch: connection settings and one query.
