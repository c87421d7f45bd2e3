# Clawbake: gateway configs and the instance operator, verified

Clawbake hosts one openclaw instance per user on Kubernetes. Two parts of it are
modelled here, and their central promises are proved for every input and every run.

**Gateway configs.** An administrator stores a JSON template with `{{NAME}}`
placeholders. The template is checked once, with one dummy word. Later, arbitrary
strings from users are escaped and spliced in, an override is deep-merged on top, and
the result is stored with the instance.

- `Json`, `JsonSound`, `JsonComplete`, `Numbers`: a character-by-character pushdown scanner for RFC
  8259 that builds a lossless syntax tree. What it accepts is exactly what the grammar
  derives, and parsing and printing are inverse to each other.
- `Escape`, `Placeholders`, `Fill`, `Templates`: escaping as `json.Marshal` does it, the
  leftmost placeholder scan, substitution, and the one-dummy check. The scanner runs on
  template tokens as well; a simulation shows that scanning a filled template is filling
  the scan of the template, for every value. `Content`, `Substituted`: what the strings
  and names of the resulting document denote.
- `Layout`, `CompactNames`: compaction. `Reflow`, `Args`: the Slack command's argument
  parser and what it does to the whitespace of an override.
- `Objects`, `Merge`, `MergeHeap`: decoded JSON with objects as maps, marshalling, the
  recursive merge with its algebra, and the in-place `deepMerge` on maps in memory.
- `Server`: the gate on stored defaults, the three create paths and the config save, as
  handlers that update the stored rows in place, and the invariant over every sequence
  of requests. `ServerMeaning`: what every request does, when it is refused and what a
  stored config decodes to; the three create paths agree. `ServerRuns`: what whole runs
  keep of an instance and its generation. `Shortfalls`: inputs that fare worse than expected.

**The operator.** `Operator` is `Reconcile` with a program counter, next to an API server
with resource versions, generations, finalizers, deletion timestamps and a status
subresource. Each API call is one step that may succeed, fail, or take effect while its
answer is lost; the process may crash between any two steps; deletes, saves (a read and a
later conditional write, any number at once), readiness changes, label changes, the
namespace controller, pod restarts and live edits interleave freely. `OperatorSafety`
proves one invariant over all of that, `OperatorTheorems` reads the promises off it,
`Convergence` treats one undisturbed reconcile, `Reconciler` is the reconcile as
sequential code proved to agree with the step machine, and `Children` says what the
children are for. `Volume` is the write-config init container with its marker file,
`WriteConfig` the text of its command, and `InitShell` the command as shell constructs
that print to that text and run in the container's steps. `EndToEnd` follows a saved
config to the file the app reads.

## Assumptions

- One reconcile at a time per instance; reads are linearizable; an API call of a crashed
  process does not land later.
- Only the operator writes child objects and its own finalizer. Others may change the
  namespace's labels, the deployment's readiness, and other finalizers.
- All instances live in one namespace, so one instance name stands for one
  `clawbake-<name>` namespace. A same-named instance is created again only after that
  namespace is gone.
- Pods start one after the other and never from an older template after a newer one, and
  the init container finishes before the app or its user can touch the files. Each `>`
  redirection of its script is atomic; crashes can fall between redirections.
- Strings are sequences of Unicode scalar values. A nil map and an empty map of
  placeholder values are the same.

## Where the code and its promises part

- Content is preserved by substitution except in one family: when holes that all get the
  empty value stand between the escapes of a high and of a low surrogate, the halves meet
  and read as one character. `Substituted.SubstitutionContent` gives the exact condition
  for a whole document, `Substituted.SurrogateHalvesMeet` a template. The web form drops
  empty values and is not affected (`ServerMeaning.FormContent`).
- The comment on the argument parser (`internal/bot/commands.go:53-55`) says a bare
  `{...}` works as an override when there are no `KEY=value` pairs. It does exactly when
  its first word has no `=` (`Args.BareOverride`); otherwise that word is taken for a pair,
  as in `Shortfalls.BareReadAsPair`.
- The override of a Slack command loses runs of spaces inside its string literals.
  `Reflow.CollapseKeepsMeaning` says exactly which texts keep their value;
  `Shortfalls.SpacesLost` is one that does not.
- Merging is not associative in general; `Merge.MergeAssociative` says exactly when it is,
  and `Merge.MergeNotAssociative` is an input.
- `MergeJSON` with the base `null` and a non-empty override writes to a nil map;
  `MergeHeap.MergeTextCorrect` says exactly when, `Shortfalls.NullBasePanics` is an input.
- The whole gate on stored templates, dummy check and all, comes to plain JSON validity of
  the template text (`Server.GateIsValidity`).

## Model

| member | source | states |
|---|---|---|
| Json.RunAppend | internal/jsonutil/template.go:75-77 | scanning is incremental: a text in two parts is scanned as its parts in turn |
| JsonSound.StepText | internal/jsonutil/template.go:75-77 | each scanner step accounts for exactly the character it read |
| JsonSound.ParseSound | internal/jsonutil/template.go:75-77 | an accepted text is the print of the well-formed tree that was built |
| JsonComplete.ParseComplete | internal/jsonutil/template.go:75-77 | the print of every well-formed tree is accepted and parses to that tree |
| JsonComplete.ValidIffGrammar | internal/jsonutil/template.go:75-77 | JSON validity is derivability in the grammar of RFC 8259 sections 2 to 7 within the nesting limit, and the grammar is unambiguous |
| Numbers.NumberGrammar | internal/jsonutil/template.go:75-77 | the number automaton accepts exactly minus, int, frac and exp as RFC 8259 section 6 writes them |
| Escape.DecodeEscape | internal/jsonutil/template.go:48-53 | decoding an escaped value as RFC 8259 section 7 says gives the value back |
| Escape.EscapeTextSafe | internal/jsonutil/template_test.go:87-90 | escaped text has no raw control character, line separator, or character special in HTML |
| Escape.EscapeTextPlain | internal/jsonutil/template.go:48-53 | text without special characters is written as it is |
| Escape.EscapeTextAppend | internal/jsonutil/template.go:48-53 | escaping goes character by character |
| Escape.EscapeSpecials | internal/jsonutil/template_test.go:87-90 | how quotes, backslashes, control characters and characters special in HTML are written |
| Escape.OtherEscapes | internal/jsonutil/template.go:75-77 | escapes json.Marshal does not write are read as RFC 8259 section 7 says |
| Placeholders.MatchAtSpec | internal/jsonutil/template.go:11 | the matcher finds a placeholder exactly where the pattern does, and only one can start there |
| Placeholders.TokensUnique | internal/jsonutil/template.go:11-16 | the scan is the one cut of the text that never reads on past the start of a placeholder |
| Placeholders.TokensLossless | internal/jsonutil/template.go:47-54 | literals and holes concatenate back to the template |
| Placeholders.ExtractPlaceholders | internal/jsonutil/template.go:15-31 | the names come back strictly ascending and are exactly the placeholder names |
| Order.SortStringsSorts | internal/jsonutil/template.go:29 | sorting keeps the elements and orders distinct ones strictly |
| Order.SortedUnique | internal/jsonutil/template.go:13-31 | a strictly ascending list is determined by its elements |
| Fill.StepFill | internal/jsonutil/template.go:47-54 | reading a character commutes with filling holes, rejection included |
| Fill.Simulation | internal/jsonutil/template.go:47-77 | scanning the substituted text ends where scanning the template ends, with the holes filled |
| Fill.RejectionCarriesOver | internal/jsonutil/template.go:67-77 | with the dummy word a rejected template gives a rejected text |
| Templates.SubstitutePlaceholders | internal/jsonutil/template.go:35-57 | fails exactly when a name has no value, with the sorted missing names; else literals are copied and each hole gets its escaped value |
| Templates.OneDummyCoversAllValues | internal/jsonutil/template.go:59-79 | the dummy substitution is JSON exactly when the substitution of every covering value map is |
| Templates.SubstitutionParses | internal/jsonutil/template.go:47-54 | the result parses to the template's own tree with every hole replaced by the escaped value: no value adds, removes or splits a token |
| Templates.TemplateIsJson | internal/jsonutil/template.go:59-79 | a template passes exactly when it is JSON as it stands, with the same tree up to its holes |
| Templates.ValidateTemplate | internal/jsonutil/template.go:62-79 | no error exactly when there are no placeholders or every covering value map yields JSON; substitution itself never fails |
| Content.ContentPreserved | internal/jsonutil/template.go:47-54 | one filled string denotes the template's text with the raw values spliced in, exactly when no empty value joins surrogate halves |
| Substituted.SubstitutionContent | internal/jsonutil/template.go:35-57 | the document that substitution yields has the template's words, numbers, arrays and members in order, and every string and name in it decodes to the template's text with the raw values in place of the holes, exactly when no empty values join surrogate halves in any string or name |
| Substituted.NonemptyContent | internal/jsonutil/template.go:35-57 | values that are not empty always come through as they are |
| Substituted.SurrogateHalvesMeet | internal/jsonutil/template.go:35-57 | a template and a value for which two characters come out as one |
| Objects.MarshalRoundTrip | internal/jsonutil/merge.go:20-24 | marshalled data is JSON and decodes to the same data |
| Objects.SortedKeysSpec | internal/jsonutil/merge.go:20 | the names json.Marshal goes through are strictly ascending, each once |
| Objects.MarshalCanonical | internal/jsonutil/merge.go:10-24 | in the printed text the names of every object, however deep, are strictly ascending, and compaction finds nothing to drop |
| Objects.LastMemberWins | internal/jsonutil/merge.go:12-18 | decoding gives a repeated name the value of its last member |
| Objects.DecodedNames | internal/jsonutil/merge.go:12-18 | a decoded object has exactly the names that are written |
| Merge.OverrideWins | internal/jsonutil/merge.go:27-42 | every value of the override that is no object appears at its path |
| Merge.BaseSurvives | internal/jsonutil/merge.go:27-42 | every base path where the override falls off survives unchanged |
| Merge.NothingInvented | internal/jsonutil/merge.go:27-42 | whatever the merge has at a path comes from the override, from a base path it falls off, or is the merge of the two objects there |
| Merge.EmptyNeutral | internal/jsonutil/merge.go:27-42 | the empty object is neutral on both sides |
| Merge.MergeIdempotent | internal/jsonutil/merge.go:27-42 | merging a value onto itself, or the same override again, changes nothing |
| Merge.MergeCovered | internal/jsonutil/merge.go:27-42 | an override absorbs a base exactly when it covers all of the base's names |
| Merge.MergeAssociative | internal/jsonutil/merge.go:27-42 | the exact condition for associativity |
| Merge.MergeNotAssociative | internal/jsonutil/merge.go:27-42 | an object, a scalar and an object at one name break it |
| MergeHeap.MapNode.Put | internal/jsonutil/merge.go:30-31 | assigning a slot changes that name and nothing else |
| MergeHeap.MergeName | internal/jsonutil/merge.go:28-40 | one turn of the loop merges one name and leaves the override alone |
| MergeHeap.ForgetMerged | internal/jsonutil/merge.go:27-42 | merging maps in memory, base's own where both sides have one and else the override's shared, represents the recursive merge of the objects |
| MergeHeap.DeepMerge | internal/jsonutil/merge.go:27-42 | for every visiting order, base ends up as the recursive merge; at every depth it keeps its own map where both sides had one and else refers to the override's map or value; no map of the override and no other map changes |
| MergeHeap.Load | internal/jsonutil/merge.go:12-18 | decoding lays the object out in fresh maps that form a tree |
| MergeHeap.Dump | internal/jsonutil/merge.go:20 | reading the maps back gives the object they represent |
| MergeHeap.MergeJSON | internal/jsonutil/merge.go:11-25 | decode, merge in place, print: the outcome is the one MergeTextCorrect speaks about |
| MergeHeap.MergeTextCorrect | internal/jsonutil/merge.go:8-25 | a text is printed exactly when both texts are objects or null and there is a map to merge into; it decodes to the merge, with sorted names and no whitespace; otherwise which text is refused, and exactly when the nil map is written to |
| Shortfalls.NullBasePanics | internal/jsonutil/merge.go:11-31 | two JSON texts for which the merge writes to a nil map |
| Layout.CompactJSON | internal/handler/pages.go:376-382 | drops the whitespace outside strings of JSON and returns anything else unchanged |
| Layout.CompactedParses | internal/handler/pages.go:376-382 | the compacted text parses to the same tree without whitespace and is that tree's print |
| CompactNames.CompactedHasNoNewNames | internal/handler/pages.go:287-290 | compaction forms no placeholder |
| Reflow.CollapseKeepsMeaning | internal/bot/commands.go:66-78 | splitting at whitespace and joining with single spaces keeps the value of a JSON text exactly when its string literals have no adjacent spaces and no space but U+0020 |
| Args.ParseCreateArgs | internal/bot/commands.go:56-101 | the loop computes the pairs and the override of the command text |
| Args.ArgsRoundTrip | internal/bot/commands.go:56-101 | a command of pairs, other words in between, and no override, a json= override or a bare one parses to the last-wins map and the override with its spaces collapsed and trimmed, unchanged if it is normal |
| Args.AnySpacing | internal/bot/commands.go:57-65 | however its words are spaced, a command parses as it does with single spaces |
| Args.OverrideMeaning | internal/bot/commands.go:70-92 | the parsed override, keyed or bare, means what was typed, whatever spaces follow it, exactly when it is well spaced |
| Args.BareOverride | internal/bot/commands.go:53-92 | a bare override is recognised, whatever spaces follow it, exactly when its first word has no equals sign |
| Shortfalls.SpacesLost | internal/bot/commands.go:70-78 | a JSON override whose value changes on the way |
| Shortfalls.BareReadAsPair | internal/bot/commands.go:80-92 | a bare JSON override that is read as a pair |
| Server.GateIsValidity | internal/handler/admin.go:45-51 | the gate comes to JSON validity of the text |
| Server.CheckGate | internal/handler/pages.go:279-286 | which refusal the gate gives, and when it gives none |
| Server.ResolveConfig | internal/handler/instance.go:71-105 | the stages in order and every refusal: missing names, bad override, failed merge |
| Server.ReadForm | internal/handler/pages.go:104-117 | the values are the non-empty form fields of the placeholders |
| Server.Handler.UpdateDefaultsJson | internal/handler/admin.go:30-58 | stores the config exactly when it passes the gate |
| Server.Handler.UpdateDefaultsPage | internal/handler/pages.go:273-306 | the same for administrators, compacting configs without placeholders |
| Server.Handler.CreateJson | internal/handler/instance.go:49-141 | one new instance with the resolved config, or the refusal and no change |
| Server.Handler.CreatePage | internal/handler/pages.go:85-175 | the same from form fields |
| Server.Handler.CreateSlack | internal/bot/commands.go:103-201 | the same from a command text |
| Server.Handler.SaveConfigPage | internal/handler/pages.go:338-366 | an owner's or administrator's valid config is stored compacted under the next generation |
| Server.Handler.Delete | internal/handler/instance.go:163-185 | an owner's or administrator's delete takes the instance away |
| Server.ResolveGood | internal/bot/commands.go:125-164 | behind the gate, resolving never fails after substitution and yields JSON |
| Server.ServeGood | internal/handler/pages.go:353-366 | every request keeps the stored default behind the gate and every stored config non-empty JSON |
| Server.EveryRunGood | internal/handler/pages.go:103-138 | the same over every sequence of requests; the refusal after substitution never happens |
| ServerMeaning.ResolveMeaning | internal/handler/instance.go:71-105 | behind the gate, a config results exactly when every placeholder has a value and the override, if any, can be merged; what that config decodes to; and each refusal with its reason |
| ServerMeaning.CreateServed | internal/handler/instance.go:49-141 | on each of the three paths a create is stored exactly when the user has no instance, the config can be made and the write succeeds; then there is one more instance, at generation 0, with the filled-in default and the override on top; else nothing changes |
| ServerMeaning.SaveServed | internal/handler/pages.go:338-366 | a save is stored exactly for an existing instance, its owner or an administrator, valid JSON and a successful write; then only that instance changes, to the compacted text with the same data and the next generation; else nothing changes |
| ServerMeaning.DeleteServed | internal/handler/instance.go:163-185 | a delete is carried out exactly for owners and administrators and takes only that instance away |
| ServerMeaning.DefaultsServed | internal/handler/pages.go:273-306 | an update of the defaults is stored exactly when the text is JSON - on the page, for an administrator; what is stored then, and that nothing changes otherwise |
| ServerMeaning.CompactedKeepsData | internal/handler/pages.go:358 | compaction keeps the data a config decodes to |
| ServerMeaning.FormContent | internal/handler/pages.go:104-128 | through the web form, which drops empty values, every value comes through as it was typed |
| ServerMeaning.FormAgreesWithApi | internal/handler/pages.go:104-149 | the form filled in with values that are not empty does exactly what the JSON interface does with them |
| ServerMeaning.SlackAgreesWithApi | internal/bot/commands.go:103-201 | the command with any arguments and a well-spaced override, keyed or bare, does exactly what the JSON interface does with the same values and override |
| ServerRuns.OthersCannotTouch | internal/handler/pages.go:349-351 | in every sequence of requests in which no create, save or delete for an instance comes from its owner or an administrator, the instance stays as it is |
| ServerRuns.GenerationCountsSaves | internal/handler/pages.go:358-363 | in every run the generation is the number of saves stored since the instance was created |
| ServerRuns.GenerationTellsConfigs | internal/handler/pages.go:358-363 | while an instance exists its generation never falls, and equal generations mean equal configs |
| WriteConfig.CommandInjective | internal/operator/controller.go:322-337 | the command text determines config and generation |
| WriteConfig.EverySaveChangesCommand | internal/operator/controller.go:317-338 | the command is that of the spec's own config, or of the default if it has none, at the spec's generation, and of no other script; so every save changes it |
| InitShell.PrintedCommand | internal/operator/controller.go:327-337 | the shell constructs print to the command text |
| InitShell.CommandTakesInitsSteps | internal/operator/controller.go:327-337 | running them, test by test and redirection by redirection, takes the steps of the init container from every point of start-up |
| Volume.VolumeStepInv | internal/operator/controller.go:328-337 | every step of the script, crash, restart and edit keeps the protocol's invariant |
| Volume.DeployInv | internal/operator/controller.go:417-437 | so does deploying a script that is no older |
| Volume.InitCompletes | internal/operator/controller.go:328-337 | after start-up marker and file are at the pod's generation, and an unedited file holds its config |
| Volume.VouchedStep | internal/operator/controller.go:328-337 | edited files and running apps keep their marker through every step, crash and restart but the deletion of the marker |
| Volume.EditLostOnlyIf | internal/operator/controller.go:331-336 | a live edit goes only by edit, deletion of the file, a newer generation, or once the marker was lost |
| Volume.RestartsHarmless | internal/operator/controller.go:328-337 | any sequence of crashes and restarts leaves a file at the deployed generation as it is |
| Volume.RestartCompletes | internal/operator/controller.go:328-337 | after any crash an undisturbed start-up completes, keeping an edited file |
| OperatorSafety.SaveCommitInv | internal/handler/pages.go:341-363 | an accepted save is a save on top of the stored instance and keeps the invariant |
| OperatorSafety.PutDeploymentInv | internal/operator/controller.go:287-441 | a deployment is never replaced by one with an older script |
| OperatorSafety.BusyInv | internal/operator/controller.go:62-199 | every step of a reconcile keeps the invariant, whatever becomes of its call |
| OperatorSafety.NextInv | internal/operator/controller.go:62-199 | every event keeps the invariant |
| OperatorSafety.ReachableInv | internal/operator/controller.go:62-199 | the invariant holds after every sequence of events |
| OperatorTheorems.NoOrphanedNamespace | internal/operator/controller.go:73-123 | an active namespace implies the instance with the operator's finalizer |
| Children.DesiredChildrenFit | internal/operator/controller.go:208-547 | the wanted children carry the spec's image, token and config or the default, one port for the gateway and one per feature in deployment and service, a restart loop exactly with the shell, the operator's labels on top of others, and ingress only from the server's namespace |
| OperatorTheorems.ReadyVouches | internal/operator/controller.go:118-161 | ready for the current generation implies deployment, service and network policy that run and expose the current spec, its config and generation included |
| OperatorTheorems.GenerationChain | internal/operator/controller.go:322-337 | marker, file, deployed and saved generations are ordered, and a script at the current generation carries the saved config, or the default if that is empty |
| OperatorTheorems.RunningFile | internal/operator/controller.go:322-337 | a running app's file is at its pod's generation |
| OperatorTheorems.StatusConsistent | internal/operator/controller.go:147-199 | which Ready condition and namespace go with which phase |
| OperatorTheorems.EveryStep | internal/operator/controller.go:74-116 | persisted phases move along the automaton; only an accepted save changes the spec, by one config generation; transitions into Running are counted |
| OperatorTheorems.ClaimKept | internal/operator/controller.go:219-251 | an existing volume claim is never altered by any event but the end of its namespace |
| OperatorTheorems.QuietMeansSettled | internal/operator/controller.go:62-199 | no error and no requeue only when gone, on its way out without our finalizer, or just persisted as Running |
| OperatorTheorems.NotificationsBounded | internal/operator/controller.go:149-167 | transitions into Running are announced, about to be, or lost to a crash or a lost answer |
| OperatorTheorems.EveryTransitionAnnounced | internal/operator/controller.go:149-167 | with a notifier and no crash or lost answer every transition is announced |
| OperatorTheorems.SilentWithoutNotifier | internal/operator/controller.go:163-167 | without a notifier nothing is sent |
| OperatorTheorems.MissingMarkerWasDeleted | internal/operator/controller.go:322-337 | in every run of the whole system an edited file or running app lacks its marker only after somebody deleted it and before a start-up wrote it again |
| OperatorTheorems.LiveEditLostOnlyIf | internal/operator/controller.go:322-337 | in the whole system a live edit goes only by edit, deletion of the file, with the namespace, for a newer saved generation, or after the marker was deleted and not written again |
| Convergence.StepGetsCloser | internal/operator/controller.go:62-199 | a reconcile returns after boundedly many steps, whatever becomes of its calls |
| Convergence.Converges | internal/operator/controller.go:94-183 | one fault-free reconcile makes the deployment run the spec with its config, exposes it to the server alone, labels the namespace and keeps foreign labels, keeps an existing volume claim, and records Running or Starting by readiness for the current generation |
| Convergence.FailureRecorded | internal/operator/controller.go:185-199 | a failed call for a child is recorded as Failed with that child as the reason, and returned as an error |
| EndToEnd.SavedConfigReachesFile | internal/handler/pages.go:353-363 | after an accepted save, whatever happens short of a further save, a delete or a live edit, one fault-free reconcile and one undisturbed restart put the saved config, unedited, in the app's file |
| Convergence.ForeignLabelsKept | internal/operator/controller.go:208-215 | labels other than the operator's two are kept, and setting them again changes nothing |
| Convergence.SecondReconcileIdle | internal/operator/controller.go:208-249 | a second reconcile with unchanged inputs stores nothing and announces nothing |
| Convergence.DeletionCompletes | internal/operator/controller.go:73-91 | one fault-free reconcile of a deleted instance leaves no active namespace and no finalizer of the operator, frees the instance unless another finalizer holds it, and touches nothing else |
| Reconciler.ClawInstanceReconciler.Reconcile | internal/operator/controller.go:62-183 | the sequential code does what the step machine does, for every fate of every call |
| Reconciler.ClawInstanceReconciler.CreateOrUpdate | internal/operator/controller.go:208-247 | reads the child and writes it only when something differs |
| Reconciler.ClawInstanceReconciler.SetFailed | internal/operator/controller.go:185-199 | records the failure and returns an error |
| Reconciler.ClawInstanceReconciler.DeleteUserNamespace | internal/operator/controller.go:551-561 | a missing namespace is fine, any other failure is an error |
| Reconciler.ReconcileKeepsInv | internal/operator/controller.go:62-199 | an undisturbed reconcile is one of the runs the invariant covers |

## Left out

- HTTP, WebSocket and reverse-proxy plumbing, Slack calls, OIDC, sessions, SQL, signatures and tokens.
- Fields copied unchanged into an instance (image, resources, storage) in the server's create paths, and roles beyond "administrator or owner".
- Numbers are opaque: their spelling is kept, precision and range of float64 are not modelled, so an override with a number out of range is not refused.
- Invalid UTF-8; the scanner works on scalar values.
- Shell quoting and echo's escape processing: a config with a single quote or a backslash is taken to be written as it is.
- The 64-bit width of the config generation: it counts without bound.
- Defaults taken from the environment at start-up: the first stored default is taken to have passed the gate.
- Kubernetes defaulting of fields, RBAC, events, leader election, panics on malformed quantities, and the overlap of old and new pods in a rolling update.
- The message of the Ready condition and its transition time.
- MergeHeap.DeepMerge: arrays are values, not objects in memory, because the source never writes into one.
- Server.ResolveConfig: the write to a nil map panics in the source and the server's recovery middleware turns it into a failed request; here it is the refusal `MergeFailed(NilMapPanic)`, with no change to the store in either.
