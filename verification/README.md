# hwprivacy: verified model

hwprivacy decides which program may use the camera, the microphone or a speaker monitor. A user daemon watches the
PipeWire graph and destroys links it does not allow; a root helper with an eBPF LSM program denies device opens in the
kernel. This project models both, and the socket between them, in Dafny and proves what they are meant to guarantee
over whole runs.

How to read it, file by file:

- `Splitter`: the character stream of the graph monitor cut into JSON arrays (sections 2, 5 and 7 of RFC 8259).
- `Graph`: the graph kept incrementally from those arrays, and captured from scratch.
- `Ledger`, `GraphRun`: which live links still need a decision, over every sequence of blocks and re-seeds.
- `Enforcement`, `Pipeline`: grouping, the policy decision and the fate of every link.
- `Names`, `Rules`, `Presets`, `RuleMerge`: rule keys, the rule list and every way to edit it.
- `Sessions`, `Connections`: `while_in_use` sessions on a clock, and the connections that keep them alive against the
  graph.
- `KernelPolicy`, `PolicyPush`, `PolicyCache`, `FullPush`: the allowlists, the push into the kernel maps with opens
  going on, the cache for the next boot, and what the kernel answers in the end.
- `Kernel`, `Release`: the open and close hooks, the close hook also taken apart into its single map operations.
- `DeviceIndex`: which device node a kernel number belongs to, and what it is taken for.
- `Accounting`, `Conservation`: what an event is worth, and where every camera open is at every moment.
- `Socket`: the helper's server threads, interleaved.

State that the code updates in place is a class with a method for each operation; the method's contract equates the
new state with a function of the old one, and the lemmas are about those functions. Protocols are step relations over
values, and their theorems quantify over every run.

## What the proofs found

- A stray bracket in the monitor's output desynchronises the splitter for good: outside a string, a depth other than
  zero is never made up for by well-formed arrays, while an unclosed string may be (`Splitter.LostForGood`, if and
  only if). From a synchronised state other garbage costs only the next block (`Splitter.GarbageCostsOneBlock`).
- A link the graph reports new goes undecided if and only if its id was marked decided before the block and a serial
  is missing on either side or unchanged (`Ledger.DecidedIff`, over runs `GraphRun.HandedIff`); a link removed and
  re-created within one block without a serial is such a case (`GraphRun.BackInOneBlockIsHidden`).
- A remembered connection outlives its link if and only if in one update its id is reported new again and the newcomer
  is not allowed, and since then no link under the id was allowed and the id did not go (`Connections.LeftoverIff`).
  An id the graph holds before and after is reported new if and only if the link was gone or under another serial in
  between, or by a re-seed (`Connections.NewMeansNotTheSame`); it is not allowed if and only if the ledger passes it
  over or the application may not use the device (`Connections.UnallowedIff`). Such a leftover keeps a session open
  (`Connections.SurvivesOnlyByALink`).
- A name pasted with `(pid:N)` outside the ALSA form is stored under a key its own spelling does not look up
  (`Names.WrittenKeyIsLookedUp`, `Rules.SetAnswersForItsOwnName`).
- An import that lists one application twice previews one rule too many (`Presets.PreviewMatchesApply`).
- An open that lands after a close of the same executable has observed a zero count and before that count is deleted
  loses its release: it is reported early and its own close reports nothing (`Release.OpenBeforeTheDeletion`). Between
  the deletion and the report it is reported early too, but its own close reports again
  (`Release.OpenBeforeTheReport`). The comment in the hook speaks only of duplicate releases. Both windows are exact,
  step by step (`Release.SoundIffSpared`, `Release.GoodIffApart`): outside the first no release is ever missed,
  outside both none is early.
- An open moves opens between the denied and the allowed column if and only if it meets a burst of the other verdict
  and joins it or carries its counter off (`Conservation.ColumnsStayExactIff`). The opens behind an event of a camera
  are in no column any more if and only if its number was not known from the last scan and no node the scan takes
  bears it, which in `/dev` is one whose name starts with `video` (`Conservation.ForgottenIffUnnamed`). Capture-device
  summaries are dropped by the daemon (`Conservation.AudioSummariesAreIgnored`).
- The table falls short of the denied opens if and only if a row saturates (`Accounting.DeniedColumnGrows`).
- Because new entries are added before stale ones are removed, a push fails when old and new keys together exceed the
  map, even if the new ones alone would fit; what was written by then stays in force (`PolicyPush.SetPolicy`).
- A path holding `#`, a newline or edge whitespace does not survive the cache (`PolicyCache.CacheRoundTrip`).
- The server's shutdown can halt in one way only: a write to a peer that neither reads nor closes
  (`Socket.ShutdownHaltsOnlyOnAStalledPeer`).

## Model

| member | source | states |
|---|---|---|
| Splitter.BlockSplitter.Feed | hwprivacy-daemon/src/pipewire_monitor.rs:805-834 | feeding a chunk runs the scanner over it from the stored state and hands out what the parser accepts, in order |
| Splitter.ChunkingIsIrrelevant | hwprivacy-daemon/src/pipewire_monitor.rs:791-834 | any cutting of the stream into chunks gives the same blocks and the same final state |
| Splitter.NothingLost | hwprivacy-daemon/src/pipewire_monitor.rs:805-834 | every character read is in an emitted block or still in the buffer, in order |
| Splitter.StreamIsSplitExactly | hwprivacy-daemon/src/pipewire_monitor.rs:791-834 | for any JSON arrays of any nesting and string content, any whitespace between them and any chunks, exactly those arrays come out, once each, in order, ending at depth 0 outside a string |
| Splitter.RecoversIffSynchronised | hwprivacy-daemon/src/pipewire_monitor.rs:805-834 | after any reachable state every next array comes out whole if and only if depth is 0 and no string is open |
| Splitter.LostForGood | hwprivacy-daemon/src/pipewire_monitor.rs:805-834 | a reachable state is one that no stream of arrays ever leads back from if and only if it is outside a string at a depth other than zero |
| Splitter.GarbageCostsOneBlock | hwprivacy-daemon/src/pipewire_monitor.rs:816-829 | from a synchronised state an unparseable text spoils at most the first following array |
| Graph.GraphState.Clear | hwprivacy-daemon/src/pipewire_monitor.rs:112-118 | a respawn starts from the empty graph |
| Graph.GraphState.ApplyBlock | hwprivacy-daemon/src/pipewire_monitor.rs:126-200 | one block turns the four maps into the fold of its objects and returns the new link ids in order |
| Graph.CaptureGraph | hwprivacy-daemon/src/pipewire_monitor.rs:244-282 | the two passes of the from-scratch capture |
| Graph.SeedEqualsCapture | hwprivacy-daemon/src/pipewire_monitor.rs:126-200 | a removal-free block on an empty graph gives the capture's nodes and ports, and with distinct ids its links, all reported new |
| Graph.RecuttingIsIrrelevant | hwprivacy-daemon/src/pipewire_monitor.rs:126-200 | for links, ports and clients, and for the list of new ids, only the object stream counts, not where blocks end |
| Graph.AppearedMeansReported | hwprivacy-daemon/src/pipewire_monitor.rs:172-194 | a link that was not in the graph and now is was reported new in this block |
| Graph.ReportedIffNotSame | hwprivacy-daemon/src/pipewire_monitor.rs:172-194 | a link held before and after a block was reported new if and only if somewhere in the block it was gone or under another serial |
| Graph.RemovalForgets | hwprivacy-daemon/src/pipewire_monitor.rs:129-160 | after a removal nothing is left of the id in any map until it comes back |
| Graph.RemovedIsGone | hwprivacy-daemon/src/pipewire_monitor.rs:129-160 | an object with a null `info` takes its id out of every map |
| Graph.LinkRoundTrip | hwprivacy-daemon/src/pipewire_monitor.rs:466-490 | a link printed as an object, its serial as a number or as digits, is read back as it was |
| Graph.LinkDefaults | hwprivacy-daemon/src/pipewire_monitor.rs:466-490 | a link without ports gets port 0 at both ends, one without both nodes is no link |
| Graph.NumberRoundTrip | hwprivacy-daemon/src/pipewire_monitor.rs:403-409 | a number printed in decimal is read back if it is below the limit and refused otherwise |
| Graph.ArrivedIsThere | hwprivacy-daemon/src/pipewire_monitor.rs:172-194 | a link that comes under an unknown id is in the graph as sent and reported new |
| Graph.KnownLinkIsReplaced | hwprivacy-daemon/src/pipewire_monitor.rs:172-194 | one that comes under a known id replaces it, keeps the known serial if it brings none, and is reported new if and only if it brings another |
| Graph.PortArrives | hwprivacy-daemon/src/pipewire_monitor.rs:446-464 | a port that comes is in the graph as sent if and only if it has a name |
| Graph.ClientArrives | hwprivacy-daemon/src/pipewire_monitor.rs:126-150 | a client that comes leaves its props for the nodes to fall back on |
| Graph.NodeArrives | hwprivacy-daemon/src/pipewire_monitor.rs:298-400 | a node that comes gets its class, names and process from its own props and else from its client's, the vouched process before the declared one |
| Graph.LabelOrder | hwprivacy-daemon/src/pipewire_monitor.rs:335-375 | the label of a process: the sandbox id, else what PipeWire was told, else the executable's base name, else none |
| Graph.UnitIsNoted | hwprivacy-daemon/src/pipewire_monitor.rs:375-395 | a known unit is noted after the label exactly when the label does not hold it already |
| Graph.UnitIsTheLabel | hwprivacy-daemon/src/pipewire_monitor.rs:355-375 | with no other label the unit is the label |
| Ledger.LinkLedger.Forget | hwprivacy-daemon/src/link_audit.rs:108-110 | no decision survives a re-seed |
| Ledger.LinkLedger.Reconcile | hwprivacy-daemon/src/link_audit.rs:116-219 | entries, counts and pending decisions of one reconciliation; what it classifies and why are `Ledger.ClassifiedAs` and `Ledger.DecisionSays` |
| Ledger.ClassifiedAs | hwprivacy-daemon/src/policy_engine.rs:76-163 | a link is matched to a device if and only if it comes out of it (the device is the first listed one of the output node, and the link is a tap or the device a microphone or camera), the stream being the input node; or it comes out of none and goes into this microphone or camera, the stream being the output node |
| Ledger.ProtectedIff | hwprivacy-daemon/src/policy_engine.rs:76-125 | a link is on a protected device if and only if it comes out of a listed device or goes into one |
| Ledger.DecisionSays | hwprivacy-daemon/src/link_audit.rs:160-216 | what is handed out is the link's own match, and its reason is new, missed or a reused id exactly in the cases those words say |
| Ledger.UnprotectedEntry | hwprivacy-daemon/src/link_audit.rs:190-216 | a link on no protected device waits if and only if one of its ends is unknown and it was not settled before |
| Ledger.LinkLedger.StillAlive | hwprivacy-daemon/src/link_audit.rs:223-233 | exactly the links still in the ledger under their own serial |
| Ledger.EveryLiveLinkIsSettled | hwprivacy-daemon/src/link_audit.rs:116-219 | from any ledger: its ids become the live ids, every protected live link is marked decided, and under its own serial exactly when the old entry was not made under a serial that cannot be compared |
| Ledger.DecidedIff | hwprivacy-daemon/src/link_audit.rs:143-216 | a link gets a decision if and only if it is on a protected device and is not taken for a decided one: same id, decided, and no two different serials |
| Ledger.DecisionsAre | hwprivacy-daemon/src/link_audit.rs:143-216 | a decision is handed out for a link exactly when its own old entry and classification ask for one, and no link gets two |
| GraphRun.EveryRunIsAccounted | hwprivacy-daemon/src/main.rs:450-465 | over every block stream with re-seeds the ledger's ids are the graph's, the counts are those of the hand-outs, and the reason "never reported new" does not occur |
| GraphRun.SeedStartsAfresh | hwprivacy-daemon/src/main.rs:450-465 | after a respawn nothing of the graph and the decisions before it counts; only the history goes on |
| GraphRun.BlockGoesOn | hwprivacy-daemon/src/main.rs:450-465 | any other update goes on from the graph and the decisions that are there |
| GraphRun.EveryProtectedLinkIsDecided | hwprivacy-daemon/src/main.rs:450-465 | after every update of every run each live protected link is marked decided, under its own key except in the one stale case |
| GraphRun.EveryProtectedLinkIsItsOwn | hwprivacy-daemon/src/link_audit.rs:31-34 | when links arrive with serials that are not reused between seeds, the mark is the link's own and it was handed to the decision path |
| GraphRun.HandedAtMostOnceAndCounted | hwprivacy-daemon/src/link_audit.rs:143-216 | between seeds each (id, serial) is handed out at most once; seen counts distinct links, protected the hand-outs, decided late those not simply new |
| GraphRun.HandedIff | hwprivacy-daemon/src/main.rs:450-465 | in every update of every run a live link is handed out if and only if it is protected and not taken for a decided one; so a link reported new is missed in exactly that case |
| GraphRun.DeviceLinksAreDecided | hwprivacy-daemon/src/main.rs:450-465 | after every update of every run each live link out of or into a listed device is marked decided, and handed out if and only if it is not taken for a decided one |
| GraphRun.BackInOneBlockIsHidden | hwprivacy-daemon/src/link_audit.rs:143-166 | one input of that case: without a serial, a link that leaves and returns within one block is reported new and still not decided |
| Enforcement.GroupLinks | hwprivacy-daemon/src/main.rs:214-234 | the growing group list is the fold of the matches |
| Enforcement.GroupsAreClasses | hwprivacy-daemon/src/main.rs:214-234 | groups are exactly the classes of equal category, device node and stream node, each with all its ids in order, and is decided by one of its own members |
| Enforcement.EachLinkInAGroup | hwprivacy-daemon/src/main.rs:214-234 | every pending link lands in a group |
| Enforcement.NoLinkInTwoGroups | hwprivacy-daemon/src/main.rs:214-234 | and in no second one |
| Enforcement.EachLinkOnce | hwprivacy-daemon/src/main.rs:214-234 | in short, every pending link sits at exactly one place of exactly one group |
| Enforcement.GroupIsClass | hwprivacy-daemon/src/main.rs:205-234 | two links share a group exactly when category, device node and stream node agree |
| Enforcement.GroupFateIsOwnFate | hwprivacy-daemon/src/main.rs:496-718 | the fate of a group is the fate each of its links has by itself |
| Enforcement.Enforce | hwprivacy-daemon/src/main.rs:496-718 | link by link: tracked if and only if the category is guarded, block-all is off and the permission is to allow, or to allow while in use with a session live; destroyed if and only if guarded and not tracked; the environment may change between groups |
| Pipeline.PendingCanBeEnforced | hwprivacy-daemon/src/main.rs:494-507 | in every run what is handed to the decision path has distinct links and one description per stream, so the above applies |
| Pipeline.HandleUpdate | hwprivacy-daemon/src/main.rs:450-718 | one update from the ledger to the links: a link between a device and a node that is not taken for a decided one is destroyed if and only if the category is guarded and the node's application may not use it now, and kept if and only if it may; no other link is touched |
| Pipeline.SetThenHandle | hwprivacy-common/src/config.rs:474-543 | a rule just set decides the next update: every such link of an application whose name has the stored key is destroyed on a denial or a question and kept on an allowance; every other is decided as before |
| Pipeline.VerifyDenial | hwprivacy-daemon/src/link_audit.rs:241-261 | the retry destroys exactly the denied links that are still there under their own serial, and reports exactly those that outlive it |
| Names.NormalizeAppName | hwprivacy-common/src/config.rs:916-950 | the loop computes the key |
| Names.NormalizeIdempotent | hwprivacy-common/src/config.rs:916-950 | normalising a key again changes nothing, for every string |
| Names.CaseIsIrrelevant | hwprivacy-common/src/config.rs:916-950 | names that differ only in letter case have one key |
| Names.AnnotationIsIrrelevant | hwprivacy-common/src/config.rs:916-950 | a name with a trailing ` [note]` has the key of the name, if and only if the note does not make an ALSA form of a name that has none |
| Names.SanitizedIsNormal | hwprivacy-common/src/config.rs:952-986 | every accepted rule name is already a key |
| Names.PidIsCutOff | hwprivacy-common/src/config.rs:952-966 | a pasted `(pid:N)` is cut off whole, with the space before it |
| Names.OnlyNumbersAreCutOff | hwprivacy-common/src/config.rs:952-966 | what is in the parentheses and no number stays part of the name |
| Names.WrittenKeyIsLookedUp | hwprivacy-common/src/config.rs:952-986 | the key a name is stored under is the key it looks up, if and only if no `(pid:N)` was cut off outside the ALSA form |
| Rules.Config.SetRule | hwprivacy-common/src/config.rs:474-543 | refuses, writing nothing, a name no key can match and a camera session; otherwise writes one opinion of one rule |
| Rules.Config.SetRuleExe | hwprivacy-common/src/config.rs:588-618 | attaches or clears the binary of an existing rule, or changes nothing |
| Rules.Config.RemoveRule | hwprivacy-common/src/config.rs:634-645 | drops every rule of that key and says whether any was |
| Rules.Config.ApplyPreset | hwprivacy-common/src/config.rs:620-632 | appends the planned rules whose name still has none and counts them |
| Rules.SetAnswers | hwprivacy-common/src/config.rs:456-543 | after an accepted set the key and category answer the new permission and every other key and category answers as before |
| Rules.SetAnswersForItsOwnName | hwprivacy-common/src/config.rs:456-543 | the name itself is answered the new permission, unless a pid was cut off outside the ALSA form, when the old answer stays |
| Rules.RemoveAnswers | hwprivacy-common/src/config.rs:456-472 | after a removal the name falls through to the default and no other name notices |
| Rules.AnswerIs | hwprivacy-common/src/config.rs:436-466 | the first rule with the key of the name answers, and an opinion it lacks is the default |
| Rules.SetExeWrites | hwprivacy-common/src/config.rs:588-618 | the rule of that name holds the path as given, or none for the empty one; nothing else about it and no other rule moves; a relative or missing path changes nothing |
| Rules.SetExeAnswers | hwprivacy-common/src/config.rs:588-618 | attaching or clearing a binary changes no permission |
| Rules.ImportAdds | hwprivacy-common/src/config.rs:620-632 | after an import a key that had a rule has the same one, and any other has the first planned rule of that key |
| Rules.ImportOnlyAdds | hwprivacy-common/src/config.rs:620-632 | an import changes no answer a rule gives and keeps keys unique |
| Presets.Plan | hwprivacy-common/src/preset.rs:130-190 | the loop computes the plan |
| Presets.PlanIsSound | hwprivacy-common/src/preset.rs:130-190 | every planned rule has a usable key without a rule, a binary that exists, and no camera grant without one |
| Presets.PlannedFor | hwprivacy-common/src/preset.rs:130-190 | for each application: skipped exactly for the reason given, else planned with its own three permissions and the first binary that exists |
| Presets.ImportAnswers | hwprivacy-common/src/preset.rs:109-190 | after an import each planned application is answered its own permission in each category, and its rule holds its binary |
| Presets.PreviewMatchesApply | hwprivacy-common/src/preset.rs:109-118 | applying a plan adds as many rules as the preview counted if and only if no two planned rules share a key |
| RuleMerge.MergeRules | hwprivacy-common/src/rule_merge.rs:124-217 | the resulting rules, or the first reason to refuse |
| RuleMerge.MergesExactlyWhen | hwprivacy-common/src/rule_merge.rs:124-197 | a merge goes through exactly when both rules exist and differ, no camera session is chosen, no two binaries clash and exactly the disagreements are answered |
| RuleMerge.ReportedSplitMerges | hwprivacy-common/src/rule_merge.rs:89-197 | a reported split can be merged exactly when its conflicts, and only they, are answered without a camera session |
| RuleMerge.MergeAnswers | hwprivacy-common/src/rule_merge.rs:157-204 | afterwards one rule fewer, keys unique, the survivor owns the binary with every agreed or single opinion kept and every conflict as chosen, every other key answered as before |
| RuleMerge.MergedSplitIsGone | hwprivacy-common/src/rule_merge.rs:89-122 | no observation reports the surviving rule again |
| RuleMerge.MergeAllowlists | hwprivacy-common/src/rule_merge.rs:199-216 | an allowlist changes at most at the merged binary, which is on it exactly when the merged rule or a third rule grants |
| RuleMerge.MergeGainsOnlyTheMergedBinary | hwprivacy-common/src/rule_merge.rs:61-79 | the camera and audio lists gain at most the merged binary, and only where the merged rule allows |
| RuleMerge.EditsKeepUnique | hwprivacy-common/src/config.rs:474-645 | no run of sets, binary changes, removals, imports and merges ever gives two rules one key |
| RuleMerge.ApplyAll | hwprivacy-common/src/config.rs:474-645 | edit after edit by the operations themselves, unique keys stay unique |
| KernelPolicy.DedupByPath | hwprivacy-common/src/config.rs:702-706 | each path once, at its first place |
| KernelPolicy.AllowlistMeans | hwprivacy-common/src/config.rs:682-768 | a list names a binary exactly when some rule for it grants, and once |
| KernelPolicy.AudioServerIs | hwprivacy-common/src/config.rs:887-898 | a recognised audio server is a path that is, or ends after a slash in, one of the three names |
| KernelPolicy.AudioBackstopBlocker | hwprivacy-common/src/config.rs:819-868 | nothing blocks exactly when a recognised audio server is on the audio list |
| KernelPolicy.IntendedPolicy | hwprivacy-daemon/src/lsm_client.rs:224-268 | one entry a path; camera bit if and only if a rule allows it or is in use, audio bit if and only if a rule allows the microphone; the backstop only with an audio server holding the audio bit |
| PolicyPush.WantedMeans | hwprivacy-lsm/src/main.rs:795-820 | an executable is wanted exactly when an entry has an absolute path with it behind, and has a bit exactly when such an entry carries it |
| PolicyPush.UnresolvedAre | hwprivacy-lsm/src/main.rs:795-820 | reported as unresolved: exactly the paths that are not absolute, and the absolute ones with no file behind them |
| PolicyPush.ReplacePolicy | hwprivacy-lsm/src/main.rs:795-840 | succeeds exactly when old and new keys fit together, and then the map is the wanted one; otherwise the map is full of the old entries with a part of the wanted ones over them; every state on the way is recorded, one map operation apart, and lies between old and new |
| PolicyPush.PushCaptureMinors | hwprivacy-lsm/src/main.rs:877-913 | gone minors are removed before current ones are added; succeeds exactly when the current ones fit, otherwise the map is full of current ones; every state on the way recorded and lying between |
| PolicyPush.SetPolicy | hwprivacy-lsm/src/main.rs:692-777 | the whole request: which reply, exactly; after success the requested maps, flags and cache; after a failure exactly what is left (a policy partly written over the old one, or the new policy with the minors full), with the configuration, flags and cache as they were; every state on the way recorded, one map operation apart, and between old and new |
| PolicyPush.GrantedInBothIsNeverDenied | hwprivacy-lsm/src/main.rs:788-794 | an executable granted before and after is never denied in between |
| PolicyPush.GrantedInNeitherIsDenied | hwprivacy-lsm/src/main.rs:788-794 | one granted in neither is denied throughout if enforcement is on before and after |
| PolicyPush.OpensDuringAPush | hwprivacy-lsm/src/bpf/devices.bpf.c:254-280 | both, as verdicts of an open of a camera or a capture device that runs at any point of a push |
| PolicyCache.ParsePerms | hwprivacy-lsm/src/policy.rs:46-58 | the loop computes the bits of a word, none if any part is unknown |
| PolicyCache.PermsRoundTrip | hwprivacy-lsm/src/policy.rs:29-58 | printing and parsing keeps exactly the two known bits |
| PolicyCache.PartsMean | hwprivacy-lsm/src/policy.rs:46-58 | a list of words is understood exactly when each is one of the three, and carries exactly the bits they say |
| PolicyCache.BarePathIsCamera | hwprivacy-lsm/src/policy.rs:137-160 | a bare absolute path grants the camera |
| PolicyCache.WordAndPath | hwprivacy-lsm/src/policy.rs:137-160 | a word and a path grant the word's bits, or nothing if the word is not understood |
| PolicyCache.CommentIsIgnored | hwprivacy-lsm/src/policy.rs:137-143 | what follows a `#` is no part of a line |
| PolicyCache.Parse | hwprivacy-lsm/src/policy.rs:137-173 | the entries of a file are its grants whose path is absolute and resolves; unresolved are the others and the paths after unknown words |
| PolicyCache.RenderCache | hwprivacy-lsm/src/policy.rs:213-231 | comment lines, then one line an entry |
| PolicyCache.CacheRoundTrip | hwprivacy-lsm/src/policy.rs:137-231 | the cache reads back exactly the entries written if and only if every path is non-empty, trimmed and free of newline and `#` |
| PolicyCache.LoadIsAPush | hwprivacy-lsm/src/policy.rs:197-203 | whatever a file grants, the map loaded from it is the map a push of those grants installs |
| PolicyCache.BootEqualsPush | hwprivacy-lsm/src/main.rs:749-766 | the next boot enforces the map the last push installed |
| FullPush.PushIntended | hwprivacy-daemon/src/lsm_client.rs:224-268 | after an applied push the kernel denies a camera, and a capture device, exactly when the configuration says so; the audio server that allows the backstop is never denied |
| FullPush.PushThenOpen | hwprivacy-lsm/src/bpf/devices.bpf.c:209-280 | and so the open hook answers: after the push an open nobody denied before is refused if and only if there is an executable and the configuration refuses it that camera or that capture device |
| FullPush.SameFingerprintSamePolicy | hwprivacy-daemon/src/lsm_client.rs:133-150 | an unchanged fingerprint means an unchanged map and flags, so the skipped push would have changed nothing |
| Kernel.Hooks.Verdict | hwprivacy-lsm/src/bpf/devices.bpf.c:254-280 | the verdict on one open |
| Kernel.Hooks.FileOpen | hwprivacy-lsm/src/bpf/devices.bpf.c:209-356 | the open hook: an earlier denial stands; else -EPERM exactly when there is an executable and the policy denies it this major and minor; tracked handles, bursts and event, all at once |
| Kernel.DeniedOpenIff | hwprivacy-lsm/src/bpf/devices.bpf.c:209-280 | the open is denied if and only if nobody denied it before, there is an executable and the policy denies it that device |
| Kernel.ReportsIff | hwprivacy-lsm/src/bpf/devices.bpf.c:304-353 | which opens are reported, in numbers: those of the two majors with an executable and a configuration, unless a burst of theirs started less than a window ago; with the device, the verdict and what the burst had counted |
| Kernel.CountedOrReported | hwprivacy-lsm/src/bpf/devices.bpf.c:304-331 | an open that is not reported adds one to its burst; one that is starts a burst of its own verdict; no other burst moves |
| Kernel.TrackedIff | hwprivacy-lsm/src/bpf/devices.bpf.c:282-301 | a handle is tracked under its executable exactly when a camera was let through and there was room, and closing it reports the release exactly if the executable held no other |
| Kernel.Hooks.FileRelease | hwprivacy-lsm/src/bpf/devices.bpf.c:370-439 | the close hook run alone |
| Kernel.DropKeepsCounted | hwprivacy-lsm/src/bpf/devices.bpf.c:384-413 | a close ends a session exactly when it drops the last handle of that executable |
| Kernel.RunKeepsCounted | hwprivacy-lsm/src/bpf/devices.bpf.c:282-301 | over every run the count of an executable is the number of its tracked handles, absent exactly when there is none |
| Kernel.EventsAreAWindowApart | hwprivacy-lsm/src/bpf/devices.bpf.c:313-331 | two open events of one executable and device class are a coalescing window apart, whatever is flushed or pushed between |
| Release.SoundIffSpared | hwprivacy-lsm/src/bpf/devices.bpf.c:384-413 | a single map operation of any interleaving keeps counts and owed releases right if and only if it is not an open while a close of the executable is about to delete the count |
| Release.GoodIffApart | hwprivacy-lsm/src/bpf/devices.bpf.c:384-413 | and it never leads to an early report if and only if it is not an open before the close has reported either |
| Release.CountIsPending | hwprivacy-lsm/src/bpf/devices.bpf.c:384-413 | at every moment the count is the handles held plus the closes that have not decremented it |
| Release.CountIsExactAtRest | hwprivacy-lsm/src/bpf/devices.bpf.c:282-301 | with no close of the executable under way it is the number of its tracked handles |
| Release.NoReleaseWhileHeld | hwprivacy-lsm/src/bpf/devices.bpf.c:393-413 | over every interleaving with no open between a zero and its report, no release event while a tracked handle of the executable is held |
| Release.ReleaseIsNeverMissed | hwprivacy-lsm/src/bpf/devices.bpf.c:393-413 | over every interleaving with no open between a zero and its deletion: between an open and a moment with no handle of its executable left and no close of it under way a release event was reported, at a moment when no handle was held |
| Release.CloseAlwaysEnds | hwprivacy-lsm/src/bpf/devices.bpf.c:370-439 | a close can always go on, ends after at most six operations and disturbs no other |
| Release.AloneIsDrop | hwprivacy-lsm/src/bpf/devices.bpf.c:370-439 | run without interleaving the single operations are the close hook as one step |
| Release.OpenIsTrack | hwprivacy-lsm/src/bpf/devices.bpf.c:286-301 | and the open step is there exactly when the open hook's tracking changes something, and is that change |
| Release.BothMayReport | hwprivacy-lsm/src/bpf/devices.bpf.c:393-401 | two concurrent last closes both report |
| Release.OpenBeforeTheDeletion | hwprivacy-lsm/src/bpf/devices.bpf.c:402-413 | every open between an observed zero and the deletion of the count is reported over early, and its own close reports nothing |
| Release.OpenBeforeTheReport | hwprivacy-lsm/src/bpf/devices.bpf.c:413-415 | every open between the deletion and the report is reported over early, and its own close reports again |
| Accounting.Daemon.LogEvent | hwprivacy-daemon/src/stream_tracker.rs:157-196 | the log's own count of denials |
| Accounting.Daemon.Record | hwprivacy-daemon/src/history.rs:195-221 | saturating addition to one row, none for a zero record |
| Accounting.Daemon.HandleEvent | hwprivacy-daemon/src/lsm_client.rs:557-690 | the counting of one kernel event: summary, open, release, unknown role |
| Accounting.EventIsWorth | hwprivacy-daemon/src/lsm_client.rs:557-690 | what one event adds to which row and to the counter: a camera's or microphone's denials, a camera's allowances, a microphone's only in a summary, nothing else |
| Accounting.Daemon.LogDenied | hwprivacy-daemon/src/state.rs:92-113 | counter and table move together |
| Accounting.Daemon.LogAllowed | hwprivacy-daemon/src/state.rs:120-142 | an allowed link moves only the allowed column |
| Accounting.DeniedColumnGrows | hwprivacy-daemon/src/history.rs:195-221 | over every mix of kernel events, summaries, releases and PipeWire decisions the denied column grows by the denied opens alone if and only if no row saturates, and otherwise by less |
| Accounting.BlockedCountsDenials | hwprivacy-daemon/src/lsm_client.rs:646-685 | over every such mix the blocked counter grows, in 32-bit arithmetic, by the denied opens, saturated rows or not |
| Accounting.BlockedFollowsTheTable | hwprivacy-daemon/src/lsm_client.rs:646-685 | so in every run in which no row saturates the counter grows by exactly what the denied column grows by |
| Conservation.FlushStaleBursts | hwprivacy-lsm/src/main.rs:953-1045 | exactly the bursts with opens counted that started more than a window before now get one summary each, with their verdict and number, and are cleared; no other burst moves; the total is their sum |
| Conservation.QuietBurstIsSwept | hwprivacy-lsm/src/event.rs:186-188 | over every run: when for longer than a window an executable has opened no device of a class, the next flush leaves none of its opens counted in the kernel |
| Accounting.AllowedColumnGrows | hwprivacy-daemon/src/lsm_client.rs:1002-1010 | over the same runs the allowed column grows by the allowed opens recorded and by nothing denied if and only if no row saturates, and otherwise by less |
| Conservation.OpensAreConserved | hwprivacy-lsm/src/main.rs:953-1045 | over every run: camera opens made = recorded denied and allowed + on their way + still counted in the kernel + lost with a full ring |
| Conservation.DeliveredOpensAreRecorded | hwprivacy-lsm/src/main.rs:953-1045 | over every run: once everything is delivered the two columns have gained exactly the camera opens made, but for those lost with a full ring |
| Conservation.ColumnsAreExact | hwprivacy-daemon/src/lsm_client.rs:1002-1073 | with an unchanging verdict per executable each column is exact by itself |
| Conservation.StepKeepsBooks | hwprivacy-lsm/src/main.rs:1034-1041 | flushing, forwarding, recording, closing and pushing lose and invent no open |
| Conservation.ClosingReleases | hwprivacy-lsm/src/bpf/devices.bpf.c:370-439 | a close raises a release exactly if it drops the executable's last tracked handle and the ring has room |
| Conservation.ForwardedIff | hwprivacy-lsm/src/main.rs:494-535 | the helper passes on exactly the events of cameras and microphones, in order, each with its process, verdict and the opens it carries, a release as a release |
| Conservation.ColumnsStayExactIff | hwprivacy-lsm/src/bpf/devices.bpf.c:313-331 | one camera open keeps both columns exact if and only if it meets no burst of the other verdict, or closes one with nothing counted |
| Conservation.UnmixedColumnsAreExact | hwprivacy-lsm/src/bpf/devices.bpf.c:313-331 | over every run whose opens all do, each column is exact |
| Conservation.RevokedMidBurst | hwprivacy-lsm/src/bpf/devices.bpf.c:313-331 | one way to fail it, with the amounts: the counter of an allowed burst is carried off by a denied open |
| DeviceIndex.Resolver.ScanDir | hwprivacy-lsm/src/device_index.rs:102-140 | one directory read into the index: in `/dev` names starting with `video` only, the two majors only, a later entry over an earlier one |
| DeviceIndex.Resolver.Lookup | hwprivacy-lsm/src/device_index.rs:165-171 | a miss reads both directories again, a hit changes nothing; the answer is what the index then holds |
| DeviceIndex.ClassifyIs | hwprivacy-lsm/src/device_index.rs:226-249 | a camera by its major; a sound device by its name: capture, playback, control, or none of them |
| DeviceIndex.CameraLabelIff | hwprivacy-lsm/src/device_index.rs:102-171 | an event is labelled a camera's if and only if its major is the camera's and its number was known or is now borne by a node the scan takes |
| DeviceIndex.MicrophoneLabelIff | hwprivacy-lsm/src/device_index.rs:102-171 | an event is labelled a microphone's if and only if its device was known as a capture node, or was unknown and its last entry in `/dev/snd` is one now |
| DeviceIndex.CaptureMinorsAre | hwprivacy-lsm/src/device_index.rs:155-163 | the minors handed to the kernel are exactly those whose last entry in `/dev/snd` is a PCM capture node |
| Conservation.ForgottenIffUnnamed | hwprivacy-lsm/src/main.rs:494-511 | delivering a camera open's event keeps both books if and only if its number was known or is borne by a node the scan takes; no other event is taken for a camera's |
| Conservation.AudioSummariesAreIgnored | hwprivacy-daemon/src/lsm_client.rs:557-565 | a capture-device summary reaches neither counter nor table |
| Sessions.StreamTracker.BeginSession | hwprivacy-daemon/src/stream_tracker.rs:232-242 | a new or renewed grant waits for its first open |
| Sessions.StreamTracker.MarkSessionOpened | hwprivacy-daemon/src/stream_tracker.rs:252-264 | opens a waiting session once and says so |
| Sessions.StreamTracker.RefreshSession | hwprivacy-daemon/src/stream_tracker.rs:273-279 | restarts the window of an open session only |
| Sessions.StreamTracker.ExpireSessions | hwprivacy-daemon/src/stream_tracker.rs:362-392 | removes exactly what has ended and returns it |
| Sessions.RefusedIffUnanswered | hwprivacy-daemon/src/stream_tracker.rs:133-144 | over every run of claims and answers a claim is refused if and only if an earlier claim of the same application and device has no answer since |
| Sessions.OneQuestionAtATime | hwprivacy-daemon/src/stream_tracker.rs:133-144 | between two granted claims of one application and device the first was answered |
| Sessions.LiveListIsExact | hwprivacy-daemon/src/stream_tracker.rs:330-355 | what is listed is exactly what counts as live |
| Sessions.LiveListIsAccepted | hwprivacy-daemon/src/stream_tracker.rs:291-355 | at any moment of any run the listed keys are exactly those `session_live` accepts under their stored names |
| Sessions.LiveIffSurvives | hwprivacy-daemon/src/stream_tracker.rs:291-392 | a session counts as live if and only if an expiry without a bound on waiting would leave it |
| Sessions.ExpireLeavesLive | hwprivacy-daemon/src/stream_tracker.rs:362-392 | right after an expiry, at any moment of any run, every remaining session is live |
| Sessions.WhatExpires | hwprivacy-daemon/src/stream_tracker.rs:372-386 | an open session ends exactly without a link and past its window, a waiting one exactly by its own bound |
| Sessions.AllowlistFollowsSessions | hwprivacy-common/src/config.rs:720-735 | right after an expiry, at any moment of any run, the camera list names exactly the binaries of the rules that allow outright and of the `while_in_use` rules whose session exists |
| Sessions.ExistsIffStanding | hwprivacy-daemon/src/stream_tracker.rs:232-392 | over every run a session exists if and only if it was begun and not ended since |
| Sessions.GrantDoesNotOutliveUse | hwprivacy-daemon/src/stream_tracker.rs:356-392 | after an expiry each session has a remembered connection, or was used within the window, or was granted within the bound |
| Sessions.EndsIffOver | hwprivacy-daemon/src/stream_tracker.rs:356-392 | in every run a session ends with a step if and only if it is released, or an expiry comes and: never opened, with every grant older than the bound, if there is one; or opened, with no connection up and every use at least the window back |
| Connections.AllowedIff | hwprivacy-daemon/src/main.rs:494-580 | in every turn of every run a link becomes a connection, of its own application and device category, if and only if the ledger hands it out, the category is guarded, block-all is off and the application may use the device now |
| Connections.UnallowedIff | hwprivacy-daemon/src/main.rs:494-580 | so one is not allowed if and only if it is on no protected device, or is taken for a decided one, or the application may not use the device |
| Connections.NewMeansNotTheSame | hwprivacy-daemon/src/pipewire_monitor.rs:172-194 | an id held before and after an update is reported new if and only if the link was gone or under another serial in between; a re-seed reports every id |
| Connections.RunIsDated | hwprivacy-daemon/src/main.rs:819-835 | over every run the connections' ids are link ids of the graph, remembered for a link reported in the past |
| Connections.LeftoverIff | hwprivacy-daemon/src/main.rs:819-835 | over every run, serials or not, a connection is for a link that is gone if and only if in some turn its id was reported new and the newcomer not allowed, and since then no link under the id was allowed and the id did not go |
| Connections.SurvivesOnlyByALink | hwprivacy-daemon/src/stream_tracker.rs:362-392 | in every run an open session past its window survives an expiry if and only if the application holds a connection for a link now in the graph, or one that outlived its link in that way |
| Connections.Prune | hwprivacy-daemon/src/main.rs:826-835 | exactly the connections whose id is a link of the graph remain |
| Connections.TurnedIsPruned | hwprivacy-daemon/src/main.rs:819-835 | adding the allowed links and pruning is the turn the theorems above speak of |
| Socket.StepKeepsGood | hwprivacy-lsm/src/socket.rs:82-256 | every step of every thread keeps the invariants, among them those of the replies and of the events |
| Socket.OneForwarder | hwprivacy-lsm/src/socket.rs:168-185 | at most one forwarder ever holds the event receiver |
| Socket.EveryLineGotItsReply | hwprivacy-lsm/src/socket.rs:187-248 | each non-blank line gets one reply, its own, in order, and those are what the peer was written, unless a write failed or the main loop is gone |
| Socket.NoRequestIsLost | hwprivacy-lsm/src/socket.rs:213-228 | over every run each request read is with the main loop, answered, or dropped by it, unless the main loop is gone |
| Socket.RequestsAreNumbered | hwprivacy-lsm/src/socket.rs:213-216 | over every run each request has its own reply channel, so an answer is one request's only |
| Socket.GivesUpIff | hwprivacy-lsm/src/socket.rs:187-248 | a connection is given up exactly when the input ends, a client of another version says hello, the main loop is gone or drops the request, or the writer is gone; blank and garbled lines and late answers leave it open |
| Socket.WaitingGoesOn | hwprivacy-lsm/src/socket.rs:220-246 | waiting for an answer never hangs, and an answer that has come is the one that is told |
| Socket.EveryEventIsForwarded | hwprivacy-lsm/src/socket.rs:149-181 | at every moment of every run each event emitted was received by one forwarder, in order, or is still queued; and unless a write failed, what a forwarder received is written, on its way to the writer or in its hands, in order |
| Socket.ForwardersGoOn | hwprivacy-lsm/src/socket.rs:161-177 | over every run a forwarder ends only when told to stop, or when the main loop or its writer is gone |
| Socket.EveryEventReachedItsPeer | hwprivacy-lsm/src/socket.rs:149-181 | when a connection is over and no write failed, its peer was written exactly the events its forwarder received |
| Socket.PeersGetPrefixes | hwprivacy-lsm/src/socket.rs:122-136 | whatever happens, a peer is written its replies and its events in order with none left out |
| Socket.ShutdownDecreases | hwprivacy-lsm/src/socket.rs:250-256 | every step of the server's threads brings a shutdown nearer its end and nothing outside sets it back |
| Socket.LockIsFree | hwprivacy-lsm/src/socket.rs:168-185 | a new connection's forwarder never waits for an old one |
| Socket.ShutdownHaltsOnlyOnAStalledPeer | hwprivacy-lsm/src/socket.rs:250-256 | during a shutdown some thread can go on if and only if it is not a write to a peer that neither reads nor closes |
| Socket.ShutdownIsBounded | hwprivacy-lsm/src/socket.rs:250-256 | a run that is shutting down throughout has no more server steps than the measure of its first state |
| Socket.ShutdownEnds | hwprivacy-lsm/src/socket.rs:250-256 | every run from a shutdown in which the server's threads go on as long as they can comes back to the accept loop, both joins done, or ends stuck on a peer that stalls a write |

## Left out

- GUI, TUI, CLI, tray, D-Bus, notifications and journal text: presentation. A prompt's answer is an arbitrary rule edit or session step.
- Spawning `pw-dump`, `pw-link` and `pw-cli`, `stat`, `/proc`, directory reading and file access: results are parameters; a destroyed link is a recorded id.
- JSON and TOML parsing: the splitter takes the parser as a function parameter; graph objects are JSON values.
- Lowercasing is ASCII; the code lowercases all of Unicode.
- The splitter's depth is unbounded; the code's is a 32-bit signed integer.
- Hash maps are walked in arbitrary order; the sorted order of the pushed entries, the session list and the split list is not modelled (`FindRuleSplits` and `LiveSessions` give a set and a map).
- The byte layouts of map keys, map values and events, and the glibc to kernel device number conversion: records and a function parameter.
- The link counter for denied links found alive is carried but never incremented: the reporting around `verify_denial` is not modelled.
- Kernel.Hooks.FileOpen: one run of the open hook is one step, and the count and coalesce maps have room; the hook's own races and full maps are not modelled, the full handle table and the full ring are.
- Release.ReleaseIsNeverMissed: counts are unbounded integers, and the claim is for runs with no open of an executable between a close's zero and its deletion of the count; `Release.SoundIffSpared` shows that premise exact.
- Conservation.OpensAreConserved: for fewer than 2^32 opens and rows, with camera nodes known to the helper, a daemon connected and one flush of one entry as a step; the daemon's wire is a queue without loss.
- Conservation.ColumnsAreExact: needs an unchanging verdict per executable, which is more than necessary; `Conservation.ColumnsStayExactIff` has the exact condition.
- Accounting.BlockedFollowsTheTable: for runs in which no row saturates; `Accounting.DeniedColumnGrows` shows when one does.
- Conservation.ForgottenIffUnnamed: the helper's `--all` option, which forwards such events with a role the daemon drops.
- Connections.LeftoverIff: a link is told from another by the graph's report that its id is new; a serial learnt later counts as such a report, as it does in the graph.
- Graph.RecuttingIsIrrelevant: not for nodes, whose client properties are those known at the end of their block.
- GraphRun.EveryProtectedLinkIsItsOwn: for links whose first block carries a serial that is not reused between seeds, the code's own premise; other links have `GraphRun.EveryProtectedLinkIsDecided` and `GraphRun.HandedIff`.
- RuleMerge.MergeAnswers: for rule lists with unique normalised keys, which every edit keeps; a hand-edited file may break them.
- PolicyCache.BootEqualsPush: the file write and rename, and the precedence of an explicit policy file or `--allow` over the cache.
- Sessions.StreamTracker.ExpireSessions: clocks never go back, and a connection's node name, permission and activity flag are left out.
- Socket.EveryLineGotItsReply: reply encoding never fails, and a failed socket clone or accept, which start no thread, are not steps.
- Hello, Ping and GetPolicy requests, and the helper's startup order: only a policy push changes the maps; `PolicyCache.LoadIsAPush` covers what a loaded file becomes.
- The event log's rows (a ring of 500): only its denial count is modelled.
- The notify-on-allow gate, dismiss cooldown, identity evidence cache, preset discovery and audio backstop report: simple guards and reporting.
