# Masterplan: models and proofs

Dafny models of the parts of masterplan whose correctness is not visible from one function body, and
proofs of what those parts promise. Each module models one source file or one verb; `dafny verify
dfyconfig.toml` checks everything.

- **Canonical JSON** (`JsonText`, `Json`, `Keys`, `Canonical`, `CanonicalOrder`, `ObjectGraph`,
  `GraphProofs`, `Diagnostic`, `DiagnosticProofs`, `Serializer`). `Canonical.Stable` is the serializer on trees, with a recursive-descent reader that
  inverts it; `ObjectGraph.Render` is the serializer on a finite graph of objects that may share, cycle,
  or throw from a getter; `Serializer` holds the recursive methods with their mutable path set. Text is a
  sequence of UTF-16 code units and string escaping follows section 7 of RFC 8259. A number is its own
  shortest text; `-0` prints as `0`.
- **Amendments** (`Lines`, `Amend`, `AmendReader`, `AmendProofs`, `TimelineProofs`, `AmendDetails`,
  `AmendRuns`, `AmendTails`, `AmendLimits`, `AmendPatterns`). The writer of the `## Amendments` section is a method with the source's loop and splice,
  proved against `Amend.Amended`; `AmendReader.Timeline` is the plan renderer's parser. Whole histories of
  amendments are read back. Where writer and reader part company is stated exactly.
- **Seeding under the repository lock** (`SeedLock`, `SeedLockProofs`, `SeedVerb`). Any number of seeds,
  review recorders, sweepers and other verbs take steps in any order, with a crash possible at each.
- **Registering agents** (`Frontmatter`, `Register`, `RegisterProofs`). The frontmatter rewriter, and the
  reconciler of the agent directory as a class, in write mode and in check mode.
- **Installing** (`Releases`, `Install`, `RegisterSteps`, `InstallHost`, `InstallProofs`, `InstallCheck`). One installer run
  is an object that records every disk it goes through; each recorded disk is a crash point.
- **The plan gate's preimage** (`GateHash`), **intent capture and phase transitions** (`Intent`,
  `IntentRuns`, `IntentEffects`, `IntentReviews`), **task states** (`TaskIds`, `Tasks`, `TaskRuns`, `TaskEffects`), **references between runs** (`Refs`,
  `RefsSerial`, `RefsEffects`, `RefsCrashes`, `RefsLocks`, `RefsRuns`, `RefsRunProofs`), **the argument parser** (`Args`).

Hashes are taken as their preimages. Clocks, process ids, the network, git and child processes are
parameters or absent. File writes, renames and links are single steps.

## Where the code and its documentation disagree

The models follow the code in each case.

- `lib/amend.mjs:14-16` says the renderer reverses the escaping of detail lines. `parseAmendments`
  (`lib/plan-merge.mjs:428-454`) never does; the timeline shows the escaped lines, trimmed at both ends and
  without carriage returns at line ends. `AmendDetails.DetailShownIff` says exactly when unescaping what it
  shows gives the detail back; that no line looked escaped before is not enough
  (`AmendDetails.LeadingBlankMisleads`).
- `lib/amend.mjs:10-17` calls the section unambiguous for the renderer. The writer ends it at one or two
  hashes and exactly one space, the renderer only at two hashes and any white space. In a plan where these
  differ the new entry is not the next one of the timeline (`AmendLimits.AppendsIffEndsAgree`).
- `bin/install-pi.mjs:203` and `bin/install-pi.mjs:233` test the drift of a registration in write mode. That
  number is always zero there (`Register.AgentDir.Write`), so the tests never fail an install.
- A release is published and current before its metadata is written. After a crash in between, further
  installs of the same commit take the idempotent path, which never writes it (`InstallProofs.Repeat`).
- `bin/masterplan.mjs:994-995` has reviews loaded without ending the process, which would leak the seed lock.
  `record-overlap-review` without `--review-file` ends it all the same (`bin/masterplan.mjs:4545`,
  `bin/masterplan.mjs:1124-1131`), between taking the lock and the code that releases it
  (`SeedLockProofs.LeakedLock`).
- A recorded gate review stands for the artifacts it was made on (`bin/masterplan.mjs:366-460`). Its key joins
  file names and contents by NULs, so that a goals.md which holds its own name between NULs shares its key
  with another spec and another goals.md (`IntentReviews.ReviewCarriesOver`).
- The claim that removing or adding a reference keeps both sides reciprocal fails for a reference of a
  bundle to itself; for a source whose slug is not the name of its directory, which seeding accepts
  (`bin/masterplan.mjs:1497-1560`) and whose links are signed with the slug (`bin/masterplan.mjs:1247`,
  `RefsSerial.MisnamedSource`); and when links of the source change between its read (`bin/masterplan.mjs:1243`,
  `bin/masterplan.mjs:4983`) and the locking (`bin/masterplan.mjs:1268`, `bin/masterplan.mjs:5005`).

## Model

| member | source | states |
|---|---|---|
| JsonText.ReadQuoted | lib/canonical.mjs:29 | Reading a quoted string gives the string back and stops right after it, whatever follows: quoting is prefix-free and loses nothing, lone surrogates included. |
| JsonText.EscapePrintable | lib/canonical.mjs:29 | Escaped text never holds a control unit. |
| Json.ParseStringify | lib/canonical.mjs:17-20 | A reader applied to the serialization of any value, followed by anything that cannot extend a number, returns that value and exactly what follows. |
| Json.StringifyUnambiguous | lib/canonical.mjs:17-20 | Two serializations followed by delimiters are equal only if both the values and what follows are. |
| Json.StringifyPrintable | lib/canonical.mjs:17-20 | JSON text never holds a control unit, in particular no NUL. |
| Keys.SortCanonical | lib/canonical.mjs:51-52 | The sorted listing of property names depends on the set of names alone. |
| CanonicalOrder.LessIff | lib/canonical.mjs:51-52 | A name sorts before another if and only if it is a proper prefix of it or has the smaller code unit where they first differ. |
| Canonical.StableIsStringify | lib/canonical.mjs:19-20 | The canonical text is the ordinary serialization of the value with its names sorted at every level. |
| Canonical.ParseStable | lib/canonical.mjs:25-58 | Reading the canonical text, before any delimiter or the end, returns the key-sorted value and the exact remainder. |
| CanonicalOrder.ReadsOrdered | lib/canonical.mjs:50-55 | In the value read back from canonical text, at every level, each name of an object precedes the next in that order. |
| CanonicalOrder.Leaves | lib/canonical.mjs:27-36 | What null, booleans, numbers, minus zero and strings are rendered as, character by character. |
| CanonicalOrder.ShortEscapes | lib/canonical.mjs:29 | The short escapes inside a string. |
| CanonicalOrder.OtherEscapes | lib/canonical.mjs:29 | Every other control unit or half of a surrogate pair is written as four small hexadecimal digits of its value, every other unit as it is. |
| Canonical.StableIdentity | lib/canonical.mjs:1-4 | Two values have the same canonical text if and only if they are equal up to the order of object members. |
| Canonical.StableUnambiguous | lib/canonical.mjs:25-58 | In a larger text, equal canonical texts followed by delimiters come from values equal up to member order. |
| Canonical.StableIdempotent | lib/canonical.mjs:25-58 | The key-sorted value has the same canonical text as the original. |
| GraphProofs.FailsIffUnserializable | lib/canonical.mjs:31-45 | Serialization fails if and only if a path from the root revisits an object on it or ends in a value that is not JSON or in a throwing getter; sharing alone never fails. |
| GraphProofs.RejectedFor | lib/canonical.mjs:31-45 | A rejection names the kind of failure, or the getter's message, at the end of a bad path from the value. |
| GraphProofs.FirstItemDecides | lib/canonical.mjs:49 | Of several items that cannot be rendered the first decides. |
| GraphProofs.FirstNameDecides | lib/canonical.mjs:51-54 | Of several properties that cannot be rendered the first in name order decides. |
| GraphProofs.RenderIsUnfolding | lib/canonical.mjs:25-58 | It succeeds with a text if and only if the value unfolds to a finite tree whose canonical text that is. |
| GraphProofs.IdentityIsUnfoldedSameness | lib/canonical.mjs:1-4 | Accepted values of any two graphs get the same text if and only if they unfold to the same tree up to member order. |
| Serializer.StableStringify | lib/canonical.mjs:25-58 | The recursive method over the graph terminates, restores its path set on success, and returns exactly what the graph specification says, accepted or rejected. |
| Serializer.StringifyAt | lib/canonical.mjs:43-57 | One recursive call: the result under the given path set, and the path set as it was whenever it returns normally. |
| Serializer.DiagnosticStringify | lib/canonical.mjs:69-113 | The diagnostic twin returns on every finite graph, cyclic ones and throwing getters included, with the canonical text whenever that exists. |
| Diagnostic.DiagAgrees | lib/canonical.mjs:66-67 | Under any path set, wherever the strict serializer succeeds both give the same text. |
| Diagnostic.DiagnosticCollision | lib/canonical.mjs:13-20 | Why the twin is no identity: a BigInt renders there exactly as an ordinary string does. |
| DiagnosticProofs.DiagIsExhibit | lib/canonical.mjs:61-113 | The diagnostic text is the canonical text of the one tree that shows the value with a string for whatever JSON cannot express: a throwing property, a cycle or a value that is not JSON costs only itself. |
| DiagnosticProofs.PlaceholderTexts | lib/canonical.mjs:84-105 | A BigInt's digits and a getter's message stand in their placeholders unescaped. |
| Amend.AmendPlan | lib/amend.mjs:63-116 | The writer with its scan, its walk back over blank lines and its splice returns exactly the specified refusal or text. |
| AmendRuns.AcceptedIff | lib/amend.mjs:67-85 | An amendment is accepted if and only if the run is open, there is a plan, the summary is neither blank nor broken over lines nor a heading, and the date is not blank. |
| AmendRuns.RefusedFor | lib/amend.mjs:67-85 | A refusal names the first of these that fails. |
| AmendRuns.ForgedHeadingRefused | lib/amend.mjs:76-78 | A summary with an entry heading behind a line break is refused. |
| Amend.UnescapeEscape | lib/amend.mjs:31-40 | Unescaping an escaped line gives it back if and only if it did not already look escaped. |
| AmendProofs.DetailFacts | lib/amend.mjs:14-16 | No written detail line begins with a hash, so none can be taken for an entry heading or a section boundary, and the entry ends in a line that is not blank. |
| Amend.FirstUseText | lib/amend.mjs:96-99 | Creating the section as text is adding its lines. |
| AmendProofs.HeadReadsBack | lib/amend.mjs:26 | A written entry heading is parsed back to its date and its summary. |
| AmendPatterns.HeadingIff | lib/amend.mjs:20-23 | Which lines open the section, as the pattern reads: two hashes, white space, the word, white space. |
| AmendPatterns.BoundaryIff | lib/amend.mjs:28-29 | Which lines end the section for the writer: one or two hashes, one space, and no white space next. |
| AmendPatterns.BreakIff | lib/plan-merge.mjs:439 | Which lines end it for the reader: two hashes and any white space. |
| AmendPatterns.HeadIff | lib/plan-merge.mjs:440-442 | Which lines are entry headings for the reader, and with what text. |
| AmendPatterns.FieldsExactly | lib/plan-merge.mjs:443-446 | Heading text is cut at its first dash between white space, and both parts are trimmed. |
| AmendPatterns.NoFields | lib/plan-merge.mjs:443-446 | Heading text without such a dash is all summary, with no date. |
| AmendProofs.InsertsOneBlock | lib/amend.mjs:100-113 | With the section present, the new lines are the old ones with a blank line and the entry inserted after the section's last line that is not blank and before its end; every other line is kept in order up to white space at the end of the text. |
| TimelineProofs.AmendAppends | lib/amend.mjs:92-113 | On a plan without the section, or on whose section end writer and reader agree, an amendment appends exactly its entry to the parsed timeline and leaves such a plan. |
| AmendRuns.HistoryReadsBack | lib/amend.mjs:63-116 | Every list of accepted amendments reads back as its entries, in order, newest last, after what the timeline held before: each with its date and summary, and with a detail that unescapes to the one given if and only if that is plain. |
| AmendRuns.FreshHistoryReadsBack | lib/amend.mjs:96-111 | From a plan without the section, the timeline is exactly the accepted amendments, with the same exact condition on each detail. |
| AmendDetails.DetailRecovered | lib/amend.mjs:31-45 | Unescaping the lines written for a detail gives the detail back, up to white space at its end, if and only if none of its lines already looked escaped. |
| AmendDetails.DetailShownIff | lib/plan-merge.mjs:428-454 | Unescaping the detail the timeline shows gives the detail back, up to white space at its end, if and only if it is blank, or does not start with white space and none of its lines looked escaped or ends in a carriage return. |
| AmendDetails.LeadingBlankMisleads | lib/plan-merge.mjs:453 | A detail none of whose lines looks escaped and which does not come back: the reader trims its leading blank first. |
| AmendLimits.AppendsIffEndsAgree | lib/plan-merge.mjs:434-454 | On any plan that has the section, an amendment appends exactly its entry if and only if writer and reader end the section at the same line. |
| AmendLimits.EntryHidden | lib/plan-merge.mjs:440-442 | If the reader's end comes first, the timeline does not change at all. |
| AmendLimits.EndsCanDisagree | lib/amend.mjs:28-29 | A level-one heading after the section ends it for the writer alone. |
| AmendLimits.AmendmentMisread | lib/amend.mjs:28-29 | A concrete plan whose timeline an amendment does not extend by its entry. |
| AmendLimits.AmendedIsTidy | lib/amend.mjs:112-113 | Every amended plan ends in exactly one newline. |
| SeedLockProofs.OneAtATime | lib/seed-lock.mjs:61-97 | In every run, whoever is inside its transaction owns the lock at every moment if and only if no sweep ever unlinks the lock while someone is inside; and then no two processes are ever inside at once. |
| SeedLockProofs.CarefulSweepsAreEnough | lib/sweep.mjs:144-158 | Sweeps on the owner's host that do not overlap never unlink the lock while someone is inside. |
| SeedLockProofs.NothingBetween | bin/masterplan.mjs:996-1026 | In every run in which no lock is unlinked under a process inside, nothing commits between the digest check of a seed or review and its own commit. |
| SeedLockProofs.CommitsExactly | bin/masterplan.mjs:1615-1660 | The commits of a run are exactly the state files seeds write and the reviews recorded; no other step of theirs changes a state file. |
| SeedLockProofs.DigestsDiffer | bin/masterplan.mjs:984-991 | In every such run no commit follows a seed of a new slug on the inventory that seed was judged on: two such seeds never commit on the same digest. |
| SeedLockProofs.UnforcedIsFirst | bin/masterplan.mjs:1615-1618 | In every such run a seed without --force never replaces a bundle. |
| SeedLockProofs.BeginsIff | bin/masterplan.mjs:1502-1613 | A verb enters its transaction exactly when the lock is free and it is not an unforced seed of an existing bundle; otherwise it has touched nothing. |
| SeedLockProofs.LedgersOpen | bin/masterplan.mjs:1630-1652 | In every such run a ledger completed by a seed begins, until a forced seed replaces it, with what others logged before its creation event, that event, what others logged before its review, and the review; so it opens with bundle_created and overlap_review if and only if nobody logged there meanwhile, unless what was logged is itself such an event. |
| SeedLockProofs.RefusedWroteNothing | bin/masterplan.mjs:1615-1629 | In every run whatsoever, a seed or review that ends refused, or for want of its file, has changed no state file and no ledger. |
| SeedLockProofs.EndedHoldsIff | bin/masterplan.mjs:4529-4556 | In every run whatsoever, a process that has ended holds the lock if and only if it is a review started without its file that got the lock and whose lock no sweep has unlinked since. |
| SeedLockProofs.LeakedLock | bin/masterplan.mjs:4545 | record-overlap-review without its file ends and leaves the lock taken. |
| SeedLockProofs.LeakStopsAll | bin/masterplan.mjs:4537-4542 | Until a sweep such a lock stays taken, nobody gets inside and nothing commits. |
| SeedLockProofs.TwoSweepsBreakTheLock | lib/sweep.mjs:144-158 | Two overlapping sweeps of one dead lock can unlink a live seed's lock: two seeds are then inside at once. |
| SeedLockProofs.TwoSweepsCommitTwice | lib/sweep.mjs:144-158 | ... and both commit new bundles on the same inventory. |
| SeedLockProofs.ForeignSweepBreaksTheLock | lib/seed-lock.mjs:120-126 | One sweep on another host looks for the owner's process there, unlinks a live seed's lock, and two seeds are inside at once. |
| SeedLockProofs.LoggedDuringBirth | bin/masterplan.mjs:1630-1652 | An event another session logs during a seed's creation leaves a completed ledger that begins with it. |
| SeedLockProofs.ArchivedSeedBreaks | lib/bundle.mjs:90-111 | A seed that asks for an archived bundle fails after writing its state and leaves an empty ledger. |
| SeedVerb.SeedAlone | bin/masterplan.mjs:1594-1658 | Run alone, a seed leaves everything as it was when validation refuses it; otherwise exactly the new state and first events, or, asked for an archived bundle, an empty ledger; the lock is free in every case. |
| SeedVerb.Repository.Seed | bin/masterplan.mjs:1594-1658 | The verb's statements do exactly the steps the concurrent model interleaves. |
| SeedVerb.ReviewAlone | bin/masterplan.mjs:4529-4556 | Run alone, a review is appended or refused and frees the lock; without its file it changes nothing but leaves the lock taken. |
| SeedVerb.Repository.RecordReview | bin/masterplan.mjs:4529-4556 | The statements of recording a review on a resumed run, the exit under the lock included, do exactly the steps the concurrent model interleaves. |
| Frontmatter.StripShape | bin/register-pi-agents.mjs:51-57 | A text that is accepted splits at its first closing delimiter; the result drops model lines before it and is identical from it on. |
| Frontmatter.StripOfShape | bin/register-pi-agents.mjs:51-57 | Conversely every text of that shape is accepted with that result. |
| Frontmatter.StripIdempotent | bin/register-pi-agents.mjs:51-57 | A second pass changes nothing. |
| Frontmatter.ModellessPlain | bin/register-pi-agents.mjs:55 | What is kept of the frontmatter comes from it and holds no model line. |
| Frontmatter.ModellessConcat | bin/register-pi-agents.mjs:55 | Lines are dropped one by one, so the rest keeps its order. |
| Frontmatter.OpeningIff | bin/register-pi-agents.mjs:53-54 | Which line opens the frontmatter. |
| Frontmatter.ClosingIff | bin/register-pi-agents.mjs:53 | Which line closes it: three dashes, then only spaces and tabs up to the line end. |
| Frontmatter.ModelLineIff | bin/register-pi-agents.mjs:55 | Which lines are dropped. |
| RegisterProofs.IsBareIff | bin/register-pi-agents.mjs:122 | Which file names are agents: the prefix, anything on one line, the suffix. |
| Register.AgentDir.Write | bin/register-pi-agents.mjs:120-236 | Write mode leaves exactly the specified directory and manifest, also when an agent without frontmatter stops it half-way, and never counts drift. |
| Register.AgentDir.Check | bin/register-pi-agents.mjs:120-236 | Check mode changes nothing and counts exactly the specified drift. |
| RegisterProofs.RegisteredRead | bin/register-pi-agents.mjs:142-233 | After a write every produced file is its stripped source; every other managed, skipped or retired colon name is gone; every other name is as it was. |
| RegisterProofs.RegisterIdempotent | bin/register-pi-agents.mjs:120-236 | A second write changes nothing. |
| RegisterProofs.DriftAfterWrite | bin/register-pi-agents.mjs:204-216 | After a write, a check's drift is exactly the number of bare agent files that no agent accounts for and no manifest listed. |
| RegisterProofs.DriftIs | bin/register-pi-agents.mjs:142-233 | The drift of any directory: one for each agent whose file is not its stripped source, each file under a skipped or retired colon name, each bare file nobody knows, and each managed one no longer produced. |
| RegisterProofs.NoDriftMeansInSync | bin/register-pi-agents.mjs:142-233 | A check finds no drift if and only if a write would change no file and nothing is unexpected. |
| RegisterProofs.StoppedRun | bin/register-pi-agents.mjs:167-168 | A run stopped by a bad source keeps the old manifest and has touched only names of agents and their colon names. |
| RegisterProofs.StoppedRunResumes | bin/register-pi-agents.mjs:167-168 | Once the source is repaired, running again ends as an undisturbed run would have. |
| Releases.WayKept | bin/install-pi.mjs:57-95 | If the entries that lead to a directory are kept, every path that led there still does. |
| Releases.LeadsIff | bin/install-pi.mjs:65-68 | A path resolves to a directory exactly when a finite way of links leads to it. |
| Releases.ProtectedIff | bin/install-pi.mjs:85-88 | Retention protects exactly the entries that lead to where the current path leads, and none if that leads nowhere. |
| Releases.SortedReleases | bin/install-pi.mjs:81 | All releases, each once, newest first. |
| Install.ReachedIsSafe | bin/install-pi.mjs:187-268 | At every crash point a current path that led to a complete release still does, and one that led nowhere or to a complete release never leads to an incomplete one. |
| Install.AgentsUntouched | bin/register-pi-agents.mjs:120-125 | With retired pins, or without agents, an install leaves the agent directory untouched at every crash point. |
| InstallHost.Host.Run | bin/install-pi.mjs:187-268 | An install succeeds if and only if nothing is in its way; then current, skill links and agents are the intended ones and, unless the commit was current already, the metadata too; no crash point broke a live release. |
| InstallProofs.ReadyIff | bin/install-pi.mjs:187-258 | Which disks an install goes through on: the release whole, current already, or ready to be put there; its agents with frontmatter; no pins; and nothing unforced in the way. |
| InstallHost.Host.Stage | bin/install-pi.mjs:211-228 | A release appears only as a complete snapshot, and only by a rename; a snapshot that fails validation stays behind in its staging directory, one whose rename fails is removed. |
| InstallHost.Host.PruneReleases | bin/install-pi.mjs:57-95 | Exactly the newest three entries and every entry that leads to the live release are left, each as it was, and current still leads to the same directory. |
| InstallHost.Host.EnsureSkillLink | bin/install-pi.mjs:160-184 | The link ends up as intended unless a file or directory is in the way without --force, and then nothing changes. |
| InstallHost.Host.SwitchCurrent | bin/install-pi.mjs:235-243 | The current link is replaced in one step; a file or directory in the way is refused without --force. |
| InstallHost.Host.RegisterAgents | bin/install-pi.mjs:230-233 | Registration step by step: it succeeds if and only if no lane pin and no bad source stops it, and then leaves the registered directory. |
| RegisterSteps.RegisterAgain | bin/install-pi.mjs:230-233 | From every crash point of a registration, registering again ends as an undisturbed one would have. |
| InstallProofs.ReadyAgain | bin/install-pi.mjs:187-268 | From every crash point of an install that can succeed, the same install can succeed, with the same current link, skill links and agents. |
| InstallProofs.Resume | bin/install-pi.mjs:187-268 | Running the installer again there succeeds and reaches them; it takes the idempotent path, leaving the metadata alone, if and only if current was switched already. |
| InstallProofs.Repeat | bin/install-pi.mjs:195-209 | No number of further installs of the current commit writes the metadata. |
| InstallCheck.Check | bin/install-pi.mjs:288-348 | The check collects exactly the problems of the current link, the metadata, the skill paths and the agents, unless an incomplete snapshot or agents that cannot be registered stop it. |
| InstallCheck.PassesExactly | bin/install-pi.mjs:288-348 | On every disk the check passes if and only if current leads to a complete release named as the metadata says, both skill paths lead to that release's own skills with their entry points, and registering its agents is possible, would change no file and finds no bare file it does not know. |
| InstallCheck.PassesIffNothingWrong | bin/install-pi.mjs:337-340 | That is, if and only if it is not stopped and there is no problem. |
| InstallCheck.BasenameIff | bin/install-pi.mjs:308 | The directory name the metadata is compared with: what follows the last slash of the resolved path. |
| InstallCheck.CheckAfterInstall | bin/install-pi.mjs:288-348 | After an install the check passes if and only if, before it, the release was not there or led to a directory of its own name, and the agent directory held no bare agent file unknown to agents and manifest. |
| InstallCheck.InstallThenCheck | bin/install-pi.mjs:187-348 | An uninterrupted install of a commit that is not current, followed by the check: it passes under exactly that condition. |
| GateHash.NormalizeIndex | bin/masterplan.mjs:311-319 | Deleting the stamps and rebuilding the object in sorted order gives the text of the normal form. |
| GateHash.FeedHash | bin/masterplan.mjs:348-357 | The hash is fed the artifacts' chunks one after another. |
| GateHash.NormalIffSame | bin/masterplan.mjs:308-310 | Two indexes have the same normal form if and only if they agree on every name but the two stamps, whatever their order. |
| GateHash.NormalExactly | bin/masterplan.mjs:311-319 | The normal form of an index object holds its names in ascending order, each with its value, and not the stamps. |
| GateHash.GateIgnoresStamps | bin/masterplan.mjs:2306-2319 | load-plan's stamping leaves the gate's preimage as it is. |
| GateHash.StampsExactly | bin/masterplan.mjs:2306-2319 | load-plan sets the plan hash if there was no true one, and then the time if there was no true one; everything else keeps its value and place. |
| GateHash.HasIff | bin/masterplan.mjs:2306-2319 | A stamp counts as there exactly when its first member has a true value. |
| GateHash.StampingStops | bin/masterplan.mjs:2306-2319 | A stamped index is not stamped again. |
| GateHash.GateCollision | bin/masterplan.mjs:348-357 | Two gates share a preimage if and only if their indexes agree up to stamps and order and their specs and plans are equal once joined by the plan's name between NULs. |
| GateHash.GateInjective | bin/masterplan.mjs:348-357 | With NUL-free specs the preimage determines spec, plan and index, whatever the plan holds. |
| GateHash.CollidesIff | bin/masterplan.mjs:348-357 | A gate with a NUL-free spec has a colliding other spec and plan if and only if its plan holds the plan's name between NULs, the first of which may be the one before the plan. |
| Intent.BundleDir.Run | bin/masterplan.mjs:2797-2836 | set-phase does validation, drift guard, review gate, freeze and phase in this order, with the specified state and outcome. |
| IntentEffects.PlansExactly | bin/masterplan.mjs:2823-2827 | Entering plan, on every bundle: exactly when it goes through, and that it then adds the audit of a forced gate, the freeze a log without one is owed, and nothing else. |
| IntentEffects.ExecutesExactly | bin/masterplan.mjs:2804-2836 | Entering execute by set-phase: exactly when it goes through, never unforced without tasks, and exactly what it leaves. |
| IntentEffects.LoadsExactly | bin/masterplan.mjs:2244-2340 | Entering execute by load-plan: exactly when it goes through, and what it leaves when it does not. |
| IntentEffects.NoEmptyExecute | bin/masterplan.mjs:2804-2814 | No unforced steps bring a bundle into execute without tasks. |
| IntentEffects.ForcedEmptyExecute | bin/masterplan.mjs:2804-2814 | Forced, a bundle without tasks does enter it. |
| IntentEffects.SpecKeyIs | bin/masterplan.mjs:270-357 | The spec gate hashes the spec and, on a bundle with goals, goals.md, each after its name; a missing one leaves no hash. |
| IntentEffects.PlanKeyIs | bin/masterplan.mjs:270-357 | The plan gate hashes spec, plan and normalized index, in this order; a missing one leaves no hash. |
| Intent.BundleDir.CommittedHash | bin/masterplan.mjs:509-513 | The committed hash is that of the last freeze or amendment in the log. |
| IntentEffects.CommittedLast | bin/masterplan.mjs:509-513 | The committed hash is what the last freeze or amendment of the log carries; without any, none. |
| IntentRuns.RefusedChangesNothing | bin/masterplan.mjs:2816-2826 | A refused entry to plan, forced or not, leaves log, phase and everything else as they were. |
| IntentRuns.EntersIff | bin/masterplan.mjs:549-668 | Entry succeeds if and only if intent, interview and committed hash are in order, the gate is reviewed or forced, and no freeze is owed by an archived bundle. |
| IntentRuns.FrozenOnce | bin/masterplan.mjs:625-634 | Over any run of attempts, edits, reviews and amendments, on any log, at most one freeze is added, and only to a log without one. |
| IntentRuns.EntryCommits | bin/masterplan.mjs:549-668 | In any run with hashed lineage, a successful entry to plan leaves the committed hash equal to that of a valid goals.md. |
| IntentRuns.EntryCommitsIff | bin/masterplan.mjs:625-668 | For any log, a successful entry leaves them equal if and only if a log that holds a freeze commits to some hash. |
| IntentRuns.HashlessAmendment | bin/masterplan.mjs:509-513 | A freeze followed by an amendment without a hash: entry succeeds on any goals.md and commits to nothing. |
| IntentRuns.DriftBlocks | bin/masterplan.mjs:641-668 | Once goals.md has drifted, no sequence of steps other than restoring it or amending the lineage enters plan or execute. |
| IntentReviews.EntryWasReviewed | bin/masterplan.mjs:366-460 | In any run from a log without reviews, an unforced entry to plan rests on a review recorded under the key of now; if the spec held no NUL then and holds none now, spec and goals.md were byte for byte what they are now. |
| IntentReviews.ExecuteWasReviewed | bin/masterplan.mjs:366-460 | Likewise an unforced entry to execute, by set-phase or load-plan: the plan index is the same up to stamps and the order of its names, and for NUL-free specs so are spec and plan. |
| IntentReviews.SpecKeysIff | bin/masterplan.mjs:348-357 | Two bundles have the same spec key if and only if what they cover is the same once joined. |
| IntentReviews.SpecGateCollidesIff | bin/masterplan.mjs:348-357 | The review of a bundle with a NUL-free spec holds for one with another spec too if and only if its goals.md holds the name goals.md between NULs, the first of which may be the one before the file. |
| IntentReviews.ReviewCarriesOver | bin/masterplan.mjs:366-460 | On every such goals.md: a review, then both files replaced, and plan is entered unforced with a spec nobody reviewed. |
| TaskIds.NumberCanonical | bin/masterplan.mjs:5046-5048 | The text of a number coerces to that number; only names such as 01 or -0 change under coercion. |
| TaskIds.CoercesExactly | bin/masterplan.mjs:5046-5048 | Digits, with or without a minus, coerce to the number they write; every other name stays as it is. |
| TaskIds.CanonicalIff | bin/masterplan.mjs:5046-5048 | Of the digit names, exactly those without a leading zero keep their text under coercion. |
| Tasks.Run.MarkTask | bin/masterplan.mjs:2522-2577 | mark-task has the specified effect and refusals, with its audit event. |
| TaskEffects.MarksExactly | bin/masterplan.mjs:2522-2577 | mark-task goes through under exactly its four conditions; then the first task with the id has the status asked for, the block reason if blocked, no waive reason, all else as it was, and a forced block is audited; otherwise nothing changes. |
| Tasks.Run.WaiveTask | bin/masterplan.mjs:2578-2670 | waive-task checks all targets before it changes any, then writes the tasks, then logs; on an archived bundle the logging fails after the write. |
| TaskEffects.WaiveLogs | bin/masterplan.mjs:2642-2666 | When waive-task succeeds, and that it then logs a waiver for each target in order. |
| TaskEffects.WaiveEventAt | bin/masterplan.mjs:2642-2666 | Each waiver's event, after its audit event if it was forced under the live run. |
| Tasks.Run.AmendTasks | lib/bundle.mjs:630-694 | The upsert's passes give the specified list, and nothing is written unless every unfinished entry has a wave. |
| TaskEffects.AmendsExactly | lib/bundle.mjs:630-694 | When an amendment goes through, and the list it leaves, task by task: those that stay in their order with their state and the entry's wave and files, then the new ones, pending. |
| TaskRuns.SoundRun | bin/masterplan.mjs:2522-2670 | In every run each waived task has a waive reason and no block reason, each blocked one a block reason, and no other has either. |
| TaskRuns.OnlyBlockedWaived | bin/masterplan.mjs:2578-2642 | An id becomes waived only by waive-task, and only if a task of that text was blocked. |
| TaskRuns.WaivedByWaive | bin/masterplan.mjs:2578-2642 | In every run an id that has become waived was waived by a waive-task step at a moment when it was blocked. |
| TaskRuns.WaivesMeant | bin/masterplan.mjs:2578-2642 | waive-task leaves the tasks as they were, or waives exactly those that share a text with a blocked task (--all) or with the id given. |
| TaskRuns.WaivesBlockedIff | bin/masterplan.mjs:2633-2642 | It turns only tasks waived that were blocked themselves if and only if it writes nothing, or every task that shares a text with a target is blocked or waived already. |
| TaskRuns.SameTextWaivesBoth | bin/masterplan.mjs:2633-2642 | With the ids 1 and "1", waiving the blocked one waives a finished one too. |
| TaskRuns.LiveRunStopsAll | bin/masterplan.mjs:2622-2631 | Unforced, waive-task --all that hits the live run waives nothing. |
| TaskRuns.AllWaivesBlocked | bin/masterplan.mjs:2578-2642 | Otherwise it waives the tasks that share a text with a blocked one; these are exactly the blocked tasks, apart from those waived already, if and only if no other task shares such a text. |
| TaskRuns.ArchivedWaiveFails | bin/masterplan.mjs:2642-2666 | On an archived bundle the tasks are waived although the verb fails. |
| TaskRuns.AmendKeepsState | lib/bundle.mjs:619-628 | Amending never touches a status or a reason; a task goes missing only by pruning, and one with state only on explicit consent. |
| TaskRuns.AmendCovers | lib/bundle.mjs:630-694 | After an amendment every canonical index entry has its entry in the list, and every unfinished one a wave. |
| TaskRuns.AddressableIff | lib/bundle.mjs:630-694 | Without pruning, an index of distinct ids and integer waves keeps every list of distinct id texts distinct if and only if all its ids are canonical: an id like 01 is appended as the number 1. |
| TaskRuns.AddressableRun | lib/bundle.mjs:630-694 | In every run over canonical indexes id texts stay distinct. |
| RefsSerial.DoKeepsMutual | bin/masterplan.mjs:1227-1303 | Between different bundles, with the source in the directory of its slug, refs add and refs remove keep every link on both sides or on neither. |
| RefsEffects.RefusedOtherwise | bin/masterplan.mjs:1227-1262 | When a verb is refused, an addition to a missing bundle for one, and that it then changes nothing. |
| RefsEffects.AddsExactly | bin/masterplan.mjs:1265-1283 | Adding leaves one entry at the end of each side unless the other is named there already, with the caption given and the source's topic, and changes nothing else. |
| RefsEffects.RemovesExactly | bin/masterplan.mjs:5006-5022 | Removing drops the entries that name the other, on the target's side if it exists, and changes nothing else. |
| RefsSerial.KeepsMutualIff | bin/masterplan.mjs:1265-1283 | A verb keeps links mutual if and only if its target is missing, or it is between different bundles with the source in the directory of its slug, or it finds its link as it wants it already, and, where the slug names another existing bundle, that bundle's link too. |
| RefsSerial.MisnamedSource | bin/masterplan.mjs:1247-1261 | A bundle in the directory foo with the slug bar, linked to baz: the link is on its side only, and baz names bar. |
| RefsSerial.LateKeepsMutualIff | bin/masterplan.mjs:1243-1283 | A verb applied with what it read of its source at any earlier time keeps links mutual if and only if that reading fits: if it leads to a write, it agrees with the source on every other link to an existing bundle; and the verb's own link is as wanted already wherever only one side of it is written. |
| RefsCrashes.RetryCompletes | bin/masterplan.mjs:1275-1283 | After a crash between the two writes, running the verb again at once ends exactly as the undisturbed verb would have. |
| RefsCrashes.RunLinks | bin/masterplan.mjs:1265-1283 | After any serial run of verbs, each of which may crash between its writes, each side of a link is as the last verb that wrote that side wanted it. |
| RefsCrashes.SerialRunsKeepMutual | bin/masterplan.mjs:4966-5033 | In every such run all links are mutual but those whose last verb crashed. |
| RefsCrashes.LaterVerbsComplete | bin/masterplan.mjs:1275-1283 | After any run with crashes and other verbs in between, links are all mutual again once a verb has gone through on each half-written one. |
| RefsLocks.Owners.AcquireAll | bin/masterplan.mjs:1171-1193 | All locks are taken, or those before the blocked one are gone, whoever held them before; a refusal leaves the locks as they were if and only if no bundle before the blocked one was locked at all. |
| RefsLocks.AroundVerb | bin/masterplan.mjs:1171-1193 | After a verb this session holds none of the bundles' locks, not even those it held before; after a refusal, none of those before the blocked one. |
| RefsLocks.LockableIff | lib/owner.mjs:163-200 | A verb gets all its locks exactly when it is forced or every other owner of its bundles has shown no life within the time limit. |
| RefsRunProofs.LocksExactly | bin/masterplan.mjs:1263-1268 | Which bundles a verb locks after reading its source, when it then goes on, and the locks afterwards. |
| RefsRunProofs.InterleavedRunsKeepMutual | bin/masterplan.mjs:1227-1303 | In every interleaving over bundles in the directories of their slugs, all links are mutual at every moment, but those half written, if and only if every verb writes its source from a reading that fits; it does if the reading fits when the locks are taken. Then all links are mutual whenever no verb is between its two writes. |
| RefsRunProofs.LostUpdate | bin/masterplan.mjs:1243-1283 | With a reading that no longer fits, two successful additions to one source lose one side of a link. |
| Args.ParseArgs | bin/masterplan.mjs:676-701 | The parser's single pass gives the specified words and flags. |
| Args.DistributesIff | bin/masterplan.mjs:676-701 | Parsing distributes over concatenation, positionals appending and later flags winning, if and only if it is not the case that the left list ends in the bare value option and the right one begins with a word it can take. |
| Args.ParseSpelling | bin/masterplan.mjs:676-701 | A command line written item by item, words, options with a value and switches, is parsed back as written, as long as no word follows the switch that would take it. |
| Args.SpellingsAgreeIff | bin/masterplan.mjs:670-676 | `--repo-root d` and `--repo-root=d` mean the same in every context if and only if d does not start with two dashes. |

## Left out

- Number formatting: a number is taken as its own shortest decimal text; that different numbers have different texts is assumed.
- Sparse arrays, proxies, getters on arrays, `__proto__` keys and integer-like property names, which JavaScript enumerates first.
- UTF-8: artifact bytes and JSON text are sequences of code units in `GateHash`.
- AmendRuns.HistoryReadsBack: assumes what the writer does not check, that the date has no white space and the summary neither U+2028 nor U+2029; and a plan that does not end in a lone carriage return.
- AmendLimits.AppendsIffEndsAgree: assumes the same of the date, the summary and the plan's end.
- Malformed review files and invalid predecessor slugs: they are refused at the same points as a stale digest or a missing predecessor.
- The refs link and the projected rejection a seed with `--predecessor` adds after it has released the lock.
- Malformed plan indexes: an index that is no JSON counts as missing; and artifact paths that change during a run or leave the bundle.
- The order by `localeCompare` and the repository column of the inventory digest: the digest is the map from slug to row.
- Frontmatter.StripShape: carriage returns only occur before newlines, and U+2028 and U+2029 do not occur.
- Register.AgentDir.Write: the counts of removed files and the report's lines; manifest entries are plain file names.
- Releases with unreadable entries or failing removals, which `pruneReleases` skips, and the removal of a release as more than two steps.
- The installer's `--expect` probe, parsing of package.json, and a check of the version.
- InstallHost.Host.Run: concurrent installers.
- The identity re-verification of schema-backed bundles in `enforceGateReview`, the interview ledger's own rules, and the format pin: a document carries what its canonical hash covers, and whether it is valid.
- Tasks: ids that are missing from an index entry, and numbers beyond 2^53.
- RefsRunProofs.InterleavedRunsKeepMutual: every slug is the name of its bundle's directory (`RefsSerial.KeepsMutualIff` has the other case); locks are taken in one step and sessions are distinct; stale takeover by age, forced takeover and the concurrent writers of other state fields are not interleaved.
- Events and re-rendering of refs verbs; `refs remove` with an archived target fails after both writes.
- finish-step, continue, dispatch-wave, record-result, interview, reconcile-intent, decide and worktree verbs, qctl, doctor checks, HTML output and reindexing.
