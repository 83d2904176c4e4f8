# Evergreen image registry: Dockerfile tools, modelled and proved

This project models the text and state algorithms of the registry's tools and proves properties of them
with Dafny 4.11. `dafny verify dfyconfig.toml` checks everything.

**Generator, extractors, drift check** (`evergreenctl`, Rust). `generate.dfy` prints a manifest as a
Dockerfile, recipe by recipe; `patterns.dfy` holds the regular expressions of `patterns.rs` as scanners, and
`extract.dfy` the extractors built on them. The `*_roundtrip.dfy` files prove, field by field and as
if-and-only-ifs, which manifests are read back; `drift.dfy` proves what the drift check reports, for every
manifest and text, and on a freshly generated file. `silence.dfy` and `sections.dfy` are the machinery: texts in which an expression finds
nothing. `source_type.dfy` does the same for the tell-tale commands of the source type. "Free text holds no directive" (`Sections.Clean`) means that no field contains the keyword of the
expression before a blank or at its end, or, for labels, no quote and no trailing equals sign.

**Shim wiring and its checker** (Python). `wiring.dfy` has the two loops of the wiring script, proved equal
to a closed form that knows for every line of the result which input line it is, or that it is new.
`wiring_checks.dfy` and `wiring_theorem.dfy` prove what is kept and that the wired text passes the separate
checker of `wiring_verdict.dfy`, whose expressions are predicates on texts; `wiring_places.dfy` says of every
new line where it stands, `wiring_needs.dfy` what the checker cannot do without, and `generated_wiring.dfy`
that the generator's files pass its checks of the argument, the stage, the copy and the healthcheck.

**Digest pinning** (Python). `pinning.dfy` scans FROM lines and proposes patches; `pinning_theorem.dfy`,
`worklist_theorem.dfy` and `proposals.dfy` follow a proposal through rescan, worklist and the whole pipeline,
and `proposal_theorem.dfy` says exactly which entries get one.

**Auto-version** (Rust). `semver.dfy` is the order of section 11 of Semantic Versioning 2.0.0, and
`semver_roundtrip.dfy` proves that exactly the printed versions are read;
`auto_version.dfy` has the loop over the images, with the releases and the write results as inputs, and says
exactly when a second run settles; `auto_version_runs.dfy` says what a bump does to the repository's name.

**Line editors** (Python and Rust). `bump.dfy`, `observability*.dfy`, `healthcheck.dfy`,
`bulk_checksums.dfy` with `github_api.dfy`, `apt_to_apk.dfy`, `wolfi_packages.dfy`. `bulk_theorem.dfy`,
`apt_selection.dfy`, `apt_theorem.dfy` and `wolfi_theorem.dfy` say of the new lines where they stand and what
they hold, in terms of the input alone.

**SBOM index and diff** (Python). `sbom_graph.dfy` is the class with its two dictionaries, `sbom_diff.dfy`
the difference as a patch.

`text.dfy`, `lines.dfy` and `sorting.dfy` are shared. Loops of the source are methods with invariants, proved
equal to a specification function; the theorems are lemmas about that function.

Where the code does not do what one would expect, the model follows the code and a lemma says exactly what
happens: the vendor label is never generated (`Drift.FreshDownloadDrift`), the source type is read back only
for "copy-from" (`SourceTypes.SourceTypeRecovered`, `SourceTypes.SourceTypeLost`), a proposal can hit the word FROM (`PinningTheorem.ProposalPins`,
`PinningTheorem.KeywordIsHit`), an older release is written over a newer version (`AutoVersion.OlderIsWritten`,
`AutoVersionRuns.DowngradeIsWritten`), a repository whose name holds the version moves with it, so that a
second run bumps once more (`AutoVersionRuns.SecondRunMoves`), a second pass over rewritten packages can empty
the file (`WolfiPackages.SecondPassEmpties`), a healthcheck's `CMD` line
counts as the image's (`WiringTheorem.ContinuationIsTheCommand`), removing a one-line healthcheck takes the
next line along (`Healthcheck.OneLineCheckTakesTheNext`), a continued ENV block is cut
(`ObservabilityTheorem.ContinuedBlockIsCut`), a sha1 checksum loses two digits
(`BulkChecksums.PrintedExactly`), an md5 hash is given to sha256sum (`BulkChecksums.CheckedExactly`), a FROM
that is followed by a tab is never pinned (`ProposalTheorem.TabIsNeverPinned`), the generated healthcheck holds
a backslash that continues nothing (`GeneratedWiring.GeneratedDials`), and a changed kind of relation is not in the diff
(`SbomDiff.RelationsExactly`).

Nothing was executed.

## Model

| member | source | states |
|---|---|---|
| RoundTrip.VersionRead | evergreenctl/src/generate.rs:50-126 | the version of a downloaded or source-built image is extracted from its Dockerfile exactly when it is one unquoted word, despite the bare `ARG VERSION` lines of the earlier stage |
| RoundTrip.NoVersionRead | evergreenctl/src/generate.rs:132-170 | the other recipes carry no version argument that the extractor finds |
| RoundTrip.FromsRead | evergreenctl/src/dockerfile_utils.rs:35-42 | the FROM expression finds exactly the stages of the recipe, in order, the final base last |
| RoundTrip.BaseRead | evergreenctl/src/dockerfile_utils.rs:35-42 | the last-match rule returns the final base exactly when it is one word |
| SourceTypes.SourceTypeRead | evergreenctl/src/dockerfile_utils.rs:161-171 | what is read of each recipe when no printed field holds a tell-tale word: package manager for downloads and package installs, binary download for source builds, copy for repacks, unless a repack changes ownership and its name or user ends in curl or wget |
| SourceTypes.SourceTypeRecovered | evergreenctl/src/generate.rs:34-47 | so the source type is recovered if and only if it is "copy-from" and the image is no such tool |
| SourceTypes.SourceTypeLost | evergreenctl/src/generate.rs:175-220 | a source build, and an image named curl that is only copied, are read as binary downloads |
| RuntimeRoundTrip.UserRead | evergreenctl/src/dockerfile_utils.rs:47-54 | the user comes back exactly when it is one word, despite the earlier `USER 0` of repacked images |
| RuntimeRoundTrip.StopRead | evergreenctl/src/dockerfile_utils.rs:59-65 | the stop signal comes back exactly when it is one word |
| EntrypointRoundTrip.ParseJoin | evergreenctl/src/dockerfile_utils.rs:144-155 | splitting, trimming and unquoting undo quoting and joining for clean arguments |
| EntrypointRoundTrip.EntrypointRead | evergreenctl/src/generate.rs:382-399 | the entrypoint list comes back exactly when it is not empty and all arguments are clean; a repacked image answers the default |
| PortsRoundTrip.PortsRead | evergreenctl/src/dockerfile_utils.rs:124-138 | the ports are found in order exactly when all are canonical 16-bit numbers |
| PortsRoundTrip.PortSetRead | evergreenctl/src/drift.rs:106-134 | the same for the port sets that the drift check compares |
| Extract.ExtractPorts | evergreenctl/src/dockerfile_utils.rs:124-138 | the extracted list is sorted, without repetition, and holds the ports found and no others |
| Extract.ExtractAllLabels | evergreenctl/src/dockerfile_utils.rs:176-187 | the map built by the loop is the specification map: dotted keys, the last pair wins |
| Generator.PrintLabels | evergreenctl/src/generate.rs:438-451 | the printing loop gives the LABEL block with its continuation backslashes |
| Generator.LabelsWithExemption | evergreenctl/src/generate.rs:405-451 | the label block holds the standard labels, the exemption, and the custom labels in iteration order |
| LabelsRoundTrip.LabelsRead | evergreenctl/src/dockerfile_utils.rs:176-187 | extracting all labels gives the standard map overridden by the custom map, for every iteration order of the custom map |
| LabelsRoundTrip.StandardShown | evergreenctl/src/generate.rs:405-430 | which standard labels are shown, and with which values |
| GeneratedWiring.GeneratedIsWired | evergreenctl/src/generate.rs:50-220 | whatever the manifest and its recipe, the wiring checker finds the shim's argument, stage, copy and healthcheck in the generated text (checks 1 to 4) |
| GeneratedWiring.EntrypointIsWired | evergreenctl/src/generate.rs:382-391 | the entrypoint printed for a wrapped image is found under the generator's path; so check 5 passes exactly when the first bracketed entrypoint names the shim, or some entrypoint calls it at its root path |
| GeneratedWiring.ProgramIsInstalled | evergreenctl/src/generate.rs:382-391 | the program that the entrypoint has the shim run is the file that an earlier line copies into the image |
| GeneratedWiring.GeneratedDials | evergreenctl/src/generate.rs:357-380 | the healthcheck dials the first exposed port, or 8080; it is one line, because its backslash is followed by blanks |
| Drift.CompareFields | evergreenctl/src/drift.rs:33-103 | the pushes for version, base, user, stop signal and entrypoint give the specified differences |
| Drift.ComparePorts | evergreenctl/src/drift.rs:105-134 | the port comparison reports exactly the missing and the extra ports |
| Drift.CompareLabels | evergreenctl/src/drift.rs:136-172 | the label loop reports exactly the differing and the missing labels |
| Drift.CmdDrift | evergreenctl/src/drift.rs:31-172 | the whole drift list is the specification list; a difference is in it if and only if it is a real one, and it is empty if and only if manifest and text agree |
| Drift.DriftExactly | evergreenctl/src/drift.rs:31-172 | for every manifest and text: each kind of difference (version, base, user, stop signal, entrypoint, missing and extra ports, differing and missing labels) is reported exactly when the two sides differ in it, with both values |
| Drift.NoDriftExactly | evergreenctl/src/drift.rs:31-172 | nothing is reported if and only if all of them agree |
| Drift.DriftInOrder | evergreenctl/src/drift.rs:31-172 | the differences come in the order of the checks, none of them twice |
| Drift.FreshDrift | evergreenctl/src/drift.rs:31-172 | on a freshly generated file, for every recipe: exactly what the recipe cannot carry, and the expected labels that are not shown |
| Drift.StandardLabelsHold | evergreenctl/src/generate.rs:405-430 | when no custom label overrides a standard one, only the vendor label can drift |
| Drift.VendorDrift | evergreenctl/src/drift.rs:151-172 | the vendor label drifts unless the manifest's own labels carry the vendor |
| Drift.FreshDownloadDrift | evergreenctl/src/drift.rs:31-172 | a fresh download or source build drifts exactly in its base, unless it is scratch, and in its vendor label, unless its labels carry it |
| Wiring.BuildWired | scripts/wire_health_shim.py:222-340 | the two loops with their flags give the closed form of the wired file |
| Wiring.MainLoop | scripts/wire_health_shim.py:250-317 | the flag-driven loop, line by line: first-only replacements, insertions at the first and the last FROM |
| Wiring.CheckLoop | scripts/wire_health_shim.py:319-338 | the second pass puts the healthcheck above the first entrypoint, or at the end |
| Wiring.UptoAfter | scripts/wire_health_shim.py:325-338 | from the entrypoint on, the file with and without the second pass differ in the healthcheck only |
| WiringPlaces.ShimInFinalStage | scripts/wire_health_shim.py:268-285 | below the last FROM line of the wired file stand the copy, the chmod and an empty line, and when no stage was there the shim stage stands right above it |
| WiringPlaces.ArgAboveTheFirst | scripts/wire_health_shim.py:255-266 | the argument stands right above the first FROM line of the wired file |
| WiringPlaces.CheckAboveTheEntry | scripts/wire_health_shim.py:319-338 | the healthcheck stands right above the first entrypoint of the wired file, which is the new one, or at the end |
| WiringPlaces.EntryInPlace | scripts/wire_health_shim.py:293-297 | the new entrypoint takes the place of the first old one: the same surviving input lines stand above it |
| WiringPlaces.CommandInPlace | scripts/wire_health_shim.py:299-311 | so does the new command |
| WiringPlaces.NewLinesExactly | scripts/wire_health_shim.py:250-338 | every new line is there as often as its place in the input asks for, and there are no others |
| WiringChecks.WiringKeepsTheRest | scripts/wire_health_shim.py:250-313 | the wired file without its new lines is the input, in order, without its first HEALTHCHECK, ENTRYPOINT and CMD line |
| WiringChecks.WiringKeepsTheBase | scripts/verify_shim_wiring.py:46-65 | the last FROM line stays the last one, so the detected base type does not change |
| WiringTheorem.WiredBase | scripts/wire_health_shim.py:222-340 | the same for whole texts, split at their newlines |
| WiringTheorem.WiredSplit | scripts/wire_health_shim.py:319-340 | splitting the wired text gives the wired lines back |
| WiringTheorem.ArgEstablished | scripts/verify_shim_wiring.py:95-97 | check 1 holds when the argument line is put in |
| WiringTheorem.FromEstablished | scripts/verify_shim_wiring.py:99-101 | check 2 holds when the shim stage is put in |
| WiringTheorem.WiringEstablished | scripts/wire_health_shim.py:189-193 | every wired text is recognised as wired, whatever the input |
| WiringTheorem.CheckEstablished | scripts/verify_shim_wiring.py:109-131 | the healthcheck expression matches every wired text, across its two lines |
| WiringTheorem.EntryExactly | scripts/verify_shim_wiring.py:133-140 | check 5 passes exactly when the first bracketed entrypoint names the shim, or another entrypoint calls it at its root path |
| WiringTheorem.FirstBracketIsTheShim | scripts/verify_shim_wiring.py:68-76 | the first bracketed entrypoint is the new one when no `ENTRYPOINT [` stands above it; across two lines: when no line ends in the word, or none begins with the bracket |
| WiringTheorem.WiringPasses | scripts/verify_shim_wiring.py:79-140 | a wired text passes checks 1 to 5, for every input with a FROM and an ENTRYPOINT, no shim stage, no argument above the first FROM, and no earlier bracketed entrypoint |
| WiringTheorem.WiringAlwaysPasses | scripts/verify_shim_wiring.py:103-131 | checks 3 and 4 pass without any condition |
| WiringNeeds.VerdictNeeds | scripts/verify_shim_wiring.py:79-140 | a check that passes has its reason in the text: the instruction, the registry, the copy, and a healthcheck and an entrypoint that name the shim |
| WiringTheorem.WiredOnce | scripts/wire_health_shim.py:343-404 | a file that was wired is left alone by every later run that is not forced |
| WiringTheorem.ContinuationIsTheCommand | scripts/wire_health_shim.py:288-312 | a `CMD` line that continues the healthcheck is the one rewritten, and every later CMD line is kept |
| Pinning.ScanFroms | scripts/inventory_report.py:36-53 | the loop over the lines gives the specified entries |
| Pinning.CollectValues | scripts/resolve_critical_digests.py:40-46 | the environment, then the first default of every argument |
| Pinning.ArgumentsNeverMatter | scripts/resolve_critical_digests.py:196-223 | without a given expansion neither defaults nor environment change a proposal: it is made exactly when the reference holds no dollar sign |
| Pinning.ProposalIsLocal | scripts/resolve_critical_digests.py:196-223 | a proposal depends on its own line only, even when other lines define arguments |
| PinningTheorem.PatchedLine | scripts/resolve_critical_digests.py:222-223 | what a FROM line scans as after the first occurrence of its reference was replaced |
| PinningTheorem.ProposalPins | scripts/resolve_critical_digests.py:196-223 | the new scan is the old one with exactly that entry turned pinned if and only if the reference does not occur in the FROM keyword as typed; otherwise the entry is lost |
| PinningTheorem.KeywordIsHit | scripts/resolve_critical_digests.py:222-223 | a file whose only FROM line is destroyed by its proposal |
| Worklist.BuildWorklist | scripts/critical_pinning_worklist.py:28-56 | the nested loops and the sort give the sorted entries of the critical images that are not fully pinned |
| Worklist.ItemsTotal | scripts/critical_pinning_worklist.py:48 | the sort key is a total order that tells any two entries apart |
| WorklistTheorem.ProposalShortens | scripts/critical_pinning_worklist.py:28-56 | applying a proposal removes exactly its entry from the sorted worklist, and the count of fully pinned critical images grows by one exactly when it was the image's last |
| Proposals.GenerateProposals | scripts/resolve_critical_digests.py:237-277 | the loop with its lookups and the final sort: the proposals by image and line, which for an ordered worklist is its own order |
| ProposalTheorem.ProposedExactly | scripts/resolve_critical_digests.py:196-277 | the list holds one proposal for an entry, and otherwise none, if and only if its last resolution is resolved, is an index by flag and media type, has a platform under linux/ and a proper digest, its reference holds no `@` and no variable, and its line starts with FROM and a plain blank |
| ProposalTheorem.ProposedLine | scripts/resolve_critical_digests.py:222-277 | the new line of a proposal is the old one with the digest put behind the first occurrence of the reference |
| ProposalTheorem.TabIsNeverPinned | scripts/resolve_critical_digests.py:210-211 | an entry whose FROM is followed by a tab is in the worklist and never gets a proposal |
| ProposalTheorem.WorkExactly | scripts/critical_pinning_worklist.py:28-56 | the worklist holds exactly the FROM lines of critical images that are not pinned |
| ProposalTheorem.WorkInOrder | scripts/critical_pinning_worklist.py:48 | it is in the order of the images' names, letter by letter, and for one image in the order of the lines |
| Proposals.ProposalsCommute | scripts/resolve_critical_digests.py:237-277 | proposals for different lines can be applied in any order |
| Proposals.ApplyAllShortens | scripts/critical_pinning_worklist.py:28-56 | applying any list of proposals for different lines removes exactly their entries |
| Proposals.WorkDistinct | scripts/critical_pinning_worklist.py:34-48 | no two entries of a worklist are for the same line of the same image |
| Proposals.PipelineShortens | scripts/resolve_critical_digests.py:237-277 | scan, worklist, proposals, application, scan: the new worklist is the old one without exactly the proposed entries |
| Semver.PrecedenceIsTotal | evergreenctl/src/auto_version.rs:86-91 | precedence is antisymmetric and total, equal only for versions that differ in the build text |
| Semver.PrecedenceIsTransitive | evergreenctl/src/auto_version.rs:86-91 | precedence is transitive, pre-releases included |
| Semver.PrecedenceExtends | evergreenctl/src/auto_version.rs:86-98 | precedence extends the order of major, minor, patch, and a pre-release is below its release |
| SemverRoundTrip.ParseExactly | evergreenctl/src/auto_version.rs:86-87 | a text is read as a version if and only if it is the printed form of that version and the version is a proper one: numbers of 64 bits without leading zeros, identifiers and build parts that are words |
| AutoVersion.SafeExactly | evergreenctl/src/auto_version.rs:82-122 | a bump is safe if and only if one side is no version, or the latest is not above the current, or it is in the same major within the minor limit |
| AutoVersion.MajorNeverSafe | evergreenctl/src/auto_version.rs:285-290 | no limit, so no setting of allow_major, lets a higher major pass |
| AutoVersion.RunAutoVersion | evergreenctl/src/auto_version.rs:225-374 | the loop's counters, lists and writes are those of the per-image outcomes |
| AutoVersion.BooksBalance | evergreenctl/src/auto_version.rs:225-374 | in every run: outdated = bumped + approvals + unsafe + failed writes, errors = failed + unsafe, actions = outdated - failed writes, and the actions marked done are the bumps |
| AutoVersion.WritesAreGuarded | evergreenctl/src/auto_version.rs:285-360 | a changed manifest was not in a dry run, not of tier 1, not deprecated, and its new version is within the limit and of no higher major |
| AutoVersion.WrittenExactly | evergreenctl/src/auto_version.rs:232-360 | a manifest is changed if and only if the run is real and can write it, the image is not deprecated, not of tier 1, names a repository that answers with another version, and that version is within the limit or one of the two is no version |
| AutoVersion.WrittenManifest | evergreenctl/src/auto_version.rs:332-360 | what is on disk after a bump: the new version, the old version replaced everywhere in both URLs, whatever the other one holds, and every other field as it was |
| AutoVersion.OthersStay | evergreenctl/src/auto_version.rs:332-360 | without a bump, and in a dry run, the manifest is as it was |
| AutoVersion.ReplacedTwice | evergreenctl/src/auto_version.rs:336-347 | a URL that holds the old version twice holds the new one twice |
| AutoVersion.TierOne | evergreenctl/src/manifest.rs:177-180 | approval is asked for exactly when the tier is the digit 1, after zeros and a plus sign or without |
| AutoVersion.RepoRead | evergreenctl/src/manifest.rs:155-175 | owner and repository are the first two parts behind either host prefix |
| AutoVersion.SecondRunSettles | evergreenctl/src/auto_version.rs:225-374 | with the same releases, a second run bumps nothing, repeats every failure and counts the bumped images as up to date, if and only if for every bumped image the repository named by its new manifest answers with the new version; the files then stay |
| AutoVersionRuns.RepoKept | evergreenctl/src/manifest.rs:155-175 | whatever the release, the replacement keeps owner and repository when the old version, without a slash, does not occur in the URL up to the repository's name |
| AutoVersionRuns.RepoKeptExactly | evergreenctl/src/auto_version.rs:336-347 | for versions without a slash the repository is kept if and only if the old version does not occur in owner/repo and the replaced host part is still one of the two hosts |
| AutoVersionRuns.SparedRunSettles | evergreenctl/src/auto_version.rs:332-360 | so a run over manifests that keep their repository reaches the fixpoint at once, whatever the releases and the writes |
| AutoVersion.OlderIsWritten | evergreenctl/src/auto_version.rs:91-92 | for every image with a newer current version and an older release, the older release is written |
| AutoVersionRuns.DowngradeIsWritten | evergreenctl/src/auto_version.rs:91-92 | version 2.0.0 is overwritten by the release 1.0.0 |
| AutoVersionRuns.RepoMoves | evergreenctl/src/auto_version.rs:336-347 | a manifest whose repository is renamed by its own bump |
| AutoVersionRuns.SecondRunMoves | evergreenctl/src/auto_version.rs:225-374 | an image and releases for which the second run does not settle but bumps again |
| Bump.BumpDockerfile | evergreenctl/src/bump.rs:98-118 | the loop over the lines gives the text of the bumped lines |
| Bump.ReplaceBack | evergreenctl/src/bump.rs:110-113 | replacing back restores a text if and only if the new word occurs only where it was put |
| Bump.LineBack | evergreenctl/src/bump.rs:107-118 | a bumped line bumped back is the old line if and only if it is reversible |
| Bump.BumpBack | evergreenctl/src/bump.rs:98-118 | bumping back restores all lines if and only if every line is reversible |
| Bump.TextBack | evergreenctl/src/bump.rs:98-118 | the same if and only if for whole texts, written and read in between |
| Bump.BumpedVersionRead | evergreenctl/src/bump.rs:98-118 | the extractor reads the new version from a bumped text if and only if it is one unquoted word, when no version argument starts in an earlier line |
| Bump.OtherArgumentFree | evergreenctl/src/dockerfile_utils.rs:24-30 | an earlier argument of another name is no such line |
| Observability.FindShimEnvBlock | scripts/wire_observability.py:112-149 | the two moving indices find the last ENV block with a shim variable |
| Observability.AddVarToEnvBlock | scripts/wire_observability.py:186-213 | the edits in place give the specified lines |
| ObservabilityBlock.BlockExactly | scripts/wire_observability.py:112-149 | the block found is the last one of the final stage: an ENV line with all the members below it that names a shim variable; and none is found exactly when there is none |
| ObservabilityBlock.NewBlockPlaced | scripts/wire_observability.py:205-213 | without a block the variable goes below the first USER line of the final stage, or to the end, and every line stays |
| ObservabilityTheorem.AddGrows | scripts/wire_observability.py:112-204 | adding a shim variable to an existing block: the finder returns the same start and an end one larger, all other lines stay in order, the new last line has no backslash |
| ObservabilityTheorem.OpenBlockIsJoined | scripts/wire_observability.py:200-202 | the new line is joined to a block whose last line had no backslash |
| ObservabilityTheorem.ContinuedBlockIsCut | scripts/wire_observability.py:197-199 | a block whose last line was continued loses all backslashes at its end, so the new line stands alone, unless a further backslash stood before blanks |
| ObservabilityRuns.AddPrometheusLabels | scripts/wire_observability.py:238-252 | the three label lines go above the last STOPSIGNAL line, or to the end |
| ObservabilityRuns.ProcessImage | scripts/wire_observability.py:255-301 | the new content and the steps that changed something, or a skip |
| ObservabilityRuns.RunLeaves | scripts/wire_observability.py:255-292 | a run leaves every marker of its steps behind and turns no image into a database image |
| ObservabilityRuns.RunSets | scripts/wire_observability.py:216-235 | the values that a run puts in: metrics on, alerting off and without a webhook, and the nightly schedule, each in its images and when its marker was not there |
| ObservabilityRuns.SecondRunSkips | scripts/wire_observability.py:255-301 | a file that was updated is skipped by a second run |
| Healthcheck.Remover.RemoveLines | scripts/remove_healthcheck.py:14-53 | the nested loops and the pops give the specified lines and count, and the total grows by the count |
| Healthcheck.RemovalDropsLines | scripts/remove_healthcheck.py:14-53 | the result is the input without some of its lines |
| Healthcheck.RemovalNormalises | scripts/remove_healthcheck.py:35-52 | after a removal: no HEALTHCHECK line, no two adjacent blank lines, no outer blank line, all other lines kept in order, and a second application changes nothing |
| Healthcheck.RemovedExactly | scripts/remove_healthcheck.py:19-22 | something is removed if and only if a line starts with the word |
| Healthcheck.StayingExactly | scripts/remove_healthcheck.py:18-33 | a line stays exactly when it neither begins a block nor goes on with one, as told line by line; in order and once |
| Healthcheck.BlocksCounted | scripts/remove_healthcheck.py:18-33 | the count is the number of lines that begin a block |
| Healthcheck.OneLineCheckTakesTheNext | scripts/remove_healthcheck.py:21-31 | the removed block is the instruction itself if and only if its first line is continued or the last of the file; otherwise the line below goes too |
| BulkChecksums.InsertAll | scripts/populate_bulk_checksums.py:803-825 | inserting from the bottom up with the original line numbers equals inserting all at once, each verify line below its own download line, several for one line included |
| BulkChecksums.OneMore | scripts/populate_bulk_checksums.py:616-649 | one insertion above all earlier ones extends the simultaneous form |
| BulkChecksums.SortedBelow | scripts/populate_bulk_checksums.py:815 | the stable sort keeps the insertions for one line in order |
| BulkChecksums.PrintedExactly | scripts/populate_bulk_checksums.py:623-630 | the printed checksum is the hash if and only if it is no sha1 and no md5 hash; a sha1 hash loses two digits |
| BulkChecksums.CheckedExactly | scripts/populate_bulk_checksums.py:623-630 | a hash is checked with the program of its algorithm if and only if it is no md5 hash, which is given to sha256sum |
| BulkTheorem.InsertedPlaced | scripts/populate_bulk_checksums.py:803-825 | every line of the file stands where the lines before it and their verify lines leave it; right below it stand its own verify lines, the last of the list first, and it is made to go on |
| BulkTheorem.VerifyReads | scripts/populate_bulk_checksums.py:632-641 | a verify line echoes hash, two blanks and file to the program, further to the right than its download line |
| GithubApi.Client.Get | scripts/populate_bulk_checksums.py:289-312 | one call changes cache and counter as specified |
| GithubApi.BudgetHolds | scripts/populate_bulk_checksums.py:293-295 | over every series of requests the calls never exceed the limit |
| GithubApi.AnsweredForEver | scripts/populate_bulk_checksums.py:291-292 | a URL that was answered is answered alike for ever, without a further call |
| GithubApi.CacheIsTrue | scripts/populate_bulk_checksums.py:304-309 | every cached answer was there at the start or was given to a request for its URL |
| GithubApi.FreshReply | scripts/populate_bulk_checksums.py:293-309 | a URL that is not cached: within the budget one call, whose answer is handed on and kept; beyond it no answer and no change |
| GithubApi.CachedReply | scripts/populate_bulk_checksums.py:291-292 | a cached URL costs nothing, even when the budget is used up |
| AptToApk.ExtractRunBlock | scripts/fix_apt_in_wolfi.py:115-122 | the end and the text of a continued RUN instruction |
| AptToApk.FindAllAptRunBlocks | scripts/fix_apt_in_wolfi.py:125-138 | the scan finds exactly the apt-get blocks below the last FROM |
| AptToApk.ConvertPackages | scripts/fix_apt_in_wolfi.py:217-232 | the loop with its seen set gives the specified lists |
| AptToApk.EveryPackageAccounted | scripts/fix_apt_in_wolfi.py:217-232 | every package is mapped, or among the apk names, or unknown; no name twice; nothing listed without a package |
| AptToApk.CommandsClean | scripts/fix_apt_in_wolfi.py:194-214 | no kept command holds apt-get, after all the stripping and squeezing |
| AptToApk.AdaptedClean | scripts/fix_apt_in_wolfi.py:235-239 | adding the pip option cannot make one |
| AptToApk.ProcessDockerfile | scripts/fix_apt_in_wolfi.py:242-310 | the skips and the new lines |
| AptToApk.NoAptLeft | scripts/fix_apt_in_wolfi.py:313-329 | after a conversion that was not skipped no apt-get block is left in the final stage, when no kept command ends in a backslash |
| AptSelection.ConvertedExactly | scripts/fix_apt_in_wolfi.py:242-272 | a file is converted if and only if it has a FROM line, and below the last one exactly one RUN instruction with apt-get, which adds no repository; and that one is converted |
| AptTheorem.ConvertedLines | scripts/fix_apt_in_wolfi.py:275-308 | when some package has an apk name the first new line installs exactly the apk names of the packages, each once, otherwise there is no install line; the other lines are the kept commands, one for one and in order |
| AptTheorem.ReportedUnknown | scripts/fix_apt_in_wolfi.py:217-232 | a package without an apk name is reported, unless it is itself an apk name that is installed |
| AptTheorem.CommandExactly | scripts/fix_apt_in_wolfi.py:194-214 | a part is kept exactly when it has nothing to do with apt and says something, and then says the same, blanks apart |
| AptTheorem.CommandsInOrder | scripts/fix_apt_in_wolfi.py:194-214 | the kept commands are in the order of the parts, each where the earlier ones leave it |
| AptTheorem.AdaptedExactly | scripts/fix_apt_in_wolfi.py:235-239 | a command gets the pip option exactly when it installs with pip and does not have it; without the option it is what it was |
| WolfiPackages.ParseApkAddBlocks | scripts/fix_wolfi_packages_v2.py:268-291 | the index loops give the specified blocks |
| WolfiPackages.BlocksPartition | scripts/fix_wolfi_packages_v2.py:268-291 | the blocks cover the lines one after the other, without gap or overlap |
| WolfiTheorem.BlocksExactly | scripts/fix_wolfi_packages_v2.py:268-291 | a block is a command exactly when its first line starts one; it takes lines in as long as they end in a backslash, and loses nothing but blanks and backslashes |
| WolfiPackages.RewriteTokens | scripts/fix_wolfi_packages_v2.py:314-353 | the loop over the packages and the deduplication |
| WolfiPackages.RewrittenIsClean | scripts/fix_wolfi_packages_v2.py:318-353 | a rewritten list has no duplicate and nothing left to remove or rename |
| WolfiTheorem.RewrittenExactly | scripts/fix_wolfi_packages_v2.py:318-353 | a name is in the new list, once, if and only if some package stays as it |
| WolfiTheorem.RewrittenInOrder | scripts/fix_wolfi_packages_v2.py:318-353 | the names are in the order in which the packages first bring them in |
| WolfiTheorem.RemovedExactly | scripts/fix_wolfi_packages_v2.py:323-341 | the count of removed packages is that of the packages taken out |
| WolfiTheorem.RenamedExactly | scripts/fix_wolfi_packages_v2.py:327-346 | a renaming is reported exactly for the listed packages that stay |
| WolfiTheorem.NotesExactly | scripts/fix_wolfi_packages_v2.py:335-339 | the notes are those of the special packages that are taken out |
| WolfiTheorem.CommandResult | scripts/fix_wolfi_packages_v2.py:355-361 | a command is dropped exactly when all its packages are taken out, and kept exactly when it has some and none is listed |
| WolfiTheorem.CommandWords | scripts/fix_wolfi_packages_v2.py:357-361 | a new command keeps its front and its suffix; the words between them are every name that some package stays as, once, and nothing else |
| WolfiTheorem.BodyFound | scripts/fix_wolfi_packages_v2.py:302-306 | the packages of a command begin behind RUN, apk, add and the option, with any blanks between and before them |
| WolfiPackages.ProcessFile | scripts/fix_wolfi_packages_v2.py:364-436 | the loop with the dictionary of replacements equals replacing block by block, all other lines verbatim |
| WolfiTheorem.FileExactly | scripts/fix_wolfi_packages_v2.py:364-436 | the file is left alone when every command is kept; otherwise the blocks become its lines one after the other: kept ones verbatim, dropped ones gone, new ones followed by all the notes of the file |
| WolfiPackages.KeptAgain | scripts/fix_wolfi_packages_v2.py:294-361 | a rewritten command is left as it is if and only if it is stable: no bar at the end of its packages meets the bars of the suffix, or what is left without the bar is there and not listed |
| WolfiPackages.SecondPassIdle | scripts/fix_wolfi_packages_v2.py:364-443 | a second pass over the rewritten file changes nothing when its rewritten commands are stable and keep their line to themselves |
| WolfiPackages.SecondPassEmpties | scripts/fix_wolfi_packages_v2.py:302-361 | a file whose rewritten command is not stable, and which the second pass empties |
| SbomGraph.DependencyGraph.LoadSboms | scripts/sbom_dependency_graph.py:42-87 | loading gives the specified dictionaries, lists and edges |
| SbomGraph.IndexIsSound | scripts/sbom_dependency_graph.py:42-87 | after any series of files of different images: an image is in a package's list as often as the package in the image's, and both totals are equal |
| SbomGraph.EdgesExactly | scripts/sbom_dependency_graph.py:80-87 | an edge leads from source to target if and only if some document says that the one depends on or contains the other |
| SbomGraph.ImageHolds | scripts/sbom_dependency_graph.py:53-78 | the list of an image holds the named packages of its last readable file, in order, by name and version |
| SbomGraph.LoadedTwice | scripts/sbom_dependency_graph.py:53-78 | loading an image again keeps the agreement if and only if its first list was empty |
| SbomGraph.DependencyGraph.GetMostSharedPackages | scripts/sbom_dependency_graph.py:120-136 | the loop, the sort and the cut |
| SbomGraph.TopIsMostShared | scripts/sbom_dependency_graph.py:120-136 | the list is sorted, as long as it can be, and no shared package left out is in more images |
| SbomGraph.SharedExactly | scripts/sbom_dependency_graph.py:122-124 | a package is listed exactly when its own list holds more than one image |
| SbomDiff.DiffSboms | scripts/sbom_diff.py:72-148 | the comprehensions and loops give the specified difference |
| SbomDiff.DiffIsPatch | scripts/sbom_diff.py:72-111 | old versions and licences and the difference give exactly the new ones |
| SbomDiff.TotalsAdd | scripts/sbom_diff.py:124-133 | new total + removed = old total + added |
| SbomDiff.SwapTurns | scripts/sbom_diff.py:72-148 | swapping the documents swaps added and removed and turns every version change |
| SbomDiff.RelationsExactly | scripts/sbom_diff.py:113-122 | the patched relations have the new ends, and are the new ones if and only if no relation that stays changed its kind |
| SbomDiff.UpgradeIsStrict | scripts/sbom_diff.py:151-155 | an upgrade is a strict order that tells apart any two versions with different numeric parts |
| SbomDiff.UpgradeExactly | scripts/sbom_diff.py:151-155 | an upgrade has the larger number where the numeric parts first differ, or more of them |

## Left out

- All HTTP, registry, git and file access: answers, write results and file contents are inputs. A failed
  write is taken to leave the file as it was.
- The shell text of the download and compile commands of the generator is an opaque parameter without the
  keyword that is looked for (`Generator.Scripts`).
- Case mapping, digit classes and word characters are those of ASCII; blanks are those of Unicode, as Rust
  and Python define them. Python's `splitlines` is not modelled: the files of the pinning and checksum
  scripts are given as lists of lines.
- Numbers of the versions are unbounded once they are read (they are read as 64-bit numbers), so an overflow
  of minor + limit is not modelled. The build text of a version does not take part in the order,
  so the reason printed for versions that differ in it alone may be another; whether a bump is safe does not
  turn on it.
- `extract_description`, `extract_vendor`, `extract_tier`, `extract_github_source` and `extract_download_url`:
  single first-match expressions, easier versions of the ones that are proved.
- Checks 6 and 7 of the wiring checker (EXPOSE 9101 and the security labels): the wiring script does not
  establish them.
- `detect_health_port`, `detect_entrypoint`, `detect_cmd_args` of the wiring script: what they find is a
  parameter, and so is the printed JSON of the new CMD line. The healthcheck text that holds a newline is
  two lines here.
- WiringTheorem.WiringPasses: across two lines the condition is on all lines above the entrypoint, not on
  neighbours alone: either none ends in `ENTRYPOINT` and blanks, or none begins with a bracket.
- `parse_reference`, manifest inspection and the further columns of the worklist: not needed by the scan.
- AutoVersionRuns.RepoKept: a sufficient condition, because a release with slashes can restore owner and
  repository by chance; `RepoKeptExactly` is exact for versions without them.
- AutoVersionRuns.SparedRunSettles: a condition on the manifests alone; the exact one, which asks the
  releases, is `AutoVersion.SecondRunSettles`.
- SourceTypes.SourceTypeRead: of the opaque scripts it is taken that a download installs its tools with
  apt-get, and that a source build fetches with curl and holds no word that comes before it in the search.
- Bump.BumpedVersionRead: an earlier line in which a version argument starts, or which ends in `ARG` and
  blanks, is excluded: there the extractor's first match may be another one.
- Bump.TextBack: a text whose lines end in a carriage return is not restored, because the loop drops it.
- `bump_checksums_file` and `bump_with_manifest`: the first forgets the old checksum, so nothing is restored;
  the second replaces as `AutoVersion.Updated` does.
- AptToApk.NoAptLeft: the complexity test and the package expression of the script are an arbitrary function
  of the block's text, and its table of names is a parameter whose names hold no apt-get and no backslash at
  their end.
- AptTheorem.ConvertedLines: the names of the table are single words, as they are in the script's own table.
- AptToApk.ProcessDockerfile: package extraction and the complexity test of the script are parameters.
- WolfiPackages.SecondPassIdle: the three tables are parameters that fit together (new names are not listed
  themselves, hold no blank, hash or double bar, and notes are no commands). A rewritten command that ends in
  a backslash is excluded: in the second pass it takes in the line below it. The condition is exact for one
  command (`KeptAgain`), and one way for the file.
- WolfiTheorem.CommandWords: the tables fit together as above; without that a new name with a blank would be
  two words.
- BulkTheorem.VerifyReads: checksum and file name hold no quote and no blank.
- ObservabilityRuns.RunSets: a step whose marker is in the text already changes nothing and is not spoken of.
- GeneratedWiring.EntrypointIsWired: for images without an entrypoint of their own; a given entrypoint is printed
  as it is (`EntrypointRoundTrip.EntrypointRead`), whether it calls the shim or not.
- `replace_pending_checksum`, the search for checksums and the URL helpers of the checksum script.
- `find_shared_packages`, the licence distribution, CVE propagation and all report printing.
- Reports in HTML, Markdown and Prometheus form, SQLite queries, `policy_eval.rs`, `migrate.rs`,
  `pin_digests.rs`, the operator and the catalogue scripts.
