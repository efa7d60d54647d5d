# Transform Hub release tooling and test harness: a verified model

This project models the parts of the Transform Hub repository that hold real protocols,
transformations and streaming algorithms, and proves what they are for.

- **Release bundle.** `CanonicalJson`, `CanonicalReader`, `ReleaseDocument`, `ReleaseText`, `ReleaseWaves`,
  `CreateBundle`, `VerifyBundle` and `BuildThenVerify` model the canonical printer with a reader, the checksums that
  cover the document they are stored in, the wave plan, the bundle builder and the verifier;
  `DocumentDigests` shows what the digests pin down, `CreatedRelease` models the check of the annotated
  packages in place, `BundleBinding` the verifier's optional arguments, and `RepeatedIdentity` builds
  accepted bundles whose identity repeats a package. `BuildEvidence` and `BundleEvidence` say field by field
  what a build takes and leaves and what an accepted bundle shows. The digest is a parameter; no digest
  of finite length is free of collisions, so a statement about digests names the two texts that would have
  to collide. File systems are maps, and npm's tarballs and what `tar` reads
  out of them are parameters.
- **Publication.** `Publication` models the wave-ordered publisher as a state machine over a registry:
  every view may fail and be misread, every publication may fail before or after the registry took it,
  and a run may stop anywhere and be started again; `PublicationReport` models its document.
- **Publication identity and versions.** `PublicationIdentity` models paginated reads, the selection of
  one release and one pull request, and the bindings later steps re-check, `IdentityEvidence` what a resolved
  identity says field by field; `ReleaseVersions` the stable
  and development versions with their order (Semantic Versioning 2.0.0, section 11).
- **Fault relay.** `RelayFraming` models the line framing of a response under every fault mode with its
  byte accounts, `RelayEvidence` what each fault mode leaves as evidence; `RelayLedger` the session and stream
  books over all event handlers.
- **Gap detection.** `CursorChain` models the polls that check linked cursors, and joins them with the
  relay: what the relay drops, the check catches.
- **Command parser.** `CliCommands` and `CommandTree` model bracket matching, call extraction, blanking
  and the command tree of the documentation generator.
- **Release alignment.** `ImageTags`, `ProjectVersion`, `ProjectSettles` and `ReleaseAlign` model plan, apply,
  the license application and check.
- **Smaller protocols.** `ShellQuoting` (under section 2.2.2 of the POSIX.1-2017 Shell Command
  Language), `RollingSearch`, `AuditCapture`, `PortReservation`, `RunLock`, `BddChunks`,
  `BddLifecycle` and `MemoryRegistry`, with `MemoryEvidence` on what is reported of a process over its own readings.

Code that changes state step by step is modelled by methods and classes that are proved against
specification functions; the properties are lemmas about those functions, over every input, run or
reachable state. `Common` holds shared vocabulary and sequence facts.

Where the code falls short of what its documentation says, the model keeps the code, and a lemma gives
the exact condition under which the promise holds:

- `dropNextChange` removes exactly the first change line if and only if that line carries a cursor or no
  other change follows (`RelayFraming.DropRemovesFirstChange`).
- `silenceAfterSnapshot` forwards exactly the stream through the first snapshot line if and only if the
  chunk that brings this line brings no snapshot line directly after it
  (`RelayFraming.SilenceForwardsThroughSnapshot`); so what it forwards can depend on the chunking
  (`RelayFraming.ChunksDecideRepeatedSnapshots`).
- Two changes are dropped when the first carries no cursor (`RelayFraming.TwoChangesDropped`).
- When the fault mode is switched with bytes buffered, the byte accounts survive exactly if the switch
  stays among the line modes before silence has begun, or leads from pass mode into begun silence; every
  other switch needs an empty buffer (`RelayFraming.SwitchKeepsBooks`). Leaving pass mode counts the
  buffered bytes twice (`RelayFraming.LeavingPassDoubleCounts`), entering it never sends them
  (`RelayFraming.EnteringPassLosesBuffer`, with a run in `RelayFraming.EnteringPassLosesByte`), and
  entering begun silence from a line mode drops them uncounted (`RelayFraming.LineModesShareBuffer`).
- A version already in the registry is published again exactly when a failing view is misread as "not
  found" and the publication takes effect (`Publication.RepublishedExactlyWhenMisled`, over any number of
  runs `Publication.PublishedTwiceExactlyWhenMisled`). `Publication.TimeoutIsMisread` is such a failure, and
  with it a completed release is published again (`Publication.CompletedReleaseIsPublishedAgain`, for an
  accepted bundle in `Publication.AcceptedReleaseIsPublishedAgain`).
- The identity of an accepted bundle may list a package twice, because the verifier reads the list into
  a `Map` (`VerifyBundle.IdentityListEnumerates`, `RepeatedIdentity.RepeatedIdentityIsAccepted`).
- Given a packages directory, the bundle verifier re-computes the identity digest over the bundle's package
  entries instead of the identity's packages. For documents with the fields the builder writes, it accepts a
  bundle with something to release only if the printed identity and the identity with the entries put in
  collide (`BundleBinding.PackagesDirectoryIsRefused`); a bundle whose identity already carries the fields of
  the entries is not represented. So a bundle is refused with the very directory its build left, unless the
  two collide (`BundleBinding.BuiltBundleIsRefused`), and there are accepted bundles that no directory passes
  with (`BundleBinding.AcceptedBundleIsRefused`); the same check on a created release accepts
  (`CreatedRelease.CreatedReleaseVerifies`).
- The rolling window is cut before it is searched, so a chunk longer than 4096 minus the marker length
  plus one can hide a marker (`RollingSearch.SmallChunksAreComplete`, `RollingSearch.BoundIsTight`).
- Port reservation searches `width` ports from its hashed start, so it returns a port past its range
  exactly when every port from the start to the end of the range is unavailable
  (`PortReservation.AllocatedPastRange`, `PortReservation.PastRangeHappens`).
- From a free lock, after any run, a live process is refused a lock nobody holds exactly when the last
  process that took it has crashed without releasing it and its pid was started again
  (`RunLock.RefusedOnlyByReuse`, `RunLock.ReusedPidBlocks`).
- The planned pyproject.toml has its version line rewritten exactly when the text that the pattern matched
  does not occur earlier in the file (`ProjectVersion.PlanHitsItsLine`, `ProjectVersion.PlanMissesItsLine`).
  Otherwise the next plan finds the first version line past the replaced text
  (`ProjectSettles.NextPlanFinds`), and so one application of the alignment converges exactly when the
  project version settles (`ReleaseAlign.ApplyConverges`).
- The check looks at the licenses of fixtures too, which the license application leaves alone, so after both
  applications it passes exactly when the project version settles and no fixture with the name of a license
  target lacks its license (`ReleaseAlign.BothApplicationsPass`).
- A waiter of the audit capture that registers between the completion of the response and its end is turned
  away, although the last lines are still to be taken (`AuditCapture.LateWaitersMayMiss`,
  `AuditCapture.LastLineIsMissed`).
- Brackets inside quotes need not nest, so the laminarity of commands holds for unquoted text only
  (`CliCommands.QuotedBracketsMayOverlap`).
- A recorded peak is no lower than the spawn baseline, but it can be lower than the readiness baseline
  (`MemoryRegistry.ReadyBaselineMayExceedPeak`); an exit whose event was not yet delivered is called
  inaccessible by every assertion in between (`MemoryRegistry.UnmarkedExitIsReportedOnce`).

## Model

| member | source | states |
|---|---|---|
| CanonicalJson.CanonicalTextIdentifiesValue | scripts/release-main.js:32-40 | two JSON values of any depth, no object repeating a key, print the same canonical text exactly when they are equal with objects read as maps |
| CanonicalReader.CanonicalReadsBack | scripts/release-main.js:32-40 | the printed text of a value of any depth, read as JSON, is this value again, with the keys of every object in ascending order |
| ReleaseDocument.UnsignedRelease | scripts/release-main.js:316-320 | dropping the recorded checksum from a released manifest touches nothing but its release record |
| ReleaseDocument.ReadBack | scripts/release-main.js:356-371 | reading an annotated manifest gives back its name, its version and every field of its release record |
| ReleaseDocument.EmbeddedChecksumVerifies | scripts/release-main.js:316-320 | the checksum stored inside a package.json is the checksum of that very package.json |
| ReleaseDocument.ChecksumCoversTheRest | scripts/release-main.js:316-320 | two manifests share a checksum exactly when they differ at most in the recorded checksum or their texts without it collide |
| ReleaseDocument.OuterChecksumIgnoresItself | scripts/release-main.js:372-378 | the outer checksum does not depend on what its own field already holds |
| ReleaseText.SumsRoundTrip | scripts/release-main.js:463-464 | parsing a printed SHA256SUMS file returns every digest and name in order |
| ReleaseText.SumsReadExactly | scripts/release-main.js:597-605 | a text reads as these sums exactly when it is their lines, 64 hexadecimal digits, two spaces and a safe name each, with line breaks between them and nothing but white space around |
| ReleaseWaves.ValidateReleaseWaves | scripts/lib/release-boundary.js:191-227 | a plan passes exactly when its non-empty waves partition the boundary and every runtime dependency lies in an earlier wave |
| ReleaseWaves.OneWaveEach | scripts/lib/release-boundary.js:195-203 | in a partition every package sits in one wave only, so comparing recorded waves decides order |
| CreateBundle.ReleasePackages | scripts/release-main.js:321-334 | the walk accepts exactly the package sets with one public manifest for each boundary package |
| BuildEvidence.OffersExactly | scripts/release-main.js:321-334 | package files are accepted exactly when each boundary package is offered by one public file and every other file is private or without a name |
| BuildEvidence.IgnoredFileChangesNothing | scripts/release-main.js:327 | a file that is private, or whose name is missing or empty, leaves success, bundle and output of a build as they are without it |
| BuildEvidence.StrayFileStopsBuild | scripts/release-main.js:330-333 | a public file with a name outside the boundary, or with the name of another one, makes every build fail |
| CreateBundle.AnnotatePackages | scripts/release-main.js:356-371 | every package.json is rewritten with its checksum embedded, in plan order, and the entries list what was written |
| CreateBundle.PackWaves | scripts/release-main.js:404-445 | tarballs are listed in wave order with the digest and size of the stored file, or the first unsafe name stops the build |
| CreateBundle.Build | scripts/release-main.js:415-466 | the builder succeeds exactly on a buildable request and writes the bundle, its outer checksum and its sums |
| BuildEvidence.BuildsExactly | scripts/release-main.js:415-466 | a build succeeds exactly when the request names a version, tag, branch and three commit hashes, each boundary package is offered by one public file, the plan lists the boundary once with dependencies first, and every name npm gives is safe |
| BuildEvidence.AssembledOfTheRequest | scripts/release-main.js:343-355 | a release names the version, tag, branch, repository, commit, tree, node and npm of its request, each under its own name |
| BuildEvidence.BuiltBundleIsOfTheRequest | scripts/release-main.js:446-460 | a built bundle is the assembled one with its outer checksum set and nothing else |
| BuildEvidence.RecordedPackage | scripts/release-main.js:356-371 | what is recorded of a planned package: the checksum of its own source, the one of the package.json written for it, and the size and digest of its own tarball |
| BuildEvidence.WrittenManifest | scripts/release-main.js:356-371 | the package.json that a build writes has the version and the release record set, and keeps every other field of the input |
| BuildEvidence.OutputHolds | scripts/release-main.js:415-466 | the manifest file is the printed bundle, and the sums file has a line for each tarball in order and then its own |
| BuildEvidence.IdentityDocumentReads | scripts/release-main.js:343-352 | every field of the identity document reads back as the field of its name |
| BuildEvidence.ManifestReads | scripts/release-main.js:446-460 | every field of the bundle document reads back as the field of its name |
| BuildEvidence.ManifestListsRead | scripts/release-main.js:446-460 | so do the lists of packages, tarballs, waves and assets, item by item |
| VerifyBundle.PlanTextIdentifiesPlan | scripts/release-main.js:338-342 | comparing the canonical texts of two wave plans is comparing the plans |
| VerifyBundle.CheckHeader | scripts/release-main.js:534-543 | the header passes exactly when format, checksums, version, tag, branch, commit and plan are those of the release |
| VerifyBundle.ValidateAssetList | scripts/release-main.js:479-501 | length, set-size and membership tests accept exactly the permutations of the expected asset names |
| VerifyBundle.CheckPackages | scripts/release-main.js:546-567 | packages and identity packages pass exactly when both cover the boundary and agree entry by entry |
| VerifyBundle.CheckTarballs | scripts/release-main.js:568-596 | tarballs pass exactly when they are in bijection with the boundary and each file carries the recorded identity |
| VerifyBundle.CheckSums | scripts/release-main.js:597-609 | the sums file passes exactly when it is a permutation of the expected names with the right digests |
| VerifyBundle.Verify | scripts/release-main.js:533-609 | called without the optional arguments, the verifier accepts exactly the bundles whose packages, tarballs, assets and sums are in bijection with the boundary |
| BundleEvidence.AcceptedHeader | scripts/release-main.js:534-543 | an accepted bundle has the format, the digests taken over its own fields, the tag and branch of its version, two commit hashes, and the plan as its waves |
| BundleEvidence.AcceptedPackages | scripts/release-main.js:546-567 | every boundary package has one entry at the version of the bundle, with the source checksum that the identity records last |
| BundleEvidence.AcceptedTarball | scripts/release-main.js:568-596 | the file of a recorded tarball has the recorded size and digest, and its package.json the name, version, identity digest and recorded checksum of the package, and that checksum when it is taken again |
| BundleEvidence.AcceptedTarballList | scripts/release-main.js:568-596 | the recorded tarballs are one for each boundary package, under different names |
| BundleEvidence.AcceptedAssets | scripts/release-main.js:479-501 | the directories and a published list hold the recorded tarballs and the fixed files, each once and nothing else |
| BundleEvidence.AcceptedSums | scripts/release-main.js:597-609 | the sums file has a line with the digest of the stored file for each tarball and the manifest, and no more |
| BundleEvidence.PackedManifestsAgree | scripts/release-main.js:589 | when two accepted bundles anywhere record one checksum for a package, the package.json files in their tarballs agree in everything but the recorded checksum, or those two texts collide |
| BundleEvidence.AlteredManifestIsRefused | scripts/release-main.js:589 | an accepted bundle recorded anew around an altered package.json is refused on every site that stores it, unless the two texts collide |
| VerifyBundle.BundlePinsTarballs | scripts/release-main.js:570-593 | two directories accepted for one bundle hold the same tarballs exactly when no two files of one name collide |
| VerifyBundle.AcceptedFiles | scripts/release-main.js:479-500 | the tarball directory of an accepted bundle holds the recorded files and no others |
| VerifyBundle.AssetNamesAreDistinct | scripts/release-main.js:470-472 | in an accepted asset list no tarball shares a name with another or with a fixed file |
| VerifyBundle.IdentityListEnumerates | scripts/release-main.js:546-556 | the accepted identity list enumerates the boundary exactly when it is as long as it |
| RepeatedIdentity.RepeatedIdentityIsAccepted | scripts/release-main.js:546-556 | for any single package, version and commit there is a complete bundle that the verifier accepts although its identity lists the package twice |
| DocumentDigests.DigestPinsIdentity | scripts/release-main.js:353-355 | two release identities share a digest exactly when they are equal in every field or their texts collide |
| DocumentDigests.ChecksumPinsBundle | scripts/release-main.js:372-378 | two bundles share an outer checksum exactly when every other field of them is equal or their texts collide |
| CreatedRelease.VerifyRelease | scripts/release-main.js:639-655 | the check passes exactly when the identity digest fits, the directory offers the boundary and every listed package.json carries its recorded name, version, digest and checksum |
| BuildEvidence.ReleaseHoldsExactly | scripts/release-main.js:639-655 | the check of a created release spelled out over the fields of its record and its files |
| CreatedRelease.CreatedReleaseVerifies | scripts/release-main.js:379-394 | for every package set and plan, the directory that createRelease leaves passes the check of the release it returns |
| CreatedRelease.ReleasePinsPackages | scripts/release-main.js:642-653 | two directories that pass for one release hold the same package.json of a listed package exactly when its two texts do not collide |
| BundleBinding.VerifyFully | scripts/release-main.js:520-612 | with expected values and a packages directory the verifier accepts exactly the accepted bundles that also match them |
| BundleBinding.BindingHoldsExactly | scripts/release-main.js:502-519 | what each expected value asks of the bundle, an empty one asking nothing |
| BundleBinding.PackagesDirectoryIsRefused | scripts/release-main.js:610 | a bundle is accepted with a packages directory exactly when it is accepted without one, the directory holds what the bundle records, and the boundary is empty or the printed identity collides with its re-checked form |
| BundleBinding.BuiltBundleIsRefused | scripts/release-main.js:610 | a built bundle given the directory its build left is accepted exactly when it is accepted without it and the two texts collide |
| BundleBinding.SomeDigestTellsEntriesApart | scripts/release-main.js:353-355 | there is a digest for which no printed identity collides with one that has entries put in |
| BundleBinding.AcceptedBundleIsRefused | scripts/release-main.js:610 | for any single package, version and commit a bundle that is accepted without a packages directory and refused with every one |
| BundleBinding.RecordedChecksumPinsRelease | scripts/release-main.js:515-517 | two bundles accepted under one recorded outer checksum are the same exactly when their texts do not collide, and then have the same tarballs exactly when no two files of one name collide |
| BuildThenVerify.BuiltBundleVerifies | scripts/release-main.js:415-466 | for every package set and plan, the verifier accepts the built bundle exactly when the output directory held nothing foreign and npm gave the tarballs different flat names |
| BundleBinding.BuiltBundleBinds | scripts/release-main.js:502-519 | a built bundle matches what a publication identity binds exactly when its request is the one the identity names and its checksum the recorded one |
| BundleBinding.BuiltBundlePublishes | scripts/release-main.js:289-293 | for every package set, plan and publication identity, the built bundle passes the verification before publishing exactly when request, checksum, output directory and tarball names are as they should be |
| Publication.AcceptedBundleIsReady | scripts/release-main.js:520-612 | every package of an accepted bundle has one entry and one tarball that publishes it under the recorded version |
| Publication.RepublishedExactlyWhenMisled | scripts/release-main.js:664-684 | a version already present is published again exactly when a failing view is misread as missing, unless the publication fails before it takes effect |
| Publication.EarlierWavesComeFirst | scripts/release-main.js:688-712 | when a package is published, every package of every earlier wave is in the registry with the matching identity and checksum |
| Publication.DependenciesComeFirst | scripts/release-main.js:688-712 | every dependency a published package has inside the release is in the registry before it |
| Publication.NothingIsPublishedTwice | scripts/release-main.js:664-712 | over any number of runs, each stopped anywhere, whose failing views are not misread, no name and version is published twice or replaced |
| Publication.RunRepeatsExactlyWhenMisled | scripts/release-main.js:664-712 | a run publishes a version the registry has already exactly when one of its visits was misled and its publication took effect |
| Publication.PublishedTwiceExactlyWhenMisled | scripts/release-main.js:664-712 | the same over any number of runs, each stopped anywhere, from any registry |
| Publication.TimeoutIsMisread | scripts/release-main.js:680-682 | a failure for another reason that is read as a missing version |
| Publication.CompletedReleaseIsPublishedAgain | scripts/release-main.js:664-712 | a release completes into an empty registry without a repetition, and a second run whose first view fails that way publishes a version that is there |
| Publication.AcceptedReleaseIsPublishedAgain | scripts/release-main.js:664-712 | the same two runs for an accepted bundle, whatever the name, version and commit of its only package |
| Publication.RunPartitions | scripts/release-main.js:688-712 | what a run went past is split into published and reused, each in plan order |
| Publication.ReusedExactlyWhenThere | scripts/release-main.js:664-712 | in a run whose failing views are not misread a package is reused exactly when its version was in the registry at the start |
| Publication.CompletesExactlyWithoutConflict | scripts/release-main.js:664-712 | an undisturbed run completes exactly when no version of the plan is taken by another identity |
| Publication.InterruptedReleaseResumes | scripts/release-main.js:688-723 | after any interrupted runs without misread views one undisturbed run completes the release exactly when there was no conflict, and a further run publishes nothing |
| Publication.PublishPackage | scripts/release-main.js:694-708 | one package is reused, published or stops the run as the registry and the faults decide |
| Publication.PublishWaves | scripts/release-main.js:691-712 | the nested loops follow the run over the flattened plan and report for every wave, in order, what was published and what was reused in it |
| Publication.PublishBundle | scripts/release-main.js:688-723 | without the required credentials nothing is touched; otherwise the registry ends where the run over the plan ends, and in the document of a completed run the published lists of the waves joined are what the run published, the reused lists what it reused |
| Publication.ReportTellsReuse | scripts/release-main.js:698-710 | in a run without misread views a package stands in the reused list of its wave exactly when its version was in the registry at the start, and in the published list otherwise |
| Publication.MisreadExactly | scripts/release-main.js:679-683 | a failed view is read as a missing version exactly when its message and error output have "404" or "not found" in any letters, and the message does not speak of an immutable version |
| PublicationReport.ChecksumPinsPublication | scripts/release-main.js:713-722 | two publication documents share a checksum exactly when they agree in identity digest and in what each wave published and reused, or their texts collide |
| PublicationReport.DocumentReads | scripts/release-main.js:713-722 | every field of the publication document reads back as the field of its name, wave by wave |
| PublicationIdentity.ReadPaginated | scripts/release-main.js:89-104 | whatever the host answers, the rows of the pages up to a short one are filtered; too many matching rows, an invalid envelope or endless full pages decide otherwise |
| PublicationIdentity.StableCollectionIsRead | scripts/release-main.js:89-104 | from a collection that does not change, for every page size, the read is the filter of all of it, with an overflow exactly when too many rows match |
| PublicationIdentity.KeptOne | scripts/release-main.js:111-137 | one row is left exactly when one row of the whole collection matches, and it is that row |
| PublicationIdentity.CanonicalIdIsStable | scripts/release-main.js:54-62 | a canonical identifier is accepted again and unchanged |
| PublicationIdentity.ResolvedIdentityBinds | scripts/release-main.js:138-244 | every resolved identity is accepted unchanged when it is re-checked, and names the only matching pull request and release |
| IdentityEvidence.ShortPageEnds | scripts/release-main.js:89-104 | after full pages a short one ends the read with the kept rows of all of them, unless they are too many |
| IdentityEvidence.BadAnswerIsRefused | scripts/release-main.js:94-95 | after full pages an answer that is not an envelope with as many rows as it says, at most a page, is refused |
| IdentityEvidence.FullPagesGoOn | scripts/release-main.js:89-104 | full pages alone do not end a read, unless the kept rows are too many |
| IdentityEvidence.ResolvesExactly | scripts/release-main.js:138-218 | an invocation is resolved exactly when it pushes the tag of a stable version or asks to recover it, all commits and trees agree, and one pull request and one release belong to the version |
| IdentityEvidence.ResolvedMode | scripts/release-main.js:138-182 | the mode of a resolved identity follows from event, ref and inputs, and its version, tag and branch belong together |
| IdentityEvidence.ResolvedCommits | scripts/release-main.js:174-205 | its commits and trees are those that git shows, and agree with the invocation and with each other |
| IdentityEvidence.ResolvedPull | scripts/release-main.js:105-137 | its pull request is the only one that merged the release branch of the repository into main as the tagged commit |
| IdentityEvidence.ResolvedRelease | scripts/release-main.js:111-123 | its release is the only one of the tag, no prerelease, and public for a recovery |
| IdentityEvidence.BindsExactly | scripts/release-main.js:219-244 | a document binds exactly when every single field is as required, and then to these values |
| IdentityEvidence.IdentifiersAre | scripts/release-main.js:54-62 | accepted identifiers are positive safe integers without a sign or a leading zero |
| ReleaseVersions.StableRoundTrip | scripts/release-flow.js:3-9 | every number triple writes a stable version that reads back as the triple |
| ReleaseVersions.StableIsText | scripts/release-flow.js:3-9 | every accepted stable version is the text of the triple it reads as |
| ReleaseVersions.DevelopmentLeadsToNextRelease | scripts/release-flow.js:16-23 | a stable version precedes its development version, which precedes its release, and no stable version lies between the two releases |
| ReleaseVersions.RoundsCountUp | scripts/release-flow.js:16-23 | n rounds of development and release add n to the patch number |
| ReleaseVersions.ReleaseUndoesDevel | scripts/release-flow.js:11-18 | a release version is taken from exactly the texts that are a stable version followed by -devel |
| RelayFraming.LinesAndTail | bdd/lib/hub-event-watch-relay.ts:331-369 | complete lines and the rest are the stream cut up, nothing lost |
| RelayFraming.LinesOfAppend | bdd/lib/hub-event-watch-relay.ts:331-369 | cutting the stream between two chunks changes neither the lines nor the rest |
| RelayFraming.PassForwardsEverything | bdd/lib/hub-event-watch-relay.ts:340-371 | for any chunking pass mode forwards exactly the received bytes and counts the frames of the whole stream |
| RelayFraming.LineModesIgnoreChunks | bdd/lib/hub-event-watch-relay.ts:378-439 | in the modes that relay line by line the outcome is that of the complete lines of the whole stream |
| RelayFraming.DropForwardsKept | bdd/lib/hub-event-watch-relay.ts:404-422 | what dropNextChange writes, drops and counts, line by line of the whole stream |
| RelayFraming.DropRemovesFirstChange | bdd/lib/hub-event-watch-relay.ts:404-408 | dropNextChange removes exactly the first change line if and only if it carries a cursor or no other change follows |
| RelayFraming.TwoChangesDropped | bdd/lib/hub-event-watch-relay.ts:404-408 | two changes of which the first has no cursor are both dropped |
| RelayFraming.DropWritesKeptLines | bdd/lib/hub-event-watch-relay.ts:378-439 | for any chunking the lines of what dropNextChange writes are the kept lines of the stream |
| RelayFraming.SilenceSends | bdd/lib/hub-event-watch-relay.ts:372-437 | for any chunking silence writes the stream through the run of snapshot lines that the chunk of the first one brings, drops the rest and keeps the accounts |
| RelayFraming.SilenceForwardsThroughSnapshot | bdd/lib/hub-event-watch-relay.ts:372-437 | for any chunking silence forwards exactly the stream through the first snapshot line if and only if the chunk that brings it brings no snapshot directly after it |
| RelayFraming.AloneComesAlone | bdd/lib/hub-event-watch-relay.ts:423-430 | when no snapshot line of the stream directly follows the first one, that holds for every chunking |
| RelayFraming.ChunksDecideRepeatedSnapshots | bdd/lib/hub-event-watch-relay.ts:372-430 | two snapshot lines are both forwarded from one chunk and only the first from two |
| RelayFraming.EveryByteIsAccounted | bdd/lib/hub-event-watch-relay.ts:331-440 | over any run through pass and the line modes, the accounts hold after every chunk if and only if every switch is harmless |
| RelayFraming.SwitchKeepsBooks | bdd/lib/hub-event-watch-relay.ts:331-440 | from any of these modes to any other, the accounts hold after the next chunk exactly when the switch is harmless |
| RelayFraming.EnteringPassLosesBuffer | bdd/lib/hub-event-watch-relay.ts:340-371 | when pass mode is entered the accounts hold exactly when nothing is buffered |
| RelayFraming.LineModesShareBuffer | bdd/lib/hub-event-watch-relay.ts:372-439 | between line modes the accounts hold exactly when nothing is buffered or silence has not begun |
| RelayFraming.EnteringPassLosesByte | bdd/lib/hub-event-watch-relay.ts:340-371 | a run in which a received byte is neither written nor counted as dropped |
| RelayFraming.LeavingPassDoubleCounts | bdd/lib/hub-event-watch-relay.ts:331-371 | when pass mode is left for any line mode the accounts hold exactly when nothing is buffered or silence has begun |
| RelayFraming.DeliverKeepsBounds | bdd/lib/hub-event-watch-relay.ts:334-338 | whatever the mode and the chunk at most 64 frames and 1 MiB are retained |
| RelayFraming.Evidence.PassNext | bdd/lib/hub-event-watch-relay.ts:342-363 | the next complete line in pass mode is counted as seen and as forwarded |
| RelayFraming.Evidence.PassChunk | bdd/lib/hub-event-watch-relay.ts:340-371 | the loop of pass mode leaves the evidence that the framing specification gives |
| RelayFraming.Evidence.RelayChunk | bdd/lib/hub-event-watch-relay.ts:378-439 | the loop of the other modes leaves the evidence that the framing specification gives |
| RelayFraming.Evidence.ForwardSelectedData | bdd/lib/hub-event-watch-relay.ts:331-440 | one chunk in any mode changes the evidence as the framing specification says, and an oversized one closes the stream |
| RelayEvidence.ResetClosesAtFirstLine | bdd/lib/hub-event-watch-relay.ts:409-414 | for any chunks in reset mode the watch is reset and closed exactly when the joined stream has a newline; nothing is written, forwarded or dropped, and until then the buffer is the whole stream |
| RelayEvidence.ResetObservesFirstLine | bdd/lib/hub-event-watch-relay.ts:409-414 | the chunk that completes the first line makes exactly that line the observed one |
| RelayEvidence.OversizedChunkCloses | bdd/lib/hub-event-watch-relay.ts:331-338 | in every mode a chunk that would overflow the line buffer closes the watch and is not looked at |
| RelayEvidence.TallyCounts | bdd/lib/hub-event-watch-relay.ts:378-403 | a tally holds the number of snapshot lines, of heartbeat lines and of change lines |
| RelayEvidence.FramesAreTheFirst | bdd/lib/hub-event-watch-relay.ts:378-403 | the recorded frames are the first 64 lines that have a type |
| RelayEvidence.HoldForwardsEverything | bdd/lib/hub-event-watch-relay.ts:378-439 | holdResponseHeaders observes and forwards every line |
| RelayEvidence.DropObservesEverything | bdd/lib/hub-event-watch-relay.ts:404-408 | dropNextChange observes every line and forwards the kept ones |
| RelayEvidence.SilenceCounts | bdd/lib/hub-event-watch-relay.ts:415-430 | for any chunks, silence counts and records the lines it has looked at and counts as forwarded the lines it has sent |
| RelayLedger.HandleKeepsValid | bdd/lib/hub-event-watch-relay.ts:176-271 | every event at any time keeps the books balanced and the evidence bounded |
| RelayLedger.ReachableLedgersAreValid | bdd/lib/hub-event-watch-relay.ts:176-271 | in every reachable state sessions and streams opened are those closed plus those live, with at most 8 watches of 64 frames and 1 MiB |
| RelayLedger.ReportedSessionsBalance | bdd/lib/hub-event-watch.ts:777 | the reported numbers satisfy sessions opened = sessions closed + live sessions |
| RelayLedger.StreamLivesUntilEnded | bdd/lib/hub-event-watch-relay.ts:442-460 | over any events a live stream is still live exactly when none of them was one of its own closing events |
| RelayLedger.EndedStreamsStayEnded | bdd/lib/hub-event-watch-relay.ts:442-460 | whatever events follow, a stream that has ended is never live and counted again |
| RelayLedger.CloseIsFinal | bdd/lib/hub-event-watch-relay.ts:176-194 | after close no session or stream remains whatever late events arrive |
| RelayLedger.Relay.AttachSession | bdd/lib/hub-event-watch-relay.ts:196-213 | a session is opened and numbered unless the relay is closed |
| RelayLedger.Relay.ForwardRequest | bdd/lib/hub-event-watch-relay.ts:215-272 | a request opens a stream and, when selected and below the limit, one piece of evidence |
| RelayLedger.OneEventOpens | bdd/lib/hub-event-watch-relay.ts:196-272 | which sessions and streams live after an event, and what it opens and counts |
| RelayLedger.OneEventObserves | bdd/lib/hub-event-watch-relay.ts:196-271 | which event changes which evidence, and how |
| RelayLedger.OneEventSelects | bdd/lib/hub-event-watch-relay.ts:215-447 | which watches have a stream of their own after an event |
| RelayLedger.SelectedRequestsAreWatched | bdd/lib/hub-event-watch-relay.ts:215-272 | over any events the matches are the selected requests accepted, and the watches are one each for the first eight of them |
| RelayLedger.Relay.CloseStream | bdd/lib/hub-event-watch-relay.ts:442-447 | a closing event counts a stream once |
| RelayLedger.Relay.CloseConnection | bdd/lib/hub-event-watch-relay.ts:449-460 | a connection is closed once with all its streams |
| RelayLedger.Relay.Close | bdd/lib/hub-event-watch-relay.ts:176-194 | closing ends every session and stream and empties the books |
| CursorChain.Watch.ReceiveOne | bdd/lib/hub-event-watch.ts:1695-1704 | one poll accepts the unseen changes in cursor order up to a match or the first broken link |
| CursorChain.Watch.Receive | bdd/lib/hub-event-watch.ts:1692-1708 | the polls before the deadline advance the cursor as the specification of polls says |
| CursorChain.PollTells | bdd/lib/hub-event-watch.ts:1695-1704 | a poll accepts a chain of observed changes of which only the last may match; it waits after taking every newer change, and breaks at an observed one that names another cursor |
| CursorChain.ReceiveTells | bdd/lib/hub-event-watch.ts:1692-1708 | the same over all polls: a found change is the first match and the last accepted one, a break names another cursor, and waiting leaves no newer change of any poll |
| CursorChain.PollWalksTheRest | bdd/lib/hub-event-watch.ts:1698-1704 | filtering and sorting leave the delivered changes not yet accepted, in stream order |
| CursorChain.OnlyNextContinues | bdd/lib/hub-event-watch.ts:1701-1702 | of all changes of a linked stream only the next one names the current cursor |
| CursorChain.RunStands | bdd/lib/hub-event-watch.ts:1878-1895 | after any polls the accepted changes are the stream's own beginning, and a failure means a gap |
| CursorChain.AcceptsExactlyGapFree | bdd/lib/hub-event-watch.ts:1878-1895 | split over any number of polls the check accepts exactly when what was delivered is a gap-free beginning of the stream |
| CursorChain.DropShowsAtNextChange | bdd/lib/hub-event-watch.ts:1692-1708 | with one change dropped the delivery stays gap-free exactly until the change after it |
| CursorChain.RelayDropsFirstEvent | bdd/lib/hub-event-watch-relay.ts:404-408 | the change events that dropNextChange lets through are all but the first |
| CursorChain.DroppedChangeIsCaught | bdd/lib/hub-event-watch.ts:1692-1708 | as soon as a change after the relay's dropped one was observed the check has failed |
| CursorChain.DropIsCaughtFromBytes | bdd/lib/hub-event-watch.ts:1692-1708 | for any chunks fed to dropNextChange, an observer of the written bytes that has seen a change has failed |
| CliCommands.MatchingCloses | scripts/docs.js:498-528 | the scanner finds exactly the position at which the bracket closes, if there is one |
| CliCommands.FindMatching | scripts/docs.js:498-528 | the loop over depth, quote and escape returns that position or -1 |
| CliCommands.BracketsNest | scripts/docs.js:498-528 | an unquoted bracket opened inside a matched pair closes before that pair does |
| CliCommands.QuotedBracketsMayOverlap | scripts/docs.js:498-528 | two spans with quoted brackets that overlap |
| CliCommands.FirstBracketIsMatched | scripts/docs.js:546-547 | the first bracket after the start of a match is the bracket the pattern matched |
| CliCommands.BodyIsStringEnd | scripts/docs.js:543 | for a closed literal the pattern's backtracking ends where the bracket scanner ends the string |
| CliCommands.FindCmdCalls | scripts/docs.js:541-559 | the search returns the closed calls of the text in order with their names and texts |
| CliCommands.HitExactly | scripts/docs.js:543 | the pattern matches exactly where the word, an opening bracket and a quote stand with spaces between them and a literal follows |
| CliCommands.WrittenCallIsFound | scripts/docs.js:543-555 | a call written out is found with its own name, escaped quotes included, up to its closing bracket |
| CliCommands.NameIsInside | scripts/docs.js:541-559 | a call whose bracket is closed has its whole name inside |
| CliCommands.CallsAreLaminar | scripts/docs.js:541-565 | unquoted calls are nested or disjoint, and nested ones are unquoted again |
| CliCommands.CallText | scripts/docs.js:550-555 | the text of a call is itself a call from its first character to its last |
| CliCommands.GroupOfCall | scripts/docs.js:541-559 | the calls from inside a call on are those of its own text followed by those after it |
| CommandTree.BlankingKeepsTheRest | scripts/docs.js:604-608 | blanking keeps the length and every character outside the nested calls and leaves spaces inside |
| CommandTree.OwnTextIsOwn | scripts/docs.js:602-618 | whatever is found in a command's own text stands outside its children |
| CommandTree.BlankNested | scripts/docs.js:604-608 | the loop from the last start to the first yields the blanked text |
| CommandTree.ParseCliCommandCall | scripts/docs.js:600-620 | the recursive parse terminates and returns the command tree of the call |
| CommandTree.FlattenCliCommands | scripts/docs.js:687-696 | flattening lists the tree in order with full names |
| CommandTree.DirectNestedIsTop | scripts/docs.js:561-565 | the direct nested calls are those met by jumping over each call found |
| CommandTree.FlattenListsEveryCall | scripts/docs.js:687-696 | in unquoted source the flattened tree of a call lists every nested call exactly once, in source order, each under the names of the calls around it |
| ImageTags.MatchesAreApart | scripts/release-align.js:143-147 | no image reference starts inside another |
| ImageTags.FirstOccurrenceIsNext | scripts/release-align.js:147-152 | in the partly rewritten text the first occurrence of the next match's text is that match |
| ImageTags.UpdateImageTags | scripts/release-align.js:142-155 | the rewriting loop gives every image reference the version and changes nothing else |
| ImageTags.RetagHolds | scripts/release-align.js:142-155 | after one rewriting every tag is the version |
| ImageTags.RetagKeepsTheRest | scripts/release-align.js:142-155 | rewriting changes nothing but the tags |
| ImageTags.RetagChangesNothing | scripts/release-align.js:142-155 | rewriting changes nothing exactly when every tag is the version already |
| ProjectVersion.LineExactly | scripts/release-align.js:303 | the pattern matches exactly the lines that hold the key, the sign and a quoted value, with spaces between and as far as the spaces after it still reach the end of a line |
| ProjectVersion.PlanHitsItsLine | scripts/release-align.js:298-317 | the planned file has its version line rewritten if and only if the matched text does not occur earlier in the file |
| ProjectVersion.InPlaceIsUpToDate | scripts/release-align.js:298-317 | once the version line itself is rewritten the next plan has nothing to change |
| ProjectVersion.PlanMissesItsLine | scripts/release-align.js:313 | for a file in which another entry ends like the version line, the plan rewrites that entry and the next plan still differs |
| ProjectSettles.NextPlanFinds | scripts/release-align.js:298-317 | for every file and version, the plan after an applied plan finds the target if nothing was to change or the matched text has no earlier occurrence, and otherwise the version of the first line past the replaced text |
| ProjectSettles.SettlesExactly | scripts/release-align.js:298-317 | one application leaves nothing to change exactly when that version is the target, and an error exactly when there is none |
| ProjectSettles.MissedLineStays | scripts/release-align.js:313 | a version line that lies past the replaced text keeps its version, so the next plan differs |
| ReleaseAlign.SectionChangesAlign | scripts/release-align.js:376-407 | the changes planned for a section, applied one after another, align it |
| ReleaseAlign.ChangesAlign | scripts/release-align.js:886-891 | planning on the manifest as it is and applying change by change aligns every section |
| ReleaseAlign.NothingPlannedWhenAligned | scripts/release-align.js:398-405 | no change is planned exactly when the sections are aligned |
| ReleaseAlign.AlignKeepsProblems | scripts/release-align.js:386-431 | alignment neither cures nor causes a validation error |
| ReleaseAlign.CheckWorkspaceGroups | scripts/release-align.js:172-249 | no error is reported exactly when both groups exist, agree, hold every included directory and no excluded one |
| ReleaseAlign.ComputeChangePlan | scripts/release-align.js:331-553 | the plan lists exactly the drift and the problems of the repository |
| ReleaseAlign.BlockedExactly | scripts/release-align.js:331-553 | nothing blocks an application exactly when no aligned file has a stray first-party dependency, no bounded one an excluded dependency on the version, no excluded package has the version and the groups agree, all over names and fields |
| ReleaseAlign.AlignedIsAligned | scripts/release-align.js:844-964 | aligning an aligned repository changes nothing exactly when the project file then has the target version or none |
| ReleaseAlign.NoDriftMeansAligned | scripts/release-align.js:844-964 | nothing is written exactly when the repository is aligned |
| ReleaseAlign.DriftCountsDifferences | scripts/release-align.js:844-964 | the number of writes is the number of parts of the repository that alignment changes |
| ReleaseAlign.ApplyConverges | scripts/release-align.js:844-964 | after one unblocked application there is no drift and no error exactly when the project version settles |
| ReleaseAlign.ReleasesPreserve | scripts/release-align.js:872-929 | over any number of releases, identities, versions outside the boundary and fixture identities are unchanged |
| ReleaseAlign.AlignKeepsOtherDeps | scripts/release-align.js:380-405 | every dependency keeps its name and its range prefix, and only included packages change version |
| ReleaseAlign.Repository.ApplyChanges | scripts/release-align.js:844-964 | a blocked application writes nothing; an unblocked one puts the root, the released packages and what they depend on in the release on the version, leaves the rest, and counts the parts that differ afterwards |
| ReleaseAlign.AlignedFollows | scripts/release-align.js:844-964 | an application puts every released package on the version and every first-party dependency inside the release on its old range sign and the version, and leaves every other field; over names and fields |
| ReleaseAlign.Repository.Check | scripts/release-align.js:574-710 | the check passes exactly on an aligned repository without errors whose licenses are in place; there every released package and dependency is on the version, and the root and every target carry the license |
| ReleaseAlign.Repository.ApplyLicenses | scripts/release-align.js:975-1048 | the root and every license target among the workspaces get the license field and text, the two root files and the workspaces that differ afterwards are counted, and nothing else is touched |
| ReleaseAlign.BothApplicationsPass | scripts/release-align.js:844-1048 | after an unblocked application and the license application the check passes exactly when the project version settles and no fixture named like a license target lacks its license |
| ShellQuoting.ReadEscaped | scripts/run-bdd-docker.js:193 | a quoted string adds exactly itself to the word being read, whatever it holds |
| ShellQuoting.LineReadsBack | scripts/run-bdd-docker.js:311-329 | splitting a composed command line gives its pieces back |
| ShellQuoting.QuotedListReadsBack | scripts/run-bdd-docker.js:311 | splitting a quoted argument list gives the arguments back, empty strings and quotes included |
| ShellQuoting.ScriptReadsBack | scripts/run-bdd-docker.js:325-328 | splitting the Cucumber script gives npm's words and then exactly the passed arguments |
| ShellQuoting.InnerCommandRoundTrips | scripts/run-bdd-docker.js:311-328 | splitting the composed command and then its last sh -c argument recovers the original argument list |
| RollingSearch.FoundIsThere | bdd/lib/python-exception-stderr.ts:29-35 | for every chunking a marker that is found is in the stream |
| RollingSearch.FoundExactlyWhenSeenWhole | bdd/lib/python-exception-stderr.ts:29-35 | the search succeeds exactly when some occurrence lies whole inside one of the windows |
| RollingSearch.SmallChunksAreComplete | bdd/lib/python-exception-stderr.ts:29-35 | with chunks of at most 4096 - (m - 1) characters the marker is found exactly when it occurs in the stream |
| RollingSearch.BoundIsTight | bdd/lib/python-exception-stderr.ts:33-34 | one character more in one chunk and a marker can be missed |
| RollingSearch.TotalIsOfTheStream | bdd/lib/python-exception-stderr.ts:31-32 | however the stream is cut into chunks, the bytes counted against the budget are those of the stream |
| RollingSearch.AssertExceptionOnStderr | bdd/lib/python-exception-stderr.ts:15-53 | the reader passes exactly when the stream is within its budget and the windows show the marker |
| AuditCapture.RecordsAreTheAuditedLines | bdd/lib/runtime-manifest-audit.ts:43-86 | for any chunking the records are the audited lines of the stream so far, in order |
| AuditCapture.EndTakesTheLastLine | bdd/lib/runtime-manifest-audit.ts:70-75 | at the end every line of the stream has been taken, up to a malformed one |
| AuditCapture.SettlingIsFair | bdd/lib/runtime-manifest-audit.ts:35-42 | ending a capture rejects exactly the waiters that no record has settled |
| AuditCapture.WaitersGetTheFirstMatch | bdd/lib/runtime-manifest-audit.ts:35-99 | unless it was turned away, a waiter gets the first record ever captured that matches, and none is pending after the end |
| AuditCapture.FindsTheFirst | bdd/lib/runtime-manifest-audit.ts:93-94 | the search ends at the first record to which the predicate does not say no |
| AuditCapture.StatesOfACapture | bdd/lib/runtime-manifest-audit.ts:43-112 | a capture fails exactly at an error or a malformed line, is over exactly once failed, ended or closed, and then takes no record |
| AuditCapture.RegistersAs | bdd/lib/runtime-manifest-audit.ts:93-99 | a new waiter gets what is found, else a rejection after a failure, else it is turned away on a complete or closed response and waits otherwise |
| AuditCapture.LineEndsDoNotMatter | bdd/lib/runtime-manifest-audit.ts:72-83 | a text reads alike with a newline, with a carriage return before it, and as the last line without one |
| AuditCapture.LateWaitersMayMiss | bdd/lib/runtime-manifest-audit.ts:93-99 | a waiter is turned away exactly when it registers on a complete or closed response without a match or an error, and then misses what it is owed exactly when the capture goes on or a record still matches; its caller gets an exception exactly when its predicate throws on a captured record before it matches one |
| AuditCapture.LastLineIsMissed | bdd/lib/runtime-manifest-audit.ts:70-99 | a waiter turned away although the last line, taken at the end, matches |
| AuditCapture.SettledOnce | bdd/lib/runtime-manifest-audit.ts:35-68 | a settled waiter never changes again |
| AuditCapture.AuditStream.OnData | bdd/lib/runtime-manifest-audit.ts:77-86 | the data handler takes the complete lines of the buffered text as the specification does |
| AuditCapture.AuditStream.OnEnd | bdd/lib/runtime-manifest-audit.ts:70-75 | the end handler takes the last line and settles every waiter |
| AuditCapture.AuditStream.OnComplete | bdd/lib/runtime-manifest-audit.ts:97 | a complete response is noted, and nothing is settled by it |
| AuditCapture.AuditStream.OnError | bdd/lib/runtime-manifest-audit.ts:88-89 | an error ends the capture and rejects every pending waiter |
| AuditCapture.AuditStream.Shut | bdd/lib/runtime-manifest-audit.ts:100-112 | closing rejects every pending waiter and ends the capture |
| AuditCapture.AuditStream.WaitFor | bdd/lib/runtime-manifest-audit.ts:93-99 | a new waiter gets a record already captured or the exception of its predicate, is rejected after an error, is turned away on a complete or closed response, or waits |
| PortReservation.ChunkHash | bdd/lib/ownership.js:79 | the folded hash is the base-31 polynomial of the chunk id modulo 2^32 |
| PortReservation.AllocatedPastRange | bdd/lib/ownership.js:76-125 | the port returned for a chunk is at or past base + width exactly when every port from the hashed start up to there is unavailable |
| PortReservation.PastRangeHappens | bdd/lib/ownership.js:76-85 | a chunk and a host for which the search ends past its range |
| PortReservation.CleanedAt | bdd/lib/ownership.js:113-119 | exactly the reclaimable markers of a range go, and the others keep what they record |
| PortReservation.Reservations.TryPort | bdd/lib/ownership.js:86-122 | one attempt claims a free port, reclaims a dead owner's marker, or leaves the markers alone |
| PortReservation.Reservations.AllocateOwnedPort | bdd/lib/ownership.js:84-125 | the search terminates despite its retry and leaves the outcome that `Allocates` describes |
| PortReservation.Reservations.Release | bdd/lib/ownership.js:102-109 | only the reservation that still carries the token is removed |
| PortReservation.LiveMarkersStay | bdd/lib/ownership.js:112-122 | no search removes or changes a live owner's marker |
| PortReservation.OutsideStays | bdd/lib/ownership.js:84-86 | ports outside the searched range keep their markers |
| PortReservation.PortsAreNotShared | bdd/lib/ownership.js:76-125 | while the first owner lives a second search never hands out the same port |
| PortReservation.FirstAvailableIsTaken | bdd/lib/ownership.js:84-125 | the first available port is taken, and the search gives up exactly when there is none |
| PortReservation.SearchExactly | bdd/lib/ownership.js:84-125 | the outcome of a search port by port: the first free port, an error exactly when that port fails otherwise, the dead markers up to there removed and the taken port marked as the caller's |
| RunLock.LockFile.Acquire | bdd/lib/ownership.js:143-170 | an acquisition creates the file or replaces a stale one, and is refused exactly when a live process is named |
| RunLock.LockFile.Release | bdd/lib/ownership.js:173-178 | only the owner's pid with its own token removes the file |
| RunLock.AtMostOneHolder | bdd/lib/ownership.js:143-179 | over any starts, crashes, acquisitions and releases at most one live process holds the lock |
| RunLock.HoldersTakeTurns | bdd/lib/ownership.js:143-179 | between two successful acquisitions the first holder has released the lock or crashed |
| RunLock.RefusedOnlyByReuse | bdd/lib/ownership.js:143-179 | after any run from a free lock, a live process is refused a lock nobody holds if and only if the process that took it last crashed without releasing it and its pid was started again since |
| RunLock.CrashedHoldersNeverBlock | bdd/lib/ownership.js:156-168 | without pid reuse, after any run, a live process gets the lock exactly when nobody holds it |
| RunLock.TakenOverAfterCrash | bdd/lib/ownership.js:156-168 | once its owner has crashed the lock can be taken, whatever happens until someone takes it or the pid starts again |
| RunLock.ReusedPidBlocks | bdd/lib/ownership.js:158-166 | a run in which the pid of a crashed holder is reused and everyone is refused a lock that nobody holds |
| BddChunks.ValidateManifest | scripts/run-bdd-waves.js:173-241 | validation passes exactly on a sound manifest, and every reported error is true of it |
| BddChunks.AcceptedExactly | scripts/run-bdd-waves.js:173-241 | a manifest is accepted exactly when every chunk lists existing files and no file has two places, every exclusion is of a listed file outside the default chunks with a reason, and the default chunks are defined, different, and list every other feature on disk |
| BddChunks.CheckDeclarations | scripts/run-bdd-waves.js:174-198 | the nested loops with the map of seen features decide whether every feature is an existing file listed once |
| BddChunks.FitsExactlyWhenDeclaredOnce | scripts/run-bdd-waves.js:174-198 | adding chunk after chunk to the features seen succeeds exactly when no feature is listed twice anywhere |
| BddChunks.Partition | scripts/run-bdd-modes.js:55-72 | size, membership and disjointness tests accept exactly the splits of the default chunks into base and extra |
| BddChunks.ExtraIsTheRest | scripts/run-bdd-modes.js:15 | with the extra chunks computed as the rest the split holds exactly when base is a set of default chunks and the rest has no repetition |
| BddChunks.SelectionsAreTakenWhole | scripts/run-bdd-waves.js:383-393 | the list, the one chunk or the default chunks asked for are taken as they stand exactly when they are known, at least one and none twice |
| BddChunks.RunsAsOftenAsItsChunk | scripts/run-bdd-waves.js:226-233 | a feature is run, and counted, as often as the one chunk that lists it is named |
| BddChunks.EveryFeatureRunsOnce | scripts/run-bdd-modes.js:55-77 | both validators accepting, base and extra mode together run every eligible feature on disk exactly once and no excluded one, and all mode the same |
| BddLifecycle.Runner.RunMode | scripts/run-bdd-modes.js:126-193 | a refused lock ends the run untouched; otherwise the calls and the ending are those of `Life`, and the environment marker is restored |
| BddLifecycle.LifeIsOrderly | scripts/run-bdd-modes.js:126-193 | under every mix of statuses and throws a prefix of the chunks is run, none after a failure, exactly those are cleaned once each, and the lock is released once, last |
| BddLifecycle.LifeFollowsTheScript | scripts/run-bdd-modes.js:126-193 | every call of a run with its arguments: the lock, the ramps and chunks of the straight script up to the first failing call, one ramp down from the chunk of that call, the cleanups, the release |
| BddLifecycle.FirstErrorIsReported | scripts/run-bdd-modes.js:153-191 | the run ends with the first error thrown anywhere, else with the first failing status, else with 0 |
| BddLifecycle.GreenMeansAllRan | scripts/run-bdd-modes.js:138-152 | a mode that ends with 0 has run all of its chunks |
| BddLifecycle.BothGreenMeansAllFeaturesRan | scripts/run-bdd-modes.js:107-193 | base and extra mode both ending with 0 have run each eligible feature exactly once and no excluded one |
| MemoryRegistry.Memory.TrackProcess | bdd/lib/memory-registry.ts:380-396 | a process is tracked once, with its spawn reading as baseline and peak |
| MemoryRegistry.Memory.RecordProcessExit | bdd/lib/memory-registry.ts:428-447 | an exit moves the record to the completed map and, when unexpected, to the unreported ones |
| MemoryRegistry.Memory.MarkProcessesAsExpectedToExit | bdd/lib/memory-registry.ts:471-478 | exactly the listed tracked processes become expected to exit |
| MemoryRegistry.Memory.RecordProcessReady | bdd/lib/memory-registry.ts:597-606 | the readiness reading is recorded, a missing one too |
| MemoryRegistry.Memory.SampleAll | bdd/lib/memory-registry.ts:619-625 | every tracked process takes its reading |
| MemoryRegistry.Memory.AssertAll | bdd/lib/memory-registry.ts:722-835 | the walk over a map that shrinks under it meets every process once, reports as specified and consumes the unreported exits |
| MemoryEvidence.RecordTellsReadings | bdd/lib/memory-registry.ts:380-636 | over any run the record of a process is told by its own readings: baselines, readiness, last sample, peak, and whether it was marked |
| MemoryEvidence.ReportedByReadings | bdd/lib/memory-registry.ts:722-835 | over any history a process is reported still running exactly when it is marked and something was read of it, inaccessible exactly when it is not marked and nothing was read, and over the threshold exactly when it is not marked and the reading exceeds its last readiness reading, else its first one, by more than that |
| MemoryEvidence.ExitKeepsRecord | bdd/lib/memory-registry.ts:428-447 | an exit leaves the record with the last readings, kept for good, and pending unless the exit was expected |
| MemoryRegistry.ProcessesAreIndependent | bdd/lib/memory-registry.ts:380-478 | every event acts on each pid, and reports about it, as if it were the only one |
| MemoryRegistry.RunsAreIndependent | bdd/lib/memory-registry.ts:722-835 | over a whole run the reports about a pid are those of its own history |
| MemoryRegistry.MarkedExitsAreNeverReported | bdd/lib/memory-registry.ts:471-478 | once a tracked process is marked no assertion of the run reports its exit |
| MemoryRegistry.UnmarkedExitIsReportedOnce | bdd/lib/memory-registry.ts:819-835 | an unmarked long-lived exit is reported exactly once, by the first assertion after its delivery; before it, it is called inaccessible once for each assertion that was not drained |
| MemoryRegistry.ExitsAreKept | bdd/lib/memory-registry.ts:444-446 | every exit stays in the completed map, with the record taken at the exit unless the pid is tracked anew |
| MemoryRegistry.PeaksBoundBaselines | bdd/lib/memory-registry.ts:380-447 | in every reachable registry each record's peak is at least its spawn baseline and its final reading |
| MemoryRegistry.StepKeepsBounds | bdd/lib/memory-registry.ts:609-636 | no event breaks those bounds, and while a process stays tracked its peak never falls |
| MemoryRegistry.ReadyBaselineMayExceedPeak | bdd/lib/memory-registry.ts:597-606 | a run after which a readiness baseline exceeds the recorded peak |

## Left out

- Strings are sequences of Unicode scalar values where JavaScript has UTF-16 code units; key order in canonical JSON is by code unit, `charCodeAt` is the scalar value, and lone surrogates do not occur.
- JSON numbers are kept as their ECMAScript text; JSON.parse and the pretty-printed files are represented by the values they carry.
- SHA-256, `npm pack`, `tar`, git and the repository host appear as parameters; their own behaviour is not modelled.
- VerifyBundle.Verify: the call without expected values and packages directory; `BundleBinding.VerifyFully` has both.
- BundleBinding.PackagesDirectoryIsRefused: documents with the fields the builder writes; a bundle with additional fields in its identity entries, which the source could accept with a directory, is not represented.
- `verifyDraft`: a subset of the tests of `verifyBundle`.
- `downloadReleaseAssets` and `finalizeRelease`: downloads, with the inventory tests that `VerifyBundle.ValidateAssetList` shows in general form.
- PublicationIdentity.ReadPaginated: the answers of the host are a finite list, at whose end the read is still going on; the texts of the errors are not modelled.
- PublicationIdentity.ResolvedIdentityBinds: which error is raised first, and the JSON text of the identity file, are not modelled.
- ReleaseVersions.DevelopmentLeadsToNextRelease: components above 2^53 - 1, where JavaScript numbers round, are reported as inexact instead of being rounded.
- Publication.PublishBundle: the sleep between waves and the console reports are not modelled.
- Trailers, held response headers, time stamps and `resetSelectedWatch` of the relay; back-pressure and the HTTP/2 library itself.
- RelayLedger.Relay.CloseConnection: connections are found by their number instead of through shared objects.
- Wall-clock deadlines of the cursor polls are a bound on their number; the rest of the scenario script is not modelled.
- `findMatching` with other bracket characters, the option and description extraction from a command's own text, and Markdown generation.
- ReleaseAlign.Repository.ApplyChanges: workspace names are distinct and each manifest file belongs to one entry.
- ReleaseAlign.Repository.Check: included, excluded and license-only packages are as the boundary file has them; the license text is a parameter.
- ReleaseAlign.Repository.ApplyLicenses: the closing comparison of excluded manifests with themselves, which no step changes.
- The container life cycle of run-bdd-docker.js: timeouts, signal handlers and host preparation.
- AuditCapture.AuditStream.OnData: works on decoded text; splitting of UTF-8 sequences by the decoder is not modelled, nor is the HTTP request.
- RollingSearch.AssertExceptionOnStderr: byte counts are those of a length function for decoded chunks; a multi-byte character cut by a chunk is not modelled.
- PortReservation.Reservations.AllocateOwnedPort: one search at a time, each system call succeeding or failing as the host says; the races between reading, removing and creating a marker are left out.
- RunLock.LockFile.Acquire: one atomic step; mutual exclusion does not hold for the separate reads, removals and writes of two processes.
- BddLifecycle.Runner.RunMode: the serial path; the parallel scheduler, the delays and the progress lines are left out, and a throwing progress line counts as a throw of the chunk.
- The cgroup and heap readings of the memory registry, its containers and retained stderr: maxima and copies of the same shape as the process records.
- MemoryRegistry.Memory.AssertAll: an assertion is one step; events between its awaits are not modelled, and the order of its reports is that of an arbitrary walk.
