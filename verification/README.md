# Verified models of the installer's developer tools

This project models, in Dafny, the self-contained algorithms behind the installer's developer
tools and proves what those tools rely on. Every module models one component; the source is cited
by path and line in the table below.

- **Debian package selection.** `DebianVersion` proves that the character loop of the version
  comparison computes a zero-padded lexicographic order and that this order is a total preorder.
  `CatalogChoice` builds the order of candidates from it, `Chooser` proves that the candidate
  chooser returns a maximum of that order (or the installed version in its place), and `Resolver`
  proves that the worklist of one phase ends with a selection that is closed under dependencies.
  `KeptProvider` and `RepeatedIdentity` hold the two inputs at which that promise ends;
  `SmallCatalogs` computes the choices in them.
- **npm and Python resolution.** `SemVer` proves that version keys compare as section 11 of
  Semantic Versioning 2.0.0 ranks versions. `NpmRange` proves that compiled ranges admit exactly
  what a direct reading of the range admits, `NpmText` reads both from their texts, and
  `RangeLayout` proves that a range is read as what it says however it is laid out. `WheelGraph`
  proves what the verdict `resolved` of the wheel resolver means, while its constraints and extras
  grow. `JsonBounds` proves that the byte scan of a JSON document agrees with its real nesting,
  however it is written.
- **Publication.** `ReportFiles`, `PublishSingle` and `PublishSnapshot` model the file system as
  names mapped to inodes or contents. Every system call asks a fault schedule whether it works,
  fails without effect, or takes effect and still fails; the schedule is arbitrary, and covers
  the calls made during rollback. `PublishSingle` also lets a foreign process change the product
  before any call.
- **Template lines.** `TemplateLine` and `Tokenizer` prove that a template line is accepted
  exactly when its rendering can be inverted in one way only.
- **ZIP archives.** `ZipDirectory`, `ZipMembers` and `ZipExtraction` model the structure check,
  the member checks and the extraction loop of the Platform-Tools extractor.
- **Scan cache, subordinate IDs, counters, measurements.** `ScanCache` proves that cached scans
  equal cold ones over any sequence of runs, `SubordinateIds` that the allocator finds the least
  free block, `Counters` that rates of wrapping counters add up, and `Measurements` that streamed
  statistics equal batch statistics, the last two over exact reals.

`Outcomes`, `Faults`, `Texts`, `Octets`, `Lists` and `Orders` hold the shared vocabulary. Code
that changes state step by step is modelled by methods and classes whose contracts equate the new
state with a specification; the lemmas state what that specification promises.

## What the proofs found

- `ReportFiles`: a backup link whose call takes effect but reports a failure is nobody's record.
  It survives the rollback, so the restored report keeps a second link and the next run is refused.
  This happens to exactly the reports whose link call takes effect as the first call that fails
  (`TimedLeaks`, in `Publish` and `Collect`); `LeaveSecondLink` is one report for which it does, and
  `NextRunRefuses` states which reports the next run refuses.
- `PublishSingle`: a rename or unlink displaces a foreign file if and only if that file appears
  between the last check and the guarded call, and the call takes effect (`lost`). The contract of
  `PublishSingle` states both directions; `LoseForeignFile` is a run without faults that does it.
- `PublishSnapshot`: a previous file with a mode above 0777, such as a set-user-ID bit, cannot be
  written back, because the writer refuses the mode. After a single fault the products that are
  not restored are exactly the attempted ones with such a mode (`Publish`); `LeaveReplaced` is a
  schedule after which one stays replaced.
- `ScanCache`: reused facts are not charged to the discovery budget, so a scan with a manifest can
  succeed where a cold one fails. `WarmBeyondCold` gives two files for which it does, and
  `OnlyTheBudget` shows that nothing else can make the difference.
- `Counters`: the rates of a wrapping counter add up to the true total if and only if each interval
  adds nothing, or adds less than one turn while the clock moves (`RatesAddUp`). A whole turn between
  two readings is lost (`WholeTurnIsLost`), and so is what an interval without elapsed time adds
  (`SameTimeIsLost`).
- `Resolver`: dependencies are followed once for each row identity and mode. Of two rows with the
  same identity only the first one's dependency fields are read. `RepeatedIdentity` gives a package
  in two components of one repository, requested by its name and by a virtual name that only the
  second entry provides. Where all rows of one identity have the same dependency fields, nothing is
  lost (`UniformRowsClose`).
- `Chooser`: the installed version is returned in place of a lower candidate even for a virtual
  name, where only its own version is compared with the relationship. `KeptDoesNotServe` is an
  installed version that does not provide what is asked for (`OneTwoThree` gives the versions);
  `ListedUnlessKept` states exactly when the result is one of the rows that do.

## Model

| member | source | states |
|---|---|---|
| `DebianVersion.PartCompare` | tools/inventory.py:955-969 | The character loop computes the zero-padded lexicographic order of the two parts' integer keys |
| `DebianVersion.LengthFirstIsNumeric` | tools/inventory.py:964-967 | Comparing digit runs by length and then as text, leading zeros dropped, compares the numbers they denote, of any size |
| `DebianVersion.KeyCmpAntisymmetric` | tools/inventory.py:955-969 | Swapping the parts negates the comparison |
| `DebianVersion.KeyCmpTransitive` | tools/inventory.py:955-969 | The part order is transitive, and ties compose exactly |
| `DebianVersion.KeyTiesAreEqualTrims` | tools/inventory.py:955-969 | Parts tie exactly when their keys differ in trailing zeros only |
| `DebianVersion.VersionCompare` | tools/inventory.py:947-974 | The comparison returns the order of epoch, upstream part and revision, and raises exactly when an epoch is not an integer |
| `DebianVersion.CompareAntisymmetric` | tools/inventory.py:947-974 | Comparing versions is sign-antisymmetric and every version ties with itself |
| `DebianVersion.CompareTransitive` | tools/inventory.py:947-974 | Comparing versions is transitive, strictly so unless both comparisons tie |
| `DebianVersion.TiesAreCanonical` | tools/inventory.py:947-974 | Versions tie exactly when their canonical keys are equal |
| `DebianVersion.TildeSortsFirst` | tools/inventory.py:955-969 | For every prefix and suffix, a part followed by a tilde sorts before the part itself (section 5.6.12 of the Debian Policy Manual) |
| `Orders.OrIsPreorder` | tools/inventory.py:1219-1224 | Comparisons chained with `or` form a total preorder when each of them does |
| `Orders.BestIsGreatest` | tools/inventory.py:1225 | The maximum taken with a comparison as key is above every element, for every total preorder |
| `CatalogChoice.PinPriority` | tools/inventory.py:1051-1065 | The rule loop returns the first specific active match's priority, else 990 for the target release, else the greatest general priority, else the default |
| `CatalogChoice.FirstSpecificMeans` | tools/inventory.py:1057-1061 | The deciding specific rule is the first in order that is active and matches a row, and there is none only if no rule is so |
| `CatalogChoice.CopiesPriority` | tools/inventory.py:1188-1198 | A version's priority is that of the first specific rule that matches any copy, else the greatest over its copies; 500 for udebs |
| `CatalogChoice.KeptAreEligible` | tools/inventory.py:1165-1183 | A row survives the filters exactly when the query returned it and it is eligible |
| `CatalogChoice.CandidatesArePreordered` | tools/inventory.py:1219-1224 | The candidate comparison (pin, version, repository order, real name, URL) is a total preorder |
| `CatalogChoice.CopiesArePreordered` | tools/inventory.py:1203-1205 | So is the comparison of one version's copies (repository order, component, URLs) |
| `Chooser.Collect` | tools/inventory.py:1159-1183 | The row loop groups exactly the eligible rows by package, version and architecture, in order |
| `Chooser.Choose` | tools/inventory.py:1148-1233 | The chooser raises only over 4096 rows, and otherwise returns the outcome that the lemmas below describe |
| `Chooser.ChoiceStandsForCopies` | tools/inventory.py:1184-1206 | Each choice is an eligible row with the positive priority of all copies of its version, and the copy that none of the others comes before |
| `Chooser.EligibleIsStoodFor` | tools/inventory.py:1184-1206 | Every eligible row whose version has a positive priority and passes the suite filter is stood for by a choice |
| `Chooser.ChosenIsBest` | tools/inventory.py:1207-1233 | The result is a maximum of the competing candidates, or the installed version by the downgrade rule |
| `Chooser.ChosenSatisfies` | tools/inventory.py:1165-1233 | A result of the name asked for satisfies the relationship; a result of another name is an eligible row that the query returned, so provides the name in a satisfying version, or is the installed version in place of such a row; it is of the kind asked for |
| `Chooser.ListedUnlessKept` | tools/inventory.py:1226-1233 | The result is an eligible row of the query exactly when the downgrade rule does not keep an installed row, or keeps one that is eligible itself |
| `KeptProvider.KeptDoesNotServe` | tools/inventory.py:1165-1233 | A virtual name, asked for in version 2, for which the result is an installed provider of version 3 only |
| `Chooser.OnlyAllowedDowngrades` | tools/inventory.py:1226-1233 | A version below the installed one comes out only with downgrades allowed, a priority above 1000, or an installed version that fails the relationship |
| `Chooser.NothingMeans` | tools/inventory.py:1148-1209 | There is neither a choice nor an ambiguity exactly when the name is excluded or no eligible row passes the suite filter with a positive priority of its version |
| `Resolver.ResolveGroup` | tools/inventory.py:1377-1400 | The loop over a group's alternatives returns the first final offer, else the first offer, and reports each unreadable alternative that comes before the end of the search, no more and no fewer |
| `Resolver.DecidedAnswers` | tools/inventory.py:1378-1400 | What it returns is what an alternative of the group asks for: the named package in a satisfying version, a listed provider, or the installed version of such a provider |
| `Resolver.TakenKeeps` | tools/inventory.py:1335-1370 | Taking a task from the queue keeps the invariant, but for the groups of a mode it visits for the first time |
| `Resolver.AnsweredKeeps` | tools/inventory.py:1400-1411 | Answering a group, by a task for what it asks for or by an issue, keeps the invariant |
| `Resolver.Phase.Take` | tools/inventory.py:1338-1370 | The head of the loop records, selects and visits exactly as the specification of a taken task says; it raises exactly when the records exceed the budget or the identity is selected with another file |
| `Resolver.Phase.Answer` | tools/inventory.py:1375-1411 | One group gets an answer that it asks for, or an issue, and the invariant is kept |
| `Resolver.Phase.Follow` | tools/inventory.py:1371-1411 | After the loops over fields and groups, every group of the mode has an answer |
| `Resolver.Phase.Run` | tools/inventory.py:1335-1411 | The worklist ends, with an empty queue and the invariant, unless a limit raises; each round visits a new mode or shortens the queue |
| `Resolver.EmptyQueueCloses` | tools/inventory.py:1335-1411 | An empty queue means closure: for each group of each visited mode what one of its alternatives asks for is handled and, unless several versions of that very package are reported, is what is installed, or there is an issue |
| `Resolver.NamedPackageInPlace` | tools/inventory.py:1375-1411 | Without virtual providers a closed group has the very package in place that one of its alternatives names, in a satisfying version |
| `Resolver.HandledRowCloses` | tools/inventory.py:1335-1411 | The groups of a handled row are taken care of where it has the dependency fields of the row that its identity was visited with |
| `Resolver.UniformRowsClose` | tools/inventory.py:1335-1411 | Where all rows of one identity that seeds, plan, installation and catalog hold have the same dependency fields, the groups of every row queued for installation are taken care of |
| `Resolver.AnsweredAccounts` | tools/inventory.py:1400-1407 | Every task is a seed or asked for by a group of a visited mode, every new selection has a task, and every row comes from what the phase was given; answering a group keeps this |
| `RepeatedIdentity.FirstIsChosen` | tools/inventory.py:1148-1233 | By its name, a package listed in two components of one repository is chosen from the first |
| `RepeatedIdentity.SecondIsChosen` | tools/inventory.py:1148-1233 | By a virtual name that only the second entry provides, it is chosen from the second |
| `RepeatedIdentity.RunBoth` | tools/inventory.py:1335-1411 | The phase takes both of these seeds and stops, with a closed selection |
| `RepeatedIdentity.SecondRowIsNotFollowed` | tools/inventory.py:1335-1370 | At the end of the run on those two seeds nothing takes care of what the second row depends on |
| `Resolver.ResolvePhase` | tools/inventory.py:1335-1411 | Unless it raises, a phase handles every seed and leaves a closed selection in which nothing is queued or newly selected but seeds and what groups of visited modes ask for; with uniform rows no dependency of any row is lost |
| `SemVer.NpmVersion` | tools/inventory_apt.py:537-545 | From the parts of its text a version is read exactly when its components and identifiers are acceptable; it keeps its core and the value of each identifier |
| `NpmText.VersionIsSpelled` | tools/inventory_apt.py:529-545 | A text is read as a version exactly when, within 256 characters, it spells acceptable parts in the grammar, with or without a leading v, and then it is the version of those parts |
| `NpmText.WrittenIsRead` | tools/inventory_apt.py:529-545 | A version written out is read back as itself |
| `NpmText.BoundIsRead` | tools/inventory_apt.py:582-592 | The texts of bounds that the compiler writes and reads again give the bounds meant, or raise for a component over the limit |
| `SemVer.KeyCmpIsPrecedence` | tools/inventory_apt.py:529-545 | The tuples compare exactly as section 11 of Semantic Versioning 2.0.0 ranks the versions, and only equal versions tie |
| `SemVer.PrecedenceIsStrictTotal` | tools/inventory_apt.py:529-545 | That precedence is a strict total order |
| `SemVer.StrCmpIsTextOrder` | tools/inventory_apt.py:544-545 | Texts compare in ASCII order, a proper prefix first |
| `SemVer.PreCmpIsOrder` | tools/inventory_apt.py:544-545 | Prerelease tuples compare left to right, numbers below texts, a prefix below its extensions |
| `NpmRange.ReadOperand` | tools/inventory_apt.py:560-582 | An operand is read exactly when it is supported, padding its core with zeros |
| `NpmRange.RaisesOnOverflow` | tools/inventory_apt.py:584-592 | A token is refused exactly when it needs a successor beyond the integer limit |
| `NpmRange.DashZeroBound` | tools/inventory_apt.py:604-637 | A `-0` upper bound excludes its core, every prerelease of it and everything above |
| `NpmRange.BelowUpper` | tools/inventory_apt.py:587-592 | Being below the `-0` successor at a position means not exceeding the components up to it |
| `NpmRange.BetweenReading` | tools/inventory_apt.py:620-632 | Between an operand and its `-0` successor means at least the operand with the leading components unchanged |
| `NpmRange.TokenReading` | tools/inventory_apt.py:610-637 | The comparators of a caret, tilde, x-range or plain token hold exactly for the versions it reads as |
| `NpmRange.ReadsEach` | tools/inventory_apt.py:610-638 | A version that an arm of comparators admits reads as every one of its tokens |
| `NpmRange.ReadsAll` | tools/inventory_apt.py:610-638 | A version that reads as every token passes the whole arm |
| `NpmRange.HyphenCompiles` | tools/inventory_apt.py:595-604 | The comparators of a hyphen range hold exactly for the versions it reads as |
| `NpmRange.CompileArm` | tools/inventory_apt.py:594-638 | An arm compiles exactly when it is supported, to comparators and prerelease cores with its meaning |
| `NpmRange.CompileRange` | tools/inventory_apt.py:548-639 | A range of at most 16 arms, taken apart, compiles exactly when every arm is supported, each arm to its meaning |
| `NpmRange.NpmMatches` | tools/inventory_apt.py:642-650 | A version matches exactly when some arm admits its prerelease and all its comparators hold |
| `NpmRange.CompiledMatches` | tools/inventory_apt.py:642-650 | Matching a compiled arm is the direct reading of the arm, including its prerelease rule |
| `NpmRange.Matches` | tools/inventory_apt.py:548-650 | For every version and supported range, taken apart, compiling and matching equals the direct reading |
| `NpmRange.BelowIsPrecedence` | tools/inventory_apt.py:646-648 | The order the reading uses is the precedence of Semantic Versioning 2.0.0 |
| `NpmText.MatchesText` | tools/inventory_apt.py:529-650 | For every version text and range text, matching raises exactly for what is no version or no supported range, and otherwise is the direct reading of the arms that the text is taken for |
| `RangeLayout.ArmIsRead` | tools/inventory_apt.py:560-616 | Every layout of an arm, a hyphen range or operators and operands with any white space, arrows and prefixes, is taken for exactly what it says |
| `RangeLayout.RangeIsRead` | tools/inventory_apt.py:554-616 | And every layout of a range of at most 16 arms and 4096 characters |
| `WheelGraph.ActiveRequirements` | tools/inventory_apt.py:1863-1883 | The requirements returned are exactly the declared ones whose markers hold for the extras |
| `WheelGraph.ActiveIsMonotone` | tools/inventory_apt.py:1863-1883 | A requirement active under some extras stays active under more |
| `WheelGraph.Candidate` | tools/inventory_apt.py:1919-2008 | The index answer is the first eligible wheel in rank order and satisfies the combined constraints; none is given only if no wheel of the project is eligible |
| `WheelGraph.RecordedKeeps` | tools/inventory_apt.py:2026-2033 | Recording a constraint keeps the invariant, except that the name may now violate it |
| `WheelGraph.ChoseKeeps` | tools/inventory_apt.py:2049-2064 | A first choice keeps the invariant and revises nothing |
| `WheelGraph.FailedKeeps` | tools/inventory_apt.py:2036-2060 | A recorded problem is real, and the invariant is kept |
| `WheelGraph.LinkedKeeps` | tools/inventory_apt.py:2065-2073 | Extras, edge and task of a known distribution keep the invariant and cover the requirement |
| `WheelGraph.Resolve` | tools/inventory_apt.py:2034-2073 | One requirement ends with an edge to a version that satisfies every constraint recorded so far, or with a problem |
| `WheelGraph.Visited` | tools/inventory_apt.py:2021-2073 | After a visit every requirement active under its extras is covered |
| `WheelGraph.TaskTaken` | tools/inventory_apt.py:2014-2020 | Taking a task opens exactly its own visit |
| `WheelGraph.EmptyQueueResolves` | tools/inventory_apt.py:2074-2079 | An empty queue without problems is a consistent and closed graph in which edges lead from the root to everything chosen |
| `WheelGraph.ResolveGraph` | tools/inventory_apt.py:1886-2079 | The verdict `resolved` means that every chosen version satisfies every constraint ever recorded for it, every requirement active under the final extras has its edge, and a path of edges leads from the root to every chosen distribution; every recorded problem is real; the loop ends because unvisited triples shrink |
| `JsonBounds.Scan` | tools/inventory_apt.py:178-198 | The byte loop runs the scanner's transitions over the whole document |
| `JsonBounds.JsonBehaves` | tools/inventory_apt.py:178-198 | Scanning any written value adds its count, leaves the depth as it was, and passes exactly within the bounds |
| `JsonBounds.DocumentScan` | tools/inventory_apt.py:178-198 | For every value, whitespace and escapes, the scan passes exactly when the true nesting is at most 64 and the structure at most 2,000,000, and ends unquoted at depth 0 |
| `ReportFiles.ReportFiles.Enter` | scripts/collect-i3-1115g4.py:828-863 | Entering succeeds exactly without faults and with replaceable reports, after a fixed number of calls, and stages one new file for each |
| `ReportFiles.ReportFiles.WriteCheckpoint` | scripts/collect-i3-1115g4.py:865-879 | A checkpoint that succeeds is staged beside the reports and changes nothing else |
| `ReportFiles.ReportFiles.TakeBackups` | scripts/collect-i3-1115g4.py:889-904 | Backing up leaves the reports untouched; success links every previous report; a link leaks exactly when its call takes effect as the first that fails |
| `ReportFiles.ReportFiles.Install` | scripts/collect-i3-1115g4.py:905-918 | The forward loop publishes a prefix of the order, with every intermediate state recoverable and never JSON before its companions |
| `ReportFiles.ReportFiles.RestoreReports` | scripts/collect-i3-1115g4.py:921-938 | The rollback loop restores every report it gets to, JSON first; success restores all of them |
| `ReportFiles.ReportFiles.Rollback` | scripts/collect-i3-1115g4.py:919-951 | A confirmed rollback leaves exactly the previous directory and, of the backup links, exactly those that leaked; a failed one leaves it recoverable |
| `ReportFiles.ReportFiles.Publish` | scripts/collect-i3-1115g4.py:881-951 | For every fault schedule: all reports new, or exactly the previous ones, or retained with every previous inode reachable by its report or backup; two faults are needed for the last; of replaceable reports those backup links leak, and stay, whose call takes effect as the first that fails |
| `ReportFiles.ReportFiles.Close` | scripts/collect-i3-1115g4.py:969-1003 | Closing deletes nothing once recovery is retained, and otherwise reports success only when the staging directory is gone |
| `ReportFiles.ReportFiles.Exit` | scripts/collect-i3-1115g4.py:1005-1015 | A failed run with a checkpoint keeps its staging directory as it is |
| `ReportFiles.ReportFiles.Collect` | scripts/collect-i3-1115g4.py:828-1015 | Over a whole collection, every directory ever visible shows new JSON only with all new companions, and the end is new, previous, or retained in an existing staging directory and recoverable from it; the leaked backup links are those of the first fault, and are left in a retained directory |
| `ReportFiles.NextRunRefuses` | scripts/collect-i3-1115g4.py:815-822 | When the previous reports stand, the next run refuses exactly those whose backup link leaked |
| `ReportFiles.LeaveSecondLink` | scripts/collect-i3-1115g4.py:893-944 | One report and one fault after which the report keeps a second link and the next run, all of whose calls work, raises |
| `ReportFiles.ForwardIsMidway` | scripts/collect-i3-1115g4.py:905-918 | Every state of the forward loop is coherent and recoverable |
| `ReportFiles.PublishedIsForward` | scripts/collect-i3-1115g4.py:914-917 | One rename keeps that, with JSON only when all others are done |
| `ReportFiles.RestoredIsUndoing` | scripts/collect-i3-1115g4.py:921-936 | Restoring one report, replaced or created, keeps the rollback invariant |
| `ReportFiles.NothingLeft` | scripts/collect-i3-1115g4.py:937-946 | With no report left to look at, the directory is the previous one |
| `ReportFiles.LastOf` | scripts/collect-i3-1115g4.py:921 | Undoing from the end of the publication order meets JSON before any companion |
| `ReportFiles.NextOf` | scripts/collect-i3-1115g4.py:906 | JSON comes only when every companion has been published |
| `PublishSingle.Store.AtomicWrite` | tools/inventory.py:2184-2230 | The file ends as the new bytes and mode under an inode of its own, or as it was; without faults or foreign changes it succeeds on an acceptable destination; what it displaces is the expected inode or a foreign file put there after the last check |
| `PublishSingle.Store.PublicationState` | tools/inventory.py:2257-2267 | A snapshot is returned only of an absent or safe bounded file |
| `PublishSingle.Store.Restore` | tools/inventory.py:2290-2312 | The handler succeeds only when the previous content and mode, or absence, stand again |
| `PublishSingle.Store.PublishSingle` | tools/inventory.py:2270-2323 | Without foreign changes the product is the new bytes or exactly the previous state; an unknown outcome keeps a recovery directory with the previous bytes; one fault is never unknown; a file that is neither the previous one nor its own is displaced exactly when a foreign change put it there between a check and the call that relies on it, and at the rename that happens to any such file |
| `PublishSingle.LoseForeignFile` | tools/inventory.py:2205-2210 | A run without faults in which a foreign file, neither the previous one nor its own, that appears right before the rename is displaced |
| `PublishSingle.Store.GenerationLock` | tools/inventory.py:2234-2246 | A run may start only without faults and without retained recovery material |
| `PublishSingle.Store.Runs` | tools/inventory.py:2234-2323 | Over any sequence of runs, a run after an unknown outcome is refused and the recovery material stands |
| `PublishSnapshot.Publisher.AtomicWrite` | tools/publication.py:8-42 | The file becomes exactly the new content and mode, or stays what it was |
| `PublishSnapshot.Publisher.TakeSnapshot` | tools/publication.py:45-61 | The snapshot holds every output's previous file, and the names to change are exactly those that differ |
| `PublishSnapshot.Publisher.Rollback` | tools/publication.py:69-86 | Every attempted product whose rollback is not reported as failed is exactly its previous file or absent again; without a further fault the failed ones are exactly those of a special mode, and those keep their new content |
| `PublishSnapshot.Publisher.Publish` | tools/publication.py:45-86 | All three products are published, or all whose rollback writes succeed are restored; after one fault the failed ones are exactly the attempted products of a special mode, and each of them that was written stays replaced; the first fault decides how many are attempted; success counts the changes |
| `PublishSnapshot.LeaveReplaced` | tools/publication.py:8-86 | A schedule with one fault after which a set-user-ID product stays replaced |
| `Tokenizer.TailsSound` | tools/post_change_check.py:549-580 | Everything the search finds is a decomposition of the rendered line |
| `Tokenizer.TailsComplete` | tools/post_change_check.py:549-580 | The search finds every decomposition |
| `Tokenizer.TailsDistinct` | tools/post_change_check.py:549-580 | It finds none of them twice |
| `Tokenizer.Search.Ends` | tools/post_change_check.py:560-571 | The probe loop finds every position at which the token may end, overlapping ones and those of an empty delimiter included |
| `Tokenizer.Search.Collect` | tools/post_change_check.py:549-580 | The recursive search appends exactly its decompositions, in order, up to the cap |
| `Tokenizer.UniqueIffOne` | tools/post_change_check.py:582-587 | The uncapped search finds one candidate exactly when there is one decomposition |
| `Tokenizer.Search.UniquelyTokenized` | tools/post_change_check.py:547-587 | The test for one candidate, under the cap, accepts exactly the lines with one decomposition |
| `TemplateLine.Render` | tools/post_change_check.py:527-539 | Substituting from the last marker to the first in place equals joining the literal pieces with the replacements; it raises exactly on a missing theme value |
| `TemplateLine.FoundAtSpan` | tools/post_change_check.py:542-545 | Searching for a token's text finds it exactly where the pattern matched |
| `TemplateLine.SplitAtTokens` | tools/post_change_check.py:540-546 | The pieces cut out by searching are exactly the texts between the matches |
| `TemplateLine.SubstitutionDecomposes` | tools/post_change_check.py:527-587 | The renderer's own substitution is always among the decompositions |
| `TemplateLine.CheckLine` | tools/post_change_check.py:522-587 | A line is accepted exactly when the substituted values are its only decomposition |
| `ZipDirectory.FindEndRecord` | d-i/forky/scripts/desktop/android-platform-tools-extract.py:26-35 | The search finds the last end record whose comment reaches exactly to the end, if there is one |
| `ZipDirectory.Walk` | d-i/forky/scripts/desktop/android-platform-tools-extract.py:41-55 | The walk counts the entries exactly when the directory splits into at most the allowed number |
| `ZipDirectory.SplitIsUnique` | d-i/forky/scripts/desktop/android-platform-tools-extract.py:43-53 | A directory splits into entries in at most one way |
| `ZipDirectory.Preflight` | d-i/forky/scripts/desktop/android-platform-tools-extract.py:20-56 | An archive is accepted exactly when its last fitting end record is supported and the directory before it is exactly its count of entries (sections 4.3.12 and 4.3.16 of PKWARE APPNOTE.TXT) |
| `ZipMembers.AddParents` | d-i/forky/scripts/desktop/android-platform-tools-extract.py:107-112 | The parent loop succeeds exactly when no ancestor is a file, and then adds each as a directory |
| `ZipMembers.Extends` | d-i/forky/scripts/desktop/android-platform-tools-extract.py:84-122 | When one more member keeps the list consistent |
| `ZipMembers.CheckMembers` | d-i/forky/scripts/desktop/android-platform-tools-extract.py:75-124 | The member loop accepts exactly the lists with distinct names, no file above another member, and node and byte totals within bounds, that hold the required files |
| `ZipMembers.OrderDoesNotMatter` | d-i/forky/scripts/desktop/android-platform-tools-extract.py:84-124 | Acceptance does not depend on the order of the members |
| `ZipExtraction.Output.Copy` | d-i/forky/scripts/desktop/android-platform-tools-extract.py:136-153 | The chunk loop ends as the member's own stream and declared size decide; the running total never matters |
| `ZipExtraction.Output.Extract` | d-i/forky/scripts/desktop/android-platform-tools-extract.py:75-153 | An acceptable archive never conflicts with the output, ends at its first stream of another size than declared, stores no more than allowed, and on success is exactly the declared tree |
| `ZipExtraction.BuiltIsTree` | d-i/forky/scripts/desktop/android-platform-tools-extract.py:126-153 | Creating the members in turn gives each file its content, folders above them, and nothing else |
| `ScanCache.DiscoveryBudget.Charge` | tools/inventory.py:147-170 | Charging records one by one fails exactly when all of them together exceed the budget |
| `ScanCache.HitIsFound` | tools/inventory.py:310-314 | A genuine cache entry that fits a file's size and digest holds just what a scan would find |
| `ScanCache.ScanCheckout` | tools/inventory.py:280-346 | A scan succeeds exactly when the files allow it and the uncached part fits the budget, and its facts and manifest are those of the files alone |
| `ScanCache.EntriesAreGenuine` | tools/inventory.py:320-336 | A written manifest holds only what its generator's code found |
| `ScanCache.ColdThenWarm` | tools/inventory.py:280-346 | Where a cold scan succeeds, so does a scan with any cache |
| `ScanCache.OnlyTheBudget` | tools/inventory.py:147-157 | A warm scan that succeeds differs from a cold one only in the budget |
| `ScanCache.SecondDay` | tools/inventory.py:310-338 | The same for any two files that fit the budget one by one but not together |
| `ScanCache.WarmBeyondCold` | tools/inventory.py:147-157 | Two files whose records together exceed the record limit: on the manifest of the first their scan succeeds, without it it fails |
| `ScanCache.Checkout.Run` | tools/inventory.py:253-346 | One run returns the facts of a cold scan whenever there is one, and keeps the manifest genuine |
| `ScanCache.Checkout.Runs` | tools/inventory.py:253-346 | The same over any sequence of runs with edits, generator changes and damage to the manifest between them |
| `SubordinateIds.Ranges` | d-i/forky/scripts/late/gitbuild-policy.py:18-30 | The reader returns the entries of all lines in order, and raises exactly on a malformed one |
| `SubordinateIds.WrittenIsRead` | d-i/forky/scripts/late/gitbuild-policy.py:18-30 | A written entry is read back as itself, as the check after an allocation needs |
| `SubordinateIds.Sorts` | d-i/forky/scripts/late/gitbuild-policy.py:37 | Sorting by start orders the entries and keeps each of them |
| `SubordinateIds.FreeRange` | d-i/forky/scripts/late/gitbuild-policy.py:33-45 | The result is the least block within the policy that avoids every range; it raises exactly when the policy is invalid or there is none |
| `SubordinateIds.AllocationKeepsDisjoint` | d-i/forky/scripts/late/gitbuild-policy.py:33-45 | Recording a free block keeps disjoint entries disjoint, and later blocks avoid it |
| `Counters.Deltas.Counter` | scripts/collect-i3-1115g4.py:509-532 | One call answers and remembers as specified, for that key only |
| `Counters.Deltas.Samples` | scripts/collect-i3-1115g4.py:570-604 | Over a run, each answer depends on the last numeric reading of its own key only |
| `Counters.DeltaOfReadings` | scripts/collect-i3-1115g4.py:521-526 | The delta of two readings lies in [0, M), never exceeds the true increment, and equals it exactly when that is below one turn |
| `Counters.RatesAddUp` | scripts/collect-i3-1115g4.py:505-532 | Over any run, however often the counter wraps, rate times interval over scale sums to at most the true total, and to exactly that if and only if every interval is recoverable |
| `Counters.WholeTurnIsLost` | scripts/collect-i3-1115g4.py:521-526 | Two readings a whole turn apart, whose rates add up to less than was counted |
| `Counters.SameTimeIsLost` | scripts/collect-i3-1115g4.py:509-520 | Two readings at the same time, whose rates add up to less than was counted |
| `Measurements.NumbersOneMore` | scripts/collect-i3-1115g4.py:1107-1117 | One more number keeps count, first, last, difference, minimum, maximum and mean those of the batch |
| `Measurements.ItemsOneMore` | scripts/collect-i3-1115g4.py:1099-1105 | One more item keeps `changed` true exactly when not all items are equal |
| `Measurements.TallyOneMore` | scripts/collect-i3-1115g4.py:1093-1121 | One more element keeps the counts those of the batch |
| `Measurements.TallyAddsUp` | scripts/collect-i3-1115g4.py:1093-1094 | The status counts add up to the number of readings |
| `Measurements.StepSummarizes` | scripts/collect-i3-1115g4.py:1089-1121 | Streaming one more reading keeps a row equal to the batch statistics of its readings |
| `Measurements.Analysis.Record` | scripts/collect-i3-1115g4.py:1089-1121 | The loop body updates exactly one row and its source's count of ok readings |
| `Measurements.Analysis.Analyze` | scripts/collect-i3-1115g4.py:1074-1126 | For every event list, each row holds the batch statistics of its readings and each source its sample indices and ok readings, with no row or source that does not occur |

## Left out

- Collector `scripts/collect-p520-i7-10610u.py`: the same `ReportFiles`, `Deltas` and `analyze_measurements` code; the models are generic in the report names and cover both.
- `DebianVersion.VersionCompare`: non-ASCII digits and letters, and Python's limit of 4300 digits, are not modelled; versions whose epoch is no integer are excluded from the ordering lemmas because the comparison raises on them.
- `CatalogChoice.PinPriority`: whether a rule matches a row (patterns, release fields) and the order in which rules apply are given data.
- `Chooser.Choose`: the SQL query and the parsing of relationships are given data; relationship versions have integer epochs.
- `Resolver.Phase.Take`: the record budget is a count; its byte bound is left out.
- `Resolver.ResolvePhase`: models the worklist of one phase. The seeds (requests, base system, upgrades), the loop over contexts and phases, the provenance kept with each use, and the co-installation report come from code that is not part of this model.
- `Resolver.EmptyQueueCloses`: an installed version that stands in for a listed provider of a virtual name counts as an answer, because the code returns it; see `KeptProvider.KeptDoesNotServe`.
- `RangeLayout.RangeIsRead`: speaks of the texts that are such layouts; of other texts the model says only what `NpmText.RangeOf` does with them. Python's limit of 4300 digits lies beyond the length of a range.
- `WheelGraph.Candidate`: takes the ranked rows of the index as given; ranking by tags and version, prerelease filtering and the tie error are not modelled.
- `WheelGraph.ResolveGraph`: index rows, wheel metadata, marker evaluation and version specifiers are given data. The metadata cache and the byte budget are not modelled.
- `JsonBounds.DocumentScan`: speaks of well-formed documents; what the decoder says of malformed ones is not modelled.
- `ReportFiles.ReportFiles.Enter`: starts with the lock held; lock files, the search for a free staging name and directory descriptors are not modelled. A report's identity is its inode.
- `PublishSingle.Store.PublishSingle`: the content of the state note, path canonicity and the exact modes of temporary files are not modelled.
- `PublishSnapshot.Publisher.Publish`: temporary file names and the owner fields of the postcondition are folded into one check.
- `Tokenizer.Search.UniquelyTokenized`: the cap of 4096 candidates stops the search; acceptance needs exactly one, which the cap cannot turn into another number.
- `TemplateLine.CheckLine`: reading the registry, the sources and the target paths is not modelled.
- `ZipDirectory.Preflight`: the time limit is not modelled.
- `ZipMembers.CheckMembers`: the checks on one member's raw name and attributes are one given fact, and a name is its list of parts.
- `ZipExtraction.Output.Extract`: checksum and input/output errors of a stream, time limits, file ownership and the final comparison of the archive's times are not modelled.
- `ScanCache.ScanCheckout`: the scanner is a given function of the generator, the name and the text; JSON encoding of cached facts is taken to be lossless; the check of the staged desktop themes, which reads only the facts, is left out.
- `SubordinateIds.Ranges`: lines are given; digits are ASCII digits.
- `Counters.RatesAddUp`: exact reals stand for floating-point numbers.
- `Measurements.Analysis.Analyze`: exact reals, no NaN; lists are compared by their JSON text; units are texts; the sample schedule with its clock fields is left out, and a source without readings has no row table of its own.
- HTTP transfer, SQLite, archive decoding, the source scanners, vendor adapters, host probing, report rendering and the format checks of the validators: input/output or long lists of format rules without a deeper invariant.
