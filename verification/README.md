# Pairflow text tooling and configuration: a verified model

Pairflow keeps a bubble's configuration in `bubble.toml`, its core model in one generated HTML page,
and its plan in contracts and task packets that scripts check. All of that is text that is printed,
cut up, scanned and put together again. This project models those programs in Dafny and proves what
they are for: that nothing is lost, that separately written programs agree, and that steps leave the
files in a state from which one can go on.

Loops and updates of the programs are methods here, proved against functions; the theorems are lemmas
about the functions, for all inputs. The modules whose names end in `Meaning`, and their likes
(`BubbleReading`, `TomlLiterals`, `TomlLayout`, `JsonSpelling`, `ModelPages`, `ModelElements`, `ModelRows`,
`ModelMoves`, `TraceRegexes`, `TraceWeave`, `FenceMarks`, `ContractEdits`, `ContractClean`, `ProbeCodes`),
say what the functions compute in terms of the texts, records and files themselves.

| part | files |
|---|---|
| text, JSON strings | `Text`, `Json`, `JsonSpelling` |
| the two TOML parsers and the printer | `TomlLexer`, `TomlParser`, `TomlStore`, `TomlReader`, `TomlPrinter`, `TomlItems`, `TomlDocuments`, `TomlLiterals`, `TomlLayout`, `TomlMeaning`, `GlobalToml` |
| the bubble configuration | `BubbleConfig`, `BubbleValidation`, `BubbleValidator`, `BubbleMeaning`, `BubbleReading`, `BubbleLookup`, `BubbleRender`, `BubbleCanonical`, `BubbleDocument`, `BubbleFields`, `BubbleFixpoint`, `BubbleRoundTrip` |
| the core model's extract, migrate, build | `UnitSegments`, `UnitMeaning`, `UnitStore`, `ModelMarkers`, `ModelLines`, `ModelRecords`, `ModelRecorder`, `ModelRows`, `ModelCodes`, `ModelElements`, `ModelWeave`, `ModelRestore`, `ModelSections`, `ModelPages`, `ModelSection`, `ModelTree`, `ModelMoves`, `ModelRoundTrip`, `ModelExtractor` |
| the non-code masker and the erasure | `TraceMask`, `TraceReference`, `TraceOracle`, `TraceRegexes`, `TraceErasure`, `TraceWeave`, `TraceErase` |
| packets and contracts | `PacketFences`, `FenceMarks`, `PacketSections`, `PacketMirror`, `PacketRecords`, `ContractDraft`, `ContractClean`, `ContractAppends`, `ContractReopen`, `ContractEdits` |
| the other tools | `ProbeRunner`, `ProbeCodes`, `OrderCensus`, `CensusMeaning`, `GlobScope`, `CoverageLock`, `CoverageMeaning` |

`dafny verify dfyconfig.toml` checks all of it.

## What the proofs found

- **Printing and re-reading a configuration.** The parser's comment scan and list splitter toggle on
  every quote, escaped or not. A printed configuration reads back exactly when no item hides a `#` or
  an element's comma badly; otherwise the parser refuses it, and it never reads something else
  (`BubbleRoundTrip.PrintedConfigReadsBack`). Any accepted configuration whose test command becomes
  `a"#b`, or whose overlay entries become `a"` and `b`, is accepted and lost so
  (`BubbleRoundTrip.QuoteThenHashIsLost`, `BubbleRoundTrip.QuotedElementIsLost`).
- **Validating twice.** Non-empty model names are not enough: `x /` is trimmed and then stripped of its
  slash, which leaves a trailing space that the next validation takes away. The exact condition is that
  the stored names are non-empty and end visibly (`BubbleRoundTrip.ValidatedAgain`).
- **The masker's speculative pass** alone is not monotone; the union with the plain pass is
  (`TraceMask.SpeculationUncovers`, `TraceMask.MaskIsMonotone`).
- **The probe runner** compares target and mutant before the baseline run only. Its last run meets a
  mutated target exactly when the mutant file still differs from the target's starting bytes after the
  baseline (`ProbeRunner.RanMutatedExactly`). A baseline command that overwrites the mutant file makes it
  probe an unmutated target and report a blind probe (`ProbeRunner.MutantCanBeReplaced`); a command that
  leaves the file alone cannot (`ProbeRunner.GuardedProbeRunsMutated`).
- **Reopening a contract.** The second commit's context appends may bring rows that the recorded commit
  does not hold. The reopened contract closes as recorded exactly when they leave the rows alone
  (`ContractReopen.ReopeningCloses`, `ContractAppends.AppendedRowIsUnrecorded`).
- **The scope prefilter** loses matches exactly for patterns whose first segment has a star or no slash
  after it; a pattern that starts with a slash accepts no relative path to begin with
  (`GlobScope.RootPrefilterIsExact`).
- **The coverage gate** compares only the last of several entries a packet has for one unit
  (`CoverageLock.EveryEntryIsLocked`): a green plan stays green whatever earlier entries for it claim
  (`CoverageLock.EarlierEntryIsIgnored`). A packet whose `ledger_slice` is null is passed over without a
  word.
- **Unreachable failures.** The segmentation's overlap and partition failures and the migration's final
  comparison can never fire (`UnitSegments.SegmentSnapshot`, `UnitStore.Migrate`).

## Model

| member | source | states |
|---|---|---|
| `TomlLexer.StripInlineComment` | src/config/bubbleConfig/parser.ts:97-123 | the loop returns the text before the first `#` outside quotes, trimmed, and the whole trimmed line when there is none; quotes toggle whatever stands before them |
| `TomlLexer.FindEqualsIndex` | src/config/bubbleConfig/parser.ts:125-148 | the loop returns the first `=` outside quotes, or -1 |
| `TomlLexer.SplitTomlList` | src/config/bubbleConfig/parser.ts:62-95 | the loop returns the trimmed pieces between commas outside quotes, empty pieces kept but for an empty last one |
| `TomlLexer.PiecesCut` | src/config/bubbleConfig/parser.ts:62-95 | the list splitter in terms of the one scan all three lexers share: it cuts at the first comma the quote state does not hide, and goes on after it as if starting anew |
| `TomlLiterals.SingleQuotedReads` | src/config/bubbleConfig/parser.ts:16-29 | between single quotes any text reads as itself, unless the form opens with three quotes |
| `TomlLiterals.IntegerReads` | src/config/bubbleConfig/parser.ts:40-42 | a signed decimal numeral, leading zeros allowed, reads as its integer |
| `TomlLiterals.FractionReads` | src/config/bubbleConfig/parser.ts:44-46 | a signed fraction reads as the number that, times ten for each place, is the integer of its digits without the point |
| `TomlLiterals.OnlyLiteralsAreRead` | src/config/bubbleConfig/parser.ts:10-60 | a text that opens neither a double quote nor a list is read exactly when it is a single-quoted text, a truth value, a signed integer or a signed fraction |
| `TomlLiterals.ListReadsPieces` | src/config/bubbleConfig/parser.ts:48-57 | a list reads as the values of the pieces between its commas, a blank last one dropped, and is refused when one of them is |
| `TomlLayout.LineMeans` | src/config/bubbleConfig/parser.ts:174-225 | a line is blank, a header or an assignment exactly when its content, taken before any comment that begins outside quotes and without the space around it, has that form; other lines are refused |
| `TomlLayout.LiteralLine` | src/config/bubbleConfig/parser.ts:97-148 | whatever space and comment stand around it, the line of a key and a literal is that key and that literal |
| `TomlLayout.LinesAreSplit` | src/config/bubbleConfig/parser.ts:171 | lines with either line end are split into exactly their texts |
| `TomlLayout.PathIsTrimmed` | src/config/bubbleConfig/parser.ts:150-156 | the path of a header is its segments between dots, each without the space around it |
| `TomlMeaning.SingleQuotedDocument` | src/config/bubbleConfig/parser.ts:170-229 | a document of one line with a single-quoted text gives exactly that key that text |
| `TomlMeaning.DocumentMeans` | src/config/bubbleConfig/parser.ts:170-229 | the record of a document holds a value under a path and a key exactly when a line assigns it there, and a section exactly when a header or an assignment opens it |
| `TomlMeaning.RepeatedKeyIsRefused` | src/config/bubbleConfig/parser.ts:217-221 | a key assigned twice in one section is refused, whatever stands between |
| `TomlMeaning.StepFails` | src/config/bubbleConfig/parser.ts:174-228 | a line is refused exactly when it is malformed, names no section, opens or stands in a path that is blocked, repeats its key, has the key `__proto__`, or its literal is none |
| `TomlReader.ParseTomlValue` | src/config/bubbleConfig/parser.ts:10-60 | strings, numbers, booleans and nested lists are read by the mutual recursion exactly as the value function says, and everything else is refused |
| `TomlReader.ClassifyLine` | src/config/bubbleConfig/parser.ts:174-225 | a line is blank, a section header, an assignment or malformed, by the tests in their order |
| `TomlReader.EnterSection` | src/config/bubbleConfig/parser.ts:156-165 | one step of the path through live references: the step fails only on something that is no section, a missing section is created in place, and the reference that comes back is the one the path now leads to |
| `TomlReader.GetOrCreateSection` | src/config/bubbleConfig/parser.ts:150-168 | the record at the path, missing sections created on the way, nothing else of the document changed; refused exactly when something on the path is no section |
| `TomlReader.ParseToml` | src/config/bubbleConfig/parser.ts:170-229 | the store of mutable records it fills reads back as the nested record of the document; it fails exactly on the documents without one |
| `TomlStore.ReadAbove` | src/config/bubbleConfig/parser.ts:150-228 | assigning through a reference deep in the store sets exactly one field at the end of the path that leads there, seen from every record above |
| `TomlStore.ReadElsewhere` | src/config/bubbleConfig/parser.ts:150-228 | records that do not contain the assigned one keep their meaning: live references never alias |
| `TomlStore.WalkAfterAssign` | src/config/bubbleConfig/parser.ts:150-228 | adding a field leaves every path that led somewhere leading to the same record |
| `Json.QuoteRoundTrip` | src/config/bubbleConfig/render.ts:9-11 | reading back a printed string gives it, for every string |
| `Json.OnlyTheQuotedFormDecodes` | src/config/bubbleConfig/render.ts:9-11 | of all texts that are comparable with the printed form (one a prefix of the other), only the printed form itself is a string literal |
| `JsonSpelling.DecodeMeans` | src/config/bubbleConfig/parser.ts:20-26 | a double-quoted text reads as a string exactly when it spells it character by character: plainly, by a short escape, by its unit in hexadecimal digits of either case, or by a surrogate pair |
| `TomlDocuments.NormalizeTomlLines` | src/config/bubbleConfig/render.ts:38-59 | the push-and-pop loops compute the normalised lines |
| `TomlDocuments.NormalizeShape` | src/config/bubbleConfig/render.ts:38-59 | normalising keeps the visible lines in order; what is left of the blank ones stands singly and strictly between two others |
| `TomlItems.ElementsRead` | src/config/bubbleConfig/parser.ts:62-95 | a printed list splits back into its elements exactly when no element hides a comma badly; cut short inside an element, it is never read |
| `TomlItems.ItemReads` | src/config/bubbleConfig/parser.ts:10-60 | what the parser makes of a printed value once the comment scan has been over it: the value when the item survives the two quote-blind scans, a refusal otherwise, never another value |
| `TomlItems.EntryLine` | src/config/bubbleConfig/render.ts:61-224 | a printed `key = value` line is cut at its own equals sign and yields the value exactly when the item survives |
| `TomlDocuments.DocumentRoundTrip` | src/config/bubbleConfig/render.ts:61-224 | a printed document reads back as the record it stands for if and only if every printed item survives; otherwise the parser refuses it |
| `GlobalToml.ParsePairflowGlobalToml` | src/config/pairflowConfig.ts:222-366 | the parser that holds on to the live target record fills a store that reads back as the value-level document; it fails exactly when that does |
| `GlobalToml.AssignLive` | src/config/pairflowConfig.ts:320-362 | one assignment through the held reference is one assignment at the held path |
| `GlobalToml.StepsAgree` | src/config/pairflowConfig.ts:228-363 | line by line the two parsers are in step: where the global one goes on, the general one goes to the same document and section; where it stops, the general one stops too or the line is of the shapes only the global one refuses |
| `GlobalToml.GlobalRefinesGeneral` | src/config/pairflowConfig.ts:222-366 | on every input the global parser gives what the general one gives when the sections are of the permitted shapes, not repeated, and remote keys are known, and refuses otherwise |
| `BubbleValidator.ReadText` | src/config/bubbleConfig/readers.ts:7-28 | the value and the complaint it adds to the shared log: missing, not a string, or blank when required |
| `BubbleValidator.ReadTexts` | src/config/bubbleConfig/readers.ts:76-109 | the non-blank elements, trimmed, in order, and a complaint for every other one |
| `BubbleValidator.ValidateBubbleAgents` | src/config/bubbleConfig/agents.ts:42-119 | names, fallback of the meta-reviewer to the reviewer, and normalised model names, with all complaints |
| `BubbleValidator.CollectCustomCommands` | src/config/bubbleConfig/commands.ts:84-103 | the loop collects exactly the well-formed unreserved keys, and complains of exactly the others |
| `BubbleValidator.CheckApproveList` | src/config/bubbleConfig/commands.ts:124-156 | complaints for malformed and repeated ids, and for ids that no command text stands behind |
| `BubbleValidator.ValidateBubbleCommands` | src/config/bubbleConfig/commands.ts:27-178 | commands, custom commands and the three id lists with their checks against each other |
| `BubbleValidator.ValidateBubbleIdeation` | src/config/bubbleConfig/ideation.ts:7-101 | flags, times and the warnings gathered branch by branch on top of the stored one |
| `BubbleValidator.ValidateBubbleDocContractGates` | src/config/bubbleConfig/docContractGates.ts:7-49 | mode and round with their defaults and the gathered warning |
| `BubbleValidator.ValidateBubbleReviewPolicy` | src/config/bubbleConfig/reviewPolicy.ts:56-147 | every unknown key refused, every missing field defaulted |
| `BubbleValidator.ValidateRoleMcp` | src/config/bubbleConfig.ts:272-304 | the per-role policies assigned field by field, defaults where absent |
| `BubbleValidator.ValidateBubbleConfig` | src/config/bubbleConfig.ts:76-392 | one shared log of complaints decides: any complaint refuses, none gives the configuration |
| `BubbleReading.AcceptedMeans` | src/config/bubbleConfig.ts:76-392 | a record is accepted as a configuration exactly when every field means what the record says under its key: a present key its own value, an absent one its stated default, unknown keys, malformed ids and unsafe paths refused |
| `BubbleReading.MetaReviewerIs` | src/config/bubbleConfig/agents.ts:68-90 | of an accepted configuration: without a key of its own the meta-reviewer is the text under `reviewer`, and with one the text there |
| `BubbleReading.AgentsRead` | src/config/bubbleConfig/agents.ts:42-119 | the agents section is read without complaint exactly when it means some agents, and then as those |
| `BubbleReading.CommandsRead` | src/config/bubbleConfig/commands.ts:27-178 | the same for the commands: texts, own commands, id lists, and a text behind every id to be approved |
| `BubbleReading.IdeationRead` | src/config/bubbleConfig/ideation.ts:7-101 | the same for the ideation: wrong flags and times dropped with their warnings in order, the stored warning first, nothing kept when nothing is left |
| `BubbleReading.ReceivedNumber` | src/config/bubbleConfig/readers.ts:111-131 | a whole number received in a warning is named by digits that read as that number |
| `BubbleCanonical.AcceptedIsCanonical` | src/config/bubbleConfig.ts:76-392 | whatever the validator accepts is canonical: every field within its enumeration, texts non-blank, ids well formed and distinct, references resolved, warnings gathered |
| `BubbleDocument.ConfigDocIsWell` | src/config/bubbleConfig/render.ts:61-224 | every canonical configuration prints as a well-formed document: bare keys, distinct sections and keys, one line a value |
| `BubbleRoundTrip.ValidatedAgain` | src/config/bubbleConfig.ts:76-392 | validating an accepted configuration again accepts exactly it if and only if each stored model name is non-empty and ends visibly |
| `BubbleRoundTrip.PrintedConfigReadsBack` | src/config/bubbleConfig.ts:403-417 | print, parse, validate: refused by the parser exactly when a printed item does not survive, and the same configuration exactly when all do and the model names are stable |
| `BubbleRoundTrip.EasyConfigReadsBack` | src/config/bubbleConfig/render.ts:61-224 | the round trip for every configuration whose scalar texts hold no `"` together with a `#`, whose list elements hold no `"`, and whose model names are stable |
| `BubbleRoundTrip.QuoteThenHashIsLost` | src/config/bubbleConfig/parser.ts:97-123 | take any accepted configuration and a test command with a quote before a `#`: the validator accepts it, and the parser refuses what is printed for it |
| `BubbleRoundTrip.QuotedElementIsLost` | src/config/bubbleConfig/parser.ts:62-95 | the same for overlay entries one of which, not the last, holds a quote |
| `BubbleRoundTrip.ModelNameShrinks` | src/config/bubbleConfig/agents.ts:11-40 | `x /` is stored as `x` with a trailing space, which validating again stores as `x` |
| `UnitSegments.FindStarts` | tools/v3-model/migrate_units.py:52-63 | the backward walks over comments and blank lines find the starts the function says |
| `UnitSegments.SegmentSnapshot` | tools/v3-model/migrate_units.py:48-82 | the whole segmentation; its overlap and lossy-partition failures are branches shown unreachable |
| `UnitSegments.StartsIncrease` | tools/v3-model/migrate_units.py:52-63 | starts increase strictly, each after the header before it, and every header line has its start |
| `UnitSegments.SegmentPartitions` | tools/v3-model/migrate_units.py:48-82 | the units cut every text into non-empty pieces in order, nothing lost, under distinct names |
| `UnitSegments.UnitsOwnOneHeader` | tools/v3-model/migrate_units.py:48-82 | a unit holds exactly one header line, its own |
| `UnitMeaning.SegmentMeans` | tools/v3-model/migrate_units.py:48-82 | a snapshot is cut into units exactly at its headers, each from the blank lines above its comments to the next, under distinct names, and stops the program exactly when its headers allow no cut |
| `UnitMeaning.KeepLinesMeans` | tools/v3-model/migrate_units.py:50 | a text is kept as lines exactly when each is free of breaks but at its end, a return and the feed after it undivided |
| `UnitMeaning.InterfaceNameMeans` | tools/v3-model/migrate_units.py:56 | an interface is named by its second word, trailing colons dropped |
| `UnitMeaning.BareInterfaceDies` | tools/v3-model/migrate_units.py:56 | an interface line of one word stops the program |
| `UnitMeaning.NameMeans` | tools/v3-model/migrate_units.py:56 | any other header is named by its first run of letters, digits and underscores |
| `UnitMeaning.UnitStartMeans` | tools/v3-model/migrate_units.py:57-63 | a unit begins at the longest run of blank lines above the longest run of comments above its header |
| `UnitStore.ResolveUnit` | tools/v3-model/migrate_units.py:85-91 | the loop up the baseline chain finds the nearest stored version |
| `UnitStore.Migrate` | tools/v3-model/migrate_units.py:94-124 | the migration succeeds exactly when every snapshot has a unit and its baseline stands before it; it then stores a unit exactly when it differs from what its chain hands down, and its own comparison cannot fail |
| `UnitStore.StoreAgrees` | tools/v3-model/foldlib.py:28-42 | resolving a unit in the compressed store gives its version in the full snapshots, for every block and name |
| `UnitStore.FoldIsSnapshot` | tools/v3-model/foldlib.py:28-42 | folding a stored block gives back its snapshot byte for byte |
| `ModelSections.SplitSections` | tools/v3-model/extract.py:166-190 | the cut into prelude, section chunks and postlude |
| `ModelSections.SplitCovers` | tools/v3-model/extract.py:166-190 | prelude, chunks and postlude are the document, nothing lost or doubled |
| `ModelPages.SplitMeans` | tools/v3-model/extract.py:166-190 | the split is the one whose chunks begin, in order, at exactly the section tags other than `how` and are named by them, each up to the next, the last past the last end tag of the document |
| `ModelPages.SplitDies` | tools/v3-model/extract.py:173-188 | splitting is refused exactly when no such tag stands anywhere, or the last one stands after the last end tag |
| `ModelPages.PreludeHoldsNoTag` | tools/v3-model/extract.py:175-177 | a section tag in the prelude is one of `how` |
| `ModelPages.ChunksBeginAtTags` | tools/v3-model/extract.py:180-189 | each chunk begins at its own tag, under that tag's id |
| `ModelRecorder.ExtractAbsent` | tools/v3-model/extract.py:70-111 | the index loop over a section replaces each grid by its marker and records its items, or fails, as the function says |
| `ModelRecorder.ExtractInvariants` | tools/v3-model/extract.py:114-163 | the same for the invariant blocks |
| `ModelRecords.GridsComeBack` | tools/v3-model/build.py:26-29 | rendering the recorded grids at their markers gives the section back |
| `ModelRecords.BlocksComeBack` | tools/v3-model/build.py:32-39 | rendering the recorded blocks at their markers gives the section back |
| `ModelRows.AbsentMeans` | tools/v3-model/extract.py:70-111 | a section gives up exactly the items of its one grid, each as indent and text, and keeps every other line and one marker; or the program stops |
| `ModelRows.InvariantsMean` | tools/v3-model/extract.py:114-163 | a section gives up exactly the entries of its blocks, markers numbered in order; or the program stops |
| `ModelRows.EntMeans` | tools/v3-model/extract.py:52 | an entry line is its indent, a name up to the first fields, a body and the two ends |
| `ModelExtractor.ExtractCodes` | tools/v3-model/extract.py:193-234 | bodies are found left to right and spliced out right to left; the result is the section with each cut replaced by its marker |
| `ModelExtractor.SpliceOut` | tools/v3-model/extract.py:193-234 | splicing from the right leaves the positions of the earlier cuts valid |
| `ModelElements.CodesMean` | tools/v3-model/extract.py:193-234 | what leaves a section: its elements, found left to right, pair up old side and new side, named by the new one; every non-empty body leaves to the file of its side; anything else stops the program |
| `ModelElements.AttributeMeans` | tools/v3-model/extract.py:211-217 | an attribute's value is the first one that is closed and not empty |
| `ModelExtractor.BuildModel` | tools/v3-model/build.py:42-69 | the build loop over the sections appends each section filled in |
| `ModelWeave.SubstituteFolds` | tools/v3-model/build.py:64 | substituting the fold markers puts the migrated bodies back and leaves every other marker alone |
| `ModelWeave.SubstituteCodes` | tools/v3-model/build.py:65 | substituting the code markers gives the cut text back |
| `ModelRestore.ComesBack` | tools/v3-model/build.py:62-63 | restoring grids and then blocks undoes the two extractions together |
| `ModelSection.CarriedIsBuilt` | tools/v3-model/build.py:60-65 | a section file that carries a section is built back into it, whichever of its cuts were migrated |
| `ModelRoundTrip.ExtractThenBuild` | tools/v3-model/build.py:42-69 | building an extracted document gives the document back |
| `ModelRoundTrip.ExtractMigrateBuild` | tools/v3-model/migrate_units.py:94-157 | extracting, migrating to the delta store and building gives the document back, byte for byte |
| `ModelMoves.MigrationMoves` | tools/v3-model/migrate_units.py:94-157 | a migration moves exactly the blocks whose id holds `pseudocode`, in manifest order with the text of their files, drops exactly those files, and leaves ids, records, prelude and postlude |
| `TraceMask.RegexLiteralEnd` | tools/v3-plan/check_trace_narrow.py:192-225 | the loop finds the end of a regular-expression literal, classes and escapes respected, or none |
| `TraceMask.ScanNonCode` | tools/v3-plan/check_trace_narrow.py:228-307 | the scanner fills its array with exactly the mask of the pass, every lexeme whole |
| `TraceMask.MaskNonCode` | tools/v3-plan/check_trace_narrow.py:310-399 | the union of both passes over the text |
| `TraceRegexes.MarksAreMasked` | tools/v3-plan/check_trace_narrow.py:228-307 | on every well-labelled text the speculative pass masks exactly comments, strings and regular-expression literals, flags and classes included, line feeds left out |
| `TraceRegexes.EveryTextIsMarked` | tools/v3-plan/check_trace_narrow.py:228-307 | every text is well labelled in some way, a lone slash being one that no literal on its line begins with |
| `TraceRegexes.LabelsDecideMask` | tools/v3-plan/check_trace_narrow.py:310-399 | a character of the masked text is filler exactly when one of the two labellings calls it no code |
| `TraceMask.MaskIsMonotone` | tools/v3-plan/check_trace_narrow.py:310-399 | same length, line feeds kept, unmasked characters unchanged, masked exactly where one of the passes masks, and at least where the plain pass does |
| `TraceMask.SpeculationUncovers` | tools/v3-plan/check_trace_narrow.py:228-307 | a text on which the speculative pass alone uncovers a string character the plain pass masks |
| `TraceReference.ReferenceNonCodePositions` | tools/v3-plan/check_trace_narrow.py:1019-1075 | the separately written scanner collects exactly the positions the plain pass masks, on every text |
| `TraceReference.ReferenceIsMasked` | tools/v3-plan/check_trace_narrow.py:1019-1075 | every reference position is filler in the masked text |
| `TraceOracle.LabelsAreMasked` | tools/v3-plan/check_trace_narrow.py:1107-1200 | on every well-labelled text the plain pass masks exactly the non-code characters, line feeds left out |
| `TraceOracle.EveryTextIsLabelled` | tools/v3-plan/check_trace_narrow.py:1107-1200 | every text is well labelled in some way, so the labels decide the mask of all texts |
| `TraceOracle.OpenerStarIsNoCloser` | tools/v3-plan/check_trace_narrow.py:1107-1116 | `/*/` opens a comment that runs to the next closer |
| `TraceErasure.SubInCode` | tools/v3-plan/check_trace_narrow.py:402-452 | the splice applies exactly the matches whose anchor holds no masked character, in order, the rest of the text kept |
| `TraceErasure.AppliedInCode` | tools/v3-plan/check_trace_narrow.py:402-452 | no character of an applied match's anchor is one the reference scanner calls a comment or a string |
| `TraceErasure.NonCodeStays` | tools/v3-plan/check_trace_narrow.py:402-452 | matches whose anchors all touch a comment or a string are all dropped |
| `TraceWeave.SubstitutionWeaves` | tools/v3-plan/check_trace_narrow.py:402-452 | the text is pieces with the applied matches between them, the result the same pieces with the expansions between them |
| `TraceErase.Erase` | tools/v3-plan/check_trace_narrow.py:455-465 | the patterns in turn and then the two normalisations, loop by loop |
| `TraceErase.NormalDecides` | tools/v3-plan/check_trace_narrow.py:458-465 | two texts normalise alike exactly when they show the same lines, trailing white space aside, and agree on opening and closing blank |
| `TraceErase.NormalKeepsLines` | tools/v3-plan/check_trace_narrow.py:458-465 | normalising keeps the visible lines and leaves no trailing white space |
| `TraceErase.NormalIsStable` | tools/v3-plan/check_trace_narrow.py:458-465 | normalising twice is normalising once |
| `PacketFences.ScanFences` | tools/v3-plan/check_packet.py:611-644 | the line loop computes prose and json blocks as the fence state machine says |
| `PacketFences.CloserIsBareOpener` | tools/v3-plan/check_packet.py:440-449 | a closing line is one that could open a fence of the same character at least as long, with nothing after it |
| `FenceMarks.OpenerMeans` | tools/v3-plan/check_packet.py:449 | a line opens a fence exactly when it is at most three spaces, a maximal run of three or more backticks or of tildes, and an info text |
| `FenceMarks.CloserMeans` | tools/v3-plan/check_packet.py:611-644 | it closes one exactly when the run is of the same mark, at least as long, with white space after it |
| `FenceMarks.JsonMeans` | tools/v3-plan/check_packet.py:611-644 | a block is json exactly behind backticks and the bare word |
| `PacketFences.FenceAddsItsBlock` | tools/v3-plan/check_packet.py:611-644 | a closed fence adds no prose and one json block exactly when its opener is a backtick json fence, whatever shorter or other fences its body holds |
| `PacketFences.FencesCompose` | tools/v3-plan/check_packet.py:611-644 | cutting a closed fence out of a document leaves its prose and its other blocks as they were |
| `PacketFences.ScanReadsItems` | tools/v3-plan/check_packet.py:611-644 | a document made of prose lines, closed fences and a last open fence scans to its items' prose and blocks |
| `PacketFences.EveryDocumentHasItems` | tools/v3-plan/check_packet.py:611-644 | every document is made so |
| `PacketSections.FindSlugSections` | tools/v3-plan/check_packet.py:1512-1529 | the two loops compute the outermost matching sections |
| `PacketSections.SectionsAreLaminar` | tools/v3-plan/check_packet.py:1501-1521 | any two heading sections are nested or apart, and none is empty |
| `PacketSections.SlugSectionsApart` | tools/v3-plan/check_packet.py:1512-1529 | the sections kept for a slug are pairwise apart, in document order |
| `PacketSections.SlugSectionsCover` | tools/v3-plan/check_packet.py:1512-1529 | they cover exactly the lines of all matching sections |
| `PacketSections.SlugSectionsMean` | tools/v3-plan/check_packet.py:1501-1529 | the sections kept are exactly those of headings the slug names, each up to the next heading no deeper, that no other such section contains |
| `PacketMirror.ParagraphIndices` | tools/v3-plan/check_packet.py:1663-1672 | the two walks give exactly the lines of the same paragraph, a table row by itself |
| `PacketMirror.LegalLines` | tools/v3-plan/check_packet.py:1683-1689 | the lines gathered span by span are those sharing a paragraph with an anchor line inside a span |
| `PacketMirror.CheckConfinement` | tools/v3-plan/check_packet.py:1682-1718 | a rule draws no complaint exactly when each signature occurs at its home and everywhere else only on allowed lines |
| `PacketMirror.CheckAnchorRule` | tools/v3-plan/check_packet.py:1587-1624 | a rule homed at a heading is clean exactly when its slug names one home, its token stands there, and each signature is confined to the token's paragraphs in the sections of the matching headings |
| `PacketRecords.ReadRecords` | tools/v3-plan/check_packet.py:2157-2182 | the token loop computes the entries, one path or two a record, or fails |
| `PacketRecords.RecordsReadBack` | tools/v3-plan/check_packet.py:2157-2182 | every printed record sequence reads back as its statuses, destination modes and landing paths |
| `PacketRecords.CheckInstrumentCommit` | tools/v3-plan/check_packet.py:2095-2236 | no finding exactly when the manifest may be declared, the records read, and the changes are confined to it |
| `PacketRecords.CleanAuditConfines` | tools/v3-plan/check_packet.py:2152-2236 | a printed commit audits clean exactly when it is non-empty and every record adds an ordinary file that the manifest names under the testkit prefix, not the packet file |
| `ContractDraft.RealizedIsClean` | tools/v3-plan/check_packet.py:996-1140 | a realized contract draws no error exactly when rows and history are sound, the last ratification's commit holds these rows, and one map covers exactly the rows |
| `ContractDraft.ReopenedIsClean` | tools/v3-plan/check_packet.py:996-1140 | a reopened contract draws no error exactly when rows and history are sound and no map is left |
| `ContractClean.DraftIsClean` | tools/v3-plan/check_packet.py:996-1140 | a draft draws no error exactly when its rows are sound, nothing is ratified and no map is there |
| `ContractClean.BoundIsClean` | tools/v3-plan/check_packet.py:996-1140 | a ratified or superseded contract draws no error exactly when rows and history are sound, the last ratification's commit holds these rows, and no map is there |
| `ContractClean.OtherStatusIsRefused` | tools/v3-plan/check_packet.py:996-1140 | any other status, and only such, is the one thing complained of |
| `ContractClean.RowMeans` | tools/v3-plan/check_packet.py:504 | a line is a row under an id exactly when its first cell is that id: `C` and digits, between white space |
| `ContractReopen.Workspace.RunCommitOne` | tools/v3-plan/reopen_runner.py:110-141 | it dies leaving every file as it was, or performs the listed file operations in order, passing through exactly the listed intermediate states |
| `ContractReopen.Workspace.RunCommitTwo` | tools/v3-plan/reopen_runner.py:150-212 | the same for the second commit |
| `ContractReopen.EntryReadsBack` | tools/v3-plan/reopen_runner.py:84-86 | a map entry printed on its line reads back, so an edit of that text is an edit of the entry |
| `ContractEdits.ReplacedMeans` | tools/v3-plan/reopen_runner.py:65-74 | a replacement is made exactly when the text, cut where the search text stands, has as many cuts as announced, and is the same pieces joined by the other text |
| `ContractEdits.EditRowMeans` | tools/v3-plan/reopen_runner.py:110-141 | an edit changes only the first line of its row, into the announced text |
| `ContractEdits.RowEditDies` | tools/v3-plan/reopen_runner.py:65-82 | it dies exactly when no line is the row's or the count differs |
| `ContractEdits.EditMapMeans` | tools/v3-plan/reopen_runner.py:150-212 | an edit of the map changes only the first entry of its key |
| `ContractEdits.AppendMeans` | tools/v3-plan/reopen_runner.py:185-193 | an append puts its text before or after the first place of its anchor and nothing else |
| `ContractEdits.FirstCommitLeaves` | tools/v3-plan/reopen_runner.py:110-141 | when the first commit succeeds, and the files it leaves: the edited lines, the new status, the map moved to the sidecar |
| `ContractEdits.SecondCommitLeaves` | tools/v3-plan/reopen_runner.py:150-212 | when the second commit succeeds, and the contract it leaves: the appends made, the edited map back, the ratification last |
| `ContractAppends.AppendKeepsRows` | tools/v3-plan/reopen_runner.py:185-193 | an append at an anchor's first occurrence leaves the compared rows alone if and only if it leaves those of the one line it hits alone |
| `ContractAppends.QuietAppendsKeepRows` | tools/v3-plan/reopen_runner.py:185-193 | appends that bring no row and no fence, and break no row line, leave the compared rows alone; a caller can check that beforehand |
| `ContractAppends.AppendedRowIsUnrecorded` | tools/v3-plan/reopen_runner.py:185-193 | an appended line that is a row makes the rows differ from the recorded ones |
| `ContractReopen.CommitOneIsCrashSafe` | tools/v3-plan/reopen_runner.py:110-141 | stopped after any operation, the map is whole in the contract or its sidecar; running it again does what the undisturbed run does, or dies with the contract already the reopened one |
| `ContractReopen.CommitTwoIsCrashSafe` | tools/v3-plan/reopen_runner.py:150-212 | stopped after any operation, the map is whole in the sidecar or in the contract; running it again ends as the undisturbed run does, or dies with the final contract in place |
| `ContractReopen.FirstCommitIsClean` | tools/v3-plan/reopen_runner.py:110-141 | from a clean realized contract the first commit leaves a reopened one that is clean exactly when its edited rows are well formed |
| `ContractReopen.ReopeningCloses` | tools/v3-plan/reopen_runner.py:110-212 | first commit, a repository commit, second commit: the contract is realized again; its last ratification's commit holds its rows if and only if the context appends leave the rows alone; and its check is clean if and only if they do, the new record is well formed and not earlier, and the edited map covers the rows |
| `ContractReopen.QuietReopeningIsRecorded` | tools/v3-plan/reopen_runner.py:150-212 | with quiet appends the last ratification's commit holds the final rows |
| `ProbeRunner.RunProbe` | tools/v3-plan/probe_runner.py:65-211 | the runner step by step, every copy, run and comparison in order |
| `ProbeRunner.TargetIsRestored` | tools/v3-plan/probe_runner.py:65-211 | after 0, 3 and 5 the target reads its starting bytes; after 2 nothing was touched or run |
| `ProbeRunner.RedBaselineWritesNoMutant` | tools/v3-plan/probe_runner.py:65-211 | after 5 the command had failed on a target with its starting bytes, and the mutant was never written |
| `ProbeRunner.ProbeSawBoth` | tools/v3-plan/probe_runner.py:65-211 | after 0 and 3 the command had passed on a target with its starting bytes and then ran on the bytes the mutant file held after that run, failing or passing |
| `ProbeCodes.ExitCodeIs` | tools/v3-plan/probe_runner.py:65-211 | with copies that copy and nobody touching backup or mutant, the code is 2 exactly when there is nothing to probe, else 5 exactly when the command fails on the starting bytes, else 0 or 3 as it fails or passes on the mutant's; the runner never gives up |
| `ProbeRunner.RanMutatedExactly` | tools/v3-plan/probe_runner.py:65-211 | after 0 and 3 the last run met a mutated target if and only if the mutant file differs from the starting bytes once baseline and recovery are over |
| `ProbeRunner.GuardedProbeRunsMutated` | tools/v3-plan/probe_runner.py:76-81 | when the command, the restores and the removals leave the mutant file alone, the comparison made at the start is enough: the last run met the mutant's bytes, which are not the target's |
| `ProbeRunner.MutantCanBeReplaced` | tools/v3-plan/probe_runner.py:90-100 | a command that overwrites the mutant file during the baseline run makes the probe run unmutated |
| `OrderCensus.GatherAll` | tools/v3-plan/adr015_sweep.py:271-290 | one pass over the frozen table collects, for every file, its surviving lines once each |
| `CensusMeaning.GatherMeans` | tools/v3-plan/adr015_sweep.py:271-290 | what is collected of a file is exactly its surviving rows in table order, the first from each source line, with line and surviving text |
| `CensusMeaning.MapPathMeans` | tools/v3-plan/adr015_sweep.py:87-91 | the first prefix of the table that fits is replaced; a path without one stays |
| `OrderCensus.ByLineSorts` | tools/v3-plan/adr015_sweep.py:296 | sorting by advisory line is a permutation that ascends and keeps the order of entries on one line |
| `OrderCensus.CheckFile` | tools/v3-plan/adr015_sweep.py:295-309 | the greedy loop over one file passes exactly when the order is kept |
| `OrderCensus.GreedyIsExact` | tools/v3-plan/adr015_sweep.py:295-309 | placing each content as early as possible succeeds exactly when the contents are a subsequence of the lines |
| `OrderCensus.CheckOrder` | tools/v3-plan/adr015_sweep.py:271-309 | the files complained of are exactly the readable ones whose surviving contents, in order, are no subsequence of their lines |
| `OrderCensus.KeptAtLeastAsOften` | tools/v3-plan/adr015_sweep.py:271-309 | in a file that passes, a content frozen k times occurs at least k times |
| `GlobScope.GlobToRegExp` | tools/fitness/scope.ts:12-32 | the loop writes the expression piece by piece |
| `GlobScope.RegexReads` | tools/fitness/scope.ts:12-32 | the written expression parses back to the intended pieces: no escape, star or dot joins its neighbour |
| `GlobScope.CompiledAcceptsGlob` | tools/fitness/scope.ts:12-32 | the expression accepts exactly the glob's language |
| `GlobScope.ScopeRoots` | tools/fitness/scope.ts:54-64 | the roots gathered |
| `GlobScope.ResolveFiles` | tools/fitness/scope.ts:66-91 | the files kept are those under some root that some pattern accepts |
| `GlobScope.RootPrefilterIsExact` | tools/fitness/scope.ts:54-64 | for every pattern, searching only the root loses no relative path if and only if the pattern is empty or starts with a slash (and then accepts none), or its first segment has no star and is followed by a slash |
| `GlobScope.NothingIsLost` | tools/fitness/scope.ts:66-91 | with such patterns every relative path a pattern accepts lies under a searched root |
| `CoverageLock.Validation.RunValidation` | tools/v3-plan/check_coverage.py:433-485 | the passes over the shared tables report exactly the findings of the plan |
| `CoverageLock.Validation.ValidateEntries` | tools/v3-plan/check_coverage.py:181-206 | entries are checked one by one, and the last valid disposition of an id is the one recorded |
| `CoverageLock.Validation.CheckOwners` | tools/v3-plan/check_coverage.py:262-278 | exactly the owners that share a multiply owned item with none of its other owners are reported |
| `CoverageLock.Validation.CheckUnitMapLock` | tools/v3-plan/check_coverage.py:396-430 | exactly the pending, drifting and unowned rows are reported |
| `CoverageLock.GreenIsCovered` | tools/v3-plan/check_coverage.py:433-485 | a default validation is green exactly when the files read clean, realized rows are the packet-owned units with the recorded dispositions, every co-owner shares with another, shares are declared at both ends, and no packet contradicts the disposition map |
| `CoverageMeaning.ReadCleanIs` | tools/v3-plan/check_coverage.py:159-374 | the files read clean exactly when the inventory has its sizes, the manifest one sound row for each unit, the map one class for each invariant, and each slice its keys and known, well-disposed entries |
| `CoverageMeaning.ReferenceMeans` | tools/v3-plan/check_coverage.py:79 | a code reference is a path and an anchor, neither empty, parted by the only hash sign |
| `CoverageMeaning.OwnsMeans` | tools/v3-plan/check_coverage.py:159-222 | a packet owns the units and invariants it lists and the known traces it names |
| `CoverageMeaning.RecordedIsLast` | tools/v3-plan/check_coverage.py:178-206 | the disposition recorded for an id is that of its last entry with a valid one |
| `CoverageLock.FoldTimeOnlyDropsPending` | tools/v3-plan/check_coverage.py:396-430 | at fold time the findings are the default ones without the owned-but-pending units, so a subset |
| `CoverageLock.EveryEntryIsLocked` | tools/v3-plan/check_coverage.py:178-191 | every entry of a slice matches its row exactly when no unit is named with two dispositions: only the last entry is compared |
| `CoverageLock.EarlierEntryIsIgnored` | tools/v3-plan/check_coverage.py:178-191 | every green plan stays green when an entry with any valid disposition is put before another of the same unit |

## Left out

- UnitStore.Migrate: asks for distinct block ids, because two blocks of one id would share one dictionary entry and one file.
- ModelRoundTrip.ExtractMigrateBuild: documents that hold `[[@` are not covered, because text that looks like a marker is substituted like one; ids are distinct and can stand in a marker.
- ModelRoundTrip.ExtractThenBuild: the same restriction.
- UnitStore.ResolveUnit: a block that names itself as its baseline makes the program walk for ever; here the migration refuses it, as it refuses any baseline that does not stand earlier.
- BubbleDocument.ConfigDocIsWell: keys of maps are printed in any one enumeration of them; which one the JavaScript engine takes is not modelled.
- BubbleValidator.ValidateBubbleConfig: complaints are a set of paths and kinds; their order and wording are not modelled, nor are keys that are present with the value `undefined`.
- BubbleValidator.ValidateContents: the checks of plain key lists (executor, notifications, local overlay, validation target, watchdog timeouts) are functions it calls, since they only compare against fixed names.
- BubbleValidator.ValidateBubbleIdeation: the text JavaScript prints for a fractional number inside a warning is a parameter, `FRACTION_TEXT`.
- BubbleValidator.ValidateBubbleDocContractGates: the same.
- GlobalToml.GlobalRefinesGeneral: the check of remote references after parsing is not part of it; `parseTomlValue` and the lexers, which the source writes twice, are written once.
- TomlReader.ParseToml: `__proto__` as a section or key is not modelled; other names of `Object.prototype` are the section conflicts they are in the source. Line numbers in errors are left out.
- Json.QuoteRoundTrip: strings are sequences of characters; lone surrogates and numbers beyond unbounded decimals are left out.
- ModelSections.SplitSections: the slugs that records and files are named by, and the manifest's printed form, are left out; file names are map keys, and text is as Python reads it, with line ends translated.
- TraceMask.RegexLiteralEnd: which characters count as letters beyond ASCII is a parameter.
- TraceErasure.SubInCode: the regular-expression engine is replaced by its matches, in order and apart, with their anchors and expansions; a pattern without an anchor group is not representable.
- TraceErase.Erase: the list of erasure patterns itself is a parameter.
- PacketFences.ScanFences: works on the lines of a document; splitting a text into lines is not part of it, and neither is decoding the json blocks.
- PacketMirror.CheckConfinement: which lines are blank, table rows, lane definitions, anchored or allowed for a rule are facts about each line; the checks of a rule's own shape, of lane canonicals and of pointer tokens are left out.
- PacketRecords.CheckInstrumentCommit: finding the packet's manifest block, the parent commit and the `diff-tree` output are left out; it begins with the files and the tokens.
- ContractDraft.RealizedIsClean: the schema lock, the superseded record, the metadata keys and the file name are left out; the repository is a map from commits to the row lines they hold; and a landing site is its text in the block, escapes not undone.
- ContractDraft.ReopenedIsClean: the same.
- ContractReopen.Workspace.RunCommitOne: the contract is its status, the lines outside fences, ratification blocks and maps, with the status literal standing once; the map heading, the history section and the fence check act on raw text and are left out, as is the comma after a map entry.
- ContractReopen.Workspace.RunCommitTwo: the same, and whether a name is a commit is a parameter.
- ContractReopen.ReopeningCloses: a context append whose anchor first occurs inside a fenced block, or whose text opens a fence, is not modelled; the quiet appends open none.
- ProbeRunner.TargetIsRestored: the digest is taken as injective, and timeouts and output files are left out; a raised exception leaves the runner without a promise.
- ProbeRunner.ProbeSawBoth: a copy is taken to change what its destination reads and nothing else, so target, backup and mutant are not links to one another.
- OrderCensus.CheckOrder: the other two checks of the census (survival and counts of tokens) are left out, because they compare row by row.
- GlobScope.ResolveFiles: files are a given set; walking directories, which skips `.git` and `node_modules`, and the order of the result are left out.
- CoverageLock.Validation.RunValidation: reading the units tree, the ledger and the json blocks is left out; ids, dispositions and share fields are texts, and findings are a set. The closure report is left out.
- The lifecycle engine, the command line, the user interface, report and ledger generation, and the documentation site are not modelled.
