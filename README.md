# Scripting extension core, modelled in Dafny

This project models the core of the Inedo scripting extension. The extension lets OtterScript plans run PowerShell, shell, Python and Windows batch scripts stored in rafts. It reads each script's documentation header (parameters, argument format, execution-mode variable and configuration directives). It binds an operation's parameters to what the header declares, builds the job or process that runs the script, and reads the job's out-variables back. For collect and configure runs it turns them into configuration items with drift status. The model also covers the PowerShell module, repository and DSC configurations, and the version types they compare.

Each source file becomes one Dafny module:

- `common.dfy` (`Common`): the .NET string operations the extension relies on, results that stand for thrown exceptions, and association lists for `Dictionary<string, V>`, with or without `OrdinalIgnoreCase`.
- `runtimevalue.dfy`, `results.dfy`: the host's `RuntimeValue`, JSON trees, log levels, and the result a script run hands back.
- `scriptparser.dfy`, `shellparser.dfy`, `batchparser.dfy`, `pythonparser.dfy`: the language-independent header parser and its section list, plus the three language header readers. Python escape decoding is included.
- `exitcode.dfy`, `semver.dfy`, `legacyversion.dfy`, `psversion.dfy`: the `SuccessExitCode` comparator and the PowerShell version kinds, with their grammars, round trips and orderings.
- `psconfig.dfy`, `psscriptinfo.dfy`: the configuration blocks of PowerShell comment-based help, and the `param(...)` scan over the tokenizer's output.
- `psrunner.dfy`: `PowerShellScriptRunner`. It covers value conversion, output sentinels, out-variable JSON, the processes terminated on disposal, and variable-name extraction.
- `reconcile.dfy`, `psutil.dfy`, `psutil2.dfy`: `PSUtil` and `PSUtil2`, which run a PowerShell script and reconcile its configuration.
- `shrun.dfy`, `shutil.dfy`, `pyextensions.dfy`, `batcall.dfy`: the shell, Python and batch runners. Each runner reads its script's header with the modelled parser for its language.
- `persistedconfig.dfy`, `psmodule.dfy`, `psrepository.dfy`, `dsc.dfy`: script-persisted configuration, PowerShell module and repository configurations, and the DSC helper.

Where the source updates an object in place, the model is a class:

- `SectionList`
- `OutVariables` and `Runner` in the PowerShell runner
- `PsModuleConfiguration` and `PsRepositoryConfiguration`
- `DscTemplate`
- the `ItemList` that `AddRange` fills

Loops in the source are methods with loop invariants. Each is proved against a specification function, and the source's promises are proved as lemmas about those functions.

Foreign calls are parameters of the operations that use them. The tables below name each one. Examples include the raft lookup, the job runner or process, `ExpandVariablesAsync`, `ScriptParameterInfo.Parse`, the PowerShell tokenizer and JSON parsing.

Where the code and its documentation disagree, the model follows the code. The cases are:

- `>=` and `!=` in `SuccessExitCode` are read as `=`, because only the last repetition of the operator group is kept.
- In a PowerShell `[Parameter(...)]` attribute, the `Mandatory` member itself is skipped, and every other token inside the parentheses marks the parameter mandatory. An `=` followed by a variable other than `$true` clears the flag again, but the variable token after it sets it once more. So `[Parameter(Mandatory = $false)]` and `[Parameter()]` both mark the parameter mandatory. An attribute whose tokens end in `=` makes the look-ahead throw.

Where the code has a defect, the operations of the model follow the code as written. The intended definition is kept beside it with its property proved, and the two are related under "## Findings".

## Model

| member | source | states |
|---|---|---|
| ExitCodeComparator.Match | Scripting/InedoExtension/ExitCodeComparator.cs:25-27 | a successful scan of the success-exit-code pattern splits the text into well-formed pieces that render back to it |
| ExitCodeComparator.OperatorOf | Scripting/InedoExtension/ExitCodeComparator.cs:29-31 | the operator kept is always one of the seven valid ones, "==" when group 1 is empty or invalid |
| ExitCodeComparator.TryParse | Scripting/InedoExtension/ExitCodeComparator.cs:20-34 | null or white-space text gives null; a parsed comparator's operator is one of "=", "==", "<", ">" and its value a non-negative 32-bit integer |
| ExitCodeComparator.Evaluate | Scripting/InedoExtension/ExitCodeComparator.cs:36-48 | an operator outside the valid set evaluates to false |
| ExitCodeComparator.MatchRender | Scripting/InedoExtension/ExitCodeComparator.cs:25 | the scan recovers every piece of any well-formed text (round trip) |
| ExitCodeComparator.TryParseRender | Scripting/InedoExtension/ExitCodeComparator.cs:25-33 | a well-formed text parses to the operator its last operator character names and to the value of its digits; an overflowing value is an error |
| ExitCodeComparator.TryParseSound | Scripting/InedoExtension/ExitCodeComparator.cs:25-33 | whatever parses is a well-formed text whose pieces give the operator and the value |
| ExitCodeComparator.CollapsedOperators | Scripting/InedoExtension/ExitCodeComparator.cs:25-29 | a repeated group keeps only its last character: ">=", "<=", "!=", "==" followed by digits all read as "=" |
| ExitCodeComparator.BangMeansEqual | Scripting/InedoExtension/ExitCodeComparator.cs:29-31 | "!" alone is not a valid operator and falls back to "==" |
| ExitCodeComparator.EvaluateRelations | Scripting/InedoExtension/ExitCodeComparator.cs:38-46 | each of the seven operators evaluates to its integer relation |
| ExitCodeComparator.ParsedEvaluate | Scripting/InedoExtension/ExitCodeComparator.cs:20-48 | a parsed comparator only ever tests equality, less-than or greater-than |
| SemVer.Create | Scripting/InedoExtension/PowerShell/Versions/ValueSemanticVersion2.cs:24-31 | the three numbers are kept; an empty prerelease or build is stored as null, any other is kept |
| SemVer.Match | Scripting/InedoExtension/PowerShell/Versions/ValueSemanticVersion2.cs:11-14 | a match splits the text into well-formed groups that render back to it, allowing the final line feed `$` accepts |
| SemVer.Parse | Scripting/InedoExtension/PowerShell/Versions/ValueSemanticVersion2.cs:189-208 | parsing fails exactly when the pattern does not match (null read as empty); a parsed version never stores an empty prerelease or build |
| SemVer.TryParse | Scripting/InedoExtension/PowerShell/Versions/ValueSemanticVersion2.cs:69-73 | succeeds exactly when `Parse` does |
| SemVer.MatchOf | Scripting/InedoExtension/PowerShell/Versions/ValueSemanticVersion2.cs:11-14 | every well-formed text is matched with its own groups, with or without a final line feed |
| SemVer.ToString | Scripting/InedoExtension/PowerShell/Versions/ValueSemanticVersion2.cs:159-184 | any format other than "U" and "G" throws; "U" omits the build and "G" includes it |
| SemVer.ToStringDefault | Scripting/InedoExtension/PowerShell/Versions/ValueSemanticVersion2.cs:158 | the default text is the "G" text |
| SemVer.ParseToStringG | Scripting/InedoExtension/PowerShell/Versions/ValueSemanticVersion2.cs:159-208 | round trip: parsing the "G" text gives back all five components |
| SemVer.ParseToStringU | Scripting/InedoExtension/PowerShell/Versions/ValueSemanticVersion2.cs:159-208 | parsing the "U" text gives back the version without its build |
| SemVer.ParsedValid | Scripting/InedoExtension/PowerShell/Versions/ValueSemanticVersion2.cs:189-208 | every parsed version has numeric parts and identifier-character prerelease and build |
| SemVer.CompareIdentifier | Scripting/InedoExtension/PowerShell/Versions/ValueSemanticVersion2.cs:119-141 | one identifier comparison yields -1, 0 or 1 |
| SemVer.CompareIdentifiers | Scripting/InedoExtension/PowerShell/Versions/ValueSemanticVersion2.cs:103-146 | the pairwise walk over the dot-separated identifiers yields -1, 0 or 1 |
| SemVer.Precedence | Scripting/InedoExtension/PowerShell/Versions/ValueSemanticVersion2.cs:82-147 | the comparison yields -1, 0 or 1 |
| SemVer.Compare | Scripting/InedoExtension/PowerShell/Versions/ValueSemanticVersion2.cs:82-147 | the loop with its index variable computes exactly the precedence |
| SemVer.PrecedenceAntisymmetric | Scripting/InedoExtension/PowerShell/Versions/ValueSemanticVersion2.cs:82-147 | swapping the operands negates the comparison |
| SemVer.PrecedenceReflexive | Scripting/InedoExtension/PowerShell/Versions/ValueSemanticVersion2.cs:82-147 | a version compares equal to itself |
| SemVer.NumbersDecideFirst | Scripting/InedoExtension/PowerShell/Versions/ValueSemanticVersion2.cs:84-94 | a smaller major, then minor, then patch makes the version lower |
| SemVer.ReleaseAbovePrerelease | Scripting/InedoExtension/PowerShell/Versions/ValueSemanticVersion2.cs:96-101 | with equal numbers, a version without prerelease is greater than one with |
| SemVer.NumericBelowAlphanumeric | Scripting/InedoExtension/PowerShell/Versions/ValueSemanticVersion2.cs:119-135 | a numeric identifier is lower than an alphanumeric one |
| SemVer.ShorterListLower | Scripting/InedoExtension/PowerShell/Versions/ValueSemanticVersion2.cs:109-117 | a prerelease whose identifiers are a proper prefix of another's is lower |
| SemVer.BuildIgnored | Scripting/InedoExtension/PowerShell/Versions/ValueSemanticVersion2.cs:75-101 | neither equality nor comparison looks at the build |
| SemVer.EqualIgnoresPrereleaseCase | Scripting/InedoExtension/PowerShell/Versions/ValueSemanticVersion2.cs:75-81 | equality compares prerelease ignoring case ("beta" equals "BETA") |
| SemVer.PrecedenceKeepsPrereleaseCase | Scripting/InedoExtension/PowerShell/Versions/ValueSemanticVersion2.cs:138 | with alphanumeric identifiers compared by code unit, "beta" and "BETA" are ordered apart; a consequence of the ordinal comparison the model uses in place of the culture-aware one |
| LegacyVersion.Match | Scripting/InedoExtension/PowerShell/Versions/LegacyPowerShellVersion.cs:15 | a match splits the text into one to four numbers, a prerelease and metadata that render back to it, allowing a final line feed |
| LegacyVersion.PartValue | Scripting/InedoExtension/PowerShell/Versions/LegacyPowerShellVersion.cs:198-210 | a part beyond the captured numbers is stored as -1 |
| LegacyVersion.TryParse | Scripting/InedoExtension/PowerShell/Versions/LegacyPowerShellVersion.cs:188-215 | null or white-space text, or text the pattern rejects, gives null; a parsed version keeps its original text and a (possibly empty) prerelease |
| LegacyVersion.MatchOf | Scripting/InedoExtension/PowerShell/Versions/LegacyPowerShellVersion.cs:15 | every well-formed text is matched with its own groups, with or without a final line feed |
| LegacyVersion.FiveParts | Scripting/InedoExtension/PowerShell/Versions/LegacyPowerShellVersion.cs:193-195 | five numeric parts are too many: "1.2.3.4.5" gives null |
| LegacyVersion.AbsentParts | Scripting/InedoExtension/PowerShell/Versions/LegacyPowerShellVersion.cs:200-210 | the minor, patch and build accessors return null exactly when the text had fewer than two, three, four numbers |
| LegacyVersion.TryParseRender | Scripting/InedoExtension/PowerShell/Versions/LegacyPowerShellVersion.cs:188-215 | the text of well-formed groups (with 32-bit numbers) parses to their values, with or without a final line feed |
| LegacyVersion.ParseToString | Scripting/InedoExtension/PowerShell/Versions/LegacyPowerShellVersion.cs:327-359 | round trip: the plain text of a valid version parses back to an equal version |
| LegacyVersion.Present | Scripting/InedoExtension/PowerShell/Versions/LegacyPowerShellVersion.cs:174-182 | an accessor is null exactly when the stored part is negative, and the part otherwise |
| LegacyVersion.Compare | Scripting/InedoExtension/PowerShell/Versions/LegacyPowerShellVersion.cs:232-277 | the comparison yields -1, 0 or 1 |
| LegacyVersion.CompareAntisymmetric | Scripting/InedoExtension/PowerShell/Versions/LegacyPowerShellVersion.cs:232-277 | swapping the operands negates the comparison |
| LegacyVersion.CompareLexicographic | Scripting/InedoExtension/PowerShell/Versions/LegacyPowerShellVersion.cs:241-276 | major, then minor, then patch, then build decide; with the same numbers a release is greater than a prerelease |
| LegacyVersion.EqualIgnoresNonPositiveBuild | Scripting/InedoExtension/PowerShell/Versions/LegacyPowerShellVersion.cs:226-247 | builds of zero or below are all the same to equality and comparison |
| LegacyVersion.EqualCompareZero | Scripting/InedoExtension/PowerShell/Versions/LegacyPowerShellVersion.cs:219-277 | equal versions compare as 0 |
| LegacyVersion.CompareZeroNotEqual | Scripting/InedoExtension/PowerShell/Versions/LegacyPowerShellVersion.cs:249-256 | the converse fails: a null and an empty prerelease compare as 0 yet are not equal |
| LegacyVersion.WriteText | Scripting/InedoExtension/PowerShell/Versions/LegacyPowerShellVersion.cs:327-359 | the step-by-step buffer appends produce the version text: numbers while present, a build only when not normalising or positive, then the prerelease |
| LegacyVersion.NormalizedDropsZeroBuild | Scripting/InedoExtension/PowerShell/Versions/LegacyPowerShellVersion.cs:341-347 | a zero build is written by plain `ToString` as ".0" and dropped by the normalised text |
| LegacyVersion.OriginalString | Scripting/InedoExtension/PowerShell/Versions/LegacyPowerShellVersion.cs:155-164 | the original string is the parsed text when there is one |
| LegacyVersion.OriginalUniquePart | Scripting/InedoExtension/PowerShell/Versions/LegacyPowerShellVersion.cs:155-165 | the unique part has no '+' and is the original text or its prefix before the first '+' |
| LegacyVersion.GetAlias | Scripting/InedoExtension/PowerShell/Versions/LegacyPowerShellVersion.cs:310-318 | no build gives the text with a zero build, a zero build the normalised text, a positive build null |
| LegacyVersion.AliasAddsBuild | Scripting/InedoExtension/PowerShell/Versions/LegacyPowerShellVersion.cs:310-313 | for a three-part version the alias is its text with ".0" appended to the numbers |
| LegacyVersion.AliasOfShortVersion | Scripting/InedoExtension/PowerShell/Versions/LegacyPowerShellVersion.cs:331-350 | for a version without patch the added zero build is not written, so the alias equals the text |
| LegacyVersion.ToNormalizedVersion | Scripting/InedoExtension/PowerShell/Versions/LegacyPowerShellVersion.cs:319-325 | a zero build becomes absent (keeping the original text); any other version is returned unchanged |
| LegacyVersion.NormalizedVersionEqual | Scripting/InedoExtension/PowerShell/Versions/LegacyPowerShellVersion.cs:319-325 | the normalised version equals and compares equal to the version, with the same normalised text |
| LegacyVersion.ValidatePrerelease | Scripting/InedoExtension/PowerShell/Versions/LegacyPowerShellVersion.cs:361-370 | white space gives null; other text is returned when it matches the prerelease pattern (a final line feed allowed) and throws otherwise |
| PSVersions.TryParseSemVer2 | Scripting/InedoExtension/PowerShell/Versions/SemVer2PowerShellVersion.cs:30-36 | a SemVer2 version exists exactly when the text parses as a semantic version, and it keeps that text as its original string |
| PSVersions.Parse | Scripting/InedoExtension/PowerShell/Versions/PowerShellVersion.cs:51 | SemVer2 is tried first, then Legacy, and any other text becomes an invalid version, so the result is never null; it fails only when Legacy parsing throws; the original string is the text |
| PSVersions.OriginalUniquePart | Scripting/InedoExtension/PowerShell/Versions/SemVer2PowerShellVersion.cs:22-28 | with no build the original text is kept; with a build, the build and one more character are cut off the end of the original text, which throws when the text is too short; Legacy versions cut at the first '+' and invalid ones keep their text |
| PSVersions.SemVer2UniquePart | Scripting/InedoExtension/PowerShell/Versions/SemVer2PowerShellVersion.cs:22-28 | for the text a SemVer2 version writes itself, the original unique part is its "U" text |
| PSVersions.SemVer2UniquePartNewline | Scripting/InedoExtension/PowerShell/Versions/SemVer2PowerShellVersion.cs:26 | the cut counts from the end, so a final line feed after the build leaves the '+' in place: "1.0.0+abc\n" gives "1.0.0+" |
| PSVersions.NewlineTextParses | Scripting/InedoExtension/PowerShell/Versions/ValueSemanticVersion2.cs:11-14 | that text does parse as SemVer2, because `$` accepts a final line feed |
| PSVersions.LegacyAndSemVerCompare | Scripting/InedoExtension/PowerShell/Versions/PowerShellVersion.cs:64-86 | the cross-kind comparison yields -1, 0 or 1 |
| PSVersions.CompareTo | Scripting/InedoExtension/PowerShell/Versions/SemVer2PowerShellVersion.cs:41-49 | the per-kind comparison yields -1, 0 or 1 |
| PSVersions.Compare | Scripting/InedoExtension/PowerShell/Versions/PowerShellVersion.cs:38-48 | the result is -1, 0 or 1; a null first operand is below anything except null |
| PSVersions.CompareAntisymmetric | Scripting/InedoExtension/PowerShell/Versions/PowerShellVersion.cs:38-48 | swapping the operands negates the comparison, across kinds and with nulls |
| PSVersions.SelfCompare | Scripting/InedoExtension/PowerShell/Versions/PowerShellVersion.cs:29-48 | every version compares equal to itself and equals itself |
| PSVersions.AboveNull | Scripting/InedoExtension/PowerShell/Versions/PowerShellVersion.cs:29-48 | a version is above null and never equal to it; null equals null |
| PSVersions.OperatorsAgree | Scripting/InedoExtension/PowerShell/Versions/PowerShellVersion.cs:12-17 | the relational operators agree with one another through `Compare` |
| PSVersions.InvalidAfterValid | Scripting/InedoExtension/PowerShell/Versions/InvalidPowerShellVersion.cs:20-27 | an invalid version sorts after every valid one, and equals none of them |
| PSVersions.InvalidByText | Scripting/InedoExtension/PowerShell/Versions/InvalidPowerShellVersion.cs:20-27 | two invalid versions compare as equal, and are equal, exactly when their texts are equal ignoring case |
| PSVersions.InvalidAccessors | Scripting/InedoExtension/PowerShell/Versions/InvalidPowerShellVersion.cs:12-34 | an invalid version is not valid; its major is 0; its minor, patch and prerelease are null; it normalises to itself and has no alias |
| PSVersions.SemVer2AgainstLegacy | Scripting/InedoExtension/PowerShell/Versions/SemVer2PowerShellVersion.cs:42-49 | SemVer2 against Legacy negates the Legacy-first cross-kind comparison, Legacy against SemVer2 uses it directly, and SemVer2 is below an invalid version |
| PSVersions.LegacyBuildAbove | Scripting/InedoExtension/PowerShell/Versions/PowerShellVersion.cs:64-101 | with the same three numbers, a Legacy version with a positive build is above the SemVer2 one and is not equal to it |
| PSVersions.LegacyMissingPartBelow | Scripting/InedoExtension/PowerShell/Versions/PowerShellVersion.cs:64-86 | a Legacy version that lacks the minor, or the patch, that the SemVer2 one has is below it |
| PSVersions.CrossKindPrerelease | Scripting/InedoExtension/PowerShell/Versions/PowerShellVersion.cs:64-101 | with the same numbers and no positive build, the prereleases decide (null read as empty, case ignored), and equality agrees with the comparison |
| PSVersions.IsPrereleaseMeans | Scripting/InedoExtension/PowerShell/Versions/PowerShellVersion.cs:27 | a version is a prerelease exactly when its prerelease is non-empty |
| PSVersions.ToNormalizedVersion | Scripting/InedoExtension/PowerShell/Versions/SemVer2PowerShellVersion.cs:71-82 | a SemVer2 version with a build loses the build but keeps its original text; without a build it is unchanged; Legacy defers to its own normalisation; an invalid version is unchanged |
| PSVersions.NormalizedSemVer2Equal | Scripting/InedoExtension/PowerShell/Versions/SemVer2PowerShellVersion.cs:50-82 | the normalised SemVer2 version equals the version it came from |
| PSVersions.GetAlias | Scripting/InedoExtension/PowerShell/Versions/SemVer2PowerShellVersion.cs:63-70 | a SemVer2 release's alias is its "U" text plus ".0"; Legacy uses its own alias; an invalid version has none |
| PSVersions.SemVer2AliasInsertsBuild | Scripting/InedoExtension/PowerShell/Versions/SemVer2PowerShellVersion.cs:65-67 | for a SemVer2 prerelease, ".0" is inserted just before the '-' that starts the prerelease |
| ScriptParser.Select | Scripting/InedoExtension/ScriptLanguages/ScriptParser.cs:65-75 | the indexer yields the value of every section whose title equals the given one ignoring case, and nothing else |
| ScriptParser.SelectAppend | Scripting/InedoExtension/ScriptLanguages/ScriptParser.cs:65-75 | querying a concatenated list queries the two parts in order |
| ScriptParser.Merged | Scripting/InedoExtension/ScriptLanguages/ScriptParser.cs:81-84 | no matching section merges to "", and a single one to its own value |
| ScriptParser.TrimmedKeeps | Scripting/InedoExtension/ScriptLanguages/ScriptParser.cs:85-92 | every value that is not blank comes out trimmed |
| ScriptParser.TrimmedFrom | Scripting/InedoExtension/ScriptLanguages/ScriptParser.cs:85-92 | everything that comes out is the trimmed form of a value that is not blank |
| ScriptParser.SelectAnyOne | Scripting/InedoExtension/ScriptLanguages/Shell/ShellScriptParser.cs:122-124 | looking up several titles at once, given a single title, is the indexer |
| ScriptParser.GetParameters | Scripting/InedoExtension/ScriptLanguages/Shell/ShellScriptParser.cs:122-128 | every parameter text is non-empty and already trimmed |
| ScriptParser.Summary | Scripting/InedoExtension/ScriptLanguages/Shell/ShellScriptParser.cs:68-70 | the summary is the trimmed AhDescription text unless that is blank, then the trimmed untitled text; with no AhDescription section it is the untitled text; it is always trimmed |
| ScriptParser.MatchTitle | Scripting/InedoExtension/ScriptLanguages/Shell/ShellScriptParser.cs:14 | a match names a non-empty title made of word characters at the start of the line |
| ScriptParser.MatchTitleAt | Scripting/InedoExtension/ScriptLanguages/Shell/ShellScriptParser.cs:14 | every line of the title grammar (word, blanks, ':', blanks, a value without line feeds, at most a final line feed) matches with that title and value |
| ScriptParser.MatchTitleSound | Scripting/InedoExtension/ScriptLanguages/Shell/ShellScriptParser.cs:14 | every match is a line of that grammar, and the value is the text after the blanks |
| ScriptParser.SectionList.constructor | Scripting/InedoExtension/ScriptLanguages/ScriptParser.cs:63 | a new list is empty |
| ScriptParser.SectionList.Add | Scripting/InedoExtension/ScriptLanguages/ScriptParser.cs:77-80 | appends one titled section at the end and changes nothing else |
| ScriptParser.SectionList.ReadConfigurationValues | Scripting/InedoExtension/ScriptLanguages/ScriptParser.cs:93-127 | the loop yields the groups of the reference grouping, which closes a group whenever a title repeats (ignoring case) |
| ScriptParser.ParseInternal | Scripting/InedoExtension/ScriptLanguages/ScriptParser.cs:31-59 | builds a fresh list holding exactly the reference sections of the header lines |
| ScriptParser.UntitledLineAppends | Scripting/InedoExtension/ScriptLanguages/ScriptParser.cs:41-44 | a line without a title only appends its content and a newline to the buffer |
| ScriptParser.TitledLineFlushes | Scripting/InedoExtension/ScriptLanguages/ScriptParser.cs:45-52 | a titled line flushes the buffer, even an empty one, under the previous title ("" before the first), and its inline content seeds the next section |
| ScriptParser.SectionsTitles | Scripting/InedoExtension/ScriptLanguages/ScriptParser.cs:31-56 | the section titles are "" followed by the line titles in order, one per titled line, plus one when the final buffer is not empty |
| ScriptParser.UntitledHeader | Scripting/InedoExtension/ScriptLanguages/ScriptParser.cs:38-56 | a header without titles is one untitled section with every line followed by a newline, or nothing when there are no lines |
| ScriptParser.ConfigurationValuesTrimmed | Scripting/InedoExtension/ScriptLanguages/ScriptParser.cs:111-120 | every directive value stored in a group is trimmed |
| ScriptParser.IgnoresOtherTitles | Scripting/InedoExtension/ScriptLanguages/ScriptParser.cs:111-124 | when no title is a configuration directive, every group is empty and the final group is not added |
| ScriptParser.RepeatedTitleFlushes | Scripting/InedoExtension/ScriptLanguages/ScriptParser.cs:102-109 | a title repeated right after itself (ignoring case) closes the current group and starts a new one holding only that title |
| ScriptParser.DistinctTitlesOneGroup | Scripting/InedoExtension/ScriptLanguages/ScriptParser.cs:93-126 | with no title repeated (ignoring case) there is at most one group |
| ScriptParser.EmptyGroupFromRepeatedTitle | Scripting/InedoExtension/ScriptLanguages/ScriptParser.cs:102-106 | a repeated comment title adds an empty group, because the flush does not look at the fields |
| ScriptParser.ParseParameters | Scripting/InedoExtension/ScriptLanguages/Shell/ShellScriptParser.cs:74-84 | each parameter text gives either one parameter or one warning starting "AhParameter format error: " |
| ScriptParser.ParseParametersAllValid | Scripting/InedoExtension/ScriptLanguages/Shell/ShellScriptParser.cs:74-84 | when every text parses, the parameters are the parsed texts in order and there are no warnings |
| ScriptParser.FormatWarnings | Scripting/InedoExtension/ScriptLanguages/Shell/ShellScriptParser.cs:91-101 | an arguments format adds a warning starting "AhArgsFormat error: " exactly when it does not parse, and at most one |
| ScriptParser.ArgumentParams | Scripting/InedoExtension/ScriptLanguages/Shell/ShellScriptParser.cs:104 | keeps exactly the parameters whose usage is Arguments |
| ShellScriptParser.ReadHeader | Scripting/InedoExtension/ScriptLanguages/Shell/ShellScriptParser.cs:16-55 | the line-by-line reader yields exactly the reference header of the script's lines |
| ShellScriptParser.ReadBody | Scripting/InedoExtension/ScriptLanguages/Shell/ShellScriptParser.cs:36-54 | the buffering loop yields the body up to the closing line, split at line breaks, or nothing when no line closes it |
| ShellScriptParser.SkipsShebangs | Scripting/InedoExtension/ScriptLanguages/Shell/ShellScriptParser.cs:20-28 | leading "#!" lines and lines that are empty after trimming (but not blank) are skipped: the header is that of the lines after them |
| ShellScriptParser.BlankLineNoHeader | Scripting/InedoExtension/ScriptLanguages/Shell/ShellScriptParser.cs:21 | a blank line before the header ends the search, so there is no header |
| ShellScriptParser.UnterminatedHeader | Scripting/InedoExtension/ScriptLanguages/Shell/ShellScriptParser.cs:36-54 | a header that is never closed yields no lines |
| ShellScriptParser.BlockHeader | Scripting/InedoExtension/ScriptLanguages/Shell/ShellScriptParser.cs:32-51 | an opened and closed header yields its body's buffer split at line breaks, whatever follows the closing line |
| ShellScriptParser.MultiLineHeader | Scripting/InedoExtension/ScriptLanguages/Shell/ShellScriptParser.cs:39-45 | in the ": '" form the body lines are concatenated without separators, so a body without line feeds yields one line |
| ShellScriptParser.CommentHeader | Scripting/InedoExtension/ScriptLanguages/Shell/ShellScriptParser.cs:39-50 | in the "#" form each body line loses its "# " or "#" and ends a line, so the header is the stripped lines followed by one empty line |
| ShellScriptParser.ParseLine | Scripting/InedoExtension/ScriptLanguages/Shell/ShellScriptParser.cs:56-65 | a line is a title exactly when it matches the title pattern (which also rules out leading white space); a title line's content is dropped, any other line is all content |
| ShellScriptParser.ArgsFormat | Scripting/InedoExtension/ScriptLanguages/Shell/ShellScriptParser.cs:90-117 | a non-empty format is kept and warned about only when it does not validate; an empty one becomes "$Name" of each Arguments parameter, warned about only when there are some and it does not validate |
| ShellScriptParser.ParseSections | Scripting/InedoExtension/ScriptLanguages/Shell/ShellScriptParser.cs:66-120 | the summary, parameters, execution mode, configuration groups and arguments format are the ones the sections give; every warning is a parameter or format warning |
| ShellScriptParser.NoWarnings | Scripting/InedoExtension/ScriptLanguages/Shell/ShellScriptParser.cs:74-117 | when every parameter text parses and every format validates there are no warnings |
| ShellScriptParser.Parse | Scripting/InedoExtension/ScriptLanguages/ScriptParser.cs:16-59 | the whole parse is the section parse of the sections built from the header |
| WindowsBatchScriptParser.ReadHeader | Scripting/InedoExtension/ScriptLanguages/Batch/WindowsBatchScriptParser.cs:16-52 | the line-by-line reader yields exactly the reference header of the script's lines |
| WindowsBatchScriptParser.SkipLeading | Scripting/InedoExtension/ScriptLanguages/Batch/WindowsBatchScriptParser.cs:20-28 | the first loop stops at the first line that is blank, or that after trimming neither starts "#" nor is empty |
| WindowsBatchScriptParser.ReadBody | Scripting/InedoExtension/ScriptLanguages/Batch/WindowsBatchScriptParser.cs:34-51 | the buffering loop yields the opening piece and the stripped lines containing "REM", split at line breaks, or nothing when the input ends first |
| WindowsBatchScriptParser.SkipsComments | Scripting/InedoExtension/ScriptLanguages/Batch/WindowsBatchScriptParser.cs:20-28 | leading "#" lines are skipped: the header is that of the lines after them |
| WindowsBatchScriptParser.BlankLineNoHeader | Scripting/InedoExtension/ScriptLanguages/Batch/WindowsBatchScriptParser.cs:21 | a blank line before the header ends the search, so there is no header |
| WindowsBatchScriptParser.OpensNotSkipped | Scripting/InedoExtension/ScriptLanguages/Batch/WindowsBatchScriptParser.cs:24-32 | a line that opens a header is never one the first loop skips |
| WindowsBatchScriptParser.UnterminatedHeader | Scripting/InedoExtension/ScriptLanguages/Batch/WindowsBatchScriptParser.cs:37-51 | a header whose every later line contains "REM" up to the end of input yields no lines |
| WindowsBatchScriptParser.BlockHeader | Scripting/InedoExtension/ScriptLanguages/Batch/WindowsBatchScriptParser.cs:32-43 | an opening "REM" line, lines containing "REM" and a line without it yield the opening and body lines, stripped, each ending a line, split at line breaks |
| WindowsBatchScriptParser.PlainBlockHeader | Scripting/InedoExtension/ScriptLanguages/Batch/WindowsBatchScriptParser.cs:32-43 | when no stripped piece holds a line break, the header is the stripped pieces followed by one empty line |
| WindowsBatchScriptParser.MidLineRem | Scripting/InedoExtension/ScriptLanguages/Batch/WindowsBatchScriptParser.cs:39-46 | a line with "REM" anywhere continues the header and loses its first three characters ("  REM x" gives "EM x") |
| WindowsBatchScriptParser.ParseLine | Scripting/InedoExtension/ScriptLanguages/Batch/WindowsBatchScriptParser.cs:53-62 | a line is a title exactly when it matches the title pattern and does not start with white space; a title line keeps its inline value as content, any other line is all content |
| WindowsBatchScriptParser.ParseLineKeepsInline | Scripting/InedoExtension/ScriptLanguages/Batch/WindowsBatchScriptParser.cs:55-57 | a title line of the grammar gives its title and its inline value |
| WindowsBatchScriptParser.ArgsFormat | Scripting/InedoExtension/ScriptLanguages/Batch/WindowsBatchScriptParser.cs:87-110 | a non-empty format is kept and warned about only when it does not validate; an empty one becomes "$Name" of every parameter, warned about only when there are parameters and it does not validate |
| WindowsBatchScriptParser.ParseSections | Scripting/InedoExtension/ScriptLanguages/Batch/WindowsBatchScriptParser.cs:63-113 | the summary, parameters, execution mode, configuration groups and arguments format are the ones the sections give; every warning is a parameter or format warning |
| WindowsBatchScriptParser.Parse | Scripting/InedoExtension/ScriptLanguages/ScriptParser.cs:16-59 | the whole parse is the section parse of the sections built from the header |
| PythonScriptParser.MatchEscape | Scripting/InedoExtension/ScriptLanguages/Python/PythonScriptParser.cs:14 | a match starts with a backslash, is at least two characters long and stays inside the text |
| PythonScriptParser.SimpleChar | Scripting/InedoExtension/ScriptLanguages/Python/PythonScriptParser.cs:117-128 | a, b, f, n, r and t name their control characters; any other single character stands for itself |
| PythonScriptParser.Replacement | Scripting/InedoExtension/ScriptLanguages/Python/PythonScriptParser.cs:116-147 | corrected: only a \U code point beyond U+10FFFF or in the surrogate range throws; simple escapes give one character, named escapes keep their braces, \x gives the character of its byte |
| PythonScriptParser.OctalChar | Scripting/InedoExtension/ScriptLanguages/Python/PythonScriptParser.cs:143-147 | three octal digits give the character they number, 64, 8 and 1 times their digits |
| PythonScriptParser.ReplacementAsWritten | Scripting/InedoExtension/ScriptLanguages/Python/PythonScriptParser.cs:116-147 | as written the octal branch always throws, \u and \U decode the byte-reversed value, and the other escapes are as corrected |
| PythonScriptParser.Swap16 | Scripting/InedoExtension/ScriptLanguages/Python/PythonScriptParser.cs:135 | two bytes read back least significant first: the high and low bytes trade places |
| PythonScriptParser.Swap32 | Scripting/InedoExtension/ScriptLanguages/Python/PythonScriptParser.cs:138 | four bytes read back least significant first: the first and last bytes trade places, and the result fits in 32 bits |
| PythonScriptParser.NoBackslashUnchanged | Scripting/InedoExtension/ScriptLanguages/Python/PythonScriptParser.cs:110-152 | text without a backslash decodes to itself, as written and corrected |
| PythonScriptParser.WholeEscape | Scripting/InedoExtension/ScriptLanguages/Python/PythonScriptParser.cs:112-149 | a text that is one whole escape is replaced by that escape's replacement |
| PythonScriptParser.SimpleEscapeDecoded | Scripting/InedoExtension/ScriptLanguages/Python/PythonScriptParser.cs:117-128 | a backslash and a simple escape character decode to one character |
| PythonScriptParser.AsWrittenAgrees | Scripting/InedoExtension/ScriptLanguages/Python/PythonScriptParser.cs:112-149 | without \u and \U escapes, wherever the code as written decodes a text it decodes it as the corrected evaluator does |
| PythonScriptParser.ShortEscapeByteOrder | Scripting/InedoExtension/ScriptLanguages/Python/PythonScriptParser.cs:134-135 | as written "\u0041" gives U+4100, where the corrected evaluator gives "A" |
| PythonScriptParser.LongEscapeThrows | Scripting/InedoExtension/ScriptLanguages/Python/PythonScriptParser.cs:137-138 | as written "\U0001F600" throws, because the reversed value is beyond U+10FFFF; corrected it gives U+1F600 |
| PythonScriptParser.OctalEscapeThrows | Scripting/InedoExtension/ScriptLanguages/Python/PythonScriptParser.cs:143-147 | as written the octal escape "\101" throws; corrected it gives "A" |
| PythonScriptParser.OctalEscapeDecoded | Scripting/InedoExtension/ScriptLanguages/Python/PythonScriptParser.cs:143-147 | every octal escape throws as written, and corrected gives the character its digits number |
| PythonScriptParser.NamedEscapeKeepsBraces | Scripting/InedoExtension/ScriptLanguages/Python/PythonScriptParser.cs:131-132 | "\N{DASH}" decodes to "{DASH}": only the backslash and the N are dropped |
| PythonScriptParser.Sentinel | Scripting/InedoExtension/ScriptLanguages/Python/PythonScriptParser.cs:35 | the closing delimiter is the three characters that open the docstring |
| PythonScriptParser.EscapeAll | Scripting/InedoExtension/ScriptLanguages/Python/PythonScriptParser.cs:37-49 | decoding every piece with the escape evaluator as written keeps one text per piece |
| PythonScriptParser.EscapeAllErr | Scripting/InedoExtension/ScriptLanguages/Python/PythonScriptParser.cs:37-49 | once a piece throws, the later pieces do not matter |
| PythonScriptParser.ReadHeader | Scripting/InedoExtension/ScriptLanguages/Python/PythonScriptParser.cs:17-54 | the line-by-line reader yields exactly the reference header, decoded as written, including the exception of a piece whose escapes throw (every octal escape, and a \U escape whose byte-reversed value is not a code point) |
| PythonScriptParser.ReadBody | Scripting/InedoExtension/ScriptLanguages/Python/PythonScriptParser.cs:35-53 | the docstring loop yields the pieces decoded as written, split at line breaks, nothing when the input ends first, or the first exception |
| PythonScriptParser.SkipsComments | Scripting/InedoExtension/ScriptLanguages/Python/PythonScriptParser.cs:21-29 | leading "#" lines are skipped: the header is that of the lines after them |
| PythonScriptParser.BlankLineNoHeader | Scripting/InedoExtension/ScriptLanguages/Python/PythonScriptParser.cs:22 | a blank line before the docstring ends the search, so there is no header |
| PythonScriptParser.OpensNotSkipped | Scripting/InedoExtension/ScriptLanguages/Python/PythonScriptParser.cs:25-33 | a line that opens a docstring is never one the first loop skips |
| PythonScriptParser.UnterminatedHeader | Scripting/InedoExtension/ScriptLanguages/Python/PythonScriptParser.cs:38-53 | a docstring the input ends inside yields no lines unless an escape throws as written |
| PythonScriptParser.BlockHeader | Scripting/InedoExtension/ScriptLanguages/Python/PythonScriptParser.cs:33-45 | an opening line, lines without the delimiter and a closing line yield the opening text, body lines and text before the delimiter, decoded as written and split at line breaks, or the first exception of that decoding |
| PythonScriptParser.OneLineDocstringNotClosed | Scripting/InedoExtension/ScriptLanguages/Python/PythonScriptParser.cs:37-40 | a docstring closed on its own opening line is not noticed: reading goes on through later lines without the delimiter and the header comes out empty |
| PythonScriptParser.MatchBareTitle | Scripting/InedoExtension/ScriptLanguages/Python/PythonScriptParser.cs:15 | a title line is a word, optional white space and a colon with nothing after it: exactly the shell title lines whose inline value is empty |
| PythonScriptParser.ParseLine | Scripting/InedoExtension/ScriptLanguages/Python/PythonScriptParser.cs:55-64 | a line is a title exactly when it is such a line and does not start with white space; any other line is all content |
| PythonScriptParser.InlineTextIsContent | Scripting/InedoExtension/ScriptLanguages/Python/PythonScriptParser.cs:15 | a `word:` line with any non-blank text after the colon is content, not a title |
| PythonScriptParser.ParseSections | Scripting/InedoExtension/ScriptLanguages/Python/PythonScriptParser.cs:65-101 | the summary is the untitled text alone; parameters come from AhParameters only; the arguments format is kept as given and never synthesised; every warning is a parameter or format warning |
| PythonScriptParser.Parse | Scripting/InedoExtension/ScriptLanguages/ScriptParser.cs:16-59 | an escape that throws as written fails the parse with that exception; otherwise it is the section parse of the sections built from the header |
| PSConfigParameterInfo.Val | Scripting/InedoExtension/PowerShell/PSConfigParameterInfo.cs:14 | a key that is present gives its value, a missing one gives null |
| PSConfigParameterInfo.Named | Scripting/InedoExtension/PowerShell/PSConfigParameterInfo.cs:26-32 | the blocks under a name are blocks whose name equals it ignoring case |
| PSConfigParameterInfo.MaxCountIsMax | Scripting/InedoExtension/PowerShell/PSConfigParameterInfo.cs:25-27 | the largest count over the configuration names is an upper bound reached by one of them, and is absent exactly when no name has a block |
| PSConfigParameterInfo.GroupCountAsWritten | Scripting/InedoExtension/PowerShell/PSConfigParameterInfo.cs:25-27 | as written the count throws exactly when there is no configuration block at all, because the maximum of an empty sequence throws |
| PSConfigParameterInfo.GroupCount | Scripting/InedoExtension/PowerShell/PSConfigParameterInfo.cs:25-27 | corrected, the count is the written maximum wherever that does not throw, and 0 when there are no configuration blocks |
| PSConfigParameterInfo.GroupCountIsMax | Scripting/InedoExtension/PowerShell/PSConfigParameterInfo.cs:25-27 | the group count bounds every name's block count and is 0 or reached by one of them |
| PSConfigParameterInfo.Entry | Scripting/InedoExtension/PowerShell/PSConfigParameterInfo.cs:33-35 | a name contributes to group i exactly when it has more than i blocks and the i-th one has non-empty content, which is then the value |
| PSConfigParameterInfo.Entries | Scripting/InedoExtension/PowerShell/PSConfigParameterInfo.cs:31-36 | a group holds at most one entry per configuration name, keyed by that name |
| PSConfigParameterInfo.Groups | Scripting/InedoExtension/PowerShell/PSConfigParameterInfo.cs:29-38 | there is one group per index below the count, the i-th built from the i-th blocks |
| PSConfigParameterInfo.FromDocumentationBlocks | Scripting/InedoExtension/PowerShell/PSConfigParameterInfo.cs:22-40 | as written the loop throws InvalidOperationException exactly when no block has a configuration name (the maximum of an empty sequence), and otherwise yields exactly the reference groups |
| PSConfigParameterInfo.GroupsUpTo | Scripting/InedoExtension/PowerShell/PSConfigParameterInfo.cs:29-38 | the loop up to a count yields one group per index, the k-th being group k |
| PSConfigParameterInfo.EntriesFind | Scripting/InedoExtension/PowerShell/PSConfigParameterInfo.cs:31-37 | looking up a configuration name in a group gives that name's entry, and any other key gives null |
| PSConfigParameterInfo.GroupAccessors | Scripting/InedoExtension/PowerShell/PSConfigParameterInfo.cs:16-20 | each accessor of group i reads its name's i-th non-empty content, or null |
| PSConfigParameterInfo.NoConfigKeysThrows | Scripting/InedoExtension/PowerShell/PSConfigParameterInfo.cs:25-27 | a help block with only a SYNOPSIS has no configuration name, so the count throws as written; corrected it gives no groups |
| PowerShellScriptInfo.CollectFrom | Scripting/InedoExtension/PowerShell/PowerShellScriptInfo.Parse.cs:162-178 | only tokens that are neither comments nor line breaks are collected |
| PowerShellScriptInfo.CollectParamTokens | Scripting/InedoExtension/PowerShell/PowerShellScriptInfo.Parse.cs:159-178 | the collecting loop yields exactly the reference token list, which ends at the ")" that closes the first group |
| PowerShellScriptInfo.CollectStopsAtClose | Scripting/InedoExtension/PowerShell/PowerShellScriptInfo.Parse.cs:169-176 | for "(", a flat body and ")", the collected tokens are exactly those and nothing after them |
| PowerShellScriptInfo.ReadMandatory | Scripting/InedoExtension/PowerShell/PowerShellScriptInfo.Parse.cs:205-233 | the attribute loop yields the written flag: the Mandatory member is skipped, every other token inside the parentheses sets the flag, an "=" followed by a variable other than $true clears it, and an "=" as the last token makes the look-ahead throw |
| PowerShellScriptInfo.MandatoryFalseIgnored | Scripting/InedoExtension/PowerShell/PowerShellScriptInfo.Parse.cs:219-230 | as written "[Parameter(Mandatory = $false)]" still makes the parameter mandatory, because the Mandatory member is skipped and every other token inside the parentheses sets the flag |
| PowerShellScriptInfo.MandatoryFalseHonoured | Scripting/InedoExtension/PowerShell/PowerShellScriptInfo.Parse.cs:224-230 | corrected, "Mandatory = $false" leaves the parameter optional and "Mandatory = $true" makes it mandatory |
| PowerShellScriptInfo.EmptyParameterAttribute | Scripting/InedoExtension/PowerShell/PowerShellScriptInfo.Parse.cs:205-233 | as written "[Parameter()]" makes the parameter mandatory, since its opening parenthesis already sets the flag; corrected it does not |
| PowerShellScriptInfo.TruncatedAttributeThrows | Scripting/InedoExtension/PowerShell/PowerShellScriptInfo.Parse.cs:225-227 | as written, "[Parameter(Position =" cut off after the "=" makes the look-ahead read past the end, and the whole scrape throws ArgumentOutOfRangeException |
| PowerShellScriptInfo.TruncatedAttributeUndecided | Scripting/InedoExtension/PowerShell/PowerShellScriptInfo.Parse.cs:219-230 | corrected, the same cut-off attribute leaves the flag as it was |
| PowerShellScriptInfo.MandatoryUnchangedOutsideGroup | Scripting/InedoExtension/PowerShell/PowerShellScriptInfo.Parse.cs:207-217 | a scan that does not start inside parentheses leaves the flag as it was, as written and corrected |
| PowerShellScriptInfo.TypeMatch | Scripting/InedoExtension/PowerShell/PowerShellScriptInfo.Parse.cs:235-240 | a matched type name is non-empty and holds no "]" |
| PowerShellScriptInfo.TypeMatchStrips | Scripting/InedoExtension/PowerShell/PowerShellScriptInfo.Parse.cs:16 | a bracket-free type name is kept bare, or stripped of one pair of brackets |
| PowerShellScriptInfo.ArrayTypeUnmatched | Scripting/InedoExtension/PowerShell/PowerShellScriptInfo.Parse.cs:235-240 | an array type such as "[string[]]" does not match, so it leaves the type unset |
| PowerShellScriptInfo.Emit | Scripting/InedoExtension/PowerShell/PowerShellScriptInfo.Parse.cs:252-253 | a parameter with a name goes out, and one without a name is dropped |
| PowerShellScriptInfo.ScrapeParameters | Scripting/InedoExtension/PowerShell/PowerShellScriptInfo.Parse.cs:157-254 | the scanning loop yields exactly the reference scrape of the collected tokens, with the Mandatory scan as written, or the exception an attribute scan throws |
| PowerShellScriptInfo.ScrapeNamed | Scripting/InedoExtension/PowerShell/PowerShellScriptInfo.Parse.cs:191-192 | every parameter of a scrape that does not throw has a name |
| PowerShellScriptInfo.SeparatorEmits | Scripting/InedoExtension/PowerShell/PowerShellScriptInfo.Parse.cs:188-196 | an operator other than "=" emits the current parameter when it has a name and starts a new one |
| PowerShellScriptInfo.DefaultAfterAssign | Scripting/InedoExtension/PowerShell/PowerShellScriptInfo.Parse.cs:245-249 | the token after "=" becomes the default value and leaves the name as it was |
| PowerShellScriptInfo.VariableNames | Scripting/InedoExtension/PowerShell/PowerShellScriptInfo.Parse.cs:242-243 | a variable token names the current parameter and emits nothing |
| PowerShellScriptInfo.TypeSets | Scripting/InedoExtension/PowerShell/PowerShellScriptInfo.Parse.cs:235-240 | a type token sets the type when the pattern matches, and otherwise leaves it as it was |
| PowerShellScriptInfo.AttributeSetsMandatory | Scripting/InedoExtension/PowerShell/PowerShellScriptInfo.Parse.cs:205-233 | a Parameter attribute sets the current parameter's flag to what the attribute scan as written yields, or the scan's exception ends the whole scrape |
| PowerShellScriptInfo.ScrapeExample | Scripting/InedoExtension/PowerShell/PowerShellScriptInfo.Parse.cs:157-254 | "([switch]$Force, $Name = x)" scrapes to a switch named Force and a parameter Name with default "x" |
| PowerShellScriptInfo.ScrapeExampleFirst | Scripting/InedoExtension/PowerShell/PowerShellScriptInfo.Parse.cs:184-243 | the first four tokens of the example leave a switch named Force emitted and a fresh parameter |
| PowerShellScriptInfo.ParamIndex | Scripting/InedoExtension/PowerShell/PowerShellScriptInfo.Parse.cs:38-40 | the index is the first "param" keyword (ignoring case), or the token count when there is none |
| PowerShellScriptInfo.DocComment | Scripting/InedoExtension/PowerShell/PowerShellScriptInfo.Parse.cs:44-47 | the help text is the last comment before "param" that starts "<#" and ends "#>", and there is one exactly when such a comment exists |
| PowerShellScriptInfo.Blocks | Scripting/InedoExtension/PowerShell/PowerShellScriptInfo.Parse.cs:55-65 | only help blocks with content are kept |
| PowerShellScriptInfo.FirstContent | Scripting/InedoExtension/PowerShell/PowerShellScriptInfo.Parse.cs:73-82 | the first block's content, or null when there is none |
| PowerShellScriptInfo.ParameterBlocks | Scripting/InedoExtension/PowerShell/PowerShellScriptInfo.Parse.cs:76-88 | the blocks joined to a parameter are ".PARAMETER" blocks whose parameter equals its name ignoring case |
| PowerShellScriptInfo.Parse | Scripting/InedoExtension/PowerShell/PowerShellScriptInfo.Parse.cs:31-101 | the parse throws exactly when the scrape throws, or there is a help comment that is shorter than "<##>" or has no configuration block; otherwise it keeps every scraped parameter in order with its name and default value |
| PowerShellScriptInfo.ParseWithoutHelp | Scripting/InedoExtension/PowerShell/PowerShellScriptInfo.Parse.cs:92-100 | without a help comment the parse succeeds exactly when the scrape does, and then there is no description, no configuration group, no execution mode, and no parameter is described or mandatory |
| PowerShellScriptInfo.ParseDescription | Scripting/InedoExtension/PowerShell/PowerShellScriptInfo.Parse.cs:75 | with a help comment, the description is the first synopsis block, else the first description block |
| PowerShellScriptInfo.ParseParameterDescriptions | Scripting/InedoExtension/PowerShell/PowerShellScriptInfo.Parse.cs:76-88 | with a help comment, each parameter is described by the first ".PARAMETER" block naming it, keeps its scraped Mandatory flag, and the configuration groups are those of the help blocks |
| ScriptPersistedConfiguration.CompareOne | Scripting/InedoExtension/Configurations/ScriptPersistedConfiguration.cs:24-41 | no drift reported means no difference, drift reported means a difference, and otherwise there is a difference exactly when the current and desired texts differ ignoring case; a difference carries the key, the desired and the current text |
| ScriptPersistedConfiguration.Compare | Scripting/InedoExtension/Configurations/ScriptPersistedConfiguration.cs:20-42 | no configuration gives no slots; otherwise there is one slot per configuration item, in order |
| ScriptPersistedConfiguration.NonNull | Scripting/InedoExtension/Configurations/ScriptPersistedConfiguration.cs:65 | keeps exactly the differences that are present |
| ScriptPersistedConfiguration.CompareResult | Scripting/InedoExtension/Configurations/ScriptPersistedConfiguration.cs:63-70 | the result is Identical exactly when every slot is empty, and otherwise lists the differences, which are then not empty |
| ScriptPersistedConfiguration.Create | Scripting/InedoExtension/Configurations/ScriptPersistedConfiguration.cs:15-19 | the constructor keeps the results and computes the slots from their configuration |
| ScriptPersistedConfiguration.StoreConfigurationStatus | Scripting/InedoExtension/Configurations/ScriptPersistedConfiguration.cs:71-81 | the loop records exactly the reference statuses |
| ScriptPersistedConfiguration.StatusCurrentIff | Scripting/InedoExtension/Configurations/ScriptPersistedConfiguration.cs:73-80 | there is one status per configuration item; an item is Current exactly when it has no difference; it keeps its key, and an empty type falls back to the configuration type name |
| ScriptPersistedConfiguration.AllCurrentIffIdentical | Scripting/InedoExtension/Configurations/ScriptPersistedConfiguration.cs:63-80 | every status is Current exactly when the comparison is Identical |
| ScriptPersistedConfiguration.DriftFlagDecides | Scripting/InedoExtension/Configurations/ScriptPersistedConfiguration.cs:26-40 | when drift is reported, equal texts still differ; when it is not said, equal texts do not |
| ScriptPersistedConfiguration.Persisted | Scripting/InedoExtension/Configurations/ScriptPersistedConfiguration.cs:47-62 | one record per configuration item, with its key, its rendered current value, and its type or else the configuration type name |
| PowerShellScriptRunner.TypeCast | Scripting/InedoExtension/PowerShell/PowerShellScriptRunner.cs:25 | a match is "[type::" + a name without "]" + "]" + a value without a line break, both not empty (a final line break allowed) |
| PowerShellScriptRunner.TypeCastParts | Scripting/InedoExtension/PowerShell/PowerShellScriptRunner.cs:25 | round trip: every well-formed cast text is matched back into its own name and value |
| PowerShellScriptRunner.CastValue | Scripting/InedoExtension/PowerShell/PowerShellScriptRunner.cs:73-154 | a cast value exists only when the text matches the cast pattern |
| PowerShellScriptRunner.CastOf | Scripting/InedoExtension/PowerShell/PowerShellScriptRunner.cs:77-152 | the lower-cased name picks the target: string names give the value unchanged, integer names give the value when it parses within that integer type's range and nothing otherwise |
| PowerShellScriptRunner.CastToString | Scripting/InedoExtension/PowerShell/PowerShellScriptRunner.cs:110-112 | "[type::string]v", the name in any case, converts to the string v |
| PowerShellScriptRunner.CastToInt | Scripting/InedoExtension/PowerShell/PowerShellScriptRunner.cs:79-84 | "[type::int]n" converts to the 32-bit integer n |
| PowerShellScriptRunner.UnparsedCast | Scripting/InedoExtension/PowerShell/PowerShellScriptRunner.cs:83-85 | a cast whose value does not parse gives no cast value |
| PowerShellScriptRunner.CastFallsThrough | Scripting/InedoExtension/PowerShell/PowerShellScriptRunner.cs:153-165 | a cast whose value does not parse falls through and ends as the whole text |
| PowerShellScriptRunner.Fallback | Scripting/InedoExtension/PowerShell/PowerShellScriptRunner.cs:156-165 | a 32-bit integer text gives that integer, otherwise "true"/"false" in any case give a boolean, otherwise the text itself |
| PowerShellScriptRunner.NotInteger | Scripting/InedoExtension/PowerShell/PowerShellScriptRunner.cs:156 | a text that starts with neither a digit nor a sign does not parse as an integer |
| PowerShellScriptRunner.PlainInteger | Scripting/InedoExtension/PowerShell/PowerShellScriptRunner.cs:156-157 | the decimal text of a 32-bit integer converts to that integer |
| PowerShellScriptRunner.ConvertScalar | Scripting/InedoExtension/PowerShell/PowerShellScriptRunner.cs:67-166 | a credential-prefixed text is a credential holding the rest; otherwise a matched cast, otherwise the fallback |
| PowerShellScriptRunner.ConvertToPSValue | Scripting/InedoExtension/PowerShell/PowerShellScriptRunner.cs:65-183 | a scalar converts by its text, a vector to an array of the same length, a map to a hashtable |
| PowerShellScriptRunner.ConvertVector | Scripting/InedoExtension/PowerShell/PowerShellScriptRunner.cs:167-170 | each array element is the converted vector element at the same index |
| PowerShellScriptRunner.HashtableDistinct | Scripting/InedoExtension/PowerShell/PowerShellScriptRunner.cs:173-175 | with distinct keys, filling the hashtable by key keeps every pair in order |
| PowerShellScriptRunner.ConvertMap | Scripting/InedoExtension/PowerShell/PowerShellScriptRunner.cs:171-178 | a map converts to a hashtable with the same keys in order, each holding its converted value |
| PowerShellScriptRunner.AllOk | Scripting/InedoExtension/PowerShell/PowerShellScriptRunner.cs:465-471 | succeeds exactly when every element succeeds, and then holds their values in order |
| PowerShellScriptRunner.DictFrom | Scripting/InedoExtension/PowerShell/PowerShellScriptRunner.cs:455-457 | a built dictionary never holds a key twice |
| PowerShellScriptRunner.DictFromSnoc | Scripting/InedoExtension/PowerShell/PowerShellScriptRunner.cs:456-457 | each property either passes on the earlier error, its own error, or is added with the dictionary's Add |
| PowerShellScriptRunner.DictFromDistinct | Scripting/InedoExtension/PowerShell/PowerShellScriptRunner.cs:455-457 | properties with distinct names and successful values build exactly those entries |
| PowerShellScriptRunner.PropertyValues | Scripting/InedoExtension/PowerShell/PowerShellScriptRunner.cs:456-457 | one converted pair per property, in order, keeping the property's name |
| PowerShellScriptRunner.ParseJson | Scripting/InedoExtension/PowerShell/PowerShellScriptRunner.cs:438-444 | empty text is the default value, malformed text throws, and otherwise the parsed element is converted |
| PowerShellScriptRunner.ValueUnwrapped | Scripting/InedoExtension/PowerShell/PowerShellScriptRunner.cs:459-460 | an object whose only property is "Value" reads as that property's value |
| PowerShellScriptRunner.LowerValueKept | Scripting/InedoExtension/PowerShell/PowerShellScriptRunner.cs:459-462 | the "Value" name is matched with case: a lone "value" property stays a map |
| PowerShellScriptRunner.DuplicatePropertyThrows | Scripting/InedoExtension/PowerShell/PowerShellScriptRunner.cs:455-457 | a repeated property name throws |
| PowerShellScriptRunner.NullReadsEmpty | Scripting/InedoExtension/PowerShell/PowerShellScriptRunner.cs:474-475 | JSON null reads as the empty string, which differs from the default value |
| PowerShellScriptRunner.ReadWritten | Scripting/InedoExtension/PowerShell/PowerShellScriptRunner.cs:446-476 | round trip: a value with no lone "Value" entry and no repeated key is read back from its own JSON form |
| PowerShellScriptRunner.Classify | Scripting/InedoExtension/PowerShell/PowerShellScriptRunner.cs:215-248 | an out-variable line is the prefix, a name without "!" that is not empty, "!" and the JSON; a process-id line is the prefix and a 32-bit integer |
| PowerShellScriptRunner.ClassifyEmitted | Scripting/InedoExtension/PowerShell/PowerShellScriptRunner.cs:217-231 | round trip: the line written for a name without "!" is read back as that name and that JSON |
| PowerShellScriptRunner.ClassifyNameWithBang | Scripting/InedoExtension/PowerShell/PowerShellScriptRunner.cs:220-224 | a name with "!" is cut at its first "!" and the rest goes into the JSON |
| PowerShellScriptRunner.ClassifyPid | Scripting/InedoExtension/PowerShell/PowerShellScriptRunner.cs:232-238 | the process-id prefix and the decimal text of a 32-bit integer read back as that process id |
| PowerShellScriptRunner.ForwardedIff | Scripting/InedoExtension/PowerShell/PowerShellScriptRunner.cs:215-248 | a text is passed on as output exactly when it is not a longer extension of either prefix |
| PowerShellScriptRunner.BarePrefixForwarded | Scripting/InedoExtension/PowerShell/PowerShellScriptRunner.cs:217-243 | the bare out-variable prefix is passed on as output |
| PowerShellScriptRunner.AddIfAbsent | Scripting/InedoExtension/PowerShell/PowerShellScriptRunner.cs:227 | the set gains the element and keeps every other, and holds nothing else |
| PowerShellScriptRunner.SetOwnKey | Scripting/InedoExtension/PowerShell/PowerShellScriptRunner.cs:228 | with distinct keys, setting an existing key replaces that entry's value in place |
| PowerShellScriptRunner.OutVariables.constructor | Scripting/InedoExtension/PowerShell/PowerShellScriptRunner.cs:189-191 | the out-variables start as the caller's dictionary with nothing reported |
| PowerShellScriptRunner.OutVariables.Filled | Scripting/InedoExtension/PowerShell/PowerShellScriptRunner.cs:294-298 | the same keys in order; a reported variable keeps its value and any other is read from the session |
| PowerShellScriptRunner.OutVariables.ReadUnreported | Scripting/InedoExtension/PowerShell/PowerShellScriptRunner.cs:294-298 | the loop leaves exactly the filled dictionary and keeps the keys distinct |
| PowerShellScriptRunner.Runner.constructor | Scripting/InedoExtension/PowerShell/PowerShellScriptRunner.cs:27-36 | a new runner tracks no process, has passed on nothing and has no runspace yet |
| PowerShellScriptRunner.Runner.OpenRunspace | Scripting/InedoExtension/PowerShell/PowerShellScriptRunner.cs:42 | the runspace exists afterwards and nothing else changes |
| PowerShellScriptRunner.Runner.DataAdded | Scripting/InedoExtension/PowerShell/PowerShellScriptRunner.cs:211-249 | an out-variable line sets its variable to the parsed JSON and marks it reported (a JSON error changes nothing); a process-id line adds its id; other output is passed on; nothing else changes |
| PowerShellScriptRunner.Runner.Dispose | Scripting/InedoExtension/PowerShell/PowerShellScriptRunner.cs:313-349 | the first disposal of a runner with a runspace, when it terminates host processes, kills exactly the tracked ids other than its own; it is then disposed |
| PowerShellScriptRunner.Without | Scripting/InedoExtension/PowerShell/PowerShellScriptRunner.cs:330-333 | keeps exactly the ids other than the given one |
| PowerShellScriptRunner.WithoutOwn | Scripting/InedoExtension/PowerShell/PowerShellScriptRunner.cs:328-333 | the runner's own id is never killed, and nothing is dropped when it was not tracked |
| PowerShellScriptRunner.WithoutAbsent | Scripting/InedoExtension/PowerShell/PowerShellScriptRunner.cs:330-333 | when the own id is not tracked, every tracked id is killed in order |
| PowerShellScriptRunner.VarMatches | Scripting/InedoExtension/PowerShell/PowerShellScriptRunner.cs:26 | every match is a name that is not empty |
| PowerShellScriptRunner.VarMatchesPlain | Scripting/InedoExtension/PowerShell/PowerShellScriptRunner.cs:26 | "$name" with word characters matches that name |
| PowerShellScriptRunner.VarMatchesBraced | Scripting/InedoExtension/PowerShell/PowerShellScriptRunner.cs:26 | "${text}" with no "}" in text matches that text |
| PowerShellScriptRunner.ExtractVariablesInternal | Scripting/InedoExtension/PowerShell/PowerShellScriptRunner.cs:406-437 | the loops return exactly the reference names: none without tokens, else the variable tokens then the names inside strings, kept once ignoring case |
| PowerShellScriptRunner.ExtractedSound | Scripting/InedoExtension/PowerShell/PowerShellScriptRunner.cs:412-436 | the result holds no name twice ignoring case, holds every variable token and every name in a string, and nothing else |
| PSUtil.DeclaredParamFirst | Scripting/InedoExtension/PowerShell/PSUtil.cs:44 | the declared parameter found for an argument is none exactly when no parameter has its name ignoring case, else the first parameter that has it |
| PSUtil.BindArguments | Scripting/InedoExtension/PowerShell/PSUtil.cs:41-51 | the loop leaves in the variables exactly the undeclared arguments and in the parameters exactly the declared ones under the declared name, set one by one |
| PSUtil.UndeclaredLast | Scripting/InedoExtension/PowerShell/PSUtil.cs:49-50 | an undeclared argument not repeated later is the last match for its name among the variables |
| PSUtil.UndeclaredMissing | Scripting/InedoExtension/PowerShell/PSUtil.cs:47-50 | a declared name never reaches the variables |
| PSUtil.UndeclaredArgumentIsVariable | Scripting/InedoExtension/PowerShell/PSUtil.cs:49-50 | with distinct argument names, each undeclared argument is a variable holding its own value |
| PSUtil.DeclaredNameIsNotVariable | Scripting/InedoExtension/PowerShell/PSUtil.cs:47-50 | no variable carries a declared parameter's name |
| PSUtil.DeclaredLast | Scripting/InedoExtension/PowerShell/PSUtil.cs:45-48 | the last argument bound to a parameter gives its value, as a boolean for a bool or switch parameter |
| PSUtil.DeclaredArgumentIsParameter | Scripting/InedoExtension/PowerShell/PSUtil.cs:45-48 | a declared argument that no later argument overrides is the parameter's value, read as a boolean (missing meaning false) for a bool or switch parameter |
| PSUtil.DeclaredEntriesNamed | Scripting/InedoExtension/PowerShell/PSUtil.cs:47-48 | every bound entry is named by a declared parameter |
| PSUtil.ParametersAreDeclared | Scripting/InedoExtension/PowerShell/PSUtil.cs:47-48 | every parameter passed to the job is a declared one |
| PSUtil.PairKeys | Scripting/InedoExtension/PowerShell/PSUtil.cs:65 | one type/key text per group |
| PSUtil.SeenKept | Scripting/InedoExtension/PowerShell/PSUtil.cs:57-66 | the set of pairs seen before a group holds its pair exactly when the group is not kept, that is when an earlier group had the same pair ignoring case; adding the pair gives the set after it |
| PSUtil.DeclareOutputs | Scripting/InedoExtension/PowerShell/PSUtil.cs:55-80 | the loop leaves exactly the declared out-arguments and reports exactly the repeated pairs |
| PSUtil.SetOutputVariableReads | Scripting/InedoExtension/PowerShell/PSUtil.cs:58-62 | a "$name" directive sets that name to the empty string and leaves every other key as it was |
| PSUtil.DeclareGroupReads | Scripting/InedoExtension/PowerShell/PSUtil.cs:74-78 | a group's five directives set exactly the names they reference to the empty string |
| PSUtil.DeclaredReads | Scripting/InedoExtension/PowerShell/PSUtil.cs:63-79 | after the first groups, a name referenced by a kept group is the empty string and any other reads as before |
| PSUtil.DeclaredOutputsRead | Scripting/InedoExtension/PowerShell/PSUtil.cs:55-80 | after the loop, a referenced name is the empty string and every other out-argument is unchanged |
| PSUtil.DuplicatesAreSkipped | Scripting/InedoExtension/PowerShell/PSUtil.cs:66-73 | no warning exactly when every group is kept; each warning names a skipped group's pair |
| PSUtil.ExecModeVariableSet | Scripting/InedoExtension/PowerShell/PSUtil.cs:82-83 | the variable named by the execution-mode directive, "$" stripped, holds "Collect" or "Configure", and no other variable changes |
| PSUtil.LogExit | Scripting/InedoExtension/PowerShell/PSUtil.cs:260-274 | nothing without an exit code; otherwise "Script exit code: " and the code, at error level exactly when a comparator parses and rejects it, else at debug level; an operand beyond the integer range throws |
| PSUtil.NoSuccessCodeNeverFails | Scripting/InedoExtension/PowerShell/PSUtil.cs:262-273 | without a success code every exit code is logged at debug level |
| PSUtil.BareSuccessCode | Scripting/InedoExtension/PowerShell/PSUtil.cs:265-273 | a bare number as the success code makes the exit code an error exactly when it differs |
| PSUtil.WriteBack | Scripting/InedoExtension/PowerShell/PSUtil.cs:123-124 | the loop sets every job out-variable into the caller's dictionary in order |
| PSUtil.WrittenBackReads | Scripting/InedoExtension/PowerShell/PSUtil.cs:123-124 | afterwards a key reads as the job's last matching out-variable, or as before when the job has none |
| PSUtil.ParseDictionary | Scripting/InedoExtension/PowerShell/PSUtil.cs:276-281 | a map with at least one key gives a list holding just that map, anything else gives null |
| PSUtil.ScriptAssetName | Scripting/InedoExtension/PowerShell/PSUtil.cs:245-247 | the name, with ".ps1" appended unless it already ends with it ignoring case; it always ends with ".ps1" and starts with the name |
| PSUtil.ScriptAssetNameIdempotent | Scripting/InedoExtension/PowerShell/PSUtil.cs:245-247 | naming an asset twice gives the same name |
| PSUtil.ConfigGroups | Scripting/InedoExtension/PowerShell/PSUtil.cs:55-63 | no groups without a parsed script or directive list, else one group per directive in order |
| PSUtil.Messages | Scripting/InedoExtension/PowerShell/PSUtil.cs:147-161 | one log message per notice |
| PSUtil.ExecuteScriptDirect | Scripting/InedoExtension/PowerShell/PSUtil.cs:34-203 | Configure mode without an execution-mode name logs the error and returns null before any job; otherwise it sends the job built from the bound arguments; a comparator error propagates; otherwise the out-arguments receive the job's out-variables and the result is the outcome |
| PSUtil.CompleteRun | Scripting/InedoExtension/PowerShell/PSUtil.cs:120-202 | after the job, an exit-code error leaves everything as it was; otherwise the exit is logged, the out-variables are written back and the outcome returned |
| PSUtil.ReportRun | Scripting/InedoExtension/PowerShell/PSUtil.cs:126-202 | the result carries the job's exit code and output and, when collecting, the reconciled configuration list with its log |
| PSUtil.ExecuteScriptAsset | Scripting/InedoExtension/PowerShell/PSUtil.cs:26-33 | a missing asset logs "Script NAME not found." and returns null without a job; otherwise it runs the asset's text with its name as the default key |
| PSUtil.ExecuteScript | Scripting/InedoExtension/PowerShell/PSUtil.cs:19-25 | an asset name runs the asset, text runs directly in normal mode, so the result has no configuration list |
| PSUtil.OutcomeConfiguration | Scripting/InedoExtension/PowerShell/PSUtil.cs:133-200 | a configuration list exists exactly when collecting; it is never empty, its type/key pairs are distinct ignoring case, and without directives it is the one default item |
| PSUtil2.LoadScript | Scripting/InedoExtension/PowerShell/PSUtil2.cs:20-53 | inline text is used as given; otherwise loading fails exactly when the name does not end with ".ps1" ignoring case or names no asset; a loaded script carries its parse, with a debug note exactly when it does not parse |
| PSUtil2.Routes | Scripting/InedoExtension/PowerShell/PSUtil2.cs:59-84 | one routing per parameter, in order |
| PSUtil2.BoundStaysErr | Scripting/InedoExtension/PowerShell/PSUtil2.cs:63-83 | once an Add throws, the rest of the loop does not run |
| PSUtil2.BindParameter | Scripting/InedoExtension/PowerShell/PSUtil2.cs:61-83 | one parameter is added, by an `Add` that throws on a repeated name, to exactly the dictionary its routing names |
| PSUtil2.BindParameters | Scripting/InedoExtension/PowerShell/PSUtil2.cs:59-85 | no parameters bind nothing; otherwise the loop gives exactly the reference binding of the routed parameters |
| PSUtil2.BoundRoutes | Scripting/InedoExtension/PowerShell/PSUtil2.cs:63-83 | binding succeeds exactly when no dictionary receives a name twice ignoring case, and then holds each routed parameter in order |
| PSUtil2.UnparsedParametersAreVariables | Scripting/InedoExtension/PowerShell/PSUtil2.cs:61-65 | for a script that does not parse every parameter is a variable, as given |
| PSUtil2.RoutedMember | Scripting/InedoExtension/PowerShell/PSUtil2.cs:68-83 | each routed parameter lands in the dictionary its routing names |
| PSUtil2.DeclaredParameterRouted | Scripting/InedoExtension/PowerShell/PSUtil2.cs:68-83 | an undeclared parameter is a variable as given; a declared output parameter maps to the text of its value; any other declared one is a parameter, a bool or switch read as a boolean |
| PSUtil2.AddRequested | Scripting/InedoExtension/PowerShell/PSUtil2.cs:87-94 | each requested output name not yet present is added with a null mapping |
| PSUtil2.RequestedExtends | Scripting/InedoExtension/PowerShell/PSUtil2.cs:89-93 | adding requested names keeps the earlier entries and adds only null mappings |
| PSUtil2.RequestedUnique | Scripting/InedoExtension/PowerShell/PSUtil2.cs:91-92 | the out-variable names stay distinct ignoring case |
| PSUtil2.RequestedPresent | Scripting/InedoExtension/PowerShell/PSUtil2.cs:89-93 | every requested name is present afterwards |
| PSUtil2.GroupStepOk | Scripting/InedoExtension/PowerShell/PSUtil2.cs:101-118 | a kept group's references are added exactly when they are new names |
| PSUtil2.ReferencesStayErr | Scripting/InedoExtension/PowerShell/PSUtil2.cs:101-118 | once a reference Add throws, the loop stops with that error |
| PSUtil2.LoggedDuplicatesPrefix | Scripting/InedoExtension/PowerShell/PSUtil2.cs:98-125 | the pairs warned about before an `Add` throws are a prefix of the repeated pairs, and all of them when nothing throws |
| PSUtil2.DeclareReferences | Scripting/InedoExtension/PowerShell/PSUtil2.cs:98-125 | the loop gives exactly the reference result, and warns about exactly the repeated pairs it reaches before an `Add` throws (all of them when none throws) |
| PSUtil2.AddReferenceOk | Scripting/InedoExtension/PowerShell/PSUtil2.cs:120-124 | a "$name" reference is added, mapped to itself, exactly when the name is new |
| PSUtil2.AddGroupReferencesOk | Scripting/InedoExtension/PowerShell/PSUtil2.cs:113-117 | a group's five references are added exactly when together they bring only new names |
| PSUtil2.ReferencesOk | Scripting/InedoExtension/PowerShell/PSUtil2.cs:98-125 | the loop succeeds exactly when all kept groups' references are new names, and then appends them in order |
| PSUtil2.SameReferenceTwiceThrows | Scripting/InedoExtension/PowerShell/PSUtil2.cs:115-116 | a group whose desired and current values reference the same variable throws |
| PSUtil2.UnparsedCollectThrows | Scripting/InedoExtension/PowerShell/PSUtil2.cs:127-131 | a collecting run over a script that does not parse dereferences null at the execution-mode step, although the guard after it allows for null |
| PSUtil2.ExecModeVariables | Scripting/InedoExtension/PowerShell/PSUtil2.cs:127-128 | with the null check, a parsed script gets the same variables as written and a script that does not parse keeps its variables |
| PSUtil2.PrepareJob | Scripting/InedoExtension/PowerShell/PSUtil2.cs:55-129 | the steps give exactly the reference preparation, which throws on a binding clash, a repeated reference and, when collecting, a script that does not parse; the repeated pairs a collecting run reaches before it throws are reported, all of them when it succeeds |
| PSUtil2.PrepareSucceeds | Scripting/InedoExtension/PowerShell/PSUtil2.cs:55-129 | preparation succeeds exactly when binding does and, when collecting, the script parsed and the references are new names; the out-variables then have distinct names and hold every requested name |
| PSUtil2.RequestedVariableWrittenWithoutName | Scripting/InedoExtension/PowerShell/PSUtil2.cs:171-176 | a requested variable that the script sets is written under a null name |
| PSUtil2.WriteCorrection | Scripting/InedoExtension/PowerShell/PSUtil2.cs:171-177 | the corrected write agrees with the one as written except that a null mapping writes under the variable's own name |
| PSUtil2.WriteResults | Scripting/InedoExtension/PowerShell/PSUtil2.cs:171-177 | the loop makes exactly the writes as written: a mapped variable under its mapping (null for a requested name), an unmapped requested one under its own name |
| PSUtil2.WritesAsWrittenMapped | Scripting/InedoExtension/PowerShell/PSUtil2.cs:171-177 | as written, when every requested name is among the out-variables, every mapped result variable is written under its mapping, at most one write per result, and every write is such a mapped write |
| PSUtil2.WritesMapped | Scripting/InedoExtension/PowerShell/PSUtil2.cs:171-177 | corrected: every mapped result variable is written under its mapping, or its own name when that is null, with at most one write per result |
| PSUtil2.FinishRun | Scripting/InedoExtension/PowerShell/PSUtil2.cs:161-250 | after the job, an exit-code error writes nothing; otherwise the writes as written are made and the outcome returned |
| PSUtil2.ExecuteScript2 | Scripting/InedoExtension/PowerShell/PSUtil2.cs:18-251 | a script that cannot be loaded logs its error and returns null; a binding clash, a repeated reference or a collecting run over a script that does not parse throws, after the load note and the duplicate warnings logged before the throw; Configure mode without an execution-mode name returns null before the job; otherwise it sends the prepared job; an exit-code error throws after the job's messages, writing nothing; else it makes the writes as written and returns the outcome |
| ConfigReconciliation.TrimDollars | Scripting/InedoExtension/PowerShell/PSUtil.cs:61 | the result is the text with its leading "$" characters removed, and it does not start with "$" |
| ConfigReconciliation.ReferenceName | Scripting/InedoExtension/PowerShell/PSUtil.cs:58-62 | a directive names an out-variable exactly when it starts with "$", and the name is the directive without its leading "$" characters |
| ConfigReconciliation.ScansAreDictionary | Scripting/InedoExtension/PowerShell/PSUtil.cs:180-182 | the dictionary scans the reconciliation uses are the dictionary's own TryGetValue and Remove |
| ConfigReconciliation.Resolve | Scripting/InedoExtension/PowerShell/PSUtil.cs:175-186 | an empty directive gives the default; "$name" with name present gives that value and removes the "$"-prefixed key; anything else gives the directive as a literal |
| ConfigReconciliation.UnresolvedStaysLiteral | Scripting/InedoExtension/PowerShell/PSUtil.cs:180-185 | an unresolved "$name" stays the literal text and the out-variables are unchanged |
| ConfigReconciliation.ResolveRemovesNothing | Scripting/InedoExtension/PowerShell/PSUtil.cs:180-182 | when no out-variable name starts with "$", resolving never removes anything |
| ConfigReconciliation.DollarKey | Scripting/InedoExtension/PowerShell/PSUtil.cs:182 | only a key starting with "$" can match a "$"-prefixed removal |
| ConfigReconciliation.ResolvedReference | Scripting/InedoExtension/PowerShell/PSUtil.cs:180-184 | a resolved "$name" yields the variable's value and removes only the "$"-prefixed key |
| ConfigReconciliation.ResolveIdentity | Scripting/InedoExtension/PowerShell/PSUtil.cs:142-143 | the type defaults to "PSConfig" and the key to the script name; literal directives are kept |
| ConfigReconciliation.ResolveItem | Scripting/InedoExtension/PowerShell/PSUtil.cs:165-172 | the item keeps the resolved type and key; desired defaults to true, current to the first output, drift to none; literal directives are kept, drift parsed as a boolean |
| ConfigReconciliation.ReconcileGroups | Scripting/InedoExtension/PowerShell/PSUtil.cs:138-186 | the loop gives exactly the reference reconciliation: its items, its out-variables and its warnings |
| ConfigReconciliation.StepShape | Scripting/InedoExtension/PowerShell/PSUtil.cs:140-172 | each pass either adds one warning and nothing else or records one item from its group, and only one group may read the output |
| ConfigReconciliation.StepSeen | Scripting/InedoExtension/PowerShell/PSUtil.cs:144-145 | the set of pairs only grows, and a recorded item's pair was new to it |
| ConfigReconciliation.StepInfo | Scripting/InedoExtension/PowerShell/PSUtil.cs:165-172 | a recorded item takes its group's defaults and literal directives |
| ConfigReconciliation.ReconciledShaped | Scripting/InedoExtension/PowerShell/PSUtil.cs:140-173 | items come from distinct groups in order, and every group gives an item or a warning |
| ConfigReconciliation.ReconciledSeen | Scripting/InedoExtension/PowerShell/PSUtil.cs:138-152 | the set holds the pair of every recorded item |
| ConfigReconciliation.NotContainedDiffers | Scripting/InedoExtension/PowerShell/PSUtil.cs:145 | a pair that the set does not hold differs from every pair it holds, ignoring case |
| ConfigReconciliation.ReconciledDistinct | Scripting/InedoExtension/PowerShell/PSUtil.cs:144-152 | no two recorded items share a type/key pair ignoring case |
| ConfigReconciliation.ReconciledInfos | Scripting/InedoExtension/PowerShell/PSUtil.cs:165-172 | each recorded item takes its group's defaults and literal directives |
| ConfigReconciliation.ReconciledUsedOutput | Scripting/InedoExtension/PowerShell/PSUtil.cs:153-164 | the output flag is set exactly when a recorded item reads the output |
| ConfigReconciliation.ReconciledOutputOnce | Scripting/InedoExtension/PowerShell/PSUtil.cs:153-164 | at most one recorded item reads the output |
| ConfigReconciliation.ReconciledKeysDistinct | Scripting/InedoExtension/PowerShell/PSUtil.cs:144-152 | the first group with a pair wins: the recorded pairs are distinct ignoring case |
| ConfigReconciliation.ReconciledFromGroups | Scripting/InedoExtension/PowerShell/PSUtil.cs:140-172 | the items keep the groups' order, at most one of them reads the output, and each takes its group's defaults and literals |
| ConfigReconciliation.ReconciledAccounted | Scripting/InedoExtension/PowerShell/PSUtil.cs:140-173 | every group is recorded or skipped with exactly one warning |
| ConfigReconciliation.FirstGroupRecorded | Scripting/InedoExtension/PowerShell/PSUtil.cs:140-172 | the first group is always recorded |
| ConfigReconciliation.OriginsGrow | Scripting/InedoExtension/PowerShell/PSUtil.cs:140-172 | later passes only append items |
| ConfigReconciliation.ConfigurationList | Scripting/InedoExtension/PowerShell/PSUtil.cs:133-199 | no groups give the one default item (type "PSConfig", the script name, desired true, the first output) with a debug note; otherwise the reconciled items |
| ShellRun.SplitScriptName | Scripting/InedoExtension/Operations/Shell/SHUtil.cs:133-143 | an empty or null name throws; without "::" the whole name is the item; otherwise the raft and item joined by "::" give back the name |
| ShellRun.SplitRaftHasNoSeparator | Scripting/InedoExtension/Operations/Shell/SHUtil.cs:138-142 | the raft name never contains "::": the split is at the first separator |
| ShellRun.JoinedNameSplits | Scripting/InedoExtension/Operations/Shell/SHUtil.cs:138-142 | round trip: a raft name without "::" (and not ending in ":") joined with an item splits back into both |
| ShellRun.ShScriptName | Scripting/InedoExtension/Operations/Shell/SHUtil.cs:119-121 | the name with ".sh" appended unless it already ends with it ignoring case; it always ends with ".sh" and starts with the name |
| ShellRun.ShScriptNameIdempotent | Scripting/InedoExtension/Operations/Shell/SHUtil.cs:119-121 | naming a script twice gives the same name |
| ShellRun.FindScript | Scripting/InedoExtension/Operations/Shell/SHUtil.cs:117-131 | the asset of the ".sh" name, with the error "Could not find script NAME." exactly when there is none |
| ShellRun.NextLine | Scripting/InedoExtension/Operations/Shell/SHUtil.cs:51-56 | the line read contains no line break and the rest is shorter |
| ShellRun.ReadLines | Scripting/InedoExtension/Operations/Shell/SHUtil.cs:194-199 | no line read contains a line break |
| ShellRun.ReadWrittenLines | Scripting/InedoExtension/Operations/Shell/SHUtil.cs:178-215 | round trip: lines without breaks, written with "\n" after each, read back as the same lines |
| ShellRun.RewriteKeepsLines | Scripting/InedoExtension/Operations/Shell/SHUtil.cs:178-215 | rewriting a script's lines and reading them again gives the same lines |
| ShellRun.Injections | Scripting/InedoExtension/Operations/Shell/SHUtil.cs:182-188 | no injected variables give no lines, otherwise one NAME="VALUE" line per variable in order |
| ShellRun.Echoes | Scripting/InedoExtension/Operations/Shell/SHUtil.cs:202-205 | one echo line per out-variable, in order |
| ShellRun.ScriptLinesLayout | Scripting/InedoExtension/Operations/Shell/SHUtil.cs:178-215 | the injections come first; with out-variables the script lines are wrapped in a function, which is then called, followed by one echo per out-variable; otherwise the script lines follow unchanged |
| ShellRun.ReadAll | Scripting/InedoExtension/Operations/Shell/SHUtil.cs:194-199 | the loop reads exactly the lines of the text |
| ShellRun.WriteScript | Scripting/InedoExtension/Operations/Shell/SHUtil.cs:178-216 | the loop writes exactly the reference script lines |
| ShellRun.ParseOutputLine | Scripting/InedoExtension/Operations/Shell/SHUtil.cs:247-257 | a line without the prefix is output; a prefixed line throws exactly when it has no ":" after the prefix, and otherwise is the prefix, a key without ":", ":" and the value |
| ShellRun.EchoedLineParses | Scripting/InedoExtension/Operations/Shell/SHUtil.cs:247-257 | round trip: the echo of a name without ":" is read back as that name and value |
| ShellRun.ReceivedStaysErr | Scripting/InedoExtension/Operations/Shell/SHUtil.cs:247-258 | once a handler throws, later lines change nothing |
| ShellRun.HandledLines | Scripting/InedoExtension/Operations/Shell/SHUtil.cs:247-258 | the handler gets through every line when none throws, otherwise exactly the lines before the first that throws |
| ShellRun.ReceiveOutput | Scripting/InedoExtension/Operations/Shell/SHUtil.cs:247-258 | the handler over every line gives exactly the reference collection, and has logged the other lines before the one that throws when one does |
| ShellRun.ReceivedReports | Scripting/InedoExtension/Operations/Shell/SHUtil.cs:247-258 | reading succeeds exactly when every prefixed line parses and no name is reported twice, and then holds every report in order and logs every other line |
| ShellRun.ErrorLog | Scripting/InedoExtension/Operations/Shell/SHUtil.cs:260-263 | one message per error line at the error level |
| ShellRun.ExecuteShellScript | Scripting/InedoExtension/Operations/Shell/SHUtil.cs:157-295 | a non-SSH agent logs the error and returns null; otherwise the written script runs and the result holds its exit code (0 when missing) and the reported out-variables, or the handler's exception, logged after the other output lines before the throwing one and the error lines |
| ShellRun.EchoesReadBack | Scripting/InedoExtension/Operations/Shell/SHUtil.cs:202-205 | round trip: the echo lines of distinct names without ":" report exactly those names and values and log nothing |
| ShellRun.LegacyLog | Scripting/InedoExtension/Operations/Shell/SHUtil.cs:111-115 | null, empty or white-space text is not logged; other text is logged at the given level |
| ShellRun.LegacyLogs | Scripting/InedoExtension/Operations/Shell/SHUtil.cs:80-81 | only non-blank lines are logged, each at the given level |
| ShellRun.LogAll | Scripting/InedoExtension/Operations/Shell/SHUtil.cs:80-81 | the loop logs exactly the non-blank lines |
| ShellRun.ExecuteLegacyScript | Scripting/InedoExtension/Operations/Shell/SHUtil.cs:30-109 | a non-SSH agent logs the error and returns null; otherwise the script's lines run and the exit code is returned, the non-blank output and error lines logged |
| SHUtil.DeclaredAs | Scripting/InedoExtension/Operations/Shell/SHUtil.cs:317 | the first parameter with the name ignoring case, or none exactly when no parameter has it |
| SHUtil.BoundStaysErr | Scripting/InedoExtension/Operations/Shell/SHUtil.cs:315-326 | once a parameter throws, the loop stops with that error |
| SHUtil.BindParameters | Scripting/InedoExtension/Operations/Shell/SHUtil.cs:313-327 | no parameters bind nothing; otherwise the loop gives exactly the reference binding |
| SHUtil.BoundEntries | Scripting/InedoExtension/Operations/Shell/SHUtil.cs:315-326 | binding succeeds exactly when every declared usage is supported, and then sets each parameter into the dictionary its usage names |
| SHUtil.FillDefaults | Scripting/InedoExtension/Operations/Shell/SHUtil.cs:329-333 | the loop gives exactly the arguments with the defaults filled in |
| SHUtil.DefaultsFillOnlyMissing | Scripting/InedoExtension/Operations/Shell/SHUtil.cs:329-333 | a given argument keeps its value; a missing one takes the first default an arguments parameter declares |
| SHUtil.CommandLine | Scripting/InedoExtension/Operations/Shell/SHUtil.cs:335-340 | a blank format gives an empty command line, otherwise the expanded format; a warning exactly when there are arguments and no format |
| SHUtil.WithExecModeVariable | Scripting/InedoExtension/Operations/Shell/SHUtil.cs:348-349 | a blank name leaves the inputs; otherwise the Add throws exactly when the name, "$" stripped, is present, and else sets it to the mode |
| SHUtil.ConfigRef | Scripting/InedoExtension/Operations/Shell/SHUtil.cs:408-412 | at most one name, and only from a value that is "$" followed by it |
| SHUtil.AddAllICAppend | Scripting/InedoExtension/Operations/Shell/SHUtil.cs:356-363 | adding two lists of names one after the other is adding their concatenation |
| SHUtil.AddOutVar | Scripting/InedoExtension/Operations/Shell/SHUtil.cs:408-412 | a "$name" value adds the name to the set |
| SHUtil.AddConfigRefs | Scripting/InedoExtension/Operations/Shell/SHUtil.cs:356-363 | the loop adds every configuration reference to the set |
| SHUtil.SetInputVariables | Scripting/InedoExtension/Operations/Shell/SHUtil.cs:342-346 | the loop sets every input variable in order |
| SHUtil.UnionWith | Scripting/InedoExtension/Operations/Shell/SHUtil.cs:353-354 | the set gains every requested output name |
| SHUtil.PrepareRun | Scripting/InedoExtension/Operations/Shell/SHUtil.cs:307-371 | the steps give exactly the reference preparation; the arguments-format warning is logged once the parameters bind, even when the execution-mode `Add` then throws |
| SHUtil.InjectedReads | Scripting/InedoExtension/Operations/Shell/SHUtil.cs:342-349 | the mode variable holds the mode; any other variable reads as the last input variable with its name, else the last parameter routed to input |
| SHUtil.OutVariablesCover | Scripting/InedoExtension/Operations/Shell/SHUtil.cs:351-363 | the out-variables are distinct ignoring case and hold every output parameter, requested name and configuration reference |
| SHUtil.PreparedInjected | Scripting/InedoExtension/Operations/Shell/SHUtil.cs:365-370 | the injected variables are the input parameters, then the input variables, then the mode variable |
| SHUtil.PreparedOutVariables | Scripting/InedoExtension/Operations/Shell/SHUtil.cs:365-370 | the out-variables are distinct ignoring case and cover every output parameter, requested name and configuration reference |
| SHUtil.PrepareFails | Scripting/InedoExtension/Operations/Shell/SHUtil.cs:313-349 | preparation throws exactly when a usage is unsupported or the mode variable is already an input |
| SHUtil.TryGetOutVar | Scripting/InedoExtension/Operations/Shell/SHUtil.cs:414-427 | a "$name" reads the reported value, or null when it was not reported; anything else is the text itself, empty text being null |
| SHUtil.ReferenceReadsReport | Scripting/InedoExtension/Operations/Shell/SHUtil.cs:416-419 | a reference to a reported variable reads its value |
| SHUtil.Configurations | Scripting/InedoExtension/Operations/Shell/SHUtil.cs:379-391 | one configuration item per directive group, in order |
| SHUtil.OutParams | Scripting/InedoExtension/Operations/Shell/SHUtil.cs:393 | exactly the output parameters that are among the out-variables |
| SHUtil.RemapOutParams | Scripting/InedoExtension/Operations/Shell/SHUtil.cs:393-400 | the loop gives exactly the reference remapping |
| SHUtil.RemappedKeeps | Scripting/InedoExtension/Operations/Shell/SHUtil.cs:393-400 | the remapping keeps the names distinct and keeps every originally requested name |
| SHUtil.ExceptIC | Scripting/InedoExtension/Operations/Shell/SHUtil.cs:402 | exactly the out-variables that are not kept, ignoring case |
| SHUtil.RemoveAllReads | Scripting/InedoExtension/Operations/Shell/SHUtil.cs:402-403 | removing names drops exactly those names and keeps every other value |
| SHUtil.RemoveUnrequested | Scripting/InedoExtension/Operations/Shell/SHUtil.cs:402-403 | the loop removes exactly the given names |
| SHUtil.DropUnkept | Scripting/InedoExtension/Operations/Shell/SHUtil.cs:402-403 | an out-variable that was not requested is dropped and a requested one keeps its value |
| SHUtil.ResolveDropsUnrequested | Scripting/InedoExtension/Operations/Shell/SHUtil.cs:377-404 | afterwards only requested or remapped names remain, each with its remapped value |
| SHUtil.ResolvedAsWritten | Scripting/InedoExtension/Operations/Shell/SHUtil.cs:373-375 | a null run result throws when its configuration list is set |
| SHUtil.Resolved | Scripting/InedoExtension/Operations/Shell/SHUtil.cs:373-404 | with a null check, a null run result stays null and any other is resolved as written |
| SHUtil.NotSshAgentThrows | Scripting/InedoExtension/Operations/Shell/SHUtil.cs:373-375 | on a non-SSH agent the code as written throws, the corrected one returns null |
| SHUtil.ExecuteShellScriptAh | Scripting/InedoExtension/Operations/Shell/SHUtil.cs:297-428 | a missing script logs two errors and returns null; the header is read with the shell script parser; a preparation error propagates after what the preparation logged; on an agent that is not an SSH agent the null result is dereferenced and throws after the error is logged; otherwise the prepared script runs, an unreadable output is the exception (logged after the lines handled before it), and the result is resolved |
| PythonExtensions.PyScriptName | Scripting/InedoExtension/Operations/Python/Extensions.cs:285-287 | the asset name always ends in ".py" (ignoring case), a name already ending so is kept, and otherwise the given name is a prefix of the result |
| PythonExtensions.FindPyScript | Scripting/InedoExtension/Operations/Python/Extensions.cs:283-297 | the content is the raft item under the ".py" name; an error "Could not find script <name>." is logged exactly when no item is found |
| PythonExtensions.WriteJson | Scripting/InedoExtension/Operations/Python/Extensions.cs:379-408 | a scalar becomes a JSON string (null when it has no text), a vector an array of as many elements, a map an object with the same property names in order |
| PythonExtensions.ReadJsonToken | Scripting/InedoExtension/Operations/Python/Extensions.cs:417-426 | an object reads as a map and only an object does, an array as a vector of as many items and only an array does; other values read as scalars |
| PythonExtensions.ReadJsonPropsUnique | Scripting/InedoExtension/Operations/Python/Extensions.cs:409-416 | the map read from a JSON object never holds two entries under one name, because each property is written with the indexer |
| PythonExtensions.ReadWrittenJson | Scripting/InedoExtension/Operations/Python/Extensions.cs:379-426 | round trip: a value with unique map keys written as JSON and read back is the same value |
| PythonExtensions.WriteStringifiedJson | Scripting/InedoExtension/Operations/Python/Extensions.cs:359-378 | the character loop yields the JSON text between single quotes with every quote and backslash preceded by a backslash |
| PythonExtensions.ReadEscapedBody | Scripting/InedoExtension/Operations/Python/Extensions.cs:369-377 | the escaped text followed by the closing quote reads, as a Python literal body, as exactly the original text and stops at that quote |
| PythonExtensions.ReadStringified | Scripting/InedoExtension/Operations/Python/Extensions.cs:359-378 | round trip: Python reads the stringified literal back as exactly the JSON text, whatever follows it |
| PythonExtensions.InjectionLines | Scripting/InedoExtension/Operations/Python/Extensions.cs:48-57 | one line per injected variable, in order, each assigning json.loads of the variable's stringified JSON |
| PythonExtensions.PythonScriptLayout | Scripting/InedoExtension/Operations/Python/Extensions.cs:41-77 | the script is five imports, the logging set-up at the chosen level, the injections, the try/exec of the base64 body, the two except clauses, and an else printing the out-variables only when there are some |
| PythonExtensions.InjectionReadsBack | Scripting/InedoExtension/Operations/Python/Extensions.cs:52-55 | each injection line starts with "<name> = json.loads(" and its argument reads back as exactly the value's JSON text, followed by ")" |
| PythonExtensions.WritePythonScript | Scripting/InedoExtension/Operations/Python/Extensions.cs:39-78 | the writer emits exactly the lines of the script layout |
| PythonExtensions.Handled | Scripting/InedoExtension/Operations/Python/Extensions.cs:94-100 | the handler gets through every line when each prefixed line holds a JSON object, otherwise exactly the lines before the first that does not |
| PythonExtensions.ReceivePythonOutput | Scripting/InedoExtension/Operations/Python/Extensions.cs:94-100 | the output handler over the whole stream: a prefixed line replaces the out-values with its parsed object, other lines are logged, and a line that is not a JSON object ends the run with an exception, the lines before it already logged |
| PythonExtensions.LastOutVarLine | Scripting/InedoExtension/Operations/Python/Extensions.cs:96-97 | the index of the last prefixed line, or -1 exactly when no line carries the prefix |
| PythonExtensions.LastOutVarLineWins | Scripting/InedoExtension/Operations/Python/Extensions.cs:94-100 | the stream is read without an exception exactly when every prefixed line holds a JSON object; then the out-values come from the last prefixed line alone and every other line is logged as information, in order |
| PythonExtensions.LevelOf | Scripting/InedoExtension/Operations/Python/Extensions.cs:107-114 | INFO, WARNING, ERROR and CRITICAL map to information, warning, error, error; every other name, DEBUG included, to debug |
| PythonExtensions.MatchRecord | Scripting/InedoExtension/Operations/Python/Extensions.cs:24 | a match is "!\|AH:" then one or more upper-case letters then "\|!" then a message without a line break (an optional trailing line break allowed) |
| PythonExtensions.RecordReadsBack | Scripting/InedoExtension/Operations/Python/Extensions.cs:102-117 | round trip: a record written by the logging format is logged at its level's mapping with exactly its message |
| PythonExtensions.OtherErrorLine | Scripting/InedoExtension/Operations/Python/Extensions.cs:118-121 | a standard-error line without the record prefix is logged as an error, unchanged |
| PythonExtensions.ErrorMessages | Scripting/InedoExtension/Operations/Python/Extensions.cs:102-122 | one log message per standard-error line, in order |
| PythonExtensions.ExecutePythonScript | Scripting/InedoExtension/Operations/Python/Extensions.cs:26-144 | the interpreter runs the written script with "-X utf8" and the environment variables; a failed read of standard output is the exception, logged after the output lines before the failing one and the error records; otherwise the result is the exit code (0 when absent) and the out-values read, and the log is the output lines then the error records |
| PythonExtensions.PyBindParameters | Scripting/InedoExtension/Operations/Python/Extensions.cs:163-179 | no parameters bind nothing; otherwise the binding loop over all of them, stopping at the first unsupported usage |
| PythonExtensions.PyBoundFails | Scripting/InedoExtension/Operations/Python/Extensions.cs:165-178 | binding fails exactly when some parameter is declared with a usage other than input, default, environment, arguments or output |
| PythonExtensions.PyBoundEntries | Scripting/InedoExtension/Operations/Python/Extensions.cs:165-178 | a successful binding holds the environment parameters' texts, the input and argument parameters' values (last value wins, keys ignoring case) and the output names without repeats |
| PythonExtensions.PyPrepareRun | Scripting/InedoExtension/Operations/Python/Extensions.cs:156-224 | the preparation: binding, default arguments, the command line from the arguments format, the input variables with the exec-mode variable, and the out-variables with the configuration references; the arguments-format warning is logged once the parameters bind, even when the execution-mode `Add` then throws |
| PythonExtensions.PyPreparedVariables | Scripting/InedoExtension/Operations/Python/Extensions.cs:170-215 | the process sees the environment-routed parameters, each under its last value's text; the out-variables hold no name twice and cover the output parameters, the requested variables and the configuration references |
| PythonExtensions.PyResolve | Scripting/InedoExtension/Operations/Python/Extensions.cs:226-259 | when the script printed no out-values the result has the exit code, no configuration and no out-variables |
| PythonExtensions.PyResolveDropsUnrequested | Scripting/InedoExtension/Operations/Python/Extensions.cs:246-256 | after resolution an out-variable neither requested nor targeted by an out-parameter is gone, the kept ones read as after the out-parameter copying, and no name appears twice |
| PythonExtensions.RunPrepared | Scripting/InedoExtension/Operations/Python/Extensions.cs:226-259 | the run of the prepared start info followed by the resolution; the log is the preparation's warning, then the run's messages, also when reading the output throws |
| PythonExtensions.ExecutePythonScriptAh | Scripting/InedoExtension/Operations/Python/Extensions.cs:146-281 | a missing script returns nothing and logs both "not found" errors; the header is read with the Python script parser and an escape that throws is the exception; an unsupported usage or a duplicate exec-mode variable is the exception, after what the preparation logged; otherwise the prepared run, an unreadable output being the exception logged after the lines handled before it, and its resolution |
| PsModule.CopyICIff | Scripting/InedoExtension/Configurations/PsModule/PsModuleConfiguration.cs:133-139 | copying a dictionary into one that ignores case succeeds exactly when no two keys are equal ignoring case, keeps the entries unchanged, and otherwise throws ArgumentException |
| PsModule.ParameterVariablesAdded | Scripting/InedoExtension/Configurations/PsModule/PsModuleConfiguration.cs:247-251 | with extra parameter keys distinct ignoring case and base variable names not starting with "$", every extra parameter is added as its own "$Key" variable after the base ones |
| PsModule.ConfigureMessage | Scripting/InedoExtension/Configurations/PsModule/PsModuleConfiguration.cs:265-281 | every job message is relayed; an "Untrusted repository" or confirmation message is followed by exactly one error naming the "Force" parameter, and no other message is |
| PsModule.ListedValues | Scripting/InedoExtension/Configurations/PsModule/PsModuleConfiguration.cs:320 | the collected results are the vector's items, or the one non-empty map, or nothing |
| PsModule.ParseModule | Scripting/InedoExtension/Configurations/PsModule/PsModuleConfiguration.cs:326-344 | a listed value parses exactly when it is a map with a non-blank Name; the module takes that name and the Version text, empty when absent |
| PsModule.ParsedModules | Scripting/InedoExtension/Configurations/PsModule/PsModuleConfiguration.cs:320-321 | each collected value is parsed in order |
| PsModule.FirstWantedIsFirst | Scripting/InedoExtension/Configurations/PsModule/PsModuleConfiguration.cs:322-324 | a module is found exactly when some parsed module passes the version filter, and the one found is the first that does |
| PsModule.PinnedVersionFound | Scripting/InedoExtension/Configurations/PsModule/PsModuleConfiguration.cs:320-324 | when the template names a version, a listed module of that version is always found, and the module found has that version |
| PsModule.CollectMessage | Scripting/InedoExtension/Configurations/PsModule/PsModuleConfiguration.cs:307-316 | a "No match was found for the specified" message is demoted to debug; every other message keeps its level and text |
| PsModule.PsModuleConfiguration.constructor | Scripting/InedoExtension/Configurations/PsModule/PsModuleConfiguration.cs:26-31 | a new configuration has the default settings (Exists true, every switch off) and no stored parameters |
| PsModule.PsModuleConfiguration.SetParameters | Scripting/InedoExtension/Configurations/PsModule/PsModuleConfiguration.cs:134-140 | a null or empty dictionary clears the stored one; otherwise it is stored when its keys are distinct ignoring case, and a duplicate throws ArgumentException leaving the state unchanged |
| PsModule.PsModuleConfiguration.ParametersCopy | Scripting/InedoExtension/Configurations/PsModule/PsModuleConfiguration.cs:133 | the getter's case-ignoring copy of a valid configuration always succeeds, is empty exactly when nothing is stored, and holds no key twice |
| PsModule.PsModuleConfiguration.CompareAsync | Scripting/InedoExtension/Configurations/PsModule/PsModuleConfiguration.cs:177-205 | comparing with something that is not a module configuration throws ArgumentException; otherwise the settings comparison, identical exactly when it lists no difference |
| PsModule.PsModuleConfiguration.ConfigureAsync | Scripting/InedoExtension/Configurations/PsModule/PsModuleConfiguration.cs:207-283 | a simulation only logs "Importing Module..."; otherwise the job carries the switched command and the variables plus the extra parameters, and its script is logged at debug |
| PsModule.PsModuleConfiguration.CollectAsync | Scripting/InedoExtension/Configurations/PsModule/PsModuleConfiguration.cs:285-351 | the collect job lists the module by name; the new configuration is the first listed module passing the filter, else one not present, and a job exception is logged as an error |
| PsModule.CompareSettings | Scripting/InedoExtension/Configurations/PsModule/PsModuleConfiguration.cs:177-205 | the comparison as a list of differences, identical exactly when the list is empty; an unparsable version is the exception |
| PsModule.SwitchedCommand | Scripting/InedoExtension/Configurations/PsModule/PsModuleConfiguration.cs:216-236 | the command is Install-Module or Uninstall-Module followed by every switch whose condition holds, in the source's order |
| PsModule.AddParameters | Scripting/InedoExtension/Configurations/PsModule/PsModuleConfiguration.cs:247-251 | each extra parameter appends " -Key $Key" to the script and adds "$Key" to the variables, and a second "$Key" throws |
| PsModule.MissingSideComparesExists | Scripting/InedoExtension/Configurations/PsModule/PsModuleConfiguration.cs:184-192 | when either side is absent, the only possible difference is Exists, reported exactly when the two sides differ in it |
| PsModule.AtMostOneDifference | Scripting/InedoExtension/Configurations/PsModule/PsModuleConfiguration.cs:184-204 | a comparison never reports more than one difference, because a minimum version excludes the pinned version test |
| PsModule.VersionDifferenceIff | Scripting/InedoExtension/Configurations/PsModule/PsModuleConfiguration.cs:194-197 | with both present, a Version difference is reported exactly when the template pins a version (and no minimum) and the two versions parse unequal |
| PsModule.MinimumDifferenceIff | Scripting/InedoExtension/Configurations/PsModule/PsModuleConfiguration.cs:199-202 | with both present, a MinimumVersion difference is reported exactly when a minimum is set and the installed version sorts below it |
| PsModule.NoDriftIdentical | Scripting/InedoExtension/Configurations/PsModule/PsModuleConfiguration.cs:194-204 | two present modules compare identical exactly when neither version test reports drift |
| PsModule.SamePinnedVersionIdentical | Scripting/InedoExtension/Configurations/PsModule/PsModuleConfiguration.cs:194-197 | a module installed at exactly the pinned version text shows no drift |
| PsModule.MinimumVersionMet | Scripting/InedoExtension/Configurations/PsModule/PsModuleConfiguration.cs:199-202 | a module installed at exactly the minimum version shows no drift |
| PsModule.SwitchesInOrder | Scripting/InedoExtension/Configurations/PsModule/PsModuleConfiguration.cs:217-236 | the switches in the command appear in the source's order, each at most once and only when its condition holds |
| PsModule.SwitchPresentIff | Scripting/InedoExtension/Configurations/PsModule/PsModuleConfiguration.cs:217-236 | a switch is in the command exactly when its condition holds |
| PsModule.ConfigureCommandSwitches | Scripting/InedoExtension/Configurations/PsModule/PsModuleConfiguration.cs:216-236 | the command is the install or uninstall head followed by exactly the enabled switches, concatenated in order |
| PsModule.InstallOnlySwitchesNeedPresence | Scripting/InedoExtension/Configurations/PsModule/PsModuleConfiguration.cs:223-234 | uninstalling never carries an install-only switch, installing never carries -AllVersions, and -RequiredVersion and -MinimumVersion never appear together |
| PsModule.ConfigureNeverThrows | Scripting/InedoExtension/Configurations/PsModule/PsModuleConfiguration.cs:238-251 | with a stored dictionary of distinct keys, configuring never throws: the variables are the five named ones then one "$Key" per extra parameter, and the script ends with their switches |
| PsRepository.DiffersICIff | Scripting/InedoExtension/Configurations/PsModule/PsRepositoryConfiguration.cs:136 | a property differs exactly when the two texts are not equal ignoring case (both null counting as equal), whichever side is the template |
| PsRepository.CompareSettings | Scripting/InedoExtension/Configurations/PsModule/PsRepositoryConfiguration.cs:124-151 | comparing two registrations never throws, and is identical exactly when no difference is listed |
| PsRepository.MissingSideComparesExists | Scripting/InedoExtension/Configurations/PsModule/PsRepositoryConfiguration.cs:126-134 | when either side is unregistered, the only possible difference is Exists, reported exactly when the two sides differ in it |
| PsRepository.RepositoryDifferenceIff | Scripting/InedoExtension/Configurations/PsModule/PsRepositoryConfiguration.cs:136-149 | with both registered, a SourceLocation or InstallationPolicy difference is reported exactly when the texts differ ignoring case, a provider difference exactly when the template names one and it differs, and never an Exists difference |
| PsRepository.IdenticalIff | Scripting/InedoExtension/Configurations/PsModule/PsRepositoryConfiguration.cs:124-151 | two registered repositories compare identical exactly when they agree ignoring case on the source location, the policy, and the provider when the template names one |
| PsRepository.RegisterCommandText | Scripting/InedoExtension/Configurations/PsModule/PsRepositoryConfiguration.cs:198-205 | the register command followed by the policy, provider and verbose switches whose conditions hold, in order |
| PsRepository.ConfigureSequencing | Scripting/InedoExtension/Configurations/PsModule/PsRepositoryConfiguration.cs:162-239 | with a valid parameter dictionary a configure run never fails; it collects first, unregisters exactly when the repository was found, registers last exactly when the template says it exists, and unregisters before re-registering |
| PsRepository.ParseRepository | Scripting/InedoExtension/Configurations/PsModule/PsRepositoryConfiguration.cs:287-309 | a listed value parses exactly when it is a map with a non-blank Name; the repository is registered under that name, with the source location "" when missing |
| PsRepository.ParsedRepositories | Scripting/InedoExtension/Configurations/PsModule/PsRepositoryConfiguration.cs:282-283 | each listed value is parsed in order |
| PsRepository.FirstNamedIsFirst | Scripting/InedoExtension/Configurations/PsModule/PsRepositoryConfiguration.cs:282-285 | corrected: a repository is found exactly when a parsed entry has the template's name ignoring case, and it is the first such entry |
| PsRepository.FirstNamedAsWrittenThrows | Scripting/InedoExtension/Configurations/PsModule/PsRepositoryConfiguration.cs:282-285 | as written the filter throws NullReferenceException exactly when an entry that did not parse comes before every entry with the template's name |
| PsRepository.FirstNamedAsWrittenFinds | Scripting/InedoExtension/Configurations/PsModule/PsRepositoryConfiguration.cs:282-285 | what the filter as written finds is an entry with the template's name, every entry before it parsed and lacking that name |
| PsRepository.FirstNamedAsWrittenMisses | Scripting/InedoExtension/Configurations/PsModule/PsRepositoryConfiguration.cs:282-285 | the filter as written finds nothing exactly when every entry parsed and none has the template's name |
| PsRepository.AsWrittenAgreesWhenAllParse | Scripting/InedoExtension/Configurations/PsModule/PsRepositoryConfiguration.cs:282-285 | where every listed entry parses, the filter as written finds what the corrected filter finds |
| PsRepository.CollectedIsNamed | Scripting/InedoExtension/Configurations/PsModule/PsRepositoryConfiguration.cs:249-316 | corrected: what is collected is registered under the template's name ignoring case, or it is the template's name as not registered |
| PsRepository.CollectedAsWrittenIsNamed | Scripting/InedoExtension/Configurations/PsModule/PsRepositoryConfiguration.cs:249-316 | as written, a collected registration carries the template's name and no exception, and otherwise is the template's name as not registered; a failed read is the exception logged, and a NullReferenceException is logged exactly when an unparsed entry comes before the first match |
| PsRepository.NullEntryHidesRepository | Scripting/InedoExtension/Configurations/PsModule/PsRepositoryConfiguration.cs:282-283 | an unnamed listed entry before the wanted one makes the filter as written throw, so a registered repository is reported as not registered, while the corrected filter finds it |
| PsRepository.PsRepositoryConfiguration.constructor | Scripting/InedoExtension/Configurations/PsModule/PsRepositoryConfiguration.cs:26-31 | a new configuration has the default settings (Exists true) and no stored parameters |
| PsRepository.PsRepositoryConfiguration.SetParameters | Scripting/InedoExtension/Configurations/PsModule/PsRepositoryConfiguration.cs:78-84 | a null or empty dictionary clears the stored one; otherwise it is stored when its keys are distinct ignoring case, and a duplicate throws ArgumentException leaving the state unchanged |
| PsRepository.PsRepositoryConfiguration.CompareAsync | Scripting/InedoExtension/Configurations/PsModule/PsRepositoryConfiguration.cs:119-152 | comparing with something that is not a repository configuration throws ArgumentException; otherwise the settings comparison |
| PsRepository.PsRepositoryConfiguration.CollectAsync | Scripting/InedoExtension/Configurations/PsModule/PsRepositoryConfiguration.cs:242-316 | the collect job lists the repositories; the new configuration is what the filter as written finds, else the template's name as not registered; a failed read or an unparsed entry ahead of the match is caught, logged as an error and reported as not registered |
| PsRepository.PsRepositoryConfiguration.ConfigureAsync | Scripting/InedoExtension/Configurations/PsModule/PsRepositoryConfiguration.cs:154-240 | a simulation only logs "Registering PS Repository..."; otherwise the collect as written, the unregister job exactly when it found the repository, and the register job when the template says it exists; the collect error and each sent job's script are logged |
| BatCall.SortParameters | Scripting/InedoExtension/Operations/Batch/BatCallOperation.cs:65-80 | no parameters sort into nothing; otherwise each parameter goes, in order, to the arguments, the environment or the input variables by the usage the script declares for it |
| BatCall.SortedArguments | Scripting/InedoExtension/Operations/Batch/BatCallOperation.cs:72-74 | the argument variables are the parameters that are undeclared or declared for arguments or default, written in order ignoring case (last value wins) |
| BatCall.SortedInputs | Scripting/InedoExtension/Operations/Batch/BatCallOperation.cs:77-78 | the input variables are the parameters declared as input variables, written in order ignoring case |
| BatCall.SortedEnvironment | Scripting/InedoExtension/Operations/Batch/BatCallOperation.cs:75-76 | the environment variables are the parameters declared as environment variables, each under its value's text, written in order ignoring case |
| BatCall.IgnoredReachNothing | Scripting/InedoExtension/Operations/Batch/BatCallOperation.cs:72-79 | a parameter declared with any other usage (output) reaches none of the three maps, and an argument parameter reads as the last value given under its name |
| BatCall.WithArguments | Scripting/InedoExtension/Operations/Batch/BatCallOperation.cs:97-100 | corrected: without explicit arguments the command line is unchanged; with them the result ends with them, and a non-empty command line is kept in front behind a space |
| BatCall.WithArgumentsAgrees | Scripting/InedoExtension/Operations/Batch/BatCallOperation.cs:97-100 | the corrected step agrees with the code as written except when the command line is empty and arguments are given, where the code appends nothing |
| BatCall.ProcessArguments | Scripting/InedoExtension/Operations/Batch/BatCallOperation.cs:109 | cmd.exe's arguments are "/c" and the file name, followed by the command line behind a space only when it is not empty |
| BatCall.Started | Scripting/InedoExtension/Operations/Batch/BatCallOperation.cs:97-116 | cmd.exe starts in the working directory with the operation's environment, on "/c" and the file name, followed, when the command line is not empty, by the command line with the explicit arguments |
| BatCall.ArgumentsDroppedWithoutFormat | Scripting/InedoExtension/Operations/Batch/BatCallOperation.cs:97-109 | as written, a script without an arguments format never receives the operation's explicit arguments; corrected, they follow the file name |
| BatCall.NotFoundMessage | Scripting/InedoExtension/Operations/Batch/BatCallOperation.cs:57-61 | corrected: the not-found error starts with the missing script's name |
| BatCall.NotFoundMessageNamesNothing | Scripting/InedoExtension/Operations/Batch/BatCallOperation.cs:60 | as written, the not-found error interpolates the missing item and is the same for every script name; the corrected one tells names apart |
| BatCall.ItemList.Add | Scripting/InedoExtension/Operations/Batch/BatCallOperation.cs:199 | adding appends the item |
| BatCall.AddRange | Scripting/InedoExtension/Operations/Batch/BatCallOperation.cs:192-200 | a null collection or a null range throws ArgumentNullException (leaving the collection unchanged); otherwise the range is appended in order |
| BatCall.ExecuteAsync | Scripting/InedoExtension/Operations/Batch/BatCallOperation.cs:53-131 | a missing script starts nothing and logs one error that does not name it; otherwise the header is read with the batch script parser and cmd.exe starts in the working directory on the script file with the command line, the explicit arguments only when the command line is not empty, and the operation's environment; the creating and deleting debug lines are logged |
| BatCall.LineTail | Scripting/InedoExtension/Operations/Batch/BatCallOperation.cs:51 | what ".*$" leaves after the colon: the rest of the text without a line feed, or the rest minus one final line feed; anything else does not match |
| BatCall.MatchFromSound | Scripting/InedoExtension/Operations/Batch/BatCallOperation.cs:51 | a match found by the search is the pattern matching at some position at or after the start, capturing its level name and message |
| BatCall.MatchFromComplete | Scripting/InedoExtension/Operations/Batch/BatCallOperation.cs:51 | wherever the pattern matches, the search finds a match |
| BatCall.MatchFromLeftmost | Scripting/InedoExtension/Operations/Batch/BatCallOperation.cs:51 | the search finds the leftmost match, capturing its level name and the rest of the line |
| BatCall.LevelMapsDiffer | Scripting/InedoExtension/Operations/Batch/BatCallOperation.cs:138-145 | the output map differs from the error map only in SUCCESS, which is information on standard output and debug on standard error |
| BatCall.RecordReadsBack | Scripting/InedoExtension/Operations/Batch/BatCallOperation.cs:133-175 | a line "NAME:message" is logged with the message alone at the level its name maps to, on either stream |
| BatCall.DriveLetterIsLevel | Scripting/InedoExtension/Operations/Batch/BatCallOperation.cs:155-170 | a line holding a drive path such as "C:\x" matches the pattern, so it is logged at debug with the drive letter cut off |
| BatCall.NoColonIsDebug | Scripting/InedoExtension/Operations/Batch/BatCallOperation.cs:149-152 | a line without a colon never matches and is logged at debug, unchanged, on either stream |
| Dsc.PreferenceResolvedOnce | Scripting/InedoExtension/Operations/PowerShell/Dsc.cs:31-44 | a preference already set is never overridden, so a second resolution changes nothing once the first produced text; with neither a variable nor a function an unset preference becomes "True" |
| Dsc.ResolvePreference | Scripting/InedoExtension/Operations/PowerShell/Dsc.cs:31-44 | an unset preference takes the PreferWindowsPowerShell variable's text, else the function's, else "True"; the template's other fields are unchanged |
| Dsc.ModuleNameOf | Scripting/InedoExtension/Operations/PowerShell/Dsc.cs:149 | the module passed to the jobs is never empty: the template's module when set, otherwise PSDesiredStateConfiguration |
| Dsc.TypeOfIff | Scripting/InedoExtension/Operations/PowerShell/Dsc.cs:166-167 | a property is typed as a vector exactly when its type name is a text matching the anchored array-type pattern |
| Dsc.ArrayTypeNames | Scripting/InedoExtension/Operations/PowerShell/Dsc.cs:19 | for an element type name T without square brackets, "[T[]]" is an array type and "[T]" is not |
| Dsc.PropertyTypes | Scripting/InedoExtension/Operations/PowerShell/Dsc.cs:159-171 | the loop writes each listed property's type under its name, keys ignoring case; a first output that is not a map gives no types |
| Dsc.PropertyTypeReads | Scripting/InedoExtension/Operations/PowerShell/Dsc.cs:161-168 | a name's type is that of the last property listed under it ignoring case, and an unlisted name has none |
| Dsc.JobNamesMethod | Scripting/InedoExtension/Operations/PowerShell/Dsc.cs:173-190 | the job's script is Invoke-DscResource with the method at a fixed place, and the job passes the template's module, or PSDesiredStateConfiguration when it has none |
| Dsc.JobsDifferByMethod | Scripting/InedoExtension/Operations/PowerShell/Dsc.cs:178 | jobs for different methods have different scripts |
| Dsc.RemoveEmptyScalars | Scripting/InedoExtension/Operations/PowerShell/Dsc.cs:58-60 | the loop removes, one by one, the keys whose values are scalars with null or empty text |
| Dsc.CollectedValuesKept | Scripting/InedoExtension/Operations/PowerShell/Dsc.cs:57-60 | after the removal no key repeats, a key whose value was an empty scalar reads as absent, and every other key reads as before |
| Dsc.InDesiredState | Scripting/InedoExtension/Operations/PowerShell/Dsc.cs:70-92 | no test output is the "did not return any values" error, and any other failure to read a boolean is the "did not return a boolean value" error |
| Dsc.BoolTextParses | Scripting/InedoExtension/Operations/PowerShell/Dsc.cs:80 | a boolean's text parses back as the same boolean |
| Dsc.DesiredStateReadsBack | Scripting/InedoExtension/Operations/PowerShell/Dsc.cs:76-86 | a boolean reads back both as the first output value itself and as the InDesiredState entry of a map, and values after the first are never read |
| Dsc.MapWithoutStateIsError | Scripting/InedoExtension/Operations/PowerShell/Dsc.cs:78-91 | a map without an InDesiredState entry is read as a boolean itself, which fails, so the result is the "did not return a boolean value" error |
| Dsc.CollectAsync | Scripting/InedoExtension/Operations/PowerShell/Dsc.cs:21-101 | a missing resource name logs an error and returns nothing; otherwise the preference is resolved, the types, Get and Test jobs are sent, the Get and Test scripts are logged, and the result holds the non-empty collected values, the template's names and the desired state, or nothing with the state's error |
| Dsc.ConfigureAsync | Scripting/InedoExtension/Operations/PowerShell/Dsc.cs:102-134 | a simulation only logs "Invoking DscResource..."; otherwise the preference is resolved and the types job and the Set job are sent |

## Left out

- I/O is not modelled: runspaces, processes, the agent's file system, temporary script files and their deletion, and the job runner. The model covers what is sent to them and reads what they report, passed in as parameters.
- Concurrency, cancellation tokens, locks and event-handler registration are not modelled. Log calls are returned message lists; relays of job `MessageLogged` events that only forward a message are not listed.
- `PowerShellScriptRunner`: these parts are not modelled, because they depend on the registry, the runspace or the host context:
  - `InitializeRunspace` and `HasWindowsPowerShell51`;
  - the public `ExtractVariables` wrapper, with its context variable and function lookups and `IsLegalVariableName`;
  - the parts of `RunAsync` other than output handling and out-variable reading: `SetVariable`, `AddScript`, `AddParameter`, `ShouldExit` and progress events.
- `PSUtil.ToRuntimeValue` is not modelled: it converts `PSObject` values by reflection.
- `PSUtil` has a private comparator at `PSUtil.cs:283-325`. It matches `ExitCodeComparator.cs` line for line, so the `ExitCodeComparator` module models both.
- `GetPythonExePathAsync` is not modelled (file-system search). `GetDescription` of each operation and configuration is not modelled (display text only).
- `DscConfiguration.cs` is not part of this model. Its `ToPowerShellDictionary` is the `toPs` parameter, and `GetFlagOrDefault` is the `flag` parameter.
- The `ScriptLanguage` and `ScriptParameterInfo.Parse` types are not modelled: parameter parsing and `ProcessedString` validation are the `parse` and `validate` parameters.
- These foreign calls are parameters:
  - the PowerShell tokenizer and the documentation regular expression (`tokens`, `matches`);
  - `RuntimeValue.ToString` (`render`);
  - float, double and decimal parsing (`parsesReal`);
  - `JsonDocument.Parse` and `JObject.Parse` (`parse`, `parseJson`);
  - base64 encoding and JSON serialisation of the Python wrapper (`base64`, `jsonText`).
- `AH.ParseHex` is not part of this model. The hexadecimal digits of a Python escape are read as bytes in text order, and `BitConverter` as little-endian. A lone surrogate produced by `\u` is kept as one UTF-16 unit; the model's `char` makes it U+FFFD.
- `PathEx.GetFileName` and `CombinePath` are not modelled: the combined file name is a parameter.
- `StringComparison.InvariantCultureIgnoreCase` is approximated by ordinal-ignore-case comparison. Culture-sensitive `string.Compare` in `ValueSemanticVersion2` is approximated by ordinal comparison.
- The comparer of map values returned by the host is unknown. It is the `mic` parameter: true when keys compare ignoring case.
- A null `Version` text in a collected module is read as "".
- In `BatCallOperation`, the input and environment dictionaries are computed but never used. The model computes them, and they reach nothing.
- Some source lines have no effect and are not modelled:
  - the `Exists ? … : …` ternary inside `if (template.Exists)` in `PsRepositoryConfiguration`;
  - the copy in the configuration constructors, which reads the field it is about to set;
  - the repeated null check in `PowerShellVersion.Compare`.
- In `Dsc.CollectAsync`, entries are removed by the exact key read from the same map, so the map's comparer does not matter.
- PythonExtensions.PyResolve: its own contract states only the case where no out-values were printed. When they were, it is the shell runner's resolution. `PythonExtensions.PyResolveDropsUnrequested` states its properties for that case.
- Dsc.InDesiredState: its own contract states only the two error cases. The boolean read is stated by `Dsc.DesiredStateReadsBack` and `Dsc.MapWithoutStateIsError`.
- Common.IsWhite: covers only U+0009..U+000D and U+0020. .NET white space also includes U+0085, U+00A0, U+1680, U+2000..U+200A, U+2028, U+2029, U+202F, U+205F and U+3000, so text padded with those is not trimmed or skipped as the source would.
- Common.IsWordChar: is the ASCII `\w` (letters, digits, underscore). The .NET `\w` also matches non-ASCII letters, digits and connector punctuation, so a title or name with such characters is not matched as the source would.
- Common.Upper: folds only ASCII letters. Ordinal-ignore-case in .NET also folds non-ASCII letters, so "é" and "É" compare unequal in the model.
- Common.NewLine: is a line feed. `Environment.NewLine` is "\r\n" on a Windows agent, and so is the default `NewLine` of the `StreamWriter` that writes the Python wrapper; text joined or split at line ends on such an agent is not modelled.
- PythonExtensions.ReadJsonToken: reads every JSON string as a scalar text. Newtonsoft's default date handling turns a date-like string into a date value, whose text then differs; that conversion is not modelled.
- PythonExtensions.PyResolve: a run whose out-variables are null is read as one with no out-variables, so the null the source returns there is the empty list in the model.
- ScriptParser.SelectAny: `GetMultiple`, called at `ShellScriptParser.cs:124` and `WindowsBatchScriptParser.cs:117`, is not defined in the source files of this model. The model assumes it returns the matching sections' values in section order.
- PSUtil2.ExecuteScript2: the job it sends omits `TerminateHostProcess` and `WorkingDirectory`, which the source takes from the execution context (`PSUtil2.cs:152-154`); what the agent does with them is not modelled.
- PSUtil.ExecuteScriptDirect: the job it sends omits `WorkingDirectory`, which the source takes from the execution context (`PSUtil.cs:112`); what the agent does with it is not modelled.
- Common.StartsWith, Common.EndsWith, Common.IndexOf: compare ordinally. The source calls `StartsWith(string)`, `EndsWith(string)` and `IndexOf(string)` without a `StringComparison` at `PSUtil.cs:60` and `:180`, `PowerShellScriptInfo.Parse.cs:46` and `:52`, `PythonScriptParser.cs:25`, `:33` and `:131-140`, `WindowsBatchScriptParser.cs:24`, `:32`, `:36` and `:46`, `ShellScriptParser.cs:24`, `:32`, `:34`, `:39` and `:49`, `Extensions.cs:263` and `:269`, `SHUtil.cs:138`, `:252`, `:253`, `:410` and `:416`, and `LegacyPowerShellVersion.cs:159`. Those calls compare by the current culture, which skips ignorable code points such as U+00AD: `"\u00AD$x".StartsWith("$")` is true in the source and false in the model.
- Common.CompareOrdinal, Common.CompareIC, SemVer.Precedence, LegacyVersion.Compare, PSVersions.Compare: comparison results are reduced to their sign. The source returns the magnitude `string.Compare` gives (`InvalidPowerShellVersion.cs:23`, `PowerShellVersion.cs:85`, `LegacyPowerShellVersion.cs:250`); every caller in the source uses only the sign.
- SemVer.PrecedenceKeepsPrereleaseCase: states a consequence of the ordinal comparison that stands in for the culture-aware `string.Compare`, not the source's order. The culture-aware comparison puts "beta" before "BETA", where the ordinal one puts it after; the order of alphanumeric identifiers that differ in case or in non-ASCII letters is therefore not the source's.

## Findings

| source | as written | input that shows it | evidently intended | confidence | as-written member | corrected member |
|---|---|---|---|---|---|---|
| Scripting/InedoExtension/ScriptLanguages/Python/PythonScriptParser.cs:143-147 | the octal escape reads its third digit from `v[3]`, one past the three-character match | the docstring text `\101` throws IndexOutOfRangeException | `\101` decodes to "A" | not executed | PythonScriptParser.OctalEscapeThrows | PythonScriptParser.Replacement |
| Scripting/InedoExtension/ScriptLanguages/Python/PythonScriptParser.cs:134-138 | the hexadecimal escape's bytes are read little-endian, so their order is swapped | `\u0041` decodes to U+4100, and `\U0001F600` throws ArgumentOutOfRangeException | `\u0041` is "A" and `\U0001F600` is U+1F600 | not executed | PythonScriptParser.ShortEscapeByteOrder | PythonScriptParser.Replacement |
| Scripting/InedoExtension/PowerShell/PSConfigParameterInfo.cs:25-27 | `Max` over the help blocks' key counts has no elements when no configuration key occurs | help holding only a SYNOPSIS block throws InvalidOperationException | no configuration groups | not executed | PSConfigParameterInfo.NoConfigKeysThrows | PSConfigParameterInfo.GroupCount |
| Scripting/InedoExtension/PowerShell/PowerShellScriptInfo.Parse.cs:219-230 | the `Mandatory` member is skipped, and every other token in the attribute sets the parameter mandatory | `[Parameter(Mandatory = $false)] $x` gives a mandatory parameter | `Mandatory = $false` leaves it optional | not executed | PowerShellScriptInfo.MandatoryFalseIgnored | PowerShellScriptInfo.MandatoryFalseHonoured |
| Scripting/InedoExtension/PowerShell/PowerShellScriptInfo.Parse.cs:225-227 | the `= $false` look-ahead reads `paramTokens[j + 2]` when only `j + 2 <= Count` is checked | tokens ending in `[Parameter(Position =` throw ArgumentOutOfRangeException | the scan ends without a decision | not executed | PowerShellScriptInfo.TruncatedAttributeThrows | PowerShellScriptInfo.TruncatedAttributeUndecided |
| Scripting/InedoExtension/PowerShell/PSUtil2.cs:127 | `scriptInfo.ExecutionModeVariableName` is read although `scriptInfo` is null when the script does not parse | a collect run of a script that does not parse throws NullReferenceException | no execution-mode variable is set | not executed | PSUtil2.UnparsedCollectThrows | PSUtil2.ExecModeVariables |
| Scripting/InedoExtension/PowerShell/PSUtil2.cs:171-177 | a requested output variable is stored with a null name, so the write-back uses that null name and the `else if` branch is dead | requesting `OutputVariables = [x]` writes the value of `x` under a null variable name | the value is written under `x` | not executed | PSUtil2.RequestedVariableWrittenWithoutName | PSUtil2.WriteCorrection |
| Scripting/InedoExtension/Operations/Shell/SHUtil.cs:375 | the run result is dereferenced although it is null when the agent is not an SSH agent | any run on a non-SSH agent throws NullReferenceException | no result is returned | not executed | SHUtil.NotSshAgentThrows | SHUtil.Resolved |
| Scripting/InedoExtension/Configurations/PsModule/PsRepositoryConfiguration.cs:282-283 | the name filter dereferences entries that did not parse | `$results` of `[%(), %(Name: PSGallery)]` throws, and the registered repository is reported as not registered | entries without a name are skipped | not executed | PsRepository.NullEntryHidesRepository | PsRepository.FirstNamedIsFirst |
| Scripting/InedoExtension/Operations/Batch/BatCallOperation.cs:97-100 | explicit `Arguments` are appended only to a non-empty command line | a script without an arguments format, run with `Arguments: a`, runs `/c file` without `a` | `/c file a` | not executed | BatCall.ArgumentsDroppedWithoutFormat | BatCall.WithArguments |
| Scripting/InedoExtension/Operations/Batch/BatCallOperation.cs:60 | the not-found message interpolates the null `scriptItem` instead of the name | any missing script logs " was not found." | the message names the script | not executed | BatCall.NotFoundMessageNamesNothing | BatCall.NotFoundMessage |
