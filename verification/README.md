# WarheadRegex: the compiler, the optimiser and the matchers

The regular expression engine under `dep/WarheadRegex/src` turns a pattern into a vector of opcodes, rewrites that vector,
analyses it, and searches subjects with it. This project models these steps and proves that they agree with each other.

Everything rests on one pattern type (`Regex.dfy`) with two meanings: ordered backtracking, which gives the first match with
its captured groups, and the language of the pattern, the set of subject slices it can match (`Language.dfy`). `Layout.dfy`
says where the parts of a pattern lie in the vector of opcodes, with its links and real opcode numbers. The vectors that the
engine changes in place are arrays here, and the functions that change them are methods that are proved against these
meanings.

- `Source`, `Unroll`, `Unrolling`, `SourceLanguage`, `EmitLanguage`: counted repeats as the pattern is written, and the copies,
  nested brackets and loops they are compiled to.
- `PrePass`, `EmitCode`, `CompileCode`: the two passes of the compiler: the length that is computed first, and the vector
  that is then written, with moved copies, chains of open brackets, and links that are turned round in place.
- `CaseSwap`, `FirstUnit`: the first and the required code unit. `StudyMin`, `StudyStart`, `Study`, `EmitStudy`: the shortest
  match, the characters a match can start with, and how these facts are put together; `MinExact`, `StartExact`: that they are
  the best there are; `BracketCount`: how many groups a scan enters. `Anchor`, `AnchorExact`, `AnchorItems`: whether a
  pattern is anchored, and when taking it to be so is right. `StartFacts`: all of this in one compilation.
- `Walk`, `PossessRule`, `PossessExact`, `PossessRewrite`, `PossessCalls`, `PossessLayout`, `AutoPossess`: repeats that become
  possessive, and how many calls the analysis of them takes.
- `DfaGraph`, `DfaTrace`, `DfaMatch`, `DfaSearch`: the matcher that follows all alternatives at the same time, and the search
  for a start position with its shortcuts. `Matching`: compilation and search, from pattern to matches.
- `Numbering`, `Recursions`, `References`: references to groups by number, the cache of groups found last, and where each call
  leads.
- `ParsedPattern`, `ParsedLength`, `Lookbehind`, `LookbehindFindings`: the vector between parser and compiler, what its items
  can match and how long that is, and the lengths of lookbehinds, with lookarounds and conditions inside them. The lengths that
  are written into the vector are kept in a second array beside it; both together are the source's vector.
- `Folding`: predicates that a proof passes on without looking inside.
- `CodeBlocks`, `Serialize`: copies of compiled patterns, the tables they share, and their encoding as bytes.
- `Substitute`, `SubstituteLaws`: replacing matches in a subject, and what the output is.

The model is of the library for 8-bit characters, with links of two units, without UTF and Unicode properties, with the
default tables, and with one character as the newline.

## Findings

Six places where the code does not do what it is for, or what its comments say. The first five have a lemma with an input or a
family of inputs, and a condition under which the code is right, which is proved for all inputs.

1. `compare_opcodes` (`pcre2_auto_possess.c:1042-1057`) lets a repeat of a character before `$` or `\Z` become possessive
   unless the character is one of five control characters. Where NUL is the newline, `\0*$\0` on one NUL has a match before
   the rewriting and none after it (`NulChangesMatch`). For a newline of one character the rewriting is safe if and only if
   it is not NUL (`PossessNewline`).
2. `first_significant_code` (`pcre2_compile.c:4878-4880`) passes over a bracket that is to be skipped by way of the link of its
   opening, which leads to its second alternative if it has one. So the code of `(?:a|^b){0}c` (`SkippedIsCompiled`) counts as
   anchored, and "xc" is not found (`SkippedIsNotAnchored`). The scan is right where no skipped bracket has alternatives
   (`PlainSame`). Where skipped brackets are passed over whole, an anchored pattern loses no match (`AnchoredStart`); what is left
   of a skipped bracket never matters (`SkippedLoses`); and for the branches for which it can be seen, nothing is lost if and only
   if the branch is anchored in that sense or can match nothing (`AnchoredExactly`).
3. `get_branchlength` (`pcre2_compile.c:9376-9380`) looks for a group by going through the parsed pattern unit by unit, over the
   value of an options item too. With PCRE2_ANCHORED and PCRE2_UTF that value can be the same as the start of a group: in
   `(?:(?-i)ab)(c)(?<=(?1))` with PCRE2_CASELESS and PCRE2_ALLOW_EMPTY_CLASS the lookbehind gets the length 2, although group 1 has
   the length 1 (`HiddenGroup`). The search is right if and only if no such value comes before the group (`GroupFound`).
4. `set_lookbehind_lengths` (`pcre2_compile.c:9552-9570`) writes each length into the unit before its branch, and goes on as long
   as the unit it comes to is an ALT without data. When a lookbehind is read a second time, for a call of the group it is in, it
   stops at the first ALT, which has its length by then. In `((?<=a|bb)c)(?<=(?1))` the rest of that lookbehind is taken for the
   rest of the group, and the call gets the length 2 instead of 1 (`ReadTwice`). The reading comes to the end of the lookbehind if
   and only if no ALT of it has been written to (`StopsAtKet`).
5. `get_branchlength` (`pcre2_compile.c:9420-9449`) takes a condition for a group, so that one with a single branch gets the length of
   that branch, although it matches nothing when it is false. Its length is exact if and only if it is 0 (`OneSided`).
6. `get_branchlength` (`pcre2_compile.c:9413-9415`) passes over a definition inside a lookbehind, and the walk over all lookbehinds
   (`pcre2_compile.c:9726-9731`) does not go into lookbehinds again. So no lengths are written for lookbehinds in such a definition
   (`BracketLength`), though their group can be called from elsewhere, as in `(?<=(?(DEFINE)(?<x>(?<=ab)c))d)(?&x)`.

## Model

| member | source | states |
|---|---|---|
| PossessRewrite.PossessKeepsMatch | dep/WarheadRegex/src/pcre2_auto_possess.c:655-713 | With LF or CR as the newline, making any set of repeats possessive that the path analysis allows leaves the first match of every subject from every offset, with its captured groups, as it was, through alternatives, optional groups, empty items and loops up to the end of the pattern. |
| PossessRewrite.PossessNewline | dep/WarheadRegex/src/pcre2_auto_possess.c:1042-1060 | For a newline of one character: the rewriting never changes a match, of any pattern on any subject, if and only if the newline is not NUL. |
| PossessRewrite.NulChangesMatch | dep/WarheadRegex/src/pcre2_auto_possess.c:1042-1060 | With NUL as the newline, the pattern of a repeated NUL, `$`, and then a NUL matches one NUL, and no longer does when the repeat is made possessive. |
| AutoPossess.CompareOpcodes | dep/WarheadRegex/src/pcre2_auto_possess.c:550-705 | The walk over the opcodes says yes exactly where the path analysis on the pattern does and its calls are within the limit; it takes exactly one from the limit for each call: one for the walk, one for each alternative before the last, and one for what follows an optional group, until the verdict is known. |
| AutoPossess.AutoPossessify | dep/WarheadRegex/src/pcre2_auto_possess.c:1128-1240 | The vector is rewritten in place to that of the same pattern with some repeats possessive; only opcodes of repeats change; a repeat becomes possessive if and only if it may and the calls for it and for the repeats before it are fewer than 1000, so all that may do when those for the whole pattern are; and every first match stays the same. |
| PossessCalls.FlatPattern | dep/WarheadRegex/src/pcre2_auto_possess.c:1134-1153 | A pattern without groups in it takes as many calls as it has repeats that could become possessive. |
| PossessCalls.UsedAtMost | dep/WarheadRegex/src/pcre2_auto_possess.c:550-700 | The calls for a repeat are bounded by the optional groups and the alternatives on the paths after it, whatever the verdicts are. |
| PossessExact.ApartExact | dep/WarheadRegex/src/pcre2_auto_possess.c:713-1050 | For characters, classes and the six types \D to \w, in all the pairs that the analysis looks into: two items are taken to be apart if and only if no character is matched by both. |
| PossessExact.TableExact | dep/WarheadRegex/src/pcre2_auto_possess.c:69-76 | In the table the six types \D to \w are apart if and only if no character is matched by both. |
| PossessExact.NextItemDecides | dep/WarheadRegex/src/pcre2_auto_possess.c:557-1064 | Before an item that has to match, a repeat may become possessive if and only if they have no character in common; before one that need not, it takes that and the same for what follows. |
| Unrolling.CodeMeansSource | dep/WarheadRegex/src/pcre2_compile.c:7212-7387 | The copies, nested optional brackets and loops that a pattern with counted repeats is compiled to have the same first match, with captured groups, as ordered counted repetition, greedy and lazy. |
| SourceLanguage.SameLanguage | dep/WarheadRegex/src/pcre2_compile.c:7546-7641 | The emitted code can match a slice of a subject if and only if the counted pattern can. |
| EmitCode.RepeatGroup | dep/WarheadRegex/src/pcre2_compile.c:7212-7387 | Repeating the group just written moves and copies it in the vector, chains the brackets left open through their links and closes them again, so that exactly the code of the counted repeat stands there, and nothing before it has changed. |
| CompileCode.ReverseChain | dep/WarheadRegex/src/pcre2_compile.c:8271-8336 | The links of the alternatives, which lead back, are turned round in place: afterwards they lead from the opening bracket to each ALT in order and to the closing bracket. |
| CompileCode.CompilePattern | dep/WarheadRegex/src/pcre2_compile.c:8093-8345 | The first pass computes a length; the second writes the code of the whole pattern into a vector of that length, which is never too short; the answer whether something is always consumed is that of the pattern; failure only where the length is over the limit. |
| PrePass.PatternLength | dep/WarheadRegex/src/pcre2_compile.c:7284-7386 | The length from the first pass is at least that of the code of the second, and equal to it where no item is dropped by a repeat; it fails exactly over the limit. |
| FirstUnit.AltsUnits | dep/WarheadRegex/src/pcre2_compile.c:8203-8261 | A first unit is the first of every match; a required unit occurs in every match, after the first unit if there is one; for a caseless required unit either a later unit or the first unit with its case changed will do. A first unit is found exactly where all alternatives start with the same literal that must occur, in groups or not, after items that consume nothing; with one alternative, a required unit is found where a literal that must occur comes later. |
| FirstUnit.LiteralLeads | dep/WarheadRegex/src/pcre2_compile.c:8203-8261 | A branch that starts with a literal that must occur has it as its first unit. |
| EmitStudy.ConsumesShortest | dep/WarheadRegex/src/pcre2_compile.c:5544-5572 | The compiler's flag that something must be consumed, passed up through repeats, groups and alternatives, holds exactly where the shortest match in the emitted code is longer than 0. |
| StudyMin.FindMinLength | dep/WarheadRegex/src/pcre2_study.c:99-756 | The scan of the opcodes gives the shortest length of the pattern, cut off at 65535, or -1, which takes more than 1001 brackets; the length kept from the last group with the same number is right. |
| StudyMin.ShortestSound | dep/WarheadRegex/src/pcre2_study.c:60-98 | No slice in the language of a pattern is shorter than its shortest length. |
| MinExact.ShortestAttained | dep/WarheadRegex/src/pcre2_study.c:99-756 | The shortest length is attained: where the items that have to match match something and have a width, there is a match of that length after any text and before any text. |
| MinExact.ShortestIsBest | dep/WarheadRegex/src/pcre2_study.c:60-98 | So a number is a lower bound for the lengths of all matches if and only if it is not larger. |
| StudyStart.SetStartBits | dep/WarheadRegex/src/pcre2_study.c:949-1648 | Just the units of the start set are added; the scan is done, goes on or gives up exactly as the structure says, unless there are more than 1000 brackets; when it is done every match is non-empty and starts with a character in the map; when it is to go on, every match is empty or starts so. |
| StartExact.StartSetExact | dep/WarheadRegex/src/pcre2_study.c:949-1648 | Where no item is of zero width and every item matches something, a unit is in the start set if and only if some match starts with it. |
| Study.FirstFromBits | dep/WarheadRegex/src/pcre2_study.c:1689-1782 | A map of one character, or of the two cases of a letter, becomes a first unit, and only such a map does, unless the unit is the required one. |
| StartFacts.NotTheRequired | dep/WarheadRegex/src/pcre2_study.c:1762-1780 | A first unit that replaces the map, and is not the required unit in either case, is followed by the required unit in every match: a caseless required unit at the start would have put both of its cases into the map. |
| StartFacts.StartOptimize | dep/WarheadRegex/src/pcre2_compile.c:10450-10583 | The recorded facts (first unit or map, required unit, minimum length) hold for every match of the pattern on every subject; and they are all recorded: the units found, the start set where it can be seen, and the larger one of the shortest length and what the units require. |
| StartFacts.Compile | dep/WarheadRegex/src/pcre2_compile.c:10200-10583 | A compiled pattern means what its source means, before and after repeats are made possessive; the facts hold for all of its matches; a unit that the pattern starts with, a literal that comes later, the start set and the shortest length are recorded; it is anchored if asked to be or found to be. |
| Anchor.IsAnchored | dep/WarheadRegex/src/pcre2_compile.c:8391-8467 | The recursive scan of the opcodes gives the answer of the analysis on the pattern, with skipped brackets passed over as the code does it. |
| Anchor.AnchoredStart | dep/WarheadRegex/src/pcre2_compile.c:8391-8467 | A pattern that is found to be anchored with skipped brackets passed over whole, or that can match nothing, and that matches anywhere from the start of the search on, also matches at that start. |
| Anchor.PlainSame | dep/WarheadRegex/src/pcre2_compile.c:8391-8467 | Where no skipped bracket has alternatives, the scan as the code does it gives the answer of the scan that passes over skipped brackets whole. |
| AnchorExact.AnchoredExactly | dep/WarheadRegex/src/pcre2_compile.c:4844-4905 | For every branch that, after skipped brackets, starts with something sound, can match nothing, or has no zero-width items and shuts out some character at its start: taking it to be anchored loses no match of any subject if and only if it is sound or can match nothing. |
| AnchorItems.ItemHoldsBack | dep/WarheadRegex/src/pcre2_compile.c:8391-8467 | For every item: branches that start with it lose no match when only the start is tried, whatever follows it, if and only if the analysis says so, or it is an unlimited run of any characters that the analysis does not look for, or can never match. |
| AnchorItems.AllAlternatives | dep/WarheadRegex/src/pcre2_compile.c:8391-8412 | A group is anchored if and only if all of its alternatives are. |
| AnchorExact.SkippedLoses | dep/WarheadRegex/src/pcre2_compile.c:4878-4880 | Anchoring loses nothing for a skipped bracket and what follows if and only if it loses nothing for what follows, whatever the bracket holds. |
| AnchorExact.ConsumingLoses | dep/WarheadRegex/src/pcre2_compile.c:8391-8467 | From a match of a branch that consumes something, through groups, alternatives and repeats, and a character that nothing at its start matches, a subject is made that the branch matches at 1 and not at 0. |
| AnchorExact.SkippedIsCompiled | dep/WarheadRegex/src/pcre2_compile.c:7284-7386 | The pattern of the second finding is what its source is compiled to. |
| AnchorExact.SkippedIsNotAnchored | dep/WarheadRegex/src/pcre2_compile.c:4878-4880 | That code counts as anchored, matches "xc" at 1, and does not match it at 0. |
| DfaMatch.InternalDfaMatch | dep/WarheadRegex/src/pcre2_dfa_match.c:689-900 | The ends that are stored for a start offset are exactly the ends of the slices of the subject in the language of the pattern that the options admit, longest first, as many as fit; the workspace runs out only below a bound that is given. |
| DfaSearch.Search | dep/WarheadRegex/src/pcre2_dfa_match.c:3644-4042 | With all of its shortcuts the search gives the leftmost offset with a match and the ends there, or that there is none, as trying every offset in turn would. |
| Matching.MatchPattern | dep/WarheadRegex/src/pcre2_dfa_match.c:3295-4042 | Compiling and searching: the leftmost offset at which the source pattern matches by ordered backtracking, and all ends there; that nothing is found means that there is no match from any offset on, or, where anchoring came from what a skipped bracket holds, at the start of the search. |
| Recursions.FindLater | dep/WarheadRegex/src/pcre2_find_bracket.c:66-214 | A search for a group gives the same bracket from any opcode that is not after it. |
| Recursions.Lookup | dep/WarheadRegex/src/pcre2_compile.c:10357-10395 | With the cache of eight groups, and starting after a group with a lower number, the search finds what a search from the start finds. |
| Recursions.ResolveRecursions | dep/WarheadRegex/src/pcre2_compile.c:10357-10410 | Every reference gets the offset that a search from the start gives, over all runs of the cache, and the error comes if and only if some group does not exist. |
| References.ResolveCalls | dep/WarheadRegex/src/pcre2_compile.c:10345-10410 | For a pattern with calls as it lies in the code: without an error, the operand of each call is the offset where its bracket lies, that of the whole pattern for number 0 and otherwise the first capturing bracket with the number, and nothing else has changed; and the error comes if and only if some call names no bracket. |
| References.TargetIs | dep/WarheadRegex/src/pcre2_find_bracket.c:66-214 | A search from the start of the code finds the first bracket of the pattern with the number, if there is one. |
| Numbering.CompiledInOrder | dep/WarheadRegex/src/pcre2_compile.c:10345-10362 | In the code of a pattern whose groups are numbered as they are opened, first occurrences of numbers increase, however often groups are copied: what the search after a lower number relies on. |
| Numbering.ReferencesInOrder | dep/WarheadRegex/src/pcre2_compile.c:10345-10362 | The same in code with references or any other opcodes between the capturing brackets, as long as the brackets come in the order of those of such a pattern. |
| ParsedPattern.SkipsToKet | dep/WarheadRegex/src/pcre2_compile.c:8949-9041 | From inside a group, over classes, data, lookarounds, conditions and groups in it, a skip ends at the closing bracket of that group. |
| ParsedPattern.GroupFound | dep/WarheadRegex/src/pcre2_compile.c:9376-9380 | The search for a group finds its first item if and only if no options value before it is like the start of the group or the end of the vector, and the unit before it is not like the start of a large literal. |
| ParsedLength.AltsExact | dep/WarheadRegex/src/pcre2_compile.c:9112-9131 | Whatever a group with a length can match, with calls inside each other to any depth, has that many characters, where no condition has a single branch. |
| ParsedLength.OneSided | dep/WarheadRegex/src/pcre2_compile.c:9420-9449 | A condition with a single branch gets the length of that branch, and everything it can match has that length if and only if it is 0. |
| Lookbehind.LengthFinder.GetBranchLength | dep/WarheadRegex/src/pcre2_compile.c:9132-9513 | A length that is returned is the length of the branch, with exact repeats, groups, conditions, lookarounds, calls and back references; the scan stops at the end of the branch; the lookbehinds in it have their lengths; only lengths of branches are written, and to an ALT only inside this branch; the cache stays right, and the count of branches makes it end. The length is found where the branch has one, with calls of groups that do not refer to themselves, no sum on the way is over the maximum, and there are not too many branches to scan. |
| Lookbehind.SteadySure | dep/WarheadRegex/src/pcre2_compile.c:9132-9513 | In particular wherever a branch without references, lookarounds and empty repeats has a length of at most 65535. |
| Lookbehind.LengthFinder.ReferenceLength | dep/WarheadRegex/src/pcre2_compile.c:9360-9406 | The length of a call or a back reference is that of its group; it is found where that of the group is, and the group exists and does not refer to itself. |
| Lookbehind.LengthFinder.GetGroupLength | dep/WarheadRegex/src/pcre2_compile.c:9068-9109 | The alternatives of the group have the length returned; from the cache or by a scan, an inline group is left at the same closing bracket, with the lengths of the lookbehinds in it written. |
| Lookbehind.LengthFinder.BracketLength | dep/WarheadRegex/src/pcre2_compile.c:9246-9291 | Lookarounds have no length, but the lookbehinds in them get theirs; a definition is passed over and nothing is written in it. |
| Lookbehind.LengthFinder.SetLookbehindLengths | dep/WarheadRegex/src/pcre2_compile.c:9543-9572 | In place, each branch of a lookbehind gets its length, as do the lookbehinds inside it, if no ALT of it has been written to before or it has a single branch; otherwise there is an error; to an ALT outside nothing is written. |
| Lookbehind.LengthFinder.CheckLookbehinds | dep/WarheadRegex/src/pcre2_compile.c:9600-9736 | The walk ends at the closing bracket it is to end at, and every lookbehind that it has come to has its lengths, or there is an error. |
| Lookbehind.SetAllLengths | dep/WarheadRegex/src/pcre2_compile.c:10180-10187 | The same for all lookbehinds of a pattern that the walk comes to, and those inside them, from a vector without any lengths; the largest length is kept; and there is no error where all their branches have lengths that are found and there are not too many of them. |
| Lookbehind.BehindExact | dep/WarheadRegex/src/pcre2_compile.c:9514-9541 | Each length written for a lookbehind is that of everything its branch can match, where no condition has a single branch. |
| Lookbehind.VisibleGroups | dep/WarheadRegex/src/pcre2_compile.c:9370-9390 | Where no options value hides a group that is referred to, the groups that the search finds are those of the pattern. |
| LookbehindFindings.HiddenGroup | dep/WarheadRegex/src/pcre2_compile.c:9376-9380 | In a parsed pattern with a certain options value, the search for group 1 stops at that value; what is found there is a group of length 2, which is the length the call gets by the contract of the scan; and the call can match one character. |
| LookbehindFindings.StopsAtKet | dep/WarheadRegex/src/pcre2_compile.c:9552-9572 | The reading of the branches of a lookbehind comes to its closing bracket if and only if no ALT of it has been written to. |
| LookbehindFindings.ReadTwice | dep/WarheadRegex/src/pcre2_compile.c:9552-9572 | In the pattern of the fourth finding with its lengths in place, group 1 has the length 1, the second reading of its lookbehind stops at the ALT, and from there to a closing bracket there is a branch of length 2. |
| CodeBlocks.Memory.Copy | dep/WarheadRegex/src/pcre2_compile.c:1191-1217 | A copy is a new block without the JIT code; the count of shared tables stays the number of live blocks that own them. |
| CodeBlocks.Memory.CopyWithTables | dep/WarheadRegex/src/pcre2_compile.c:1225-1254 | A copy with tables of its own, of which it is the one owner. |
| CodeBlocks.Memory.Free | dep/WarheadRegex/src/pcre2_compile.c:1260-1287 | Tables go with their last owner, and only then, exactly once. |
| Serialize.Encode | dep/WarheadRegex/src/pcre2_serialize.c:67-151 | The bytes are the header, the tables and the blocks, with the pointers blanked out; or there are no blocks, or their tables differ. |
| Serialize.Decode | dep/WarheadRegex/src/pcre2_serialize.c:159-247 | The blocks get new addresses and share the tables read, whose count is their number; or a block is bad, or the header. |
| Serialize.RoundTrip | dep/WarheadRegex/src/pcre2_serialize.c:67-247 | Decoding what has been encoded gives every block back but for its pointers and one bit of its flags, and leaves all blocks there were. |
| Substitute.Substitute | dep/WarheadRegex/src/pcre2_substitute.c:217-1000 | For any matcher that keeps to its options the loop ends; the buffer holds the whole output and a zero, or there is not enough room and the length reported, if that is asked for, is that of the output, whatever the size of the buffer. |
| Substitute.SelfReplacement | dep/WarheadRegex/src/pcre2_substitute.c:372-480 | Replacing every match, or the first, by `$0` gives the subject back. |
| Substitute.LoopIdentity | dep/WarheadRegex/src/pcre2_substitute.c:372-480 | The same from any state of the loop, between tries for an empty match too. |
| Substitute.SubstituteAgain | dep/WarheadRegex/src/pcre2_substitute.c:958-976 | After an overflow, the same call with a buffer of the length reported succeeds, with the whole output in it; no buffer is larger than it has to be. |
| SubstituteLaws.ReplacementMeans | dep/WarheadRegex/src/pcre2_substitute.c:530-800 | For every replacement written as characters, `$$`, `$n` and `${n}`: its text is put together from the characters, one dollar, and what the groups have matched, up to the first group that is unset or unknown, whose error is reported as the options say. |
| SubstituteLaws.ReplacementOfSet | dep/WarheadRegex/src/pcre2_substitute.c:766-768 | Where all the groups are set there is no error, and each part stands for its character, one dollar, or the subject from the start of its group to its end. |
| SubstituteLaws.WholeWeaves | dep/WarheadRegex/src/pcre2_substitute.c:372-1000 | A run without an error puts out the subject with each match that the matcher gave, in order and without overlap, replaced, or the replacements alone, and returns the number of these matches. |
| SubstituteLaws.LoopExhausts | dep/WarheadRegex/src/pcre2_substitute.c:395-440 | Replacing all matches, it stops only where the matcher finds nothing more. |
| SubstituteLaws.StepsOver | dep/WarheadRegex/src/pcre2_substitute.c:404-418 | After an empty match the search goes on after one character, and never inside CRLF where that is one newline. |
| Substitute.Output.Put | dep/WarheadRegex/src/pcre2_substitute.c:194-212 | What is put out is in the buffer or is counted; the error comes exactly when there is no room and no counting. |

## Left out

- PossessRewrite.PossessKeepsMatch: the pattern type has no atomic groups, lookarounds, script runs, recursion, extended classes, nor `\R`, `\h`, `\v`, `\X` and property items.
- AutoPossess.CompareOpcodes: for the same items; CRLF and the newline settings with several newlines do not occur.
- AutoPossess.AutoPossessify: opcodes for those items, callouts, verbs and marks do not occur in the vector.
- SourceLanguage.SameLanguage: possessive repeats and atomic groups in the source have no language of this kind.
- FirstUnit.AltsUnits: lookaheads, `find_firstassertedcu`, conditions and back references; that a required unit is found is stated for one alternative only.
- StudyMin.FindMinLength: recursion, back references, conditions, verbs, and the rule for patterns with recursion.
- StudyStart.SetStartBits: lookarounds before the first character, conditions, and the Unicode cases.
- Anchor.IsAnchored: atomic and possessive groups, assertions around `^`, conditions, and the map of groups referred back to.
- Anchor.AnchoredStart: for the same patterns.
- AnchorExact.AnchoredExactly: branches of which it cannot be seen at once, because they have zero-width items without being sound, or shut out no character at their start.
- StartFacts.StartOptimize: `is_startline` is a parameter; newlines that are letters are excluded, as they are the library's settings for LF, CR or NUL only.
- DfaMatch.InternalDfaMatch: possessive repeats, atomic groups, assertions, recursion, callouts, partial matching and restarting.
- DfaSearch.Search: PCRE2_FIRSTLINE, start of line, CRLF, partial matching, and PCRE2_ENDANCHORED.
- StartFacts.Compile: resolving references, lengths of lookbehinds and the table of names are modelled by themselves or not at all.
- EmitCode.RepeatGroup: assertions, atomic and possessive groups, and conditions.
- CompileCode.ReverseChain: the link of the closing bracket is written after it (`CompilePattern` has it).
- Matching.MatchPattern: what is searched for is the code that has not been made possessive.
- Numbering.CompiledInOrder: the source patterns have no references; `ReferencesInOrder` is about code that has them, whatever wrote it.
- Lookbehind.LengthFinder.GetBranchLength: references by name, verbs, `(*ACCEPT)` and `\C` in UTF inside the branch; groups referred to that have lookbehinds with several branches in them (the fourth finding); that an error means there is no such length, which the limit on branches makes false: where a length is sure to be found is stated instead.
- Lookbehind.LengthFinder.SetLookbehindLengths: the offset of an error.
- Lookbehind.LengthFinder.ReferenceLength: that a length is found is not stated with PCRE2_MATCH_UNSET_BACKREF, nor for lookbehinds with references inside lookaheads.
- PossessExact.ApartExact: for `.`, and for two items of which one is a negated character and none is a character, the analysis gives up or goes by its table.
- References.ResolveCalls: the layout of calls is given, not emitted from a source pattern; calls in lookarounds and conditions.
- ParsedPattern.SkipsToKet: skips to the next alternative, which only verbs need; that `parse_regex` gives such a vector for every pattern is not part of this model.
- Serialize.Decode: decoding that fails half way, failing allocation, and a stream that is cut off.
- CodeBlocks.Memory.Copy: failing allocation.
- Substitute.Substitute: the extended syntax with its changes of case, references by name (a pattern here has no names), callouts, UTF, and a first match that has been made before.
- `parse_regex`, which turns the pattern text into the parsed pattern, and all of its errors.
- `pcre2_match`: the meaning by ordered backtracking stands for it.
- UTF, Unicode properties, extended classes, JIT, pattern conversion, contexts, and the wrapper around the library.
