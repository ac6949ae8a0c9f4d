# file(1): the regular expression engine, option scanning and the magic interpreter

A Dafny model of three parts of `file` and proofs of what they are for.

**The bundled regular expression engine** (`src/missing/regcomp.c`, `engine.c`, `regexec.c`, `regex2.h`) for
extended regular expressions over single bytes: ordinary and escaped characters, `.`, bracket lists, groups, `|`,
`*`, `+`, `?` and bounds. The compiler is modelled as it works, a class that reads the pattern and edits the strip
of operators in place; the matcher is modelled with its state sets (64-bit masks or byte arrays), its mandatory
literal, its Boyer-Moore search and its cold-start pointer. End to end (`Regex.CompileAndSearch`): a pattern is
accepted exactly when the grammar spells some tree, and the matcher then reports exactly the leftmost, longest piece
of the subject in the language of that tree (sections 9.1, 9.4 and 9.5.3 of IEEE Std 1003.1-2008); it is refused with
an error exactly when there is a fault of that kind in it.

| module | what it holds |
|---|---|
| `Strip`, `Node` | operators and moves between them; the shapes of code the compiler emits and the words they accept |
| `Language`, `Syntax`, `Grammar` | languages; pattern trees, their meaning, and reading a pattern; the grammar as a relation |
| `Faults` | what is wrong with a pattern that is refused, as a relation |
| `Runs`, `ColdStart` | runs over a strip are exactly the accepted words; what cold start needs |
| `Bits`, `States`, `Machine`, `Threads`, `Walk` | state sets, `step`, `walk` |
| `BoyerMoore`, `Must`, `MustSound`, `Matching` | the search tables, the mandatory literal, `matcher` |
| `Repetition`, `Compile`, `Regex` | `repeat`, the compiler, and both ends together |

**Option scanning** (`src/missing/getopt_long.c`). `Exchange` is the in-place exchange of two blocks along gcd
cycles. `Options` scans a command line and moves nothing. `Usage` is a grammar of command lines: clusters of letters
with what ends them, long options, arguments and marks, how each is written and what it reports; every line is
written in it, and the scan reports exactly that. `Getopt` is the scanner, a class with the static variables of the
source, and its calls together give exactly that scan and leave a sorted vector. `Rescan` shows that this is a stable
partition, and exactly when scanning the result again gives the same answers.

**The soft-magic interpreter** (`src/softmagic.c`). `Entries` turns the flat list of entries with continuation levels
into a forest and says who depends on whom. `Magic` walks the forest, with used lists and indirect scans. `SoftMagic`
is `match` and `mget` with the array of levels, and does the same for all lists. On that walk, `Trace` says which
entries are tested and where a scan stops, `Levels` and `Siblings` say what the array holds: the end that a relative
entry counts from, and when a default matches. A scan has a log of its tests, with the logs of the scans they start.
`Output` says what is printed for a log, `Record` that a scan prints exactly that and that every event in its log has
the outcome its entry and the file give it, `Ways` in what context an entry is tested, and `Causes` when a test is an
error. `Surprises` holds inputs at which plausible rules fail. `World` stands for the file: outcomes, places and end
positions of single tests.

## What the code does that one might not expect

- `y?` is emitted as `(y|)`. A plain bypass would break the cold-start pointer (`ColdStart.BypassBreaksIt`).
- A branch whose operators emit nothing is an empty branch: `a{0}` alone is REG_EMPTY.
- Where the option letters hold `W;`, a `-W` followed by an empty element ends the options like `--`.
- A scan that ends in a missing argument, with arguments passed over, is not settled: the vector as it was left
  supplies the argument from among these (`Rescan.ArgumentTurnsUp`), except that `-W` reads the first of them as the
  name of a long option, or as the mark when it is empty (`Rescan.MarkTurnsUp`). `Rescan.MissingIsSupplied` says what
  becomes of the scan in each case.
- A long option without a flag variable may have the value -1, which a caller takes for the end of the scan
  (`Getopt.Scanner.ScanAll`).
- A continuation whose end lies outside the file resets the `got_match` of its own level, so that a `default` beside
  it fires as well (`Surprises.BadEndForgets`). A quad gets there, since no test asks whether its eight bytes lie in
  the file. `Siblings.DefaultRule` says exactly when the plain rule holds.
- The offset of a mandatory literal counts the longest way through an alternation right behind the literal as well
  (`Must.Latest`), so that for `abc(de|f)` it is 2 and for `abc(d+|f)` it is not known.
- A top-level entry whose end lies outside the file does not stop the scan, whatever it has printed
  (`Surprises.BadEndGoesOn`). `Trace.StopRule` says exactly when the scan stops at the first group that gives
  something.
- An indirect entry scans with the same array of levels and does not restore it, so that a relative entry behind it
  may count from the end of a match of that other scan (`Surprises.IndirectMovesEnd`). `Siblings.EndSeen` says exactly
  when it does not.
- Without NLS the engine's `wint_t` is `short` and OUT is below every character; `Machine` uses those codes.

## Model

| member | source | states |
|---|---|---|
| `Regex.CompileAndSearch` | src/missing/engine.c:204-429 | compilation succeeds iff the grammar spells a tree, and gives an error iff there is a fault of that kind; a match is reported iff some piece of the subject is in that tree's language, and the offsets are the leftmost start with the longest end there |
| `Regex.Regcomp` | src/missing/regcomp.c:282-425 | an error iff the pattern has a fault of that kind, told apart from how it is read; otherwise a program with a literal and tables that implements the language of the tree |
| `Regex.Regexec` | src/missing/regexec.c:239-267 | either engine finds a match iff there is one, and the leftmost longest when asked for offsets |
| `Regex.Analyse` | src/missing/regcomp.c:397-409 | the literal and the jump tables belong to the program |
| `Regex.OuterReadsAll` | src/missing/regcomp.c:857-890 | the outermost expression ends only at the end of the pattern |
| `Grammar.ReaderIsGrammar` | src/missing/regcomp.c:453-890 | reading a pattern yields a tree iff the pattern spells it |
| `Grammar.Unambiguous` | src/missing/regcomp.c:453-890 | no pattern spells two trees |
| `Grammar.ReReads` | src/missing/regcomp.c:845-890 | every spelling of an expression, nested or not, is read as its tree |
| `Grammar.ReSpells` | src/missing/regcomp.c:845-890 | whatever is read spells the tree that is returned |
| `Grammar.SuffixReads` | src/missing/regcomp.c:637-688 | every repetition operator and bound is read with its limits |
| `Grammar.BracketReads` | src/missing/regcomp.c:1111-1257 | every spelling of a bracket expression, from its parts, is read as the set it stands for |
| `Grammar.BracketSpells` | src/missing/regcomp.c:1111-1257 | whatever is read as a bracket expression has such parts |
| `Faults.ReRefused` | src/missing/regcomp.c:845-890 | an expression is refused with an error iff it has a fault of that kind: in a branch, an empty branch, or behind a bar |
| `Faults.BranchRefused` | src/missing/regcomp.c:786-803 | a branch is refused with an error iff behind some right pieces of it there is a piece with that fault |
| `Faults.PieceRefused` | src/missing/regcomp.c:620-698 | a piece is refused iff there is a fault in its atom or its bound, or it is repeated twice |
| `Faults.AtomRefused` | src/missing/regcomp.c:484-614 | an atom is refused iff it is a group that is not closed or has a fault inside, a parenthesis too many, a repetition of nothing, an empty branch, a trailing backslash, or a bracket expression with a fault, each with its own error |
| `Faults.BracketRefused` | src/missing/regcomp.c:1111-1257 | a bracket expression is refused iff behind some right terms it ends, or there is a range out of order or a dash where none can be |
| `Faults.BoundRefused` | src/missing/regcomp.c:670-679 | a bound is refused iff a count is missing or too large, the limits are out of order, or its brace is not closed, told apart by whether a brace follows |
| `Faults.OneFault` | src/missing/regcomp.c:453-890 | no pattern has faults of two kinds |
| `Compile.Parser.PRe` | src/missing/regcomp.c:845-890 | reads what the grammar's reader reads, with the same error, and appends code for exactly the tree's language |
| `Compile.Parser.PEreExp` | src/missing/regcomp.c:453-698 | the same for one piece: an atom with its repetition |
| `Compile.Parser.PSuffix` | src/missing/regcomp.c:637-688 | the code of the atom becomes code for the repeated atom, edited in place |
| `Compile.Parser.Repeat` | src/missing/regcomp.c:1588-1654 | the operand at the end of the strip is replaced by the code of the bounded repetition, by inserts, duplicates and recursion that terminates |
| `Compile.Parser.MakeOptional` | src/missing/regcomp.c:661-669 | the operand is replaced by a choice between itself and nothing, with every offset right |
| `Compile.Parser.MakePlus` | src/missing/regcomp.c:657-660 | the operand is wrapped in a loop |
| `Compile.Parser.MakeStar` | src/missing/regcomp.c:650-656 | the operand is wrapped in a loop with a bypass |
| `Compile.Parser.InsertOffset` | src/missing/regcomp.c:733-749 | a branch is closed and the next one opened, and the offset to here is completed |
| `Compile.Parser.FixTail` | src/missing/regcomp.c:755-768 | the last branch is closed: the strip ends with the code of the whole alternation |
| `Compile.Parser.DoInsert` | src/missing/regcomp.c:1911-1942 | one operator appears at the position, the rest moves up by one |
| `Compile.Parser.DoFwd` | src/missing/regcomp.c:1949-1960 | the operand at the position is completed, nothing else changes |
| `Compile.Parser.Dupl` | src/missing/regcomp.c:1856-1878 | a copy of the piece is appended |
| `Compile.Parser.PBracket` | src/missing/regcomp.c:1111-1157 | the operator emitted matches the bytes the bracket list stands for, and the error is the reader's |
| `Compile.Parser.PBTerm` | src/missing/regcomp.c:1189-1266 | one element or range is read and added to the set |
| `Compile.Parser.PBounds` | src/missing/regcomp.c:670-679 | the limits of a bound, or the error of the reader |
| `Compile.ForksCode` | src/missing/regcomp.c:733-768 | the pieces of code of finished branches and a last one make the code of the alternation |
| `Compile.AlternationGood` | src/missing/regcomp.c:786-803 | an alternation of good branches accepts the union of their languages |
| `Repetition.RepAccepts` | src/missing/regcomp.c:1588-1654 | what repeat builds accepts from m to n words of the operand, unboundedly many for INFINITY |
| `Repetition.StarAccepts` | src/missing/regcomp.c:650-656 | a bypass around a loop accepts any number of words of the operand |
| `Repetition.RepValid` | src/missing/regcomp.c:1588-1654 | what repeat builds is code the machine can run if the operand is |
| `Node.CodeIsAt` | src/missing/regex2.h:84-130 | code written at a position has every offset of the shape it stands for |
| `Runs.RunsAreAccepted` | src/missing/regex2.h:61-78 | a word leads from the start of compiled code to its end iff the code accepts it |
| `Runs.ReachOnlyWords` | src/missing/regex2.h:61-78 | every run, to any operator inside the code, spells a word assigned to that operator |
| `Runs.AcceptedRuns` | src/missing/regex2.h:61-78 | every accepted word has a run |
| `Runs.CompiledOk` | src/missing/regcomp.c:1886-1960 | compiled code meets everything step relies on: offsets in range, chains of branches that end |
| `ColdStart.NoSilentReach` | src/missing/engine.c:1014-1022 | no state behind a consuming operator is reached from the start without input |
| `ColdStart.BypassBreaksIt` | src/missing/regcomp.c:661-669 | with a plain bypass for y? that would be false |
| `States.StateSet.Fwd` | src/missing/regexec.c:148-204 | both representations pass a state n places on, as sets of states |
| `States.StateSet.Back` | src/missing/regexec.c:149-203 | both representations pass a state n places back |
| `States.StateSet.Eq` | src/missing/regexec.c:137-189 | both representations compare as sets |
| `Machine.Step` | src/missing/engine.c:1039-1169 | the result is the least set that holds the given states, what the eaten character leads to, and is closed under silent moves; the loop that goes back at O_PLUS terminates |
| `Machine.Execute` | src/missing/engine.c:1057-1166 | one operator adds exactly the states it leads to, and asks for another round iff its loop opening was newly reached |
| `Machine.Look` | src/missing/engine.c:1143-1151 | the distance to the end of the choice |
| `Threads.StepOver` | src/missing/engine.c:1000-1012 | a step from the states of a set of histories gives the states of the histories one character longer |
| `Walk.Match.Walk` | src/missing/engine.c:882-1024 | slow: the longest end of a match from the start, or none; fast: whether any match begins in the range, and a cold position before which none begins |
| `Walk.FreshMeansDead` | src/missing/engine.c:932-933 | when the states are those of a fresh start no earlier thread can reach the end |
| `BoyerMoore.ComputeJumps` | src/missing/regcomp.c:2288-2324 | the character table is the distance from the last occurrence to the end of the literal |
| `BoyerMoore.ComputeMatchJumps` | src/missing/regcomp.c:2335-2406 | the match table holds the least shifts that agree with what has been compared |
| `BoyerMoore.Search` | src/missing/engine.c:249-279 | stops at the first occurrence, and reports failure iff there is none |
| `BoyerMoore.JumpSafe` | src/missing/engine.c:272-276 | no jump passes an occurrence and every jump makes progress |
| `BoyerMoore.MatchJumpSafe` | src/missing/regcomp.c:2335-2406 | no occurrence begins before the place the match table jumps to |
| `BoyerMoore.NaiveSearch` | src/missing/engine.c:280-288 | the same for short literals |
| `Must.FindMust` | src/missing/regcomp.c:2016-2200 | the literal is a run of characters at the top level of the program and no such run is longer; its offset is what may be taken up in front of it, alternations by their longest way, and not known behind a loop |
| `Must.LiteralIsLongest` | src/missing/regcomp.c:2051-2167 | the same of the scan, as it is stated: every run at the top level is at most as long as the literal |
| `Must.ComputeAltOffset` | src/missing/regcomp.c:2208-2274 | the offset a choice adds, nested choices included: the width of its widest branch, by `MustSound.AltBranches` |
| `MustSound.MustIsMandatory` | src/missing/regcomp.c:2016-2200 | every accepted word contains the literal, at most moffset bytes in when moffset is known |
| `MustSound.ScanBlock` | src/missing/regcomp.c:2016-2200 | scanning the code of any node keeps the literals, run and offset right for the words of what has been scanned |
| `MustSound.AltBranches` | src/missing/regcomp.c:2208-2274 | the offset computed for a choice is the width of the widest of its branches, and not known if there is a loop in one |
| `MustSound.WidthBounds` | src/missing/regcomp.c:2208-2274 | no word is longer than the width |
| `MustSound.WidthReached` | src/missing/regcomp.c:2208-2274 | some word has that length, unless a bracket expression in it matches no character |
| `Matching.Prescreen` | src/missing/engine.c:247-314 | gives up only if nothing matches, and moves the start only past positions where nothing begins |
| `Matching.Matcher` | src/missing/engine.c:204-429 | matches iff some piece of the subject is accepted, and the offsets are leftmost longest |
| `Matching.FindStart` | src/missing/engine.c:328-338 | from the cold position the first slow walk that succeeds gives the leftmost longest match |
| `Exchange.Gcd` | src/missing/getopt_long.c:114-129 | divides both and is a combination of both |
| `Exchange.GcdIsGreatest` | src/missing/getopt_long.c:114-129 | such a divisor is the greatest, a multiple of all common ones |
| `Exchange.PermuteArgs` | src/missing/getopt_long.c:136-169 | the two blocks change places, each in order, and nothing else moves, for all positive lengths |
| `Exchange.Cycle` | src/missing/getopt_long.c:156-168 | one cycle of swaps moves exactly the elements of one residue class to their places |
| `Exchange.PlaceDistinct` | src/missing/getopt_long.c:154-168 | a cycle passes no position twice |
| `Exchange.PlaceMeets` | src/missing/getopt_long.c:154-168 | a cycle passes every position of its residue class |
| `Getopt.Scanner.FindLong` | src/missing/getopt_long.c:408-433 | an exact name wins, the first of equal ones; otherwise the first entry that begins so is meant if all that begin so agree; the name is ambiguous iff no entry has it and two that begin so differ, unknown iff none begins so |
| `Options.LookupMeans` | src/missing/getopt_long.c:408-433 | what a name stands for in the scan that moves nothing is that, and nothing else is |
| `Usage.LineIsTold` | src/missing/getopt_long.c:176-498 | however a line is written as clusters, long options, arguments and marks, the scan gives exactly their reports, in order, and takes exactly their elements |
| `Usage.LineIsWritten` | src/missing/getopt_long.c:176-498 | every line is written so |
| `Usage.ScanIsUsage` | src/missing/getopt_long.c:176-498 | so there is a reading of the line, and every reading of it gives the reports of the scan |
| `Usage.ScanDelivers` | src/missing/getopt_long.c:176-498 | reports and vector after a scan, by any reading of the line |
| `Getopt.Scanner.GetoptInternal` | src/missing/getopt_long.c:176-312 | the call ends the scan, or stops at a long option, or makes the next report of the scan, with the vector laid out as options, passed over, options, rest |
| `Getopt.Scanner.GetoptLong` | src/missing/getopt_long.c:355-498 | one call makes the next report of the scan that moves nothing, or leaves the vector sorted and optind at the first argument that is no option |
| `Getopt.Scanner.ScanAll` | src/missing/getopt_long.c:355-498 | a caller who calls until -1 gets the reports of any reading of the line in the grammar of usages, in order, up to a long option whose own value is -1 if there is one; without one the vector is the options in order, then the passed over in order, then the rest, and optind is behind the options; with one the vector is laid out so that the scan could go on; every flag variable holds the value of the last report that sets it, or what it held before |
| `Getopt.Scanner.Finish` | src/missing/getopt_long.c:203-221 | at the end of the vector the last blocks are exchanged and optind set |
| `Getopt.Scanner.PassOver` | src/missing/getopt_long.c:239-252 | an argument passed over joins the others, after the options found since |
| `Getopt.Scanner.Letter` | src/missing/getopt_long.c:260-311 | the next option letter with its argument, or a complaint |
| `Getopt.Scanner.Long` | src/missing/getopt_long.c:376-495 | the next long option with its argument, or a complaint, or the end at the mark |
| `Rescan.StablePartition` | src/missing/getopt_long.c:176-312 | options and passed-over arguments are complementary subsequences of what was scanned, and none of the latter looks like an option |
| `Rescan.SortedIsSettled` | src/missing/getopt_long.c:355-498 | scanning the sorted vector gives the same reports iff the scan did not end in a missing argument with arguments passed over; then nothing moves |
| `Rescan.MissingIsSupplied` | src/missing/getopt_long.c:270-311 | when it did, all reports but the last come again, and the last becomes the letter or long option with the first element passed over for its argument, or for -W the long option of that name, or the mark if it is empty |
| `Rescan.ArgumentTurnsUp` | src/missing/getopt_long.c:297-305 | an input at which an option, scanned again, finds its argument among the elements passed over |
| `Rescan.MarkTurnsUp` | src/missing/getopt_long.c:270-288 | an input at which -W, scanned again, takes an empty element for the mark and nothing is reported |
| `Entries.ForestDepends` | src/softmagic.c:194-216 | an entry hangs below the nearest preceding entry of a lower level iff that is exactly one level lower and itself in the forest; roots and siblings keep their order |
| `SoftMagic.MagicSet.Match` | src/softmagic.c:216-505 | the scan of the flat list with its current level and array of levels gives exactly the outcome, output, flags, levels and counters of the walk over the forest, for all lists; it terminates; names followed are left again and the limits kept |
| `SoftMagic.MagicSet.Continuations` | src/softmagic.c:349-491 | the inner loop walks exactly the dependents of the top-level match and stops in front of the next group |
| `SoftMagic.MagicSet.OneContinuation` | src/softmagic.c:355-490 | one entry at the current level: whether its dependents come next, and what it leaves; what it prints is said by `Record.ScanIsRecorded` |
| `SoftMagic.MagicSet.OneGroup` | src/softmagic.c:251-347 | the same for a top-level entry |
| `SoftMagic.UnwindTries` | src/softmagic.c:355-490 | what remains of a group, told from the entry and the level, before and after an entry is tried |
| `SoftMagic.MagicSet.Get` | src/softmagic.c:1648-2053 | what there is to test; an error once the number of indirect scans or the nesting of names reaches its limit; the counters never pass them |
| `SoftMagic.MagicSet.GetUse` | src/softmagic.c:1998-2036 | a used list is walked in the place of its entry, the levels are as before, and it counts iff it found something; offset and byte order are said by `Ways.WaysPlace` |
| `SoftMagic.MagicSet.GetIndirect` | src/softmagic.c:1949-1996 | one more indirect scan is counted; the lists are walked on the rest of the file, and their output is kept iff one gives a result |
| `SoftMagic.MagicSet.FileSoftmagic` | src/softmagic.c:127-163 | a run from a fresh start: all lists in turn up to the first result; the output is the page of the logs; it fails iff the last log ends in an error; the counter is the number of indirect scans in the logs, at most indir_max, and no name is left followed |
| `SoftMagic.MagicSet.CheckMem` | src/funcs.c:639-660 | there is room for the level, its flag is reset, no other level changes |
| `Record.ScanIsRecorded` | src/softmagic.c:216-505 | the output of any scan is the page of its log: the descriptions of the matches in the order of the tests, used and indirect scans where they were started, a separator between groups and a blank between continuations unless the later says no; and each event says rightly where its entry was tested, whether it matched and where the match ended, in the logs of used and indirect scans too |
| `Record.ListsAreRecorded` | src/softmagic.c:1949-1996 | the same of the lists of an indirect scan, which are scanned up to the first with a result |
| `Record.RunIsRecorded` | src/softmagic.c:127-163 | the same of a run: lists up to the first with a result, or all with MAGIC_CONTINUE; it gives a result iff one of them does |
| `Record.RunPrints` | src/softmagic.c:127-163 | a run that comes to an end has printed the page of its logs |
| `Ways.WaysPlace` | src/softmagic.c:1949-2036 | offsets of every entry tested count from the sum of the offsets of the uses that lead to it since the last indirect scan; its byte order is turned iff an odd number of these uses turn it; its part of the file and its mode are those of the scan or of that indirect scan |
| `Ways.TestedAsLogged` | src/softmagic.c:216-505 | that, and the place and outcome of the test, for every entry that a scan tests, at any depth of uses and indirect scans |
| `Ways.PrintsItsLog` | src/softmagic.c:216-505 | the page, for the log that the scan leaves |
| `Causes.ScanIsCaused` | src/softmagic.c:1648-2053 | a test is an error iff the limit of indirect scans or names is reached, its offset cannot be computed, a used list does not exist, the comparison fails, or a scan it starts ends in an error; nothing is tested behind an error, which ends the scan; the counter is the number of indirect scans begun |
| `Causes.ListsAreCaused` | src/softmagic.c:1949-1996 | the same of the lists of an indirect scan: they fail iff there is none, or the last that was scanned ends in an error |
| `Causes.RunIsCaused` | src/softmagic.c:127-163 | the same of a run over all lists |
| `Trace.TestedEntries` | src/softmagic.c:194-216 | in any scan, up to an error if there is one, a continuation is tested iff the nearest preceding entry of a lower level is one level lower and has matched with an end inside the file; a top-level entry iff it applies and no earlier group that ended inside the file left something found; behind an error nothing is tested |
| `Trace.EndHandedDown` | src/softmagic.c:374-381 | in a list without indirect entries every continuation that is tested is tested from the end recorded when the entry it depends on matched, used lists or not |
| `Trace.TurnComes` | src/softmagic.c:251-503 | in any scan, one that ends in an error included, the turn of a top-level entry comes iff no earlier group has failed and none has both ended inside the file and left something found |
| `Trace.TopsTakeTurns` | src/softmagic.c:251-503 | from its turn on the scan goes on with that entry, in the state the earlier groups leave |
| `Trace.StopRule` | src/softmagic.c:492-502 | without MAGIC_CONTINUE no group behind the first that gives something is tried, iff its top-level match ends inside the file or no later group applies; of a scan that fails this is said as far as it goes |
| `Siblings.KidsTakeTurns` | src/softmagic.c:349-491 | siblings are tried in order, each in the state its elder siblings and their dependents leave |
| `Siblings.DownFrom` | src/softmagic.c:472-489 | dependents start from the end of the match they depend on, with no match among them yet |
| `Siblings.DownFromHead` | src/softmagic.c:336-347 | the same for the continuations of a top-level entry |
| `Siblings.EndSeen` | src/softmagic.c:370-381 | a sibling sees the end of the parent's match iff no scan started by an indirect entry since has matched at the parent's level, or the last such match ended there too |
| `Siblings.EndSeenQuietly` | src/softmagic.c:1626-1646 | in a list without indirect entries it always does, used lists or not |
| `Levels.ScanMarks` | src/softmagic.c:336-489 | after any scan every end and every got_match in the array is the one written last for its level, by the scan or by an indirect one |
| `Siblings.FlagMeans` | src/softmagic.c:418-428 | got_match of a level says whether the last sibling that matched is no clear and ended inside the file, or what an indirect scan has written there since |
| `Siblings.DefaultFires` | src/softmagic.c:418-428 | a default whose test holds matches iff there is no such sibling, or iff an indirect scan since has left the flag unset |
| `Siblings.DefaultRule` | src/softmagic.c:418-489 | the rule that it matches iff no sibling has matched since the parent or the last clear holds iff the last sibling that matched, unless a clear, ends inside the file; with an indirect scan since, iff that has left the flag as the rule has it |
| `Surprises.BadEndForgets` | src/softmagic.c:472-489 | an input at which a match that ends outside the file, a quad at offset 16 of 20 bytes, is forgotten: the default beside it fires as well |
| `Surprises.BadEndGoesOn` | src/softmagic.c:336-343 | an input at which such a top-level match does not stop the scan |
| `Surprises.IndirectMovesEnd` | src/softmagic.c:1949-1996 | an input at which a relative entry behind an indirect one is tested at the end of a match of the indirect scan |

## Left out

Regular expressions:

- anchors `^` `$` `\<` `\>` and `[[:<:]]`, with the counts of anchors that `walk` uses.
- Regex.CompileAndSearch: a pattern with anchors or named classes is outside the modelled grammar and is rejected with an error of its own, which the source does not give.
- Regex.Regcomp: the same.
- Compile.Parser.PRe: the same for anchors in an expression.
- Compile.Parser.PEreExp: the same for an anchor as an atom; also, one function of the source is several methods here, one for each kind of atom and suffix.
- Compile.Parser.PBracket: the same for word anchors and named classes in brackets.
- Compile.Parser.PBTerm: the same for collating elements, equivalence classes and named classes.
- basic regular expressions, GNU extensions, REG_NOSPEC, REG_PEND, REG_STARTEND and REG_ICASE.
- subexpression offsets and back references (`dissect`, `backref`): at most one pair of offsets is asked for.
- multibyte characters and NLS, collating elements, equivalence classes and named character classes in brackets; ranges go by byte value, as in the C locale.
- pattern bytes from 128 up: the callers in `file` refuse almost all of them. Subject bytes are 0 to 255.
- the 27-bit operands and the growth of the strip array, and failure to allocate memory.
- `pbegin`, `pend` and `nplus`, which serve only back references; debug output and assertions.
- charjump is indexed by bytes from 0 to 255, without the offset of the source's table for signed characters.

Option scanning:

- plain `getopt`, warnings as text (which complaint is made is modelled), and `opterr`.
- option letters are characters from 0 up: a letter that a signed `char` turns into -1 is not modelled.

Magic:

- single tests: reading values, indirect offsets, strings, searches, numbers, DER. They are parameters of `World`.
- Record.ScanIsRecorded: of a negated `use` whose list finds nothing it says only that the entry cannot match unless it is negated; whether it does depends on what was found before.
- offsets from the end of the file, conditionals (`if`, `elif`, `else`), MIME and Apple annotations, flushing of output buffers.

Not modelled at all: the UTF-8 and other text decoders, compound documents, JSON, tar, the reader of magic files and
format strings; process handling and sandboxing.
