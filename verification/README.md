# auto-system-agent: a model of its core, with proofs

This project models the parts of auto-system-agent that other parts rely on, and proves
what they promise: the event bus and its consumers, the shell command guard, the audit
chain and its anchor, approvals, rate limits, the agent's run loop and journal, the
offline planner, and the memory of stored plans. `dafny verify dfyconfig.toml` verifies
the whole project.

Code that works step by step is modelled as methods and classes with loops; each is tied
by its `ensures` to a function on values, and the promises are lemmas about that function.
Code that interleaves or can fail in the middle (the bus, Redis) is a machine over its
steps, and the promises hold for every run of it.

| file | models |
|---|---|
| `Common.dfy` | optional values, sequences without repeats, joining with spaces, words in any mix of cases |
| `Bus.dfy` | the in-memory broker: streams, idempotency keys, group cursors, pending sets, dead letters |
| `Delivery.dfy`, `DeliverySafety.dfy`, `DeliveryLaws.dfy` | runners, step workers, broker and dispatcher as one machine whose calls may be lost before or after they act and whose pending entries may be redelivered; its invariant; its laws |
| `VerdictKeys.dfy` | the keys of verdicts: when two steps share one, and what follows |
| `Consumer.dfy` | the runner as an object whose loops move that machine in lockstep |
| `RedisPublish.dfy` | concurrent publishers, one Redis command at a time, with crashes |
| `ShellLexer.dfy`, `ShellParser.dfy`, `ShellParserLoops.dfy` | tokenizer and parser, as functions on texts and token lists and as loops over positions |
| `ShellGrammar.dfy`, `ShellSyntax.dfy`, `ShellEnv.dfy` | the same languages as grammars: operators and words, commands, assignments |
| `ShellPrinter.dfy`, `ShellTargets.dfy`, `ShellRoundTrip.dfy`, `ShellReparse.dfy`, `ShellShown.dfy`, `ShellLaws.dfy` | the canonical form and the way back from it |
| `Guard.dfy`, `GuardText.dfy`, `GuardLaws.dfy` | deny list, risk score, verdict |
| `GuardPaths.dfy`, `GuardRules.dfy`, `GuardPoints.dfy` | the same on the words of a command line: what a word names, what is forbidden, what earns points |
| `Text.dfy`, `Json.dfy` | decimal numbers, cutting at a separator, quoted JSON strings |
| `Audit.dfy`, `Anchor.dfy` | the hash chain and the digest over all chain heads |
| `Approvals.dfy` | approval requests, decisions, expiry, their audit record |
| `Limits.dfy`, `Limiter.dfy` | token bucket; limiter with bounded memory |
| `React.dfy`, `Journal.dfy` | the run loop over its state machine; journal and compensation |
| `Planner.dfy`, `PlannerShell.dfy` | from intent and slots to workflow steps; what their shell texts mean |
| `Memory.dfy` | counters, reputation and state of a stored plan |

## Where the code differs from its description

- The runner leaves an entry whose acknowledgement failed to "a broker redelivery". The
  laws hold with redelivery of pending entries as a step. Neither broker redelivers,
  though: without that step a pending entry that no runner holds, such as one whose runner
  crashed, is in no later batch of its group (`DeliveryLaws.StrandedForGood`,
  `CrashStrands`).
- Verdict keys are `run:node:kind`. Steps of two runs can share a key exactly when one run
  id is the other followed by a colon and more (`VerdictKeys.KeysCollideExactly`). The step
  that comes second then completes without a verdict (`VerdictKeys.SharedKeySwallows`).
- The Redis `publish` leaves, once no publish of the key is about to append and one has
  returned, 1 + (GETs that found the blank mark) - (appends lost to a crash) entries
  (`RedisPublish.ExactlyOneExactly`). So it appends exactly once when publishes of the key
  take turns (`InTurnMeansExactlyOne`), and can append twice when they overlap or crash
  (`OverlapAppendsTwice`, `CrashAppendsTwice`).
- A canonical form need not parse back to its tree. Words that need quoting come back
  quoted. A redirection target ending in an escaped space comes back if the print puts an
  operator after it that does not start with `2`; before a `2>` it swallows the digit, and
  at the end of the text or of a subshell the print is refused
  (`ShellLaws.CanonicalRoundTrip`, `OpenEscapeIsRefused`). A target ending in other white
  space never comes back as it was. The parser takes a lone redirection, or one around a pipe of
  redirections, as a command only in the cases of `_has_command`.
- "Highest-risk leaf dominates chains" never changes a score, for any text that parses
  (`GuardLaws.WholeDominatesWorstLeaf`): the whole already scores at least as much.
- `rm --no-preserve-root` is meant to score 40 for destructiveness. It scores 30 when it is
  also recursive and no harmful command stands before it (`GuardPoints.Disaster` in
  `DestructivenessExactly`); the deny list catches it all the same.
- An audit row shares its hashed text with a different row exactly when its event name or
  its payload holds a `|` (`Audit.TwinsExactly`). Event `a` with payload `{"k": "x|y"}` is
  one (`Audit.BarInPayloadIsAmbiguous`). A store has an impostor that verifies with the
  same heads exactly when it holds such a row (`Anchor.StoreIsDetermined`).
- The limiter stays within `max_keys` exactly when `max_keys` is at least 2, or is 1 with a
  burst below one token (`Limiter.TrackedExactly`). When there are as many busy clients as
  `max_keys`, a new one makes it forget the oldest, who is then admitted even where a
  limiter that never forgets would refuse (`Limiter.CrowdedForgets`); below that, forgetting
  cannot be noticed (`Limiter.PruningIsUnobservable`).
- A command that times out undoes every journaled command, not only those of its own run
  (`Journal.TimeoutUndoesEverything`). So a run that is compensated ends in the world it
  began in if none of its commands timed out, and in the world the journal began in if one
  did (`Journal.UndoneRunEndsAt`, `React.Agent.RunLoop`).
- The module text of `src/memory/states.py` says a failed plan stays where it is; the code
  puts it back in quarantine, and so does the model. A success of a public plan is refused
  as an illegal transition (`Memory.RefusedExactly`).

## Model

| member | source | states |
|---|---|---|
| `Bus.BrokerLaws` | src/bus/backend.py:78-122 | after every history of broker calls with any batch sizes: ids rise, one entry per key, each group has received a prefix of the stream, and entries = undelivered + pending + acknowledged |
| `Bus.HistoryKeepsLedger` | src/bus/backend.py:58-131 | the broker's invariant and the ledger of received and acknowledged entries hold after every history |
| `Bus.ReadAdvances` | src/bus/backend.py:93-106 | one read returns the next stretch of the stream and moves the cursor past exactly it; with a batch size of at least 1 it is empty only at the end |
| `Bus.ReadPending` | src/bus/backend.py:93-106 | after a read the pending set is the old one plus the batch, with the right payloads |
| `Bus.OneEntryPerKey` | src/bus/backend.py:78-86 | an idempotency key names one entry of a stream |
| `Bus.FullRangeIsStream` | src/bus/backend.py:114-122 | a range read with the default bounds is the stream |
| `Bus.RangeIsStretch` | src/bus/backend.py:114-122 | a range read returns one stretch of the stream: everything before it is below the range, everything after it above |
| `Bus.MemoryBackend.ReadRange` | src/bus/backend.py:114-122 | the loop over the stream returns exactly the entries in the range, in order |
| `Bus.MemoryBackend.constructor` | src/bus/backend.py:61-67 | a new broker is empty |
| `Bus.MemoryBackend.Reset` | src/bus/backend.py:69-76 | reset empties everything |
| `Bus.MemoryBackend.PublishEvent` | src/bus/backend.py:78-86 | the object's publish is the specified one, its id names the entry of the key, and the invariant stays |
| `Bus.MemoryBackend.Ensure` | src/bus/backend.py:88-91 | a group is made once and keeps its cursor |
| `Bus.MemoryBackend.Read` | src/bus/backend.py:93-106 | the object's read returns the specified batch and reaches the specified state |
| `Bus.MemoryBackend.Ack` | src/bus/backend.py:108-109 | an acknowledgement removes one id from one pending set and nothing else |
| `Bus.MemoryBackend.Park` | src/bus/backend.py:124-128 | a parked event is appended to the dead letters of its stream |
| `Bus.DeadLettersExactly` | src/bus/backend.py:124-128 | after every history the dead letters of a stream are exactly the events parked for it since the last reset, in order, each with its reason |
| `DeliverySafety.StepKeepsInv` | src/bus/consumer.py:83-179 | every step of runner, worker, broker and dispatcher, including lost calls, crashes and redelivery, keeps the system invariant |
| `DeliverySafety.RunKeepsInv` | src/bus/consumer.py:83-179 | so it holds after every run |
| `DeliverySafety.StepLosesNothing` | src/bus/consumer.py:83-117 | no step, redelivery included, loses an entry: it stays undelivered, pending or accounted for |
| `DeliverySafety.AckAccounts` | src/bus/consumer.py:83-117 | what an acknowledgement takes out is handled, unhandled by type, or parked |
| `DeliveryLaws.NoDeliveryLost` | src/bus/consumer.py:83-145 | after every run, every published entry is undelivered, pending, handled under its key, without a handler, or parked |
| `DeliveryLaws.PendingLeftOnlyAccounted` | src/bus/consumer.py:83-117 | the step that removes an entry from a pending set finds it accounted for already |
| `DeliveryLaws.AckIsTheOnlyWayOut` | src/bus/backend.py:93-109 | only an acknowledgement of an accounted entry shrinks a pending set |
| `DeliveryLaws.DeliveryStarts` | src/bus/consumer.py:83-93 | a delivery is a duplicate if its key was handled before, unhandled if neither its type nor a default has a handler, and otherwise tried or, without attempts, parked |
| `DeliveryLaws.RegisteredGoesFirst` | src/bus/consumer.py:88 | the handler registered for the type goes before the default; a worker executes exactly the dispatched nodes of its own type |
| `DeliveryLaws.StrandedForGood` | src/bus/backend.py:93-109 | in every run without redelivery, a pending entry that no runner of its group holds stays pending and held by none |
| `DeliveryLaws.CrashStrands` | src/bus/consumer.py:83-145 | the crash of the only runner that holds a pending entry brings that about |
| `DeliveryLaws.RedeliveryRescues` | src/bus/consumer.py:111-117 | redelivery can hand any pending entry of its group to a waiting runner again |
| `DeliveryLaws.VerdictsAreBacked` | src/bus/workers/core.py:57-95 | with persistence on, every verdict has the stored row of the same run, node and outcome behind it, or is the dispatcher's own failure |
| `DeliveryLaws.VerdictsSpeakPlainly` | src/bus/workers/core.py:71-95 | after every run each entry of the results stream is named `step.finished`, with an output and a key ending in `:finished`, or `step.failed`, with an error and a key ending in `:failed` |
| `DeliveryLaws.ExecutionIsAnnounced` | src/bus/workers/core.py:65-95 | a worker that executed its event with an outcome, and gets to publish whatever the others do meanwhile, leaves under a fresh key exactly one new entry that tells that run that outcome of that node; with persistence on, its row is stored |
| `DeliveryLaws.ClosureAnnounces` | src/bus/workers/core.py:57-95 | so does the worker closure on its own: on a dispatched node of its type, and on nothing else |
| `DeliveryLaws.OneVerdictPerKind` | src/bus/workers/core.py:57-95 | a run and node have at most one finished and one failed verdict, under redelivery of pending entries, retry, replay, redrive and crash |
| `VerdictKeys.KeySeparates` | src/bus/workers/core.py:57-95 | if neither run id is the other followed by a colon and more, two verdict keys are equal exactly when run, node and kind are |
| `VerdictKeys.KeysCollideExactly` | src/bus/workers/core.py:57-95 | two different runs have steps that share a key exactly when one run id is the other followed by a colon and more |
| `VerdictKeys.OneRunNeverCollides` | src/bus/workers/core.py:57-95 | within one run, keys are equal exactly when node and kind are |
| `VerdictKeys.SharedKeySwallows` | src/bus/workers/core.py:57-95 | for any two steps of different runs that share a key, a run of the machine in which the second completes and no verdict of its run exists |
| `DeliveryLaws.CompletedIsAnswered` | src/bus/workers/core.py:57-95 | a worker that completed on an event has a verdict of that run and node on the results stream, if its run id is entangled with none there |
| `DeliveryLaws.PassAddsUp` | src/bus/consumer.py:83-145 | deliveries = processed + duplicates + dead letters + unhandled + lost parks; errors lie between dlq and deliveries times the attempts; no key completes twice |
| `DeliveryLaws.ReplayOfSettledIsIdle` | src/bus/consumer.py:147-159 | replaying events whose verdicts exist changes nothing |
| `DeliveryLaws.ReplayChangesNothing` | src/bus/consumer.py:147-159 | after every run in which a deterministic worker completed on all matching events of a stream, replaying the stream leaves the broker as it is |
| `Consumer.StepRunner.DrainOnce` | src/bus/consumer.py:119-145 | the drain terminates, its counters add up, no key was handled twice, and with a healthy broker nothing is left undelivered |
| `Consumer.StepRunner.Process` | src/bus/consumer.py:83-117 | one delivery is settled: duplicate, unhandled, handled or parked, and counted once |
| `Consumer.StepRunner.TryHandler` | src/bus/consumer.py:83-117 | a handler runs until it succeeds, at most `max_retries + 1` times, each failure counted |
| `Consumer.StepRunner.Handle` | src/bus/workers/core.py:58-95 | the worker persists, then publishes the verdict of what ran: under a fresh key, one new entry naming run, node and outcome; a mismatched event is skipped |
| `Consumer.StepRunner.ReplayStream` | src/bus/consumer.py:147-159 | replay runs every event of the stream once through its handler and touches no cursor, pending set or seen key |
| `Consumer.StepRunner.RedriveStream` | src/bus/consumer.py:161-179 | redrive does the same for the dead letters |
| `RedisPublish.ReturnedIdNamesEntry` | src/bus/redis_backend.py:48-57 | in every interleaving with crashes, a returned id names an entry with the publisher's key |
| `RedisPublish.LateStartsNeverAppend` | src/bus/redis_backend.py:48-57 | once a key holds an id, no publish that starts later appends, and no publish appends twice |
| `RedisPublish.SettledStays` | src/bus/redis_backend.py:48-57 | a key that holds an id goes on holding one |
| `RedisPublish.EntriesExactly` | src/bus/redis_backend.py:48-57 | in every interleaving with crashes: entries of a key + publishes about to append + appends lost to crashes = 1 if the key was ever claimed, else 0, + GETs that found the blank mark |
| `RedisPublish.ExactlyOneExactly` | src/bus/redis_backend.py:48-57 | once nobody is about to append and one publish has returned, there is exactly one entry exactly when blank GETs equal lost appends |
| `RedisPublish.NoCrashLosesNothing` | src/bus/redis_backend.py:48-57 | without crashes no append is lost, so exactly one means no GET found the blank mark |
| `RedisPublish.InTurnReadsNoBlank` | src/bus/redis_backend.py:48-57 | publishes that take turns read no blank mark and lose no append |
| `RedisPublish.InTurnMeansExactlyOne` | src/bus/redis_backend.py:48-57 | so publishes of a key that take turns and do not crash leave exactly one entry |
| `RedisPublish.OverlapAppendsTwice` | src/bus/redis_backend.py:48-57 | two overlapping publishes can append twice |
| `RedisPublish.CrashAppendsTwice` | src/bus/redis_backend.py:48-57 | a crash between append and last SET makes the next publish append again |
| `RedisPublish.Server.Publish` | src/bus/redis_backend.py:48-57 | the straight-line method ends as the machine does when one publisher runs alone |
| `ShellLexer.TokensAreLossless` | src/safety/command_guard.py:84-189 | an accepted text is its tokens, none empty, with only blanks between them |
| `ShellLexer.TokensKeepEveryCharacter` | src/safety/command_guard.py:84-189 | blanks aside, the concatenated tokens are the text |
| `ShellLexer.TokensAreSolid` | src/safety/command_guard.py:84-189 | every token is an operator or a word that scans as itself |
| `ShellLexer.FindSubstEnd` | src/safety/command_guard.py:84-189 | the loop over a `$(...)` finds the end the definition names, through nesting and quotes |
| `ShellLexer.Tokenize` | src/safety/command_guard.py:84-189 | the scanning loop terminates and returns the specified tokens or error for every text |
| `ShellGrammar.OperatorsExactly` | src/safety/command_guard.py:33 | the scanner takes the longest listed operator, if there is one; `2>` and `2>>` only where a word may begin |
| `ShellGrammar.TokensExactly` | src/safety/command_guard.py:84-189 | a text has these tokens exactly when the grammar splits it into them: blanks, longest operators, and words of plain characters, escapes, single quotes, double quotes with escapes, and nested `$(...)` |
| `ShellGrammar.RefusedExactly` | src/safety/command_guard.py:84-189 | a text is refused exactly when the grammar cannot split it |
| `ShellGrammar.DoubleQuotedIsOneToken` | src/safety/command_guard.py:101-125 | between double quotes everything is one token, and a backslash keeps the next character, a quote included |
| `ShellGrammar.SingleQuotedIsOneToken` | src/safety/command_guard.py:101-125 | between single quotes nothing is special, a backslash included |
| `ShellGrammar.EscapeStaysInside` | src/safety/command_guard.py:101-118 | an escaped character never ends a word |
| `ShellGrammar.SubstitutionIsOneToken` | src/safety/command_guard.py:133-166 | `$(...)` is one token, whatever it holds |
| `ShellGrammar.TokensAreClosed` | src/safety/command_guard.py:84-189 | a token is an operator, or a word in which no blank, quote, backslash or operator stands unquoted, unescaped and outside `$(...)` |
| `ShellParserLoops.ParseTarget` | src/safety/command_guard.py:273-284 | the target of a redirection, or the error |
| `ShellParserLoops.ParseTrailingRedirs` | src/safety/command_guard.py:251-270 | the redirections after a subshell, first one innermost |
| `ShellParserLoops.SplitAssignments` | src/safety/command_guard.py:287-299 | leading assignments become the environment, later ones overriding |
| `ShellParserLoops.ReadSimpleAt` | src/safety/command_guard.py:302-323 | the loop over the words and redirections of a simple command reads what the definition reads |
| `ShellParserLoops.ParseSimpleAt` | src/safety/command_guard.py:302-323 | the position-based parser of simple commands agrees with the specified one, errors included |
| `ShellParserLoops.ParseFactorAt` | src/safety/command_guard.py:251-270 | likewise for subshells and simple commands |
| `ShellParserLoops.ParsePipeAt` | src/safety/command_guard.py:225-236 | likewise for pipes |
| `ShellParserLoops.ParseChainAt` | src/safety/command_guard.py:208-222 | likewise for chains |
| `ShellParserLoops.ParseCommand` | src/safety/command_guard.py:192-205 | the whole parser terminates and returns the specified tree or error for every text |
| `ShellSyntax.ParseExactly` | src/safety/command_guard.py:192-323 | the parser accepts exactly the sentences of a grammar of items, subshells, pipes and chains, and returns the tree of the sentence |
| `ShellEnv.AssignExactly` | src/safety/command_guard.py:287-299 | a word is an assignment exactly when it is a name starting with a letter or underscore, `=` and a value, without a slash; it is cut there |
| `ShellEnv.LeafExactly` | src/safety/command_guard.py:287-323 | the words before the first that is no assignment are the environment, each key with its last value in the order the keys first came; the rest are the arguments |
| `ShellLaws.ParseChainOk` | src/safety/command_guard.py:208-323 | whatever parses is a left-nested chain of left-nested pipes of redirected commands and subshells |
| `ShellRoundTrip.ScanPrinted` | src/safety/command_guard.py:919-933 | what every printed tree scans to, whatever follows it: its own tokens, with what each open escape takes or loses |
| `ShellTargets.HangEnd` | src/safety/command_guard.py:84-189 | a target that ends in an escaped white-space character, stripped at the end of the text, is refused by the tokenizer |
| `ShellTargets.HangParen` | src/safety/command_guard.py:84-189 | before `)` it takes the parenthesis into its token |
| `ShellTargets.HangInfix` | src/safety/command_guard.py:84-189 | before any other operator it takes the blank in front of it, and the digit of `2>` as well |
| `ShellReparse.ParseChainBack` | src/safety/command_guard.py:208-323 | those tokens parse back to the tree with each word as printed |
| `ShellShown.ShownParses` | src/safety/command_guard.py:919-933 | a print that loses no escape at its end or at a parenthesis parses, to the tree with each word and target as shown |
| `ShellShown.RefusedFails` | src/safety/command_guard.py:919-933 | every other print is refused |
| `ShellShown.ChainBalance` | src/safety/command_guard.py:208-323 | what the parser consumes has as many closing parentheses as opening ones |
| `ShellLaws.LeafComesBack` | src/safety/command_guard.py:919-933 | a command comes back unchanged exactly when none of its words needs quoting |
| `ShellLaws.TreeComesBack` | src/safety/command_guard.py:919-933 | so does a whole tree |
| `ShellLaws.CanonicalRoundTrip` | src/safety/command_guard.py:919-933 | for every text that parses: its canonical form is refused exactly when some open escape ends the print or a subshell, otherwise it parses to the tree as shown, and it gives the same tree exactly when no word needs quoting and every target comes back |
| `ShellLaws.TargetsComeExactly` | src/safety/command_guard.py:919-933 | every target comes back exactly when each is shown as it is and no open escape ends the print or a subshell |
| `ShellLaws.TreeRoundTrip` | src/safety/command_guard.py:919-933 | the same three laws for every tree a parser can return |
| `ShellLaws.PlainComesBack` | src/safety/command_guard.py:919-933 | texts without words to quote and targets ending in white space come back unchanged |
| `ShellLaws.OpenEscapeIsRefused` | src/safety/command_guard.py:919-933 | every text that ends in a redirection to a target with a final escaped space parses, and its canonical form does not |
| `GuardLaws.DenyListExactly` | src/safety/command_guard.py:573-622 | the deny list denies exactly fork bombs and structural reasons |
| `GuardLaws.DenialPropagates` | src/safety/command_guard.py:573-622 | a denied part of a tree denies every tree around it |
| `GuardLaws.DeniedPartDeniesCommand` | src/safety/command_guard.py:1071-1115 | a text with a denied part anywhere is DENY with at least 85 points |
| `GuardLaws.RiskGrows` | src/safety/command_guard.py:836-875 | the destructiveness loop never lowers its result |
| `GuardLaws.ScoreNeverFalls` | src/safety/command_guard.py:755-916 | the five fixed-weight components never fall when a tree is placed inside a larger one |
| `GuardText.ForkBombStays` | src/safety/command_guard.py:573-622 | a fork bomb stays one in every longer text |
| `GuardPoints.ForkBombExactly` | src/safety/command_guard.py:573-577 | a text is a fork bomb exactly when it holds the four characters `:(){` with nothing but spaces between them |
| `GuardText.WordsEndWell` | src/safety/command_guard.py:84-189 | no word, blanks aside, ends in `:()` |
| `GuardText.BombInOneWord` | src/safety/command_guard.py:990-1035 | a fork bomb in the joined words of a leaf lies inside one of them |
| `GuardText.LeafBombIsInText` | src/safety/command_guard.py:990-1035 | a fork bomb in a leaf of a parsed text is one in the text |
| `GuardLaws.WholeDominatesWorstLeaf` | src/safety/command_guard.py:990-1035 | for every text that parses and every expansion bonus, the worst-leaf clause does not change the score |
| `GuardLaws.VerdictExactly` | src/safety/command_guard.py:1071-1115 | a text is denied exactly when it does not parse, is on the deny list, or scores above 70; only scores up to 30 are allowed unasked |
| `GuardPaths.ProgNameExactly` | src/safety/command_guard.py:625-627 | a path names a program exactly when its last proper component spells it in any mix of cases |
| `GuardPaths.CleanExactly` | src/safety/command_guard.py:557-558 | a cleaned word is the word without white space and then without quotes around it |
| `GuardPaths.SystemExactly` | src/safety/command_guard.py:561-563 | a path is sensitive exactly when it is, or lies under, one of the six system trees |
| `GuardPaths.ClimbingExactly` | src/safety/command_guard.py:566-567 | a path climbs exactly when `..` is one of its components |
| `GuardRules.RunsExactly` | src/safety/command_guard.py:763-785 | the guard looks at exactly the command that runs: the first word, or the one behind a privilege wrapper and its flags with their values |
| `GuardRules.RecursiveExactly` | src/safety/command_guard.py:824-833 | a flag is recursive exactly when it is `-rm`, `--recursive` or an `r` in a bundle of `r`, `f`, `i`, `l`, in any mix of cases |
| `GuardRules.LeafDeniedExactly` | src/safety/command_guard.py:573-622 | a leaf is denied exactly when what it runs halts or formats, is `dd` on a device, `rm` of the root or without its safeguard, opens the root, writes or deletes in a system tree, destroys through `..`, or removes an unknown application |
| `GuardPoints.DenyListByWords` | src/safety/command_guard.py:573-622 | the deny list on words: a fork bomb, a download piped into a shell, a redirection into a system tree, or a forbidden command |
| `GuardPoints.PrivilegeExactly` | src/safety/command_guard.py:755-760 | 25 points exactly for a privilege wrapper, 20 exactly for a command that deletes or formats |
| `GuardPoints.DestructivenessExactly` | src/safety/command_guard.py:836-875 | 40 points for a fork bomb or a disaster, else 35 for a command that formats or opens the root, else 30 for one that halts, copies raw or deletes trees, else 0 |
| `GuardPoints.ScopeExactly` | src/safety/command_guard.py:788-821 | the scope is the most that an argument or redirection target covers: 20 root and system paths, 10 absolute and home paths, 5 local ones |
| `GuardPoints.NetworkExactly` | src/safety/command_guard.py:886-916 | 15 points exactly for a download piped into a shell, or a download that names its source |
| `GuardPoints.AssessExactly` | src/safety/command_guard.py:1071-1115 | the whole verdict and score of every text: empty, refused by the parser, on the deny list, or the capped sum against 30 and 70 |
| `Audit.AppendKeepsChain` | src/storage/audit.py:68-95 | an append keeps a chain verifying (and a broken one broken) and its numbering without gaps |
| `Audit.AppendKeepsStore` | src/storage/audit.py:68-95 | every chain of the store goes on verifying |
| `Audit.AuditStore.Append` | src/storage/audit.py:68-95 | the stored row continues its chain, and no other chain changes |
| `Audit.VerifyRows` | src/storage/audit.py:149-171 | the verifying loop accepts exactly the chains that recompute, and otherwise names the first broken row and the reason |
| `Audit.AuditStore.VerifyChain` | src/storage/audit.py:145-171 | the same for one execution of the store |
| `Audit.EditIsCaught` | src/storage/audit.py:149-171 | a replaced row (not the last, or with its hash kept) that still verifies was hashed from the same text, or the two texts collide |
| `Audit.RemovalIsCaught` | src/storage/audit.py:149-171 | a chain that verifies without one of its rows but the last had the same hash before and after that row |
| `Audit.InnerRemovalNeedsCollision` | src/storage/audit.py:149-171 | for numbered rows that is a collision of two of the chain's own texts |
| `Audit.TruncationVerifies` | src/storage/audit.py:149-171 | a chain cut short still verifies, which is what the anchor is for |
| `Audit.SameHeadSameBodies` | src/storage/audit.py:51-54 | two verifying chains of one length and head hashed the same text at every row, unless two of those texts collide |
| `Audit.SameBodySameRow` | src/storage/audit.py:51-54 | a row without a separator in event name and payload shares its hashed text with no other row, whatever that one holds |
| `Audit.TwinsExactly` | src/storage/audit.py:51-54 | there is a different event name and payload with the same hashed text exactly when the event name or the payload holds a separator |
| `Audit.BarInPayloadIsAmbiguous` | src/storage/audit.py:28-54 | event `a` with the canonical payload of a one-key object whose value holds a separator is such a row |
| `Anchor.ChainHeads` | src/storage/anchor.py:38-50 | one head per chain, with its length and last hash, in the order of the execution ids |
| `Anchor.SortedAscends` | src/storage/anchor.py:38-50 | sorting puts heads with distinct ids in strictly ascending order |
| `Anchor.HeadsUnique` | src/storage/anchor.py:38-56 | whatever order the store lists its executions in, the heads are the same |
| `Json.QuotedCut` | src/storage/anchor.py:33-35 | a JSON string as Python writes it can be read back in one way only, whatever follows it |
| `Anchor.CanonicalInjective` | src/storage/anchor.py:33-56 | the canonical text determines the list of heads |
| `Anchor.AnchorSealsHistory` | src/storage/anchor.py:101-161 | if an anchor built from one sound store accepts another, both hashed the same history, row by row, unless two of the texts they hashed collide |
| `Anchor.SameHistorySameStore` | src/storage/anchor.py:101-161 | if the rows of the anchored store hold no separator that means the same rows, whatever the other store holds |
| `Anchor.FindImpostor` | src/storage/anchor.py:101-161 | for any row with a separator there is another sound store with the same hashed history and the same heads |
| `Anchor.StoreIsDetermined` | src/storage/anchor.py:101-161 | a sound store is the only one with its hashed history exactly when none of its rows holds a separator |
| `Anchor.AcceptsExactly` | src/storage/anchor.py:59-161 | a built anchor accepts exactly when the signature (if any) is reproduced and the digests agree |
| `Anchor.MismatchIsNamed` | src/storage/anchor.py:101-161 | the diagnosis names exactly the new, missing and rewritten chains, and names one whenever the heads differ |
| `Anchor.ChangesAreReported` | src/storage/anchor.py:101-161 | a built anchor, read with a key that reproduces its signature, answers when the digests differ with the chains that are new, missing and rewritten since |
| `Anchor.AnyHeadsAreReported` | src/storage/anchor.py:129-154 | so does any document that holds the heads of a store |
| `Anchor.RefusedExactly` | src/storage/anchor.py:101-154 | for any document: exactly when the answer is a wrong version, a missing key, a wrong signature, or changed heads |
| `Anchor.DocumentDescribes` | src/storage/anchor.py:67-88 | a new anchor states the version, the number of chains and of rows in all of them, digest and heads, and is signed exactly when there is a key |
| `Approvals.StepKeepsInv` | src/app/approvals.py:87-224 | every operation, at any time, keeps the tables and the audit record consistent |
| `Approvals.RunKeepsInv` | src/app/approvals.py:87-224 | so does every run |
| `Approvals.StatusLaws` | src/app/approvals.py:119-195 | in every reachable state: pending means too few distinct approvers and no rejection, approved exactly a quorum and no rejection, rejected exactly a rejection |
| `Approvals.VerdictTextDecides` | src/app/approvals.py:119-181 | on an open request of every reachable state: `APPROVED` in any mix of cases records that approver's vote and approves exactly when the distinct approvers reach the quorum, `REJECTED` rejects, and every other text is refused and changes nothing |
| `Approvals.DecisionRefused` | src/app/approvals.py:133-151 | a decision on an unknown or settled request changes nothing; after the deadline it expires the request, whatever its text |
| `Approvals.AskExactly` | src/app/approvals.py:87-117 | a quorum below one is refused, an existing request is returned as it is, and else the request is stored as asked for |
| `Approvals.CancelExactly` | src/app/approvals.py:197-199 | cancelling changes a pending request only, and names the status of a settled one |
| `Approvals.DeadlineIsTtl` | src/app/approvals.py:87-117 | a new pending request expires its time to live after its creation, cut to a whole second |
| `Approvals.DecisionsInTime` | src/app/approvals.py:119-195 | every recorded decision was taken before the deadline of its request |
| `Approvals.AuditLaws` | src/app/approvals.py:183-224 | with auditing on, approval events of an execution = its decisions + its expiries, on a chain that verifies |
| `Approvals.AuditTellsAll` | src/app/approvals.py:119-224 | the approval events of an execution are, one for one and in order, the votes (status, approver, reason) and expiries of the run, and the votes are the recorded decisions in order |
| `Approvals.TerminalIsFinal` | src/app/approvals.py:119-224 | settled requests never change, requests keep their terms, decisions are never taken back |
| `Approvals.SettledIsNotVotedOn` | src/app/approvals.py:119-195 | no decision is added to a settled request |
| `Approvals.ApprovalService.MakeRequest` | src/app/approvals.py:87-117 | creates a request or returns the one there is; a quorum below one is refused |
| `Approvals.ApprovalService.MakeDecision` | src/app/approvals.py:119-195 | state and outcome of a decision: unknown, settled, expired (checked before the verdict), bad verdict, or a counted vote |
| `Approvals.ApprovalService.CancelRequest` | src/app/approvals.py:197-199 | cancels a pending request only |
| `Approvals.ApprovalService.SweepExpired` | src/app/approvals.py:201-224 | the two loops expire exactly the overdue pending requests and record each |
| `Limits.TokenBucket.constructor` | src/app/limits.py:49-60 | a new bucket is full |
| `Limits.TokenBucket.Take` | src/app/limits.py:62-70 | refill, then one token or the wait until there is one |
| `Limits.TokenBucket.Refund` | src/app/limits.py:72-74 | a refund fills up to the capacity |
| `Limits.RefundUndoesTake` | src/app/limits.py:62-74 | a refund of one token gives back exactly what an admission took |
| `Limits.RefundAdmits` | src/app/limits.py:72-74 | after a refund of one token to a bucket that can hold one, the next take succeeds |
| `Limits.Conserved` | src/app/limits.py:62-74 | over every run: admitted - refunded + left is at most what was there plus what the rate earned |
| `Limits.WindowBound` | src/app/limits.py:62-74 | in every window, admitted - refunded is at most capacity + rate times its length |
| `Limits.RetryAfterIsExact` | src/app/limits.py:62-70 | after a denial with wait w, earlier tries are denied and delay nothing, and the next take succeeds exactly from then plus w on |
| `Limits.SmallCapacityNeverAdmits` | src/app/limits.py:62-70 | with a capacity below one nothing is ever admitted |
| `Limiter.TrackedExactly` | src/app/limits.py:100-129 | the tracked keys stay within `max_keys` in every run exactly when it is at least 2, or 1 with a burst below one |
| `Limiter.PruningIsUnobservable` | src/app/limits.py:100-125 | below `max_keys` busy keys, every answer in every run is that of a limiter that never forgets |
| `Limiter.CrowdedForgets` | src/app/limits.py:117-125 | at `max_keys` busy keys a new one makes it forget the oldest, who is admitted at any later time; the limiter that never forgets admits it exactly when its bucket holds a token by then |
| `Limiter.PruneExactly` | src/app/limits.py:117-125 | pruning keeps exactly the busy keys, except the oldest half of `max_keys` when there are at least `max_keys` of them; their buckets are untouched |
| `Limiter.RunValid` | src/app/limits.py:100-125 | keys and buckets stay in step, without repeats |
| `Limiter.RateLimiter.constructor` | src/app/limits.py:84-98 | a new limiter tracks nothing |
| `Limiter.Configure` | src/app/limits.py:84-98 | a rate below one per minute is refused; the burst defaults to the rate; otherwise a new limiter |
| `Limiter.RateLimiter.MakeRoom` | src/app/limits.py:117-125 | the object's pruning is the specified one |
| `Limiter.RateLimiter.Check` | src/app/limits.py:100-110 | the object's check gives the specified answer and state |
| `Limiter.RateLimiter.Refund` | src/app/limits.py:112-115 | a refund goes to the key's bucket, if it has one |
| `React.StateMachine.constructor` | src/orchestration/agent.py:92-94 | a new machine is idle |
| `React.StateMachine.Advance` | src/orchestration/agent.py:107-112 | an allowed step extends the trail, any other raises and changes nothing |
| `React.StepLinks` | src/orchestration/agent.py:665-689 | an appended step keeps the scratchpad hash-linked |
| `React.GuardComesFirst` | src/orchestration/agent.py:45-63 | behind every execution of a legal trail there is a guard, with only executions and observations in between |
| `React.EndsAreFinal` | src/orchestration/agent.py:45-63 | which states can come before and after the end, a repair and a guard |
| `React.Agent.RunTask` | src/orchestration/agent.py:507-597 | one task ends judged and recorded, waiting for the user, or raised, and never with an illegal jump; judged, its command is the next on the scratchpad, and only its command may have been executed |
| `React.Agent.RunPass` | src/orchestration/agent.py:504-608 | a pass begins the tasks in order from the first and stops at the first verdict that is not done; the scratchpad then holds their commands; an abort is among its verdicts exactly when it ends the pass |
| `React.Agent.RunPasses` | src/orchestration/agent.py:504-636 | the bounded loop over the passes: the first plan is the caller's, each later one what the planner answered, and the tasks begun are the first ones of each plan in turn |
| `React.Agent.Abort` | src/orchestration/agent.py:610-663 | an abort compensates from where the run began, exactly if the executor can, and always ends failed |
| `React.Agent.RunLoop` | src/orchestration/agent.py:482-636 | for any behaviour of planner, selector, executor and evaluator: no illegal transition, a legal trail, an end in DONE, FAILED or parked; DONE exactly when the last pass was non-empty and all done; executions = scratchpad steps; passes within the limit; the scratchpad holds the tasks begun, in order, of the caller's plan and then of the planner's, and the commands executed are among them in that order; the executor's journal and world are those of the commands run, compensated exactly after an abort, and then the world is the one the run began in if no command timed out, else the one the journal began in |
| `Journal.UndoReplays` | src/orchestration/safe_executor.py:152-173 | compensating keeps the world equal to what the live journal entries describe and leaves none live from `since` on |
| `Journal.CompensateRestores` | src/orchestration/safe_executor.py:152-173 | after `compensate(since)` the world is what the journal below `since` describes |
| `Journal.RunInStep` | src/orchestration/safe_executor.py:128-173 | in every run the world is the one the live entries describe |
| `Journal.CompensateRestoresStart` | src/orchestration/safe_executor.py:152-173 | compensating from where a run began restores that world, if no earlier entry was undone meanwhile |
| `Journal.EarlierStays` | src/orchestration/safe_executor.py:152-173 | which is so when nothing times out and nobody compensates earlier entries |
| `Journal.UndoneRunEndsAt` | src/orchestration/safe_executor.py:128-173 | compensating a run of commands leaves the world where the run began if none timed out, and where the journal began if one did |
| `Journal.UndoKeepsEarlier` | src/orchestration/safe_executor.py:152-173 | compensating does not touch the journal below `since` |
| `Journal.TimeoutUndoesEverything` | src/orchestration/safe_executor.py:366-381 | a timeout takes the world back to where the journal began |
| `Journal.NewestFirstOrder` | src/orchestration/safe_executor.py:152-173 | the list undone by one call descends strictly and holds exactly the live entries from `since` on |
| `Journal.UndoOrder` | src/orchestration/safe_executor.py:152-173 | one call undoes that list, in that order |
| `Journal.AtMostOnce` | src/orchestration/safe_executor.py:128-173 | over every run no entry is undone twice, and only entries that succeeded or timed out are |
| `Journal.SafeExecutor.Pending` | src/orchestration/safe_executor.py:154-162 | the collecting loop finds exactly the live entries from `since` on, oldest first |
| `Journal.SafeExecutor.Compensate` | src/orchestration/safe_executor.py:152-173 | the reversed loop does what the definition says |
| `Journal.SafeExecutor.Run` | src/orchestration/safe_executor.py:366-381 | append, run, close, and compensate everything on a timeout |
| `Planner.FirstFree` | src/orchestration/offline_planner.py:111-118 | there is always a free candidate, and it extends the base |
| `Planner.Unique` | src/orchestration/offline_planner.py:111-118 | the loop terminates for every finite set of taken ids and returns the first free candidate |
| `Planner.DashedRuns` | src/orchestration/offline_planner.py:105-108 | slug characters stay and each longest run of others becomes one dash |
| `Planner.SlugShape` | src/orchestration/offline_planner.py:105-108 | an id part holds slug characters only, with no dash at an end, or is the fallback; a text like that stays as it is |
| `Planner.FolderNodes` | src/orchestration/offline_planner.py:126-140 | one step per folder, in order, with distinct ids |
| `Planner.BuildWorkspace` | src/orchestration/offline_planner.py:165-202 | root, folders and README, all waiting for the root, distinct ids |
| `Planner.BuildInstall` | src/orchestration/offline_planner.py:204-217 | the install step depends on the approval step in front of it |
| `Planner.BuildSteps` | src/orchestration/offline_planner.py:143-249 | the steps of each intent, with distinct ids and dependencies on earlier steps only |
| `PlannerShell.QuoteStandsFor` | src/orchestration/offline_planner.py:160 | a quoted word stands for exactly the text it was made from, with nothing left for the shell to expand |
| `PlannerShell.WriteParses` | src/orchestration/offline_planner.py:150-163 | writing a file parses to a `printf` of the quoted content redirected to the quoted path |
| `PlannerShell.FolderStepParses` | src/orchestration/offline_planner.py:126-140 | a folder step parses to `mkdir -p` of the quoted path, its compensation to `rmdir` of it |
| `PlannerShell.RemoveParses` | src/orchestration/offline_planner.py:161 | the compensation of a write parses to `rm -f` of the quoted path |
| `PlannerShell.ListParses` | src/orchestration/offline_planner.py:238-248 | listing parses to `ls -la` of the quoted path |
| `PlannerShell.MetricsParse` | src/orchestration/offline_planner.py:224-236 | each metric's text parses to its command, and any other metric has none |
| `PlannerShell.FoldersMean` | src/orchestration/offline_planner.py:126-148 | each folder asked for is made by its own step, and removed when undone |
| `PlannerShell.FileMeans` | src/orchestration/offline_planner.py:150-163 | the text asked for is written to the file asked for, and the file removed when undone |
| `PlannerShell.WorkspaceMeans` | src/orchestration/offline_planner.py:165-202 | a workspace is its root, a step for each folder, and last a README headed by its name |
| `PlannerShell.WorkspaceFoldersMean` | src/orchestration/offline_planner.py:165-190 | the folders are made inside the root |
| `PlannerShell.InstallMeans` | src/orchestration/offline_planner.py:204-217 | behind an approval, the install template gets one word that stands for the application asked for |
| `PlannerShell.ReportsMean` | src/orchestration/offline_planner.py:219-249 | commands run as given, metrics by their command, directories are listed by a quoted path |
| `Planner.Acyclic` | src/orchestration/intents.py:206-208 | no walk along the dependencies returns to where it was |
| `Planner.CompleteExactly` | src/orchestration/intents.py:236-249 | a request is complete exactly when no required slot of its intent is missing or blank |
| `Planner.FromSlots` | src/orchestration/offline_planner.py:300-358 | a plan is executable exactly when complete, confident and within the limit; it then has between 1 and `max_steps` steps, well-formed |
| `Memory.RoundedNear` | src/memory/reputation.py:42-58 | rounding moves a score by at most half a hundredth and stays in range |
| `Memory.RoundedExactly` | src/memory/reputation.py:42-58 | a score is rounded to the nearest hundredth, of two equally near ones to the even one |
| `Memory.FormulaHolds` | src/memory/reputation.py:27-58 | on every possible history the clamps do not act: the reputation is the documented weighted sum, rounded, within 0..100 |
| `Memory.RefusedExactly` | src/memory/states.py:30-59 | an episode is refused exactly when a public plan succeeds |
| `Memory.HistoryLawful` | src/memory/store.py:211-253 | over every history: counters count the accepted episodes, the stored reputation is theirs, and the state is exactly what the last two outcomes and the reputation make it |
| `Memory.RatingsCounted` | src/memory/reputation.py:76-92 | the rating counters are sum and number of the ratings within 0..5 that the accepted episodes gave |
| `Memory.ReputationOfHistory` | src/memory/reputation.py:27-58 | so the reputation after any history is the documented formula on its accepted outcomes and ratings |
| `Memory.PublicIsProven` | src/memory/states.py:62-78 | public implies reputation at least 60 and two successes in a row |
| `Memory.FailureQuarantines` | src/memory/states.py:62-78 | a failure quarantines, and two further accepted successes come before reuse |
| `Memory.MemoryStore.RecordEpisode` | src/memory/store.py:211-253 | the stored item afterwards, or an unknown item, or a refused transition with nothing changed |

## Left out

- ShellLexer.Tokenize: `str.isalpha` and case folding, where the guard uses them, are modelled on ASCII.
- ShellParserLoops.SplitAssignments: the first letter of a name is an ASCII letter or an underscore; other alphabets are not modelled.
- Anchor.AcceptsExactly: the signature is any function of key and document; nothing about HMAC itself is claimed.
- Anchor.MismatchIsNamed: names all chains that differ; the source cuts each list to its first three.
- Planner.BuildSteps: ids are tied to their base names and to each other, not to the exact suffix, except in `Planner.Unique`.
- Memory.MemoryStore.RecordEpisode: event rows, time stamps and the text of the detail are not modelled.
- Hashes are arbitrary functions with fixed-length results; "the same unless two named texts collide" stands in for collision resistance.
- Floating point: tokens, waits and scores are real numbers; rounding error is not modelled.
- Broker message ids are natural numbers for `n-0`; events carry no uuid, source or time stamp; Redis key expiry and streams other than one are left out.
- Timing of retries (back-off), `serve` and `stop`, and concurrency inside one runner; the dispatcher is only the source of step events and of its own failures.
- The guard's expansion and glob bonus and its queries about installed packages are parameters.
- A crash between an approval's commit and its audit record; with one, the audit count can lag by one.
- Concurrent calls of `compensate`; the at-most-once law is about sequential runs.
- `compensation_for`, `step_timeout`, the policy service, slot extraction, intent rules, consent, scrubbing, embeddings and retrieval: their tables, conditionals and regular expressions are not modelled; where another part needs one it is a parameter.
- The state machine's `reset`, reply texts and progress callbacks of the run loop; what a user's confirmation does later.
- Web routers, settings, tokens and passwords, user interface, terminal and sandbox.
