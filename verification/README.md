# Skynet: models and proofs

Dafny models of six parts of the Skynet repository, each in the form its source has, with proofs of
what each part is for.

* **LPeg** (`Peg*.dfy`): parsing expression grammars have a meaning of their own (`PegTree.Match`); the
  static analyses are sound for it; the code generator, a class that appends instructions and patches
  labels, produces code for the parsing machine that has this meaning, also after the peephole pass;
  the grammar check makes every match end, with the exact condition under which it does, and keeps the
  recursions of the analyses within a fixed depth of calls, so that there is one compiled code. The check
  refuses nothing else (`PegComplete.dfy`): a refused grammar has a rule that leads back to itself without
  advancing, or repeats what may match the empty string; and the compiler saves what it is meant to save
  (`PegEconomy.dfy`): backtrack entries, calls in last position, jumps to jumps. `PegListings.dfy` has the
  code of typical patterns.
* **Timer** (`TimerWheel.dfy`): the hierarchical timing wheel, a class with 256 + 4 * 64 lists, fires
  every event at exactly the tick its delay names, in order, through cascades and the wrap at 2^32, with
  additions between any two sections that the timer thread spends under the lock.
* **Messages** (`MessageQueue.dfy`, `Dispatch.dfy`, `DispatchRuns.dfy`, `Contexts.dfy`): the ring of a
  service, a class over an array, and when its overload is reported; the scheduling protocol, a state
  machine over any number of threads in which every section under a lock and every atomic operation is one
  step; what a launch, a failed launch, a kill, a send and one dispatch of a worker lead to; and what it
  means for the contexts of services.
* **Sockets** (`Tcp*.dfy`): one TCP connection. `TcpSocket.dfy` has the write lists and the loops over
  them as a class; `TcpProtocol.dfy` is the state machine of any number of senders and the socket
  thread, in which every read of a shared field and every system call is one step and a write takes
  any part of what it is offered. The other files prove, for every run, order, wholeness of the
  stream, conservation and the rules of closing; `TcpTheorem.dfy` and `TcpTearing.dfy` have the results.
  `TcpProgress.dfy` and `TcpDelivery.dfy` say what a request to close, an event and a send lead to.
* **Decimal digits** (`Bits.dfy`, `BigWords.dfy`, `Bigints.dfy`, `PowersOfFive.dfy`, `Quotients.dfy`,
  `DecimalDigits.dfy`): the big integers of `dtoa.c`, a class over an array of 32-bit words that the
  loops update in place with 64-bit intermediates, stand for exact integers; the quotient of two words,
  corrected once, is the exact digit; and the digits of modes 2 and 3 are the quotient rounded to the
  nearest, ties to even, in every case of the number of digits asked for.
* **Cryptography** (`PowerModP.dfy`, `Des.dfy`, `DesBits.dfy`): the key exchange in wrapping 64-bit
  arithmetic, and DES for every set of S-boxes, key schedule, text and padding: its blocks are, bit for bit,
  those of FIPS 46-3, and decryption is the inverse of encryption.

Where the code does not do what its comments or its own assertions suggest, the model follows the code:

* `verifyrule` returns `nullable(tree)` at a sub-grammar and so drops the pending answer `nb`, which its
  comment says makes the function return true. A left-recursive grammar can be accepted this way.
  `PegGrammar.SafeToEmbedIff` says exactly when a sub-grammar is harmless.
* `force_close` frees the write lists before it takes the lock. A sender that holds the lock then finds
  the lists empty and may write after a package that was sent in part. `TcpTearing.RunTearsIff` says, on
  the fields of the socket, when a forced close can lead to this and when it cannot,
  `TcpTearing.ForcedCloseCanTear` gives a run, and `TcpTheorem.WireInLine` holds in every state before a
  forced close begins.
* `skynet_context_new` goes on with the context after it has given up its reference. A service that is
  killed meanwhile is gone by then: `Contexts.LaunchCanBeLate` says how, and `Contexts.ContextsSafe` that
  every other access to a context is in time.
* `powmodp` reduces a base above P but not P itself: `powmodp(P, 1)` is P (`PowerModP.PowModP`).
* `cmp` does not find two zeros of different numbers of words equal (`Bigints.Cmp`), and `multadd` with a
  summand does not count the word of a number that has none (`Bigints.MultAdd`); `quorem` can leave such a
  number. The digit loop comes to neither.
* `padding_remove_pkcs7` reads as many bytes back as the last byte says, before it is checked
  (`Des.RemovePkcs7` says when it stays inside the buffer).

## Model

| member | source | states |
|---|---|---|
| PegTree.DepthIrrelevant | project/skynet/3rd/lpeg/lpvm.c:149-360 | a match that ends has one answer, whatever the depth of calls allowed: the reference meaning of patterns is a partial function |
| PegAnalysis.NotNullableConsumes | project/skynet/3rd/lpeg/lpcode.c:196-230 | a pattern that `checkaux` calls not nullable never succeeds without consuming a character |
| PegAnalysis.NofailNeverFails | project/skynet/3rd/lpeg/lpcode.c:196-230 | a pattern that `checkaux` calls nofail never fails, on any subject |
| PegAnalysis.FixedLenExact | project/skynet/3rd/lpeg/lpcode.c:236-273 | every match of a pattern for which `fixedlen` gives n consumes exactly n characters |
| PegAnalysis.FirstSound | project/skynet/3rd/lpeg/lpcode.c:294-370 | if the next character is outside the first set, the pattern fails, or it consumes nothing and the character is outside the follow set |
| PegAnalysis.FirstFailsAtEnd | project/skynet/3rd/lpeg/lpcode.c:294-370 | if `getfirst` answers 0, the pattern fails at the end of the subject |
| PegAnalysis.FirstMonotone | project/skynet/3rd/lpeg/lpcode.c:294-370 | a larger follow set gives a larger first set and the same answer |
| PegAnalysis.HeadFailAllowsTest | project/skynet/3rd/lpeg/lpcode.c:377-399 | for a headfail pattern `getfirst` answers 0, so that a test instruction can stand for it |
| PegAnalysis.HeadFailExact | project/skynet/3rd/lpeg/lpcode.c:377-399 | a headfail pattern cannot fail when the next character is in its first set |
| PegAnalysis.HeadFailIff | project/skynet/3rd/lpeg/lpcode.c:377-399 | a headfail pattern fails exactly when the next character is not in its first set |
| PegMachine.ResultUnique | project/skynet/3rd/lpeg/lpvm.c:149-360 | the machine halts with at most one answer |
| PegMachine.StepKeeps | project/skynet/3rd/lpeg/lpvm.c:149-360 | one instruction does not change what the machine will answer |
| PegCorrect.GenCorrect | project/skynet/3rd/lpeg/lpcode.c:919-944 | entered at any position, with any stack and any continuation that fails outside the follow set, the code of a pattern has the effect of the match of the pattern |
| PegCorrect.SeqCorrect | project/skynet/3rd/lpeg/lpcode.c:899-911 | sequence: the first set of the second part is a sound follow set for the first, and the test is passed on only over parts of length 0 |
| PegCorrect.TestedChoiceCorrect | project/skynet/3rd/lpeg/lpcode.c:677-712 | a choice decided by a test, without backtrack entry, means the ordered choice when the first sets are disjoint or the first part is headfail |
| PegCorrect.ReusedChoiceCorrect | project/skynet/3rd/lpeg/lpcode.c:677-712 | an optional last part may reuse the choice of its caller by a partial commit |
| PegCorrect.FullChoiceCorrect | project/skynet/3rd/lpeg/lpcode.c:677-712 | the choice with a backtrack entry, with and without a test before it |
| PegCorrect.TestedRepCorrect | project/skynet/3rd/lpeg/lpcode.c:777-813 | a repetition without backtrack entry means the greedy repetition when the body and what follows have disjoint first sets, or the body is headfail |
| PegCorrect.FullRepCorrect | project/skynet/3rd/lpeg/lpcode.c:777-813 | the repetition with partial commits, and its reuse of a choice of the caller |
| PegCorrect.TestedNotCorrect | project/skynet/3rd/lpeg/lpcode.c:823-837 | negative look-ahead of a headfail pattern by one test |
| PegCorrect.FullNotCorrect | project/skynet/3rd/lpeg/lpcode.c:823-837 | negative look-ahead with a choice and a double fail |
| PegCorrect.AndCorrect | project/skynet/3rd/lpeg/lpcode.c:720-736 | positive look-ahead that goes back a fixed length, or to a saved position |
| PegCorrect.BehindCorrect | project/skynet/3rd/lpeg/lpcode.c:659-663 | look-behind |
| PegCorrect.CallCorrect | project/skynet/3rd/lpeg/lpcode.c:887-891 | a call, or a jump where the call is in tail position, runs the rule and comes back |
| PegCorrect.GrammarCorrect | project/skynet/3rd/lpeg/lpcode.c:868-884 | the code of a grammar, its rules placed one after the other and its calls corrected, means the first rule |
| PegPlacement.CorrectCallsSpec | project/skynet/3rd/lpeg/lpcode.c:844-861 | correcting calls turns exactly the open calls into calls to the rules they name, or into jumps before a return |
| PegClosed.GenClosed | project/skynet/3rd/lpeg/lpcode.c:919-944 | every label in the code of a pattern stays inside that code |
| PegPeephole.FinalTargetExact | project/skynet/3rd/lpeg/lpcode.c:641-645 | a chain of jumps that ends at all passes no jump twice, so as many steps as there are instructions find its end |
| PegPeephole.PeepholeSame | project/skynet/3rd/lpeg/lpcode.c:956-995 | the peephole pass does not change what the machine answers, on any subject from any position |
| PegPeephole.PeepAtSame | project/skynet/3rd/lpeg/lpcode.c:956-995 | one step of the pass: following jumps to jumps, and putting the target of a jump in its place |
| PegEconomy.FirstIs | project/skynet/3rd/lpeg/lpcode.c:294-370 | on patterns without predicates and calls `getfirst` gives exactly the characters with which the pattern, or what follows a pattern that may be empty, may begin |
| PegEconomy.DeterministicCode | project/skynet/3rd/lpeg/lpcode.c:677-813 | a pattern whose alternatives and repetitions are told apart by one character is compiled without any backtrack entry |
| PegEconomy.GrammarTailCalls | project/skynet/3rd/lpeg/lpcode.c:841-881 | a call with nothing but jumps to a return after it becomes a jump |
| PegEconomy.PeepholeSettles | project/skynet/3rd/lpeg/lpcode.c:947-996 | after the pass no label is on a jump, and no jump leads to an instruction that could stand in its place, unless that chain of jumps never ends |
| PegListings.Sets | project/skynet/3rd/lpeg/lpcode.c:588-613 | the code, instruction by instruction: sets of one, of no and of all characters, and spans |
| PegListings.NotByTest | project/skynet/3rd/lpeg/lpcode.c:823-837 | the code, instruction by instruction: !'a', !. and ![cs] are one test and a failure |
| PegListings.NotPart | project/skynet/3rd/lpeg/lpcode.c:377-399 | the code, instruction by instruction: and so is the negation of any pattern that fails by its first character alone: behind a predicate, a choice, a call or a grammar |
| PegListings.Predicates | project/skynet/3rd/lpeg/lpcode.c:720-736 | the code, instruction by instruction: !('a' 'b') with a double fail, &('a' 'b') by stepping back two characters, and &[cs]* with a back commit |
| PegListings.AndLengths | project/skynet/3rd/lpeg/lpcode.c:720-736 | a positive look-ahead of fixed length steps back if the length fits into a byte, and saves its position otherwise |
| PegListings.HeadDecides | project/skynet/3rd/lpeg/lpcode.c:677-712 | the code, instruction by instruction: 'a' [cs]* / [cs] is decided by one test although both sides may begin alike, and what has been tested is not tested again |
| PegListings.DisjointDecides | project/skynet/3rd/lpeg/lpcode.c:677-712 | the code, instruction by instruction: [cs] 'b' / 'c' 'b' is decided by one test because the sides begin differently |
| PegListings.TestReaches | project/skynet/3rd/lpeg/lpcode.c:899-911 | the code, instruction by instruction: a test spares the ones after parts that consume nothing |
| PegListings.Repetitions | project/skynet/3rd/lpeg/lpcode.c:777-813 | the code, instruction by instruction: ('a' 'b')* needs an entry before anything, and none before 'c' |
| PegListings.Options | project/skynet/3rd/lpeg/lpcode.c:677-712 | the code, instruction by instruction: ('a' 'b' ('c' 'd')?)? uses one entry for both options |
| PegListings.NarrowedByNot | project/skynet/3rd/lpeg/lpcode.c:294-370 | the code, instruction by instruction: the test of (!'b' . 'c')* leaves out 'b' |
| PegListings.NarrowedByAnd | project/skynet/3rd/lpeg/lpcode.c:294-370 | the code, instruction by instruction: the test of (&[cs] . 'c')* asks for [cs] |
| PegCompiler.CompileState.CodeGen | project/skynet/3rd/lpeg/lpcode.c:919-944 | appends the code that the specification gives for the pattern, and changes nothing before it |
| PegCompiler.CompileState.CodeSeq1 | project/skynet/3rd/lpeg/lpcode.c:899-911 | appends the code of the first part and says which test still holds for the second |
| PegCompiler.CompileState.CodeChoice | project/skynet/3rd/lpeg/lpcode.c:677-712 | the three schemas of choice, with their labels patched in place |
| PegCompiler.CompileState.CodeRep | project/skynet/3rd/lpeg/lpcode.c:777-813 | the schemas of repetition, with their labels patched in place |
| PegCompiler.CompileState.CodeNot | project/skynet/3rd/lpeg/lpcode.c:823-837 | the schemas of negative look-ahead |
| PegCompiler.CompileState.CodeAnd | project/skynet/3rd/lpeg/lpcode.c:720-736 | the schemas of positive look-ahead |
| PegCompiler.CompileState.CodeTestSet | project/skynet/3rd/lpeg/lpcode.c:614-635 | appends a test instruction unless the pattern accepts the empty string |
| PegCompiler.CompileState.CodeSetInstr | project/skynet/3rd/lpeg/lpcode.c:588-605 | the cheapest instruction for a set, or none where the test already made decides |
| PegCompiler.CompileState.CodeGrammar | project/skynet/3rd/lpeg/lpcode.c:868-884 | call to the first rule, the rules, and all calls corrected |
| PegCompiler.CompileState.FindFinalTarget | project/skynet/3rd/lpeg/lpcode.c:641-645 | the loop finds the end of the chain of jumps, however long; where the chain never ends, and the source would not stop, it stays in it |
| PegCompiler.CompileState.CorrectCallsInPlace | project/skynet/3rd/lpeg/lpcode.c:844-861 | the loop over the array is the recursive correction of the code |
| PegCompiler.CompileState.Peephole | project/skynet/3rd/lpeg/lpcode.c:956-995 | the loop over the array is the recursive peephole pass |
| PegCompiler.Compile | project/skynet/3rd/lpeg/lpcode.c:1001-1010 | the compiled program: code, end instruction, peephole |
| PegCompiler.GeneratedCorrect | project/skynet/3rd/lpeg/lpcode.c:919-944 | before the peephole pass the machine answers what the pattern means |
| PegCompiler.CompiledCorrect | project/skynet/3rd/lpeg/lpcode.c:1001-1010 | compiling preserves meaning: on every subject, from every position, the machine running the compiled pattern halts with the end of the match, or with failure if there is none |
| PegGrammar.AnswerRightIff | project/skynet/3rd/lpeg/lptree.c:1002-1042 | over a verified sub-grammar the answer of `verifyrule` is right, a part of a rule answered as not passing never succeeds without advancing, exactly when the sub-grammar may match the empty string |
| PegGrammar.KeptChecksSuffice | project/skynet/3rd/lpeg/lptree.c:1045-1063 | if the pending answer is kept at sub-grammars, the checks suffice for every match to end |
| PegGrammar.SourceChecksSuffice | project/skynet/3rd/lpeg/lptree.c:1045-1063 | the checks as they are suffice when sub-grammars inside rules are nullable |
| PegGrammar.SafeToEmbedIff | project/skynet/3rd/lpeg/lptree.c:1002-1042 | a verified sub-grammar is safe inside accepted grammars exactly when it is nullable: `verifyrule` drops the pending answer at a sub-grammar, so otherwise a left-recursive grammar is accepted |
| PegGrammar.LoopAccepted | project/skynet/3rd/lpeg/lptree.c:1002-1042 | the grammar S <- !G S is accepted for every verified G that is not nullable |
| PegGrammar.LoopDiverges | project/skynet/3rd/lpeg/lptree.c:1002-1042 | and its match on the empty subject never ends |
| PegGrammar.LoopExample | project/skynet/3rd/lpeg/lptree.c:1002-1042 | so it is with G <- 'a' |
| PegGrammar.KeptIsStricter | project/skynet/3rd/lpeg/lptree.c:1002-1042 | keeping the pending answer only rejects more |
| PegComplete.RefusedIsRecursive | project/skynet/3rd/lpeg/lptree.c:952-1042 | a rule refused as left recursive leads, by calls made before anything is consumed, to a rule that leads back to itself; for any grammar of at most MAXRULES rules, with the check of the source too |
| PegComplete.RefusedIff | project/skynet/3rd/lpeg/lptree.c:1002-1042 | with pending answers kept, a rule is refused exactly if it does |
| PegComplete.LoopsIff | project/skynet/3rd/lpeg/lptree.c:952-974 | `checkloops` finds a loop exactly if some repetition has a body that `nullable` holds of |
| PegComplete.GoodAccepted | project/skynet/3rd/lpeg/lptree.c:1045-1063 | a grammar in which no rule leads back to itself and no used rule repeats a nullable body is accepted, by the check of the source too |
| PegComplete.VerifiedIff | project/skynet/3rd/lpeg/lptree.c:1045-1063 | with pending answers kept exactly these grammars are accepted |
| PegComplete.SourceVerifiedIff | project/skynet/3rd/lpeg/lptree.c:1045-1063 | and so it is with the check of the source when sub-grammars inside rules are nullable |
| PegComplete.AdvancingAccepted | project/skynet/3rd/lpeg/lptree.c:1002-1042 | S <- . S and S <- . S / 'a' are accepted |
| PegComplete.CheckIff | project/skynet/3rd/lpeg/lpcode.c:196-230 | `nullable` and `nofail` hold exactly if the pattern matches the empty subject once every predicate is taken to pass, or, for `nofail`, the predicates that may fail are taken to fail |
| PegComplete.FixedLenIff | project/skynet/3rd/lpeg/lpcode.c:236-273 | `fixedlen` gives n exactly if n is the only number of characters that the parts of the pattern add up to |
| PegBuild.MkSeqSame | project/skynet/3rd/lpeg/lptree.c:532-542 | the simplified sequence matches the same |
| PegBuild.MkChoiceSame | project/skynet/3rd/lpeg/lptree.c:551-566 | the simplified choice matches the same, also where one part is dropped because the first never fails |
| PegBuild.MkSubSame | project/skynet/3rd/lpeg/lptree.c:627-646 | the difference of two patterns, also as a difference of two sets |
| PegBuild.AtLeastMatches | project/skynet/3rd/lpeg/lptree.c:572-602 | the tree for at least n repetitions matches n or more repetitions greedily |
| PegBuild.AtMostMatches | project/skynet/3rd/lpeg/lptree.c:572-602 | the tree for at most n repetitions matches up to n repetitions greedily |
| PegBuild.RotateSame | project/skynet/3rd/lpeg/lptree.c:78-90 | correcting associativity keeps the meaning |
| PegBuild.FinalFixAssociates | project/skynet/3rd/lpeg/lptree.c:100-126 | afterwards no sequence has a sequence as its first part, and no choice a choice |
| PegBuild.FinalFixSame | project/skynet/3rd/lpeg/lptree.c:100-126 | and every match is the same as before |
| PegBuild.FinalFixWf | project/skynet/3rd/lpeg/lptree.c:100-126 | calls still name rules and look-behinds still record the length of their bodies |
| PegTheorem.AcceptedPatternRuns | project/skynet/3rd/lpeg/lptree.c:1045-1109 | a pattern whose grammars pass the check with the pending answer kept, right-associated and compiled, halts on every subject with the answer that the pattern means |
| PegTheorem.SourcePatternRuns | project/skynet/3rd/lpeg/lptree.c:1045-1109 | so does a pattern that the check of the source accepts, if the sub-grammars inside its rules may match the empty string |
| PegDepth.NullableAnswered | project/skynet/3rd/lpeg/lptree.c:1002-1042 | what `checkaux` finds nullable `verifyrule` answers as passing, so it has looked at whatever `checkaux` looks at |
| PegDepth.PartAllEnd | project/skynet/3rd/lpeg/lpcode.c:196-370 | on every part of a checked grammar the recursions of `checkaux` and `getfirst` end within the calls that the check has left |
| PegDepth.PartHeadEnds | project/skynet/3rd/lpeg/lpcode.c:377-399 | and that of `headfail` |
| PegDepth.GenSettled | project/skynet/3rd/lpeg/lpcode.c:919-944 | once all analyses have ended the code is the same for every larger depth |
| PegDepth.CompiledSettles | project/skynet/3rd/lpeg/lpcode.c:1001-1010 | for a pattern whose grammars pass the check there is a depth that no recursion of the analyses exceeds, and the compiled code is the one of the source from there on |
| PegTheorem.SourceCodeRuns | project/skynet/3rd/lpeg/lptree.c:1045-1109 | that code, of the right-associated pattern, halts on every subject from every position with the answer that the pattern means |
| Bits.MasksCompareLeadingBits | project/skynet/skynet-src/skynet_timer.c:67-86 | two times agree when or-ed with a mask of k ones exactly when they agree above the k lowest bits |
| TimerWheel.MaskBits | project/skynet/skynet-src/skynet_timer.c:111-132 | the masks of `timer_shift` ask for the remainder by the weight of a level |
| TimerWheel.MaskOf | project/skynet/skynet-src/skynet_timer.c:67-86 | so the comparisons of `add_node`, mask by mask, ask whether two times lie in one block of a level |
| TimerWheel.OnlyCascadedMove | project/skynet/skynet-src/skynet_timer.c:111-132 | when time advances, a pending node belongs to another list exactly if it is in the list that is moved down |
| TimerWheel.CascadeFound | project/skynet/skynet-src/skynet_timer.c:111-132 | the loop of `timer_shift` finds that list |
| TimerWheel.ShiftedPending | project/skynet/skynet-src/skynet_timer.c:111-132 | moving a list down keeps, for every expiry time, the nodes and their order |
| TimerWheel.ShiftedPlaced | project/skynet/skynet-src/skynet_timer.c:111-132 | after a shift every pending node is again in the list that `add_node` would choose |
| TimerWheel.TickDue | project/skynet/skynet-src/skynet_timer.c:165-178 | one tick: what is due now is the near list, and everything else is due one tick sooner |
| TimerWheel.Timer.AddNode | project/skynet/skynet-src/skynet_timer.c:67-86 | puts a node at the end of the list for its expiry time |
| TimerWheel.Timer.Add | project/skynet/skynet-src/skynet_timer.c:88-99 | a node added with delay d is, after the others, among those due in d ticks |
| TimerWheel.Timer.MoveList | project/skynet/skynet-src/skynet_timer.c:101-109 | re-adds the nodes of a list in order |
| TimerWheel.Timer.Shift | project/skynet/skynet-src/skynet_timer.c:111-132 | advances the time by one with wrap-around at 2^32 and moves at most one list down |
| TimerWheel.Timer.TakeDue | project/skynet/skynet-src/skynet_timer.c:152-163 | one look at the near list takes exactly the nodes due now, in the order of insertion |
| TimerWheel.Timer.Tick | project/skynet/skynet-src/skynet_timer.c:165-178 | takes exactly the nodes due at the next tick, and leaves every other node one tick nearer |
| TimerWheel.Timer.Section | project/skynet/skynet-src/skynet_timer.c:152-178 | each time the timer thread holds the lock it either ticks or, after a dispatch, finds nothing more and ends the update |
| TimerWheel.RunAll | project/skynet/skynet-src/skynet_timer.c:88-178 | over every interleaving of additions with the sections of the timer thread, also during dispatch, the n-th tick fires exactly the events whose delay, counted from the tick under way when they were added, ends there, in order, through every cascade and the wrap |
| MessageQueue.ViewPop | project/skynet/skynet-src/skynet_mq.c:137-172 | taking the head of the ring takes the first message |
| MessageQueue.ViewPush | project/skynet/skynet-src/skynet_mq.c:189-209 | storing at the tail of the ring appends the message |
| MessageQueue.MessageQueue.constructor | project/skynet/skynet-src/skynet_mq.c:77-96 | a new queue is empty and marked as being in the global list |
| MessageQueue.MessageQueue.Length | project/skynet/skynet-src/skynet_mq.c:111-125 | the length computed from head, tail and capacity is the number of messages |
| MessageQueue.MessageQueue.Pop | project/skynet/skynet-src/skynet_mq.c:137-172 | takes the first message, or clears the global mark when there is none |
| MessageQueue.MessageQueue.NoteLength | project/skynet/skynet-src/skynet_mq.c:150-159 | notes a length above the threshold t, which becomes the first of t, 2 t, 4 t and so on that is no less than the length |
| MessageQueue.MessageQueue.TakeOverload | project/skynet/skynet-src/skynet_mq.c:127-135 | reports a noted overload once |
| MessageQueue.LeastOnce | project/skynet/skynet-src/skynet_mq.c:150-159 | there is only one such number |
| MessageQueue.LimitOfRun | project/skynet/skynet-src/skynet_mq.c:137-172 | after any run the threshold is the first of 1024, 2048, 4096 and so on that is no less than all lengths since the queue was last found empty |
| MessageQueue.OverloadReported | project/skynet/skynet-src/skynet_mq.c:127-172 | in any run `skynet_mq_overload` answers with a length exactly if some length was above the threshold of its time and has not been asked for since, and with the last of these |
| MessageQueue.MessageQueue.Expand | project/skynet/skynet-src/skynet_mq.c:174-187 | doubling the ring keeps the messages and their order |
| MessageQueue.MessageQueue.Push | project/skynet/skynet-src/skynet_mq.c:189-209 | appends a message and says whether the queue must enter the global list |
| MessageQueue.MessageQueue.MarkRelease | project/skynet/skynet-src/skynet_mq.c:219-228 | marks the queue for release and says whether it must enter the global list |
| Dispatch.PushKeeps | project/skynet/skynet-src/skynet_mq.c:189-209 | pushing keeps what holds of a service: it is in the list, owned or idle, and idle means empty |
| Dispatch.ReleaseKeeps | project/skynet/skynet-src/skynet_server.c:221-228 | giving up a reference keeps the count exact and makes exactly one thread delete the context |
| Dispatch.MarkKeeps | project/skynet/skynet-src/skynet_server.c:208-219 | deleting a context makes sure its queue is in the list or owned |
| Dispatch.PopKeeps | project/skynet/skynet-src/skynet_mq.c:137-172 | popping from an empty queue makes it idle, and only its owner does so |
| Dispatch.DropKeeps | project/skynet/skynet-src/skynet_mq.c:230-250 | dropping the queue delivers nothing and frees it when empty |
| Dispatch.StepKeepsInv | project/skynet/skynet-src/skynet_server.c:125-353 | every step of every thread keeps the invariant of references, ownership and messages |
| Dispatch.RunKeepsInv | project/skynet/skynet-src/skynet_server.c:125-353 | so does every run of any number of threads |
| Dispatch.OneRunner | project/skynet/skynet-src/skynet_server.c:298-353 | at most one thread runs a service |
| Dispatch.NoUseAfterFree | project/skynet/skynet-src/skynet_mq.c:230-250 | a queue is never locked or freed after it has been freed |
| Dispatch.NothingStranded | project/skynet/skynet-src/skynet_server.c:298-353 | a queue with messages, or released, is in the global list or owned by a thread |
| Dispatch.ListedOnce | project/skynet/skynet-src/skynet_mq.c:43-75 | the global list holds a queue at most once, and not while a thread owns it |
| Dispatch.InOrderAndOnce | project/skynet/skynet-src/skynet_server.c:298-353 | what was pushed has left, is being delivered or is queued, in order and once; messages are dropped only after the last reference is gone |
| Dispatch.FreedForGood | project/skynet/skynet-src/skynet_mq.c:230-250 | once freed, a queue is not touched by any later step |
| Dispatch.DispatchSafe | project/skynet/skynet-src/skynet_server.c:125-353 | in every state of every run: one runner, no use after free, nothing stranded, listed once and not while owned, messages in order and once, dropped only after the last reference is gone, and untouched by every further run once freed |
| DispatchRuns.LaunchLeads | project/skynet/skynet-src/skynet_server.c:125-170 | a launch that succeeds leaves the service registered, marked as launched, with one reference, and its queue once in the global list |
| DispatchRuns.FailLeads | project/skynet/skynet-src/skynet_server.c:171-182 | a launch that fails leaves the handle unregistered and the service not launched; without other references all messages are dropped in order and the queue is freed, otherwise the queue goes to the list without the creator's reference |
| DispatchRuns.LaunchedOnlyBySuccess | project/skynet/skynet-src/skynet_server.c:160-182 | in every run a service becomes launched only if its creator has found that its init function succeeded |
| DispatchRuns.InitMeansSuccess | project/skynet/skynet-src/skynet_server.c:160-182 | and so from the start of the system |
| DispatchRuns.KillLeads | project/skynet/skynet-src/skynet_server.c:208-228 | killing retires the handle; the last reference releases the queue and lists it, so that a worker frees it |
| DispatchRuns.SendLeads | project/skynet/skynet-src/skynet_server.c:230-243 | a message to a registered service is the last in its queue, which is in the list if nobody had it; another message goes nowhere |
| DispatchRuns.FetchLeads | project/skynet/skynet-src/skynet_server.c:298-310 | a worker takes the first queue of the list: it runs a registered service, frees a released queue, and puts another one back |
| DispatchRuns.BatchLeads | project/skynet/skynet-src/skynet_server.c:312-344 | one dispatch delivers, in order, one message, or at a weight w the length that is left after the first one divided by 2^w, but at least one; an empty queue goes out of service |
| DispatchRuns.AfterLeads | project/skynet/skynet-src/skynet_server.c:346-353 | after a dispatch the queue goes to the end of the list if another one waits, and is kept otherwise |
| Contexts.ContextSafe | project/skynet/skynet-src/skynet_server.c:208-353 | outside the end of a launch a thread touches a context only while it is there |
| Contexts.ContextThereIff | project/skynet/skynet-src/skynet_server.c:208-228 | a context is there exactly while it is registered, or a thread holds it or is about to delete it |
| Contexts.LaunchCanBeLate | project/skynet/skynet-src/skynet_server.c:125-182 | a launch that has given up its reference finds its context deleted if another thread kills the service and no other reference is left |
| Contexts.LaunchCanBeLateFrom | project/skynet/skynet-src/skynet_server.c:125-182 | and a run from the start leads to this |
| Contexts.StepKeepsInit | project/skynet/skynet-src/skynet_server.c:125-353 | every step of every thread keeps the queue of a service that is not launched yet out of the hands of the workers |
| Contexts.ContextsSafe | project/skynet/skynet-src/skynet_server.c:125-353 | in every run: the assertion of `dispatch_message` that the context has been launched holds, and both of the above |
| TcpSocket.SendListConserves | project/skynet/skynet-src/socket_server.c:713-742 | whatever the kernel takes, bytes sent and bytes left are the bytes that were queued, in order |
| TcpSocket.SendBothInOrder | project/skynet/skynet-src/socket_server.c:858-917 | sending sends the high list, then the low list, loses nothing unless a write fails, closes only when all is sent, and keeps what the assertions of `send_buffer_` say |
| TcpSocket.Socket.ForceClose | project/skynet/skynet-src/socket_server.c:480-510 | frees both lists and the rest of a direct write; nothing happens to a closed socket |
| TcpSocket.Socket.CloseWrite | project/skynet/skynet-src/socket_server.c:689-710 | after a failed write: close if closing or half closed, else shut the writing side and report once |
| TcpSocket.Socket.SendListTcp | project/skynet/skynet-src/socket_server.c:713-742 | the loop does what the specification of a list of writes says, for every sequence of answers of the kernel |
| TcpSocket.Socket.RaiseUncomplete | project/skynet/skynet-src/socket_server.c:827-842 | the low head becomes the high list |
| TcpSocket.Socket.SendBuffers | project/skynet/skynet-src/socket_server.c:858-917 | the high list, then the low list, then raising or finishing |
| TcpSocket.Socket.SendBuffer | project/skynet/skynet-src/socket_server.c:919-947 | the rest of a direct write goes first |
| TcpSocket.Socket.SendSocket | project/skynet/skynet-src/socket_server.c:1007-1076 | queues a package behind the others of its priority, or turns it away |
| TcpShape.SenderKeepsShape | project/skynet/skynet-src/socket_server.c:1797-1873 | what the lock protects stays as a sender has read it |
| TcpShape.ThreadGoes | project/skynet/skynet-src/socket_server.c:1672-1750 | every step of the socket thread keeps the write lists in shape and leaves alone what a sender under the lock relies on |
| TcpOrder.WriteInOrder | project/skynet/skynet-src/socket_server.c:1806-1852 | a direct write overtakes no earlier package of its sender: the second check under the lock is what makes this true |
| TcpOrder.QueuesThins | project/skynet/skynet-src/socket_server.c:1007-1076 | queueing a package lets it overtake packages of low priority only |
| TcpOrder.SenderKeepsOrder | project/skynet/skynet-src/socket_server.c:1797-1894 | no step of a sender brings packages out of order |
| TcpOrder.ThreadKeepsOrder | project/skynet/skynet-src/socket_server.c:819-1076 | nor does a step of the socket thread |
| TcpOrder.SenderKeepsCount | project/skynet/skynet-src/socket_server.c:1306-1325 | the reference count covers every send that is under way |
| TcpStream.SenderKeepsStream | project/skynet/skynet-src/socket_server.c:1806-1852 | a direct write continues the stream of whole packages |
| TcpStream.ThreadKeepsStream | project/skynet/skynet-src/socket_server.c:713-947 | so does a write of the socket thread |
| TcpStream.DirectWriteWholeIff | project/skynet/skynet-src/socket_server.c:480-510 | a direct write keeps the stream whole exactly if it takes no byte or no forced close has discarded a package sent in part: `force_close` frees the lists before it takes the lock |
| TcpAccount.ThreadAccounts | project/skynet/skynet-src/socket_server.c:480-510 | the socket thread accounts for every package it sends, queues, turns away or discards |
| TcpControl.ThreadTalks | project/skynet/skynet-src/socket_server.c:1099-1154 | every step reports at most one event, SOCKET_CLOSE exactly when the reading side is closed by it, and closing proceeds from a request to an end |
| TcpClosing.ThreadKeepsDue | project/skynet/skynet-src/socket_server.c:1099-1154 | what had been accepted when a close was requested stays sent or stored until the end |
| TcpTheorem.StepKeeps | project/skynet/skynet-src/socket_server.c:1797-1894 | every step of every sender and of the socket thread keeps the invariant |
| TcpTheorem.SentInOrder | project/skynet/skynet-src/socket_server.c:1797-1894 | in every run no package is sent twice, sends of high priority by one sender do not overtake each other, nor do packages of one priority from the pipe |
| TcpTheorem.WireInLine | project/skynet/skynet-src/socket_server.c:713-985 | in every run, until a forced close begins, the kernel has been given whole packages and then at most the beginning of the one next in line |
| TcpTheorem.NothingLost | project/skynet/skynet-src/socket_server.c:1007-1076 | every package accepted is sent, stored, asked for, turned away or discarded, and none is turned away or discarded before closing begins or a write fails |
| TcpTheorem.ClosesOnce | project/skynet/skynet-src/socket_server.c:1105-1154 | SOCKET_CLOSE is raised at most once, exactly when the reading side is closed, and only errors are reported after it |
| TcpTheorem.CloseFlushes | project/skynet/skynet-src/socket_server.c:1105-1154 | a close request ends with everything sent that had been accepted before it, or by a failed write, a shutdown or a hang-up |
| TcpTheorem.AssertionsHold | project/skynet/skynet-src/socket_server.c:858-917 | the assertions of the source hold: the count is positive when lowered, the low head is complete when sending starts, nothing is left when it finishes |
| TcpProgress.CloseAnswered | project/skynet/skynet-src/socket_server.c:1119-1130 | in every run, a request to close that the socket thread takes raises SOCKET_CLOSE once; the socket is closed if a shutdown was asked for, if a write had failed, or if both lists are empty, no direct write has left a rest and no send is under way; otherwise it is closing and only its reading side is closed |
| TcpProgress.CloseGetsThrough | project/skynet/skynet-src/socket_server.c:1105-1130 | whatever senders and services do meanwhile, three steps of the socket thread at which it need not wait for the lock are enough for that |
| TcpProgress.EofAnswered | project/skynet/skynet-src/socket_server.c:1399-1430 | in every run, the end of the stream raises SOCKET_CLOSE unless that was done; the socket is closed if a write had failed, or if it was closing and had nothing more to send; otherwise its reading side is closed |
| TcpProgress.HangUpLeads | project/skynet/skynet-src/socket_server.c:480-510 | a peer that hangs up closes the socket and raises SOCKET_CLOSE unless that was done |
| TcpDelivery.HeardLeads | project/skynet/skynet-src/socket_server.c:1385-1460 | data is handed on unless the reading side is closed; failures are reported |
| TcpDelivery.SendLeads | project/skynet/skynet-src/socket_server.c:1797-1894 | a send of high priority is written at once if nothing is stored or under way, and what the kernel does not take is kept for the socket thread, which is woken; any other send is counted and asked for through the pipe |
| TcpDelivery.PoppedSend | project/skynet/skynet-src/socket_server.c:1007-1076 | such a package is stored behind all others, or with high priority before those of the low list; it is turned away once the socket is closing, closed or a write has failed; in both cases it is no longer under way |
| TcpDelivery.SendingFits | project/skynet/skynet-src/socket_server.c:1307-1327 | in every run the count of sends under way stays within its sixteen bits |
| TcpDelivery.WriteEvent | project/skynet/skynet-src/socket_server.c:858-947 | with a kernel that takes everything, the socket thread sends all that is stored, in order, and a closing socket is closed |
| TcpRuns.ThroughIsSendList | project/skynet/skynet-src/socket_server.c:713-742 | the single steps of the socket thread, taken together, are the loop of `send_list_tcp` |
| TcpRuns.ServedIsSendBoth | project/skynet/skynet-src/socket_server.c:858-947 | all its steps under the lock, through both lists, raising and finishing, are `send_buffer_` |
| TcpTearing.TearsIff | project/skynet/skynet-src/socket_server.c:480-510 | a forced close that begins can be followed by a write into the middle of a package exactly if the head of the high list has been sent in part, no send is under way, the socket is open both ways and some thread is not on its way to the pipe |
| TcpTearing.RunTearsIff | project/skynet/skynet-src/socket_server.c:480-510 | the same in every run of an opened socket: otherwise the stream stays whole in every continuation |
| TcpTearing.ForcedCloseCanTear | project/skynet/skynet-src/socket_server.c:480-510 | such a run exists: two senders and one shutdown suffice |
| Bigints.MultAdd | project/luaclib_src/lua-cjson/dtoa.c:612-667 | the number times m plus a, in place, with one more word where needed; with no word in use a summand is not counted |
| Bigints.Cmp | project/luaclib_src/lua-cjson/dtoa.c:1034-1066 | the sign of the difference, except for two zeros of different numbers of words |
| Bigints.Diff | project/luaclib_src/lua-cjson/dtoa.c:1068-1160 | the distance of two numbers, with the sign |
| Bigints.LShift | project/luaclib_src/lua-cjson/dtoa.c:974-1032 | the number times 2^k |
| Bigints.Mult | project/luaclib_src/lua-cjson/dtoa.c:805-915 | the exact product |
| Bits.OrAdds | project/luaclib_src/lua-cjson/dtoa.c:974-1032 | "or" adds bits that do not overlap |
| Bigints.ShiftWord | project/luaclib_src/lua-cjson/dtoa.c:974-1032 | a word shifted left leaves room for the bits shifted out of the word below, so that "or" puts them in, and none are lost |
| PowersOfFive.Powers.Get | project/luaclib_src/lua-cjson/dtoa.c:917-972 | the list of powers 5^4, 5^8, 5^16 is extended by squaring and never changes |
| PowersOfFive.Pow5Mult | project/luaclib_src/lua-cjson/dtoa.c:917-972 | the number times 5^k |
| Quotients.Estimate | project/luaclib_src/lua-cjson/dtoa.c:2119-2241 | the quotient of the words at the top is exact or one too small when the divisor has four zero bits at the top |
| Quotients.TakeMultiple | project/luaclib_src/lua-cjson/dtoa.c:2119-2241 | the loop with carry and borrow subtracts a multiple in place |
| Quotients.Quorem | project/luaclib_src/lua-cjson/dtoa.c:2119-2241 | the quotient below ten is returned and the remainder left in place; no word may be in use afterwards only if the divisor has one |
| Bits.HighMask | project/luaclib_src/lua-cjson/dtoa.c:707-739 | a mask of ones above k zeros asks whether a word is below 2^k |
| Quotients.MasksAreBounds | project/luaclib_src/lua-cjson/dtoa.c:707-739 | so the masks of `hi0bits` ask whether a word is small |
| Quotients.Hi0bits | project/luaclib_src/lua-cjson/dtoa.c:707-739 | the number of leading zero bits |
| Quotients.Dshift | project/luaclib_src/lua-cjson/dtoa.c:2106-2117 | shifted by that much more, the word at the top has exactly four zero bits |
| DecimalDigits.RoundUp | project/luaclib_src/lua-cjson/dtoa.c:4314-4322 | one more in the last place: nines at the end go, and the exponent goes up exactly when all digits were nines |
| DecimalDigits.TrimZeros | project/luaclib_src/lua-cjson/dtoa.c:4325-4329 | zeros at the end go and the number stays |
| DecimalDigits.Generate | project/luaclib_src/lua-cjson/dtoa.c:4284-4296 | the digits so far and the rest are the number, until nothing is left or enough digits are found |
| DecimalDigits.Digits | project/luaclib_src/lua-cjson/dtoa.c:4284-4329 | at most `ilim` digits, not beginning or ending with 0, the nearest to the quotient with ties to even |
| DecimalDigits.LowerExponent | project/luaclib_src/lua-cjson/dtoa.c:4160-4168 | an estimate of the exponent that was one too large is corrected |
| DecimalDigits.AboveHalf | project/luaclib_src/lua-cjson/dtoa.c:4169-4180 | no digit or a single 1, whichever is nearest, when fewer than one digit is asked for |
| DecimalDigits.Decimal | project/luaclib_src/lua-cjson/dtoa.c:4145-4329 | the digits and exponent that come out are the number rounded to the nearest at the last place asked for, ties to even, with the limit for the corrected exponent, and without digits exactly where the source says so |
| DecimalDigits.NearestOnce | project/luaclib_src/lua-cjson/dtoa.c:4284-4329 | that rounding has one result |
| PowerModP.MulModP | project/skynet/lualib-src/lua-crypt.c:795-815 | the product modulo P, with no step leaving 64 bits but the doubling that wraps and comes back |
| PowerModP.PowModP | project/skynet/lualib-src/lua-crypt.c:817-836 | the power modulo P, for every base and exponent but P to the power 1 |
| PowerModP.Public | project/skynet/lualib-src/lua-crypt.c:866-886 | the power of 5 modulo 2^64 - 59, or the error for 0 |
| PowerModP.NeverZero | project/skynet/lualib-src/lua-crypt.c:853-887 | no public key is 0, so the second step of the exchange is never refused |
| PowerModP.Exchange | project/skynet/lualib-src/lua-crypt.c:853-887 | both sides come to the same secret for all non-zero choices, and to the error otherwise |
| Des.PermutationsInverse | project/skynet/lualib-src/lua-crypt.c:206-230 | the final permutation undoes the initial one and the other way round |
| Des.AllRoundsBack | project/skynet/lualib-src/lua-crypt.c:232-246 | rounds with the keys in the order of `ldesdecode` undo as many rounds, for any S-boxes |
| Des.CryptInverse | project/skynet/lualib-src/lua-crypt.c:320-342 | decryption undoes encryption of a block |
| DesBits.IpBits | project/skynet/lualib-src/lua-crypt.c:206-218 | bit i of the permuted block is the bit of the input that the table IP of FIPS 46-3 names, for all 64 |
| DesBits.FpBits | project/skynet/lualib-src/lua-crypt.c:220-230 | and the final permutation is the inverse table |
| DesBits.FBit | project/skynet/lualib-src/lua-crypt.c:232-246 | each S-box is given the six neighbouring bits of the half that the expansion names, each with its bit of the key |
| DesBits.OneRound | project/skynet/lualib-src/lua-crypt.c:232-246 | `DES_ROUND` is one round of the standard |
| DesBits.CryptBlockBits | project/skynet/lualib-src/lua-crypt.c:320-342 | `des_crypt` enciphers a block as the standard says: IP, sixteen rounds, the halves exchanged, the inverse of IP, on bytes with the first bit in front |
| DesBits.TextBits | project/skynet/lualib-src/lua-crypt.c:461-485 | so does `ldesencode` with every block of the padded text |
| DesBits.BitsTell | project/skynet/lualib-src/lua-crypt.c:320-342 | the bits of a block determine its bytes |
| Des.TextInverse | project/skynet/lualib-src/lua-crypt.c:461-517 | and of a text, block by block |
| Des.EndsOnce | project/skynet/lualib-src/lua-crypt.c:379-418 | the length of the padding can be read from the text in one way only |
| Des.RemoveIso | project/skynet/lualib-src/lua-crypt.c:385-400 | finds the padding if and only if there is one |
| Des.RemovePkcs7 | project/skynet/lualib-src/lua-crypt.c:408-418 | what the loop answers for every last byte, and that it leaves the buffer exactly when all bytes are equal and name a number above its length |
| Des.Encode | project/skynet/lualib-src/lua-crypt.c:461-485 | the padded text, encrypted block by block into the buffer; `DesBits.TextBits` says what each block is |
| Des.Decode | project/skynet/lualib-src/lua-crypt.c:487-517 | the decrypted text without its padding, or the error |
| Des.RoundTrip | project/skynet/lualib-src/lua-crypt.c:461-517 | decoding what was encoded gives the text back and nothing else, for every length and mode of padding |

## Left out

LPeg:

- Captures, run-time captures, back references and the debug printer: they depend on the Lua stack.
- Instructions are one element of the code each; slot sizes, offset slots and the no-op instructions that the peephole pass leaves behind are not modelled.
- Character sets are sets; the bit loops of `charsettype` and the set operations on bytes are not modelled.
- Trees are values; the flat tree array, its `memmove`s and the key table are not modelled, nor are open calls before `finalfix` resolves them.
- The limit of the backtrack stack (MAXBACK) and the error messages.
- The analyses follow calls to a depth `da`, where `fixedlen` marks the calls under way; all results hold for every `da`, and `PegDepth.CompiledSettles` gives the depth from which on nothing changes.
- PegCompiler.CompileState.FindFinalTarget: in a chain of jumps that never ends the source would not stop; the model does.

Timer:

- A delay of 0 or less, which the source dispatches at once without the wheel, clocks, and delays of 2^31 ticks or more.
- TimerWheel.Timer.Section: what the dispatched messages lead to in other services; additions are interleaved with the sections as whole sections of their own.

Messages:

- The global list is a sequence; its `next` pointers are not modelled. Overflow of `cap` is not modelled.
- What the source sends back for a dropped message, profiling, the monitor, and daemon and logging services.
- Registering a handle and creating the queue are one step, and a handle is not used again.
- Messages sent by the init function are steps of other threads.

Sockets:

- One socket with one identifier: the slot is not used again for another connection, the protocol is TCP and the connection has been opened. UDP, listening, connecting and binding are left out.
- Memory buffers only; for user objects `list_uncomplete` compares different pointers.
- Events of the poller may come at any time, so `enable_read`, `enable_write`, pausing and resuming are not modelled, nor are failures to change them, warnings about the size of the lists, statistics and the size of the read buffer.
- That a closing socket is closed eventually, whatever the kernel takes: `TcpDelivery.WriteEvent` has a kernel that takes everything.
- The busy wait at 0xffff sends under way is a step that does nothing.

Decimal digits:

- Modes 0, 1, 4 and 5, the shortest digits that read back as the same number, with `delta`, `mlo` and `mhi`.
- The quick path in floating point, small integers in floating point, the estimate of the exponent itself, infinities and NaN, and other rounding modes.
- `strtod`, and the bit-level parts that take a double to pieces (`d2b`, `lo0bits`).
- Allocation: a number that is grown, shifted or multiplied is a fresh object, and free lists are not modelled.

Cryptography:

- The S-boxes and the key schedule of DES are arbitrary: that they are those of the standard, and keys of a wrong length, are not modelled.
- Des.RemovePkcs7: which bytes lie before the buffer; the model stops there, and whatever the source reads, its caller turns the answer away.
- Reading and writing 64-bit numbers as bytes, SHA-1, HMAC, base64 and hex.

Not modelled: the handle table, shared tables, JSON, packet reassembly and serialisation in `lualib-src`, and all plumbing between C and Lua.
