# A verified model of the mail server's core

This project models the parts of the mail server whose correctness is hardest to see from the
code, in Dafny, and proves properties of them for all inputs, all runs or all reachable states:

- **Sieve** (`SieveSyntax`, `SieveLexer`, `SieveTokenizer`, `SieveGrammar`, `SieveParser`,
  `SieveLimits`, `SievePrinter`, `SieveRoundTrip`, `SieveReparse`, `SieveWritten`,
  `SieveRefusals`, `SieveGlob`, `SieveConditions`, `SieveMeanings`, `SieveVacation`, `SieveExec`,
  `SieveOutcome`): the tokenizer and the recursive-descent parser as loops and methods over
  positions, proved against a grammar written as functions on the tokens that remain; the ways to
  write a script, and the proof that parsing any of them, however laid out, gives what it means;
  what the parser refuses; the glob compiler; what tests decide; rule execution; vacation records.
- **Local delivery** (`LocalDelivery`, `VacationRuns`, `FiledAndRedirected`, `SampleScript`): from
  the text of a script to what becomes of a message and who is answered.
- **Circuit breaker** (`CircuitBreaker`, `BreakerRuns`): the automaton as a class, and its runs
  under any interleaving of overlapping calls, with call ids and history that exist only in the
  proofs.
- **Rate limiter** (`RateLimiter`, `RateBlocks`, `LoginAttempts`): the limiter as a class, a bound
  over its runs, who is blocked for how long, and what is left of it when attempts overlap.
- **Queue** (`QueueModel`, `RedisQueue`, `QueueNoLoss`, `QueueRuns`, `QueueFates`, `QueueDrain`,
  `QueueBounces`, `QueueAcceptances`): the Redis keys as sets and maps, one function for each transaction, the
  operations as methods with a parameter for each command that may fail, and two kinds of run:
  single transactions in any order, and engine runs with atomic claims, with the measure that
  makes those drain and the counts of attempts, bounces and acceptances.
- **Delivery** (`DeliveryErrors`, `MxResolver`, `Delivery`, `ExchangerWalk`, `EngineBreaker`,
  `SharedFiles`): judging errors, resolving and walking the hosts, one delivery through breaker, queue, files and
  counters, overlapping deliveries through one breaker, one file for several queue entries.
- **Maildir** (`MaildirFlags`, `MaildirModel`, `MaildirUids`, `Maildir`, `MaildirUpdates`,
  `MaildirRuns`): flags as text, rows against files, where seen messages lie, uids as a history that every method of the
  store extends, overlapping updates of flags.

`Wrappers` and `Strings` hold what the rest shares. `dafny verify dfyconfig.toml` checks it all.

Everything outside the process is a parameter: the clock, the name server, the answers of other
mail servers, generated ids and keys (required to be fresh), and for every database, Redis or
file command whether it fails.

## What came out of it

The main guarantees hold, some more tightly than one would claim at first:

- The half-open bound of the breaker, HalfOpenMaxCalls + SuccessThreshold, covers all calls
  admitted in a period, not only those running, and is reached for every configuration.
- The rate limiter admits at most 2 * maxAttempts - 2 failures in any window-long stretch, and
  reaches that; with maxAttempts of 1 it admits two.
- A block of the rate limiter lasts exactly blockDuration whatever is swept, as long as attempts do
  not overlap (`RateBlocks.BlockedExactly`, `RateBlocks.BlockLasts`).
- Answers of vacations are spaced in every run of deliveries if cleanups keep rows for a year
  (`VacationRuns.AnswersSpaced`, `VacationRuns.YearSuffices`).
- The queue drains even if workers crash and commands err, and a submission costs at most
  MaxRetries * (3 * MaxRetries + 4) steps, or 6 * MaxRetries + 2 if no Fail command errs.

Where the code does less than its documentation or a reader would expect, the code is modelled,
an input or a run shows the failure, and the exact condition of the property is proved:

- `deliverMessage` asks for the state of the breaker and defers the message if it is open, and
  only later calls `beforeRequest`, the one way to half-open. The Timeout alone never reopens a
  domain: an open breaker recovers exactly if some delivery looked at the state before the opening
  and is still to call (`EngineBreaker.ShutExactly`, `EngineBreaker.ProbeExactly`,
  `EngineBreaker.RecoversExactly`).
- A message is one file for all its queue entries, and the first delivery that ends removes it,
  even if the command that closes its own entry errs. Some entry can be left waiting without its
  file whenever the file is removable; as long as every closing command goes through, exactly with
  two domains or more (`SharedFiles.FileLostExactly`, `SharedFiles.MayLoseFileExactly`,
  `SharedFiles.MayLoseFileClosingExactly`).
- A bounce of a message is due for each delivery that failed for good, which is more than one
  exactly when a Fail command erred and the recovered message failed again. It is queued exactly if
  its file and command go through, and never due if the message was only given up on for its
  attempts or its age (`QueueBounces.BouncesExact`, `QueueBounces.DueExactly`,
  `QueueBounces.ReportedExactly`).
- A message is accepted more than once exactly when the close of an accepted delivery was lost and
  another acceptance follows, and at most MaxRetries times (`QueueAcceptances.AcceptedExactly`).
- A message that a script or an alias only forwards is lost with a success reply when there is no
  engine, when no address has a domain, and, for a script, when the queue fails; without a script
  that parses no local user loses one (`LocalDelivery.VanishesExactly`). And a redirect without a later keep overrides every fileinto
  (`LocalDelivery.StoredExactly`, `FiledAndRedirected.FiledMessageLost`).
- A bounce to a sender without an at sign before its last character has no domain, and its
  delivery crashes the server (`Delivery.BounceWithoutDomain`, `Delivery.Engine.DeliverMessage`).
- Vacation responses are spaced exactly if cleanups keep rows for the longest interval, and
  counted from the response itself exactly for whole seconds
  (`SieveVacation.AlwaysSpacedExactly`, `SieveVacation.SpacedFromExactly`).
- The four sets of the queue stay disjoint exactly if each transaction commits while its message
  is where it may take it from; a late claim and an administrator's retry do not
  (`QueueNoLoss.DisjointExactly`, `QueueNoLoss.LateClaimTakesSentMessage`,
  `QueueNoLoss.AdminRetryInTwoSets`). Engine runs therefore claim in one step, and their workers
  keep a message no longer than the stale threshold, without which recovery takes messages from
  them (`QueueBounces.TakesHeldExactly`).
- Overlapping login attempts keep to the rate limit in all runs exactly if no address has two of
  them open at once (`LoginAttempts.BoundedExactly`, `LoginAttempts.NoBoundTogether`).
- The keep at the end of the script that the server's form suggests stands outside any rule and is
  skipped; messages are kept all the same (`SampleScript.SampleParses`, `SampleScript.SampleFiles`).
- The commas of a list count towards its limit of 1000, so the 501st string is refused
  (`SieveRefusals.Refused`).
- A `not` before a token that starts no test is a constant (`SieveLimits.NilUnderNot`).
- Judging by the text of an error makes some temporary failures permanent
  (`DeliveryErrors.ClassifiedJudged`).
- A search for a flag decides membership exactly for the system flags, and finds what contains the
  flag exactly if it has no wildcard (`MaildirFlags.MembershipExactly`, `MaildirFlags.PartsExactly`).
- Overlapping updates of flags all survive exactly if each decides every flag that was changed since
  it read (`MaildirUpdates.SurviveExactly`).
- `stop` is parsed but never sets the stop flag of a rule; `elsif`, `else` and actions outside a
  rule are skipped token by token; allof and anyof inside a test list are not tests; comments are
  removed inside strings. The grammar functions say all this, and no conformance to RFC 5228 is
  claimed for it.

## Model

| member | source | states |
|---|---|---|
| `SieveTokenizer.FindClosingQuote` | internal/sieve/parser.go:248-262 | The index loop ends at the first quote that no backslash escapes, an escaped character counting as one step; a run of more than 10000 steps or a missing quote is the error the loop reports |
| `SieveTokenizer.ReadString` | internal/sieve/parser.go:245-272 | A string literal is the text between its quotes with the two replacements applied, in that order, to the whole of it; the index moves just past the closing quote |
| `SieveTokenizer.ReadNumber` | internal/sieve/parser.go:274-287 | A number token is the longest run of digits and K, M, G, refused beyond 100 characters |
| `SieveTokenizer.ReadWord` | internal/sieve/parser.go:289-307 | A word token is the longest run of letters, digits and underscores, lower-cased and looked up in the keyword table, refused beyond 1000 characters |
| `SieveTokenizer.TokenizeText` | internal/sieve/parser.go:138-314 | On every input the index loop stays in bounds, ends, and yields the token list of the comment-free text, one EOF last, or the first error in the order in which the loop checks |
| `SieveLimits.TokenizeShape` | internal/sieve/parser.go:179-314 | For every input the safety limit of the token loop never fires; at most 100000 tokens precede the single EOF |
| `SieveRoundTrip.LineCommentRemoved` | internal/sieve/parser.go:142-144 | Up to a newline a # removes everything, inside strings too, and what surrounds the comment is unaffected |
| `SieveRoundTrip.BlockCommentRemoved` | internal/sieve/parser.go:146-148 | A block comment goes up to the first terminator after its opening, inside strings too |
| `SieveRoundTrip.UnescapeEscape` | internal/sieve/parser.go:267-268 | The two passes of replacement undo the escaping of every string |
| `SieveRoundTrip.ScanEscaped` | internal/sieve/parser.go:250-259 | The scan for the closing quote stops exactly at the end of any escaped text |
| `SieveTokenizer.UnknownSkipped` | internal/sieve/parser.go:308-311 | A character that starts no token is skipped, in a round of its own |
| `SieveRoundTrip.TokenizeRender` | internal/sieve/parser.go:138-314 | A text of any lexemes is read back as exactly their tokens, however it is laid out: any blanks, line and block comments between them, words in any case, and no more space than is needed to part words and numbers |
| `SieveRoundTrip.CommentsRemoved` | internal/sieve/parser.go:141-148 | The two expressions remove the comments of such a text, and nothing else of it |
| `SieveRefusals.LexemeRefused` | internal/sieve/parser.go:245-307 | Behind any text, with any comments, a string that is not closed or is too long and words and numbers that are too long are refused, each with its own error |
| `SieveParser.Parser.ParseArrayItems` | internal/sieve/parser.go:357-395 | The items of a bracketed list: strings are collected, any other token is skipped but counted, and the list is refused beyond the array limit; the position only moves forward |
| `SieveParser.Parser.ParseHeaderCondition` | internal/sieve/parser.go:590-703 | A header or address test: at most ten modifiers, then two string lists; the value and the tokens used are those of the grammar, error by error |
| `SieveParser.Parser.ParseSizeCondition` | internal/sieve/parser.go:705-731 | A size test with :over or :under and a number read by the size grammar, including its overflow refusal |
| `SieveParser.Parser.ParseExistsCondition` | internal/sieve/parser.go:733-770 | An exists test with a list or one name |
| `SieveParser.Parser.ParseSingleCondition` | internal/sieve/parser.go:549-588 | A single test, recursion through not bounded by the depth limit; on success the depth is what it was and at least one token is used up; allof and anyof are not tests here and give nil |
| `SieveParser.Parser.ParseTestItems` | internal/sieve/parser.go:466-535 | The tests between parentheses: nil tests are dropped, commas skipped, and every round of the loop uses up a token |
| `SieveParser.Parser.ParseCondition` | internal/sieve/parser.go:448-547 | The tests of a rule and whether all must hold; depth restored on success |
| `SieveParser.Parser.ParseVacationAction` | internal/sieve/parser.go:866-962 | The vacation action: at most twenty parameters, days in 0 to 365, strings within the limit, addresses as a list |
| `SieveParser.Parser.ParseAction` | internal/sieve/parser.go:772-864 | One action; an unknown token is skipped as nil; fileinto and redirect without a target are refused |
| `SieveParser.Parser.ParseActionItems` | internal/sieve/parser.go:423-440 | The actions of a rule up to its brace or EOF, nil ones dropped, refused beyond 1000 rounds |
| `SieveParser.Parser.ParseRule` | internal/sieve/parser.go:397-446 | A rule: tests, an opening brace or the error that names the token found instead, actions, and a closing brace if one is there; the stop flag is never set; depth restored |
| `SieveParser.Parser.ParseRequire` | internal/sieve/parser.go:357-395 | The capability list of a require |
| `SieveParser.Parser.ParseTokens` | internal/sieve/parser.go:316-355 | The top-level loop agrees with the grammar on every token list, its iteration limit included, and ends because each round uses up a token |
| `SieveParser.Parse` | internal/sieve/parser.go:90-101 | Parse, for every text: size check, tokens, grammar |
| `SieveLimits.IterationLimit` | internal/sieve/parser.go:320-352 | The iteration limit of the top-level loop fires if and only if exactly 100000 tokens precede EOF and the loop would use up every one of them alone; with fewer tokens it cannot fire |
| `SieveLimits.IterationLimitReached` | internal/sieve/parser.go:320-352 | The limit is reachable: 100000 semicolons are refused although each would merely be skipped |
| `SieveLimits.AcceptedScripts` | internal/sieve/parser.go:316-962 | In every accepted script no test or action of a rule is nil, at most 47 negations are nested, each fileinto and redirect has a non-empty target, days, sizes and lists are in range under any number of negations, and no rule has its stop flag set |
| `SieveLimits.NilUnderNot` | internal/sieve/parser.go:549-588 | A negation can hold a nil test, and does if and only if the token after its nots starts no test; it then matches every message for an odd number of nots and none for an even one |
| `SieveReparse.SizeSuffix` | internal/sieve/parser.go:965-1003 | K, M and G multiply, and a product above the limit is an error rather than a wrapped number |
| `SieveWritten.ParsePrint` | internal/sieve/parser.go:90-962 | Parsing a written script gives the script it means, for every way of writing it (a list of one name with or without brackets, modifiers in any order or left out, sizes with or without tag and unit, a rule with one test alone or a list of tests under allof or anyof, vacation parameters repeated or left out, semicolons, reject texts and vacation bodies left out, tokens that mean nothing) and every layout, within the limits |
| `SieveWritten.EveryScriptWritten` | internal/sieve/parser.go:90-962 | Every script value with its tests under one allof or anyof, at most 47 nested negations, lists of at most 500 items, non-empty targets, strings without # and /*, and every other limit kept is what some way of writing means |
| `SieveRefusals.Refused` | internal/sieve/parser.go:316-962 | Behind any statements that can be read, and however it is laid out, a rule without its brace, a negation nested too deep, a size beyond the limit, a fileinto or redirect without its target, a vacation of more than a year and a list of more than 500 names are refused, each with its own error |
| `SampleScript.SampleParses` | internal/admin/templates/sieve.html:73-83 | The text that the form of the server suggests parses to one require and one rule |
| `SieveGlob.GlobBodyByCharacter` | internal/sieve/conditions.go:177-184 | Quoting the pattern and then doing two global replacements gives the character-by-character translation |
| `SieveGlob.GlobCompiles` | internal/sieve/conditions.go:126-184 | For all patterns and values the anchored expression accepts the value exactly when a direct wildcard matcher does: * any run and ? any one character, neither across a newline, all else literal |
| `SieveConditions.MatchesMeansGlob` | internal/sieve/conditions.go:126-149 | A matches test holds exactly when the glob matches with letters folded |
| `SieveMeanings.IsMeans` | internal/sieve/conditions.go:126-132 | A test with is, or without a match type, compares the whole value with letters folded |
| `SieveMeanings.ContainsMeans` | internal/sieve/conditions.go:133-134 | A contains test holds exactly when the value is a text, the pattern in some case, and a text |
| `SieveMeanings.OverUnderExactly` | internal/sieve/conditions.go:192-200 | A message of exactly the size is neither over nor under it; any other is exactly one of the two |
| `SieveMeanings.LookupExactly` | internal/sieve/conditions.go:96-120 | A header is found under exactly its name wherever it stands, or else under the first name that differs only in case |
| `SieveMeanings.LookupNone` | internal/sieve/conditions.go:96-123 | It is not found exactly when no name is the same but for case |
| `SieveMeanings.HeaderMatches` | internal/sieve/conditions.go:49-66 | A header test holds exactly when some value found under the name matches some test value |
| `SieveMeanings.EnvelopeMatches` | internal/sieve/conditions.go:68-94 | A test on from, to or subject is about the sender, each recipient or the subject, and takes the part of the address exactly if it is an address test, but never of a subject |
| `SieveMeanings.AddressAlone` | internal/sieve/conditions.go:151-175 | The parts of a bare address are what stands before and after its last at sign |
| `SieveMeanings.AddressInBrackets` | internal/sieve/conditions.go:151-175 | So are those of an address between angle brackets, whatever the name before it and the text after it |
| `SieveMeanings.AddressWithoutAt` | internal/sieve/conditions.go:162-165 | Without an at sign every part is the whole |
| `SieveMeanings.ExistsMatches` | internal/sieve/conditions.go:207-235 | An exists test wants every name: a sender, recipients or a subject, or a header in whatever case |
| `SieveMeanings.NotsAlternate` | internal/sieve/conditions.go:32-37 | A tower of negations over a test is the test itself or its opposite, as their number is even or odd |
| `SieveVacation.VacationStore.ShouldRespond` | internal/sieve/actions.go:202-229 | Answers from the stored row: none, or one more than the interval old |
| `SieveVacation.VacationStore.RecordResponse` | internal/sieve/actions.go:232-248 | Replaces the one row of the user and normalised sender by the present second; an error changes nothing |
| `SieveVacation.VacationStore.CleanupOldResponses` | internal/sieve/actions.go:251-261 | Removes exactly the rows older than the cutoff |
| `SieveVacation.ResponsesSpaced` | internal/sieve/actions.go:93-134 | In every run of requests and cleanups on the store, two responses granted to one user and sender are more than the later interval apart, counted from the recorded second |
| `VacationRuns.ExecutionAnswers` | internal/sieve/actions.go:93-134 | An execution answers exactly when an effective vacation action is due: the message is not from a machine or a list, the database works, and the sender has no row or one older than the interval; the row is then the present second, the answer is that of the action, and without an answer no row changes |
| `VacationRuns.AnswersSpaced` | internal/sieve/sieve.go:82-155 | In every run of arrivals at any users with any scripts, texts that do not parse and failing databases included, and of cleanups that keep rows long enough, two answers to one sender for one user are more than the interval of the later action apart, counted from the recorded second |
| `VacationRuns.YearSuffices` | internal/sieve/actions.go:202-261 | Cleanups that keep rows for 365 days keep them long enough for every script the parser lets through |
| `VacationRuns.RowOfSender` | internal/sieve/actions.go:202-248 | The row is that of the user and the bare address of the sender with letters folded, whatever the name before it |
| `VacationRuns.MachinesSkipped` | internal/sieve/actions.go:136-153 | A sender that names a machine, in any case and anywhere, is not answered |
| `VacationRuns.ListsSkipped` | internal/sieve/actions.go:152-187 | Nor is a message with one of the three headers of lists and automatic mail that count whatever they say |
| `VacationRuns.PeopleAnswered` | internal/sieve/actions.go:136-187 | A message from another sender, without the headers of lists and automatic mail, may be answered |
| `SieveVacation.SpacedFromExactly` | internal/sieve/actions.go:232-248 | Counted from the moment of the response itself, spacing holds in all runs for exactly the responses given at a whole second, since the stored time has lost its fraction, whatever the longest interval is |
| `SieveVacation.AlwaysSpacedExactly` | internal/sieve/actions.go:202-261 | With one cleanup age and intervals up to a longest, responses are spaced in all runs if and only if the age is at least the longest interval |
| `SieveVacation.EarlyCleanupBreaksSpacing` | internal/sieve/actions.go:251-261 | For every interval and every smaller cleanup age a run grants two responses no more than the interval apart |
| `SieveExec.Executor.Apply` | internal/sieve/actions.go:19-134 | Each action changes exactly its fields of the result and, for vacation, the one response row |
| `SieveExec.Executor.EvaluateConditions` | internal/sieve/sieve.go:158-183 | The loop is a quantifier: all, or some, of the non-nil tests hold, and no tests match |
| `SieveOutcome.MatchesByTests` | internal/sieve/sieve.go:158-183 | Under allof each test that is not nil must hold, under anyof one must, and a rule without tests matches |
| `SieveExec.Executor.ExecuteScript` | internal/sieve/sieve.go:120-155 | The rule loop with its early exit computes the result and the vacation rows of the recursive execution, from the default keep |
| `SieveOutcome.ExecutionIsSequential` | internal/sieve/sieve.go:131-152 | For every script, message and state, the result is that of applying in order all actions of the matching rules up to and including the first matching rule with a fileinto, redirect, discard or reject |
| `SieveOutcome.ActionsDispose` | internal/sieve/actions.go:19-73 | Which fields a list of actions leaves: the last keep or terminal action decides keep, the last fileinto the folder, all redirects the addresses, any discard or reject its flag |
| `SieveOutcome.ImplicitKeep` | internal/sieve/sieve.go:129-154 | For every script the result is disposed as the effective actions say, and keep is lost only with one of the four flags set |
| `LocalDelivery.RunFilter` | internal/sieve/sieve.go:82-117 | No script, or one that does not parse, keeps the message; otherwise the parsed script is executed |
| `LocalDelivery.Backend.DeliverToLocalRecipient` | internal/smtp/backend.go:323-525 | The error, the mailbox that gains the message and the queue entry of a delivery are those of the specification; a failing engine leaves only the entries made before it failed, without their file; no other mailbox changes |
| `LocalDelivery.VanishesExactly` | internal/smtp/backend.go:323-525 | In any surroundings a delivery reports success with the message neither stored nor queued exactly when the effective actions of the active script discard it, or only redirect it and no entry can be made (no engine, a failing queue, no address with a domain), or an external alias has no engine or no domain; so never for a local user without a script that parses |
| `LocalDelivery.StoredWithoutScript` | internal/smtp/backend.go:375-498 | Without a filter, with a failing script store, without an active script and with one that does not parse, the message goes to INBOX, or the sender gets an error exactly when there is no INBOX, no room or the store fails |
| `LocalDelivery.ElsewhereExactly` | internal/smtp/backend.go:323-374 | When the address leads to no user here nothing is stored, and the message is queued for an external alias with a domain or the sender gets an error, but for the two exceptions |
| `LocalDelivery.LeftExactly` | internal/smtp/backend.go:402-424 | A delivery leaves entries behind without their file only when the queue fails, for the redirect addresses whose domain it had reached |
| `LocalDelivery.StoredOrForwarded` | internal/smtp/backend.go:375-448 | With a working engine and store, a message is stored or queued if and only if the effective actions of the script neither discard nor reject it nor do nothing but redirect it to addresses without a domain |
| `LocalDelivery.FilingScriptsStore` | internal/smtp/backend.go:375-498 | In any surroundings, effective actions that neither discard nor reject the message and keep it at the end or never redirect it end in a stored message or an error |
| `LocalDelivery.StoredExactly` | internal/smtp/backend.go:375-498 | With a working engine and store, a message is stored if and only if the effective actions of the script neither discard nor reject it and either keep it at the end or never redirect it; it is queued for exactly the redirect addresses that have a domain, and the only error is that of a reject without a discard |
| `LocalDelivery.RoutableCat` | internal/smtp/delivery/delivery.go:150-159 | The addresses queued are those given, in their order, each decided by itself |
| `LocalDelivery.RoutableOne` | internal/smtp/delivery/delivery.go:150-159 | An address is queued exactly if it has a domain |
| `LocalDelivery.RedirectOverridesFileinto` | internal/smtp/backend.go:402-433 | In any surroundings a redirect without keep ends the delivery before a fileinto of the same script is honoured; any other result that is not discarded or rejected is stored or gives an error |
| `FiledAndRedirected.FiledMessageLost` | internal/smtp/backend.go:402-433 | However a script is written that files each message and then redirects it, it is accepted, and with a working engine and store no message is ever filed by it |
| `FiledAndRedirected.FileAndRedirectWritten` | internal/sieve/parser.go:90-962 | Such a script exists for every folder and address that can be written at all |
| `SampleScript.SampleFiles` | internal/smtp/backend.go:375-498 | With the suggested script active and a working store, a message goes to Newsletters exactly when its subject has [Newsletter] in it, in any case (unless that folder is missing and cannot be created), and to INBOX otherwise |
| `LocalDelivery.FiledWhere` | internal/smtp/backend.go:430-498 | In any surroundings a stored message is in the folder of the last effective fileinto, or in INBOX when there is none or it is missing and cannot be created, and within the quota; a message only filed that has such a place and room is stored |
| `CircuitBreaker.CircuitBreaker.constructor` | internal/resilience/circuitbreaker.go:99-118 | Each setting that is not positive gets its default and each other one is kept; the breaker starts closed with zero counters |
| `CircuitBreaker.CircuitBreaker.BeforeRequest` | internal/resilience/circuitbreaker.go:195-224 | Whether a request may start and what it changes, as one atomic step |
| `CircuitBreaker.CircuitBreaker.AfterRequest` | internal/resilience/circuitbreaker.go:227-269 | What the end of a request changes, with the optional error filter, as one atomic step |
| `CircuitBreaker.CircuitBreaker.TransitionTo` | internal/resilience/circuitbreaker.go:272-286 | A change of state resets all counters and stamps the time; the same state changes nothing |
| `BreakerRuns.HalfOpenBound` | internal/resilience/circuitbreaker.go:195-286 | In every interleaving of overlapping calls and resets, halfOpenCalls is the counted admissions less the completions of the half-open period, and the calls admitted in the period, the uncounted probe included, never exceed HalfOpenMaxCalls + SuccessThreshold |
| `BreakerRuns.HalfOpenBoundReached` | internal/resilience/circuitbreaker.go:195-286 | The bound is exact: for every configuration some run has that many calls of one period running at once |
| `BreakerRuns.HistoryRefined` | internal/resilience/circuitbreaker.go:227-286 | The counters are readings of the whole history: closed counts the failures since the latest success and stays below the threshold, half-open counts completions since the probe, all of them successes, and unused counters are zero |
| `BreakerRuns.AdmissionExact` | internal/resilience/circuitbreaker.go:195-224 | A call is admitted if and only if the history allows it; by an open breaker exactly when every failure of the whole history is at least Timeout old |
| `BreakerRuns.EdgesExact` | internal/resilience/circuitbreaker.go:195-286 | Only the four documented edges and the reset change the state, and each exactly when the history says so |
| `RateLimiter.RateLimiter.IsBlocked` | internal/admin/ratelimit.go:78-95 | Blocked is a set block time less than blockDuration ago |
| `RateLimiter.RateLimiter.RecordFailure` | internal/admin/ratelimit.go:99-133 | A failure opens a window, or counts in the present one and blocks from maxAttempts on; only the entry of the address changes |
| `RateLimiter.RateLimiter.RecordSuccess` | internal/admin/ratelimit.go:136-140 | A success forgets the address and no other |
| `RateLimiter.RateLimiter.Cleanup` | internal/admin/ratelimit.go:198-204 | The map loop removes exactly the entries older than window and block together |
| `RateLimiter.FailureRateBound` | internal/admin/ratelimit.go:78-133 | In every run of attempts one after the other, with blockDuration above windowSize, no stretch of windowSize holds more than 2 * max(2, maxAttempts) - 2 failures recorded since the latest success of an address: one fewer than 2 * maxAttempts - 1 |
| `LoginAttempts.BoundedExactly` | internal/admin/handlers.go:45-110 | Check and record being two steps, with at most k attempts of one address open at once the same bound holds in all runs if and only if k is at most 1, for every windowSize of at least 1 and blockDuration above it |
| `LoginAttempts.TimelyStep` | internal/admin/handlers.go:45-110 | The end of an attempt does what the same attempt would do on its own if and only if its address is not blocked at that moment |
| `LoginAttempts.TimelyRateBound` | internal/admin/handlers.go:45-110 | So the bound holds in every run in which that is always so, however many attempts overlap |
| `LoginAttempts.NoBoundTogether` | internal/admin/handlers.go:45-110 | With no limit on the attempts open at once there is no bound: for every n, n let in together are all recorded at one moment |
| `LoginAttempts.LateFailureLifts` | internal/admin/ratelimit.go:99-133 | A failure recorded for a blocked address lifts its block if and only if the window in which the block was set is over |
| `RateLimiter.FailureRateReached` | internal/admin/ratelimit.go:99-133 | The bound is exact for every maxAttempts of at least 2 |
| `RateLimiter.SingleAttemptAllowsTwo` | internal/admin/ratelimit.go:106-112 | With maxAttempts of 1 two failures are recorded before the block, since the failure that opens a window never blocks |
| `RateLimiter.BlocksStayInWindow` | internal/admin/ratelimit.go:115-130 | In every run, gated or not, a block starts no later than windowSize after its window |
| `RateLimiter.CleanupKeepsBlocks` | internal/admin/ratelimit.go:193-207 | So a cleanup never lifts a block that is still active |
| `RateBlocks.BlockedExactly` | internal/admin/ratelimit.go:78-140 | After any gated run an address is blocked exactly when the latest window of its recorded failures holds maxAttempts (two at least) and the latest of them is less than blockDuration ago, whatever was swept |
| `RateBlocks.BlockLasts` | internal/admin/ratelimit.go:78-140 | After a failure that fills its window no failure and no login of the address is recorded until blockDuration later, in any gated run |
| `RateBlocks.BlockEnds` | internal/admin/ratelimit.go:78-140 | From then on the next failure is recorded again, and the next login lets in |
| `RateBlocks.SweptExactly` | internal/admin/ratelimit.go:193-207 | A sweep leaves exactly the addresses whose latest window started no longer than windowSize and blockDuration ago |
| `RedisQueue.RedisQueue.Enqueue` | internal/queue/redis.go:193-251 | Succeeds exactly when one of three tries goes through with only transient errors before it; then the transaction ran once, otherwise not at all |
| `RedisQueue.ThreeTries` | internal/queue/redis.go:193-251 | Up to two transient errors in a row do not make an enqueue fail |
| `RedisQueue.RedisQueue.First` | internal/queue/redis.go:266-279 | The candidate is due and none is due earlier; none means nothing is due |
| `RedisQueue.RedisQueue.Dequeue` | internal/queue/redis.go:255-326 | A returned message was the earliest due one and is claimed and marked; on an error the queue is as before or rolled back, and only a failing rollback leaves the message in processing |
| `QueueModel.RollbackRestores` | internal/queue/redis.go:294-303 | Undoing the claim of a message nobody was processing restores every key exactly |
| `RedisQueue.RedisQueue.Complete` | internal/queue/redis.go:329-361 | Moves the message to sent and counts it, or changes nothing |
| `RedisQueue.RedisQueue.Retry` | internal/queue/redis.go:364-403 | Fails an exhausted message, then an expired one, and otherwise schedules the next attempt; an error changes nothing |
| `RedisQueue.RedisQueue.Fail` | internal/queue/redis.go:406-432 | Moves the message to failed and counts it, or changes nothing |
| `RedisQueue.RedisQueue.RecoverStale` | internal/queue/redis.go:595-618 | The loop over processing equals retrying the whole set of reachable stale messages at once, whatever the order; the result is their number |
| `RedisQueue.RedisQueue.Cleanup` | internal/queue/redis.go:621-642 | Removes from sent, then from failed, what is no younger than the threshold |
| `RedisQueue.RedisQueue.CalculateNextRetry` | internal/queue/redis.go:702-734 | The delay of the tier of an attempt with its jitter |
| `QueueModel.BackoffNearTier` | internal/queue/redis.go:704-733 | Every delay is within five percent of its tier and at most 25.2 hours |
| `QueueModel.BackoffGrows` | internal/queue/redis.go:704-733 | Whatever the jitter, a later tier waits strictly longer, until the last tier |
| `QueueModel.RetriedOneMore` | internal/queue/redis.go:601-615 | Retrying one more message after a set is retrying the larger set, so the order of recovery does not matter |
| `QueueNoLoss.NoLoss` | internal/queue/redis.go:193-432 | Under any interleaving of single transactions with any arguments, an id that leaves all four sets was dropped by a cleanup, was never missing before, and had been recorded sent or failed |
| `QueueNoLoss.EnqueuedTracked` | internal/queue/redis.go:193-251 | An enqueued id is in one of the sets right after its enqueue, and its record stays from then on; NoLoss says when it can leave the sets |
| `QueueNoLoss.OnlyCleanupDrops` | internal/queue/redis.go:621-642 | No single transaction but a cleanup takes an id out of all sets, and a cleanup only when its record is at least as old as the threshold |
| `QueueNoLoss.RecoveryKeeps` | internal/queue/redis.go:595-618 | Recovery drops nothing and puts each recovered id in pending or failed |
| `QueueNoLoss.OperationsAreTransactions` | internal/queue/redis.go:255-432 | What each operation leaves is reached by the transactions of the no-loss runs |
| `QueueNoLoss.DisjointStep` | internal/queue/redis.go:193-432 | For each of the transactions, from disjoint sets, the exact condition under which the sets stay disjoint: a claim, rollback or retry if and only if its message is in neither sent nor failed, an enqueue if and only if it is not in processing either, a completion or failure if and only if it is neither waiting nor in the other final set |
| `QueueNoLoss.DisjointExactly` | internal/queue/redis.go:193-432 | In any interleaving no message is ever in two sets if and only if every transaction commits while its message is where it may take it from |
| `QueueNoLoss.LateClaimTakesSentMessage` | internal/queue/redis.go:266-289 | A run in which that fails: a worker that read its candidate before another completed it puts a sent message in processing again |
| `QueueNoLoss.AdminRetryInTwoSets` | internal/admin/handlers.go:815-828 | Another: an administrator's retry leaves a failed message in failed and in pending |
| `QueueRuns.QueueConservation` | internal/queue/redis.go:193-432 | In every engine run with atomic claims, lost closing commands and lost Fail commands included, pending + processing + sent + failed = enqueued, the four sets are disjoint, the status names the set, a waiting message has attempts left, and none exceeds MaxAttempts |
| `QueueRuns.NoEarlyClaim` | internal/queue/redis.go:263-279 | No message is claimed before its NextAttempt |
| `QueueRuns.ScheduleBounded` | internal/queue/redis.go:364-403 | In every reachable state a pending message is due no later than CreatedAt + RetryMaxAge + 25.2 hours |
| `QueueFates.FateExactly` | internal/queue/redis.go:193-432 | In every engine run a message is where the events about it alone put it: pending until the wait of its tier, 5, 15, 30, 60, 120, 240, 480, 960 or 1440 minutes within five percent, is over, processing, sent after an acceptance, failed after a permanent failure or, after a temporary one, exactly without attempts left or beyond its age; no claim comes before that wait is over |
| `QueueBounces.TakesHeldExactly` | internal/smtp/delivery/delivery.go:640-659 | Recovery can take a message from a worker still at it if and only if workers may keep a message longer than the ten minutes of the stale threshold |
| `QueueRuns.InvKept` | internal/queue/redis.go:193-642 | Every event of the engine keeps the whole invariant of the queue |
| `QueueDrain.Drain` | internal/smtp/delivery/delivery.go:221-340 | A weighted sum over live messages strictly decreases at every claim, outcome, bounce, crash and recovery, even at a permanent failure that will queue a bounce and even if its Fail command errs; a submission adds at most 6 * MaxRetries + 2, or MaxRetries * (3 * MaxRetries + 4) when Fail commands may err |
| `QueueDrain.WorkBounded` | internal/smtp/delivery/delivery.go:186-340 | So the number of all claims, outcomes, bounces, crashes and recoveries of a run is at most MaxRetries * (3 * MaxRetries + 4) for each submission, and at most 6 * MaxRetries + 2 in runs in which no Fail command errs |
| `QueueDrain.DrainedMeans` | internal/queue/redis.go:193-432 | The sum is zero if and only if nothing is pending or processing and no bounce is owed |
| `QueueDrain.NeverStuck` | internal/smtp/delivery/delivery.go:186-218 | While it is not zero, some worker or the recovery can act once the clock has moved on |
| `QueueBounces.ClaimsAreAttempts` | internal/queue/redis.go:308-315 | The attempts on record are the claims that were made |
| `QueueBounces.BouncesExact` | internal/smtp/delivery/delivery.go:246-267 | As many bounces of a message are ever due as its deliveries failed for good, if its sender gets any; only one of these failures can have closed it, so more than one is due if and only if a Fail command that erred was followed by another permanent failure |
| `QueueBounces.ReportedTwice` | internal/smtp/delivery/delivery.go:246-267 | With MaxRetries of at least 2 and a RetryMaxAge above the stale threshold, a run in which two bounces are due, for every message with a sender to tell |
| `QueueBounces.DueExactly` | internal/smtp/delivery/delivery.go:246-283 | A bounce of a failed message was ever due if and only if the sender gets bounces and some delivery failed for good; the other messages were given up on for their attempts or their age |
| `QueueBounces.ReportedExactly` | internal/smtp/delivery/delivery.go:246-340 | A bounce of a message was queued if and only if a permanent failure of it is followed by its bounce with file and command going through; of the bounces ever due all others are still owed or were lost |
| `QueueRuns.BouncesTellTheSender` | internal/smtp/delivery/delivery.go:299-340 | In every run each queued bounce goes from the null sender to one recipient, the sender of the message that failed, in the domain of that address |
| `QueueBounces.FailedUntold` | internal/smtp/delivery/delivery.go:257-259 | For every message with a sender to tell, a run in which it fails for good, its one bounce is lost, and nothing is left to do |
| `QueueBounces.GivenUpUnheard` | internal/queue/redis.go:364-403 | For every message whose sender gets bounces, a run in which it is given up on and no bounce is ever due |
| `QueueBounces.FamilyAttempts` | internal/smtp/delivery/bounce.go:91-103 | Bounces do not bounce, and a submitted message causes at most MaxRetries + MaxRetries^2 delivery attempts, its bounces included; at most 2 * MaxRetries if no Fail command for it errs, at most MaxRetries if its sender gets no bounce |
| `QueueAcceptances.AcceptedExactly` | internal/smtp/delivery/delivery.go:284-296 | A message is accepted by a server at most MaxRetries times, and more than once if and only if a worker death or lost Complete command after an acceptance is followed by another acceptance |
| `QueueAcceptances.AcceptedTwice` | internal/smtp/delivery/delivery.go:284-296 | With MaxRetries of at least 2 and a RetryMaxAge above the stale threshold, a run in which that happens, for every message |
| `DeliveryErrors.AllFailedJudged` | internal/smtp/delivery/delivery.go:405 | The error of an exhausted walk is judged permanent exactly if the text of the last error names one of the codes, so never after only temporary failures |
| `DeliveryErrors.ClassifiedJudged` | internal/smtp/delivery/delivery.go:700-742 | A classified error is judged permanent exactly if its text starts with 5, has a 5 after a blank, or names a code anywhere |
| `DeliveryErrors.BouncesExactly` | internal/smtp/delivery/bounce.go:91-104 | A sender gets bounces unless it is empty or starts with one of four names of machines, in any case |
| `DeliveryErrors.TemporaryReplyJudgedPermanent` | internal/smtp/delivery/delivery.go:727-742 | A 450 reply whose text happens to contain 550 is judged permanent |
| `MxResolver.MXResolver.Lookup` | internal/smtp/delivery/mx.go:66-100 | A live cache entry answers alone; otherwise it is dropped and the fresh answer stored; answers are never empty and sorted by preference |
| `MxResolver.MXResolver.LookupMX` | internal/smtp/delivery/mx.go:103-136 | The exchangers in some order of preference, or the name itself when there are none and it has an address |
| `MxResolver.MXResolver.SortByPreference` | internal/smtp/delivery/mx.go:130-133 | The result is a permutation sorted by preference |
| `MxResolver.ExchangersKept` | internal/smtp/delivery/mx.go:103-136 | A fresh answer puts every exchanger of the name on record with its preference, its name without a final dot, and nothing else, sorted |
| `MxResolver.MXResolver.LookupWithFallback` | internal/smtp/delivery/mx.go:161-203 | The hosts of the records on record that resolve to an address, never an empty list |
| `MxResolver.HostsExactly` | internal/smtp/delivery/mx.go:167-196 | Every record whose name resolves to an IPv4 or IPv6 address gives a host with its name, its preference and all those addresses, IPv4 first, in the order of the records; no other record gives one |
| `MxResolver.MXResolver.Arrange` | internal/smtp/delivery/mx.go:175-188 | IPv4 addresses before IPv6 ones, texts that are no addresses dropped |
| `MxResolver.HostsOrdered` | internal/smtp/delivery/mx.go:167-196 | For all sorted records: hosts in order of preference, each stemming from a record and with at least one address, all of its own, IPv4 first |
| `Delivery.TryHosts` | internal/smtp/delivery/delivery.go:383-405 | The nested loop contacts a prefix of all addresses in order and stops at the first outcome that is not a temporary failure |
| `Delivery.WalkExact` | internal/smtp/delivery/delivery.go:383-405 | It succeeds if and only if some address accepts after only temporary failures, and fails for good if and only if the first other outcome is permanent |
| `Delivery.Engine.AttemptDelivery` | internal/smtp/delivery/delivery.go:364-406 | An attempt ends with the reading error, the relay's answer, the lookup error, or a walk over the resolved hosts |
| `ExchangerWalk.RouteExactly` | internal/smtp/delivery/delivery.go:383-385 | The walk goes through every usable address of every exchanger on record, exchangers in order and IPv4 first, and through no other |
| `ExchangerWalk.AttemptExact` | internal/smtp/delivery/delivery.go:377-406 | With an exchanger that resolves, an attempt succeeds exactly when the first contact on that route that does not fail temporarily is accepted, and fails for good exactly when it fails for good |
| `ExchangerWalk.BackupReached` | internal/smtp/delivery/delivery.go:377-406 | An exchanger on record with an address that accepts is reached, whatever fails to resolve or fails temporarily before it, unless a contact before it fails for good |
| `ExchangerWalk.AcceptedSomewhere` | internal/smtp/delivery/delivery.go:377-406 | An attempt that succeeds was accepted at a usable address of an exchanger on record |
| `Delivery.Engine.Execute` | internal/resilience/circuitbreaker.go:121-192 | Admit, run, record, from any state of the breaker: it sees exactly the two steps around an attempt that it admitted |
| `Delivery.Engine.DeliverThrough` | internal/smtp/delivery/delivery.go:231-296 | What one delivery leaves in the queue, the breaker, the files and the counters, given the outcome of the attempt; a refusal is always temporary |
| `Delivery.Engine.DeliverMessage` | internal/smtp/delivery/delivery.go:221-296 | The same through the registry: the breaker of the domain, made if it is missing, and no other one changes; a message without a domain crashes the server before anything changes |
| `Delivery.Engine.SendBounce` | internal/smtp/delivery/delivery.go:299-340 | A bounce is queued with the null sender and its file, or leaves neither |
| `Delivery.Engine.CleanupMessageFile` | internal/smtp/delivery/delivery.go:343-361 | Only a named file inside the queue path is removed |
| `Delivery.Engine.Breaker` | internal/resilience/circuitbreaker.go:379-401 | One breaker for each key, closed when new, none for the empty key |
| `Delivery.DeliveryIsRunStep` | internal/smtp/delivery/delivery.go:221-340 | Every delivery, with the queue up or down, open or closed, leaves in the queue exactly what one event of the engine runs leaves, followed after a permanent failure by the bounce it makes due |
| `Delivery.BounceBeforeTheEnd` | internal/smtp/delivery/delivery.go:246-267 | A delivery leaves its message in processing, to be tried again, and yet queues a bounce for it if and only if it failed for good, only its Fail command erred and the bounce went through |
| `Delivery.OutcomeExactly` | internal/smtp/delivery/delivery.go:246-296 | A delivery leaves its message in processing if the closing command errs, in sent if it was accepted, in failed after a permanent error or without attempts or time left, and in pending otherwise |
| `Delivery.FilesAndCounts` | internal/smtp/delivery/delivery.go:246-361 | A delivery touches no file but those of its message and its bounce, a bounce has its file exactly if it is queued, and each delivery is counted once |
| `Delivery.BounceWithoutDomain` | internal/smtp/delivery/delivery.go:320-328 | A bounce has no domain if and only if the sender it reports to has no at sign before its last character |
| `EngineBreaker.ShutExactly` | internal/smtp/delivery/delivery.go:230-244 | After any series of deliveries one after the other the breaker of the domain is open if and only if FailureThreshold of them failed in a row at some point, and then it admits nothing any more; otherwise it is closed and counts the failures the series ends in |
| `EngineBreaker.OpenForever` | internal/smtp/delivery/delivery.go:230-239 | An open breaker is not asked, so whatever deliveries follow it stays exactly as it is |
| `EngineBreaker.ProbeExactly` | internal/smtp/delivery/delivery.go:230-244 | With overlapping deliveries, whose look at the state and whose call are two steps, an open breaker goes to half-open exactly at a call made when every failure is at least Timeout old; the caller looked before the breaker opened and waited at least Timeout in between |
| `EngineBreaker.RecoversExactly` | internal/smtp/delivery/delivery.go:230-244 | From any reachable open state the breaker can ever leave it if and only if some delivery has looked and not yet called |
| `EngineBreaker.StalledDeliveryProbes` | internal/smtp/delivery/delivery.go:230-244 | For every configuration there is such a run: one delivery looks, FailureThreshold others fail, and the first one calls late and probes the domain |
| `EngineBreaker.RunRefines` | internal/smtp/delivery/delivery.go:230-244 | What the breaker sees of overlapping deliveries is one of its own runs, so its bounds hold in the engine |
| `EngineBreaker.AloneMeans` | internal/smtp/delivery/delivery.go:221-296 | A delivery nobody interrupts does to the breaker in these runs what DeliverMessage promises |
| `SharedFiles.FileStaysExactly` | internal/smtp/delivery/delivery.go:343-361 | The file of a message outlasts a delivery if and only if the delivery is put off or the file lies outside the queue path |
| `SharedFiles.ClosesMeans` | internal/smtp/delivery/delivery.go:246-296 | A delivery that ends leaves its entry in processing, to be recovered and tried again, if and only if the command that closes it errs; its file is removed all the same |
| `SharedFiles.FileLostExactly` | internal/smtp/delivery/delivery.go:221-296 | In any series of deliveries of the entries of one submission, an entry that is not closed has lost its file if and only if the file lies where it is removed and a delivery has ended: one of another entry, or one of its own whose closing command erred |
| `SharedFiles.LostNeverAccepted` | internal/smtp/delivery/delivery.go:364-369 | From then on every attempt for that entry fails |
| `SharedFiles.MayLoseFileExactly` | internal/smtp/delivery/delivery.go:139-296 | A submission can leave an entry without its file if and only if some recipient has a domain and the file is removable |
| `SharedFiles.LostCompleteLoses` | internal/smtp/delivery/delivery.go:284-296 | For every such submission and domain, a run of one delivery that does: accepted, its Complete command errs, the entry stays in processing and its file is gone |
| `SharedFiles.MayLoseFileClosingExactly` | internal/smtp/delivery/delivery.go:139-183 | As long as every closing command goes through, it can if and only if the recipients have two domains or more and the file is removable |
| `SharedFiles.TwoDomainsLose` | internal/smtp/delivery/delivery.go:139-183 | A submission to two domains that can, with every command going through |
| `Delivery.Engine.Enqueue` | internal/smtp/delivery/delivery.go:139-183 | All entries are made, or the error names the domain whose entry failed and the entries made before it stay |
| `Delivery.Engine.GroupByDomain` | internal/smtp/delivery/delivery.go:151-159 | The loop groups the recipients by domain in their order and drops those without one |
| `Delivery.RecipientsPartitioned` | internal/smtp/delivery/delivery.go:150-180 | A successful submission queues every recipient that has a domain exactly as often as it was given, in the entry of its domain and no other, with the sender and the file of the submission, due at once |
| `MaildirFlags.FlagsToString` | internal/storage/maildir/maildir.go:945-951 | The flags joined with commas |
| `MaildirFlags.FlagsRoundTrip` | internal/storage/maildir/maildir.go:945-963 | Decoding gives the list back if and only if no flag has a comma and the list is not the single empty flag |
| `MaildirFlags.SuffixDecodes` | internal/storage/maildir/maildir.go:926-943 | The letters of a file name hold exactly the system flags of the list that have one |
| `MaildirFlags.LikeContains` | internal/storage/maildir/maildir.go:739-741 | For a text x without wildcards LIKE %x% is substring search in either case |
| `MaildirFlags.LikeFindsSubstring` | internal/storage/maildir/maildir.go:843-850 | A query for a text without wildcards and comma finds a list exactly when the text is part of some flag |
| `MaildirFlags.PartsExactly` | internal/storage/maildir/maildir.go:843-850 | For every flag the server allows: its query finds, on all lists of allowed flags, exactly those with a flag it is part of if and only if it has no wildcard |
| `MaildirFlags.LikeIsMembership` | internal/storage/maildir/maildir.go:895-896 | For system flags, beside keywords free of backslash and comma, every query on the joined text is set membership |
| `MaildirFlags.MembershipExactly` | internal/storage/maildir/maildir.go:843-850 | For every flag the server allows: its query decides membership on all lists of allowed flags if and only if it is a system flag |
| `MaildirFlags.KeywordQueryFindsMore` | internal/storage/maildir/maildir.go:843-850 | Every query finds every list with a flag that contains it, wildcards and all, whether or not the flag itself is there |
| `MaildirFlags.WildcardFindsAcross` | internal/storage/maildir/maildir.go:843-850 | A query with an underscore finds lists none of whose flags contains it, the underscore standing for the comma between two flags |
| `MaildirModel.PrefixIsBase` | internal/storage/maildir/maildir.go:498-504 | Generated keys are prefix-free, so the directory scan finds no other message |
| `MaildirModel.BaseOfName` | internal/storage/maildir/maildir.go:640-650 | Cutting a name at its flags gives back the base |
| `MaildirModel.OneFileEach` | internal/storage/maildir/maildir.go:281-807 | When rows and files agree every row has exactly one file, in cur if its key has the letter of a seen message and else in new, under its key and with the bytes appended, or none if a deletion that failed half way has taken it |
| `MaildirModel.NoStrays` | internal/storage/maildir/maildir.go:281-807 | And every file belongs to a row |
| `MaildirModel.AgreeAdd` | internal/storage/maildir/maildir.go:301-384 | Adding a message under a fresh key keeps rows and files in agreement |
| `MaildirModel.AgreeRename` | internal/storage/maildir/maildir.go:661-673 | Renaming a file with its row keeps them in agreement |
| `MaildirModel.AgreeDrop` | internal/storage/maildir/maildir.go:797-806 | Removing a row with its file keeps them in agreement |
| `MaildirModel.AgreeLose` | internal/storage/maildir/maildir.go:797-801 | Removing a file alone keeps them in agreement, its message marked as without a file |
| `Maildir.AgreeWithout` | internal/storage/maildir/maildir.go:773-779 | Removing rows whose files are gone already keeps them in agreement |
| `Maildir.Store.WriteFile` | internal/storage/maildir/maildir.go:294-353 | Through tmp into new, or into cur for a seen message; every failing step leaves the directories as they were |
| `Maildir.Store.CreateMailbox` | internal/storage/maildir/maildir.go:65-107 | A new mailbox starts at uid 1 |
| `Maildir.Store.AppendMessage` | internal/storage/maildir/maildir.go:281-416 | A message is added under uidnext with its file and a key made of the time and random digits, or nothing changes but, when only the insert fails, uidnext; the history of uids grows by that step |
| `Maildir.Store.GetMessageBody` | internal/storage/maildir/maildir.go:454-508 | The three ways of looking find the bytes once appended of the message whose base the key has, however its flags have changed since, and nothing if there is no such message or its file is gone |
| `Maildir.Store.SetFlags` | internal/storage/maildir/maildir.go:599-684 | Row and file name get the flags, the row alone if the file is gone; a failure on the way leaves the row with the flags and the file under its old name, in agreement |
| `Maildir.Store.MoveFile` | internal/storage/maildir/maildir.go:663-681 | The renaming is undone when the row cannot follow |
| `Maildir.Store.ChangedFlags` | internal/storage/maildir/maildir.go:563-596 | The new list has the union, or the difference, of the two sets of flags |
| `Maildir.Store.UpdateFlags` | internal/storage/maildir/maildir.go:563-596 | An update that nothing interrupts sets that list |
| `MaildirUpdates.SurviveExactly` | internal/storage/maildir/maildir.go:563-602 | Reading before the lock and setting under it being two steps, overlapping updates of one message all survive, as if done one after the other, if and only if each decides every flag that was changed since it read |
| `MaildirUpdates.TwoUpdates` | internal/storage/maildir/maildir.go:563-602 | Of two updates that read before either is set, the first survives if and only if the second decides every flag the first changes |
| `Maildir.UpdateReadsBack` | internal/storage/maildir/maildir.go:563-613 | What is read back after an update is that set, whether or not the file could be renamed |
| `Maildir.Store.CopyMessage` | internal/storage/maildir/maildir.go:692-716 | The copy has the bytes and date of the source and its flags but \Recent, under a new uid; one that fails, as of a message without its file, changes nothing but, when only the insert fails, uidnext of the destination |
| `Maildir.Store.MoveMessage` | internal/storage/maildir/maildir.go:719-731 | The copy is added and the source is gone; if the row of the source cannot be deleted the new uid is returned with the error, the source has lost its file and nothing else, and the store stays valid |
| `Maildir.Store.ExpungeMessage` | internal/storage/maildir/maildir.go:784-807 | The row and its one file go; if the row cannot be deleted only the file is gone, and the store stays valid |
| `Maildir.Store.ExpungeMailbox` | internal/storage/maildir/maildir.go:734-781 | Exactly the marked messages of the mailbox are removed and their uids returned, each once; if the rows cannot be deleted exactly their files are gone, and the store stays valid |
| `Maildir.MarkedMeansDeleted` | internal/storage/maildir/maildir.go:739-741 | Marked are exactly the messages with the \Deleted flag |
| `MaildirUids.UidDiscipline` | internal/storage/maildir/maildir.go:281-389 | Over all runs, with failed inserts, copies, moves and expunges interleaved, the uids given in a mailbox strictly increase, are never reused, and stay below uidnext |
| `MaildirRuns.UidsOfStore` | internal/storage/maildir/maildir.go:281-389 | So in any store its methods have led to, whatever failed: each method keeps the store valid and adds the steps it takes to the history, and the rows there have uids from it |
| `MaildirModel.GeneratedIsBase` | internal/storage/maildir/maildir.go:920-924 | A generated key is a base: digits, a dot and 32 hexadecimal digits |
| `MaildirRuns.StaleKeyStillFinds` | internal/storage/maildir/maildir.go:453-508 | Through any series of flag changes, whatever fails, a message keeps its bytes and the base by which it is found |
| `MaildirRuns.SeenInCur` | internal/storage/maildir/maildir.go:599-684 | A change of flags that goes through leaves a seen message in cur and any other in new, under a name with the letters of its flags; one that fails half way leaves the file where it was |
| `MaildirRuns.SeenFiles` | internal/storage/maildir/maildir.go:281-807 | In any store its methods have led to, whatever failed, the files in cur are exactly those whose name has the letter of a seen message, and none is left in tmp |

## Left out

- Characters are bytes, letters fold as ASCII, and TrimSpace trims the ASCII blanks: no Unicode.
- Scores are integers: the rounding of nanosecond times to 64-bit floats is not modelled.
- JSON encoding, the expiry of message records after 7 and 30 days, logging and metrics.
- Redis transactions whose outcome is unknown to the sender: an error means nothing happened. The
  no-loss runs allow any transaction any number of times, so they cover a repeated one.
- One clock reading stands for the several of one operation, except around a delivery attempt.
- The database of an execution either works or fails as a whole for vacation queries, and the
  clock of the database is the clock of the server, in whole seconds.
- The handle of a vacation action, which no code uses, and the three condition types no parser
  branch creates.
- Goroutines, channels and timeouts of a breaker's Execute: an attempt is admitted, run and
  recorded, and may be cut short by an error.
- Engine runs require MaxRetries of at least 1 and a RetryMaxAge that is not negative.
- QueueRuns.InvKept: an engine run claims in one step and keeps a message no longer than the ten
  minutes after which it counts as stale; QueueNoLoss covers claims in two steps.
- The crash of the server at a message without a domain is the end of the worker that delivers it
  in the engine runs (Drop); that all other workers end with it is as many such events.
- Delivery.Engine.AttemptDelivery: the dialogue with a mail server, TLS and signing are one answer
  for each contact, which may depend on the address, the host and the contacts before it.
- QueueRuns.QueueConservation: leaves out the administrator's retry and delete, under which sets
  overlap and counters drift; QueueNoLoss covers them.
- SieveVacation.ResponsesSpaced: counts the interval from the whole second in which the earlier
  response was recorded; SieveVacation.SpacedFromExactly says when more holds.
- VacationRuns.AnswersSpaced: counts the interval in the same way.
- SieveWritten.ParsePrint: leaves out texts that are read although they are not well written, such
  as a list or a rule that ends with the text, a test without its lists, and characters that start
  no token (SieveTokenizer.UnknownSkipped).
- RateLimiter.FailureRateBound: is about attempts one after the other; LoginAttempts says what is
  left when the handler's check and its record are two steps.
- RateBlocks.BlockLasts: is about attempts one after the other, too.
- Maildir.Store.WriteFile: removing the temporary file after a failing step is assumed to succeed.
- Maildir.Store.AppendMessage: removing the file after a failing step is assumed to succeed.
- Maildir.Store.SetFlags: like Maildir.Store.MoveFile, assumes that renaming the file back succeeds
  when the row cannot follow.
- Maildir.Store.MoveFile: see the line above.
- Mailboxes are identified by number and have directories of their own; two names that map to one
  directory are not modelled, nor is the deletion of a mailbox.
- LocalDelivery.Backend.DeliverToLocalRecipient: the count of used bytes, the vacation reply
  itself and the notification of IMAP clients have no effect on where the message goes.
- SMTP, IMAP, DAV and HTTP sessions, authentication, greylisting, DKIM, DNS checks, configuration
  and set-up: plumbing around the parts above, or facts of one branch.
