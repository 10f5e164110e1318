# End-to-end test service: a verified model

The service runs end-to-end tests. A run goes through steps; a step reserves recipients, fires a
trigger, starts receivers, collects what they got and asserts on it, with retries. Messages and
reservations live in a store that many runs and the webhook depositors share. Requests are built by
a template engine that also writes counters into the run's variables. Results are kept in a small
cache that clients poll.

The model has one module per component:

| modules | component |
|---|---|
| `Text`, `TextLaws`, `Sequences` | 64-bit wrap-around, decimal printing and parsing, trimming, searching, and what these texts mean; listings of the same elements |
| `Rewriting`, `Operators`, `Template`, `TemplateLaws` | the three rewritings as scans of flat strings, their meaning on literals and placeholders, what operators and generator calls look like, `ReplaceString` and its laws, the guard |
| `TemplateOrder` | when exactly the order of the variables shows |
| `Counters`, `BodyTree`, `CounterRetries` | counters over one template, over a nested body in any traversal order, over the attempts of a step |
| `ReservedNames`, `VariablesBlock` | the variables of a test, resolved in map order; which names their values can write |
| `HttpTrigger`, `RequestGuard` | `HTTPTrigger.Execute`: rendering, guard, request, reply, extraction; when the guard stops a whole request |
| `FlatIndex` | the flat JSON index and navigation in the tree |
| `Stores`, `StoreEquivalence` | `MemoryStore`, `PostgresStore` as two tables, and their agreement over traces |
| `Delivery` | the gate, the polling webhook receiver, and the protocol deposit, claim, delete |
| `Reservations`, `SharedRuns` | many runs interleaved on one store; the automaton of reservation calls that every run of the engine follows |
| `Engine` | one run, as functions on values and as the class `TestRun` that does the same in place |
| `EngineLaws`, `Outcomes`, `TriggerCalls`, `StepOutcomes`, `Lifecycle`, `RetryLaws`, `ReservationLaws`, `ReservationOrder` | what holds of every attempt, step and run |
| `Domain`, `ResultCache` | results, the bounded cache, and the handlers that fill it |

## Conventions

- The iteration of a Go map is an arbitrary order: the methods pick any remaining key, and the laws
  quantify over the order. A regular expression with a callback is a leftmost scan.
- Every mutex-protected operation and every SQL operation is one atomic step, at one reading of a
  nondecreasing clock in natural numbers (nanoseconds).
- Trigger, receivers, assertions, network and random texts are parameters: a `Script` of outcomes
  for the engine, a `Wire` for the HTTP trigger, a stream of texts for the generators. The
  completion order of the receiver goroutines is part of the script, and the laws hold for all.
- The engine records every port call. Laws about the course of a run (who was stopped, what is
  still reserved) are stated over that record.
- Each method is proved equal to a function of its inputs and the old state; the laws are lemmas
  about those functions.

## Where the code differs from what one may expect

The model follows the code. These are proved, not assumed:

- README.md:756 of the service says that a test passes if any attempt passes completely. The code
  never resets the status between attempts: a retry can rescue a trigger that failed, but never a
  receiver that failed (`RetryLaws.ReceiverFailureIsFinal`, and exactly `RetryLaws.RetryOutcome`).
- Reservations are released only when the whole run returns, and a run's own reservation refuses it
  like anybody else's: asking for the same recipient in two steps fails the run
  (`RetryLaws.SameRecipientTwiceFails`).
- A refused reservation leaves the recipients that the failing step had already booked
  (`ReservationLaws.ReservationConservation`, reached by `ReservationLaws.RefusedStepLeaves`).
- A receiver that does not start leaves the earlier receivers of the attempt neither collected nor
  stopped, in every run (`Lifecycle.CollectedOnceStoppedOnce`, reached by
  `Lifecycle.StartErrorLeaks`); all others are collected once and stopped once.
- A message that arrives between a claim and the delete that follows it is deleted unread
  (`Delivery.ArrivalDuringClaimIsLost`).
- `Release` checks no owner: once a run is late, its release frees a recipient that another run
  holds (`Reservations.LateReleaseBreaksExclusion`).
- The two stores differ at one instant: a claim exactly when a message expires. Otherwise they agree
  if and only if no two recipients, and no two messages that live for a while, share a concatenated
  key (`StoreEquivalence.AgreementExact`). Names of receivers come from the test file and are
  reserved before anybody checks them, so two recipients can share a key
  (`StoreEquivalence.CollidingRecipients`).
- The order of the variables shows in ReplaceString, over plain names and values without counters and
  generators, if and only if the value of one mentions another whose value is not just its own
  mention, or mentions an absent name that a counter operator of a template can create
  (`TemplateOrder.ReplaceStringOrderFreeExactly`). A block whose values use no counters and no
  generators depends on its order if and only if one value so mentions another variable of the block
  (`VariablesBlock.BlockOrderFreeExactly`).
- The order of the headers can decide whether a request is sent: one header counts an undefined
  variable, another uses it (`RequestGuard.CountingHeadersShowOrder`, and exactly
  `RequestGuard.HeaderOrderExactly`).

## Model

| member | source | states |
|---|---|---|
| Text.ParseFormatInt | internal/pkg/template/template.go:124-137 | reading back what was printed gives the same 64-bit integer, sign included |
| Text.WrapAdd | internal/pkg/template/template.go:124 | wrapped sums may be taken in any grouping: wrapping early changes nothing |
| TextLaws.ParseNatExactly | internal/pkg/template/template.go:130-137 | a text is read exactly if it is not empty and all digits, and then as the sum of its digits by their places |
| TextLaws.FormatNatExactly | internal/pkg/template/template.go:124 | the text printed for a number is its decimal text, digits by their places and no leading zero, and no other text is |
| TextLaws.FormatIntExactly | internal/pkg/template/template.go:124 | the same of integers, with one minus sign exactly for negative ones |
| TextLaws.PrintedExactly | internal/pkg/template/template.go:124-137 | of all the texts that read as n exactly the one without leading zero is printed |
| TextLaws.ParseIntExactly | internal/pkg/template/template.go:130-137 | exactly the texts with an optional sign, digits, and a value within 64 bits are read |
| TextLaws.TrimSpaceExactly | internal/pkg/template/template.go:114-114 | trimming takes off all the white space around, and nothing else |
| TextLaws.ParseVarIntExactly | internal/pkg/template/template.go:130-137 | a counter text is read exactly if it is such a number with any white space around |
| TextLaws.WrapExactly | internal/pkg/template/template.go:124 | a sum wraps to the 64-bit number that differs from it by a multiple of 2^64 |
| Operators.GuardExactly | internal/pkg/template/template.go:15 | HasUnresolved holds of any string exactly if two opening braces, a text without braces and two closing braces stand somewhere in it |
| Operators.GuardReads | internal/pkg/template/template.go:28-30 | the same exactly if the string reads with a placeholder |
| Operators.OpNameExactly | internal/pkg/template/template.go:12-14 | a placeholder is an operator on a name exactly if it is the operator and, in parentheses, the name with any white space around |
| Operators.GeneratorCallExactly | internal/pkg/template/template.go:12 | a placeholder is a generator call exactly if it is a word and an argument in parentheses |
| Operators.GeneratesExactly | internal/pkg/template/generators/random_int.go:19-31 | the accepted generator calls are exactly uuid() and randomInt of a positive number, white space around it ignored |
| Operators.Generators | internal/pkg/template/generators/uuid.go:15-21 | uuid() and randomInt of the decimal text of any positive number generate; randomInt(0) and uuid with an argument do not |
| ReservedNames.OperatorMatches | internal/pkg/template/template.go:13-14 | the regular expressions of the operators match at the start of any string exactly if it begins with the operator and an argument in parentheses, up to the first closing one |
| Rewriting.ScanPrint | internal/pkg/template/template.go:11-26 | on a printed template the string scan of any rule does exactly what the rule means placeholder by placeholder, text and variables |
| Rewriting.HoleMatch | internal/pkg/template/template.go:11-16 | at a placeholder the regular expressions and ReplaceAll match the whole placeholder or miss, as its name says |
| Rewriting.GuardOnPrint | internal/pkg/template/template.go:28-30 | HasUnresolved holds of a printed template if and only if a placeholder is left in it |
| Rewriting.PrintParse | internal/pkg/template/template.go:15 | reading any string into literals and placeholders and printing it gives the string back |
| Rewriting.ParsePrint | internal/pkg/template/template.go:15 | every printed template reads back as its own placeholders in order, literals character by character |
| Template.Bump | internal/pkg/template/template.go:107-128 | the counter under the trimmed name becomes the decimal text of the next number, which is the result; it starts from 0 when absent, and from the number its text reads as; if it reads as none, what was found is handed back and nothing is written |
| Template.ReplaceIncrements | internal/pkg/template/template.go:107-128 | one left-to-right pass over the string, with the map written during the scan, equals the scan of the operator's rule |
| Template.ResolveIncrements | internal/pkg/template/template.go:101-105 | all increments, then all decrements |
| Template.ReplaceString | internal/pkg/template/template.go:18-26 | text, variables and random texts after the call, for the order in which the map happened to be iterated |
| TemplateLaws.SubstituteRefines | internal/pkg/template/template.go:21-23 | the loop of ReplaceAll calls in any order is one simultaneous substitution of the placeholders |
| TemplateLaws.OrderFree | internal/pkg/template/template.go:18-26 | on a template whose used values carry no brace every iteration order gives the same text, that of counters, simultaneous substitution and generators |
| TemplateOrder.SubstituteExpands | internal/pkg/template/template.go:21-23 | if in the values of the variables that a template uses other variables stand only for themselves, the loop in any order puts each value in once, placeholders in values included |
| TemplateOrder.DirtyValuesDependOnOrder | internal/pkg/template/template.go:21-23 | if the value of a mentions b, and b is not merely its own mention, then the loop gives {{a}}, after any text without braces, a different text with b after a than with a after b |
| TemplateOrder.OrderFreeExactly | internal/pkg/template/template.go:21-23 | the loop of ReplaceAll calls alone: every template has the same text in all orders if and only if no value mentions another variable, except one whose value is its own mention |
| TemplateOrder.ReplaceStringOrderFreeExactly | internal/pkg/template/template.go:18-26 | for plain names, and values without counters and generators: every template, counters and generators included, has the same result of ReplaceString in all orders if and only if no value mentions another variable, except one whose value is its own mention, nor an absent name that a counter operator can create |
| TemplateOrder.MentionShowsOrder | internal/pkg/template/template.go:18-26 | otherwise a template and two orders of its variables with different texts: {{a}}, or {{++(b)}}{{a}} where the value of a mentions b |
| TemplateOrder.NameableExactly | internal/pkg/template/template.go:12-14 | a counter operator can name exactly the brace-free names without closing parenthesis and without white space around |
| TemplateOrder.HarmlessReplaced | internal/pkg/template/template.go:18-26 | whatever the variables are after the counter passes: if they are harmless then ReplaceString has one result, the same for all orders, values with placeholders included |
| TemplateOrder.PlainReplaced | internal/pkg/template/template.go:18-26 | without counters and generators ReplaceString is that loop and nothing else |
| TemplateLaws.CountersRefine | internal/pkg/template/template.go:101-128 | the counter passes on the string are the passes on the placeholders; exactly the handled ones go, and the variables stay clean |
| TemplateLaws.CountersDefine | internal/pkg/template/template.go:107-128 | a name is defined after the counter passes exactly when it was before or an operator of the template names it |
| TemplateLaws.GuardExact | internal/pkg/template/template.go:11-30 | for every order and every random text, the guard fires if and only if some placeholder is no counter operation on an integer or absent variable, no variable, and no accepted generator |
| TemplateLaws.ProducedIsShown | internal/pkg/template/template.go:18-26 | the numbers the increments produce stand in the final text; no later rewriting touches them |
| TemplateLaws.GeneratorAt | internal/pkg/template/template.go:85-99 | the generator pass replaces exactly the accepted calls, each by the next random text, and nothing else |
| TemplateLaws.GeneratorsReplaced | internal/pkg/template/template.go:18-26 | a placeholder that is no counter operator becomes the value of the variable of that name, whatever it is called; else, if it is an accepted call, the next random text; else it stays |
| TemplateLaws.GeneratorsShow | internal/pkg/template/template.go:18-26 | in every template {{uuid()}} and {{randomInt(n)}}, n positive, are replaced; {{randomInt(0)}} and {{uuid(a)}} stay unless they are names of variables |
| Counters.PassConserves | internal/pkg/template/template.go:107-128 | one pass moves a counter by one per placeholder that names it, with 64-bit wrap-around |
| Counters.PassCounts | internal/pkg/template/template.go:107-128 | the texts printed by one pass are the numbers passed through, in order |
| Counters.PassKeeps | internal/pkg/template/template.go:107-128 | a variable nobody increments, or that holds no integer, keeps its text |
| Counters.CountersOnStrings | internal/pkg/template/template.go:101-128 | the two passes on a template string equal the passes on its placeholders, whatever the variables hold |
| Counters.TemplateConserves | internal/pkg/template/template.go:101-128 | a template with p increments and q decrements moves the counter by p - q, and its increments print the p numbers after it |
| Counters.AbsentCounts | internal/pkg/template/template.go:113-126 | an absent counter starts from 0: its increments print the decimal texts of 1, 2, 3 and so on |
| Counters.TemplateKeeps | internal/pkg/template/template.go:101-128 | a template that does not name the counter leaves it alone |
| Counters.CountedDistinct | internal/pkg/template/template.go:124 | inside the 64-bit range the produced texts are k+1 to k+n, each once |
| Counters.EffectConserves | internal/pkg/template/template.go:101-128 | over any sequence of renderings the counter moves by all increments minus all decrements |
| Counters.EffectCounts | internal/pkg/template/template.go:101-128 | without decrements the values printed over the sequence are the numbers after k, in order |
| Counters.TotalOrderFree | internal/pkg/template/template.go:45-56 | the number of uses does not depend on the order of the texts |
| BodyTree.ReplaceAny | internal/pkg/template/template.go:58-83 | every text of the tree is rendered exactly once, one after another over the shared variables, and its result stands at the same place; nothing else changes; the items of each list at any depth are walked in order |
| BodyTree.ReplaceMap | internal/pkg/template/template.go:45-56 | the same for the fields of a map, in arbitrary order |
| BodyTree.ReplaceMixed | internal/pkg/template/template.go:64-72 | the same for a map with arbitrary keys, of which only text keys survive |
| BodyTree.ReplaceItems | internal/pkg/template/template.go:73-79 | the same for a list, its items in order |
| BodyTree.CoversInsert | internal/pkg/template/template.go:50-80 | a traversal that covers a tree, followed by one that covers one more child, covers the larger tree |
| BodyTree.TreeConserves | internal/pkg/template/template.go:45-128 | over a nested body and every traversal order, p increments and q decrements move the counter by p - q, and without decrements the values produced are k+1 to k+p in order |
| BodyTree.TreeShows | internal/pkg/template/template.go:45-128 | without decrements the texts of the rendered tree itself, read segment by segment, show the numbers k+1 to k+p at the increments of the counter, each once, in traversal order |
| VariablesBlock.ResolveBlock | internal/core/services/orchestrator.go:182-197 | the variables after the loop, for the order in which the block and, inside each value, the variables were iterated; test_id and error are defined only if a counter operator in some value names them, and then hold an integer; run_id holds the run id unless some value counts it; every other name of the block is defined |
| VariablesBlock.RoundsKeepName | internal/core/services/orchestrator.go:185-194 | for every block, any strings and every order: a reserved name keeps its value, or a counter operator in some value names it and it holds an integer |
| ReservedNames.CountersWriteCounted | internal/pkg/template/template.go:101-128 | for any string: a variable whose name has no digit keeps its text, or an operator that stands in the string itself names it and it holds an integer |
| ReservedNames.WithinBack | internal/pkg/template/template.go:101-105 | what the second counter pass meets, if it has no digit and stands between braces, stood in the string before the first |
| VariablesBlock.BlockOrderFree | internal/core/services/orchestrator.go:182-197 | if no value mentions another variable of the block, except one whose value is its own mention, every order ends in the same environment: each value with the run id put in, reserved names ignored, run_id unchanged, no random text drawn |
| VariablesBlock.DependentBlockDependsOnOrder | internal/core/services/orchestrator.go:182-197 | otherwise two whole iterations of the block end in different environments |
| VariablesBlock.BlockOrderFreeExactly | internal/core/services/orchestrator.go:182-197 | for values without counters and generators: all iterations of the block end alike if and only if it is independent in that sense |
| HttpTrigger.ReplaceHeaders | internal/pkg/template/template.go:32-43 | every header is rendered exactly once over the shared variables and keeps its name |
| HttpTrigger.RenderRequest | internal/adapters/secondary/trigger/http.go:49-88 | URL, headers, body are rendered in this order over one variable map, and the body is what the serializer or the form encoder makes of it |
| HttpTrigger.IsFormExactly | internal/adapters/secondary/trigger/http.go:64-71 | the body is form-encoded exactly if a header named content-type, in any case, contains application/x-www-form-urlencoded, in any case |
| HttpTrigger.RunChecks | internal/adapters/secondary/trigger/http.go:169-181 | field and value of each assertion are rendered in order up to the first that fails; all before it held, and success means all of them held of the fields |
| HttpTrigger.Extract | internal/adapters/secondary/trigger/http.go:183-191 | each extracted variable is the entry of the flat index under its lower-cased path, and absent paths give none |
| HttpTrigger.ReadReply | internal/adapters/secondary/trigger/http.go:120-191 | success exactly when the reply came, its status is the wanted one or below 400 when none is wanted, its body is a JSON object when it is needed, and all assertions hold; on well-formed JSON the index answers as navigation of the tree |
| HttpTrigger.Execute | internal/adapters/secondary/trigger/http.go:43-191 | the request is sent if and only if the body could be serialized, URL, header values and body all read without a placeholder, and it can be built; otherwise the call fails; every text is rendered as often as it occurs |
| HttpTrigger.RenderGuard | internal/adapters/secondary/trigger/http.go:203-219 | what the guard sees of a URL or header: unresolved if and only if a placeholder could not be resolved from the variables met |
| RequestGuard.RequestStopped | internal/adapters/secondary/trigger/http.go:49-92 | of a whole request, for a serializer under which the body holds a placeholder exactly if a key or text of the rendered tree does: a placeholder is left in URL, headers or body if and only if, in the order of rendering, some text needs a name that neither the variables before the call nor an earlier text define, or a key of the body holds a placeholder |
| RequestGuard.HeadStopped | internal/adapters/secondary/trigger/http.go:203-213 | the same of URL and headers alone, whatever becomes of the body |
| RequestGuard.HeaderOrderExactly | internal/adapters/secondary/trigger/http.go:55-57 | the order of the headers never decides that if and only if every name a header needs is defined before them, or no order at all finds all of them, which taking any ready header again and again tells |
| RequestGuard.CountingHeadersShowOrder | internal/pkg/template/template.go:37-40 | it does decide when one header counts an undefined variable and another uses it |
| RequestGuard.OrderNeverMattersExactly | internal/pkg/template/template.go:37-40 | the same of any parts that need and create names: all orders agree if and only if all parts are ready at the start, or the greedy order fails |
| HttpTrigger.RenderedParts | internal/adapters/secondary/trigger/http.go:49-57 | the variables at the end are the effect of URL, headers, body and assertions together, each text once |
| HttpTrigger.ExecuteMovesCounter | internal/adapters/secondary/trigger/http.go:43-92 | one call moves a counter by its uses in URL, headers and body, whether it succeeds, fails or is stopped by the guard |
| CounterRetries.FireHttp | internal/core/services/orchestrator.go:247-278 | the HTTP trigger is a port of the engine that leaves the variables as its rendering leaves them |
| CounterRetries.AttemptMovesCounter | internal/core/services/orchestrator.go:247-278 | an attempt moves the counter once, even if its trigger fails |
| CounterRetries.RetriesMoveCounter | internal/core/services/orchestrator.go:244-310 | every trigger that moves a counter by a fixed amount moves it so once per attempt made |
| CounterRetries.StepMovesCounter | internal/core/services/orchestrator.go:238-310 | over the n attempts of a step the counter moves by n times its uses in URL, headers and body; the recorded attempts grow by exactly n, at least one and within the limit; receiver assertions hold no counter operator |
| FlatIndex.NavigateInsert | internal/pkg/httputil/payload.go:63-93 | one more field of an object answers the queries that start with its key, and no other query changes |
| FlatIndex.LeafPath | internal/pkg/httputil/payload.go:87-89 | the lower-cased name of a field that is neither object nor array leads to its text, and no further |
| FlatIndex.ObjectPath | internal/pkg/httputil/payload.go:72-75 | the lower-cased name of an object, a dot and a path lead where the path leads in that object |
| FlatIndex.ArrayPath | internal/pkg/httputil/payload.go:76-86 | the name of an array and __len__ lead to the decimal text of its length; the name and the decimal text of an index to that element: an object is opened, anything else, even an array, is one text |
| FlatIndex.NoSuchElement | internal/pkg/httputil/payload.go:76-86 | below an array nothing else is found, so no index with a leading zero |
| FlatIndex.NoSuchField | internal/pkg/httputil/payload.go:63-93 | a path that does not start with the name of a field leads nowhere |
| FlatIndex.FlattenArray | internal/pkg/httputil/payload.go:76-86 | the entries of an array: its length under __len__ and each element that is no object under the decimal text of its index, objects opened and inner arrays printed; for any contents every key reached has one of the values brought there |
| FlatIndex.FlattenMap | internal/pkg/httputil/payload.go:63-93 | below any prefix, in any order of the fields, the index of a well-formed object answers exactly as navigation from it; of any object it holds exactly the keys reached, each with one of the values brought there |
| FlatIndex.FlattenJSON | internal/pkg/httputil/payload.go:59-61 | for every query, present or not, lookup in the index equals navigation of the tree |
| FlatIndex.OneIndex | internal/pkg/httputil/payload.go:63-93 | if no key is reached with two different values, well-formed or not, the index is the same for every order of the maps |
| Stores.MemoryStore.Deposit | internal/adapters/secondary/store/memory.go:39-53 | the message replaces the entry under runID:type and expires a TTL later |
| Stores.MemoryStore.Claim | internal/adapters/secondary/store/memory.go:55-72 | the entry under the key, unless it expired before now |
| Stores.MemoryStore.Reserve | internal/adapters/secondary/store/memory.go:74-87 | refused exactly while an unexpired reservation stands, else booked for an hour |
| Stores.MemoryStore.Release | internal/adapters/secondary/store/memory.go:89-98 | the reservation goes, whoever holds it |
| Stores.MemoryStore.Delete | internal/adapters/secondary/store/memory.go:100-109 | the message goes |
| Stores.PostgresStore.PurgeExpired | internal/adapters/secondary/store/postgres.go:105-122 | the rows that expired at or before now go, all others stay |
| Stores.PostgresStore.Deposit | internal/adapters/secondary/store/postgres.go:124-140 | purge, then insert or replace the row |
| Stores.PostgresStore.Claim | internal/adapters/secondary/store/postgres.go:142-163 | purge, then the row if it is there |
| Stores.PostgresStore.Reserve | internal/adapters/secondary/store/postgres.go:165-183 | purge, then insert unless a row stands; the answer names its holder |
| Stores.PostgresStore.Release | internal/adapters/secondary/store/postgres.go:185-191 | the row goes, whoever holds it |
| Stores.PostgresStore.Delete | internal/adapters/secondary/store/postgres.go:193-199 | the row goes |
| Stores.BookedForAnHour | internal/adapters/secondary/store/memory.go:74-87 | in either store a booking refuses every other for exactly an hour, naming the run that has it |
| Stores.KeyInjectiveByType | internal/adapters/secondary/store/memory.go:45-45 | runID:type names one pair when the type has no colon, even if the run id has |
| Stores.KeyInjectiveByChannel | internal/adapters/secondary/store/memory.go:75-75 | channel:recipient names one pair when the channel has no colon |
| StoreEquivalence.StepAgrees | internal/adapters/secondary/store/postgres.go:105-199 | on related stores whose pairs have different keys every operation keeps them related and answers alike, except a claim at the expiry instant |
| StoreEquivalence.TraceAgrees | internal/adapters/secondary/store/postgres.go:105-199 | the same along every trace with a nondecreasing clock |
| StoreEquivalence.StoresAgree | internal/adapters/secondary/store/memory.go:39-109 | from empty stores, over every trace whose pairs have different keys, the answers are equal if and only if the operation is no claim at the expiry instant; there memory returns the message and the tables none |
| StoreEquivalence.ColonFreeKeysDiffer | internal/adapters/secondary/store/memory.go:45-75 | receiver types and channels without a colon are enough for different keys |
| StoreEquivalence.CollidingRecipients | internal/core/services/orchestrator.go:335-351 | any two recipients with one concatenated key: memory refuses the second run, the tables book it; the channel is the receiver type of the test file, not checked before |
| StoreEquivalence.CollidingMessages | internal/adapters/secondary/store/memory.go:39-72 | any two messages with one key: memory gives the second run the message of the first |
| StoreEquivalence.AgreementExact | internal/adapters/secondary/store/memory.go:39-109 | the stores agree over every trace on given pairs if and only if no two recipients, and no two messages that do not expire at once, share a concatenated key |
| Delivery.Ingest | internal/core/services/ingestor.go:30-67 | a message is stored exactly when it is there and its run id is neither blank nor "unknown"; a missing reception time is filled in, another kept; a rejected message changes nothing |
| Delivery.WebhookReceiver.Start | internal/adapters/secondary/receiver/webhook/receiver.go:27-36 | the receiver remembers the run id and the time |
| Delivery.WebhookReceiver.Collect | internal/adapters/secondary/receiver/webhook/receiver.go:38-71 | the message of the first tick that finds one, all before being ticks that found none; a timeout exactly at the end of such ticks, by cancellation or by running out; not started exactly without a run id |
| Delivery.StepKeepsInvariant | internal/adapters/secondary/store/memory.go:39-109 | every step of depositors, clock, other runs and this run keeps the protocol invariant |
| Delivery.DeliveryInOrder | internal/core/services/orchestrator.go:486-494 | the invariant holds along every interleaving |
| Delivery.WebhookDelivery | internal/adapters/secondary/receiver/webhook/receiver.go:46-69 | over every interleaving a run gets deposits with strictly increasing numbers, each the latest of exactly its run and type and not expired; none twice |
| Delivery.PollDelivers | internal/adapters/secondary/store/memory.go:55-72 | a poll delivers deposit n if and only if n is the latest of this run and type, came after the run's latest delete, and has not expired |
| Delivery.ArrivalDuringClaimIsLost | internal/core/services/orchestrator.go:486-494 | a message that arrives between claim and delete is delivered by no continuation |
| Reservations.StepKeepsOwned | internal/adapters/secondary/store/memory.go:74-98 | while no holder of the recipient is late, who holds it has it booked in its name, although release checks no owner |
| Reservations.OneHolder | internal/adapters/secondary/store/memory.go:74-98 | no two runs hold the recipient |
| Reservations.BookedWhenLate | internal/adapters/secondary/store/memory.go:74-87 | a held recipient can be booked if and only if its holder is late |
| Reservations.MutualExclusion | internal/core/services/orchestrator.go:335-357 | in every interleaving in which no holder of this recipient is late, whatever happens to the others, between a booking of it and its giving up no booking of it succeeds |
| Reservations.LateReleaseBreaksExclusion | internal/adapters/secondary/store/memory.go:89-98 | after one late release a third run books what the second still holds |
| SharedRuns.RunsFollow | internal/core/services/orchestrator.go:220-236 | every run of the engine, whatever is booked in the store and whenever it asks, makes only the reservation calls of a small automaton, step by step and then released the latest step first, and owes nothing when it returns |
| SharedRuns.MoveKeepsCoherent | internal/adapters/secondary/store/memory.go:74-98 | one move of one of many such automata on one store: while no holder of a recipient is late, it is held exactly by the run that owes it, once, and booked in its name |
| SharedRuns.RunsStayCoherent | internal/core/services/orchestrator.go:335-357 | the same along every interleaving of any number of runs |
| SharedRuns.ReleasesItsOwn | internal/core/services/orchestrator.go:353-357 | what a run releases it holds, and the booking that goes is its own, although nobody checks |
| SharedRuns.RunsExclude | internal/core/services/orchestrator.go:335-357 | the same of automata: wherever the interleaving stands, while some run holds a recipient every run that asks for it is refused, and only the holder can be about to release it |
| SharedRuns.EnginesExclude | internal/core/services/orchestrator.go:335-357 | any number of runs of the engine, interleaved call by call on one store that gives all the answers: if each run calls what begins a record of the engine and no holder of a recipient is late, then while a run holds it every other booking is refused and only the holder can release it |
| Engine.TestRun.ReserveRecipients | internal/core/services/orchestrator.go:335-351 | the recipients in order, empty ones skipped, up to the first refusal, with what was booked so far; the refusal names a recipient asked for and the run that has it |
| Engine.TestRun.ReleaseRecipients | internal/core/services/orchestrator.go:353-357 | every listed recipient is released |
| Engine.TestRun.StartReceivers | internal/core/services/orchestrator.go:359-393 | the receivers start in order up to the first that does not |
| Engine.TestRun.CollectAndAssert | internal/core/services/orchestrator.go:408-447 | one goroutine: collect, delete, assert, and merge; one entry is appended, with the receiver's kind: passed if all checks hold, failed with the text of the first bad check if that is violated, error if it could not be created or nothing was collected |
| Engine.TestRun.CollectAndAssertAll | internal/core/services/orchestrator.go:401-454 | the goroutines in their completion order, then the summary if no error is told yet |
| Engine.TestRun.StopReceivers | internal/core/services/orchestrator.go:395-399 | every started receiver is stopped |
| Engine.TestRun.ReceiveResults | internal/core/services/orchestrator.go:285-305 | what an attempt does once its trigger fired |
| Engine.TestRun.RunAttempt | internal/core/services/orchestrator.go:244-310 | one attempt: what it leaves, and whether the loop goes on; the variables are what the trigger left, overwritten by what it extracted |
| Engine.TestRun.RunStep | internal/core/services/orchestrator.go:238-310 | the attempt loop of one step, with its three ways out |
| Engine.TestRun.TakeStep | internal/core/services/orchestrator.go:199-330 | one step: what it leaves, whether the next one follows, and what it defers to release; how often it fires its trigger is StepFires and FiresExactly |
| Engine.TestRun.RunSteps | internal/core/services/orchestrator.go:199-333 | the loop over the steps: when what it defers is released the latest first, the run is that of all steps |
| Engine.TestRun.ReleaseAll | internal/core/services/orchestrator.go:236-236 | the deferred releases run when the steps are over, the latest first |
| Engine.TestRun.ExecuteSequential | internal/core/services/orchestrator.go:176-333 | all steps, with the releases deferred to the return, the latest first |
| Engine.RunTest | internal/core/services/orchestrator.go:115-147 | the whole run: skipped when disabled, else the steps from the start |
| EngineLaws.MergeIsMaximum | internal/core/services/orchestrator.go:435-445 | the merged status is the maximum of the entry status and all receiver statuses, and all results are appended |
| EngineLaws.MergeConfluent | internal/core/services/orchestrator.go:401-454 | every completion order of the goroutines gives the same status and the same multiset of results |
| EngineLaws.MergeDeletes | internal/core/services/orchestrator.go:486-494 | exactly the messages that were collected are deleted, whether their assertions hold or not; other messages and all reservations stay |
| EngineLaws.AttemptsSettled | internal/core/services/orchestrator.go:244-325 | a step ends passed with no error text, or not passed with something to tell |
| EngineLaws.StepsSettled | internal/core/services/orchestrator.go:199-333 | a step that starts passed and without error text leads to a run that is passed exactly without error text |
| EngineLaws.NoSilentFailure | internal/core/services/orchestrator.go:115-147 | an enabled run ends passed, failed or error, and passed exactly when the error text is empty; a disabled one is skipped |
| EngineLaws.ReceiveKeeps | internal/core/services/orchestrator.go:285-305 | receiving changes no variable, no reservation and no attempt count; receiver assertions hold no counter operator |
| Outcomes.EntryStatus | internal/core/services/orchestrator.go:496-519 | the entry of a receiver is failed if and only if its first bad check is violated, in error if and only if nothing was collected or that check could not be created, passed if and only if all checks hold |
| Outcomes.VerdictOf | internal/core/services/orchestrator.go:408-437 | each entry carries the kind of its own receiver, its step, and the text of its own error |
| Outcomes.MergeOutcome | internal/core/services/orchestrator.go:435-445 | in every completion order the status is error if it was or some collection is spoiled, else failed if it was or some first bad check is violated, else as before |
| Outcomes.Received | internal/core/services/orchestrator.go:298-309 | a fired attempt whose receivers all start: that status, one entry per receiver in completion order, an error text told once; it passes exactly if the status is passed |
| Outcomes.StartRefused | internal/core/services/orchestrator.go:291-296 | the first receiver that does not start ends the step in error, with its own text |
| Outcomes.NothingAwaited | internal/core/services/orchestrator.go:285-289 | a step that does not wait, or has no receivers, passes once its trigger fired and calls no receiver |
| Outcomes.SummaryJoins | internal/core/services/orchestrator.go:456-465 | the summary is the join of kind, step and error of the entries that did not pass |
| StepOutcomes.StepEnds | internal/core/services/orchestrator.go:238-325 | a step whose receivers all start, from status passed and over all its attempts, ends failed if and only if no trigger failed, no collection was spoiled and some first bad check is violated; in error if and only if it did not pass and a trigger failed or a collection was spoiled; it gives up only at the limit, with the text of the latest trigger error |
| StepOutcomes.StepDecides | internal/core/services/orchestrator.go:314-320 | a step that does not pass decides the result of the run |
| TriggerCalls.StepFires | internal/core/services/orchestrator.go:220-250 | a step fires its trigger, and counts it, at least once and within the limit read off the definition if it can be created and booked, else never |
| TriggerCalls.FiresBounded | internal/core/services/orchestrator.go:238-250 | in every run no step fires its trigger twice unless retry is enabled for more than one attempt, and then at most as often as the definition says |
| TriggerCalls.FiresWhenReached | internal/core/services/orchestrator.go:199-250 | in every run the trigger of a step is fired at all if and only if every step before passes and the step can be created and booked |
| TriggerCalls.FiresExactly | internal/core/services/orchestrator.go:238-250 | in every run, if every trigger of a step within the limit fails, it is fired exactly once, or exactly as often as the definition says when retry is enabled for more, provided the step is reached, and else never |
| TriggerCalls.AttemptsReported | internal/core/services/orchestrator.go:250-250 | the attempts reported are the triggers fired |
| TriggerCalls.VariablesReported | internal/core/services/orchestrator.go:312-332 | the variables reported are those the run ends with; a disabled run makes no call |
| Lifecycle.ReceiverLifecycle | internal/core/services/orchestrator.go:238-310 | a monitor of the calls accepts every run: attempts fire in order and only when no receiver runs, each receiver is started in its own attempt, collected once and then stopped once, and nothing starts after a start error or a release |
| Lifecycle.MonitorCounts | internal/core/services/orchestrator.go:359-399 | the monitor's sets are the counts of start, collect and stop calls in the record |
| Lifecycle.CollectedOnceStoppedOnce | internal/core/services/orchestrator.go:291-305 | in every run a receiver that started is collected exactly once and stopped exactly once, unless some receiver of the same attempt did not start: then never, either of them |
| Lifecycle.StartErrorLeaks | internal/core/services/orchestrator.go:291-296 | the exception is reached: with two receivers of which the second does not start, the record is the trigger, one start and one start error, and nothing more |
| Lifecycle.SchedulesExist | internal/core/services/orchestrator.go:401-449 | every test has completion orders of its receiver goroutines: first come first done, and the reverse |
| Lifecycle.OneEntryPerCollection | internal/core/services/orchestrator.go:437-437 | the results have one entry per collection, and their trigger indices never go down |
| RetryLaws.MergePasses | internal/core/services/orchestrator.go:435-454 | from a passed status the merge stays passed exactly when every collection holds, from any other it never gets back |
| RetryLaws.NeverRescued | internal/core/services/orchestrator.go:244-310 | a step whose receivers once failed never passes |
| RetryLaws.AttemptsPass | internal/core/services/orchestrator.go:244-310 | a step passes if and only if the first attempt whose trigger fires within the limit has its receivers pass |
| RetryLaws.ReserveBooks | internal/core/services/orchestrator.go:335-351 | the reservations of a step succeed exactly when its requests can be booked one after another |
| RetryLaws.BookedWhenFree | internal/adapters/secondary/store/memory.go:74-87 | a list of requests is booked if and only if each recipient is free when asked for and none is asked for twice within the TTL |
| RetryLaws.RetryOutcome | internal/core/services/orchestrator.go:199-333 | an enabled run passes if and only if every trigger can be created, every recipient is free, and in every step the first attempt that fires needs no receivers or sees all of them start and pass; receiver assertions hold no counter operator |
| RetryLaws.ReceiverFailureIsFinal | internal/core/services/orchestrator.go:244-310 | in any step: if the receivers of the first firing attempt do not all start and pass, no later attempt makes the run pass |
| RetryLaws.SameRecipientTwiceFails | internal/core/services/orchestrator.go:228-236 | a run that asks for one recipient twice within the TTL, in one step or two, does not pass |
| ReservationLaws.ReserveLedger | internal/core/services/orchestrator.go:335-351 | what a reservation call books is new, held, and recorded, and the store agrees with the record |
| ReservationLaws.ReleaseLedger | internal/core/services/orchestrator.go:353-357 | what is released is free and held no longer |
| ReservationLaws.StepsConserve | internal/core/services/orchestrator.go:220-236 | from any step on, the run gives back all it books, except in a step that is refused |
| ReservationLaws.ReservationConservation | internal/core/services/orchestrator.go:220-236 | a run within the TTL ends holding nothing, or exactly what the refused step had booked; held recipients are booked in its name, the others it booked are free, all the rest is as before |
| ReservationLaws.RefusedStepLeaves | internal/core/services/orchestrator.go:228-234 | the exception is reached: of two recipients somebody else holds the second, and the first stays booked in the name of the run that has returned |
| ReservationOrder.HeldUntilReturn | internal/core/services/orchestrator.go:228-236 | at every trigger or receiver call of a run, everything it booked so far, in this step and all earlier ones, is still held: releases come last |
| ReservationOrder.ReleasesOnlyHeld | internal/core/services/orchestrator.go:335-357 | a run within the TTL never releases a recipient that it does not hold at that moment, which is the discipline that mutual exclusion assumes |
| ResultCache.Server.StoreResult | internal/adapters/primary/api/server.go:165-184 | map and order list after storing, within the invariant |
| ResultCache.Server.ResultByID | internal/adapters/primary/api/server.go:258-277 | the stored result, or not found |
| ResultCache.Server.Results | internal/adapters/primary/api/server.go:287-295 | the listing is the queue, and meets no missing entry |
| ResultCache.StoreRefines | internal/adapters/primary/api/server.go:165-184 | storing is the queue operation: update in place, or append and evict the oldest |
| ResultCache.CacheIsQueue | internal/adapters/primary/api/server.go:165-184 | after every trace the ids are distinct, exactly the keys, at most 100, and the contents those of the queue |
| ResultCache.LatestStay | internal/adapters/primary/api/server.go:165-184 | of results of different runs the cache holds exactly the latest hundred, in order |
| ResultCache.StoredInPlace | internal/adapters/primary/api/server.go:165-184 | a run that is stored again keeps its place |
| ResultCache.LookupIsLast | internal/adapters/primary/api/server.go:258-277 | a read shows the latest stored result of its id or nothing |
| ResultCache.FinalStaysFinal | internal/adapters/primary/api/server.go:220-244 | if each run stores running at most once and its final result last, a read after the final result shows it or nothing |
| ResultCache.MoveKeepsConsistent | internal/adapters/primary/api/server.go:198-245 | with unique run ids every step of the handlers keeps that order of stores |
| ResultCache.PollingIsMonotone | internal/adapters/primary/api/server.go:198-277 | in every interleaving of async and sync handlers, with evictions, no read after a run's final result shows anything else but nothing |

## Left out

- HTTP, IMAP, cron, SQL and Redis transport, logging, routing and authentication: I/O. Of the Postgres statements the model keeps the effect on two tables, and takes the purge to succeed.
- The Redis store: its expiry lives in the server. Only the reservation TTL it declares is used.
- Each store operation reads the clock once; in the code a purge and the statement after it read it a few instants apart.
- YAML loading and environment substitution. Message serialization is taken as the identity; a store operation that fails for the database or the serializer is not modelled.
- Assertions: each is an arbitrary predicate of the rendered field, the rendered value and the fields or message.
- Printing of scalars with %v and lower-casing of a character: arbitrary functions in FlatIndex.Printer; lower-casing keeps the length of a string.
- FlatIndex.FlattenMap: for objects whose keys are empty, hold a dot, or collide after lower-casing it does not relate the index to navigation, only to the keys and values that are reached.
- RequestGuard.RequestStopped: assumes of the serializer that its text holds a placeholder exactly if a key or text of the tree does. A form body is looked at only after percent-encoding, where its placeholders are not seen; for it HttpTrigger.Execute and RequestGuard.HeadStopped state the guard.
- Random texts are arbitrary, and free of braces where the guard is exact. randomInt with 19 or more digits overflows in the code and is not modelled.
- A nil body and an empty header map are not told apart from empty ones where the code only ranges over them.
- Engine.TestRun.CollectAndAssert: the outcome of each receiver assertion is scripted; the rendering of its field and value over the shared variables is not modelled. With a counter operator there the goroutines would write that map without a lock.
- EngineLaws.ReceiveKeeps: therefore holds of receiver assertions without counter operators.
- SharedRuns.EnginesExclude: a run is told by its calls and the answers it gets, which must begin a record of the engine over some store and clock; the runs share nothing else.
- VariablesBlock.BlockOrderFreeExactly: says nothing of blocks whose values use counters or generators.
- The receiver of type api, which writes the shared variables without a lock, is not modelled.
- Time-outs, delays, durations and timestamps of results; failure notification; provider extractors.
- RunSequence and the endpoint that runs a sequence: they call single runs one after another.
- Concurrent panics and crashes of the process.
- Engine.RunTest: runs alone on its store with scripted clock readings; interleavings of several runs on one store are the subject of Reservations, SharedRuns and Delivery.
