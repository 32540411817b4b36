# Verified model of the ERP's stateful algorithms

A Dafny 4.11 model of the parts of the ERP whose correctness depends on state kept across calls:
stock valuation by FIFO cost layers, one-time codes and the tool-calling turn of the WhatsApp support
agent, fiscal calendars, the chart-of-accounts flattener, the audit hash chain, the encrypted session
store and address codec of the WhatsApp service, and the zero-sum ledger validator.

`dafny verify dfyconfig.toml` checks everything. Code that changes state in the source is a class or a
method here, proved against a specification function; what the source promises is then proved about
those functions, over all inputs and all runs.

| file | what it models |
|---|---|
| `Fifo.dfy`, `FifoLedger.dfy`, `FifoRuns.dfy` | the consumption loop over cost layers; the trigger on ledger inserts, with rollback; what every run of inserts keeps |
| `FifoReceipts.dfy` | what is accepted and booked, receipts and their layers over every run, and the order of issue by posting time |
| `Otp.dfy`, `OtpRuns.dfy` | sending and checking one-time codes under a session that flushes late; what every run keeps |
| `OtpBounds.dfy`, `OtpTurns.dfy` | bounds on codes and comparisons; what a verification means, and how often a code can match |
| `OtpUsable.dfy` | when a code is sent, how long it can be used, and what ends its use |
| `OtpForgotten.dfy` | turns whose checks are compared and then forgotten, and runs of them |
| `Turn.dfy` | the bounded tool-calling turn |
| `Fiscal.dfy` | monthly periods and default fiscal years on the Gregorian calendar |
| `Chart.dfy`, `ChartText.dfy`, `ChartProps.dfy` | the flattener with its renaming loop; what it reads in texts; unique codes and the shape of the tree |
| `Audit.dfy` | appends, the chain, its verifier, and what the head hash commits to |
| `AuthStore.dfy`, `AuthRollback.dfy`, `Address.dfy` | sealed auth records, their map and table; sets that roll back; the address codec |
| `ZeroSum.dfy` | the ledger validator |
| `Wrappers.dfy`, `Math.dfy`, `Sums.dfy`, `Text.dfy` | optional values; minimum and maximum; sums over sequences; decimal numerals and ':'-separated text |

How the source is read:

- Quantities and costs with four decimals are integers in ticks of 1e-4, so a quantity times a cost is
  exact in ticks of 1e-8. The layer table is kept in the order of its index (received_at, layer_id);
  `Fifo.SelectIsTheQuery` shows the cursor then returns what the query asks for, in its order.
- A raised exception is an outcome with the state unchanged. Transactions run one after another.
- The session of a support turn neither flushes on its own nor reloads what it has read
  (src/erp/db/session.py:9-15). A one-time code's `attempts` and `used_at` are therefore kept three times:
  committed, flushed (what queries see) and in memory (what a check changes). A flush fails on more than
  five attempts (alembic/versions/017_whatsapp_support_channel.py:257), and when the database refuses what
  the flushing tool itself writes, such as an issue number already taken (src/erp/db/models/support.py:119);
  the latter is an input, `refused`. The rest of that turn's tools then fail, and its end rolls back to the
  last commit.
- Times come from one clock. The stamp of a new one-time code row may be later than the `now` read
  before it, and a failed delivery is noticed later still.
- The keyed digest, SHA-256, the cipher, Unicode case folding, the language model and the tools are
  function parameters. Nothing is assumed of them beyond what a lemma's `requires` says. No lemma assumes
  that a digest is free of collisions: each names the two texts that would have to collide.

Where the code does not do what one would expect, the model follows the code:

- Monthly periods: a fiscal year that starts and ends on one day gets no period, and one that ends on the
  first of a month leaves that day in no period (`Fiscal.PeriodsCoverExactlyWhen`). When the last period is
  December 9999 the generator fails, because it computes the month after it (`Fiscal.GenerateMonthlyPeriods`).
- One-time codes: checks count only once they are flushed. Within a turn a used or exhausted challenge is
  found again, so one code can match twice (`OtpTurns.MatchRepeats`); a challenge has one match exactly when
  no check matches it while an earlier match waits to be flushed (`OtpTurns.OneMatchExactlyWhen`).
- Checks that bring a challenge above five attempts, or that come before a refused flush, are compared and
  then all forgotten (`OtpForgotten.ForgottenTurn`, `OtpForgotten.RefusedTurn`; exactly when:
  `OtpBounds.CountedExactlyWhen`). So the comparisons of a code's five minutes are bounded only by the time
  that turns take: the model's turns may follow each other at any times, equal ones included
  (`OtpForgotten.ComparisonsHaveNoBound` with nothing refused, `OtpForgotten.RefusalsHaveNoBound` with no row
  above five). The counted ones stay within fifteen in 55 minutes (`OtpBounds.AtMostFifteenCounted`), and so do
  all of them when neither happens (`OtpBounds.AtMostFifteenCompared`).
- The docstring of the generator speaks of 12 periods; the code gives as many as the span has months, up to 12.
- The chart flattener checks codes below the roots but not the roots' own, so roots of different names and one
  slug repeat a code (`ChartProps.CodesDistinctExactlyWhen`, `ChartProps.EqualRootsCollide`,
  `ChartProps.CaseOnlyRootsCollide`).
- The audit encoding does not escape ':' (`Audit.AmbiguousExactlyWhen`).
- A session's `set` that rolls back leaves its map as its updates made it; map and table then agree exactly
  when those updates write back what was there (`AuthRollback.RollbackAgreesExactlyWhen`).

## Model

| member | source | states |
|---|---|---|
| Fifo.TakeDequeues | alembic/versions/043_persist_stock_fifo_layers.py:90-111 | the rows written by an issue are, unit by unit, the front of the unit queue, what stays in the layers is its back, and the front is as long as asked for or as stock reaches |
| Fifo.TakeCostsItsUnits | alembic/versions/043_persist_stock_fifo_layers.py:100-110 | an issue removes exactly the first units of the queue and its total cost is exactly their sum |
| Fifo.TakeDrawsOnce | alembic/versions/043_persist_stock_fifo_layers.py:53-53 | the rows of one issue name pairwise distinct layers, as the unique index demands |
| Fifo.TakeDraws | alembic/versions/043_persist_stock_fifo_layers.py:100-108 | every row has a positive quantity and carries the id and cost of an open layer of the key |
| Fifo.TakeLayers | alembic/versions/043_persist_stock_fifo_layers.py:102-104 | each layer loses exactly what the rows say it lost, stays non-negative, and nothing else about it changes |
| Fifo.TakeOldestFirst | alembic/versions/043_persist_stock_fifo_layers.py:91-111 | every open layer ordered before a touched one ends exhausted |
| Fifo.TakeSplits | alembic/versions/043_persist_stock_fifo_layers.py:90-111 | taking a and then b leaves every layer as taking a + b does, serves the same units in the same order and costs the same |
| Fifo.SelectIsTheQuery | alembic/versions/043_persist_stock_fifo_layers.py:91-97 | the cursor holds exactly the open layers of the key, by received_at and then layer_id |
| Fifo.TakeStep | alembic/versions/043_persist_stock_fifo_layers.py:98-110 | one iteration draws from the first selected row and leaves the rest of the issue to be done as before |
| FifoLedger.RoundHalfAway | alembic/versions/043_persist_stock_fifo_layers.py:116-117 | the nearest integer to a quotient, halves away from zero |
| FifoLedger.RateStaysWithin | alembic/versions/043_persist_stock_fifo_layers.py:116-116 | a total between lo and hi times the quantity rounds to a rate between lo and hi |
| FifoLedger.ReceiptCost | alembic/versions/043_persist_stock_fifo_layers.py:88-88 | the incoming rate if it is positive, the valuation rate if the incoming one is zero and that one positive, and zero otherwise |
| FifoLedger.Place | alembic/versions/043_persist_stock_fifo_layers.py:39-39 | a new layer stands behind the layers it does not precede and before the first it does |
| FifoLedger.StockDatabase.InsertEntry | alembic/versions/043_persist_stock_fifo_layers.py:76-127 | an insert is refused exactly for a taken id or for too little stock, with nothing changed; otherwise the state is that of Post |
| FifoLedger.StockDatabase.ApplyFifoLayer | alembic/versions/043_persist_stock_fifo_layers.py:76-121 | the trigger's branches: cancelled, receipt, issue, neither |
| FifoLedger.StockDatabase.IssueFifo | alembic/versions/043_persist_stock_fifo_layers.py:90-118 | the shortage raised is the issued quantity less the key's total; without one, layers, rows and the rewritten entry are those of the specification |
| FifoLedger.StockDatabase.ConsumeLayers | alembic/versions/043_persist_stock_fifo_layers.py:90-111 | the loop over the cursor computes the layers, rows, cost and shortage of Take |
| FifoRuns.RunKeepsConsistent | alembic/versions/043_persist_stock_fifo_layers.py:36-53 | after every run the CHECK constraints hold, ids and (entry, layer) pairs are unique, received less remaining is what each layer's rows took, each issue's rows sum to its quantity, and its rate and value are booked from their exact cost |
| FifoRuns.RunKeepsSources | alembic/versions/043_persist_stock_fifo_layers.py:40-40 | after every run no ledger entry is the source of two layers |
| FifoRuns.StepServesTheQueue | alembic/versions/043_persist_stock_fifo_layers.py:89-118 | an accepted issue serves the front of its own queue and books the cost of those units |
| FifoRuns.StepLeavesOtherKeys | alembic/versions/043_persist_stock_fifo_layers.py:93-94 | an insert for one key leaves every other key's queue as it was |
| FifoRuns.ReceiptEnqueues | alembic/versions/043_persist_stock_fifo_layers.py:79-88 | a receipt puts its units into the queue at the place of its layer, and moves no other unit |
| FifoRuns.PlaceIsByDate | alembic/versions/043_persist_stock_fifo_layers.py:96-96 | that place is behind exactly the layers that do not come after it in the order of the query |
| FifoReceipts.ReceiptPostedLastGoesLast | alembic/versions/043_persist_stock_fifo_layers.py:79-88 | an accepted receipt posted after every layer in stock puts its quantity, at its cost, at the back of its queue |
| FifoRuns.RunConservesStock | alembic/versions/043_persist_stock_fifo_layers.py:79-119 | over every run, key by key, total remaining changes by the accepted actual quantities |
| FifoRuns.RunFromSeed | alembic/versions/043_persist_stock_fifo_layers.py:57-66 | from the opening seed on, total remaining is positive opening stock plus accepted movements, for every key |
| FifoRuns.SeedTotal | alembic/versions/043_persist_stock_fifo_layers.py:57-66 | the seeded layers of a key hold exactly its positive stock |
| FifoRuns.SeedLayersOk | alembic/versions/043_persist_stock_fifo_layers.py:57-66 | seeded layers are full, in order and meet the constraints |
| FifoRuns.TakeConservesValue | alembic/versions/043_persist_stock_fifo_layers.py:100-109 | the value of the layers falls by exactly the total cost |
| FifoRuns.RunValue | alembic/versions/043_persist_stock_fifo_layers.py:100-118 | over every run no value is lost between layers, receipts and rows, and the values booked for k issues stay within k times 0.00005 of their exact cost |
| FifoRuns.BookedRateWithinConsumed | alembic/versions/043_persist_stock_fifo_layers.py:115-118 | the rate booked for an issue lies between the least and the greatest unit cost it consumed |
| FifoRuns.SplitIssue | alembic/versions/043_persist_stock_fifo_layers.py:89-119 | two issues are accepted exactly when the one issue of their sum is, and leave the same layers at the same summed cost |
| FifoReceipts.AcceptedExactlyWhen | alembic/versions/043_persist_stock_fifo_layers.py:89-114 | an insert is accepted exactly when its ids are new and, for an issue, the uncancelled layers of its key hold the quantity; a shortage names what is missing |
| FifoReceipts.StepAppendsEntry | alembic/versions/043_persist_stock_fifo_layers.py:76-119 | an accepted entry goes to the end of the ledger with only an issue's two booked columns rewritten; cancelled and empty entries touch nothing else, refused ones nothing at all |
| FifoReceipts.BookedIsRounded | alembic/versions/043_persist_stock_fifo_layers.py:115-118 | the rate and the value booked for an issue are its rows' cost per unit and in all, rounded to four decimals, halves up |
| FifoReceipts.RunKeepsReceipts | alembic/versions/043_persist_stock_fifo_layers.py:79-88 | after every run each layer with a source has its receipt in the ledger, with the same key, posting time, quantity and cost, and each receipt has such a layer |
| FifoReceipts.FirstPostedFirstIssued | alembic/versions/043_persist_stock_fifo_layers.py:87-97 | an accepted issue that draws from the layer of one receipt leaves nothing in the layer of any receipt of the key posted before it, or at one time under a smaller layer id |
| FifoReceipts.RunIssuesInOrder | alembic/versions/043_persist_stock_fifo_layers.py:57-111 | the same after any run from an opening stock |
| FifoReceipts.SeedIsOpeningStock | alembic/versions/043_persist_stock_fifo_layers.py:57-66 | the seeded layers are exactly those of the positive stock levels, dated by creation or else now, at the valuation rate or zero |
| Otp.Latest | src/erp/ai/whatsapp_support_agent.py:448-460 | an active challenge created last, and none only if there is none |
| Otp.CheckOutcome | src/erp/ai/whatsapp_support_agent.py:445-466 | only a challenge of the conversation that is active by its flushed columns is ever compared |
| Otp.SupportDesk.SendCustomerOtp | src/erp/ai/whatsapp_support_agent.py:397-443 | the send tool: no lead, limit, failed flush, delivered and failed delivery, with all three states of the tables after each |
| Otp.SupportDesk.VerifyCustomerOtp | src/erp/ai/whatsapp_support_agent.py:445-478 | the verify tool changes memory only: attempts, use at the fifth wrong code or at the right one, and the grant |
| Otp.SupportDesk.Flush | src/erp/workflows/support/issue_service.py:97-98 | a flush or commit by another tool succeeds exactly when the database accepts what that tool writes and no row of the conversation holds more than five attempts; otherwise it rolls the turn back |
| Otp.SupportDesk.EndTurn | src/erp/api/deps.py:22-32 | the end of a turn commits what can be flushed and otherwise goes back to the last commit |
| Otp.SupportDesk.DropVerification | src/erp/ai/whatsapp_support_agent.py:298-301 | a vanished lead ends its conversation's verification at every later time and touches no other |
| OtpRuns.RunKeeps | src/erp/ai/whatsapp_support_agent.py:401-478 | every run keeps at most one unused challenge a conversation, unused ones below five attempts; committed, flushed and held attempts equal to the comparisons that got that far; a match marks its row wherever it is counted; and every verification, held or committed, is backed by a match of its own standing |
| OtpRuns.UsedIsFinal | src/erp/ai/whatsapp_support_agent.py:448-456 | a challenge whose use is committed is never changed again by any event |
| OtpRuns.FlushedUseLasts | src/erp/ai/whatsapp_support_agent.py:448-456 | a flushed use stays as it is through every event but a rollback of its turn before the commit |
| OtpUsable.SendsExactlyWhen | src/erp/ai/whatsapp_support_agent.py:397-411 | in a working session a code is issued exactly for a lead, with fewer than three codes in the last hour and no row above five attempts; every other outcome likewise |
| OtpUsable.RunStands | src/erp/ai/whatsapp_support_agent.py:421-432 | after any run the row of a send has its conversation, lead, creation stamp, expiry five minutes after the send, and the digest of tenant, conversation, lead and code |
| OtpUsable.UsableExactlyWhen | src/erp/ai/whatsapp_support_agent.py:448-478 | after any run a delivered code that is its conversation's last and has no match flushed is found by a check exactly within its five minutes and while fewer than five wrong codes of it have been flushed; its own code then verifies, and another only by collision |
| OtpUsable.FailedCodeIsNeverFound | src/erp/ai/whatsapp_support_agent.py:439-442 | after any run a code whose delivery failed is compared with nothing |
| OtpBounds.CountedExactlyWhen | src/erp/workflows/support/issue_service.py:97-98 | a challenge's checks since the last flush are all counted, at a flush or at the end of the turn, exactly when that is not refused for something else and they and the stored attempts are at most five; otherwise all are forgotten and the row is as last committed |
| OtpBounds.AtMostThreeCodesAnHour | src/erp/ai/whatsapp_support_agent.py:401-432 | no closed hour of any run issues a conversation more than three codes |
| OtpBounds.AtMostFifteenCounted | src/erp/ai/whatsapp_support_agent.py:447-474 | no 55 minutes of any run compare and count more than fifteen codes for a conversation |
| OtpBounds.AtMostFifteenCompared | src/erp/ai/whatsapp_support_agent.py:447-474 | nor do they compare more, counted or not, if nothing else that the conversation writes is refused and no row ever holds more than five attempts |
| OtpBounds.FiveComparedExactlyWhen | alembic/versions/017_whatsapp_support_channel.py:257-257 | in a run with nothing refused, no challenge ever has more than five comparisons, counted or not, exactly when no row ever holds more than five attempts |
| OtpTurns.OneMatchExactlyWhen | src/erp/ai/whatsapp_support_agent.py:468-475 | through a whole run a challenge has at most one match that stands, exactly when no check finds it with a code of its digest while an earlier match waits to be flushed |
| OtpTurns.MatchRepeats | src/erp/db/session.py:9-15 | a code that has just verified verifies again in the same turn and renews the verification |
| OtpForgotten.ForgottenTurn | src/erp/api/routes/whatsapp.py:1117-1118 | wrong checks that bring a row above five attempts are compared, and the turn's end leaves the desk as if they had not been |
| OtpForgotten.RefusedTurn | src/erp/workflows/support/issue_service.py:97-98 | so are any number of wrong checks, one included, before a tool whose own flush is refused |
| OtpForgotten.ComparisonsHaveNoBound | src/erp/api/routes/whatsapp.py:1117-1118 | any run that leaves one attempt counted goes on, for any ascending times in the code's life, by a turn of five more comparisons at each and is left with one attempt, with at most five tool calls a turn and nothing refused |
| OtpForgotten.RefusalsHaveNoBound | src/erp/workflows/support/issue_service.py:97-98 | and one that leaves one attempt at most goes on likewise by four comparisons a turn and a refused flush, with no row ever above five |
| OtpForgotten.SuchRunsExist | src/erp/ai/whatsapp_support_agent.py:421-474 | sending a code, and checking it wrongly in the next turn, gives runs for both |
| OtpTurns.VerifiedMeansCodePresented | src/erp/ai/whatsapp_support_agent.py:184-189 | whoever is verified presented, less than 30 minutes earlier, the very code sent for that conversation and lead, before it expired, or one whose digested text collides with that code's |
| OtpTurns.VerifiesExactlyWhen | src/erp/ai/whatsapp_support_agent.py:446-478 | a check verifies exactly with the code of the one challenge active by its flushed columns, or with one whose digested text collides with that code's |
| OtpTurns.SentCodeVerifies | src/erp/ai/whatsapp_support_agent.py:421-443 | a delivered code verifies for five minutes, and then the conversation for thirty |
| OtpTurns.VerificationLastsExactlyWhen | src/erp/ai/whatsapp_support_agent.py:468-478 | the end of the turn commits a verification and the use of its code exactly when fewer than five attempts were held before it, and otherwise takes both back |
| OtpTurns.DigestIsBound | src/erp/ai/whatsapp_support_agent.py:178-181 | with ids free of ':' two digests are equal exactly if tenant, conversation, lead and code are, or their two texts collide |
| Turn.ConfiguredMeansEnabled | src/erp/ai/whatsapp_support_agent.py:137-141 | bindings only narrow the nine registered tools, to those with an enabled row, and no row at all leaves them all |
| Turn.WellFormedMeansAnswered | src/erp/ai/whatsapp_support_agent.py:585-634 | in a well-formed transcript an assistant message with k calls is followed by exactly k replies with their ids in order |
| Turn.AnswerCalls | src/erp/ai/whatsapp_support_agent.py:592-634 | the inner loop answers every call of a response: run, not enabled, failed or over the limit |
| Turn.Respond | src/erp/ai/whatsapp_support_agent.py:585-634 | a response with calls joins the transcript, followed by its replies, and the counters stay in step |
| Turn.RanIsBounded | src/erp/ai/whatsapp_support_agent.py:593-619 | at most five tools run, all of them enabled |
| Turn.RunSupportTurn | src/erp/ai/whatsapp_support_agent.py:533-638 | at most six model calls: the first on prompt, last twenty messages and cut inbound text, each next on the one before with the response and a reply to each of its calls; each of the first five calls answered by its tool's outcome and no other run; the turn ends with no answer, an empty one, or the first 4000 characters of the stripped one, handed off exactly if a counted escalation confirmed it; and after six rounds otherwise |
| Fiscal.GenerateMonthlyPeriods | src/erp/auth/provisioning.py:62-99 | the loop yields the periods of the specification, or fails exactly when the month after the last lies beyond year 9999 |
| Fiscal.OverflowsExactlyWhen | src/erp/auth/provisioning.py:92-96 | the generator fails exactly when its last period would be December 9999 |
| Fiscal.CursorBelowEnd | src/erp/auth/provisioning.py:73-73 | the closed form of the number of periods is the loop's own bound |
| Fiscal.PeriodsAreContiguous | src/erp/auth/provisioning.py:69-99 | periods carry their fiscal year, are numbered from 1, the first starts at the start, none passes the end, and each starts the day after the one before it ends |
| Fiscal.InByMonth | src/erp/auth/provisioning.py:74-96 | a date lies in the i-th period exactly when it lies in that month and within the year |
| Fiscal.PeriodsAreDisjoint | src/erp/auth/provisioning.py:69-99 | no date lies in two periods |
| Fiscal.PeriodsCoverExactlyWhen | src/erp/auth/provisioning.py:73-99 | every date of the year lies in a period exactly when the year is empty, or ends after it starts, not on the first of a month, and touches at most 12 months |
| Fiscal.NoPeriodExactlyWhen | src/erp/auth/provisioning.py:73-73 | a year gets no period exactly when it does not end after it starts, as a one-day year |
| Fiscal.CountryInfoAligned | src/erp/auth/fiscal_years.py:19-222 | whatever the country name, its year is twelve months from the first of a month |
| Fiscal.CountryInfoIs | src/erp/auth/fiscal_years.py:203-222 | every row's own name gives that row's year; another name that of the first row equal to it but for case, or January to December |
| Fiscal.CountryYears | src/erp/auth/fiscal_years.py:19-200 | nine of the twenty countries have years from July, April or March, the others that of the calendar |
| Fiscal.DefaultYearIsAYear | src/erp/auth/provisioning.py:183-195 | for every country name and date, the default year exists exactly for start years 1 to 9998, starts no later than today, has 12 periods ending with it, starts and ends on the days of the country's row, and holds today unless today is 29 February and the year ends in February |
| Chart.MakeFresh | src/erp/auth/chart_of_accounts_loader.py:230-236 | the renaming loop ends after at most one try more than there are codes seen, with the name itself or the first free candidate |
| Chart.FreshCodeIsUnique | src/erp/auth/chart_of_accounts_loader.py:230-236 | those rules leave no choice of code |
| Chart.TriedCount | src/erp/auth/chart_of_accounts_loader.py:233-235 | distinct counters give distinct candidates |
| Chart.ChartBuilder.Traverse | src/erp/auth/chart_of_accounts_loader.py:220-247 | the recursive traversal over shared state computes the specification's list and codes |
| Chart.ChartBuilder.Build | src/erp/auth/chart_of_accounts_loader.py:202-215 | no template or an empty one gives the standard accounts, any other the built chart |
| Chart.ChartBuilder.BuildFrom | src/erp/auth/chart_of_accounts_loader.py:249-272 | the loops over roots and over core accounts compute the specification's list |
| ChartText.TypeOfText | src/erp/auth/chart_of_accounts_loader.py:22-36 | which of the five types a root type gives, by the words that occur anywhere in it, in their order of precedence |
| ChartText.RootTypes | src/erp/auth/chart_of_accounts_loader.py:22-36 | the five root types of ERPNext give the five types |
| ChartText.SlugOfName | src/erp/auth/chart_of_accounts_loader.py:70-77 | a slug is the first 32 characters of the name's words joined by dashes, or after a number the first 16, without outer dashes |
| ChartText.FreshIsRenamed | src/erp/auth/chart_of_accounts_loader.py:229-236 | a taken code becomes the first free one of its first 28 characters, a dash and a number from 1 on |
| ChartText.StandardAccountsAreTyped | src/erp/auth/chart_of_accounts_loader.py:94-199 | the seventeen standard accounts have no parents, and codes that start with the digit of their type |
| ChartText.StandardCodesApart | src/erp/auth/chart_of_accounts_loader.py:94-199 | and no two of them have one code |
| ChartProps.SlugShape | src/erp/auth/chart_of_accounts_loader.py:76-77 | an unnumbered slug has at most 32 characters of the code alphabet, no leading or doubled dash, and the first letters and digits of the name |
| ChartProps.NumberedSlugShape | src/erp/auth/chart_of_accounts_loader.py:72-75 | a numbered slug has no outer dash, and its letters and digits are those of the number and then of the shortened name |
| ChartProps.FlattenKeeps | src/erp/auth/chart_of_accounts_loader.py:220-247 | below a root no code is ever repeated |
| ChartProps.CodesDistinctExactlyWhen | src/erp/auth/chart_of_accounts_loader.py:249-270 | codes are pairwise distinct exactly when no root's slug was already taken; every core account is present |
| ChartProps.EqualRootsCollide | src/erp/auth/chart_of_accounts_loader.py:253-254 | any two roots of one slug, whatever their names, repeat a code |
| ChartProps.CaseOnlyRootsCollide | src/erp/auth/chart_of_accounts_loader.py:249-254 | as roots "Assets" and "ASSETS" do |
| ChartProps.ChartShowsTree | src/erp/auth/chart_of_accounts_loader.py:220-270 | the list is the tree in pre-order, one account a node, each of the type said by the nearest root type upwards, with its slug for code, renamed below the roots if an earlier account has it, and with parent codes naming the parent's earlier account; followed by core accounts only |
| ChartProps.ParentCodeIdentifiesParent | src/erp/auth/chart_of_accounts_loader.py:238-247 | with distinct codes a parent code names the parent and nothing else, so the tree can be read back |
| Audit.AuditStore.Append | src/erp/audit/logger.py:37-69 | an append records its action and names the hash of the tenant's row with the latest timestamp, or null, or genesis for a provisioning |
| Audit.LatestIsLast | src/erp/audit/hasher.py:51-63 | with growing timestamps the latest row is the last of the tenant's log |
| Audit.LogIsByTime | src/erp/mesh/soc2_auditor.py:120-125 | read by timestamp, a tenant's rows are in the order of insertion |
| Audit.VerifyChain | src/erp/mesh/soc2_auditor.py:45-113 | the verifier counts the blocks that do not name the hash before them or do not recompute, and certifies exactly the non-empty logs without one |
| Audit.RunIsChained | src/erp/auth/provisioning.py:259-312 | under any interleaving of appends each block of each tenant's log names the hash of the one before it, the first 64 zeros, and hashes that, its trace, agent and payload joined by ':' |
| Audit.EncodeInjective | src/erp/audit/hasher.py:29-29 | without ':' in the first three parts the hashed text determines all four |
| Audit.HeadCommits | src/erp/audit/hasher.py:27-30 | from two chains with one head and different contents one computes a collision between a text hashed in the one and a text hashed in the other, or a hashed text of theirs that gives genesis |
| Audit.EqualHeadsMeanEqualRuns | src/erp/audit/logger.py:37-69 | so two runs that end in one head recorded the same, or their own texts break the hash function |
| Audit.AmbiguousExactlyWhen | src/erp/audit/hasher.py:29-29 | another trace and agent give the same hashed text exactly when one of them contains ':' |
| AuthStore.HexRoundTrip | whatsapp-service/src/crypto.js:17-29 | bytes survive hexadecimal, which contains no ':' |
| AuthStore.HexDigitsOf | whatsapp-service/src/crypto.js:17-17 | two lower-case digits a byte, the higher one first |
| AuthStore.CaseDoesNotMatter | whatsapp-service/src/crypto.js:23-26 | and either case is read |
| AuthStore.DecryptEncrypt | whatsapp-service/src/crypto.js:12-30 | what encrypt writes decrypt reads back, whatever the nonce |
| AuthStore.RecordIsThreeParts | whatsapp-service/src/crypto.js:17-17 | a record is nonce, tag and ciphertext in hexadecimal, joined by ':' |
| AuthStore.DecryptedHasThreeParts | whatsapp-service/src/crypto.js:21-22 | only text with exactly two ':' is decrypted |
| AuthStore.LoadAuthState | whatsapp-service/src/connection-manager.js:70-78 | a load succeeds exactly when every row decrypts, and then maps exactly the rows' keys, each to the value of a row with that key; with no ':' in a record type there is only one |
| AuthStore.FreshLoadAgrees | whatsapp-service/src/connection-manager.js:76-80 | a session starts with map and table in agreement |
| AuthStore.AuthSession.Set | whatsapp-service/src/connection-manager.js:92-125 | a committed set applies all updates to both; a failed one restores the table but not the map |
| AuthStore.AuthSession.SaveCreds | whatsapp-service/src/connection-manager.js:129-138 | credentials go to the table only, and map and table still agree if they did |
| AuthStore.RunAgreesWithLoad | whatsapp-service/src/connection-manager.js:70-139 | after any run of committed sets and saves the map is what a fresh load gives, on every key but that of the credentials |
| AuthRollback.RollbackAgreesExactlyWhen | whatsapp-service/src/connection-manager.js:92-121 | after a rolled-back set map and table still agree exactly when, for every key but that of the credentials, the last applied update of it, if any, writes the value it had or deletes it where it was absent |
| AuthRollback.RollbackLeavesMapAhead | whatsapp-service/src/connection-manager.js:114-121 | so a rolled-back set of one new key always breaks that agreement |
| Address.TargetExactlyWhen | whatsapp-service/src/connection-manager.js:8-25 | a message is accepted exactly from 7 to 15 digits at the phone suffix or 1 to 20 at the LID suffix, and its phone is that number, that of a phone alias, or the LID with its prefix |
| Address.RecipientExactlyWhen | whatsapp-service/src/connection-manager.js:27-33 | a recipient is "lid:" with 1 to 20 digits or 7 to 15 digits, and has the address of its digits |
| Address.ReplyGoesBack | whatsapp-service/src/connection-manager.js:8-33 | replying to the phone of an accepted message never throws and gives the sender's address, or the phone alias of a LID sender |
| Address.RecipientRoundTrip | whatsapp-service/src/connection-manager.js:8-33 | reading back the address made for a recipient gives the recipient |
| Address.RecipientsApart | whatsapp-service/src/connection-manager.js:27-33 | two recipients never share an address |
| ZeroSum.ValidateZeroSum | crates/ledger_core/src/lib.rs:45-86 | Ok exactly for a non-empty, well-formed, balanced entry, with its total; otherwise the error of the first bad line, a negative amount before one-sidedness, or of the imbalance |
| ZeroSum.AcceptedIsDoubleEntry | crates/ledger_core/src/lib.rs:44-86 | an accepted entry moves a positive total and has a debit line and a credit line |
| ZeroSum.AcceptedPermutes | crates/ledger_core/src/lib.rs:54-85 | acceptance does not depend on the order of the lines |
| ZeroSum.LedgerBalances | alembic/versions/001_initial_schema.py:75-80 | a ledger of accepted entries only balances, and each of its lines meets the table's checks |

## Left out

- FifoLedger.StockDatabase.InsertEntry: does not model overflow of Numeric(18, 4) and Numeric(24, 8), foreign keys, or ledger entries older than the trigger.
- FifoLedger.RoundHalfAway: the quotient is exact before rounding; PostgreSQL first computes it to a limited number of digits.
- FifoRuns.RunKeepsConsistent: assumes no statement other than the trigger writes to the two tables; nothing in the migration cancels a layer or reverses a consumption.
- OtpRuns.RunKeeps: does not model the cascading deletion of leads, conversations or tenants. Turns of one conversation do not overlap: the row lock that serialises them is released by a commit in the middle of a turn, and what a second turn could do from there on is not part of this model.
- Otp.SupportDesk.VerifyCustomerOtp: whether the arguments have six digits is an input (`code` is None if not); the pattern itself is not modelled.
- Otp.SupportDesk.SendCustomerOtp: finding the registered lead, drawing the code and delivering it are inputs. A send that the database refuses before its commit is a refused flush; losing the connection between that commit and the mark of a failed delivery is not modelled.
- Turn.RunSupportTurn: the prompt, the provider request and the tools' own work are inputs; a call that is not a JSON object is not modelled.
- Fiscal.DefaultYearIsAYear: fiscal year starts and ends are pairs of numbers, not "MM-DD" texts; currencies, zones and the rest of the country table do not appear.
- Chart.ChartBuilder.Build: template values are well typed; a number where the source expects text, and an account named like a reserved key, are not modelled. Finding the template file is an input, and the currency field of accounts does not appear.
- Audit.RunIsChained: appends of one tenant are serial with growing timestamps; two appends that read one latest hash are not modelled. Payloads are their canonical JSON text; fields outside the hash do not appear.
- AuthStore.RunAgreesWithLoad: one tenant; `get` with its default for missing or falsy values, the JSON form of buffers and socket reconnection are not modelled.
- ZeroSum.ValidateZeroSum: exact amounts; the range and scale limits of the decimal type, and its panic on overflow, are not modelled.
- The autonomy tiers, the other migrations, the ORM and HTTP layers, the front end and the scripts are settled by reading them.
