# Tresqu backend: verified models

Dafny models of the deterministic parts of the Tresqu finance assistant, and proofs of what they promise.
`dafny verify dfyconfig.toml` checks everything.

## What is modelled

* **The per-user turn queue** (`TurnQueue`, `TurnExclusion`, `TurnAlone`, `TurnOrder`, `TurnWaiting`, `HeadScan`).
  Every Redis command is one atomic step, with a clock, expiring keys and a program counter for each turn. Any number
  of turns interleave; they may crash at any command. Mutual exclusion holds on every run. Order of grants holds on
  timely runs: heartbeats of running turns are fresh, leases are renewed in time, a waiter comes from one deadline
  test to the next within a lock's life and none passes its deadline, the EXPIRE after ZADD is in time, and a turn
  that joins ahead of another after the ZRANK of its final head check has a live heartbeat while that check lasts
  (`TurnOrder.Timely`). `HeadScan` takes `_is_head` as the loop it is, against other turns that rewrite the store
  arbitrarily between its commands; `TurnAlone` proves the same of the protocol, and what a turn does from its arrival
  to its end when nobody interferes.
* **The balance** (`Balance`, `BalanceReplay`, `BalanceTheorems`). The filtered queries of `compute_balance` against a
  plain replay of the movements in order, in which a declared initial balance sets the running total.
* **The calculator and number texts** (`Powers`, `DecimalArithmetic`, `DecimalExactness`, `DecimalRounding`,
  `DecimalOverflow`, `PowerAccuracy`, `Calculator`, `CalculatorBounds`, `CalculatorRounding`, `CalculatorPowers`,
  `NumberText`, `CalculatorText`, `NormalizeNumbers`, `ExpressionText`, `CalculatorReadback`, `Thousands`,
  `ThousandsReadback`). Python's decimal arithmetic is written out: a sign, a coefficient and an exponent, rounded to
  34 digits half to even (section 4.3.1 of IEEE 754-2008), with the inexact signal (section 7.6) as a flag that stays.
  What an expression means is given in real numbers; its value is that, or the nearest number, node by node.
* **The duplicate guard of a turn** (`DuplicateGuard`): counting mentions of an amount, and concurrent `create` calls
  under their lock.
* **Gmail events** (`GmailPipeline`, `GmailSearch`, `GmailRecording`, `GmailDuplicates`, `GmailSurprises`). Deliveries
  in two steps, a task run with its failure mark as one step, and any interleaving of them. A queued task may run any
  number of times, so queueing, the sweep of stale rows and Celery's retries add no behaviour. The parser and the
  judge may answer anything.
* **The relevance guard** (`BurstCounter`, `RelevanceGuard`, `RelevanceOverlap`, `RelevanceTopic`): burst, echo and
  mute with expiring keys; the streak of off-topic messages with the classifier as an oracle.
* **Monthly insights** (`Insights`, `InsightsBounds`, `InsightsReport`, `AnomalyBound`): the groupings, the growth
  list, the anomalies, and the report they make.
* **The OAuth state token** (`StateToken`): encoding, decoding, the nonce in the cache and the callback that uses it.

`Options`, `Sets`, `Sorting` and `Texts` hold what several of these share. Where the code updates state step by step,
a class or a loop does too, proved equal to a function; the theorems are about that function and whole runs of it.

## Where the code does less than its documentation says

* A failed task run marks the row as `error` without looking at its status. If it fails before it has read the status
  of a finished row, the row is no longer finished, and a redelivery then records the email a second time
  (`GmailSurprises.SecondRecord`). `GmailRecording.OnceIff` and `GmailRecording.CanRecordAgainIff` say exactly when.
* A webhook call saves the email over `ai_response` even if the task has finished the row in between. The stored
  reference is lost, and a second email of the same purchase makes a second record
  (`GmailSurprises.LateSaveMakesTwo`). `GmailDuplicates.NotesStay` says exactly which steps erase a reference, and
  `GmailDuplicates.SecondRecordIff` exactly when a purchase can be recorded again. If the row is a duplicate, it no
  longer names any record (`GmailSurprises.LateSaveForgets`). `GmailDuplicates.PointedStaysIff` is exact: a duplicate
  is left without its record by such a save on it, or by a failure as above on the row it names, and by nothing else.
* The search for duplicates looks at the three newest matches only. With enough purchases of one amount within
  minutes, the row with the same reference is not among them (`GmailSurprises.FourCandidatesMakeTwo`).
* The search for duplicates compares the amount as read with the amount as stored in cents, so an amount with a
  fraction of a cent never finds its twin (`GmailDuplicates.FractionsAreNotFound`, `GmailSurprises.FractionMakesTwo`).
* A creation that raises after it has recorded the movement is not noted, so the next identical call records another
  (`DuplicateGuard.RaisedIsForgotten`). The cap is passed by no more than the movements so lost
  (`DuplicateGuard.RecordedBound`), and exactly when one was recorded with the cap reached
  (`DuplicateGuard.BeyondCapIff`).
* The flood bound is lost when bumps of one sender's counter interleave, since the database cache increments by
  reading and then writing (`RelevanceOverlap.NoBoundWithOverlap`). What else the checks do may overlap
  (`BurstCounter.BumpBound`).
* The state token is checked for expiry before its nonce is consumed. A callback that decodes in time but consumes the
  nonce after the token has expired may find the nonce of an earlier use already dropped (`StateToken.UsedTwice`).
  `StateToken.GetsPastIff` is the exact condition; `StateToken.SingleUse` holds when the nonce is consumed in time.
* `_checked` compares the rounded size with 10^24, so a literal of more than 34 digits may exceed the bound by up to
  5 · 10^-10 (`CalculatorBounds.CheckedIff`, `CalculatorBounds.LongLiteralPasses`). Nothing computed exceeds it.
* `//` and `%` are the decimal ones, which truncate towards zero, unlike Python's on integers.
* A text such as "852.000" that `_thousands` prints is refused by the calculator as ambiguous, and "1.234,5" is
  refused by both readers: read exactly or not at all, as the two if-and-only-ifs of `ThousandsReadback` say.

## Model

| member | source | states |
|---|---|---|
| TurnExclusion.MutualExclusion | agents/turn_history.py:113-133 | on every run, crashes and expiries included, two turns in their body with the lock and a lease not yet run out are the same turn |
| TurnExclusion.LeaseAlways | agents/turn_history.py:162-191 | on every run, whoever believes in a live lease is the owner the lock names, with that expiry |
| TurnExclusion.ForeignLockUntouched | agents/turn_history.py:119-130 | no action of a turn changes a lock another turn holds; its own live lock goes exactly at its release |
| TurnExclusion.OwnerHoldsAlways | agents/turn_history.py:110-190 | on every run, a live lock belongs to a turn between its acquire and its release, or to one that crashed: nobody who has finished keeps it |
| TurnExclusion.LeaseBoundedAlways | agents/turn_history.py:37-39 | a lock or lease never reaches further than its TTL, so a crashed owner blocks no longer |
| TurnExclusion.WaitsWithinQueueLife | agents/turn_history.py:110-160 | on every run, a turn that comes from one deadline test to the next within a lock's life is never waiting past the life that its EXPIRE gives the queue key |
| TurnAlone.JoinsAlone | agents/turn_history.py:154-159 | undisturbed, a turn that arrives is in line, alive for a minute, in a line that lives as long as it may wait; nothing else changes |
| TurnAlone.ChecksHeadAlone | agents/turn_history.py:78-97 | undisturbed, the head check of the protocol finds out exactly whether somebody alive stands before the turn and removes exactly the dead who do |
| TurnAlone.AttemptsAlone | agents/turn_history.py:110-122 | undisturbed, an attempt ends in the body with the lock for a minute exactly if the turn is the first one alive and the lock is free, else resting; the turn stays alive for a minute |
| TurnAlone.TestsDeadline | agents/turn_history.py:120-122 | a resting turn goes on without the lock exactly when 150 seconds have passed, else it tries again |
| TurnAlone.FinishesAlone | agents/turn_history.py:182-198 | a turn that ends its body leaves nothing behind: out of line, no heartbeat, its lock free; nothing else changes |
| TurnAlone.RenewalProtects | agents/turn_history.py:125-133 | whatever the others do, for a minute after a renewal nobody gets the lock and nobody finds the turn dead |
| TurnAlone.FreshAlways | agents/turn_history.py:158 | on every run, a line that is due to expire has members and has not expired |
| TurnOrder.GrantOrder | agents/turn_history.py:100-122 | on a timely run, when the final head check of a turn lets it in, every turn before it that had joined by that check's ZRANK has its body behind it, or has crashed; if it was in line it has left the line, too |
| TurnOrder.OutOfLineIsOver | agents/turn_history.py:156-194 | while a turn makes its final check, a joined turn that is not in line, for instance because the queue key expired during its body, has its body behind it |
| TurnOrder.OrderAlways | agents/turn_history.py:136-198 | the invariant behind it: waiters stay in line while the queue key lives, lists under scan name only turns that joined, and every scan will still meet somebody alive if one stands ahead |
| TurnOrder.OrderInvKept | agents/turn_history.py:78-122 | every action of every turn, and time, keep that invariant between timely states |
| TurnQueue.RankIsLowerCount | agents/turn_history.py:87 | the rank of a member is the number of members before it |
| TurnQueue.Pigeonhole | agents/turn_history.py:87-91 | the first `rank` members of a line that changed in between hold the one who stayed ahead or a newcomer |
| HeadScan.IsHead | agents/turn_history.py:78-97 | under any interference it never answers True past somebody alive who stands ahead throughout; undisturbed it answers exactly whether nobody alive is ahead, and removes exactly the dead ahead |
| HeadScan.Probe | agents/turn_history.py:91-96 | one round of that scan keeps what the scan has established |
| HeadScan.SomebodyBlocks | agents/turn_history.py:87-97 | a scan of all members between ZRANK and its end cannot have found everybody harmless if somebody stood ahead throughout |
| HeadScan.Client.ZRem | agents/turn_history.py:96 | removes the member from whatever line it finds, after arbitrary interference |
| TurnWaiting.AcquireInOrder | agents/turn_history.py:110-122 | at most 301 attempts, the last one the first that is head, takes the lock and is still head, if any is; it leaves with the lock exactly when it was let in, gives up only past the deadline, and ends less than a lock's life after the deadline, within the life of the queue key |
| TurnWaiting.FirstInLineGetsIn | agents/turn_history.py:112-118 | first in line with the lock free, an undisturbed turn is in its body after four commands |
| Balance.LatestInitialBalances | expenses/balance.py:67-85 | for each currency, exactly the last candidate of the range, and none without a candidate |
| Balance.FindAnchors | expenses/balance.py:231-238 | the anchor of each currency: inside the period, or carried over from the two days before the first of the month |
| Balance.FindCurrencies | expenses/balance.py:240-251 | the currencies reported: those with a movement in the period or a carried balance, or the user's own |
| Balance.SortCurrencies | expenses/balance.py:251 | the currencies once each, the user's own first and the others by code |
| Balance.ComputeBalance | expenses/balance.py:187-296 | refused exactly when the range is inverted; otherwise one row for each currency to report, each the row of its currency, in that order |
| BalanceTheorems.AnchorIff | expenses/balance.py:231-238 | a row counts from the last initial balance of its period; without one, exactly in a period that begins on the first of a month and after an initial balance in the two days before, from the last of those |
| BalanceTheorems.RowIff | expenses/balance.py:240-251 | a currency has a row exactly with a movement in the period or such a carried balance, or as the user's own if there is none |
| BalanceTheorems.InitialIff | expenses/balance.py:52-55 | an initial balance is an income whose note or category is "saldo inicial", whatever its capitals |
| BalanceTheorems.RequestCovers | expenses/balance.py:212-230 | which days a request covers: the current month up to today, from a start up to today, between two dates, or everything |
| BalanceTheorems.LocalDayIff | expenses/balance.py:58-60 | a day changes at midnight in the user's zone |
| BalanceReplay.PeriodIsEffective | telegrambot/tools.py:876-902 | the dated and undated halves of the period query are one range of effective local days |
| BalanceReplay.AfterIsEffective | expenses/balance.py:88-109 | the dated and undated halves of the anchor query are one order of (effective day, recorded at) |
| BalanceReplay.ReplayCounts | expenses/balance.py:273-282 | replaying a sorted run, with resets, gives the anchor plus what comes after it except other initial balances, for whatever is summed |
| BalanceTheorems.LatestIsLast | expenses/balance.py:63-85 | the chosen initial balance is one that no other candidate of the currency comes after |
| BalanceTheorems.RowIsReplay | expenses/balance.py:254-292 | each number of a row, the two totals, the two counts and the balance, is the running sum after the movements of the period in order of effective day and recording, over the period or over the period extended two days back |
| BalanceTheorems.BalanceIsReplay | expenses/balance.py:226-296 | the reported balance equals that replay of the period's movements, in which a declared initial balance sets the total |
| BalanceTheorems.ReportIsReplay | expenses/balance.py:254-296 | the same for every number of every row of a report |
| BalanceTheorems.WholeHistoryIsNet | expenses/balance.py:224-231 | over the whole history no initial balance resets: each number is the plain sum |
| BalanceTheorems.BalanceSplits | expenses/balance.py:232-296 | without an initial balance after day C, each number for S..T is the one for S..C plus the sum over C+1..T, with the same anchor |
| DecimalArithmetic.FixExact | agents/calculator.py:107-117 | rounding that does not signal inexact leaves the value as it is |
| DecimalExactness.AddExact | agents/calculator.py:35-36 | sums and differences that do not signal are exact |
| DecimalExactness.MultiplyExact | agents/calculator.py:37 | a product that does not signal is exact |
| DecimalExactness.FloorDivideExact | agents/calculator.py:39 | `//` returns the quotient truncated towards zero |
| DecimalExactness.DivideExact | agents/calculator.py:38 | a division that does not signal returns the exact quotient |
| DecimalExactness.RemainderExact | agents/calculator.py:40 | a remainder that does not signal is the exact dividend less divisor times truncated quotient |
| DecimalExactness.PowerExact | agents/calculator.py:41 | a power by repeated squaring that does not signal is the exact power, negative exponents included |
| DecimalExactness.PowInverse | agents/calculator.py:41 | a power of the inverse is the inverse of the power, so the meaning of a negative exponent does not depend on which is taken first |
| DecimalOverflow.FixAnswers | agents/calculator.py:107-117 | rounding has an answer exactly when the number does not round beyond the largest; it is the nearest number the context holds, of two as near the even one, within half a unit of its last digit, with all digits used; the signal tells exactly whether it differs |
| DecimalOverflow.AddAnswers | agents/calculator.py:35-36 | the same of sums and differences |
| DecimalOverflow.MultiplyAnswers | agents/calculator.py:37 | the same of products |
| DecimalOverflow.DivideAnswers | agents/calculator.py:38 | the same of quotients, unless the divisor is zero |
| DecimalOverflow.FloorDivideAnswers | agents/calculator.py:39 | `//` answers exactly when the divisor is not zero and the integer quotient has at most 34 digits, and then exactly |
| DecimalOverflow.RemainderAnswers | agents/calculator.py:40 | under the same condition a remainder is the nearest number to the real one |
| PowerAccuracy.PowerIsClose | agents/calculator.py:41 | a power up to the fifteenth, inverse or not, is off by less than one part in 10^33, unless it is next to underflow |
| Calculator.EvalNode | agents/calculator.py:76-91 | walking the tree with a shared flag returns the value of the tree and raises the flag exactly when some step rounds |
| Calculator.Evaluate | agents/calculator.py:107-117 | value and inexact flag of a parsed expression, or its error, in a fresh context |
| CalculatorText.EvaluateText | agents/calculator.py:94-117 | the same from the text: length tests, normalisation, parsing, evaluation |
| Calculator.EvalExact | agents/calculator.py:94-117 | whenever the evaluation does not report inexact, its value is the exact value of the tree, for all operators |
| CalculatorRounding.BinaryRounds | agents/calculator.py:84-88 | every binary node but a power: it has a value exactly when its operands have one, the operation is defined on them and the real result is in range; the value is the nearest number to that, and the flag tells exactly whether this or anything below was rounded |
| CalculatorRounding.SignRounds | agents/calculator.py:89-90 | a sign keeps its operand, or the nearest number to a literal that is too long |
| CalculatorRounding.ForeignIsRefused | agents/calculator.py:76-91 | an expression with anything else in it is refused, and only such a one as malformed |
| CalculatorPowers.PowerAnswers | agents/calculator.py:84-88 | a power needs an integer exponent from -12 to 12, and a positive one at zero; its value is in range and off by less than a unit of its last digit, unless it is next to underflow |
| CalculatorBounds.CheckedIff | agents/calculator.py:70-73 | passes exactly the sizes up to 10^24 + 5 · 10^-10 |
| CalculatorBounds.EvalBounded | agents/calculator.py:70-91 | every value is at most 10^24 in size, unary nodes included; a bare literal at most 5 · 10^-10 above |
| CalculatorBounds.SubtreeBounded | agents/calculator.py:76-91 | the same at every node inside an expression, and without exception when nothing was rounded |
| CalculatorBounds.LongLiteralPasses | agents/calculator.py:70-83 | exactly which literals of ten decimals pass although they exceed 10^24 |
| CalculatorBounds.ExactIsClean | agents/calculator.py:94-117 | an exact result is within the bound and fits 34 digits |
| NormalizeNumbers.NormalizeNumber | agents/calculator.py:50-67 | one number is left alone but for its decimal comma, or found ambiguous exactly when one to three digits have three decimals |
| NormalizeNumbers.NumberParses | agents/calculator.py:79-83 | the normalised text of a number is parsed as that number |
| ExpressionText.NormalizeExpression | agents/calculator.py:50-67 | an expression over whole numbers keeps its numbers, gets Python's signs, and its percentages become divisions by a hundred |
| ExpressionText.SignsMean | agents/calculator.py:54 | which sign becomes which, character by character |
| ExpressionText.RemainderStays | agents/calculator.py:65-66 | between two numbers a percent sign stays the remainder |
| CalculatorReadback.ResultDenotes | agents/calculator.py:131-153 | the printed text of a result is plain notation of at most 80 characters for exactly its value, with no "-0" |
| CalculatorReadback.InexactDenotes | agents/calculator.py:138-153 | an inexact result is printed as the nearest number of twelve decimals, half to even |
| CalculatorReadback.PrintedIff | agents/calculator.py:145-153 | an exact result is printed exactly when its exponent is between -80 and 80 and its text no longer than 80 characters |
| CalculatorReadback.LongIsRefused | agents/calculator.py:98-99 | an empty expression, or one of more than 300 characters, is refused |
| CalculatorReadback.PrintedReadsBack | agents/calculator.py:120-153 | an exact result fed back gives the same number, or the ambiguity error exactly when it looks like thousands |
| CalculatorReadback.ResultReadsBack | agents/calculator.py:94-153 | compute, print, read: the exact value of the expression again, or the ambiguity error |
| Thousands.ShowShape | expenses/balance.py:174-176 | an amount is shown as points between groups of three and a comma before at most two decimals that do not end in zero, denoting exactly its cents |
| ThousandsReadback.ShownAmountIsCalculated | agents/calculator.py:50-67 | the calculator reads a shown amount exactly or refuses it; it accepts it exactly below a thousand or from a million on, up to its bound |
| ThousandsReadback.ShownAmountIsRead | agents/duplicate_guard.py:52-64 | the duplicate guard reads a shown amount exactly or not at all; not at all exactly with both thousands and decimals |
| ThousandsReadback.IntegersAreRead | agents/duplicate_guard.py:52-64 | every integer is read back exactly, plain or with points |
| DuplicateGuard.AmountMentions | agents/duplicate_guard.py:67-78 | the scan of the numbers of a message counts the mentions of the amount |
| DuplicateGuard.MentionsJoined | agents/duplicate_guard.py:67-78 | mentions add up over texts joined by a separator that is no part of a number |
| DuplicateGuard.MentionsStanding | agents/duplicate_guard.py:67-78 | a message that writes integers, plain or with points, mentions an amount as often as one of them is the amount, its thousandth or its millionth |
| DuplicateGuard.MentionsCounted | agents/duplicate_guard.py:67-78 | writing an integer k times, plain or with points, counts k |
| DuplicateGuard.TurnCreations.Create | agents/duplicate_guard.py:110-148 | refused exactly when the key is full; otherwise the creation runs, and is noted unless it returns an error or raises |
| DuplicateGuard.NotedIff | agents/duplicate_guard.py:130-148 | a call is noted exactly when the cap is not reached and the creation returned a text that does not begin with "Error" |
| DuplicateGuard.SameKeyIff | agents/duplicate_guard.py:126-129 | two calls are about one movement exactly if kind, amount, words and day agree, and the currency but for capitals |
| DuplicateGuard.TurnCap | agents/duplicate_guard.py:105-148 | for every interleaving, a key is created with success at most as often as the larger of one and the mentions of its amount |
| DuplicateGuard.NamedOftenEnough | agents/duplicate_guard.py:105-148 | for every interleaving, messages that write an amount at most k times each, in any of its forms, allow at most k movements of it; once allows one |
| DuplicateGuard.RefusedIff | agents/duplicate_guard.py:130-144 | on every run, a call is refused exactly when no repetition was asked for and as many movements of the key were created as the larger of one and the mentions |
| DuplicateGuard.RecordedBound | agents/duplicate_guard.py:105-148 | for every interleaving, the movements of a key, those of creations that raised included, exceed its cap by no more than the creations that raised after recording |
| DuplicateGuard.BeyondCapIff | agents/duplicate_guard.py:130-147 | over every run, more than a given number of movements of a key exist exactly when some `do_create` recorded one when that many were there |
| DuplicateGuard.BeyondCapWasLost | agents/duplicate_guard.py:145-147 | and when that number is the cap, a creation of the key has raised before, after recording its movement |
| DuplicateGuard.AdmitsBeyondCapIff | agents/duplicate_guard.py:130-147 | the step behind it: a call goes on to create although the cap is reached exactly when it is reached only by such lost movements |
| DuplicateGuard.RaisedIsForgotten | agents/duplicate_guard.py:145-147 | a run with the cap at one and two movements, the first of a creation that raised |
| DuplicateGuard.FirstIsNeverRefused | agents/duplicate_guard.py:130-144 | a refusal means the key was created before, and no repetition was asked for |
| DuplicateGuard.CallIsCreate | agents/duplicate_guard.py:130-148 | the steps of one call under the lock are one `create` |
| GmailPipeline.DetectDuplicate | gmailbot/composio_pipeline.py:196-259 | the loop over candidates returns the first that shares the reference or that the judge accepts; different references skip the judge |
| GmailPipeline.NormalizeIsStable | gmailbot/composio_pipeline.py:120-124 | a letter or digit stays, in lower case, and nothing else does; normalising twice is normalising once |
| GmailPipeline.NormalizeJoins | gmailbot/composio_pipeline.py:120-124 | normalisation goes character by character |
| GmailPipeline.Mailbox.Arrive | gmailbot/composio_handler.py:73-120 | one row for each (user, connection, message); goes on only for a row not yet finished |
| GmailPipeline.Mailbox.Save | gmailbot/composio_handler.py:135-149 | the email replaces what the row stored, whatever happened in between |
| GmailPipeline.Mailbox.Process | gmailbot/composio_pipeline.py:376-697 | the ending of a run: error, skipped, duplicate, or a record created, the row processed and its key for that kind set while the other stays, in the code's order of tests |
| GmailPipeline.Mailbox.Run | gmailbot/composio_tasks.py:36-80 | a finished row is left alone; a run that raises is rolled back and marks the row |
| GmailRecording.FinishedStays | gmailbot/composio_tasks.py:36-72 | a step leaves every finished row's status exactly unless it fails early on a finished row |
| GmailRecording.FinishedForGood | gmailbot/composio_tasks.py:49-57 | along a run without such failures processed, skipped and duplicate are absorbing |
| GmailRecording.ArrivesExactly | gmailbot/composio_handler.py:73-120 | what a delivery does: nothing without a message identifier; a pending row for a new email; on to the save unless the row is finished |
| GmailRecording.LinkedAlways | gmailbot/models.py:93-135 | on every run, failures included, one row for each (user, connection, message); each key of a row names a record of its kind made from that row, and every record has such a row |
| GmailRecording.OnceStaysIff | gmailbot/composio_tasks.py:36-72 | a step makes a second record of an email exactly when it is a run that creates one from a row that has made one and is not finished |
| GmailRecording.OnceIff | gmailbot/composio_tasks.py:36-80 | over every run, an email has at most one record exactly when no step has done that |
| GmailRecording.CanRecordAgainIff | gmailbot/composio_pipeline.py:384-399 | some answers make a row record again exactly when it has made a record, is not finished and stores an email |
| GmailRecording.AtMostOneRecord | gmailbot/composio_tasks.py:49-59 | along a run without early failures on finished rows no two records come from the same (user, connection, message), and each record is named by its processed row |
| GmailSurprises.SecondRecord | gmailbot/composio_tasks.py:60-80 | a run with one early failure that records an email, and its purchase, twice, everything else being as `OneRecordPerPurchase` asks |
| GmailSearch.ReferenceDecides | gmailbot/composio_pipeline.py:227-259 | a duplicate is found whatever the judge answers, exactly when some candidate carries the same non-empty reference |
| GmailSearch.DetectIff | gmailbot/composio_pipeline.py:227-259 | how the search ends: with nothing exactly if every candidate is passed over (other references, or a judge that is silent, says no or is less than 0.8 sure), else at the first that is not, by its reference, by the judge, or by the failure of asking |
| GmailSearch.CreatesExactly | gmailbot/composio_pipeline.py:376-545 | a run creates a record exactly when the row stores an email, nothing fails, it is read as a transaction with 0.6 of certainty, the user may add one, and every candidate is passed over |
| GmailSearch.DuplicateExactly | gmailbot/composio_pipeline.py:533-545 | a run settles the row as a duplicate of a row exactly when it comes to the search and that ends there |
| GmailSearch.SettlesExactly | gmailbot/composio_pipeline.py:376-532 | the row is skipped exactly when what was read is no transaction or the user may not add one, and an error exactly when there is nothing to read or it cannot be read |
| GmailDuplicates.PointedStaysIff | gmailbot/composio_tasks.py:60-72 | a step leaves every duplicate naming a processed row with a matching record exactly unless an early failure falls on a row that a duplicate names, or a late delivery saves over a duplicate |
| GmailDuplicates.DuplicatesPointToRecords | gmailbot/composio_pipeline.py:262-333 | along a run without such steps every row marked duplicate names another, processed row of the same user from within 900 seconds, with a record of the kind, amount and currency that were read |
| GmailDuplicates.NotesStay | gmailbot/composio_handler.py:100-149 | a step leaves every finished row's stored result exactly unless a late delivery saves over it |
| GmailDuplicates.ReflectsAlways | gmailbot/composio_pipeline.py:622-678 | on every run a processed row names, by one key or the other, a record made from it, and stores what was read then, or the email of a late delivery |
| GmailDuplicates.MadeAlways | gmailbot/composio_pipeline.py:622-665 | on every run, failures and late deliveries included, every record is what the email of its row was read as |
| GmailDuplicates.GuardedIff | gmailbot/composio_pipeline.py:127-157 | with any number of candidates, a run that comes to the search creates no record whatever the judge says exactly when the query answers with a guard: a processed row with a record of the kind, money and time that stores the same reference |
| GmailDuplicates.FewAreAllAnswered | gmailbot/composio_pipeline.py:140-157 | with three matches or fewer the query answers with a guard exactly when some row is one |
| GmailDuplicates.SecondRecordIff | gmailbot/composio_pipeline.py:533-545 | a purchase with a record can get a second one, for some answer of the judge, exactly when the query answers with no guard |
| GmailDuplicates.SecondRecordOfOneIff | gmailbot/composio_pipeline.py:214-259 | on every reachable state, with one record of the purchase and few candidates: exactly when its row is no longer processed with it, no longer stores the reference, is the row itself, or the amount has a fraction of a cent, and no row guards by another record |
| GmailDuplicates.NoOtherGuards | gmailbot/composio_pipeline.py:533-545 | and none does, unless some row has made records of both kinds |
| GmailDuplicates.OncePerPurchaseIff | gmailbot/composio_pipeline.py:622-678 | over every run, a purchase has at most one record exactly when no step has created one of a purchase that had one |
| GmailDuplicates.OneRecordPerPurchase | gmailbot/composio_pipeline.py:127-157 | emails with one reference, the same money and within fifteen minutes make at most one record, whatever the judge says, on runs with amounts in cents, three matches or fewer at each search, no late delivery over a finished row and no early failure on one |
| GmailDuplicates.FractionsAreNotFound | gmailbot/composio_pipeline.py:140-156 | an amount with a fraction of a cent matches no stored record |
| GmailDuplicates.CentsIsNearest | gmailbot/composio_pipeline.py:622-665 | the stored amount is the number of cents nearest to the amount read |
| GmailSurprises.LateSaveMakesTwo | gmailbot/composio_handler.py:135-149 | a run in which a late delivery erases a reference and the purchase has two records, everything else being as `OneRecordPerPurchase` asks |
| GmailSurprises.FractionMakesTwo | gmailbot/composio_pipeline.py:140-156 | a run in which an amount has a fraction of a cent and the purchase has two records, everything else being as it asks |
| GmailSurprises.FourCandidatesMakeTwo | gmailbot/composio_pipeline.py:127-157 | a run in which five emails bring the same amount, the first and the last with one reference, and make two records of that purchase, everything else being as it asks |
| GmailSurprises.LateSaveForgets | gmailbot/composio_handler.py:135-149 | a run in which no failure un-finishes a row and a late delivery saves over a duplicate, which then names nothing |
| RelevanceGuard.Guard.Bump | agents/relevance_guard.py:132-145 | one more on a live counter, or a new window, also when the key expires between add and incr |
| RelevanceGuard.Guard.CheckFlood | agents/relevance_guard.py:173-211 | verdict and state of one message: mute, burst, echo, in that order |
| BurstCounter.BumpBound | agents/relevance_guard.py:132-145 | whatever else decides about the messages: in any half-open minute at most 29 are let through, if the bumps of the counter do not interleave |
| RelevanceGuard.FloodBound | agents/relevance_guard.py:173-211 | that bound for the guard with its mute and echo |
| RelevanceGuard.FloodBoundIsReached | agents/relevance_guard.py:181-196 | thirty messages of which 29 pass in one minute: the bound is exact |
| RelevanceGuard.MutedIff | agents/relevance_guard.py:184-211 | a message is muted exactly when it comes within fifteen minutes of a flood or five of a text repeated too often |
| RelevanceOverlap.AloneIsCheck | agents/relevance_guard.py:173-211 | the cache operations of one check, uninterrupted, are that check |
| RelevanceOverlap.NoBoundWithOverlap | agents/relevance_guard.py:132-145 | of any number of checks at one instant whose increments all read before any writes, all may pass |
| RelevanceGuard.FloodSilences | agents/relevance_guard.py:184-196 | after a flood every message of the next fifteen minutes is muted |
| RelevanceGuard.EchoCounts | agents/relevance_guard.py:198-209 | fewer than four consecutive messages with the same text pass while the echo is remembered |
| RelevanceGuard.EchoBoundIsReached | agents/relevance_guard.py:198-209 | one text four times: the third passes, the fourth is cut off |
| RelevanceTopic.TopicGuard.CheckRelevance | agents/relevance_guard.py:453-499 | answer and streak after one message |
| RelevanceTopic.AnswerIff | agents/relevance_guard.py:453-499 | every answer of a conversation exactly, from the message, the classifier and whether the message before was refused within a day |
| RelevanceTopic.NoticeOncePerStreak | agents/relevance_guard.py:492-499 | a second fixed notice needs an allowed message in between, or a day's gap |
| RelevanceTopic.OnlyContentEndsStreak | agents/relevance_guard.py:366-388 | inside a streak a message passes exactly on its own content or the classifier's word, not as courtesy or continuation |
| StateToken.Service.ConsumeNonce | composio_integration/state_token.py:72-83 | true exactly for a non-empty nonce the cache does not hold, which it then holds |
| StateToken.Service.CompleteConnectFlow | composio_integration/services.py:202-281 | answer and new state of a callback, error by error |
| StateToken.AnswerIff | composio_integration/services.py:211-245 | which callback gets which answer; connected exactly if it got past, reports success and the account is of the token's user |
| StateToken.Leaves | composio_integration/services.py:218-280 | what a callback leaves: the nonce used; a failed row that keeps its account; or a connection with the new account and nothing of the old one |
| StateToken.TokenLasts | composio_integration/state_token.py:31-38 | a token expires ten minutes after its issue, less a second at most |
| StateToken.GetsPastIff | composio_integration/services.py:211-213 | a callback gets past the nonce check exactly when its token decodes and the cache has dropped every earlier use |
| StateToken.NonceOutlivesToken | composio_integration/state_token.py:27-39 | a consumed nonce is kept until the token has expired, even if the cache cuts to whole seconds |
| StateToken.SingleUse | composio_integration/services.py:202-213 | no two callbacks get past with one token, if the second consumes the nonce before the token expires |
| StateToken.UsedTwice | composio_integration/state_token.py:51-83 | a token used twice by a callback that decodes in time and consumes too late |
| StateToken.OnlyOwnersConnect | composio_integration/services.py:218-280 | a connection changes only by its user's token, and becomes active only with an account of that user |
| Insights.RegroupByName | expenses/insights.py:209-216 | the loop over category rows yields the rows regrouped by name, in order of first appearance |
| Insights.CategoryGrowth | expenses/insights.py:238-256 | one entry for each category to report; its percentage takes the previous total to the current one |
| InsightsReport.MonthlyInsights | expenses/insights.py:118-336 | the daily, weekday and category lists are partitions of the month's expenses in their order, each with the month's total as its sum and its number of expenses as its count; the largest day and weekday are the earliest of the largest rows; the growth list explains each category against the partition of the month before; what stands out is five expenses of the month at most, on fewer than a fifth of the days; the income sources partition the month's incomes |
| InsightsReport.MonthIs | expenses/insights.py:118-136 | the month's rows are those dated in it in the user's currency |
| InsightsReport.KeptIff | expenses/insights.py:238-248 | a category has an entry in the growth list exactly with spending this month or the month before |
| InsightsReport.NameIff | expenses/insights.py:58-64 | the name of a category: the user's own, the shared one, the free text, or the fallback |
| InsightsReport.WeekdayIs | expenses/insights.py:163-170 | weekdays go round from Monday, and day 0 was a Thursday |
| InsightsBounds.GroupByPartitions | expenses/insights.py:142-147 | a grouping query has one row for each key that occurs, with the exact total and count of the key |
| InsightsBounds.RegroupPartitions | expenses/insights.py:195-216 | collapsing fine keys to names gives exactly the grouping by name |
| InsightsBounds.ThreePartitions | expenses/insights.py:138-219 | daily, weekday and category lists, each in its order, are partitions by their keys with the month's total as their sum, and the counts agree |
| InsightsBounds.DaysMakeWeekdays | expenses/insights.py:163-170 | collapsing the daily rows by weekday gives the partition by weekday |
| AnomalyBound.Cantelli | expenses/insights.py:149-155 | fewer than one value in five lies more than two deviations above the mean |
| AnomalyBound.StandOutIsLargest | expenses/insights.py:293-302 | the list holds the five largest expenses above the threshold |
| AnomalyBound.FewDaysStandOut | expenses/insights.py:293-314 | without negative expenses, the days of the reported anomalies are fewer than a fifth of the spending days; with five or fewer nothing is reported |

## Left out

- TurnOrder.GrantOrder: assumes the timely runs described above; past a deadline or with Redis unavailable the code lets turns in on purpose.
- TurnWaiting.AcquireInOrder: what the two head checks and the acquire answer, and how long they take, is given; the commands themselves are those of `TurnQueue`, where `TurnExclusion.WaitsWithinQueueLife` bounds the wait on every run.
- TurnWaiting.FirstInLineGetsIn: says nothing about waiters behind a turn that never ends, which only their deadline frees.
- HeadScan.IsHead: Redis errors are not modelled; they are caught by the caller, which goes on without the lock.
- Balance.ComputeBalance: the labels, the notes and the rounding of amounts to floats are not modelled; amounts are cents and the time zone a fixed offset.
- Balance.FindCurrencies: which currencies the user may have is not checked; `set_initial_balance` is not modelled.
- Calculator.Evaluate: `ast.parse` is any function that agrees with Python's grammar on the texts of numbers; nesting limits are not modelled.
- NormalizeNumbers.NormalizeNumber: digits and white space are ASCII.
- ExpressionText.NormalizeExpression: numbers with separators and blanks inside a longer expression are covered by the functions of `CalculatorText` but no property of them is claimed.
- DecimalExactness.PowerExact: the exponent of a zero result is not claimed to be Python's.
- PowerAccuracy.PowerIsClose: the last digit of an inexact power is not claimed to be Python's, and a power below 2 · 10^-999999 has no bound.
- CalculatorPowers.PowerAnswers: which inexact powers next to the bound are refused is not stated exactly.
- DuplicateGuard.AmountMentions: products with the abbreviation scales are exact, where Python rounds them to 28 digits.
- DuplicateGuard.TurnCreations.Create: the words of a note and the request for repetition are inputs; currencies are ASCII; Unicode normalisation and the regular expressions are not modelled.
- GmailPipeline.Mailbox.Process: categories, embeddings, dates, the merchant text and the WhatsApp notice are not modelled; a failure in them is one of the failures a run may have.
- GmailPipeline.NormalizeIsStable: references are ASCII.
- GmailRecording.AtMostOneRecord: users who edit or delete records, and connections that are deleted, are not modelled.
- GmailDuplicates.OneRecordPerPurchase: each of its assumptions is shown to be needed by a run of `GmailSurprises`.
- RelevanceGuard.FloodBound: asks for bumps of one sender that do not interleave, as `NoBoundWithOverlap` shows it must; the cache keeps a counter at least for its window, and may keep it longer after an increment.
- RelevanceTopic.TopicGuard.CheckRelevance: the Spanish vocabularies are opaque facts about a message.
- StateToken.SingleUse: assumes a monotone clock, no eviction, and nonces that do not collide; signatures are not modelled.
- StateToken.Service.CompleteConnectFlow: the toolkit handler and the provisioning task that follow are not modelled.
- InsightsReport.MonthlyInsights: recurring merchants, the largest expenses, other currencies, the percentages of the peak and of the totals and rounding for display are not modelled; the square root is an input.
- Agents, prompts, semantic search, chat channels, charts, connection management, savings and risk profiles: library calls or response shaping.
