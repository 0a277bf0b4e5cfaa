# E-Library: a verified model

This project models the parts of the E-Library server where several tables have to agree: the circulation desk and
its hold queue, the money ledgers, the binary MARC codec, the staged catalog import, the outbox worker and digital
lending. Each transaction is one step on the tables it reads and writes; the theorems are about every run of steps.

| component | files | what is proved |
|---|---|---|
| Circulation | `Circulation`, `Allocation`, `HoldQueue`, `Limits`, `Reconciliation`, `Service`, `CirculationDesk` | every freed copy goes to the first waiting hold and none idles past one; exactly which loans, holds and requests are accepted; no copy ever serves two claims and statuses say exactly which claim there is; the queue is first come, first served over whole runs; caps hold even with overrides; lost transits are not reshipped for ever; the reconciliation sweep assigns exactly the possible number |
| Fees and payments | `Ledger`, `LedgerProofs`, `Settlement`, `CashDesk` | exact sums over every run, so that every clamp is inert; the payment waterfall in closed form; refunds row by row, accepted exactly when due; a full refund restores every fee |
| Acquisitions | `Acquisitions`, `AcquisitionsDesk` | encumbrance and spend are exactly the outstanding and received cost; a placed order is never refused for money |
| Subscriptions | `Billing`, `Dunning`, `PaidTime`, `BillingDesk` | a charge buys exactly one period and a due account is charged by the next cycle; renewals a period apart, credit conserved, when dunning cancels and when it does not |
| MARC exchange | `Iso2709`, `Iso2709Proofs`, `ParserLoop`, `MarcCodec`, `CatalogMarc`, `CatalogMarcProofs`, `MarcTags`, `MarcExchange` | bytes round trip and rewrite identically; parsing goes on for ever exactly when it comes back to a position; export and import agree exactly for faithful editions |
| Catalog import | `CatalogImport`, `ImportedRows`, `ImportDesk` | what a row stores, found again by its keys, which stay unique; committing a row twice is committing it once; rollback undoes commit; rollback after use deletes exactly what is safe |
| Outbox | `Outbox`, `OutboxWorker` | exactly when PROCESSED and FAILED are final; each channel is sent once; five failures give up |
| Digital lending | `Digital`, `Promotion`, `DigitalDesk` | every freed slot promotes the first in line; licenses never overdrawn, slots and picking agree, fair promotion |

Each component has a value model (tables as maps or sequences, operations as functions that return the new tables or
the refusal) carrying the theorems, and a class whose methods do the same work in place, with the server's
loops, proved to do exactly what the functions say. `Common` holds optional values, ordered queries and sums.
Run `dafny verify dfyconfig.toml` to check everything.

## What the model found

- A fee marked PAID that accrues further stays PAID, so its new debt counts in the balance but no payment reaches it
  (`LedgerProofs.PaymentLowersBalance` says exactly when paying the balance clears it).
- A billing cycle attempts a subscription twice exactly when the card fails at the first attempt of that cycle
  (`Dunning.FailedTwiceInOneCycle`), a cycle moves the grace deadline exactly when it straddles it
  (`Dunning.DeadlineMoves`), and any plan change that is not refused averts the cancellation
  (`Dunning.PlanChangePostponesCancellation`); `Dunning.PlanChangeRevives` says exactly which are refused.
- A renewal invoice kept open across a plan change is marked paid at the old amount while the card pays the new one
  (`Billing.RenewalAgrees` gives the exact condition, `Billing.PlanChangeMisstatesInvoice` an input).
- Subscribing anew while paid time is left can charge twice within a period (`Billing.UntimelySubscribeChargesTwice`).
- The MARC parser takes whatever length Python's `int` reads, so a zero, "+0000" say, holds it in place and a negative
  one takes it back (`ParserLoop.StuckAtZero`, `ParserLoop.ZeroSpellings`, `ParserLoop.BackAndForth`). It goes on for
  ever exactly when it comes back to a position (`ParserLoop.ParserEndsExactly`), and never if every length it reads is
  positive (`ParserLoop.AdvancingEnds`). The reader also drops a terminator byte at the end of a field
  (`Iso2709Proofs.FieldRoundTrip` says exactly which fields survive).
- The cleaning of MARC values is idempotent exactly on texts that do not end in a mark, blanks and marks again
  (`CatalogMarc.CleanTwice`; `CatalogMarc.CleanNotIdempotent` gives one that does).
- An import rollback deletes a created copy that is out on an inter-library loan unless nothing of its work would stay
  (`CatalogImport.LentCopyIsDeleted`), and is
  abandoned as a whole when a created work has holds (`CatalogImport.AbortsExactly`), where its documentation says that
  records with dependents are left in place and reported.
- A ready digital hold does not reserve a slot: two patrons are made ready for one, and the second is refused
  (`Digital.ReadyReservesNothing`); `Digital.ReadyHoldUsable` says exactly when a ready hold can be used.
- A sweep of missed pickups leaves missed exactly the holds it made ready itself under a pickup period of no days
  (`CirculationDesk.Library.ExpireReadyHolds`; `CirculationDesk.SweepLeavesMissed` is a run in which it does).
- Reclaiming an outbox event from a worker that is merely slow lets both work on it, so that it can leave PROCESSED
  again (`Outbox.EarlyReclaimUndoes`); `Outbox.ProcessedIsFinalExactly` and `Outbox.FailedIsFinalExactly` say when a final
  state cannot be left.

## Model

| member | source | states |
|---|---|---|
| Common.First | library/services.py:674-689 | the row an ordered query returns first: one exists unless there are none, and no other row sorts before it by (rank, id) |
| Circulation.NextHold | library/services.py:674-689 | the next hold offered a copy waits for that title without one, and none that does is older by (created_at, id); there is none only if nobody waits unassigned |
| Circulation.FirstOnShelf | library/services.py:482-493 | of the eligible copies one that no other precedes by branch, barcode and number; none only if there are none |
| Circulation.WalkInCopy | library/services.py:606-611 | a walk-in gets an available public copy of the branch if it has one, otherwise one from elsewhere exactly when falling back is allowed and there is one |
| Circulation.ReadyHold | library/services.py:577-592 | the patron's own reserved hold on the title that became ready first, ties by number, if there is one |
| Circulation.OfferedCopy | library/services.py:985-997 | the copy offered to a new hold is available and public, from the pickup branch if it has one, and there is none only if there is none anywhere |
| Circulation.WaitingFor | library/services.py:736-742 | the hold an arriving copy is for waits with that copy assigned |
| Allocation.BorrowSound | library/services.py:524-642 | an accepted loan, from a ready hold or from the shelf, keeps the allocation: each copy in at most one claim, of the kind its status says |
| Allocation.ReturnSound | library/services.py:859-930 | an accepted return, with the offer to the next hold, keeps the allocation: each copy in at most one claim, of the kind its status says |
| Allocation.CloseSound | library/workflows.py:203-287 | an accepted lost, claims-returned or damaged report keeps the allocation: each copy in at most one claim, of the kind its status says |
| Allocation.LoanDatesSound | library/services.py:1066-1125 | changing due dates, counts and overdue marks of open loans keeps the allocation: each copy in at most one claim, of the kind its status says |
| Allocation.OpenLoanIsLoaned | library/services.py:859-875 | the copy of an open loan has status LOANED |
| Allocation.PlaceHoldSound | library/services.py:933-1034 | an accepted hold, given a copy at once or not, keeps the allocation: each copy in at most one claim, of the kind its status says |
| Allocation.ReleaseSound | library/services.py:1037-1063 | cancelling or expiring a live hold, with the offer of its copy, keeps the allocation: each copy in at most one claim, of the kind its status says |
| Allocation.GiveSound | library/services.py:645-725 | giving an available copy to an unserved hold of its title, reserved or in transit, keeps the allocation: each copy in at most one claim, of the kind its status says |
| Allocation.TransitHasHold | library/services.py:728-758 | a copy in transit has exactly one waiting hold assigned to it, of its own title and organization, and the arrival query finds it |
| Allocation.ReceiveSound | library/services.py:728-758 | an accepted arrival keeps the allocation: each copy in at most one claim, of the kind its status says |
| Allocation.TimeOutSound | library/services.py:1165-1223 | timing out a stale transit, whether the copy is pulled or offered again, keeps the allocation: each copy in at most one claim, of the kind its status says |
| Allocation.CheckInSound | library/services.py:761-775 | an accepted staff check-in, by arrival or by return, keeps the allocation: each copy in at most one claim, of the kind its status says |
| Allocation.CopySound | library/services.py:778-856 | an accepted retirement, move, weeding or bulk edit keeps the allocation: each copy in at most one claim, of the kind its status says |
| Allocation.RequestIllSound | library/consortia.py:115-183 | an accepted request, filled or unfilled, keeps the allocation: each copy in at most one claim, of the kind its status says |
| Allocation.AdvanceSound | library/consortia.py:186-234 | shipping, receiving and sending back keeps the allocation: each copy in at most one claim, of the kind its status says |
| Allocation.CloseIllSound | library/consortia.py:244-291 | completing or cancelling an open request, even when its copy was retired meanwhile, keeps the allocation: each copy in at most one claim, of the kind its status says |
| Allocation.StepAllocated | library/services.py:524-1274 | every circulation, workflow and inter-library operation keeps the allocation |
| Allocation.RunAllocated | library/services.py:524-1274 | every reachable state has a sound allocation and meets the table constraints on loans and holds |
| Allocation.AllocatedIsExclusive | library/models.py:404-416 | a sound allocation gives the counts: one open loan exactly on LOANED copies, one ready hold exactly on ON_HOLD ones, one waiting hold exactly on IN_TRANSIT ones, one in-flight request on ILL ones |
| Allocation.ExclusiveIsAllocated | library/models.py:459-475 | and the counts together with the row constraints are all there is to it: any state with them has a sound allocation |
| Allocation.RunExclusive | library/services.py:524-1274 | in every reachable state no copy serves two claims and copy statuses say exactly which claim there is |
| HoldQueue.AssignNextEffect | library/services.py:670-725 | offering a copy changes that copy and one hold at most, and only their status, branch, dates and assignment |
| HoldQueue.ClaimedCopyIsHeld | library/services.py:1037-1063 | the copy of a live assigned hold is on hold or in transit, so cancelling never frees a lent copy |
| HoldQueue.CopiesStep | library/services.py:778-856 | no operation changes the identity of a copy or takes it out of RETIRED |
| HoldQueue.LoansStep | library/services.py:524-642 | open loans appear only by borrowing, within the loan cap, and a renewal count grows by one below its limit only |
| HoldQueue.AssignNextFair | library/services.py:670-725 | an offered copy goes to a hold no older than any other unassigned waiting hold of that title |
| HoldQueue.PlaceFair | library/services.py:976-1024 | a new hold is given a copy at once only when nobody waits for the title |
| HoldQueue.HoldsStep | library/services.py:933-1063 | holds keep patron, title and place in the queue; new ones respect the hold cap and the one-per-title rule; whoever newly gets a copy was next |
| HoldQueue.RunKeepsRetired | library/services.py:778-817 | a retired copy stays retired for the rest of any run |
| HoldQueue.RunFair | library/services.py:670-725 | over whole runs, whenever a hold gets its copy no unassigned waiting hold of that title is older |
| HoldQueue.WalkInOnlyWhenNobodyWaits | library/services.py:577-611 | in any run a non-override loan straight from the shelf happens only when no hold waits for the title |
| Service.ReturnServes | library/services.py:859-930 | a returned copy goes to the hold of its title waiting without a copy that is first by (created_at, id), reserved at its branch or on its way there, and is on the shelf only if nobody waits |
| Service.ReturnCloses | library/services.py:887-913 | the loan is closed now and keeps its patron exactly if they keep a history; a floating copy settles only at a branch of its organization |
| Service.OfferServes | library/services.py:670-725 | an offered copy goes to the first hold waiting without one, held until the policy date at its own branch and sent otherwise |
| Service.CancelServes | library/services.py:1037-1063 | a waiting or ready hold can be cancelled, no other; its copy goes to the first hold waiting for the title |
| Service.ExpireServes | library/services.py:1128-1162 | a hold expires exactly once its pickup date is reached; its copy goes to the first hold waiting for the title |
| Service.TimeOutServes | library/services.py:1165-1223 | a copy lost in transit goes to the first waiting hold, the one it never reached among them, or is pulled for repair after the last attempt |
| Service.OrphanServes | library/services.py:1190-1215 | a copy in transit for no hold is put back and goes to the first waiting hold |
| Service.SweepsTake | library/services.py:1165-1262 | the transit sweep takes exactly the copies not updated for the allowed days, reconciliation exactly the visible available ones, each of which goes to the first waiting hold |
| Service.FreedNotIdle | library/services.py:670-930 | no operation that frees a copy, save an edit by hand or the return from another member, leaves it on the shelf while a hold without a copy waits for its title |
| Service.CheckInDoes | library/services.py:761-775 | desk check-in receives a copy in transit and otherwise returns the latest open loan on the copy |
| Service.BorrowAccepted | library/services.py:524-611 | in every allocated state a loan is accepted exactly on these terms: standing, fines and duplicates unless overridden by an actor, the loan limit in any case, and a ready hold or, with nobody waiting unless overridden, a copy that may be handed out |
| Service.BorrowLends | library/services.py:577-642 | the patron gets the copy reserved for them, the loan fulfilling that hold, or one of their branch if it has any; due after the loan period; no other row changes |
| Service.PlaceAccepted | library/services.py:933-975 | a hold is accepted exactly for an active patron with a pickup branch, a holdable title of which some copy is not lost, below the hold limit and without a live hold of the title |
| Service.PlaceServes | library/services.py:976-1034 | a new hold gets a copy at once exactly when nobody waits and one may be handed out, of the pickup branch if it has any; otherwise it waits |
| Service.ReceiveReadies | library/services.py:728-758 | an arriving copy is reserved for the hold it was sent to, at that branch, or put on the shelf if there is none |
| Service.ReportCloses | library/workflows.py:203-287 | lost, claimed and damaged reports are accepted exactly for open loans, with a patron where one is billed; the loan gets the mark, the copy leaves the shelf |
| Service.RenewAccepted | library/services.py:1066-1109 | a renewal is accepted exactly for an open loan of an active patron below the limit with nobody waiting; the due date counts on from the later of due and now |
| Service.RequestAccepted | library/consortia.py:138-165 | an inter-library request is accepted exactly from an active patron of a borrowing member, without an open request for the title and without a copy of their own organization on the shelf |
| Service.RequestServes | library/consortia.py:115-183 | it reserves the copy another lending member has on the shelf that is lowest by (organization, id), and is unfilled exactly if there is none |
| Service.IllMovesOn | library/consortia.py:186-291 | each step is accepted from exactly one status, cancelling until the copy is on loan; closing puts a copy still out for it back on the shelf and forgets patrons without history |
| Service.CopiesInBulk | library/workflows.py:40-101 | weeding refuses exactly copies with a claim on them, a bulk edit everything but available and repair; what an edit does not name stays |
| Service.OverdueFlagged | library/services.py:1277-1294 | exactly the active loans past their due date are marked |
| Limits.RunWithin | library/services.py:551-575 | in every reachable state, even with overrides: loans within max_loans, live holds within max_holds, one live hold per patron and title, renewals of open loans within max_renewals |
| Limits.RenewalExtends | library/services.py:1066-1109 | a renewal happens with nobody waiting for the title, and moves the due date later when the loan period is positive |
| Limits.HoldsCounted | library/services.py:966-975 | the number of holds is the number ever placed: none is deleted |
| Limits.LostTransitsStop | library/services.py:1165-1223 | over any run at most (max_attempts - 1) times the holds ever placed timed-out copies are put back |
| Limits.ExhaustedTransitIsPulled | library/services.py:1190-1212 | every other time-out pulls the copy for repair and leaves its one hold waiting without a copy |
| Reconciliation.OfferMatchesOne | library/services.py:1245-1268 | an offer takes one copy and one hold off its title and changes no other title |
| Reconciliation.TitleDone | library/services.py:1245-1268 | a title worked until copies or holds run out has matched min(copies, holds) |
| Reconciliation.AllSettled | library/services.py:1226-1274 | below the cap no public shelf copy and unassigned waiting hold of one title remain |
| CirculationDesk.FollowsKeeps | library/services.py:524-1274 | whatever call is made on the desk, the allocation, the identity of rows, the caps and queue fairness are kept |
| CirculationDesk.Library.AddCopy | library/models.py:345-372 | a new copy is available and numbered after all others |
| CirculationDesk.Library.MarkHoldReady | library/services.py:645-667 | copy on hold, hold ready with a pickup date |
| CirculationDesk.Library.SendToHold | library/services.py:691-725 | reserved at the pickup branch, otherwise in transit with the hold still waiting |
| CirculationDesk.Library.AssignCopyToNextHold | library/services.py:670-725 | the next hold gets the copy, or nothing changes |
| CirculationDesk.Library.LendCopy | library/services.py:613-620 | copy lent, loan open with its due date |
| CirculationDesk.Library.BorrowWork | library/services.py:524-642 | does what the borrow operation does, with the same refusals in the same order |
| CirculationDesk.Library.ReturnLoan | library/services.py:859-930 | closes the loan, settles a floating copy and offers it on |
| CirculationDesk.Library.RenewLoan | library/services.py:1066-1125 | does what the renew operation does or refuses for the same reason |
| CirculationDesk.Library.FlagOverdueLoans | library/services.py:1277-1294 | marks exactly the active loans past due and counts them |
| CirculationDesk.Library.MarkLoanLost | library/workflows.py:203-229 | loan lost, copy lost |
| CirculationDesk.Library.MarkClaimsReturned | library/workflows.py:232-251 | loan in dispute, copy lost |
| CirculationDesk.Library.ReturnDamaged | library/workflows.py:254-287 | loan returned, copy in repair |
| CirculationDesk.Library.PlaceHold | library/services.py:933-1034 | does what the place-hold operation does, with the same refusals in the same order |
| CirculationDesk.Library.CancelHold | library/services.py:1037-1063 | hold cancelled, its copy offered on |
| CirculationDesk.Library.ReceiveCopyInTransit | library/services.py:728-758 | the arriving copy is reserved for its hold |
| CirculationDesk.Library.StaffCheckin | library/services.py:761-775 | an arrival, or the return of the latest open loan |
| CirculationDesk.Library.RetireCopy | library/services.py:778-817 | refused for lent, held or travelling copies, allowed from ILL |
| CirculationDesk.Library.MoveCopy | library/services.py:820-856 | moves copies that are not in flight |
| CirculationDesk.Library.RequestIll | library/consortia.py:138-183 | reserves the first lendable copy of another member, or records the request unfilled |
| CirculationDesk.Library.ShipIll | library/consortia.py:186-198 | requested becomes shipped |
| CirculationDesk.Library.ReceiveIll | library/consortia.py:201-219 | shipped becomes borrowed |
| CirculationDesk.Library.ReturnIll | library/consortia.py:222-234 | borrowed becomes returning |
| CirculationDesk.Library.CheckInIll | library/consortia.py:244-269 | request completed, copy back on the shelf unless no longer ILL |
| CirculationDesk.Library.CancelIll | library/consortia.py:272-291 | request cancelled before it is borrowed, copy back on the shelf |
| CirculationDesk.Library.ExpireReadyHolds | library/services.py:1128-1162 | exactly the ready holds that had missed their date are expired, once each; afterwards only holds the sweep itself made ready under a pickup period of no days have |
| CirculationDesk.Library.ExpireStaleTransits | library/services.py:1165-1223 | afterwards no transit is stale; each stale one was handled once |
| CirculationDesk.Library.ReconcileHolds | library/services.py:1226-1274 | assigns exactly min(cap, sum over titles of min(available public copies, unassigned waiting holds)), and below the cap leaves no match undone |
| CirculationDesk.Library.BulkUpdateCopies | library/workflows.py:40-76 | edits exactly the named copies that are available or in repair, reports the others and the barcodes of no copy, counts the edits |
| CirculationDesk.Library.WeedCopies | library/workflows.py:79-101 | retires exactly the named copies that are not lent, held, travelling or on ILL, reports the others, counts both |
| CirculationDesk.SweepLeavesMissed | library/services.py:1128-1162 | a run of one copy and two holds, with no pickup time, in which the sweep expires the first hold and leaves the second one missed |
| Ledger.ApplyKeepsFees | library/services.py:363-384 | allocating to a fee keeps paid equal to its unreversed allocations |
| Ledger.TakeBackKeepsFees | library/finance.py:104-120 | taking back from an allocation keeps paid equal to its unreversed allocations, so the clamp at zero never bites |
| LedgerProofs.PourShares | library/services.py:363-384 | fee by fee, each takes what it owes of what the fees before it left over |
| LedgerProofs.Waterfall | library/services.py:326-392 | fee i gets exactly min(owed, amount less what earlier fees owed), nothing else changes |
| LedgerProofs.PourKeeps | library/services.py:363-384 | a payment allocates at most its amount and disturbs no other payment |
| LedgerProofs.UnwindKeeps | library/finance.py:104-120 | a refund takes back min(what is left, the refund) from its own payment and disturbs no other |
| LedgerProofs.WaivedHasNothingLeft | library/services.py:395-405 | a waived fee has no unreversed allocation, so skipping waived fees loses nothing |
| LedgerProofs.RefundableExact | library/finance.py:64-79 | the computed refundable amount is the payment less its refunds so far |
| LedgerProofs.RefundKeeps | library/finance.py:47-129 | a refund keeps all sums |
| LedgerProofs.PayKeeps | library/services.py:326-392 | a payment keeps all sums |
| LedgerProofs.StepKeeps | library/services.py:238-414 | every ledger operation keeps all sums |
| LedgerProofs.RunKeeps | library/finance.py:47-129 | in every run: reversed equals min(allocated, refunded) per payment, refunds never exceed it, paid is the sum of unreversed allocations and at most the amount, waived fees have paid nothing |
| LedgerProofs.RefundAccepted | library/finance.py:64-98 | in any run, whatever is asked and whatever the gateway answers, a refund is accepted exactly if the payment is none itself, the gateway agrees and the amount is positive and within payment less refunds; any other leaves all three tables |
| LedgerProofs.PaidFeeAccrues | library/services.py:284-291 | a settled fee that accrues again stays marked PAID, and owes nothing exactly when the new amount was covered |
| LedgerProofs.PaidFeeCanOwe | library/services.py:284-291 | a fee settled early accrues further under the mark PAID: an input where PAID does not mean nothing owed |
| LedgerProofs.BalanceSplits | library/services.py:210-215 | the balance is what payments can reach plus what is owed under the mark PAID |
| LedgerProofs.PaymentLowersBalance | library/services.py:326-392 | a payment lowers the balance by its amount but not below the debt under PAID marks; paying it all clears it exactly when there is no such debt |
| LedgerProofs.PourUndone | library/finance.py:104-120 | taking back newest first what was just allocated restores every fee |
| LedgerProofs.FullRefundUndoes | library/finance.py:47-129 | in any run, a payment refunded in full at once is accepted and restores every fee, paid amount and status |
| Settlement.PayAccepted | library/services.py:326-362 | a payment is accepted exactly for a positive amount by a known method, captured if made online; it is recorded in full, and a refused one leaves no trace |
| Settlement.UnwindShares | library/finance.py:104-120 | allocation by allocation, a reversal takes from each exactly what the later ones of its payment could not give |
| Settlement.RefundTakesLatest | library/finance.py:85-120 | an accepted refund is recorded for the amount wanted; the latest allocations give back first, and exactly the settled fees that lose money are open again |
| Settlement.ChargeOwes | library/services.py:308-321 | a charge raises the balance by its amount and changes no other row |
| Settlement.AccrueOwes | library/services.py:284-291 | after an accrual the fee owes exactly what has run up beyond what was paid, and nothing paid is touched |
| Settlement.WaiveClears | library/services.py:395-414 | a waiver is accepted exactly for a fee waived already or open and unpaid, and lowers the balance by what it owed |
| CashDesk.FollowsKeeps | library/services.py:238-414 | whatever call is made on the cash desk keeps all sums |
| CashDesk.Accounts.ChargeFee | library/services.py:308-321 | a new outstanding fee |
| CashDesk.Accounts.AccrueFine | library/services.py:282-291 | sets the fee to what has accrued, never below what was paid |
| CashDesk.Accounts.WaiveFee | library/services.py:395-414 | waives an outstanding unpaid fee, otherwise refuses |
| CashDesk.Accounts.RecordPayment | library/services.py:326-392 | the loop over outstanding fees computes the allocation |
| CashDesk.Accounts.RefundPayment | library/finance.py:47-129 | the loop over allocations, newest first, computes the reversal; a gateway error leaves no trace |
| CashDesk.CreatePaymentPlan | library/finance.py:135-150 | a plan is opened exactly for a positive total within the balance and at least one installment |
| CashDesk.PaymentPlan.PayInstallment | library/finance.py:153-203 | never pays beyond the total, completed exactly when all is paid, the money goes through the ledger, and the k-th default installment leaves what the recurrence says |
| CashDesk.InstallmentExact | library/finance.py:146-147 | the installment is the smallest that reaches the total in the agreed number of payments |
| CashDesk.PlanCompletes | library/finance.py:153-203 | default installments, as paid one by one, complete the plan after the agreed number at the latest, and not while a full one is missing |
| Acquisitions.ReceiptCosts | library/acquisitions.py:109-130 | receiving turns exactly the cost of the quantity from outstanding into received |
| Acquisitions.AddLineExact | library/acquisitions.py:34-48 | adding lines to a draft keeps fund totals exact |
| Acquisitions.PlaceExact | library/acquisitions.py:55-77 | placing commits exactly the outstanding cost |
| Acquisitions.ReceiveExact | library/acquisitions.py:80-143 | receiving keeps fund totals exact and marks the order received exactly when nothing is outstanding |
| Acquisitions.CancelExact | library/acquisitions.py:146-162 | cancelling releases exactly the outstanding cost |
| Acquisitions.StepExact | library/acquisitions.py:24-162 | every operation keeps fund totals exact |
| Acquisitions.ReceiveCopiesExact | library/acquisitions.py:116-125 | generated barcodes continue 1 to received on the line without repeats |
| Acquisitions.RunExact | library/acquisitions.py:24-162 | in every run encumbered is the outstanding cost of ordered orders, spent the cost of what was received, together within budget; barcodes are exactly 1 to received on every line |
| Acquisitions.ReceiptAccepted | library/acquisitions.py:92-113 | a receipt is accepted exactly for a placed order, a quantity within what is outstanding, an edition and the copy limit: never refused for money |
| Acquisitions.ClampsInert | library/finance.py:264-289 | the clamps at zero never bite: releases and spends move exactly their amount |
| Acquisitions.ReceiptShelves | library/acquisitions.py:100-138 | a receipt adds the quantity to its line and as many copies numbered on from those received before; the order is received exactly once nothing is outstanding |
| Acquisitions.LineAdds | library/acquisitions.py:34-48 | a line is accepted exactly for a draft, a positive quantity and a branch of the organization, and stored with that quantity and unit price |
| Acquisitions.PlaceCommits | library/acquisitions.py:51-77 | placing is accepted exactly for a draft with lines within what the fund has left, and commits their full cost |
| Acquisitions.OrdersOpenAndClose | library/acquisitions.py:24-162 | orders open as drafts on funds of the organization, and can be cancelled exactly unless received |
| Acquisitions.CancelUndoesPlace | library/acquisitions.py:146-162 | placing and cancelling at once leaves every fund as it was |
| Acquisitions.ReceivedCostsItsTotal | library/acquisitions.py:51-52 | a fully received order has cost exactly the total it was placed for |
| AcquisitionsDesk.FollowsKeeps | library/acquisitions.py:24-162 | whatever call is made on the office keeps all totals |
| AcquisitionsDesk.Purchasing.AddLine | library/acquisitions.py:34-48 | a line on a draft order, for a branch of the organization |
| AcquisitionsDesk.Purchasing.Encumber | library/finance.py:264-271 | commits the amount exactly when it is available |
| AcquisitionsDesk.Purchasing.PlaceOrder | library/acquisitions.py:55-77 | commits the order total, or refuses |
| AcquisitionsDesk.Purchasing.ReceiveLine | library/acquisitions.py:80-143 | the loop shelves the copies; the cost moves from encumbered to spent |
| AcquisitionsDesk.Purchasing.CancelOrder | library/acquisitions.py:146-162 | releases what is outstanding |
| Billing.OpenRenewal | library/billing.py:504-514 | finds the latest open renewal invoice, none only if none is open |
| Billing.ChargeSpacing | library/billing.py:518-609 | a charge comes only after the period of every earlier one |
| Billing.ChangeSpacing | library/billing.py:661-747 | a plan change never shortens a paid period |
| Billing.RunSpaced | library/billing.py:518-638 | in every run, with new subscriptions only after paid time is used up, successful charges are at least a period apart |
| Billing.UntimelySubscribeChargesTwice | library/billing.py:328-374 | the condition is needed: whenever it fails, a declined card and the next retry charge twice within a period |
| Billing.BillingSums | library/billing.py:575-600 | a charge settles or opens exactly one renewal invoice |
| Billing.StepMoney | library/billing.py:498-747 | every operation keeps credit, card and invoice counts exact |
| Billing.RunMoney | library/billing.py:498-747 | in every run credit is banked less used, card plus credit is the price of each charge, each renewal has one paid invoice, at most one is open |
| Billing.RenewalAgrees | library/billing.py:575-600 | the settled invoice shows what the card paid exactly when it was issued for that amount |
| Billing.CyclesAgree | library/billing.py:518-638 | over billing cycles alone paid renewal invoices add up to what the card was charged |
| Billing.PlanChangeMisstatesInvoice | library/billing.py:575-600 | an input where they do not: a plan change between decline and retry |
| Dunning.RunDunning | library/billing.py:480-495 | in every run the counter is the failures since the last charge, and the grace deadline lies within the grace period after the last failure |
| Dunning.NotCancelledEarly | library/billing.py:612-638 | a cycle cancels only after the allowed failures in a row and dated after the last |
| Dunning.FailedTwiceInOneCycle | library/billing.py:612-638 | one cycle attempts a subscription twice exactly when its period had ended, credit does not cover the price and the card fails first, whatever the second answer from a live gateway |
| Dunning.BothFailuresCount | library/billing.py:612-638 | and if both attempts fail the counter rises by two in that one cycle |
| Dunning.PlanChangeRevives | library/billing.py:661-747 | a plan change leaves a past-due account past due, and unchanged, exactly when usage does not fit or a prorated charge beyond the credit is not captured |
| Dunning.DeadlineMoves | library/billing.py:480-495 | once attempts are used up a failing cycle moves the deadline exactly when it was dated before it and charges after it |
| Dunning.FailingStep | library/billing.py:612-638 | otherwise a failing cycle cancels from the deadline on and leaves it alone before |
| Dunning.CancelledInTime | library/billing.py:612-638 | failing cycles and refused plan changes that do not straddle the deadline cancel exactly when a cycle is dated at or after it, within the grace period of the last failure |
| Dunning.PlanChangePostponesCancellation | library/billing.py:661-747 | the cycle that would cancel an exhausted subscription still does after a plan change exactly when that change was refused |
| BillingDesk.VisitCounts | library/billing.py:612-638 | each visit of a cycle counts as renewed, failed or canceled as the histories say |
| BillingDesk.Subscriptions.EnterDunning | library/billing.py:480-495 | one more attempt, past due, deadline set if none lies ahead |
| BillingDesk.Subscriptions.ChargeSubscription | library/billing.py:518-609 | does what the renewal operation does |
| BillingDesk.Subscriptions.RenewDue | library/billing.py:612-626 | the first loop visits each due subscription once and counts |
| BillingDesk.Subscriptions.RetryPastDue | library/billing.py:627-637 | the second loop retries or cancels each past-due one once and counts |
| BillingDesk.Subscriptions.RunBillingCycle | library/billing.py:612-638 | each subscription gets both visits; the counters are the charges, declines and cancellations made |
| BillingDesk.Subscriptions.ChangePlan | library/billing.py:661-747 | does what the plan-change operation does |
| BillingDesk.Subscriptions.Subscribe | library/billing.py:328-397 | does what the subscribe operation does |
| PaidTime.RenewedForThirtyDays | library/billing.py:518-600 | a renewed subscription is due again at t exactly when t is thirty days after the charge or later |
| PaidTime.SubscribedForThirtyDays | library/billing.py:346-397 | and so is one subscribed anew |
| PaidTime.RunPaidTo | library/billing.py:328-747 | in every run the period ends exactly one period after the last successful charge, or after a later declined subscription |
| PaidTime.DueIsCharged | library/billing.py:612-638 | a due subscription with a good card is charged its price, credit first, by the next cycle, and by no later cycle dated before the new period ends |
| PaidTime.PastDueIsCharged | library/billing.py:612-638 | a past-due one not yet to be cancelled is charged by the next cycle and active again |
| PaidTime.NotDueNotCharged | library/billing.py:612-638 | a subscription not due is not touched by the first loop |
| PaidTime.ChargeEnds | library/billing.py:518-609 | a due charge succeeds exactly if credit covers it or the card pays; without a gateway nothing at all is recorded |
| PaidTime.FailedKeepsTerms | library/billing.py:480-609 | a failed charge counts one failure and leaves price, credit and period as they were |
| PaidTime.AttemptBills | library/billing.py:556-582 | an attempt settles or leaves open the latest open renewal invoice, or issues one for what the card is asked |
| PaidTime.ChangeBanks | library/billing.py:661-747 | a plan change banks exactly the unused credit beyond the new charge, or charges the difference, with one invoice |
| PaidTime.SubscribeTerms | library/billing.py:328-397 | what subscribing records when the card pays, and when it is declined |
| PaidTime.CanceledUntilSubscribed | library/billing.py:751-758 | a cancelled account stays as it is under every run without a new subscription |
| Iso2709.DecimalInt | library/marc.py:183-191 | a padded decimal reads back as its number |
| Iso2709.DecimalWidth | library/marc.py:183-191 | a number below the power of ten takes exactly the field width |
| Iso2709Proofs.SubfieldsRoundTrip | library/marc.py:121-128 | subfields without delimiter bytes are split back exactly |
| Iso2709Proofs.FieldRoundTrip | library/marc.py:112-129 | a field of the record shape survives its bytes exactly when it does not end in the terminator byte and no subfield holds the delimiter |
| Iso2709Proofs.RecordLayout | library/marc.py:173-192 | leader length and base address are those of the written bytes; directory and data area lie where they say |
| Iso2709Proofs.DirectoryTiles | library/marc.py:182-186 | directory starts are the running sums of lengths, each cuts out its field, and together they fill the data area |
| Iso2709Proofs.RecordParsed | library/marc.py:99-130 | a written record parses to its fields |
| Iso2709Proofs.RecordRead | library/marc.py:99-130 | on any bytes: a record is dropped exactly if shorter than a leader or without a base address, raises exactly if a full directory entry lacks a number, and otherwise has one field per full entry, the stretch it names |
| Iso2709Proofs.RoundTrip | library/marc.py:78-96 | for every list of well-formed records parsing what was written ends and returns the same fields in order |
| Iso2709Proofs.RewriteIdentical | library/marc.py:169-192 | writing the parsed records again gives identical bytes |
| ParserLoop.StuckAtZero | library/marc.py:84-92 | at a record length of zero, however spelt, any number of turns of the loop leaves position and records as they were |
| ParserLoop.ParserEndsExactly | library/marc.py:78-96 | for all bytes the loop goes on for ever exactly when it is at one position after two different numbers of turns; otherwise it ends, and with the answer the model gives |
| ParserLoop.AdvancingEnds | library/marc.py:78-96 | if every length read on the way is positive it ends within one turn per byte and one more |
| ParserLoop.ZeroSpellings | library/marc.py:86-89 | a sign, an underscore or a trailing line feed spells a length of zero too |
| ParserLoop.SeparatedRoundTrip | library/marc.py:78-96 | the round trip with any line feeds, carriage returns, spaces and record terminators between the records |
| ParserLoop.BackAndForth | library/marc.py:86-92 | an input without a length of zero on which the loop goes to and fro between two positions for ever |
| MarcCodec.ParseSubfields | library/marc.py:123-128 | the loop over pieces computes its specification |
| MarcCodec.ParseOneRecord | library/marc.py:99-130 | the loop over directory entries computes its specification |
| MarcCodec.ParseIso2709 | library/marc.py:78-96 | the loop over the file computes its specification |
| MarcCodec.EncodeField | library/marc.py:176-183 | the loop over subfields computes its specification |
| MarcCodec.RecordToIso2709 | library/marc.py:173-192 | the loop building directory and data area computes its specification |
| MarcCodec.ToIso2709 | library/marc.py:169-170 | all records end to end computes its specification |
| CatalogMarc.StripFixed | library/marc.py:221-222 | stripping leaves text alone exactly when it has no blanks at its ends, and is idempotent |
| CatalogMarc.CleanFixed | library/marc.py:221-222 | cleaning leaves a text alone exactly when it does not start with a blank nor end in a blank or a mark |
| CatalogMarc.CleanTwice | library/marc.py:221-222 | cleaning twice is cleaning once exactly when the text does not end in a mark, blanks, marks again and perhaps blanks: when the first cleaning leaves no mark at the end |
| CatalogMarc.CleanNotIdempotent | library/marc.py:221-222 | an input where it does |
| CatalogMarcProofs.SplitOfJoin | library/imports.py:122-124 | separable stripped names come back from the joined column |
| CatalogMarcProofs.NamesSurvive | library/imports.py:122-124 | a list of names survives exactly when each is nonempty, has no blank or mark at its ends as cleaning would cut, and is free of both separators |
| CatalogMarcProofs.GetExported | library/marc.py:270-302 | looking up a tag in an exported record finds exactly the fields written for it |
| CatalogMarcProofs.IsbnRead | library/marc.py:244-249 | a 13-digit number is read back unchanged |
| CatalogMarcProofs.AuthorsRead | library/marc.py:229-243 | the first author and the added ones come back in order |
| CatalogMarcProofs.ExportedRow | library/marc.py:225-302 | an exported record maps to the cleaned texts, the cleaned and joined lists and the number |
| CatalogMarcProofs.ExportImportAgree | library/marc.py:225-302 | export and import agree on every column exactly when the edition is faithful: texts with nothing at their ends to clean, separable names, a year below 10000, summary within the limit |
| CatalogMarcProofs.ExportWellFormed | library/marc.py:270-302 | a faithful edition without delimiter bytes exports as a record the format carries |
| CatalogMarcProofs.CatalogRoundTrip | library/marc.py:266-302 | a whole catalog of such editions through bytes and back gives one agreeing row per edition, in order |
| MarcExchange.CollectNames | library/marc.py:229-243 | the loops over tags and fields |
| MarcExchange.ReadIsbn | library/marc.py:244-249 | the search for a valid number |
| MarcExchange.MarcRecordToImportRow | library/marc.py:225-263 | computes the row |
| MarcExchange.EditionToMarcRecord | library/marc.py:270-302 | builds the fields in the order the importer reads them |
| MarcTags.ReadAlike | library/marc.py:225-251 | corporate authors are read like personal ones, added bodies like added persons, places and persons like subjects, and an old imprint like a new one |
| MarcTags.OtherTagsIgnored | library/marc.py:225-251 | a field of any other tag changes nothing |
| MarcTags.NewImprintFirst | library/marc.py:247-248 | an old imprint is not read where a new one gives publisher and date |
| MarcTags.FirstYear | library/marc.py:248-249 | the year is the first four digits of the date, whatever stands around them |
| MarcTags.IsbnFound | library/marc.py:241-246 | the number read is the first of thirteen digits among the fields, hyphens aside, and none only if there is none |
| MarcTags.CleanCutsMark | library/marc.py:221-222 | a trailing slash, comma, colon or semicolon is cut, alone or after a space |
| MarcTags.YearReadsBack | library/marc.py:287-293 | a known positive year is written in digits that read back as it, any other left out |
| CatalogImport.FindWork | library/imports.py:340-343 | the work found has the row's slug, or none has and it has the row's title; none is found only if neither matches any |
| CatalogImport.RowHasEffect | library/imports.py:336-419 | a committed row adds at most one work, edition and copy and exactly the links it records; a failed row changes no table |
| CatalogImport.CommitIntegral | library/imports.py:422-480 | commits leave no copy without its edition and no edition without its work |
| CatalogImport.CommitExtends | library/imports.py:422-480 | a commit only adds, and exactly what its results record |
| ImportedRows.RowStoresWork | library/imports.py:340-368 | a created work has the row's slug, title and exactly its authors and subjects, and is created only if none matches; a found one gains the row's names |
| ImportedRows.RowStoresEdition | library/imports.py:380-394 | a created edition has the row's work, ISBN-13, ISBN-10, format and year, each under its own name |
| ImportedRows.RowStoresCopy | library/imports.py:396-419 | a created copy is the organization's, of that edition, under that barcode, and created exactly if it has none |
| ImportedRows.RowFails | library/imports.py:397-457 | a row fails exactly on a uniqueness clash or when the copy it would create is over the limit |
| ImportedRows.EditionFound | library/imports.py:370-379 | an edition is looked up by ISBN-13, then by ISBN-10, then by work, format and year, and found if any matches |
| ImportedRows.CommitKeepsUnique | library/imports.py:336-480 | slugs, both ISBNs and each organization's barcodes stay unique over any batch |
| ImportedRows.LaterRowLands | library/imports.py:340-352 | every later row with the slug of a work lands on it, whatever was committed in between |
| ImportedRows.RowAgain | library/imports.py:336-419 | committing a committed row again lands on the same records and leaves the catalog as it is |
| CatalogImport.CopiesNotShared | library/imports.py:285-295 | in a validated batch a row either creates its copy or names one that was there before |
| CatalogImport.RollbackUndoesCommit | library/imports.py:483-591 | committing any rows, failed ones included, and rolling back at once restores copies, editions, works and links exactly |
| CatalogImport.RollbackAfterUse | library/imports.py:501-567 | a rollback after any use deletes exactly the created copies without loan or assigned hold, then created editions without copies, then created works without editions, leaves no dangling reference, and takes from surviving works exactly the links recorded as added |
| CatalogImport.AbortsExactly | library/imports.py:527-552 | it aborts exactly when it would delete a created edition on order or lent digitally, or a created work with holds or inter-library requests |
| CatalogImport.LentCopyIsDeleted | library/imports.py:507-543 | a created copy out on an inter-library loan is deleted by every rollback that goes through, its work staying; the rollback aborts if nothing of the work would stay, and without other uses only then |
| ImportDesk.FlagDuplicates | library/imports.py:279-295 | flags exactly the rows whose barcode an earlier row has, none exactly when barcodes are distinct |
| ImportDesk.Catalogue.CommitRow | library/imports.py:336-419 | upserts one row in a savepoint |
| ImportDesk.Catalogue.CommitImport | library/imports.py:422-480 | only a validated batch without errors; the loop commits every row and records results |
| ImportDesk.Catalogue.DeleteCopies | library/imports.py:506-519 | the first pass |
| ImportDesk.Catalogue.DeleteEditions | library/imports.py:521-533 | the second pass, stopped exactly by a protected edition |
| ImportDesk.Catalogue.DeleteWorks | library/imports.py:535-546 | the third pass, stopped exactly by a protected work |
| ImportDesk.Catalogue.DetachLinks | library/imports.py:548-562 | the fourth pass |
| ImportDesk.Catalogue.RollbackImport | library/imports.py:483-591 | a staged or validated batch is only cancelled, a committed one reversed or left entirely alone |
| Outbox.StepExclusive | library/services.py:1351-1383 | one worker at a time, which has done everything before the point it is at |
| Outbox.WorkerSends | library/notifications.py:303-338 | each step moves a send between about to be saved, saved and lost, never doubling it |
| Outbox.StepAttempts | library/services.py:1371-1391 | attempts are the failures, crashes, the one under way and the success |
| Outbox.RunKept | library/services.py:1339-1403 | all of it holds in every run in which only dead workers are reclaimed |
| Outbox.FinalStays | library/services.py:1339-1403 | PROCESSED and FAILED are never left |
| Outbox.DeliveredOnce | library/notifications.py:222-338 | over all retries each channel is sent once beyond sends whose row was never saved, exactly that when processed; one webhook row per endpoint |
| Outbox.GivenUpAtFifthFailure | library/services.py:1384-1391 | without crashes FAILED happens exactly at the fifth failed attempt |
| Outbox.CrashesNeverGiveUp | library/services.py:1351-1357 | crashes alone never give an event up, however many |
| Outbox.ProcessedIsFinalExactly | library/services.py:1351-1391 | a processed event stays so under every continuation exactly when no worker is left |
| Outbox.FailedIsFinalExactly | library/services.py:1351-1391 | a failed event stays so under every continuation exactly when each worker left is bound to fail with its attempts used up |
| Outbox.EarlyReclaimUndoes | library/services.py:1351-1391 | for every plan, reclaiming from a live worker reaches a processed event with that worker still at work, and some continuation takes it out of PROCESSED |
| OutboxWorker.OutboxRow.Claim | library/services.py:1371-1381 | claims the event and counts the attempt |
| OutboxWorker.OutboxRow.DeliverToChannel | library/notifications.py:303-338 | sends unless its row says sent, and saves the row |
| OutboxWorker.OutboxRow.Deliver | library/notifications.py:222-300 | the loop over channels stops at the first failed send, and stops early exactly unless each channel was sent before or its send goes through |
| OutboxWorker.OutboxRow.EnqueueWebhooks | library/webhooks.py:31-60 | one row per endpoint that has none |
| OutboxWorker.OutboxRow.Drain | library/services.py:1360-1403 | processed exactly when each channel was sent before or its send goes through, otherwise pending, or failed from the fifth attempt |
| Digital.PickFrom | library/digital.py:81-89 | the first license by number with something to lend, none only if none has |
| Digital.SlotsIffPick | library/digital.py:65-89 | advertised slots are positive exactly when borrowing would find a license |
| Digital.BorrowLicenses | library/digital.py:92-142 | borrowing never overdraws a license |
| Digital.RunLicenses | library/digital.py:44-226 | in every run active loans are within each limit and metered use is the number of loans ever made, within what is allowed |
| Digital.AssignNextFair | library/digital.py:145-168 | promotion takes the oldest waiting hold |
| Digital.StepFair | library/digital.py:92-308 | no operation makes a hold ready past an earlier waiting one |
| Digital.RunFair | library/digital.py:92-308 | nor does any step of a run |
| Promotion.AssignNextPromotes | library/digital.py:145-168 | exactly if a slot is free and somebody waits, the waiting hold first by (created_at, number) is made ready for 72 hours, and no other |
| Promotion.ReturnPromotes | library/digital.py:171-208 | exactly active loans are returned; if the license can lend and somebody waits, the first in line is promoted |
| Promotion.LoanExpiryPromotes | library/digital.py:211-226 | likewise for a loan that lapses, exactly once it is due |
| Promotion.CancelPromotes | library/digital.py:274-288 | cancelling a ready hold promotes the first in line if a slot is free; cancelling a waiting one promotes nobody |
| Promotion.HoldExpiryPromotes | library/digital.py:291-308 | so does a ready hold that runs out, exactly once its time is reached |
| Promotion.BorrowAccepted | library/digital.py:92-119 | a loan is accepted exactly without a loan of the title, with a ready hold or nobody waiting, and with a slot free |
| Promotion.BorrowTerms | library/digital.py:120-142 | it is on the first license that lends, for its term, counted if metered, and fulfils the ready hold if there is one |
| Promotion.PlaceTerms | library/digital.py:229-271 | a hold is accepted exactly without a hold or loan of the title, and ready at once for 72 hours exactly if a slot is free and nobody waits |
| Promotion.OffersExactly | library/digital.py:44-62 | a license lends exactly while active, within its term and checkouts and below its limit |
| Promotion.SlotsAdvertised | library/digital.py:65-78 | a million slots where some license lends without limit, otherwise the sum of what each lending license has free |
| Digital.WalkInOnlyWithoutQueue | library/digital.py:108-119 | a patron without a ready hold borrows only when nobody waits |
| Digital.RunUnique | library/digital.py:102-106 | in every run at most one live hold and one active loan per patron and title |
| Digital.RunOnKept | library/digital.py:92-308 | from any state with the license and uniqueness invariants every run keeps them |
| DigitalDesk.FollowsKeeps | library/digital.py:92-308 | whatever call is made on the collection keeps licenses, uniqueness and queue fairness |
| Digital.ReadyHoldUsable | library/digital.py:92-142 | a patron with a ready hold can borrow exactly if they may act, have no loan of the title and a slot is free |
| Digital.LastSlotGone | library/digital.py:65-142 | borrowing the last slot leaves none |
| Digital.ReadyReservesNothing | library/digital.py:229-271 | two patrons are made ready for one free slot, the first borrows and the second is then refused for want of a license |
| DigitalDesk.Collection.LicenseIsAvailable | library/digital.py:44-62 | computes availability |
| DigitalDesk.Collection.AvailableSlots | library/digital.py:65-78 | the loop over licenses; positive exactly when one can be picked |
| DigitalDesk.Collection.PickAvailableLicense | library/digital.py:81-89 | the loop in number order |
| DigitalDesk.Collection.AssignNextDigitalHold | library/digital.py:145-168 | promotes the oldest waiting hold if a slot is free |
| DigitalDesk.Collection.BorrowDigital | library/digital.py:92-142 | does what the borrow operation does, with the same refusals |
| DigitalDesk.Collection.CloseDigitalLoan | library/digital.py:171-192 | closes the loan and promotes |
| DigitalDesk.Collection.ReturnDigital | library/digital.py:195-208 | only active loans |
| DigitalDesk.Collection.PlaceDigitalHold | library/digital.py:229-271 | ready at once only with a free slot and nobody ahead |
| DigitalDesk.Collection.CancelDigitalHold | library/digital.py:274-288 | promotes only after a ready hold |
| DigitalDesk.Collection.ExpireDigitalLoans | library/digital.py:211-226 | a run of one expiry per due loan: afterwards no due loan is active, each is counted once, others untouched |
| DigitalDesk.Collection.ExpireDigitalReadyHolds | library/digital.py:291-308 | a run of one expiry per overdue hold: exactly those expire, each counted once, and other holds change only by becoming ready |
| DigitalDesk.Collection.ExpireReadyHold | library/digital.py:291-308 | one step of the sweep |

## Left out

- HTTP, forms, serializers, admin, settings, migrations, commands: plumbing around the modelled operations.
- Stripe, SMTP, SMS, outbound HTTP, signing: a charge or a send is an arbitrary success or failure given as a parameter.
- Row locks, SKIP LOCKED and advisory locks: each atomic block is one step, and the outbox is split where it is not atomic.
- Erasing a patron (`library/privacy.py`) deletes holds without freeing their copies; it is assumed not to happen in the runs considered.
- Audit rows, movements, search documents, hashes and rendered texts: no effect on the properties.
- Policies, branch data and consortium membership are fixed functions of their keys during a run; patron standing is a parameter of each call.
- Inventory sessions only report and change no copy; they are not modelled.
- Clock: one clock per component, moved only by explicit steps; several reads of the clock inside one transaction return the same time.
- CirculationDesk.Library.MarkLoanLost: the fees billed in the same transaction are ledger operations, not part of it.
- CirculationDesk.Library.ReturnDamaged: the damage fee and the copy's condition are not part of it.
- CirculationDesk.Library.ReceiveIll: the dates of the request, which nothing modelled reads, are not stored.
- CirculationDesk.Library.BulkUpdateCopies: shelf locations, free text nothing modelled reads, are not edited.
- BillingDesk.Subscriptions.ChangePlan: the two proration amounts are parameters; how they are computed from prices and remaining days is not modelled.
- MarcCodec.ParseOneRecord: text stays as its bytes, so indicators and codes are first bytes where the server takes first decoded characters; what base address Python reads from a leader that is not ASCII is a parameter.
- Fees charged by a return, a loss or damage are operations of the ledger, not of the circulation step that causes them.
- What an overdue fine has run up, which needs calendar dates and the policy matrix, is an arbitrary parameter of `CashDesk.Accounts.AccrueFine`, so it may grow or shrink.
- Fees, payments and allocations are numbered in creation order, taken to be the order of (created_at, id).
- Payment plans do not model the cancelled status, which nothing in the modelled code sets.
- Copies received by acquisitions are not fed into the circulation tables; the barcode text is represented by the three numbers it is built from.
- Proration amounts are arbitrary when paid days remain and zero otherwise; the rounding of the floating-point fraction is not modelled.
- Plan usage limits and checkout sessions of billing; gateway events, which change a subscription from outside.
- Billing.RunSpaced: starting a trial again on a paid subscription is not an operation of the runs.
- Allocation.RunExclusive: no copy row is deleted during the run; `rollback_import` does delete created copies, even one on an inter-library loan (`CatalogImport.LentCopyIsDeleted`), whose request then names no copy.
- MARC values are byte strings: decoding with replacement characters and multi-byte indicators or codes are not modelled, nor is MARCXML.
- CatalogMarc.StripLeftResult: blanks are the ASCII ones; Python also strips other Unicode spaces.
- Row validation of cell formats, CSV reading and the entitlement to create works; a uniqueness clash with another session is a parameter of the row.
- CatalogImport.FindWork: among several works of one title the lowest number is taken, where the database orders by canonical title.
- Outbox backoff times; that an event is due again is left to the caller. The sweep that posts webhooks repeats the same claim, retry and dead-letter shape without idempotency and is not modelled.
- Outbox: which channels and endpoints apply is fixed for an event, preferences are not re-read between attempts.
- Digital lending of one organization; content access tokens and manifests are not modelled.
