# Loan management backend: a verified model

This project models the service layer of a loan-management backend in Dafny. It covers the user lifecycle: registration, KYC and the bank manager's approval. It covers the loan-application lifecycle: creation with eligibility checks and idempotency keys, and the loan manager's decision. It covers deposits, manager creation, and the rule-based evaluation of a credit score. It also covers the nightly EMI auto-debit batch, together with the repayment summary and the post-disbursement CIBIL score that the batch recomputes.

The MongoDB collections are the fields of one store class, `Db.Database`. Keyed collections are maps. Collections the code scans in order are sequences. Each service is a module. Its operations are methods on the store: each method names the collections it writes in `modifies` and states the whole new state in `ensures`. Each operation's guard is a pure function with its error cases in the source's order. Properties that relate two calls are lemmas about these functions.

The batch is specified by pure functions over the collections it touches (`Settlement`):

- `SettleStep` is one iteration of the loop.
- `SettleAll` is a sequence of iterations.
- `ProcessDue` runs the iterations over the due positions.

The imperative loop in `EmiScheduler` is proved equal to that specification. The run-level guarantees are proved about the specification in `SettlementProperties`:

- money is conserved per user;
- the ledger is append-only and grows by one entry per EMI paid;
- the loan counters grow exactly by the installments paid and the attempts that failed;
- users change only in their score;
- rows that are PAID or not yet due are never touched.

Modelling conventions:

- Amounts and balances are integer paise.
- Times are integers read from an injected clock.
- Document ids are opaque strings; the id of a newly inserted document is a parameter that must be fresh.
- Password hashes are passed in already computed.

## Where the code departs from the design

The system's design describes more than the code does. The model follows the code:

- The design lets a loan manager decide only applications whose system decision is MANUAL_REVIEW. The code stores no system decision on an application and checks only its status.
- In the design, scoring and rule evaluation run when an application is created. In the code, the creation service calls neither.
- The design asks for idempotent creation that is safe under concurrent duplicates, backed by a uniqueness constraint. The code does a lookup followed by an insert. The model proves that keys stay unique under sequential calls only.
- The design's failure branch of the batch recomputes the score from the missed, late and clean aggregates. The code does the same through the loan's repayment summary, which counts FAILED rows, not failed attempts.

## Model

| member | source | states |
|---|---|---|
| Settlement.IsDue | app/scheduler/emi_scheduler.py:21-24 | an installment is due when its due date is not after now and its status is PENDING or FAILED |
| Settlement.DueIndices | app/scheduler/emi_scheduler.py:21-26 | the batch visits exactly the due installments, each once, in stored order (an assumption: the query has no sort) |
| Settlement.SettleStep | app/scheduler/emi_scheduler.py:26-148 | one iteration rewrites only the installment it settles, only appends to the ledger, and keeps the sets of accounts, loans and users |
| Settlement.SettleAll | app/scheduler/emi_scheduler.py:26-148 | the iterations run one after the other; installments not visited are unchanged and the ledger only grows |
| Settlement.SettleAllSnoc | app/scheduler/emi_scheduler.py:26 | each further iteration of the loop sees the books the earlier ones left |
| Settlement.ProcessDue | app/scheduler/emi_scheduler.py:12-148 | a run keeps the schedule length and the sets of accounts, loans and users, and never shrinks the ledger |
| SettlementProperties.SettleStepSkipsPaid | app/scheduler/emi_scheduler.py:28-30 | a PAID installment is skipped and nothing changes |
| SettlementProperties.SettleStepFailure | app/scheduler/emi_scheduler.py:40-81 | with no account or too small a balance: the installment is FAILED with one more attempt, the loan's missed counter grows by 1, accounts and ledger are unchanged, the user's score is the score of the summary taken after the FAILED write (at most 670) with its timestamp set to now, and every other user is unchanged |
| SettlementProperties.SettleStepSuccess | app/scheduler/emi_scheduler.py:86-148 | with enough balance: the balance falls by exactly the EMI amount and stays non-negative, the installment is PAID at now, exactly one paid EMI entry with that amount and balance is appended, the paid counter grows by 1, the score is recomputed from the updated summary with its timestamp set to now, and every other user is unchanged |
| SettlementProperties.Tally | app/scheduler/emi_scheduler.py:26-148 | the measures of a run (debits per user, EMIs paid, per-loan paid EMIs and failed attempts) summed over the installments |
| SettlementProperties.TallyUnchanged | app/scheduler/emi_scheduler.py:26-148 | an empty run measures zero |
| SettlementProperties.TallyUpdate | app/scheduler/emi_scheduler.py:26-148 | rewriting one installment moves a measure by that installment's change of contribution |
| SettlementProperties.RunInvariantStart | app/scheduler/emi_scheduler.py:12-26 | the run invariant holds before the first iteration |
| SettlementProperties.StepTallies | app/scheduler/emi_scheduler.py:26-148 | one iteration moves every measure only by the installment it settles |
| SettlementProperties.StepShape | app/scheduler/emi_scheduler.py:40-132 | a step on an unpaid installment writes FAILED with one more attempt, leaves accounts alone and bumps the missed counter; or it writes PAID, debits exactly the EMI amount and bumps the paid counter |
| SettlementProperties.BalanceMove | app/scheduler/emi_scheduler.py:40-97 | settling one installment moves a balance by exactly its change of that user's debit tally, keeps the set of accounts, and never makes a non-negative balance negative |
| SettlementProperties.LedgerMove | app/scheduler/emi_scheduler.py:98-122 | settling one installment moves a user's total of new paid EMI entries by exactly its change of that user's debit tally: the entry appended on success carries the installment's user and amount |
| SettlementProperties.CountersMove | app/scheduler/emi_scheduler.py:55-132 | settling one installment moves a loan's counters by exactly its change of that loan's paid and failed-attempt tallies |
| SettlementProperties.StepKeepsSchedule | app/scheduler/emi_scheduler.py:29-109 | an iteration never alters loan, user, number, due date or amount of any installment, never touches a PAID row, and never lowers an attempt counter |
| SettlementProperties.StepKeepsMoney | app/scheduler/emi_scheduler.py:33-97 | after each iteration every balance has fallen by exactly the EMIs of its user paid so far, and none has gone negative |
| SettlementProperties.StepKeepsLedger | app/scheduler/emi_scheduler.py:111-122 | after each iteration the ledger is the old ledger plus one paid EMI entry, with a non-negative balance, per EMI paid, and each user's new entries add up to exactly that user's EMIs paid |
| SettlementProperties.StepKeepsLoans | app/scheduler/emi_scheduler.py:55-132 | after each iteration each loan's paid counter has grown by its EMIs paid and its missed counter by its failed attempts |
| SettlementProperties.StepKeepsUsers | app/scheduler/emi_scheduler.py:71-148 | iterations change a user only in the score and its timestamp |
| SettlementProperties.SettleAllKeepsRunInvariant | app/scheduler/emi_scheduler.py:26-148 | the run invariant (schedule, money, ledger, loans, users) holds after any sequence of iterations |
| SettlementProperties.SettleAllRowOutcome | app/scheduler/emi_scheduler.py:26-148 | an unpaid installment visited once ends either FAILED with one more attempt or PAID at now |
| SettlementProperties.ProcessDueOutcome | app/scheduler/emi_scheduler.py:12-148 | after a run, installments that were not due are exactly as before, every due one ends FAILED with one more attempt or PAID at now, and the run invariant holds |
| SettlementProperties.ProcessDueConservesMoney | app/scheduler/emi_scheduler.py:26-122 | over a run, each balance falls by exactly the sum of that user's EMIs paid, no balance goes negative, and the ledger gains exactly one entry per EMI paid, whose amounts add up, user by user, to exactly that user's EMIs paid |
| SettlementProperties.RerunLeavesPaidRows | app/scheduler/emi_scheduler.py:21-30 | a second run never touches an installment the first run paid |
| SettlementProperties.InsufficientBalanceScenario | app/scheduler/emi_scheduler.py:40-81 | a zero balance against a due EMI of 5000: FAILED, one attempt, missed counter 1, no debit, no ledger entry, score 670 |
| SettlementProperties.SequentialDebitScenario | app/scheduler/emi_scheduler.py:26-97 | balance 100 and two due EMIs of 60: the first is paid and the second fails against the 40 left |
| SettlementProperties.OneDueRow | app/scheduler/emi_scheduler.py:21-26 | a single due installment is settled by exactly one iteration |
| SettlementProperties.TwoDueRows | app/scheduler/emi_scheduler.py:21-26 | two due installments are settled one after the other, in stored order |
| SettlementProperties.BothDue | app/scheduler/emi_scheduler.py:21-24 | the query over two due rows yields both positions in order |
| EmiScheduler.SettleInstallment | app/scheduler/emi_scheduler.py:28-148 | the loop body's writes on the store leave it exactly as the specified iteration does |
| EmiScheduler.RecordFailedAttempt | app/scheduler/emi_scheduler.py:40-81 | the failure branch's writes (FAILED with one more attempt, missed counter, score after those writes) leave the store as the specified iteration does |
| EmiScheduler.DebitInstallment | app/scheduler/emi_scheduler.py:86-148 | the success branch's writes (debit, PAID, ledger entry, paid counter, score after those writes) leave the store as the specified iteration does |
| EmiScheduler.SettleEach | app/scheduler/emi_scheduler.py:26-148 | the loop over the positions leaves the store as the specified sequence of iterations does |
| EmiScheduler.ProcessDueEmis | app/scheduler/emi_scheduler.py:12-148 | the batch leaves the store as the specified run does: installments not due are untouched, due ones end FAILED or PAID, and the run invariant holds |
| RepaymentSummaryService.BuildSummary | app/services/repayment_summary_service.py:6-31 | paid plus missed never exceeds the total; the loan is clean exactly when no installment is FAILED; missed counts the loan's FAILED rows |
| RepaymentSummaryService.TotalIsSumOfStatuses | app/services/repayment_summary_service.py:7-17 | the total of a loan is the sum of its PENDING, PAID and FAILED counts |
| RepaymentSummaryService.CountWithStatusIsCardinality | app/services/repayment_summary_service.py:11-17 | a status count is the number of positions of that loan with that status |
| RepaymentSummaryService.CountWithStatusUpdate | app/services/repayment_summary_service.py:11-17 | rewriting one row changes a status count only by that row's old and new contribution |
| RepaymentSummaryService.CountOfLoanUpdate | app/services/repayment_summary_service.py:7-9 | rewriting a row without changing its loan keeps every total |
| RepaymentSummaryService.CountWithStatusPositive | app/services/repayment_summary_service.py:11-17 | each stored row is counted under its own loan and status |
| RepaymentSummaryService.SummaryIgnoresOtherLoans | app/services/repayment_summary_service.py:7-23 | rows of other loans never affect the summary |
| RepaymentSummaryService.CountOfLoanOtherUpdate | app/services/repayment_summary_service.py:7-9 | rewriting a row of another loan keeps the total |
| RepaymentSummaryService.SummaryIgnoresOtherTransactions | app/services/repayment_summary_service.py:19-23 | only the loan's paid penalties count as late payments; any other ledger entry, EMI entries included, leaves the summary equal |
| CibilService.Clamp | app/services/cibil_service.py:17 | the result lies in [300, 900] and equals the input inside that range |
| CibilService.Calculate | app/services/cibil_service.py:3-17 | the score always lies in [300, 900] |
| CibilService.CalculateBelowCeiling | app/services/cibil_service.py:4-17 | the score never exceeds 780, and reaches 780 exactly with no missed EMI, at most two late payments and a clean loan |
| CibilService.CalculateNonIncreasingInMissed | app/services/cibil_service.py:6-17 | with all else fixed, more missed EMIs never raise the score |
| CibilService.CalculateMissedStep | app/services/cibil_service.py:8-17 | above the floor, each further missed EMI costs exactly 30 |
| CibilService.CalculateLateThreshold | app/services/cibil_service.py:11-17 | two late payments cost nothing; more than two cost 40, clamped |
| CibilService.CalculateCleanBonus | app/services/cibil_service.py:14-17 | a clean loan adds 30 unless the score sits at the floor |
| CibilService.CalculateReadsOnlyHistory | app/services/cibil_service.py:3-17 | the score depends only on missed EMIs, late payments and the clean flag |
| CibilService.CalculateOnBuiltSummary | app/services/cibil_service.py:3-17 | on a built summary: no missed EMI scores 780 (740 with more than two late payments), any missed EMI at most 670, fourteen or more the floor 300 |
| CreditRuleService.ParseSystemDecision | app/services/credit_rule_service.py:15 | exactly the three decision texts parse, each to its own decision |
| CreditRuleService.Evaluate | app/services/credit_rule_service.py:10-18 | with no matching rule (an empty list included) the result is AUTO_REJECTED; a failure comes from a matching rule with an unknown decision text |
| CreditRuleService.EvaluateFirstMatch | app/services/credit_rule_service.py:13-15 | the first matching rule, both bounds inclusive, decides |
| CreditRuleService.EvaluateComesFromFirstMatch | app/services/credit_rule_service.py:13-18 | any result other than the fallback is the decision of the first matching rule |
| CreditRuleService.EvaluateIgnoresLaterRules | app/services/credit_rule_service.py:13-15 | once a rule matches, rules after it, overlapping or not, are never consulted |
| CreditRuleService.SelectActiveCibil | app/repositories/rule_configuration_repository.py:8-9 | exactly the active CIBIL_SCORE rules are kept, each as often as stored |
| CreditRuleService.InsertByMinScore | app/repositories/rule_configuration_repository.py:10 | inserting into a list sorted by min_score descending keeps it sorted and adds exactly that rule |
| CreditRuleService.SortByMinScoreDesc | app/repositories/rule_configuration_repository.py:10 | the result is sorted by min_score descending and is a permutation of the input |
| CreditRuleService.ActiveCibilRules | app/repositories/rule_configuration_repository.py:7-12 | the rule list is sorted by min_score descending and holds exactly the active CIBIL_SCORE rules |
| CreditRuleService.EvaluateCibil | app/services/credit_rule_service.py:10-18 | the evaluator only reads the store; when no active rule matches, the result is AUTO_REJECTED |
| CreditRuleService.ThreeBandsDecisions | app/services/credit_rule_service.py:13-18 | under a 750/550 three-band table, a score in [300, 900] is approved exactly from 750, rejected exactly below 550, and reviewed in between |
| CreditRuleService.ThreeBandsOutOfRange | app/services/credit_rule_service.py:17-18 | outside [300, 900] no band matches and the fallback rejects |
| UserService.RegisterKeepsPhonesUnique | app/services/user_service.py:14-32 | inserting a user with an unused phone keeps phones unique and the phone taken |
| UserService.RegisterUser | app/services/user_service.py:13-33 | a taken phone fails and inserts nothing; otherwise one user is inserted with KYC PENDING, approval PENDING and not a minor, and phones stay unique |
| UserService.AgeCountsAnniversaries | app/services/user_service.py:74-77 | the age is at least n exactly when the n-th anniversary of the birth date is not after today |
| UserService.MinorIffBeforeEighteenthBirthday | app/services/user_service.py:74-78 | a user is a minor exactly when the eighteenth birthday is still to come |
| UserService.KycError | app/services/user_service.py:66-71 | unknown user fails first, then an already completed KYC; otherwise the submission proceeds |
| UserService.WithKyc | app/services/user_service.py:73-94 | after KYC the status is COMPLETED, the details are stored, the minor flag is set exactly when the eighteenth birthday has not come, updated_at is now, and every other field of the user is kept |
| UserService.KycNotRepeatable | app/services/user_service.py:70-90 | after a successful submission, a repeat fails with "KYC already completed" |
| UserService.SubmitKyc | app/services/user_service.py:65-94 | a failed guard changes nothing; success stores exactly the KYC update on that user |
| BankManagerService.UserDecisionError | app/services/bank_manager_service.py:19-30 | the checks run in order: unknown user, KYC not completed, approval no longer PENDING, REJECT without a reason; a decision passes exactly when none applies |
| BankManagerService.Decided | app/services/bank_manager_service.py:32-42 | APPROVE sets APPROVED and REJECT sets REJECTED, with the deciding manager and updated_at now; every other field of the user is kept |
| BankManagerService.SecondUserDecisionFails | app/services/bank_manager_service.py:26-42 | a second decision on the same user fails with "User already processed" |
| BankManagerService.DecideUser | app/services/bank_manager_service.py:12-53 | a failed guard changes neither the users nor the audit log; success sets APPROVED on APPROVE and REJECTED on REJECT on that user only, every other field kept, and appends exactly one BANK_MANAGER audit entry about the USER |
| LoanApplicationService.EligibilityError | app/services/loan_application_service.py:60-68 | checks in order: KYC, bank approval, minor; a missing minor flag is not a minor |
| LoanApplicationService.InsertKeepsKeysUnique | app/services/loan_application_service.py:26-43 | inserting under an unused key keeps keys unique and makes the key used |
| LoanApplicationService.GetLoanApplication | app/services/loan_application_service.py:44-58 | an unknown id fails with "Loan application not found"; a known one returns the stored application with its id |
| LoanApplicationService.CreateLoanApplication | app/services/loan_application_service.py:13-43 | unknown user, then eligibility, are checked before the key; a used key returns that application as reused and inserts nothing; a fresh key inserts one PENDING application of the caller under a fresh id, which the lookup then finds |
| LoanApplicationService.CreateThenRetry | app/services/loan_application_service.py:26-43 | a retry with the same key after a successful create returns the same id, marked as reused |
| LoanManagerService.LoanDecisionErrorAsWritten | app/services/loan_manager_service.py:19-27 | as written, no decision gets past the status check: a found application always raises on the undeclared MANUAL_REVIEW member |
| LoanManagerService.AsWrittenBlocksEveryDecision | app/services/loan_manager_service.py:23-27 | every decision the corrected guard allows is blocked as written |
| LoanManagerService.AsWrittenCounterexample | app/services/loan_manager_service.py:23-27 | approving a PENDING application passes the corrected guard and raises as written |
| LoanManagerService.LoanDecisionError | app/services/loan_manager_service.py:19-30 | checks in order: unknown application, status other than PENDING, REJECT without a reason; a decision passes exactly when none applies |
| LoanManagerService.DecidedApplication | app/services/loan_manager_service.py:32-43 | APPROVE sets APPROVED and REJECT sets REJECTED, with reason, decider and time recorded; every other field of the application is kept |
| LoanManagerService.SecondLoanDecisionFails | app/services/loan_manager_service.py:23-36 | a second decision on the same application fails with "Loan already processed" |
| LoanManagerService.DecideLoan | app/services/loan_manager_service.py:12-54 | a failed guard changes neither applications nor audit log; success sets APPROVED on APPROVE and REJECTED on REJECT on that application only, every other field kept, and appends exactly one LOAN_MANAGER audit entry about the LOAN |
| AccountService.Deposited | app/services/account_services.py:13-20 | after the upsert the account exists with its balance raised by exactly the amount (the amount itself for a new account), it carries updated_at now, and other accounts are unchanged |
| AccountService.DepositsAdd | app/services/account_services.py:13-20 | two deposits to one account add up to a single deposit of their sum |
| AccountService.DepositOnlyRaises | app/services/account_services.py:9-20 | a valid deposit never lowers a balance and never touches another account |
| AccountService.Deposit | app/services/account_services.py:9-20 | a non-positive amount fails with "Invalid amount" and changes nothing; otherwise the upsert is applied |
| AdminService.CreateManagerError | app/services/admin_service.py:11-16 | the role is checked before the id: not a bank or loan manager fails first, then an existing manager id |
| AdminService.AppendKeepsIdsUnique | app/services/admin_service.py:14-29 | appending a manager with an unused id keeps ids unique and makes the id taken |
| AdminService.SecondCreateFails | app/services/admin_service.py:11-29 | a second create with the same id fails, with "Manager ID already exists" when its role is valid |
| AdminService.CreateManager | app/services/admin_service.py:10-29 | a failed guard inserts nothing; success appends one ACTIVE, admin-approved manager with the requested role, and ids stay unique |

## Left out

- HTTP routers, application start-up and the cron wiring of the batch: they are glue, and only the operations they call are modelled.
- Authentication: tokens, password hashing and verification, login. A password hash enters the model as an already computed string.
- Clocks, random transaction ids and fresh document ids: clock values are parameters, the transaction id of a ledger entry is not modelled, and a new document's id is a parameter required to be unused.
- Floating-point and Decimal128 amounts: every amount is an integer number of paise.
- Concurrency: the services are asynchronous and the idempotency check is check-then-insert, which can race. The model is sequential and claims nothing about interleavings.
- Invalid ObjectId strings: the repositories answer "not found" for them, which the model covers because such an id is never a key of the store.
- The batch's cursor is modelled as the due positions computed once before the loop. Each visited row is re-read when visited; no row is visited twice, so the re-read sees the row as the query saw it.
- The score stored on the user is the score of the loan just processed. The model keeps this behaviour; a user with several loans gets the score of whichever loan the batch touched last.
- The loan's missed counter counts failed attempts, while the summary's missed EMIs count FAILED rows. They differ once an installment fails twice. The model keeps both as written.
- Settlement.DueIndices: the due query has no sort, so the database promises no visiting order. The model assumes stored order. Results that depend on the order hold for that order only: SettlementProperties.SequentialDebitScenario and TwoDueRows say which of two installments a short balance pays. SettlementProperties.SettleAllKeepsRunInvariant holds for any sequence of positions, and SettleAllRowOutcome for any order of distinct positions. So conservation of money, the ledger, the loan counters and each visited row ending FAILED or PAID hold whatever order the database uses.
- The source sorts rules by min_score only. The model keeps rules with equal min_score in stored order, which is one of the orders the database may return.
- BankManagerService.UserAudit and LoanManagerService.LoanAudit: the audit action is written as "USER_APPROVE" or "LOAN_REJECT". The source formats a string enumeration member, whose text depends on the Python version; newer versions render it as the class-qualified name.
- `list_users` and `get_user_details` are read-only projections and are not modelled. Nothing in the source masks the Aadhaar number: `submit_kyc` stores it as given, and both projections return it as stored, although the comments at app/services/bank_manager_service.py:69 and :91 call it masked. The model likewise stores the KYC details unchanged.
- `get_user_by_id` and `login_user` are not part of this model.
- `get_loan_application` also renders ids and the amount as strings; the model returns the stored record.
- Functions the repository declares but does not implement are not modelled: loan finalisation, EMI amortisation, application-time scoring, escalation and admin decisions. `handle_user_deletion_escalation` is called by a router but defined nowhere.
- `count_active_loans` and `find_escalated_loans` in the loan application repository are not used by the modelled services.

## Findings

| source | as written | input that shows it | evidently intended | confidence | as-written member | corrected member |
|---|---|---|---|---|---|---|
| app/services/loan_manager_service.py:23-27 | the allowed statuses are built as PENDING and MANUAL_REVIEW, but the status enumeration (app/enums/loan.py:9-18) has no MANUAL_REVIEW member, so the lookup raises AttributeError for every application that exists | a PENDING application and an APPROVE decision | a PENDING application can be decided; the only declared status that is still to be decided is PENDING | not executed | LoanManagerService.LoanDecisionErrorAsWritten, LoanManagerService.AsWrittenCounterexample | LoanManagerService.LoanDecisionError, LoanManagerService.DecideLoan, LoanManagerService.SecondLoanDecisionFails |
