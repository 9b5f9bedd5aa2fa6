# Verified models of the mock server's rules

The mock server of this repository is a complete in-memory statement of the product's rules: a billing ledger, accounts with
sessions and lockouts, roles with a permission matrix, keyset pagination, CASL rules compiled from stored conditions, feature flags.
`shared/` adds the pure algorithms they rest on: money strings, query safety, flag evaluation. This project models that
code in Dafny and proves what it promises over every input, every run and every reachable state.

Where the code updates tables, a step function on values says what one request does, a `Store` class holds the tables as fields and
changes them statement by statement, and every method is proved equal to its step. The laws are then proved about runs of steps
(`After(s, events)` is the state a run reaches, `ReplyAt(s, events, k)` what its k-th request was answered).

- `Core` - optional values and first-hit searches
- `Calendar`, `Money`, `Proration` - billing boundaries, decimal amounts, the quote of a plan change
- `Pagination` - the cursor walk over changing tables
- `MongoQuery`, `RoleConditionCheck` - the recursive safety check of a custom condition, and the mutually recursive pre-deploy check
- `Ability`, `AbilityCompiler`, `AbilityRows` - from role permissions to rules, the loops that build them, and the decision in terms of
  the stored rows
- `FeatureFlags` - the evaluator and its preview
- `Billing*` - the ledger, its invariant, money, credits, usage, periods, plan changes, refund marks, and the class that runs it
- `Accounts*`, `AccountStore` - sign-in, lockout, refresh rotation, revocation, the session cap, email changes, password recovery,
  mailed tokens, deleted accounts, and the class that runs them
- `Rbac*` - actions, roles, grants and role assignments, their laws, and the class that runs them

Facts about the code that a reader might not expect, each stated by a lemma below:

- Restoring a deleted user does not look at the address again, so two live accounts can come to share one (`RestoreCanCollide`); it is
  harmless exactly when nobody live has taken the address (`RestoreIffFree`).
- The `iat` of an access token is in whole seconds and the revocation stamp in milliseconds, so a token issued later in the very
  second of a stamp is rejected as well (`SurvivesTheStamp`).
- The pre-deploy check of stored conditions has no nesting cap; the safety check stops at 32 levels (`CapIsTheDifference`).
- Resolved permissions are keyed by names joined with colons. Two resource names can share a key exactly when one continues the other
  with a colon (`ResourcesCollideIff`); the four resources there are do not, and no route adds one (`NoPermissionIsLost`).
- Of two denies of one permission that a user holds through their roles, only the first row in scanning order counts, even when their
  conditions differ (`LaterRowIsShadowed`, `ShadowedDenyIsLost`, `SecondDenyExample`).
- One request can insert a (role, permission) pair twice: exactly when it gets through its guards and
  names a permission twice (`PairsStayUniqueIff`, `NamedTwice`).
- Renaming a role leaves its former name with the users who hold it (`NamesStayHeldIff`, `StrandedByRename`).
- An invoice of a positive amount with nothing left to refund is marked `refunded` exactly when an admin refund took the last of it
  (`MarkedIffFilledByRefund`); a plan change that takes the last of it leaves it `paid` (`ChangeFillsSourceIff`, `FullAndPaid`).
- Deleting a user sets no revocation stamp, and nothing stamps a deleted row, so after a restore the access tokens issued before the
  deletion are accepted again, while the refresh tokens stay dead (`RestoreRevivesAccess`, `EndedTokensAreDead`).
- Moving an account to another address ends its sessions but spends neither its reset nor its verification tokens, so one mailed to
  the former address still works until it is used or replaced by a further mail (`ResetTokenOutlives`, `ResetAfterMove`,
  `VerificationOutlives`, `VerifiedAfterMove`, `ResentTokenReplaces`).
- Units recorded with a date before the current period, or left in a period that is renewed on a fixed plan or started over, are never
  counted (`EverythingCountedIff`, `LateUnitsAreLost`).
- A login compares passwords with `!==`, so a null password matches an account that has none (`NullPasswordSignsInIff`); no run from an
  empty table has such an account (`NobodySignsInWithoutPassword`).
- A name stranded by a rename is picked up by the next role created under it (`NewRoleHolders`, `StrandedIsPickedUp`).
- An empty `custom` text passes the request's shape check and then vetoes the grant when rules are built (`AcceptedConditionVeto`).
- Sorted by a column that no row has, a walk is exact if and only if one page holds the whole table; otherwise it repeats its first
  page for ever (ascending) or ends after it (descending) (`MissingColumnIsExactIff`, `MissingColumnWalk`). Every route refuses such a
  column beforehand (mock-server/src/helpers/pagination.helpers.ts:43-72).

## Model

| member | source | states |
|---|---|---|
| Calendar.DayNumberAscends | mock-server/src/utils/period.ts:39-43 | the day count behind every instant orders dates exactly as the Gregorian calendar does, leap years included |
| Calendar.InstantRoundTrip | mock-server/src/utils/period.ts:39-43 | a date and time of day survive the trip to milliseconds and back, before 1970 too |
| Calendar.NextPeriodEndLater | mock-server/src/utils/period.ts:24-37 | the next boundary is strictly later than the instant it is counted from, for every anchor |
| Calendar.AddIntervalLater | mock-server/src/utils/period.ts:13-18 | adding an interval always moves forward, through short months too |
| Calendar.RestoredStep | mock-server/src/utils/period.ts:24-37 | one more interval from a clamped date, restored to the anchor's day, is one more interval from the original date |
| Calendar.RenewalsDoNotDrift | mock-server/src/utils/period.ts:13-37 | renewing n times one interval at a time from an anchor gives the anchor plus n intervals with a single clamp |
| Calendar.PeriodLength | mock-server/src/utils/period.ts:13-37 | every period between boundaries of one anchor is a whole number of days: 28 to 31 for a month, 365 or 366 for a year |
| Money.MatchesTheGrammar | shared/src/utils/money.ts:65-85 | the scan accepts a text with a sign, whole and fraction part iff those parts spell it, so a text is read in at most one way |
| Money.ParseIsExact | shared/src/utils/money.ts:65-85 | parsing gives an amount iff the trimmed text spells a decimal of at most the allowed places whose exact value it is: nothing is truncated |
| Money.PrintSpells | shared/src/utils/money.ts:92-108 | a printed amount is a decimal of the grammar with exactly the requested number of places |
| Money.RoundTrip | shared/src/utils/money.ts:65-108 | parsing a printed amount at the same scale gives the amount back, for every integer and every scale |
| Money.DivFloorIsFloor | shared/src/utils/money.ts:132-148 | the correction of truncating division yields the mathematical floor for every combination of signs, and nothing else |
| Money.FloorIsUnique | shared/src/utils/money.ts:132-148 | the floor is determined by its two bounds |
| Proration.NetWithinOneUnit | mock-server/src/middleware/billing.middleware.ts:700-734 | remainder days within the total, both legs within the plan prices, and their net within one minor unit of the exact pro-rata difference |
| Proration.QuoteDecreases | mock-server/src/middleware/billing.middleware.ts:700-734 | the remainder, the refund and the charge never grow as time passes |
| Proration.QuoteAtTheEnds | mock-server/src/middleware/billing.middleware.ts:700-734 | at the start of a period of whole days both full prices move, and once it has ended nothing does |
| Pagination.CursorStandsForRow | mock-server/src/helpers/pagination.helpers.ts:94-117 | the stored cursor compares with any row exactly as the row it was taken from |
| Pagination.SortAscends | mock-server/src/helpers/pagination.helpers.ts:129-142 | the sort yields a strictly ascending arrangement of exactly the given rows |
| Pagination.SortIsUnique | mock-server/src/helpers/pagination.helpers.ts:129-142 | two ascending arrangements of the same rows are equal, so the sorting algorithm cannot show |
| Pagination.PaginateIsNextPage | mock-server/src/helpers/pagination.helpers.ts:129-175 | on sortable rows the index search and slice give the first `limit` rows after the cursor, with a next cursor iff rows remain |
| Pagination.WalkNeverRepeats | mock-server/src/helpers/pagination.helpers.ts:129-175 | following cursors while rows are inserted and deleted between pages never returns an id twice |
| Pagination.WalkMissesNothing | mock-server/src/helpers/pagination.helpers.ts:129-175 | a finished walk has returned every row that was present in all the snapshots it read |
| Pagination.StillWalk | mock-server/src/helpers/pagination.helpers.ts:129-175 | over an unchanging table the pages join to exactly the sorted rows in ceil(n / limit) pages, and one empty page for none |
| Pagination.PageCountIsCeiling | mock-server/src/helpers/pagination.helpers.ts:144-175 | the page count used there is the ceiling of rows over limit |
| Pagination.MissingColumnWalk | mock-server/src/helpers/pagination.helpers.ts:94-175 | sorted by a column that no row has: one full page if it fits, else the first page for as long as the walk is followed (ascending) or the first page and an empty last one (descending) |
| Pagination.MissingColumnIsExactIff | mock-server/src/helpers/pagination.helpers.ts:94-175 | for every such table the walk is finished with exactly the sorted rows iff the table has at most `limit` rows |
| MongoQuery.ValidateExact | shared/src/utils/mongo-query-safety.ts:77-121 | below any depth, nothing is reported iff the tree is safe and fits the nesting still allowed, whatever path is being reported |
| MongoQuery.AcceptedIffSafe | shared/src/utils/mongo-query-safety.ts:77-121 | from the root: accepted iff safe and at most 32 container levels deep |
| RoleConditionCheck.NodeExact | server/scripts/check-existing-role-conditions.ts:67-159 | the three mutually recursive checkers accept exactly the inductively defined translatable conditions |
| RoleConditionCheck.TranslatableIsSafe | server/scripts/check-existing-role-conditions.ts:67-159 | every translatable condition is a safe tree |
| RoleConditionCheck.CheckedIsSafeWithinCap | server/scripts/check-existing-role-conditions.ts:67-159 | a condition the pre-deploy check accepts passes the safety check iff it respects the nesting cap |
| RoleConditionCheck.CapIsTheDifference | shared/src/utils/mongo-query-safety.ts:77-121 | a tower of n negations passes the pre-deploy check always and the safety check iff n is below 32 |
| Ability.DistinctWritesMatch | mock-server/src/state.ts:418-489 | when no two branches write one key, the built query matches exactly the records all branches describe |
| Ability.AllWritesMatch | mock-server/src/state.ts:418-489 | whatever is overwritten, a record meeting every branch meets the query |
| Ability.DecisionIsGrantWithoutDeny | mock-server/src/state.ts:359-511 | reading the packed rules last-match-wins allows iff the user has a super role, or some resolved permission grants and none denies |
| Ability.NoWildcardAllow | mock-server/src/state.ts:400-411 | without a super role no allow rule carries a reserved action or subject, whatever names are stored |
| Ability.OwnershipIsEnforced | mock-server/src/state.ts:420-489 | an allow with an ownership branch grants only records whose owner field holds the user's id |
| Ability.DenyCoversItsBranches | mock-server/src/state.ts:418-507 | a deny entry blocks at least every record that all its branches describe, and every record when its condition does not resolve |
| Ability.ResolvedDedups | mock-server/src/state.ts:318-357 | resolution keeps one entry per key, and drops a row only when its key is already there |
| Ability.AddRowDedups | mock-server/src/state.ts:330-345 | adding a row keeps the entries found so far in place (first wins) and leaves the row's key present |
| AbilityRows.ResolvedIffEffective | mock-server/src/state.ts:318-357 | an entry is resolved iff a stored row of a held role yields it and no earlier such row has its key: the first wins, over all roles and rows |
| AbilityRows.DecisionOverRows | mock-server/src/state.ts:318-511 | the compiled rules allow iff the user has a super role, or some stored row that counts grants and no stored row that counts denies |
| AbilityRows.EffectiveDenyBlocks | mock-server/src/state.ts:318-511 | a stored deny that counts refuses every record its branches describe, and every record when its condition does not resolve |
| AbilityRows.LaterRowIsShadowed | mock-server/src/state.ts:330-345 | of two denies, or two allows, of one permission among the held rows the later never counts, whatever its condition |
| AbilityRows.ShadowedDenyIsLost | mock-server/src/state.ts:318-511 | a record that only such a later deny describes is allowed when some row grants it |
| AbilityRows.SecondDenyIsLost | mock-server/src/state.ts:318-511 | two roles each denying one permission: whatever the conditions, a record the first deny does not describe is read, even where the second describes it or does not resolve |
| AbilityRows.SecondDenyExample | mock-server/src/state.ts:318-511 | an input of that kind, for any two valid fields |
| AbilityRows.KeysTellPermissionsApart | mock-server/src/state.ts:341-343 | keys are equal exactly for the same effect, resource and action, unless one resource name continues the other with a colon |
| AbilityRows.ResourcesCollideIff | mock-server/src/state.ts:341-343 | two different resource names can share a key iff one continues the other with a colon |
| AbilityRows.CollidingEntryIsLost | mock-server/src/state.ts:330-345 | a different entry whose key is taken by the row that counts is not resolved |
| AbilityRows.NoPermissionIsLost | mock-server/src/seed.ts:187-251 | with the resources there are, every held permission keeps an entry of its own effect, resource and action |
| AbilityCompiler.ResolvePermissions | mock-server/src/state.ts:318-357 | the nested loops over an insertion-ordered map compute the resolved permissions |
| AbilityCompiler.BuildQuery | mock-server/src/state.ts:418-489 | the branches in order veto iff one is malformed or would overwrite the ownership field, and else leave exactly the overlay of their writes |
| AbilityCompiler.WriteFields | mock-server/src/state.ts:435-489 | writing a branch's fields stops iff one of them is the protected key, and else overlays them in order |
| AbilityCompiler.BindFields | mock-server/src/state.ts:449-466 | binding attributes stops iff one is not the id or would take the protected key |
| AbilityCompiler.Register | mock-server/src/state.ts:403-507 | the last step of the loop registers the rule of an entry: a veto drops an allow and makes a deny unconditional |
| AbilityCompiler.CompileRules | mock-server/src/state.ts:359-511 | the two passes build the rule list the decision lemma is about: allows in order, then denies |
| FeatureFlags.Evaluate | shared/src/utils/feature-flag-evaluator.ts:31-53 | the scan turns a flag on iff it is enabled, in scope, not excluded, and included or without include rules |
| FeatureFlags.FirstHit | shared/src/utils/feature-flag-evaluator.ts:136-178 | the least matching rule of an effect, or none |
| FeatureFlags.PreviewFlag | shared/src/utils/feature-flag-evaluator.ts:136-178 | the same answer as the evaluator on every input, with its reason and the least matching rule of the deciding effect |
| FeatureFlags.OrderIsIrrelevant | shared/src/utils/feature-flag-evaluator.ts:31-53 | permuting the rules never changes the answer |
| FeatureFlags.RolloutIsMonotone | shared/src/utils/feature-flag-evaluator.ts:55-73 | raising an include percentage never turns the flag off for anyone |
| BillingInvariant.StepKeeps | mock-server/src/middleware/billing.middleware.ts:494-1393 | every step keeps the ledger invariant (one open row per customer, attempts below three, refunds within amounts, a balance row for every pack, refunded iff complete for one-time invoices) and moves each row, invoice and balance only as allowed |
| BillingInvariant.RunKeeps | mock-server/src/control.routes.ts:384-832 | every ledger reachable on a non-decreasing clock satisfies the invariant |
| BillingInvariant.OpeningInv | mock-server/src/state.ts:104-113 | the empty ledger satisfies it |
| BillingMoney.RefundsAreTheLegs | mock-server/src/middleware/billing.middleware.ts:825-905 | after any run an invoice's refunded total is the sum of the plan-change and admin legs reported on it, between zero and its amount |
| BillingMoney.StepDocuments | mock-server/src/middleware/billing.middleware.ts:824-897 | a step writes refund documents for exactly the plan-change leg it reports |
| BillingMoney.RefundsConserved | mock-server/src/middleware/billing.middleware.ts:1193-1255 | from an empty ledger, everything refunded on invoices is the plan-change documents plus the admin legs, under any interleaving |
| BillingCredits.CreditsConserved | mock-server/src/control.routes.ts:575-663 | after any run a balance is the credits of the customer's settled packs not fully refunded, minus all units its renewals spent |
| BillingCredits.StepCredits | mock-server/src/control.routes.ts:677-832 | one step changes a balance by exactly the packs that appear or go and the units it reports spent |
| BillingCredits.PeriodCloseBalances | mock-server/src/control.routes.ts:756-828 | at a close all meters' units are covered by the plan, paid with credits or charged; charging starts only when credits are gone, and spending stops at zero |
| BillingCredits.PackClawedBackOnce | mock-server/src/middleware/billing.middleware.ts:1165-1255 | however a pack's refund is split, its units leave the balance exactly with the leg that completes it, and later refunds are refused |
| BillingPeriods.CanceledIsFinal | mock-server/src/middleware/billing.middleware.ts:254-263 | no continuation of a run changes a canceled subscription row |
| BillingPeriods.ClosedPeriodsDisjoint | mock-server/src/control.routes.ts:756-828 | of two closes of one subscription in a run, the later begins no earlier than the first ended |
| BillingPeriods.RecordCountedOnce | mock-server/src/control.routes.ts:770-781 | no usage record lies in the periods of two closes |
| BillingPeriods.NothingCountedTwice | mock-server/src/control.routes.ts:770-781 | over any run all closes of a subscription together count at most what was recorded on it before its current period |
| BillingUnits.StepUnits | mock-server/src/control.routes.ts:677-832 | one step moves the units before a row's current period by exactly those it counts and those it skips: a record dated before the period, a period renewed on a fixed plan, an incomplete row started over |
| BillingUnits.UnitsAccounted | mock-server/src/control.routes.ts:770-781 | over any run the units before a row's current period are exactly those its closes counted and those its steps skipped |
| BillingUnits.EverythingCountedIff | mock-server/src/control.routes.ts:770-781 | from an empty ledger the closes count everything recorded before the current period iff no step skips a unit |
| BillingUnits.LateUnitsAreLost | mock-server/src/middleware/billing.middleware.ts:1274-1393 | activate a metered plan, record units dated before it, renew: the close counts none of them |
| BillingPeriods.OneOpenPerCustomer | mock-server/src/middleware/billing.middleware.ts:604-689 | in every reachable ledger a customer has at most one open row, with fewer than three failed attempts |
| BillingPeriods.FailuresCancel | mock-server/src/control.routes.ts:692-736 | under failing renewals alone a row is past due until its attempts run out, within three, and canceled exactly then |
| BillingPeriods.UsageIsBilledOnce | mock-server/src/control.routes.ts:677-832 | from an empty ledger: activate a metered plan, record units, renew twice; the first close bills exactly the units above the allowance, the second nothing |
| BillingPlanChange.PreviewIsWhatSettles | mock-server/src/middleware/billing.middleware.ts:814-938 | whatever the provider, the previewed net settles iff the source invoice still covers the quoted refund; where both legs are previewed the charge settles as it is and the refund under the same condition; never more is refunded than quoted |
| BillingPlanChange.PreviewRefusedAlike | mock-server/src/middleware/billing.middleware.ts:744-938 | a preview is refused with a status iff the change would be |
| BillingPlanChange.ChangeWrites | mock-server/src/middleware/billing.middleware.ts:824-897 | the rows a change adds: a paid charge and a refund document, each only when positive, for exactly the reported amounts |
| BillingMarks.ChangeFillsSourceIff | mock-server/src/middleware/billing.middleware.ts:829-896 | a plan change leaves its source with nothing left iff the quoted refund covers what it had left, and leaves it paid either way |
| BillingMarks.RefundMarksIff | mock-server/src/middleware/billing.middleware.ts:1193-1255 | an admin refund of a paid invoice is accepted iff the amount fits what is left, and marks it refunded iff it takes all of it |
| BillingMarks.FullIsFinal | mock-server/src/middleware/billing.middleware.ts:1193-1255 | an invoice with nothing left is never changed again by any step |
| BillingMarks.MarkedIffFilledByRefund | mock-server/src/middleware/billing.middleware.ts:824-1255 | over any run, an invoice of a positive amount that ends with nothing left was filled by one event and is marked refunded iff that was an admin refund |
| BillingMarks.FullAndPaid | mock-server/src/middleware/billing.middleware.ts:814-905 | from an empty ledger: a fixed plan activated and changed at once leaves its first invoice refunded in full and paid |
| BillingUsage.RecordedOnce | mock-server/src/middleware/billing.middleware.ts:1274-1393 | over any run no customer has two usage records with one idempotency key |
| BillingUsage.ReplayChangesNothing | mock-server/src/middleware/billing.middleware.ts:1274-1393 | a key sent again after it was accepted changes nothing, at any later point of any run |
| BillingStore.Store.GetOrCreateCustomer | mock-server/src/middleware/billing.middleware.ts:265-283 | finds the user's customer or adds one in the region of the locale |
| BillingStore.Store.SetBillingRegion | mock-server/src/middleware/billing.middleware.ts:994-1027 | the region step, pinned by an open subscription; the ledger invariant and the clock are kept, as by every handler below |
| BillingStore.Store.ReplacePaymentMethod | mock-server/src/middleware/billing.middleware.ts:404-451 | replaces the default method, or refuses without a billable subscription |
| BillingStore.Store.StartPurchase | mock-server/src/middleware/billing.middleware.ts:494-601 | every refusal of a purchase, then a session at the catalog or requested amount |
| BillingStore.Store.StartCheckout | mock-server/src/middleware/billing.middleware.ts:604-689 | the checkout step with every refusal; afterwards no customer has two open subscriptions |
| BillingStore.Store.ChangeSubscriptionPlan | mock-server/src/middleware/billing.middleware.ts:814-905 | the change step; what it refunds is between zero and what its source had left |
| BillingStore.Store.SettleChange | mock-server/src/middleware/billing.middleware.ts:824-897 | the source is chosen before the charge is recorded, the refund is capped by what it has left, and charge and document are appended |
| BillingStore.Store.CancelSubscription | mock-server/src/middleware/billing.middleware.ts:941-970 | cancels at once or marks the period end |
| BillingStore.Store.CancelAsAdmin | mock-server/src/middleware/billing.middleware.ts:1115-1158 | the same for any row not already canceled |
| BillingStore.Store.RefundInvoice | mock-server/src/middleware/billing.middleware.ts:1193-1255 | the refund step; an accepted refund is positive and at most what the invoice had left |
| BillingStore.Store.RevokeEffects | mock-server/src/middleware/billing.middleware.ts:1165-1191 | takes a pack's credits or the grants of a purchase back |
| BillingStore.Store.IngestUsage | mock-server/src/middleware/billing.middleware.ts:1274-1393 | the ingestion step with every refusal and the replay; idempotency keys stay unique |
| BillingStore.Store.ActivateSubscription | mock-server/src/control.routes.ts:384-514 | the activation step; afterwards no customer has two open subscriptions |
| BillingStore.Store.BringToPlan | mock-server/src/control.routes.ts:455-510 | reuses the customer's open row or adds one, so a second open row never appears |
| BillingStore.Store.SettlePurchase | mock-server/src/control.routes.ts:575-663 | settles a session once: invoice, then credits or a grant |
| BillingStore.Store.RunRenewal | mock-server/src/control.routes.ts:677-832 | the renewal step; a closed period's units are covered, paid with credits or charged, and spending credits stops at zero |
| BillingStore.Store.ChargeAndAdvance | mock-server/src/control.routes.ts:756-828 | sums the period's units in a loop, spends credits, records the invoice and moves the period |
| BillingStore.Store.CancelForDeletedUser | mock-server/src/middleware/billing.middleware.ts:254-263 | every row of the deleted user's customer is canceled and no other touched; the user has no current subscription left |
| AccountsLockout.StepKeepsLocks | mock-server/src/middleware/auth.middleware.ts:113-196 | unlocked accounts have fewer than five attempts and locked ones exactly five, kept by every step |
| AccountsLockout.AtMostFiveFailures | mock-server/src/middleware/auth.middleware.ts:113-196 | in any half-open window of the lockout's length without a successful login or admin unlock of the account, at most five password comparisons fail for it |
| AccountsLockout.FifthFailureLocks | mock-server/src/middleware/auth.middleware.ts:133-158 | the bound is reached: five wrong passwords lock the account, and until the lock runs out every login is answered 423 and changes nothing |
| AccountsSessions.StepSessions | mock-server/src/middleware/auth.middleware.ts:475-569 | every step keeps active and rotated tokens disjoint, issued and owned by live accounts; a token rotates only by being redeemed and leaves the rotated table only with all of its user's; an ending reply leaves the user no token and a stamp of now |
| AccountsSessions.RunTokens | mock-server/src/middleware/auth.middleware.ts:475-569 | the same tables hold up over every run |
| AccountsSessions.EmptyTokens | mock-server/src/state.ts:85-86 | the empty token tables are sound |
| AccountsSessions.RedeemedOnce | mock-server/src/middleware/auth.middleware.ts:488-569 | every refresh token is redeemed at most once in any run |
| AccountsSessions.ReplayEndsTheFamily | mock-server/src/middleware/auth.middleware.ts:501-521 | a redeemed token presented again is refused, and unless the user's sessions were cut in between it ends all of them |
| AccountsSessions.EndedTokensAreDead | mock-server/src/middleware/auth.middleware.ts:475-597 | once a user's sessions end or the account is deleted, each refresh token they had, active or rotated, is refused for good, a restore included, and its presentation changes nothing |
| AccountsDeleted.StepLeavesDead | mock-server/src/middleware/users.middleware.ts:432-518 | no step but a restore of the account itself changes the row of a deleted account |
| AccountsDeleted.RestoreRevivesAccess | mock-server/src/middleware/users.middleware.ts:432-518 | over any run, from the deletion to the first restore every access token of the account is refused, and after it one is accepted exactly as just before the deletion |
| AccountsAccess.RevokedForever | mock-server/src/helpers/auth.helpers.ts:12-32 | once a user's sessions end, every access token issued strictly before is rejected at every later point of the run |
| AccountsAccess.SurvivesTheStamp | mock-server/src/jwt.utils.ts:13-27 | an unexpired token is accepted iff its whole second begins at or after the stamp |
| AccountsAccess.PruneKeepsNewest | mock-server/src/helpers/auth.helpers.ts:80-95 | pruning keeps exactly the user's newest min(n, max) tokens in order and everybody else's as they were |
| AccountsAccess.SessionsWithinCap | mock-server/src/middleware/auth.middleware.ts:207-215 | a user's active refresh tokens never exceed the allowance of their last sign-in, through any number of rotations |
| AccountsEmail.StepEmails | mock-server/src/middleware/auth.middleware.ts:705-921 | addresses stay unshared and the pending index agrees with the rows under every step, restores at a free address included |
| AccountsEmail.AddressesNeverShared | mock-server/src/middleware/auth.middleware.ts:705-921 | over every run whose restores find the address free, no current or pending address is shared by two live accounts, and no confirmation conflicts |
| AccountsEmail.EmptyEmails | mock-server/src/state.ts:85-89 | the empty table shares no address |
| AccountsEmail.ConfirmNeverConflicts | mock-server/src/middleware/auth.middleware.ts:866-891 | the 409 branch of a confirmation is unreachable |
| AccountsEmail.InitiateThenConfirm | mock-server/src/middleware/auth.middleware.ts:705-921 | confirming with the mailed token moves the account to the new verified address within the hour, only drops the change after it, and touches no other account |
| AccountsEmail.ConflictIffTaken | mock-server/src/middleware/users.middleware.ts:353-365 | where no address is shared, looking at the first live holder finds exactly the addresses that any other live account holds or awaits |
| AccountsEmail.RestoreIffFree | mock-server/src/middleware/users.middleware.ts:489-518 | a restore keeps the promise exactly when nobody live uses the address |
| AccountsEmail.RestoreCanCollide | mock-server/src/middleware/users.middleware.ts:489-518 | delete, create anew, restore: two live accounts with one address |
| AccountsRecovery.StepResets | mock-server/src/middleware/auth.middleware.ts:322-473 | an account has at most one reset token under every step; tokens only appear by being issued and leave when redeemed |
| AccountsRecovery.ResetOnce | mock-server/src/middleware/auth.middleware.ts:390-473 | a reset token is redeemed at most once in any run |
| AccountsRecovery.RecoveredAccountSignsIn | mock-server/src/middleware/auth.middleware.ts:322-473 | end to end: the mailed token sets the password, older tokens of the account are refused, and then exactly the new password signs a verified, unlocked account in |
| AccountsRecovery.EmptyResets | mock-server/src/state.ts:85-89 | the empty table holds no reset token |
| AccountsMailedTokens.ResetTokenLeavesIff | mock-server/src/middleware/auth.middleware.ts:322-473 | a step makes a reset token useless iff it redeems it for a live account or mails its account another one; every other step, changes of address included, keeps it and its owner |
| AccountsMailedTokens.ResetTokenOutlives | mock-server/src/middleware/auth.middleware.ts:322-473 | over any run in which it is neither redeemed nor replaced a reset token stays good, and is accepted iff its account is live |
| AccountsMailedTokens.StepVerifications | mock-server/src/middleware/auth.middleware.ts:231-319 | an account has at most one verification token under every step |
| AccountsMailedTokens.EmptyVerifications | mock-server/src/state.ts:85-89 | the empty table holds no verification token |
| AccountsMailedTokens.VerificationLeavesIff | mock-server/src/middleware/auth.middleware.ts:231-319 | a step makes a verification token useless iff it uses it for a live account, or is a request for a further mail to the present address of its account while that is not verified; every other step keeps it and its owner |
| AccountsMailedTokens.VerificationOutlives | mock-server/src/middleware/auth.middleware.ts:231-319 | over any run in which it is neither used nor replaced by a further mail a verification token stays good, and verifies whatever address its live account has by then |
| AccountsMailedTokens.ResentTokenReplaces | mock-server/src/middleware/auth.middleware.ts:272-319 | register, ask for a further mail: the first token is refused though nobody used it and the account is live, the second verifies the account |
| AccountsMailedTokens.ResetAfterMove | mock-server/src/middleware/users.middleware.ts:366-378 | create, ask for a reset, move the address, redeem: the token mailed to the former address sets the password of the moved account |
| AccountsMailedTokens.VerifiedAfterMove | mock-server/src/middleware/users.middleware.ts:366-378 | register, move the address, verify: the token mailed to the former address marks the new one verified |
| AccountsPasswords.StepPasswords | mock-server/src/middleware/auth.middleware.ts:56-702 | every step leaves a password as it was or replaces it by a password, and new accounts have one |
| AccountsPasswords.NullPasswordSignsInIff | mock-server/src/middleware/auth.middleware.ts:139-196 | a null password signs in iff the account found has none and is active, verified and unlocked |
| AccountsPasswords.NobodySignsInWithoutPassword | mock-server/src/middleware/auth.middleware.ts:139-196 | in no run from an empty table does a login without a password sign in |
| AccountStore.OneMoreOldest | mock-server/src/helpers/auth.helpers.ts:89-94 | deleting the k-th collected token after its elders is deleting one more of the oldest |
| AccountStore.Store.PruneOldest | mock-server/src/helpers/auth.helpers.ts:80-95 | collecting the user's tokens and deleting the excess from the front is the cap of `PruneKeepsNewest` |
| AccountStore.Store.EndUserSessions | mock-server/src/middleware/auth.middleware.ts:475-485 | both token loops and the stamp |
| AccountStore.Store.HandleLogin | mock-server/src/middleware/auth.middleware.ts:103-228 | a login, table for table and reply for reply, is the login step; token tables, lock counts, reset and verification tokens and passwords stay sound, as under every handler below |
| AccountStore.Store.HandleOAuthSignIn | mock-server/src/control.routes.ts:139-164 | a provider sign-in opens a session under the same cap |
| AccountStore.Store.HandleRefresh | mock-server/src/middleware/auth.middleware.ts:488-569 | reuse detection, refusals and rotation |
| AccountStore.Store.HandleLogout | mock-server/src/middleware/auth.middleware.ts:572-597 | ends every session of the caller |
| AccountStore.Store.HandleChangePassword | mock-server/src/middleware/auth.middleware.ts:613-702 | the password part of a profile update: current password, new password, sessions ended |
| AccountStore.Store.HandleForgotPassword | mock-server/src/middleware/auth.middleware.ts:322-387 | replaces every reset token of an active account by a fresh one, and answers alike otherwise |
| AccountStore.Store.HandleResetPassword | mock-server/src/middleware/auth.middleware.ts:390-473 | spends the token, cancels a pending email change, ends the sessions |
| AccountStore.Store.HandleInitiateEmailChange | mock-server/src/middleware/auth.middleware.ts:705-813 | refuses, or answers silently when the address is taken, or replaces the pending change |
| AccountStore.Store.HandleConfirmEmailChange | mock-server/src/middleware/auth.middleware.ts:816-921 | every outcome of a confirmation, the token spent in each |
| AccountStore.Store.HandleRegister | mock-server/src/middleware/auth.middleware.ts:56-100 | refuses an address in use or pending, else adds an unverified account with a verification token |
| AccountStore.Store.HandleAdminCreate | mock-server/src/helpers/user-create.helpers.ts:46-140 | refuses an address in use or pending, else adds a verified account |
| AccountStore.Store.HandleVerifyEmail | mock-server/src/middleware/auth.middleware.ts:231-269 | spends the token and verifies the account |
| AccountStore.Store.HandleResendVerification | mock-server/src/middleware/auth.middleware.ts:272-319 | for a known address not yet verified replaces every verification token of the account by a fresh one, and answers alike otherwise |
| AccountStore.Store.HandleAdminPatch | mock-server/src/middleware/users.middleware.ts:267-429 | email, password, activation and unlock in the order of the handler, each with its session effects; the conflict check looks at the first live holder of the address, as the handler does |
| AccountStore.Store.HandleDelete | mock-server/src/middleware/users.middleware.ts:432-486 | soft delete, pending change canceled, both token tables cleared of the user |
| AccountStore.Store.HandleRestore | mock-server/src/middleware/users.middleware.ts:489-518 | clears the deletion mark of any known row |
| AccountStore.Store.HandleChangeRoles | mock-server/src/middleware/roles.middleware.ts:783-786 | a role change stamps the account and leaves its refresh tokens |
| RbacInvariant.StepKeeps | mock-server/src/middleware/rbac.middleware.ts:247-491 | every role and permission request keeps the invariant: one row per resource and action and no other, every grant points at an existing role and permission, is well shaped, and is no identity-bound grant on `create`; names and ids are unique |
| RbacInvariant.RunKeeps | mock-server/src/middleware/roles.middleware.ts:255-866 | the same over every run |
| RbacLaws.CreateThenDelete | mock-server/src/middleware/rbac.middleware.ts:329-479 | a new action can be deleted at once, and actions, permissions and grants are then as before |
| RbacLaws.AssignThenRemove | mock-server/src/middleware/roles.middleware.ts:557-723 | removing a permission undoes assigning it |
| RbacLaws.AssignRoleThenUnassign | mock-server/src/middleware/roles.middleware.ts:726-866 | taking a role away undoes giving it, to another user or to oneself, in every state |
| RbacLaws.SetIsExact | mock-server/src/middleware/roles.middleware.ts:526-540 | replacing leaves the role exactly the requested grants in order and other roles theirs |
| RbacLaws.PairsStayUniqueIff | mock-server/src/middleware/roles.middleware.ts:450-674 | (role, permission) pairs stay unique iff a request that gets through its guards names no permission twice; the guards are conditions on the state before the request |
| RbacLaws.NamedTwice | mock-server/src/middleware/roles.middleware.ts:532-539 | a two-request run from a bare matrix after which one pair is granted twice |
| RbacLaws.NamesStayHeldIff | mock-server/src/middleware/roles.middleware.ts:313-390 | every name a user holds remains the name of a role, except exactly after a rename that gets through its guards and whose role somebody holds |
| RbacLaws.StrandedByRename | mock-server/src/middleware/roles.middleware.ts:357-371 | a three-request run from a bare matrix after which somebody holds the name of no role |
| RbacLaws.NewRoleHolders | mock-server/src/middleware/roles.middleware.ts:255-310 | a new role is held at once by exactly the users who hold its name already: by nobody unless a rename stranded it |
| RbacLaws.StrandedIsPickedUp | mock-server/src/middleware/roles.middleware.ts:255-390 | a four-request run after which somebody holds a role that nobody gave them |
| RbacLaws.DeleteUnholds | mock-server/src/middleware/roles.middleware.ts:415-431 | in every state, after a role is deleted nobody holds its name |
| RbacLaws.NewSuperStep | mock-server/src/middleware/roles.middleware.ts:753-767 | a step makes a user a super user only by assigning them a role on the word of a super user |
| RbacLaws.SuperOnlyFromSuper | mock-server/src/middleware/roles.middleware.ts:753-767 | in every run, whoever becomes a super user was made one by somebody who already was |
| RbacLaws.AcceptedConditionVeto | mock-server/src/middleware/roles.middleware.ts:75-121 | a condition the role routes accept is vetoed when rules are built iff its custom text is empty, a later branch names the ownership field, or one compares with an attribute other than the id |
| RbacStore.Store.HandleCreateAction | mock-server/src/middleware/rbac.middleware.ts:247-354 | refusals, then the action and one permission for each resource |
| RbacStore.Store.CreatePermissions | mock-server/src/middleware/rbac.middleware.ts:331-341 | the fan-out loop |
| RbacStore.Store.HandleDeleteAction | mock-server/src/middleware/rbac.middleware.ts:427-491 | refusals, the in-use check among them, then exactly the action's permissions and the action go |
| RbacStore.Store.HandleCreateRole | mock-server/src/middleware/roles.middleware.ts:255-310 | refusals, then an ordinary role |
| RbacStore.Store.HandleRenameRole | mock-server/src/middleware/roles.middleware.ts:313-390 | refusals, then the row alone is renamed |
| RbacStore.Store.HandleDeleteRole | mock-server/src/middleware/roles.middleware.ts:393-447 | refusals, then the role's grants, its name with every user, and the role go |
| RbacStore.Store.HandleSetPermissions | mock-server/src/middleware/roles.middleware.ts:450-554 | all checks before anything is touched, then the replacement |
| RbacStore.Store.HandleAssignPermissions | mock-server/src/middleware/roles.middleware.ts:557-674 | all checks, pairs already granted among them, then every grant is appended |
| RbacStore.Store.HandleRemovePermission | mock-server/src/middleware/roles.middleware.ts:677-723 | refusals, then every grant of the pair goes |
| RbacStore.Store.HandleAssignRole | mock-server/src/middleware/roles.middleware.ts:726-801 | refusals, then the role's name is appended |
| RbacStore.Store.HandleUnassignRole | mock-server/src/middleware/roles.middleware.ts:804-866 | refusals, then every copy of the name goes |

## Left out

- The NestJS services behind the real API: only their behaviour as the mock server restates it is modelled.
- HTTP, cookies, request validation beyond what changes the outcome (amount, quantity, name and list bounds), audit rows, pushed events, mail.
- Overwriting control routes (users, roles, permissions, role permissions, usage seeding): they set arbitrary state and keep no invariant;
  likewise the control routes that revoke a user's sessions or access tokens from outside.
- Rows are values in `seq` and `map` fields of the store classes, so two names for one row object are not modelled.
- Ids are table positions or numbers of a supply, which stands for UUIDs being fresh.
- BillingInvariant.StepKeeps: the `updatedAt`, `paidAt`, receipt and provider references, card brand and digits are not modelled.
- AccountStore.Store.HandleLogin: the session allowance is a parameter of a sign-in; how a plan's entitlements yield it is not modelled. A
  body without a password is taken as one with null, which differs only for an account that has none.
- AccountStore.Store.HandleChangePassword: the name, locale and other parts of a profile update are left out.
- AccountsEmail.AddressesNeverShared: assumes restores find the address free, because the code does not check it; `RestoreIffFree` says when that matters.
- Proration.NetWithinOneUnit: amounts are exact integers; the original multiplies and floors in floating point, exact below 2^53.
- Pagination.WalkNeverRepeats: assumes the sort column holds flags, numbers, or values compared as text (nulls and dates among them), and a locale collation that is a total preorder; `MissingColumnIsExactIff` shows what a missing column does.
- The base64url form of a cursor is taken as an inverse pair, and cursor parsing errors are left out.
- The usage summary endpoint, which keeps only the plan's meter, where a renewal counts every meter.
- The record interpreter of CASL is a parameter of the rule lemmas, so `$in`, `$regex` and the like have no meaning of their own here.
- The hash bucket of a percentage rule and date parsing are parameters of the flag evaluator.
- JSON text is taken after parsing; string lengths count characters, not UTF-16 units.
- Currency scales of the host's number formatting, the error of printing at a negative scale, and money addition and comparison.
- Editing an action's or resource's description, and restoring an orphaned resource.
