# Control plane: verified model

The transactional protocols of the MaluDB control plane, with the string and graph algorithms that have an exact
specification. PostgreSQL is kept at the level of rows: unique constraints, foreign keys, rollback, the re-check of a
row under its lock, the advisory lock, and `now()` as the start of a transaction. Providers, clocks, random values and
what other processes answer are parameters.

Code that updates rows or fields in place is a class whose methods are proved equal to a function of the old state.
The properties of whole runs, and of runs of many processes, are lemmas about those functions.

| module | component |
|---|---|
| `Carry` | copying the vector tables of a tenant between nodes, exactly or not at all |
| `BillingPrices`, `Subscriptions`, `Checkouts`, `EventClaims` | the four billing tables and their protocols |
| `Billing`, `BillingEvents`, `BillingHistory`, `BillingOrder`, `Grace` | what events mean, what one may do, whole histories of them, both orders of a sale, the end of grace |
| `Crypto`, `KeyProtocol` | the key ring of one process; many processes on one key table |
| `EnvFile` | printing the Auth worker's environment and reading it back |
| `Reachability`, `OrderedDelete` | the call-graph fixpoints; deleting a space's rows around foreign keys |
| `Alerts`, `ApiKeys`, `ExtensionPins` | operator alerts; key authentication and its use stamp; extension pins and checks |
| `BackupConfig`, `BackupReport` | pgbackrest.conf and the repositories it configures; the node's report and its reading |
| `EgressProxy`, `Tunnel` | which CONNECT is let through; the tunnel's two copying tasks |
| `PyText`, `Spacing`, `Results`, `BillingTypes` | Python string operations, counting spaced moments, shared types |

## Where the code and its documentation part

Each of these is proved; the member is named.

- A carry that fails after its first `setval` restores every row but not the sequences already moved
  (`Carry.CarriedSequences`, `Carry.BrokenCommitMovesSequences`); the docstring says "exactly, or not at all".
- A foreign key out of the carried tables whose column the source does not have yet makes the carry raise, although a
  missing column is elsewhere left to its default (`Carry.SucceedsIff`).
- The check that refuses a first key "in every Class B column" leaves out `project_provider_keys.ciphertext`, which is
  sealed under the same keys (`KeyProtocol.ProviderKeysDoNotStopMinting`).
- A value ending in a double quote reaches GoTrue's migration with a backslash in its place
  (`EnvFile.UnquoteQuote`), and the round trip needs a project ref that adds no key of its own (`EnvFile.RoundTrip`),
  which a ref of one line never does.
- A foreign key alone does not put a child table before its parent; rows that refer to rows of the space do
  (`OrderedDelete.BeforeIffChained`).
- The order of a completion and of a subscription event decides the recorded state unless a stated condition holds
  (`BillingOrder.OrdersAgree`), and a deletion that comes first is forgotten (`BillingOrder.DeletionFirstIsForgotten`).
- A deletion that names a price taken off the map is refused, and the ended subscription's row stays live
  (`BillingOrder.DeletionEndsIff`).
- The end of grace reports `ended` for a row that it did not end when others have ended it or written a later fact
  meanwhile (`Grace.EndedButNotRecorded`), and it ends a subscription bought while the pass was running, which the
  provider was never asked to cancel (`Grace.NewRowMayBeEnded`).
- "Not checked since it was pinned" goes by the stamps of transactions: a pin that commits after the check but started no
  later is not noticed (`ExtensionPins.RefusedUntilChecked`, `ExtensionPins.AcceptedAfterPinIff`).
- Backends whose library cannot be read are "counted rather than ignored", but no refusal looks at the count
  (`ExtensionPins.UnreadableBackendsNeverRefuse`).
- A port of superscript digits, or of more than 4300 digits, raises in `parse_authority` and the connection is closed
  unanswered (`EgressProxy.ParseRaisesExactly`, `EgressProxy.EgressProxy.Handle`); so is a request head that is too slow
  or too long, although the module says that it is answered with an error.

## Model

| member | source | states |
|---|---|---|
| `Carry.Target.BuildPlan` | services/control_plane/extension_data.py:274-308 | the planning loop computes the plan function, and stops at the first table that cannot be planned |
| `Carry.Target.CheckLinks` | services/control_plane/extension_data.py:310-316 | the loop over keys leaving the plan finds exactly the first linked one |
| `Carry.Target.CopyAll` | services/control_plane/extension_data.py:318-329 | the copying loop leaves the rows, or the error, of the copy function |
| `Carry.Target.RepairSequences` | services/control_plane/extension_data.py:331-348 | every owned sequence of a planned table is moved, up to the failing one |
| `Carry.Target.Carry` | services/control_plane/extension_data.py:260-357 | the whole method, commit and rollback, is the run function |
| `Carry.PlanIs` | services/control_plane/extension_data.py:274-308 | planning succeeds iff every listed table is plannable, and then takes exactly the unregistered ones the source has, in order |
| `Carry.LinksAreClearIff` | services/control_plane/extension_data.py:240-253 | no link error iff no taken row holds a value in a key column that leaves the plan |
| `Carry.ExactOrNothing` | services/control_plane/extension_data.py:260-357 | a return: each planned table was empty and holds exactly the source's rows with further columns at default, as many as reported, every other table untouched; a raise: every table as it was |
| `Carry.CarriedValues` | services/control_plane/extension_data.py:318-325 | after a return, value by value: each row of a carried table has exactly the target's columns, the source's own value where the source has the column, else the target's default or null |
| `Carry.NothingElseIsCarried` | services/control_plane/extension_data.py:68-77 | every table but the seven, and every one the dump carries or the source lacks, is untouched and unreported |
| `Carry.PlanRefusal` | services/control_plane/extension_data.py:275-308 | a plan stops at the first table that cannot be planned, with the refusal that fits it |
| `Carry.LinkRefusal` | services/control_plane/extension_data.py:310-316 | the links refuse at the first key leaving the plan that has rows or cannot be counted |
| `Carry.CopyRefusal` | services/control_plane/extension_data.py:318-329 | the copies stop at the first broken connection, violated key or differing count, every earlier copy counted |
| `Carry.ReturnsIff` | services/control_plane/extension_data.py:331-352 | a carry returns iff it gets as far as the sequences and neither a planned `setval` nor the commit breaks |
| `Carry.ReturnedKeysHold` | services/control_plane/extension_data.py:318-325 | after a return every foreign key of a carried table holds, whatever the source held |
| `Carry.KeyHoldsAfter` | services/control_plane/extension_data.py:68-77 | with the stated table order and a source that keeps its keys, every foreign key holds after every single-table copy |
| `Carry.SucceedsIff` | services/control_plane/extension_data.py:260-357 | an undisturbed carry returns iff every table is plannable and no taken row is linked to a table left behind |
| `Carry.DrawsAreFresh` | services/control_plane/extension_data.py:331-348 | after a carry no later draw of a repaired sequence, however many, equals a carried id; empty and non-positive maxima included |
| `Carry.SequenceGoesOnFrom` | services/control_plane/extension_data.py:331-348 | a sequence goes on after the highest carried id, or after 1 if that is higher; without ids it starts at 1; all others are as they were |
| `Carry.CarriedSequences` | services/control_plane/extension_data.py:331-352 | whatever becomes of a carry: the sequences are untouched if it did not reach them, else each of a planned table before the failure has its repaired value and no other moved |
| `Carry.BrokenCommitMovesSequences` | services/control_plane/extension_data.py:331-352 | a carry broken at its commit leaves every row as it was and every sequence as success would have left it |
| `Carry.BrokenSetvalMovesSomeSequences` | services/control_plane/extension_data.py:331-352 | broken at a `setval`: the sequences before it moved, it and the later ones not, every row as it was |
| `Carry.RaisedCarryMovesASequence` | services/control_plane/extension_data.py:331-352 | a concrete raised carry that moves a sequence, for any number above 1 |
| `Carry.SecondCarryIsRefused` | services/control_plane/extension_data.py:302-308 | after a carry of at least one row a second one raises and changes no row |
| `BillingPrices.PriceTable.SetPrice` | services/control_plane/billing.py:122-165 | refuses an inactive plan, a blank price, and a price another plan has, in that order, unchanged; else the plan has the stripped price |
| `BillingPrices.PriceTable.RemovePrice` | services/control_plane/billing.py:168-178 | removes exactly that plan's row and says whether there was one |
| `BillingPrices.LookupsAreInverse` | services/control_plane/billing.py:200-233 | after any mix of settings and removals, refused ones included, `plan_for_price` and `price_for_plan` undo each other |
| `BillingPrices.SetExactly` | services/control_plane/billing.py:122-178 | in any run a setting leaves exactly that plan's stripped price, or nothing if it is refused; a removal takes just that one |
| `EventClaims.EventLog.Claim` | services/control_plane/billing.py:461-508 | a claim succeeds iff the event is new or stalled; who gets which row and stamp; nothing else changes |
| `EventClaims.RunKeepsInv` | services/control_plane/billing.py:461-508 | every interleaving of deliveries, inserts, takeovers, finishes and deaths keeps the invariant on rows, stamps and handlers |
| `EventClaims.ClaimsAreSpaced` | services/control_plane/billing.py:490-501 | successive successful claims of an event are stamped more than five minutes apart |
| `EventClaims.FewClaims` | services/control_plane/billing.py:70-83 | an interval holds at most one claim of an event more than it holds leases |
| `EventClaims.OverlapMeansOverrun` | services/control_plane/billing.py:70-83 | in every reachable state two handlers act on one event only if one has outstayed its lease, counted from its claiming transaction |
| `EventClaims.FinishedIsNeverClaimed` | services/control_plane/billing.py:490-501 | a finished event stays finished and is claimed by nobody again, whatever a late handler writes |
| `EventClaims.FinishFinishesItsEvent` | services/control_plane/billing.py:717-725 | the update by row id finishes the claimed event and no other |
| `EventClaims.StalledIsTakenExactlyWhenDue` | services/control_plane/billing.py:490-508 | an unfinished claim is taken over iff more than five minutes have passed since its stamp |
| `EventClaims.NewIsClaimedAtOnce` | services/control_plane/billing.py:479-488 | a new event is claimed by its insert, stamped with the start of the transaction; a finished one is turned away |
| `EventClaims.ActedOnce` | services/control_plane/billing.py:717-725 | finishing writes the verdict on the claimed event alone and frees the handler; a death writes nothing |
| `Subscriptions.SubscriptionTable.Create` | services/control_plane/subscriptions.py:228-326 | each refusal under its exact condition, checks before constraints; else the one new row; the three unique indexes kept |
| `Subscriptions.SubscriptionTable.RecordState` | services/control_plane/subscriptions.py:329-433 | no live row, forbidden transition, older fact, inactive plan or bad period are refused; else the row as asserted, its state clock moving only with the state |
| `Subscriptions.CreatedExactly` | services/control_plane/subscriptions.py:228-326 | `create` refuses under the first of eight conditions on the catalogue and the rows |
| `Subscriptions.RefusedExactly` | services/control_plane/subscriptions.py:71-77 | `record_state` takes just the fourteen transitions, then refuses older facts, plans not offered and periods out of order |
| `Subscriptions.RecordedExactly` | services/control_plane/subscriptions.py:384-413 | the row it leaves: the clock of the state starts anew iff the state changes, what is not asserted stays |
| `Subscriptions.LinkedRowIsTheProjects` | services/control_plane/subscriptions.py:447-465 | the live row of a provider's id is the live row of its project |
| `Billing.Endpoint.CompleteCheckout` | services/control_plane/billing.py:511-566 | `_on_checkout_completed` changes the tables as its function says, completion first |
| `Billing.Endpoint.ApplySubscription` | services/control_plane/billing.py:588-686 | `_on_subscription_event`, every branch, changes the tables as its function says |
| `Billing.Endpoint.OpenSubscription` | services/control_plane/billing.py:648-686 | a subscription is opened only for a checkout row whose plan the price maps to; the row is completed if it was open |
| `Billing.Endpoint.Handle` | services/control_plane/billing.py:406-458 | duplicates change nothing; wrong mode and unhandled types are recorded only; else the branch's effect and verdict |
| `BillingHistory.HistoryIsKept` | services/control_plane/billing.py:406-458 | over every history of events, checkout steps, price and plan changes: one row per provider id and per checkout, one live row and one open checkout per project; rows keep project, provider id and checkout; moments never move back; canceled rows are frozen |
| `BillingHistory.CompletedCheckoutStays` | services/control_plane/billing.py:527-535 | a checkout completed once its start is over stays completed for the rest of the history |
| `BillingHistory.OpenedOnlyFromCheckouts` | services/control_plane/billing.py:27-32 | every subscription any history opens was opened by an event, with the project, plan and provider of a checkout row that was there when it came |
| `BillingHistory.RowsComeFromStarts` | services/control_plane/billing.py:328-345 | every checkout row at any moment was there at first or was written by a start for that project, plan and provider |
| `BillingHistory.SoldAsStarted` | services/control_plane/billing.py:27-32 | so every subscription opened has the project and plan of a checkout started before |
| `BillingHistory.PlanNeverFromPayload` | services/control_plane/billing.py:606-633 | every plan is the one the row had at first, its checkout's, or one the price map had a price for, of the deployment's provider and mode |
| `BillingHistory.PaidCheckoutSells` | services/control_plane/billing.py:276-384 | a start, the provider's session and its paid completion: the checkout is completed and the project has an active subscription on the plan it chose |
| `BillingHistory.ShopIsKept` | services/control_plane/billing.py:122-178 | prices set or removed and plans offered between events are what the next event finds |
| `BillingEvents.OnlyItsOwnRow` | services/control_plane/billing.py:609-633 | an event changes no subscription row but that of the subscription it names |
| `BillingEvents.EventPlan` | services/control_plane/billing.py:213-233 | an event changes a row's plan only to one its own provider and mode has a price for |
| `BillingEvents.OnlyEndingsCancel` | services/control_plane/stripe_api.py:60-82 | a live row is canceled only by an event about its subscription that is a deletion or says `canceled` or `incomplete_expired`, never by one that is unpaid or paused |
| `BillingEvents.EventIsACheckoutStep` | services/control_plane/billing.py:517-535 | to the checkout rows an event is the look-up and completion of one of the two handlers of the checkout protocol, or nothing |
| `BillingEvents.LiveRowAfterEvent` | services/control_plane/stripe_api.py:73-82 | an event about a live subscription, status by status: the state, moment, plan and period its row then has, and the verdict |
| `BillingEvents.EventOpens` | services/control_plane/billing.py:641-686 | an event about an unknown subscription, status by status: exactly when it opens a row, which, and what it does to the checkout |
| `BillingEvents.CompletionOpens` | services/control_plane/billing.py:537-585 | a completed checkout: active if paid, trialing if nothing was to be paid, else incomplete; exactly when a row is opened |
| `BillingEvents.OnlyRecorded` | services/control_plane/billing.py:406-458 | duplicates, the other mode, other kinds, unknown sessions and ended subscriptions change nothing but the record |
| `BillingOrder.OrdersAgree` | services/control_plane/billing.py:511-686 | completion first or subscription first: the same project, plan, checkout and completion, or no subscription in both; states agree iff the periods are refused, or the event asserts the opening state, or it may follow it and is no older |
| `BillingOrder.OrdersMayDisagree` | services/control_plane/billing.py:569-585 | a paid checkout and a `trialing` event end active in one order and trialing in the other |
| `BillingOrder.DeletionFirstIsForgotten` | services/control_plane/billing.py:641-646 | a deletion before the completion leaves a live row for an ended subscription; after it the row ends as any deletion ends it, whatever price and periods it names |
| `BillingOrder.DeletionEndsIff` | services/control_plane/billing.py:609-633 | a deletion ends its live row iff it names no price or one mapped to an active plan, is no older, and its periods are accepted |
| `BillingOrder.DeathAfterCompletion` | services/control_plane/billing.py:527-535 | a death between the two commits: the redelivery opens nothing, the next subscription event does |
| `Checkouts.CheckoutTable.StartCheckout` | services/control_plane/billing.py:276-384 | each refusal before the insert in its order; then the row for each answer of the provider: none, expired with the placeholder, open with the placeholder if the session is taken, or open with the session and its expiry |
| `Checkouts.CheckoutTable.ExpireStale` | services/control_plane/billing.py:387-400 | closes exactly the open rows past their time, counts them, keeps the index |
| `Checkouts.RunKeeps` | services/control_plane/billing.py:328-378 | over every interleaving of starts, answers, deaths, expiries, look-ups and completions: one open checkout per project, one row per session; no row returns to open, is lost, or changes project, plan, provider or mode |
| `Checkouts.SessionCompletionIsFinal` | services/control_plane/billing.py:517-535 | a row completed by its session id never leaves completed, whatever comes between look-up and update and after |
| `Checkouts.SessionCompletes` | services/control_plane/billing.py:517-535 | undisturbed, the completion by a session completes the row that has it unless it is already, and nothing else |
| `Checkouts.UndoneExactlyWhileStarting` | services/control_plane/billing.py:357-371 | a completed row can leave completed iff its start still waits for the provider, and then it carries the placeholder |
| `Checkouts.MetadataCompletes` | services/control_plane/billing.py:679-685 | the completion by row id happens iff the row is the provider's and open, and lasts iff its start is over |
| `Checkouts.StartedExactlyWhenNoneOpen` | services/control_plane/billing.py:331-345 | a start is taken iff none is open for the project; after an expiry pass iff all open ones were past their time |
| `Checkouts.RefusedBecause` | services/control_plane/billing.py:301-324 | nothing is started for a missing or ending project, a plan not offered, the free or the current one, with a live subscription or without a price, in that order |
| `Checkouts.StartWrites` | services/control_plane/billing.py:328-384 | a start holds the project's one open row for an hour under its own placeholder; a session nobody has replaces it; a failed start leaves it expired |
| `Checkouts.ExpiredExactly` | services/control_plane/billing.py:394-398 | a pass expires a row iff it is open and past its time |
| `Grace.EndRow` | services/control_plane/billing.py:771-802 | the provider is asked first; unreachable or unconfigured defers with nothing changed |
| `Grace.EndExpiredGrace` | services/control_plane/billing.py:742-804 | undisturbed, the loop's tables and outcomes, one outcome a row in order, each with its own reading of the clock |
| `Grace.PassIsExact` | services/control_plane/subscriptions.py:524-550 | undisturbed, a pass ends exactly the rows past the grace, of living projects, settled with the provider and no newer than the clock |
| `Grace.PassReports` | services/control_plane/billing.py:765-804 | undisturbed, a row is reported deferred iff its provider has it and cannot be reached, else ended and whether it was recorded |
| `Grace.OnlySettledProjects` | services/control_plane/billing.py:742-804 | among any other writers a step of the pass changes at most one row, to canceled, of the project of a settled due row |
| `Grace.TargetIs` | services/control_plane/billing.py:790-794 | the row ended is the project's live row at that moment; it is the selected one iff that is still live, another iff it was ended and a new one opened |
| `Grace.NewRowMayBeEnded` | services/control_plane/billing.py:771-802 | such a new row is ended although its own provider id was never asked about |
| `Grace.RowAlone` | services/control_plane/billing.py:771-802 | undisturbed, the steps of a row are the body of the loop |
| `Grace.EndedButNotRecorded` | services/control_plane/billing.py:790-798 | `ended` without being recorded iff there was no live row or one with a later fact when read, or the row had one when written |
| `Crypto.AadIsInjective` | services/control_plane/crypto.py:59-66 | for colon-free tables and columns two rows have the same associated data iff they are the same |
| `Crypto.ColonInColumnCollides` | services/control_plane/crypto.py:59-66 | with a colon in the column two rows share it |
| `Crypto.AadReads` | services/control_plane/crypto.py:59-66 | the table, the column and the owner stand in it in that order, a colon after each of the first two |
| `Crypto.WrappedOpensIff` | services/control_plane/crypto.py:92-106 | a wrapped key opens under its own key-encryption key only, and no row's associated data passes for the wrapping's |
| `Crypto.ReadHolds` | services/control_plane/crypto.py:149-157 | a ring that has read holds every stored key as it unwraps, what it held before, and the highest active version as active |
| `Crypto.SecretsAreThese` | services/control_plane/crypto.py:174-182 | the check for secrets finds one iff one of the seven named columns has a value |
| `Crypto.KeyRing.Read` | services/control_plane/crypto.py:151-157 | every row unwrapped over the ring, the highest active version active; at the first row that does not unwrap, exactly the rows before it |
| `Crypto.KeyRing.Load` | services/control_plane/crypto.py:108-157 | mints version 1 iff there are no keys and none of the seven named columns holds a value; refuses if one does; then reads |
| `Crypto.KeyRing.Rotate` | services/control_plane/crypto.py:244-265 | a taken version changes nothing; else the old active ones retire, the next version is active in table and ring |
| `Crypto.KeyRing.Seal` | services/control_plane/crypto.py:269-278 | refused iff nothing is loaded; else the active version and the nonce, and this ring opens it to the plaintext under the same associated data and no other |
| `Crypto.KeyRing.Open` | services/control_plane/crypto.py:280-289 | gives a plaintext iff the version is held and the ciphertext is that plaintext sealed under its key with this nonce and data; which refusal otherwise |
| `KeyProtocol.RunKeepsInv` | services/control_plane/crypto.py:108-265 | over every run of loads, rotations and crashes of any number of processes: versions 1 to n, exactly the last active, no stored key altered, every ring holds what the rows unwrap to |
| `KeyProtocol.VirginIsSound` | services/control_plane/crypto.py:85-90 | an empty table and freshly started processes meet what the run lemmas ask of a start |
| `KeyProtocol.LockStaysExact` | services/control_plane/crypto.py:215-242 | the lock is held exactly by the process between taking it and its commit; no crash leaves it behind |
| `KeyProtocol.OneFirstKey` | services/control_plane/crypto.py:108-157 | concurrent loads mint at most one version 1, never altered later, and all that return hold that same key as active |
| `KeyProtocol.NeverMintsOverSecrets` | services/control_plane/crypto.py:159-213 | no keys and a value in any of the seven named columns at every look: no interleaving of loads inserts a key or returns |
| `KeyProtocol.FirstLoadMintsIff` | services/control_plane/crypto.py:215-242 | alone on an empty table a load mints iff none of the seven named columns holds a value |
| `KeyProtocol.LoadAlone` | services/control_plane/crypto.py:108-157 | undisturbed, the statements of a first load add up to the method: refused over a value in one of the seven named columns, else its own key stored and read |
| `KeyProtocol.SecondLoadTakesTheirs` | services/control_plane/crypto.py:215-228 | a load that waited while another minted takes that key, whatever the columns hold |
| `KeyProtocol.CrashForgets` | services/control_plane/crypto.py:215-220 | a process that dies forgets its ring and leaves no lock; what is committed stays |
| `KeyProtocol.ProviderKeysDoNotStopMinting` | services/control_plane/crypto.py:174-182 | a database holding only customers' provider keys gets a fresh first key |
| `KeyProtocol.LosingRotationChangesNothing` | services/control_plane/crypto.py:251-265 | a rotation whose version is committed elsewhere changes neither the keys nor any ring |
| `KeyProtocol.WinningRotation` | services/control_plane/crypto.py:251-265 | a rotation that wins stores its key as the active one, retires what was active, changes no other row and keeps every key of its ring |
| `KeyProtocol.RotateAlone` | services/control_plane/crypto.py:244-265 | undisturbed, the statements of a rotation add up to the method |
| `KeyProtocol.SealedOpensLater` | services/control_plane/crypto.py:269-289 | a value any process seals opens at every later moment on every ring holding its version, to its plaintext iff the associated data is equal |
| `KeyProtocol.LoadHoldsEveryKey` | services/control_plane/crypto.py:149-157 | a load returns iff it can unwrap a non-empty table, and then holds every version with the newest active |
| `EnvFile.UnquoteQuote` | services/control_plane/auth_workers.py:88-96 | quoting then `migrate`'s stripping is the identity iff the value does not end in a double quote; else its last character becomes a backslash |
| `EnvFile.Migrate` | services/control_plane/auth_workers.py:282-290 | the parse loop computes the environment function |
| `EnvFile.RoundTrip` | services/control_plane/auth_workers.py:118-174 | reading gives exactly the printed pairs iff every value is one line not ending in a double quote and the ref adds no key |
| `EnvFile.OneLineRefSmugglesNothing` | services/control_plane/auth_workers.py:169-173 | a one-line project ref adds no key |
| `EnvFile.MigrateReceivesSettings` | services/control_plane/auth_workers.py:282-290 | with carriable values the migration is handed every setting, the address twice and a path |
| `EnvFile.GoTrueReceives` | services/control_plane/auth_workers.py:118-168 | with carriable fields GoTrue is handed these fourteen settings, key by key, three more iff there is a hook, the address twice and a path, nothing else |
| `EnvFile.PrintingRefusedIff` | services/control_plane/auth_workers.py:157-162 | printing is refused iff there is a hook address and no secret |
| `EnvFile.FileIs` | services/control_plane/auth_workers.py:169-174 | the file is two comment lines, an empty one and a line a setting |
| `Reachability.Fixpoint` | scripts/spike-memory-pipeline.py:378-392 | any call graph in any order: ends within n + 1 passes, a function is marked iff a path of at least one call leads to a target |
| `Reachability.SettledIsExact` | scripts/spike-memory-pipeline.py:380-392 | marks that no pass changes are exactly reachability |
| `Reachability.Row` | scripts/spike-memory-pipeline.py:394-405 | a facade's column is true iff one of its calls is a target or reaches one |
| `Reachability.FacadeReaches` | scripts/spike-memory-pipeline.py:394-405 | that column is reachability in the graph with the facade added |
| `OrderedDelete.Connection.OrderedDelete` | scripts/spike-memory-pipeline.py:1499-1518 | the loop is the run function and makes at most n(n+1)/2 attempts |
| `OrderedDelete.RefusedIffDangling` | scripts/spike-memory-pipeline.py:1506-1513 | a delete is refused iff it would leave a row that refers to one that went |
| `OrderedDelete.RunIsExact` | scripts/spike-memory-pipeline.py:1499-1518 | a return: each table once, in a working order, with its row count, the space's rows gone and all others as they were; a raise: every pending table still referred to |
| `OrderedDelete.SucceedsIffSomeOrderDoes` | scripts/spike-memory-pipeline.py:1499-1518 | it returns iff some order of the tables would do |
| `OrderedDelete.AcyclicNeverRaises` | scripts/spike-memory-pipeline.py:1484-1489 | acyclic keys and only own references: it never raises |
| `OrderedDelete.StuckTablesBlockEachOther` | scripts/spike-memory-pipeline.py:1516-1517 | if only the space refers to its rows, each pending table is referred to from another pending one |
| `OrderedDelete.BeforeIffChained` | scripts/spike-memory-pipeline.py:1499-1518 | a table goes before another under every listing iff rows of the space chain the first to the second |
| `OrderedDelete.ForeignKeyAloneDoesNotOrder` | scripts/spike-memory-pipeline.py:1484-1489 | a foreign key without a referring row leaves the order open |
| `Alerts.Deployment.Run` | services/control_plane/alerts.py:338-405 | the two loops are the run function; asked to send without an address or a sender it raises and changes nothing |
| `Alerts.Episodes` | services/control_plane/alerts.py:338-405 | over every history: one open row a fingerprint; sends an interval apart and no more than fit; cleared at most once, after the end, and never unmailed |
| `Alerts.HistoryKeepsInv` | services/control_plane/alerts.py:338-405 | every row keeps its first-seen time and its fingerprint through every later run |
| `Alerts.OpenIffFound` | services/control_plane/alerts.py:338-405 | after a run the open rows are exactly the conditions found |
| `Alerts.FailedSendIsDueAgain` | services/control_plane/alerts.py:355-385 | a message not taken loses neither the row nor its beginning and is due at once |
| `Alerts.LastingIsMailedIff` | services/control_plane/alerts.py:353-385 | a lasting condition is mailed in a run iff sending is on, the message is taken, and none was sent or the last is at least the interval old; its row in full |
| `Alerts.NewIsMailedIff` | services/control_plane/alerts.py:356-366 | a new condition gets a row that begins now and is mailed at once iff sending is on and the message is taken |
| `Alerts.ClearedIsMailedIff` | services/control_plane/alerts.py:387-403 | a condition that is gone is resolved now; its clearing is mailed iff sending is on, somebody had been told, and the message is taken |
| `Alerts.EndedRowStays` | services/control_plane/alerts.py:342-350 | an episode that is over is never touched or mailed about again |
| `Alerts.NewRowsAreFound` | services/control_plane/alerts.py:353-366 | every row a run adds is of something found that had no open row |
| `Alerts.MailedNow` | services/control_plane/alerts.py:378-403 | what was mailed stays mailed, and what a run adds is of that run |
| `Alerts.ReportIs` | services/control_plane/alerts.py:353-405 | the four lists: what was found, each once in order; what of it was mailed too recently; what was mailed or would have been; what had an open row and is gone |
| `ApiKeys.Connection.Authenticate` | services/control_plane/api_keys.py:197-252 | answers iff some key is accepted, with that key's identity, and changes at most its stamp |
| `ApiKeys.Connection.Revoke` | services/control_plane/api_keys.py:173-194 | revokes exactly an unrevoked key of that project and says so |
| `ApiKeys.StampsAreSpaced` | services/control_plane/api_keys.py:255-274 | writes of one key's stamp are more than five minutes apart over any run |
| `ApiKeys.StampIsTheLastWrite` | services/control_plane/api_keys.py:255-274 | after any run the stamp of a key is the last of these writes, or as it was if there were none |
| `ApiKeys.FewWrites` | services/control_plane/api_keys.py:255-274 | at most one write more than an interval holds five minutes |
| `ApiKeys.UseLeavesFreshStamp` | services/control_plane/api_keys.py:255-274 | after each success the stamp is at most five minutes old |
| `ApiKeys.RevokedIsNeverAccepted` | services/control_plane/api_keys.py:197-252 | a revoked key is accepted nowhere in any later run |
| `ApiKeys.KeyAfter` | services/control_plane/api_keys.py:173-194 | through any run a key stays the key it is, is revoked iff a revocation named it and its project, since the first, and its project has the last status given |
| `ApiKeys.RevocationRevokes` | services/control_plane/api_keys.py:173-194 | a revocation naming a key and its project ends it for every later call; one naming another project changes nothing |
| `ApiKeys.CreatedIsAccepted` | services/control_plane/api_keys.py:197-252 | a created key is accepted after any run iff it was not revoked and its project still serves |
| `ApiKeys.KeyStaysInItsProject` | services/control_plane/api_keys.py:197-252 | a key is only accepted for its own project |
| `ExtensionPins.Fleet.SetPin` | services/control_plane/extension_pins.py:112-172 | each refusal under its condition in order, the unknown node included, unchanged; else the pin with the transaction's stamp; with tenants never lower |
| `ExtensionPins.Fleet.RecordCheck` | services/control_plane/extension_pins.py:251-261 | the check of a known node with the transaction's stamp; an unknown one is refused |
| `ExtensionPins.PinsNeverFall` | services/control_plane/extension_pins.py:139-163 | through any run in which the node has tenants its pins never fall in version order and never go |
| `ExtensionPins.NotBelowIsTransitive` | services/control_plane/extension_pins.py:93-94 | the tuple order of version keys is transitive |
| `ExtensionPins.TuplesAreOrdered` | services/control_plane/extension_pins.py:93-94 | and total: neither below the other iff equal |
| `ExtensionPins.TupleLessIs` | services/control_plane/extension_pins.py:141 | a tuple is less iff it runs out first or is smaller at the first difference |
| `ExtensionPins.VersionKeyIs` | services/control_plane/extension_pins.py:93-94 | the key of a version is read dot by dot, parts of plain digits as their numbers and others as nothing |
| `ExtensionPins.KeyOfDotted` | services/control_plane/extension_pins.py:93-94 | numbers written between dots are read back as those numbers |
| `ExtensionPins.PinFaultIs` | services/control_plane/extension_pins.py:127-152 | a pin is refused iff the extension is not one of two, the version is not listed, or it would fall under tenants |
| `ExtensionPins.StampedAtItsStart` | services/control_plane/extension_pins.py:153-172 | a change takes effect when its transaction commits, stamped with its start; one given up leaves nothing |
| `ExtensionPins.ClockAndTenants` | services/control_plane/extension_pins.py:142-147 | the tenants at any moment are those who came and did not leave, the clock what has passed |
| `ExtensionPins.AcceptedExactly` | services/control_plane/extension_pins.py:268-303 | accepted iff both pins, a check stamped no earlier than any of them, exactly the pinned versions, and no stale backend |
| `ExtensionPins.RejectedBecause` | services/control_plane/extension_pins.py:268-303 | the reason given otherwise is the first of seven that applies |
| `ExtensionPins.RefusedUntilChecked` | services/control_plane/extension_pins.py:251-288 | with transactions started and committed in any order, a node pinned after its check stays refused until a new one iff no tested pin of that extension is on its way that started no later than the check |
| `ExtensionPins.AcceptedAfterPinIff` | services/control_plane/extension_pins.py:268-303 | a pin on an accepted node leaves it accepted iff its transaction started no later than the check's and it names the version found |
| `ExtensionPins.MovePermittedExactly` | services/control_plane/extension_pins.py:351-367 | between accepted nodes a move is permitted iff it leaves every installed version as it is |
| `ExtensionPins.UnreadableBackendsNeverRefuse` | services/control_plane/extension_pins.py:268-303 | the count of unreadable backends never matters |
| `ExtensionPins.Inspect` | services/control_plane/extension_pins.py:233-248 | the loop counts exactly the replaced and the unreadable backends |
| `ExtensionPins.ReplacedLineByLine` | services/control_plane/extension_pins.py:197-207 | a mapping counts iff its line, without white space at its end, ends in a deleted `vector.so` |
| `ExtensionPins.AcceptedOnMeasurement` | services/control_plane/extension_pins.py:197-248 | accepted on a measurement iff no readable backend maps a replaced library, beside pins and versions |
| `BackupConfig.ReadStanzaOptions` | services/control_plane/backup.py:792-833 | each wanted option is the stanza's last value, else the first global one, for any lines in any order; nothing else is kept |
| `BackupConfig.DecisionIsUnique` | services/control_plane/backup.py:825-830 | one setting decides each option |
| `BackupConfig.WantedIs` | services/control_plane/backup.py:764-770 | the options read are the data directory and five of each of four repositories, no credential among them |
| `BackupConfig.LineIsRead` | services/control_plane/backup.py:811-830 | a line is read as what was written, whatever white space surrounds its parts |
| `BackupConfig.FileIsRead` | services/control_plane/backup.py:811-830 | any file of blank lines, comments, headers, settings and other lines is read for exactly what it says |
| `BackupConfig.RepositoriesFromOptions` | services/control_plane/backup.py:773-789 | strictly ascending within 1 to 4, exactly the configured indices, the first alone if none, each from its own options |
| `BackupConfig.RepositoryIs` | services/control_plane/backup.py:773-789 | one repository option by option: type, path or the local default, retentions, and their kind |
| `BackupConfig.ConfiguredIs` | services/control_plane/backup.py:775 | a repository is configured iff one of its five options is there |
| `BackupReport.TailKeepsExactly` | services/control_plane/backup.py:899-902 | reading a text back changes nothing iff it has only single inner blanks and fits |
| `BackupReport.CollapseIs` | services/control_plane/backup.py:899-902 | white space between two texts becomes one blank and that around them goes |
| `BackupReport.TailIsTheEnd` | services/control_plane/backup.py:899-902 | of a text that is too long the end is kept |
| `BackupReport.RepositoriesFromReport` | services/control_plane/backup.py:1018-1042 | the loop and the sorting are the read-back function |
| `BackupReport.AnyReportIsSane` | services/control_plane/backup.py:1018-1042 | any JSON: at most four, ascending in 1 to 4, known types, short paths, no negative retention |
| `BackupReport.FirstItemWins` | services/control_plane/backup.py:1023-1030 | an index is read from the first item that has it |
| `BackupReport.ItemIsReadAs` | services/control_plane/backup.py:1023-1041 | how each field of an item is read, whatever JSON it holds |
| `BackupReport.OnlyTheFirstFour` | services/control_plane/backup.py:1020-1023 | items after the fourth, and anything that is no list, say nothing |
| `BackupReport.ReadIff` | services/control_plane/backup.py:1023-1030 | an index is read iff one of the first four items has it |
| `BackupReport.ReportArrives` | services/control_plane/backup.py:917-946 | report then read: as many repositories in the same order, each as it arrives |
| `BackupReport.ArrivesAs` | services/control_plane/backup.py:932-944 | what arrives field by field: a remote repository is never co-located, a local one as the node judges, of an unknown one nothing is said |
| `BackupReport.ArrivesUnchangedExactly` | services/control_plane/backup.py:949-964 | a repository arrives unchanged, with the node's answer, iff path and retentions meet a stated condition |
| `EgressProxy.AuthorityIsExactly` | services/control_plane/egress_proxy.py:57-69 | which targets are taken for a host and port: any case, one dot at the end, plain digits |
| `EgressProxy.ListedNamesAreProper` | services/control_plane/egress_proxy.py:39-40 | the hosts the service lists are proper names, so that every spelling of them is served |
| `EgressProxy.ParseRaisesExactly` | services/control_plane/egress_proxy.py:57-69 | which targets raise instead of being refused |
| `EgressProxy.ParseRefusesExactly` | services/control_plane/egress_proxy.py:57-69 | which targets are refused: no host, no digits, an address, or one of three characters |
| `EgressProxy.EgressProxy.AdmittedIff` | services/control_plane/egress_proxy.py:102-116 | the request lines that may be resolved: CONNECT, a spelling of a listed name with the one port, and a version of HTTP/1 |
| `EgressProxy.EgressProxy.Handle` | services/control_plane/egress_proxy.py:102-137 | a tunnel iff the authority is allowed, every resolved address is, and the first is reached; nothing is resolved or connected otherwise; when there is no answer |
| `Tunnel.Copying.Copy` | services/control_plane/egress_proxy.py:141-149 | the copying loop is the run of its turns |
| `Tunnel.WholeStreamIsCopied` | services/control_plane/egress_proxy.py:141-149 | an ended stream is copied whole whichever way its bytes fall into reads, and its end forwarded iff it can be |
| `Tunnel.CopiesTheRest` | services/control_plane/egress_proxy.py:141-149 | so from any point of the copying, as long as nothing raises |
| `Tunnel.OneChunkAtATime` | services/control_plane/egress_proxy.py:143-147 | a chunk is never empty or longer than a read may be, and is drained before more is read |
| `Tunnel.EverythingInOrder` | services/control_plane/egress_proxy.py:140-158 | through any interleaving, timeout, error or cancellation: written is a prefix of what the other side sent, nothing is taken back, the end is forwarded only after all of it, nothing is written after closing |
| `Tunnel.StreamsAreTheEvents` | services/control_plane/egress_proxy.py:140-158 | what a side has sent is what it sent before its end; both are closed iff everything was stopped |
| `Tunnel.FinishedMeansDelivered` | services/control_plane/egress_proxy.py:140-158 | both tasks finished: everything was delivered both ways |
| `Tunnel.HeldExactly` | services/control_plane/egress_proxy.py:140-158 | after any run a reader holds exactly the prefix its data turns took before the first raised wait or the stop, so all of it iff they took it all by then |
| `Tunnel.SilenceCutsTheOtherShort` | services/control_plane/egress_proxy.py:132-158 | when one side's wait raises, the other reader keeps what was written and loses iff something was unread |

## Left out

- Carry: unique and check constraints, triggers and composite foreign keys of the carried tables, and a sequence's own maximum.
- OrderedDelete: cascading and nulling foreign keys, and triggers; the reporting around the delete.
- KeyProtocol: a rotation inside an enclosing transaction; waiting on row locks, where a step that would wait is simply not taken yet.
- Crypto: the strength of the ciphers, key derivation and randomness; an ideal cipher and fresh values stand for them.
- EventClaims: the table at the level of one provider; the handler's own work is in `Billing`.
- Billing: the provider's customer id, audit rows, notes and log lines; the signature check and the parsing of the event, whose fields are given as read.
- BillingHistory: events are handled one at a time here, between the steps of others; deaths and takeovers are in `EventClaims`, and one death in `BillingOrder`.
- Checkouts: among others, a start is its insert; that someone may change what its checks have read before it inserts is not modelled.
- Grace: the other writers keep the constraints, the rows and their projects, and are otherwise anybody.
- EnvFile: how systemd reads the file; `start_worker`, which only moves a project's state.
- Alerts: the wording of messages, the loop over recipients, and how conditions are evaluated.
- ApiKeys: hashing is given as splitting and verifying; creating and revealing keys would only add easy members.
- ExtensionPins: version parts with digits outside ASCII; the tested-versions file, whose contents are given; a tenant that arrives between the count and the commit of `set_pin`.
- BackupConfig: finding and reading the file, and `int()` on a retention, which is a parameter.
- BackupReport: the fields of the report outside its repositories, each a single type check, and the age of the report.
- EgressProxy: sockets, name resolution and `ipaddress`, which are given as answers; the refusals' wording.
- Tunnel: bytes still in a stream's buffer when its task is cancelled count as not read.
- Not modelled at all: taxes, entitlements, plan changes, provisioning, tenant movement around the carry, the HTTP layer and the front ends.
