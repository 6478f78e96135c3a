# Account persistence of the seller relay

The relay stores its accounts through generated entity code (`seller-relay/ent`): builders collect a
mutation or a query, compile it to a specification, run it, and stitch the rows that come back into a graph
of nodes. This project models that code for the account entity and its neighbours over an in-memory
database, as objects where the code updates objects, and proves what callers rely on:

* eager loading agrees with the relational join, with one query per parent, with the way round through the
  join entity, and with itself whatever columns or other edges are requested and however often it is run;
* a bulk create, a recursive chain of hook-wrapped mutators, inserts all rows once or none, with exactly which
  hooks keep it so and exactly which let it disagree with single creates;
* any calls on an update builder, once saved, leave every column and edge of the selected accounts as the
  calls say, with the exact condition under which they do not;
* reading back an inserted row rebuilds the entity that the create returned;
* a clone of a query tree of any depth shares nothing with it, whatever is done to either anywhere in the tree;
* probes and the error accessors of nodes say what they promise.

## Layout

| file | content |
|---|---|
| `AccountSchema`, `AccountCreate`, `AccountMutations` | columns and values, the create pipeline as functions, the mutation object |
| `BulkChain`, `BulkCreate` | the mutator chain as a function with its theorems, and the builders as objects proved against it |
| `SingleSave`, `SingleCreate` | the same for the single save, and when the two agree |
| `CreatedRows` | what the rows that creates insert ask for, told from the mutations |
| `Retries` | the bulk chain with hooks that call the next mutator several times |
| `FieldPlan`, `EdgePlan` | what calls on a field or an edge mean, one by one and once saved |
| `AccountUpdate`, `UpdateCalls` | the compiled plan and the two update builders; from calls on a mutation to the stored accounts |
| `BuilderCalls` | the calls that the builders offer themselves, from the calls to the stored accounts |
| `AccountCodec` | scanning and assigning rows, the round trip |
| `Rows`, `Joins`, `Queries`, `Orders` | tables, selections, the join, the query builder, stable sorting |
| `Selections` | what a selection returns, told by positions in the table |
| `EagerLoading`, `AccountQueries` | the node graph, the indexes and stitching loops, the loaders and `sqlAll` |
| `OneToMany`, `ManyToOne`, `ManyToMany` | what a loaded edge is |
| `GroupOrder`, `Fields` | the order and page of the groups of an account; the fields of the nodes |
| `EdgeViews`, `IndependentEdges`, `Runs` | what a loaded account shows as a value, on what it depends, and runs of queries: again, beside each other, with other columns |
| `IdentityEdges` | an edge over a nillable foreign key, from both of its ends |
| `Probes`, `Clones` | bounded probes; clones of query trees and what is done to them |
| `RunVisits` | what a run leaves of the queries of its edges, as a visit of their tree |

## How the code is rendered

* The generator unrolls one block for each column. Here the blocks are rows of a table and a loop runs over
  them; the order of the table is the order of the blocks. Values that the runtime installs (default
  functions, validators, the interceptors that traverse a query) are parameters.
* The edge blocks of `AccountUpdate.sqlSave` and `AccountUpdateOne.sqlSave` are the same text
  (`seller-relay/ent/account_update.go:810-940` and `:1767-1897`), so both builders call the same methods;
  what differs between the two is in the builders.
* A method that stands for one in the code is proved equal to a function of its inputs or of the old state;
  the properties are lemmas about that function or about the predicate that the method establishes. Functions
  that stand for code are in turn characterised without naming them: selections by positions in the table
  (`SelectedIs`), decoded rows field by field (`Fields`), specifications by what they write (`SpecWrites`,
  `CompiledColumn`), calls by their last word on a column or a target (`ColumnComesTo`, `TargetComesTo`).
* A Go map is iterated in an arbitrary order that the model leaves open (`KeysInAnyOrder`, `AppendToAll`), so
  no result depends on it.
* The database library is given a small contract: a query returns the rows that satisfy all conditions,
  sorted stably and then paged, and rows that no order was asked for come as they are in the table; a batch
  insert is atomic; an update carries out clears of edges before additions, and a clear without targets
  disconnects everything; a column with one operation is set, cleared or added to, and what comes of several
  operations on one column is left open (`AccountUpdate.Honours`). JSON is a codec with an assumed round trip.
* Identifiers and integers are unbounded, floating-point fields are reals and instants are counted in ticks.
  The only arithmetic on them is the sum that numeric fields are added to with.
* A loaded graph is compared with another by its views (`EdgeViews.View`): the rows of an account, of its
  neighbours in order, and of the groups of its join nodes.
* The queries of `AccountQueries` have the edges that the account loaders use. For clones a query is a node
  of a tree with any number of edges, over rows of any entity. What a run does to such a tree is a value
  (`Clones.Visit`) that says for each loaded edge what its loader added; which edges are loaded depends on
  the database, so the theorems hold for every such value. `RunVisits` proves that a run of an account query
  that succeeds does to the tree of its queries what such a visit does.

## Where the code does something else than one might expect

* `ClearGroups` and `ClearProxy` keep what was added before them, since the plan hoists every clear; saving
  does what the calls say one by one exactly when nothing leaks through a clear (`SavedAsCalled`).
* `ClearProxy` also clears the `proxy_id` field, which `ResetProxy` does not undo (`ResetProxyMeansNothing`). The
  proxy ends as its calls say exactly when they do not end in a `ClearProxy` with a set pending or in a reset of
  one kind with a clear of the other kind standing (`ProxyEndsAsCalledExactlyWhen`).
* On a mutation, setting a nillable field after clearing it leaves it both set and cleared, and adding to a field
  after setting or clearing it leaves both as well. `FieldPlan.ContestedExactlyWhen` says which calls do that; a
  column ends as its calls say, whatever the database makes of contested columns, exactly when they do not
  (`UpdateCalls.ColumnEndsAsCalledExactlyWhen`). On a builder the setters of the four numbers reset first, so
  clearing and then setting `load_factor` ends as called there, while other nillable fields behave as on the
  mutation (`BuilderCalls.BuilderColumnEndsAsCalledExactlyWhen`, `ClearThenSetNumber`).
* The bulk chain checks the builder's own mutation before it takes over the one that the hooks passed down,
  a single `Save` takes it over first; a hook that replaces the mutation therefore escapes the check
  (`ReplacementIsNotChecked`). A hook agrees with any in-place hooks around it exactly when it never replaces
  (`AgreesAnywhereIffNeverReplaces`); on its own it agrees exactly when the check says the same of the
  replacement as of the draft it replaces (`OneHookAgreesIff`).
* The bulk chain ignores the error of `defaults`; that is harmless without hooks, while a hook can fill the
  gap, which a single `Save` never lets it do (`IgnoredDefaultsErrorIsHarmless`, `HookRepairsDefaults`). Bulk and
  single save agree on all builders with in-place hooks exactly when every default function is installed
  (`AgreeIffDefaultsInstalled`).
* A hook that claims success without calling the next mutator makes the builders outside it count as done
  although nothing is inserted (`SilentStopMarksDone`). A hook is harmless in every chain of otherwise harmless
  hooks exactly when it never does that and, if it ever calls the next mutator, keeps both its success and its
  failure (`KeepingTheOutcomeIsExact`).
* A hook that calls the next mutator again after a success stores the rows twice, and so does a hook that
  reports an error after a success if a hook around it retries; hooks that return success after the first
  success never do, and no others are safe in every such chain (`Retries.CarefulIsExact`).
* Running a query whose many-to-many edge was requested leaves the join on the query of that edge, so a second
  run joins twice.
* `Only`, `First` and `Exist` override a limit set before and leave theirs on the query; `Exist` also leaves
  the ID column selected, and fails if columns were selected before it.
* `Clone` drops the modifiers, that is, the row locks.

## Model

| member | source | states |
|---|---|---|
| BulkCreate.AccountBuilder.SetDefaults | seller-relay/ent/account_create.go:451-505 | the loop leaves exactly the fields and the early-return error of the specification |
| AccountCreate.DefaultsOnlyFillGaps | seller-relay/ent/account_create.go:451-505 | defaults never change a field that was set and only set fields of their list |
| AccountCreate.DefaultsErrorLeavesGap | seller-relay/ent/account_create.go:451-505 | without an error every defaulted column is set, with one the column it names stays unset |
| AccountCreate.DefaultsStopAtFirst | seller-relay/ent/account_create.go:451-505 | the error is about the first column that is neither set nor has a default, and those before it are filled |
| CreatedRows.DefaultsFollowTheColumns | seller-relay/ent/account_create.go:451-505 | defaults go through the columns in the order of the create |
| AccountCreate.DefaultsFill | seller-relay/ent/account_create.go:451-505 | defaults that succeed leave no column that cannot be nil unset but the name, the platform and the type |
| AccountCreate.RequiredAreNotNillable | seller-relay/ent/account_create.go:508-574 | the required columns are exactly the settable ones that cannot be nil |
| AccountCreate.CheckMeansComplete | seller-relay/ent/account_create.go:508-574 | the check passes if and only if every required field is set and every set field is accepted by its validator |
| AccountCreate.FirstComplaint | seller-relay/ent/account_create.go:508-574 | the complaint is that of the first step that does not pass: missing field or failed validator of its column |
| CreatedRows.ChecksFollowTheColumns | seller-relay/ent/account_create.go:508-574 | checks go through the columns in the order of the create, requiring a column before validating it |
| AccountCreate.DefaultsErrorFailsCheck | seller-relay/ent/account_create.go:451-574 | whatever an early return of defaults leaves behind is rejected by the check |
| BulkCreate.AccountBuilder.CheckMutation | seller-relay/ent/account_create.go:508-574 | reports the first complaint, in the order of the checks, about the builder's own mutation |
| BulkCreate.AccountBuilder.Compile | seller-relay/ent/account_create.go:594-744 | the new node and the specification are those that the mutation determines, edges included |
| CreatedRows.SpecWrites | seller-relay/ent/account_create.go:594-744 | the specification writes every set column once with its value and no other, and connects exactly the groups, the proxy and the usage logs asked for, each by one non-empty edge of its own relation |
| BulkCreate.BulkSave.Hooked | seller-relay/ent/account_create.go:1860-1898 | mutator i with its hooks returns the error, emits the trace, and marks and links the mutations of its outcome in the chain |
| BulkCreate.BulkSave.Base | seller-relay/ent/account_create.go:1861-1893 | the innermost step: type assertion, check of the own mutation, compilation of the passed one, the next mutator, completion |
| BulkCreate.BulkSave.Complete | seller-relay/ent/account_create.go:1885-1892 | mutation id aliases the node, the node takes the reported identifier and the mutation is done |
| BulkCreate.AccountCreateBulk.Save | seller-relay/ent/account_create.go:1849-1906 | result, driver inserts, done flags and identifiers are those of the chain function for the builders as they were |
| CreatedRows.InsertedRow | seller-relay/ent/account_create.go:1849-1906 | row k of the batch writes the mutation that the last hook of builder k passes on, each hook seeing what the one before left, while the check passed the builder's own mutation as it was when a hook first passed on another |
| CreatedRows.UnhookedSave | seller-relay/ent/account_create.go:1849-1906 | the whole outcome without hooks: the first failing check and no insert, or one batch with a row per builder, constraint and other errors reported as such, and all mutations done just if it succeeds |
| CreatedRows.CreateAll | seller-relay/ent/account_create.go:1849-1906 | a bulk create without hooks that succeeds hands the driver one batch whose row j writes the fields and edges of mutation j, and node and mutation j get the identifier reported for row j |
| BulkChain.InsertsExactlyOnce | seller-relay/ent/account_create.go:1856-1904 | for any builders and hooks one insert happens if every hook calls next and every check passes, with all specs in builder order, and none otherwise |
| BulkChain.AllOrNothing | seller-relay/ent/account_create.go:1865-1905 | with outcome-keeping hooks success, the rows being stored, and all mutations done are the same thing; failure marks none |
| BulkChain.KeepingTheOutcomeIsExact | seller-relay/ent/account_create.go:1865-1905 | every chain in which the other hooks keep the outcome is all-or-nothing if and only if this hook never stops with success and, if it goes on for some mutation, neither swallows an error nor turns success into one |
| BulkChain.SilentStopMarksDone | seller-relay/ent/account_create.go:1871-1892 | stopping with success at a single mutation already leaves the builder outside done with nothing inserted |
| BulkChain.HooksNest | seller-relay/ent/account_create.go:1871-1898 | the trace of a whole save is well bracketed, hooks of builder i around those of builder i+1, hooks[0] outermost, at most one insert in the middle |
| Retries.AttemptsMultiply | seller-relay/ent/account_create.go:1860-1898 | hooks that always call next so and so often multiply the inserts that are attempted, and a failing check prevents all of them |
| Retries.HookedOnce | seller-relay/ent/account_create.go:1860-1898 | with hooks that return success after the first call that succeeds, however often they call next, the rows are stored at most once, and then the save succeeds |
| Retries.CarefulIsExact | seller-relay/ent/account_create.go:1860-1898 | that is exactly what a hook must do to keep every chain of otherwise such hooks from storing the rows twice |
| Retries.OnceAsBefore | seller-relay/ent/account_create.go:1860-1898 | for hooks that call next at most once the error and the number of inserts are those of the chain function |
| SingleCreate.Save | seller-relay/ent/account_create.go:421-427 | the single save of a builder returns the error, emits the trace, inserts the row and links and marks the mutation as the save function says |
| SingleCreate.Wrapped | seller-relay/ent/ent.go:560-591 | the hooks around the insert, the passed mutation being copied over the builder's own before it |
| SingleCreate.SqlSave | seller-relay/ent/account_create.go:576-593 | check, compilation, insert, identifier and the done flag |
| SingleSave.InsertsIffSavesAlone | seller-relay/ent/account_create.go:421-427 | a single save inserts the one row compiled from what its hooks pass down if defaults succeed, the hooks call next with a mutation of the entity and that passes the check, and nothing otherwise |
| CreatedRows.SavedRow | seller-relay/ent/account_create.go:576-593 | the row of a single save writes the mutation that the last hook passes on, which the check accepts |
| CreatedRows.UnhookedSingleSave | seller-relay/ent/account_create.go:421-427 | the whole outcome of a single save without hooks |
| SingleSave.IgnoredDefaultsErrorIsHarmless | seller-relay/ent/account_create.go:1856-1868 | without hooks the bulk insert happens if and only if every builder's single save inserts |
| SingleSave.InPlaceHooksAgree | seller-relay/ent/ent.go:560-591 | with in-place hooks a single save reaches its insert if and only if defaults succeed and the bulk chain would get through |
| SingleSave.HookRepairsDefaults | seller-relay/ent/account_create.go:421-427 | a hook that fills the gap makes bulk accept what a single save rejects |
| SingleSave.ReplacementIsNotChecked | seller-relay/ent/account_create.go:1866-1871 | a replaced mutation is compiled but not checked in bulk, and is checked in a single save |
| SingleSave.AgreeIffDefaultsInstalled | seller-relay/ent/account_create.go:1856-1871 | bulk and single save agree on every builder with in-place hooks if and only if every default function is installed |
| SingleSave.OneHookAgreesIff | seller-relay/ent/account_create.go:1866-1871 | a builder with this one hook is treated alike for every draft if and only if the check never tells a replacement by the hook from the draft it replaces |
| SingleSave.AgreesAnywhereIffNeverReplaces | seller-relay/ent/ent.go:560-591 | bulk and single save agree on every draft with the hook between any in-place hooks if and only if the hook never replaces the mutation |
| SingleSave.InsertedRowsAreChecked | seller-relay/ent/account_create.go:1866-1871 | with in-place hooks every inserted row comes from a mutation that passed the check |
| AccountMutations.AccountMutation.Set | seller-relay/ent/mutation.go:2823-2826 | a set replaces the pending value and drops a pending amount; the column is not un-cleared |
| AccountMutations.AccountMutation.AddNumber | seller-relay/ent/mutation.go:2855-2861 | the first amount is pending as it is, a further one is added to it, next to a pending value |
| AccountMutations.AccountMutation.Clear | seller-relay/ent/mutation.go:2612-2615 | a clear drops the pending value and amount |
| AccountMutations.AccountMutation.ResetColumn | seller-relay/ent/mutation.go:2624-2627 | a reset forgets every change to the column |
| AccountMutations.AccountMutation.AddGroupIDs | seller-relay/ent/mutation.go:3708-3716 | the group changes become those of an addition, nothing else changes |
| AccountMutations.AccountMutation.RemoveGroupIDs | seller-relay/ent/mutation.go:3728-3737 | a removal drops pending additions and is remembered |
| AccountMutations.AccountMutation.ClearGroups | seller-relay/ent/mutation.go:3718-3721 | only the cleared flag changes, pending additions stay |
| AccountMutations.AccountMutation.AddUsageLogIDs | seller-relay/ent/mutation.go:3789-3797 | the usage-log changes become those of an addition |
| AccountMutations.AccountMutation.RemoveUsageLogIDs | seller-relay/ent/mutation.go:3809-3818 | a removal drops pending additions and is remembered |
| AccountMutations.AccountMutation.ChangeProxy | seller-relay/ent/mutation.go:2774-2820 | set, clear and reset of the field and of the edge act on the three parts of the proxy state |
| EdgePlan.ClearMeansClear | seller-relay/ent/mutation.go:3718-3726 | a clear empties the edge if and only if no addition is pending |
| EdgePlan.ClearsComeFirst | seller-relay/ent/mutation.go:3708-3760 | any calls have the effect of all clears first and then the additions and removals in order |
| EdgePlan.SavedAsCalled | seller-relay/ent/mutation.go:3708-3760 | saving equals replaying the calls one by one if and only if nothing leaks through a clear, and otherwise exceeds it by exactly what leaked |
| EdgePlan.AddThenClearKeeps | seller-relay/ent/mutation.go:3708-3726 | a concrete run in which the cleared edge keeps a target |
| EdgePlan.ClearProxyMeansClear | seller-relay/ent/mutation.go:3762-3773 | clearing the edge disconnects if and only if no proxy is pending |
| EdgePlan.ResetProxyMeansNothing | seller-relay/ent/mutation.go:3783-3786 | resetting the edge forgets its changes if and only if the field was not cleared |
| EdgePlan.ProxySavedAsCalled | seller-relay/ent/mutation.go:2774-2820 | for any calls, resets included, the saved proxy is what the calls since the last reset say one by one, with two exceptions told from the calls |
| EdgePlan.ProxyEndsAsCalledExactlyWhen | seller-relay/ent/mutation.go:3762-3786 | it is that for every start if and only if the calls end neither in a clear of the edge with a set pending nor in a reset of one kind while a clear of the other kind stands |
| EdgePlan.SavedFromScratch | seller-relay/ent/mutation.go:3708-3760 | any calls, resets included, leave what the calls since the last reset say and what leaked through a clear |
| EdgePlan.TargetComesTo | seller-relay/ent/mutation.go:3708-3760 | after any calls were saved the edge leads to a target just if some call adds it and no later one removes it or resets, or it did before and no removal of it and no clear stands |
| EdgePlan.ProxyComesTo | seller-relay/ent/mutation.go:2774-2820 | the proxy is the one of the last set if only clears of the edge came after; else none if a clear stands; else the one before |
| FieldPlan.ContestedExactlyWhen | seller-relay/ent/mutation.go:2612-2627 | a column is left with several operations exactly when the calls since the last reset neither end in a clear, nor end in a set without a clear, nor only add |
| FieldPlan.SavedFieldAsCalled | seller-relay/ent/mutation.go:2823-2876 | otherwise its one operation does what the calls say, one by one |
| AccountUpdate.CompileFields | seller-relay/ent/account_update.go:670-809 | set, add and clear operations for exactly the changed columns, in column order |
| AccountUpdate.CompileEdges | seller-relay/ent/account_update.go:810-940 | the edge plan that the pending changes determine |
| AccountUpdate.PlanMeansChanges | seller-relay/ent/account_update.go:810-940 | carrying out the plan leaves (empty if cleared, else old minus removed) plus added, for groups, usage logs and the proxy |
| AccountUpdate.RemovalIsNeverClearAll | seller-relay/ent/account_update.go:823-840 | the plan holds a clear without targets if and only if the caller cleared the edge |
| UpdateCalls.CompiledColumn | seller-relay/ent/account_update.go:670-809 | for every column the compiled operations are the pending changes of the mutation, none lost and none added |
| UpdateCalls.CompiledOnce | seller-relay/ent/account_update.go:670-809 | no column is set, added to or cleared twice by one statement |
| UpdateCalls.UpdateColumns | seller-relay/ent/account_update.go:670-809 | updates write the settable columns but created_at, and add to exactly the numbers among them |
| UpdateCalls.SavedEndsAs | seller-relay/ent/account_update.go:666-940 | any calls on a fresh mutation, compiled and carried out, leave each column, both many-target edges and the proxy of an account as the replayed calls say, with the exceptions named |
| UpdateCalls.ColumnComesTo | seller-relay/ent/account_update.go:670-809 | an uncontested column holds the value of the final set, nothing after a final clear, the stored number plus the integer or real sum of all amounts, NULL counting as zero, or what it held |
| UpdateCalls.ColumnEndsAsCalledExactlyWhen | seller-relay/ent/mutation.go:2581-2627 | after calls on a mutation a column ends as they say with every database that honours single operations if and only if it is not contested |
| BuilderCalls.BuilderColumnEndsAsCalledExactlyWhen | seller-relay/ent/account_update.go:75-245 | after calls on a builder a column ends as they say if and only if they end in a clear, end in a set, with no clear unless the column is a number, or only add |
| BuilderCalls.DirectColumnComesTo | seller-relay/ent/account_update.go:75-245 | the same after calls on a builder |
| BuilderCalls.ClearThenSetNumber | seller-relay/ent/account_update.go:176-200 | clearing and then setting load_factor ends as called on a builder, which resets first, but is open on its mutation |
| BuilderCalls.UpdateAccounts | seller-relay/ent/account_update.go:666-957 | any calls on the builder or its mutation and then saving leave exactly the accounts that satisfy every predicate as the calls say, count them, and leave the others alone; it fails exactly if the check or the driver does, and then changes nothing |
| BuilderCalls.UpdateAccount | seller-relay/ent/account_update.go:1606-1911 | the same for the builder's own account if it satisfies every predicate; it is read back with the stored values of exactly the selected columns; it fails exactly on a failed check, a missing identifier, an unknown column, the driver or no such account, in that order |
| AccountUpdate.AccountUpdateBuilder.SqlSave | seller-relay/ent/account_update.go:666-957 | exactly the accounts that satisfy every predicate get the compiled changes, their number is returned, a failed check or driver changes nothing |
| AccountUpdate.AccountUpdateOneBuilder.SqlSave | seller-relay/ent/account_update.go:1606-1911 | the account with the identifier gets the compiled changes if it satisfies every predicate and is read back with the selected columns; else it is not found; a refusal changes nothing |
| AccountUpdate.OneIsManyRestricted | seller-relay/ent/account_update.go:1606-1625 | that is the bulk update with the identifier as one more predicate |
| AccountUpdate.UpdateChecks | seller-relay/ent/account_update.go:637-664 | an update validates every field that is set and has a validator, and requires none |
| AccountUpdate.RefusalIs | seller-relay/ent/account_update.go:1606-1630 | a value that is not accepted comes before a missing identifier, that before the first unknown column, and that before the driver |
| AccountCodec.ScanValues | seller-relay/ent/account.go:138-160 | one holder per column, of the kind of that column |
| AccountCodec.AssignValues | seller-relay/ent/account.go:164-363 | the entity and error are those of assigning the columns in order up to the first failure; too few values assign nothing |
| AccountCodec.AssignsAll | seller-relay/ent/account.go:164-363 | assigning succeeds just if every holder is of the kind of its column and holds valid JSON where it must; the error is about the first that does not |
| AccountCodec.ExpressionIsKept | seller-relay/ent/account.go:361-363 | an expression that a modifier selected is kept under its name |
| AccountCodec.UnreadFieldsAreZero | seller-relay/ent/account.go:20-83 | fields that were not read are nil if they can be and else the zero of their type |
| AccountCodec.TablesAgree | seller-relay/ent/account.go:138-363 | the holders that are made, the holders that are expected and the types that are written agree with the declared types |
| AccountCodec.AccountsCopyEveryField | seller-relay/ent/account_create.go:594-744 | createSpec copies every settable column of an account |
| AccountCodec.CreateThenRead | seller-relay/ent/account.go:138-363 | decoding an inserted row for any list of columns rebuilds the created entity on those columns, nil and zero elsewhere, without a type mismatch |
| Queries.Query.SpecColumns | seller-relay/ent/account_query.go:708-727 | the columns read are all of them, or the selected ones with the key first and the needed foreign keys |
| Queries.Query.Prepare | seller-relay/ent/account_query.go:454-478 | traversing conditions are added and the first unknown column is reported |
| Probes.UnknownIsInvalid | seller-relay/ent/account_query.go:454-478 | the reported column is the first selected one that the table does not have |
| Selections.SelectedIs | seller-relay/ent/account_query.go:728-749 | a query returns the page, from the offset up to the limit, of the rows that satisfy every condition, each once, in its order, tied rows as they are in the table |
| Selections.UnorderedKeepsTableOrder | seller-relay/ent/account_query.go:728-749 | without an order the rows come as they are in the table |
| Orders.OrderThenOrder | seller-relay/ent/account_query.go:67-70 | a further order only breaks ties: sorting by both is sorting by the further one and then stably by the earlier ones |
| EagerLoading.IndexByID | seller-relay/ent/account_query.go:543-552 | the index has exactly the parents' identifiers and keeps the last parent of each |
| EagerLoading.BucketByKey | seller-relay/ent/account_query.go:604-615 | the fetched identifiers in order of first appearance and for each the parents with that key |
| EagerLoading.Scan | seller-relay/ent/account_query.go:563-588 | the joined rows give one node per group, in first-appearance order, and for each group the accounts it is joined to |
| EagerLoading.AttachGroups | seller-relay/ent/account_query.go:592-601 | each account is appended its groups in fetch order; an error if and only if a group was not asked for |
| EagerLoading.AttachProxies | seller-relay/ent/account_query.go:624-633 | each account gets the last fetched proxy with its key, accounts without one stay nil; an error if and only if a key is unknown |
| EagerLoading.AttachUsageLogs | seller-relay/ent/account_query.go:655-663 | each account is appended exactly its logs in fetch order; an error if and only if a foreign key is unknown |
| AccountQueries.LoadGroups | seller-relay/ent/account_query.go:542-602 | the groups edge of every account is what the joined query determines; the join and the traversing conditions stay on the query |
| AccountQueries.LoadProxy | seller-relay/ent/account_query.go:603-634 | the proxy edge is what the edge query determines; no query runs if every key is nil |
| AccountQueries.LoadUsageLogs | seller-relay/ent/account_query.go:635-664 | the usage-log edge is what the edge query determines, and the query is left with one more condition |
| AccountQueries.LoadAccountGroups | seller-relay/ent/account_query.go:665-694 | the join nodes, with their groups if requested, are what their queries determine; it fails exactly on an unknown column of a query that is run |
| AccountQueries.AccountGroupQuery.LoadGroup | seller-relay/ent/accountgroup_query.go:408-436 | every join node gets the group it refers to among those fetched |
| AccountQueries.AccountGroupQuery.All | seller-relay/ent/accountgroup_query.go:334-378 | nodes of the composite-key entity with their group edge, and its errors |
| AccountQueries.AccountQuery.All | seller-relay/ent/account_query.go:480-540 | the selected accounts in order, every requested edge as its own query determines, the others empty, the flags of the loaded edges set; it fails exactly with the first unknown column of a query that is run; the conditions, keys and joins that each edge query is left with are exactly those its loader adds |
| Fields.LoadAccounts | seller-relay/ent/account_query.go:480-540 | without selected columns the returned accounts hold their whole rows; with a selection the selected and needed fields are those of the row and the others zero |
| Fields.GroupsHoldTheirRows | seller-relay/ent/account_query.go:563-588 | every group of an account holds the read fields of a row of the table and zero elsewhere |
| Fields.ProxyHoldsItsRow | seller-relay/ent/account_query.go:618-634 | so does its proxy |
| Fields.UsageLogsHoldTheirRows | seller-relay/ent/account_query.go:635-664 | so do its usage logs |
| Fields.JoinsHoldTheirRows | seller-relay/ent/account_query.go:665-694 | so do its join nodes |
| Fields.JoinGroupHoldsItsRow | seller-relay/ent/accountgroup_query.go:408-436 | so do the groups of join nodes |
| Fields.EdgesRead | seller-relay/ent/account_query.go:708-727 | every edge query reads all columns without a selection and else the selected ones with the keys that its loader needs |
| OneToMany.LogsAreTheirRows | seller-relay/ent/account_query.go:635-664 | the logs of an account are exactly the fetched rows with its identifier, in fetch order |
| OneToMany.LogsAsIfQueriedAlone | seller-relay/ent/account_query.go:635-664 | the one batch query gives every account what a query for that account alone would return, in the same order |
| OneToMany.LogsConserved | seller-relay/ent/account_query.go:635-664 | the lengths of all lists add up to the number of fetched rows |
| OneToMany.JoinsAsIfQueriedAlone | seller-relay/ent/account_query.go:665-694 | the same for the join rows of an account |
| OneToMany.JoinsConserved | seller-relay/ent/account_query.go:665-694 | no fetched join row is lost or attached twice |
| ManyToOne.BucketsPartition | seller-relay/ent/account_query.go:604-618 | the fetched identifiers are the present keys without repeats, and the buckets split the parents with a key among them |
| ManyToOne.ProxyIsTheOneReferred | seller-relay/ent/account_query.go:603-634 | an account has a proxy if and only if it refers to an accepted row, and then that row |
| ManyToOne.GroupIsTheOneReferred | seller-relay/ent/accountgroup_query.go:408-436 | a join node has a group if and only if it refers to an accepted row, and then that row |
| ManyToMany.GroupsAreTheJoin | seller-relay/ent/account_query.go:542-602 | the groups of an account are those that the relational join connects to it, decoded |
| ManyToMany.GroupsOnceInOrder | seller-relay/ent/account_query.go:563-601 | each group occurs once, however often its join row repeats, in the order in which groups first appear |
| GroupOrder.GroupsFollowTheOrder | seller-relay/ent/group_query.go:1060-1082 | of two groups of an account the later does not come before the earlier in the order of the group query |
| GroupOrder.TiedGroupsFollowTheJoin | seller-relay/ent/account_query.go:563-601 | without a page, groups that the order ties come as the rows of the join table first reach them for any of the accounts |
| GroupOrder.GroupsOfThePage | seller-relay/ent/account_query.go:563-601 | offset and limit count the joined rows of all accounts together; an account has the groups that the rows of that page give it |
| ManyToMany.GroupsAreShared | seller-relay/ent/account_query.go:576-599 | accounts with the same group share one object |
| ManyToMany.TwoHopsAreTheJoin | seller-relay/ent/accountgroup_query.go:408-436 | the groups reached through join nodes are those of the same relational join |
| ManyToMany.PathsAgree | seller-relay/ent/account_query.go:542-694 | in one load both edges lead to the same groups |
| ManyToMany.NoJoinDangles | seller-relay/ent/accountgroup_query.go:408-436 | with referential integrity every join node has its group |
| EdgeViews.LoadedIsExpected | seller-relay/ent/account_query.go:480-540 | what an account shows of each edge is a function of the database, its row and the request of that edge alone |
| IndependentEdges.EdgesAreIndependent | seller-relay/ent/account_query.go:480-540 | two loads of the same accounts attach the same to every edge that both request, whatever columns are selected and whatever else is requested; join nodes agree whether or not their groups are requested |
| IndependentEdges.EveryKeyIsKept | seller-relay/ent/account_query.go:645-727 | every query reads the keys that the loaders look at, whatever columns are selected |
| IndependentEdges.SameKeys | seller-relay/ent/account_query.go:645-727 | requests that differ only in columns give an account the same neighbours |
| Runs.SelectColumns | seller-relay/ent/account_query.go:708-727 | two queries that differ only in selected columns, at the accounts and at every edge, return corresponding accounts with the same edges |
| IndependentEdges.EdgeErrors | seller-relay/ent/account.go:101-135 | not-loaded if and only if the edge was not requested; not-found if and only if no accepted row is referred to |
| IndependentEdges.RequestedIsAsked | seller-relay/ent/account_query.go:480-492 | the flags set on the accounts are those of the requested edges |
| IndependentEdges.JoinNodeErrors | seller-relay/ent/accountgroup.go:58-65 | the same for the group of a join node |
| IndependentEdges.RunAgainSelectsTheSame | seller-relay/ent/account_query.go:648-650 | repeated conditions on a retained edge query select the same rows |
| AccountQueries.LeftBehindStaysPut | seller-relay/ent/account_query.go:603-694 | what a run leaves of the edge queries over foreign keys asks for the same when it is run again |
| Runs.RunTwice | seller-relay/ent/account_query.go:519-538 | running the same query object again succeeds if the first run did and the many-to-many edge is not requested, and returns the same accounts with the same foreign-key edges, groups of join nodes included |
| IdentityEdges.AttachDecisions | seller-relay/ent/authidentity_query.go:579-590 | each identity is appended its decisions; the error is that of the first nil or unknown foreign key |
| IdentityEdges.StrayIs | seller-relay/ent/authidentity_query.go:579-590 | there is an error if and only if some fetched row has a nil key or one of no parent |
| IdentityEdges.StrayIsFirst | seller-relay/ent/authidentity_query.go:579-590 | the error is about the first such row, nil and unknown keys told apart |
| IdentityEdges.AttachedUnlessStray | seller-relay/ent/authidentity_query.go:559-592 | without an error the lists add up to the fetched rows |
| IdentityEdges.LoadDecisions | seller-relay/ent/authidentity_query.go:559-592 | the edge is what its query determines, and neither foreign-key error can come from the rows that this query returns |
| IdentityEdges.LoadIdentity | seller-relay/ent/identityadoptiondecision_query.go:481-512 | every decision with a key gets the identity with it among those fetched |
| Fields.DecisionsHoldTheirRows | seller-relay/ent/authidentity_query.go:559-592 | decisions hold the read fields of their rows and zero elsewhere |
| Fields.IdentityHoldsItsRow | seller-relay/ent/identityadoptiondecision_query.go:481-512 | so do identities |
| IdentityEdges.InverseEdgesAgree | seller-relay/ent/identityadoptiondecision_query.go:481-512 | the edge loaded from either end connects the same pairs |
| Probes.Only | seller-relay/ent/account_query.go:208-221 | the node if and only if the unlimited query has one row, not-found if none, not-singular if more |
| Probes.First | seller-relay/ent/account_query.go:162-171 | the first node of the unlimited query, not-found if and only if it is empty |
| Probes.IDs | seller-relay/ent/account_query.go:280-288 | the identifiers of the selected rows, or a failure if other columns were selected before |
| Probes.Exist | seller-relay/ent/account_query.go:319-329 | whether the unlimited query has rows, and what it leaves on the query |
| Clones.TreeQuery.Clone | seller-relay/ent/group_query.go:438-460 | the whole tree of edge queries, of any depth, is copied; nothing is shared and no lock is kept |
| Clones.CloneOf | seller-relay/ent/account_query.go:342-360 | a nil query clones to nil |
| Clones.WithoutLocksAt | seller-relay/ent/account_query.go:342-360 | at every path the copied query has the same conditions, order, page, columns and joins, and no locks |
| Clones.TreeQuery.At | seller-relay/ent/account_query.go:364-406 | an edit, a request or a run at any path changes the tree there and nowhere else, and keeps its parts disjoint |
| Clones.ActsThere | seller-relay/ent/account_query.go:364-406 | the action happens at the query that the path leads to |
| Clones.RequestsThere | seller-relay/ent/account_query.go:364-406 | a request puts a new query without edges on one edge and leaves the others |
| Clones.RunsThere | seller-relay/ent/account_query.go:454-478 | a run adds the traversing conditions of the query |
| Clones.ActsNowhereElse | seller-relay/ent/account_query.go:364-406 | no query that is not below it changes |
| Clones.UseBoth | seller-relay/ent/account_query.go:342-540 | after any actions at any paths of two disjoint trees, in any order, each is as its own actions leave it |
| Clones.CloneThenUseBoth | seller-relay/ent/account_query.go:342-540 | the same for a query and its clone, starting from the same tree without locks |
| Runs.RunApart | seller-relay/ent/account_query.go:480-540 | running one of two separate account queries, loaders included, leaves the other and its edge queries unchanged |
| RunVisits.VisitLeavesBehind | seller-relay/ent/account_query.go:480-540 | what loading the edges leaves of an account query and its edge queries is the tree that a visit of a run leaves |
| RunVisits.RunVisiting | seller-relay/ent/account_query.go:480-540 | so running an account query is one of the actions that clones are proved independent of |

## Left out

- EagerLoading.IndexByID: with repeated parent identifiers the index keeps the last node; the loaders require distinct identifiers, which a query on a table with distinct identifiers delivers (`AccountQuery.Nodes`).
- Runs.RunTwice: says nothing of a groups edge that was requested: what a query that is joined a second time returns depends on library code that is not part of this model.
- AccountQueries.LoadGroups: for the same reason its result is left open on a query that was joined before.
- Probes.IDs: that a scan into identifiers refuses a second column is an assumption about the scanning library.
- Clones.TreeQuery.Clone: the traversal closure and the driver configuration that a clone shares with its original never change and are not represented.
- BulkChain.InsertsExactlyOnce: hooks call next at most once, and a hook either edits or replaces; one that does both is an editing hook around a replacing one. Nil hooks and hooks that keep the mutation for later are not modelled.
- Retries.CarefulIsExact: hooks that call next several times leave the mutation alone here and decide by the results of their calls; what several calls do to mutations that were edited or replaced in between, and to the done flags, is not modelled.
- RunVisits.RunVisiting: says nothing of what a run leaves that fails on its way.
- BulkCreate.AccountCreateBulk.Save: requires that no two builders are the same object or share a mutation and that none was saved before.
- AccountUpdate.PlanMeansChanges: seen from one account; that attaching a log or a proxy may detach it elsewhere, constraint errors of such moves, and the default fields of new join rows are not modelled.
- UpdateCalls.SavedEndsAs: leaves open what a column with several operations in one statement ends as, which is up to the database.
- BuilderCalls.UpdateAccount: the hooks and the update defaults that `Save` runs before `sqlSave` are not modelled; a default is one more call that sets the column.
- SingleCreate.Save: the type of the value that the outermost hook returns is not modelled, nor is a nil hook; the returned node is that of the insert.
- Interceptors that rewrite results, path traversals (`QueryGroups` and the like, which may return a parent twice), locks and failures of the driver during queries.
- Edges of the edge queries beyond the groups of join nodes, and the account edge of join nodes.
- The other entities, which are instances of the same templates, apart from the nillable foreign key.
- Setters one by one, upserts, panicking variants, deletes, counts, grouping and aggregation, contexts and the text of errors.
- Sealed-bid auctions, commitments and channels, which the repository describes but does not implement.
