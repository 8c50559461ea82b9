# A verified model of the account query layer and the catalog tools

This project models four parts of the repository in Dafny 4.11 and proves what they keep over whole runs.

- **Batched eager loading** (`backend/ent/account_query.go`, `backend/ent/account.go`). The database is a set of
  row sequences; `Rows` gives the filter, order, offset and limit that `sqlgraph` runs over them. `QueryBuilder` has the
  mutable builders, the context objects they point to, and `Clone`, which copies object by object; `EagerLoad` and
  `EagerAll` have the six loaders and `sqlAll`, which change the builder objects in place and work on shared node
  objects through in-memory indexes. They are proved to compute `EagerSpec.Load`, a function on values, and that
  function is proved equal to a recursive nested-loop join in `NestedJoin` and `GroupJoin`; `NestedExact` has the exact
  condition. `EagerPages` and `GroupPages` say when an offset or a limit on a batch is fair to each account,
  `GroupOrder` in which order an account gets its groups, `EagerReuse`, `EagerRerun` and `GroupRerun` what a second run
  of the same query object loads; `EagerProjection`, `EagerGroups` and `EagerAccess` hold the other laws.
- **Bulk create** (`backend/ent/account_create.go`). `AccountCreate` has `defaults` and `check`, `BulkCreate` the chain
  of mutators and hooks with a trace of what happened. A hook may answer at once, change the mutation, hand on another
  one, and call the next mutator again and again. `BulkTrace` has the nesting of every run, `BulkComplete` and
  `BulkMilestones` the hooks with which a run is complete and all-or-nothing, `BulkLaws` that these are the only ones,
  and `AccountRow` the round trip through `createSpec`, `scanValues` and `assignValues`.
- **Textual JSON upsert** (`tools/generate_model_pricing_defaults.py`, `tools/generate_billing_credits.py`). `Json`,
  `JsonRoundTrip`, `JsonExtension` and `JsonWellFormed` have the printer, the decoder and their laws (objects and
  strings as in sections 4 and 7 of RFC 8259); `CatalogText`, `CatalogLayout`, `CatalogSplice` and `CatalogMeaning` have
  the file layout and one splice; `PricingSync`, `PyDict`, `BillingCredits` and `BillingRuns` have the two programs.
- **Renderers and the coverage check** (`tools/generate_release_channel.py`, `tools/run_seven_provider_browser.py`).
  `TextReplace`, `ReleaseChannel`, `ReleaseExact`, `Installer` and `BrowserCoverage`.

`dafny verify dfyconfig.toml` checks everything.

## What turned out false of the code, and exactly when it holds

- Offset and limit of a `With*` sub-query page the whole batch, not each parent's rows: `LimitStarves` shows it.
  `BatchExactly` (O2M), `KeyedExactly` (M2O) and `GroupsExactly` (groups) say exactly when the batch gives every account
  what the sub-query gives it alone. Over a whole tree of sub-queries these conditions on every batch, at any depth, are
  exactly what a load needs to be the nested-loop join (`LoadNested`, and `NestedExactly` for both directions); a tree
  without paging always meets them (`PlainIsFair`).
- An account's groups come in the order in which the groups first occur in the whole joined result. That is the order of
  its own rows if and only if, of any two of them, the earlier one's group occurs first (`OwnOrderExactly`). A sub-query
  that orders by the account can lose it (`OwnOrderLost`); one whose order looks at groups only keeps it, whatever its
  predicates and however it is paged (`OwnOrderKept`).
- `NestedExactly` is about groups sub-queries that look at groups only. That part of the condition is not necessary:
  `UnfairYetNested` has a query that orders by the account and loads the nested join on all databases without groups.
- `sqlAll` leaves its IN predicates in the sub-query builders. On an unchanged database a second run loads the same
  (`RunAgain`, and `RunTwice` on the objects). On a changed one, where its pages are fair, an account outside the first
  batch gets no children, usage logs or account groups, and a foreign key that was not asked for finds nothing
  (`RerunLoads`); `ReuseExactly` says when the second run nevertheless loads what a fresh query does. With pages that are
  not fair it can even load more (`UnfairReuse`). Running a clone avoids all of this (`RunClone`).
- The predicate that `loadGroups` leaves behind is a function on the selector: a later run joins the link table once more
  and puts one more account column in front of the group's id. A later run of a groups edge therefore panics, on any state
  of the database, if and only if its joined result has a row: without an offset, if some group of the sub-query is linked
  to an account of every batch so far (`LaterRunExactly`); otherwise it gives no account a group. `SecondRunPanics` has an
  input, and on an unchanged database it is every batch with a group (`GroupsEdgeAgain`).
- The innermost function checks the builder's own mutation and builds the one it was handed: a hook that hands on another
  one gets an unchecked spec written (`UncheckedSpec`). `StraightExactly` says which hooks are safe.
- All-or-nothing holds with honest hooks (`AllOrNothing`), and honesty is the exact condition (`HonestExactly`): for every
  hook that is not honest some bulk breaks it (`DishonestBreaks`).
- Splicing into an empty object writes text that does not decode (`EmptyCatalogBreaks`). A name that is spelled twice
  defeats the pricing check (`DuplicateSpellingRejected`); `CheckAfterRun` has the exact condition.
- A billing run is repeated without change if and only if, for every configured DeepSeek model that the catalog lacked,
  each rate of its tier is its own rate or metadata, and none of its own rates outside the tier clashes with metadata or
  hides a decimal of it (`BillTwice`, with the fields of `StableModel`); `MissingDeepSeekDrifts` has a catalog that drifts.
- The configuration is read with decimals, which `json.dumps` rejects: an entry is written if and only if every decimal of
  the model's metadata is replaced by a rate or a fixed field (`BilledExactly`); `DecimalFails` has an input.
- The image renderer is idempotent on all texts if and only if the release image meets a condition on its own text
  (`ImageIdempotent`). The text renderer is not idempotent under the shipped configuration: the mixed-case image name
  needs two runs (`MixedCaseNeedsTwoRuns`), and so does an upstream name without its last letter before a whole one
  (`CutNameNeedsTwoRuns`). `ShippedIdempotentExactly` lists the seven strings that a text must lack, and no others.

## Model

| member | source | states |
|---|---|---|
| `QueryBuilder.Clone` | backend/ent/account_query.go:388-408 | the object-by-object copy is a tree of new builders and new contexts, none shared with the original at any depth, and denotes the same query except for the modifiers |
| `QueryBuilder.CloneThenEdit` | backend/ent/account_query.go:385-408 | any sequence of Where, Limit, Offset, Order, Select and With calls on a clone, which write through its context, with configured sub-queries of any depth, changes the clone as specified and leaves the original query as it was |
| `QueryBuilder.ShallowCopyLeaks` | backend/ent/account_query.go:392-396 | on a copy that keeps the context object a Limit call changes the original query, which is why Clone copies the context |
| `QueryBuilder.AccountQuery.Where` | backend/ent/account_query.go:43-47 | adds one predicate to the query and changes nothing else, at any depth |
| `QueryBuilder.AccountQuery.WithGroups` | backend/ent/account_query.go:410-419 | the sub-query becomes the groups edge; the other edges keep their meaning |
| `QueryBuilder.AccountQuery.WithParent` | backend/ent/account_query.go:432-441 | the sub-query becomes the parent edge; the other edges keep their meaning |
| `QueryBuilder.AccountQuery.WithChildren` | backend/ent/account_query.go:443-452 | the sub-query becomes the children edge; the other edges keep their meaning |
| `Rows.SelectWhere` | backend/ent/account_query.go:882-900 | without paging, one more predicate filters the selected rows and keeps their order |
| `EagerLoad.SpecColumns` | backend/ent/account_query.go:858-880 | the columns are the id, the other selected fields in order, and the needed foreign keys once |
| `EagerLoad.CheckFields` | backend/ent/account_query.go:535-539 | the error names the first selected field that is no column, and there is none otherwise |
| `EagerLoad.InColumns` | backend/ent/account_query.go:866-880 | whatever is selected, exactly the id, the selected fields and the needed keys are read |
| `EagerLoad.IndexById` | backend/ent/account_query.go:631-637 | the index holds, for every id, the last node with it, and the ids are asked for in node order |
| `EagerLoad.IndexByKey` | backend/ent/account_query.go:688-703 | the keys to ask for are the foreign keys that are not nil, once each, and the index holds every node under its key |
| `EagerLoad.StitchProxies` | backend/ent/account_query.go:708-718 | every node with a key gets the last neighbour with that id; an error is returned exactly if a neighbour has an unknown id |
| `EagerLoad.LoadProxy` | backend/ent/account_query.go:688-719 | every node gets the proxy its key refers to, or none; no query is made without a key; the unexpected-key error cannot occur |
| `EagerLoad.LoadUsageLogs` | backend/ent/account_query.go:785-814 | the last node of each id gets the neighbours with its id, in neighbour order; the unexpected-key error cannot occur |
| `EagerLoad.LoadAccountGroups` | backend/ent/account_query.go:815-844 | the last node of each id gets the neighbours with its id, in neighbour order; the unexpected-key error cannot occur |
| `EagerLoad.ScanJoined` | backend/ent/account_query.go:654-672 | one node for the first row of each group, and for each group exactly the accounts that its rows pair it with |
| `EagerLoad.StitchGroups` | backend/ent/account_query.go:674-685 | the groups of a node do not depend on the order in which the accounts of a group are visited; an error exactly for a group without entry |
| `EagerLoad.LoadGroups` | backend/ent/account_query.go:627-687 | the last node of each id gets the groups paired with it; one object for each group is shared by all its accounts; the unexpected-node error cannot occur |
| `EagerGroups.GroupsExact` | backend/ent/account_query.go:654-685 | for any joined rows, an account's groups are exactly the paired ones, once each, in the order of first occurrence in the whole result |
| `EagerGroups.OwnOrderLost` | backend/ent/account_query.go:662-667 | a groups query, ordered by the account, after which an account's groups are not in the order of its own rows |
| `GroupPages.OwnOrderKept` | backend/ent/account_query.go:640-685 | with a sub-query whose order looks at groups only, an account's groups are its own joined rows in their order, whatever its predicates, whatever else is in the batch and however it is paged |
| `GroupOrder.OwnOrderExactly` | backend/ent/account_query.go:654-685 | for any joined rows, an account gets its groups in the order of its own rows if and only if of any two of them the earlier one's group is the first to occur in the whole result |
| `GroupJoin.GroupsNested` | backend/ent/account_query.go:640-685 | the joined, filtered, ordered and de-duplicated query gives an account what a nested loop over groups and links gives, whatever else is in the batch |
| `GroupPages.GroupsPaged` | backend/ent/account_query.go:640-685 | where the page of the joined rows is fair, an account gets the page of what the nested loop over groups and links finds for it |
| `GroupPages.GroupsExactly` | backend/ent/account_query.go:638-685 | a groups sub-query with any offset and limit gives every account of the batch what it gives that account alone, if and only if PageAgrees holds of the joined rows |
| `EagerAll.StitchParents` | backend/ent/account_query.go:740-750 | every node with a key gets the last neighbour with that id; an error exactly if a neighbour has an unknown id |
| `EagerAll.StitchChildren` | backend/ent/account_query.go:768-783 | the last node of each id gets its children in neighbour order; an error exactly if a child has no key or an unknown one |
| `EagerAll.LoadParent` | backend/ent/account_query.go:720-751 | every node's parent stands for the tree that the narrowed sub-query loads for its key; no query without a key |
| `EagerAll.LoadChildrenEdge` | backend/ent/account_query.go:752-784 | the last node of each id gets children that stand for the trees of the narrowed sub-query, in order; neither error can occur |
| `EagerAll.LoadedKeys` | backend/ent/account_query.go:762-781 | every account loaded under an IN predicate has, in the columns it was read with, one of the keys asked for |
| `EagerAll.SqlAll` | backend/ent/account_query.go:550-625 | an error that is an invalid field or a failed query, as in the specified load, or new nodes whose object graph is the specified trees; the query object and its sub-queries are changed in place to what the run leaves; on every path of parents and children the accounts share one object for each group; terminates on the height of the query tree |
| `NestedJoin.LoadNested` | backend/ent/account_query.go:550-784 | for every tree of sub-queries, paged or not, whose pages are fair to their batches, a successful load gives each selected account the tree that a recursive nested-loop join finds for it alone |
| `NestedJoin.PlainIsFair` | backend/ent/account_query.go:550-784 | sub-queries without offset and limit are fair on every database, at any depth |
| `NestedExact.NestedExactly` | backend/ent/account_query.go:550-784 | on tables with their primary keys, for every tree of sub-queries with any offsets and limits, whose groups sub-queries look at groups only and whose account groups show their group, a successful load is the nested-loop join if and only if the page of every batch at any depth is fair |
| `NestedJoin.UnfairYetNested` | backend/ent/account_query.go:550-687 | a groups sub-query that orders by the account is outside that condition, and loads the nested join all the same on every database without groups |
| `EagerAccess.LoadGraph` | backend/ent/account_query.go:550-784 | the objects that sqlAll returns for a query object are, with all they reach, the recursive nested-loop join over the tables |
| `EagerAll.OnlyQueryErrors` | backend/ent/account_query.go:571-784 | at any depth a load fails only because a query is invalid or fails: neither the unexpected-node, the unexpected-key nor the nil-key error can occur |
| `EagerPages.PageExactly` | backend/ent/account_query.go:752-844 | a page gives every parent its own page if and only if it leaves or cuts nothing, or all rows have one parent, or the page and what it skips have one parent and no other has more rows than the offset |
| `EagerPages.BatchExactly` | backend/ent/account_query.go:752-844 | an O2M sub-query with any offset and limit gives every account of the batch what it gives that account alone, if and only if PageAgrees holds of its matches |
| `EagerPages.KeyedExactly` | backend/ent/account_query.go:688-751 | an M2O sub-query with any offset and limit finds for every key of the batch what it finds for that key alone, if and only if the offset passes all matches, or there is no offset and the limit cuts none off |
| `EagerPages.LimitStarves` | backend/ent/account_query.go:785-814 | one log for each of two accounts and a limit of one: the second account gets none |
| `EagerProjection.ProjectionTransparent` | backend/ent/account_query.go:691-784 | whatever is selected, at any depth, the same graph loads, edge for edge, with fewer columns in its nodes |
| `EagerProjection.ColumnsStartWithID` | backend/ent/account_query.go:866-880 | with selected fields the columns start with the id, name it once, and hold the keys of the requested M2O edges |
| `EagerReuse.RunAgain` | backend/ent/account_query.go:707-767 | on an unchanged database the query that a run has changed loads the same trees again |
| `EagerReuse.RunTwice` | backend/ent/account_query.go:550-784 | running the same query object twice gives two disjoint object graphs of the same trees |
| `EagerAccess.RunClone` | backend/ent/account_query.go:385-408 | running a clone loads the cloned query and leaves the query object as it was, at every depth |
| `EagerAccess.CloneExactly` | backend/ent/account_query.go:388-408 | a clone denotes the query itself if and only if the query has no modifier at any depth |
| `EagerReuse.ReuseStarvesNewAccounts` | backend/ent/account_query.go:785-844 | in any later state of the database, and with any paging, accounts that the first run did not select get no usage logs and no account groups |
| `GroupRerun.FirstRunIsFetch` | backend/ent/account_query.go:638-672 | the join, where and column steps on the selector give, in a first run, the joined rows that the load fetches for its groups edge |
| `GroupRerun.LaterRunExactly` | backend/ent/account_query.go:638-672 | any later run, on any database, panics if and only if its joined result has a row, which without an offset means a group linked to an account of every batch; otherwise no account gets a group |
| `GroupRerun.GroupsEdgeAgain` | backend/ent/account_query.go:638-672 | the groups edge of a batch that was loaded without an offset, run again on the same database, panics if and only if the batch has a group |
| `GroupRerun.SecondRunPanics` | backend/ent/account_query.go:661-663 | one account in one group: the second run panics |
| `EagerRerun.RerunLoads` | backend/ent/account_query.go:550-784 | where the pages of the second run are fair, every tree it loads: usage logs, account groups and children of a fresh nested join if the account was in the first batch, else none; proxy and parent if the key was asked for, else none |
| `EagerRerun.RerunShares` | backend/ent/account_query.go:688-844 | what the nested join of the changed query finds for an account: usage logs and account groups as that of the fresh query if the account was in the first batch, else none; the proxy if its key was asked for, else none |
| `EagerRerun.RerunChildren` | backend/ent/account_query.go:752-784 | the nested join of the changed query finds an account of the first batch its present children, and any other account none |
| `EagerRerun.RerunParent` | backend/ent/account_query.go:720-751 | the nested join of the changed query finds the present parent if its key was asked for, else none |
| `EagerRerun.RerunSucceeds` | backend/ent/account_query.go:550-784 | the second run does not fail where a fresh query succeeds |
| `EagerRerun.ReuseExactly` | backend/ent/account_query.go:550-784 | where both pages are fair, the second run loads what a fresh query loads, if and only if every account now selected is covered: nothing it leads to, at any depth, was outside what the first run asked for |
| `EagerRerun.PlainReuseExactly` | backend/ent/account_query.go:550-784 | without paging the same holds wherever a fresh query succeeds |
| `EagerRerun.UnfairReuse` | backend/ent/account_query.go:785-814 | with a limit of one an account of the first batch gets a log in the second run that a fresh run withholds |
| `EagerAccess.AccessorsReport` | backend/ent/account.go:109-165 | after a load each accessor reports not loaded exactly if the edge was not requested, not found exactly if nothing matched, and the loaded neighbours otherwise; writer and readers agree on all six indices |
| `EagerAccess.AccessorsFindReferred` | backend/ent/account.go:118-139 | in terms of the tables, the single-valued accessors find exactly the row that the foreign key refers to among the sub-query's rows, paged for this key |
| `EagerAccess.RepeatedIds` | backend/ent/account_query.go:631-637 | on the returned nodes: of accounts with the same id the last holds every group, child, usage log and account group fetched for it, the others none, and each holds the proxy and parent of its own keys |
| `AccountCreate.Defaults` | backend/ent/account_create.go:527-585 | the mutation with the missing defaults filled in up to the first uninitialised default function, and that error |
| `AccountCreate.Check` | backend/ent/account_create.go:588-662 | the error of the first step that fails, in order |
| `AccountCreate.CheckExact` | backend/ent/account_create.go:588-662 | check accepts exactly the mutations that have every required field and no invalid value |
| `AccountCreate.KeepsValues` | backend/ent/account_create.go:527-585 | defaults keep every value that is set, and add only defaults of their own fields |
| `AccountCreate.DroppedErrorIsCaught` | backend/ent/account_create.go:527-662 | a builder whose defaults failed lacks a required field and is rejected by check |
| `AccountRow.SwitchesAgree` | backend/ent/account.go:168-189 | scanValues, assignValues and createSpec use the same type for every column |
| `AccountRow.CreateSpec` | backend/ent/account_create.go:682-857 | node and row hold exactly the fields that are set and the first id of each M2O edge |
| `AccountRow.ScanValues` | backend/ent/account.go:168-189 | one holder of the right type for every column |
| `AccountRow.Node.AssignValues` | backend/ent/account.go:193-417 | an error exactly for too few values or a value of the wrong type; otherwise every value that is not NULL is assigned |
| `AccountRow.CreateThenRead` | backend/ent/account_create.go:682-857 | reading the created row, in any columns and any order, meets no type mismatch and gives the node's own fields |
| `BulkCreate.Save` | backend/ent/account_create.go:2095-2152 | the run computes the specified outcome, mutation objects, own mutations, specs, done marks and trace |
| `BulkCreate.Saving.Call` | backend/ent/account_create.go:2139-2142 | the wrapped mutator of builder i from hook k inwards, called with any mutation, for hooks that edit, hand on another mutation and call again; terminates on the builders, hooks and calls left |
| `BulkCreate.Saving.Innermost` | backend/ent/account_create.go:2106-2138 | check of the builder's own mutation, adoption of the one handed in, spec of that, next builder or batch, done mark, in this order |
| `BulkTrace.SaveNests` | backend/ent/account_create.go:2102-2150 | whatever mutations the hooks hand on and however often they call, every run is well nested and leaves no call open |
| `BulkTrace.HooksEnclose` | backend/ent/account_create.go:2102-2150 | whenever a batch is sent all hooks of all builders are open, and when builder i is marked done those of the builders up to i |
| `BulkMilestones.SaveMilestones` | backend/ent/account_create.go:2105-2138 | with hooks that propagate failures: no batch and no done mark if a builder is rejected, else one batch with the spec of builder i at i, then done marks in reverse order and only after its success |
| `BulkMilestones.AllOrNothing` | backend/ent/account_create.go:2095-2152 | with honest hooks Save succeeds if and only if all builders are savable and the one batch succeeds; then all are done, otherwise none |
| `BulkLaws.DishonestBreaks` | backend/ent/account_create.go:2106-2142 | for every hook that is not honest, a bulk of this and honest hooks that is not saved all or nothing |
| `BulkLaws.HonestExactly` | backend/ent/account_create.go:2095-2152 | a hook is honest if and only if every bulk with this hook, and else honest ones, is saved all or nothing |
| `BulkLaws.WithheldSuccess` | backend/ent/account_create.go:2117-2138 | for every hook that turns a success into a failure, a bulk that is written and marked done and reported as failed |
| `BulkLaws.CalledTwice` | backend/ent/account_create.go:2117-2138 | for every hook that calls again after some outcome, a bulk for which at least two batches are sent, so that it is not all-or-nothing |
| `BulkLaws.UncheckedSpec` | backend/ent/account_create.go:2111-2116 | for every hook that hands on another mutation in place of a complete one, a bulk that builds and sends a spec without any field |
| `BulkComplete.StraightSuffices` | backend/ent/account_create.go:2105-2116 | with hooks that hand complete mutations on as they are, every spec that is built has every required field, although the error of defaults is dropped |
| `BulkLaws.StraightExactly` | backend/ent/account_create.go:2105-2116 | a hook hands complete mutations on as they are, if and only if no bulk with this hook, and else such hooks, builds a spec without a required field |
| `JsonRoundTrip.QuoteRoundTrip` | tools/generate_model_pricing_defaults.py:26-26 | the literal that json.dumps writes for a string is read back as that string, with or without ASCII escapes |
| `JsonRoundTrip.DumpRoundTrip` | tools/generate_model_pricing_defaults.py:25-28 | raw_decode reads back every value that json.dumps wrote with an indent, and stops at its end |
| `JsonRoundTrip.DumpInjective` | tools/generate_model_pricing_defaults.py:25-25 | different values are dumped as different texts |
| `JsonExtension.ValueExtends` | tools/generate_model_pricing_defaults.py:28-28 | what raw_decode reads at the start of a text it reads also when more text follows |
| `CatalogLayout.DumpLayout` | tools/generate_model_pricing_defaults.py:25-25 | re-indenting a dump is dumping one level deeper, and no line of it looks like a top-level key |
| `CatalogSplice.FindMember` | tools/generate_model_pricing_defaults.py:26-26 | the line-anchored search finds exactly the first top-level member that is spelled like the name |
| `CatalogSplice.SpliceIsPut` | tools/generate_model_pricing_defaults.py:24-31 | one iteration on the text is one update of the member list, in both branches, and keeps the layout |
| `CatalogMeaning.TextMeaning` | tools/generate_model_pricing_defaults.py:18-18 | json.loads of a file in the layout gives its members in file order |
| `CatalogMeaning.SpliceMeaning` | tools/generate_model_pricing_defaults.py:24-31 | the spliced text decodes to the old keys in the old order with the name added last if new, every other value kept, and the name mapped to the entry unless a later duplicate shadows it |
| `CatalogMeaning.EmptyCatalogBreaks` | tools/generate_model_pricing_defaults.py:31-31 | appending to an empty object gives text that does not decode |
| `PricingSync.Sync` | tools/generate_model_pricing_defaults.py:17-32 | the loop and the check compute the specified outcome |
| `PricingSync.SpliceAllIsPutAll` | tools/generate_model_pricing_defaults.py:24-32 | a whole run keeps the layout and is the sequence of member updates |
| `PricingSync.CheckAfterRun` | tools/generate_model_pricing_defaults.py:19-32 | the check accepts a file that a run has written, if and only if no spliced member was shadowed by a later duplicate with another value |
| `PricingSync.CheckAcceptsDistinct` | tools/generate_model_pricing_defaults.py:19-32 | with no name twice in the file the check always accepts after a run |
| `PricingSync.DuplicateSpellingRejected` | tools/generate_model_pricing_defaults.py:19-32 | a file that spells the name twice is rejected after a run |
| `PricingSync.RunIsIdempotent` | tools/generate_model_pricing_defaults.py:24-32 | a second run writes byte-identical text |
| `BillingCredits.Generate` | tools/generate_billing_credits.py:42-68 | the selection, merge and splice loops compute the specified text |
| `BillingCredits.SelectCards` | tools/generate_billing_credits.py:50-54 | the configured cards, with those of the DeepSeek names of the catalog set or added in catalog order |
| `BillingRuns.CardChosen` | tools/generate_billing_credits.py:50-54 | which card each name ends up with |
| `BillingRuns.EntryFields` | tools/generate_billing_credits.py:56-60 | field by field: fixed fields win over rates, rates over configured metadata, and every other field keeps its catalog value |
| `BillingRuns.BilledExactly` | tools/generate_billing_credits.py:56-61 | an entry is written if and only if the catalog has an object or nothing for the name, every rate is known, and no decimal of the metadata reaches json.dumps |
| `BillingRuns.DecimalFails` | tools/generate_billing_credits.py:10-61 | a model with one fractional number in its metadata cannot be billed |
| `BillingRuns.BillTwice` | tools/generate_billing_credits.py:50-68 | for any catalog, a second run writes the same text if and only if for every configured DeepSeek model that the catalog lacked each tier rate is its own rate or metadata and no own rate outside the tier clashes with metadata or hides a decimal of it |
| `BillingRuns.MissingDeepSeekDrifts` | tools/generate_billing_credits.py:50-60 | a configured DeepSeek model with its own price, missing from the catalog, changes its entry on the second run |
| `TextReplace.FixedExactly` | tools/generate_release_channel.py:155-170 | str.replace leaves a text alone if and only if it lacks the pattern or puts the pattern back |
| `TextReplace.ReplaceClean` | tools/generate_release_channel.py:155-170 | a replacement that neither holds, begins nor completes a string leaves no occurrence of it, old or new |
| `TextReplace.Carried` | tools/generate_release_channel.py:155-170 | where no match of the pattern touches a string, it stays, and a match right after it is replaced in its place |
| `ReleaseChannel.ImageIdempotent` | tools/generate_release_channel.py:167-170 | image rendering is idempotent on all texts if and only if the image is the upstream image, or neither holds its name nor ends in a beginning of it |
| `ReleaseChannel.TextIdempotent` | tools/generate_release_channel.py:155-164 | the chain of four replacements is idempotent on every text for which no step brings in a new match |
| `ReleaseChannel.ApartIdempotent` | tools/generate_release_channel.py:155-164 | with a configuration whose replacements stay apart from the patterns it is idempotent on every text |
| `ReleaseChannel.MixedCaseNeedsTwoRuns` | tools/generate_release_channel.py:155-164 | under the shipped configuration the mixed-case image name needs two runs |
| `ReleaseChannel.ShippedCheckExact` | tools/generate_release_channel.py:194-210 | under the shipped configuration the check accepts a text if and only if none of the four names is left in it |
| `ReleaseExact.ShippedIdempotentExactly` | tools/generate_release_channel.py:155-164 | under the shipped configuration a second run changes nothing if and only if the text holds none of seven strings |
| `ReleaseExact.CutNameNeedsTwoRuns` | tools/generate_release_channel.py:155-164 | an upstream name without its last letter before the whole name needs two runs |
| `ReleaseExact.LowerStemNeedsOneRun` | tools/generate_release_channel.py:155-164 | the lower-case name without its last letter before the mixed-case name needs one |
| `Installer.LineIsPlain` | tools/generate_release_channel.py:68-71 | an accepted repository name is quoted without line break or escape, so that it is safe as a substitution template |
| `Installer.InstallerFixpoint` | tools/generate_release_channel.py:134-152 | rendering changes the one block and nothing else, text and result each have this one block and no other, and the result is a fixed point |
| `Installer.InstallerSucceeds` | tools/generate_release_channel.py:142-152 | rendering succeeds if and only if the text has exactly one block: one that the text can be cut at, with none before and none after it |
| `BrowserCoverage.Coverage.Visit` | tools/run_seven_provider_browser.py:65-85 | the recursive walk updates errors and observed titles as one pass over the flattened suite tree |
| `BrowserCoverage.CoverageErrors` | tools/run_seven_provider_browser.py:56-93 | the list of errors is the specified one |
| `BrowserCoverage.EmptyExactly` | tools/run_seven_provider_browser.py:56-93 | no error if and only if something is expected, the specs of the whole tree are the expected titles once each with one successful Chromium run, and no global error is reported |

## Left out

- EagerAll.SqlAll: leaves the groups sub-query with a condition on the account column; the closure that the source leaves
  there is in `GroupRerun`.
- QueryBuilder.Clone: the slices of a builder (predicates, order, modifiers) are values, without the arrays behind them.
- QueryBuilder.CloneThenEdit: `Unique` is not one of the calls.
- Interceptors, `Unique`, `path` and `From` of a query, and the effect of modifiers: their code is not part of this model.
- The edges of the Group, Proxy, UsageLog and AccountGroup sub-queries, which repeat the same templates.
- EagerReuse.RunAgain: is about queries without a groups edge, as are `RunTwice` and the laws of `EagerRerun`; `GroupRerun` has that edge.
- EagerReuse.ReuseStarvesNewAccounts: is about two edges; `EagerRerun` has the others.
- EagerRerun.RerunSucceeds: is about sub-queries without paging; a page that is not fair can make the second run ask more.
- GroupRerun.LaterRunExactly: the selector is its column list and its joined rows; `sql.Selector` itself is not part of
  this model.
- `sqlgraph`, drivers and transactions: a query is a select over row sequences that fails if its table cannot be
  reached; a zero limit is no limit.
- NestedJoin.LoadNested: is about successful loads; errors are those of `EagerSpec.Load`, which `SqlAll` returns.
- GroupJoin.GroupsNested: is about sub-queries without offset and limit; `GroupPages.GroupsPaged` has the others.
- Hooks that keep state between calls, hand on different mutations in one call, or reach into another builder; the ids
  that the database assigns in a batch, `OnConflict` and the upsert builders.
- The edges of `createSpec` that write other tables (groups, children, usage logs).
- AccountRow.CreateThenRead: a JSON value is its canonical text, and a time its instant.
- Numbers of the catalog are kept as their tokens; NaN and Infinity literals and lone surrogates are not modelled, and
  the comparison of the pricing check is structural where Python's is coarser (1 and 1.0, key order).
- Duplicate keys inside a nested object of the catalog are kept where the decoder drops all but the last.
- BillingCredits.Generate: the scaling of prices from per million to per token is a parameter of the model, a function on
  number tokens; the Go source that the billing script writes (lines 10-37) is left out as formatting.
- `load_config` beyond the repository and image names, and the Go file of `render`: straight-line checks and formatting.
- ReleaseChannel.TextIdempotent: the condition is sufficient, for any configuration; `ReleaseExact` has the exact one
  for the shipped configuration.
- ReleaseChannel.ApartIdempotent: is about configurations other than the shipped one.
- The regular-expression filter of the coverage check is its result, the sorted expected titles.
- Process launching, sockets, `/etc/hosts` and environment setup of the browser script, the other generator scripts,
  the fluent setters, the panic wrappers and `String()`.
- The balance reservation protocol that the deployment notes describe: its implementation is not part of this model.
