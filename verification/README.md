# Verified models of the reading-recommendation data tooling

This project models the scripts that build the book graph and its catalog and vector artifacts, the executors that
change the database under an approved plan, and the evaluation metrics, and proves what those scripts promise.
`dafny verify dfyconfig.toml` (Dafny 4.11) verifies the whole project.

## What is modelled

**Works of the v2 book graph** (`Keys`, `UnionFind`, `Components`, `TitleGroups`, `Works`, `WorkLaws`, `V2Rows`,
`V2Content`).
Books of one normalized title are grouped by a union-find with path halving and union to the smaller root. The mutable
forest is proved to compute exactly the connected components of "shares an author"; the ordered tuple of works is a
function of the set of rows only; the rewritten v2 rows match the counts announced before they are built, and the v1 rows
can be read back from them. Keys are texts under Python's string order.

**Executors as crash-prone sessions** (`Sql`, `G12Review`, `G12Executors`, `G11Identity`, `G11Scanner`,
`G11Executors`, `AdminIdentity`, `AdminExecutors`). The database is a durable store; each session has its own
uncommitted rows. Schema statements are durable at once and commit what is pending, inserts survive a commit or, under
autocommit, one by one. Any number of sessions of any kind act in any order, a session can be lost before any statement,
a statement can be turned away by a constraint or a lock, and a commit can happen without its caller hearing of it. The
theorems quantify over every list of actions. An insert fails when its table is missing. The `apply` procedures are
methods of a server class whose world is, at every return, the result of the actions logged so far, so the theorems
about runs apply to them.

**The consent run** (`ConsentRun`). The phased HTTP client, against an environment that answers every request and
every database read as it likes; then against an honest server whose answers can be lost, broken off, garbled or
replaced.

**Evaluation metrics** (`Ndcg`, `MacroF1`, `Retrieval`). Over `real`, with an arbitrary positive non-increasing
discount in place of the reciprocal logarithm.

**The pipeline from CSV files to vectors** (`Colons`, `Texts`, `BookRecords`, `GraphStore`, `GraphPlan`,
`GraphPlanLaws`, `GraphContent`, `CatalogRows`, `CatalogLaws`, `CatalogContent`, `BookTrace`, `ProvenanceTrace`,
`Embedding`, `VectorRecords`, `VectorContent`, `Pipeline`). Each builder is a loop over dictionaries; a graph plan is
proved equal to one sequence of additions, and the laws are about such sequences. The `Content` modules say what the
built triples, rows and vectors hold in terms of the builders' inputs, and `BookTrace` follows a book from its CSV
records to its catalog row. The composed method shows which blockers of the later stages can still occur.

**Predicted row budgets** (`ProfileReplay`, `FeedbackPlan`, `FeedbackRun`, `ContinuationBudget`). Which profile keys a
replay of behavior events yields, the deltas a G5 feedback plan freezes from two such replays before any write, the
budget checks of its executor, the rows the approved interactions and profile refreshes then insert, and the row budget
of a G4 continuation.

Cryptographic digests, Unicode normalization and text parsing are function parameters. Where digests must not collide,
or normalization must keep a printed character, a named predicate says so and is a hypothesis of the lemma that needs
it.

## What the proofs found

- `rewrite_key` is injective only on keys that are not already in rewritten form (`V2Rows.RewriteInjectiveIff`): a v1
  key and its own rewritten form collide (`V2Rows.RewriteCollides`).
- The G12 chain has one dead end, reachable by losing the first run after its first statement: the first table alone
  (`G12Review.FirstTableOnlyReachable`). From every other reachable incomplete state exactly one executor completes.
- The G11 scanner alone accepts texts whose marker row can survive a cut while a view is missing: those whose last
  statement is not the marker insert and whose seed inserts all stand after their own tables (`G11Scanner.SafeIff`,
  `G11Scanner.LateViewIsUnsafe`); the successor's stricter reading excludes them.
- The G11 migration checks its seed counts only after the commit. A seed row turned away, other than the marker itself,
  leaves the marker on an incomplete store for good; the migration then refuses, but the successor reports the store as
  a replay (`G11Identity.MarkedOnlyReplays`, `G11Identity.IncompleteReplayReachable`).
- NDCG can exceed 1 when a result is repeated: under any one discount it is at most 1 for every non-negative judgment
  exactly when the first `k` results are distinct (`Ndcg.BoundedIffDistinct`). DCG stays below its ideal exactly when no
  negative judgment reaches the first `k` places (`Ndcg.BoundedIffTopNonNegative`).
- Macro-F1 does not notice unequal lengths: one label expected and the same label predicted twice scores 1
  (`MacroF1.SurplusScoresOne`).
- A G5 feedback plan predicts the rows of its run table by table exactly when two things do not happen
  (`FeedbackRun.PlanMatchesRunIff`, `FeedbackRun.BudgetAgainstRun`). The predicted profile-log delta is one short for
  each of the three ids after the user's largest event id that is already logged for another user
  (`FeedbackPlan.LogDeltaRightIff`, `FeedbackPlan.LogDeltaCanFallShort`). And when the click carries the time of the
  refusal, which the guards allow, the second refresh finds its replay recorded already: the plan asks for one replay run
  and one transition too many (`FeedbackRun.OneHorizonOverasks`). The interest and negative-preference deltas are exact
  in any case, because a later horizon never drops a profile key (`FeedbackPlan.FrozenDeltasExact`).
- A v1 node or triple can be read back from its v2 row exactly when it does not mention the new version yet
  (`V2Content.NodesReadBackIff`, `V2Content.TripleReadBackIff`).
- A consent run whose logout answer is lost is reported as a failure although the database is as after a PASS, because
  only a received status other than 204 is reconciled (`ConsentRun.UnheardLogoutFails`).
- Once every clock reads past the activation token's expiry, and no open activation has read its clock before it, no run
  of the bootstrap and activation scripts ever leaves the pending state (`AdminIdentity.ExpiredStaysPending`). A session
  that read its clock in time can wait for a lock and still activate later (`AdminIdentity.InTimeStillActivates`).

## Model

| member | source | states |
|---|---|---|
| Keys.SortedKeysUnique | scripts/build_book_graph_v2.py:126 | A set of keys has exactly one strictly increasing listing, so sorted tuples are determined by their members |
| UnionFind.HalvingKeepsRoots | scripts/build_book_graph_v2.py:102-106 | Pointing a key at its grandparent changes no key's representative |
| UnionFind.HalvingRound | scripts/build_book_graph_v2.py:102-106 | A round of the `find` walk keeps parents at or below their keys, keeps all representatives and gets closer to a root, so the walk terminates |
| UnionFind.LinkMergesClasses | scripts/build_book_graph_v2.py:108-111 | Hanging the larger root under the smaller merges exactly those two classes and names the merged class by the smaller root |
| UnionFind.Forest.constructor | scripts/build_book_graph_v2.py:100 | Every book starts as its own representative |
| UnionFind.Forest.Find | scripts/build_book_graph_v2.py:102-106 | Returns the representative; the rewritten parents represent the same classes |
| UnionFind.Forest.Union | scripts/build_book_graph_v2.py:108-111 | The two named classes and no others get one representative, the smaller of the two |
| TitleGroups.IndexByAuthor | scripts/build_book_graph_v2.py:113-118 | The author index lists a book under an author exactly when the author is among the book's authors |
| TitleGroups.UniteAuthor | scripts/build_book_graph_v2.py:119-121 | The star of unions for one author unites all its books without joining unconnected ones |
| TitleGroups.UniteAll | scripts/build_book_graph_v2.py:119-121 | After all authors the forest has joined sharers of every author and nothing else, whatever the iteration order |
| TitleGroups.UnitedIsExact | scripts/build_book_graph_v2.py:119-121 | Sound unions that join all sharers make representatives agree exactly on connected books |
| TitleGroups.CollectComponents | scripts/build_book_graph_v2.py:122-124 | The books collected under a representative are the books it represents, though every `find` rewrites parents |
| TitleGroups.CollectedAreClasses | scripts/build_book_graph_v2.py:122-124 | The collected sets are exactly the connected components |
| TitleGroups.SortComponents | scripts/build_book_graph_v2.py:125-126 | Sorting by sorted member tuples yields the components by increasing least book |
| TitleGroups.GroupTitle | scripts/build_book_graph_v2.py:100-126 | From the books of a title to the sorted tuples of its connected components, in order |
| Components.TupleOrderIsLeastOrder | scripts/build_book_graph_v2.py:125 | For disjoint components, order by sorted tuple is order by least book |
| Components.ClassListMembers | scripts/build_book_graph_v2.py:122-126 | The specification lists each component once and leaves no book out |
| Works.CollectBooks | scripts/build_book_graph_v2.py:77-79 | The book table keeps the last row of each Book key |
| Works.CollectAuthors | scripts/build_book_graph_v2.py:80-83 | A book's authors are the objects of its AUTHORED_BY triples, for listed books only |
| Works.IndexByTitle | scripts/build_book_graph_v2.py:85-94 | The title index lists each book under its grouping key and nowhere else; untitled books are keyed by digest |
| Works.WorksOfTitles | scripts/build_book_graph_v2.py:97-133 | Titles are taken in sorted order, each contributing its components as works |
| Works.Analyze | scripts/build_book_graph_v2.py:74-143 | The imperative analysis returns the works specified by connected components, with the source counts |
| WorkLaws.WorksPartitionBooks | scripts/build_book_graph_v2.py:97-133 | Every work is one component of its title, every book is in some work, works are ordered and share no book |
| WorkLaws.BookInExactlyOneWork | scripts/build_book_graph_v2.py:122-133 | Every book lies in exactly one work |
| WorkLaws.WorkIsComponent | scripts/build_book_graph_v2.py:97-133 | The books of a work are the component of each of its books |
| WorkLaws.SameWorkIffLinked | scripts/build_book_graph_v2.py:97-133 | Two books share a work exactly when they have the same title key and a chain of shared authors links them |
| WorkLaws.SameTitleWorksShareNoAuthor | scripts/build_book_graph_v2.py:98-121 | Two works of one title have no author in common |
| WorkLaws.AuthorlessBookIsSingleton | scripts/build_book_graph_v2.py:98-117 | A book without authors is a work of its own |
| WorkLaws.WorksIgnoreInputOrder | scripts/build_book_graph_v2.py:74-143 | Reordering nodes with distinct keys, and reordering or repeating triples, leaves the works unchanged |
| V2Rows.RewrittenIsNotV1 | scripts/build_book_graph_v2.py:207-209 | A rewritten key no longer has the v1 prefix |
| V2Rows.RewriteInjectiveIff | scripts/build_book_graph_v2.py:207-209 | Rewriting keeps a set of keys apart exactly when no v1 key of it is already present in rewritten form |
| V2Rows.RewriteCollides | scripts/build_book_graph_v2.py:207-209 | A v1 key and its rewritten form are two keys that are rewritten to the same one |
| V2Rows.RewriteInjectiveOnV1Keys | scripts/build_book_graph_v2.py:207-209 | Keys that all carry the v1 prefix are kept apart |
| V2Rows.BuildNodes | scripts/build_book_graph_v2.py:219-247 | One copied node per v1 node followed by one Work node per work, and each book assigned to its work |
| V2Rows.BuildTriples | scripts/build_book_graph_v2.py:248-267 | One copied triple per v1 triple followed by one instance edge per assigned book, in book order |
| V2Rows.BuildRows | scripts/build_book_graph_v2.py:212-268 | The two lists are the specified copy of v1 plus works and instances |
| V2Rows.AnalyzeAndBuild | scripts/build_book_graph_v2.py:319-348 | The emitted lists have exactly the lengths announced by the dry run, and every book of the table is assigned |
| V2Rows.EndpointsKept | scripts/build_book_graph_v2.py:219-268 | An edge of the v2 graph dangles only if it dangled in v1; instance edges never do |
| V2Rows.OneInstanceEdge | scripts/build_book_graph_v2.py:257-267 | Every book has an INSTANCE_OF edge to the node of its work, the only one with its v2 key exactly when no v1 edge already was one and no other book is rewritten to that key |
| V2Rows.DistinctNodesIff | scripts/build_book_graph_v2.py:219-247 | The v2 node keys are pairwise distinct exactly when the v1 keys are, rewriting keeps them apart and none becomes a Work key |
| V2Rows.DistinctEdgesKept | scripts/build_book_graph_v2.py:248-267 | Distinct v1 edge keys give distinct v2 edge keys, the instance edges included, under collision-free digests |
| V2Rows.SameWorkNodeIffLinked | scripts/build_book_graph_v2.py:97-133 | In the v2 graph two books point at one Work node exactly when they have one title and are linked by shared authors |
| V2Content.WorkContent | scripts/build_book_graph_v2.py:97-133 | A work lists its books in order, is named after the least of them, lists in order exactly the authors its books are credited with, and carries the digest of all that |
| V2Content.RowsCopied | scripts/build_book_graph_v2.py:219-256 | Place by place every v1 node and triple is kept: label, entity, relation and properties, except that a property naming the v1 version names the new one |
| V2Content.RowsAdded | scripts/build_book_graph_v2.py:231-267 | After the copies come the works in their order with their four properties, and one INSTANCE_OF edge for each assigned book in key order |
| V2Content.InstancesCounted | scripts/build_book_graph_v2.py:234-247 | For analyzed works and collision-free work digests a Work node counts exactly the added edges that point at it |
| V2Content.NodesReadBackIff | scripts/build_book_graph_v2.py:219-230 | Putting the v1 version back restores the v1 nodes from the v2 rows exactly when none of them mentions the new version |
| V2Content.TripleReadBackIff | scripts/build_book_graph_v2.py:249-256 | Likewise for a triple, up to the digest in its key |
| G12Review.AlwaysInv | scripts/execute_g12_knowledge_review_plan.py:136-167 | Every interleaving of runs, crashes, rejected rows and lost responses keeps the run invariant |
| G12Review.AllOrNothing | scripts/execute_g12_knowledge_review_successor.py:208-273 | The marker and the other 265 rows become durable together or not at all, and never before the whole schema |
| G12Review.AdmissionDisjoint | scripts/execute_g12_knowledge_review_successor.py:136-151 | No store is admitted by two different executors |
| G12Review.AdmissionCovers | scripts/execute_g12_knowledge_review_finalizer.py:88-104 | A reachable store is admitted by an executor exactly when it is neither complete nor the first table alone |
| G12Review.CompleteIsTerminal | scripts/execute_g12_knowledge_review_plan.py:138-144 | From the complete state no run of any executor writes anything |
| G12Review.PassMeansComplete | scripts/execute_g12_knowledge_review_plan.py:159-162 | A reported success means the whole migration is durable, and at most one run ever reports it |
| G12Review.FrozenUnlessAdmitted | scripts/execute_g12_knowledge_review_successor.py:136-151 | With nothing running, a store no executor admits never changes |
| G12Review.FirstTableOnlyReachable | scripts/execute_g12_knowledge_review_plan.py:147-150 | Losing the first run after its first statement reaches the one dead end |
| G12Review.AdmittedCompletes | scripts/execute_g12_knowledge_review_finalizer.py:121-152 | From every admitted quiet store one undisturbed run completes the migration and reports success |
| G12Executors.Server.Issue | scripts/execute_g12_knowledge_review_plan.py:146-158 | One statement advances the run by its row count or ends it with a rollback; schema statements count no rows |
| G12Executors.Server.Preflight | scripts/execute_g12_knowledge_review_successor.py:209 | The run goes on exactly when its admission check accepts the durable store |
| G12Executors.Server.InsertFacts | scripts/execute_g12_knowledge_review_successor.py:213-237 | Seed inserts and 262 proposal inserts in order, with the affected total, or a rollback |
| G12Executors.Server.CommitAll | scripts/execute_g12_knowledge_review_successor.py:238-240 | A commit is only heard after exactly 266 affected rows |
| G12Executors.Server.Postflight | scripts/execute_g12_knowledge_review_successor.py:241-255 | After a commit the postflight counts always match; only a lost connection fails them |
| G12Executors.Server.ApplyPlan | scripts/execute_g12_knowledge_review_plan.py:122-167 | Success reports 266 rows and the migration is complete, amid any other sessions |
| G12Executors.Server.ApplySuccessor | scripts/execute_g12_knowledge_review_successor.py:184-273 | The same for the run from the two empty tables |
| G12Executors.Server.ApplyFinalizer | scripts/execute_g12_knowledge_review_finalizer.py:107-152 | The same for the run from the full empty schema |
| G11Identity.MarkerMeansSchema | scripts/execute_g11_identity_migration.py:288-297 | In every run a durable marker comes with all 12 tables and 3 views and with every seed row not turned away: all 37 exactly when none was |
| G11Identity.MarkerMeansComplete | scripts/execute_g11_identity_migration.py:288-297 | When no insert turns a row away, the marker is durable only with the exact seed counts 4, 15, 17 and 1 |
| G11Identity.NothingTakenBack | scripts/execute_g11_identity_migration.py:300-308 | Objects and rows never decrease and there are never more than 37 seed rows |
| G11Identity.MarkedOnlyReplays | scripts/execute_g11_identity_successor.py:119-125 | A store with the marker never changes; the successor replays it, the migration replays it exactly when it is complete and refuses it otherwise |
| G11Identity.AdmissionTable | scripts/execute_g11_identity_successor.py:119-125 | Over every reachable store: empty is for the migration, twelve empty tables for the successor, one with the marker is replayed by the successor, a complete one by both, and everything else is refused by both |
| G11Identity.DecideByStage | scripts/execute_g11_identity_migration.py:273-299 | What the admission reads decide after each number of durable statements and for any rows turned away |
| G11Identity.PassMeansComplete | scripts/execute_g11_identity_migration.py:308-326 | A PASS after writing means a complete store and only one run ever reports one; so does a replay by the migration, while a replay by the successor means the marker and every object |
| G11Identity.FrozenUnlessAdmitted | scripts/execute_g11_identity_migration.py:298-299 | With nothing running, a store neither executor admits never changes |
| G11Identity.AdmittedCompletes | scripts/execute_g11_identity_successor.py:126-137 | From each admitted quiet store one undisturbed run makes durable everything that is not turned away, and reports success exactly when nothing is |
| G11Identity.IncompleteReplayReachable | scripts/execute_g11_identity_successor.py:122-123 | One grant turned away reaches a store the migration refuses and the successor reports as a replay |
| G11Identity.WrittenTotals | scripts/execute_g11_identity_successor.py:134-136 | After each insert the seed rows number 4, 19, 36 and 37 |
| G11Scanner.Validate | scripts/execute_g11_identity_migration.py:96-133 | The scanner accepts exactly the 19-statement interleavings of the tables-then-views order with the fixed seed order |
| G11Scanner.Completion | scripts/execute_g11_identity_successor.py:46-62 | The successor's reading accepts exactly the accepted texts in canonical order without forbidden words, and returns the last seven |
| G11Scanner.ViewsThenInserts | scripts/execute_g11_identity_successor.py:51-58 | Views then inserts in the last seven places force the single canonical order, marker last |
| G11Scanner.SafeIff | scripts/execute_g11_identity_migration.py:104-132 | A cut-off run of an accepted text never leaves the marker without every object exactly when the marker insert is last or some seed insert stands before its own table, so that the run fails there |
| G11Scanner.LateViewIsUnsafe | scripts/execute_g11_identity_migration.py:104-132 | The canonical text with its last view moved behind the marker is accepted, and a cut at that view leaves the marker without it |
| G11Executors.Server.Preflight | scripts/execute_g11_identity_migration.py:273-299 | The decision to replay, refuse or apply is the one the durable store calls for |
| G11Executors.Server.RunStatements | scripts/execute_g11_identity_successor.py:126-132 | All statements in order with the affected total, or a failure that ends the run |
| G11Executors.Server.Finish | scripts/execute_g11_identity_migration.py:308-326 | The commit keeps exactly the counted rows under every object whether or not anybody hears of it; undisturbed, the run succeeds exactly when 37 rows were counted |
| G11Executors.Server.Confirm | scripts/execute_g11_identity_migration.py:309-321 | The reads after the commit succeed exactly when the total is 37 |
| G11Executors.Server.ApplyMigration | scripts/execute_g11_identity_migration.py:268-331 | Applied or replayed means complete; applied means 37 rows |
| G11Executors.Server.ApplySuccessor | scripts/execute_g11_identity_successor.py:117-138 | Applied means 37 rows and a complete store; replayed means the marker and every object |
| AdminIdentity.OnlyThreeStages | scripts/execute_g11_bootstrap_admin.py:336-415 | In every run the identity rows are empty, pending or active, and each transition was committed whole, once, bootstrap first |
| AdminIdentity.StepsForward | scripts/execute_g11_admin_activation.py:312-391 | Only a commit of a whole transaction, 7 rows or 4 changes, moves the database, and only to the next stage |
| AdminIdentity.NeverBack | scripts/execute_g11_bootstrap_admin.py:336-350 | The stage never goes back and the active stage is final |
| AdminIdentity.DecisionTable | scripts/execute_g11_admin_activation.py:313-323 | What each script decides at each stage; an expired token is refused |
| AdminIdentity.ExpiredStaysPending | scripts/execute_g11_admin_activation.py:323-342 | Once the token has expired, with no open activation that read its clock, before its two row locks, while the token was valid, the account stays pending whatever runs follow |
| AdminIdentity.InTimeStillActivates | scripts/execute_g11_admin_activation.py:325-342 | A session that read its clock in time and then waited for its lock activates the still pending account, whatever the clocks read by then |
| AdminIdentity.AfterActivation | scripts/execute_g11_bootstrap_admin.py:340-349 | After activation a bootstrap run refuses, an activation run replays, and neither can write |
| AdminIdentity.PassIsDurable | scripts/execute_g11_bootstrap_admin.py:400-411 | A reported PASS, applied or replayed, speaks of a stage that is durable for good |
| AdminIdentity.AttemptCompletes | scripts/execute_g11_admin_activation.py:324-388 | At its stage, with no other transaction open, each script completes the next stage and reports PASS |
| AdminExecutors.Server.Statements | scripts/execute_g11_bootstrap_admin.py:352-402 | The statements in order with their row total, or a rollback at the first error or cut |
| AdminExecutors.Server.Finish | scripts/execute_g11_admin_activation.py:381-388 | A transaction that reaches its commit has written exactly its 7 or 4 rows |
| AdminExecutors.Server.ApplyPlan | scripts/execute_g11_bootstrap_admin.py:318-416 | The report matches what happened: applied with its exact rows, replayed with none, or failed |
| ConsentRun.Client.SignIn | scripts/execute_formal_reader_behavior_consent_plan.py:369-402 | Goes on only when readiness, login and identity are each proven for the planned reader |
| ConsentRun.Client.ProveGrant | scripts/execute_formal_reader_behavior_consent_plan.py:404-433 | One grant request; success only by a well-formed answer or by reading the consent back |
| ConsentRun.Client.ProveLogout | scripts/execute_formal_reader_behavior_consent_plan.py:435-442 | One logout request; success by status 204 or, after another status, by the session being revoked |
| ConsentRun.Client.Reconcile | scripts/execute_formal_reader_behavior_consent_plan.py:444-459 | Passes exactly when counts, account, roles, consent and session are as planned |
| ConsentRun.Client.Apply | scripts/execute_formal_reader_behavior_consent_plan.py:338-471 | Requests go out at most once and in order, logout only after a proven grant, and PASS exactly when everything is proven |
| ConsentRun.AtMostOnce | scripts/execute_formal_reader_behavior_consent_plan.py:404-433 | A run sends each request, the consent grant included, at most once |
| ConsentRun.PassMovesExactly | scripts/execute_formal_reader_behavior_consent_plan.py:445-454 | After a PASS every table moved by exactly its expected delta; account and roles are unchanged and consent is true |
| ConsentRun.HonestPassIff | scripts/execute_formal_reader_behavior_consent_plan.py:404-460 | Alone with an honest server a run passes exactly when sign-in is clean, the grant took effect and its answer did not break off, and the logout took effect and a whole answer came back |
| ConsentRun.UnheardLogoutFails | scripts/execute_formal_reader_behavior_consent_plan.py:435-442 | A lost logout answer is reported as failure although the database is as after a PASS |
| Ndcg.WeightedLeadBound | scripts/evaluate_results.py:20-27 | Summation by parts: a list ahead at every prefix stays ahead after discounting |
| Ndcg.BestSum | scripts/evaluate_results.py:24-27 | No duplicate-free list collects more plain gain than the best judgments |
| Ndcg.DcgAtMostIdeal | scripts/evaluate_results.py:20-28 | DCG never exceeds the ideal DCG for a duplicate-free list |
| Ndcg.BoundedIffTopNonNegative | scripts/evaluate_results.py:24-28 | The bound holds for all duplicate-free lists exactly when no negative judgment reaches the first k places |
| Ndcg.NdcgBounded | scripts/evaluate_results.py:24-28 | With non-negative judgments NDCG lies in [0,1] for every k and every non-increasing discount |
| Ndcg.PerfectIffIdealGains | scripts/evaluate_results.py:24-28 | With a strict discount and positive ideal, NDCG is 1 exactly when the listed gains are the sorted ideal gains padded with zeros |
| Ndcg.BoundedIffDistinct | scripts/evaluate_results.py:20-28 | Under any one discount the score is at most 1 for every non-negative judgment exactly when the first k results are distinct |
| Ndcg.GainDoubles | scripts/evaluate_results.py:21 | One more point of relevance doubles the gain and adds one, and no relevance gains nothing |
| Ndcg.EachPointDoubles | scripts/evaluate_results.py:20-21 | For a result listed once in the first `k` the first point of relevance is worth the discount of its place, and each further point twice the one before |
| Ndcg.ExchangeMovesDcg | scripts/evaluate_results.py:20-21 | Exchanging two of the first `k` results moves the score by the difference of their gains times the difference of their discounts |
| Ndcg.ScoreIsShare | scripts/evaluate_results.py:24-28 | NDCG times the ideal is the DCG, and it is zero when there is no ideal |
| Retrieval.RecallBounds | scripts/evaluate_results.py:31-33 | Recall lies in [0,1], is 1 exactly when all positives are in the first k and there are some, and is positive exactly when one is |
| Retrieval.RecallGrows | scripts/evaluate_results.py:31-33 | Recall does not fall when k grows |
| Retrieval.RecallStep | scripts/evaluate_results.py:31-33 | Recall starts at zero and one place more adds one share of the relevant resources exactly when it holds one not listed before |
| Retrieval.Mrr | scripts/evaluate_results.py:36-40 | The loop returns the reciprocal of the first relevant place, zero without one |
| Retrieval.RankIsFirst | scripts/evaluate_results.py:36-40 | The reciprocal rank is one over the position of the first relevant place, whichever it is, and zero without one |
| Retrieval.RankAgreesWithRecall | scripts/evaluate_results.py:31-40 | The reciprocal rank reaches 1/k exactly when recall at k is positive |
| MacroF1.Compute | scripts/evaluate_results.py:43-53 | The loop over sorted labels returns the mean of the label scores |
| MacroF1.F1ClosedForm | scripts/evaluate_results.py:50-52 | The harmonic mean of precision and recall is twice the hits over twice the hits plus all errors, zero cases included |
| MacroF1.MacroScoreCounts | scripts/evaluate_results.py:43-53 | The score is the mean over the labels of twice the agreeing pairs over the occurrences of the label in both lists |
| MacroF1.MacroScoreBounded | scripts/evaluate_results.py:43-53 | Macro-F1 lies in [0,1] for any two lists |
| MacroF1.PerfectIff | scripts/evaluate_results.py:43-53 | For any two lists it is 1 exactly when the common part agrees and every label occurs in it |
| MacroF1.EqualLengthPerfectIff | scripts/evaluate_results.py:43-53 | For lists of equal length it is 1 exactly when they are non-empty and equal |
| MacroF1.SurplusScoresOne | scripts/evaluate_results.py:46-48 | Truncation by `zip`: a surplus prediction of a known label still scores 1 |
| MacroF1.FalsePositivesEqualFalseNegatives | scripts/evaluate_results.py:46-49 | Over all labels false positives, false negatives and mismatched pairs are equally many |
| MacroF1.PermutationInvariant | scripts/evaluate_results.py:43-53 | The score depends only on how often each pair occurs |
| BookRecords.RecordList.GroupByIsbn | scripts/build_book_graph_plan.py:348-352 | Each ISBN is grouped with exactly the content digests recorded under it |
| BookRecords.RecordList.AssignBookIdentities | scripts/build_book_graph_plan.py:347-373 | Every record is named by the rule for the batch's contested ISBNs, and the three counts are right |
| BookRecords.IdentityTells | scripts/build_book_graph_plan.py:353-366 | Identifier and strategy for each of the three cases, where an ISBN is contested exactly when another content is recorded under it |
| BookRecords.SharedIdentifierIff | scripts/build_book_graph_plan.py:353-366 | Two records share an identifier exactly when they agree on the ISBN and on the digest prefix the identifier carries |
| BookRecords.IdentifierIsIsbnAndContent | scripts/build_book_graph_plan.py:353-366 | Without digest-prefix collisions the identifier stands for the pair of ISBN (or none) and content |
| BookRecords.IdentityIgnoresOrder | scripts/build_book_graph_plan.py:347-366 | A record's identity does not depend on the order or repetition of the records |
| GraphStore.GraphBuilder.Complete | scripts/build_book_graph_plan.py:199-202 | An existing node gains exactly the names it lacks, never an empty list |
| GraphStore.GraphBuilder.AddNode | scripts/build_book_graph_plan.py:176-203 | The dictionaries stay equal to the effect of the additions logged so far, and the key is the computed one |
| GraphStore.GraphBuilder.AddTriple | scripts/build_book_graph_plan.py:206-230 | The same for a triple stored under its identity |
| GraphStore.NodeIffAdded | scripts/build_book_graph_plan.py:184-198 | A node exists exactly when it was added, under the key of its label and identity |
| GraphStore.PropertyIffOffered | scripts/build_book_graph_plan.py:186-202 | A property is there exactly when some addition offered a value that counts |
| GraphStore.FirstValueWins | scripts/build_book_graph_plan.py:186-202 | Each property keeps the first value offered for it in insertion order |
| GraphStore.RepeatChangesNothing | scripts/build_book_graph_plan.py:176-230 | Any sequence of additions repeated on its own result changes nothing |
| GraphStore.OrderedIsGrounded | scripts/build_book_graph_plan.py:408-541 | If each triple comes after additions of both its ends, every triple of the result joins two nodes |
| GraphStore.LabelsApart | scripts/build_book_graph_plan.py:156-158 | Nodes of different labels never share a graph key |
| GraphPlan.ParseFile | scripts/build_book_graph_plan.py:240-343 | A file yields its records, its summary with the right count, and its issues |
| GraphPlan.ParseRows | scripts/build_book_graph_plan.py:233-344 | All files in order, each summarized even when it fails |
| GraphPlan.FillGraph | scripts/build_book_graph_plan.py:386-541 | The nested loops add exactly the specified sequence of nodes and triples |
| GraphPlan.BuildPlan | scripts/build_book_graph_plan.py:376-590 | The plan holds the resulting graph in key order and may be imported exactly when there are records and no blocking issue |
| GraphPlanLaws.RowsAccounted | scripts/build_book_graph_plan.py:265-323 | Every CSV row is kept as a record, skipped as blank or reported |
| GraphPlanLaws.RecordsAreRows | scripts/build_book_graph_plan.py:264-335 | The records are exactly what the readable rows of files with a matching header say, under line numbers starting at 2 and the digest of file, line and row |
| GraphPlanLaws.IssuesOfFile | scripts/build_book_graph_plan.py:251-343 | What is reported of a file: a wrong header and nothing else, or each row with too many fields, each ISBN text that gave none, and a failing read |
| GraphPlanLaws.SummariesAddUp | scripts/build_book_graph_plan.py:248-335 | Per-file counts add up to the records of the plan |
| GraphPlanLaws.RecordsSummarized | scripts/build_book_graph_plan.py:246-335 | Every record's source file has a summary, hence a node |
| GraphPlanLaws.TriplesHaveBothEnds | scripts/build_book_graph_plan.py:408-541 | Every triple of a built plan joins two of its nodes, the computed READ_FROM key included |
| GraphPlanLaws.ReprocessingChangesNothing | scripts/build_book_graph_plan.py:424-541 | Processing the records twice changes neither nodes nor triples |
| GraphPlanLaws.NodesIgnoreRecordOrder | scripts/build_book_graph_plan.py:424-541 | Which nodes exist does not depend on the order or repetition of the records |
| GraphPlanLaws.TriplesIgnoreRecordOrder | scripts/build_book_graph_plan.py:424-541 | Neither do the triples and what they carry, unless two of them collide in a digest prefix |
| GraphPlanLaws.BookNodeIffRecord | scripts/build_book_graph_plan.py:424-452 | The Book nodes are exactly the books of the records |
| GraphPlanLaws.OneBookPerClaim | scripts/build_book_graph_plan.py:347-452 | Without digest-prefix collisions there is one Book node per distinct pair of ISBN and content |
| GraphContent.TriplesExact | scripts/build_book_graph_plan.py:408-541 | Without edge-digest collisions the graph holds exactly the triples the files and records say, for all eleven relations |
| GraphContent.PlanIsWellTyped | scripts/build_book_graph_plan.py:408-541 | Each of the eleven relations fixes the labels of the nodes at both ends of its triples |
| GraphContent.BookKeepsFirst | scripts/build_book_graph_plan.py:186-202 | Fifteen properties of a Book node each come from the first of its records that has one |
| ProvenanceTrace.RootCarries | scripts/build_book_graph_plan.py:392-406 | The root node carries version, source, input root and digest, and the numbers of files and of records |
| ProvenanceTrace.FileCarries | scripts/build_book_graph_plan.py:408-415 | The node of a file whose key no other file has carries its path, digest, size and number of records |
| ProvenanceTrace.RecordCarries | scripts/build_book_graph_plan.py:450-462 | The node of a record whose key no other record has carries the file, line and row digest it was read from |
| BookTrace.NodeCarries | scripts/build_book_graph_plan.py:469-541 | The node an author, publisher, subject code, keyword, topic or category leads to carries that name or code, up to digest-prefix collisions |
| BookTrace.ReachedIffGiven | scripts/build_mysql_book_plan.py:126-144 | The names a book reaches in a built graph are exactly those its records give it, stripped |
| BookTrace.CatalogSaysRecords | scripts/build_mysql_book_plan.py:107-190 | End to end: every catalog and detail row says of its book what the CSV records of that book say |
| CatalogRows.CollectLinks | scripts/build_mysql_book_plan.py:126-144 | The loop over a book's triples gathers names, the last publisher and category, and the count of missing objects |
| CatalogRows.AddBook | scripts/build_mysql_book_plan.py:107-210 | A book yields its rows and tags, or the one blocker that excludes it |
| CatalogRows.BuildRows | scripts/build_mysql_book_plan.py:89-220 | The loop over books by identifier yields the specified rows and blockers |
| CatalogLaws.BooksInOrder | scripts/build_mysql_book_plan.py:107 | Books are handled by increasing identifier |
| CatalogLaws.SortedBooksCount | scripts/build_mysql_book_plan.py:107 | Selecting and sorting keeps every Book node exactly as often as it occurs |
| CatalogLaws.TablesAligned | scripts/build_mysql_book_plan.py:151-190 | Catalog, detail and index tables list exactly the publishable books in step, each index hash being its own row's digest |
| CatalogLaws.BooksAccounted | scripts/build_mysql_book_plan.py:107-119 | Every book becomes one catalog row or one title or size blocker |
| CatalogLaws.MissingIffAbsent | scripts/build_mysql_book_plan.py:126-131 | A book has no missing-object blocker exactly when all its triples' objects are nodes |
| CatalogLaws.NoObjectMissing | scripts/build_mysql_book_plan.py:126-131 | When every object is a node the only blockers are about titles and sizes |
| CatalogLaws.LinkedNames | scripts/build_mysql_book_plan.py:126-140 | Gathered authors, keywords, topics and codes are exactly the names of the linked nodes |
| CatalogLaws.RowAuthors | scripts/build_mysql_book_plan.py:133-155 | A row's authors are exactly the non-blank names of the author nodes its triples reach |
| CatalogLaws.LastOneWins | scripts/build_mysql_book_plan.py:141-144 | The last found publisher and category are the ones kept |
| CatalogLaws.NoneKept | scripts/build_mysql_book_plan.py:122-144 | A book without a found publisher or category keeps none |
| CatalogLaws.CallNumberIsLeast | scripts/build_mysql_book_plan.py:148-176 | The call number is the least subject code, absent exactly without one |
| CatalogLaws.QualityBounds | scripts/build_mysql_book_plan.py:66-79 | Metadata quality lies in [0,1] and is 1 exactly when all ten checks pass |
| CatalogLaws.DictionaryMatchesTags | scripts/build_mysql_book_plan.py:196-210 | No resource tag without a dictionary entry, no entry without a resource tag, every entry under its own key |
| CatalogLaws.ResourceTagsExact | scripts/build_mysql_book_plan.py:191-210 | The resource tags are exactly those of the published books' keywords, topics and codes |
| CatalogContent.RowsDescribeBooks | scripts/build_mysql_book_plan.py:107-190 | Every row says of its book: authors, keywords, last publisher and category, abstract, year, date, address, ISBN, least subject code, the ten checks, and its index row |
| CatalogContent.TagsAreNames | scripts/build_mysql_book_plan.py:191-210 | The tags are exactly keywords at 1.0 and 0.85, topics at 0.9 and 0.9, subject codes at 0.8 and 0.95, under their prefixed keys |
| CatalogContent.TagsCounted | scripts/build_mysql_book_plan.py:191-210 | There are as many tags as the published books have names, so none is listed twice |
| Embedding.CountBuckets | scripts/build_vector_index_plan.py:75-79 | The array holds how many n-grams fell into each bucket |
| Embedding.EmbeddingVector | scripts/build_vector_index_plan.py:74-88 | The loops compute the specified scaled vector or the empty-embedding error |
| Embedding.BucketsHoldAll | scripts/build_vector_index_plan.py:66-79 | Bucket counts add up to the number of n-grams |
| Embedding.EmptyIffShort | scripts/build_vector_index_plan.py:80-82 | The norm is zero exactly for texts shorter than two characters |
| Embedding.VectorsAreUnit | scripts/build_vector_index_plan.py:80-88 | Every emitted vector has 384 entries and length one |
| Embedding.BucketHoldsPlaces | scripts/build_vector_index_plan.py:66-79 | Before scaling a bucket holds the number of places where an n-gram of two to four characters falls into it |
| Embedding.PlacesInAll | scripts/build_vector_index_plan.py:66-79 | All buckets together hold one hit for each size from two to four and each place where it fits |
| Embedding.VectorOfPlaces | scripts/build_vector_index_plan.py:74-88 | Each entry of the vector is the count of places of its bucket divided by the root of the sum of squared counts |
| VectorRecords.HandleRow | scripts/build_vector_index_plan.py:142-213 | One row adds a record or the first blocker that applies |
| VectorRecords.BuildVectorRecords | scripts/build_vector_index_plan.py:122-228 | The loop over the catalog computes the specified run |
| VectorRecords.RowsAccounted | scripts/build_vector_index_plan.py:142-213 | Each row yields exactly one record or exactly one blocker |
| VectorRecords.IdentifiersDistinct | scripts/build_vector_index_plan.py:137-187 | Emitted external identifiers and vector identifiers are pairwise distinct |
| VectorRecords.VectorKeyReadable | scripts/build_vector_index_plan.py:98-100 | The vector key decodes uniquely into identifier, content hash and version number although external identifiers contain colons |
| VectorRecords.DuplicateVectorUnreachable | scripts/build_vector_index_plan.py:183-186 | With collision-free digests the duplicate-vector branch is never taken |
| VectorContent.DocumentLines | scripts/build_vector_index_plan.py:52-63 | The document is title, joined keywords and abstract, each normalized, on three lines in that order |
| VectorContent.RecordsDescribeRows | scripts/build_vector_index_plan.py:142-213 | Every emitted record is that of one of the rows: its identifiers, hash, versions, document and vector |
| VectorContent.RowByRow | scripts/build_vector_index_plan.py:142-213 | A run without blockers turns each row into the record at its place |
| VectorContent.WarningsCounted | scripts/build_vector_index_plan.py:158-163 | A run without blockers counts the rows without an abstract and the rows without a keyword |
| Pipeline.PlanIsWellBuilt | scripts/build_book_graph_plan.py:376-541 | Nodes of a plan sit under their own keys and triples have both ends |
| Pipeline.CatalogOfPlan | scripts/build_mysql_book_plan.py:89-220 | From a built graph no object is missing, and there is one catalog row per publishable Book node |
| Pipeline.VectorsOfPlan | scripts/build_vector_index_plan.py:122-228 | From such rows no vector blocker occurs at all, and there is one vector per publishable Book node |
| Pipeline.BuildAll | scripts/build_vector_index_plan.py:122-228 | CSV files to vectors: after the graph plan only a blank title or a field limit keeps a book out, the rows are the catalog of the plan, and the vectors are those of the rows, one by one |
| Texts.StripIsMiddle | scripts/build_mysql_book_plan.py:113 | Stripping takes the white space off both ends and nothing else |
| ProfileReplay.ComputeSnapshot | backend/app/profile/replay.py:124-186 | The loop over eligible events and their tags collects the keys of the positive and of the refused-topic signals as of a horizon, and counts the eligible events |
| ProfileReplay.SnapshotIgnoresOrder | backend/app/profile/replay.py:140-145 | Keys and event count depend on which events there are, not on the order they are sorted into |
| ProfileReplay.SnapshotAppend | backend/app/profile/replay.py:153-166 | The snapshot of two lists of events together is put together from their snapshots |
| ProfileReplay.KeysGrow | backend/app/profile/replay.py:140-166 | A later horizon keeps every interest and every negative-preference key |
| ProfileReplay.KeysIgnoreIds | backend/app/profile/replay.py:153-166 | The keys do not depend on the ids the events are stored under |
| ProfileReplay.Contributes | backend/app/profile/replay.py:13-26 | Which event types contribute an interest and which a negative preference |
| FeedbackPlan.ReplayProjection | scripts/build_g5_feedback_http_plan.py:197-316 | The loop over the read events and the two snapshots yield the specified projection, both event counts included |
| FeedbackPlan.SplitDoesNotMatter | scripts/build_g5_feedback_http_plan.py:302-315 | However two nested horizons split the events, together the replays log what the final one sees unlogged |
| FeedbackPlan.FirstReplaySeesAll | scripts/build_g5_feedback_http_plan.py:353-365 | Under the ordering guards the first replay already sees every event of the user |
| FeedbackPlan.LogDeltaExact | scripts/build_g5_feedback_http_plan.py:228-306 | Two replays log the user's unlogged events plus 3 minus the new ids already logged, under whatever new ids the three events are stored |
| FeedbackPlan.LogDeltaRightIff | scripts/build_g5_feedback_http_plan.py:551-556 | What the replays log under any three unused ids is the prediction exactly when none of the ids after the user's largest is logged for someone else, and never less |
| FeedbackPlan.LogDeltaCanFallShort | scripts/build_g5_feedback_http_plan.py:262-306 | A concrete user for whom the prediction is one row short |
| FeedbackPlan.ReplaySnapshot | scripts/build_g5_feedback_http_plan.py:261-301 | Under the guards each of the two replays sees the user's keys and the refused target tags, and the click's interests exactly from the click's time on |
| FeedbackPlan.FrozenFromFacts | scripts/build_g5_feedback_http_plan.py:290-316 | Under the guards the frozen projection is the user's keys with the target's tags, and counts all the user's events and the new ones |
| FeedbackPlan.FrozenDeltasExact | scripts/build_g5_feedback_http_plan.py:163-164 | Under the ordering guards both frozen deltas are exactly the rows the upserts of the two replays insert, under whatever ids the three events are stored |
| FeedbackPlan.TargetSpecs | scripts/build_g5_feedback_http_plan.py:742-775 | Succeeds exactly when every table has a count and a non-negative delta, and then freezes both for each table |
| FeedbackPlan.TargetsAcceptedIff | scripts/execute_g5_feedback_worker_plan.py:169-202 | On targets made from expected deltas the executor's budget checks come down to the cap, which the builder enforces |
| FeedbackPlan.BuildPlan | scripts/build_g5_feedback_http_plan.py:820-958 | A plan is built exactly when the times are in order, the user has at most one profile, every table is counted and the budget is at most 100; it lets each table grow by the rows it asks for there and passes every budget check of its executor |
| FeedbackPlan.BudgetFromFacts | scripts/build_g5_feedback_http_plan.py:870-882 | Under the guards the budget counts the user's unlogged events and the keys of the user's events and of the target's tags that are not there yet |
| FeedbackPlan.DeltasAsked | scripts/build_g5_feedback_http_plan.py:54-66 | Table by table the expected deltas are one row per impression, refusal and state, one per planned event, and the outbox rows, replay runs and transitions of two replays |
| FeedbackPlan.HistoricalDeltas | scripts/build_g5_feedback_http_plan.py:165-172 | Without a projection the two key deltas are at most those of the full replay, and the same exactly when the user's other keys are there already |
| FeedbackRun.RunInserts | backend/app/profile/adapters/refresh_mysql.py:176-369 | The rows the three interactions and two refreshes insert into the eleven tables |
| FeedbackRun.PlanMatchesRunIff | backend/app/profile/adapters/refresh_mysql.py:204-332 | The plan asks for exactly the inserted rows, table by table, exactly when the two horizons differ and none of the next three ids is logged for someone else |
| FeedbackRun.BudgetAgainstRun | scripts/build_g5_feedback_http_plan.py:870-882 | How far the budget is from what is written: two too many at one horizon, one too few for each id logged elsewhere |
| FeedbackRun.OneHorizonOverasks | scripts/build_g5_feedback_http_plan.py:820-825 | A concrete admissible request whose plan asks for one replay run and one transition too many |
| ContinuationBudget.ValidatePlan | scripts/execute_g4_clarification_continuation_plan.py:93-119 | Accepts exactly distinct append targets whose growth is the approved budget of 1 to 128 rows |
| ContinuationBudget.ValidatePreCounts | scripts/execute_g4_clarification_continuation_plan.py:184-192 | Accepts exactly when every target still has its approved count |
| ContinuationBudget.ValidatePostCounts | scripts/execute_g4_clarification_continuation_plan.py:195-216 | Accepts exactly when every target grew by its planned rows and no other table changed |
| ContinuationBudget.BudgetIsSpentExactly | scripts/execute_g4_clarification_continuation_plan.py:101-118 | After an accepted run the whole database has grown by exactly the approved number of rows |
| ContinuationBudget.BuildPlan | scripts/build_g4_clarification_continuation_plan.py:90-149 | A plan is built exactly from positive deltas of known tables within the budget, and then passes its executor's checks |

## Left out

- G12Review.Admits: the admission reads of one executor are taken as one atomic read, although the scripts issue them one by one; the row count of the action table, which none of the three executors writes, is not part of the store.
- G11Identity.Decide: likewise one atomic read.
- AdminIdentity.Decide: the reads before the first write belong to one snapshot and are taken as one read; rows of other accounts, which make both scripts refuse, are not modelled.
- G11Scanner.Validate: the two keyword searches and the recognition of a statement's prefix are inputs; the shipped migration text has no comment in front of an insert, so the row counting of the executors is taken to see every insert.
- G12Executors.Server.ApplySuccessor: the view is created by the session itself instead of a second, container-local connection; the script has nothing pending at that point.
- CatalogRows.BuildRows: the final sorting of the tag dictionary and of the resource tags is not modelled, and neither is the malformed-properties blocker, which needs rows that are not of the node type.
- VectorRecords.BuildVectorRecords: base64 and float32 packing of the vector and the copied metadata of a record.
- GraphPlan.BuildPlan: status texts, counts by label and by relation, and provenance fields of the plan document.
- GraphPlan.ParseFile: splitting and normalizing the cells of a row, which arrives as an already parsed record.
- ProfileReplay.ComputeSnapshot: the signals' weights, counts, times and order, the declared profile and the input hash; a plan freezes only the keys and the event count.
- FeedbackPlan.ReplayProjection: type errors in the frozen facts are excluded by the types.
- FeedbackRun.RunInserts: the run in order and without failures, its replay runs not recorded before it; claims, leases, retries and dead letters of the worker are not modelled, and the digest of a replay's input is represented by the events it read.
- BookTrace.CatalogSaysRecords: supposes that digest prefixes do not collide and that the parsed values are plain, as its two named predicates say.
- ConsentRun.Client.Apply: plan, credential and evidence-file checks before the first request, and the evidence document.
- ContinuationBudget.ValidatePostCounts: stated for target lists that have passed the plan check, as in the script.
- Ndcg.NdcgBounded: over real numbers; floating-point rounding of the scores is not modelled.
- Review proposals of the Work analysis, and properties that are not mappings in its input.
- Plan documents: hashing, JSON schema validation, Git and file checks, environment files, Docker calls.
- The library action facts, online services, and the worker's claims, leases and retries.
- Builders that only assemble a fixed plan dictionary.
