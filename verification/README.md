# A verified model of lbroker and its glob tree

This project models a publish/subscribe broker and the pattern index it relies on, and proves what they keep over
every run.

- **The glob tree** (`glob_tree/src/lib.rs`). `Patterns` says declaratively what one pattern matches: the subject is cut
  into one fitting piece per pattern character. `Counts` gives a tree's value (the count of every node by its path),
  *slack* (a node's count less its children's) and `Listed`, which is what the tree shows. `Operations` gives insert and
  remove as functions on values. `GlobTrees` is the tree itself: nodes on the heap, a cursor, counts updated in place,
  the backtracking matcher, the listing worker with its shared buffer; every method is proved against those functions.
  `Written` holds what is true of the crate exactly as it stands. `CountedTrees` is the same tree with `count` meaning
  what its comment says, and proves that it refines a multiset of patterns. `Encoding` relates characters to bytes,
  and `Documented` compares what the crate documentation promises of a match with what the code answers.
- **The broker** (`lbroker/src/server.rs`). `Broker` is an interleaved state machine over any number of connections: one
  step is one operation on shared state (a DashMap operation, the lifetime of one guard, a broadcast send, a queue
  operation). A topic is an append-only log of which the newest `capacity` entries are retained; a receiver is a cursor
  into it. `BrokerInvariant` and `BrokerSafety` prove an invariant of every behaviour, `BrokerTheorems` what it means
  for publishers and subscribers, `BrokerWitness` gives a reachable state for every exception they make. `BrokerEffects`
  says what each step does to logs, queues and streams, `BrokerProgress` that a connection can always go on and settle. `BrokerRuns`
  says what a run of one connection's steps leads to, and `Handlers` gives the bus and the connection handler as objects
  updated in place: each method of the source is proved to be such a run, from its state before to its state after.
  `Subscriptions` lets a connection hold its patterns either as written or with documented counts; every broker theorem
  covers both.
- **The write loop** (`lbroker/src/server.rs`, `spawn_write_loop`) in `WriteLoop.dfy`, and **the metrics**
  (`lbroker/src/metrics.rs`) in `Metrics.dfy`.

## Where code and documentation differ

The model follows the code.

- The documentation lets `*` stand for any number of characters and `?` for exactly one (`glob_tree/src/lib.rs:20-25`).
  In the code `*` stands for one or more bytes and `?` for one byte, and a literal is compared with single bytes.
  Documentation and code agree on a pattern, for every text, exactly when it is ASCII without wildcards
  (`Documented.AgreeIff`); on ASCII texts, exactly when it has no `*` or is not ASCII itself, and then can match none
  (`Documented.AgreeOnAsciiIff`). `Documented.StarNeedsACharacter` and `QuestionMarkNeedsOneByte` are concrete pairs.
- In particular a literal pattern matches the topic of the same name exactly when the name is ASCII:
  `Encoding.LiteralMatchesItselfIffAscii`.
- `count` is documented as the number of patterns that include a node (`glob_tree/src/lib.rs:52`), but `insert` counts the
  final node twice, and no non-empty pattern and no removal counts at the root. `Written` proves what follows: the
  ledger of every run, when inserted patterns are visible (`ExactVisibility`, `ListsSupportIff`), when an insertion hides
  nothing (`InsertHidesNothingIff`), when a removal undoes an insertion (`RemoveUndoesInsertIff`), and concrete runs in
  which each fails. `CountedTrees` proves that a root increment in place of the final one, and a root decrement in
  `remove`, make the comment true and the tree a multiset.
- `README.md:40` promises at-most-once delivery. That fails on resubscription: a client that subscribes, unsubscribes and
  subscribes again is sent the retained message again (`BrokerWitness.ResubscriptionRepeats`). Only that message can come
  twice (`BrokerTheorems.InOrderOnceUnlessResubscribed`), a step sends an entry again exactly when it hands over a
  retained message that an earlier episode had already enqueued (`RepeatsIff`), and a connection that never comes back to
  a topic has every message at most once (`AtMostOnce`).
- Subscribers are promised the retained state of the topics they match (`lbroker/src/server.rs:38-40`, `README.md:42`).
  A connection whose receiver of topic events lags never hears of a topic whose events it skipped, until its next
  subscription, with documented counts as well. The field `missed` holds the topics of the skipped events, and coverage
  is promised for all others; `BrokerTheorems.LagUncoversIff` says exactly which topics a lag loses, and
  `BrokerWitness.SkippedEventIsLost` is a reachable settled state that has lost one.
- As written, removing a pattern can bring the empty pattern back into the list, exactly when the root's slack is 0 and
  the pattern is listed and not empty (`Written.RemoveMatchesMoreIff`); nothing else ever starts to match. Unsubscribing
  lists no topics, so the empty topic may then go without a stream. The flag `revealed` records that guard until the topics
  are listed again, and coverage, convergence and stream-set agreement hold for every topic but the empty one while it
  is set. `BrokerTheorems.UnsubscribeUncoversIff` says exactly when an unsubscription loses a
  topic, and `BrokerWitness.CoverageFailsForEmptyTopic` is a reachable settled state that has lost it.
- As written, an insertion may hide a pattern, and streams of topics that no longer match stay until the next
  unsubscribe, still delivering (`BrokerWitness.HiddenTopicIsDelivered`). `BrokerTheorems.SubscribeStrandsIff` says exactly
  which streams a subscription strands. The flag `hidden` records that the guard of `InsertHidesNothingIff` failed since
  streams were last pruned. With documented counts neither flag is ever set (`BrokerTheorems.CountedIsGoverned`), and the
  theorems hold without them.
- A retained message handed over at subscribe time is dropped when the client's queue is full, against the promise that
  a subscriber is sent the last message (`README.md:42`). Convergence holds unless that happened and no earlier episode had
  enqueued the message (`BrokerTheorems.ConvergesIff`); `BrokerWitness.DroppedMessageIsMissed` is a reachable state in which
  it fails.
- A stream that lags skips messages: an episode is without gap if and only if it never lagged and its retained message was
  not dropped (`BrokerTheorems.LiveEpisodeIff`); `BrokerWitness.LagLeavesGap` is a reachable state with a gap.
- The repository's `README.md:43` moves a lagging cursor to the most recent message; the broadcast channel moves it to
  the oldest retained one. The model does the latter.
- `list_topics` is not a snapshot: its iteration meets every topic present when it began and possibly others created
  meanwhile. The model allows every such result.

## Model

| member | source | states |
|---|---|---|
| `Patterns.EmptyPatternMatches` | glob_tree/src/lib.rs:181-184 | the empty pattern matches the empty subject and no other |
| `Patterns.NonEmptyPatternNeedsSubject` | glob_tree/src/lib.rs:132-135 | no non-empty pattern matches the empty subject |
| `Patterns.MatchesUnfold` | glob_tree/src/lib.rs:137-178 | the cut-into-pieces meaning of a match, taken apart one subject character at a time: the first token accepts it, and then the pattern advances or a `*` stays |
| `Documented.LiteralsAreThere` | glob_tree/src/lib.rs:20-25 | a text that a pattern is documented to match holds every literal character at least as often as the pattern |
| `Documented.FreeByte` | glob_tree/src/lib.rs:137-142 | a matched subject with more bytes outside ASCII than the pattern has such characters leaves one to a wildcard, and any other byte would match in its place |
| `Documented.StarDiffers` | glob_tree/src/lib.rs:131-147 | for every ASCII pattern with a `*` there is an ASCII text it is documented to match and does not |
| `Documented.QuestionMarkDiffers` | glob_tree/src/lib.rs:125-139 | for every pattern with a `?` and no `*` there is a text on which documentation and code differ |
| `Documented.HighDiffers` | glob_tree/src/lib.rs:125-139 | for every pattern with a character outside ASCII there is a text on which documentation and code differ |
| `Documented.AgreeIff` | glob_tree/src/lib.rs:20-25 | documentation and code agree on a pattern, for every text, if and only if it is ASCII without wildcards |
| `Documented.AgreeOnAsciiIff` | glob_tree/src/lib.rs:20-25 | they agree on every ASCII text if and only if the pattern has no `*` or is not ASCII |
| `Documented.StarNeedsACharacter` | glob_tree/src/lib.rs:131-147 | `foo*` is documented to match `foo`, and does not |
| `Documented.QuestionMarkNeedsOneByte` | glob_tree/src/lib.rs:125-139 | `foo?` is documented to match `foo` followed by an accented e, and does not |
| `Patterns.MatchLength` | glob_tree/src/lib.rs:132-145 | a matched subject has at least as many characters as the pattern |
| `Encoding.Utf8` | glob_tree/src/lib.rs:126 | every character has one to four byte values, a single one exactly for ASCII, and then the character itself |
| `Encoding.CodeOfUtf8` | glob_tree/src/lib.rs:126 | the bytes of a character spell its code, so no two characters share them |
| `Encoding.Rfc3629Examples` | glob_tree/src/lib.rs:126 | the encoding gives the bytes of the examples in section 7 of RFC 3629 |
| `Encoding.Utf8Separates` | glob_tree/src/lib.rs:126 | the first byte tells where a character ends: texts that start with the same bytes start with the same character |
| `Encoding.BytesSeparate` | glob_tree/src/lib.rs:126 | different texts are different subjects |
| `Encoding.LiteralMatches` | glob_tree/src/lib.rs:137-142 | a pattern without wildcards matches itself and nothing else |
| `Encoding.LiteralMatchesItselfIffAscii` | glob_tree/src/lib.rs:125-139 | a literal pattern matches the bytes of the same text if and only if the text is ASCII |
| `Counts.ChildSumDelta` | glob_tree/src/lib.rs:82-84 | changing one child changes the child count of its parent by that child's difference, whatever the number of children |
| `Counts.ListedIffSlack` | glob_tree/src/lib.rs:87-89 | a pattern is terminal in a well-formed tree exactly when its slack is positive; absent nodes have none |
| `Counts.CheckIsFoundAtRoot` | glob_tree/src/lib.rs:125-127 | some listed pattern matches s exactly when the search from the root at position 0 finds one |
| `Counts.RootStep` | glob_tree/src/lib.rs:145-184 | at the root, which consumes nothing, a match exists exactly through one of the three children that accept the next character, or by the empty pattern at the end |
| `Counts.NodeStep` | glob_tree/src/lib.rs:129-184 | at an inner node, what the search finds is decided by the token, the three accepting children, and for `*` the node itself one position on: the branches tried are complete and their order does not matter |
| `Operations.WalkedSlack` | glob_tree/src/lib.rs:208-219 | the cursor walk of an insertion alone takes one from the root's slack and gives one to the last node |
| `Operations.InsertSlack` | glob_tree/src/lib.rs:205-223 | as written, inserting p adds two to p's slack (one for ""), takes one from its parent and one from the root, and changes no other node |
| `Operations.InsertedGet` | glob_tree/src/lib.rs:205-223 | as written, every node on the path gains one reference, the last one two; exactly the missing path nodes are created |
| `Operations.InsertedWellFormed` | glob_tree/src/lib.rs:205-223 | insertion leaves no orphan and no unreferenced node below the root |
| `Operations.RemovedGet` | glob_tree/src/lib.rs:256-270 | removal takes one reference from each path node before the cut, and drops exactly the nodes at or below the first with a single reference |
| `Operations.RemoveSlack` | glob_tree/src/lib.rs:252-271 | as written, removal takes one from p's slack and gives one to the root, cut-off nodes end with none, all others keep theirs |
| `Operations.RemovedWellFormed` | glob_tree/src/lib.rs:252-271 | removal leaves no orphan and every remaining node below the root referenced: no decrement underflows |
| `Operations.CountedInsertSlack` | glob_tree/src/lib.rs:52-53 | with documented counts, insertion adds one to p's slack and changes no other |
| `Operations.CountedRemoveSlack` | glob_tree/src/lib.rs:52-53 | with documented counts, removal takes one from p's slack and from no other node that stays |
| `Listing.AppendChild` | glob_tree/src/lib.rs:113-116 | the next child's listing goes behind those of the smaller children, keeping the order strict and the contents exact |
| `Listing.PartIsListing` | glob_tree/src/lib.rs:113-116 | once all children are visited the listing below a node is complete |
| `Listing.IncreasingHasNoDuplicates` | glob_tree/src/lib.rs:247-249 | a strictly increasing listing has no duplicates |
| `GlobTrees.Node.constructor` | glob_tree/src/lib.rs:57-63 | a new node has no children and count 1 |
| `GlobTrees.Node.InsertChild` | glob_tree/src/lib.rs:65-69 | a child goes under its token; one without a token is dropped |
| `GlobTrees.Node.IncrementCount` | glob_tree/src/lib.rs:72-74 | one reference more |
| `GlobTrees.Node.DecrementCount` | glob_tree/src/lib.rs:77-79 | one reference less; every call in the tree is shown not to underflow |
| `GlobTrees.GlobTree.TerminalIffListed` | glob_tree/src/lib.rs:82-89 | a heap node is terminal exactly when the tree's value lists its path |
| `GlobTrees.GlobTree.constructor` | glob_tree/src/lib.rs:194-202 | a new tree is a root with count 0 |
| `GlobTrees.GlobTree.StepIn` | glob_tree/src/lib.rs:209-218 | one cursor step of insert on the heap: the child gains a reference or is created with one, nothing else changes, and the structure stays a tree |
| `GlobTrees.GlobTree.WalkIn` | glob_tree/src/lib.rs:207-219 | the whole loop adds one reference along the pattern's path and ends at its node |
| `GlobTrees.GlobTree.Insert` | glob_tree/src/lib.rs:205-223 | insert in place refines the function `Inserted` on values |
| `GlobTrees.GlobTree.Contains` | glob_tree/src/lib.rs:231-244 | contains is true exactly for listed patterns |
| `GlobTrees.GlobTree.Cut` | glob_tree/src/lib.rs:260-263 | removing a child takes exactly its subtree and leaves a tree |
| `GlobTrees.GlobTree.StepOut` | glob_tree/src/lib.rs:259-268 | one cursor step of remove: cut at count 1, one reference less otherwise, and the cursor moves to the child |
| `GlobTrees.GlobTree.WalkOut` | glob_tree/src/lib.rs:257-270 | the whole loop with its early return is the function `Removed` on values |
| `GlobTrees.GlobTree.Remove` | glob_tree/src/lib.rs:252-271 | remove succeeds exactly for listed patterns; otherwise it reports "Not found" and changes nothing |
| `GlobTrees.GlobTree.WorkerStep` | glob_tree/src/lib.rs:129-185 | one call of the matching worker in terms of the declarative matches at or below the node |
| `GlobTrees.GlobTree.MatchWorker` | glob_tree/src/lib.rs:129-185 | the backtracking worker terminates on every tree and subject (remaining length, then root before other nodes) and answers whether some listed pattern at or below the node matches the rest |
| `GlobTrees.GlobTree.Check` | glob_tree/src/lib.rs:226-228 | check(s) if and only if some listed pattern matches s |
| `GlobTrees.GlobTree.ListStringsWorker` | glob_tree/src/lib.rs:102-122 | the worker gives the shared buffer back as it was and only appends to the output: the listed patterns at or below its node, strictly increasing |
| `GlobTrees.GlobTree.ListChildren` | glob_tree/src/lib.rs:113-116 | the children's loop, in key order, completes the listing of its node |
| `GlobTrees.GlobTree.List` | glob_tree/src/lib.rs:247-249 | list is strictly increasing and holds p exactly when p is listed, that is when contains(p) |
| `Written.CountLedger` | glob_tree/src/lib.rs:57-89 | over every run, each live node below the root has a count of at least 1 and slack = 2 inserts - removes - one-character extensions since it was created |
| `Written.ListedIffBalance` | glob_tree/src/lib.rs:82-89 | over every run, a non-empty pattern is listed exactly when its ledger balance is positive |
| `Written.RootCount` | glob_tree/src/lib.rs:220-222 | over every run, the root counts the insertions of "" alone |
| `Written.RootListedIffBalance` | glob_tree/src/lib.rs:82-89 | over every run, "" is listed if and only if its copies, less two per insertion of one character and one per longer insertion, plus one per successful removal of a non-empty pattern, are positive |
| `Written.ListedWasInserted` | glob_tree/src/lib.rs:205-271 | over every run, a listed pattern was inserted at some time |
| `Written.CheckWasInserted` | glob_tree/src/lib.rs:225-228 | over every run, a positive check has an inserted pattern behind it that matches |
| `Written.InsertOnlyNodes` | glob_tree/src/lib.rs:208-219 | insert-only: a node below the root exists exactly for the prefixes of inserted patterns |
| `Written.InsertOnlyCounts` | glob_tree/src/lib.rs:205-223 | insert-only: a node's count is the patterns with that prefix plus the copies ending there |
| `Written.InsertOnlySlack` | glob_tree/src/lib.rs:82-89 | insert-only: slack is twice the copies less the one-character extensions; for "" its copies less the root's child count |
| `Written.ExactVisibility` | glob_tree/src/lib.rs:82-89 | insert-only: w is listed if and only if its one-character extensions are fewer than twice its copies, and "" if and only if its copies outnumber the references to the root's children |
| `Written.ListsSupportIff` | glob_tree/src/lib.rs:205-249 | insert-only: list is exactly what was inserted if and only if every inserted pattern is visible in that sense |
| `Written.RunOfInserts` | glob_tree/src/lib.rs:205-223 | the insert-only results are about the runs without a removal |
| `Written.InsertListsOnlyItself` | glob_tree/src/lib.rs:205-223 | an insertion brings no other pattern into the list, and its own exactly when its slack was not too negative |
| `Written.InsertBringsIff` | glob_tree/src/lib.rs:205-223 | a subject that does not match starts to when p is inserted if and only if p matches it and gets listed, which its slack before decides |
| `Written.InsertHidesNothingIff` | glob_tree/src/lib.rs:205-223 | an insertion hides no listed pattern if and only if neither the parent nor the root is on the brink |
| `Written.InsertUnlistsIff` | glob_tree/src/lib.rs:205-223 | an insertion takes w off the list if and only if w is the parent with slack 1, or the root with slack 1 (or 2 when p is one character) |
| `Written.InsertTakesAwayIff` | glob_tree/src/lib.rs:205-223 | a subject stops to match if and only if every listed pattern that matches it is on that brink and the inserted one, if it gets listed, does not match it |
| `Written.RemoveFrame` | glob_tree/src/lib.rs:252-271 | a removal lists no new non-empty pattern; a listed q other than p and "" stays listed if and only if it is not in the cut-off subtree; a listed "" stays |
| `Written.RemoveUnlistsIff` | glob_tree/src/lib.rs:252-271 | a successful removal of p takes q off the list if and only if q is in the cut-off subtree, or is p itself with slack 1 and not empty |
| `Written.RemoveEndsIff` | glob_tree/src/lib.rs:252-271 | a subject stops to match when p is removed if and only if p is listed and every listed pattern that matches the subject goes with it |
| `Written.OnlyEmptyMatchesEmpty` | glob_tree/src/lib.rs:181-184 | the empty subject matches exactly when the root has positive slack |
| `Written.RemoveRevealsIff` | glob_tree/src/lib.rs:252-271 | a removal of p makes a subject match that did not if and only if the subject is empty, p is listed and not empty, and the root has slack 0 |
| `Written.RemoveMatchesMoreIff` | glob_tree/src/lib.rs:252-271 | a removal makes any subject match that did not if and only if p is listed and not empty and the root has slack 0 |
| `Written.RemoveUndoesInsertIff` | glob_tree/src/lib.rs:205-271 | insert then remove takes p off the list if and only if its slack was negative or its parent did not exist |
| `Written.ExtensionsHidePattern` | glob_tree/src/lib.rs:220-222 | after inserting "a", "ab", "ac", the pattern "a" is not listed |
| `Written.ExtensionsHideTopic` | glob_tree/src/lib.rs:220-228 | and the subject "a", which matched after the first insertion, matches no more |
| `Written.PatternSurvivesRemove` | glob_tree/src/lib.rs:252-271 | "a" inserted once survives one removal |
| `Written.SecondRemoveTakesSibling` | glob_tree/src/lib.rs:260-263 | with "ab" and "ac" stored, removing "ab" twice takes "ac" along |
| `Written.EmptyTopicReturns` | glob_tree/src/lib.rs:252-271 | after inserting "" and "a", removing "a" twice makes "" match again |
| `CountedTrees.ThroughAdd` | glob_tree/src/lib.rs:52-53 | adding a pattern adds one to the patterns that include each of its prefixes, independent of the order they are counted in |
| `CountedTrees.InsertRefines` | glob_tree/src/lib.rs:205-223 | documented counts: insertion adds one copy to the multiset, and every count stays the number of patterns through its node |
| `CountedTrees.CutOffIsUnstored` | glob_tree/src/lib.rs:260-263 | documented counts: deleting a whole subtree at count 1 loses only the removed pattern |
| `CountedTrees.RemoveRefines` | glob_tree/src/lib.rs:252-271 | documented counts: removal takes away exactly one copy |
| `CountedTrees.RefinedBehaviour` | glob_tree/src/lib.rs:225-249 | documented counts: listed is stored, and a subject matches exactly when some stored pattern matches it |
| `CountedTrees.FullRefinement` | glob_tree/src/lib.rs:205-271 | documented counts: over every run of insert and remove the tree refines the multiset of what is stored |
| `CountedTrees.StoredIsGreatestSurplus` | glob_tree/src/lib.rs:205-271 | documented counts: the copies of p after a run are the greatest surplus of insertions over removals of p in any final stretch of it |
| `CountedTrees.ListedIffSurplus` | glob_tree/src/lib.rs:205-271 | documented counts: over every run p is listed if and only if some final stretch inserts it more often than it removes it |
| `CountedTrees.PutIn` | glob_tree/src/lib.rs:205-223 | the repaired insertion on the heap: a root increment, then the crate's walk |
| `CountedTrees.TakeOut` | glob_tree/src/lib.rs:256-270 | the repaired removal on the heap: a root decrement, then the crate's walk |
| `CountedTrees.PutInStored` | glob_tree/src/lib.rs:205-223 | on a heap tree that holds a multiset, the repaired insertion adds one copy |
| `CountedTrees.TakeOutStored` | glob_tree/src/lib.rs:256-270 | on a heap tree that holds a multiset, the repaired removal takes away one copy |
| `CountedTrees.CountedTree.Insert` | glob_tree/src/lib.rs:205-223 | documented counts: the stored multiset gains one copy |
| `CountedTrees.CountedTree.Remove` | glob_tree/src/lib.rs:252-271 | documented counts: succeeds exactly for stored patterns and takes one copy |
| `CountedTrees.CountedTree.Contains` | glob_tree/src/lib.rs:231-244 | documented counts: contains is membership in the multiset |
| `CountedTrees.CountedTree.List` | glob_tree/src/lib.rs:247-249 | documented counts: list is the support of the multiset, strictly increasing |
| `CountedTrees.CountedTree.Check` | glob_tree/src/lib.rs:226-228 | documented counts: check(s) if and only if some stored pattern matches s |
| `Subscriptions.NoSubsMatchNothing` | lbroker/src/server.rs:194 | a new connection matches no topic |
| `Subscriptions.RemoveStartsMatchIff` | lbroker/src/server.rs:273-274 | unsubscribing makes a topic match that did not if and only if the topic is empty and, as written, the removal brings the empty pattern back |
| `Subscriptions.RemoveEndsMatchIff` | lbroker/src/server.rs:273-274 | unsubscribing ends the match of a topic if and only if, as written, the pattern is listed and every listed pattern that matches goes with it, and with documented counts, the pattern has one copy and alone matches |
| `Subscriptions.InsertEndsMatchIff` | lbroker/src/server.rs:262-263 | subscribing ends the match of exactly the topics that, as written, only patterns on the brink matched; with documented counts of none |
| `Subscriptions.InsertStartsMatchIff` | lbroker/src/server.rs:262-263 | subscribing starts the match of a topic if and only if the pattern matches it and, as written, gets listed |
| `Subscriptions.InsertTakesEffect` | lbroker/src/server.rs:262-263 | a pattern that takes effect matches after the subscription what it matches |
| `Subscriptions.InsertAddsOne` | lbroker/src/server.rs:262-263 | subscribing adds one reference to every node on the path and one to the last, or one copy to the multiset, and nothing else |
| `Subscriptions.RemoveTakesOne` | lbroker/src/server.rs:273-274 | unsubscribing takes one reference from every node on the path up to the first with a single one, which goes, or one copy from the multiset, and nothing if the pattern is not there |
| `Subscriptions.InsertGrows` | lbroker/src/server.rs:262-263 | subscribing keeps every match when it hides no pattern |
| `BrokerInvariant.StepBus` | lbroker/src/server.rs:94-137 | every step keeps retained message = last of the log, distinct senders and events naming topics; topics are never replaced, logs and events only grow |
| `BrokerInvariant.ConnFrame` | lbroker/src/server.rs:94-137 | nothing that others do to the bus breaks a connection's own invariant |
| `BrokerInvariant.SubscribeConn` | lbroker/src/server.rs:262-263 | subscribing keeps a connection's invariant, recording whether a pattern may have been hidden |
| `BrokerInvariant.UnsubscribeConn` | lbroker/src/server.rs:273-283 | unsubscribing keeps it, and leaves streams for matching topics only |
| `BrokerInvariant.NextTopicConn` | lbroker/src/server.rs:314-338 | the handler's subscribe_to_topic keeps it: a new stream starts at the end of its log, in a new episode |
| `BrokerInvariant.SeedConn` | lbroker/src/server.rs:324-332 | enqueueing or dropping the retained message keeps it |
| `BrokerInvariant.TakeMessageConn` | lbroker/src/server.rs:225-227 | taking the next message of a stream keeps it |
| `BrokerInvariant.LagStreamConn` | lbroker/src/server.rs:232-235 | a lagging stream jumps to the oldest retained message, which is short of the newest |
| `BrokerInvariant.ForwardConn` | lbroker/src/server.rs:341-346 | enqueueing a live message keeps order, contents and contiguity |
| `BrokerInvariant.SendConn` | lbroker/src/server.rs:94-137 | every stage of send and create_topic keeps it, and the "Topic not found" branch is never taken |
| `BrokerInvariant.StepConn` | lbroker/src/server.rs:199-346 | every step of a connection keeps its own invariant |
| `BrokerSafety.AnnouncingKept` | lbroker/src/server.rs:124-134 | a publisher leaves its announcing point only by announcing, and a new topic puts its publisher there |
| `BrokerSafety.OthersCovered` | lbroker/src/server.rs:94-137 | coverage of every other connection survives a step |
| `BrokerSafety.MoverCovered` | lbroker/src/server.rs:262-338 | coverage of the moving connection survives its step |
| `BrokerSafety.ConnectInv` | lbroker/src/server.rs:184-197 | a new connection, which hears events from now on and matches nothing, keeps the invariant |
| `BrokerSafety.DisconnectInv` | lbroker/src/server.rs:214-242 | so does one that leaves |
| `BrokerSafety.ActionInv` | lbroker/src/server.rs:94-346 | every action keeps the whole invariant, and the bus only grows |
| `BrokerSafety.Safety` | lbroker/src/server.rs:94-346 | the invariant holds in every state of every interleaving of any number of connections |
| `BrokerTheorems.Coverage` | lbroker/src/server.rs:116-137 | between loop iterations every matching topic has a stream, or a pending Created event, or a publisher about to announce it, unless an event of it was skipped since topics were last listed or, for the empty topic as written, a removal brought the empty pattern back since then |
| `BrokerTheorems.LagUncoversIff` | lbroker/src/server.rs:221-223 | a lag of the topic events loses a topic if and only if it matches, has no stream and no publisher about to announce it, and has an event among the skipped but none among the retained |
| `BrokerTheorems.CountedIsGoverned` | lbroker/src/server.rs:262-283 | with documented counts only a skipped event excepts a topic from coverage, and no pattern is ever hidden |
| `BrokerTheorems.UnsubscribeUncoversIff` | lbroker/src/server.rs:273-283 | unsubscribing loses a topic if and only if it is the empty one, the removal brings the empty pattern back, and the topic exists without a stream, a pending event or a publisher about to announce it |
| `BrokerTheorems.SettledHasStream` | lbroker/src/server.rs:262-271 | once events are drained and nobody is mid-send, every matching topic has a stream, with the exceptions of Coverage |
| `BrokerTheorems.Convergence` | lbroker/src/server.rs:314-346 | then, with the topic's stream drained and its retained message not dropped, the last message enqueued on it is the newest of its log, even after lag |
| `BrokerTheorems.ConvergesIff` | lbroker/src/server.rs:314-346 | in the same situation with drops included, the newest entry is the last enqueued if and only if the retained message was not dropped or an earlier episode had enqueued it |
| `BrokerTheorems.InOrderOnceUnlessResubscribed` | lbroker/src/server.rs:225-236 | over a connection's whole life enqueued messages of a topic are log entries whose indices never go back; an index comes again only as the retained message of a later episode, never within one |
| `BrokerTheorems.AtMostOnce` | README.md:40 | a connection with at most one episode per topic has strictly increasing indices: at-most-once delivery |
| `BrokerTheorems.RepeatsIff` | lbroker/src/server.rs:314-346 | a step enqueues an entry enqueued before if and only if it hands a retained message to a client with room in its queue and an earlier episode had enqueued that entry |
| `BrokerTheorems.GapFreeEpisode` | lbroker/src/server.rs:101-149 | in an episode without lag or drop the messages enqueued are one contiguous log segment from the message retained at subscribe time, up to the cursor while it lasts |
| `BrokerTheorems.LiveEpisodeIff` | lbroker/src/server.rs:225-236 | while an episode lasts and nothing is in flight, what was enqueued is everything from the retained message up to the cursor if and only if the stream never lagged and its retained message was not dropped; otherwise it falls short |
| `BrokerTheorems.StreamsMatch` | lbroker/src/server.rs:273-283 | streams exist only for topics that exist and match; as written, until an insertion may have hidden a pattern |
| `BrokerTheorems.StreamSetAgreement` | lbroker/src/server.rs:262-312 | once settled, the streams are exactly the existing topics that match, with the exceptions of Coverage and, as written, unless a pattern may be hidden |
| `BrokerTheorems.SubscribeStrandsIff` | lbroker/src/server.rs:262-283 | a subscription leaves a stream whose topic stops to match if and only if, as written, only patterns on the brink matched it and the new one does not; the next unsubscription takes it away unless it matches again |
| `BrokerTheorems.OnlyMatchingEnqueued` | lbroker/src/server.rs:225-346 | a step enqueues at most one message, and only of a topic with a stream; that topic matches at that moment, as written unless an insertion may have hidden a pattern |
| `BrokerTheorems.TopicsOnlyGrow` | lbroker/src/server.rs:94-137 | between any two states of a behaviour topics are only added, keep their sender, and logs and events only grow |
| `BrokerTheorems.RacingCreators` | lbroker/src/server.rs:94-137 | every event names a topic, every topic has an event once its creators are done, every receiver belongs to the sender in the map, and no send returned its error |
| `BrokerEffects.PublicationEndsInLog` | lbroker/src/server.rs:94-137 | whatever others do meanwhile, each step of a send comes closer to its end without touching a log, and the last one leaves the topic existing and the message at the end of its log and retained |
| `BrokerEffects.LogsGainPublications` | lbroker/src/server.rs:101-111 | no action changes any log but by the last step of a publication, which appends its message to its topic |
| `BrokerEffects.LogIsPublications` | lbroker/src/server.rs:94-137 | over every behaviour a log is the messages whose publication has ended, in that order, each once |
| `BrokerTheorems.DuplicateEventIsHarmless` | lbroker/src/server.rs:307-320 | an event for a topic that has a stream or does not match changes nothing but the event cursor, whatever happens to the bus between its steps |
| `BrokerTheorems.RetainedIsNewest` | lbroker/src/server.rs:58-64 | outside a guard, last_message is the last of the log, and none exactly while the log is empty |
| `BrokerTheorems.SubscriptionPairs` | lbroker/src/server.rs:145-149 | subscribing pairs a cursor k with exactly log[k-1], and with none exactly when k is 0 |
| `BrokerEffects.EnqueuesIff` | lbroker/src/server.rs:225-346 | a step enqueues something if and only if it forwards a live message or hands a retained one to an open queue with room; it is the log's entry just before the stream's cursor |
| `BrokerEffects.TakenIsNext` | lbroker/src/server.rs:225-227 | the message taken from a stream is the one at its cursor, which moves on by one |
| `BrokerEffects.LagMovesToOldest` | lbroker/src/server.rs:232-235 | a stream behind what is retained moves to the oldest retained entry |
| `BrokerEffects.UncleanIff` | lbroker/src/server.rs:225-338 | an episode stops being clean if and only if its stream lags or its retained message is dropped |
| `BrokerEffects.QueueLedger` | lbroker/src/server.rs:330-345 | the client's queue grows by what is enqueued, shrinks by what is taken, and never exceeds its capacity |
| `BrokerEffects.HiddenIff` | lbroker/src/server.rs:262-283 | the record of hidden patterns is set if and only if an insertion took a listed pattern off the list since the last unsubscription |
| `BrokerEffects.RevealedIff` | lbroker/src/server.rs:262-283 | the record of the empty pattern is set if and only if a removal made some topic match since the topics were last listed |
| `BrokerEffects.MissedIff` | lbroker/src/server.rs:221-223 | the record of missed topics holds exactly those of the events skipped since the topics were last listed |
| `BrokerEffects.NewConnectionIsFresh` | lbroker/src/server.rs:184-197 | a new connection matches and has heard of nothing, and will hear of every topic announced from now on |
| `BrokerProgress.BusyGoesOn` | lbroker/src/server.rs:199-346 | a connection in the middle of something always has a next step; only a live message may have to wait for room |
| `BrokerProgress.IdleGoesOn` | lbroker/src/server.rs:202-238 | between iterations commands are taken, topic events exactly when there are unseen ones, and messages exactly when a stream is not drained |
| `BrokerProgress.FinishTask` | lbroker/src/server.rs:199-346 | a connection whose client listens can finish whatever it is doing by its own steps |
| `BrokerProgress.CanSettle` | lbroker/src/server.rs:199-346 | from every reachable state such a connection can by its own steps see every event and drain every stream, and is then settled if nobody else is mid-send |
| `BrokerWitness.CoverageFailsForEmptyTopic` | lbroker/src/server.rs:273-283 | as written, a reachable settled connection matches the topic "" and has no stream, no event and no publisher to hear of it from |
| `BrokerWitness.SkippedEventIsLost` | lbroker/src/server.rs:221-223 | with documented counts, a reachable settled connection that matches a topic whose event it skipped, without a stream or any way of hearing of it |
| `BrokerWitness.ResubscriptionRepeats` | lbroker/src/server.rs:322-332 | a reachable connection with documented counts that was sent one entry of a log twice |
| `BrokerWitness.LagLeavesGap` | lbroker/src/server.rs:232-235 | a reachable connection that was sent two entries of one episode with a skipped one between them |
| `BrokerWitness.DroppedMessageIsMissed` | lbroker/src/server.rs:330-332 | a reachable settled connection, its stream drained, whose last enqueued message is not the newest: the retained one was dropped |
| `BrokerWitness.HiddenTopicIsDelivered` | lbroker/src/server.rs:225-236 | as written, a reachable connection about to enqueue a message of a stream whose topic no pattern matches any more |
| `BrokerRuns.LeadsOk` | lbroker/src/server.rs:199-346 | any run of a connection's steps keeps the bus in order and the connection's invariant |
| `BrokerRuns.CreateAlone` | lbroker/src/server.rs:116-137 | the run of create_topic adds and announces a missing topic and does nothing to an existing one |
| `BrokerRuns.PublishAlone` | lbroker/src/server.rs:94-113 | the run of send creates the topic if need be, then retains and broadcasts the message |
| `BrokerRuns.VisitRun` | lbroker/src/server.rs:265-270 | the loop over a list of topics is a run of NextTopic and Seed steps |
| `BrokerRuns.VisitAllSubscribes` | lbroker/src/server.rs:265-270 | after that loop every listed matching topic that exists has a stream |
| `BrokerRuns.SubscribeAlone` | lbroker/src/server.rs:262-271 | the run of a Subscribe command: the pattern, the listing, the loop |
| `BrokerRuns.EventAlone` | lbroker/src/server.rs:221-223 | the run of a topic event: the cursor, then the visit of that topic |
| `Handlers.SharedBus.CreateTopic` | lbroker/src/server.rs:116-137 | create_topic in place: true exactly for a new topic, with the new state of the bus |
| `Handlers.SharedBus.Send` | lbroker/src/server.rs:94-113 | send in place never errs, is the run of the machine's send, and appends the message to its topic's log and to no other |
| `Handlers.SharedBus.AppendMessage` | lbroker/src/server.rs:101-111 | under the guard, the message becomes the retained one and the last of the log |
| `Handlers.SharedBus.ListTopics` | lbroker/src/server.rs:153-158 | exactly the topics, each once |
| `Handlers.ConnectionHandler.constructor` | lbroker/src/server.rs:184-197 | a new handler is the machine's new connection: no patterns, no streams, events from now on |
| `Handlers.ConnectionHandler.SubscribeToTopic` | lbroker/src/server.rs:314-338 | subscribe_to_topic in place is NextTopic followed by Seed |
| `Handlers.ConnectionHandler.SeedQueue` | lbroker/src/server.rs:330-332 | try_send enqueues the retained message or marks it dropped |
| `Handlers.ConnectionHandler.VisitTopic` | lbroker/src/server.rs:266-270 | one round of the loop: subscribe if the real tree matches the name |
| `Handlers.ConnectionHandler.HandleSubscribe` | lbroker/src/server.rs:262-271 | handle_subscribe on the real glob tree is the machine's run Subscribe, FinishListing, visits, FinishSubscribing; afterwards every existing matching topic has a stream, among them all that the pattern matches if its slack before lets it be listed, and the invariant holds |
| `Handlers.ConnectionHandler.SubscribeToAll` | lbroker/src/server.rs:266-270 | its loop checks each topic against the tree and visits those that match |
| `Handlers.ConnectionHandler.HandleUnsubscribe` | lbroker/src/server.rs:273-283 | handle_unsubscribe on the real glob tree is the machine's Unsubscribe step; which streams it drops is decided by the tree before: those whose match the removal ends, and stranded ones unless the empty topic is brought back |
| `Handlers.ConnectionHandler.HandlePublish` | lbroker/src/server.rs:285-297 | handle_publish is the machine's run of a publication |
| `Handlers.ConnectionHandler.HandleTopicEvent` | lbroker/src/server.rs:299-305 | taking a topic event is the machine's run of it; afterwards the topic has a stream if it matches |
| `Handlers.ConnectionHandler.DropUnmatched` | lbroker/src/server.rs:277-282 | its loop drops exactly the streams of topics that no longer match |
| `Handlers.ConnectionHandler.HandleNewTopic` | lbroker/src/server.rs:307-312 | handle_new_topic is the visit of that one topic |
| `WriteLoops.JoinedPrefix` | lbroker/src/server.rs:424-467 | bytes dequeued earlier stay where they are when more is dequeued |
| `WriteLoops.BufWriter.Offer` | lbroker/src/server.rs:427 | one write puts on the wire what the socket takes of the data, and meets its error exactly when that is nothing |
| `WriteLoops.BufWriter.Flush` | lbroker/src/server.rs:435 | flushing only moves bytes from the buffer to the wire, all of them unless the socket meets its error |
| `WriteLoops.BufWriter.WriteAll` | lbroker/src/server.rs:427 | writing puts the bytes behind everything written before, whatever the capacity, unless the socket meets its error |
| `WriteLoops.WriteLoop.OnMessage` | lbroker/src/server.rs:426-453 | the receiving branch takes the next message and restores the loop-head invariant unless a write fails |
| `WriteLoops.WriteLoop.OnTick` | lbroker/src/server.rs:454-464 | a tick flushes everything dequeued so far |
| `WriteLoops.WriteLoop.Await` | lbroker/src/server.rs:425-426 | while the loop waits the queue gains what the senders offer, until they are gone |
| `WriteLoops.WriteLoop.Select` | lbroker/src/server.rs:425-466 | one round takes exactly the next message if there is one and no tick is taken; it leaves through else if and only if the strategy has no ticks and the queue is closed and empty, and fails if and only if the socket met its error |
| `WriteLoops.WriteLoop.OneRound` | lbroker/src/server.rs:424-467 | waiting and taking a branch accept exactly what is offered in the round, and lose or reorder nothing |
| `WriteLoops.WriteLoop.Run` | lbroker/src/server.rs:424-467 | for every strategy, capacity, socket and schedule: accepted is exactly what was offered, wire and buffer are the dequeued messages in order, the wire always a prefix; the loop fails if and only if the socket met its error; leaving through else means nothing is left unflushed; Periodic never leaves so, the others always do before the rounds from the closing on outnumber the messages there can be; without ticks every round takes a message while there are any |
| `Metrics.SafeSnoc` | lbroker/src/metrics.rs:158-170 | a queue of updates that never underflows stays so when the one added leaves the total non-negative |
| `Metrics.SafeIffPrefixes` | lbroker/src/metrics.rs:205-214 | a queue is safe exactly when no prefix of it takes the value below zero |
| `Metrics.Count.Subtract` | lbroker/src/metrics.rs:241-243 | unsigned subtraction, which every caller is shown not to underflow |
| `Metrics.Count.Listen` | lbroker/src/metrics.rs:205-214 | one turn of the listener applies the oldest update, underflows nothing, and conserves value plus queue |
| `Metrics.Connections.Start` | lbroker/src/server.rs:199-200 | a starting connection takes the step of the state machine that `WaitsIff` and `ActiveIffLastStart` describe |
| `Metrics.Connections.End` | lbroker/src/server.rs:241 | so does an ending one |
| `Metrics.AfterBalanced` | lbroker/src/metrics.rs:205-214 | one start, end or listener turn keeps value plus queued updates equal to the active connections and the queue free of underflow |
| `Metrics.ConnectionLedger` | lbroker/src/metrics.rs:158-170 | over any interleaving of connections and listener the ledger balances, no subtraction underflows, and with an empty queue the value is the number of active connections |
| `Metrics.WaitsIff` | lbroker/src/metrics.rs:158-170 | an add or subtract waits if and only if the channel is full or it is out of turn; otherwise its update goes to the end of the queue |
| `Metrics.ActiveIffLastStart` | lbroker/src/server.rs:199-241 | with room in the channel, a connection counts as active if and only if its last event was a start |
| `Metrics.ShortRunIsRoomy` | lbroker/src/metrics.rs:187 | a channel as large as the run is long always has room |
| `Metrics.CaughtUp` | lbroker/src/metrics.rs:205-214 | once the listener has caught up, the value is the number of connections whose last event was a start |
| `Metrics.Connections.Run` | lbroker/src/metrics.rs:205-243 | the count fed through its channel goes through exactly those states; each subtraction is shown not to underflow |
| `Metrics.Throughput.LogMetric` | lbroker/src/metrics.rs:116-125 | a report logs the value and resets it, and leaves queued increments alone |
| `Metrics.ThroughputConserved` | lbroker/src/metrics.rs:107-149 | over any interleaving of senders, listener and reports, what was logged, what is counted and what is queued add up to what was sent |
| `Metrics.ReportTakesAll` | lbroker/src/metrics.rs:116-149 | a report logs the value there is, starts from zero and leaves queued increments for the next |
| `Metrics.EverythingReported` | lbroker/src/metrics.rs:107-149 | once the listener has caught up and a report is made, the reports add up to everything that was ever sent |
| `Metrics.Throughput.Run` | lbroker/src/metrics.rs:107-149 | the metric updated in place goes through exactly those states |

## Left out

- TCP sockets, framing, the accept loop, task spawning and real time: scheduling is any interleaving of steps, a tick is an event of the schedule.
- The insides of tokio's broadcast and mpsc channels, DashMap, StreamMap and BufWriter: assumed are FIFO order, atomicity of one operation or one guard's lifetime, a lagging receiver moving to the oldest retained entry, and buffering in order. The write buffer is spelled out, over a script of how much the socket takes at each write.
- A message broadcast while no receiver exists stays in the model's log; nobody can observe it there.
- The command queue and the read loop: a command is taken by a step whenever the connection is idle.
- MessagePack encoding and its failure: a message is an opaque byte sequence, and one that cannot be encoded is never published.
- Client, command line, benches, Python example, logging and the floating-point rate: no state that others depend on.
- Buffer presets and channel sizes: capacity and strategy are arbitrary.
- Overflow of a 64-bit count or metric value: counts are natural numbers, so only underflow is a question, and it is proved absent.
- `CountedTrees.FullRefinement` is about the repaired counts, not the crate's own; what the crate's own counts do is in `Written`.
- The interleaved broker is modelled on values, since a machine of many tasks has no single call to specify; in-place updates of bus and handler are in `Handlers`, for uninterrupted calls. The endless select loop, lag and the forwarding of live messages are in the machine only.
- `Handlers.ConnectionHandler.HandleSubscribe`: uses the tree as written; the handler over documented counts would only repeat it with the other tree.
- What a connection was sent is forgotten when it disconnects: no theorem relates two connections of one client.
- Eventual delivery under a fair scheduler: convergence is stated for settled states, and `BrokerProgress.CanSettle` shows that one can always be reached.
- The awaits on metric updates inside the connection's loop: they touch no broker state; the metrics are modelled by themselves.
