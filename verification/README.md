# A verified model of the Solid pod server

The server keeps Linked Data pods: it stores resources, speaks Turtle and a part of SPARQL, controls access by
ACL documents, signs people in, and writes a tamper-evident audit log. This project models the parts of it that
compute something, in Dafny, and proves what they promise. Each component has the modules that model the code
and, beside them, the modules that prove what follows.

* **Turtle** (`Text`, `Lexis`, `Turtle`, `TurtleRoundTrip`, `TurtleLiterals`, `TurtleDots`, `TurtleWords`,
  `TurtleKeywords`, `Update`, `UpdateBlocks`). The printer, the parser with its five character scanners (comments,
  statements, tokens, literals, prologue), and the two forms of SPARQL update. The scanners' flags are one automaton.
  Any text in a literal comes back as a stated normal form; it comes back as it was exactly for the texts that the
  order of the three replacements does not spoil.
* **SPARQL** (`Sparql`, `SparqlOrder`, `SparqlTuples`, `SparqlResults`). Basic graph patterns, OPTIONAL, DISTINCT
  and the ORDER BY comparison, for the parsed query.
* **Audit log** (`Merkle`, `MerkleProofs`, `AuditLog`, `AuditRuns`). Digests are terms, so that equal digests have
  equal preimages. The logger is a class; `AuditRuns` lets any number of appends and flushes interleave at the
  borders of their critical sections, with aborts where a pin to IPFS fails.
* **Resource store** (`Paths`, `Guard`, `Store`, `StoreEncoding`, `StoreRuns`, `StoreTheorems`, `StoreLaws`,
  `StorageKeys`). The store is a class over one flat map from file names to contents. The proofs begin with the URL,
  with what path cleaning and the guard let through, and end at the files that the keys name.
* **Access control** (`Wac`, `WacProofs`, `WacGrants`, `WacChecker`). The generated documents, their evaluation, and
  which stored document governs a path. The last theorem runs through the printer, the parser, the store and the
  evaluation.
* **Identity** (`Limiter`, `Accounts`, `Identity`, `IdentityRuns`). The sliding-window limiter, the account maps
  (with shared mutable accounts), token versions, sessions, Spark grants and password resets, over runs in which
  the service may stop and start again from its files: between two locked sections, or between two of the file
  writes of one.

Where the code does something else than one would expect, the model does what the code does, and a lemma says
when the expectation holds, for all inputs:

* A literal with a backslash directly before `n`, or with a character that is printed as `\t`, `\r` or in
  hexadecimal, is read back as another text; every other literal is not (`LiteralRoundTrip`).
* A name that is printed without brackets, such as `mailto:a@b.org`, is cut at a dot, a hash or a semicolon, and read
  back only when it has none (`DottedObject`, `BareObject`). A first subject such as `prefix:x` is taken for a
  declaration and lost (`ReadBackExactly`).
* An update with two blocks deletes first, whatever it says first, and takes the words between the blocks for a triple
  (`InsertThenDelete`, `DeleteThenInsert`).
* In a batch whose size is no power of two, some paths that the log itself built are refused, because a node
  doubled by padding counts its leaves twice (`WholeBatchVerdict`, `BuiltPathVerdict`).
* A constant in a pattern agrees with a term by its text (`ConstantsByText`). DISTINCT joins rows when a value has a
  bar in a place where a column could end (`SplittingConfuses`). ORDER BY on a column of numbers and other text is an
  order exactly when no such text comes between two numbers the wrong way round (`OneKeySorts`, `MixedColumnCycle`).
* The Slug header of a Post goes to the store as it is (internal/solid/ldp.go:281-288). With `x.meta.json` it writes
  over the metadata of `x` (`SlugOverwritesMetadata`); a slug of one element keeps the files coherent exactly when it is
  no bookkeeping name (`OneElementSlug`), and any slug exactly when it fits (`PostDocumentEffect`). Coherence includes
  that every stored path is one that the guard lets through; which slugs write over another resource, `UnfitSlugWrites`
  and `StepSpares` say. With `../` a slug names a file beside the container (`SlugBeside`, `KeyNamesFile`). A slug with
  a slash can lead out of the known containers (`SlugEscapes`). `StepIsLocal`, `RunIsCoherent`, `StepIsContained` and
  `EveryRunIsContained` say exactly which operations and runs keep what the store promises.
* A container such as `a/x.meta.json/` passes the guard but is hidden from listings, so that `a/` can be deleted
  from over it (`HiddenContainerStaysBehind`; `ListingIsExact` and `DeletionIsContained` give the exact conditions).
* A Put to the root makes it a document, unless its conditions stop it (`RootBecomesDocument`, `PutRootEffect`).
* A reset token whose service is stopped between the two writes of a password reset works a second time
  (`WorksAgain`), and in no other case (`ResetsWorkOnce`).
* A token that is issued while a password change is under way, which a stop then undoes, is accepted after the next
  change (`AheadTokenRevives`); `TokenLife` and `OldTokensStayRejected` are exact about it.
* The ACL of a container `a/b/` is looked for at `a/b.acl`; `a/b/.acl` governs only what is inside
  (`InnerAclIsNoCandidate`, `CandidatesAre`).

Parameters stand for what the model does not look into: `isPrint` is Go's table of printable characters, fixed here
only for ASCII; `etagOf` is the entity tag of a body; `num` reads a number; clocks, random names and prefix maps
(in any order) are arguments.

## Model

| member | source | states |
|---|---|---|
| `Lexis.NextFlags` | internal/rdf/turtle.go:181-217 | one round of a scanner moves its three flags as one automaton over quotes, escapes and IRIs, from valid flags to valid flags |
| `Lexis.IndexStatementEnd` | internal/rdf/turtle.go:181-217 | the result is the position of the first dot outside quotes and IRIs, or -1 when there is none |
| `Lexis.StripTurtleComment` | internal/rdf/turtle.go:219-255 | what is kept is the line up to the first # outside quotes and IRIs, or all of it |
| `Lexis.SplitAtDots` | internal/rdf/turtle.go:257-307 | the pieces are those that the automaton cuts at dots |
| `Lexis.SplitStatements` | internal/rdf/turtle.go:257-307 | the statements are the pieces between dots outside quotes and IRIs, in order and as they are; the last one is trimmed, and kept when something is left of it |
| `Lexis.InertConcat` | internal/rdf/turtle.go:257-307 | texts that leave the scanners where they found them can be put one after the other |
| `Turtle.Graph.Add` | internal/rdf/turtle.go:28-30 | one triple is appended, the others stay |
| `Turtle.Graph.AddIRI` | internal/rdf/turtle.go:32-34 | appends a triple whose object is no literal |
| `Turtle.Graph.Objects` | internal/rdf/turtle.go:44-52 | the objects of exactly the matching triples, in order; an empty subject or predicate matches any |
| `Turtle.SerializeTurtle` | internal/rdf/turtle.go:64-89 | the text is the prefix lines and then one line for each triple |
| `Turtle.FindQuote` | internal/rdf/turtle.go:309-357 | a quoted text ends at its first quote that no backslash takes along; a backslash takes the next character along, be it another backslash, past the end if need be |
| `Turtle.FindBreak` | internal/rdf/turtle.go:309-357 | a word ends at the first separator |
| `Turtle.ScanToken` | internal/rdf/turtle.go:309-357 | the token at the start of a statement, or the panic on a quote that is never closed |
| `Turtle.Tokenize` | internal/rdf/turtle.go:309-357 | the tokens of a statement in order; an unterminated literal slices out of range |
| `Turtle.ParseLiteral` | internal/rdf/turtle.go:377-404 | text, language and datatype of a literal token |
| `Turtle.ReadPrologue` | internal/rdf/turtle.go:116-148 | the prefix declarations in front of the first statement and the text behind them |
| `Turtle.ReadStatement` | internal/rdf/turtle.go:150-178 | the triple of a statement, none when it has fewer than three tokens |
| `Turtle.AddStatements` | internal/rdf/turtle.go:150-178 | the triples of the statements in order |
| `Turtle.ParseTurtle` | internal/rdf/turtle.go:105-179 | the parsed graph as a function of the text, with its errors and panics |
| `TurtleRoundTrip.ParsePrint` | internal/rdf/turtle.go:64-179 | for every graph of the stated shape, with any text whatever in its literals, parsing the printed graph succeeds and gives exactly its triples in order, each as a stated normal form; the declared prefixes are read back |
| `TurtleRoundTrip.StatementReads` | internal/rdf/turtle.go:105-179 | the printed line of one triple is read back as that one triple |
| `TurtleDots.DottedObject` | internal/rdf/turtle.go:91-307 | a name with a dot that is printed bare as an object, like mailto:a@b.org, is cut at its first dot (or the triple is lost when it starts with one): the triple is read back if and only if the name has no dot |
| `TurtleWords.BareObject` | internal/rdf/turtle.go:91-357 | a name that is printed bare as an object, with any characters but white space, quotes and opening brackets, is read back if and only if it has no dot, no hash and no semicolon |
| `TurtleKeywords.ParsePrintAny` | internal/rdf/turtle.go:64-179 | first subjects such as prefix:x are taken for declarations: that many triples are lost, and exactly the others are read, in order, with the prefixes that the lost ones were taken to declare |
| `TurtleKeywords.ReadBackExactly` | internal/rdf/turtle.go:64-179 | a printed graph is read back triple for triple if and only if its first subject does not begin with a prefix keyword |
| `TurtleLiterals.LiteralRoundTrip` | internal/rdf/turtle.go:91-411 | unescaping a printed literal gives it back if and only if every character is printable or a newline, and no backslash stands directly before an n |
| `TurtleLiterals.RoundTrip` | internal/rdf/turtle.go:64-179 | parsing a printed graph gives exactly the same triples if and only if its first subject begins with no prefix keyword, and each triple is faithful: no bracket at the ends of terms, no bare term with a declared prefix, a safe literal with at most one of language and datatype |
| `TurtleLiterals.UnescapeEscaped` | internal/rdf/turtle.go:406-411 | what the three replacements, in their order, make of a printed literal |
| `Update.ApplySPARQLUpdate` | internal/rdf/turtle.go:480-518 | the new graph is the old one without the deleted terms and with the inserted triples behind |
| `Update.Delete` | internal/rdf/turtle.go:487-507 | what a DELETE DATA block leaves, or the parse error of its block |
| `Update.Insert` | internal/rdf/turtle.go:508-516 | what an INSERT DATA block adds, or the parse error of its block |
| `Update.BlockIsExtracted` | internal/rdf/turtle.go:520-532 | the block of a request with one block is found whole, whatever braces it has inside |
| `Update.DeletingTheAdded` | internal/rdf/turtle.go:487-507 | deleting what was added gives back the graph if and only if nothing in it had the same subject, predicate and object text |
| `Update.DeleteUndoesInsert` | internal/rdf/turtle.go:480-532 | inserting a printed graph and deleting the same block restores the original triples in order if and only if none had the same terms (sections 3.1.1 and 3.1.2 of SPARQL 1.1 Update); an update keyword inside the block does no harm unless an opening brace comes after it |
| `UpdateBlocks.BothBlocks` | internal/rdf/turtle.go:480-532 | a request with two blocks deletes and then inserts, whichever comes first; its first block reaches to the last brace of the request |
| `UpdateBlocks.LongParses` | internal/rdf/turtle.go:105-179 | that first block is read as its own triples, the words between the blocks as one odd triple, and the triples of the second block but for its first |
| `UpdateBlocks.InsertThenDelete` | internal/rdf/turtle.go:480-532 | one request that inserts a printed graph and then deletes another: what it leaves, which is never what the two requests leave |
| `UpdateBlocks.DeleteThenInsert` | internal/rdf/turtle.go:480-532 | one request that deletes and then inserts does what the two requests do if and only if nothing in the graph matches the odd triple or the later triples of the second block, but for what was to be deleted |
| `Sparql.BindIRI` | internal/rdf/sparql.go:262-268 | a variable is bound, or must already be bound to the same IRI |
| `Sparql.BindObject` | internal/rdf/sparql.go:270-282 | a variable is bound to a literal or IRI, or must already have the same kind and text |
| `Sparql.BindTriple` | internal/rdf/sparql.go:229-244 | binding the variables of a pattern to a triple, one after the other |
| `Sparql.Extend` | internal/rdf/sparql.go:204-249 | a row and a triple give a row exactly when the triple has the constants and the row is compatible with the solution; the new row is their merge |
| `Sparql.ConstantsByText` | internal/rdf/sparql.go:212-231 | the solutions of a pattern are those of agreement as terms if and only if no triple agrees by text only: an IRI constant with a literal object, or a literal constant with an empty subject or predicate |
| `Sparql.BindValuesMerges` | internal/rdf/sparql.go:251-290 | binding one variable after the other is merging with the solution, and fails exactly on incompatible rows |
| `Sparql.CompatiblePreselected` | internal/rdf/sparql.go:212-231 | the early tests on subject, predicate and object never reject a triple that would bind |
| `Sparql.JoinPattern` | internal/rdf/sparql.go:204-249 | the join of the rows with the solutions of the pattern, in order |
| `Sparql.Match` | internal/rdf/sparql.go:97-115 | the mandatory patterns joined, then one left join for each optional group |
| `Sparql.MatchOptional` | internal/rdf/sparql.go:101-115 | the left join with condition true (section 18.5 of SPARQL 1.1 Query): each row gives its extensions by the solutions that the group has on its own, or itself once when there are none, in order |
| `Sparql.RowJoinsGroup` | internal/rdf/sparql.go:101-115 | matching a group row by row is joining each row with the solutions of the group taken alone |
| `Sparql.MergedJoin` | internal/rdf/sparql.go:204-249 | the join of rows is associative, order and duplicates included |
| `SparqlOrder.PatternOrder` | internal/rdf/sparql.go:97-100 | permuting the triple patterns leaves the multiset of rows unchanged, datatype and language aside |
| `SparqlOrder.JoinsSwap` | internal/rdf/sparql.go:97-100 | joining with two patterns in either order gives the same rows as often |
| `SparqlTuples.RowsAreTuples` | internal/rdf/sparql.go:97-100 | the rows correspond one for one, in dictionary order, to the tuples of triple positions that match the patterns under one common assignment; each row binds exactly the variables of the patterns to that assignment |
| `SparqlResults.WriteKey` | internal/rdf/sparql.go:296-311 | the key of a row under DISTINCT |
| `SparqlResults.DistinctRows` | internal/rdf/sparql.go:292-319 | the first row of each key is kept, in order |
| `SparqlResults.KeyIsProjection` | internal/rdf/sparql.go:296-311 | when no shown value ends in a bar or has a bar before I: or L:, two rows have the same key if and only if they show the same values |
| `SparqlResults.DistinctKeepsFirst` | internal/rdf/sparql.go:292-319 | when no shown value ends in a bar or has a bar before I: or L:, exactly the first row of each projected tuple is kept, in order |
| `SparqlResults.SplittingConfuses` | internal/rdf/sparql.go:296-311 | for every text that ends in a bar or has a bar before I: or L:, a row that shows it and a row that shows something else, which DISTINCT takes for one |
| `SparqlResults.LessBinding` | internal/rdf/sparql.go:321-355 | the order of two rows is the sign of a three-way comparison key by key, unbound first, reversed by DESC |
| `SparqlResults.StrictWeakOrder` | internal/rdf/sparql.go:321-355 | for any keys and directions, the comparison of rows is a strict weak order when each column is sortable: no other text lies between two numbers unless the first is less than the second, and beside a NaN no number is less than another |
| `SparqlResults.OneKeySorts` | internal/rdf/sparql.go:321-355 | for one key, of either direction, the comparison is a strict weak order if and only if the column is sortable |
| `SparqlResults.MixedColumnCycle` | internal/rdf/sparql.go:334-345 | a column with numbers and other text where 9 < 10 < 1a < 9 |
| `Merkle.BuildMerkle` | internal/audit/audit.go:310-348 | the root and the path of every hash, as a function of the batch |
| `Merkle.Round` | internal/audit/audit.go:317-345 | one level is padded and paired |
| `Merkle.PairUp` | internal/audit/audit.go:322-344 | the parents of a padded level in order, and the siblings appended |
| `Merkle.AppendSiblings` | internal/audit/audit.go:326-341 | each leaf below a pair gets the hash of the other side, once for each time it is listed |
| `Merkle.VerifyMerkle` | internal/audit/audit.go:359-388 | acceptance by a last sibling or by some orientation at every step |
| `Merkle.VerifyMerkleCandidates` | internal/audit/audit.go:390-405 | acceptance when the root is among the digests that some orientation at every step gives |
| `MerkleProofs.AcceptedExactlyWithin` | internal/audit/audit.go:359-405 | some path is accepted for a digest if and only if the root is built from it |
| `MerkleProofs.AcceptedExactlyBatch` | internal/audit/audit.go:310-405 | against the root of a batch, an event hash is accepted with some path whatever if and only if it is one of the batch |
| `MerkleProofs.BuiltPathVerdict` | internal/audit/audit.go:310-405 | a hash is accepted with its built path if and only if it never sits below a node duplicated by padding; with the leaves of a duplicated node listed once, always |
| `MerkleProofs.WholeBatchVerdict` | internal/audit/audit.go:310-405 | every hash of a batch is accepted with its built path if and only if the size is a power of two; in any other batch the last one fails |
| `MerkleProofs.ClimbVerdict` | internal/audit/audit.go:316-347 | the invariant of the rounds: after each one, the path built so far leads to the node above the leaf exactly when none was duplicated |
| `AuditLog.Logger.BeginAppend` | internal/audit/audit.go:95-113 | the first critical section: the event links to the last committed hash |
| `AuditLog.Logger.CommitAppend` | internal/audit/audit.go:126-134 | the second one: the event is committed, its hash pending and the link for later events |
| `AuditLog.Logger.TakePending` | internal/audit/audit.go:142-150 | the pending hashes are taken and none is left |
| `AuditLog.Logger.MarkEvent` | internal/audit/audit.go:160-168 | the event with a hash learns its batch, if there is one |
| `AuditLog.Logger.PublishBatch` | internal/audit/audit.go:190-194 | a batch is published after the others |
| `AuditLog.Logger.GetBatch` | internal/audit/audit.go:202-211 | the first batch with an id |
| `AuditLog.Logger.VerifyEvent` | internal/audit/audit.go:213-252 | hash validity, batch and inclusion of an event |
| `AuditLog.Logger.FlushBatch` | internal/audit/audit.go:142-194 | an uninterrupted flush: nothing when nothing is pending, otherwise all the events of the new batch learn it and it is published |
| `AuditRuns.RunKeeps` | internal/audit/audit.go:95-194 | the invariant of the protocol holds in every state that any interleaving reaches |
| `AuditRuns.ChainTheorem` | internal/audit/audit.go:95-140 | under every interleaving, each committed event recomputes to its hash and links to nothing or to an earlier committed event; the link is to the very event before it if and only if no other was committed between its two critical sections |
| `AuditRuns.BatchTheorem` | internal/audit/audit.go:142-194 | what each flush took, turn by turn, followed by what is pending, is the committed hashes in order; each turn is with exactly one flush under way, which holds what was taken then, or else with exactly one published batch, which consists of it |
| `AuditRuns.VerifyTheorem` | internal/audit/audit.go:213-252 | a committed event verifies as valid; as batched exactly when a batch with its hash is published; as included exactly when its place there is never duplicated by padding |
| `Guard.ResourcePathsAreCleaned` | internal/solid/guard.go:10-26 | a resource path has no empty, "." or ".." element and no backslash, whatever the URL |
| `Guard.HiddenIsInternal` | internal/solid/guard.go:32-52 | every path whose last element is the name of a bookkeeping file is refused |
| `Guard.ContainerIsInternal` | internal/solid/guard.go:10-52 | a cleaned container path that neither begins with a space nor has a backslash is left alone by cleaning, and refused if and only if its first element is reserved |
| `Guard.GuardedPathsAreEncodable` | internal/solid/guard.go:10-52 | for every URL: what cleaning and the guard let through meets the precondition of the store theorems |
| `Paths.DirOfDocument` | internal/resourcestore/store.go:230-236 | the directory that Put computes for a cleaned document path is the container it is in |
| `Paths.SqueezeCleaned` | internal/resourcestore/store.go:178-194 | the loop over the parts of a cleaned container path ends at that path |
| `Store.CheckPreconditions` | internal/resourcestore/store.go:475-488 | true if and only if If-None-Match "*" finds nothing and a given If-Match finds a resource with that tag or is "*" |
| `Store.ListDir` | internal/storage/storage.go:50-70 | the immediate entries of a directory, each once |
| `Store.ResourceStore.constructor` | internal/resourcestore/store.go:54-56 | an empty store |
| `Store.ResourceStore.Get` | internal/resourcestore/store.go:139-163 | the resource with its body, or the error |
| `Store.ResourceStore.PutContainerLocked` | internal/resourcestore/store.go:198-219 | a container that is not there is written, one that is there stays |
| `Store.ResourceStore.EnsureContainerLocked` | internal/resourcestore/store.go:172-196 | the loop over the parts writes the container and everything above it that is missing |
| `Store.ResourceStore.EnsureContainer` | internal/resourcestore/store.go:166-170 | the same under the lock |
| `Store.ResourceStore.Put` | internal/resourcestore/store.go:222-278 | the files after a Put and the reply or error, as a function of the files before |
| `Store.ResourceStore.WriteDocument` | internal/resourcestore/store.go:247-277 | body and metadata are written, and reading the path gives what was written |
| `Store.ResourceStore.PutContainer` | internal/resourcestore/store.go:281-298 | the files after a container was put, and the container |
| `Store.ResourceStore.Post` | internal/resourcestore/store.go:419-473 | the files after a Post, under the path that the slug and what is there determine |
| `Store.ResourceStore.ListLocked` | internal/resourcestore/store.go:362-416 | the listed paths are exactly the known ones directly inside with no hidden name, each once |
| `Store.ResourceStore.List` | internal/resourcestore/store.go:356-360 | the same under the lock |
| `Store.ResourceStore.FindObstacle` | internal/resourcestore/store.go:327-347 | what keeps a container from being deleted |
| `Store.ResourceStore.Delete` | internal/resourcestore/store.go:318-353 | the files after a Delete and its error, as a function of the files before |
| `Store.Collect` | internal/resourcestore/store.go:379-414 | the loop over the entries of a directory finds what they stand for, each once |
| `Store.EntriesAreListed` | internal/resourcestore/store.go:379-414 | the entries of the file system stand for exactly the resources that are listed |
| `StoreEncoding.EncodingDecodes` | internal/resourcestore/store.go:67-86 | the name of a file determines the resource it belongs to and whether it holds metadata |
| `StoreEncoding.FilesAreDisjoint` | internal/resourcestore/store.go:67-86 | no two resources that the guard lets through share a file |
| `StoreEncoding.WriteIsCoherent` | internal/resourcestore/store.go:198-278 | at a path that the guard lets through, a write keeps body, tag and kind of every resource in agreement, leaves no file without a resource and no resource at another path, and changes no other resource |
| `StoreEncoding.RemoveIsCoherent` | internal/resourcestore/store.go:349-352 | so does a removal |
| `StoreRuns.PutEffect` | internal/resourcestore/store.go:222-278 | a Put succeeds if and only if its conditions hold of the resource as it was; then it reads as it was put, keeping its creation time; otherwise only containers may have been added |
| `StoreRuns.PutContainerEffect` | internal/resourcestore/store.go:281-298 | the container and all above it are known afterwards, and nothing else changed |
| `StoreRuns.PutRootEffect` | internal/resourcestore/store.go:222-278 | a Put to the root keeps the files coherent if and only if its conditions stop it; otherwise it writes a document over the root |
| `StoreRuns.PostDocumentEffect` | internal/resourcestore/store.go:419-473 | for any slug: the files stay coherent if and only if the slug fits; then the document is there and reads as it was posted, nothing else changed, and only a name made up with the time can be that of a known one |
| `StoreRuns.PostContainerEffect` | internal/resourcestore/store.go:419-441 | for any slug: the files stay coherent if and only if the slug fits; then the container is there, and all that was there is as it was |
| `StoreRuns.DeleteEffect` | internal/resourcestore/store.go:318-353 | a Delete succeeds if and only if the resource is known, the tag fits and nothing is listed in it; then it alone is gone |
| `StoreTheorems.StepIsLocal` | internal/resourcestore/store.go:166-473 | an operation keeps the files coherent (agreeing, and every stored path one that the guard lets through) if and only if its slug fits and it is no unstopped Put to the root; then it changes no resource but its target |
| `StoreTheorems.OneElementSlug` | internal/solid/ldp.go:281-288 | a document posted under a slug of one element, which the handler passes on unseen, is stored at a path that the guard lets through, and leaves the files coherent, if and only if that name is not one of a bookkeeping file |
| `StoreTheorems.RunIsCoherent` | internal/resourcestore/store.go:166-473 | all the states of a run are coherent if and only if every operation fits the state that it meets |
| `StoreTheorems.EntityTagsMatch` | internal/resourcestore/store.go:88-91 | in every state that is reached by operations that fit, whatever can be read has the tag of its body and is a container exactly when its path says so |
| `StoreTheorems.ListingIsExact` | internal/resourcestore/store.go:362-416 | a listing is exactly the set of children if and only if no child has a hidden name |
| `StoreTheorems.DeletionIsContained` | internal/resourcestore/store.go:318-353 | a deletion leaves every resource in known containers if and only if nothing was in what it removed |
| `StoreTheorems.StepIsContained` | internal/resourcestore/store.go:166-473 | an operation that fits keeps every resource in known containers if and only if its slug stays in the container or leads into a known one, or, for a deletion, it is refused or nothing was in what it removed |
| `StoreTheorems.EveryRunIsContained` | internal/resourcestore/store.go:166-473 | in all the states of a run of operations that fit, every resource is in known containers if and only if all the operations stay; then every container on the way to a known resource is known |
| `StoreTheorems.ShownRunsStay` | internal/resourcestore/store.go:166-473 | in a run of operations that fit, without hidden names and with slugs of one element, all operations stay, and every listing shows the children and nothing else |
| `StoreLaws.NoLostUpdate` | internal/resourcestore/store.go:475-488 | of two Puts with the same If-Match tag, the second fails once the first has changed the tag, and the first text stays |
| `StoreLaws.CreatesOnce` | internal/resourcestore/store.go:475-488 | a Put with If-None-Match "*" succeeds if and only if there was nothing |
| `StoreLaws.DeleteUndoesPut` | internal/resourcestore/store.go:222-353 | putting a new document into a known container and deleting it restores every file |
| `StoreLaws.HiddenContainerStaysBehind` | internal/solid/guard.go:43-50 | a container with a hidden name stays behind when the container around it is deleted; unless they begin with a space or have a backslash, both paths reach the store as they are, and are refused if and only if their first element is reserved |
| `StoreLaws.SlugEscapes` | internal/resourcestore/store.go:428-441 | for any coherent and contained files, any container and any slug that fits: the files stay contained if and only if what is above the new path was known, that is, the slug has one element or leads into a known container |
| `StoreLaws.SlugOverwritesMetadata` | internal/resourcestore/store.go:428-473 | a document posted under the name of the metadata of any known resource, like x.meta.json beside x, is written over it, and the metadata can no longer be read |
| `StoreLaws.UnfitSlugWrites` | internal/resourcestore/store.go:428-473 | a document posted under a slug that does not fit writes over a resource if and only if its file was there: then over the one that the file belongs to, whose metadata is lost or whose body changes beside the old tag; all others are kept |
| `StoreLaws.StepSpares` | internal/resourcestore/store.go:166-473 | for any operation and any resource but its target: it is written over if it owns the file that an unfit document slug hits, and otherwise kept; containers and Puts to the root never write over another |
| `StorageKeys.FlatMapIsFaithful` | internal/storage/storage.go:30-44 | the keys of coherent files name different files of the file system, whatever the root: the flat map stands for them |
| `StorageKeys.KeyNamesFile` | internal/storage/storage.go:30-32 | the file that any key names, dots included: the part of the root that the walk along it does not leave, and what the walk ends below |
| `StorageKeys.GuardSeesTheFile` | internal/solid/guard.go:10-52 | asked about a key that never leads out of the root, the guard refuses if and only if the file that the key names is one of the server |
| `StorageKeys.SlugBeside` | internal/storage/storage.go:30-32 | a slug that begins with ../ names the same file as the path beside the container that is posted to |
| `StoreLaws.RootBecomesDocument` | internal/resourcestore/store.go:222-278 | a Put to the empty path, which the guard lets through, turns the root into a document, which cannot be listed |
| `Wac.EvaluateACL` | internal/wac/wac.go:160-233 | the modes that the applying authorizations grant, whatever the order in which they are visited |
| `Wac.FindAgent` | internal/wac/wac.go:202-215 | whether an authorization names the agent, modulo #me, everyone, or an authenticated agent |
| `Wac.AddModes` | internal/wac/wac.go:216-230 | the modes of an applying authorization are added, the others stay |
| `Wac.AddOwnerAuth` | internal/wac/wac.go:262-271 | eight triples are appended |
| `Wac.OwnerOnlyACL` | internal/wac/wac.go:274-282 | the text is the printed owner graph |
| `Wac.PublicReadACL` | internal/wac/wac.go:285-300 | the text is the printed public graph, with the owner when there is one |
| `Wac.DefaultPublicACL` | internal/wac/wac.go:236-260 | the text is the printed public and authenticated graph, with the owner when there is one |
| `WacGrants.AuthorizationsAddUp` | internal/wac/wac.go:160-233 | documents with defaults that share no authorization grant together exactly what they grant apart |
| `WacProofs.AbsoluteIsOk` | internal/wac/wac.go:236-300 | every absolute IRI with an authority part and no bracket or newline survives in a document |
| `WacProofs.AclRoundTrip` | internal/rdf/turtle.go:64-179 | documents made of such terms are read back triple for triple |
| `WacGrants.OwnerOnlyDocument` | internal/wac/wac.go:262-282 | printed and parsed, the owner-only document gives the owner all modes and everyone else none, for every path |
| `WacGrants.PublicReadDocument` | internal/wac/wac.go:285-300 | the owner, if any, has all modes and everyone else exactly Read, for every path |
| `WacGrants.DefaultPublicDocument` | internal/wac/wac.go:236-260 | the owner, if any, has all modes, other authenticated agents Read, Write and Append, everyone else Read, for every path |
| `WacChecker.AclCandidates` | internal/wac/wac.go:119-158 | the candidates, each once, as a function of the path |
| `WacChecker.CandidatesAre` | internal/wac/wac.go:119-158 | for a cleaned path: its own ACL, beside a container and not in it, then those of the containers around it, nearest first, down to the root |
| `WacChecker.Judge` | internal/wac/wac.go:88-106 | what one candidate decides: nothing when it is missing or does not parse |
| `WacChecker.EffectiveModes` | internal/wac/wac.go:85-117 | the first candidate that decides, or the defaults |
| `WacChecker.Allowed` | internal/wac/wac.go:76-82 | the effective modes, and whether they suffice: never when they cannot be found |
| `Wac.Allows` | internal/wac/wac.go:27-45 | Write stands for Read and Append, and Control for all |
| `WacChecker.AclGovernsBelow` | internal/wac/wac.go:85-158 | an ACL put into a container decides for every path below for which nothing nearer is stored |
| `WacChecker.OwnerAclGoverns` | internal/wac/wac.go:85-300 | a generated owner-only ACL put into a container gives its owner all modes, and permits everyone else nothing, on every path below for which nothing nearer is stored: printer, parser, store and evaluation together |
| `WacChecker.InnerAclIsNoCandidate` | internal/resourcestore/store.go:491-497 | the ACL inside a container is no candidate of the container itself |
| `Limiter.HitLimiter.Allow` | internal/identityapi/password.go:67-87 | a call is let through exactly when fewer than n times are kept for its key, and only that key changes |
| `Limiter.StoredIsRecent` | internal/identityapi/password.go:67-87 | what is stored for a key is what was let through in the window that ends now |
| `Limiter.RefusedExactly` | internal/identityapi/password.go:67-87 | with a clock that never goes back, a call is refused if and only if n calls let through lie in the window that ends now |
| `Limiter.NeverMoreThanAllowed` | internal/identityapi/password.go:67-87 | no window of the given length, open below, ever holds more than n calls let through |
| `Limiter.KeysAreApart` | internal/identityapi/password.go:67-87 | calls for other keys make no difference |
| `Accounts.Directory.Register` | internal/identityapi/identity.go:276-337 | the reply for a missing, reserved, taken or free name, and one new account in the last case; the maps stay coherent |
| `Accounts.Directory.IndexAccount` | internal/identityapi/identity.go:521-530 | the three maps lead to the account |
| `Accounts.Directory.DropAccount` | internal/identityapi/identity.go:532-544 | the keys of the account are gone; from coherent maps that hold it, coherent maps with the other accounts are left, and no key leads to it |
| `Accounts.Directory.FindAccount` | internal/identityapi/password.go:302-320 | the account that a search through all accounts must find: by e-mail, else by handle, else by the handle of the e-mail |
| `Accounts.Directory.ReindexEmail` | internal/identityapi/password.go:349-366 | refused exactly when another account has the address; otherwise only the address of this account changes, and the maps stay coherent |
| `Accounts.Directory.Save` | internal/identityapi/identity.go:929-955 | the saved accounts are those in use, no two with the same id, handle or address |
| `Accounts.Directory.Load` | internal/identityapi/identity.go:899-921 | from such accounts the maps come out coherent, with just these accounts |
| `Accounts.Restart` | internal/identityapi/identity.go:899-955 | saving and loading gives coherent maps with the same accounts |
| `Accounts.FoundIsOne` | internal/identityapi/password.go:302-320 | the account that a search must find is one account |
| `Accounts.NothingShared` | internal/identityapi/identity.go:521-530 | in coherent maps no two accounts share a handle or an address |
| `Accounts.AddingIsCoherent` | internal/identityapi/identity.go:298-330 | adding an account with free names keeps the maps coherent |
| `Accounts.DroppingIsCoherent` | internal/identityapi/identity.go:532-544 | dropping an account keeps the maps coherent, because only its own address and handle lead to it |
| `Accounts.ReindexingIsCoherent` | internal/identityapi/password.go:349-366 | moving to a free address keeps the maps coherent |
| `Identity.TokenService.Issue` | internal/authn/authn.go:90-106 | the token carries the version that counts for its agent |
| `Identity.TokenService.IssueSpark` | internal/authn/authn.go:110-136 | the same with a name and a default life time |
| `Identity.TokenService.RevokeJTI` | internal/authn/authn.go:138-145 | one name is revoked; the empty one never |
| `Identity.TokenService.SetTokenVersion` | internal/authn/authn.go:149-161 | versions only move forward |
| `Identity.TokenService.Parse` | internal/authn/authn.go:185-223 | expired, revoked, of another version, or accepted |
| `Identity.Service.constructor` | internal/identityapi/identity.go:80-101 | a service reads accounts, versions, grants and unexpired resets from the files |
| `Identity.Service.LoadMembers` | internal/identityapi/identity.go:899-927 | the version that counts for an agent is the highest that was saved for it |
| `Identity.Service.LoadGrants` | internal/identityapi/spark_token.go:152-171 | exactly the names of revoked grants are revoked |
| `Identity.Service.LoadResets` | internal/identityapi/password.go:93-113 | the saved resets that have not expired |
| `Identity.Service.SaveResets` | internal/identityapi/password.go:115-132 | the file holds the resets that have not expired |
| `Identity.Service.InvalidateAuth` | internal/identityapi/password.go:322-347 | the version moves on, the sessions of the account are gone, the grants of its agent are revoked and saved |
| `Identity.Service.IssueReset` | internal/identityapi/password.go:265-282 | the unused resets of the account give way to a new one |
| `Identity.Service.ConsumeReset` | internal/identityapi/password.go:284-300 | succeeds exactly for an unused, unexpired reset of a known account, which is used from then on |
| `Identity.Service.ResetPassword` | internal/identityapi/password.go:458-471 | the locked part: the password changes exactly when the reset is good |
| `Identity.Service.ChangePassword` | internal/identityapi/identity.go:721-727 | the locked part of a profile update with a new password |
| `Identity.Service.AddMember` | internal/identityapi/identity.go:330-337 | an account is in memory, and not yet in the file |
| `Identity.Service.RecordGrant` | internal/identityapi/spark_token.go:64-69 | a grant is recorded and saved |
| `Identity.Service.RevokeSpark` | internal/identityapi/spark_token.go:133-147 | the live grants of an agent, or the named one, are revoked and saved |
| `IdentityRuns.StepCounts` | internal/identityapi/password.go:322-347 | every event moves the version of an agent by one exactly when it changes that agent's password for good; restarts, and stops between the file writes of a change, are events |
| `IdentityRuns.VersionsCountChanges` | internal/authn/authn.go:149-174 | in every run the version of an agent grows by the number of password changes, whatever else happens |
| `IdentityRuns.TokenLife` | internal/authn/authn.go:185-223 | in every run a token is accepted if and only if it has not expired, its name is not revoked, and its agent's password has not changed since it was issued; one issued during a change that a stop undid, if and only if exactly one change came since |
| `IdentityRuns.OldTokensStayRejected` | internal/identityapi/password.go:435-474 | after a password reset or change, a bearer or Spark token issued earlier for that agent is accepted if and only if it was issued during a change that a stop undid, this is the only change since, and it is neither expired nor revoked |
| `IdentityRuns.AheadTokenRevives` | internal/identityapi/identity.go:793-848 | a run of four events in which a token issued during a stopped change is rejected, and accepted after the next change |
| `IdentityRuns.StepRevokes` | internal/identityapi/spark_token.go:119-188 | every event revokes exactly the grants it hits, a stop those that were written, and a restart none; memory and file agree |
| `IdentityRuns.RevocationLasts` | internal/identityapi/spark_token.go:133-171 | a revoked token stays revoked, restarts included |
| `IdentityRuns.SessionLife` | internal/identityapi/identity.go:456-496 | a session lasts exactly until the password of its account is changed, it is signed out of, or the service is started over; after that its cookie is worth nothing |
| `IdentityRuns.AtMostOneUnused` | internal/identityapi/password.go:265-282 | in every state that is reached each account has at most one unused reset, in memory and in the file |
| `IdentityRuns.ResetsWorkOnce` | internal/identityapi/password.go:265-469 | in every run, a reset token sets a password only before its expiry, and again only if the service was stopped between the two file writes of the time before |
| `IdentityRuns.WorksAgain` | internal/identityapi/password.go:93-132 | after such a stop, and with a clock that did not go back, the token works again if and only if neither the restart nor the attempt comes after its expiry |

## Left out

- HTTP handlers, cookies, JSON encoding, CORS, notifications, mail, the agent and conversation services, and the web, desktop and ingestion code: plumbing over libraries.
- Cryptography (SHA-256, bcrypt, HMAC, Ed25519): digests are injective terms, entity tags an unknown function of the body, tokens records of their claims.
- The separator in an event's hash preimage: the payload is a record, so two payloads that differ only in where a bar falls count as different.
- The file system: a flat map without file or directory clashes, left-over empty directories or input and output errors; a metadata file that was written as a document's body counts as unreadable.
- Keys that are not cleaned alias one another in the file system (StorageKeys.KeyNamesFile says which file they name) but not in the flat map of the store: there a slug that is not cleaned counts as one that does not fit; listing and deleting are modelled for cleaned paths, the only ones that the handlers pass. A relative root directory is not modelled.
- One reading of the clock stands for those that one store operation takes.
- Time stamps, IPFS content identifiers and OpenTimestamps proofs of batches: they feed nothing that is modelled; a failed pin is an abort of the append.
- SPARQL text parsing, FILTER expressions, LIMIT and OFFSET, and the stable sort itself: the query is taken as parsed, and the comparison is what is modelled. FILTERs inside OPTIONAL are hoisted and nested OPTIONALs dropped by that parser.
- ApplyN3Patch and JSON-LD: the first does not parse N3 formulas; the second depends on map iteration order.
- The 64 KB line limit of the scanner over lines, and invalid UTF-8: texts are sequences of Unicode scalar values.
- Lower case outside ASCII, and byte offsets: the position of an update keyword is the same in a text and in its upper case, which in UTF-8 it is not behind a letter whose upper case has another length.
- The loop over the prefix map visits it in some order, which is the order of the sequence argument.
- The literal branch of formatTerm, which nothing calls, and the fold at the start of verifyMerkle, whose result is not used.
- Replica adoption (identity.go:552-632), which starts an account again at version 0 and so would break the law that versions count changes; client credentials, agent signatures and DPoP proofs.
- Failed registration of a pod: the account stays in memory unsaved, which the runs allow, but the pod itself is not modelled.
- ModeFromHTTP, Has, AddTypedLiteral: straight-line members that would only add easy claims.
- TurtleRoundTrip.ParsePrint: excludes terms that contain a newline or an inner closing bracket, a first subject that begins with a prefix keyword (TurtleKeywords.ParsePrintAny covers it), and bare names (with a colon, like mailto:a@b.org, blank nodes and prefixed names) with white space, a dot, a #, a semicolon, a quote or a < in them, at which the scanners cut; for objects TurtleWords.BareObject is exact about dots, hashes and semicolons.
- AuditLog.Logger.FlushBatch: states the whole effect for a flush that nothing interrupts; interleaved flushes are the steps of AuditRuns.
- WacProofs.AclRoundTrip: resource URLs and owner IRIs must survive printing on their own, as every absolute IRI without brackets and newlines does.
- IdentityRuns.ResetsWorkOnce: takes it that no random token is drawn twice.
- A write of one file is atomic; a stop in the middle of writing a file is not modelled.
- Accounts.Directory.Load: says nothing about a file in which two accounts share an id, a handle or an address, where the last one wins.
- UpdateBlocks.DeleteThenInsert: speaks of printed blocks without prefix declarations, whose second block does not begin with a bracketed name that has white space in it.
