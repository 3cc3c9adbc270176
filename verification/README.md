# Verified models of golang-core

Dafny 4.11 models of the stateful parts of the library, with proofs. `dafny verify dfyconfig.toml` checks everything.
Code that changes fields step by step is a class whose methods are proved against specification functions;
concurrent code is a state machine whose steps are the atomic sections of the source, and what is proved of it
holds on every interleaving.

| component | files | what is proved |
|---|---|---|
| tokenizer over a peekable reader | `ByteStreams`, `TokenGrammar`, `Tokenizer`, `Lexing`, `TokenShapes` | every token is the longest match in a grammar given as thirteen languages, at its exact position; each language byte by byte; nothing is lost; the whole outcome is a function of the stream; when a failing reader can falsify a token |
| promise | `Promises`, `PromiseProtocol` | the first call that settles decides every answer and every received value, on every interleaving; exactly-once delivery to each channel, no panic or block under the mutex, no Get that stays stuck |
| OpenAPI schema closure | `ApiModels`, `ModelShapes`, `SchemaClosure`, `RouteSchemas` | termination on cyclic message graphs, no dangling reference, components are exactly the reachable models, each described as its fields' kinds and flags say, success exactly when everything reachable is sound, the first fault in source order otherwise |
| multipart uploads | `MultipartPaths`, `GcsStorage`, `OsStorage`, `SyncStorage` | whole uploads end in the chunks in the caller's order, under the 32-source limit, on every provider and replica, and when they work; two uploads of one object do not disturb each other; failed uploads lose nothing, and moves nothing on a child that keeps the two paths apart |
| text line protocol | `Lines`, `LinePipeline` | chunking never shows, only line endings are lost, lines sent are a prefix in every interleaving and all of them can arrive, exact round-trip conditions, through the pipeline too |
| Kafka consumer and retry | `Retries`, `KafkaConsumer` | what a poll does is what the outside answers call for, and they leave it no choice; attempt accounting across deliveries, exact give-up round, partition prefixes, commit requests |
| worker pool | `WorkerPool` | no send on a closed channel, each call starts each of its tasks once and can always return, workers can always leave, live tasks bounded by the size and abandoned ones not at all |
| in-memory cache | `MemoryCache` | lazy deletion cannot be observed, with the exact conditions on groups and clock |
| quaternions | `Quaternions`, `Rotations`, `Turning` | the matrix turns vectors as Hamilton's product does; round trips over exact reals from both sides: exactly the rotation matrices come back; no matrix makes the conversion divide by zero |
| SQL identifiers | `SqlQuoting` | quoting is undone by a reader for PostgreSQL's syntax |

Outside answers (a handler's result, a failing disk or bucket request, a reader's bytes, which map entry comes
first, when a context ends) are parameters or free choices, so every theorem holds for all of them. Bytes are
Dafny `char`s, integers are unbounded. Nothing was executed.

Results that differ from what the code's own shape suggests:

* A reader that fails right after a number and a dot makes the tokenizer return a whole number where any longer
  stream would have given a float: `hasFloatFraction` drops the error (tokenizer/state.go:350-357).
  `Lexing.FractionIsLost` is that run, and `Lexing.TokensOutliveTheFailure` shows that there is no other such case.
* A task whose own context ended is abandoned, not awaited, so any number of tasks can run at once on a pool of any
  size above zero (`WorkerPool.AbandonedTasksKeepRunning`); the bound holds for tasks with both contexts live.
* `Text.Marshal` and `Read` round-trip exactly when no message holds a newline or ends in a carriage return
  (`Lines.RoundTrip`).
* The cache mixes up two groups exactly when one is the other, a colon and more
  (`MemoryCache.RightExactlyWhenApart`). With groups apart it loses a live entry exactly when an earlier Get read past
  its expiry and the clock was set back since (`MemoryCache.WrongExactlyWhenSeenExpired`).
* An operation whose list of securities is there but empty, as in `security: []`, makes the generator index an empty
  list (gen/api.go:900-907). The model gives that panic its own error, `EmptySecurity`; a run ends in it exactly when
  such an operation comes before anything else that is wrong (`RouteSchemas.PanicsExactlyOnEmptySecurity`).
* A map field whose values are not messages makes the generator dereference nil (gen/api.go:671-677). The model gives
  that its own error too, `NilMessage` (`RouteSchemas.MapOfScalarsPanics`).
* Moving a file to another spelling of its own path loses it: `Move` compares the two strings
  (storage/providers/sync.go:233), and a disk child takes both for one file, copies it onto itself and deletes it. A
  child that took part in a successful move has the content at the destination exactly when it keeps the two paths
  apart (`SyncStorage.ArrivesExactlyWhenApart`); `SyncStorage.MoveToOtherSpelling` is a move that loses the file, and
  the rollback of `Copy` deletes the source in the same way (`SyncStorage.RollbackKeepsExactlyWhenApart`).
* In a bucket, completing an upload also clears the chunks of every other upload of the object whose id starts with
  its own, because the cleared prefix has no slash at its end (gcs/gcs.go:244-274, 417-419). The ids that the code makes
  are of one length, so it never meets such ids (`MultipartPaths.DirHoldsChunk`, `GcsStorage.Client.ClearsLongerIds`).

## Model

| member | source | states |
|---|---|---|
| ByteStreams.ReaderIterator.HasNext | iterator/reader.go:24-34 | true exactly while a byte is left; looking ahead keeps the unread bytes; false is final |
| ByteStreams.ReaderIterator.Next | iterator/reader.go:36-44 | hands out the unread bytes in order, a zero byte once there are none |
| ByteStreams.ReaderIterator.ReadNext | iterator/reader.go:50-70 | one byte of lookahead; an end that is neither EOF nor unexpected EOF is kept as the error |
| ByteStreams.Peekable.FillBuffer | iterator/consumable.go:132-170 | buffer followed by unread source is unchanged on every path; which of the five errors is given for which count, source and sticky error; the buffer grows no further than asked |
| ByteStreams.Peekable.PeekN | iterator/consumable.go:90-99 | a fresh array holding exactly the next items, the stream unchanged whatever the outcome |
| ByteStreams.Peekable.ConsumeN | iterator/consumable.go:113-126 | drops exactly the next num items of the stream, or none when it fails |
| ByteStreams.Peekable.ZeroAndReslice | iterator/consumable.go:113-126 | zeroes the dropped places of the backing array and leaves the kept items intact |
| ByteStreams.PeekThenConsume | iterator/consumable.go:90-126 | a peeked slice still shows the peeked items after later items were zeroed and dropped |
| TokenGrammar.TypeIsUnique | tokenizer/state.go:76-97 | the thirteen token languages are disjoint and none holds the empty word |
| TokenGrammar.LongestIsUnique | tokenizer/state.go:70-98 | a byte sequence has at most one longest match, type and length |
| TokenGrammar.NumberIsLongest | tokenizer/state.go:120-208 | all the digits after an optional minus are the longest match when no base prefix and no fraction follows |
| TokenGrammar.HexIsLongest | tokenizer/state.go:256-314 | a base prefix with all the hexadecimal digits that follow is the longest match of any token type |
| TokenGrammar.QuotedUpTo | tokenizer/state.go:316-348 | a prefix is a quoted string exactly when it ends at the first quote that an odd run of backslashes does not precede |
| TokenGrammar.QuotedIsLongest | tokenizer/state.go:316-348 | the string up to the first unescaped quote is the longest match |
| TokenGrammar.StuckOnlyOnOpenQuote | tokenizer/state.go:316-324 | no start of a stream is a token if and only if it opens with a quote that is never closed |
| Tokenizer.State.Read | tokenizer/state.go:367-395 | takes one byte and reports the position it had: bytes before it, newlines before it, bytes since the last newline |
| Tokenizer.State.Advance | tokenizer/state.go:384-395 | keeps offset, column and line equal to what the consumed bytes say |
| Tokenizer.State.ReadRun | tokenizer/state.go:213-233 | appends exactly the maximal run of matching bytes; an error only when the run reaches a failing end |
| Tokenizer.State.ParseBasePrefix | tokenizer/state.go:256-314 | after a lone zero: a complete hexadecimal or binary token, the reader's error, or proof that no based number starts here |
| Tokenizer.State.ParseDecimal | tokenizer/state.go:152-207 | the longest number or float from the digits read so far |
| Tokenizer.State.ParseNumber | tokenizer/state.go:120-208 | minus sign, number, float, hexadecimal and binary told apart as the longest match demands |
| Tokenizer.State.ParseWord | tokenizer/state.go:210-236 | the longest word |
| Tokenizer.State.ParseQuotedString | tokenizer/state.go:316-348 | the string up to its first unescaped quote, unknown token when the stream ends first, the reader's error when it fails first |
| Tokenizer.State.ParseToken | tokenizer/state.go:70-98 | whatever the stream, the longest match at its exact position or the one error the stream allows; on an error no byte of the stream disappears |
| Tokenizer.State.Next | tokenizer/state.go:51-60 | the same, with the error kept and a nil token |
| Tokenizer.State.HasNext | tokenizer/state.go:32-49 | true exactly when a byte is left and nothing has failed; keeps a reader's error, forgets a mere end |
| Tokenizer.PositionAfterOneMore | tokenizer/state.go:384-395 | how a position changes over one byte |
| Lexing.Materialize | iterator/iterator.go:9-21 | the loop over HasNext and Next gives the longest-match reading of the whole stream, with the trailing nil token and the error a stuck or failing stream calls for |
| Lexing.ContentsArePrefix | tokenizer/state.go:70-98 | contents of the tokens concatenate to the start of the input |
| Lexing.EachTokenInPlace | tokenizer/state.go:367-395 | every token of a run is the longest match right where the contents before it end, with the position of that place |
| Lexing.LexedIsUnique | tokenizer/state.go:70-98 | two longest-match readings of one input are prefixes of each other |
| Lexing.OutcomeIsUnique | iterator/iterator.go:9-21 | the stream and its end alone decide the tokens, the trailing nil token and the error |
| Lexing.FailsOnlyOnOpenQuote | tokenizer/state.go:316-324 | over a stream that just ends a run fails if and only if some token boundary opens a quote that is never closed; otherwise contents add up to the whole input |
| Lexing.DecidedStays | tokenizer/state.go:350-357 | a token returned before a failing end is the longest match of every longer stream if and only if it is not a number about to get a fraction |
| Lexing.TokensOutliveTheFailure | tokenizer/state.go:350-357 | the tokens before a reader's failure are those of every longer stream, if and only if the last did not lose its fraction |
| Lexing.FractionIsLost | tokenizer/state.go:350-357 | the failing case: "1." and then a failure gives the number 1, where "1.5" is one float |
| TokenShapes.WordShape | tokenizer/state.go:397-411 | a word is a letter followed by letters, digits and underscores, in ASCII ranges |
| TokenShapes.SymbolShape | tokenizer/state.go:76-97 | a symbol is one byte that is no space, tab, line end, quote, letter or digit |
| TokenShapes.NumberShape | tokenizer/state.go:120-208 | a number is an optional minus and decimal digits |
| TokenShapes.FloatShape | tokenizer/state.go:177-205 | a float is an optional minus, digits, one dot, digits |
| TokenShapes.HexShape | tokenizer/state.go:256-314 | an optional minus, 0x or 0X, hexadecimal digits of either case |
| TokenShapes.BinaryShape | tokenizer/state.go:256-314 | an optional minus, 0b or 0B, zeros and ones |
| TokenShapes.PiecesAreUnescaped | tokenizer/state.go:316-348 | reading escapes from the front agrees with counting the backslashes before a quote |
| TokenShapes.QuotedShape | tokenizer/state.go:238-248 | between its quotes a string is read in pieces from the front: with single and double quotes a backslash takes the next byte along, with backticks it does not |
| TokenShapes.OneTokenComesBack | iterator/iterator.go:9-21 | a run over the bytes of one token, of any type, gives that token alone |
| TokenShapes.WordComesBack | tokenizer/state.go:210-236 | a run over a word gives that one word, underscores and digits included |
| Promises.Promise.Resolve | promise/promise.go:83-96 | settles once: every waiting channel gets the value and is closed; a second call changes nothing and says so |
| Promises.Promise.Reject | promise/promise.go:98-115 | likewise for an error; a nil error is refused without effect |
| Promises.Promise.Complete | promise/promise.go:157-169 | the loop leaves the channels as the settling function says and the list empty |
| Promises.Promise.AddChannel | promise/promise.go:117-134 | a new channel is listed while unsettled, and filled and closed at once when settled |
| Promises.Promise.RemoveChannel | promise/promise.go:136-155 | says whether the promise was unsettled; only then is the channel unlisted and closed |
| Promises.SettleTouchesEachOnce | promise/promise.go:157-169 | each listed channel gets one send and one close, every other channel is left alone |
| Promises.WithoutAt | promise/promise.go:136-155 | cutting a slice at an index drops exactly that channel |
| PromiseProtocol.StepKeepsInv | promise/promise.go:48-212 | every atomic step keeps the protocol's invariant |
| PromiseProtocol.NoFault | promise/promise.go:83-169 | on no run is there a send on a full or closed channel or a second close; at most one Resolve or Reject succeeds |
| PromiseProtocol.SendsAndClosesAreSafe | promise/promise.go:117-169 | on every run each send is to an open empty channel and each close of an open one |
| PromiseProtocol.SettledByFirstCall | promise/promise.go:83-115 | a run settles the promise exactly when it has a Resolve, or a Reject of an error, and with what the first of these was given |
| PromiseProtocol.EveryGetAnswers | promise/promise.go:48-73 | once the promise is settled or a Get's context is done, at most six steps of its own, none of them blocked, take the Get to its answer |
| PromiseProtocol.NewGetAnswers | promise/promise.go:48-73 | a Get called after settling answers what the first settling call was given |
| PromiseProtocol.NewChanReceives | promise/promise.go:75-77 | Chan always gives a channel of its own, which waits for the outcome or can be received from at once |
| PromiseProtocol.AnswerIsTaken | promise/promise.go:171-198 | a Get that answers has taken the value off its own channel |
| PromiseProtocol.SubscribersGetTheOutcome | promise/promise.go:75-77 | a channel from Chan yields at most one value, what the first settling call of the run was given, and is closed only after it; both have happened once settled and unlocked |
| PromiseProtocol.GetAnswersRightly | promise/promise.go:48-73 | a Get ends with the value or error that the first settling call of the run was given, or with its own context's error if that context was cancelled; never with the channel-closed, not-resolved or promise-resolved errors unless a Reject was given one |
| PromiseProtocol.GivesUpOnlyUnsettled | promise/promise.go:136-155 | a Get gives the context's error only in the step that finds the promise unsettled and takes its channel away |
| PromiseProtocol.LastReceiveNeverBlocks | promise/promise.go:66-72 | when removal was refused the value is already in the channel |
| PromiseProtocol.OutcomeIsFinal | promise/promise.go:83-115 | no step changes an outcome or a returned answer |
| PromiseProtocol.CompleteRefinesSettle | promise/promise.go:157-169 | the loop of atomic sends and closes does what the method Complete is proved to do |
| ApiModels.MentionsAreTargets | gen/api.go:545-549 | the references in a model's schema are the schema names of the models its fields refer to, no more and no less |
| ApiModels.FollowsToOneEnd | gen/api.go:835-838 | the alias chain of an error name has one end |
| ModelShapes.FieldShape | gen/api.go:647-735 | which property a field gets, by its kind and the flags for map and repeated |
| ModelShapes.ReferenceShape | gen/api.go:671-694 | a reference or a map names the schema at the end of the target's chain of error aliases |
| ModelShapes.UnionShape | gen/api.go:805-811 | a model is a union at the top if and only if it has two fields and all its fields share one oneof |
| ModelShapes.ObjectShape | gen/api.go:737-822 | otherwise it has one property for each field that stands alone, an optional one's own oneof included, and one for each oneof of several fields, with exactly those fields |
| ModelShapes.RequiredShape | gen/api.go:725-761 | required are, in the order of the fields, exactly those that stand alone and are not optional, or are repeated or required |
| SchemaClosure.Generator.AddSchema | gen/api.go:835-861 | follows error aliases, then claims and describes the model; success keeps the unfinished claims as they were, failure names a fault of a model reachable from the name |
| SchemaClosure.Generator.FieldToProperty | gen/api.go:647-735 | the field's property as its descriptor and the proto file call for, its target claimed; or the field's own fault or one further on |
| SchemaClosure.Generator.DescribeModel | gen/api.go:604-833 | terminates on cyclic graphs; a model already claimed is left alone, a new one gets the schema it should have |
| SchemaClosure.Generator.DescribePlain | gen/api.go:737-762 | the first pass gives exactly the plain fields their properties, the required ones in order, and groups the rest by oneof |
| SchemaClosure.Generator.DescribeVariants | gen/api.go:774-781 | the variants of a oneof, for every order in which its fields can be walked |
| SchemaClosure.Generator.DescribeOneOfs | gen/api.go:770-822 | a message that is nothing but one oneof becomes a union at the top, any other keeps a property per oneof |
| SchemaClosure.UnionDescribed | gen/api.go:805-815 | the special case gives the model's schema |
| SchemaClosure.ObjectDescribed | gen/api.go:826-830 | the general case gives the model's schema |
| SchemaClosure.SchemaSet | gen/api.go:826-830 | finishing a schema keeps the invariant that its references have been claimed, those of models still in progress included |
| RouteSchemas.GenerateOperation | gen/api.go:900-1059 | the references of an operation, all of them claimed, or an error of the first thing wrong with it: securities, parameters, request, responses in order with their models and statuses, verb; what comes before it was done |
| RouteSchemas.Generate | gen/api.go:867-1065 | hidden operations skipped, file uploads without a request model; nothing unfinished at the end; a failed run did all operations before the one that ended it, and ends as that one does, after the names before its fault were described |
| RouteSchemas.FailureIsFault | gen/api.go:900-1059 | whatever ends an operation is a fault of the operation or of a model it needs |
| RouteSchemas.SoundSpelledOut | gen/api.go:900-1058 | the checks of an operation by the literal verbs and parameter types that OpenAPI has |
| RouteSchemas.ReferencesSpelledOut | gen/api.go:962-1027 | a request refers to its model unless it uploads files, responses refer to theirs in order |
| RouteSchemas.NothingOpen | gen/api.go:545-549 | once no claim is open, every reference inside a schema names an entry of schemas |
| RouteSchemas.OperationsReferToSchemas | gen/api.go:990-1027 | every request and response reference of a successful run names an entry of schemas |
| RouteSchemas.NoDanglingReference | gen/api.go:545-549 | after a successful run every reference, in operations and in schemas, names an entry of schemas |
| RouteSchemas.ComponentsAreReachableModels | gen/api.go:602-861 | when reachable models have different names, schemas holds exactly the models reachable from the routes, each with its own description |
| RouteSchemas.EntriesDescribeWantedModels | gen/api.go:602-861 | names that differ or not, after a successful run every operation is sound, every entry describes a sound wanted model of its name, and every name the routes give has one |
| RouteSchemas.SucceedsExactlyWhenSound | gen/api.go:602-1065 | with different names a run succeeds if and only if every visible operation and every reachable model is sound |
| RouteSchemas.SoundIsFaultless | gen/api.go:900-1058 | an operation is sound exactly when none of its checks can fail and the first of its securities is there when the list is |
| RouteSchemas.EndsInFirstFault | gen/api.go:867-1065 | with different names a run fails if and only if some visible operation is bad, itself or through its models, and it ends at the first such operation in the first thing wrong with that |
| RouteSchemas.PanicsExactlyOnEmptySecurity | gen/api.go:900-907 | with different names a run ends in the panic if and only if some visible operation has an empty list of securities and everything before it, models included, is sound |
| RouteSchemas.OnlyFaultIsReported | gen/api.go:867-1065 | with different names and one thing to go wrong, the run ends in it |
| RouteSchemas.EmptySecurityPanics | gen/api.go:900-907 | a route with an empty list of securities ends every run in the panic |
| RouteSchemas.MapOfScalarsPanics | gen/api.go:671-677 | a route that needs a model with a map of scalars ends every run in the nil dereference |
| MultipartPaths.PathsAreDistinct | gcs/gcs.go:489-495 | chunks, groups and the object never share a path, for any names and numbers |
| MultipartPaths.UploadsKeepApart | gcs/gcs.go:489-495 | chunks and groups of two uploads never share a path, of one object or of two, when the ids differ and are of one length or without slashes |
| MultipartPaths.DirHoldsChunk | gcs/gcs.go:489-495 | an upload's directory starts a chunk's path of another upload of the object if and only if its id starts the other's |
| MultipartPaths.DecimalInjective | storage/providers/os.go:352-354 | different chunk numbers print differently |
| MultipartPaths.ConcatOfSplit | gcs/gcs.go:447-469 | assembling two lists of names one after the other is assembling their concatenation |
| GcsStorage.Client.ComposeOnce | gcs/gcs.go:471-487 | the target becomes the concatenation of its sources, or nothing changes |
| GcsStorage.Client.ComposeGroup | gcs/gcs.go:458-466 | the next 32 chunks move into the next group object, of at most 32 sources, and groups so far add up to the chunks taken |
| GcsStorage.Client.ComposeAll | gcs/gcs.go:447-469 | works for exactly 1 to 1024 chunks that are all there when no request fails; then the target is the in-order concatenation and each compose has 1 to 32 sources; otherwise only group objects may have changed |
| GcsStorage.Client.GroupAdded | gcs/gcs.go:457-467 | writing a group disturbs neither chunks nor earlier groups |
| GcsStorage.Client.DeleteDir | gcs/gcs.go:244-274 | deletes only what lies under the prefix, and all of it on success |
| GcsStorage.Client.Init | gcs/gcs.go:497-513 | opens the client once, and again after a failure |
| GcsStorage.Client.UploadMultipartChunk | gcs/gcs.go:386-394 | stores the body under the chunk's own name exactly when neither opening the client nor the upload fails, else changes nothing |
| GcsStorage.Client.CompleteMultipartUpload | gcs/gcs.go:396-422 | the object is the chunks in the caller's order, nothing outside the upload's prefix changes, no chunks is its own error, a failure to open the client fails the call and a failed clean-up does not |
| GcsStorage.Client.UploadAll | gcs/gcs.go:382-422 | chunks uploaded one by one and completed in any order of the caller's end as exactly those bodies in that order; without failures exactly for 1 to 1024 of them |
| GcsStorage.BaseDirsKeepApart | gcs/gcs.go:514-520 | clients with different base directories never share an object, and every object lies under its client's directory |
| GcsStorage.Client.OtherChunkStays | gcs/gcs.go:396-422 | completing an upload, or failing to, leaves every chunk of another upload of the object as it was |
| GcsStorage.Client.ClearsLongerIds | gcs/gcs.go:244-274 | where one id starts another, the completed upload has cleared the other's chunks |
| GcsStorage.Client.UploadBoth | gcs/gcs.go:388-422 | two uploads of one object, chunks and completions in any order of turns: each that completes leaves its own bodies, and without failures each completes that has had its turns |
| OsStorage.Provider.UploadMultipartChunk | storage/providers/os.go:231-239 | a chunk file with the body, other files untouched |
| OsStorage.Provider.CopyChunkToTemp | storage/providers/os.go:268-287 | appends one chunk to the temporary file, all or an error |
| OsStorage.Provider.FillAndRename | storage/providers/os.go:268-303 | the file is replaced by the concatenation only after every chunk was copied, synced and closed |
| OsStorage.Provider.CompleteMultipartUpload | storage/providers/os.go:241-312 | the file is the chunks in order or no file changes; which calls fail exactly; no temporary file stays |
| OsStorage.Provider.UploadAll | storage/providers/os.go:227-312 | chunks uploaded one by one and completed in any order of the caller's end as exactly those bodies in that order; without failures for any number of them but none |
| OsStorage.Provider.OtherChunkStays | storage/providers/os.go:241-350 | completing an upload, or failing to, leaves every chunk of another upload of the file as it was |
| OsStorage.Provider.UploadBoth | storage/providers/os.go:231-312 | two uploads of one file in any order of turns each end in their own bodies |
| OsStorage.ProvidersAgree | storage/providers/os.go:241-312 | an upload completed in a bucket and on the disk from the same chunks leaves the same bytes under the object's name |
| SyncStorage.Sync.Copy | storage/providers/sync.go:204-228 | all children have the copy, or a child's copy did fail: then it was undone below that child, but for deletes that failed too, and never made above it |
| SyncStorage.Sync.Move | storage/providers/sync.go:230-252 | in every state every child that keeps the two paths apart passes through, the content can be read at source or destination; success and each failure leave every child exactly as stated, a child for which the paths are one included; a move onto the same string does nothing |
| SyncStorage.Sync.StillThereAfterRollback | storage/providers/sync.go:204-252 | a rolled-back copy leaves the source readable on every child that keeps the two paths apart |
| SyncStorage.ArrivesExactlyWhenApart | storage/providers/sync.go:230-252 | after a successful move a child has the content at the destination if and only if it keeps the two paths apart; otherwise it lost it |
| SyncStorage.RollbackKeepsExactlyWhenApart | storage/providers/sync.go:204-228 | an undone copy leaves the source in place if and only if the child keeps the two paths apart |
| SyncStorage.MoveToOtherSpelling | storage/providers/sync.go:230-252 | the failing input: without any failure, "a.txt" moved to "./a.txt" is gone from every disk child |
| SyncStorage.Sync.CreateMultipartUpload | storage/providers/sync.go:298-321 | one upload per child in order; or some child's operation did fail, and exactly those opened were aborted |
| SyncStorage.Sync.UploadMultipartChunk | storage/providers/sync.go:323-391 | every child has the same body under its own upload; or an operation of a child or of the spool did fail, and the children before it have the body |
| SyncStorage.Sync.CompleteMultipartUpload | storage/providers/sync.go:393-421 | each child completes its own upload from its own entries in the caller's order; a foreign upload, a foreign chunk or a wrong number of entries is found before any child is asked |
| SyncStorage.Sync.CastsExactlyFitting | storage/providers/sync.go:393-421 | the chunk check passes exactly when every chunk has one entry per child |
| SyncStorage.AssembleIsFlatten | storage/providers/sync.go:393-421 | a child's entries assemble the bodies behind them in order |
| SyncStorage.ReplicasAgree | storage/providers/sync.go:393-421 | after a completed upload all children hold the concatenation of the bodies behind their entries |
| SyncStorage.UploadAll | storage/providers/sync.go:298-421 | an upload opened, given its chunks and completed in any order of the caller's works if and only if there are children, the order is not empty and nothing failed on the way; then every child holds exactly those bodies in that order |
| Lines.Marshal | net/protocol/text.go:20-39 | each message followed by one newline, unless the context ended first |
| Lines.SplitChunks | net/protocol/text.go:41-86 | the lines sent depend only on the concatenation of the chunks and on where sending was refused; messages ended by carriage return and newline are sent as they were, however they were cut |
| Lines.SendCompleteLines | net/protocol/text.go:52-72 | sends every line the pending bytes complete and keeps the rest |
| Lines.AppendExtendsRemainder | net/protocol/text.go:52-72 | more bytes never change a line already complete |
| Lines.NoLineHoldsANewline | net/protocol/text.go:52-86 | no line holds a newline |
| Lines.LinesOfMarshalled | net/protocol/text.go:20-90 | reading marshalled messages gives them back less one trailing carriage return each |
| Lines.OnlyEndingsAreLost | net/protocol/text.go:41-90 | the stream is its lines, each followed by a newline or a carriage return and a newline, the last perhaps cut off: nothing else is dropped or made up |
| Lines.CrlfRoundTrip | net/protocol/text.go:52-90 | messages each ended by a carriage return and a newline come back if and only if they hold no newline, carriage returns of their own included |
| Lines.RoundTrip | net/protocol/text.go:20-90 | reading undoes marshalling if and only if no message holds a newline or ends in a carriage return |
| LinePipeline.StepKeepsInv | net/protocol/common.go:19-77 | every step of reader, splitter, caller and context keeps the account of all bytes and lines |
| LinePipeline.SentIsPrefix | net/protocol/text.go:41-86 | on every interleaving the lines sent are the first lines of the bytes the reader returned, and the caller has them in that order but for one still in the channel |
| LinePipeline.CompleteUnlessCancelled | net/protocol/text.go:41-86 | without a cancellation in the run a closed line channel means that every line of what the reader returned was sent |
| LinePipeline.NoLineIsCutShort | net/protocol/common.go:19-64 | an unterminated last line goes out only when the reader finished and no chunk was abandoned |
| LinePipeline.MessagesComeThrough | net/protocol/text.go:20-90 | over uncancelled runs to the end marshalled messages arrive if and only if all are clean, and messages ended by carriage return and newline if and only if they hold no newline |
| LinePipeline.NeverStuck | net/protocol/common.go:19-77 | until both goroutines have returned, one of them, the reader or the caller can go on |
| LinePipeline.AllLinesCanArrive | net/protocol/text.go:41-86 | from wherever an uncancelled run has come the caller can still get every line of what the reader returned |
| LinePipeline.CancelledWindsDown | net/protocol/common.go:33-77 | once the context is done both goroutines can return without the caller taking another line |
| Retries.Do | retry/retry.go:95-152 | the last call's answer, all earlier ones failed, calls within the bound, stopping early exactly for success or a context found done; how many looks at the context that took |
| Retries.CallsMade | retry/retry.go:95-152 | under a live context an enabled policy of m attempts makes k calls when the k-th is the first to succeed and m when all fail; any other policy makes one call, whatever the context |
| Retries.DoWithCondition | retry/retry.go:154-213 | the same with the caller's condition, the number of calls included, and the one case in which a nil-error answer is replaced by the context's error |
| Retries.RetriedOnlyOnce | retry/retry.go:95-152 | the operation's and the context's answers decide how many calls and looks a retry takes |
| KafkaConsumer.Consumer.HandleFailedRecord | kafka/consumer.go:333-369 | a record is retried below the limit; at exactly the limit-th failed round since its last disposal the failed-message handler is asked and its answer decides between stopping and skipping, with one commit request for a skip |
| KafkaConsumer.Consumer.Round | kafka/consumer.go:290-300 | one retried handler run, as the handler's and the context's answers call for; a failure is counted once |
| KafkaConsumer.Consumer.HandleRounds | kafka/consumer.go:290-318 | the loop ends; every round but the last failed and was followed by looks at a live context, and the last one says how it ended |
| KafkaConsumer.Consumer.ProcessRecord | kafka/consumer.go:241-329 | what happens to a record, its ending, its events, the questions asked and the commits requested, is what the outside answers from that moment on call for; handler calls at most the rounds left times the policy's bound |
| KafkaConsumer.Consumer.DecodeFailed | kafka/consumer.go:250-269 | an undecodable record stops its partition exactly when a decode error handler is there and rejects it; otherwise it is skipped with one commit request |
| KafkaConsumer.Consumer.ProcessPoll | kafka/consumer.go:184-200 | per partition exactly the records up to and including the first stop, in fetch order, each processed as the answers call for from where the one before it stopped; with AutoCommit one commit request per record that did not stop, and no other |
| KafkaConsumer.Consumer.StepIsDetermined | kafka/consumer.go:241-329 | the outside answers decide a record's rounds, its ending and where the handler and the context are left |
| KafkaConsumer.Consumer.PollIsDetermined | kafka/consumer.go:184-200 | the outside answers leave a poll no choice: which records, rounds, endings, calls and looks |
| KafkaConsumer.Consumer.CommitsAfterAll | kafka/consumer.go:184-329 | the commit requests of any number of processed records are those that did not stop their partition, in order |
| KafkaConsumer.CountFailed | kafka/consumer.go:344-348 | the attempts map equals the failed rounds since disposal, after a failed round |
| KafkaConsumer.CountDisposed | kafka/consumer.go:320-320 | the attempts map equals the failed rounds since disposal, after the entry's deletion |
| KafkaConsumer.CommitsOf | kafka/consumer.go:262-326 | the log of a record has one automatic commit for an ending that does not stop, none for the others |
| KafkaConsumer.WasProcessed | kafka/consumer.go:189-199 | one more record keeps every partition's prefix shape |
| KafkaConsumer.TimesIsProduct | kafka/consumer.go:290-318 | the bound on handler calls is the product of rounds and calls per round |
| WorkerPool.StepKeepsInv | pool/pool.go:63-155 | every step keeps the pool's invariant |
| WorkerPool.NoFault | pool/pool.go:63-113 | on no run is there a send on a closed channel, a channel closed twice or a task started twice |
| WorkerPool.ReturnsAfterStartingAll | pool/pool.go:63-79 | ExecuteTask returns nil only after each of its tasks was started, exactly once |
| WorkerPool.RunIsAsCalled | pool/pool.go:81-113 | after any run the pool is started exactly when no Stop came after the last Start, and exactly the cancelled contexts are done |
| WorkerPool.CallStartsItsTasks | pool/pool.go:63-79 | from the call of ExecuteTask to its return: as many new tasks as it was given, under its context, each started exactly once |
| WorkerPool.CallCanReturn | pool/pool.go:63-155 | with a worker and a live context a call can always come to its end, needing only tasks to end and workers to notice |
| WorkerPool.WorkerCanLeave | pool/pool.go:115-155 | a worker whose pool was stopped or whose context is done can leave within three steps, and waits for its task only if the context is live |
| WorkerPool.AtMostSizeLive | pool/pool.go:115-155 | tasks of one generation running with both contexts live number at most the size |
| WorkerPool.AbandonedTasksKeepRunning | pool/pool.go:130-150 | the bound fails without that condition: for every size above zero and every n a run with n tasks running |
| WorkerPool.EmptyPoolStartsNothing | pool/pool.go:63-113 | without workers no task is ever running |
| MemoryCache.Memory.Get | cache/provider/memory.go:50-71 | its answer as a function of the calls so far; with a forward clock and no group of the history extending the asked one by a colon, or extended by it, the last undeleted Set of the pair if still within its time to live, else nothing |
| MemoryCache.Memory.Set | cache/provider/memory.go:73-88 | the stored entries stay what the history of calls says |
| MemoryCache.Memory.Delete | cache/provider/memory.go:90-103 | the stored entries stay what the history of calls says |
| MemoryCache.SeenExpiredIsExpired | cache/provider/memory.go:59-66 | under a forward clock an entry a Get removed is one no later Get could return |
| MemoryCache.SeenExpiredMeans | cache/provider/memory.go:59-66 | an entry was removed exactly when some Get read past its expiry and the key was not set or deleted since |
| MemoryCache.KeysMeet | cache/provider/memory.go:105-107 | two groups can share a storage key if and only if one is the other, a colon and more |
| MemoryCache.GroupKeyInjective | cache/provider/memory.go:105-107 | groups that are apart have unambiguous keys |
| MemoryCache.LastSetIsPerPair | cache/provider/memory.go:105-107 | with the other groups apart, the history of a storage key is that of its pair |
| MemoryCache.WrongExactlyWhenSeenExpired | cache/provider/memory.go:50-71 | with groups apart an answer is wrong if and only if an earlier Get read past the expiry of an entry that the clock now says is live |
| MemoryCache.RightExactlyWhenApart | cache/provider/memory.go:50-107 | for any set of groups, all answers after all histories with a forward clock are right if and only if the groups are pairwise apart |
| MemoryCache.WrongOnceClockGoesBack | cache/provider/memory.go:59-66 | the failing case of the clock: an entry within its time to live is not found |
| Quaternions.RadicandIsAtLeastOne | util/quaternion.go:10-42 | whatever the matrix, the branch taken roots a number of at least one |
| Quaternions.AlwaysAQuaternion | util/quaternion.go:7-42 | no matrix at all makes the conversion divide by zero or root a negative number |
| Quaternions.PivotIsNonZero | util/quaternion.go:7-42 | for a unit quaternion's matrix the square of the pivot is at least a quarter, and the radicand is four times it |
| Quaternions.RoundTrip | util/quaternion.go:7-55 | converting a unit quaternion to a matrix and back gives q when the pivot is positive and -q otherwise |
| Quaternions.MatrixRoundTrip | util/quaternion.go:7-55 | the matrix of a unit quaternion comes back exactly |
| Quaternions.NegHasSameMatrix | util/quaternion.go:44-55 | q and -q have the same matrix |
| Rotations.RotationComesBack | util/quaternion.go:7-55 | every matrix with orthonormal rows and determinant 1 becomes a unit quaternion whose matrix it is |
| Rotations.UnitGivesRotation | util/quaternion.go:44-55 | the matrix of a unit quaternion has orthonormal rows and determinant 1 |
| Rotations.ComesBackExactlyWhenRotation | util/quaternion.go:7-55 | a matrix becomes a unit quaternion whose matrix it is if and only if it is a rotation |
| Rotations.RotationColumns | util/quaternion.go:7-42 | the columns of such a matrix are orthonormal as well |
| Turning.MatrixTurns | util/quaternion.go:44-55 | the matrix of a unit quaternion q takes every vector v to q v q*, Hamilton's product |
| Turning.BranchOfUnit | util/quaternion.go:7-42 | which branch the way back takes, by the components of the quaternion, ties included |
| SqlQuoting.QuoteIdents | postgres/util.go:27-35 | the loop gives the joined list of quoted names |
| SqlQuoting.OnConflict | postgres/util.go:37-43 | without columns no list; otherwise what stands between the parentheses reads back as the columns, less NULs |
| SqlQuoting.ReadBodyUndoesDoubling | postgres/util.go:21-25 | a reader of quoted identifiers stops at the name's own closing quote and gives the name back |
| SqlQuoting.ReadIdentsUndoesQuoting | postgres/util.go:21-35 | reading a quoted list gives the names back, whatever quotes, commas and spaces they hold, less NULs |
| SqlQuoting.OnlyNulsAreDropped | postgres/util.go:21-25 | what is dropped from a name are its NUL bytes, each of them and no other byte |
| SqlQuoting.SameTextIffSameNames | postgres/util.go:21-35 | two lists quote alike if and only if they agree up to NULs |
| SqlQuoting.Injective | postgres/util.go:21-35 | on NUL-free lists quoting is injective |
| SqlQuoting.ClauseDeterminesColumns | postgres/util.go:37-43 | a conflict clause determines its columns |

## Left out

- Tokenizer.State.Read: positions are unbounded; the source's 64-bit counters would wrap after 2^64 bytes.
- ByteStreams.Peekable.Peek2: Peek3, Consume2 and Consume3 follow the same pattern and would add nothing; HasNext and Next, which bypass the buffer, are never used by the tokenizer. Items are bytes, not of any type.
- Lexing.Materialize: modelled over the tokenizer only, not over every iterator.
- PromiseProtocol.StepKeepsInv: the concurrent protocol is on values, one step per mutex section or channel operation; that a promise is ever settled is not claimed, and EveryGetAnswers needs the scheduler to run the Get.
- LinePipeline.StepKeepsInv: the two goroutines are on values, and progress is shown as steps that can be taken, not as fairness; socket deadlines and the unwatching of the context (net/protocol/common.go:79-101) are left out.
- WorkerPool.StepKeepsInv: the pool is on values; that ExecuteTask does return, rather than can, is not claimed: tasks may run for ever. Which error a refused call returns is left out.
- SchemaClosure.Generator.FieldToProperty: titles, descriptions, formats and enum values are not in the properties, and a message's nesting is one full name.
- SchemaClosure.Generator.DescribeOneOfs: oneof names and variants are walked in any order where the source sorts them; a schema holds its variants as a map.
- RouteSchemas.Generate: routes are one list of operations; tags, path items, parameters' schemas, which security is named, and the YAML are left out, whether a name is a number is an oracle, and so is the snake-case schema name. An alias that leads round in a circle, on which the source never returns, is excluded.
- RouteSchemas.ComponentsAreReachableModels: two reachable models with one schema name are excluded; the source then describes only the first of them. What holds without that is in RouteSchemas.EntriesDescribeWantedModels.
- RouteSchemas.EndsInFirstFault: when several things are wrong with the models one name leads to, which of them is met first is left open; MapOfScalarsPanics is a case with one only.
- GcsStorage.Client.UploadMultipartChunk: retries and the metadata of uploads are left out; looking the metadata up never fails (storage/metadata.go:71).
- GcsStorage.Client.ComposeAll: the service's limit of 32 sources is part of the bucket; the number of components of an object is not.
- OsStorage.Provider.CompleteMultipartUpload: paths are plain strings; cleaning and joining by the file system is left out, and file contents are written at once or cut at any point.
- SyncStorage.Sync.Copy: child operations change nothing when they fail; a rollback deletes and does not restore an older destination, as in the source.
- SyncStorage.Sync.Move: the children are distinct objects, and how a child reads paths is a function of its own; of a disk's, only that a leading "./" does not matter is spelled out.
- Lines.SplitChunks: the refused send is a parameter; its interleavings are in LinePipeline.
- Retries.Do: delays and backoff (retry/retry.go:81-93) are left out; a wait is a look at the context.
- KafkaConsumer.Consumer.ProcessRecord: without an attempt limit the source retries for ever; the contract then asks that the context or a success ends the rounds. The order of handler calls against the other questions of a record is not recorded. Message contents and the handler's own commits are left out.
- KafkaConsumer.Consumer.ProcessPoll: connecting, polling, fetch errors and flushing offsets are left out; the failed partitions live for one poll, as in the source.
- WorkerPool.AtMostSizeLive: a task's error, which is only logged, and a panicking task are left out.
- MemoryCache.Memory.Get: Has, which ignores expiry, is left out, and so is the mutex: calls run one after the other. Get deletes an expired entry while it holds only the read lock (cache/provider/memory.go:55-62), so two Gets at once can write the map together, which the model does not show.
- Quaternions.RoundTrip: exact reals with an oracle square root; rounding, and with it NaN and infinity, is left out.
- SqlQuoting.OnConflict: the other string helpers of the file are single concatenations.
- Config structures, metrics, circuit breaker, mailer, pusher, JWT, templates and code generation: thin wrappers or text output.
