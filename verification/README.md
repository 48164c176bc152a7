# Verified model of go-web-sdk

The `web` and `middleware` packages of go-web-sdk are a thin HTTP layer over Go's net/http. This
project models the parts of them that carry real logic and proves what they are for:

- `Commit.dfy`: what a response has committed. The writer net/http supplies, the `Recorder` that shadows
  it, `Handle`, and any stack of `RequestLogger` and `Recoverer` layers around a handler. A handler is
  any sequence of writer calls that ends in a return, an error, a panic or an abort; a panic is an
  outcome that unwinds through the layers.
- `Query.dfy` (with `Text.dfy` and `Decimal.dfy`): `ParseQuery`, whatever order the parameter map is
  walked in and whatever an unstable sort does with ties, against a printer of queries.
- `EntityTags.dfy` and `Objects.dfy`: the If-None-Match scan of section 13.1.2 of RFC 9110, and
  `WriteObject` around it.
- `Disposition.dfy`: `Attachment`, against a recipient that parses the header as section 4.3 of RFC 6266
  and section 3.2 of RFC 8187 say, over byte strings and UTF-8.
- `Routing.dfy`, `Groups.dfy`, `Wiring.dfy`: `Router`, `Chain`, the compile of a group tree into one
  table, and the seal that keeps the table true.
- `Server.dfy`: `Start`, `Shutdown` and `Addr` as interleaved steps over the mutex, the one-slot channel
  and the serve goroutine.
- `Transfer.dfy`: deadlines computed in floating point, under any rounding with the relative error of
  float64, the multiply-add fused or not.
- `Problems.dfy`, `Errors.dfy`, `IfMatch.dfy`: the problem document's codec, the mapping of error trees
  to problems, and the version precondition.

`Options.dfy` holds the optional value they share. Code that changes state is a class or a method here,
each proved against a specification function or relation; what the package promises is proved about
those. A panic of the code is an outcome of the model. Strings that reach the code decoded are sequences
of Unicode scalar values, except in `Disposition.dfy`, where they are bytes. An int is 64 bits wide.

Where the code and its documentation differ, the model follows the code:

- recorder.go:11-12 says that a ReadFrom commits an implicit 200. A copy from an empty source never
  reaches the writer beneath, so the Recorder then says 200 for a response that a later WriteHeader may
  still commit as something else (`Commit.OutOfContractDisagrees`); `Commit.SimulatesIff` gives the exact
  condition under which the two agree.
- recorder.go:9-10 says that the first final WriteHeader commits. One with a status net/http refuses
  commits nothing and panics, but the Recorder has taken it down, so a Recoverer aborts the response
  where its documentation, middleware/recoverer.go:12-14, has a 500 (`Commit.RefusedStatusAborts`).
- response.go:49-50 says that a byte that is not valid UTF-8 is carried as U+FFFD. The code carries each
  run of such bytes as one: two bytes 0xFF arrive as one U+FFFD (`Disposition.TwoBytesOneReplacement`).
  The promise is kept if and only if no such byte directly follows another (`Disposition.PerByteIff`).
- problem.go:63-65 says that a document written with extension members round-trips them. One with a text
  extension named "Status" is refused on the way back (`Problems.CapitalStatusRefused`); the round trip
  holds if and only if no extension has the name of a standard member in any case
  (`Problems.RoundTripIff`).

## Model

| member | source | states |
|---|---|---|
| Commit.Recorder.WriteHeader | recorder.go:43-50 | the Recorder's new state and the writer's, and when the call panics, against the step specification |
| Commit.Recorder.Write | recorder.go:52-58 | the first Write commits an implicit 200 on both sides and forwards the payload |
| Commit.Recorder.ReadFrom | recorder.go:60-69 | as Write, for a copy of any size, the empty one included |
| Commit.Recorder.FlushError | recorder.go:78-85 | a flush that succeeds commits an implicit 200, one that fails leaves both sides alone |
| Commit.WrapWriter | recorder.go:25-30 | a Recorder is returned as it is; anything else gets a fresh one with nothing seen |
| Commit.Transparent | recorder.go:43-85 | through the Recorder, every run leaves the connection, and panics, as it would on the bare writer |
| Commit.SimulatesIff | recorder.go:9-20 | the Recorder agrees with the writer beneath after every prefix of a run if and only if the run keeps the writer's contract |
| Commit.FirstFinalWins | recorder.go:9-12 | in contract, what is committed is exactly the first final status of the run; a 1xx other than 101 never commits |
| Commit.HeaderByNumber | recorder.go:43-50 | by number: 101 and 200 to 999 commit on both sides, other 1xx pass and commit nothing, anything else panics |
| Commit.BodyByNumber | recorder.go:52-58 | a body goes out exactly on a whole connection under a status that takes one, after an implicit 200 |
| Commit.FlushAndCopy | recorder.go:60-85 | a flush that fails changes nothing and one that succeeds commits 200; a copy is one body write, of an empty source none beneath |
| Commit.OutOfContractDisagrees | recorder.go:60-69 | the concrete run outside the contract on which Recorder and writer disagree |
| Commit.ServeHandler | handler.go:19-47 | Handle's run of the handler and its answer to an error, against the specification |
| Commit.CoreEnds | handler.go:24-46 | for every handler, which of its ends are a return, a panic and an abort |
| Commit.HandleWritesOnce | handler.go:16-18 | an error after commit is logged and changes nothing on the connection; one before it sends one document, with exactly the records of a 5xx's cause and of a document that did not go out; an error that cannot be read or answered is a panic |
| Commit.ServeHTTP | middleware/recoverer.go:21-69 | a request through any stack of layers, each wrapping the writer it is given, against the specification |
| Commit.LayersKeep | middleware/logger.go:35-79 | by induction over the stack, for every handler: the records agree on one status that outer layers cannot change, and the stack's end follows from the handler's |
| Commit.EveryRecordTellsTheClientsStatus | middleware/logger.go:13-16 | one record per logger, all of one status, for every handler; for one that keeps the writer's contract it is the status the client gets, and the client gets one whenever the handler returns, or panics under a Recoverer other than by an abort |
| Commit.RecordsTellIff | middleware/logger.go:37-55 | for every handler and every stack that logs: the records carry the status the client gets if and only if the Recorder had it right when the handler ended |
| Commit.EveryLevelIsItsOwn | middleware/logger.go:57-63 | a request record is at debug exactly for a probe answered by 200 to 299 |
| Commit.EarlierRecordsStay | middleware/logger.go:35-79 | a request adds the same records, and does the same, whatever was logged before it |
| Commit.RecoverRecords | middleware/recoverer.go:39-66 | the panic record with the status seen, if any, and a second record exactly when the document does not go out |
| Commit.OnePanicOneRecordOneAnswer | middleware/recoverer.go:12-16 | for every handler and however many Recoverers are nested: one record per panic; only an abort escapes, exactly on an abort or a panic after the Recorder saw a commit; otherwise the one 500 document is on the wire |
| Commit.PanicsInContract | middleware/recoverer.go:25-67 | for a handler that keeps the writer's contract, the same told by its ending and by what the connection had committed |
| Commit.NoRecovererNoRecovery | middleware/logger.go:28-31 | for every handler, loggers alone are no recovery point: the panic leaves as it came, unlogged |
| Commit.RefusedStatusAborts | recorder.go:43-50 | outside the contract: a status net/http refuses is taken down before the panic, so the Recoverer aborts with nothing on the wire |
| Query.ParseQuery | query.go:70-171 | whatever the walk of the map, the outcome is an answer, a refusal or the panic as the relation says |
| Query.ParsePaging | query.go:78-131 | page, cursor and size, with the first fault |
| Query.ParseSorts | query.go:133-150 | every sort parameter's keys in request order, or the first value with an empty key |
| Query.SortFunc | query.go:163-168 | an ordered rearrangement, nothing said about ties |
| Query.FilterKeyGrammar | query.go:173-208 | the accepted filter keys are exactly the printed ones, each read back to its field and operator |
| Query.KeyFaults | query.go:173-208 | a refused key is refused for its first fault, under its name and with its first value |
| Query.KeysInject | query.go:173-208 | distinct filters have distinct keys, so the sort has no ties |
| Query.FiltersUnique | query.go:152-168 | the map's contents fix the ordered filters |
| Query.Deterministic | query.go:152-170 | one answer at most, and never an answer and a refusal |
| Query.OrderIndependent | query.go:152-170 | any two walks of one map agree on acceptance and on the whole Query |
| Query.LimitsPanic | query.go:71-76 | the panic exactly on limits outside 1 <= DefaultSize <= MaxSize |
| Query.AcceptedIff | query.go:66-171 | a query has an answer exactly when its limits, paging, sort tokens and filter keys are each good, as stated of the parameters alone |
| Query.RefusedIff | query.go:66-171 | and under valid limits a refusal exactly when it has none |
| Query.AnswerReadsPaging | query.go:78-131 | page, size and cursor of an answer are what the parameters say, and the defaults where they are absent |
| Query.AnswerReadsSort | query.go:133-150 | the sort keys are the tokens of every sort parameter in request order, each printed back as it came |
| Query.RefusalNamesFirstBad | query.go:80-131 | the first bad paging parameter is the one refused, with what it held and why |
| Query.RefusalNamesBadSort | query.go:133-150 | then the first sort parameter with an empty key, and only then a filter key |
| Query.FiltersMatchKeys | query.go:12-19 | filters are in bijection with the non-reserved keys, and no filter's field is reserved |
| Query.OffsetFits | query.go:88-95 | the data layer's offset fits an int at every size the limits admit |
| Query.RoundTrip | query.go:40-56 | every accepted Query printed and parsed again, in any order, is itself |
| EntityTags.NoneMatch | response.go:188-213 | the scan's loop, against its recursive form |
| EntityTags.ScanReadsTags | response.go:183-187 | the scan is decided by the well-formed tags the header starts with, whatever follows |
| EntityTags.EveryHeaderReads | response.go:186-187 | every string is some well-formed tags and a remainder in which none starts |
| EntityTags.NoneMatchRefines | response.go:188-213 | for any header, true exactly on "*" or when some listed tag is weakly equal to the object's |
| EntityTags.ListMatchesIff | response.go:183-187 | a list of tags, separated by any mixture of blanks, tabs and commas, matches exactly when it lists a weakly equal one |
| EntityTags.OtherCharacterEndsScan | response.go:198-202 | any other character after a tag ends the scan |
| EntityTags.MalformedETagNeverListed | response.go:196 | an ETag that is no entity-tag is matched by "*" alone |
| EntityTags.EchoMatchesIff | response.go:188-213 | an ETag echoed as it arrived matches exactly when it is an entity-tag without line breaks or arrives as "*" |
| Objects.WriteObject | response.go:102-145 | headers, status, body, and how often open and Close run, for every request and object |
| Objects.OpenDiscipline | response.go:92-101 | open runs at most once, never on HEAD or 304, is closed exactly if it succeeded; its failure leaves the response uncommitted with no listed header but Cache-Control: no-store |
| Objects.FullAnswer | response.go:127-144 | what a 200 carries: type, length, nosniff, validators, every other header as the caller set it, and the opener's bytes unless a HEAD asks |
| Objects.HeadCarriesGetsHeaders | response.go:99 | a HEAD carries the headers its GET would |
| Objects.NotModifiedAnswer | response.go:104-113 | a 304 sets the validators alone, with no body and no open |
| Objects.FailedOpenAnswer | response.go:116-126 | a failed open: no-store, none of the seven other representation headers, and the rest kept |
| Objects.ModifiedSinceBySecond | response.go:165-181 | If-None-Match outranks If-Modified-Since, which compares whole seconds |
| Objects.EchoedETagIsNotModified | response.go:102-113 | echoing the ETag of a 200, as it arrived, gets a 304 if and only if it is an entity-tag without line breaks or arrives as "*" |
| Objects.EchoedDateIsNotModified | response.go:102-113 | echoing the Last-Modified of a 200 alone always gets a 304 |
| Disposition.Attachment | response.go:51-80 | the two loops, against the header's definition |
| Disposition.QuotedStringCloses | response.go:52-66 | for any name and any text after it, the quoted-string closes where intended and reads as the name with each odd step replaced |
| Disposition.ShownByCharacter | response.go:54-65 | the plain filename has one character for each of the name's, itself or an underscore |
| Disposition.ExtendedWhen | response.go:67-79 | filename* is there exactly for a byte outside printable ASCII or a percent sign, in attr-chars and upper-case percent triples alone |
| Disposition.PercentRoundTrip | response.go:71-78 | percent-decoding undoes the encoding, for every byte string |
| Disposition.HeaderIsPrintable | response.go:51-80 | for every byte string the header is printable ASCII |
| Disposition.RecipientRecovers | response.go:41-50 | for every byte string the recipient recovers the name with each ill-formed run as U+FFFD, so a valid UTF-8 name exactly |
| Disposition.PerByteIff | response.go:48-50 | the recipient sees one U+FFFD for every ill-formed byte if and only if no two of them touch |
| Disposition.TwoBytesOneReplacement | response.go:70 | the concrete name on which the documented one per byte fails |
| Disposition.ToValidIsValid | response.go:70 | what filename* carries is valid UTF-8 |
| Disposition.ValidIff | response.go:54 | the valid names are exactly the UTF-8 encodings of Unicode scalar values, by the arithmetic of section 3 of RFC 3629 |
| Disposition.RecoversCharacters | response.go:41-50 | every name of Unicode characters is recovered exactly |
| Routing.MatchesIsSegmentPrefix | router.go:86-91 | matching on characters is list-prefix on '/'-split segments, for all strings |
| Routing.DispatchOwns | router.go:76-84 | first match in the sorted list is the one module whose segments are the longest list-prefix, and none exactly when none is a prefix |
| Routing.MountOrderIrrelevant | router.go:57-69 | any rearrangement of the same mounts dispatches every path alike |
| Routing.Router.Mount | router.go:59-69 | panics exactly on a second module at one prefix; otherwise the list gains the module and stays sorted |
| Routing.Router.Use | router.go:52-55 | a request crosses the middleware of every Use in order, then the dispatch |
| Routing.Router.Dispatch | router.go:76-84 | the loop finds the first match |
| Groups.BuildChain | middleware.go:14-22 | the backward loop, against its recursive form |
| Groups.ChainOrder | middleware.go:11-13 | nil entries vanish and the first argument sees the request first |
| Groups.ChainConcat | middleware.go:14-22 | chaining a concatenation is nested chaining |
| Groups.Extend | module.go:59 | the copied chain has storage of its own and nothing that existed is written |
| Groups.CompileFlattens | module.go:50-72 | compiling succeeds exactly when no nested group carries a miss handler and the mux takes every entry, and then adds exactly the flattened entries |
| Groups.AddressesComplete | module.go:61-71 | the list of routes names every route of the tree exactly once |
| Groups.FlattenByAddress | module.go:52-68 | the i-th entry is the i-th route, under the prefixes and the middleware joined from root to leaf |
| Groups.EntryPattern | module.go:61-65 | the i-th pattern is the route's method and a blank, if any, every prefix from the root down, and the route's own pattern |
| Groups.NestedMissIff | module.go:56-58 | the nested-miss panic is about exactly the groups below the root that carry a handler |
| Groups.AcceptedInTurn | module.go:67 | the mux takes each entry on what it then holds |
| Groups.EntryOrder | module.go:59-67 | a request to an entry crosses root to leaf, then the route's middleware, then its handler |
| Wiring.CompileGroup | module.go:50-72 | compile on the group objects does what the specification says and seals every group it reaches |
| Wiring.NewModule | module.go:16-28 | the table is the flattening of the tree, or the panic; a compiled tree is sealed throughout, and no group is ever unsealed |
| Wiring.TableIsNamed | module.go:61-71 | entry by entry, the table names every route once: full pattern, middleware from root to leaf, handler |
| Wiring.NewGroup | group.go:113-117 | the panic exactly on a prefix that does not begin with a slash, or ends with one |
| Wiring.ShowsOne | group.go:15-28 | the groups on the heap show one tree at most |
| Wiring.Group.Use | group.go:40-43 | refused on a sealed group, which stays as it was; otherwise appended |
| Wiring.Group.Handle | group.go:48-63 | refused on a sealed group; otherwise the route is appended |
| Wiring.Group.HandleErr | group.go:89-98 | panics without a writer or on a sealed group; otherwise the adapted route is appended |
| Wiring.Group.Mount | group.go:102-105 | refused on a sealed group; otherwise the child is appended |
| Wiring.PerformAll | group.go:15-18 | any run of mutations and further compiles, on any groups, leaves the compiled tree as compiled, and each mutation of it is refused |
| Server.EveryRunKeeps | server.go:69-133 | the invariant holds after every interleaving |
| Server.OneStartSucceeds | server.go:69-92 | at most one Start succeeds and at most one goroutine runs |
| Server.ChannelIsSound | server.go:84-89 | the channel takes at most one value and delivers it, a send never blocks, it is closed at most once and never used after |
| Server.AddrNeverReverts | server.go:94-104 | once an Addr reads a bound address, every later one reads the same |
| Server.MutexIsSound | server.go:69-104 | two calls are never both inside the mutex, and its holder never waits for another |
| Server.StaysStartable | server.go:113-133 | from every reachable state with nothing bound, after any failed binds and early Shutdowns, some continuation leads to a Start that succeeds |
| Server.ListenerOnlyByBinding | server.go:73-82 | only a Start that bound stores a listener, and a stored one is never replaced |
| Server.StartedServes | server.go:82-89 | a Start that succeeded has its listener and its goroutine |
| Server.StartResultIsItsOwn | server.go:73-81 | a Start fails only on its own failed bind, and is refused only by a stored listener |
| Server.AddrReads | server.go:94-104 | an Addr reads and returns the bound address exactly once a listener is stored |
| Server.ShutdownShuts | server.go:113-133 | a Shutdown over a stored listener has shut the server when it returns, with its own drain's result, whatever happens in between |
| Server.ShutdownResultIsItsOwn | server.go:122-132 | a Shutdown returns what its drain ended with, having cut the connections if its context ended, or nil if nothing was started |
| Server.EarlyShutdownIsNoOp | server.go:122-124 | one that read that nothing was started returns nil and changes nothing |
| Server.CutOnlyByContext | server.go:127-131 | connections are cut only by a Shutdown whose context ended before its drain |
| Server.ShutCloses | server.go:84-88 | once shut, the goroutine's own steps close the channel |
| Server.FailureIsReported | server.go:86-88 | a serve failure before the shutdown is what the channel carries by the time it closes |
| Server.OnlyFailuresAreSent | server.go:86-88 | whatever is sent was a serve failure that could be returned |
| Server.ShutdownIsNotReported | server.go:106-111 | a goroutine that was serving when the server was shut never sends |
| Server.CallsMoveOn | server.go:69-133 | a call waits for nothing but the mutex, its bind and its drain |
| Transfer.NewTransfer | transfer.go:38-43 | panics exactly on a negative limit or grace or a rate that is not positive; otherwise it keeps all three, sets both deadlines, and is within every other member's requirements |
| Transfer.FromConfig | transfer.go:50-58 | the grace is the longer timeout, and each deadline is set exactly when its own timeout is enabled |
| Transfer.Duration | transfer.go:70-80 | the result, never negative nor past the maximum, or the panic on the zero Transfer |
| Transfer.OutsideCountsAsLimit | transfer.go:66-74 | a negative size counts as the limit, and a larger one is capped at it |
| Transfer.MonotoneInSize | transfer.go:66-80 | a larger clamped size never gets less time |
| Transfer.AntitoneInRate | transfer.go:66-80 | a faster rate never allows more time |
| Transfer.DurationAccurate | transfer.go:66-80 | unsaturated, within a relative 2^-50 and one nanosecond of grace + size/rate; saturated only that close to 2^63 or beyond |
| Transfer.WidenUpload | transfer.go:90-108 | the write deadline is the read deadline and a grace, or neither limits, exactly on saturation; which errors are returned |
| Transfer.WidenDownload | transfer.go:114-123 | the write deadline alone, and which errors are returned |
| Problems.MarshalMembers | problem.go:41-61 | the document's status is the Problem's whatever the extras carry; every other extra overrides |
| Problems.UnmarshalJSON | problem.go:66-96 | the receiver is replaced by the decoded problem, or left alone on an error |
| Problems.RefusedIffMisfit | problem.go:66-70 | a document is refused exactly when a member that folds to a standard name does not fit its field |
| Problems.TextFieldIsLast | problem.go:66-70 | a text field is that of the last member that folds to its name and is not null |
| Problems.FoldsLetterwise | problem.go:75-82 | a name is a standard one letter by letter in either case |
| Problems.StripStandard | problem.go:75-86 | deleting in any order strips exactly the names that fold to a standard one |
| Problems.RoundTripIff | problem.go:63-96 | decoding undoes encoding, an empty Extras as nil, if and only if no extra has a standard name in any case |
| Problems.CapitalStatusRefused | problem.go:71-86 | the concrete document that does not come back: a text extension named "Status" |
| Problems.WriteFor | problem.go:135-149 | the document sent for a request, with no map that existed written |
| Problems.WriteEach | problem.go:135-149 | one shared problem written for any requests gives each its own document and keeps the caller's map |
| Problems.StatusIsTheProblems | problem.go:126-133 | a response goes out under the problem's status, 500 for none, and its document says the same |
| Problems.DocumentIsTheRequests | problem.go:113-149 | member by member: the defaults of type, title and instance, the detail, the request's id over the extras, every other extra, and nothing else |
| Errors.FirstOwnIsFirst | errorwriter.go:73-75 | the walk finds the own error whose path from the root comes first, and none exactly when none occurs |
| Errors.ErrorWriter.MapError | errorwriter.go:72-90 | the mapping, against the priority relation |
| Errors.MapsToOne | errorwriter.go:60-64 | the priority relation gives each error one problem, or the panic |
| Errors.OwnStatuses | errors.go:13-95 | each own error's status, of the one that comes first |
| Errors.OtherStatuses | errorwriter.go:76-98 | a problem as it is and an unclaimed error as a bare 500, a status of 0 as 500 |
| Errors.FirstClaimStatus | errorwriter.go:84-88 | the first matcher that claims decides |
| Errors.CauseLevels | errorwriter.go:118-125 | debug for the client's own cancellation anywhere in the error, warn for another 503, error otherwise |
| Errors.OwnErrorsCarryDetail | errors.go:86-95 | every own error, however deep, maps to a status of the default detail set, or panics as a nil pointer |
| Errors.NoNilNoPanic | errorwriter.go:72-90 | an error tree without nil pointers has a text and maps to a problem |
| Errors.TextLeaksIff | errorwriter.go:48-53 | two errors that map alike send different documents exactly when the rule lets differing texts out and no extra hides them; never outside the detail set |
| Errors.ErrorWriter.Detail | errorwriter.go:54-58 | the set grows by exactly the statuses given |
| Errors.ErrorWriter.Write | errorwriter.go:105-127 | the one response sent and the one record of a 5xx, or the panic, exactly where a nil pointer has no status, or the text is wanted and cannot be read |
| IfMatch.Read | request.go:24-40 | the header's lines, against their meaning |
| IfMatch.AcceptsExactly | request.go:24-55 | one line is accepted exactly when it is a quoted integer of 64 bits, with its value |
| IfMatch.RepeatedLinesAreMalformed | request.go:25-27 | more than one line is malformed, with all of them as its text |
| IfMatch.HeaderRoundTrips | webtest/client.go:47-49 | every int64 is read back from the header webtest builds |
| IfMatch.MissingExactlyWhenBlank | request.go:28-31 | missing exactly on no line or one blank line |

## Left out

- http.ServeMux: an abstract rule decides which patterns a table takes; matching, redirects and the miss handlers of miss.go are the standard library's or small.
- Config, health probes, the request id, header, timeout, body-limit and content-type middleware, rate limiting, webtest's client: small closures and field-by-field branches that would only add easy members.
- DecodeJSON, ReadUpload, PathUUID, NewPage: thin wrappers over encoding/json, mime and uuid.
- JSON text, HTTP date text, error texts and log attributes other than the status and level: values here; an HTTP date is the second it names, an Error text is opaque.
- Hijack, HTTP/2 push and connections whose flush fails after writing: outside the Recorder's stated contract.
- Commit.EveryRecordTellsTheClientsStatus: that the one status is the client's is for handlers that keep the writer's contract; outside it the Recorder and the client can disagree, and Commit.RecordsTellIff says exactly when.
- Commit.ServeHTTP: the layers see the errors of body writes only as a connection that is broken or a status that allows no body.
- Query.SortFunc: an insertion sort stands for the library's sort, whose contract is all that is used.
- Wiring.NewModule: the groups are a finite tree of mounts; a group mounted under itself makes the code recurse forever.
- Wiring.Group.Handle: a caller that later writes into the slice it passed as middleware is not modelled; the chains compile builds are, in Groups.Extend.
- Server.ShutdownShuts: http.Server is a shutdown flag, a Serve call that may fail and a drain that ends somehow; connections are the standard library's.
- Transfer.Duration: float64 is the reals with a rounding after each operation; infinities and values below the normal range do not arise here.
- Problems.WriteFor: a document that does not encode, and a status net/http refuses, are in Commit.ServeHandler only.
- Objects.EchoedETagIsNotModified: of what net/http does to a header value, line breaks and surrounding blanks; an ETag that arrives empty is no echo.
- Transfer.WidenUpload: requires a built Transfer, as the zero one panics on first use; time.Now is a parameter.
- Problems.UnmarshalJSON: a JSON text that is no object, and numbers that are no integers beyond being refused, are not modelled.
- Errors.FirstOwnIsFirst: error types with an As or Is method of their own are not modelled.
