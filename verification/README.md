# The top-up order pipeline, its callbacks and its packings

This project models, in Dafny, the parts of the top-up service where orders are moved, signed and packed.

**The pipeline** (`Pipeline*.dfy`, `OrderHandler.dfy`, `Channels.dfy`, `Callback.dfy`, `Orders.dfy`).
Charge, query and notify workers, any number of each, move orders between the redis lists `underway`,
`query` and `notify` and update one row per order. `Pipeline` is the step system: each dequeue,
`Charge` call, query, connection, row read, post, row update and enqueue is an event of its own, and so
is the clock reading of the query worker (the charge worker's belongs to its dequeue, that of
serialising to the enqueue). A run is any sequence of enabled events, so it contains every
interleaving. Each order has a history (what its `Charge` calls returned, when it was charged and asked
about, the replies to its posts, whether its two row updates were committed). `PipelineInvariant`
says what every reachable state satisfies, and for every order that is not lost determines its whole row
from its history and its place; `PipelineSteps` and `PipelineKeeps` prove that every event keeps it;
`PipelineProgress` says how histories grow; `PipelineTheorems`, `PipelineHistory` and `PipelineClock` draw
the conclusions for all runs. `OrderHandler` has the worker
loops themselves, one turn each, as methods on the redis lists, the order table and a `TopupInfo`,
with arbitrary steps of other workers in between: each turn is proved to be a legal run of the step
system, so the theorems hold of the real lists and rows. `Channels` and `Callback` have the retry
loops, over arbitrary streams of replies.

**The form codec and the signature** (`CText.dfy`, `UrlCodec.dfy`, `Form.dfy`, `QueryFields.dfy`,
`Signature.dfy`, `CallbackText.dfy`, `Snapshot.dfy`, `SnapshotExamples.dfy`, `Receiver.dfy`). The format
is application/x-www-form-urlencoded (section 17.13.4.1 of HTML 4.01) with percent escapes as in section 2.1 of RFC 3986. The loops run on `array<char>` buffers
and are proved against functions on strings; the round trips and the dependence of the signature on
the query are proved of those functions, up to the theorem on which SUCCESS callbacks a receiver accepts
that parses the post and checks its signature: `Snapshot` treats every snapshot TmallNotify can be given,
`SnapshotExamples` has accepted callbacks that show each part of the condition to be needed, and
`Receiver` shows that every post fits the receiver's buffers.

**Packings, caches and buffers** (`Tsc.dfy`, `OrderNo.dfy`, `Fields.dfy`, `LogBuffer.dfy`): the phone
segment cache against the lookup it saves, order numbers, `split_string` and the log buffer.

Where a property fails for some inputs, the exact condition is proved instead:

- The row of an order in `notify` matches its status exactly if the status update was committed or the
  order succeeded, because rows are created with status code 1 (src/ChargeBusiness.cpp:111).
- A SUCCESS callback is signed with the raw snapshot and posted with the encoded one, cut to what fits
  255 bytes. If what is behind the first `&` of the snapshot adds nothing to the signed text (in
  particular, if there is no `&`), the two sign alike exactly if parse_pair reads what is in front of it
  as what was kept. For a snapshot whose encoding fits that is: no `%`, `+` and `&` in it. If what is
  behind adds something, they never sign alike when the encoding fits, and never without a `%`.
- Reordering a query never changes its signature exactly if no key but `sign` has two values.
- A terminator counted as text changes the value that is read exactly if the text ends in half an escape
  whose one digit is not `%`, and no NUL is decoded before it.
- The phone segment cache is invisible exactly if operator and province fit in two and six bits. An answer
  that is not JSON counts as located at (-1, -1) and is remembered as operator 3, province 62.
- `decode_orderno` returns the time since the epoch constant, not the time, exactly if both parts fit.
- Splitting a join gives the fields back exactly if each of them ends where its separator is found; for
  separators of one character that is if no field contains it, for longer ones that is not enough.

A `char` stands for a byte. Times are natural numbers; differences are taken modulo 2^32 as in the source.

## Model

| member | source | states |
|---|---|---|
| PipelineTheorems.OrdersAreConserved | src/OrderHandler.cpp:26-293 | In every run an order is in as many places (three lists, hands, finished, lost) as it was created, at most one; the number lost is the number of refused connections |
| PipelineTheorems.StatusFollowsCharge | src/OrderHandler.cpp:73-106 | However a run continues, a settled status stays; an order that saw a 0 from Charge is never FAILED, a FAILED one saw none, a SUCCESS one saw one |
| PipelineHistory.AskDecides | src/OrderHandler.cpp:164-205 | After QueryRequest an order is SUCCESS if and only if the answer is 0 or 1800 seconds have passed since it was serialised; on 0 its row update comes next, on a late other answer the connection, else it goes back to query as it is |
| PipelineHistory.HistoryTells | src/OrderHandler.cpp:26-293 | Over every run an order has succeeded if and only if some query about it was answered 0 or came that late, and has failed if and only if its ChargeRequest ended without a 0; its history is exactly what its Charge calls returned, the replies to its posts and the times it was charged and asked about |
| PipelineHistory.NeverQueriedAgain | src/OrderHandler.cpp:164-178 | An order about which a query was answered 0 is never in query again |
| PipelineHistory.ClockDecides | src/OrderHandler.cpp:151-161 | The query worker asks if and only if the clock differs from the order's last time, and else puts it back as it is |
| PipelineClock.SettledByTheClock | src/OrderHandler.cpp:181-183 | In every run: a query settles an order if and only if it is answered 0 or the time last read for it is 1800 seconds or more after the time it was last put in a list |
| PipelineClock.StopIsHeeded | src/OrderHandler.cpp:39-42 | After a stop, a worker at the head of its loop never takes an order again |
| PipelineClock.ReturnedExactly | src/OrderHandler.cpp:39-57 | A worker has returned if and only if it met the stop at the head of its loop, or had neither a ping nor a reconnect answered |
| PipelineTheorems.ChargedAtMostFiveTimes | src/ChannelImpl.cpp:26-61 | Over a whole run an order gets at most five Charge calls, of which only the last can have returned 0 |
| PipelineTheorems.NotifyListIsSettled | src/OrderHandler.cpp:74-91 | Every order in notify is SUCCESS or FAILED; its row is (2, 0) if it failed and that update was committed, else (1, 0), so it matches if and only if the update was committed or the order succeeded |
| PipelineTheorems.NeverUnsettledInNotify | src/TopupImpl.cpp:370-375 | The exit of TmallNotify for an order that is neither SUCCESS nor FAILED is unreachable in the pipeline |
| PipelineTheorems.CallbacksAreBounded | src/TopupImpl.cpp:281-287 | Over a whole run an order gets at most five posts, no reply but the last is an answer, and only settled tmall orders get any |
| PipelineTheorems.FinishedIsRecorded | src/TopupImpl.cpp:377-386 | A finished order was posted about if and only if it is a tmall order with its four fields, and then until a reply answered or five times; its notify code is nonzero if and only if it was posted about and the last update committed, and is then 1 if the last reply got through with a T, and 2 for any other |
| PipelineTheorems.FinishedStaysAsItIs | src/TopupImpl.cpp:105-115 | A row with a notify code is never written again; history and row of a finished or lost order never change |
| PipelineTheorems.LostWasSettled | src/OrderHandler.cpp:187-190 | An order dropped for want of a connection was settled, and nothing was posted or noted about it |
| PipelineTheorems.AskedLaterEachTime | src/OrderHandler.cpp:149-161 | With a clock that never goes back, the charge time and then the times of the QueryRequest calls of an order are strictly increasing, across all requeues |
| PipelineTheorems.SteadyIsNeverBack | src/OrderHandler.cpp:70 | The flag kept in the state says exactly that the clock never went back during the run |
| PipelineTheorems.WaitingIsServed | src/RedisClient.cpp:118-155 | An order at distance k from the popping end of query is the one the (k+1)-st successful pop takes, whoever pops, and these pops take different orders |
| PipelineTheorems.TurnsEnd | src/OrderHandler.cpp:38-292 | Whatever the others do, a worker is without its order again after a bounded number of its own steps |
| PipelineTheorems.TurnsEndInNine | src/OrderHandler.cpp:38-292 | From any point of any run, nine steps of its own are enough for that |
| PipelineTheorems.RunKeepsFifo | src/RedisClient.cpp:118-155 | What was pushed to query is what was popped followed by what waits, in order |
| PipelineTheorems.RunCounts | src/OrderHandler.cpp:26-293 | From any state satisfying the invariant: orders come only from creation, losses only from refused connections |
| PipelineKeeps.StepKeeps | src/OrderHandler.cpp:26-293 | Every enabled event keeps the invariant: one place for each order, and history and row as that place demands |
| PipelineKeeps.RunKeeps | src/OrderHandler.cpp:26-293 | Every run keeps it |
| PipelineKeeps.StartHolds | src/OrderHandler.cpp:35-37 | It holds at the start, for any number of workers |
| PipelineKeeps.TryKeeps | src/ChannelImpl.cpp:36-55 | One Charge call keeps the invariant: at most five, stopping at the first 0 |
| PipelineKeeps.AskKeeps | src/OrderHandler.cpp:161-205 | QueryRequest and the three ways on from it keep the invariant |
| PipelineKeeps.UpdateKeeps | src/ChargeBusiness.cpp:228-260 | Both row updates, committed or not, leave the row as the invariant says |
| PipelineKeeps.PostKeeps | src/TopupImpl.cpp:285-376 | One turn of the callback loop keeps the invariant |
| PipelineKeeps.DequeueKeeps | src/RedisClient.cpp:137-155 | Taking an order from any of the lists keeps the invariant |
| PipelineKeeps.CreateKeeps | src/ChargeBusiness.cpp:90-194 | A new order, created in one step, keeps the invariant |
| PipelineProgress.StepMoves | src/OrderHandler.cpp:26-293 | One event changes the records of at most one order, only forward, and pushes or pops the query list at its two ends |
| PipelineProgress.RunAdvances | src/OrderHandler.cpp:26-293 | Over any run histories only grow, and what is finished or lost stays so, unchanged |
| OrderHandler.OrderHandler.ChargeTurn | src/OrderHandler.cpp:38-111 | One turn of the charge loop, with others in between, is a legal run of the step system on the same lists and rows, and ends with an empty hand |
| OrderHandler.OrderHandler.QueryTurn | src/OrderHandler.cpp:124-211 | The same for query |
| OrderHandler.OrderHandler.NotifyTurn | src/OrderHandler.cpp:226-292 | The same for notify |
| OrderHandler.OrderHandler.Polled | src/OrderHandler.cpp:45-62 | An order is taken if and only if the server answers and the list is not empty; without one the worker exits, empty-handed, if and only if it is the sixth failure or a later one and neither ping nor reconnect succeeds |
| OrderHandler.OrderHandler.Asked | src/OrderHandler.cpp:161-205 | The query happens; the order becomes SUCCESS if and only if the answer is 0 or 1800 seconds have passed; the row update happens on 0, the connection on a late other answer, the enqueue else |
| OrderHandler.OrderHandler.Tell | src/OrderHandler.cpp:261-271 | The callback of a tmall order, with others in between its row read, posts and row update, as steps |
| OrderHandler.OrderHandler.TakeTries | src/ChannelImpl.cpp:36-55 | The Charge calls of one request, with others in between, as steps that end with its result |
| OrderHandler.ListsHoldOrdersOnce | src/OrderHandler.cpp:26-293 | In the lists the workers act on, no order occurs more often than it was created, at most once |
| OrderHandler.NotifyHoldsSettled | src/OrderHandler.cpp:88-90 | In the real notify list every order is settled; its row in the real table is (2, 0) if it failed and that update was committed, and else (1, 0) |
| Redis.RedisClient.Enqueue | src/RedisClient.cpp:118-135 | LPUSH: the new element is leftmost in its list, the other lists stay |
| Redis.RedisClient.Dequeue | src/RedisClient.cpp:137-155 | RPOP: the rightmost element and the list without it, or nothing on an empty list or without an answer |
| Orders.OrderTable.UpdateOrderStatus | src/ChargeBusiness.cpp:228-260 | Only a committed update changes the table, and only the row with that key: 1 for SUCCESS, 2 for FAILED, 0 else, and the notify code; -1 exactly on an exception |
| Orders.OrderTable.GetNotifyStatus | src/ChargeBusiness.cpp:394-413 | The row's notify code; 0 without a row and on an exception |
| Orders.TopupInfo.Serialize | src/TopupUtils.cpp:218-262 | Reading what is written gives the same order back, but for the creation time, which is the time of writing, and the notify code, which is lost |
| Orders.TopupInfo.Deserialize | src/TopupUtils.cpp:264-333 | The carried fields back, with notify 0 |
| Channels.ChargeRequest | src/ChannelImpl.cpp:26-61 | With SLS as first channel: 0 if and only if one of the first thirty replies is taken for an acceptance, and it stops at the first such; with another first channel and an LLWW order: the results of up to five LLWW calls until a 0; else 1 without a call |
| Channels.RequestStops | src/ChannelImpl.cpp:26-61 | For every channel list and reply stream: at most five Charge calls, on the first channel only, stopping at the first 0; 0 is returned exactly if there was one; at most 30 posts |
| Channels.TriesStop | src/ChannelImpl.cpp:36-55 | The same from any point of the retry loop on |
| Channels.AcceptedOnce | src/ChannelSLS.cpp:100-118 | With SLS one reply of a whole request is taken for an acceptance if some call returned 0, and none otherwise |
| Channels.SlsCharge | src/ChannelSLS.cpp:80-119 | Returns 0 if and only if one of its at most six replies got through with Result 1, or got through without a document while the status left from before is 0; stops at the first such reply, and makes six posts otherwise |
| Channels.SlsCallSays | src/ChannelSLS.cpp:100-118 | The same of the specification |
| Channels.StatusIsZero | src/ChannelSLS.cpp:40-76 | The status is 0 if and only if the last reply with a document had Result 1, or none had one and it was 0 before |
| Channels.RequestSays | src/ChannelImpl.cpp:26-61 | What a request comes to, for each kind of first channel |
| Channels.SlsRunStops | src/ChannelSLS.cpp:100-118 | A call returns 0 exactly if its last reply, and no earlier one, is taken for an acceptance, and makes all six posts otherwise |
| Callback.TopupImpl.TmallNotify | src/TopupImpl.cpp:281-387 | Something is posted if and only if the four fields are there and the status is SUCCESS or FAILED, always the same text, until a reply answers or five times; the notify code, in the order and if committed in its row, is then 1 if T comes first among the answers in the first five replies, and else 2 |
| Callback.TopupImpl.Record | src/TopupImpl.cpp:377-386 | The answer, or 2, goes into the order and, if committed, its row |
| Callback.TopupImpl.Notify | src/TopupImpl.cpp:105-115 | The callback is made only while the row's notify code reads as 0 |
| Callback.TopupImpl.BuildPost | src/TopupImpl.cpp:314-369 | The buffers come to hold the signed post for the order's status |
| Callback.TopupImpl.PostUntilAnswered | src/TopupImpl.cpp:285-376 | The loop makes as many posts as it takes to be answered and ends with that answer |
| Callback.PostRoundsStopAtAnswer | src/TopupImpl.cpp:281-376 | Posting stops at the first answer, which is the result; without one there are five posts and code 0 |
| Callback.AnswerSays | src/HttpClient.cpp:366-389 | A reply counts as told if and only if it got through with a T, as refused if and only if it got through with an F or without the element, and else as no answer |
| Callback.RoundsSay | src/TopupImpl.cpp:281-386 | The code and the number of posts, by what the replies say |
| Snapshot.CallbackAccepted | src/TopupImpl.cpp:316-337 | The SUCCESS callback passes a receiver that parses it and checks its signature, for every snapshot without `%`, `+`, `&` whose encoding fits 255 bytes, unless other fields smuggle in a sign parameter |
| Snapshot.CallbackAcceptedExactly | src/TopupImpl.cpp:310-337 | Short of an MD5 collision, for every snapshot TmallNotify can be given: with a silent rest it passes if and only if the front reads as what was kept; with another rest only if there is a `%` and the encoding does not fit; when the encoding fits, if and only if there is no `%`, `+`, `&`; without these, if and only if the encoding fits |
| Snapshot.SnapshotDecides | src/TopupImpl.cpp:310-337 | The same for identifiers free of `&`, with no other condition on them; the accepting direction without assuming anything of MD5 |
| Snapshot.AcceptedIfSame | src/TopupImpl.cpp:563-586 | The receiver accepts if it computes the signed text again, and short of an MD5 collision only then |
| Snapshot.SameTextExactly | src/TopupImpl.cpp:310-337 | For every snapshot: with a silent rest the receiver computes the signed text again if and only if the front reads as what was kept; with another rest only for a `%` and an encoding that does not fit, and only if the front reads shorter than what was kept by at most what the rest weighs |
| Snapshot.SameTextWhenAllFits | src/TopupImpl.cpp:316-337 | For a snapshot whose encoding fits: if and only if it has no `%`, `+`, `&` |
| Snapshot.SameTextWhenClean | src/TopupImpl.cpp:311-314 | For a snapshot without them: if and only if its encoding fits the 256 bytes with its terminator |
| Snapshot.SameTextWithoutPercent | src/TopupImpl.cpp:310-337 | For a snapshot without `%`: if and only if there is no `+` before the first `&`, just that much is kept, and the rest is silent |
| Snapshot.SilentSigns | src/HttpClient.cpp:350-355 | Pairs whose keys are signed already, never signed, or empty like the time leave the signed text as it is |
| Snapshot.LoudIsLonger | src/HttpClient.cpp:350-355 | Any other pair makes it longer |
| Snapshot.PlainLoudDiffers | src/TopupImpl.cpp:318-337 | Without `%`, a rest that is not silent always signs differently |
| SnapshotExamples.DroppedPercentPasses | src/HttpClient.cpp:296-302 | 253 to 255 safe characters and a `%` behind them, which url_encode drops: accepted, for every MD5 |
| SnapshotExamples.DroppedAmpPasses | src/HttpClient.cpp:296-302 | The same with `&x` behind them |
| SnapshotExamples.LoudCanBeSame | src/TopupImpl.cpp:318-337 | A family of snapshots whose rest adds a pair to the signed text, and which sign alike nevertheless |
| SnapshotExamples.LoudPasses | src/TopupImpl.cpp:318-337 | An order with such a snapshot, accepted by the receiver |
| SnapshotExamples.PostedWrittenOut | src/HttpClient.cpp:350-355 | The posted text's signed form in full, for identifiers free of `&` |
| Receiver.PostIsReadable | src/TopupImpl.cpp:308-363 | Whatever TmallNotify can post without running over its buffers fits the receiver's: the query, each key and value, and the text to sign, for a key of at most 38 characters |
| Receiver.PostSays | src/TopupImpl.cpp:316-363 | The pairs of a post one by one, for identifiers free of `&`: SUCCESS with the kept snapshot and an empty time, or FAILED with code 0501, and the signature |
| Receiver.ReceivePost | src/TopupImpl.cpp:563-586 | So parse_params and CheckSign run on it to their decision, and accept every FAILED post, and every SUCCESS post that reads as it was kept, of orders with `&`-free identifiers |
| CallbackText.Receive | src/TopupImpl.cpp:563-586 | parse_params and then CheckSign accept exactly what the theorems call received: a first sign that is the digest of the other parameters' first values in byte order of keys |
| CallbackText.ReceiverCompares | src/TopupImpl.cpp:563-586 | The receiver's decision is whether two digests agree: of the signed text and of the posted one, each followed by the key |
| CallbackText.FailedCallbackAccepted | src/TopupImpl.cpp:346-363 | The FAILED callback is accepted for every order whose fields bring no sign parameter |
| Snapshot.ValueFixesExactly | src/HttpClient.cpp:62-72 | parse_pair reads a text as itself if and only if it has no `%` and no `+` |
| Signature.UrlSignature | src/HttpClient.cpp:342-364 | Fails exactly for a query over 2048 characters; else yields the digest of the keys and first values of all parameters but sign, in the byte order of the keys, and the private key behind them |
| Signature.CheckSign | src/TopupImpl.cpp:563-586 | Accepts exactly if sign is there, not empty, and equal to the digest of that text for the map's entries |
| Signature.SignedInOrder | src/HttpClient.cpp:350-357 | The signed text of a filled map is that of the list of first pairs, by byte order of keys, without sign |
| CText.BeforeIsByteOrder | src/HttpClient.h:41-47 | The order of map keys is that of bytes: a proper prefix first, else by the first differing byte |
| Signature.SignedBySet | src/HttpClient.cpp:342-364 | Queries with the same set of pairs, in any order and number, sign alike if no key has two values |
| Signature.OrderIrrelevantExactly | src/HttpClient.cpp:342-364 | Permuting a query never changes the signed text if and only if no key but sign is given two values |
| Signature.ConflictShows | src/HttpClient.cpp:342-364 | Two values for one key: putting one or the other first signs differently |
| Signature.SignTextIgnoresSign | src/HttpClient.cpp:350-355 | Maps that agree on all keys but sign have one signed text |
| Signature.SignedQueryAccepted | src/TopupImpl.cpp:563-586 | A query with its signature put anywhere among its segments satisfies CheckSign |
| Signature.SignedPairsAccepted | src/TopupImpl.cpp:563-586 | The same for any list of pairs |
| Form.ParsePair | src/HttpClient.cpp:62-72 | Fails exactly without `=`, leaving the buffers; else they hold the key and the decoded value as C strings |
| Form.ParseParams | src/HttpClient.cpp:77-113 | The in-place walk inserts exactly the pairs of the query, in order, into the map, or refuses an overlong query |
| Form.FormData.Insert | src/HttpClient.cpp:77-113 | Insertion keeps the entries in byte order of their keys, and an entry that is there |
| Form.ParseUndoesPrint | src/HttpClient.cpp:62-113 | Parsing a printed list of pairs with encoded values gives exactly the list |
| Form.PrintAndParse | src/HttpClient.cpp:62-113 | Printing a map and parsing it gives back the map; a repeated key keeps its first value |
| Form.PrintFits | src/HttpClient.cpp:77-99 | A printed list fits the buffers of parse_params if each key is shorter than 256, each value shorter than 511 and the whole shorter than 2048 |
| Form.FindInsertAll | src/HttpClient.cpp:92-110 | Looking up a filled map: what was there before, else the first pair with that key |
| Form.SegmentWithoutEqualsVanishes | src/HttpClient.cpp:62-65 | A segment without `=` leaves no trace, wherever it stands |
| Form.PairsSplit | src/HttpClient.cpp:92-110 | The pairs of two queries joined by `&` are those of the one and then those of the other |
| Form.SortedIsDetermined | src/HttpClient.h:41-47 | A map in key order is determined by its lookups |
| QueryFields.ParseQuery | src/HttpClient.cpp:115-225 | Each of the ten fields, by name, ends up with the value of the last pair under its key or alias (userId for coopId, orderNo for tbOrderNo), or as it was; refused exactly over 2048 characters |
| QueryFields.ParsersAgreeExactly | src/HttpClient.cpp:77-225 | For a key that is there, parse_query and parse_params agree on its field if and only if the first pair with that key and the last pair stored in the field have one value |
| QueryFields.AliasAlone | src/HttpClient.cpp:115-225 | With only an alias of the key they disagree: the field holds the alias's last value and the map has no entry |
| QueryFields.NothingStoredIn | src/HttpClient.cpp:115-225 | With neither, the field is as it was and the map has no entry |
| QueryFields.ParsersAgree | src/HttpClient.cpp:77-225 | They agree wherever a key or its alias occurs once |
| QueryFields.FieldHoldsLast | src/HttpClient.cpp:115-225 | A field holds the last occurrence |
| Form.MapHoldsFirst | src/HttpClient.cpp:77-113 | The map holds the first |
| UrlCodec.UrlEncode | src/HttpClient.cpp:276-306 | The buffer gets the encoding, or the part before the first escape that does not fit, as EncodeInto says |
| UrlCodec.EncodeIntoIsEncode | src/HttpClient.cpp:276-306 | The buffer gets the whole encoding if and only if that is shorter than the room, and a prefix of it otherwise |
| UrlCodec.UrlDecode | src/HttpClient.cpp:308-340 | The buffer gets the decoding, as far as it fits, and a terminator |
| UrlCodec.HexDecodes | src/HttpClient.cpp:266-274 | An escape of two hex digits in any mix of case decodes to the byte they write |
| UrlCodec.BadEscapeVanishes | src/HttpClient.cpp:320-331 | An escape with a character that is no letter or digit decodes to nothing |
| UrlCodec.LettersCountOn | src/HttpClient.cpp:266-274 | Letters behind F count on to 35, and the two places are or-ed into a byte |
| UrlCodec.DecodesByte | src/HttpClient.cpp:315-337 | Everything else decodes to itself, `+` to a blank, and a `%` with less than two characters behind it to nothing |
| UrlCodec.EncodesByte | src/HttpClient.cpp:284-301 | Letters, digits and `.-_*` are encoded to themselves, a blank to `+`, every other byte to its upper-case escape |
| UrlCodec.DecodeUndoesEncode | src/HttpClient.cpp:276-340 | Decoding undoes encoding on every byte string, whatever follows it: with nothing behind it and with the terminator parse_pair counts |
| UrlCodec.EncodeIsInjective | src/HttpClient.cpp:276-306 | Different byte strings have different encodings |
| UrlCodec.EncodeIsPlain | src/HttpClient.cpp:276-306 | An encoding holds only safe characters, `+` and `%`, so it cannot separate pairs |
| UrlCodec.TerminatorShows | src/HttpClient.cpp:62-72 | The value parse_pair reads, with the terminator counted as text, differs from that of the exact length if and only if the text ends in half an escape whose one digit is not `%` and no NUL is decoded before |
| UrlCodec.TerminatorDecodes | src/HttpClient.cpp:308-340 | A text that ends in half an escape: without the terminator its last character is decoded as well, with it neither; any other text: the terminator comes out last |
| UrlCodec.EncodesFitting | src/HttpClient.cpp:276-306 | The buffer gets the encoding of a leading part of the text, which is all of it if and only if its encoding is shorter than the room |
| UrlCodec.FittingIsLongest | src/HttpClient.cpp:276-306 | That is the longest leading part whose encoding, with its terminator, fits |
| UrlCodec.DecodeFixesExactly | src/HttpClient.cpp:308-340 | Decoding never lengthens, shortens with every `%`, and leaves a text alone if and only if it has no `%` and no `+` |
| Tsc.InvisibleExactly | src/TopupImpl.cpp:599-636 | From an empty cache, every verdict in every interleaving is that of the uncached lookup if and only if every located segment fits in the byte |
| Tsc.EveryVerdictIsRight | src/TopupZkcl.cpp:195-228 | The same from any cache that agrees with the lookup, and the cache goes on agreeing |
| Tsc.EntriesStay | src/TopupImpl.cpp:625-627 | In every run an entry never changes once it is there |
| Tsc.SecondVerdictIsWrong | src/TopupZkcl.cpp:203-219 | For any segment that does not fit, the second of two clients gets a wrong verdict |
| Tsc.UnpackUndoesPack | src/TopupImpl.cpp:610-625 | The byte gives back operator and province if and only if they are below 4 and 64 |
| Tsc.UnparsablePoisons | src/HttpClient.cpp:408-429 | The (-1, -1) of an unparsable answer comes back from the cache as (3, 62) |
| Tsc.GlobalConfig.CheckTsc | src/TopupImpl.cpp:599-636 | With other clients in between: 0 if and only if the segment is located at just this operator and province, else 1; every entry is kept |
| Tsc.GlobalConfig.CheckProduct | src/TopupZkcl.cpp:195-228 | With other clients in between: for the first seven characters of the number, 0 with the located operator and province, or 2 without; every entry is kept |
| Tsc.GlobalConfig.LoadTsc | src/GlobalConfig.cpp:126-150 | Exactly the segments of lines with three fields, a known province and operator 1 or 2 are loaded, each as its first such line says |
| Tsc.LoadedAgrees | src/GlobalConfig.cpp:126-150 | If the file agrees with the lookup line by line, so does the loaded map |
| OrderNo.DecodeUndoesEncode | src/TopupUtils.cpp:129-143 | Phone and time offset come back if and only if the phone is in its 36 bits and the offset in its 28 |
| OrderNo.DecodableExactly | src/TopupUtils.cpp:129-143 | In figures: decoding gives phone and offset back if and only if the phone is from 10000000000 to 78719476735 and the time from 1392906485 to 1661341940 |
| OrderNo.OneNumber | src/TopupUtils.cpp:129-137 | The number of one phone at one instant |
| OrderNo.LaterIsLarger | src/TopupUtils.cpp:129-137 | There, a later time gives a larger number whatever the phones |
| OrderNo.SameNumberExactly | src/TopupUtils.cpp:129-137 | There, two numbers are equal if and only if phone and time are |
| OrderNo.NumbersFollowTime | src/TopupUtils.cpp:129-137 | For 2^28 seconds from the epoch constant on, a later order gets a larger number, whatever the phones |
| OrderNo.NumbersStartAgain | src/TopupUtils.cpp:129-137 | From then on, at every instant, the number of a phone is the one it had 2^28 seconds before |
| Fields.SplitString | src/TopupUtils.h:194-210 | The positions found hold exactly the fields of the text as C strings, and nothing but NULs is written |
| Fields.JoinUndoesSplit | src/TopupUtils.h:194-210 | For every text and non-empty separator the fields join back to the text, and none is made of two texts with the separator between them |
| Fields.SplitUndoesJoinExactly | src/TopupUtils.h:194-210 | Splitting a join gives back the fields if and only if the separator behind each is found where it was put and the last field has none |
| Fields.SplitUndoesJoin | src/TopupUtils.h:194-210 | For a one-character separator it does whenever no field contains it |
| Fields.LongSeparatorsOverlap | src/TopupUtils.h:202-208 | For a longer one it need not: "a" and "" joined with "aa" split into "" and "a" |
| LogBuffer.TopupLog.Write | src/TopupUtils.h:29-33 | Writes stay in the 1024 bytes, and the buffer reads as all messages one after the other, up to 1023 characters |
| LogBuffer.TopupLog.Flush | src/TopupService.cpp:62-65 | The line written is the full concatenation, or nothing when that is empty or longer than 1023 |
| LogBuffer.LenTellsWhetherAllFits | src/TopupUtils.h:29-33 | log_len is below 1024 if and only if all messages fit, and is then their length |
| LogBuffer.FullStaysFull | src/TopupUtils.h:29-33 | Once it reaches 1024, later messages change neither it nor the buffer |

## Left out

Assumptions, where the code leaves something open:

- `notify` is not serialised and a new TopupInfo leaves it unset (src/TopupUtils.cpp:218-262, src/OrderHandler.cpp:149): a missing value is taken as 0, as src/TopupImpl.cpp:225 sets it.
- `creteTime` is rewritten at every serialising (src/TopupUtils.cpp:240), so the 1800 seconds count from the last enqueue; no bound on the whole stay of an order is claimed.
- Orders are dropped where the connection is NULL (src/OrderHandler.cpp:187-190 and 254-257); elsewhere (src/OrderHandler.cpp:80 and 168) the connection is assumed to be there. Enqueues are assumed to succeed and to store the ticket as it is, and a dequeue without an answer to have taken nothing.
- `CreateTmallOrder` enqueues before it commits (src/ChargeBusiness.cpp:161 and 190): creation is one step here, with a fresh order number.
- `QueryRequest` (inverted comparisons, src/ChannelImpl.cpp:73 and 76) and the LLWW channel (its loop never runs, src/ChannelLLWW.cpp:106 and 125) are arbitrary oracles.
- MD5 is any function that yields 32 lower-case hex digits; CallbackAcceptedExactly assumes that the two texts at hand do not collide.
- The private key, which url_signature prints as a format (src/HttpClient.cpp:357), is assumed to hold no `%`; the key is not empty.
- A lookup of a phone segment is a fixed function; in Tsc the map may answer anything else, including the unparsable case.
- Calls whose data does not fit a fixed buffer are excluded by preconditions where the code has no check: key and value buffers of parse_pair, the 2048 bytes of a query (a query of just that length leaves no terminator), the signature and post buffers, and an encoding that fills its 256 bytes exactly.

Weaker than one might want:

- Snapshot.SameTextExactly: for a snapshot with `%` whose encoding does not fit and whose rest adds pairs, necessary conditions only. SnapshotExamples.LoudCanBeSame shows that such snapshots can sign alike: there the added pair repeats the signed text in front of it.
- Redis.RedisClient.Enqueue: the source prints the command into 2048 bytes and passes it to redisCommand as a format (src/RedisClient.cpp:118-126). A ticket with a blank would be taken for several elements, one with `%` for a conversion, and a long one would be cut; tickets are assumed to have none of these.
- PipelineKeeps.CreateKeeps: creation is one step, as said above.
- Orders.TopupInfo.Serialize: carries the fields the pipeline, the callback and the channels' choice depend on, not card, price, province and channel details.
- Tsc.GlobalConfig.LoadTsc: takes lines already read, stripped of their last character and cut at their tabs.

Differences of form:

- The JSON text in the lists is a `Ticket` of the fields the pipeline uses; the channel tail of `deserialize_topupinfo`, which stores two other fields in `pid` (src/TopupUtils.cpp:336-340), is reduced to the channels' interface names. `channelId` and the discount are left out.
- std::map with cmpKeyAscii is a list in key order. `cardNum` and `sum` keep the text given to atoi and atof.
- OrderHandler.OrderHandler.Others: stands for the other workers by its contract, which admits any legal steps that leave the worker's hand alone.
- XML and JSON documents are reduced to what the parsers find in them. Sleeping, reconnect counting beyond the exit decision, and all logging destinations are left out.
- The callback of customers other than tmall, the `check_tsc` copy and the balance code of src/TopupCustomer.cpp.
- `CheckAndBalance` (one index is bound twice and the result ignored), `ChargeBusiness::QueryOrder`, `SelectBestChannel`, `trans_time`, the XML replies, library reloading, configuration other than the segment table, thrift, FastCGI and Oracle calls.
