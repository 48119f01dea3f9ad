# A verified model of the replicated key/value store

The store is a C program: a hash table of byte strings, a client and server that exchange length-prefixed messages
about it, and a second server that the first one keeps in step. This project models those parts in Dafny 4.11 and
proves what they promise, over every input, every run and every reachable state. `dafny verify dfyconfig.toml` checks
all of it.

## How the model is built

| file | part of the system |
|---|---|
| `Bytes.dfy`, `Options.dfy` | C strings, `strcmp`, 16/32-bit network byte order, signed fields |
| `Hashing.dfy` | `key_hash`, with signed characters and the remainder of C |
| `Chains.dfy`, `Rows.dfy` | specification: one bucket as a descending sequence of items, the table as a sequence of buckets, and the finite map both stand for |
| `Entries.dfy`, `Lists.dfy`, `Tables.dfy` | the heap: data blocks, entries, nodes relinked in place, the bucket array and its counter, proved against that specification |
| `Blocks.dfy`, `Isolation.dfy` | a caller that keeps writing to every block it passed in or got back |
| `Messages.dfy`, `MessageBuffers.dfy` | the wire format as functions, and the two cursors over byte arrays that implement it |
| `Network.dfy` | `read_all`, `write_all` over any schedule of chunk sizes, and both ends of the framing |
| `Skeleton.dfy`, `Remote.dfy` | `invoke`, and a call through stub, wire and skeleton against the same call on a map |
| `Exchange.dfy` | the same call over two streams that the system calls cut into chunks |
| `StateTransfer.dfy` | `update_state` |
| `Servers.dfy` | one server process: role, link state, request handling, start-up |
| `Cluster.dfy` | two processes, their clients and the network as a step machine |
| `ClusterControl.dfy` | roles and links over every run |
| `ClusterData.dfy`, `ClusterMaps.dfy` | the tables over every run, and exactly when leader and backup are in step |
| `ClusterSafety.dfy`, `ClusterLogs.dfy` | acknowledged writes: what survives a crash, how far a backup's history lags |
| `ClusterProgress.dfy` | what the machine gets done: the ordinary forward, the lost one, failover, the return of a server |
| `ClusterRuns.dfy` | runs from the start that show what the system does not keep |
| `Session.dfy` | one client's requests in their order over the step machine |
| `ClientStub.dfy` | `retry_servers` and `switch_server` |
| `Connections.dfy` | the poll loop's slots and client counter |

Where the source changes a structure step by step the model has a class or an array and a method proved against a
specification function; the deep results are lemmas about those functions. A request to a server is `Begin` (apply,
answer OC_STATUS and OC_UP) followed, after the backup's answer or its absence, by `Answered`; the class `Server` runs
both in one method, the step machine runs them as separate steps so that crashes fall between them; that its steps
are the server's request handling cut at the forward is `Cluster.WorkIsServe`.

Hypotheses that the statements carry, in their own terms:

* Keys that reach the table have a non-negative character sum (`Hashable`). This is exactly the condition under which
  `key_hash` is a bucket index for every table size (`Hashing.HashableIff`); every key of 7-bit characters has it.
  On the heap a key is a C string: whatever block it lies in, it ends at the first NUL (`Bytes.CString`).
* Data blocks have positive size (`data_create` refuses others), keys are at most 65535 bytes on the wire, and a
  table that is listed or sized over the wire has at most `INT_MAX` keys.
* In the step machine a connection can be made exactly when the peer runs, and a starting server is answered only
  between two requests. The state transfer and OC_UP are one step; the transfer loop itself is proved in
  `StateTransfer`. Nothing is assumed about a key named "!": a join whose source holds one is simply not a step,
  because there the source misreads a reply.
* Roles (`ClusterControl`) and maps (`ClusterMaps`) need nothing more: their theorems hold over every run, or say over
  every run exactly which steps break the property. A forwarded request may get lost with its sender, or be dropped by
  a backup that receives its body in two chunks.
* Acknowledged writes (`ClusterSafety`) are about the runs that keep the replicas in step, which `ClusterMaps` says
  exactly (`Harmless`). The results about whole histories (`ClusterLogs`) are about runs whose steps are `Proper`:
  harmless, and a client's request changes the live backup of a leader only if it repeats the request that the leader
  is forwarding, as the client's own failover does.
* A session (`Session`) is one client's: nobody else sends, a server that comes back joins the other one, and each
  request starts when nothing of an earlier one is unread. `Session.NextAnswerStandsIff` says that the last condition
  is exact.

Where the code and its own comments differ, the model follows the code:

* `valid` assigns to the opcode instead of comparing it, so only the content type is checked. For which opcodes and
  content types that makes no difference is `Messages.ValidAgreement`.
* The stub functions for put, update and size return 0 for every reply; the exact cases in which that agrees with the
  table are proved.
* The server drops a request whose body does not arrive in a single chunk, because it compares the size of the last
  chunk with the whole length.
* "At most one primary" is false: the ordinary start of both servers ends with two. It holds in exactly the runs in
  which no secundary loses a connection beside a primary. What holds in every run is that never two processes lead
  (are primary with the link up).
* "A mutation travels one hop" is false: a primary that is joined while it still has a forwarded request to read passes
  that request on. The exact condition over runs is `ClusterControl.SecondHopIff`.
* "The backup's table equals the primary's" is false too: a client may change the backup, and a primary started over a
  secundary that holds pairs leads with an empty table. The exact condition over runs is `ClusterMaps.InStepIff`.
* The array of `table_get_keys` is taken to have `quantity_entry + 1` slots, as its terminator needs.

## Model

| member | source | states |
|---|---|---|
| Bytes.StrCmpTransitive | src/list.c:67-91 | the comparison that orders the lists is transitive, so a descending list has no repeated key |
| Bytes.StrCmpIff | src/list.c:67-91 | a key is above another exactly if the other is a proper prefix of it or smaller, as unsigned bytes, at the first difference |
| Bytes.FieldsAreBigEndian | src/message.c:100-122 | two- and four-byte fields hold the value modulo 2^16 and 2^32, most significant byte first |
| Bytes.IntRoundTrip | src/message.c:161-162 | a negative result or size survives the unsigned field |
| Hashing.ComputeKeyHash | src/table.c:13-39 | the loops compute the specified index; -1 for a missing key or a size that is not positive |
| Hashing.ShortKeysSum | src/table.c:23-27 | one character counts with its signed value, and up to five characters all count |
| Hashing.LongKeysSum | src/table.c:28-37 | of six characters and more exactly the first three and the last three count |
| Hashing.HashIsRemainder | src/table.c:38 | the index differs from the sum by a multiple of the size, is smaller than the size, and has the sign of the sum |
| Hashing.HashSumBounds | src/table.c:21-37 | the sum stays within [-768, 762] and is never negative for 7-bit keys |
| Hashing.InRangeIff | src/table.c:38 | the index is inside the table exactly when the sum is not negative or divisible by the size |
| Hashing.HashableIff | src/table.c:13-39 | a non-negative sum is exactly what makes a key safe for every table size |
| Chains.InsertDescending | src/list.c:41-105 | insertion keeps the keys strictly descending |
| Chains.InsertMap | src/list.c:45-105 | insertion changes the map at the inserted key only |
| Chains.DeleteMap | src/list.c:110-142 | deletion removes that key from the map and nothing else |
| Chains.Canonical | src/list.c:41-43 | a map has exactly one descending list |
| Rows.KeyOnlyInItsBucket | src/table.c:101-136 | a key is in the table exactly when it is in the bucket its hash names, with that value |
| Rows.LookupAgrees | src/table.c:154-172 | a lookup answers what the map holds |
| Rows.PutRefines | src/table.c:91-119 | put inserts if absent and reports -10 otherwise, on the map; the table stays well formed |
| Rows.UpdateRefines | src/table.c:125-152 | update replaces if present and fails with -1 otherwise |
| Rows.DelRefines | src/table.c:177-192 | del removes if present and fails with -1 otherwise |
| Rows.CardinalityIsTotal | inc/table-private.h:18-22 | the sum of the list sizes is the number of keys of the map |
| Rows.PutTotal | src/table.c:113-115 | the counter moves by one exactly on a successful put and never on an update |
| Rows.DelTotal | src/table.c:188-190 | the counter moves by one exactly on a successful del |
| Rows.AllKeysExact | src/table.c:201-244 | the key listing is the domain of the map without repetition |
| Rows.AllKeysOrdered | src/table.c:219-240 | the listing goes through the buckets in order and through each bucket from its largest key down |
| Rows.HighBucketsEmpty | src/table.c:102 | in a well-formed table bucket 763 and all above are empty |
| Rows.CanonicalRows | src/table.c:102-111 | tables of one size with one map are equal bucket by bucket |
| Entries.DataCreate2 | src/data.c:40-60 | a block of its own with the source's bytes, or NULL exactly for a missing source or a size that is not positive |
| Entries.DataDup | src/data.c:73-80 | an independent copy, NULL exactly for an absent or empty block |
| Entries.EntryCreate | src/entry.c:16-43 | all four blocks of the new entry are new and hold the caller's key and value |
| Entries.EntryDup | src/entry.c:57-70 | a deep copy of an entry |
| Lists.CreateNode | src/list.c:217-231 | a node with its own copy of the entry |
| Lists.List.Acyclic | src/list.c:45-105 | strict order makes all nodes and entries of a list distinct |
| Lists.List.Add | src/list.c:45-105 | the list becomes the specified insertion; no node is lost and at most one new node enters; the in-loop head assignment happens only at the head |
| Lists.List.Remove | src/list.c:110-142 | the list becomes the specified deletion and the code says whether the key was there |
| Lists.List.Get | src/list.c:148-164 | a reference to the entry of the key inside the list, NULL exactly when absent |
| Lists.List.SetValue | src/table.c:146-149 | assigning through that reference replaces exactly one item |
| Lists.List.GetKeys | src/list.c:174-198 | a NULL-terminated array of fresh copies of the keys in list order, NULL for an empty list |
| Tables.TableCreate | src/table.c:40-76 | an empty table with disjoint empty lists, NULL exactly for a size that is not positive |
| Tables.Table.Put | src/table.c:91-119 | the buckets and the code are those specified; everything the table owns afterwards was its own before or is new |
| Tables.Table.Update | src/table.c:125-152 | as specified; an empty block fails and changes nothing |
| Tables.Table.Get | src/table.c:154-172 | a fresh copy of the value, NULL exactly when the key is absent |
| Tables.Table.Del | src/table.c:177-192 | the buckets and the code are those specified |
| Tables.Table.Size | src/table.c:197-199 | the counter is the cardinality of the map and the sum of the list sizes |
| Tables.Table.GetKeys | src/table.c:201-244 | exactly `quantity_entry + 1` slots, filled with fresh copies in bucket order and terminated |
| Tables.CopyKeys | src/table.c:225-235 | the inner loop appends a list's keys behind those already there |
| Isolation.Execute | src/table.c:91-192 | a run in which the caller writes to every block it passed or received ends as the run on values, where such writes touch nothing |
| Isolation.RunRefines | src/table.c:91-244 | after any sequence of operations every code, every size, every value handed out and the contents are those of a finite map, and every key list names the keys of the map of its moment once |
| Messages.RoundTrip | src/message.c:54-293 | decoding an encoding followed by anything gives the message and consumes exactly its bytes |
| Messages.DecodedIsEncodable | src/message.c:173-293 | whatever is parsed has in-range fields, NUL-free keys of at most 65535 bytes and non-empty data, read inside the buffer |
| Messages.RoundTripIff | src/message.c:113-151 | the round trip holds exactly when all keys have at most 65535 bytes and data is not empty |
| Messages.PrefixFree | src/message.c:54-171 | no encoding is a prefix of another one |
| Messages.ReverseRoundTrip | src/message.c:173-293 | a buffer with the documented layout is read to its end and written back byte for byte |
| Messages.LayoutIff | inc/message.h:41-57 | the encodings are exactly the buffers with the documented layout |
| Messages.PayloadsAt | inc/message.h:41-57 | opcode and result stand in an encoding as big-endian numbers, keys and data as they are, at the documented places |
| Messages.RefusedIff | src/message.c:173-293 | the parser returns NULL exactly for an unknown content type and for a data size that is not positive |
| MessageBuffers.BufferSize | src/message.c:60-85 | the first pass computes the length of the encoding, for any number of keys |
| MessageBuffers.WriteKeys | src/message.c:141-151 | the key loop appends every key field and stays inside the buffer |
| MessageBuffers.MessageToBuffer | src/message.c:54-171 | the second pass fills the counted bytes, all of them, with the encoding |
| MessageBuffers.ParseKeys | src/message.c:271-286 | the key loop reads the specified list |
| MessageBuffers.BufferToMessage | src/message.c:173-293 | the cursor returns the specified message, NULL exactly where the format refuses |
| Network.ReadAllExact | src/network_client.c:27-44 | a positive result means exactly the requested bytes in order; it happens exactly when the chunks and the stream suffice |
| Network.WriteAllExact | src/network_client.c:12-25 | exactly the bytes that leave before the first error have left, in order: all of them exactly when none comes, however many calls write nothing |
| Network.ReadResultIff | src/network_client.c:27-44 | the returned value is the requested length exactly when a single call read it all |
| Network.ReadAllBreaks | src/network_client.c:27-44 | -1 is returned exactly when an error comes before the end of the data and of the stream |
| Network.WriteResultIff | src/network_client.c:12-25 | the same for writing, after any number of calls that wrote nothing |
| Network.Socket.FillAll | src/network_client.c:27-44 | the read loop does what is specified, ending on the remaining length |
| Network.Socket.EmitAll | src/network_client.c:12-25 | the write loop does what is specified |
| Network.ReceiveIff | src/table-server.c:98-127 | the server understands a request exactly when its length is complete and its body arrives in one chunk |
| Network.ReceiveRequest | src/table-server.c:98-127 | the receiving half of the server's loop computes that |
| Network.SendFrameIff | src/network_client.c:115-138 | a client goes on to wait exactly when the length left in a single call and the body before any error, which is exactly when one whole frame has left |
| Network.SendReplyIff | src/table-server.c:172-203 | a reply leaves exactly when no error comes before its last byte; otherwise its frame is cut short |
| Network.WriteReply | src/table-server.c:172-203 | the sending half of the server's loop computes that |
| Network.ReceiveOnly | src/table-server.c:98-127 | from a frame that was cut short the server understands no request, from a whole one nothing but its message |
| Network.FrameLength | src/network_client.c:122-133 | the length on the stream is the number of bytes behind it, most significant byte first |
| Network.ReceiveUnsetIff | src/table-server.c:98-127 | the server goes on with a value never set exactly when the length meets an error; whatever else is missing makes it drop the connection |
| Network.BadLength | src/table-server.c:106-120 | a negative length is refused at both ends, with 0 both go on with a block that was never filled |
| Network.ReceiveReplyIff | src/network_client.c:151-177 | the client understands a reply exactly when its length arrives in one chunk and the rest arrives at all |
| Network.ReceiveReplyOnly | src/network_client.c:151-177 | from a frame that was cut short the client understands no reply, from a whole one nothing but its message |
| Network.ReceiveReplyUnsetIff | src/network_client.c:151-177 | the client parses a block that was never filled exactly when the length of the reply arrived and its body did not |
| Network.SendRequest | src/network_client.c:104-138 | the sending half computes that |
| Network.AwaitReply | src/network_client.c:151-177 | the receiving half computes that |
| Skeleton.InvokeRefines | src/table_skel.c:87-181 | for any bucket count a request acts on the table as on the map |
| Skeleton.InvokeOther | src/table_skel.c:74-77 | a negative opcode gives NULL, an unknown one a reply that was never set, and neither moves the table |
| Skeleton.ApplyIdempotent | src/table_skel.c:99-178 | a repeated request has no further effect |
| Skeleton.EffectiveIff | src/table_skel.c:99-178 | the map changes exactly by a put of an absent key, an update of a present key with another value, a del of a present key |
| Skeleton.AbsorbedIff | src/table_skel.c:99-178 | after an effective request a later one leads to the map it would have led to without it in exactly the listed cases |
| Skeleton.InvokeOn | src/table_skel.c:62-186 | the heap table and the reply move as specified; NULL without table or message |
| Remote.StorableKept | src/table_skel.c:99-178 | requests that arrived over the wire leave only keys and values that can be sent again |
| Remote.ReplyEncodable | src/table_skel.c:87-181 | every reply to such a request can be encoded |
| Remote.WireTransparent | src/message.c:54-293 | encoded and decoded both ways, the client has exactly the message that `invoke` produced |
| Remote.RemoteTransparency | src/table_skel.c:62-186 | the decoded reply tells the outcome of the local operation, under the error opcode with -1 exactly when it fails and else under the request's opcode plus one with the content type of the operation; the remote table moves as the map |
| Remote.RequestBytes | inc/message.h:6-20 | the requests of the stub begin on the wire with the documented opcodes and content types |
| Remote.SendableIff | src/client_stub.c:99-257 | the stub's requests can travel exactly for NUL-free keys of at most 65535 bytes with a non-negative sum and data of a positive `int` size |
| Exchange.ExchangeIff | src/network_client.c:104-177 | over any two schedules of chunks: when an end uses a value that was never set, when the client has a reply, that it tells the local outcome under the right opcode, and that the server's map has moved by the operation exactly when the request made it through |
| Remote.StubDelAgrees | src/client_stub.c:221-257 | the stub of del returns the table's own code |
| Remote.StubPutAgreesIff | src/client_stub.c:99-147 | the stub of put returns the table's code exactly when the key was absent |
| Remote.StubUpdateAgreesIff | src/client_stub.c:149-180 | the stub of update returns the table's code exactly when the key was present, although the reply tells the failure; the remote map is updated |
| Remote.StubSizeAgreesIff | src/client_stub.c:258-293 | the stub of size returns the promised number exactly for an empty table |
| Remote.StubsWithoutReply | src/client_stub.c:99-293 | without a reply the stubs of put, del and size return -1, the one of update 0 |
| StateTransfer.GetEachExact | src/primary_backup.c:51-62 | the loop completes exactly when no listed key is "!", adding exactly the listed keys and keeping own values |
| StateTransfer.TransferExact | src/primary_backup.c:24-71 | for any two bucket counts: completes exactly when "!" is not stored, and ends with the source's pairs beneath the own ones |
| StateTransfer.TransferCopiesIff | src/primary_backup.c:24-71 | the copy is exact exactly when no own pair contradicts the source, hence from an empty table |
| StateTransfer.UpdateState | src/primary_backup.c:24-71 | the loop on the local heap table computes that transfer; -1 without a peer |
| Servers.ServeFacts | src/table-server.c:129-170 | a request changes the table as the map, the role never, the link state only by OC_UP or an unanswered forward |
| Servers.ServeAnswers | src/table-server.c:135-152 | the answer to OC_STATUS is the role, the one to OC_UP is 1 if the connection back was made, every other one that of `invoke` |
| Servers.StartsIff | src/table-server.c:288-361 | as what a server starts, with which map and link, for any peer and any two bucket counts; it cannot join exactly a peer that stores the key "!" |
| Servers.Server.NetworkReceiveSend | src/table-server.c:88-210 | apply, answer, forward and mark down as specified; -1 exactly when nothing was read, `invoke` refused the request or the reply could not be written |
| Servers.Server.ServeSlot | src/table-server.c:481-495 | a request that ends with an error closes its connection, and a secundary then promotes itself and marks its link down; any other request is served as specified |
| Servers.Server.Primary | src/table-server.c:325-361 | joins a peer that is primary by copying its state, leads otherwise |
| Servers.Server.Secundary | src/table-server.c:288-323 | copies the state of the peer it reaches and waits as secundary |
| ClusterControl.NeverTwoLeaders | src/table-server.c:141-170 | in every run never two leaders; only a leader waits for a backup; a secundary is up and has nothing under way |
| ClusterControl.SecondHopIff | src/table-server.c:155-170 | no process ever passes on what was forwarded to it, throughout a run, exactly if no leader reads a forwarded request |
| ClusterControl.NoBacklogNoSecondHop | src/table-server.c:141-170 | that is so in every run in which no server joins a primary that has yet to read what that server's previous life forwarded |
| ClusterRuns.SecondHopRun | src/table-server.c:155-170 | a run from the start in which a put makes a second hop, back to the server it came from |
| ClusterControl.TakeAnswers | src/table-server.c:155-170 | where leaders have nothing to read, a forwarded request is applied and answered, never passed on |
| ClusterControl.StaysPrimary | src/table-server.c:491-494 | from its promotion or start to the end of its life, over any run, a primary stays primary |
| ClusterControl.SecondPrimaryIff | src/table-server.c:489-495 | a run has at most one primary throughout exactly if no secundary loses or closes a connection while its peer runs as primary |
| ClusterControl.TwoPrimaries | src/table-server.c:353-358 | the ordinary start ends with two primaries |
| ClusterData.StepFaithful | src/table-server.c:129-133 | every step of every run keeps each table the replay of its history |
| ClusterData.JoinFaithful | src/primary_backup.c:24-71 | a joining process ends with the map of the peer's history |
| ClusterMaps.InStepIff | src/table-server.c:129-170 | leader and live backup are in step throughout a run (equal maps between requests, exactly the forwarded request apart during one, whether it is unread or was dropped) exactly if every step is harmless: no client changes the backup unless the forwarded request absorbs it, no server starts as leader over a peer with a table or unread requests |
| ClusterProgress.NeverStuck | src/table-server.c:432-500 | in every state of every run a process serves any request if it waits for nobody, and can give up if it waits |
| ClusterProgress.ClientApplies | src/table-server.c:129-170 | a client's request is applied at once; a leader's mutation, and nothing else, waits and is there for the live backup to read |
| ClusterProgress.ForwardCompletes | src/table-server.c:155-173 | the ordinary forward completes: applied, read by the backup, answered; both tables hold the mutation and the leader is ready again |
| ClusterProgress.ForwardLost | src/table-server.c:160-169 | when the backup drops the request, it is primary with its old table and the leader serves on alone with the mutation applied |
| ClusterProgress.ForwarderDies | src/table-server.c:129-170 | when a leader dies while it forwards, its backup has to read the request exactly if it had left |
| ClusterProgress.FailOver | src/table-server.c:489-494 | when an idle leader dies, its backup becomes primary with the leader's map and serves on |
| ClusterProgress.StartIff | src/table-server.c:288-361 | when a stopped server can start beside any peer, and what both then are |
| ClusterProgress.Returns | src/table-server.c:325-361 | a server that died comes back as the live backup of the one that took over, with its map |
| ClusterMaps.SameSizeSameTable | src/table-server.c:129-170 | with equal bucket counts the two tables are then identical, key order included |
| ClusterMaps.DirectMutationIff | src/table-server.c:155-170 | a mutation sent to the backup of an idle leader keeps the maps equal exactly when it finds nothing to do |
| ClusterRuns.PutAtBackupParts | src/table-server.c:155-170 | after the ordinary start, one put at the backup leaves a linked idle leader without that pair |
| ClusterRuns.StartOverTableParts | src/table-server.c:353-358 | a primary started over a secundary with a pair leads, linked and idle, with an empty table |
| ClusterLogs.ReplicationSafety | src/table-server.c:129-170 | in every proper run: in step while the leader's link is up; once an answer was lost, the backup's history with what it has yet to read stays a prefix until a client changes the backup |
| ClusterLogs.ProperRunHarmless | src/client_stub.c:76-98 | the client's own resends at the other server are harmless |
| ClusterSafety.AnswerAcknowledges | src/table-server.c:155-173 | when the answer to a forwarded mutation is sent, both tables hold its effect and the whole history is acknowledged |
| ClusterLogs.AckedGrows | src/table-server.c:155-173 | in proper runs the acknowledged history only grows while a replica of it keeps running |
| ClusterSafety.AcknowledgedWritesSurvive | src/table-server.c:489-494 | in every harmless run an acknowledged map stays one that the history behind the table of every surviving replica passes through |
| ClusterSafety.CrashKeepsMap | src/table-server.c:489-494 | when a leader dies in a harmless run, its live backup, once it has read what arrived, holds the leader's map; only an unanswered request that never arrived is missing |
| ClusterLogs.AcknowledgedPrefix | src/table-server.c:489-494 | in every proper run an acknowledged history is a prefix of the history behind the table of every surviving replica |
| ClusterLogs.CrashLeavesSurvivor | src/table-server.c:489-494 | a leader's crash leaves its live backup with everything acknowledged, at most one unacknowledged operation short, before and after it reads what arrived |
| ClientStub.RetrySafe | src/client_stub.c:76-98 | whatever roles the servers take between the sends, each replica ends with zero or one application; one that answered is current, has exactly one and tells its outcome |
| ClientStub.SendExact | src/client_stub.c:76-81 | one send has the request applied at the current server exactly if it is executed, and at the other one exactly if the current one is primary with its link up and the forward arrives, whether or not a reply comes back |
| ClientStub.RetryExact | src/client_stub.c:76-98 | after a whole retry either server has the request applied exactly if one of the sends made was executed there, or at its peer which passed it on |
| ClientStub.AnswerTurn | src/client_stub.c:63-98 | the sends alternate between the servers and stop at the first answered one, which decides the current server; no answer exactly when no send got one |
| Session.SessionSafe | src/client_stub.c:76-98 | over a whole session, whatever is resent, forwarded late, dropped, crashes, promotes itself or joins, every server ends with some of the requests applied, in their order, each at most once |
| Session.OrdinarySession | src/client_stub.c:76-98 | any sequence of mutations sent to a leader with a live backup can go through, and both servers then hold the map that all of them make in their order |
| Session.AnswerStands | src/client_stub.c:76-98 | from the send that a server executes to the end of the call or of its life, that server has the request applied exactly once |
| Session.NextAnswerStandsIff | src/table-server.c:141-170 | the effect of every next request at a server that does not lead stays exactly if that server has nothing left to read |
| Session.LateForwardUndoes | src/table-server.c:141-170 | a run in which an old forward, read late, undoes the same client's del |
| ClientStub.RTable.RetryServers | src/client_stub.c:76-98 | the four nested sends are the specified retries |
| Connections.FindFreeConnection | src/table-server.c:216-226 | the first free client slot, -1 exactly when there is none |
| Connections.ReactConservesIff | src/table-server.c:436-497 | an event keeps the counter exact unless `accept` returns 0 for a free slot |
| Connections.RunConservesIff | src/table-server.c:432-500 | throughout a run the counter is the number of busy slots exactly if `accept` never returns 0 for a free slot; then it is at most eight |
| Connections.AcceptTakesSlot | src/table-server.c:436-468 | a client that connects gets the first free slot and is counted; with none free or a failed `accept` nothing changes |
| Connections.FailureFreesSlot | src/table-server.c:483-486 | a lost connection frees exactly its slot and is no longer counted |
| Connections.SlotHolds | src/table-server.c:432-500 | after a run a slot holds the descriptor last accepted for it, unless that connection was lost |
| Connections.EightClients | src/table-server.c:366-430 | a fresh server seats eight clients in order and leaves a ninth waiting |
| Connections.Loop.Arrive | src/table-server.c:436-468 | accepting does what is specified |
| Connections.Loop.Fail | src/table-server.c:483-486 | losing a connection does what is specified |
| Connections.Loop.Serve | src/table-server.c:432-500 | the loop over a whole run does what is specified, and in those runs ends with the counter exact |

## Left out

- Entries.EntryCreate: requires a block of positive size, because with an empty one the source returns an entry it has freed.
- Tables.Table.Put: requires a block of positive size, because with an empty one the source goes on with an entry it has already freed.
- Tables.Table.GetKeys: the source allocates one byte more than `quantity_entry` pointers; the model has the slot its terminator needs.
- MessageBuffers.BufferToMessage: requires a buffer that the parser can read without leaving it, because the source never compares its cursor with the size; `Messages.Decode` says which buffers those are.
- MessageBuffers.MessageToBuffer: the size is not bounded by `INT_MAX`; a message above two gigabytes is not modelled.
- Network.AwaitReply: is not called where the source parses a reply body that never arrived.
- Network.ReceiveRequest: is not called where the source continues with a length it never read, nor with a length of zero.
- Servers.Server.NetworkReceiveSend: leaves the reply unset for an OC_UP whose connection back fails and for unknown opcodes, as the source does; whether it can be written is the parameter `written`.
- ClientStub.RetrySafe: a server that restarts with another table between two sends, or a forward that is read after the last one, is not modelled here but in `Session`; roles and links may change in any way.
- Session.SessionSafe: a server that starts without joining brings an empty table and is not part of a session.
- ClusterControl.NeverTwoLeaders: the list of keys, the gets and OC_UP of a join are one step, so a peer that restarts in the middle of a handshake is not modelled.
- ClusterLogs.ReplicationSafety: the part about histories is for proper runs; what any other step does to the maps is `ClusterMaps.InStepIff`.
- ClusterLogs.AcknowledgedPrefix: is for proper runs, as after a client's change at the backup the two histories are no longer prefixes of one another even where the maps agree again; `ClusterSafety.AcknowledgedWritesSurvive` covers those runs.
- The one connection of the thread started by `primary` is made at the start and not some time after it.
- The extra resend of `rtable_put` after an error reply, and the value pointer that `rtable_get` returns.
- Sockets, `poll`, signals, address parsing and the file that remembers the primary's address: a connection is up or down, a send is answered or not, and whether the peer's address is known is a parameter.
- Freeing memory and failed allocations.
- `table-client.c` and everything that prints.
- `dup_node`, `list_size` and `hello`, which nothing calls or which only read a field.
