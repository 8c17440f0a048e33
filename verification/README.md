# Verification of the RPC node

A Dafny model of the RPC node of a sharded chain, with proofs about its four intricate parts.

**Transaction admission** (`Ledger`, `Admission`, `Refusals`, `Runs`, `Served`, `Conservation`, `AtomicRuns`,
`Race`, `Effects`, `Decimals`, `Handler`). A transaction request
reads the sender's head digest, checks other store facts, and broadcasts a proposal linked to that head;
consensus settles a proposal only while its link is still the head. It is optimistic concurrency control
spread over two programs. `Admission.Advance` is one store read (or the broadcast) of one request, so that in
`Runs` any number of requests, settlements and proposals of other nodes interleave between reads. `Handler`
is the handler object with its fields and methods, proved against `Admission.Complete`. `Refusals` says, without
the steps, which answer each request gets on one store; `Effects` what a served request leaves in the store and
shows in the listings; `Decimals` what the parser of amounts accepts.

**Queries** (`Queries`, `Paging`, `Claims`, `GiveFlag`, `Handler`). The history listing reuses one mutable JSON row and a memo of
name tags, and pages by counting; it is proved equal to a filter, a slice and a map. `Paging` follows
a reader whose list grows between pages, `Claims` says what a listed transfer_in proves. The give flag of
account_info is read from two stores; `GiveFlag` says exactly when it is right.

**The asynchronous server** (`CallData`, `Service`, `Draining`, `AsyncServer`). Self-respawning objects, six
threads and a shared completion queue, as a machine in which every status write, allocation, publication and
deletion is a step of its own. `AsyncServer` is the C++ control flow of one thread, with the other threads
and the runtime taking arbitrary steps between any two of its statements.

**The wire codec** (`Wire`, `WireFormat`, `Utf8`, `Message`, `Canonical`, `Codec`, `Generated`) of `xrpc_request` and
`xrpc_reply`, down to the bytes, and **the texts of digests and signatures** (`Base64`, `Texts`), which the
handler object decodes and the listings print. The generated code of
the two messages differs in the name of the first field only (`common/protos/xrpc.pb.cc:202-417` and
`502-717`), so one class stands for both: its `first` is `action_` or `result_`. The wire primitives follow
the Protocol Buffers Encoding specification ("Base 128 Varints", "Message Structure", "Length-Delimited
Records", "Last One Wins", "Groups"), the string check section 4 of RFC 3629, and Base64 section 4 of RFC 4648.

## Assumptions

The store and consensus are not part of this model. `Ledger.CanSettle` and `Ledger.Settle` state what is
assumed of them:

- an account's head is the digest of its last settled transaction (`xrpc_server.cpp:259-263`), and a proposal
  other than an account creation settles only if its `m_last_msg_digest` is the sender's head;
- settling a transfer_out moves the sender's head, charges its balance and files an entry in the receiver's
  receive list, in one step; settling a transfer_in moves an entry of the receive list into the settle list
  and credits it, in one step; settling does not check a balance;
- accounts are never deleted.

Digests are symbolic: equal digests hash equal content. That heads never repeat is then a theorem
(`Runs.HeadsNeverRepeat`), since each head is one longer than the one before. Signature checking is an
uninterpreted predicate `verify` that every theorem quantifies over.

Of Base64 decoding, which lies in a library, it is assumed that it follows section 4 of RFC 4648 on canonical
texts (`Texts.Decodes`); of the digests named in a theorem, that their 32 bytes stand for no other
(`Texts.Legible`).

Of gRPC it is assumed that each armed tag receives at most one request, that `Finish` is followed by one
completion event, and that events are delivered with `ok` true. The handler is any relation `serves` between
request and reply bodies; theorems about finishing assume it has an answer to every body.

## Model

| member | source | states |
|---|---|---|
| Ledger.SettleHeads | xrpc_server.cpp:259-263 | settling, as assumed, changes only the sender's head and balances, and the new head is strictly deeper |
| Ledger.SettleReceived | xrpc_handler.cpp:545-563 | once an account has received something, one of the two lists the give checks inspect shows it, for ever |
| Admission.Draft | common/xrpc_utility.cpp:8-71 | the transaction of a request is linked to the given digest, hashed after the link is set, and signed by a built-in account whenever the server signs |
| Admission.AdvanceTerminates | xrpc_handler.cpp:422-643 | every request makes boundedly many store reads, whatever the store does |
| Admission.CompleteOk | xrpc_handler.cpp:422-570 | the gate: under any sequence of stores, a request that succeeds has one verified, well-hashed transaction for its own request, signed with the sender's built-in key on every nohash path |
| Admission.BalanceSucceeds | xrpc_handler.cpp:477-509 | from the balance read on, an unchanging store admits a transfer_out exactly when link, asset, amount and balance all fit |
| Admission.GiveSucceeds | xrpc_handler.cpp:537-569 | from the account check on, an unchanging store admits a give exactly when the destination exists and has received nothing |
| Admission.AdmittedIff | xrpc_handler.cpp:422-736 | the exact admission condition of each of the five transaction actions |
| Runs.AdvanceFacts | xrpc_handler.cpp:522-565 | each read of a request establishes a fact that the later theorems rest on: which head was read before which list or balance |
| Runs.CommitFacts | xrpc_handler.cpp:462-503 | every such fact survives the settlement of any other proposal |
| Runs.CommitKeeps | xrpc_handler.cpp:513-570 | settling any proposal keeps the invariant of all requests, proposals and settlements |
| Runs.ServeIsInterleaving | xrpc_handler.cpp:75-158 | a request served atomically is one of the interleavings |
| Runs.RunKeeps | xrpc_handler.cpp:422-643 | the invariant holds in every reachable world |
| Runs.HeadsNeverRepeat | xrpc_server.cpp:259-263 | in every run, of two settled transactions of one sender the later is linked to a strictly deeper digest and leaves a deeper one, so no head and no link ever comes back |
| Served.AdmittedSettlesIff | xrpc_handler.cpp:422-736 | a request admitted on one store settles in another exactly when its link is the head there, or for an account_create the account is missing and the amount parses, and for a transfer_in the entry is pending and parses |
| Served.AdmittedSettlesAtOnceIff | xrpc_handler.cpp:422-736 | in the store that answered Result 1 a give or transfer_out always settles, and exactly when the others do |
| Refusals.RefusedIff | xrpc_handler.cpp:422-736 | for each of the five actions and every error code, the exact condition on one store under which the request is refused with that code, and that under which transfer_out throws |
| Refusals.KeyAllowedIff | xrpc_handler.cpp:684-695 | the keys accepted are those in which the first of `@` is at position 0 and none of `#`, `$` is found |
| Handler.RequestHandler.HandleOnStore | xrpc_handler.cpp:75-158 | on one store Result is 1 exactly when the request is admissible, ErrCode and Reason carry a code exactly under that code's condition, and no answer is left exactly when it throws |
| Decimals.StollReads | xrpc_handler.cpp:491 | an amount is read from white space, an optional sign, decimal digits by positional value, and any text after them, exactly when 64 bits hold it |
| Decimals.StollRefuses | xrpc_handler.cpp:491 | without a digit there the parser throws |
| Decimals.StollDecimal | xrpc_handler.cpp:491 | parsing inverts decimal notation on every signed 64-bit number and refuses every other |
| Effects.ServedLeaves | common/xrpc_utility.cpp:8-71 | an admissible request, served and settled, leaves exactly what its members ask for: the property written, the account opened, the amount taken and filed, the entry taken in; everything else is as before |
| Effects.ServedShows | xrpc_handler.cpp:302-332 | a served transfer that settles heads its account's history, in a row with the members of the request, the new head and the old one |
| Effects.PageNamesAssets | xrpc_handler.cpp:315 | every row of a history page names the asset by the transaction's key, or `$$` where that is empty |
| Effects.OthersNotListed | xrpc_handler.cpp:304-308 | settled creations and property writes leave every history as it was |
| Effects.NameIsTag | xrpc_handler.cpp:240-283 | a served `@name` is the tag that listings show for that account, and no other tag changes |
| Effects.PendingShows | xrpc_handler.cpp:356-383 | an admitted payment, settled, heads the pending list of its destination with payer, asset, amount and digest |
| Effects.OnlineShows | xrpc_handler.cpp:587-602 | a broadcast transaction is listed with what its request asked for, the timestamp modulo 2 to the 64 |
| Effects.InfoSays | xrpc_handler.cpp:193-217 | the snapshot of account_info, with zero balance and empty tag where there is none |
| Effects.InfoThenPay | xrpc_handler.cpp:193-217 | a client that asks to pay no more than the balance it was shown, linked to the hash it was shown, is admitted if nothing settles in between |
| Conservation.SettleConserves | xrpc_handler.cpp:491-495 | settling a payment moves balances and entries on their way without changing their sum, whichever asset; an account creation adds what it opens with |
| Conservation.AssetsConserved | xrpc_handler.cpp:491-495 | in every interleaving, overdrawn or not, the sum of an asset changes by the openings of accounts alone |
| Runs.GiveAtMostOnce | xrpc_handler.cpp:513-570 | in every interleaving no destination receives two settled gives, and each is 100000 of the native asset from the genesis account |
| Runs.SandwichedNeverOverdraws | xrpc_handler.cpp:448-510 | in every interleaving a settled transfer_out whose head was read by the server, or was the same when balance and link were read, finds at least its amount |
| AtomicRuns.AtomicNeverOverdraws | xrpc_handler.cpp:448-510 | when handlers run atomically no settled transfer_out overdraws, client-supplied digests included |
| AtomicRuns.BalancesStayNonNegative | xrpc_handler.cpp:491-495 | in atomic runs whose proposals all come from this node and ask for no negative amount, no account but the genesis account, which gives unchecked, goes below zero |
| Served.GiveOverdrawsIff | xrpc_handler.cpp:513-570 | why genesis is excluded: an admissible give is served and settled whatever genesis holds, and takes it below zero exactly when it held less than 100000 |
| Served.TransferMovesExactly | xrpc_handler.cpp:491-495 | why negative amounts are excluded: an admitted transfer_out of any amount, taken in, adds to its receiver what it takes from its sender, so a negative one takes the receiver below zero exactly when it held less |
| Served.ForeignOverdrawsIff | xrpc_handler.cpp:491-495 | why other nodes' proposals are excluded: their settlement checks no balance |
| Race.ServerReadIsSafe | xrpc_handler.cpp:462-503 | an account whose head the server reads is never overdrawn by a transfer_out, from any ledger, in any interleaving |
| Race.InterleavedClientOverdraws | xrpc_handler.cpp:477-503 | from any world in which a payer without a built-in key can pay once but not twice, two payments linked by the client both settle, the second from less than its amount |
| Race.SafeIff | xrpc_handler.cpp:385-406 | from every ledger in which an account that can sign can pay once but not twice, its transfer_outs are safe from overdraft in every run exactly when the guard no_hash holds of it |
| Race.SafeFromNothingIff | xrpc_handler.cpp:385-406 | the same from the empty ledger, where the account is first opened by a served account_create |
| Handler.Transaction.MakeAccountCreate | common/xrpc_utility.cpp:8-28 | builds an account creation with an all-zero link and the default amount 0 |
| Handler.Transaction.MakeTransferOut | common/xrpc_utility.cpp:30-43 | builds a transfer out and hashes it with its link |
| Handler.Transaction.MakeTransferIn | common/xrpc_utility.cpp:45-57 | builds a transfer in whose parameters are the digest taken in |
| Handler.Transaction.MakeSetProperty | common/xrpc_utility.cpp:59-71 | builds a property write and hashes it with its link |
| Handler.RequestHandler.TransactionDigestAdd | xrpc_handler.cpp:796-827 | signs exactly for the three built-in accounts and otherwise leaves the transaction alone |
| Handler.RequestHandler.LastDigestSet | xrpc_handler.cpp:385-406 | the head from the store, failing exactly when the account is missing, or the digest of the request |
| Handler.RequestHandler.CheckInput | xrpc_handler.cpp:684-707 | refuses exactly invalid property keys and existing accounts, with their error codes |
| Handler.RequestHandler.CreateAccount | xrpc_handler.cpp:422-446 | answers and broadcasts what the specification of the request says, under any sequence of stores |
| Handler.RequestHandler.TransferOut | xrpc_handler.cpp:448-510 | answers and broadcasts what the specification of the request says, under any sequence of stores, and throws exactly where it does |
| Handler.RequestHandler.Give | xrpc_handler.cpp:513-570 | answers and broadcasts what the specification of the request says, under any sequence of stores, the search of the settle list included |
| Handler.RequestHandler.TransferIn | xrpc_handler.cpp:609-643 | answers and broadcasts what the specification of the request says, under any sequence of stores |
| Handler.RequestHandler.SetProperty | xrpc_handler.cpp:709-736 | answers and broadcasts what the specification of the request says, under any sequence of stores |
| Handler.RequestHandler.HandleTransaction | xrpc_handler.cpp:75-158 | a request that returns broadcast one verified, well-hashed proposal if Result is 1 and none otherwise; only transfer_out can throw; an unknown action is refused |
| Handler.RequestHandler.AccountInfo | xrpc_handler.cpp:193-238 | the whole response, the give flag read from two lists in two stores |
| Handler.RequestHandler.SetPropertyValue | xrpc_handler.cpp:240-283 | both tags come from the memo, which holds what each address's one fetch found in the store of that moment |
| Handler.RequestHandler.AccountHistory | xrpc_handler.cpp:286-335 | whatever settles between its reads: one page of the transfers of the first, the count of all of them, each address shown fetched exactly once and tagged throughout as that fetch found it |
| Handler.SteadyHistory | xrpc_handler.cpp:240-335 | on an unchanging store the page equals the pure filter, slice and map with direct tag lookups |
| Handler.RequestHandler.AccountPending | xrpc_handler.cpp:356-383 | the first `count` entries of the receive list and the length of the whole list |
| Handler.RequestHandler.QueryOnlineTx | xrpc_handler.cpp:572-606 | one page of the queue and the length of the whole queue |
| Queries.PagesPartition | xrpc_handler.cpp:289-334 | consecutive pages concatenate to the list, and position i is on page i / per_page and no other |
| Queries.TransfersConcat | xrpc_handler.cpp:302-308 | the filter of two stretches of the settle list is the two filtered, end to end |
| Queries.ScanIsMap | xrpc_handler.cpp:302-332 | a loop that reuses its row is a map where each pass overwrites what it finds |
| Queries.ReusedRowsFit | xrpc_handler.cpp:302-332 | with the type numbers the literals presuppose, the reused row shows exactly the row of each transfer |
| Queries.ReusedRowsSame | xrpc_handler.cpp:240-283 | rows depend on the tags of the addresses shown only, so they stand when the memo grows |
| Queries.NoLeakIff | xrpc_handler.cpp:316-324 | each row shows what its transaction records, and no stale or missing amount, exactly when 0 and 1 cover transfer_out and not transfer_in |
| Claims.ClaimsUnchecked | xrpc_handler.cpp:620-625 | whatever counterparty and amount a transfer_in names, its hash, link, signature and settlement are the same, and its row shows what was named |
| Claims.ListedTruthIff | xrpc_handler.cpp:317-324 | a served and settled transfer_in heads its account's history with the sender and amount of the request, which are those of the entry taken in exactly when the request copied them |
| Queries.HistoryPages | xrpc_handler.cpp:286-335 | while the list stands still, paging through it shows one row for each transfer, in order, with the tags that the request for its page found |
| Paging.NothingMissed | xrpc_handler.cpp:289-334 | however the list grows at the front between page requests, every item of the first list has been shown once the pages cover the last |
| Paging.RepeatedIff | xrpc_handler.cpp:289-334 | an item q places down a page of p is shown again on the next exactly when the k items that came in between satisfy p - q <= k < 2p - q |
| Paging.HistoryNothingMissed | xrpc_handler.cpp:286-335 | whatever settles between the page requests, every transfer that the first found has had its row once the pages cover the list |
| Queries.InfoAgreesWithGive | xrpc_handler.cpp:218-236 | on one store account_info announces a give exactly when a give request would pass its checks |
| GiveFlag.FlagWrongIff | xrpc_handler.cpp:219-236 | after any settlements between its two reads the flag is wrong exactly when the account took its first transfer in meanwhile and has nothing pending |
| GiveFlag.FlagRightUnlessTakenIn | xrpc_handler.cpp:219-236 | the flag is right when no transfer in of the account settles between the reads |
| GiveFlag.AlwaysRightIff | xrpc_handler.cpp:219-236 | for an existing account with parsable pending amounts the flag is right whatever settles between the reads exactly when a transfer in had settled before |
| CallData.StepOwned | xrpc_service.cpp:115-173 | every step of threads and runtime keeps each object with exactly one owner, in the status its owner expects |
| Service.RunsGood | xrpc_service.cpp:115-222 | in every reachable state each object has exactly one owner and the status that owner expects, and each request is in one live object or retired |
| Service.StepGood | xrpc_service.cpp:121-173 | every step keeps each accepted request in one live object or retired, and answered at most once to its own body |
| Service.TagsAreLive | xrpc_service.cpp:122-171 | in every run a popped tag is a live object, in PROCESS for a request and FINISH for a completion; the assertion never fails |
| Service.NoSharing | xrpc_service.cpp:131-171 | no two threads work on one object, and none on an object it has handed to the runtime |
| Service.AnsweredOnce | xrpc_service.cpp:133-171 | each request gets at most one Finish, computed from its own body, and its object is deleted at most once, and not before |
| Draining.ListenersConserved | xrpc_service.cpp:137-222 | listening objects equal started threads; live objects equal these plus accepted and replaced minus retired requests; accepted equals retired plus held; the counter agrees |
| Draining.StepDrains | xrpc_service.cpp:115-171 | without arrivals every step strictly decreases the effort |
| Draining.DrainBound | xrpc_service.cpp:115-213 | no run without arrivals is longer than the effort it starts from |
| Draining.RunsToQuiet | xrpc_service.cpp:200-222 | from every reachable state a run without arrivals leads to a state in which nothing can happen |
| Draining.QuietState | xrpc_service.cpp:200-222 | there every thread waits, every request is answered and retired once, and one armed object remains for each thread |
| Draining.EventuallyAnswered | xrpc_service.cpp:133-171 | every run extends to one in which each accepted request got exactly one Finish, from its own body, and its object was deleted once |
| AsyncServer.Server.Construct | xrpc_service.cpp:115-132 | the constructor arms the new object and spawns nothing, whatever runs meanwhile, and the request its caller carries is untouched |
| AsyncServer.Server.Proceed | xrpc_service.cpp:121-173 | under interference, a request is answered to its own body and a completion retires its object; the FINISH assertion holds |
| AsyncServer.Server.HandleRpcs | xrpc_service.cpp:200-222 | the event loop keeps the whole-server invariant for any number of turns |
| Wire.Varint64RoundTrip | common/protos/xrpc.pb.cc:219-221 | a varint reads back, whatever follows, as a 64-bit and where it fits as a 32-bit number |
| Wire.SkipFieldRoundTrip | common/protos/xrpc.pb.cc:260-261 | a well-formed unknown field of any wire type, nested groups included, skips back to itself, whatever follows |
| Wire.SkipFieldWellFormed | common/protos/xrpc.pb.cc:260-261 | whatever is skipped into the unknown fields is well-formed and keeps its tag |
| Wire.FieldsSizeIs | common/protos/xrpc.pb.cc:349-353 | the computed size of unknown fields is the number of their bytes |
| WireFormat.VarintIs | common/protos/xrpc.pb.cc:285-286 | a varint is the shortest run of seven-bit groups, least significant first, that makes up the number |
| WireFormat.ReadVarintIs | common/protos/xrpc.pb.cc:219-221 | reading stops at the first byte without its top bit, within ten bytes, and keeps 64 bits, or 32 of a tag |
| WireFormat.ReadVarintRefuses | common/protos/xrpc.pb.cc:219-221 | without such a byte among the first ten reading fails |
| WireFormat.FieldBytes | common/protos/xrpc.pb.cc:337-339 | the tag of every wire type, with the numbers 0 to 5 written out |
| WireFormat.TagsRefused | common/protos/xrpc.pb.cc:256-262 | a zero tag ends a message; field number zero and wire types 4, 6 and 7 are refused |
| WireFormat.GroupNeedsDepth | common/protos/xrpc.pb.cc:260-261 | a group is refused when the recursion budget is used up and read otherwise |
| WireFormat.AcceptsString | common/protos/xrpc.pb.cc:222-254 | a string field is taken exactly when it is UTF-8 and shorter than 2147483648 bytes |
| WireFormat.SerializedBytes | common/protos/xrpc.pb.cc:275-306 | the bytes of a message: the strings under tags 10 and 18 unless empty, then the unknown fields |
| WireFormat.ReceiveString | common/protos/xrpc.pb.cc:213-273 | the object that parses one string field succeeds exactly when it is UTF-8 and shorter than 2147483648 bytes, and then holds it |
| Utf8.ValidIff | common/protos/xrpc.pb.cc:230-233 | the grammar accepts exactly the encodings of sequences of code points |
| Utf8.ShortStrings | common/protos/xrpc.pb.cc:230-233 | which strings of one and two bytes are accepted, byte by byte |
| Utf8.LongCharacters | common/protos/xrpc.pb.cc:230-233 | which three- and four-byte sequences are accepted, byte by byte |
| Message.ByteSizeIs | common/protos/xrpc.pb.cc:345-371 | the size equals the bytes written, for every message and both values of the flag |
| Message.ParseFields | common/protos/xrpc.pb.cc:218-264 | parsing encoded fields folds them in, in order, and fails exactly on a known string that is not UTF-8 |
| Message.ParseSerialized | common/protos/xrpc.pb.cc:213-306 | parsing a serialized message into any other folds in its fields, whatever follows, failing exactly on a known string that is not UTF-8; with no known field among the unknown ones that is a merge |
| Message.RoundTripIff | common/protos/xrpc.pb.cc:213-306 | with unknown fields preserved a message parses back to itself exactly when its strings are UTF-8 and no known field sits among its unknown ones |
| Message.RoundTripDropped | common/protos/xrpc.pb.cc:300-304 | without preservation exactly the strings come back |
| Message.ConcatenationMerges | common/protos/xrpc.pb.cc:388-403 | parsing two serialized messages end to end is MergeFrom |
| Message.MergeMonoid | common/protos/xrpc.pb.cc:388-403 | MergeFrom is associative with the cleared message as identity |
| Message.ParseIsFold | common/protos/xrpc.pb.cc:218-264 | last one wins: on every input the parse loop folds the fields read off it, and fails exactly on an unreadable field or a known string that is not UTF-8 |
| Canonical.SameMessageIff | common/protos/xrpc.pb.cc:218-264 | two accepted inputs give the same message exactly when they agree on the last string of each known number and on the other fields in order |
| Canonical.ParseCanonical | common/protos/xrpc.pb.cc:218-264 | the parse loop only ever holds a message that round-trips |
| Canonical.SecondPassIsIdentity | common/protos/xrpc.pb.cc:213-306 | serialize after parse is a fixed point, for every accepted input |
| Canonical.SerializeInjective | common/protos/xrpc.pb.cc:275-306 | messages that round-trip are told apart by their bytes |
| Canonical.KnownFieldsCommute | common/protos/xrpc.pb.cc:222-254 | two known fields may change places wherever they stand, with any unknown fields between them and any fields around |
| Canonical.ParseResumes | common/protos/xrpc.pb.cc:218-264 | input after any whole input, canonical or not, is parsed into the message the first one gave |
| Canonical.ParseIntoIffMerge | common/protos/xrpc.pb.cc:395-402 | parsing into a message equals merging in the parsed message exactly when no explicit empty string blanks a field |
| Codec.CodedOutput.WriteVarint | common/protos/xrpc.pb.cc:285-286 | the shifting loop appends the varint |
| Codec.FieldsToArray | common/protos/xrpc.pb.cc:337-339 | unknown fields, groups included, are written in place at the target and nothing else changes |
| Generated.XrpcMessage.Clear | common/protos/xrpc.pb.cc:202-211 | leaves the cleared message |
| Generated.XrpcMessage.MergePartialFromCodedStream | common/protos/xrpc.pb.cc:213-273 | the parse loop terminates, succeeds exactly when `Parse` does, and leaves its message and the rest of its input; on failure it leaves what was read before, but for the part the refused field belongs to |
| Generated.XrpcMessage.SerializeWithCachedSizes | common/protos/xrpc.pb.cc:275-306 | appends exactly the serialized bytes, for both values of the flag |
| Generated.XrpcMessage.SerializeToArray | common/protos/xrpc.pb.cc:308-343 | writes the same bytes at the target, changes no other byte, and returns the end |
| Generated.XrpcMessage.ByteSizeLong | common/protos/xrpc.pb.cc:345-371 | the exact number of bytes either serializer writes; caches its low 32 bits |
| Generated.XrpcMessage.MergeFrom | common/protos/xrpc.pb.cc:388-403 | empty strings do not override, unknown fields are appended |
| Generated.XrpcMessage.CopyFrom | common/protos/xrpc.pb.cc:412-417 | yields an equal message, also when copying from itself |
| Generated.WriteBothWays | common/protos/xrpc.pb.cc:575-643 | both serializers write identical bytes, as many as were computed beforehand |
| Generated.SendAndReceive | common/protos/xrpc.pb.cc:513-606 | an object that parses what another wrote is equal to it exactly when the strings are UTF-8 and no known field sits among the unknown ones |
| Base64.DecodeEncode | common/xrpc_utility.cpp:78-97 | every byte string, embedded zeros included, comes back from its text |
| Base64.EncodeDecode | common/xrpc_utility.cpp:78-97 | a canonical text is the one its bytes encode to |
| Base64.CanonicalIff | common/xrpc_utility.cpp:78-97 | the canonical texts are exactly the texts of byte strings |
| Base64.AlphabetIs | common/xrpc_utility.cpp:78-97 | the symbols are those of the standard alphabet, in its order, and no other character is one |
| Base64.GroupBits | common/xrpc_utility.cpp:78-97 | four symbols carry the bits of three bytes, most significant first, and padding stands for missing bytes |
| Base64.EncodeGroup | common/xrpc_utility.cpp:78-97 | longer texts are those of their groups of three bytes, end to end |
| Texts.BuiltInIff | xrpc_handler.cpp:787-827 | the accounts the server signs for are exactly the three whose texts are compiled in |
| Texts.HashEcho | common/xrpc_utility.cpp:78-87 | the text of every 32-byte hash converts back to it, with any decoder that follows the standard on canonical texts |
| Texts.DigestEcho | xrpc_handler.cpp:378-403 | a digest printed in a listing reads back as that digest in a request |
| Texts.EchoReachesTransaction | xrpc_handler.cpp:609-643 | a transfer_in that echoes the text of a pending entry and of a listed head is built for that entry and linked to that head, and takes in an entry of that digest if it settles |
| Handler.ListAndTakeIn | xrpc_handler.cpp:356-383 | a client that lists its pending entries and echoes the i-th text sends nothing but a transfer in of the i-th entry |
| Texts.SignatureEcho | common/xrpc_utility.cpp:89-97 | signatures of any bytes survive the conversion; among canonical texts a signature has exactly one |

## Left out

- Ledger.SettleHeads: rests on the settle rules, which are assumed; the store and consensus are not part of this model.
- Store, consensus, sharding, elections, elliptic-curve signing and SHA-256 are not part of this model; see Assumptions.
- account_delete, account_snap_delete, account_sync, trigger_elect and query_tps are single calls into code that is not part of this model; the run theorems exclude deletion.
- account_balance, last_digest, query_property and query_all_property read one account and would add only easy members.
- The HTTP server, JSON parsing and printing, logging, the retry timer (compiled out) and the synchronous gRPC service, which `run` currently selects (`xrpc_service.cpp:255-259`), are left out. A request is an already decoded record, but for the texts of its two digests and its signature.
- Timestamps are parameters, and so are the sequence number and creation time that account_info shows; the random message number of a broadcast is left out, and so is the choice between its two ways of sending.
- Error codes are names; their numbers and the table of their texts are left out.
- Numbers and digests in a response are kept as values; `Texts.Printed` is the text of a digest, and the printing of numbers is left out.
- Handler.RequestHandler.AccountHistory: requires that the two page bounds do not overflow a C++ int, where the source's behaviour is undefined.
- Handler.RequestHandler.QueryOnlineTx: requires the same of its page bounds.
- Handler.RequestHandler.HandleTransaction: covers the five transaction actions and the unknown one; each query has its own method.
- AsyncServer.Server.HandleRpcs: runs the endless loop for any given number of turns; a turn that finds no event stands for waiting in Next.
- AsyncServer.Server.Proceed: leaves out the rate print with its unsynchronised timestamp and its division, the 32-bit width of the counter, and handlers that throw.
- Shutdown of the completion queue: the source has none (`xrpc_service.cpp:77`).
- Generated.XrpcMessage.MergePartialFromCodedStream: on failure, what the library has put into the very field it refused is not determined.
- WireFormat.AcceptsString: for a string whose size fits in 32 bits; a longer size is cut to 32 bits, as `WireFormat.ReadVarintIs` says.
- Message.ParseSerialized: strings are below 2 GB and unknown fields nest within the reader's recursion limit, as the library's reader demands.
- Generated.XrpcMessage.ByteSizeLong: sizes are unbounded; the 64-bit width of size_t is not modelled.
- Serializing checks strings for UTF-8 only to log; the bytes are written all the same, and the log is left out.
- Stored balances are numbers; that the text of one parses is assumed. The amount of a request may fail to parse, and does so in the model.
- Reading a stream in buffers, arenas, descriptors, reflection, accessors and the stubs of gRPC are plumbing. The aliasing of output buffers is left out.
- Texts.ReadDigest: undetermined for texts that decode to fewer than 32 bytes, where the source reads past the buffer; `Library.past` stands for what is there. What the decoder makes of texts that are not canonical is left open too.
