# Leader election over etcd: a Dafny model

This project models the leader election client of the etcd C API
repository (`leader.c`) together with the parts of the client library it
stands on (`etcd-api.c`), and proves what they do.

- **The election round.** `GetCurrentLeader` reads the election key,
  parses the vote `"nominee,state,fitness"` with the POSIX pattern
  `([^,]+),([^,]+),([^,]+)` and `strtol`, and then does one of four
  things:
  - stops on a CONFIRMED vote;
  - stops on a malformed one;
  - waits while a rival holds a tentative-or-higher vote;
  - writes `"me,state+1,fitness"`, conditional on the exact text it read.

  It repeats this until one pass ends the round.
- **The lease.** `Confirm` rewrites the node's confirmed vote, conditional
  on itself.
- **The process loop.** `main` runs a round, refreshes the lease while it
  leads, and starts a new round when the lease is lost.
- **The client library.**
  - `etcd_open` keeps the server list.
  - `etcd_get` asks the servers in order until one answers.
  - `write_data` is the libcurl callback that copies a response chunk into
    the caller's buffer.

The etcd cluster is an in-memory store with one key (`EtcdStore.Store`).
It follows the contract the header gives `etcd_set`: a NULL precondition
is an unconditional set; otherwise the write happens only if the key
holds exactly the precondition. Everything the rest of the world does
happens between two requests of this client and is given as a schedule of
`EnvStep`s: another client's write, the lease expiring, or the cluster
being out of reach for that request. Every operation is therefore
determined by its inputs and the schedule.

The model is organised in two layers:

- **Pure functions** state what each step does for every schedule:
  `Decide` for one value read, `OnePass`, `Round`, `ConfirmStep`, `Renew`
  and `Lifecycle`.
- **The methods of `Leader.Elector`** run the same steps the way the C code
  does. That includes the NULs written over the commas of the text buffer
  and their restoration before the write. Each method is proved to agree
  with its function.

The lemmas in `LeaderProperties` state what the election guarantees, and
what it does not. A method returns `Pending` when the schedule runs out,
because the C loops need not terminate: a node can wait on a rival's vote
forever.

Modules:

| file | module | models |
|---|---|---|
| wrappers.dfy | Wrappers | `Option` |
| cstring.dfy | CString | C strings, `strtol(s, NULL, 10)`, `"%ld"` on 64-bit `long` |
| votecodec.dfy | VoteCodec | the vote pattern (unanchored, leftmost-longest), decoding and `asprintf` encoding |
| store.dfy | EtcdStore | the election key, `etcd_get` / `etcd_set`, the environment steps |
| leader.dfy | Leader | `GetCurrentLeader`, `Confirm`, `main`'s loop |
| leader_properties.dfy | LeaderProperties | properties of the election |
| etcdapi.dfy | EtcdApi | `etcd_open`, `etcd_get`, `write_data` |

### Behaviour worth knowing

- **An empty read gives an unconditional write.** When `etcd_get`
  returns NULL, the round treats the key as holding no leader
  (leader.c:89-93). It then writes its vote with `text`, which is NULL,
  as the precondition (leader.c:124-128). The header says a NULL
  precondition means an unconditional set (etcd-api.h:146-147).
  The header does not say what `etcd_get` returns when the cluster cannot
  be reached. The model assumes that it returns NULL, as it does for an
  absent key (see "## Left out"). Under that assumption, a read outage can
  displace a confirmed leader (`LeaderProperties.ReadOutageDisplacesLeader`).
- **A lost race ends the process, with status 0.** When `etcd_set`
  rejects the conditional write, `GetCurrentLeader` returns EXIT_FAILURE
  (leader.c:128-132). `main` then leaves its loop (leader.c:275-276) and
  returns EXIT_SUCCESS (leader.c:305)
  (`LeaderProperties.LostRaceEndsProcess`).
- **Fitness is never compared.** It is parsed at leader.c:87 and written
  at leader.c:118, but no branch tests it (leader.c:95-112)
  (`LeaderProperties.StoredFitnessIgnored`,
  `LeaderProperties.OwnFitnessIgnored`).
- **Decoding then encoding is not the identity.** State and fitness go
  through `strtol` (leader.c:86-87), so non-numeric fields read as 0
  (`VoteCodec.NonNumericFieldsReadAsZero`). A zero-padded field such as
  `"01"` reads as 1 (leader.c:86), and every vote the code writes prints
  its numbers with `%ld` (leader.c:118, 152), so none is spelled that way
  (`VoteCodec.PaddedNumeralReadsAsValue`).
  Encoding then decoding is the identity up to saturation at the bounds
  of `long` (`VoteCodec.DecodeEncode`).
- **A follower re-runs the round immediately.** `WatchLeaderChanges`
  returns EXIT_SUCCESS and its body is compiled out (leader.c:168-191).
  So `main`'s follower branch (leader.c:283-301) goes straight back to
  `GetCurrentLeader`.
- **A leader keeps its flag after losing the lease.** `i_am_leader` is
  only written when a round sees a CONFIRMED vote (leader.c:95-103). It
  stays set while the next round reads a rival's bid and waits
  (`LeaderProperties.LeaseLossRestartsRound`).
- **`leader.c` uses the header's `etcd_get`.** It calls the form declared
  at etcd-api.h:97, which returns a newly allocated string. etcd-api.c:121-136
  defines a different one, which fills a caller buffer and returns a byte
  count. The store models the first. `EtcdApi.Get` models the second.

## Model

| member | source | states |
|---|---|---|
| CString.CStr | leader.c:85-87 | the string a `char *` into a buffer denotes: a NUL-free slice of the buffer that ends at a NUL or at the buffer's end |
| CString.CStrUpTo | leader.c:83-87 | a NUL at offset j with no NUL before it ends the C string starting at i exactly at j |
| CString.Clamp | leader.c:86-87 | strtol's saturation: the result is a `long`, equal to the input when it fits, LONG_MIN or LONG_MAX beyond |
| CString.Strtol | leader.c:86-87 | `strtol(s, NULL, 10)` always yields a `long`, and a negative one only when the text holds a '-'; its meaning is given by StrtolOfFormat, StrtolStopsAt and StrtolWithoutDigits |
| CString.FormatLong | leader.c:118 | `"%ld"` prints a non-empty, NUL- and comma-free numeral, with a leading '-' exactly for negative numbers |
| CString.DigitsValueOfFormat | leader.c:118 | the digits printed for a natural number read back as that number |
| CString.StrtolOfFormat | leader.c:118 | strtol reads back what `"%ld"` printed, saturated at the bounds of `long` |
| CString.StrtolStopsAt | leader.c:87 | strtol ignores everything from a character that is neither space, sign nor digit |
| CString.StrtolUpTo | leader.c:87 | strtol on the rest of a string equals strtol cut at a stopping character |
| CString.StrtolWithoutDigits | leader.c:86-87 | a field without a digit is read as 0 |
| VoteCodec.FindVote | leader.c:77 | a reported match is an occurrence of ([^,]+),([^,]+),([^,]+) at or after the start offset; its third field ends at a comma or at the end, and it starts after a comma unless at the start offset |
| VoteCodec.FindVoteLeftmost | leader.c:263 | whenever an occurrence starts at or after p, FindVote finds a match, and it starts no later |
| VoteCodec.FindVoteLongest | leader.c:263 | every occurrence at the reported start has the same first two fields and a third field no longer than the reported one |
| VoteCodec.VoteMatchIsLeftmostLongest | leader.c:263 | regexec fails exactly when there is no occurrence; otherwise it reports the leftmost one, with the longest sub-matches |
| VoteCodec.DecodeVote | leader.c:76-93 | NULL reads as no nominee, NO_LEADER and fitness 0; a text is malformed exactly when the pattern finds nothing; the nominee is a non-empty comma-free field; state and fitness are `long`s |
| VoteCodec.DecodeMatch | leader.c:83-87 | a value in which the pattern matches decodes to its three sub-matches: field 1, strtol of field 2 and strtol of field 3 |
| VoteCodec.FitnessStopsAtField | leader.c:87 | the fitness read from field 3 to the end of the text is strtol of the third sub-match alone |
| VoteCodec.EncodeVote | leader.c:118 | the vote written is a C string whenever the nominee is |
| VoteCodec.MatchOfFields | leader.c:77 | in a value of three non-empty comma-free fields the pattern matches the whole value at the field boundaries |
| VoteCodec.DecodeFields | leader.c:83-87 | such a value decodes to field 1 and the strtol values of fields 2 and 3 |
| VoteCodec.DecodeEncode | leader.c:118 | decoding a vote the client wrote yields its nominee, and its state and fitness saturated to `long` |
| VoteCodec.NonNumericFieldsReadAsZero | leader.c:86-87 | state and fitness fields without digits read as 0; the vote is not rejected |
| VoteCodec.PaddedNumeralReadsAsValue | leader.c:86-87 | strtol reads the field "01" as 1, and "%ld", with which every vote is written (leader.c:118), never spells a vote that way |
| VoteCodec.OneFieldMalformed | leader.c:77-81 | a single field without a comma is malformed |
| VoteCodec.TwoFieldsMalformed | leader.c:77-81 | two fields separated by one comma are malformed |
| EtcdStore.Read | etcd-api.h:88-97 | a read that reaches the cluster fetches the key's value; no read returns a value the key does not hold, and an absent key reads as NULL |
| EtcdStore.SetResult | etcd-api.h:145-147 | compare-and-swap: a reachable set whose precondition is NULL or equals the key succeeds; a set whose precondition differs from the key is rejected; an unreachable cluster rejects every set |
| EtcdStore.SetCell | etcd-api.h:141-147 | after etcd_set the key holds the old value or the new one; a successful set stores the new value, and only a successful set changes the key |
| EtcdStore.AtMostOneAdvancePerValue | etcd-api.h:145-147 | of two writes conditional on the same value, once the first changed it the second is rejected |
| EtcdStore.Store.Between | leader.c:110 | the key after another client, the lease or the network acted, and whether the next request reaches the cluster |
| EtcdStore.Store.Get | etcd-api.h:88-97 | a fresh NUL-terminated copy of the value, or NULL when the key is absent or the cluster out of reach |
| EtcdStore.Store.Set | etcd-api.h:133-155 | ETCD_OK and the new value exactly when the cluster is reachable and the precondition is NULL or equals the key; otherwise an error and the key unchanged; every request is logged |
| Leader.Decide | leader.c:95-128 | malformed exactly when the text does not decode; NULL always casts "me,1,fitness" unconditionally; a cast is conditional on exactly the text read |
| Leader.OnePass | leader.c:69-136 | one pass consumes at least one step of the schedule |
| Leader.Finish | leader.c:95-135 | the rest of a pass writes at most once; a pass that goes on is unfinished; an unfinished pass that ends has used up the schedule |
| Leader.Round | leader.c:56-145 | a round consumes part of the schedule; only a round cut short by the schedule is unfinished, and it used all of it |
| Leader.Status | leader.c:66 | `retval` starts as EXIT_FAILURE and becomes EXIT_SUCCESS only at leader.c:104, and it is returned at leader.c:144: GetCurrentLeader returns EXIT_SUCCESS exactly when the round settled on a leader and EXIT_FAILURE exactly when it failed; a round cut short by the schedule has not returned |
| Leader.ConfirmStep | leader.c:147-166 | Confirm succeeds exactly when the cluster is reachable and the key holds the node's confirmed vote, and it never changes the key's value |
| Leader.Renew | leader.c:278-282 | the refresh loop runs until the schedule is used up, or a Confirm fails and leaves part of it |
| Leader.Lifecycle | leader.c:274-305 | the process is either still running or has returned EXIT_SUCCESS; it never returns anything else |
| Leader.FieldOfCut | leader.c:83-87 | after the NULs are written, each field of the buffer, and the text from field 3 on, is the corresponding slice of the value |
| Leader.WholeBuffer | leader.c:124-128 | the restored buffer denotes exactly the value read |
| Leader.ParseVote | leader.c:76-93 | on a buffer holding a value: malformed exactly when DecodeVote says so, otherwise the fields DecodeVote gives, and the buffer cut at the ends of fields 1 and 2 |
| Leader.ReadVote | leader.c:75-93 | fetch and parse: NULL exactly when nothing is read, and the fields decoded from the value read |
| Leader.CutCommas | leader.c:82-84 | the commas after fields 1 and 2 become NULs |
| Leader.RestoreCommas | leader.c:124-127 | the buffer holds the value read again, with its terminator |
| Leader.Elector.constructor | leader.c:46-48 | the globals `me` and `my_fitness` are fixed at start-up (leader.c:223-230) and `i_am_leader` starts at 0 |
| Leader.Elector.GetCurrentLeader | leader.c:56-145 | the key, the writes issued, the return value and i_am_leader are those of Round on the schedule |
| Leader.Elector.Pass | leader.c:69-136 | one pass of the loop does what OnePass says: whether the round ends, the key, the write, the status and i_am_leader |
| Leader.Elector.Look | leader.c:75-112 | the value read and which branch of the loop it takes, as Decide decides |
| Leader.Elector.Act | leader.c:89-135 | the branches on the fields read do what Finish says for the decision |
| Leader.Elector.Bid | leader.c:114-135 | the vote for state+1 is written conditional on the text read; the round fails exactly when etcd_set does not return ETCD_OK |
| Leader.Elector.CastVote | leader.c:114-132 | the request is "me,state+1,fitness" with TTL 5 and the value read (or NULL) as precondition; result and key as the store's contract says |
| Leader.Elector.Confirm | leader.c:147-166 | the status and the key are those of ConfirmStep; the request is the confirmed vote, conditional on itself |
| Leader.Elector.HoldLeadership | leader.c:278-282 | Confirm once per step until one fails; the key, writes and rest of the schedule are those of Renew |
| Leader.Elector.Run | leader.c:274-305 | main's exit status, the key, the writes and i_am_leader are those of Lifecycle |
| Leader.Elector.Term | leader.c:275-301 | one turn of main's loop agrees with Lifecycle |
| LeaderProperties.DecideEncoded | leader.c:95-128 | on a vote this client format wrote: CONFIRMED settles (leader exactly when the nominee is me), a rival's bid waits, anything else casts state+1 conditional on that vote |
| LeaderProperties.ConfirmedVoteSettles | leader.c:95-105 | a CONFIRMED vote ends the search, with i_am_leader exactly when the nominee is me |
| LeaderProperties.RivalBidWaits | leader.c:108-112 | another node's TENTATIVE-or-above, not CONFIRMED, vote makes the node wait without writing |
| LeaderProperties.BidAdvances | leader.c:114-128 | otherwise the node casts its own vote one state further, conditional on the exact text it read |
| LeaderProperties.StoredFitnessIgnored | leader.c:108 | the fitness stored in the vote read changes nothing but the precondition |
| LeaderProperties.OwnFitnessIgnored | leader.c:108 | the node's own fitness changes only the vote it writes, never what it does |
| LeaderProperties.MalformedVoteFailsRound | leader.c:77-81 | a value the pattern does not match ends the round with EXIT_FAILURE and no write |
| LeaderProperties.LostRaceEndsProcess | leader.c:128-132 | a rejected write fails the round with exactly that one write, and main then returns EXIT_SUCCESS |
| LeaderProperties.NothingReadWritesUnconditionally | leader.c:124-128 | when nothing is read, the vote "me,1,fitness" is written with no precondition and the round goes on from it |
| LeaderProperties.OwnVoteNamesNode | leader.c:118 | a vote this node wrote decodes with this node as nominee and its fitness |
| LeaderProperties.CastIsOwnVote | leader.c:118 | every vote cast is "me,s,my_fitness" for some state s, with the lease TTL |
| LeaderProperties.PassWritesOwnVote | leader.c:114-132 | the write of a pass, if any, is this node's own vote |
| LeaderProperties.RoundWritesOwnVotes | leader.c:56-145 | every write of a round is this node's own vote |
| LeaderProperties.WaitsWhileRivalBids | leader.c:108-112 | while a rival's bid stands undisturbed the node re-reads and never writes |
| LeaderProperties.OwnConfirmedVoteElects | leader.c:95-105 | reading its own CONFIRMED vote makes the node leader after one read and no write |
| LeaderProperties.OwnTentativeVoteConfirms | leader.c:114-135 | from its own TENTATIVE vote the node writes its CONFIRMED vote conditional on it, and is elected |
| LeaderProperties.NothingReadElects | leader.c:56-145 | after an empty read and no interference the node writes "me,1,f" then "me,2,f" and leads |
| LeaderProperties.UncontestedElection | leader.c:56-145 | from an absent key with nobody else about, the round writes "me,1,f" unconditionally, then "me,2,f" conditional on it, and elects the node |
| LeaderProperties.ReadOutageDisplacesLeader | leader.c:124-128 | a read that does not reach the cluster overwrites whatever the key held, a confirmed leader's vote included, and the node elects itself |
| LeaderProperties.ConfirmedVoteReadsBack | leader.c:152 | the vote Confirm builds with `"%s,%ld,%ld"` reads back as this node, CONFIRMED, with its fitness clamped to `long` |
| LeaderProperties.QuietKeepsLease | leader.c:278-282 | undisturbed, the leader re-confirms once per step and keeps the key and its lease |
| LeaderProperties.DisturbanceEndsLease | leader.c:278-282 | expiry, an outage or another client's value ends the lease at that step |
| LeaderProperties.LeaseLapses | leader.c:278-282 | one quiet refresh and then expiry: the second Confirm fails, the key is gone and the rest of the schedule is left to main |
| LeaderProperties.LapseRestartsRound | leader.c:274-302 | a leader that refreshes once and then finds the key expired goes back to GetCurrentLeader with i_am_leader still set, whatever the schedule holds next |
| LeaderProperties.LeaseLossRestartsRound | leader.c:274-302 | a leader whose lease lapses starts a new round; that round reads a rival's bid twice and waits, with i_am_leader still set |
| LeaderProperties.WaitingPass | leader.c:109-111 | a pass that reads a value on which the node waits writes nothing and leaves the rest of the round to start from the key as read |
| LeaderProperties.RivalRoundWaits | leader.c:108-112 | from an absent key, a rival's TENTATIVE bid that appears and stays makes the round wait without writing |
| LeaderProperties.ElectAlone | leader.c:56-145 | the imperative round against a fresh store with no interference returns EXIT_SUCCESS with this node leader after the two writes |
| EtcdApi.Sentinel | etcd-api.c:128 | the server list ends at its first entry whose host is NULL |
| EtcdApi.Open | etcd-api.c:29-46 | NULL when allocation fails; otherwise a new session holding exactly the list given |
| EtcdApi.Get | etcd-api.c:121-136 | only servers before the terminator are asked, in order; the first non-negative result is returned and no later server is asked; -1 exactly when every server failed or the list is empty |
| EtcdApi.Min | etcd-api.c:61-64 | the smaller of the two counts |
| EtcdApi.Deliver | etcd-api.c:66 | the first min(chunk length, max) bytes of the buffer become the chunk's and the rest are unchanged |
| EtcdApi.EtcdBuffer.constructor | etcd-api.c:99-101 | the buffer handed to libcurl is the caller's, with capacity `len` and nothing received yet |
| EtcdApi.EtcdBuffer.WriteData | etcd-api.c:56-68 | res and the return value are min(size*nmemb, max), and the buffer is as Deliver says |
| EtcdApi.DeliverAll | etcd-api.c:56-68 | after one callback per chunk the count reported never exceeds the capacity |
| EtcdApi.MultiChunkBodyIsTruncated | etcd-api.c:59-66 | a body that fits but arrives as the chunks [1,2] and [3] leaves [3,2] in front and reports 1 byte |
| EtcdApi.Append | etcd-api.c:59-66 | the corrected callback appends the chunk after the bytes already received, up to the capacity, and adds the count |
| EtcdApi.AppendAllReceivesBody | etcd-api.c:56-68 | with appending callbacks the buffer receives the whole body, cut at the capacity, and reports its length |

## Left out

- `etcd_get_one` (etcd-api.c:71-118) is not modelled. It is libcurl HTTP plumbing; `EtcdApi.Get` takes what it returns for each server as the input `replies`.
- Timing is not modelled: `sleep(1)`, lease TTL timing and real concurrency. Instead, what other clients, expiry and the network do between two requests is a schedule of `EnvStep`s.
- `WatchLeaderChanges` is not modelled beyond its effect. Its body is compiled out (leader.c:171-188) and it returns EXIT_SUCCESS, so `main`'s follower branch simply starts a new round.
- `main`'s set-up (leader.c:213-272) is not modelled: getopt, gethostname, getenv, regcomp and etcd_open_str. `print_usage`, the `printf` output and `LeaderCallback` are left out too.
- The header does not say what `etcd_get` returns when no server can be reached; it only says the return value is a newly allocated string (etcd-api.h:88-97). The model assumes it returns NULL, as for an absent key (`EtcdStore.Read`). `LeaderProperties.ReadOutageDisplacesLeader` and every `Outage` step before a read rest on that assumption.
- Leader.ConfirmedVote: Confirm passes the `int` enum constant CONFIRMED to `"%ld"` (leader.c:152), which is undefined behaviour in C. The model assumes it prints "2", as for a `long`.
- `asprintf` failure (leader.c:118-122, 152-156) and every `free` are not modelled. Allocation is assumed to succeed in leader.c.
- Fixed-width overflow of `state + 1` (leader.c:118) is not modelled; the model's integers are unbounded. `size * nmemb` in write_data is not modelled as wrapping either. Overflow of `strtol` itself is modelled (`CString.Clamp`).
- `etcd_close` and `etcd_close_str` are not modelled. They only free memory.
- etcd-test.c is not part of this model. It is command-line glue.
- `etcd_watch`, `etcd_delete` and `etcd_leader` are not modelled. They are declared in etcd-api.h with no implementation among these files.
- EtcdApi.Open: the session keeps the server list by value, so the caller's later changes to that array (aliasing) are not modelled.
- EtcdApi.Get: the caller buffer `etcd_get` passes through to `etcd_get_one` is not modelled, because the oracle stands for that call.
- EtcdApi.Server: the port is an unbounded natural number, not an `unsigned short`.
- The body of `GetCurrentLeader`'s loop is split over the methods `Pass`, `Look`, `Act`, `Bid` and `CastVote` of `Leader.Elector`; they run the same statements in the same order.
- EtcdStore.Store.Set: the TTL is logged with each request but does not make the key expire by itself; expiry is the `Expire` environment step.

## Findings

| source | as written | input that shows it | evidently intended | confidence | as-written member | corrected member |
|---|---|---|---|---|---|---|
| etcd-api.c:59-66 | each call copies its chunk to the start of the buffer and sets `res` to that chunk's size alone | a body [1, 2, 3] delivered as the chunks [1, 2] and [3] into a 4-byte buffer leaves [3, 2, 0, 0] and reports 1 byte | append each chunk after the `res` bytes already received, up to `max`, and add to `res` | not executed | EtcdApi.MultiChunkBodyIsTruncated | EtcdApi.AppendAllReceivesBody |
