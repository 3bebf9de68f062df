# RediCraft: a verified model

RediCraft is a Redis-like key-value server (C++) with a Java client, a connection pool and example
Minecraft plugins. This project models its behaviour in Dafny 4.11 and proves what the parts promise
together. `dafny verify dfyconfig.toml` checks everything.

## How the model is built

- `Keyspace.dfy` is the specification of the store. A *cell* gathers the four entries (string, hash,
  list, set) of one key; `Step` says what one command at one clock reading does to its own cell, `Apply`
  lifts it to the four maps, `Final` and `Replies` run a log of timed commands.
- `Storage.dfy` is the server's object: a class with the four maps as fields, updated in place, one method
  per command. Each method is proved to change the maps and answer exactly as `Apply` says. That is where
  locality is earned: the method works on whole maps, `Apply` only on one cell.
- The theorems about runs are then proved of `Apply`: `LazyExpiry.dfy` (lazy against eager expiry),
  `Locality.dfy` (commutation and sharding), `Histories.dfy` (conservation), `LastWrites.dfy` (what every read
  replies, told from the log), `Deadlines.dfy` (expiry and temporary bans), `ListRange.dfy`. The laws of
  `Histories` and `LastWrites` allow deadlines: they ask that the entry is never found stale, for which
  `Histories.InTimeIsNeverStale` and `LastWrites.ExpiryDecides` give conditions on the log.
- `Decimal.dfy` has `to_string`, `stoll` and `Long.parseLong`; `Text.dfy` words and lines; `Parser.dfy` the
  parser; `Session.dfy` the server session with its `response` field; `Wire.dfy` and `Client.dfy` the Java
  client and the end-to-end theorem; `Snapshot.dfy`, `SnapshotRoundTrip.dfy` and `ReachableSnapshots.dfy` the
  persistence file; `Cluster.dfy` the hash slots; `Pool.dfy` the connection pool as a protocol of interleaved
  thread steps and as a class, `PoolClosing.dfy` what closing it in use leads to; `Money.dfy` concurrent
  payments, `Payments.dfy` serialised ones and `Overdrafts.dfy` when balances stay non-negative under
  interleaving; `Plugin.dfy` the example handlers, running over the client and the session on the storage
  object.
- `ExampleSession.dfy` replays the example session of the server's read-me file, from the bytes received to the
  bytes sent.
- `Witnesses.dfy` has one concrete input for each promise that the code does not keep, as lines that a session
  receives on an empty store.

Conventions:

- The steady clock is an integer number of nanoseconds passed to each command; a command reads it once.
  `Entry.deadline` is `Some(expiry)` when `has_expiry` is set.
- Integers are 64-bit where the code's are. Overflow of a `long long` is undefined in C++; the model takes the
  two's-complement result (`Wrap64`), and every theorem about exact sums says when the true sum fits.
- A `char` stands for one byte, the one with its code (`Cluster.SignedChar` reads the low eight bits).
- C++ exceptions and Java's `NumberFormatException` are `None` or an error reply. `unordered_map` iteration
  is an arbitrary order: a method picks any element, a theorem holds for all orders.

Where a promise is not kept by the code, the exact condition under which it is kept is proved, and a witness
shows an input that breaks it:

- EXPIRE and TTL do not purge, and act on the first family that holds the key even if it is stale: EXPIRE
  revives a dead entry, TTL answers -2 for a key that is alive in a later family, although
  Guide/API_REFERENCE.md:200 says that -2 means that the key does not exist. `LazyExpiry.LazyRefinesEager`
  gives the condition; `Witnesses.ExpireRevives` and `Witnesses.TtlDeniesALiveHash` the inputs.
- SADD on a new key counts repeated members, although RedicraftClient.java:409 documents the number of
  elements that were added: `Histories.SAddReplyIsExact`, `Witnesses.RepeatedMemberCountsTwice`.
- HSET answers OK for a new and for an old field, although Guide/API_REFERENCE.md:333 documents 1 and 0
  (`ExampleSession.HashTalk`); the example session of RediCraft-Server/README.md:152-156 sets a timeout on a
  key that is not there, which answers 0 and not 1 (`ExampleSession.MissingTalk`).
- LRANGE clamps: adjacent ranges overlap except at the cuts of `ListRange.CutsRebuild`.
- A stored value `(nil)` reads as missing: `Wire.WireRefinement`, `Witnesses.StoredNilReadsAsMissing`.
- The persistence file restores strings only, without deadlines, and only `Loadable` ones, although the
  read-me files list data persistence without qualification: `SnapshotRoundTrip.SnapshotRoundTrip`,
  `ReachableSnapshots.ReachableSnapshotRoundTrip`, `Witnesses.SnapshotLosesAString`.
- A failed connect keeps its permit until the pool is closed, so enough of them exhaust it:
  `Pool.FailedConnectsKeepPermits`, `Pool.FailedConnectsExhaustThePool`. Closing a pool in use restores permits that
  threads still hold; more connections than the maximum can follow exactly if there are also more threads than
  the maximum: `PoolClosing.ClosingInUseBreaksTheBound`, `PoolClosing.TwoThreadsOnePermit`.
- The pay command checks the payer's balance only, and only before the debit. `Payments.SafePay` is the exact
  condition on one pay, `Payments.SerialisedPaysKeepNonNegative` on any sequence of them, and
  `Overdrafts.InterleavedPaysKeepNonNegative` on any interleaving. `Witnesses.NegativeSumOverdraws` overdraws a
  payee with a negative sum, `Overdrafts.OverlappingPaysOverdraw` a payer with two overlapping pays.
- `MoneyCommandExample.handlePayCommand` does not parse the payee's balance, the asynchronous one does:
  `Payments.AloneIsSequential` states the difference.

## Model

| member | source | states |
|---|---|---|
| Storage.Storage.RemoveExpired | RediCraft-Server/src/storage.cpp:21-73 | purging drops exactly the stale entries of its own key, in all four families, and nothing else |
| Storage.Storage.Set | RediCraft-Server/src/storage.cpp:75-82 | the four maps become those of the specified SET: a lasting string, other families only purged |
| Storage.Storage.Get | RediCraft-Server/src/storage.cpp:84-94 | answers the live string of the key and changes nothing but stale entries of that key |
| Storage.Storage.Incr | RediCraft-Server/src/storage.cpp:101-124 | is INCRBY 1: revises a number keeping its deadline, replaces anything else by a lasting 1 |
| Storage.Storage.Decr | RediCraft-Server/src/storage.cpp:126-149 | is INCRBY -1 |
| Storage.Storage.IncrBy | RediCraft-Server/src/storage.cpp:151-175 | stores the wrapped sum in canonical decimal and returns it |
| Storage.Storage.HSet | RediCraft-Server/src/storage.cpp:177-192 | one field changes, the others and the deadline stay |
| Storage.Storage.HGet | RediCraft-Server/src/storage.cpp:194-207 | answers the field of the live hash |
| Storage.Storage.HGetAll | RediCraft-Server/src/storage.cpp:209-218 | answers all fields of the live hash, none if there is none |
| Storage.Storage.LPush | RediCraft-Server/src/storage.cpp:220-236 | the batch is prepended in the given order; the reply is the new length |
| Storage.Storage.RPop | RediCraft-Server/src/storage.cpp:238-249 | removes and returns the last element; an emptied list stays |
| Storage.Storage.LRange | RediCraft-Server/src/storage.cpp:251-280 | the slice between the clamped indices |
| Storage.InsertNames | RediCraft-Server/src/storage.cpp:291-296 | the loop adds the batch and counts exactly the new members |
| Storage.CollectNames | RediCraft-Server/src/storage.cpp:299-303 | the loop that fills a new set counts every member of the batch, repeated or not |
| Storage.EraseNames | RediCraft-Server/src/storage.cpp:319-323 | the loop removes the batch and counts each removed member once |
| Storage.Storage.SAdd | RediCraft-Server/src/storage.cpp:282-308 | union with the batch, in an existing set or a new lasting one |
| Storage.Storage.SRem | RediCraft-Server/src/storage.cpp:310-332 | difference with the batch; an emptied set disappears |
| Storage.Storage.SIsMember | RediCraft-Server/src/storage.cpp:334-343 | membership in the live set |
| Storage.Storage.SMembers | RediCraft-Server/src/storage.cpp:345-354 | all members of the live set |
| Storage.Storage.SCard | RediCraft-Server/src/storage.cpp:356-365 | the number of members of the live set |
| Storage.Storage.Expire | RediCraft-Server/src/storage.cpp:367-412 | sets the deadline of the first family that holds the key, stale or not |
| Storage.Storage.Ttl | RediCraft-Server/src/storage.cpp:414-495 | answers for the first family that holds the key and erases it if it is stale |
| LazyExpiry.CellAgreement | RediCraft-Server/src/storage.cpp:16-495 | one command gives the reply of eager expiry and the same cell up to stale entries if and only if it is agreeable: EXPIRE not on a stale first family, TTL not with a live family behind one |
| LazyExpiry.LazyRefinesEager | RediCraft-Server/src/storage.cpp:16-495 | over every run with a non-decreasing clock the lazy store is indistinguishable from one that purges everything at each tick, if and only if every command is agreeable |
| LazyExpiry.AgreementMeansEqualReplies | RediCraft-Server/src/storage.cpp:16-495 | such runs have equal reply sequences and end in stores that are equal once purged, then and at any later time |
| LazyExpiry.LazyIsEagerWithoutExpiryCommands | RediCraft-Server/src/storage.cpp:21-365 | runs of the other sixteen commands agree with eager expiry unconditionally |
| Locality.RunsAreLocal | RediCraft-Server/src/storage.cpp:75-495 | in any run of the store, a key's final entries and the replies to its commands depend on its own commands only |
| Locality.SameProjectionsSameRun | RediCraft-Server/src/storage.cpp:75-495 | two logs that order each key's commands alike end in the same store with the same replies |
| Locality.DifferentKeysCommute | RediCraft-Server/src/storage.cpp:75-495 | commands on different keys commute: same replies, same store |
| Locality.ShardingRefinesOneStore | RediCraft-Server/src/cluster.cpp:343-364 | any log on n stores routed by hash slot gives the replies of one store, and the shards are a disjoint union equal to it |
| Locality.ShardsAreIndependent | RediCraft-Server/src/cluster.cpp:354-364 | each shard ends where running only its own part of the log ends |
| Histories.StaleIsAbsent | RediCraft-Server/src/storage.cpp:16-73 | a stale entry counts as absent: every command but EXPIRE and TTL does and replies what it would without it |
| Histories.DeadlineComesFrom | RediCraft-Server/src/storage.cpp:75-412 | no command invents a deadline: after it an entry has its old one, the one EXPIRE set, or none |
| Histories.InTimeIsNeverStale | RediCraft-Server/src/storage.cpp:75-412 | a check on the log is enough for the laws below: if neither the present deadline nor any that EXPIRE sets passes before the run ends, the entry is never found stale |
| Histories.LastingIsNeverStale | RediCraft-Server/src/storage.cpp:75-412 | the same for an entry without a deadline and a run without EXPIRE, at any time |
| Histories.ListConservation | RediCraft-Server/src/storage.cpp:220-249 | over any run that never finds the list stale, EXPIRE included, what is left followed by the popped values, latest first, is the pushed batches, latest first, followed by what was there |
| Histories.ListIsAQueue | RediCraft-Server/src/storage.cpp:220-249 | first in, first out: of everything pushed and there before, the RPOPs that find an element take the oldest ones in order, and the list is the rest; how many find one is told from the log alone |
| Histories.PushRepliesCount | RediCraft-Server/src/storage.cpp:220-236 | in such runs every LPUSH reply is initial length plus pushed minus popped |
| Histories.SetConservation | RediCraft-Server/src/storage.cpp:282-332 | over any run that never finds the set stale, cardinality is the initial one plus SADD replies minus SREM replies minus duplicates inside key-creating batches |
| Histories.SAddReplyIsExact | RediCraft-Server/src/storage.cpp:282-308 | the SADD reply is the number of members added if and only if the set existed or the batch has no repetition |
| Histories.StoredSetsStayNonEmpty | RediCraft-Server/src/storage.cpp:310-332 | no run of commands with non-empty batches stores an empty set |
| Histories.CounterConservation | RediCraft-Server/src/storage.cpp:101-175 | over any run without SET that never finds it stale, a counter holds its initial numeric prefix plus all increments, modulo 2^64 |
| Histories.CounterRunsAreExactThroughout | RediCraft-Server/src/storage.cpp:101-175 | the counter and every reply equal the true running sum after every command if and only if no addition on the way overflows, so that nothing is undefined |
| Histories.CounterTextIsCanonical | RediCraft-Server/src/storage.cpp:110-172 | after one counter command of such a run the stored text is the canonical decimal of its number |
| Histories.CounterRunsAreExact | RediCraft-Server/src/storage.cpp:101-175 | under the wrap-around reading of overflow, the last stored text is the decimal of the true total if and only if that total fits in 64 bits, even if an addition on the way overflowed |
| Histories.IncrementsCompose | RediCraft-Server/src/storage.cpp:151-175 | INCRBY a then INCRBY b is INCRBY a+b on the whole cell, expiry included, if no deadline falls in between |
| Histories.ConservationInTheStore | RediCraft-Server/src/storage.cpp:75-365 | the three laws hold for one key inside an arbitrary run of commands on all keys, deadlines included |
| LastWrites.GetReturnsLastSet | RediCraft-Server/src/storage.cpp:75-94 | over any run without counter commands that never finds the string stale, EXPIRE included, GET replies with the last SET of the run or what was there, and with nothing once it is stale |
| LastWrites.GetAfterSet | RediCraft-Server/src/storage.cpp:75-175 | whatever ran before the last SET: as long as the string is not stale, GET replies with the value, or once counter commands follow with its number plus all increments, wrapped, in canonical decimal |
| LastWrites.HGetReturnsLastHSet | RediCraft-Server/src/storage.cpp:177-207 | over any run that never finds the hash stale, HGET replies with the last HSET on that field or what was there, and with nothing once it is stale |
| LastWrites.HGetAllReturnsLastHSets | RediCraft-Server/src/storage.cpp:177-218 | in such runs HGETALL replies with exactly the fields ever set or there before, each with its last value |
| LastWrites.ListRepliesFollowQueue | RediCraft-Server/src/storage.cpp:220-280 | over any run that never finds the list stale, RPOP replies with the oldest element left, LPUSH with how many there are, LRANGE with those its indices show |
| LastWrites.MembershipFollowsLastVerdict | RediCraft-Server/src/storage.cpp:282-343 | over any run that never finds the set stale, SISMEMBER follows the last SADD or SREM that mentions the member, across emptying and re-creating the set |
| LastWrites.SetRepliesFollowVerdicts | RediCraft-Server/src/storage.cpp:282-365 | in such runs SMEMBERS replies with exactly the names whose last verdict is in favour, and SCARD with the initial size plus what SADD replied minus what SREM replied minus creation duplicates |
| LastWrites.ExpiryDecides | RediCraft-Server/src/storage.cpp:75-412 | EXPIRE on the first family, then any commands that keep its deadline: never stale on the way, and stale at t exactly if t is past the deadline |
| LastWrites.ReadsUnderDeadline | RediCraft-Server/src/storage.cpp:75-412 | so in each of the four families the replies to reads are those of the last writes until the deadline, and empty afterwards |
| LastWrites.GetUnderDeadline | RediCraft-Server/src/storage.cpp:75-412 | SET, EXPIRE, then anything that leaves the string and its deadline alone: GET replies with the value if and only if its clock reading is not past the deadline |
| Deadlines.DeadlineKeptExactly | RediCraft-Server/src/storage.cpp:75-412 | until its deadline, an entry keeps it through a command if and only if the command is not a replacing SET or counter command, an emptying SREM, or a re-timing EXPIRE |
| Deadlines.DeadlineStable | RediCraft-Server/src/storage.cpp:75-412 | the same over whole runs that end by the deadline |
| Deadlines.DeadlineIsExact | RediCraft-Server/src/storage.cpp:367-495 | after EXPIRE and any deadline-keeping run, the key is visible at t iff t is at most the deadline, and TTL is the whole seconds left, then -2 |
| Deadlines.TtlNeverGrows | RediCraft-Server/src/storage.cpp:414-495 | TTL is non-increasing in time |
| Deadlines.ExpireChangesOneDeadline | RediCraft-Server/src/storage.cpp:367-412 | EXPIRE replies whether the key is there, keeps the contents of all four families and gives its deadline to the first of them and to no other |
| Deadlines.TtlLooksAtOneFamily | RediCraft-Server/src/storage.cpp:414-495 | TTL replies -2 for no key, -1 for a lasting first family, the whole seconds left otherwise; it changes nothing but dropping a first family found stale |
| Deadlines.BanHoldsUntilDeadline | RediCraft-API/src/main/java/com/redicraft/minecraft/MoneyCommandExample.java:208-243 | whatever runs on other keys, every poll of a temporary ban says banned iff its clock reading is not past the deadline |
| Deadlines.BansAreIndependent | RediCraft-API/src/main/java/com/redicraft/minecraft/MoneyCommandExample.java:208-243 | banning one player leaves another player's flag and every later poll of it as they were |
| ListRange.IndicesAreSafe | RediCraft-Server/src/storage.cpp:262-269 | for all 64-bit indices no index computation overflows or leaves the list |
| ListRange.NegativeIndicesAgree | RediCraft-Server/src/storage.cpp:262-277 | in range, index a and index a-n give the same range |
| ListRange.SliceIsShown | RediCraft-Server/src/storage.cpp:262-277 | for all indices the reply is, in order, the elements at or after the start and at or before the end, except that a start past the list still shows its last element and an end before it its first |
| ListRange.CutsRebuild | RediCraft-Server/src/storage.cpp:262-277 | LRANGE 0 k then LRANGE k+1 -1 rebuilds a non-empty list if and only if k is a proper inner cut |
| Decimal.NumberRoundTrip | RediCraft-Server/src/storage.cpp:108-110 | printing then stoll or parseLong gives back every 64-bit integer, the minimum included |
| Decimal.StrictParseIsPrefixParse | RediCraft-API/src/main/java/com/redicraft/minecraft/MoneyCommandExample.java:84 | whatever the client parses as a number the server reads as the same number |
| Decimal.StollExactly | RediCraft-Server/src/storage.cpp:108-110 | stoll gives n if and only if n fits in 64 bits and the text is white space, a sign or none, digits of value n, then nothing or something that is no digit |
| Decimal.ParseLongExactly | RediCraft-API/src/main/java/com/redicraft/minecraft/MoneyCommandExample.java:84 | parseLong gives n if and only if n fits and the text is a sign or none and digits of value n, nothing else |
| Decimal.ValueByPlace | RediCraft-Server/src/storage.cpp:108-110 | the first of k + 1 digits counts 10^k times its code less 48 |
| Decimal.PrintingIsPlain | RediCraft-Server/src/storage.cpp:108-110 | printing uses the digits 0 to 9, a minus for negative numbers and no leading zeros |
| Cluster.CalculateHashSlot | RediCraft-Server/src/cluster.cpp:343-352 | the truncating 64-bit loop computes the ideal polynomial 5381*33^n + sum of c_i*33^(n-1-i) modulo 16384, for every key |
| Cluster.SlotByCharacter | RediCraft-Server/src/cluster.cpp:343-352 | the slot of no characters is 5381, and one more character, as a signed byte, makes it 33 times the slot plus that byte, modulo 16384 |
| Cluster.FourteenBitsSuffice | RediCraft-Server/src/cluster.cpp:343-352 | a fold with fourteen bits of state gives the same slot |
| Cluster.OwnedCount | RediCraft-Server/src/cluster.cpp:361-363 | below any limit, a node owns limit/n slots, and one more if its index is below limit mod n |
| Cluster.RoundRobinIsBalanced | RediCraft-Server/src/cluster.cpp:354-364 | for every cluster size, the first 16384 mod n nodes own one slot more than the rest, and ownership partitions the slots |
| Parser.NextToken | RediCraft-Server/src/parser.cpp:20-22 | reads exactly the next word, or fails exactly when none is left |
| Parser.Parse | RediCraft-Server/src/parser.cpp:11-113 | the parsed command is the one whose name and arity the words of the text meet, with the arguments it takes, or UNKNOWN if there is none |
| Parser.Select | RediCraft-Server/src/parser.cpp:33-109 | the chain of tests picks the unique matching command |
| Parser.ParseOfPrint | RediCraft-Server/src/parser.cpp:11-113 | parsing the canonical text of a command gives it back |
| Parser.ParsingNormalises | RediCraft-Server/src/parser.cpp:11-113 | printing a parsed command and parsing again changes nothing |
| Parser.LayoutAndCaseDoNotMatter | RediCraft-Server/src/parser.cpp:16-31 | two texts with the same words up to white space and up to the case of each letter of the name, defined by letter codes, give the same command |
| Parser.RecognisedExactly | RediCraft-Server/src/parser.cpp:27-109 | a text is parsed as a kind if and only if its first word is the name up to letter case and enough words follow; it takes the arguments used and ignores further words |
| Parser.AnySpellingParses | RediCraft-Server/src/parser.cpp:27-109 | every command with every spelling of its name in small and capital letters is parsed as that command |
| Session.Session.Receive | RediCraft-Server/src/session.cpp:28-34 | a read is stripped of line ends, parsed and handled: the store and the response are those of the interpreted action |
| Session.Session.HandleCommand | RediCraft-Server/src/session.cpp:51-285 | the store changes as the interpreted command says and the response is one of its renderings |
| Session.Session.WriteFields | RediCraft-Server/src/session.cpp:137-146 | one line per field in some order, or the empty-hash text |
| Session.Session.WriteItems | RediCraft-Server/src/session.cpp:182-190 | numbered lines in list order, or the empty-list text |
| Session.Session.WriteMembers | RediCraft-Server/src/session.cpp:211-220 | one line per member in some order, or the empty-set text |
| Session.ItemsArriveNumbered | RediCraft-Server/src/session.cpp:182-190 | read line by line, the reply to LRANGE numbers the elements from 0 in list order |
| Session.RejectedExactly | RediCraft-Server/src/session.cpp:51-285 | a text is rejected if and only if its command is unknown or a number it needs cannot be read, with the reply that says which; the usage replies never happen |
| Session.NumbersAreRead | RediCraft-Server/src/session.cpp:99-270 | an argument of INCRBY, EXPIRE or LRANGE that starts with a 64-bit number is read as it, whatever follows the digits |
| ExampleSession.Spelling | RediCraft-Server/src/parser.cpp:33-109 | the name and the order of arguments of each string, hash, counter and expiry command on the wire |
| ExampleSession.SpellingOfOthers | RediCraft-Server/src/parser.cpp:33-109 | the same for the other list and set commands |
| ExampleSession.MoneyTalk | RediCraft-Server/README.md:115-131 | for any new key: SET 1000, GET, INCRBY 500, GET answer the bytes OK, 1000, 1500, 1500 with their line ends |
| ExampleSession.KillTalk | RediCraft-Server/README.md:121-128 | INCR, INCR, DECR on a new key answer 1, 2, 1 |
| ExampleSession.HashTalk | RediCraft-Server/README.md:133-140 | HSET, HSET, HGET answer OK, OK and the last value, also when both HSETs name the same field |
| ExampleSession.ListTalk | RediCraft-Server/README.md:146-150 | LPUSH of three answers 3 and RPOP the last of them |
| ExampleSession.ExpiryTalk | RediCraft-Server/README.md:152-156 | EXPIRE 60 and TTL answer 1 and 60 on a key that is there |
| ExampleSession.MissingTalk | RediCraft-Server/README.md:152-156 | without a SET, as the example has it, they answer 0 and -2 |
| Wire.RequestsArriveIntact | RediCraft-Server/src/session.cpp:28-33 | print, strip, tokenise, parse and interpret: the server runs the operation and arguments the client meant |
| Wire.ReachableStoresAreTidy | RediCraft-Server/src/session.cpp:51-285 | run invariant: no input text can make a store hold anything but non-empty, whitespace-free words, as keys or as values |
| Wire.ReachableRepliesDecode | RediCraft-API/src/main/java/com/redicraft/RedicraftClient.java:299-318 | in every reachable store HGETALL and SMEMBERS replies are read back as the same map and set, whatever colons or brackets they hold |
| Wire.HashReplyDecodes | RediCraft-API/src/main/java/com/redicraft/RedicraftClient.java:299-318 | any rendering of a hash of words decodes to that hash |
| Wire.SetReplyDecodes | RediCraft-API/src/main/java/com/redicraft/RedicraftClient.java:497-510 | any rendering of a set of words decodes to that set |
| Wire.RepliesDecode | RediCraft-API/src/main/java/com/redicraft/RedicraftClient.java:82-640 | the client's result is the store's, for every kind of reply |
| Wire.WireRefinement | RediCraft-API/src/main/java/com/redicraft/RedicraftClient.java:82-640 | end to end, a client call has the effect and the result of calling the store directly, the result exactly unless it is the literal "(nil)" |
| Client.RedicraftClient.Exchange | RediCraft-API/src/main/java/com/redicraft/RedicraftClient.java:82-90 | printing a request and reading the response delivers the operation |
| Client.RedicraftClient.Ping | RediCraft-API/src/main/java/com/redicraft/RedicraftClient.java:56-60 | a live server answers PONG and its store is unchanged |
| Client.RedicraftClient.Set | RediCraft-API/src/main/java/com/redicraft/RedicraftClient.java:82-90 | delivers SET |
| Client.RedicraftClient.Get | RediCraft-API/src/main/java/com/redicraft/RedicraftClient.java:114-118 | delivers GET |
| Client.RedicraftClient.Incr | RediCraft-API/src/main/java/com/redicraft/RedicraftClient.java:141-149 | delivers INCR |
| Client.RedicraftClient.Decr | RediCraft-API/src/main/java/com/redicraft/RedicraftClient.java:172-180 | delivers DECR |
| Client.RedicraftClient.IncrBy | RediCraft-API/src/main/java/com/redicraft/RedicraftClient.java:204-212 | delivers INCRBY for every 64-bit increment |
| Client.RedicraftClient.HSet | RediCraft-API/src/main/java/com/redicraft/RedicraftClient.java:237-245 | delivers HSET |
| Client.RedicraftClient.HGet | RediCraft-API/src/main/java/com/redicraft/RedicraftClient.java:271-275 | delivers HGET |
| Client.RedicraftClient.HGetAll | RediCraft-API/src/main/java/com/redicraft/RedicraftClient.java:299-318 | delivers HGETALL |
| Client.RedicraftClient.LPush | RediCraft-API/src/main/java/com/redicraft/RedicraftClient.java:342-360 | delivers LPUSH with every value, in order |
| Client.RedicraftClient.RPop | RediCraft-API/src/main/java/com/redicraft/RedicraftClient.java:384-388 | delivers RPOP |
| Client.RedicraftClient.SAdd | RediCraft-API/src/main/java/com/redicraft/RedicraftClient.java:412-430 | delivers SADD |
| Client.RedicraftClient.SRem | RediCraft-API/src/main/java/com/redicraft/RedicraftClient.java:455-473 | delivers SREM |
| Client.RedicraftClient.SMembers | RediCraft-API/src/main/java/com/redicraft/RedicraftClient.java:497-510 | delivers SMEMBERS |
| Client.RedicraftClient.SIsMember | RediCraft-API/src/main/java/com/redicraft/RedicraftClient.java:534-538 | delivers SISMEMBER |
| Client.RedicraftClient.SCard | RediCraft-API/src/main/java/com/redicraft/RedicraftClient.java:562-575 | delivers SCARD |
| Client.RedicraftClient.Expire | RediCraft-API/src/main/java/com/redicraft/RedicraftClient.java:599-603 | delivers EXPIRE |
| Client.RedicraftClient.Ttl | RediCraft-API/src/main/java/com/redicraft/RedicraftClient.java:627-640 | delivers TTL |
| Client.ReadFields | RediCraft-API/src/main/java/com/redicraft/RedicraftClient.java:303-317 | the reading loop computes the field decoder |
| Client.ReadMembers | RediCraft-API/src/main/java/com/redicraft/RedicraftClient.java:501-509 | the reading loop computes the member decoder |
| Snapshot.VisibleButNotSaved | RediCraft-Server/src/persistence.cpp:131 | a visible entry is left out of the snapshot if and only if it is read at its deadline or its deadline is not after clock zero |
| Snapshot.PersistenceManager.SaveToFile | RediCraft-Server/src/persistence.cpp:116-167 | the file is the sectioned text of the saved entries, for the orders in which the maps were visited and one clock reading per entry |
| Snapshot.PersistenceManager.LoadFromFile | RediCraft-Server/src/persistence.cpp:56-98 | the loop sets exactly the pairs that the lines of STRINGS sections hold, each at its own clock reading |
| Snapshot.SaveHashes | RediCraft-Server/src/persistence.cpp:136-144 | the nested loops write every field of every saved hash once |
| Snapshot.SaveSets | RediCraft-Server/src/persistence.cpp:156-164 | the nested loops write every member of every saved set once |
| Snapshot.SectionsJoin | RediCraft-Server/src/persistence.cpp:128-164 | the file is four sections, each under its header line: strings, hashes, lists, sets |
| Snapshot.StringSection | RediCraft-Server/src/persistence.cpp:127-134 | the section has a line key=value for each saved string and no other line |
| Snapshot.HashSection | RediCraft-Server/src/persistence.cpp:136-144 | a line key.field=value for each field of each saved hash and no other |
| Snapshot.ListSection | RediCraft-Server/src/persistence.cpp:146-154 | a line key[i]=item for each element of each saved list and no other |
| Snapshot.SetSection | RediCraft-Server/src/persistence.cpp:156-164 | a line key.member=1 for each member of each saved set and no other |
| SnapshotRoundTrip.RestLoadsNothing | RediCraft-Server/src/persistence.cpp:136-164 | nothing from the hash, list or set sections is ever loaded, whatever section was in force |
| SnapshotRoundTrip.SnapshotRoundTrip | RediCraft-Server/src/persistence.cpp:56-167 | if no saved hash, list or set holds a line feed: loading a saved file into an empty store yields exactly the live strings without deadlines if and only if every live string is newline-free, has no '=' in its key and does not look like a section header; for every iteration order and all clock readings |
| ReachableSnapshots.ReachableSnapshotRoundTrip | RediCraft-Server/src/persistence.cpp:56-167 | for the store after any session inputs, with no condition on texts left: the snapshot restores exactly the live strings if and only if no live key holds '=' and no live line looks like a section header |
| Pool.StepKeepsInv | RediCraft-API/src/main/java/com/redicraft/ConnectionPool.java:40-72 | every atomic step of every thread keeps permit conservation, the client bound, the counter and unique ownership |
| Pool.PoolIsSafe | RediCraft-API/src/main/java/com/redicraft/ConnectionPool.java:40-97 | for any number of threads and every interleaving, clients plus threads about to connect never exceed the maximum, the reported count stays within it, no client has two holders, permits are conserved |
| Pool.FailedConnectsKeepPermits | RediCraft-API/src/main/java/com/redicraft/ConnectionPool.java:40-89 | after every legal run, the permits in the semaphore and in threads' hands are the maximum less the connects that failed since the last close, counted in the run |
| Pool.FailedConnectsExhaustThePool | RediCraft-API/src/main/java/com/redicraft/ConnectionPool.java:40-60 | once as many connects have failed as the maximum, no thread holds a permit and getConnection times out for every thread |
| Pool.IdleClientsAreAQueue | RediCraft-API/src/main/java/com/redicraft/ConnectionPool.java:46-81 | idle clients are lent again or closed in the order in which they came back, and none is skipped |
| Pool.CloseKeepsInvExactly | RediCraft-API/src/main/java/com/redicraft/ConnectionPool.java:77-89 | closing restores every permit, and keeps the bookkeeping of permits, clients and counter if and only if no thread holds a permit |
| PoolClosing.ClosingInUseBreaksTheBound | RediCraft-API/src/main/java/com/redicraft/ConnectionPool.java:40-89 | right after any close the bound on live connections still holds; some continuation without another close exceeds it if and only if a thread held a permit at the close and there are more threads than the maximum |
| PoolClosing.TwoThreadsOnePermit | RediCraft-API/src/main/java/com/redicraft/ConnectionPool.java:40-89 | from a new pool of one: a borrow, a close and another borrow leave two live connections |
| Pool.QuiescentCloseResets | RediCraft-API/src/main/java/com/redicraft/ConnectionPool.java:77-89 | a quiescent close returns to the initial counters, leaked permits included |
| Pool.ConnectionPool.GetConnection | RediCraft-API/src/main/java/com/redicraft/ConnectionPool.java:40-60 | uninterrupted, the call is the protocol's steps acquire, poll, connect, increment, and fails when they do |
| Pool.ConnectionPool.ReturnConnection | RediCraft-API/src/main/java/com/redicraft/ConnectionPool.java:66-72 | offer then release; null does nothing |
| Pool.ConnectionPool.CloseAllConnections | RediCraft-API/src/main/java/com/redicraft/ConnectionPool.java:77-89 | the loop closes every idle client in order, and the whole is the protocol's close step, the refused negative release included |
| Money.StepConserves | RediCraft-API/src/main/java/com/redicraft/minecraft/AsyncMoneyPluginExample.java:99-141 | one command of one pay keeps balances plus money in flight if and only if its INCRBY does not overflow |
| Money.MoneyIsConserved | RediCraft-API/src/main/java/com/redicraft/minecraft/AsyncMoneyPluginExample.java:99-141 | under every interleaving of any number of pays the total stays constant throughout if and only if no INCRBY overflows |
| Money.BalancesAreConserved | RediCraft-API/src/main/java/com/redicraft/minecraft/AsyncMoneyPluginExample.java:99-141 | between moments with nothing in flight the balances add up to the same sum |
| Money.AccountsAreDistinct | RediCraft-API/src/main/java/com/redicraft/minecraft/MoneyCommandExample.java:83 | every player has an account of their own |
| Payments.FundsAreBalance | RediCraft-API/src/main/java/com/redicraft/minecraft/MoneyCommandExample.java:83-84 | the balance the client reads is the number the server counts from |
| Payments.FundsExactly | RediCraft-API/src/main/java/com/redicraft/minecraft/MoneyCommandExample.java:83-84 | the client reads a balance n if and only if the account is missing or "(nil)" and n is 0, or it holds the number n with nothing around it |
| Payments.MovedExactly | RediCraft-API/src/main/java/com/redicraft/minecraft/MoneyCommandExample.java:84-99 | a pay moves a sum if and only if the amount is that number and the payer has a readable balance that is no smaller |
| Payments.PayBetweenPlayers | RediCraft-API/src/main/java/com/redicraft/minecraft/MoneyCommandExample.java:80-110 | for any three players: the payer loses the sum, another payee gains it (modulo 2^64), a third is untouched, and paying oneself changes nothing |
| Payments.SequentialPayBalances | RediCraft-API/src/main/java/com/redicraft/minecraft/MoneyCommandExample.java:80-110 | an undisturbed pay adds the sum to the payee and takes it from the payer (modulo 2^64, nothing on the whole for a self-pay), or changes nothing, and touches no other account |
| Payments.SequentialPayKeepsNonNegative | RediCraft-API/src/main/java/com/redicraft/minecraft/MoneyCommandExample.java:80-110 | one pay keeps lasting, non-negative balances so if and only if it is safe: it moves nothing, or is a self-pay, or leaves the payee between 0 and 2^63-1 and the payer below 2^63; overflow included |
| Payments.SerialisedPaysKeepNonNegative | RediCraft-API/src/main/java/com/redicraft/minecraft/MoneyCommandExample.java:80-110 | over any sequence of serialised pays, no balance is negative after any of them if and only if every pay is safe when its turn comes; the accounts stay lasting |
| Payments.SafePayConserves | RediCraft-API/src/main/java/com/redicraft/minecraft/MoneyCommandExample.java:80-110 | a safe pay leaves the sum of all balances unchanged |
| Payments.OrdinaryPaysAreSafe | RediCraft-API/src/main/java/com/redicraft/minecraft/MoneyCommandExample.java:80-110 | with no negative sums and no more than 2^63-1 in all accounts together, every serialised pay is safe and balances stay non-negative |
| Payments.AloneIsSequential | RediCraft-API/src/main/java/com/redicraft/minecraft/AsyncMoneyPluginExample.java:99-125 | undisturbed, the asynchronous pay is the sequential one, except that it rejects an unreadable payee balance |
| Overdrafts.InterleavedPaysKeepNonNegative | RediCraft-API/src/main/java/com/redicraft/minecraft/AsyncMoneyPluginExample.java:99-141 | under every interleaving of any number of pays, balances are non-negative throughout if and only if every INCRBY, when its turn comes, leaves its account between 0 and 2^63-1 |
| Overdrafts.OverlappingPaysOverdraw | RediCraft-API/src/main/java/com/redicraft/minecraft/AsyncMoneyPluginExample.java:103-123 | two overlapping pays of all a player owns both pass the check and overdraw the player by as much |
| Overdrafts.OverlappingPaysAreNotCovered | RediCraft-API/src/main/java/com/redicraft/minecraft/AsyncMoneyPluginExample.java:103-123 | on that schedule the exact condition fails, so some balance is negative on the way |
| Plugin.MoneyCommandExample.HandlePay | RediCraft-API/src/main/java/com/redicraft/minecraft/MoneyCommandExample.java:80-110 | over the wire the handler has exactly the effect and outcome of the sequential pay |
| Plugin.MoneyCommandExample.HandleTempBan | RediCraft-API/src/main/java/com/redicraft/minecraft/MoneyCommandExample.java:208-227 | over the wire the handler sets the flag and its deadline and reports success, or rejects the duration and changes nothing |
| Plugin.MoneyCommandExample.IsPlayerBanned | RediCraft-API/src/main/java/com/redicraft/minecraft/MoneyCommandExample.java:234-243 | the answer is whether TTL is non-negative |
| Witnesses.TypedCommandsRun | RediCraft-Server/src/session.cpp:28-33 | every run of sendable commands is what the server does on the lines that a client prints, so the witnesses are inputs that it can receive |
| Witnesses.ExpireRevives | RediCraft-Server/src/storage.cpp:367-412 | SET, EXPIRE 1, and EXPIRE 5 three seconds later: the string is back, and the run is not that of eager expiry |
| Witnesses.TtlDeniesALiveHash | RediCraft-Server/src/storage.cpp:414-495 | SET, HSET, EXPIRE 1: three seconds later TTL answers -2 while HGET answers the value |
| Witnesses.RepeatedMemberCountsTwice | RediCraft-Server/src/storage.cpp:282-308 | SADD of one member twice on a new key replies 2 and makes a set of one |
| Witnesses.StoredNilReadsAsMissing | RediCraft-API/src/main/java/com/redicraft/RedicraftClient.java:114-118 | after SET to "(nil)" the store answers the text and the client reads a missing value |
| Witnesses.SnapshotLosesAString | RediCraft-Server/src/persistence.cpp:56-167 | one SET of a key with '=', or of a pair like "[a" and "b]", makes a store that its own snapshot does not restore |
| Witnesses.NegativeSumOverdraws | RediCraft-API/src/main/java/com/redicraft/minecraft/MoneyCommandExample.java:80-110 | a pay of -1 between two empty accounts succeeds and leaves the payee at -1 |

## Left out

- The store's mutexes: operations lock a mutex that they already hold and unlock by hand under a shared lock, so no locking property holds of that code; a command is one atomic step.
- Two clock reads inside one command (TTL reads the clock and then tests expiry): one reading per command.
- Storage.Storage.IncrBy: undefined signed overflow is modelled as wrap-around; the exact theorems state when it does not happen.
- Character sets: the wire theorems speak of the original for ASCII arguments, where the client's encoding is the identity.
- Wire.WireRefinement: a request is one whole read; the 1024-byte buffer, split reads and pipelining are not modelled, and a multi-line reply is a finite stream (the server does not send the blank line the client waits for). Element counts are assumed below 2^63.
- Client arguments that are empty or hold white space: the protocol has no quoting, so such calls send another command; the client methods require words.
- LRANGE has no client call (Guide/API_REFERENCE.md:163-173 describes one), so only its server side is modelled.
- Pool.ConnectionPool.CloseAllConnections: the closing loop is one step; other threads' steps during it are not modelled. Errors while closing a client are ignored by the code and have no effect here.
- The five-second wait for a permit is an immediate success or timeout; interruption while waiting is not modelled.
- Deadlines.BanHoldsUntilDeadline: assumes that no hash, list or set uses the ban key, because TTL then answers for that family once the flag has expired.
- I/O failures in the payment handlers (a debit without its credit) and the pool inside the asynchronous handlers.
- The commands' asynchronous client variants: the same calls on another thread.
- Cluster membership, health, the ping loop and `routeRequest`, which always targets localhost: network I/O that does not use the slot functions.
- Replication: its snapshot is a placeholder and received commands are only logged.
- Configuration loading, logging, worker threads, the auto-save loop and the benchmark.
- The remaining plugin handlers (balance, set, give, take, player information, logins): single client calls.
