# mini-dns: a Dafny model and its proofs

This project models the core of mini-dns, a small DNS server written in Rust, and
proves what that core promises for every input, every run and every interleaving.
It covers the wire codec with name compression, local resolution from zones, the
response cache, the rate limiter, single-flight forwarding, the upstream socket
pool, the iterative resolver and the first pass that ties these together.

`dafny verify dfyconfig.toml` checks the whole project. The proofs are about the model,
which follows the Rust code branch by branch.

## How it is laid out

| file | what it holds |
|---|---|
| `Bytes.dfy`, `Names.dfy` | bytes, big-endian words, flag bits; dotted names, labels, label-boundary suffixes |
| `NameCodec.dfy` | reading names through pointers with a jump budget, writing them with compression |
| `Records.dfy`, `Wire.dfy` | packets and the fifteen record types; what the encoder writes and the parser reads |
| `RoundTrip.dfy`, `ReadBack.dfy`, `Ladder.dfy` | reading back what was written, and how many jumps it takes; what cannot be read back; where the jump budget ends |
| `Overrun.dfy`, `Skipped.dfy`, `Accepts.dfy` | messages that panic the parser; records the parser skips; names and messages it accepts |
| `Encoder.dfy`, `Parser.dfy` | the encoder as a class over its buffer and name table; the parser's loops |
| `Replay.dfy` | truncation, EDNS alignment, transaction IDs |
| `Zones.dfy`, `Wildcards.dfy`, `Resolver.dfy` | suffix matching, wildcards and RFC 4592, the CNAME chase and the response built from it |
| `RateLimiter.dfy`, `Cache.dfy`, `Metrics.dfy` | the three stateful services and their runs |
| `SingleFlight.dfy`, `SocketPool.dfy` | the two concurrent protocols as state machines over atomic steps |
| `Recursive.dfy`, `Server.dfy` | the iterative resolver; the first pass over a query and forwarding |

A name is a sequence of ASCII bytes. The clock, the upstream's replies, the metric
shard a thread picks and the scheduler's choices are parameters, so each result holds
for all of them. A concurrent map operation is one atomic step.

## Where the code differs from what it says

Each of these has a lemma at an input and a theorem that says exactly when the code does
what is promised.

* Three labels are too many for the iterative resolver. It is documented to end with the
  full name, but after each referral it takes the parent of the name it asked as the new
  zone, so the zone never has more than one label and a longer name is never asked in
  full. `Recursive.DefiniteIffTwoLabels`: NOERROR or NXDOMAIN is possible exactly for names
  of at most two labels.
* The parser's comment says that a legitimate name needs far fewer than 64 jumps. The
  encoder itself writes a message with a name of 65 labels and 131 bytes that needs 65
  (`Ladder.LadderRoundTrip`). `RoundTrip.PacketRoundTrip`: a packet of good names is read back
  exactly when none of them takes more than 64 jumps, a number computed from the packet alone.
* The parser joins labels with dots and the encoder splits at dots, so a label off the wire
  with a dot at an end or two in a row does not survive a UDP replay: the client reads
  another question, with TC clear (`Replay.DottedLabelExample`). `Replay.UdpReplayKeepsMeaning`:
  what the parser kept reaches the client exactly when all names sent are good and take at
  most 64 jumps; `ReadBack.ParsedNameIsGood` says which labels make a parsed name good.
* An RRSIG or NSEC record whose inner name runs past the record data makes the parser
  slice out of range and panic (`Overrun.OverrunExample`, 24 bytes). `Overrun.OverrunsExactly`
  says which messages do this. Such a query is counted in the total and under no outcome
  (`SingleFlight.CountersAddUpExactly`, over runs without zone transfers); such a reply
  unwinds the forward it belongs to, and its followers get SERVFAIL. Over TCP the same
  message is parsed once more before, for zone transfers, so there it panics before
  anything is counted.
* Records of types the server does not model, such as HTTPS, are skipped by the parser but
  stay in the stored bytes. A stored answer can so outlive its TTL (`Cache.LateExample`) and
  is dropped on UDP replay with TC clear (`Replay.LostAnswerExample`). `Cache.NeverLateExactly`
  and `Replay.UdpReplayLosesSkipped` say exactly when neither happens.
* Wildcard lookup calls itself RFC 4592 style, but answers past the closest encloser
  (`Wildcards.PastTheEncloser`) and denies empty non-terminals, be it the name itself
  (`Wildcards.EmptyNodeMissed`) or the wildcard it falls under (`Wildcards.EmptySourceMissed`).
  `Wildcards.LookupAgreesExactly` says when it agrees with the RFC.
* A query that asks for recursion on an unserved name, while recursion is configured but
  no rule, default or resolver applies, is answered with RA clear, although the server
  offers recursion (`Server.RaClearExample`). `Server.ServerState.ResolveLocal`: RA is set in
  a local answer exactly when recursion is offered and was not asked for in vain.
* The limiter's 32-bit counter wraps around (`RateLimiter.WrapBreaksTheBounds`).
  `RateLimiter.FixedWindowBoundExactly`: a window lets through at most the limit exactly when
  fewer than 2^32 queries of its client fall into it.

## Model

| member | source | states |
|---|---|---|
| `NameCodec.WorkBound` | src/dns/packet.rs:393-448 | following a name reads at most the bytes left plus one buffer length per jump left, also through pointer cycles |
| `NameCodec.WalkMoreBudget` | src/dns/packet.rs:408-424 | the jump budget only ever turns a success into an error, never into another name |
| `NameCodec.WalkExtends` | src/dns/packet.rs:393-448 | bytes appended later never change a name that was read, nor a pointer loop |
| `NameCodec.EmitNameDecodes` | src/dns/encoder.rs:297-325 | a name written at any position with any sound name table is read back exactly when the jump budget covers its reach, which is at most its labels, and every suffix it registers is read back in exactly its recorded number of jumps |
| `NameCodec.NameRoundTrip` | src/dns/encoder.rs:297-325 | with the parser's own budget a written name is read back if it takes at most 64 jumps and is a pointer loop otherwise; the table stays sound |
| `NameCodec.PlainNameRoundTrip` | src/dns/encoder.rs:248-259 | a name written without compression is read back, with the offset after it |
| `NameCodec.EmitNameShorter` | src/dns/encoder.rs:297-325 | compression never makes a name longer |
| `NameCodec.AppendKeepsSound` | src/dns/encoder.rs:306-315 | appending to the buffer keeps every registered suffix readable in exactly the same number of jumps |
| `Wire.CharacterStringsRoundTrip` | src/dns/encoder.rs:283-293 | text of any length, cut into chunks of 255, is joined again by the parser |
| `Wire.ParseRecord` | src/dns/packet.rs:98-124 | a parsed record, kept or skipped, takes at least 11 bytes inside the buffer |
| `Wire.ParseQuestions` | src/dns/packet.rs:42-58 | the parsed questions are as many as asked for, at 5 bytes or more each |
| `Wire.FromBytes` | src/dns/packet.rs:25-85 | a message parses only if it has room for its header counts: 12 + 5 per question + 11 per record |
| `Wire.HeaderOnWire` | src/dns/encoder.rs:30-40 | ID and flags are the first four bytes of every encoded message |
| `Wire.RecordOnWire` | src/dns/encoder.rs:262-269 | a record written anywhere has its type, class IN and TTL right after its owner; an OPT has its size for a class and a TTL of zero |
| `RoundTrip.BodyFits` | src/dns/encoder.rs:272-279 | the record data of a well-formed record fits the 16-bit length that is backfilled |
| `RoundTrip.SoaRoundTrip` | src/dns/encoder.rs:60-246 | SOA data with its two compressed names and five numbers is read back unless one of the names takes too many jumps |
| `RoundTrip.RrsigRoundTrip` | src/dns/encoder.rs:60-246 | RRSIG data is read back, the signature being exactly what follows the signer's name |
| `RoundTrip.RdataRoundTrip` | src/dns/encoder.rs:60-246 | record data of all fifteen types is read back, whatever names were written before, unless a name takes too many jumps |
| `RoundTrip.RecordRoundTrip` | src/dns/encoder.rs:60-269 | a whole record is read back and the parser ends where the writer did, unless a name takes too many jumps |
| `RoundTrip.RecordsRoundTrip` | src/dns/encoder.rs:48-56 | a section of records is read back in order, the name table staying sound, unless a name takes too many jumps |
| `RoundTrip.QuestionsRoundTrip` | src/dns/encoder.rs:42-46 | the questions are read back in order unless a name takes too many jumps |
| `RoundTrip.PacketRoundTrip` | src/dns/encoder.rs:21-325 | decoding an encoded packet of good names gives that packet with its counts set to the list lengths exactly when no name takes more than 64 jumps, and a pointer loop otherwise; names of at most 64 labels never do |
| `ReadBack.BadNameReads` | src/dns/encoder.rs:297-325 | a name with an empty label or one of more than 63 bytes is read back as other labels, whatever was written before it |
| `ReadBack.RecordIsGood` | src/dns/encoder.rs:60-269 | a record comes back only if its owner, every name in its data and a CAA tag can be carried |
| `ReadBack.ReadBackExactly` | src/dns/encoder.rs:21-325 | of all packets whose counts and lengths fit 16 bits, decoding gives back exactly those whose names and tags can be carried and take at most 64 jumps |
| `ReadBack.ParsedNameIsGood` | src/dns/packet.rs:393-448 | a name off the wire is good exactly when each of its labels starts with a character other than a dot and has one after every dot |
| `Ladder.RungWireLength` | src/dns/packet.rs:385-390 | a name of k one-letter labels takes 2k + 1 bytes, so it is legal up to 127 labels |
| `Ladder.LadderJumps` | src/dns/encoder.rs:297-325 | such a message, its longest name having n labels and asked twice, takes exactly n jumps |
| `Ladder.NewNameTakesNone` | src/dns/encoder.rs:297-325 | a name none of whose suffixes was written before takes no jump |
| `Ladder.OneQuestionRoundTrip` | src/dns/encoder.rs:297-325 | a message with one question and no records is read back however many labels its name has |
| `Ladder.LadderRoundTrip` | src/dns/packet.rs:385-390 | a message of names that each extend the last by a label is read back up to 64 labels and rejected as a pointer loop from 65 on |
| `Encoder.BackfillKeepsOffsets` | src/dns/encoder.rs:272-280 | overwriting the length field before the record data keeps every registered suffix readable |
| `Encoder.NameKeepsOffsets` | src/dns/encoder.rs:297-325 | writing a name keeps the table sound for the longer buffer |
| `Encoder.RecordKeepsOffsets` | src/dns/encoder.rs:60-246 | writing a record keeps the table sound for the longer buffer |
| `Encoder.DnsPacketEncoder.EncodeQname` | src/dns/encoder.rs:297-325 | the loop appends what the specification emits, registers the same suffixes, and keeps the invariant |
| `Encoder.DnsPacketEncoder.EncodeNameUncompressed` | src/dns/encoder.rs:248-259 | the loop appends the plain form and leaves the name table alone |
| `Encoder.DnsPacketEncoder.EncodeCharacterStrings` | src/dns/encoder.rs:283-293 | the chunk loop appends the character-strings of the text |
| `Encoder.DnsPacketEncoder.EncodeRecordHeader` | src/dns/encoder.rs:262-267 | owner, type, class IN and TTL are appended; the invariant is kept |
| `Encoder.DnsPacketEncoder.EncodeRdata` | src/dns/encoder.rs:272-280 | the length written first as zero ends up as the data's length modulo 2^16, and the overwrite keeps the invariant |
| `Encoder.DnsPacketEncoder.EncodeRecord` | src/dns/encoder.rs:60-246 | each of the fifteen arms appends the specified record and keeps the invariant |
| `Encoder.DnsPacketEncoder.Encode` | src/dns/encoder.rs:30-57 | the buffer becomes the specified message; for a well-formed packet the invariant holds at the end |
| `Encoder.ToBytes` | src/dns/encoder.rs:21-28 | what the encoder returns decodes to the packet it was given exactly when no name takes more than 64 jumps |
| `Parser.ParseQname` | src/dns/packet.rs:393-448 | the loop returns the specified name or error, ends past its start within the buffer, and reads at most 65 times the buffer length |
| `Parser.ReadCharacterStrings` | src/dns/packet.rs:368-383 | the loop agrees with the recursive reading of character-strings, errors included |
| `Parser.ReadQuestions` | src/dns/packet.rs:42-58 | the loop agrees with the recursive reading of questions, errors included |
| `Parser.ReadSection` | src/dns/packet.rs:62-76 | the loop agrees with the recursive reading of a section, skipped records included |
| `Parser.ReadPacket` | src/dns/packet.rs:25-85 | the whole parser agrees with its specification on every buffer, and panics exactly when it reaches a record whose data overruns |
| `Accepts.NameReadExactly` | src/dns/packet.rs:393-448 | a name is read, with this text and this end, exactly when labels of 1 to 63 bytes and at most 64 jumps of fourteen bits lead from its start to a zero byte and spell it; it ends after that byte or after its first jump |
| `Accepts.AcceptedExactly` | src/dns/packet.rs:25-360 | a message is accepted exactly when it divides into a header, as many questions and records as its counts say, and each record has data of the shape its type number asks for |
| `Overrun.RecordOverrunsExactly` | src/dns/packet.rs:98-351 | a record panics the parser exactly when its owner, fixed fields and data fit and it is an NSEC, or an RRSIG with its 18 fixed bytes, whose inner name ends past the data |
| `Overrun.RecordsOverrunExactly` | src/dns/packet.rs:62-76 | a section panics the parser exactly when some record does and all before it can be read |
| `Overrun.OverrunsExactly` | src/dns/packet.rs:25-85 | the same of a whole message, over its three sections |
| `Overrun.NoRecordsNoOverrun` | src/dns/packet.rs:25-85 | a message without records never panics the parser |
| `Overrun.OverrunExample` | src/dns/packet.rs:349-351 | a query of 24 bytes with one empty NSEC record does |
| `Skipped.RecordKept` | src/dns/packet.rs:124-360 | a record is kept exactly when its type is one of the fifteen, with its type and TTL |
| `Skipped.SectionKept` | src/dns/packet.rs:62-72 | the parser keeps exactly the modelled records of a section, in order |
| `Skipped.PacketKept` | src/dns/packet.rs:60-85 | the same of all sections, while the header counts every record |
| `Skipped.SkippingLoses` | src/dns/packet.rs:359-359 | fewer records are returned than are on the wire exactly when one was skipped |
| `Skipped.HttpsReplyParses` | src/dns/packet.rs:359-359 | a reply with one HTTPS answer parses to no answers |
| `Replay.AlignedLimitIsClients` | src/state.rs:636-665 | after alignment the size limit is that of the client's request alone |
| `Replay.OptSize` | src/dns/packet.rs:89-94 | an EDNS size is found exactly when there is an OPT record, and is one of theirs |
| `Replay.UdpLimit` | src/dns/packet.rs:463-467 | the limit is always between 512 and 1232 |
| `Replay.UdpLimitIs` | src/dns/packet.rs:463-467 | the limit is 512 without an OPT among the additionals; else the size in the first one, by index, or 512 when it is below and 1232 when it is above |
| `Replay.SetTcIs` | src/dns/packet.rs:481-481 | truncation sets bit 0x200 of the flag word and leaves every other bit |
| `Replay.EncodeSends` | src/state.rs:581-586 | over UDP a packet above the limit of its own OPT is sent as its ID, questions and additionals with TC set; at or below it, and over TCP, it is sent whole |
| `Replay.AlignedAdditionals` | src/state.rs:636-665 | for a client with EDNS its limit takes the place of the first OPT, or comes last when there is none; for a client without, every OPT goes |
| `Replay.StripOptConcat` | src/state.rs:660-663 | the records other than OPT stay in their order |
| `Replay.AlignedKeeps` | src/state.rs:636-665 | alignment changes nothing but OPT records |
| `Replay.AlignedIsGood` | src/state.rs:636-665 | alignment keeps a packet encodable, within its sizes and of few labels |
| `Replay.AlignInPlace` | src/state.rs:636-665 | find-and-overwrite, push and retain amount to the specified alignment |
| `Replay.PatchTransactionId` | src/state.rs:592-596 | the first two bytes of the array are overwritten, if there are two, and nothing else |
| `Replay.PatchIsWithId` | src/state.rs:592-596 | patching an encoded message gives the encoding of the packet with that ID: no name pointer reaches the header |
| `Replay.TcpReplayKeepsMeaning` | src/state.rs:606-612 | an encoded message replayed over TCP decodes exactly when it did before, to the same packet with only the ID changed |
| `Replay.UdpBytesDecode` | src/dns/packet.rs:473-493 | what is sent over UDP decodes to the packet, or to its questions and additionals with TC set, unless a name takes too many jumps |
| `Replay.UdpReplayKeepsMeaning` | src/state.rs:613-628 | a stored message, its counts and lengths fitting 16 bits, is read by a UDP client as what the parser kept of it, with the client's ID and aligned OPT, exactly when the names sent are good and take at most 64 jumps; answers and authorities are truncated together, only above the client's limit, and then the flags are the stored ones with TC set |
| `Replay.ReplayIsWholeExactly` | src/state.rs:613-619 | a UDP client reads the stored flags, answers and authorities exactly when the message for it is within its limit, 512 without an OPT and the size it sent from 512 to 1232; above it the sections are gone and TC is set |
| `Replay.DottedLabelExample` | src/state.rs:613-619 | a stored question for the one label `a.` reaches the client as a question for `a` of type 0 and class 256, with TC clear |
| `Replay.UdpReplayLosesSkipped` | src/state.rs:613-619 | an untruncated replay keeps the record count of every section, OPT apart, exactly when the parser skipped no record |
| `Replay.LostAnswerExample` | src/state.rs:613-619 | a stored HTTPS answer is replayed over UDP as an empty NOERROR message with TC clear |
| `Replay.UdpFits` | src/dns/packet.rs:463-493 | with at most one question of at most 255 name bytes and at most an OPT besides, a UDP message never exceeds its limit, truncated or not |
| `Replay.UdpReplayFits` | src/state.rs:613-619 | a replayed message of that kind never exceeds the limit of the client that gets it |
| `RateLimiter.Limiter.Allow` | src/ratelimit.rs:40-56 | the client's window is restarted or counted up, with 32-bit wrap-around, no other client is touched, and the answer compares it with the limit |
| `RateLimiter.Limiter.Cleanup` | src/ratelimit.rs:69-73 | exactly the windows that are not over stay |
| `RateLimiter.RunsAgree` | src/ratelimit.rs:40-73 | tables that differ only in finished windows give the same answers for ever |
| `RateLimiter.CleanupIsInvisible` | src/ratelimit.rs:63-73 | over every run under a monotone clock, the answers are those of the run without cleanups |
| `RateLimiter.FixedWindowBoundExactly` | src/ratelimit.rs:40-73 | over every run with cleanups, a fixed window of positive length that is opened counts exactly the queries of its client from its start to its end, and lets through at most the limit exactly when they are fewer than 2^32 |
| `RateLimiter.WrapBreaksTheBounds` | src/ratelimit.rs:54-55 | 2^32 queries and the limit more at once let 2 x limit + 1 through |
| `RateLimiter.TwoWindowBound` | src/ratelimit.rs:40-56 | over the current window and one more length, at most what is left plus one full limit |
| `RateLimiter.SlidingBound` | src/ratelimit.rs:40-73 | over every run with cleanups, any interval one window long lets at most 2 x limit - 1 queries of a client through, one fewer than the two full windows it can touch |
| `RateLimiter.SlidingBoundIsTight` | src/ratelimit.rs:40-56 | for every limit and every window of two ticks or more there is a run that attains that bound |
| `RateLimiter.NeverDenied` | src/ratelimit.rs:40-73 | over every run with cleanups, a client that keeps to the limit in every interval one window long is never denied |
| `Cache.ResponseCache.Get` | src/cache.rs:39-53 | an unexpired entry is returned under the one key of that type and of that name without capitals; an expired one is removed |
| `Cache.ResponseCache.Insert` | src/cache.rs:68-83 | under the same key, an empty response or a zero TTL is ignored, a known key is overwritten, a new one first makes room |
| `Cache.ResponseCache.EvictIfFull` | src/cache.rs:92-107 | below capacity nothing happens; else expired entries go, and one live entry if that was not enough |
| `Cache.KeysAgree` | src/cache.rs:40-40 | two queries share an entry exactly when their types are equal and their names byte for byte equal up to the case of A to Z |
| `Cache.RunForgets` | src/cache.rs:39-107 | over every run, each entry is the one an unbounded map would hold, and there are at most max(capacity, 1) |
| `Cache.HitIsLatestAndFresh` | src/cache.rs:39-83 | over every run, a hit is the response of the latest accepted insert with that type and, up to case, that name, read strictly before its TTL is over |
| `Cache.OthersKeepAnswer` | src/cache.rs:68-107 | an insert for another type or name leaves an answer as it was, unless the cache was full of live entries and gave up this one |
| `Cache.InsertDropsAtMostOne` | src/cache.rs:92-107 | an insert loses at most one live entry, and only for a new key in a cache full of live ones |
| `Cache.ExactBelowCapacity` | src/cache.rs:39-107 | while no more keys than the capacity were inserted, every answer is that of the unbounded map, and there is one exactly when the latest insert for that type and name is still good |
| `Cache.MinTtl` | src/state.rs:692-696 | the cache time of a positive answer is the least TTL of its records |
| `Cache.CacheTtlCases` | src/state.rs:692-705 | a response is cacheable exactly when it has answers or its rcode is 0 or 3; with answers for the least of their TTLs, without for the first SOA's minimum, at most an hour, or 30 seconds |
| `Cache.ServedBeforeTtl` | src/state.rs:692-705 | over every run fed by forwarding, every answer of the stored message is served before its TTL on the wire is over, unless the cache time outlives a skipped answer; no negative answer is served past an hour |
| `Cache.NeverLateExactly` | src/state.rs:692-705 | over all runs a response is never served with an answer past its TTL exactly when its cache time does not outlive an answer that the parser skips |
| `Cache.LateExample` | src/state.rs:697-703 | a reply with one HTTPS answer of TTL 5 is kept for 30 seconds and can be served late |
| `Zones.SortedFacts` | src/config.rs:33-36 | sorting keeps the zones or rules and orders them by decreasing suffix length |
| `Zones.SortIsStable` | src/config.rs:33-36 | sorting loses and repeats nothing and keeps the order of rules of one length |
| `Zones.FindIsLongest` | src/config.rs:78-82 | the match found is a longest one, and there is none only if nothing matches |
| `Zones.FindIsBest` | src/config.rs:78-82 | the match found has the longest matching suffix and, among those of its length, the one configured first; there is none only if nothing matches |
| `Zones.FindIgnoresOrder` | src/config.rs:33-36 | with distinct suffixes, the order of configuration does not matter |
| `Zones.ZoneIsBest` | src/config.rs:33-82 | the zone found is that best match of the configured origins, an empty origin matching every name, and no other zone is |
| `Zones.ZoneIgnoresOrder` | src/config.rs:33-82 | with distinct origins the order of the zones does not matter |
| `Zones.RouteIsBest` | src/config.rs:119-144 | the upstream found is that of the best matching rule, or the default when none matches |
| `Zones.RouteIgnoresOrder` | src/config.rs:119-144 | with distinct suffixes the order of the rules does not matter |
| `Zones.MatchIsLabelSuffix` | src/config.rs:78-143 | a rule matches exactly when its labels are the last labels of the name; an empty origin matches every name |
| `Zones.MatchNameLoop` | src/config.rs:136-143 | the loop over the sorted rules returns the best matching rule's upstream, else the default |
| `Zones.AfterDotIsParent` | src/dns/resolver.rs:149-161 | the text after the first dot is the longest strict ancestor, and there is one if any ancestor exists |
| `Zones.WildcardIsBest` | src/dns/resolver.rs:149-161 | the wildcard found is the one of the longest strict ancestor that has one, and none is found only if none exists |
| `Zones.LookupFinds` | src/dns/resolver.rs:149-161 | a name finds its own entry, else the entry of the longest ancestor with a wildcard, else nothing |
| `Zones.LookupLoop` | src/dns/resolver.rs:149-161 | the loop returns what the name finds |
| `Wildcards.EncloserIsClosest` | src/dns/resolver.rs:145-148 | the closest encloser of a name is its longest ancestor that has an entry at or below it |
| `Wildcards.LookupAgreesExactly` | src/dns/resolver.rs:145-161 | lookup answers as RFC 4592 does exactly when the name has an entry, or neither it nor a descendant has one, no existing ancestor lies below the parent of the best wildcard, and the wildcard of the closest encloser has an entry or does not exist |
| `Wildcards.PastTheEncloser` | src/dns/resolver.rs:149-161 | with `*.c` and `b.c` stored, `a.b.c` is answered from `*.c`, which the RFC denies |
| `Wildcards.EmptyNodeMissed` | src/dns/resolver.rs:149-161 | with only `a.b.c` stored, `b.c` is not found, though the RFC has it exist without data |
| `Wildcards.EmptySourceMissed` | src/dns/resolver.rs:149-161 | with only `x.*.c` stored, `a.c` is not found, though the RFC has it exist without data |
| `Zones.IsBlocked` | src/blocklist.rs:62-78 | a name is blocked exactly when it or the wildcard of some strict ancestor is listed |
| `Names.SameWhenFolded` | src/cache.rs:40-40 | two names fold to the same exactly when they have one length and are byte for byte equal up to the case of A to Z |
| `Resolver.OfTypeKeepsAll` | src/dns/resolver.rs:71-78 | the direct records are all records of the asked type, with their multiplicity |
| `Resolver.OfTypeConcat` | src/dns/resolver.rs:71-78 | the direct records keep their order |
| `Resolver.RecordsAtAreStored` | src/dns/resolver.rs:55-78 | the records a name contributes are those of the asked type in the entry it finds in the zone of the best matching origin |
| `Resolver.VisitedIsChain` | src/dns/resolver.rs:40-94 | the names visited are distinct, each an alias of the next, and the chase ends only at a non-alias, a repetition or sixteen names |
| `Resolver.ChainIsVisited` | src/dns/resolver.rs:40-94 | conversely, every chain of distinct aliases that ends or fills the limit is visited in order |
| `Resolver.AnswersFollowChain` | src/dns/resolver.rs:40-94 | the answers are the stored CNAMEs of distinct owners from the lowercased queried name on, each naming the next owner, and then all records of the asked type at the last name, owned by it |
| `Resolver.ChaseIsComplete` | src/dns/resolver.rs:40-94 | a chain of aliases is answered with one CNAME per name, each naming the next, and then all records of the asked type at its end, if it has at most 15 aliases; a longer one up to its first 16 names |
| `Resolver.EmptyAnswers` | src/dns/resolver.rs:48-92 | there are no answers exactly when the queried name itself has neither a record of the type nor a CNAME |
| `Resolver.ZoneSoa` | src/dns/resolver.rs:164-166 | an SOA of the zone is found exactly when it has one |
| `Resolver.Chase` | src/dns/resolver.rs:33-95 | the loop returns those answers; rcode 3 exactly when the queried name has no zone or no entry |
| `Resolver.BuildResponse` | src/dns/resolver.rs:22-143 | ID, questions and RD are echoed and an OPT has the client's limit; the answers follow such a chain; NXDOMAIN, AA and the SOA appear exactly when the zone of the longest origin matching the queried name calls for them |
| `Resolver.EchoedOptIs` | src/dns/resolver.rs:118-127 | a local answer has an OPT exactly when the client sent one, with the client's limit for a size |
| `Resolver.ResponseLimitIsClients` | src/dns/resolver.rs:118-127 | the size limit of a local answer is that of the client's request |
| `Resolver.LocalAnswerFits` | src/dns/resolver.rs:118-143 | a local answer to a request with at most one question of at most 255 name bytes never exceeds the client's limit over UDP, truncated or not |
| `SocketPool.StepExclusive` | src/forwarder.rs:57-96 | every step keeps each socket in one place: once in the pool or with one task |
| `SocketPool.StepHolders` | src/forwarder.rs:57-76 | every step keeps permits plus permit holders constant |
| `SocketPool.StepSockets` | src/forwarder.rs:79-96 | every step keeps pooled, used and being-created sockets within the limit, although creating starts after the pool was seen empty |
| `SocketPool.PoolIsBounded` | src/forwarder.rs:42-96 | all three hold in every interleaving of forwards, failures and cancellations |
| `SocketPool.PermitsReturn` | src/forwarder.rs:57-76 | when no forward is under way, every permit is back |
| `SocketPool.SocketsAreConserved` | src/forwarder.rs:57-96 | over every run each socket ever made is in the pool, in use, or lost to a query that failed or was cancelled |
| `Metrics.BumpSum` | src/metrics.rs:65-75 | bumping a counter on any shard raises its sum by one and no other sum |
| `Metrics.ShardedMetrics.Bump` | src/metrics.rs:65-68 | the same of the object, for all counters at once |
| `Metrics.ShardedMetrics.Read` | src/metrics.rs:70-75 | the fold returns the sum over the shards |
| `SingleFlight.StepKeeps` | src/state.rs:452-503 | every step of every task keeps the invariant on keys, channels, leaders and followers |
| `SingleFlight.RunKeeps` | src/state.rs:452-503 | so it holds in every reachable state |
| `SingleFlight.OneLeaderPerKey` | src/state.rs:458-481 | a key is in the table exactly when one task that still holds its guard leads it, the stored channel is that leader's, and no two upstream queries for a key are outstanding |
| `SingleFlight.GuardRemovesOwnEntry` | src/state.rs:670-679 | a guard, also of a cancelled leader, removes the entry its own leader put there |
| `SingleFlight.FollowerOutcome` | src/state.rs:484-503 | a finished follower got exactly the bytes the leader of its channel was returned, or SERVFAIL only after that leader was cancelled or unwound |
| `SingleFlight.ValueStays` | src/state.rs:477-493 | once sent, a channel's value is never changed or lost |
| `SingleFlight.NoMissedValue` | src/state.rs:484-493 | a follower that sees the sender gone gets the value if one was ever sent |
| `SingleFlight.NobodyIsStuck` | src/state.rs:484-493 | in every reachable state each unfinished task can move, or waits on a channel whose live leader can |
| `SingleFlight.EveryTaskIsBounded` | src/state.rs:452-503 | over every run no task takes more than seven steps of its own |
| `SingleFlight.StepBalances` | src/state.rs:335-552 | every step keeps total + upstream failures = outcomes counted + forwards pending + queries that panicked the parser |
| `SingleFlight.QueriesBalance` | src/state.rs:335-552 | so over every run, each counter read as a sum over its shards |
| `SingleFlight.EachCounterIsExact` | src/state.rs:335-552 | over every run each counter is the number of steps it stands for: coalesced the tasks that found their key in flight, forwarded those that did not, errors the unparsable and the failed |
| `SingleFlight.CountersAddUpExactly` | src/state.rs:335-552 | over every run without zone transfers and with nothing pending, total + failures is the sum of the seven outcome counters exactly when no query panicked the parser |
| `Recursive.MinimizedParts` | src/recursive.rs:510-529 | the name sent is the label suffix of the full name with min(n, zone labels + 1) labels |
| `Recursive.DelegationZoneParts` | src/recursive.rs:491-498 | the zone after a referral has one label less than the name asked, or the same one |
| `Recursive.DelegationIsBacked` | src/recursive.rs:399-457 | a referral is followed exactly when a server it names has an address; the delegation then has all its servers, all their glue up to case or, without any, all their unexpired cached addresses |
| `Recursive.DelegationExpires` | src/recursive.rs:402-457 | a delegation is kept for the least TTL of its NS records, or an hour if that is less |
| `Recursive.StartIsFresh` | src/recursive.rs:132-148 | a resolution starts at the unexpired servers of the parent zone, else at the roots, and only an expired entry of that zone is dropped |
| `Recursive.ParentOfName` | src/recursive.rs:135-135 | the parent zone is the name after its first dot, or the root |
| `Recursive.NormalizedName` | src/recursive.rs:128-129 | the name resolved is the queried one without capitals and without its trailing dots |
| `Recursive.RelayedIsSentOn` | src/recursive.rs:184-198 | a reply is sent on with all its sections, the client's ID, AA clear, RA set and every other bit as it came |
| `Recursive.ServersNeverRunOut` | src/recursive.rs:154-240 | with root servers configured, and other resolutions doing likewise, every round has a server to ask and every cached delegation keeps one |
| `Recursive.TurnFacts` | src/recursive.rs:168-239 | one round keeps the zone shallow, returns only packets for this client, and returns NOERROR or NXDOMAIN only for the full name |
| `Recursive.RoundsAreSound` | src/recursive.rs:154-240 | over any replies there are at most 20 rounds, each name sent is a label suffix of at most two labels, the result has the client's ID, RA set and AA clear, and NOERROR or NXDOMAIN means the full name was asked last |
| `Recursive.ResolutionIsSound` | src/recursive.rs:128-240 | the same from any cached delegations, whatever other resolutions do to them between rounds; a name of three labels or more is never sent in full nor answered definitely |
| `Recursive.ResolutionIsTraced` | src/recursive.rs:128-240 | over every world a resolution is at most 20 rounds, each from the servers the last one referred to or from the roots; the first reply that is final, namely answers, NXDOMAIN or NODATA for the full name, or any other rcode, is what the client gets, and else it is SERVFAIL to its question |
| `Recursive.TwoLabelsResolve` | src/recursive.rs:128-240 | a name of at most two labels is answered by servers that refer and answer, whatever other resolutions do: the client gets that answer with all its records |
| `Recursive.DefiniteIffTwoLabels` | src/recursive.rs:115-240 | some world gives NOERROR or NXDOMAIN exactly when the name has at most two labels |
| `Recursive.RecursiveResolver.Resolve` | src/recursive.rs:115-240 | the rounds are such a sequence; the bytes are those of the last reply with all its records when it is final, else of the SERVFAIL, and there are none exactly when that reply panics the parser; they carry the client's ID, RA set and AA clear, and no definite rcode from three labels on; every cached delegation keeps a server |
| `Recursive.RecursiveResolver.Iterate` | src/recursive.rs:134-240 | the loop over servers, zone and the shared delegation cache agrees with the recursive specification |
| `Server.EncodeCarriesId` | src/state.rs:581-586 | an encoded response starts with its packet's ID on both transports, truncated or not |
| `Server.EncodeKeepsRa` | src/state.rs:581-586 | the RA bit of the bytes sent is that of the packet, truncated or not |
| `Server.RaClearExample` | src/state.rs:392-436 | with one rule for another name, no default and no resolver, a recursive query is answered with the flags 0x8103: NXDOMAIN with RA clear |
| `Server.RouteDecides` | src/state.rs:405-436 | where a name goes: the best rule, then the default, then the resolver; nowhere exactly when there is none of these |
| `Server.ReplayCarriesId` | src/state.rs:606-628 | a replayed message of two bytes or more that does not panic the parser starts with the asking client's ID, whatever was stored |
| `Server.InsertKeepsParsed` | src/state.rs:532-541 | forwarding's inserts keep every cached response one that parses, whatever is evicted |
| `Server.SynthIsMadeUp` | src/state.rs:556-577 | a made-up response has the client's ID, questions and RD, QR and RA set, the given rcode, no other flag and no records |
| `Server.SynthNeverOverruns` | src/state.rs:556-577 | a made-up response never panics the parser |
| `Server.RelayCarriesId` | src/state.rs:466-505 | leader and follower alike give their own client its own ID back, on the SERVFAIL path too |
| `Server.TcpRelayIsShared` | src/state.rs:466-505 | over TCP leader and follower give their client the shared bytes with its own ID in the first two, or the SERVFAIL made up for it |
| `Server.UdpRelayIsRead` | src/state.rs:466-505 | over UDP the client reads the shared answer whole, or above its own limit without answers and with TC set |
| `Server.UdpRelayFails` | src/state.rs:494-503 | without a shared answer the client reads a SERVFAIL to its own questions |
| `Server.UnparsedIsRelayed` | src/state.rs:619-625 | bytes that cannot be parsed are relayed as they are, but for the ID |
| `Server.ServerState.ResolveLocal` | src/state.rs:335-444 | a query is counted in the total and under one outcome, unless it panics the parser, exactly when a record of it overruns, or is forwarded; it is dropped exactly when limited or unparsable; a blocked name gets a made-up NXDOMAIN; recursion on a name no zone has is answered from the cache, else forwarded to the best matching rule's upstream, else to the default, else to the resolver, and only without any of these answered locally; a local answer is the one of the best matching zone, with AA, SOA, RA and OPT as specified, whole within the client's limit; a reply has the client's ID; no live cache entry is lost |
| `Server.ServerState.Serve` | src/state.rs:378-443 | the part after the blocklist: which of cache, rule, default, resolver and local answer it is, what that answer holds, and that only the matching counter moves |
| `Server.ServerState.ForwardAndCache` | src/state.rs:512-552 | forwarded is counted, a failure as an error too; a reply whose records overrun panics the parser, any other passes unchanged; only a reply that parses is cached, for its own cache time; what is returned can always be replayed |

## Left out

- Names with non-ASCII bytes: replacement of invalid UTF-8 and Unicode lower-casing are not modelled; bytes stay as they are.
- RoundTrip.PacketRoundTrip: asks for names of labels of 1 to 63 bytes and tags of at most 255, which `ReadBack.ReadBackExactly` shows to be needed, and for record data and section sizes that fit 16 bits, beyond which the lengths wrap.
- ReadBack.ReadBackExactly: asks that section counts and record data, with names written out, fit 16 bits; a longer last record can still be read back.
- Replay.UdpReplayKeepsMeaning: asks for the same sizes and for room for one more additional record; pointers can make a stored message expand beyond them.
- RateLimiter.SlidingBound: asks for fewer than 2^32 queries of one client per window, because the 32-bit counter wraps in release builds (a debug build stops); it is proved one way, and `RateLimiter.WrapBreaksTheBounds` shows that the condition is needed.
- Replay.AlignInPlace: works on packet values, so sharing of the packet between callers is not captured.
- Zones.SortIsStable: the library sort is modelled as stable insertion on values, not in place on the vector.
- SingleFlight.StepBalances: counters are unbounded, so 64-bit wrap-around of a counter is not modelled; the runs have no zone transfers, which can count a request in the total alone.
- Recursive.RecursiveResolver.Resolve: the semaphore and the order in which servers of one list are tried are not modelled; a round gets one parsed reply, a failure or a panic for the list.
- Server.ServerState.ResolveLocal: runs without DNSSEC signing and DNS64 synthesis, which can replace the answers of a local answer, drop its authorities and clear its rcode.
- Server.ServerState.Serve: the same, being the second half of it.
- Cache eviction under concurrent inserts: map operations are atomic steps of one sequence, so several inserts racing past the size check are not modelled.
- Locks, shards of the concurrent maps, cache-line padding and thread pinning.
- DNSSEC signing and key tags, AXFR transfers and their access list, DNS64.
- Sockets, timeouts, TCP fallback and ID matching of upstream queries; DoH, DoQ and TLS front ends.
- The table of forwarders per upstream address.
- Settings, zone files, blocklist files and their reload; Prometheus and log output.
