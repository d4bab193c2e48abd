# C++ terminal chat: a Dafny model

A chat server, a terminal client, a wire protocol between them, an SQLite store and a hand-written
SHA-256. The project models these five parts and proves what they promise together: bytes survive
any way TCP cuts them, records round-trip, passwords are checked against the digest of the FIPS
180-4 standard, and every interleaving of the server's threads keeps the registry, the rooms and the
private messages in order.

`dafny verify dfyconfig.toml` checks everything.

| files | part |
|---|---|
| `Seqs`, `Bytes`, `Text` | sequences, big-endian integers, `trim`, `find`, string order, C strings |
| `Framing`, `Transport` | `extract_frames`; `send_all`, `send_frame`, `read_next_frame` |
| `Codec`, `Messages` | laws of binary codecs; the records of `protocol.cpp` as they are written and read |
| `Fips180`, `Sha256` | the standard, recursively; `sha256_hex` with its loops and arrays, and facts about the rounds, the padding and the hexadecimal text |
| `Constants`, `KnownAnswer` | the constants as roots of primes, the logical functions bit by bit; the digest of "abc", step by step |
| `Names`, `Requests`, `NameSet` | user names, room names, direct-message keys; request payloads; `std::set<std::string>` |
| `Store` | `ChatDatabase` over two row sequences |
| `Registry`, `RoomListing` | the `clients` vector, block by block; `build_room_list` |
| `Server` | `handle_client` and its handlers as interleaved threads |
| `Invariant`, `Reachable` | what holds in every reachable state, and the proof over all runs |
| `Admission`, `Guarantees` | who is in the chat; the registry, the list of rooms, routing |
| `Privacy`, `Replays` | what a history reply may contain, when it is sent and that it arrives; what is kept was broadcast |
| `Sending`, `Delivery`, `Parties` | which sends arrive; the recipients of chat messages, direct messages and member lists, and the sizes at which they get them; whose direct messages a connection gets |
| `Serving`, `Exchanges` | from each kind of frame to what every connection is sent, what is kept and what the registry says |
| `Presence`, `Observers` | the joined/left notes against the member list |
| `ClientView` | `receive_messages`, and the client's view against the server's registry |
| `Runs` | complete runs of two threads, each an example of what goes wrong |

## How the code is modelled

- `std::string` and byte vectors are Dafny strings; a byte is a character below 256 (`IsBytes`).
  Shifts and masks of the codecs are arithmetic on unbounded integers with the wrap-around written
  out; SHA-256 works on `bv32`.
- Loops that update variables are methods with loop invariants, specified by functions; objects that
  are updated in place are classes (`Socket`, `Connection`, `Clients`, `ChatDatabase`, `Client`).
- `send` and `recv` follow scripts that may hand over any positive number of bytes, or fail.
- In `Server` a thread holds the list of atomic blocks that its handler still has to run: one for each
  block under `clients_mutex`, each database call and each `send_frame`. Any thread may run its next
  block at any time; a database call may fail (`ok`). `current_room = new_room` and `set_room` are one
  block, since the local is visible to its own thread alone.
- Connection ids are not reused. The code has less: a descriptor is closed after its entry is erased,
  and the system may hand it out again while another thread still holds it in a snapshot or between
  `find_client_by_username` and `send_frame`. What is said about the recipients of broadcasts and direct
  messages (`BroadcastArrives`, `DirectArrives`, `DirectsAreOwn`) rests on this.
- `Env` carries the digest and the record printers, so that the invariant does not depend on them;
  `Deployed()` is the instance with `sha256_hex` and the encoders of `protocol.cpp`, and has what the
  theorems ask of an `Env` (`DeployedPrints`, `DeployedPrintsAll`, `PrintedListsSized`; for the digest, `Sha`).
- Salts, clock values and incoming frames are parameters of a step. Frames may hold any bytes, NUL
  among them; SQLite is given C strings, so the database sees names, rooms, keys and texts cut at their
  first NUL (`CStr`), while the registry, broadcasts and comparisons use them whole.
- `stamps`, `clock`, `aired`, `routed` and `asked` in `Shared` only record history: when a client
  entered, for which chat messages the recipients of a broadcast were taken, which direct messages were
  routed, and who asked for the direct messages with whom. No code reads them.
- The SQL queries are read as sorting, filtering and cutting of the row sequence; row ids count up.

## What the code does where one might expect otherwise

- `read_next_frame` throws away frames that complete in the same call as a later oversized header, so
  whether a frame is delivered can depend on where TCP cut the stream (`ChunkingCanLoseAFrame`; exact
  condition on the cuts in `AllHandedOutIff`). The client's receive loop does the same.
- A chat message, direct message, member list or notice can be accepted and make a frame of more than
  64 KiB. `send_frame` refuses that, the refusal is ignored, and nobody is told. A chat message is then
  kept and sent to nobody (`LongChatIsRefused`, and in a run `LongMessageReachesNobody`), a direct message
  is kept and sent to neither side (`LongDirectIsRefused`), an unknown target is not reported
  (`LongTargetIsNotReported`), and a list of 3000 long names is not sent (`LongListIsRefused`). Exact
  sizes: `ChatArrives`, `DirectArrives`, `NotFoundArrives`, `WhoArrives`, `RoomsArrive`. A text with a NUL can be kept as
  its first two letters and replayed later although nobody was sent it (`CutChatIsRefused`; it is the only
  such case, `ReplayWasBroadcast`).
- The same for a history (`FullReplayCanBeRefused`; exact size in `ReplaySentIff`).
- A history request whose text has a NUL and comes before the requester's name is answered with what the
  database keeps under the key up to the NUL. If what is before the NUL is another account's name, or two
  in order with a colon between, that is what is kept for others: the messages of two others
  (`CutNameReadsOthers`), of one other to itself (`CutNameReadsSelf`), or of a session of one other under a
  name with a NUL (`CutNameReadsSession`). Otherwise it never is (`OthersAnswerIff`).
- Logging in does not check the name, only the account that the database takes it for: `bob`, a NUL and
  anything behind it is a session of `bob` under another name (`LoginIgnoresTail`). So a name in the chat is
  valid exactly if it has no NUL (`ChattersNamed`), the client of such a session may never be told its
  name (`UnannouncedName`), and observers miss it (`CutNameIsMissed`).
- `sanitize_room` is not idempotent: the cut at 32 characters can leave a trailing space
  (`SanitizeNotIdempotent`; exact condition in `SanitizeIdempotentIff`).
- A number too large for an `int` in a history request counts as 50, not as 200 (`LimitOfDecimal`).
- `list_rooms` does not filter: the list of rooms also names the keys of stored direct messages
  (`KeyIsListed`; exact condition in `KeyListedIff`).
- When two handlers overlap, a note can announce a change that an observer's member list already shows
  (`OverlapMiscounts`).

## Model

| member | source | states |
|---|---|---|
| Framing.ExtractFrames | protocol.cpp:33-58 | The loop over `offset` appends the frames of the buffer in order, keeps the unconsumed bytes, and on an oversized header fails with the buffer as it was and the frames before the header already appended |
| Framing.FrameLaidOut | protocol.cpp:23-31 | A frame is four bytes with the length, highest first, and the payload |
| Framing.SplitReframes | protocol.cpp:33-58 | Re-framing what came out, followed by what is left, reproduces the input bytes; every frame is within the cap; what is left does not start with a complete frame; the call fails exactly if it starts with an oversized header |
| Framing.SplitUnique | protocol.cpp:33-58 | Any cutting of a stream into sendable frames and a remainder without a complete frame is the one found |
| Framing.SplitAppend | protocol.cpp:33-58 | Splitting a prefix, then its residue with more bytes, equals splitting the whole |
| Framing.ChunkingIrrelevant | protocol.cpp:33-58 | Any way of cutting a stream into chunks gives the same frames and verdict as one call, and on acceptance the same residue |
| Framing.ExtractChunks | chat_client.cpp:257-263 | The accumulating loop over chunks ends with the verdict, frames and residue of the whole stream |
| Framing.ResidueBound | protocol.cpp:36-56 | After a successful call at most 65539 bytes are left |
| Transport.Socket.SendAll | protocol.cpp:6-21 | Through partial writes, success means the data went out whole; failure means a proper prefix of it did |
| Transport.Socket.SendFrame | protocol.cpp:23-31 | A payload over the cap is refused with nothing sent; otherwise the frame goes out whole or the connection failed inside it |
| Transport.StreamAppend | protocol.cpp:23-31 | Frames sent one after the other put the stream of all of them on the wire |
| Transport.Connection.constructor | chat_server.cpp:345-347 | A new connection has empty buffers, and everything its chunks will yield is upcoming |
| Transport.Connection.Recv | chat_server.cpp:173-176 | One `recv`: the next chunk of at most 4096 bytes, or the end |
| Transport.Connection.Fill | chat_server.cpp:172-183 | One refill changes nothing about the frames still to be handed out; it fails only if there are none; the buffer never exceeds 65539 + 4096 bytes |
| Transport.Connection.ReadNextFrame | chat_server.cpp:169-187 | Each call hands out the next upcoming frame, exactly once and in order, and fails exactly if there is none; the buffer bound holds over any run |
| Transport.NothingElseLost | chat_server.cpp:172-183 | Every frame of the stream is handed out, or is among the last ones, thrown away by the failing call |
| Transport.AllHandedOutIff | chat_server.cpp:178-183 | A reader gets every frame of a stream exactly if no header in it is oversized, or no frame comes before that header, or some chunk ends between the last frame and the end of that header |
| Transport.ChunkingCanLoseAFrame | chat_server.cpp:178-181 | Two cuttings of the same bytes, one of which loses a complete frame |
| Transport.EndToEnd | chat_server.cpp:346-378 | Payloads framed onto a wire and cut into any chunks come out of successive reads exactly once, in order and unchanged, over login and chat loop alike |
| Codec.TruncationRejected | protocol.cpp:80-122 | No strict prefix of an encoding decodes |
| Codec.ComesBackIff | protocol.cpp:146-276 | A value comes back from its encoding, with any bytes behind it, exactly if it fits its length prefixes |
| Codec.PrefixFree | protocol.cpp:146-276 | No encoding is a proper prefix of another, and encodings are injective |
| Bytes.BigEndianAt | protocol.cpp:62-78 | Byte `i` of `n` holds what the bytes behind it leave of the number, modulo 256 |
| Codec.UintLawful | protocol.cpp:62-122 | Big-endian integers of every width round-trip, are canonical and need all their bytes |
| Codec.SizedLawful | protocol.cpp:80-98 | The same for length-prefixed text |
| Codec.StampLawful | protocol.cpp:112-122 | 64-bit timestamps round-trip over all of int64, are canonical and need all their bytes |
| Codec.StampIsTwosComplement | protocol.cpp:152 | A timestamp is eight bytes with its value, or 2^64 plus it if it is negative |
| Codec.PairLawful | protocol.cpp:165-171 | The same for records read field after field |
| Codec.ListLawful | protocol.cpp:178-215 | The same for lists behind a 16-bit count |
| Messages.MessageRoundTrip | protocol.cpp:125-140 | Type byte and payload survive a frame; only the empty frame is malformed; every decoded frame re-encodes to its bytes |
| Messages.TypeByte | protocol.hpp:40-58 | The seventeen types are numbered from one in their order; a typed frame is that byte and the payload |
| Messages.RecordsLaidOut | protocol.cpp:146-156 | Which bytes of a chat and of a direct message hold the two names, the timestamp in two's complement and the text, and their lengths |
| Messages.ListLaidOut | protocol.cpp:178-185 | The records of a list stand behind the count in order, with nothing between them |
| Messages.RecordsLawful | protocol.cpp:146-276 | Chat, direct, history and user-list records round-trip with any bytes behind them, are canonical, and do not read past their end |
| Messages.HistoryComesBackIff | protocol.cpp:178-215 | A history comes back exactly if it has fewer than 65536 messages whose names and texts fit their prefixes |
| Messages.RecordComesBackIff | protocol.cpp:146-247 | Chat and direct messages come back exactly if their names and texts fit, over all timestamps |
| Messages.UsersComeBackIff | protocol.cpp:249-276 | User lists come back exactly if count and names fit |
| Messages.HistoryIsExact | protocol.cpp:187-215 | Every strict prefix of a history is rejected; bytes that decode are the encoding of the result and the rest |
| Messages.AppendU16 | protocol.cpp:62-65 | Pushing high byte, then low byte, appends the big-endian form |
| Messages.AppendWide | protocol.cpp:67-78 | Pushing the bytes from the highest shift down appends the big-endian form, for every width |
| Messages.TakeBytes | protocol.cpp:80-87 | Succeeds exactly if enough bytes are left; then takes them and advances; otherwise leaves the offset |
| Messages.TakeUint | protocol.cpp:89-122 | Shifting in byte after byte gives the big-endian value; fails exactly if too few bytes are left |
| Messages.EncodeChatMessage | protocol.cpp:146-156 | The pushes produce the record whose layout and laws are proved |
| Messages.DecodeChatMessage | protocol.cpp:158-176 | The takes accept exactly what the codec reads, with its value |
| Messages.EncodeHistory | protocol.cpp:178-185 | Count and records, with the count cast to 16 bits |
| Messages.DecodeHistory | protocol.cpp:187-215 | The loop of takes accepts exactly what the codec reads, with its value |
| Messages.EncodeDirectMessage | protocol.cpp:217-227 | The pushes produce the record whose layout and laws are proved |
| Messages.DecodeDirectMessage | protocol.cpp:229-247 | The takes accept exactly what the codec reads, with its value |
| Messages.EncodeUserList | protocol.cpp:249-257 | Count and names, as the codec prints them |
| Messages.DecodeUserList | protocol.cpp:259-276 | The loop of takes accepts exactly what the codec reads, with its value |
| Constants.PrimesAreAll | sha256.cpp:9-17 | The list of 64 numbers that the constants are compared with is in order, and has exactly the primes up to 311 |
| Constants.RoundConstants | sha256.cpp:9-17 | Round constant `t` holds the first 32 bits of the fractional part of the cube root of the prime in place `t` |
| Constants.InitialValue | sha256.cpp:19-21 | The initial words hold those of the square roots of the first eight primes |
| Constants.ChChooses | sha256.cpp:67 | Each bit comes from the second or the third word, as the first says |
| Constants.MajAgrees | sha256.cpp:70 | Each bit is one that two of the three words have |
| Constants.BigSigma0Bits | sha256.cpp:69 | Each bit is the exclusive or of the bits 2, 13 and 22 places further, around the word |
| Constants.BigSigma1Bits | sha256.cpp:66 | The same for 6, 11 and 25 places |
| Constants.SmallSigma0Bits | sha256.cpp:57 | The same for 7 and 18 places around the word, and 3 places if there are so many |
| Constants.SmallSigma1Bits | sha256.cpp:58 | The same for 17, 19 and 10 places |
| KnownAnswer.DigestOfAbc | tests/protocol_tests.cpp:51-52 | The digest of "abc" is the one the tests promise, computed through its 64 schedule words and 64 rounds |
| Sha256.Pad | sha256.cpp:30-41 | The push loops build the padding of FIPS 180-4 section 5.1.1 |
| Sha256.LoadWords | sha256.cpp:50-55 | The first sixteen words are the big-endian words of the block |
| Sha256.ExtendWords | sha256.cpp:56-60 | The array holds the message schedule of section 6.2.2 |
| Sha256.CompressBlock | sha256.cpp:62-89 | Rotating eight variables 64 times and feeding forward is the compression of section 6.2.2, with the constants and functions described above |
| Sha256.AppendHex | sha256.cpp:95-99 | One word in eight lower-case hex digits, highest first |
| Sha256.AbsorbAll | sha256.cpp:48-90 | The loop over blocks folds the compression over the padded message |
| Sha256.Sha256Hex | sha256.cpp:29-101 | The whole function returns the hex of the recursive digest of the standard, for every input |
| Sha256.HexDigest | sha256.cpp:92-100 | The result is always 64 lower-case hex digits |
| Sha256.HexAt | sha256.cpp:94-99 | Character `8 * j + i` spells the `i`th four bits, from the top, of word `j` |
| Sha256.DigitValue | sha256.cpp:92 | A digit shows its value |
| Sha256.RotrRotates | sha256.cpp:23-25 | The two shifts are a right rotation, for every amount the rounds and the schedule use |
| Sha256.RoundUndone | sha256.cpp:65-80 | An inverse round gives the state before a round back |
| Sha256.UnroundRedone | sha256.cpp:65-80 | A round gives the state before an inverse round back |
| Sha256.RoundsArePermutation | sha256.cpp:62-80 | For any constants and schedule, any number of rounds is a permutation of the eight-word state |
| Sha256.PaddedEnds | sha256.cpp:32-41 | A padded message is the message, the byte 0x80, the fewest zeros, and the bit length |
| Sha256.OctetAt | sha256.cpp:39-41 | The length is written with its highest byte first |
| Sha256.PaddingSuffixFree | sha256.cpp:32-41 | Below 2^61 bytes, one padded message is never a suffix of another's: padding is injective |
| Fips180.ZeroCount | sha256.cpp:36-38 | The number of zero bytes pushed is the least that leaves 56 modulo 64, and below 64 |
| Text.TrimIs | chat_server.cpp:72-79 | Trimming gives the one text that starts and ends with no blank and has only blanks around it |
| Text.TrimReads | chat_server.cpp:73-78 | The blanks are spaces, tabs, returns and newlines |
| Text.TrimText | chat_server.cpp:72-79 | The two scans compute it |
| Text.LessTotal | chat_server.cpp:153 | The order of names is total and strict |
| Text.LessIff | chat_server.cpp:153 | A name comes before another if it is a proper prefix of it, or is smaller at the first difference |
| Names.CheckUsername | chat_server.cpp:81-92 | The loop accepts exactly 3 to 20 letters, digits, `_` or `-` |
| Names.Sanitize | chat_server.cpp:94-106 | Trim, cut and replacing in place compute the sanitized name |
| Names.SanitizedAt | chat_server.cpp:95-104 | The first 32 characters of the trimmed name, letters, digits, `_`, `-` and spaces as they are, and `_` for anything else |
| Names.SanitizedIsChatRoom | chat_server.cpp:94-106 | A sanitized name is empty, or 1 to 32 letters, digits, `_`, `-` or spaces |
| Names.SanitizeIdempotentIff | chat_server.cpp:95-98 | Sanitizing twice is sanitizing once, except exactly if the name was cut and its 32nd character is a space |
| Names.SanitizeNotIdempotent | chat_server.cpp:96-98 | Some name changes when sanitized again |
| Names.DmKeySymmetric | chat_server.cpp:150-154 | Both sides of a conversation use one key |
| Names.DmKeyIs | chat_server.cpp:153 | The key is `dm:`, the smaller name, a colon and the larger one |
| Names.DmKeyDetermines | chat_server.cpp:152-154 | The key of two accounts equals the key of an account and any text only if the two are that account and that text |
| Names.DmKeyIsNoRoom | chat_server.cpp:94-106 | No room that can be joined is the key of a conversation |
| Names.ClientReadsKey | chat_client.cpp:159-166 | The client's split recovers the two names of a key, and shows each of them the other |
| Names.RoomNotTakenForKey | chat_client.cpp:159 | The client takes no chat room for a conversation |
| Requests.Limit | chat_server.cpp:280-293 | Whatever the text, between 1 and 200 messages are asked for |
| Requests.StoiOfDecimal | chat_server.cpp:283 | A printed number is read back exactly if it is an int |
| Requests.StoiReads | chat_server.cpp:283 | White space, a sign and digits are read up to the first character that is no digit, if the number is an int |
| Requests.StoiRefuses | chat_server.cpp:283 | Without a digit there is no number |
| Requests.LimitOfDecimal | chat_server.cpp:280-293 | `/history N` asks for N clamped to 1..200; a number that is no int counts as 50 |
| Requests.HistoryRequestIs | chat_server.cpp:263-294 | `/history` asks for 50, `/history N` for N clamped to 1..200, `/history -N` for 1; what is no int for 50 |
| Requests.CredentialsRoundTrip | chat_client.cpp:408 | Name and password are read back as typed, whatever the password contains |
| Requests.DirectRoundTrip | chat_client.cpp:513-523 | A line accepted as `/msg user text` reaches the server as that user and that text |
| Requests.DmHistoryRoundTrip | chat_client.cpp:530-537 | `/dmhistory user [N]` asks for the conversation with that user |
| NameSet.SetOfSorted | chat_server.cpp:327-330 | A set of names has each once, in order, and exactly the names given |
| NameSet.SortedUnique | chat_server.cpp:327-330 | A sorted set is determined by its elements |
| Store.HashSplits | chat_db.cpp:155-161 | Splitting at the first `$` recovers the salt and the digest that were written |
| Store.AuthenticatesIff | chat_db.cpp:98-171 | After any sequence of operations a login succeeds exactly if the account was registered and the password's salted digest equals that of its first registration |
| Store.RegistersOnce | chat_db.cpp:98-130 | A registration succeeds exactly if it is the first under its name; any later one changes nothing |
| Store.NewestOldestFirst | chat_db.cpp:202-210 | Any rows sorted descending, cut and sorted ascending again are the last rows in ascending order |
| Store.QueryIsLast | chat_db.cpp:202-210 | The nested query returns the last min(limit, n) rows by timestamp and id, for any timestamps |
| Store.RecentAreNewest | chat_db.cpp:202-210 | The rows returned are in order of timestamp, and of id among equal ones; every other row of the room has an earlier timestamp than each of them, or the same and a smaller id; for any clocks |
| Store.RecentIsLastAdded | chat_db.cpp:194-232 | If timestamps do not decrease, these are the rows added last |
| Store.RecentIsStored | chat_db.cpp:194-232 | Every message returned is a stored one of the room asked for, and at most `limit` are returned |
| Store.LoginIgnoresTail | chat_db.cpp:146-171 | A name, a NUL and anything behind it logs in exactly when the name does |
| Store.ChatDatabase.constructor | chat_db.cpp:47 | A database starts closed and empty |
| Store.ChatDatabase.RegisterAccount | chat_db.cpp:98-130 | Adds one row, or none if the name is taken or the database is closed, with the error the caller is told |
| Store.ChatDatabase.Authenticate | chat_db.cpp:132-171 | Decides as the specification, and changes nothing |
| Store.ChatDatabase.Add | chat_db.cpp:173-192 | Appends one row with the next id, or nothing if the database is closed |
| Store.ChatDatabase.GetRecentMessages | chat_db.cpp:194-232 | Returns the last min(limit, n) messages of the room by timestamp and id, oldest first; nothing if the database is closed |
| Store.ChatDatabase.ListRoomNames | chat_db.cpp:234-256 | The step loop returns, sorted and each once, exactly the stored rooms that fewer than `limit` other stored rooms come before; nothing if the database is closed |
| Store.ListRoomsIff | chat_db.cpp:241 | DISTINCT, ORDER BY and LIMIT select a stored room exactly if fewer than `limit` different ones come before it |
| Store.FetchAll | chat_db.cpp:219-231 | The step loop copies every row, in order |
| Registry.WithRoomAt | chat_server.cpp:130-138 | `set_room` changes the room of one socket's entry and nothing else |
| Registry.RecipientIs | chat_server.cpp:115-124 | The snapshot holds exactly the members of the room, but not the excluded socket |
| Registry.RecipientsDistinct | chat_server.cpp:115-124 | No socket is in the snapshot twice |
| Registry.FindUserFirst | chat_server.cpp:140-148 | The first entry of that name is found, and nothing only if there is none |
| Registry.WithoutKeeps | chat_server.cpp:453-458 | Erasing removes the entries of one socket and keeps all others |
| Registry.UsersInAt | chat_server.cpp:156-165 | There is one name for each entry of the room, in the order of the entries |
| Registry.RoomListIs | chat_server.cpp:326-338 | Each listed room once, in order; exactly the known rooms and those with clients; the numbers online add up to the clients |
| Registry.Clients.PushBack | chat_server.cpp:365 | The new entry goes to the end |
| Registry.Clients.SetRoom | chat_server.cpp:130-138 | The loop updates the entry of the socket, as specified |
| Registry.Clients.FindClientByUsername | chat_server.cpp:140-148 | The loop finds the first entry of the name |
| Registry.Clients.UsersInRoom | chat_server.cpp:156-165 | The loop collects the names in the room, in registry order |
| Registry.Clients.SnapshotRecipients | chat_server.cpp:116-124 | The loop collects the recipients |
| Registry.Clients.Remove | chat_server.cpp:453-458 | The loop erases the entries of the socket, as specified |
| Registry.Clients.CountOnline | chat_server.cpp:318-324 | The map counts, for every room, its members, and its keys are the rooms with members |
| RoomListing.BuildRoomList | chat_server.cpp:317-340 | The loops build the text that `ListingSpells` reads |
| RoomListing.ListingSpells | chat_server.cpp:332-339 | The text is the heading and, for each listed room in order, one line with its name and digits that read as the number of its entries; nothing else |
| RoomListing.ListingIsComplete | chat_server.cpp:317-340 | The rooms listed are, each once and in order, exactly those with clients and the stored ones that fewer than 200 other stored rooms come before; the numbers add up to the clients connected |
| Invariant.BlockThreadOk | chat_server.cpp:345-463 | Running any block leaves its thread with blocks that its phase allows and messages its account may receive |
| Invariant.BlockRegistryOk | chat_server.cpp:362-459 | Running any block keeps one registry entry for each chatting thread, agreeing with the thread's locals, and none for any other |
| Invariant.BlockDbOk | chat_server.cpp:235-434 | Running any block keeps in the database only accounts with valid names, messages said in rooms, and rows of direct messages that were routed |
| Invariant.LoginIsValid | chat_server.cpp:241-251 | Whoever logs in, under whatever name, has the account that the database takes the name for, and that account's name is valid |
| Invariant.RegistryMove | chat_server.cpp:310-311 | Changing `current_room` and the entry together keeps them in agreement |
| Reachable.FrameHandled | chat_server.cpp:376-449 | Whatever a chatting thread reads, of any type and content, the blocks it gets are allowed and safe; what comes of each kind of frame is said in `Exchanges` |
| Reachable.AuthHandled | chat_server.cpp:197-252 | Before the login the same holds for every frame, of any content |
| Reachable.TodoAfter | chat_server.cpp:345-463 | A block changes what its own thread has left to do, and nobody else's |
| Reachable.StepKeeps | chat_server.cpp:345-463 | Every step of every thread keeps the invariant |
| Reachable.AlwaysInv | chat_server.cpp:345-463 | The invariant holds after every run of any number of interleaved threads |
| Privacy.HistoryIsPrivate | chat_server.cpp:254-295 | Every history frame that any connection ever receives decodes to stored messages that were all said in one chat room, or are all kept under the key of its own name and a text asked for; unless such a text cuts the key short, the latter are direct messages of its own account |
| Privacy.AnswerFitsRequest | chat_server.cpp:263-295 | For every request and in whatever state its query runs: `@t` gets the rows under the key of requester and `t`; unless `t` has a NUL and comes before the requester's name, these are direct messages of the requester's account, and, if the requester's name has no NUL or comes second, with `t`; anything else gets only what was said in the requester's room |
| Privacy.OthersAnswerIff | chat_server.cpp:152-154 | In every database the request of an account for a text is answered with what is kept for some pair of names, logged in or not, of other accounts, exactly if the text comes before the requester's name and has a NUL, and what is before the NUL is a valid other name, or two valid other names in order with a colon between; the two names may be the same |
| Privacy.CutNameReadsOthers | chat_server.cpp:270-276 | A request of a third account that is always answered with the direct messages of two others |
| Privacy.CutNameReadsSelf | chat_server.cpp:270-276 | One that is always answered with what one other account sent to itself |
| Privacy.CutNameReadsSession | chat_server.cpp:270-276 | One that is always answered with the messages of another account's session under a name with a NUL |
| Names.StoredKeyDetermines | chat_db.cpp:216 | Keys that the database takes for equal belong to one pair of accounts, or share the requester's account, unless the key is cut inside the text asked for |
| Names.OthersKeyIff | chat_db.cpp:216 | For any two names, with or without a NUL, that are not of the requester's account, the database takes the key of the request for theirs exactly if the text comes before the requester's name, has a NUL, and is up to it the body of their key as the database sees it |
| Privacy.JoinReplaysRoom | chat_server.cpp:297-315 | A join replays only what was said in the room that is joined |
| Replays.ReplayIsExact | chat_server.cpp:254-261 | In every reachable state the reply to a history query decodes to exactly the messages the database returned |
| Replays.ReplayArrives | chat_server.cpp:254-261 | In every run, whatever the other threads do meanwhile, a thread's history query is followed on its own connection by the reply with the messages of that moment, unless the reply is too large to send |
| Guarantees.RegistryIsExact | chat_server.cpp:362-459 | In every reachable state each socket occurs at most once; it occurs exactly from `push_back` to `erase`; its entry holds its thread's username and room; the account exists; and on this connection an attempt under this name has gone through |
| Guarantees.ChattersNamed | chat_server.cpp:241-251 | In every reachable state the name of whoever is in the chat is a valid one exactly if it has no NUL |
| Admission.ChattersWereAdmitted | chat_server.cpp:345-366 | Whoever is in the chat under a name has, at an earlier step of the run and on the same connection, logged in or registered under it with the database agreeing |
| Admission.LoginNeedsPassword | chat_server.cpp:241-246 | In every reachable state a login goes through exactly if the database call works and the password has the digest of the first registration, among the operations that made the database |
| Admission.AlwaysPerformed | chat_server.cpp:235-428 | In every reachable state the database is what some sequence of registrations and stored messages leaves |
| Guarantees.ListedRoomIs | chat_server.cpp:326-338 | Every listed room is a chat room or the key of a routed direct message |
| Guarantees.KeyListedIff | chat_server.cpp:326-338 | In every reachable state the key of two names is listed exactly if a message is kept under it and fewer than 200 stored rooms come before it |
| Runs.KeyIsListed | chat_server.cpp:410-434 | A run of two threads after which a key is listed |
| Guarantees.RoutedToOldest | chat_server.cpp:140-148 | In every reachable state a direct message goes to the longest-connected live session under its target's name, and is refused only if there is none |
| Replays.AlwaysAired | chat_server.cpp:387-399 | In every reachable state each message kept for a room is what the database keeps of one whose broadcast was started, or is started by the next block of the thread that stored it |
| Replays.KeptWasHeard | chat_server.cpp:387-399 | In every reachable state each message kept for a room was broadcast, or is about to be, in a frame within the cap; or its record, type byte included, exceeds the cap |
| Replays.ReplayWasBroadcast | chat_server.cpp:254-261 | Each room message decoded from a replay is, up to the database's cut at a NUL, one that was broadcast, or is about to be, in a frame within the cap; or it is the part before a NUL of one that was too long to send |
| Replays.ReplaySentIff | protocol.cpp:23-26 | A replay is sent exactly if three bytes and the sizes of its records, 16 bytes more than their texts, are within 64 KiB; the answer that there is none exactly if the room is short enough by 35 bytes |
| Replays.ChatSentIff | protocol.cpp:23-26 | A chat message is sent exactly if room, name, text and 17 bytes are within 64 KiB |
| Replays.FullReplayCanBeRefused | protocol.cpp:23-26 | A replay of 200 rows of ordinary size that is refused |
| Replays.DefaultReplayIsSent | chat_server.cpp:371 | A replay of 50 rows with room up to 44, name up to 20 and text up to 512 bytes fits a frame |
| Sending.SendArrives | protocol.cpp:23-31 | In every run, whatever the other threads do: once a thread has nothing left to do, each frame that it had ahead of it is in the outbox it goes to exactly if it is within the cap, unless that connection is closed |
| Delivery.CredentialsAreTried | chat_server.cpp:216-243 | The client's login frame makes the server try exactly that name and password; a registration with an invalid name or a short password never reaches the database |
| Delivery.OnlyLoginsBefore | chat_server.cpp:205-251 | Before the login every frame leads to one attempt or one refusal, and only Login and Register frames to an attempt |
| Delivery.BroadcastReaches | chat_server.cpp:115-128 | The snapshot queues one send for each member of the room except the one excluded, and for nobody else |
| Delivery.BroadcastArrives | chat_server.cpp:115-128 | In every run, whatever the other threads do meanwhile, each such member has been sent the frame once the broadcaster's blocks are done, exactly if it is within the cap, unless the connection is closed |
| Delivery.ChatReachesRoom | chat_server.cpp:387-399 | A chat message leads to a store, and then to queued sends, trimmed and under the sender's name and room, to exactly the other threads in the room |
| Delivery.ChatArrives | chat_server.cpp:387-399 | In every run a chat message reaches each other member of the room at the snapshot exactly if room, name, text and 17 bytes are within 64 KiB, unless that connection is closed |
| Delivery.LongChatIsRefused | chat_server.cpp:387-399 | An accepted chat frame whose message is to be stored and whose broadcast is refused to everyone |
| Delivery.CutChatIsRefused | chat_server.cpp:387-399 | Another, of which the database keeps the two letters before a NUL |
| Runs.LongMessageReachesNobody | chat_server.cpp:387-399 | A run of two threads after which a message is kept and its broadcast is over, and the only other member of the room was sent nothing |
| Delivery.DirectIsDelivered | chat_server.cpp:410-434 | A direct message with a live target leads to a store under the key of both and queued sends to the target's oldest session and back to the sender, naming the sender's own account; otherwise to one answer that the target is not there |
| Delivery.DirectSentIff | protocol.cpp:23-26 | A direct message is sent exactly if both names, text and 17 bytes are within 64 KiB |
| Delivery.DirectArrives | chat_server.cpp:430-433 | In every run a direct message with a live target reaches that session and the sender exactly if both names, text and 17 bytes are within 64 KiB, unless the connection is closed |
| Delivery.LongDirectIsRefused | chat_server.cpp:410-433 | An accepted direct message that is routed and whose frame is refused to both sides |
| Delivery.NotFoundArrives | chat_server.cpp:422-426 | In every run a sender is told that the target is not there exactly if the target's name and 30 bytes are within 64 KiB, unless the connection is closed |
| Delivery.LongTargetIsNotReported | chat_server.cpp:410-426 | An accepted direct message to no account, of which the sender is not told |
| Parties.DirectsAreOwn | chat_server.cpp:422-433 | In every reachable state each direct message that a connection was sent decodes to one from or to the name logged in on it |
| Exchanges.QuitLeaves | chat_server.cpp:441-460 | In every run: after a Quit frame or the end of a connection, in every later state in which the thread has nothing left to do, the connection is closed, its entry erased, and all who were in its room once it was out of it have been sent the left note; the one who quit has been sent the goodbye |
| Exchanges.ChatIsHeard | chat_server.cpp:387-400 | In every run a Chat frame leads to the trimmed text being kept or its sender being told, and to the message in the outbox of every other member of the room at the snapshot, exactly if it fits a frame |
| Exchanges.BlanksAreIgnored | chat_server.cpp:388-391 | A Chat frame of blanks changes nothing |
| Exchanges.JoinIsAnswered | chat_server.cpp:297-315 | In every run a Join frame is refused for no room and for the same room; otherwise the old room, the client and the new room are told, the client is sent the last 50 messages there, and when it waits again its thread and its one entry are in the new room |
| Exchanges.HistoryIsAnswered | chat_server.cpp:263-295 | In every run a HistoryReq frame is answered with what the query of the room or of the conversation finds when it runs, or with the usage |
| Exchanges.RoomsAreAnswered | chat_server.cpp:317-341 | In every run a RoomsReq frame is answered with the list made of the clients of one moment and the rooms stored at a later one |
| Exchanges.DirectIsAnswered | chat_server.cpp:410-435 | In every run a Direct frame is answered with the usage, or reaches the oldest session of its target and the sender and is kept, or the sender is told that there is none or that it could not be kept |
| Exchanges.WhoIsAnswered | chat_server.cpp:436-440 | In every run a UsersReq frame is answered with the names that the registry has for the room named, or for one's own, when the block runs |
| Exchanges.MalformedIsRefused | chat_server.cpp:382-385 | The empty frame is answered as malformed |
| Exchanges.UnsupportedIsRefused | chat_server.cpp:445-447 | A frame of a type that no handler takes is answered as unsupported |
| Exchanges.LoginIsAnswered | chat_server.cpp:239-251 | In every run a Login frame leads, exactly if the database knows name and password when it is asked, into the chat: welcomed, shown the last 50 messages of `general`, announced there, with one entry; otherwise the client is told |
| Exchanges.RegisterIsAnswered | chat_server.cpp:224-238 | The same for a Register frame and a new name, whose account exists from then on; an invalid name and a short password are refused |
| Exchanges.OthersAreTurnedAway | chat_server.cpp:205-220 | Before the login every other frame is refused, with the reason |
| Exchanges.GoneBeforeLogin | chat_server.cpp:355-358 | A connection that ends before its login is closed |
| Exchanges.EncodedCarries | protocol.cpp:125-131 | The frames that a client encodes are such frames |
| Serving.BlockIsRun | chat_server.cpp:345-463 | Whatever stands before it, a block that a thread has ahead is run before the thread waits again |
| Delivery.RoomNamesAreRead | chat_server.cpp:297-311 | The name of a room, as typed, is the room that is listed or joined; joining moves exactly if one is not there already |
| Delivery.WhoIsExact | chat_server.cpp:436-439 | In every reachable state the member list in the answer is that of the names in the room, each as often as it has sessions there; with fewer than 65536 clients it fits its length prefixes |
| Delivery.RoomsArrive | chat_server.cpp:407-409 | In every run the list of rooms, made of the clients counted and the rooms stored, reaches the one who asked exactly if it is shorter than 64 KiB, unless the connection is closed |
| Delivery.ListSentIff | protocol.cpp:23-26 | A member list is sent exactly if three bytes, and two more than each name, are within 64 KiB |
| Delivery.WhoArrives | chat_server.cpp:436-439 | In every run the answer reaches the one who asked exactly if three bytes, and two more than each name, are within 64 KiB, unless the connection is closed |
| Delivery.LongListIsRefused | protocol.cpp:23-26 | A list of 3000 names of twenty characters is refused |
| Delivery.NamesDecode | protocol.cpp:249-276 | A member list that fits decodes, with nothing left over, to the names it was made from |
| Presence.JoinedNoted | chat_server.cpp:313 | A joined note read by a member of the room adds exactly the name of the account |
| Presence.LeftNoted | chat_server.cpp:309 | A left note takes exactly the name of the account |
| Presence.OtherText | chat_server.cpp:254-261 | A text with a fixed beginning whose second word starts with neither `j` nor `l` is no note, whatever it quotes behind that |
| Observers.NextSilent | chat_server.cpp:254-440 | Apart from broadcasts, nothing that a block makes the server send is taken for a note, whatever names, rooms and texts it quotes |
| Observers.InputExact | chat_server.cpp:376-460 | Whatever a thread reads, once the blocks of its handler have run every observer holds the members of its room again |
| Presence.MembersMoved | chat_server.cpp:130-138 | A change of room takes one name from the members of the old room, adds it to those of the new one, and changes no other room |
| Presence.MembersLeft | chat_server.cpp:453-458 | Erasing an entry takes one name from the members of its room and changes no other room |
| Presence.JoinExact | chat_server.cpp:297-315 | After a join every observer holds the members of its room again: old room, new room, the one who moved, and everyone else |
| Presence.DepartureExact | chat_server.cpp:451-460 | The same after a thread has left, which quit and disconnection lead to (`Exchanges.QuitLeaves`) |
| Presence.EntranceExact | chat_server.cpp:362-374 | The same after a login |
| Observers.HeldFollowsOutbox | chat_server.cpp:115-128 | Unless it enters a room itself, what an observer holds changes by what it receives and by nothing else |
| Observers.PlanStays | chat_server.cpp:115-128 | Snapshot and sends of a broadcast, block by block, do what the broadcast as a whole does |
| Observers.ObserversAreExact | chat_server.cpp:297-374 | When handlers do not overlap and no login name has a NUL, an observer that starts from the member list and applies every note holds exactly the multiset that `users_in_room` returns, with several sessions of an account counted each |
| Runs.OverlapMiscounts | chat_server.cpp:362-374 | A run in which two logins overlap, after which both threads wait and an observer counts a name twice that is there once |
| Runs.CutNameIsMissed | chat_server.cpp:362-374 | A run of two sessions of one account, whose handlers do not overlap, after which an observer misses the one whose name has a NUL |
| Runs.UnannouncedName | chat_server.cpp:362-368 | A login name that is let in exactly when `bob` is, and of which the client is never told |
| ClientView.AuthOkRoundTrip | chat_client.cpp:276-282 | The payload of AuthOk gives back the name and the room, for every name without a newline, and login names have none |
| ClientView.EntranceAgrees | chat_server.cpp:362-374 | After a login the client has been told what the server's locals say, unless the name is too long for a frame |
| ClientView.JoinAgrees | chat_server.cpp:309-314 | After a join, refused or not, client and server agree as before |
| ClientView.JoinedIffMoved | chat_server.cpp:297-314 | Whatever a thread reads, it sends Joined for exactly the rooms it moves to |
| ClientView.AlwaysAgree | chat_server.cpp:345-463 | In every reachable state client and server agree once the thread has run its remaining blocks |
| ClientView.Client.Dispatch | chat_client.cpp:269-344 | A frame changes the globals as its message says, and a malformed or other one changes nothing |
| ClientView.Client.TakeChunk | chat_client.cpp:257-265 | One chunk dispatches all its frames, or, with an oversized header, none, and ends the connection |
| ClientView.Client.ReceiveMessages | chat_client.cpp:244-347 | The receive loop ends with the globals that the frames handed out leave, in order |
| ClientView.ClientShowsRegistry | chat_client.cpp:276-310 | A client that has consumed its bytes, in any chunks, shows the username and room of its registry entry whenever its server thread waits for the next frame, exactly if the name was short enough for AuthOk to be sent; before a login it shows nobody |

## Left out

- `handle_client` and its handlers run on values (`Server`), not as methods: their threads interleave, which sequential code cannot show. The blocks on `clients` and the buffers of one connection are methods (`Registry.Clients`, `Transport.Connection`), and each is proved equal to the function the threads use.
- Several senders on one socket: no lock keeps two threads' frames apart in `send_frame`; the model sends each frame whole.
- Delivery to a peer whose connection fails while its thread still runs; a message sent to an open connection counts as received.
- `accept`, `bind`, `listen`, Winsock, signals, the command line and the server log.
- Thread creation and mutexes: a locked block is one step.
- SQLite itself: statements, files, encodings and I/O errors; a failing call appears as `ok == false` in `Server`, where the client is told the same as without the failure, and not at all in `ChatDatabase`.
- Salt generation and clocks: a salt is any 32 lower-case hex digits, a time any int64.
- Cryptographic strength of SHA-256, and any claim that a wrong password is rejected beyond its digest being different.
- Observers.ObserversAreExact: not claimed when handlers overlap, where it fails (`Runs.OverlapMiscounts`), nor with login names that contain a NUL, where it fails too (`Runs.CutNameIsMissed`).
- Replays.ReplayWasBroadcast: up to the database's cut at a NUL, because what is broadcast is not cut; and not for parts of messages that were too long to send, where it fails (`Delivery.CutChatIsRefused`).
- Parties.DirectsAreOwn: not claimed when a descriptor freed between finding the target and sending is given to a new connection, because connection ids are not reused in the model.
- ClientView.Client.ReceiveMessages: the main thread's clearing of `g_connected` on `/quit` is not modelled, nor what is printed for each message.
- The client's command loop beyond the payloads of `/msg`, `/dmhistory`, `/history` and the login; colours, prompt, banner, help, time format and password echo.
- `std::isalnum` is the one of the C locale.
