/** Accounts and message history (chat_db.cpp).  A table is a sequence of rows in insertion order;
    text is bound to a statement up to its first NUL.  Salts and clocks are parameters. */
module Store {
  import opened Seqs
  import opened Text
  import opened Messages
  import opened Codec
  import opened Sha256
  import opened NameSet

  datatype UserRow = UserRow(id: nat, username: string, passwordHash: string, createdAt: Int64)

  datatype MessageRow = MessageRow(id: nat, message: ChatMessage)

  datatype Db = Db(users: seq<UserRow>, messages: seq<MessageRow>)

  const EMPTY := Db([], [])

  // ----- Passwords -----

  predicate HexSalt(salt: string) {
    |salt| == 32 && forall i | 0 <= i < 32 :: salt[i] in "0123456789abcdef"
  }

  /** The digest is a parameter of the account operations; the class supplies SHA-256. */
  type Hash = string -> string

  ghost predicate HexValued(h: Hash) {
    forall s, i | 0 <= i < |h(s)| :: h(s)[i] in "0123456789abcdef"
  }

  function Sha(): (h: Hash)
    ensures HexValued(h)
  {
    s => HexDigest(s)
  }

  function HashPassword(h: Hash, salt: string, password: string): string {
    salt + "$" + h(salt + password)
  }

  /** Salt and digest of a stored hash: what is before and behind the first '$'. */
  function ReadHash(stored: string): Option<(string, string)> {
    var separator := Find(stored, '$');
    if separator == NPOS then None else Some((stored[..separator], stored[separator + 1..]))
  }

  /** The first '$' of a stored hash separates exactly the salt and the digest it was made of. */
  lemma HashSplits(h: Hash, salt: string, password: string)
    requires HexValued(h) && HexSalt(salt)
    ensures ReadHash(HashPassword(h, salt, password)) == Some((salt, h(salt + password)))
    ensures CStr(HashPassword(h, salt, password)) == HashPassword(h, salt, password)
  {
    SaltAndDigest(salt, h(salt + password));
  }

  lemma SaltAndDigest(salt: string, digest: string)
    requires HexSalt(salt) && forall i | 0 <= i < |digest| :: digest[i] in "0123456789abcdef"
    ensures ReadHash(salt + "$" + digest) == Some((salt, digest))
    ensures CStr(salt + "$" + digest) == salt + "$" + digest
  {
    assert '$' !in salt && NUL !in salt && NUL !in digest;
    FindBehind(salt, '$', digest);
    SlicesOfThree(salt, ['$'], digest);
  }

  // ----- Accounts -----

  /** The row of an account; usernames are unique. */
  function UserOf(users: seq<UserRow>, name: string): Option<UserRow> {
    if users == [] then None
    else if users[0].username == name then Some(users[0])
    else UserOf(users[1..], name)
  }

  function RegisterUser(h: Hash, db: Db, username: string, password: string, salt: string, now: Int64): (Db, bool) {
    if UserOf(db.users, CStr(username)).Some? then (db, false)
    else
      var row := UserRow(|db.users| + 1, CStr(username), CStr(HashPassword(h, salt, password)), now);
      (db.(users := db.users + [row]), true)
  }

  function AuthenticateUser(h: Hash, db: Db, username: string, password: string): bool {
    var row := UserOf(db.users, CStr(username));
    if row.None? then false
    else
      var stored := ReadHash(row.value.passwordHash);
      stored.Some? && stored.value.1 == h(stored.value.0 + password)
  }

  lemma {:induction false} UserOfAppend(users: seq<UserRow>, row: UserRow, name: string)
    ensures UserOf(users + [row], name) ==
            if UserOf(users, name).Some? then UserOf(users, name)
            else if row.username == name then Some(row) else None
  {
    if users != [] {
      assert (users + [row])[1..] == users[1..] + [row];
      UserOfAppend(users[1..], row, name);
    }
  }

  /** The database does not see what is behind a NUL in a name. */
  lemma LoginIgnoresTail(h: Hash, db: Db, username: string, tail: string, password: string)
    requires NUL !in username
    ensures AuthenticateUser(h, db, username + [NUL] + tail, password) == AuthenticateUser(h, db, username, password)
  {
    FindBehind(username, NUL, tail);
    SlicesOfThree(username, [NUL], tail);
  }

  /** A new account is logged in to with the password it was registered with. */
  lemma RegisteredCanLogIn(h: Hash, db: Db, username: string, password: string, salt: string, now: Int64)
    requires HexValued(h) && HexSalt(salt) && UserOf(db.users, CStr(username)).None?
    ensures AuthenticateUser(h, RegisterUser(h, db, username, password, salt, now).0, username, password)
  {
    HashSplits(h, salt, password);
    UserOfAppend(db.users, UserRow(|db.users| + 1, CStr(username), HashPassword(h, salt, password), now), CStr(username));
  }

  // ----- Messages -----

  function Stored(m: ChatMessage): ChatMessage {
    ChatMessage(CStr(m.room), CStr(m.username), CStr(m.content), m.timestamp)
  }

  function AddMessage(db: Db, m: ChatMessage): Db {
    db.(messages := db.messages + [MessageRow(|db.messages| + 1, Stored(m))])
  }

  function RowsOf(messages: seq<MessageRow>, room: string): seq<MessageRow> {
    if messages == [] then []
    else
      var last := messages[|messages| - 1];
      RowsOf(messages[..|messages| - 1], room) + if last.message.room == room then [last] else []
  }

  /** `ORDER BY sent_at ASC, id ASC`. */
  predicate Before(a: MessageRow, b: MessageRow) {
    a.message.timestamp < b.message.timestamp || (a.message.timestamp == b.message.timestamp && a.id < b.id)
  }

  ghost predicate Ascending(rows: seq<MessageRow>) {
    forall i, j | 0 <= i < j < |rows| :: Before(rows[i], rows[j])
  }

  ghost predicate Descending(rows: seq<MessageRow>) {
    forall i, j | 0 <= i < j < |rows| :: Before(rows[j], rows[i])
  }

  ghost predicate DistinctIds(rows: seq<MessageRow>) {
    forall i, j | 0 <= i < j < |rows| :: rows[i].id != rows[j].id
  }

  function Insert(rows: seq<MessageRow>, x: MessageRow): seq<MessageRow> {
    if rows == [] || Before(x, rows[0]) then [x] + rows else [rows[0]] + Insert(rows[1..], x)
  }

  function Sort(rows: seq<MessageRow>): seq<MessageRow> {
    if rows == [] then [] else Insert(Sort(rows[1..]), rows[0])
  }

  /** The last `limit` of them; SQLite takes a negative limit for none. */
  function Last<T>(xs: seq<T>, limit: int): seq<T> {
    if limit < 0 || limit > |xs| then xs else xs[|xs| - limit..]
  }

  function First<T>(xs: seq<T>, limit: int): seq<T> {
    if limit < 0 || limit > |xs| then xs else xs[..limit]
  }

  function Contents(rows: seq<MessageRow>): (ms: seq<ChatMessage>)
    ensures |ms| == |rows| && forall i | 0 <= i < |rows| :: ms[i] == rows[i].message
  {
    seq(|rows|, i requires 0 <= i < |rows| => rows[i].message)
  }

  /** The newest `limit` messages of a room, oldest first. */
  function RecentMessages(db: Db, room: string, limit: int): seq<ChatMessage> {
    Contents(RecentRows(db, room, limit))
  }

  function RecentRows(db: Db, room: string, limit: int): seq<MessageRow> {
    Last(Sort(RowsOf(db.messages, CStr(room))), limit)
  }

  // ----- Sorting -----

  lemma {:induction false} InsertRows(rows: seq<MessageRow>, x: MessageRow)
    ensures multiset(Insert(rows, x)) == multiset(rows) + multiset{x}
    ensures forall r :: r in Insert(rows, x) <==> r in rows || r == x
  {
    if rows != [] && !Before(x, rows[0]) {
      InsertRows(rows[1..], x);
      assert rows == [rows[0]] + rows[1..];
    }
  }

  lemma {:induction false} InsertAscends(rows: seq<MessageRow>, x: MessageRow)
    requires Ascending(rows) && forall i | 0 <= i < |rows| :: rows[i].id != x.id
    ensures Ascending(Insert(rows, x))
  {
    if rows != [] && !Before(x, rows[0]) {
      InsertAscends(rows[1..], x);
      InsertRows(rows[1..], x);
      var later := Insert(rows[1..], x);
      forall j | 0 <= j < |later| ensures Before(rows[0], later[j]) {
        assert later[j] in later;
      }
    }
  }

  lemma {:induction false} InsertDistinct(rows: seq<MessageRow>, x: MessageRow)
    requires DistinctIds(rows) && forall i | 0 <= i < |rows| :: rows[i].id != x.id
    ensures DistinctIds(Insert(rows, x))
  {
    if rows != [] && !Before(x, rows[0]) {
      InsertDistinct(rows[1..], x);
      InsertRows(rows[1..], x);
      var later := Insert(rows[1..], x);
      forall j | 0 <= j < |later| ensures rows[0].id != later[j].id {
        assert later[j] in later;
      }
    }
  }

  lemma {:induction false} SortSorts(rows: seq<MessageRow>)
    requires DistinctIds(rows)
    ensures Ascending(Sort(rows)) && DistinctIds(Sort(rows)) && multiset(Sort(rows)) == multiset(rows)
  {
    if rows != [] {
      var later := Sort(rows[1..]);
      SortSorts(rows[1..]);
      forall i | 0 <= i < |later| ensures later[i].id != rows[0].id {
        assert later[i] in multiset(later);
        assert later[i] in rows[1..];
      }
      InsertRows(later, rows[0]);
      InsertAscends(later, rows[0]);
      InsertDistinct(later, rows[0]);
      assert rows == [rows[0]] + rows[1..];
    }
  }

  /** The first row of an ascending arrangement is the least of its rows. */
  lemma HeadIsLeast(a: seq<MessageRow>, b: seq<MessageRow>)
    requires a != [] && b != [] && Ascending(a) && Ascending(b) && multiset(a) == multiset(b)
    ensures a[0] == b[0]
  {
    assert a[0] in multiset(b) && b[0] in multiset(a);
    var i :| 0 <= i < |b| && b[i] == a[0];
    var j :| 0 <= j < |a| && a[j] == b[0];
  }

  lemma TailSame<T>(a: seq<T>, b: seq<T>)
    requires a != [] && b != [] && a[0] == b[0] && multiset(a) == multiset(b)
    ensures multiset(a[1..]) == multiset(b[1..])
  {
    assert a == [a[0]] + a[1..] && b == [b[0]] + b[1..];
    assert multiset(a[1..]) == multiset(a) - multiset{a[0]};
    assert multiset(b[1..]) == multiset(b) - multiset{b[0]};
  }

  /** A strictly ascending arrangement of given rows is unique. */
  lemma {:induction false} AscendingUnique(a: seq<MessageRow>, b: seq<MessageRow>)
    requires Ascending(a) && Ascending(b) && multiset(a) == multiset(b)
    ensures a == b
    decreases |a|
  {
    assert |a| == |multiset(a)| && |b| == |multiset(b)|;
    if a != [] {
      HeadIsLeast(a, b);
      TailSame(a, b);
      AscendingUnique(a[1..], b[1..]);
      assert a == [a[0]] + a[1..] && b == [b[0]] + b[1..];
    }
  }

  function Reverse<T>(xs: seq<T>): (r: seq<T>)
    ensures |r| == |xs| && forall i | 0 <= i < |xs| :: r[i] == xs[|xs| - 1 - i]
  {
    if xs == [] then [] else Reverse(xs[1..]) + [xs[0]]
  }

  lemma {:induction false} ReverseSame<T>(xs: seq<T>)
    ensures multiset(Reverse(xs)) == multiset(xs)
  {
    if xs != [] {
      ReverseSame(xs[1..]);
      assert xs == [xs[0]] + xs[1..];
    }
  }

  /** Whatever arrangement the inner and the outer ORDER BY produce: sorting the newest `limit`
      rows in descending order back into ascending order gives the last `limit` rows of the
      ascending order. */
  lemma NewestOldestFirst(rows: seq<MessageRow>, limit: int, inner: seq<MessageRow>, outer: seq<MessageRow>)
    requires DistinctIds(rows)
    requires Descending(inner) && multiset(inner) == multiset(rows)
    requires Ascending(outer) && multiset(outer) == multiset(First(inner, limit))
    ensures outer == Last(Sort(rows), limit)
  {
    var all, newest := Reverse(inner), First(inner, limit);
    ReverseSame(inner);
    SortSorts(rows);
    ReverseAscends(inner);
    AscendingUnique(all, Sort(rows));
    LastOfReverse(inner, limit);
    LastAscends(all, limit);
    ReverseSame(newest);
    AscendingUnique(outer, Last(all, limit));
  }

  lemma ReverseAscends(rows: seq<MessageRow>)
    requires Descending(rows)
    ensures Ascending(Reverse(rows))
  {
  }

  lemma LastAscends(rows: seq<MessageRow>, limit: int)
    requires Ascending(rows)
    ensures Ascending(Last(rows, limit))
  {
  }

  lemma LastOfReverse<T>(xs: seq<T>, limit: int)
    ensures Last(Reverse(xs), limit) == Reverse(First(xs, limit))
  {
    var a, b := Last(Reverse(xs), limit), Reverse(First(xs, limit));
    assert |a| == |b|;
    forall i | 0 <= i < |a| ensures a[i] == b[i] {
    }
  }

  // ----- The messages table -----

  /** AUTOINCREMENT without deletion: row ids count from one. */
  ghost predicate Numbered(db: Db) {
    && (forall i | 0 <= i < |db.users| :: db.users[i].id == i + 1)
    && (forall i | 0 <= i < |db.messages| :: db.messages[i].id == i + 1)
  }

  /** The rows of a room are exactly those, in the order they were added. */
  lemma {:induction false} RowsOfRoom(messages: seq<MessageRow>, room: string)
    requires forall i, j | 0 <= i < j < |messages| :: messages[i].id < messages[j].id
    ensures var rows := RowsOf(messages, room);
            && (forall r :: r in rows <==> r in messages && r.message.room == room)
            && (forall i, j | 0 <= i < j < |rows| :: rows[i].id < rows[j].id)
  {
    if messages != [] {
      var front, last := messages[..|messages| - 1], messages[|messages| - 1];
      RowsOfRoom(front, room);
      assert messages == front + [last];
      var rows := RowsOf(front, room);
      forall i | 0 <= i < |rows| ensures rows[i].id < last.id {
        assert rows[i] in front;
      }
    }
  }

  lemma {:induction false} SortOfAscending(rows: seq<MessageRow>)
    requires Ascending(rows)
    ensures Sort(rows) == rows
  {
    if rows != [] {
      SortOfAscending(rows[1..]);
      assert rows == [rows[0]] + rows[1..];
    }
  }

  /** As long as the clock does not run backwards, the newest messages are the last ones added. */
  lemma RecentIsLastAdded(db: Db, room: string, limit: int)
    requires Numbered(db)
    requires forall i, j | 0 <= i < j < |db.messages| :: db.messages[i].message.timestamp <= db.messages[j].message.timestamp
    ensures RecentMessages(db, room, limit) == Contents(Last(RowsOf(db.messages, CStr(room)), limit))
  {
    var rows := RowsOf(db.messages, CStr(room));
    RowsOfRoom(db.messages, CStr(room));
    forall i, j | 0 <= i < j < |rows| ensures Before(rows[i], rows[j]) {
      assert rows[i] in db.messages && rows[j] in db.messages;
      var k :| 0 <= k < |db.messages| && db.messages[k] == rows[i];
      var l :| 0 <= l < |db.messages| && db.messages[l] == rows[j];
      assert k < l;
    }
    SortOfAscending(rows);
  }

  lemma SortedLength(rows: seq<MessageRow>)
    requires DistinctIds(rows)
    ensures |Sort(rows)| == |rows|
  {
    SortSorts(rows);
    assert |Sort(rows)| == |multiset(Sort(rows))| == |multiset(rows)| == |rows|;
  }

  lemma LastIsRow(rows: seq<MessageRow>, limit: int, r: MessageRow)
    requires DistinctIds(rows) && r in Last(Sort(rows), limit)
    ensures r in rows
  {
    SortSorts(rows);
    assert r in Sort(rows);
    assert r in multiset(Sort(rows));
    assert r in multiset(rows);
  }

  /** Every message returned is stored, and in the room asked for. */
  lemma RecentIsStored(db: Db, room: string, limit: int)
    requires Numbered(db)
    ensures var ms := RecentMessages(db, room, limit);
            && (forall i | 0 <= i < |ms| :: ms[i].room == CStr(room) && exists r :: r in db.messages && r.message == ms[i])
            && |ms| == if limit < 0 || limit > |RowsOf(db.messages, CStr(room))| then |RowsOf(db.messages, CStr(room))| else limit
  {
    var rows := RowsOf(db.messages, CStr(room));
    RowsOfRoom(db.messages, CStr(room));
    SortedLength(rows);
    var last, ms := Last(Sort(rows), limit), RecentMessages(db, room, limit);
    forall i | 0 <= i < |ms| ensures ms[i].room == CStr(room) && exists r :: r in db.messages && r.message == ms[i] {
      LastIsRow(rows, limit, last[i]);
      assert last[i].message == ms[i];
    }
  }

  /** By the clocks: the rows returned have the latest timestamps of their room, in order of time; among
      equal timestamps those with the larger ids are kept, in order of id.  Rows need not be stored in the
      order of their timestamps. */
  lemma RecentAreNewest(db: Db, room: string, limit: int)
    requires Numbered(db)
    ensures var rows, ms := RecentRows(db, room, limit), RecentMessages(db, room, limit);
            && |ms| == |rows| && (forall i | 0 <= i < |rows| :: ms[i] == rows[i].message && rows[i] in db.messages)
            && (forall i, j | 0 <= i < j < |rows| ::
                  || ms[i].timestamp < ms[j].timestamp
                  || (ms[i].timestamp == ms[j].timestamp && rows[i].id < rows[j].id))
            && (forall r, j | r in db.messages && r.message.room == CStr(room) && r !in rows && 0 <= j < |rows| ::
                  || r.message.timestamp < ms[j].timestamp
                  || (r.message.timestamp == ms[j].timestamp && r.id < rows[j].id))
  {
    var all := RowsOf(db.messages, CStr(room));
    var rows := RecentRows(db, room, limit);
    RowsOfRoom(db.messages, CStr(room));
    SortSorts(all);
    LastAscends(Sort(all), limit);
    forall i | 0 <= i < |rows| ensures rows[i] in db.messages {
      LastIsRow(all, limit, rows[i]);
    }
    forall r, j | r in db.messages && r.message.room == CStr(room) && r !in rows && 0 <= j < |rows| ensures Before(r, rows[j]) {
      assert r in multiset(Sort(all));
      LeftOutComesBefore(Sort(all), limit, r, j);
    }
  }

  lemma LeftOutComesBefore(sorted: seq<MessageRow>, limit: int, r: MessageRow, j: nat)
    requires Ascending(sorted) && r in sorted && r !in Last(sorted, limit) && j < |Last(sorted, limit)|
    ensures Before(r, Last(sorted, limit)[j])
  {
    var last := Last(sorted, limit);
    var i :| 0 <= i < |sorted| && sorted[i] == r;
    assert forall m | 0 <= m < |last| :: last[m] == sorted[|sorted| - |last| + m];
    assert forall m | |sorted| - |last| <= m < |sorted| :: sorted[m] in last;
  }

  function RoomNames(messages: seq<MessageRow>): (rooms: seq<string>)
    ensures |rooms| == |messages| && forall i | 0 <= i < |messages| :: rooms[i] == messages[i].message.room
  {
    seq(|messages|, i requires 0 <= i < |messages| => messages[i].message.room)
  }

  /** `SELECT DISTINCT room ... ORDER BY room LIMIT ?`. */
  function ListRooms(db: Db, limit: int): seq<string> {
    First(SetOf(RoomNames(db.messages)), limit)
  }

  /** The rooms listed are the stored ones that fewer than `limit` others come before; a negative
      limit is none. */
  lemma ListRoomsIff(db: Db, limit: int, room: string)
    ensures room in ListRooms(db, limit) <==>
            room in RoomNames(db.messages) && (limit < 0 || Preceding(RoomNames(db.messages), room) < limit)
  {
    var names := RoomNames(db.messages);
    SetOfSorted(names);
    if limit >= 0 {
      FirstOfSet(names, limit, room);
    }
  }

  lemma ListRoomsSorted(db: Db, limit: int)
    ensures Sorted(ListRooms(db, limit)) && (limit >= 0 ==> |ListRooms(db, limit)| <= limit)
  {
    SetOfSorted(RoomNames(db.messages));
  }

  // ----- Any sequence of operations -----

  datatype DbOp =
    | Registering(username: string, password: string, salt: string, now: Int64)
    | Adding(message: ChatMessage)

  function Perform(h: Hash, db: Db, op: DbOp): Db {
    match op
    case Registering(username, password, salt, now) => RegisterUser(h, db, username, password, salt, now).0
    case Adding(message) => AddMessage(db, message)
  }

  function PerformAll(h: Hash, ops: seq<DbOp>): Db {
    if ops == [] then EMPTY else Perform(h, PerformAll(h, ops[..|ops| - 1]), ops[|ops| - 1])
  }

  ghost predicate Salted(ops: seq<DbOp>) {
    forall i | 0 <= i < |ops| :: ops[i].Registering? ==> HexSalt(ops[i].salt)
  }

  /** `ops[i]` is the first registration under the name that `username` is bound as. */
  ghost predicate FirstRegistration(ops: seq<DbOp>, username: string, i: nat) {
    && i < |ops| && ops[i].Registering? && CStr(ops[i].username) == CStr(username)
    && forall j | 0 <= j < i :: ops[j].Registering? ==> CStr(ops[j].username) != CStr(username)
  }

  function AccountRow(h: Hash, op: DbOp, id: nat): UserRow
    requires op.Registering?
  {
    UserRow(id, CStr(op.username), HashPassword(h, op.salt, op.password), op.now)
  }

  lemma RegisteringAdds(h: Hash, db: Db, op: DbOp, name: string)
    requires HexValued(h) && op.Registering? && HexSalt(op.salt)
    ensures UserOf(Perform(h, db, op).users, name) ==
            if UserOf(db.users, name).Some? then UserOf(db.users, name)
            else if CStr(op.username) == name then Some(AccountRow(h, op, |db.users| + 1)) else None
  {
    HashSplits(h, op.salt, op.password);
    UserOfAppend(db.users, AccountRow(h, op, |db.users| + 1), name);
  }

  /** An account is the one its first registration made, whatever came later. */
  lemma {:induction false} AccountOrigin(h: Hash, ops: seq<DbOp>, username: string)
    requires HexValued(h) && Salted(ops)
    ensures Originates(h, ops, username, UserOf(PerformAll(h, ops).users, CStr(username)))
  {
    if ops != [] {
      var front, op := ops[..|ops| - 1], ops[|ops| - 1];
      AccountOrigin(h, front, username);
      OriginPerformed(h, PerformAll(h, front), front, op, username);
      FrontAndLast(ops);
    }
  }

  lemma OriginPerformed(h: Hash, before: Db, front: seq<DbOp>, op: DbOp, username: string)
    requires HexValued(h) && (op.Registering? ==> HexSalt(op.salt))
    requires Originates(h, front, username, UserOf(before.users, CStr(username)))
    ensures Originates(h, front + [op], username, UserOf(Perform(h, before, op).users, CStr(username)))
  {
    if op.Registering? {
      RegisteringAdds(h, before, op, CStr(username));
    }
    OriginStep(h, front, op, username, UserOf(before.users, CStr(username)), |before.users| + 1);
  }

  ghost predicate Originates(h: Hash, ops: seq<DbOp>, username: string, row: Option<UserRow>) {
    if row.None? then forall i | 0 <= i < |ops| :: ops[i].Registering? ==> CStr(ops[i].username) != CStr(username)
    else exists i: nat :: FirstRegistration(ops, username, i) && row.value == AccountRow(h, ops[i], row.value.id)
  }

  lemma OriginStep(h: Hash, front: seq<DbOp>, op: DbOp, username: string, row: Option<UserRow>, id: nat)
    requires Originates(h, front, username, row)
    ensures Originates(h, front + [op], username,
                       if row.None? && op.Registering? && CStr(op.username) == CStr(username)
                       then Some(AccountRow(h, op, id)) else row)
  {
    var ops := front + [op];
    if row.Some? {
      var i: nat :| FirstRegistration(front, username, i) && row.value == AccountRow(h, front[i], row.value.id);
      assert FirstRegistration(ops, username, i) && ops[i] == front[i];
    } else if op.Registering? && CStr(op.username) == CStr(username) {
      assert FirstRegistration(ops, username, |front|) && ops[|front|] == op;
    }
  }

  lemma FirstRegistrationUnique(ops: seq<DbOp>, username: string, i: nat, j: nat)
    requires FirstRegistration(ops, username, i) && FirstRegistration(ops, username, j)
    ensures i == j
  {
  }

  /** Over every sequence of operations, a login succeeds exactly when the name was registered and
      the password's digest, with the salt of the first registration, is that registration's. */
  lemma AuthenticatesIff(h: Hash, ops: seq<DbOp>, username: string, password: string)
    requires HexValued(h) && Salted(ops)
    ensures AuthenticateUser(h, PerformAll(h, ops), username, password) <==>
            exists i: nat :: FirstRegistration(ops, username, i)
                        && h(ops[i].salt + password) == h(ops[i].salt + ops[i].password)
  {
    AccountOrigin(h, ops, username);
    var row := UserOf(PerformAll(h, ops).users, CStr(username));
    assert Originates(h, ops, username, row);
    if row.Some? {
      var i: nat :| FirstRegistration(ops, username, i) && row.value == AccountRow(h, ops[i], row.value.id);
      HashSplits(h, ops[i].salt, ops[i].password);
      forall j: nat | FirstRegistration(ops, username, j) ensures j == i {
        FirstRegistrationUnique(ops, username, i, j);
      }
    }
  }

  /** A registration succeeds only for a new name; otherwise it changes nothing. */
  lemma RegistersOnce(h: Hash, ops: seq<DbOp>, op: DbOp)
    requires HexValued(h) && Salted(ops) && op.Registering?
    ensures RegisterUser(h, PerformAll(h, ops), op.username, op.password, op.salt, op.now).1
            <==> !exists i: nat :: FirstRegistration(ops, op.username, i)
    ensures !RegisterUser(h, PerformAll(h, ops), op.username, op.password, op.salt, op.now).1
            ==> PerformAll(h, ops + [op]) == PerformAll(h, ops)
  {
    AccountOrigin(h, ops, op.username);
    assert (ops + [op])[..|ops|] == ops;
  }

  // ----- The class -----

  const NOT_OPEN: string := "database is not open"
  const TAKEN: string := "username is already taken"
  const NOT_STORED: string := "failed to store the account"
  const CORRUPT: string := "corrupt account record"
  const INVALID: string := "invalid username or password"

  /** The connection; `isOpen` is `db_ != nullptr`. */
  class ChatDatabase {
    var isOpen: bool
    var users: seq<UserRow>
    var messages: seq<MessageRow>

    ghost function View(): Db
      reads this
    {
      Db(users, messages)
    }

    /** Row ids count from one. */
    ghost predicate Valid()
      reads this
    {
      Numbered(View())
    }

    constructor ()
      ensures Valid() && !isOpen && View() == EMPTY
    {
      isOpen, users, messages := false, [], [];
    }

    method Open()
      modifies this`isOpen
      ensures isOpen
    {
      isOpen := true;
    }

    method RegisterAccount(username: string, password: string, salt: string, now: Int64) returns (ok: bool, error: string)
      requires Valid()
      modifies this`users
      ensures Valid()
      ensures if old(isOpen) then (View(), ok) == RegisterUser(Sha(), old(View()), username, password, salt, now)
              else !ok && View() == old(View())
      ensures !ok ==> error == if isOpen then TAKEN else NOT_OPEN
    {
      if !isOpen {
        return false, NOT_OPEN;
      }
      var digest := Sha256Hex(salt + password);
      var passwordHash := salt + "$" + digest;
      if UserOf(users, CStr(username)).Some? {
        return false, TAKEN;
      }
      users := users + [UserRow(|users| + 1, CStr(username), CStr(passwordHash), now)];
      return true, "";
    }

    method Authenticate(username: string, password: string) returns (ok: bool, error: string)
      ensures ok == (isOpen && AuthenticateUser(Sha(), View(), username, password))
      ensures !ok ==> error in {NOT_OPEN, CORRUPT, INVALID}
    {
      if !isOpen {
        return false, NOT_OPEN;
      }
      var row := UserOf(users, CStr(username));
      if row.Some? {
        var stored := ReadHash(row.value.passwordHash);
        if stored.None? {
          return false, CORRUPT;
        }
        var digest := Sha256Hex(stored.value.0 + password);
        if stored.value.1 == digest {
          return true, "";
        }
      }
      return false, INVALID;
    }

    method Add(message: ChatMessage) returns (ok: bool)
      requires Valid()
      modifies this`messages
      ensures Valid()
      ensures ok == isOpen
      ensures View() == if ok then AddMessage(old(View()), message) else old(View())
    {
      if !isOpen {
        return false;
      }
      messages := messages + [MessageRow(|messages| + 1, Stored(message))];
      return true;
    }

    /** The nested query, and the loop that copies its rows out. */
    method GetRecentMessages(room: string, limit: int) returns (recent: seq<ChatMessage>)
      requires Valid()
      ensures recent == if isOpen then RecentMessages(View(), room, limit) else []
      ensures forall i, j | 0 <= i < j < |recent| :: recent[i].timestamp <= recent[j].timestamp
    {
      if !isOpen {
        return [];
      }
      var rows := RowsOf(messages, CStr(room));
      var inner := Reverse(Sort(rows));
      var outer := Sort(First(inner, limit));
      QueryIsLast(View(), CStr(room), limit);
      RecentAreNewest(View(), room, limit);
      recent := FetchAll(outer);
    }

    /** Sorted, each once, and exactly the stored rooms that fewer than `limit` others come before. */
    method ListRoomNames(limit: int) returns (rooms: seq<string>)
      ensures Sorted(rooms) && (limit >= 0 ==> |rooms| <= limit)
      ensures forall r :: r in rooms <==>
                isOpen && r in RoomNames(messages) && (limit < 0 || Preceding(RoomNames(messages), r) < limit)
      ensures rooms == if isOpen then ListRooms(View(), limit) else []
    {
      rooms := [];
      if !isOpen {
        return;
      }
      var rows := First(SetOf(RoomNames(messages)), limit);
      for i := 0 to |rows|
        invariant rooms == rows[..i]
      {
        rooms := rooms + [rows[i]];
      }
      assert rows[..|rows|] == rows;
      ListRoomsSorted(View(), limit);
      forall r ensures r in rooms <==>
                 r in RoomNames(messages) && (limit < 0 || Preceding(RoomNames(messages), r) < limit) {
        ListRoomsIff(View(), limit, r);
      }
    }
  }

  /** The `sqlite3_step` loop of `get_recent_messages`. */
  method FetchAll(rows: seq<MessageRow>) returns (messages: seq<ChatMessage>)
    ensures messages == Contents(rows)
  {
    messages := [];
    for i := 0 to |rows|
      invariant |messages| == i && forall j | 0 <= j < i :: messages[j] == rows[j].message
    {
      messages := messages + [rows[i].message];
    }
  }

  lemma QueryIsLast(db: Db, room: string, limit: int)
    requires Numbered(db)
    ensures var rows := RowsOf(db.messages, room);
            Sort(First(Reverse(Sort(rows)), limit)) == Last(Sort(rows), limit)
  {
    var rows := RowsOf(db.messages, room);
    RowsOfRoom(db.messages, room);
    SortSorts(rows);
    ReverseSame(Sort(rows));
    FirstDescends(Sort(rows), limit);
    var newest := First(Reverse(Sort(rows)), limit);
    SortSorts(newest);
    NewestOldestFirst(rows, limit, Reverse(Sort(rows)), Sort(newest));
  }

  lemma FirstDescends(sorted: seq<MessageRow>, limit: int)
    requires Ascending(sorted) && DistinctIds(sorted)
    ensures Descending(Reverse(sorted)) && DistinctIds(First(Reverse(sorted), limit))
  {
  }
}
