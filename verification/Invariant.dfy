/** What holds in every reachable state of the server, whatever the threads' interleaving. */
module Invariant {
  import opened Text
  import opened Names
  import opened Requests
  import opened Messages
  import opened Framing
  import opened Registry
  import opened Store
  import opened Server

  // ----- The shape of a thread's remaining blocks -----

  predicate Allowed(phase: Phase, a: Action) {
    match phase
    case Authenticating => a.TryRegister? || a.TryLogin? || a.Enter? || a.Close? || (a.Reply? && a.msg.kind != History)
    case Chatting => !a.TryRegister? && !a.TryLogin? && !a.Enter? && !a.Close?
    case Leaving => a.SendTo? || a.Broadcast? || a.Close?
    case Closed => false
  }

  function NextPhase(phase: Phase, a: Action): Phase {
    match a
    case Enter(_) => Chatting
    case Leave => Leaving
    case Close => Closed
    case _ => phase
  }

  predicate StoresChat(a: Action) {
    a.StoreMessage? && ChatRoom(CStr(a.message.room))
  }

  /** A stored chat message is broadcast by the very next block. */
  predicate Followed(todo: seq<Action>)
    requires todo != []
  {
    StoresChat(todo[0]) ==>
      |todo| > 1 && todo[1].Air? && todo[1].message == todo[0].message
  }

  predicate Shaped(phase: Phase, todo: seq<Action>)
    decreases |todo|
  {
    todo == []
    || (&& Allowed(phase, todo[0])
        && (todo[0].TryRegister? || todo[0].TryLogin? ==> |todo| == 1)
        && Followed(todo)
        && Shaped(NextPhase(phase, todo[0]), todo[1..]))
  }

  /** Nobody logs in or enters twice. */
  lemma {:induction false} InsideStays(phase: Phase, todo: seq<Action>)
    requires phase != Authenticating && Shaped(phase, todo)
    ensures forall i | 0 <= i < |todo| :: !todo[i].TryRegister? && !todo[i].TryLogin? && !todo[i].Enter?
    decreases |todo|
  {
    if todo != [] {
      InsideStays(NextPhase(phase, todo[0]), todo[1..]);
      assert forall i | 1 <= i < |todo| :: todo[i] == todo[1..][i - 1];
    }
  }

  // ----- What the blocks and messages of an account may say -----

  predicate Fits(m: ChatMessage) {
    |m.room| <= 44 && |m.username| <= 20 && |m.content| <= MAX_PAYLOAD
  }

  /** A name that one can be logged in under: the database takes it for an account. */
  predicate LoginName(name: string) {
    Account(name) && '\n' !in name && |name| + 2 <= MAX_PAYLOAD
  }

  /** A row that may be kept: of a message said in a room, or of a direct message that was routed. */
  ghost predicate Keepable(routed: seq<DirectMessage>, m: ChatMessage) {
    && Fits(m) && ValidUsername(m.username) && m == Stored(m)
    && (ChatRoom(m.room) || exists d :: d in routed && IsRowOf(m, d))
  }

  predicate IsRowOf(m: ChatMessage, d: DirectMessage) {
    LoginName(d.from) && LoginName(d.to) && m == Stored(RowOf(d))
  }

  ghost predicate SaidIn(room: string, ms: seq<ChatMessage>) {
    ChatRoom(room) && forall i | 0 <= i < |ms| :: ms[i].room == room
  }

  /** A row of a direct message between the accounts of two names. */
  ghost predicate Between(routed: seq<DirectMessage>, user: string, peer: string, m: ChatMessage) {
    exists d :: d in routed && IsRowOf(m, d) && SamePair(CStr(d.from), CStr(d.to), CStr(user), CStr(peer))
  }

  /** A row of a direct message from or to the account of a name. */
  ghost predicate Own(routed: seq<DirectMessage>, user: string, m: ChatMessage) {
    exists d :: d in routed && IsRowOf(m, d) && (CStr(d.from) == CStr(user) || CStr(d.to) == CStr(user))
  }

  ghost predicate Kept(db: Db, m: ChatMessage) {
    exists r :: r in db.messages && r.message == m
  }

  /** What may be replayed to `user`: what was said in one chat room, or what the database keeps
      under the key of `user` and a name it asked for. */
  ghost predicate Replayable(sh: Shared, user: string, ms: seq<ChatMessage>) {
    && |ms| <= MAX_LIMIT
    && (forall i | 0 <= i < |ms| :: Fits(ms[i]) && Kept(sh.db, ms[i]) && Keepable(sh.routed, ms[i]))
    && ((exists room :: SaidIn(room, ms))
        || (Account(user) && exists t :: (user, t) in sh.asked && KeptFor(user, t, ms)))
  }

  ghost predicate KeptFor(user: string, t: string, ms: seq<ChatMessage>) {
    forall i | 0 <= i < |ms| :: ms[i].room == StoredKey(user, t)
  }

  ghost predicate AllBetween(routed: seq<DirectMessage>, user: string, peer: string, ms: seq<ChatMessage>) {
    forall i | 0 <= i < |ms| :: Between(routed, user, peer, ms[i])
  }

  ghost predicate AllOwn(routed: seq<DirectMessage>, user: string, ms: seq<ChatMessage>) {
    forall i | 0 <= i < |ms| :: Own(routed, user, ms[i])
  }

  ghost predicate MayReceive(env: Env, sh: Shared, user: string, m: Msg) {
    m.kind == History ==> exists ms :: m.payload == env.history(ms) && Replayable(sh, user, ms)
  }

  ghost predicate Safe(env: Env, sh: Shared, user: string, a: Action) {
    match a
    case TryRegister(username, _, salt, _) => ValidUsername(username) && HexSalt(salt)
    case TryLogin(username, _) => '\n' !in username && |username| + 2 <= MAX_PAYLOAD
    case Enter(username) => username == user && LoginName(username) && HasAccount(sh.db, CStr(username))
    case Reply(m) => MayReceive(env, sh, user, m)
    case SendTo(_, m) => m.kind == System || m.kind == ChatMsg || m.kind == DirectMsg
    case Broadcast(_, m, _) => m.kind == System
    case MoveTo(room) => ChatRoom(room)
    case Replay(room, limit) => 1 <= limit <= MAX_LIMIT && (ChatRoom(room) || exists t :: (user, t) in sh.asked && room == DmKey(user, t))
    case StoreMessage(m, _) => Keepable(sh.routed, Stored(m))
    case Route(from, target, content, _) => from == user && |content| <= MAX_PAYLOAD
    case _ => true
  }

  // ----- The parts of the invariant -----

  ghost predicate DbOk(sh: Shared) {
    && Numbered(sh.db)
    && (forall i | 0 <= i < |sh.db.users| :: ValidUsername(sh.db.users[i].username))
    && (forall i | 0 <= i < |sh.db.messages| :: Keepable(sh.routed, sh.db.messages[i].message))
  }

  predicate HasAccount(db: Db, username: string) {
    UserOf(db.users, username).Some?
  }

  predicate LocalOk(sh: Shared, local: Local) {
    local.phase == Chatting ==> LoginName(local.username) && HasAccount(sh.db, CStr(local.username)) && ChatRoom(local.room)
  }

  ghost predicate AllSafe(env: Env, sh: Shared, user: string, todo: seq<Action>) {
    forall i | 0 <= i < |todo| :: Safe(env, sh, user, todo[i])
  }

  ghost predicate BoxOk(env: Env, sh: Shared, local: Local, outbox: seq<Msg>) {
    forall i | 0 <= i < |outbox| ::
      MayReceive(env, sh, local.username, outbox[i]) && (local.phase == Authenticating ==> outbox[i].kind != History)
  }

  ghost predicate ThreadOk(env: Env, sh: Shared, t: Thread) {
    && LocalOk(sh, t.local)
    && Shaped(t.local.phase, t.todo)
    && AllSafe(env, sh, t.local.username, t.todo)
    && BoxOk(env, sh, t.local, t.outbox)
  }

  /** The registry: one entry per chatting thread, none for any other, saying what the thread's
      own locals say. */
  ghost predicate RegistryOk(clients: seq<ClientInfo>, threads: map<Sock, Thread>) {
    && Unique(clients)
    && (forall i | 0 <= i < |clients| :: Agrees(threads, clients[i]))
    && (forall s | s in threads && threads[s].local.phase == Chatting :: Listed(clients, s))
  }

  ghost predicate Agrees(threads: map<Sock, Thread>, c: ClientInfo) {
    && c.socket in threads
    && threads[c.socket].local == Local(Chatting, c.username, c.room)
  }

  ghost predicate Listed(clients: seq<ClientInfo>, s: Sock) {
    exists i :: 0 <= i < |clients| && clients[i].socket == s
  }

  /** Entries are in the order of `push_back`. */
  ghost predicate OrderOk(sh: Shared) {
    && (forall i | 0 <= i < |sh.clients| :: sh.clients[i].socket in sh.stamps)
    && (forall s | s in sh.stamps :: sh.stamps[s] < sh.clock)
    && ByAge(sh.stamps, sh.clients)
  }

  ghost predicate ByAge(stamps: map<Sock, nat>, clients: seq<ClientInfo>) {
    forall i, j | 0 <= i < j < |clients| ::
      clients[i].socket in stamps && clients[j].socket in stamps ==> stamps[clients[i].socket] < stamps[clients[j].socket]
  }

  ghost predicate Inv(env: Env, st: State) {
    && DbOk(st.shared)
    && (forall s | s in st.threads :: ThreadOk(env, st.shared, st.threads[s]))
    && RegistryOk(st.shared.clients, st.threads)
    && OrderOk(st.shared)
  }

  // ----- The shared data only grows where it matters -----

  ghost predicate Grows(sh: Shared, sh': Shared) {
    && (forall d :: d in sh.routed ==> d in sh'.routed)
    && (forall q :: q in sh.asked ==> q in sh'.asked)
    && (forall r :: r in sh.db.messages ==> r in sh'.db.messages)
    && (forall u :: HasAccount(sh.db, u) ==> HasAccount(sh'.db, u))
  }

  lemma BlockGrows(env: Env, sh: Shared, s: Sock, a: Action, ok: bool)
    ensures Grows(sh, SharedAfter(env, sh, s, a, ok))
  {
    if a.TryRegister? {
      forall u | HasAccount(sh.db, u) ensures HasAccount(SharedAfter(env, sh, s, a, ok).db, u) {
        RegisterKeepsAccounts(env, sh.db, a, u);
      }
    }
  }

  lemma RegisterKeepsAccounts(env: Env, db: Db, a: Action, u: string)
    requires a.TryRegister?
    ensures var (db', registered) := RegisterUser(env.hash, db, a.username, a.password, a.salt, a.now);
            && (HasAccount(db, u) ==> HasAccount(db', u))
            && (registered && u == CStr(a.username) ==> HasAccount(db', u))
  {
    var row := UserRow(|db.users| + 1, CStr(a.username), CStr(HashPassword(env.hash, a.salt, a.password)), a.now);
    UserOfAppend(db.users, row, u);
  }

  lemma KeepableGrows(sh: Shared, sh': Shared, m: ChatMessage)
    requires Grows(sh, sh') && Keepable(sh.routed, m)
    ensures Keepable(sh'.routed, m)
  {
  }

  lemma ReplayableGrows(sh: Shared, sh': Shared, user: string, ms: seq<ChatMessage>)
    requires Grows(sh, sh') && Replayable(sh, user, ms)
    ensures Replayable(sh', user, ms)
  {
    forall i | 0 <= i < |ms| ensures Kept(sh'.db, ms[i]) && Keepable(sh'.routed, ms[i]) {
      assert Kept(sh.db, ms[i]);
      var r :| r in sh.db.messages && r.message == ms[i];
      assert r in sh'.db.messages;
      KeepableGrows(sh, sh', ms[i]);
    }
  }

  lemma MayReceiveGrows(env: Env, sh: Shared, sh': Shared, user: string, m: Msg)
    requires Grows(sh, sh') && MayReceive(env, sh, user, m)
    ensures MayReceive(env, sh', user, m)
  {
    if m.kind == History {
      var ms :| m.payload == env.history(ms) && Replayable(sh, user, ms);
      ReplayableGrows(sh, sh', user, ms);
    }
  }

  lemma SafeGrows(env: Env, sh: Shared, sh': Shared, user: string, a: Action)
    requires Grows(sh, sh') && Safe(env, sh, user, a)
    ensures Safe(env, sh', user, a)
  {
    if a.Reply? {
      MayReceiveGrows(env, sh, sh', user, a.msg);
    }
  }

  lemma AllSafeGrows(env: Env, sh: Shared, sh': Shared, user: string, todo: seq<Action>)
    requires Grows(sh, sh') && AllSafe(env, sh, user, todo)
    ensures AllSafe(env, sh', user, todo)
  {
    forall i | 0 <= i < |todo| ensures Safe(env, sh', user, todo[i]) {
      SafeGrows(env, sh, sh', user, todo[i]);
    }
  }

  lemma ThreadOkGrows(env: Env, sh: Shared, sh': Shared, t: Thread)
    requires Grows(sh, sh') && ThreadOk(env, sh, t)
    ensures ThreadOk(env, sh', t)
  {
    AllSafeGrows(env, sh, sh', t.local.username, t.todo);
    forall i | 0 <= i < |t.outbox| ensures MayReceive(env, sh', t.local.username, t.outbox[i]) {
      MayReceiveGrows(env, sh, sh', t.local.username, t.outbox[i]);
    }
  }

  // ----- One block: the shape of what remains -----

  lemma EntranceShaped(s: Sock, username: string)
    ensures Shaped(Authenticating, Entrance(s, username))
  {
    EntranceTail(s, username);
    assert Entrance(s, username) == [Enter(username)] + Entrance(s, username)[1..];
  }

  lemma EntranceTail(s: Sock, username: string)
    ensures Shaped(Chatting, Entrance(s, username)[1..])
  {
    var e := Entrance(s, username);
    assert Shaped(Chatting, e[6..]) by {
      assert e[6..] == [];
    }
    assert e[5..][1..] == e[6..];
    assert e[4..][1..] == e[5..];
    assert e[3..][1..] == e[4..];
    assert e[2..][1..] == e[3..];
    assert e[1..][1..] == e[2..];
    assert Shaped(Chatting, e[5..]);
    assert Shaped(Chatting, e[4..]);
    assert Shaped(Chatting, e[3..]);
    assert Shaped(Chatting, e[2..]);
  }

  /** Blocks that end nothing: they may be put in front of anything. */
  predicate Inert(phase: Phase, a: Action) {
    Allowed(phase, a) && (a.Reply? || a.SendTo? || a.ListRoomsFor? || (a.StoreMessage? && !StoresChat(a)))
  }

  lemma {:induction false} InertShaped(phase: Phase, blocks: seq<Action>, rest: seq<Action>)
    requires Shaped(phase, rest) && AllInert(phase, blocks)
    ensures Shaped(phase, blocks + rest)
    decreases |blocks|
  {
    if blocks == [] {
      assert blocks + rest == rest;
    } else {
      InertShaped(phase, blocks[1..], rest);
      assert (blocks + rest)[1..] == blocks[1..] + rest;
    }
  }

  ghost predicate AllInert(phase: Phase, blocks: seq<Action>) {
    forall i | 0 <= i < |blocks| :: Inert(phase, blocks[i])
  }

  lemma RepliesInert(env: Env, sh: Shared, s: Sock, a: Action, ok: bool)
    requires a.Replay? || a.ListRoomsFor?
    ensures AllInert(Chatting, NextBlocks(env, sh, s, a, ok))
  {
  }

  lemma ListInert(env: Env, sh: Shared, s: Sock, a: Action, ok: bool)
    requires a.ListUsers?
    ensures AllInert(Chatting, NextBlocks(env, sh, s, a, ok))
  {
    assert |NextBlocks(env, sh, s, a, ok)| == 1 && NextBlocks(env, sh, s, a, ok)[0].Reply?;
  }

  lemma DeliveriesInert(env: Env, target: Option<Sock>, s: Sock, dm: DirectMessage)
    ensures AllInert(Chatting, Deliveries(env, target, s, dm))
  {
    var d := Deliveries(env, target, s, dm);
    StoredKeyIsNoRoom(dm.from, dm.to);
    if target.Some? {
      assert |d| == 3 && d[0] == StoreMessage(RowOf(dm), DIRECT_STORE_FAILED) && d[1].SendTo? && d[2].SendTo?;
    } else {
      assert |d| == 1 && d[0].Reply? && d[0].msg.kind == System;
    }
  }

  lemma RouteInert(env: Env, sh: Shared, s: Sock, a: Action, ok: bool)
    requires a.Route?
    ensures AllInert(Chatting, NextBlocks(env, sh, s, a, ok))
  {
    DeliveriesInert(env, FindUser(sh.clients, a.target), s, RoutedMessage(a));
  }

  lemma QuietNext(env: Env, sh: Shared, s: Sock, a: Action, ok: bool)
    requires a.Enter? || a.MoveTo? || a.Leave? || a.Close? || a.Reply? || a.SendTo?
    ensures NextBlocks(env, sh, s, a, ok) == []
  {
  }

  lemma FewInert(env: Env, sh: Shared, s: Sock, phase: Phase, a: Action, ok: bool)
    requires Allowed(phase, a) && (a.CountClients? || a.StoreMessage?)
    ensures AllInert(phase, NextBlocks(env, sh, s, a, ok))
  {
  }

  lemma SendsInert(env: Env, sh: Shared, s: Sock, phase: Phase, a: Action, ok: bool)
    requires Allowed(phase, a) && (a.Broadcast? || a.Air?)
    ensures AllInert(phase, NextBlocks(env, sh, s, a, ok))
  {
  }

  lemma NextInert(env: Env, sh: Shared, s: Sock, phase: Phase, a: Action, ok: bool)
    requires Allowed(phase, a) && !a.TryRegister? && !a.TryLogin?
    ensures AllInert(NextPhase(phase, a), NextBlocks(env, sh, s, a, ok))
  {
    match a
    case Replay(_, _) => RepliesInert(env, sh, s, a, ok);
    case ListRoomsFor(_) => RepliesInert(env, sh, s, a, ok);
    case ListUsers(_) => ListInert(env, sh, s, a, ok);
    case CountClients => FewInert(env, sh, s, phase, a, ok);
    case Route(_, _, _, _) => RouteInert(env, sh, s, a, ok);
    case StoreMessage(_, _) => FewInert(env, sh, s, phase, a, ok);
    case Broadcast(_, _, _) => SendsInert(env, sh, s, phase, a, ok);
    case Air(_, _) => SendsInert(env, sh, s, phase, a, ok);
    case _ => QuietNext(env, sh, s, a, ok);
  }

  lemma LocalPhase(env: Env, sh: Shared, local: Local, a: Action, ok: bool)
    ensures LocalAfter(env, sh, local, a, ok).phase == NextPhase(local.phase, a)
  {
  }

  lemma BlockShaped(env: Env, sh: Shared, s: Sock, local: Local, todo: seq<Action>, ok: bool)
    requires todo != [] && Shaped(local.phase, todo)
    ensures Shaped(LocalAfter(env, sh, local, todo[0], ok).phase, NextBlocks(env, sh, s, todo[0], ok) + todo[1..])
  {
    var a := todo[0];
    LocalPhase(env, sh, local, a, ok);
    if a.TryRegister? || a.TryLogin? {
      AttemptShaped(env, sh, s, a, ok);
      var next := NextBlocks(env, sh, s, a, ok);
      assert next + todo[1..] == next;
    } else {
      NextInert(env, sh, s, local.phase, a, ok);
      InertShaped(NextPhase(local.phase, a), NextBlocks(env, sh, s, a, ok), todo[1..]);
    }
  }

  lemma AttemptShaped(env: Env, sh: Shared, s: Sock, a: Action, ok: bool)
    requires a.TryRegister? || a.TryLogin?
    ensures Shaped(Authenticating, NextBlocks(env, sh, s, a, ok))
  {
    EntranceShaped(s, a.username);
    var next, e := NextBlocks(env, sh, s, a, ok), Entrance(s, a.username);
    if a.TryRegister? && Succeeds(env, sh.db, a, ok) {
      assert next[1..] == e;
    } else if !Succeeds(env, sh.db, a, ok) {
      assert next[1..] == [];
    }
  }

  // ----- One block: what the new blocks may say -----

  lemma NameHasNoNul(u: string)
    requires ValidUsername(u)
    ensures NUL !in u && CStr(u) == u
  {
    UsernameChars(u, NUL);
  }

  lemma ValidIsLoginName(u: string)
    requires ValidUsername(u)
    ensures LoginName(u)
  {
    NameHasNoNul(u);
    UsernameChars(u, '\n');
  }

  lemma RoomHasNoNul(room: string)
    requires ChatRoom(room)
    ensures NUL !in room && CStr(room) == room
  {
  }

  lemma StoredKeyLength(a: string, b: string)
    requires Account(a) && Account(b)
    ensures |StoredKey(a, b)| <= 44
  {
    StoredKeyIs(a, b);
    assert NUL !in Ordered(a, b).0 ==> CStr(Ordered(a, b).0) == Ordered(a, b).0;
  }

  lemma StoredKeyIsNoRoom(a: string, b: string)
    ensures !ChatRoom(StoredKey(a, b))
  {
    StoredKeyIs(a, b);
    assert StoredKey(a, b)[2] == ':';
  }

  lemma StoredTwice(m: ChatMessage)
    ensures Stored(Stored(m)) == Stored(m)
  {
  }

  lemma RowKeepable(routed: seq<DirectMessage>, d: DirectMessage)
    requires d in routed && LoginName(d.from) && LoginName(d.to) && |d.content| <= MAX_PAYLOAD
    ensures Keepable(routed, Stored(RowOf(d)))
  {
    StoredKeyLength(d.from, d.to);
    StoredTwice(RowOf(d));
    assert IsRowOf(Stored(RowOf(d)), d);
  }

  /** Rows under the key of `user` and a text, unless the key is cut inside the text, are direct
      messages of the account of `user`. */
  lemma ThreadRow(routed: seq<DirectMessage>, user: string, t: string, m: ChatMessage)
    requires Account(user) && Keepable(routed, m) && m.room == StoredKey(user, t) && !CutInside(user, t)
    ensures Own(routed, user, m)
    ensures NUL !in user || Less(t, user) ==> Between(routed, user, t, m)
  {
    StoredKeyIsNoRoom(user, t);
    var d :| d in routed && IsRowOf(m, d);
    StoredKeyDetermines(d.from, d.to, user, t);
  }

  /** A query answers with what may be replayed to the name that asks. */
  lemma QueryReplayable(sh: Shared, user: string, room: string, limit: int)
    requires DbOk(sh) && Account(user) && 1 <= limit <= MAX_LIMIT
    requires ChatRoom(room) || exists t :: (user, t) in sh.asked && room == DmKey(user, t)
    ensures Replayable(sh, user, RecentMessages(sh.db, room, limit))
  {
    var ms := RecentMessages(sh.db, room, limit);
    RecentIsStored(sh.db, room, limit);
    forall i | 0 <= i < |ms| ensures Kept(sh.db, ms[i]) && Keepable(sh.routed, ms[i]) && ms[i].room == CStr(room) {
      RecentRow(sh, ms, room, i);
    }
    if ChatRoom(room) {
      RoomHasNoNul(room);
      assert SaidIn(room, ms);
    } else {
      var t :| (user, t) in sh.asked && room == DmKey(user, t);
      assert KeptFor(user, t, ms);
    }
  }

  lemma RecentRow(sh: Shared, ms: seq<ChatMessage>, room: string, i: nat)
    requires DbOk(sh) && i < |ms|
    requires ms[i].room == CStr(room) && exists r :: r in sh.db.messages && r.message == ms[i]
    ensures Kept(sh.db, ms[i]) && Keepable(sh.routed, ms[i]) && ms[i].room == CStr(room)
  {
    var r :| r in sh.db.messages && r.message == ms[i];
    var k :| 0 <= k < |sh.db.messages| && sh.db.messages[k] == r;
  }

  lemma ReplaySafe(env: Env, sh: Shared, user: string, room: string, limit: int, ok: bool)
    requires DbOk(sh) && Account(user) && Safe(env, sh, user, Replay(room, limit))
    ensures MayReceive(env, sh, user, HistoryReply(env, room, if ok then RecentMessages(sh.db, room, limit) else []))
  {
    if ok {
      QueryReplayable(sh, user, room, limit);
    }
  }

  lemma EntranceSafe(env: Env, sh: Shared, s: Sock, username: string)
    requires LoginName(username) && HasAccount(sh.db, CStr(username))
    ensures AllSafe(env, sh, username, Entrance(s, username))
  {
    GeneralIsChatRoom();
  }

  /** Who logs in has an account, and accounts have valid names. */
  lemma LoginIsValid(h: Hash, sh: Shared, username: string, password: string)
    requires DbOk(sh) && AuthenticateUser(h, sh.db, username, password)
    ensures Account(username) && HasAccount(sh.db, CStr(username))
  {
    UserOfIsRow(sh.db.users, CStr(username));
  }

  lemma {:induction false} UserOfIsRow(users: seq<UserRow>, name: string)
    ensures UserOf(users, name).Some? ==> exists i :: 0 <= i < |users| && users[i] == UserOf(users, name).value && users[i].username == name
  {
    if users != [] {
      if users[0].username == name {
        assert users[0] == UserOf(users, name).value;
      } else {
        UserOfIsRow(users[1..], name);
        if UserOf(users, name).Some? {
          var i :| 0 <= i < |users[1..]| && users[1..][i] == UserOf(users, name).value && users[1..][i].username == name;
          assert users[i + 1] == users[1..][i];
        }
      }
    }
  }

  lemma AttemptSafe(env: Env, sh: Shared, s: Sock, local: Local, a: Action, ok: bool)
    requires (a.TryRegister? || a.TryLogin?) && DbOk(sh) && Safe(env, sh, local.username, a)
    ensures AllSafe(env, SharedAfter(env, sh, s, a, ok), LocalAfter(env, sh, local, a, ok).username, NextBlocks(env, sh, s, a, ok))
  {
    if Succeeds(env, sh.db, a, ok) {
      if a.TryLogin? {
        LoginIsValid(env.hash, sh, a.username, a.password);
      } else {
        ValidIsLoginName(a.username);
        RegisterKeepsAccounts(env, sh.db, a, CStr(a.username));
      }
      EntranceSafe(env, SharedAfter(env, sh, s, a, ok), s, a.username);
    }
  }

  lemma DeliveriesSafe(env: Env, sh: Shared, user: string, target: Option<Sock>, s: Sock, dm: DirectMessage)
    requires target.Some? ==> Keepable(sh.routed, Stored(RowOf(dm)))
    ensures AllSafe(env, sh, user, Deliveries(env, target, s, dm))
  {
    var d := Deliveries(env, target, s, dm);
    if target.Some? {
      assert |d| == 3 && d[0] == StoreMessage(RowOf(dm), DIRECT_STORE_FAILED);
      assert Safe(env, sh, user, d[0]) && Safe(env, sh, user, d[1]) && Safe(env, sh, user, d[2]);
    } else {
      assert |d| == 1 && Safe(env, sh, user, d[0]);
    }
  }

  lemma RouteSafe(env: Env, sh: Shared, s: Sock, local: Local, a: Action, ok: bool)
    requires a.Route? && LoginName(local.username) && Safe(env, sh, local.username, a)
    requires FindUser(sh.clients, a.target).Some? ==> LoginName(a.target)
    ensures AllSafe(env, SharedAfter(env, sh, s, a, ok), local.username, NextBlocks(env, sh, s, a, ok))
  {
    var target, dm := FindUser(sh.clients, a.target), RoutedMessage(a);
    if target.Some? {
      RowKeepable(sh.routed + [dm], dm);
    }
    DeliveriesSafe(env, SharedAfter(env, sh, s, a, ok), local.username, target, s, dm);
  }

  /** The context in which a thread's block runs. */
  ghost predicate MayRun(env: Env, sh: Shared, local: Local, a: Action) {
    && DbOk(sh) && LocalOk(sh, local) && Allowed(local.phase, a) && Safe(env, sh, local.username, a)
    && (a.Route? && FindUser(sh.clients, a.target).Some? ==> LoginName(a.target))
  }

  lemma SendsSafe(env: Env, sh: Shared, s: Sock, local: Local, a: Action, ok: bool)
    requires (a.Broadcast? || a.Air?) && Safe(env, sh, local.username, a)
    ensures AllSafe(env, SharedAfter(env, sh, s, a, ok), local.username, NextBlocks(env, sh, s, a, ok))
  {
  }

  /** Blocks that answer with one message that is no history, or with another block. */
  lemma FewSafe(env: Env, sh: Shared, s: Sock, a: Action, ok: bool, sh': Shared, user: string)
    requires a.StoreMessage? || a.CountClients? || a.ListRoomsFor? || a.ListUsers?
    ensures AllSafe(env, sh', user, NextBlocks(env, sh, s, a, ok))
  {
    var next := NextBlocks(env, sh, s, a, ok);
    assert |next| <= 1;
    assert next != [] ==> next[0].ListRoomsFor? || (next[0].Reply? && next[0].msg.kind != History);
  }

  lemma BlockSafe(env: Env, sh: Shared, s: Sock, local: Local, a: Action, ok: bool)
    requires MayRun(env, sh, local, a)
    ensures AllSafe(env, SharedAfter(env, sh, s, a, ok), LocalAfter(env, sh, local, a, ok).username, NextBlocks(env, sh, s, a, ok))
  {
    var sh' := SharedAfter(env, sh, s, a, ok);
    match a
    case TryRegister(_, _, _, _) => AttemptSafe(env, sh, s, local, a, ok);
    case TryLogin(_, _) => AttemptSafe(env, sh, s, local, a, ok);
    case Replay(room, limit) => ReplaySafe(env, sh, local.username, room, limit, ok);
    case Route(_, _, _, _) => RouteSafe(env, sh, s, local, a, ok);
    case Broadcast(_, _, _) => SendsSafe(env, sh, s, local, a, ok);
    case Air(_, _) => SendsSafe(env, sh, s, local, a, ok);
    case StoreMessage(_, _) => FewSafe(env, sh, s, a, ok, sh', LocalAfter(env, sh, local, a, ok).username);
    case CountClients => FewSafe(env, sh, s, a, ok, sh', LocalAfter(env, sh, local, a, ok).username);
    case ListRoomsFor(_) => FewSafe(env, sh, s, a, ok, sh', LocalAfter(env, sh, local, a, ok).username);
    case ListUsers(_) => FewSafe(env, sh, s, a, ok, sh', LocalAfter(env, sh, local, a, ok).username);
    case _ => QuietNext(env, sh, s, a, ok);
  }

  // ----- One block: the database and the locals -----

  lemma AccountsStay(env: Env, sh: Shared, s: Sock, a: Action, ok: bool)
    requires a.TryRegister? && DbOk(sh) && ValidUsername(a.username)
    ensures DbOk(SharedAfter(env, sh, s, a, ok))
  {
    NameHasNoNul(a.username);
  }

  lemma StoringStays(env: Env, sh: Shared, s: Sock, a: Action, ok: bool)
    requires a.StoreMessage? && DbOk(sh) && Keepable(sh.routed, Stored(a.message))
    ensures DbOk(SharedAfter(env, sh, s, a, ok))
  {
  }

  lemma RoutingStays(env: Env, sh: Shared, s: Sock, a: Action, ok: bool)
    requires a.Route? && DbOk(sh)
    ensures DbOk(SharedAfter(env, sh, s, a, ok))
  {
    var sh' := SharedAfter(env, sh, s, a, ok);
    BlockGrows(env, sh, s, a, ok);
    forall i | 0 <= i < |sh.db.messages| ensures Keepable(sh'.routed, sh.db.messages[i].message) {
      KeepableGrows(sh, sh', sh.db.messages[i].message);
    }
  }

  lemma BlockDbOk(env: Env, sh: Shared, s: Sock, local: Local, a: Action, ok: bool)
    requires MayRun(env, sh, local, a)
    ensures DbOk(SharedAfter(env, sh, s, a, ok))
  {
    match a
    case TryRegister(_, _, _, _) => AccountsStay(env, sh, s, a, ok);
    case StoreMessage(_, _) => StoringStays(env, sh, s, a, ok);
    case Route(_, _, _, _) => RoutingStays(env, sh, s, a, ok);
    case _ =>
  }

  lemma BlockLocalOk(env: Env, sh: Shared, s: Sock, local: Local, a: Action, ok: bool)
    requires MayRun(env, sh, local, a)
    ensures LocalOk(SharedAfter(env, sh, s, a, ok), LocalAfter(env, sh, local, a, ok))
  {
    GeneralIsChatRoom();
    BlockGrows(env, sh, s, a, ok);
  }

  lemma BlockBoxOk(env: Env, sh: Shared, s: Sock, local: Local, a: Action, ok: bool, outbox: seq<Msg>)
    requires MayRun(env, sh, local, a) && BoxOk(env, sh, local, outbox)
    ensures BoxOk(env, SharedAfter(env, sh, s, a, ok), LocalAfter(env, sh, local, a, ok), outbox)
  {
    var sh', local' := SharedAfter(env, sh, s, a, ok), LocalAfter(env, sh, local, a, ok);
    BlockGrows(env, sh, s, a, ok);
    forall i | 0 <= i < |outbox| ensures MayReceive(env, sh', local'.username, outbox[i]) {
      MayReceiveGrows(env, sh, sh', local.username, outbox[i]);
    }
  }

  // ----- One block: the whole thread, and the others -----

  /** The thread whose block runs, before its message is sent. */
  function Advanced(env: Env, sh: Shared, s: Sock, t: Thread, ok: bool): Thread
    requires t.todo != []
  {
    Thread(LocalAfter(env, sh, t.local, t.todo[0], ok), NextBlocks(env, sh, s, t.todo[0], ok) + t.todo[1..], t.outbox)
  }

  lemma BlockThreadOk(env: Env, sh: Shared, s: Sock, t: Thread, ok: bool)
    requires t.todo != [] && ThreadOk(env, sh, t) && MayRun(env, sh, t.local, t.todo[0])
    ensures ThreadOk(env, SharedAfter(env, sh, s, t.todo[0], ok), Advanced(env, sh, s, t, ok))
  {
    var a := t.todo[0];
    var sh', local' := SharedAfter(env, sh, s, a, ok), LocalAfter(env, sh, t.local, a, ok);
    BlockLocalOk(env, sh, s, t.local, a, ok);
    BlockShaped(env, sh, s, t.local, t.todo, ok);
    BlockSafe(env, sh, s, t.local, a, ok);
    BlockBoxOk(env, sh, s, t.local, a, ok, t.outbox);
    BlockGrows(env, sh, s, a, ok);
    assert AllSafe(env, sh', local'.username, t.todo[1..]) by {
      if a.TryRegister? || a.TryLogin? {
        assert t.todo[1..] == [];
      } else {
        UserStays(env, sh, t.local, a, ok);
        AllSafeGrows(env, sh, sh', t.local.username, t.todo[1..]);
      }
    }
  }

  lemma UserStays(env: Env, sh: Shared, local: Local, a: Action, ok: bool)
    requires !a.TryRegister? && !a.TryLogin? && Safe(env, sh, local.username, a)
    ensures LocalAfter(env, sh, local, a, ok).username == local.username
  {
  }

  lemma ReceivingOk(env: Env, sh: Shared, t: Thread, m: Msg)
    requires ThreadOk(env, sh, t) && MayReceive(env, sh, t.local.username, m)
    requires t.local.phase == Authenticating ==> m.kind != History
    ensures ThreadOk(env, sh, Receiving(t, m))
  {
  }

  lemma DeliveredThread(threads: map<Sock, Thread>, sent: Option<(Sock, Msg)>, r: Sock)
    requires r in threads
    ensures r in Delivered(threads, sent)
    ensures Delivered(threads, sent)[r] == if sent.Some? && sent.value.0 == r then Receiving(threads[r], sent.value.1) else threads[r]
  {
  }

  lemma DeliveredKeys(threads: map<Sock, Thread>, sent: Option<(Sock, Msg)>)
    ensures forall r :: r in Delivered(threads, sent) <==> r in threads
  {
  }

  // ----- One block: the registry -----

  lemma {:induction false} UniqueFresh(clients: seq<ClientInfo>, c: ClientInfo)
    requires Unique(clients) && !Listed(clients, c.socket)
    ensures Unique(clients + [c])
  {
    forall i | 0 <= i < |clients| ensures clients[i].socket != c.socket {
    }
  }

  lemma {:induction false} WithoutUnique(clients: seq<ClientInfo>, s: Sock)
    requires Unique(clients)
    ensures Unique(Without(clients, s))
  {
    if clients != [] {
      WithoutUnique(clients[1..], s);
      WithoutKeeps(clients[1..], s);
      var later := Without(clients[1..], s);
      forall i | 0 <= i < |later| ensures later[i].socket != clients[0].socket {
        assert later[i] in later;
        assert later[i] in clients[1..];
      }
    }
  }

  lemma WithoutListed(clients: seq<ClientInfo>, s: Sock, r: Sock)
    ensures Listed(Without(clients, s), r) <==> Listed(clients, r) && r != s
  {
    WithoutKeeps(clients, s);
    var kept := Without(clients, s);
    if Listed(clients, r) && r != s {
      var i :| 0 <= i < |clients| && clients[i].socket == r;
      assert clients[i] in kept;
    }
    if Listed(kept, r) {
      var i :| 0 <= i < |kept| && kept[i].socket == r;
      assert kept[i] in kept;
    }
  }

  lemma {:induction false} WithoutByAge(stamps: map<Sock, nat>, clients: seq<ClientInfo>, s: Sock)
    requires ByAge(stamps, clients)
    ensures ByAge(stamps, Without(clients, s))
  {
    if clients != [] {
      WithoutByAge(stamps, clients[1..], s);
      WithoutKeeps(clients[1..], s);
      var later := Without(clients[1..], s);
      forall i | 0 <= i < |later|
        ensures clients[0].socket in stamps && later[i].socket in stamps ==> stamps[clients[0].socket] < stamps[later[i].socket]
      {
        assert later[i] in later;
        assert later[i] in clients[1..];
      }
    }
  }

  /** A change of locals that leaves the phase `Chatting` alone, or leaves a chatting thread alone,
      is invisible in the registry. */
  lemma RegistryUntouched(clients: seq<ClientInfo>, threads: map<Sock, Thread>, s: Sock, t': Thread)
    requires RegistryOk(clients, threads) && s in threads
    requires threads[s].local.phase == Chatting || t'.local.phase == Chatting ==> t'.local == threads[s].local
    ensures RegistryOk(clients, threads[s := t'])
  {
    var after := threads[s := t'];
    forall i | 0 <= i < |clients| ensures Agrees(after, clients[i]) {
      assert Agrees(threads, clients[i]);
    }
    forall r | r in after && after[r].local.phase == Chatting ensures Listed(clients, r) {
      assert r in threads && threads[r].local.phase == Chatting;
    }
  }

  lemma RegistryEnter(clients: seq<ClientInfo>, threads: map<Sock, Thread>, s: Sock, username: string, t': Thread)
    requires RegistryOk(clients, threads) && s in threads && threads[s].local.phase == Authenticating
    requires t'.local == Local(Chatting, username, DEFAULT_ROOM)
    ensures RegistryOk(clients + [ClientInfo(s, username, DEFAULT_ROOM)], threads[s := t'])
  {
    var c := ClientInfo(s, username, DEFAULT_ROOM);
    var after, more := threads[s := t'], clients + [c];
    forall i | 0 <= i < |clients| ensures clients[i].socket != s && Agrees(after, clients[i]) {
      assert Agrees(threads, clients[i]);
    }
    UniqueFresh(clients, c);
    forall r | r in after && after[r].local.phase == Chatting ensures Listed(more, r) {
      if r == s {
        assert more[|clients|].socket == s;
      } else {
        assert Listed(clients, r);
        var i :| 0 <= i < |clients| && clients[i].socket == r;
        assert more[i].socket == r;
      }
    }
  }

  lemma RegistryMove(clients: seq<ClientInfo>, threads: map<Sock, Thread>, s: Sock, room: string, t': Thread)
    requires RegistryOk(clients, threads) && s in threads && threads[s].local.phase == Chatting
    requires t'.local == threads[s].local.(room := room)
    ensures RegistryOk(WithRoom(clients, s, room), threads[s := t'])
  {
    var after, moved := threads[s := t'], WithRoom(clients, s, room);
    WithRoomAt(clients, s, room);
    forall i | 0 <= i < |moved| ensures Agrees(after, moved[i]) && moved[i].socket == clients[i].socket {
      assert Agrees(threads, clients[i]);
    }
    forall r | r in after && after[r].local.phase == Chatting ensures Listed(moved, r) {
      assert Listed(clients, r);
      var i :| 0 <= i < |clients| && clients[i].socket == r;
      assert moved[i].socket == r;
    }
  }

  lemma RegistryLeave(clients: seq<ClientInfo>, threads: map<Sock, Thread>, s: Sock, t': Thread)
    requires RegistryOk(clients, threads) && s in threads && t'.local.phase == Leaving
    ensures RegistryOk(Without(clients, s), threads[s := t'])
  {
    var after, kept := threads[s := t'], Without(clients, s);
    WithoutUnique(clients, s);
    WithoutKeeps(clients, s);
    forall i | 0 <= i < |kept| ensures Agrees(after, kept[i]) {
      assert kept[i] in kept;
      assert kept[i] in clients;
      var j :| 0 <= j < |clients| && clients[j] == kept[i];
      assert Agrees(threads, clients[j]);
    }
    forall r | r in after && after[r].local.phase == Chatting ensures Listed(kept, r) {
      WithoutListed(clients, s, r);
    }
  }

  lemma BlockRegistryOk(env: Env, sh: Shared, threads: map<Sock, Thread>, s: Sock, ok: bool)
    requires s in threads && threads[s].todo != [] && RegistryOk(sh.clients, threads)
    requires MayRun(env, sh, threads[s].local, threads[s].todo[0])
    ensures RegistryOk(SharedAfter(env, sh, s, threads[s].todo[0], ok).clients,
                       threads[s := Advanced(env, sh, s, threads[s], ok)])
  {
    var t, t', a := threads[s], Advanced(env, sh, s, threads[s], ok), threads[s].todo[0];
    if a.Enter? {
      RegistryEnter(sh.clients, threads, s, a.username, t');
    } else if a.MoveTo? {
      RegistryMove(sh.clients, threads, s, a.room, t');
    } else if a.Leave? {
      RegistryLeave(sh.clients, threads, s, t');
    } else {
      LocalQuiet(env, sh, t.local, a, ok);
      RegistryUntouched(sh.clients, threads, s, t');
    }
  }

  lemma LocalQuiet(env: Env, sh: Shared, local: Local, a: Action, ok: bool)
    requires Allowed(local.phase, a) && !a.Enter? && !a.MoveTo? && !a.Leave?
    ensures var local' := LocalAfter(env, sh, local, a, ok);
            local.phase == Chatting || local'.phase == Chatting ==> local' == local
  {
  }

  /** Sending touches no thread's locals. */
  lemma RegistryDelivered(clients: seq<ClientInfo>, threads: map<Sock, Thread>, sent: Option<(Sock, Msg)>)
    requires RegistryOk(clients, threads)
    ensures RegistryOk(clients, Delivered(threads, sent))
  {
    if sent.Some? && sent.value.0 in threads {
      var r := sent.value.0;
      RegistryUntouched(clients, threads, r, Receiving(threads[r], sent.value.1));
    }
  }

  lemma BlockOrderOk(env: Env, sh: Shared, threads: map<Sock, Thread>, s: Sock, a: Action, ok: bool)
    requires OrderOk(sh) && RegistryOk(sh.clients, threads) && (a.Enter? ==> !Listed(sh.clients, s))
    ensures OrderOk(SharedAfter(env, sh, s, a, ok))
  {
    match a
    case Enter(_) =>
      forall i | 0 <= i < |sh.clients| ensures sh.clients[i].socket != s {
      }
    case MoveTo(room) => WithRoomAt(sh.clients, s, room);
    case Leave =>
      WithoutByAge(sh.stamps, sh.clients, s);
      WithoutKeeps(sh.clients, s);
      var kept := Without(sh.clients, s);
      forall i | 0 <= i < |kept| ensures kept[i].socket in sh.stamps {
        assert kept[i] in kept;
        assert kept[i] in sh.clients;
      }
    case _ =>
  }
}
