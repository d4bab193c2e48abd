/** chat_server.cpp as interleaved threads.

    Each connection's thread carries the list of atomic blocks it still has to run before it reads
    its next frame: one entry per block under `clients_mutex`, per database call, and per
    `send_frame`.  A handler is the function from the frame and the thread's locals to that list;
    running a block may put further blocks in front (a broadcast becomes its sends, a query its
    reply).  Any thread may run its next block at any time. */
module Server {
  import opened Text
  import opened Names
  import opened Requests
  import opened Messages
  import opened Codec
  import opened Framing
  import opened Registry
  import opened Store
  import opened RoomListing

  // ----- State -----

  datatype Action =
    | TryRegister(username: string, password: string, salt: string, now: Int64)
    | TryLogin(username: string, password: string)
    | Enter(username: string)                                          // clients.push_back
    | Reply(msg: Msg)                                                  // send on the own socket
    | SendTo(socket: Sock, msg: Msg)                                   // send on any socket
    | Broadcast(room: string, msg: Msg, exclude: Option<Sock>)         // broadcast_to_room: snapshot, then sends
    | Air(message: ChatMessage, exclude: Option<Sock>)                 // the same, of a chat message to its room
    | MoveTo(room: string)                                             // current_room, set_room
    | Replay(room: string, limit: int)                                 // get_recent_messages
    | StoreMessage(message: ChatMessage, onFailure: string)            // add_message
    | CountClients                                                     // first half of /rooms
    | ListRoomsFor(clients: seq<ClientInfo>)                           // second half of /rooms
    | Route(from: string, target: string, content: string, now: Int64) // find_client_by_username
    | ListUsers(room: string)                                          // users_in_room
    | Leave                                                            // clients.erase
    | Close                                                            // closesocket

  datatype Phase = Authenticating | Chatting | Leaving | Closed

  /** What a thread knows of itself: `username` and `room` are locals of `handle_client`. */
  datatype Local = Local(phase: Phase, username: string, room: string)

  datatype Thread = Thread(local: Local, todo: seq<Action>, outbox: seq<Msg>)

  /** What the threads share.  `stamps`, `clock`, `aired`, `routed` and `asked` only record what
      happened: when each client entered, every chat message broadcast, every direct message, and
      who asked for the direct messages with whom. */
  datatype Shared = Shared(
    clients: seq<ClientInfo>,
    db: Db,
    stamps: map<Sock, nat>,
    clock: nat,
    aired: seq<ChatMessage>,
    routed: seq<DirectMessage>,
    asked: seq<(string, string)>)

  datatype State = State(shared: Shared, threads: map<Sock, Thread>)

  const INIT := State(Shared([], EMPTY, map[], 0, [], [], []), map[])

  // ----- Messages the server sends -----

  // Two of the texts are written in two parts: proofs read how they begin, and the verifier does not
  // look far into a long literal.

  const COMMANDS: string :=
    "Commands: /" + "join <room> | /history [N] | /rooms | /msg <user> <text> | /who [room] | /dmhistory <user> [N] | /help | /quit"

  const MALFORMED_LOGIN: string := "Malformed login request."
  const LOGIN_FIRST: string := "Please log in or register an account first."
  const BAD_CREDENTIALS: string := "Invalid credentials format."
  const BAD_USERNAME: string := "Username must be 3-20 characters (letters, digits, '_' or '-')."
  const SHORT_PASSWORD: string := "Password must be at least 6 characters."
  const STORE_FAILED: string := "Failed to store the message in history."
  const DIRECT_STORE_FAILED: string := "Failed to " + "store the direct message in history."
  const EMPTY_ROOM: string := "Room name cannot be empty."
  const HISTORY_USAGE: string := "Usage: /dmhistory <user> [N]"
  const DIRECT_USAGE: string := "Usage: /msg <user> <message>"
  const MALFORMED: string := "Received a malformed message."
  const UNSUPPORTED: string := "Unsupported message type."

  function Note(text: string): Msg {
    Msg(System, text)
  }

  function Refusal(reason: string): Msg {
    Msg(AuthFail, reason)
  }

  function JoinedNote(username: string, room: string): Msg {
    Note(username + " joined " + room)
  }

  function LeftNote(username: string, room: string): Msg {
    Note(username + " left " + room)
  }

  /** How passwords are digested and records printed is left open here; `Deployed` is what
      sha256.cpp and protocol.cpp do. */
  datatype Env = Env(
    hash: Hash,
    chat: ChatMessage -> string,
    direct: DirectMessage -> string,
    history: seq<ChatMessage> -> string,
    users: seq<string> -> string)

  function Deployed(): Env {
    Env(Sha(), ChatCodec().write, DirectCodec().write, HistoryCodec().write, UsersCodec().write)
  }

  function ChatNote(env: Env, m: ChatMessage): Msg {
    Msg(ChatMsg, env.chat(m))
  }

  function DirectNote(env: Env, m: DirectMessage): Msg {
    Msg(DirectMsg, env.direct(m))
  }

  /** `send_frame` refuses anything larger. */
  predicate Sendable(m: Msg) {
    1 + |m.payload| <= MAX_PAYLOAD
  }

  // ----- handle_auth -----

  function HandleAuth(frame: string, salt: string, now: Int64): seq<Action> {
    var m := DecodeMessage(frame);
    if m.None? then [Reply(Refusal(MALFORMED_LOGIN))]
    else if m.value.kind != Login && m.value.kind != Register then
      [Reply(Refusal(LOGIN_FIRST))]
    else
      var credentials := ReadCredentials(m.value.payload);
      if credentials.None? then [Reply(Refusal(BAD_CREDENTIALS))]
      else
        var (username, password) := credentials.value;
        if m.value.kind == Login then [TryLogin(username, password)]
        else if !ValidUsername(username) then
          [Reply(Refusal(BAD_USERNAME))]
        else if |password| < 6 then [Reply(Refusal(SHORT_PASSWORD))]
        else [TryRegister(username, password, salt, now)]
  }

  // ----- handle_client, from authentication to the chat loop -----

  function Entrance(socket: Sock, username: string): seq<Action> {
    [Enter(username),
     Reply(Msg(AuthOk, username + "\n" + DEFAULT_ROOM)),
     Reply(Note("Welcome, " + username + "! You are in room '" + DEFAULT_ROOM + "'.")),
     Reply(Note(COMMANDS)),
     Replay(DEFAULT_ROOM, DEFAULT_LIMIT),
     Broadcast(DEFAULT_ROOM, JoinedNote(username, DEFAULT_ROOM), Some(socket))]
  }

  function Departure(username: string, room: string): seq<Action> {
    [Leave, Broadcast(room, LeftNote(username, room), None), Close]
  }

  // ----- The handlers of the chat loop -----

  function HandleChat(socket: Sock, username: string, room: string, payload: string, now: Int64): seq<Action> {
    var content := Trim(payload);
    if content == "" then []
    else
      var message := ChatMessage(room, username, content, now);
      [StoreMessage(message, STORE_FAILED),
       Air(message, Some(socket))]
  }

  function HandleJoin(socket: Sock, username: string, room: string, payload: string): seq<Action> {
    var newRoom := SanitizeRoom(payload);
    if newRoom == "" then [Reply(Note(EMPTY_ROOM))]
    else if newRoom == room then [Reply(Note("You are already in room '" + room + "'."))]
    else
      [Broadcast(room, LeftNote(username, room), Some(socket)),
       MoveTo(newRoom),
       Reply(Msg(Joined, newRoom)),
       Broadcast(newRoom, JoinedNote(username, newRoom), Some(socket)),
       Replay(newRoom, DEFAULT_LIMIT)]
  }

  function HandleHistory(username: string, room: string, payload: string): seq<Action> {
    match ReadHistoryRequest(payload)
    case Usage => [Reply(Note(HISTORY_USAGE))]
    case OfRoom(limit) => [Replay(room, limit)]
    case OfThread(user, limit) => [Replay(DmKey(username, user), limit)]
  }

  function HandleDirect(username: string, payload: string, now: Int64): seq<Action> {
    match ReadDirectRequest(payload)
    case None => [Reply(Note(DIRECT_USAGE))]
    case Some((target, content)) => [Route(username, target, content, now)]
  }

  function HandleUsers(room: string, payload: string): seq<Action> {
    [ListUsers(if Trim(payload) == "" then room else SanitizeRoom(payload))]
  }

  function HandleFrame(socket: Sock, username: string, room: string, frame: string, now: Int64): seq<Action> {
    match DecodeMessage(frame)
    case None => [Reply(Note(MALFORMED))]
    case Some(m) =>
      match m.kind
      case Chat => HandleChat(socket, username, room, m.payload, now)
      case Join => HandleJoin(socket, username, room, m.payload)
      case HistoryReq => HandleHistory(username, room, m.payload)
      case RoomsReq => [CountClients]
      case Direct => HandleDirect(username, m.payload, now)
      case UsersReq => HandleUsers(room, m.payload)
      case Quit => [Reply(Note("Goodbye, " + username + "!"))] + Departure(username, room)
      case _ => [Reply(Note(UNSUPPORTED))]
  }

  // ----- Running one block -----

  function HistoryReply(env: Env, room: string, history: seq<ChatMessage>): Msg {
    if history == [] then Note("No message history in room '" + room + "' yet.")
    else Msg(History, env.history(history))
  }

  function SendsTo(sockets: seq<Sock>, msg: Msg): (sends: seq<Action>)
    ensures |sends| == |sockets| && forall i | 0 <= i < |sockets| :: sends[i] == SendTo(sockets[i], msg)
  {
    seq(|sockets|, i requires 0 <= i < |sockets| => SendTo(sockets[i], msg))
  }

  /** How a direct message is kept: under the key of its two accounts. */
  function RowOf(dm: DirectMessage): ChatMessage {
    ChatMessage(DmKey(dm.from, dm.to), dm.from, dm.content, dm.timestamp)
  }

  function RoutedMessage(a: Action): DirectMessage
    requires a.Route?
  {
    DirectMessage(a.from, a.target, a.content, a.now)
  }

  /** Whether an authentication attempt goes through; `ok` says whether the database call works. */
  predicate Succeeds(env: Env, db: Db, a: Action, ok: bool)
    requires a.TryRegister? || a.TryLogin?
  {
    ok && if a.TryLogin? then AuthenticateUser(env.hash, db, a.username, a.password)
          else RegisterUser(env.hash, db, a.username, a.password, a.salt, a.now).1
  }

  /** What a block does to the shared data. */
  function SharedAfter(env: Env, sh: Shared, socket: Sock, a: Action, ok: bool): Shared {
    match a
    case TryRegister(username, password, salt, now) =>
      if Succeeds(env, sh.db, a, ok) then sh.(db := RegisterUser(env.hash, sh.db, username, password, salt, now).0) else sh
    case Enter(username) =>
      sh.(clients := sh.clients + [ClientInfo(socket, username, DEFAULT_ROOM)],
          stamps := sh.stamps[socket := sh.clock], clock := sh.clock + 1)
    case Air(message, _) => sh.(aired := sh.aired + [message])
    case MoveTo(room) => sh.(clients := WithRoom(sh.clients, socket, room))
    case StoreMessage(message, _) => if ok then sh.(db := AddMessage(sh.db, message)) else sh
    case Route(_, target, _, _) =>
      if FindUser(sh.clients, target).Some? then sh.(routed := sh.routed + [RoutedMessage(a)]) else sh
    case Leave => sh.(clients := Without(sh.clients, socket))
    case _ => sh
  }

  /** What it does to the thread's locals. */
  function LocalAfter(env: Env, sh: Shared, local: Local, a: Action, ok: bool): Local {
    match a
    case TryRegister(username, _, _, _) => if Succeeds(env, sh.db, a, ok) then local.(username := username) else local
    case TryLogin(username, _) => if Succeeds(env, sh.db, a, ok) then local.(username := username) else local
    case Enter(username) => Local(Chatting, username, DEFAULT_ROOM)
    case MoveTo(room) => local.(room := room)
    case Leave => local.(phase := Leaving)
    case Close => local.(phase := Closed)
    case _ => local
  }

  /** Which blocks it puts in front of the remaining ones. */
  function NextBlocks(env: Env, sh: Shared, socket: Sock, a: Action, ok: bool): seq<Action> {
    match a
    case TryRegister(username, password, salt, now) =>
      if Succeeds(env, sh.db, a, ok)
      then [Reply(Note("Account '" + username + "' created. Welcome!"))] + Entrance(socket, username)
      else [Reply(Refusal("Registration failed: " + if UserOf(sh.db.users, CStr(username)).Some? then TAKEN else NOT_STORED))]
    case TryLogin(username, _) =>
      if Succeeds(env, sh.db, a, ok) then Entrance(socket, username)
      else [Reply(Refusal("Login failed: " + INVALID))]
    case Broadcast(room, msg, exclude) => SendsTo(Recipients(sh.clients, room, exclude), msg)
    case Air(message, exclude) => SendsTo(Recipients(sh.clients, message.room, exclude), ChatNote(env, message))
    case Replay(room, limit) => [Reply(HistoryReply(env, room, if ok then RecentMessages(sh.db, room, limit) else []))]
    case StoreMessage(_, onFailure) => if ok then [] else [Reply(Note(onFailure))]
    case CountClients => [ListRoomsFor(sh.clients)]
    case ListRoomsFor(clients) =>
      [Reply(Note(RoomList(clients, if ok then ListRooms(sh.db, LISTED_ROOMS) else [])))]
    case Route(_, target, _, _) => Deliveries(env, FindUser(sh.clients, target), socket, RoutedMessage(a))
    case ListUsers(room) => [Reply(Msg(UsersList, env.users(UsersIn(sh.clients, room))))]
    case _ => []
  }

  /** A direct message is stored, then sent to the target and back to the sender. */
  function Deliveries(env: Env, target: Option<Sock>, socket: Sock, dm: DirectMessage): seq<Action> {
    match target
    case None => [Reply(Note("User '" + dm.to + "' not found or offline."))]
    case Some(found) =>
      [StoreMessage(RowOf(dm), DIRECT_STORE_FAILED),
       SendTo(found, DirectNote(env, dm)),
       SendTo(socket, DirectNote(env, dm))]
  }

  /** Which message it sends. */
  function Sent(socket: Sock, a: Action): Option<(Sock, Msg)> {
    match a
    case Reply(msg) => Some((socket, msg))
    case SendTo(to, msg) => Some((to, msg))
    case _ => None
  }

  function Receiving(thread: Thread, msg: Msg): Thread {
    if thread.local.phase != Closed && Sendable(msg) then thread.(outbox := thread.outbox + [msg]) else thread
  }

  function Delivered(threads: map<Sock, Thread>, sent: Option<(Sock, Msg)>): map<Sock, Thread> {
    if sent.Some? && sent.value.0 in threads
    then threads[sent.value.0 := Receiving(threads[sent.value.0], sent.value.1)]
    else threads
  }

  function RunBlock(env: Env, st: State, socket: Sock, ok: bool): State
    requires socket in st.threads && st.threads[socket].todo != []
  {
    var t, a := st.threads[socket], st.threads[socket].todo[0];
    var t' := Thread(LocalAfter(env, st.shared, t.local, a, ok),
                     NextBlocks(env, st.shared, socket, a, ok) + t.todo[1..],
                     t.outbox);
    State(SharedAfter(env, st.shared, socket, a, ok), Delivered(st.threads[socket := t'], Sent(socket, a)))
  }

  // ----- Steps and runs -----

  /** What a read returns: a frame (with the salt and the clock values its handler will use), or
      the end of the connection. */
  datatype Input = Arrived(data: string, salt: string, now: Int64) | Disconnected

  datatype Step = Accept(socket: Sock) | Receive(socket: Sock, input: Input) | Run(socket: Sock, ok: bool)

  function Handle(socket: Sock, local: Local, input: Input): seq<Action> {
    match input
    case Arrived(data, salt, now) =>
      if local.phase == Chatting then HandleFrame(socket, local.username, local.room, data, now)
      else HandleAuth(data, salt, now)
    case Disconnected =>
      if local.phase == Chatting then Departure(local.username, local.room) else [Close]
  }

  /** The request for direct messages that a frame makes, if it makes one. */
  function Asked(local: Local, input: Input): seq<(string, string)> {
    if local.phase != Chatting || input.Disconnected? then []
    else
      match DecodeMessage(input.data)
      case None => []
      case Some(m) =>
        if m.kind == HistoryReq && ReadHistoryRequest(m.payload).OfThread?
        then [(local.username, ReadHistoryRequest(m.payload).user)] else []
  }

  /** Frames come out of `read_next_frame`, so they are within the cap. */
  predicate InputOk(input: Input) {
    input.Arrived? ==> |input.data| <= MAX_PAYLOAD && HexSalt(input.salt)
  }

  /** A thread is at one of its two reads. */
  predicate AtRead(t: Thread) {
    t.todo == [] && (t.local.phase == Authenticating || t.local.phase == Chatting)
  }

  predicate Enabled(st: State, step: Step) {
    match step
    case Accept(s) => s !in st.threads
    case Receive(s, input) => s in st.threads && AtRead(st.threads[s]) && InputOk(input)
    case Run(s, _) => s in st.threads && st.threads[s].todo != []
  }

  function Next(env: Env, st: State, step: Step): State
    requires Enabled(st, step)
  {
    match step
    case Accept(s) => st.(threads := st.threads[s := Thread(Local(Authenticating, "", ""), [], [])])
    case Receive(s, input) =>
      var t := st.threads[s];
      State(st.shared.(asked := st.shared.asked + Asked(t.local, input)),
            st.threads[s := t.(todo := Handle(s, t.local, input))])
    case Run(s, ok) => RunBlock(env, st, s, ok)
  }

  /** The state a run leads to from the empty server, if each step is possible. */
  function After(env: Env, run: seq<Step>): Option<State> {
    if run == [] then Some(INIT)
    else
      var before := After(env, run[..|run| - 1]);
      var step := run[|run| - 1];
      if before.Some? && Enabled(before.value, step) then Some(Next(env, before.value, step)) else None
  }
}
