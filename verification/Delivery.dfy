/** Who gets what: the login that is attempted, and the recipients and contents of a chat message,
    a direct message and a member list. */
module Delivery {
  import opened Seqs
  import opened Framing
  import opened Text
  import opened Names
  import opened Requests
  import opened Messages
  import opened Codec
  import opened Registry
  import opened Store
  import opened RoomListing
  import opened Server
  import opened Invariant
  import opened Reachable
  import opened Guarantees
  import opened Replays
  import opened Sending

  // ----- Logging in -----

  lemma FrameDecodes(kind: MsgType, payload: string)
    requires Proper(kind)
    ensures DecodeMessage(EncodeMessage(Msg(kind, payload))) == Some(Msg(kind, payload))
  {
    MessageRoundTrip(Msg(kind, payload), "");
  }

  /** The frame the client sends for a name and a password makes the server try exactly that name
      and password; registering is refused before the database is asked when the name is not valid
      or the password is short. */
  lemma CredentialsAreTried(username: string, password: string, salt: string, now: Int64)
    requires '\n' !in username && Tight(username)
    ensures var payload := username + "\n" + password;
            && HandleAuth(EncodeMessage(Msg(Login, payload)), salt, now) == [TryLogin(username, password)]
            && HandleAuth(EncodeMessage(Msg(Register, payload)), salt, now) ==
               if !ValidUsername(username) then [Reply(Refusal(BAD_USERNAME))]
               else if |password| < 6 then [Reply(Refusal(SHORT_PASSWORD))]
               else [TryRegister(username, password, salt, now)]
  {
    var payload := username + "\n" + password;
    CredentialsRoundTrip(username, password);
    TrimOfTight(username);
    FrameDecodes(Login, payload);
    FrameDecodes(Register, payload);
  }

  /** Before the login nothing else a frame can say touches accounts, rooms or history. */
  lemma OnlyLoginsBefore(frame: string, salt: string, now: Int64)
    ensures var todo := HandleAuth(frame, salt, now);
            && |todo| == 1
            && (todo[0].TryLogin? || todo[0].TryRegister? || (todo[0].Reply? && todo[0].msg.kind == AuthFail))
            && (todo[0].TryLogin? ==> DecodeMessage(frame).Some? && DecodeMessage(frame).value.kind == Login)
            && (todo[0].TryRegister? ==> DecodeMessage(frame).Some? && DecodeMessage(frame).value.kind == Register)
  {
  }

  // ----- A chat message -----

  function Addressed(a: Action, env: Env): Msg
    requires a.Broadcast? || a.Air?
  {
    if a.Broadcast? then a.msg else ChatNote(env, a.message)
  }

  function Audience(a: Action): string
    requires a.Broadcast? || a.Air?
  {
    if a.Broadcast? then a.room else a.message.room
  }

  /** A broadcast is sent to the members of the room when the snapshot is taken, except the one
      excluded: to each of them once, and to nobody else. */
  lemma BroadcastReaches(env: Env, sh: Shared, s: Sock, a: Action, ok: bool, r: Sock)
    requires (a.Broadcast? || a.Air?) && Unique(sh.clients)
    ensures var next := NextBlocks(env, sh, s, a, ok);
            && (SendTo(r, Addressed(a, env)) in next <==> Some(r) != a.exclude && Member(sh.clients, Audience(a), r))
            && Distinct(next)
  {
    var next, sockets := NextBlocks(env, sh, s, a, ok), Recipients(sh.clients, Audience(a), a.exclude);
    RecipientIs(sh.clients, Audience(a), a.exclude, r);
    RecipientsDistinct(sh.clients, Audience(a), a.exclude);
    assert next == SendsTo(sockets, Addressed(a, env));
    if r in sockets {
      var i :| 0 <= i < |sockets| && sockets[i] == r;
      assert next[i] == SendTo(r, Addressed(a, env));
    }
  }

  /** What a chatting thread is sent as a chat message is stored, and then sent, trimmed and under
      the sender's name and room, to every other thread in the room and to nobody else. */
  lemma ChatReachesRoom(env: Env, run: seq<Step>, st: State, s: Sock, payload: string, now: Int64, ok: bool, r: Sock)
    requires After(env, run) == Some(st) && s in st.threads && r in st.threads
    requires st.threads[s].local.phase == Chatting && Trim(payload) != ""
    ensures var local := st.threads[s].local;
            var todo := HandleChat(s, local.username, local.room, payload, now);
            var said := ChatMessage(local.room, local.username, Trim(payload), now);
            && |todo| == 2 && todo[0] == StoreMessage(said, STORE_FAILED) && todo[1].Air?
            && (SendTo(r, ChatNote(env, said)) in NextBlocks(env, st.shared, s, todo[1], ok) <==>
                r != s && st.threads[r].local.phase == Chatting && st.threads[r].local.room == local.room)
  {
    var local := st.threads[s].local;
    AlwaysInv(env, run);
    BroadcastReaches(env, st.shared, s, HandleChat(s, local.username, local.room, payload, now)[1], ok, r);
    MemberIsChatting(st, local.room, r);
  }

  lemma MemberIsChatting(st: State, room: string, r: Sock)
    requires RegistryOk(st.shared.clients, st.threads) && r in st.threads
    ensures Member(st.shared.clients, room, r) <==>
            st.threads[r].local.phase == Chatting && st.threads[r].local.room == room
  {
    var clients := st.shared.clients;
    if Member(clients, room, r) {
      var i :| 0 <= i < |clients| && clients[i].socket == r && clients[i].room == room;
      assert Agrees(st.threads, clients[i]);
    }
    if st.threads[r].local.phase == Chatting {
      assert Listed(clients, r);
      var i :| 0 <= i < |clients| && clients[i].socket == r;
      assert Agrees(st.threads, clients[i]);
    }
  }

  lemma SendAhead(sockets: seq<Sock>, m: Msg, rest: seq<Action>, r: Sock) returns (post: seq<Action>)
    requires r in sockets
    ensures Ahead(SendsTo(sockets, m) + rest, SendTo(r, m), post)
  {
    var i :| 0 <= i < |sockets| && sockets[i] == r;
    var sends := SendsTo(sockets, m);
    post := sends[i + 1..] + rest;
    assert sends + rest == sends[..i] + ([SendTo(r, m)] + post);
  }

  lemma MemberHasThread(st: State, room: string, r: Sock)
    requires RegistryOk(st.shared.clients, st.threads) && Member(st.shared.clients, room, r)
    ensures r in st.threads
  {
    var i :| 0 <= i < |st.shared.clients| && st.shared.clients[i].socket == r && st.shared.clients[i].room == room;
    assert Agrees(st.threads, st.shared.clients[i]);
  }

  /** A block that sends nothing leaves all outboxes alone. */
  lemma UnsentOutbox(env: Env, st: State, s: Sock, ok: bool, r: Sock)
    requires s in st.threads && st.threads[s].todo != [] && r in st.threads && Sent(s, st.threads[s].todo[0]).None?
    ensures r in RunBlock(env, st, s, ok).threads && RunBlock(env, st, s, ok).threads[r].outbox == st.threads[r].outbox
  {
    DeliveredThread(st.threads[s := Advanced(env, st.shared, s, st.threads[s], ok)], Sent(s, st.threads[s].todo[0]), r);
  }

  lemma SnapshotLeavesSends(env: Env, st: State, s: Sock, ok: bool, r: Sock) returns (post: seq<Action>)
    requires Inv(env, st) && s in st.threads && st.threads[s].todo != []
    requires st.threads[s].todo[0].Broadcast? || st.threads[s].todo[0].Air?
    requires var a := st.threads[s].todo[0]; Some(r) != a.exclude && Member(st.shared.clients, Audience(a), r)
    ensures var m := Addressed(st.threads[s].todo[0], env); LeavesSend(env, st, s, ok, SendTo(r, m), post, r, m)
  {
    var a := st.threads[s].todo[0];
    RecipientIs(st.shared.clients, Audience(a), a.exclude, r);
    post := SendAhead(Recipients(st.shared.clients, Audience(a), a.exclude), Addressed(a, env), st.threads[s].todo[1..], r);
    TodoAfter(env, st, s, ok, s);
    MemberHasThread(st, Audience(a), r);
    UnsentOutbox(env, st, s, ok, r);
  }

  /** In every run, whatever the other threads do: once the thread that broadcasts has nothing left to
      do, each member of the room at the snapshot, except the one excluded, has been sent the message,
      exactly if its frame is within the cap; unless that connection is closed. */
  lemma BroadcastArrives(env: Env, run: seq<Step>, st: State, s: Sock, ok: bool, more: seq<Step>, st': State, r: Sock)
    requires After(env, run) == Some(st) && s in st.threads && st.threads[s].todo != []
    requires st.threads[s].todo[0].Broadcast? || st.threads[s].todo[0].Air?
    requires var a := st.threads[s].todo[0]; Some(r) != a.exclude && Member(st.shared.clients, Audience(a), r)
    requires After(env, (run + [Run(s, ok)]) + more) == Some(st') && s in st'.threads && st'.threads[s].todo == []
    ensures r in st.threads && Reached(st', r, Addressed(st.threads[s].todo[0], env), |st.threads[r].outbox|)
  {
    var a := st.threads[s].todo[0];
    AlwaysInv(env, run);
    var post := SnapshotLeavesSends(env, st, s, ok, r);
    ArrivesAfterBlock(env, run, st, s, ok, more, st', SendTo(r, Addressed(a, env)), post, r, Addressed(a, env));
  }

  /** A chat message: it reaches every other member of the room at the snapshot, exactly if room, name
      and text leave room for 17 bytes in a frame.  Otherwise it reaches nobody. */
  lemma ChatArrives(env: Env, run: seq<Step>, st: State, s: Sock, ok: bool, more: seq<Step>, st': State, r: Sock)
    requires PrintsChats(env) && After(env, run) == Some(st)
    requires s in st.threads && st.threads[s].todo != [] && st.threads[s].todo[0].Air?
    requires var a := st.threads[s].todo[0]; Some(r) != a.exclude && Member(st.shared.clients, a.message.room, r)
    requires After(env, (run + [Run(s, ok)]) + more) == Some(st') && s in st'.threads && st'.threads[s].todo == []
    ensures var m := st.threads[s].todo[0].message;
            && r in st.threads && r in st'.threads && |st.threads[r].outbox| <= |st'.threads[r].outbox|
            && (st'.threads[r].local.phase != Closed ==>
                  (ChatNote(env, m) in st'.threads[r].outbox[|st.threads[r].outbox|..]
                   <==> 17 + |m.room| + |m.username| + |m.content| <= 65536))
  {
    BroadcastArrives(env, run, st, s, ok, more, st', r);
    ChatSentIff(env, st.threads[s].todo[0].message);
  }

  /** A chat message that a client can send and that reaches nobody. */
  lemma LongChatIsRefused(env: Env, s: Sock, username: string, now: Int64)
    requires PrintsChats(env)
    ensures var text := seq(65530, i => 'a');
            var said := ChatMessage(DEFAULT_ROOM, username, text, now);
            && |EncodeMessage(Msg(Chat, text))| <= 65536
            && HandleFrame(s, username, DEFAULT_ROOM, EncodeMessage(Msg(Chat, text)), now) ==
               [StoreMessage(said, STORE_FAILED), Air(said, Some(s))]
            && !Sendable(ChatNote(env, said))
  {
    var text := seq(65530, i => 'a');
    TrimOfTight(text);
    FrameDecodes(Chat, text);
    ChatSentIff(env, ChatMessage(DEFAULT_ROOM, username, text, now));
  }

  /** One that is kept as two letters, and of which nobody is sent anything. */
  lemma CutChatIsRefused(env: Env, s: Sock, username: string, now: Int64)
    requires PrintsChats(env) && ValidUsername(username)
    ensures var text := "hi" + [NUL] + seq(65510, i => 'a');
            var said := ChatMessage(DEFAULT_ROOM, username, text, now);
            && |EncodeMessage(Msg(Chat, text))| <= 65536
            && HandleFrame(s, username, DEFAULT_ROOM, EncodeMessage(Msg(Chat, text)), now) ==
               [StoreMessage(said, STORE_FAILED), Air(said, Some(s))]
            && Stored(said) == ChatMessage(DEFAULT_ROOM, username, "hi", now)
            && !Sendable(ChatNote(env, said))
  {
    var text := "hi" + [NUL] + seq(65510, i => 'a');
    KeptAsHi(seq(65510, i => 'a'));
    TrimOfTight(text);
    FrameDecodes(Chat, text);
    NameHasNoNul(username);
    GeneralIsChatRoom();
    RoomHasNoNul(DEFAULT_ROOM);
    ChatSentIff(env, ChatMessage(DEFAULT_ROOM, username, text, now));
  }

  lemma KeptAsHi(tail: string)
    requires tail != "" && !Blank(tail[|tail| - 1])
    ensures var text := "hi" + [NUL] + tail; CStr(text) == "hi" && Tight(text) && text != ""
  {
    FindBehind("hi", NUL, tail);
    SlicesOfThree("hi", [NUL], tail);
  }

  // ----- Answers -----

  lemma AnswerLeavesSend(env: Env, st: State, s: Sock, ok: bool, m: Msg)
    requires s in st.threads && st.threads[s].todo != [] && Sent(s, st.threads[s].todo[0]).None?
    requires NextBlocks(env, st.shared, s, st.threads[s].todo[0], ok) == [Reply(m)]
    ensures LeavesSend(env, st, s, ok, Reply(m), st.threads[s].todo[1..], s, m)
  {
    var rest := st.threads[s].todo[1..];
    TodoAfter(env, st, s, ok, s);
    UnsentOutbox(env, st, s, ok, s);
    assert [Reply(m)] + rest == [] + ([Reply(m)] + rest);
  }

  /** A block that is answered with one message: the thread's own client has been sent it exactly if its
      frame is within the cap; unless the connection is closed. */
  lemma AnswerArrives(env: Env, run: seq<Step>, st: State, s: Sock, ok: bool, more: seq<Step>, st': State, m: Msg)
    requires After(env, run) == Some(st) && s in st.threads && st.threads[s].todo != []
    requires Sent(s, st.threads[s].todo[0]).None? && NextBlocks(env, st.shared, s, st.threads[s].todo[0], ok) == [Reply(m)]
    requires After(env, (run + [Run(s, ok)]) + more) == Some(st') && s in st'.threads && st'.threads[s].todo == []
    ensures Reached(st', s, m, |st.threads[s].outbox|)
  {
    AnswerLeavesSend(env, st, s, ok, m);
    ArrivesAfterBlock(env, run, st, s, ok, more, st', Reply(m), st.threads[s].todo[1..], s, m);
  }

  /** The list of rooms reaches the one who asks exactly if it is shorter than a frame may be; unless the
      connection is closed. */
  lemma RoomsArrive(env: Env, run: seq<Step>, st: State, s: Sock, ok: bool, more: seq<Step>, st': State)
    requires After(env, run) == Some(st) && s in st.threads && st.threads[s].todo != [] && st.threads[s].todo[0].ListRoomsFor?
    requires After(env, (run + [Run(s, ok)]) + more) == Some(st') && s in st'.threads && st'.threads[s].todo == []
    ensures var text := RoomList(st.threads[s].todo[0].clients, if ok then ListRooms(st.shared.db, LISTED_ROOMS) else []);
            && |st.threads[s].outbox| <= |st'.threads[s].outbox|
            && (st'.threads[s].local.phase != Closed ==>
                  (Note(text) in st'.threads[s].outbox[|st.threads[s].outbox|..] <==> |text| < 65536))
  {
    var text := RoomList(st.threads[s].todo[0].clients, if ok then ListRooms(st.shared.db, LISTED_ROOMS) else []);
    AnswerArrives(env, run, st, s, ok, more, st', Note(text));
  }

  // ----- A direct message -----

  /** `encode_direct_message` is the printer in use. */
  ghost predicate PrintsDirects(env: Env) {
    forall d :: env.direct(d) == DirectCodec().write(d)
  }

  /** `encode_user_list` is the printer in use. */
  ghost predicate PrintsUsers(env: Env) {
    forall names :: env.users(names) == UsersCodec().write(names)
  }

  lemma DeployedPrintsAll()
    ensures PrintsChats(Deployed()) && PrintsDirects(Deployed()) && PrintsUsers(Deployed())
  {
  }

  /** A frame that its reader decodes, completely, as this direct message. */
  predicate Carries(m: Msg, dm: DirectMessage) {
    m.kind == DirectMsg && DirectCodec().read(m.payload) == Parsed(dm, "")
  }

  lemma DirectCarried(env: Env, dm: DirectMessage)
    requires PrintsDirects(env) && DirectFields(dm).Fit()
    ensures Carries(DirectNote(env, dm), dm)
  {
    RecordComesBackIff(ChatMessage("", "", "", 0), dm, "");
    var printed := DirectCodec().write(dm);
    assert printed + "" == printed;
  }

  /** The blocks that store a direct message under the key of the two accounts and send one frame
      that carries it to two sockets. */
  ghost predicate StoredAndSent(next: seq<Action>, dm: DirectMessage, to: Sock, back: Sock) {
    exists m :: Carries(m, dm) && next == [StoreMessage(RowOf(dm), DIRECT_STORE_FAILED), SendTo(to, m), SendTo(back, m)]
  }

  /** What the sender is told when the target has no session. */
  function NotFound(target: string): Msg {
    Note("User '" + target + "' not found or offline.")
  }

  /** In every reachable state: a direct message whose target has a session is stored, and sent to
      the oldest session of the target and back to the sender, with the sender's own account as its
      author; otherwise the sender is answered, and nothing is stored or sent. */
  lemma DirectIsDelivered(env: Env, run: seq<Step>, st: State, s: Sock, ok: bool)
    requires PrintsDirects(env) && After(env, run) == Some(st)
    requires s in st.threads && st.threads[s].todo != [] && st.threads[s].todo[0].Route?
    ensures var a := st.threads[s].todo[0];
            var dm := DirectMessage(st.threads[s].local.username, a.target, a.content, a.now);
            var next := NextBlocks(env, st.shared, s, a, ok);
            if exists r :: Session(st.threads, r, a.target)
            then exists found :: OldestSession(st, found, a.target) && StoredAndSent(next, dm, found, s)
            else next == [Reply(NotFound(a.target))]
  {
    var a := st.threads[s].todo[0];
    AlwaysInv(env, run);
    HeadMayRun(env, st, s);
    RoutedToOldest(env, run, st, a.target);
    if FindUser(st.shared.clients, a.target).Some? {
      DeliveryCarries(env, st.shared, s, a, ok, st.threads[s].local);
    }
  }

  lemma DeliveryCarries(env: Env, sh: Shared, s: Sock, a: Action, ok: bool, local: Local)
    requires PrintsDirects(env) && a.Route? && FindUser(sh.clients, a.target).Some? && MayRun(env, sh, local, a)
    ensures StoredAndSent(NextBlocks(env, sh, s, a, ok), DirectMessage(local.username, a.target, a.content, a.now),
                          FindUser(sh.clients, a.target).value, s)
  {
    var dm := RoutedMessage(a);
    DirectCarried(env, dm);
  }

  /** A direct message is sent exactly if its type byte and its record fit a frame. */
  lemma DirectSentIff(env: Env, dm: DirectMessage)
    requires PrintsDirects(env)
    ensures Sendable(DirectNote(env, dm)) <==> 17 + |dm.from| + |dm.to| + |dm.content| <= 65536
  {
    RecordLength(DirectFields(dm));
  }

  lemma RouteLeavesSends(env: Env, st: State, s: Sock, ok: bool, found: Sock)
    requires Inv(env, st) && s in st.threads && st.threads[s].todo != [] && st.threads[s].todo[0].Route?
    requires FindUser(st.shared.clients, st.threads[s].todo[0].target) == Some(found)
    ensures var m, st' := DirectNote(env, RoutedMessage(st.threads[s].todo[0])), RunBlock(env, st, s, ok);
            && s in st'.threads && found in st.threads && found in st'.threads
            && Ahead(st'.threads[s].todo, SendTo(found, m), [SendTo(s, m)] + st.threads[s].todo[1..])
            && Ahead(st'.threads[s].todo, SendTo(s, m), st.threads[s].todo[1..])
            && st'.threads[s].outbox == st.threads[s].outbox && st'.threads[found].outbox == st.threads[found].outbox
  {
    var a, rest := st.threads[s].todo[0], st.threads[s].todo[1..];
    var dm := RoutedMessage(a);
    var m := DirectNote(env, dm);
    TodoAfter(env, st, s, ok, s);
    FoundHasThread(st, a.target);
    UnsentOutbox(env, st, s, ok, s);
    UnsentOutbox(env, st, s, ok, found);
    DeliveriesAhead(env, found, s, dm, rest);
  }

  lemma FoundHasThread(st: State, target: string)
    requires RegistryOk(st.shared.clients, st.threads) && FindUser(st.shared.clients, target).Some?
    ensures FindUser(st.shared.clients, target).value in st.threads
  {
    FindUserFirst(st.shared.clients, target);
    var i :| 0 <= i < |st.shared.clients| && FindUser(st.shared.clients, target).value == st.shared.clients[i].socket;
    assert Agrees(st.threads, st.shared.clients[i]);
  }

  lemma DeliveriesAhead(env: Env, found: Sock, s: Sock, dm: DirectMessage, rest: seq<Action>)
    ensures var m, todo := DirectNote(env, dm), Deliveries(env, Some(found), s, dm) + rest;
            Ahead(todo, SendTo(found, m), [SendTo(s, m)] + rest) && Ahead(todo, SendTo(s, m), rest)
  {
    var m := DirectNote(env, dm);
    var first := StoreMessage(RowOf(dm), DIRECT_STORE_FAILED);
    ThreeBlocks(first, SendTo(found, m), SendTo(s, m), rest, Deliveries(env, Some(found), s, dm));
  }

  lemma ThreeBlocks(a: Action, b: Action, c: Action, rest: seq<Action>, three: seq<Action>)
    requires three == [a, b, c]
    ensures Ahead(three + rest, b, [c] + rest) && Ahead(three + rest, c, rest)
  {
    assert three + rest == [a] + ([b] + ([c] + rest));
    assert three + rest == [a, b] + ([c] + rest);
  }

  /** A direct message with a live target: once the sender's thread has nothing left to do, the target's
      oldest session and the sender have been sent it, exactly if names and text leave room for 17
      bytes in a frame; unless that connection is closed.  Otherwise neither has. */
  lemma DirectArrives(env: Env, run: seq<Step>, st: State, s: Sock, ok: bool, more: seq<Step>, st': State, found: Sock, r: Sock)
    requires PrintsDirects(env) && After(env, run) == Some(st)
    requires s in st.threads && st.threads[s].todo != [] && st.threads[s].todo[0].Route?
    requires FindUser(st.shared.clients, st.threads[s].todo[0].target) == Some(found) && (r == found || r == s)
    requires After(env, (run + [Run(s, ok)]) + more) == Some(st') && s in st'.threads && st'.threads[s].todo == []
    ensures var dm := RoutedMessage(st.threads[s].todo[0]);
            && r in st.threads && r in st'.threads && |st.threads[r].outbox| <= |st'.threads[r].outbox|
            && (st'.threads[r].local.phase != Closed ==>
                  (DirectNote(env, dm) in st'.threads[r].outbox[|st.threads[r].outbox|..]
                   <==> 17 + |dm.from| + |dm.to| + |dm.content| <= 65536))
  {
    RouteArrives(env, run, st, s, ok, more, st', found, r);
    DirectSentIff(env, RoutedMessage(st.threads[s].todo[0]));
  }

  lemma RouteArrives(env: Env, run: seq<Step>, st: State, s: Sock, ok: bool, more: seq<Step>, st': State, found: Sock, r: Sock)
    requires After(env, run) == Some(st) && s in st.threads && st.threads[s].todo != [] && st.threads[s].todo[0].Route?
    requires FindUser(st.shared.clients, st.threads[s].todo[0].target) == Some(found) && (r == found || r == s)
    requires After(env, (run + [Run(s, ok)]) + more) == Some(st') && s in st'.threads && st'.threads[s].todo == []
    ensures r in st.threads && Reached(st', r, DirectNote(env, RoutedMessage(st.threads[s].todo[0])), |st.threads[r].outbox|)
  {
    AlwaysInv(env, run);
    var post := RouteLeavesSend(env, st, s, ok, found, r);
    var m := DirectNote(env, RoutedMessage(st.threads[s].todo[0]));
    ArrivesAfterBlock(env, run, st, s, ok, more, st', SendTo(r, m), post, r, m);
  }

  lemma RouteLeavesSend(env: Env, st: State, s: Sock, ok: bool, found: Sock, r: Sock) returns (post: seq<Action>)
    requires Inv(env, st) && s in st.threads && st.threads[s].todo != [] && st.threads[s].todo[0].Route?
    requires FindUser(st.shared.clients, st.threads[s].todo[0].target) == Some(found) && (r == found || r == s)
    ensures var m := DirectNote(env, RoutedMessage(st.threads[s].todo[0])); LeavesSend(env, st, s, ok, SendTo(r, m), post, r, m)
  {
    RouteLeavesSends(env, st, s, ok, found);
    var m, rest := DirectNote(env, RoutedMessage(st.threads[s].todo[0])), st.threads[s].todo[1..];
    post := if r == found then [SendTo(s, m)] + rest else rest;
  }

  /** A direct message that a client can send and that reaches neither side. */
  lemma LongDirectIsRefused(env: Env, username: string, now: Int64)
    requires PrintsDirects(env) && ValidUsername(username)
    ensures var text := seq(65520, i => 'a');
            var frame := EncodeMessage(Msg(Direct, "bob" + ['\n'] + text));
            && |frame| <= 65536 && DecodeMessage(frame) == Some(Msg(Direct, "bob" + ['\n'] + text))
            && HandleDirect(username, "bob" + ['\n'] + text, now) == [Route(username, "bob", text, now)]
            && !Sendable(DirectNote(env, DirectMessage(username, "bob", text, now)))
  {
    var text := seq(65520, i => 'a');
    FrameDecodes(Direct, "bob" + ['\n'] + text);
    FindBehind("bob", '\n', text);
    SlicesOfThree("bob", ['\n'], text);
    TrimOfTight("bob");
    TrimOfTight(text);
    DirectSentIff(env, DirectMessage(username, "bob", text, now));
  }

  /** A direct message without a live target: the sender is told exactly if the target's name leaves room
      for 30 bytes in a frame; unless its connection is closed. */
  lemma NotFoundArrives(env: Env, run: seq<Step>, st: State, s: Sock, ok: bool, more: seq<Step>, st': State)
    requires After(env, run) == Some(st) && s in st.threads && st.threads[s].todo != [] && st.threads[s].todo[0].Route?
    requires FindUser(st.shared.clients, st.threads[s].todo[0].target).None?
    requires After(env, (run + [Run(s, ok)]) + more) == Some(st') && s in st'.threads && st'.threads[s].todo == []
    ensures var target := st.threads[s].todo[0].target;
            && |st.threads[s].outbox| <= |st'.threads[s].outbox|
            && (st'.threads[s].local.phase != Closed ==>
                  (NotFound(target) in st'.threads[s].outbox[|st.threads[s].outbox|..] <==> 30 + |target| <= 65536))
  {
    AnswerArrives(env, run, st, s, ok, more, st', NotFound(st.threads[s].todo[0].target));
  }

  /** A direct message that a client can send, to a target that cannot exist, of which the sender is not
      told. */
  lemma LongTargetIsNotReported(username: string, now: Int64)
    ensures var target := seq(65510, i => 'a');
            var frame := EncodeMessage(Msg(Direct, target + ['\n'] + "hi"));
            && |frame| <= 65536 && DecodeMessage(frame) == Some(Msg(Direct, target + ['\n'] + "hi"))
            && HandleDirect(username, target + ['\n'] + "hi", now) == [Route(username, target, "hi", now)]
            && !ValidUsername(target) && NUL !in target && !Sendable(NotFound(target))
  {
    var target := seq(65510, i => 'a');
    FrameDecodes(Direct, target + ['\n'] + "hi");
    FindBehind(target, '\n', "hi");
    SlicesOfThree(target, ['\n'], "hi");
    TrimOfTight(target);
    TrimOfTight("hi");
  }

  // ----- The members of a room -----

  /** The name of a room reaches the server as it is: asking who is there asks for that room, no
      name asks for one's own, and joining moves there. */
  lemma RoomNamesAreRead(s: Sock, username: string, room: string, name: string)
    requires ChatRoom(name) && Tight(name)
    ensures HandleUsers(room, name) == [ListUsers(name)]
    ensures HandleUsers(room, "") == [ListUsers(room)]
    ensures MoveTo(name) in HandleJoin(s, username, room, name) <==> name != room
  {
    TightStays(name);
    TrimOfTight(name);
    JoinsThere(s, username, room, name);
  }

  lemma JoinsThere(s: Sock, username: string, room: string, name: string)
    requires name != "" && SanitizeRoom(name) == name
    ensures MoveTo(name) in HandleJoin(s, username, room, name) <==> name != room
  {
    if name != room {
      JoinBlocks(s, username, room, name);
    }
  }

  /** Names that a user list can hold. */
  predicate Listable(names: seq<string>) {
    |names| < 0x1_0000 && forall i | 0 <= i < |names| :: |names[i]| < 0x1_0000
  }

  /** A list of names that fits decodes, completely, as itself. */
  lemma NamesDecode(env: Env, names: seq<string>)
    requires PrintsUsers(env) && Listable(names)
    ensures UsersCodec().read(env.users(names)) == Parsed(names, "")
  {
    UsersComeBackIff(names, "");
    var printed := UsersCodec().write(names);
    assert printed + "" == printed;
  }

  function NamesTotal(names: seq<string>): nat {
    if names == [] then 0 else 2 + |names[0]| + NamesTotal(names[1..])
  }

  lemma {:induction false} NamesLength(write: string -> string, names: seq<string>)
    requires forall n :: |write(n)| == 2 + |n|
    ensures |WriteAll(write, names)| == NamesTotal(names)
  {
    if names != [] {
      NamesLength(write, names[1..]);
    }
  }

  /** A member list is sent exactly if type byte, count, and names with their lengths fit a frame. */
  lemma ListSentIff(env: Env, names: seq<string>)
    requires PrintsUsers(env)
    ensures Sendable(Msg(UsersList, env.users(names))) <==> 3 + NamesTotal(names) <= 65536
  {
    NamesLength(Sized(2).write, names);
  }

  /** The size of member lists, for all lists at once. */
  ghost predicate ListsSized(env: Env) {
    forall names :: Sendable(Msg(UsersList, env.users(names))) <==> 3 + NamesTotal(names) <= 65536
  }

  lemma PrintedListsSized(env: Env)
    requires PrintsUsers(env)
    ensures ListsSized(env)
  {
    forall names ensures Sendable(Msg(UsersList, env.users(names))) <==> 3 + NamesTotal(names) <= 65536 {
      ListSentIff(env, names);
    }
  }

  lemma {:induction false} UniformTotal(names: seq<string>, size: nat)
    requires forall i | 0 <= i < |names| :: |names[i]| == size
    ensures NamesTotal(names) == |names| * (2 + size)
  {
    if names != [] {
      UniformTotal(names[1..], size);
      OneSizeMore(|names|, 2 + size);
    }
  }

  /** Three thousand sessions with names of twenty characters are too many. */
  lemma LongListIsRefused(env: Env)
    requires PrintsUsers(env)
    ensures exists names :: |names| == 3000 && (forall i | 0 <= i < |names| :: |names[i]| == 20)
                            && !Sendable(Msg(UsersList, env.users(names)))
  {
    var name := seq(20, i => 'a');
    var names := seq(3000, i => name);
    UniformTotal(names, 20);
    ListSentIff(env, names);
  }

  /** The answer to `/who` is the printed list of the names in the room, each as often as it has
      sessions there; with fewer than 2^16 clients that list fits, so it decodes. */
  lemma WhoIsExact(env: Env, run: seq<Step>, st: State, s: Sock, room: string, ok: bool)
    requires After(env, run) == Some(st)
    ensures var names := UsersIn(st.shared.clients, room);
            && NextBlocks(env, st.shared, s, ListUsers(room), ok) == [Reply(Msg(UsersList, env.users(names)))]
            && (|st.shared.clients| < 0x1_0000 ==> Listable(names))
  {
    AlwaysInv(env, run);
    NamesShort(env, st, room);
  }

  /** The answer to `/who` reaches the one who asks exactly if the list, with 2 bytes for each name and 3
      for all, fits a frame; unless the connection is closed. */
  lemma WhoArrives(env: Env, run: seq<Step>, st: State, s: Sock, ok: bool, more: seq<Step>, st': State)
    requires ListsSized(env) && After(env, run) == Some(st)
    requires s in st.threads && st.threads[s].todo != [] && st.threads[s].todo[0].ListUsers?
    requires After(env, (run + [Run(s, ok)]) + more) == Some(st') && s in st'.threads && st'.threads[s].todo == []
    ensures var names := UsersIn(st.shared.clients, st.threads[s].todo[0].room);
            && |st.threads[s].outbox| <= |st'.threads[s].outbox|
            && (st'.threads[s].local.phase != Closed ==>
                  (Msg(UsersList, env.users(names)) in st'.threads[s].outbox[|st.threads[s].outbox|..]
                   <==> 3 + NamesTotal(names) <= 65536))
  {
    var names := UsersIn(st.shared.clients, st.threads[s].todo[0].room);
    AnswerArrives(env, run, st, s, ok, more, st', Msg(UsersList, env.users(names)));
  }

  lemma ClientNamed(env: Env, st: State, i: nat)
    requires Inv(env, st) && i < |st.shared.clients|
    ensures LoginName(st.shared.clients[i].username)
  {
    assert Agrees(st.threads, st.shared.clients[i]);
    assert ThreadOk(env, st.shared, st.threads[st.shared.clients[i].socket]);
  }

  lemma NamesShort(env: Env, st: State, room: string)
    requires Inv(env, st)
    ensures var names := UsersIn(st.shared.clients, room);
            |names| <= |st.shared.clients| && forall i | 0 <= i < |names| :: |names[i]| < 0x1_0000
  {
    forall i | 0 <= i < |st.shared.clients| ensures |st.shared.clients[i].username| < 0x1_0000 {
      ClientNamed(env, st, i);
    }
    UsersInShort(st.shared.clients, room);
  }

  lemma {:induction false} UsersInShort(clients: seq<ClientInfo>, room: string)
    requires forall i | 0 <= i < |clients| :: |clients[i].username| < 0x1_0000
    ensures var names := UsersIn(clients, room);
            |names| <= |clients| && forall i | 0 <= i < |names| :: |names[i]| < 0x1_0000
  {
    if clients != [] {
      UsersInShort(clients[1..], room);
    }
  }
}
