/** The members of a room as an observer there counts them: from the member list on entering,
    by the "joined" and "left" notes it receives afterwards.  This file follows one observer
    through the blocks of one handler. */
module Presence {
  import opened Seqs
  import opened Text
  import opened Names
  import opened Messages
  import opened Registry
  import opened Requests
  import opened Server
  import opened Invariant
  import opened Reachable

  // ----- Reading notes -----

  const JOINED_PART: string := " joined "
  const LEFT_PART: string := " left "

  /** What a note adds to or takes from the members of the observer's room. */
  function Noted(view: multiset<string>, room: string, text: string): multiset<string> {
    var space := Find(text, ' ');
    if space == NPOS || !ValidUsername(text[..space]) then view
    else if text[space..] == JOINED_PART + room then view + multiset{text[..space]}
    else if text[space..] == LEFT_PART + room then view - multiset{text[..space]}
    else view
  }

  /** A text that no observer takes for a note: its second word starts differently, or its first
      word is no account name. */
  predicate NoNote(text: string) {
    var space := Find(text, ' ');
    space == NPOS || space + 1 >= |text| || (text[space + 1] != 'j' && text[space + 1] != 'l') || !ValidUsername(text[..space])
  }

  lemma NoNoteIgnored(view: multiset<string>, room: string, text: string)
    requires NoNote(text)
    ensures Noted(view, room, text) == view
  {
    var space := Find(text, ' ');
    if space != NPOS {
      assert text[space..] == JOINED_PART + room ==> text[space..][1] == 'j' && text[space + 1] == 'j';
      assert text[space..] == LEFT_PART + room ==> text[space..][1] == 'l' && text[space + 1] == 'l';
    }
  }

  /** Account names have no space, so the note splits where it was put together. */
  lemma JoinedNoted(view: multiset<string>, username: string, room: string)
    requires ValidUsername(username)
    ensures Noted(view, room, username + " joined " + room) == view + multiset{username}
  {
    var text := username + " joined " + room;
    UsernameChars(username, ' ');
    assert text == username + [' '] + ("joined " + room);
    FindBehind(username, ' ', "joined " + room);
    assert text[|username|..] == JOINED_PART + room;
    assert text[..|username|] == username;
  }

  lemma LeftNoted(view: multiset<string>, username: string, room: string)
    requires ValidUsername(username)
    ensures Noted(view, room, username + " left " + room) == view - multiset{username}
  {
    var text := username + " left " + room;
    UsernameChars(username, ' ');
    assert text == username + [' '] + ("left " + room);
    FindBehind(username, ' ', "left " + room);
    assert text[|username|..] == LEFT_PART + room;
    assert text[..|username|] == username;
    assert text[|username|..][1] == 'l';
    assert (JOINED_PART + room)[1] == 'j';
  }

  // ----- Rooms and members -----

  function RoomOf(clients: seq<ClientInfo>, s: Sock): Option<string> {
    if clients == [] then None
    else if clients[0].socket == s then Some(clients[0].room)
    else RoomOf(clients[1..], s)
  }

  function Members(clients: seq<ClientInfo>, room: string): multiset<string> {
    multiset(UsersIn(clients, room))
  }

  lemma {:induction false} RoomOfEntry(clients: seq<ClientInfo>, c: ClientInfo)
    requires Unique(clients) && c in clients
    ensures RoomOf(clients, c.socket) == Some(c.room)
  {
    if clients[0] != c {
      assert c in clients[1..];
      assert clients[0].socket != c.socket;
      RoomOfEntry(clients[1..], c);
    }
  }

  lemma {:induction false} MemberIsRoomOf(clients: seq<ClientInfo>, room: string, s: Sock)
    requires Unique(clients)
    ensures Member(clients, room, s) <==> RoomOf(clients, s) == Some(room)
  {
    if clients != [] {
      MemberStep(clients, room, s);
      MemberIsRoomOf(clients[1..], room, s);
      if clients[0].socket == s {
        forall i | 0 <= i < |clients[1..]| ensures clients[1..][i].socket != s {
          assert clients[1..][i] == clients[i + 1];
        }
      }
    }
  }

  lemma {:induction false} RoomOfMoved(clients: seq<ClientInfo>, s: Sock, room: string, o: Sock)
    ensures RoomOf(WithRoom(clients, s, room), o) ==
            if o == s && RoomOf(clients, s).Some? then Some(room) else RoomOf(clients, o)
  {
    if clients != [] {
      RoomOfMoved(clients[1..], s, room, o);
    }
  }

  lemma {:induction false} RoomOfLeft(clients: seq<ClientInfo>, s: Sock, o: Sock)
    ensures RoomOf(Without(clients, s), o) == if o == s then None else RoomOf(clients, o)
  {
    if clients != [] {
      RoomOfLeft(clients[1..], s, o);
      var later := Without(clients[1..], s);
      assert ([clients[0]] + later)[1..] == later;
      assert [] + later == later;
    }
  }

  lemma {:induction false} RoomOfEntered(clients: seq<ClientInfo>, c: ClientInfo, o: Sock)
    ensures RoomOf(clients + [c], o) ==
            if RoomOf(clients, o).Some? then RoomOf(clients, o) else if o == c.socket then Some(c.room) else None
  {
    if clients == [] {
      assert [] + [c] == [c];
    } else {
      assert (clients + [c])[1..] == clients[1..] + [c];
      RoomOfEntered(clients[1..], c, o);
    }
  }

  lemma MembersEntered(clients: seq<ClientInfo>, c: ClientInfo, room: string)
    ensures Members(clients + [c], room) == Members(clients, room) + if c.room == room then multiset{c.username} else multiset{}
  {
    UsersInAppend(clients, [c], room);
    assert UsersIn([c], room) == if c.room == room then [c.username] else [];
  }

  lemma MembersSplit(pre: seq<ClientInfo>, post: seq<ClientInfo>, room: string)
    ensures Members(pre + post, room) == Members(pre, room) + Members(post, room)
  {
    UsersInAppend(pre, post, room);
  }

  lemma MembersAround(pre: seq<ClientInfo>, c: ClientInfo, post: seq<ClientInfo>, room: string)
    ensures Members(pre + [c] + post, room) ==
            (Members(pre, room) + if c.room == room then multiset{c.username} else multiset{}) + Members(post, room)
  {
    MembersSplit(pre + [c], post, room);
    MembersEntered(pre, c, room);
  }

  lemma {:induction false} NobodyLeft(clients: seq<ClientInfo>, s: Sock)
    requires forall i | 0 <= i < |clients| :: clients[i].socket != s
    ensures Without(clients, s) == clients
  {
    if clients != [] {
      NobodyLeft(clients[1..], s);
    }
  }

  lemma {:induction false} MovedBehind(pre: seq<ClientInfo>, c: ClientInfo, post: seq<ClientInfo>, room: string)
    requires forall i | 0 <= i < |pre| :: pre[i].socket != c.socket
    ensures WithRoom(pre + [c] + post, c.socket, room) == pre + [c.(room := room)] + post
  {
    var all := pre + [c] + post;
    if pre == [] {
      assert all[1..] == post;
    } else {
      assert all[1..] == pre[1..] + [c] + post;
      MovedBehind(pre[1..], c, post, room);
      assert [pre[0]] + (pre[1..] + [c.(room := room)] + post) == pre + [c.(room := room)] + post;
    }
  }

  lemma LeftBetween(pre: seq<ClientInfo>, c: ClientInfo, post: seq<ClientInfo>)
    requires forall i | 0 <= i < |pre| :: pre[i].socket != c.socket
    requires forall i | 0 <= i < |post| :: post[i].socket != c.socket
    ensures Without(pre + [c] + post, c.socket) == pre + post
  {
    WithoutAppend(pre + [c], post, c.socket);
    WithoutAppend(pre, [c], c.socket);
    NobodyLeft(pre, c.socket);
    NobodyLeft(post, c.socket);
    assert pre + [] == pre;
  }

  /** The one entry of a socket, and what is around it. */
  lemma EntrySplits(clients: seq<ClientInfo>, c: ClientInfo) returns (pre: seq<ClientInfo>, post: seq<ClientInfo>)
    requires Unique(clients) && c in clients
    ensures clients == pre + [c] + post
    ensures forall i | 0 <= i < |pre| :: pre[i].socket != c.socket
    ensures forall i | 0 <= i < |post| :: post[i].socket != c.socket
  {
    var k :| 0 <= k < |clients| && clients[k] == c;
    pre, post := clients[..k], clients[k + 1..];
  }

  /** One session changes rooms: one name less in the old room, one more in the new. */
  lemma MembersMoved(clients: seq<ClientInfo>, c: ClientInfo, room: string, r: string)
    requires Unique(clients) && c in clients && c.room != room
    ensures Members(WithRoom(clients, c.socket, room), r) ==
            if r == c.room then Members(clients, r) - multiset{c.username}
            else if r == room then Members(clients, r) + multiset{c.username}
            else Members(clients, r)
  {
    var pre, post := EntrySplits(clients, c);
    MovedBehind(pre, c, post, room);
    MembersAround(pre, c, post, r);
    MembersAround(pre, c.(room := room), post, r);
  }

  /** One session ends: one name less in its room. */
  lemma MembersLeft(clients: seq<ClientInfo>, c: ClientInfo, r: string)
    requires Unique(clients) && c in clients
    ensures Members(Without(clients, c.socket), r) ==
            if r == c.room then Members(clients, r) - multiset{c.username} else Members(clients, r)
  {
    var pre, post := EntrySplits(clients, c);
    LeftBetween(pre, c, post);
    MembersAround(pre, c, post, r);
    MembersSplit(pre, post, r);
  }

  // ----- One observer through the blocks of a handler -----

  /** The registry, and what the observer holds. */
  datatype Scene = Scene(clients: seq<ClientInfo>, view: multiset<string>)

  /** The observer `o`, if it is in a room, holds exactly the members of that room. */
  predicate Exact(sc: Scene, o: Sock) {
    RoomOf(sc.clients, o).Some? ==> sc.view == Members(sc.clients, RoomOf(sc.clients, o).value)
  }

  function Hear(sc: Scene, o: Sock, m: Msg): Scene {
    if m.kind == System && Sendable(m) && RoomOf(sc.clients, o).Some?
    then sc.(view := Noted(sc.view, RoomOf(sc.clients, o).value, m.payload)) else sc
  }

  /** What a block of `s` does to the registry and to what `o` holds. */
  function Played(sc: Scene, o: Sock, s: Sock, a: Action): Scene {
    match a
    case Enter(username) => Entering(sc.clients + [ClientInfo(s, username, DEFAULT_ROOM)], DEFAULT_ROOM, o == s, sc.view)
    case MoveTo(room) => Entering(WithRoom(sc.clients, s, room), room, o == s, sc.view)
    case Leave => sc.(clients := Without(sc.clients, s))
    case Reply(m) => if o == s then Hear(sc, o, m) else sc
    case SendTo(to, m) => if o == to then Hear(sc, o, m) else sc
    case _ => sc
  }

  /** On entering a room one takes its member list. */
  function Entering(clients: seq<ClientInfo>, room: string, itself: bool, view: multiset<string>): Scene {
    Scene(clients, if itself then Members(clients, room) else view)
  }

  /** The same with the sends of a broadcast counted at once. */
  function Planned(sc: Scene, o: Sock, s: Sock, a: Action): Scene {
    if a.Broadcast? then (if o in Recipients(sc.clients, a.room, a.exclude) then Hear(sc, o, a.msg) else sc)
    else Played(sc, o, s, a)
  }

  function PlannedAll(sc: Scene, o: Sock, s: Sock, todo: seq<Action>): Scene
    decreases |todo|
  {
    if todo == [] then sc else PlannedAll(Planned(sc, o, s, todo[0]), o, s, todo[1..])
  }

  // ----- Blocks that no observer notices -----

  predicate Mute(m: Msg) {
    m.kind == System ==> NoNote(m.payload)
  }

  predicate Silent(a: Action) {
    match a
    case Enter(_) => false
    case MoveTo(_) => false
    case Leave => false
    case Broadcast(_, _, _) => false
    case Reply(m) => Mute(m)
    case SendTo(_, m) => Mute(m)
    case StoreMessage(_, onFailure) => NoNote(onFailure)
    case _ => true
  }

  ghost predicate AllSilent(blocks: seq<Action>) {
    forall i | 0 <= i < |blocks| :: Silent(blocks[i])
  }

  lemma MuteUnheard(sc: Scene, o: Sock, m: Msg)
    requires Mute(m)
    ensures Hear(sc, o, m) == sc
  {
    if m.kind == System && RoomOf(sc.clients, o).Some? {
      NoNoteIgnored(sc.view, RoomOf(sc.clients, o).value, m.payload);
    }
  }

  lemma SilentUnnoticed(sc: Scene, o: Sock, s: Sock, a: Action)
    requires Silent(a)
    ensures Planned(sc, o, s, a) == sc
  {
    if a.Reply? || a.SendTo? {
      MuteUnheard(sc, o, a.msg);
    }
  }

  lemma {:induction false} SilentSkipped(sc: Scene, o: Sock, s: Sock, blocks: seq<Action>, rest: seq<Action>)
    requires AllSilent(blocks)
    ensures PlannedAll(sc, o, s, blocks + rest) == PlannedAll(sc, o, s, rest)
    decreases |blocks|
  {
    if blocks == [] {
      assert blocks + rest == rest;
    } else {
      assert (blocks + rest)[1..] == blocks[1..] + rest;
      SilentUnnoticed(sc, o, s, blocks[0]);
      SilentSkipped(sc, o, s, blocks[1..], rest);
    }
  }

  lemma AllSilentUnnoticed(sc: Scene, o: Sock, s: Sock, blocks: seq<Action>)
    requires AllSilent(blocks)
    ensures PlannedAll(sc, o, s, blocks) == sc
  {
    SilentSkipped(sc, o, s, blocks, []);
    assert blocks + [] == blocks;
  }

  /** The texts the server sends, other than notes: a prefix whose second word starts with
      neither `j` nor `l`. */
  lemma OtherText(prefix: string, tail: string, k: nat)
    requires k + 1 < |prefix| && prefix[k] == ' ' && ' ' !in prefix[..k] && prefix[k + 1] != 'j' && prefix[k + 1] != 'l'
    ensures NoNote(prefix + tail)
  {
    var text := prefix + tail;
    FindBehind(prefix[..k], ' ', text[k + 1..]);
    assert text == prefix[..k] + [' '] + text[k + 1..];
  }

  /** A prefix whose first word has a character that names do not. */
  lemma GreetingText(prefix: string, tail: string, k: nat)
    requires k < |prefix| && !NameChar(prefix[k]) && ' ' !in prefix[..k + 1]
    ensures NoNote(prefix + tail)
  {
    var text := prefix + tail;
    var space := Find(text, ' ');
    if space != NPOS {
      assert forall i | 0 <= i <= k :: text[i] == prefix[i] == prefix[..k + 1][i];
      assert space > k;
      assert text[..space][k] == prefix[k];
    }
  }

  // ----- The handlers, seen by one observer -----

  /** What the registry says of the thread that is about to handle a frame. */
  ghost predicate Known(clients: seq<ClientInfo>, s: Sock, local: Local) {
    && Unique(clients)
    && (local.phase == Chatting ==>
          ClientInfo(s, local.username, local.room) in clients && ValidUsername(local.username) && ChatRoom(local.room))
    && (local.phase != Chatting ==> RoomOf(clients, s).None?)
  }

  lemma InRoom(clients: seq<ClientInfo>, room: string, exclude: Option<Sock>, o: Sock)
    requires Unique(clients)
    ensures o in Recipients(clients, room, exclude) <==> Some(o) != exclude && RoomOf(clients, o) == Some(room)
  {
    RecipientIs(clients, room, exclude, o);
    MemberIsRoomOf(clients, room, o);
  }

  /** What a broadcast note makes an observer of its room hold. */
  function Plus(sc: Scene, o: Sock, username: string, room: string, exclude: Option<Sock>): Scene {
    if Some(o) != exclude && RoomOf(sc.clients, o) == Some(room) then sc.(view := sc.view + multiset{username}) else sc
  }

  function Minus(sc: Scene, o: Sock, username: string, room: string, exclude: Option<Sock>): Scene {
    if Some(o) != exclude && RoomOf(sc.clients, o) == Some(room) then sc.(view := sc.view - multiset{username}) else sc
  }

  lemma JoinedHeard(sc: Scene, o: Sock, s: Sock, username: string, room: string, exclude: Option<Sock>)
    requires Unique(sc.clients) && ValidUsername(username) && ChatRoom(room)
    ensures Planned(sc, o, s, Broadcast(room, JoinedNote(username, room), exclude)) == Plus(sc, o, username, room, exclude)
  {
    InRoom(sc.clients, room, exclude, o);
    JoinedNoted(sc.view, username, room);
  }

  lemma LeftHeard(sc: Scene, o: Sock, s: Sock, username: string, room: string, exclude: Option<Sock>)
    requires Unique(sc.clients) && ValidUsername(username) && ChatRoom(room)
    ensures Planned(sc, o, s, Broadcast(room, LeftNote(username, room), exclude)) == Minus(sc, o, username, room, exclude)
  {
    InRoom(sc.clients, room, exclude, o);
    LeftNoted(sc.view, username, room);
  }

  lemma ReplaySilent(room: string, limit: int)
    ensures Silent(Replay(room, limit))
  {
  }

  // Joining a room.

  /** Everyone in the old room drops the name, everyone in the new room adds it, and the one who
      moves takes the new member list. */
  function Shift(sc: Scene, o: Sock, c: ClientInfo, room: string): Scene {
    var left := Minus(sc, o, c.username, c.room, Some(c.socket));
    var moved := Entering(WithRoom(left.clients, c.socket, room), room, o == c.socket, left.view);
    Plus(moved, o, c.username, room, Some(c.socket))
  }

  lemma MoverExact(sc: Scene, c: ClientInfo, room: string)
    requires Unique(sc.clients) && c in sc.clients
    ensures Exact(Shift(sc, c.socket, c, room), c.socket)
  {
    RoomOfEntry(sc.clients, c);
    RoomOfMoved(sc.clients, c.socket, room, c.socket);
  }

  lemma BystanderExact(sc: Scene, o: Sock, c: ClientInfo, room: string)
    requires Unique(sc.clients) && c in sc.clients && Exact(sc, o) && c.room != room && o != c.socket
    ensures Exact(Shift(sc, o, c, room), o)
  {
    RoomOfMoved(sc.clients, c.socket, room, o);
    if RoomOf(sc.clients, o).Some? {
      MembersMoved(sc.clients, c, room, RoomOf(sc.clients, o).value);
    }
  }

  lemma ShiftExact(sc: Scene, o: Sock, c: ClientInfo, room: string)
    requires Unique(sc.clients) && c in sc.clients && Exact(sc, o) && c.room != room
    ensures Exact(Shift(sc, o, c, room), o)
  {
    if o == c.socket {
      MoverExact(sc, c, room);
    } else {
      BystanderExact(sc, o, c, room);
    }
  }

  lemma WithRoomUnique(clients: seq<ClientInfo>, s: Sock, room: string)
    requires Unique(clients)
    ensures Unique(WithRoom(clients, s, room))
  {
    WithRoomAt(clients, s, room);
  }

  lemma MovePlanned(sc: Scene, o: Sock, s: Sock, room: string)
    ensures Planned(sc, o, s, MoveTo(room)) == Entering(WithRoom(sc.clients, s, room), room, o == s, sc.view)
  {
  }

  lemma JoinPlanned(sc: Scene, o: Sock, s: Sock, username: string, room: string, payload: string)
    requires Unique(sc.clients) && ValidUsername(username) && ChatRoom(room)
    requires SanitizeRoom(payload) != "" && SanitizeRoom(payload) != room
    ensures PlannedAll(sc, o, s, HandleJoin(s, username, room, payload)) ==
            Shift(sc, o, ClientInfo(s, username, room), SanitizeRoom(payload))
  {
    SanitizedIsChatRoom(payload);
    JoinBlocks(s, username, room, payload);
    MovePlanAll(sc, o, s, username, room, SanitizeRoom(payload), HandleJoin(s, username, room, payload));
  }

  lemma MovePlanAll(sc: Scene, o: Sock, s: Sock, username: string, room: string, newRoom: string, todo: seq<Action>)
    requires Unique(sc.clients) && ValidUsername(username) && ChatRoom(room) && ChatRoom(newRoom) && |todo| == 5
    requires todo[0] == Broadcast(room, LeftNote(username, room), Some(s))
    requires todo[1] == MoveTo(newRoom)
    requires todo[2] == Reply(Msg(Joined, newRoom))
    requires todo[3] == Broadcast(newRoom, JoinedNote(username, newRoom), Some(s))
    requires todo[4] == Replay(newRoom, DEFAULT_LIMIT)
    ensures PlannedAll(sc, o, s, todo) == Shift(sc, o, ClientInfo(s, username, room), newRoom)
  {
    var left := Minus(sc, o, username, room, Some(s));
    var moved := Entering(WithRoom(left.clients, s, newRoom), newRoom, o == s, left.view);
    var joined := Plus(moved, o, username, newRoom, Some(s));
    WithRoomUnique(sc.clients, s, newRoom);
    LeftHeard(sc, o, s, username, room, Some(s));
    MovePlanned(left, o, s, newRoom);
    JoinedSilent(newRoom);
    SilentUnnoticed(moved, o, s, todo[2]);
    JoinedHeard(moved, o, s, username, newRoom, Some(s));
    ReplaySilent(newRoom, DEFAULT_LIMIT);
    AllSilentUnnoticed(joined, o, s, [todo[4]]);
    FiveBlocks(sc, left, moved, joined, o, s, todo);
  }

  lemma JoinedSilent(room: string)
    ensures Silent(Reply(Msg(Joined, room)))
  {
  }

  lemma FiveBlocks(sc: Scene, left: Scene, moved: Scene, joined: Scene, o: Sock, s: Sock, todo: seq<Action>)
    requires |todo| == 5
    requires Planned(sc, o, s, todo[0]) == left && Planned(left, o, s, todo[1]) == moved
    requires Planned(moved, o, s, todo[2]) == moved && Planned(moved, o, s, todo[3]) == joined
    requires PlannedAll(joined, o, s, [todo[4]]) == joined
    ensures PlannedAll(sc, o, s, todo) == joined
  {
    assert todo[4..] == [todo[4]];
    assert todo[3..][1..] == todo[4..];
    assert todo[2..][1..] == todo[3..];
    assert todo[1..][1..] == todo[2..];
    assert PlannedAll(moved, o, s, todo[3..]) == joined;
    assert PlannedAll(moved, o, s, todo[2..]) == joined;
    assert PlannedAll(left, o, s, todo[1..]) == joined;
  }

  lemma EmptyRoomMute()
    ensures Mute(Note(EMPTY_ROOM))
  {
    OtherText(EMPTY_ROOM, "", 4);
    assert EMPTY_ROOM + "" == EMPTY_ROOM;
  }

  lemma AlreadyMute(room: string)
    ensures Mute(Note("You are already in room '" + room + "'."))
  {
    OtherText("You are already in room '", room + "'.", 3);
    Associative("You are already in room '", room, "'.");
  }

  lemma OneMuteReply(sc: Scene, o: Sock, s: Sock, todo: seq<Action>)
    requires |todo| == 1 && todo[0].Reply? && Mute(todo[0].msg)
    ensures PlannedAll(sc, o, s, todo) == sc
  {
    AllSilentUnnoticed(sc, o, s, todo);
  }

  lemma JoinExact(sc: Scene, o: Sock, s: Sock, local: Local, payload: string)
    requires Known(sc.clients, s, local) && local.phase == Chatting && Exact(sc, o)
    ensures Exact(PlannedAll(sc, o, s, HandleJoin(s, local.username, local.room, payload)), o)
  {
    var room := SanitizeRoom(payload);
    if room == "" || room == local.room {
      EmptyRoomMute();
      AlreadyMute(local.room);
      OneMuteReply(sc, o, s, HandleJoin(s, local.username, local.room, payload));
    } else {
      JoinPlanned(sc, o, s, local.username, local.room, payload);
      ShiftExact(sc, o, ClientInfo(s, local.username, local.room), room);
    }
  }

  // Leaving, by quit or disconnection.

  function Drop(sc: Scene, o: Sock, c: ClientInfo): Scene {
    Minus(sc.(clients := Without(sc.clients, c.socket)), o, c.username, c.room, None)
  }

  lemma DropExact(sc: Scene, o: Sock, c: ClientInfo)
    requires Unique(sc.clients) && c in sc.clients && Exact(sc, o)
    ensures Exact(Drop(sc, o, c), o)
  {
    RoomOfLeft(sc.clients, c.socket, o);
    if o != c.socket && RoomOf(sc.clients, o).Some? {
      MembersLeft(sc.clients, c, RoomOf(sc.clients, o).value);
    }
  }

  lemma DeparturePlanned(sc: Scene, o: Sock, s: Sock, username: string, room: string)
    requires Unique(Without(sc.clients, s)) && ValidUsername(username) && ChatRoom(room)
    ensures PlannedAll(sc, o, s, Departure(username, room)) == Drop(sc, o, ClientInfo(s, username, room))
  {
    var todo := Departure(username, room);
    var gone := sc.(clients := Without(sc.clients, s));
    var told := Minus(gone, o, username, room, None);
    LeftHeard(gone, o, s, username, room, None);
    assert Planned(gone, o, s, todo[1]) == told;
    AllSilentUnnoticed(told, o, s, todo[2..]);
    assert todo[1..][1..] == todo[2..];
    assert PlannedAll(gone, o, s, todo[1..]) == PlannedAll(told, o, s, todo[2..]);
  }

  lemma DepartureExact(sc: Scene, o: Sock, s: Sock, local: Local)
    requires Known(sc.clients, s, local) && local.phase == Chatting && Exact(sc, o)
    ensures Exact(PlannedAll(sc, o, s, Departure(local.username, local.room)), o)
  {
    WithoutUnique(sc.clients, s);
    DeparturePlanned(sc, o, s, local.username, local.room);
    DropExact(sc, o, ClientInfo(s, local.username, local.room));
  }

  lemma QuitExact(sc: Scene, o: Sock, s: Sock, local: Local, goodbye: Msg)
    requires Known(sc.clients, s, local) && local.phase == Chatting && Exact(sc, o) && Mute(goodbye)
    ensures Exact(PlannedAll(sc, o, s, [Reply(goodbye)] + Departure(local.username, local.room)), o)
  {
    SilentSkipped(sc, o, s, [Reply(goodbye)], Departure(local.username, local.room));
    DepartureExact(sc, o, s, local);
  }

  lemma GoodbyeMute(username: string)
    ensures Mute(Note("Goodbye, " + username + "!"))
  {
    GreetingText("Goodbye, ", username + "!", 7);
    assert "Goodbye, " + username + "!" == "Goodbye, " + (username + "!");
  }

  // Entering the chat.

  /** Everyone in the default room adds the name; the newcomer takes the member list. */
  function Add(sc: Scene, o: Sock, c: ClientInfo): Scene {
    Plus(Entering(sc.clients + [c], c.room, o == c.socket, sc.view), o, c.username, c.room, Some(c.socket))
  }

  lemma AddExact(sc: Scene, o: Sock, c: ClientInfo)
    requires RoomOf(sc.clients, c.socket).None? && Exact(sc, o)
    ensures Exact(Add(sc, o, c), o)
  {
    RoomOfEntered(sc.clients, c, o);
    if RoomOf(sc.clients, o).Some? {
      MembersEntered(sc.clients, c, RoomOf(sc.clients, o).value);
    }
  }

  lemma WelcomeMute(username: string)
    ensures Mute(Note("Welcome, " + username + "! You are in room '" + DEFAULT_ROOM + "'."))
  {
    var greeting := username + "! You are in room '" + DEFAULT_ROOM + "'.";
    GreetingText("Welcome, ", greeting, 7);
    assert "Welcome, " + username + "! You are in room '" + DEFAULT_ROOM + "'." == "Welcome, " + greeting;
  }

  lemma CommandsMute()
    ensures Mute(Note(COMMANDS))
  {
    OtherText("Commands: /", COMMANDS[11..], 9);
    assert COMMANDS[..11] == "Commands: /";
    assert "Commands: /" + COMMANDS[11..] == COMMANDS;
  }

  lemma CreatedMute(username: string)
    ensures Mute(Note("Account '" + username + "' created. Welcome!"))
  {
    OtherText("Account '", username + "' created. Welcome!", 7);
    assert "Account '" + username + "' created. Welcome!" == "Account '" + (username + "' created. Welcome!");
  }

  lemma GreetingSilent(s: Sock, username: string)
    ensures AllSilent(Entrance(s, username)[1..5])
  {
    WelcomeMute(username);
    CommandsMute();
    ReplaySilent(DEFAULT_ROOM, DEFAULT_LIMIT);
  }

  /** What is left of an entrance once the newcomer is in the registry. */
  lemma WelcomePlanned(sc: Scene, o: Sock, s: Sock, username: string)
    requires ValidUsername(username) && Unique(sc.clients)
    ensures PlannedAll(sc, o, s, Entrance(s, username)[1..]) == Plus(sc, o, username, DEFAULT_ROOM, Some(s))
  {
    var todo := Entrance(s, username);
    GreetingSilent(s, username);
    SilentSkipped(sc, o, s, todo[1..5], todo[5..]);
    assert todo[1..] == todo[1..5] + todo[5..];
    GeneralIsChatRoom();
    JoinedHeard(sc, o, s, username, DEFAULT_ROOM, Some(s));
    LastBlock(sc, o, s, todo[5..]);
  }

  lemma EntrancePlanned(sc: Scene, o: Sock, s: Sock, username: string)
    requires ValidUsername(username) && Unique(sc.clients + [ClientInfo(s, username, DEFAULT_ROOM)])
    ensures PlannedAll(sc, o, s, Entrance(s, username)) == Add(sc, o, ClientInfo(s, username, DEFAULT_ROOM))
  {
    var c := ClientInfo(s, username, DEFAULT_ROOM);
    var entered := Entering(sc.clients + [c], DEFAULT_ROOM, o == s, sc.view);
    assert Planned(sc, o, s, Entrance(s, username)[0]) == entered;
    WelcomePlanned(entered, o, s, username);
  }

  lemma LastBlock(sc: Scene, o: Sock, s: Sock, todo: seq<Action>)
    requires |todo| == 1
    ensures PlannedAll(sc, o, s, todo) == Planned(sc, o, s, todo[0])
  {
  }

  lemma EntranceExact(sc: Scene, o: Sock, s: Sock, username: string)
    requires RoomOf(sc.clients, s).None? && ValidUsername(username) && Exact(sc, o)
    requires Unique(sc.clients + [ClientInfo(s, username, DEFAULT_ROOM)])
    ensures Exact(PlannedAll(sc, o, s, Entrance(s, username)), o)
  {
    EntrancePlanned(sc, o, s, username);
    AddExact(sc, o, ClientInfo(s, username, DEFAULT_ROOM));
  }
}
