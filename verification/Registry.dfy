/** The `clients` vector of chat_server.cpp: each method is a block that runs under
    `clients_mutex`, and is specified by a function of the vector. */
module Registry {
  import opened Seqs
  import opened Text
  import opened Messages
  import opened NameSet

  type Sock = nat

  datatype ClientInfo = ClientInfo(socket: Sock, username: string, room: string)

  // ----- What each block computes -----

  function WithRoom(clients: seq<ClientInfo>, socket: Sock, room: string): (after: seq<ClientInfo>)
    ensures |after| == |clients|
  {
    if clients == [] then []
    else if clients[0].socket == socket then [clients[0].(room := room)] + clients[1..]
    else [clients[0]] + WithRoom(clients[1..], socket, room)
  }

  function FindUser(clients: seq<ClientInfo>, username: string): Option<Sock> {
    if clients == [] then None
    else if clients[0].username == username then Some(clients[0].socket)
    else FindUser(clients[1..], username)
  }

  function UsersIn(clients: seq<ClientInfo>, room: string): seq<string> {
    if clients == [] then []
    else (if clients[0].room == room then [clients[0].username] else []) + UsersIn(clients[1..], room)
  }

  /** The sockets a broadcast goes to; `exclude` is None for INVALID_SOCKET. */
  function Recipients(clients: seq<ClientInfo>, room: string, exclude: Option<Sock>): seq<Sock> {
    if clients == [] then []
    else (if clients[0].room == room && Some(clients[0].socket) != exclude then [clients[0].socket] else [])
         + Recipients(clients[1..], room, exclude)
  }

  function Without(clients: seq<ClientInfo>, socket: Sock): seq<ClientInfo> {
    if clients == [] then []
    else (if clients[0].socket == socket then [] else [clients[0]]) + Without(clients[1..], socket)
  }

  // ----- The same, entry by entry -----

  ghost predicate Unique(clients: seq<ClientInfo>) {
    forall i, j | 0 <= i < j < |clients| :: clients[i].socket != clients[j].socket
  }

  /** With one entry per socket, `set_room` changes the room of that entry and nothing else. */
  lemma {:induction false} WithRoomAt(clients: seq<ClientInfo>, socket: Sock, room: string)
    requires Unique(clients)
    ensures var after := WithRoom(clients, socket, room);
            forall i | 0 <= i < |clients| ::
              after[i] == if clients[i].socket == socket then clients[i].(room := room) else clients[i]
  {
    if clients != [] && clients[0].socket != socket {
      WithRoomAt(clients[1..], socket, room);
    }
  }

  lemma {:induction false} WithoutKeeps(clients: seq<ClientInfo>, socket: Sock)
    ensures forall c :: c in Without(clients, socket) <==> c in clients && c.socket != socket
  {
    if clients != [] {
      WithoutKeeps(clients[1..], socket);
      assert clients == [clients[0]] + clients[1..];
    }
  }

  lemma {:induction false} WithoutAppend(a: seq<ClientInfo>, b: seq<ClientInfo>, socket: Sock)
    ensures Without(a + b, socket) == Without(a, socket) + Without(b, socket)
  {
    if a == [] {
      assert a + b == b;
    } else {
      WithoutAppend(a[1..], b, socket);
      assert (a + b)[1..] == a[1..] + b;
      var head := if a[0].socket == socket then [] else [a[0]];
      Associative(head, Without(a[1..], socket), Without(b, socket));
    }
  }

  lemma {:induction false} UsersInAppend(a: seq<ClientInfo>, b: seq<ClientInfo>, room: string)
    ensures UsersIn(a + b, room) == UsersIn(a, room) + UsersIn(b, room)
  {
    if a == [] {
      assert a + b == b;
    } else {
      UsersInAppend(a[1..], b, room);
      assert (a + b)[1..] == a[1..] + b;
      var head := if a[0].room == room then [a[0].username] else [];
      Associative(head, UsersIn(a[1..], room), UsersIn(b, room));
    }
  }

  /** The places of the entries of a room. */
  function Places(clients: seq<ClientInfo>, room: string): set<nat> {
    set i: nat | i < |clients| && clients[i].room == room
  }

  lemma PlacesAppend(clients: seq<ClientInfo>, c: ClientInfo, room: string)
    ensures |Places(clients + [c], room)| == |Places(clients, room)| + if c.room == room then 1 else 0
  {
    var n := |clients|;
    assert Places(clients + [c], room) == Places(clients, room) + if c.room == room then {n} else {};
  }

  /** The names of a room: one for each of its entries, in their order. */
  lemma {:induction false} UsersInAt(clients: seq<ClientInfo>, room: string)
    ensures var names := UsersIn(clients, room);
            && |names| == |Places(clients, room)|
            && forall i | 0 <= i < |clients| && clients[i].room == room ::
                 |Places(clients[..i], room)| < |names| && names[|Places(clients[..i], room)|] == clients[i].username
  {
    if clients == [] {
      assert Places(clients, room) == {};
    } else {
      var front, last := clients[..|clients| - 1], clients[|clients| - 1];
      UsersInAt(front, room);
      FrontAndLast(clients);
      PlacesAppend(front, last, room);
      UsersInAppend(front, [last], room);
      forall i | 0 <= i < |clients| && clients[i].room == room
        ensures |Places(clients[..i], room)| < |UsersIn(clients, room)|
        ensures UsersIn(clients, room)[|Places(clients[..i], room)|] == clients[i].username
      {
        if i < |front| {
          assert front[..i] == clients[..i];
        } else {
          assert clients[..i] == front;
        }
      }
    }
  }

  lemma {:induction false} RecipientsAppend(a: seq<ClientInfo>, b: seq<ClientInfo>, room: string, exclude: Option<Sock>)
    ensures Recipients(a + b, room, exclude) == Recipients(a, room, exclude) + Recipients(b, room, exclude)
  {
    if a == [] {
      assert a + b == b;
    } else {
      RecipientsAppend(a[1..], b, room, exclude);
      assert (a + b)[1..] == a[1..] + b;
      var head := if a[0].room == room && Some(a[0].socket) != exclude then [a[0].socket] else [];
      Associative(head, Recipients(a[1..], room, exclude), Recipients(b, room, exclude));
    }
  }

  ghost predicate Member(clients: seq<ClientInfo>, room: string, socket: Sock) {
    exists i :: 0 <= i < |clients| && clients[i].socket == socket && clients[i].room == room
  }

  lemma MemberStep(clients: seq<ClientInfo>, room: string, socket: Sock)
    requires clients != []
    ensures Member(clients, room, socket)
            <==> (clients[0].socket == socket && clients[0].room == room) || Member(clients[1..], room, socket)
  {
    if Member(clients[1..], room, socket) {
      var i :| 0 <= i < |clients[1..]| && clients[1..][i].socket == socket && clients[1..][i].room == room;
      assert clients[i + 1] == clients[1..][i];
    }
    if Member(clients, room, socket) && !(clients[0].socket == socket && clients[0].room == room) {
      var i :| 0 <= i < |clients| && clients[i].socket == socket && clients[i].room == room;
      assert clients[1..][i - 1] == clients[i];
    }
  }

  /** A broadcast reaches exactly the members of the room at that moment, but not `exclude`. */
  lemma {:induction false} RecipientIs(clients: seq<ClientInfo>, room: string, exclude: Option<Sock>, s: Sock)
    ensures s in Recipients(clients, room, exclude) <==> Some(s) != exclude && Member(clients, room, s)
  {
    if clients != [] {
      RecipientIs(clients[1..], room, exclude, s);
      MemberStep(clients, room, s);
    }
  }

  predicate Distinct<T(==)>(s: seq<T>) {
    forall i, j | 0 <= i < j < |s| :: s[i] != s[j]
  }

  lemma {:induction false} RecipientsDistinct(clients: seq<ClientInfo>, room: string, exclude: Option<Sock>)
    requires Unique(clients)
    ensures Distinct(Recipients(clients, room, exclude))
  {
    if clients != [] {
      RecipientsDistinct(clients[1..], room, exclude);
      var later := Recipients(clients[1..], room, exclude);
      forall i | 0 <= i < |later| ensures later[i] != clients[0].socket {
        RecipientIs(clients[1..], room, exclude, later[i]);
        assert Member(clients[1..], room, later[i]);
      }
    }
  }

  /** `find_client_by_username` returns the first entry of that name. */
  lemma {:induction false} FindUserFirst(clients: seq<ClientInfo>, username: string)
    ensures FindUser(clients, username).Some? ==>
              exists i :: 0 <= i < |clients| && clients[i].username == username
                          && FindUser(clients, username).value == clients[i].socket
                          && forall j | 0 <= j < i :: clients[j].username != username
    ensures FindUser(clients, username).None? ==> forall i | 0 <= i < |clients| :: clients[i].username != username
  {
    if clients != [] && clients[0].username != username {
      FindUserFirst(clients[1..], username);
      if FindUser(clients, username).Some? {
        var i :| 0 <= i < |clients| - 1 && clients[1..][i].username == username
                 && FindUser(clients, username).value == clients[1..][i].socket
                 && forall j | 0 <= j < i :: clients[1..][j].username != username;
        assert clients[i + 1] == clients[1..][i];
      }
    }
  }

  // ----- The list of rooms -----

  function RoomsOf(clients: seq<ClientInfo>): (rooms: seq<string>)
    ensures |rooms| == |clients| && forall i | 0 <= i < |clients| :: rooms[i] == clients[i].room
  {
    seq(|clients|, i requires 0 <= i < |clients| => clients[i].room)
  }

  function Online(clients: seq<ClientInfo>, room: string): nat {
    |UsersIn(clients, room)|
  }

  /** The rooms that `build_room_list` prints. */
  function ListedRooms(clients: seq<ClientInfo>, known: seq<string>): seq<string> {
    SetOf(known + RoomsOf(clients))
  }

  function RoomLine(clients: seq<ClientInfo>, room: string): string {
    "\n  " + room + "  (online: " + Decimal(Online(clients, room)) + ")"
  }

  function RoomLines(clients: seq<ClientInfo>, rooms: seq<string>): string {
    if rooms == [] then "" else RoomLines(clients, rooms[..|rooms| - 1]) + RoomLine(clients, rooms[|rooms| - 1])
  }

  function Heading(rooms: seq<string>): string {
    "Known rooms:" + if rooms == [] then "\n  (none yet)" else ""
  }

  function RoomList(clients: seq<ClientInfo>, known: seq<string>): string {
    var rooms := ListedRooms(clients, known);
    Heading(rooms) + RoomLines(clients, rooms)
  }

  function SumOnline(clients: seq<ClientInfo>, rooms: seq<string>): nat {
    if rooms == [] then 0 else Online(clients, rooms[0]) + SumOnline(clients, rooms[1..])
  }

  lemma {:induction false} SumStep(clients: seq<ClientInfo>, c: ClientInfo, rooms: seq<string>)
    requires forall i, j | 0 <= i < j < |rooms| :: rooms[i] != rooms[j]
    ensures SumOnline(clients + [c], rooms) == SumOnline(clients, rooms) + if c.room in rooms then 1 else 0
  {
    if rooms != [] {
      SumStep(clients, c, rooms[1..]);
      UsersInAppend(clients, [c], rooms[0]);
      assert rooms == [rooms[0]] + rooms[1..];
    }
  }

  lemma {:induction false} SumIsEveryone(clients: seq<ClientInfo>, rooms: seq<string>)
    requires forall i, j | 0 <= i < j < |rooms| :: rooms[i] != rooms[j]
    requires forall i | 0 <= i < |clients| :: clients[i].room in rooms
    ensures SumOnline(clients, rooms) == |clients|
  {
    if clients == [] {
      SumNobody(rooms);
    } else {
      var front, last := clients[..|clients| - 1], clients[|clients| - 1];
      SumIsEveryone(front, rooms);
      SumStep(front, last, rooms);
      assert clients == front + [last];
    }
  }

  lemma {:induction false} SumNobody(rooms: seq<string>)
    ensures SumOnline([], rooms) == 0
  {
    if rooms != [] {
      SumNobody(rooms[1..]);
    }
  }

  /** Each room once, in order; exactly the known rooms and those with clients; and the numbers
      online add up to the number of clients. */
  lemma RoomListIs(clients: seq<ClientInfo>, known: seq<string>)
    ensures var rooms := ListedRooms(clients, known);
            && Sorted(rooms)
            && (forall r :: r in rooms <==> r in known || exists i :: 0 <= i < |clients| && clients[i].room == r)
            && SumOnline(clients, rooms) == |clients|
  {
    var rooms := ListedRooms(clients, known);
    SetOfSorted(known + RoomsOf(clients));
    forall i | 0 <= i < |clients| ensures clients[i].room in rooms {
      assert RoomsOf(clients)[i] in known + RoomsOf(clients);
    }
    forall i, j | 0 <= i < j < |rooms| ensures rooms[i] != rooms[j] {
      LessTotal(rooms[i], rooms[j]);
    }
    SumIsEveryone(clients, rooms);
  }

  lemma WithRoomStep(clients: seq<ClientInfo>, i: nat, socket: Sock, room: string)
    requires i < |clients|
    ensures clients[..i] + WithRoom(clients[i..], socket, room) ==
            if clients[i].socket == socket then clients[i := clients[i].(room := room)]
            else clients[..i + 1] + WithRoom(clients[i + 1..], socket, room)
  {
    assert clients[i..][1..] == clients[i + 1..];
    Associative(clients[..i], [clients[i]], WithRoom(clients[i + 1..], socket, room));
    assert clients[..i] + [clients[i]] == clients[..i + 1];
  }

  // ----- The blocks -----

  function Tally(online: map<string, nat>, room: string): nat {
    if room in online then online[room] else 0
  }

  class Clients {
    var clients: seq<ClientInfo>

    constructor ()
      ensures clients == []
    {
      clients := [];
    }

    method PushBack(client: ClientInfo)
      modifies this
      ensures clients == old(clients) + [client]
    {
      clients := clients + [client];
    }

    method SetRoom(socket: Sock, room: string)
      modifies this
      ensures clients == WithRoom(old(clients), socket, room)
    {
      ghost var whole := WithRoom(clients, socket, room);
      for i := 0 to |clients|
        invariant clients == old(clients)
        invariant whole == clients[..i] + WithRoom(clients[i..], socket, room)
      {
        WithRoomStep(clients, i, socket, room);
        if clients[i].socket == socket {
          clients := clients[i := clients[i].(room := room)];
          return;
        }
      }
    }

    method FindClientByUsername(username: string) returns (socket: Option<Sock>)
      ensures socket == FindUser(clients, username)
    {
      for i := 0 to |clients|
        invariant FindUser(clients, username) == FindUser(clients[i..], username)
      {
        if clients[i].username == username {
          return Some(clients[i].socket);
        }
        assert clients[i..][1..] == clients[i + 1..];
      }
      return None;
    }

    method UsersInRoom(room: string) returns (names: seq<string>)
      ensures names == UsersIn(clients, room)
    {
      names := [];
      for i := 0 to |clients|
        invariant names == UsersIn(clients[..i], room)
      {
        assert clients[..i + 1] == clients[..i] + [clients[i]];
        UsersInAppend(clients[..i], [clients[i]], room);
        if clients[i].room == room {
          names := names + [clients[i].username];
        }
      }
      assert clients[..|clients|] == clients;
    }

    method SnapshotRecipients(room: string, exclude: Option<Sock>) returns (recipients: seq<Sock>)
      ensures recipients == Recipients(clients, room, exclude)
    {
      recipients := [];
      for i := 0 to |clients|
        invariant recipients == Recipients(clients[..i], room, exclude)
      {
        assert clients[..i + 1] == clients[..i] + [clients[i]];
        RecipientsAppend(clients[..i], [clients[i]], room, exclude);
        if clients[i].room == room && Some(clients[i].socket) != exclude {
          recipients := recipients + [clients[i].socket];
        }
      }
      assert clients[..|clients|] == clients;
    }

    /** `erase(remove_if(...))`. */
    method Remove(socket: Sock)
      modifies this
      ensures clients == Without(old(clients), socket)
    {
      var kept := [];
      for i := 0 to |clients|
        invariant clients == old(clients)
        invariant kept == Without(clients[..i], socket)
      {
        assert clients[..i + 1] == clients[..i] + [clients[i]];
        WithoutAppend(clients[..i], [clients[i]], socket);
        if clients[i].socket != socket {
          kept := kept + [clients[i]];
        }
      }
      assert clients[..|clients|] == clients;
      clients := kept;
    }

    /** `++online[client.room]` over all clients. */
    method CountOnline() returns (online: map<string, nat>, keys: seq<string>)
      ensures keys == SetOf(RoomsOf(clients))
      ensures forall r :: r in online <==> r in keys
      ensures forall r :: Tally(online, r) == Online(clients, r)
    {
      online, keys := map[], [];
      for i := 0 to |clients|
        invariant keys == SetOf(RoomsOf(clients[..i]))
        invariant forall r :: r in online <==> r in keys
        invariant forall r :: Tally(online, r) == Online(clients[..i], r)
      {
        var room := clients[i].room;
        OneMoreClient(clients, i);
        ghost var before := online;
        online := online[room := Tally(online, room) + 1];
        forall r ensures Tally(online, r) == Online(clients[..i + 1], r) {
          assert Tally(before, r) == Online(clients[..i], r);
        }
        keys := InsertName(keys, room);
      }
      assert clients[..|clients|] == clients;
    }
  }

  lemma OneMoreClient(clients: seq<ClientInfo>, i: nat)
    requires i < |clients|
    ensures var keys, room := SetOf(RoomsOf(clients[..i])), clients[i].room;
            && SetOf(RoomsOf(clients[..i + 1])) == InsertName(keys, room)
            && forall r :: r in InsertName(keys, room) <==> r in keys || r == room
    ensures forall r :: Online(clients[..i + 1], r) == Online(clients[..i], r) + if clients[i].room == r then 1 else 0
  {
    assert clients[..i + 1] == clients[..i] + [clients[i]];
    assert RoomsOf(clients[..i + 1])[..i] == RoomsOf(clients[..i]);
    SetOfSorted(RoomsOf(clients[..i]));
    InsertNameSorted(SetOf(RoomsOf(clients[..i])), clients[i].room);
    forall r ensures Online(clients[..i + 1], r) == Online(clients[..i], r) + if clients[i].room == r then 1 else 0 {
      UsersInAppend(clients[..i], [clients[i]], r);
    }
  }
}
