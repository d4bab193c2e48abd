/** `build_room_list` (chat_server.cpp): two snapshots, one of the clients and one of the database,
    merged into a text. */
module RoomListing {
  import opened Seqs
  import opened Text
  import opened Messages
  import opened Requests
  import opened NameSet
  import opened Registry
  import opened Store

  const LISTED_ROOMS := 200

  /** A stored room that fewer than 200 others come before. */
  predicate StoredFirst(db: Db, room: string) {
    room in RoomNames(db.messages) && Preceding(RoomNames(db.messages), room) < 200
  }

  method BuildRoomList(registry: Clients, db: ChatDatabase) returns (text: string)
    ensures text == RoomList(registry.clients, if db.isOpen then ListRooms(db.View(), LISTED_ROOMS) else [])
  {
    var online, keys := registry.CountOnline();
    var knownRooms := db.ListRoomNames(LISTED_ROOMS);
    var rooms := AddKeys(SetOf(knownRooms), keys);
    MergedRooms(registry.clients, knownRooms);
    text := "Known rooms:";
    if rooms == [] {
      text := text + "\n  (none yet)";
    }
    assert text == Heading(rooms);
    text := AppendRooms(text, rooms, registry.clients, online);
  }

  method AddKeys(known: seq<string>, keys: seq<string>) returns (rooms: seq<string>)
    ensures rooms == InsertAll(known, keys)
  {
    rooms := known;
    for i := 0 to |keys|
      invariant rooms == InsertAll(known, keys[..i])
    {
      assert keys[..i + 1][..i] == keys[..i];
      rooms := InsertName(rooms, keys[i]);
    }
    assert keys[..|keys|] == keys;
  }

  method AppendRooms(start: string, rooms: seq<string>, ghost clients: seq<ClientInfo>, online: map<string, nat>)
    returns (text: string)
    requires forall r :: Tally(online, r) == Online(clients, r)
    ensures text == start + RoomLines(clients, rooms)
  {
    text := start;
    for i := 0 to |rooms|
      invariant text == start + RoomLines(clients, rooms[..i])
    {
      assert rooms[..i + 1][..i] == rooms[..i];
      assert Tally(online, rooms[i]) == Online(clients, rooms[i]);
      var line := "\n  " + rooms[i] + "  (online: " + Decimal(Tally(online, rooms[i])) + ")";
      Associative(start, RoomLines(clients, rooms[..i]), line);
      text := text + line;
    }
    assert rooms[..|rooms|] == rooms;
  }

  lemma MergedRooms(clients: seq<ClientInfo>, known: seq<string>)
    ensures InsertAll(SetOf(known), SetOf(RoomsOf(clients))) == ListedRooms(clients, known)
  {
    var a, b := InsertAll(SetOf(known), SetOf(RoomsOf(clients))), ListedRooms(clients, known);
    SetOfSorted(known);
    SetOfSorted(RoomsOf(clients));
    InsertAllSorted(SetOf(known), SetOf(RoomsOf(clients)));
    SetOfSorted(known + RoomsOf(clients));
    SortedUnique(a, b);
  }

  /** The printed rooms: each once, in order; exactly the rooms with clients and those of the database
      that fewer than 200 others come before; with numbers that add up to the clients connected. */
  lemma ListingIsComplete(clients: seq<ClientInfo>, db: Db)
    ensures var rooms := ListedRooms(clients, ListRooms(db, LISTED_ROOMS));
            && Sorted(rooms)
            && (forall r :: r in rooms <==>
                  StoredFirst(db, r) || exists i :: 0 <= i < |clients| && clients[i].room == r)
            && SumOnline(clients, rooms) == |clients|
  {
    var known := ListRooms(db, LISTED_ROOMS);
    RoomListIs(clients, known);
    forall r ensures r in known <==> StoredFirst(db, r) {
      ListRoomsIff(db, LISTED_ROOMS, r);
    }
  }

  // ----- What the text says -----

  /** One line for each room, in order, each with a number that reads as the room's, and nothing else. */
  ghost predicate Spells(text: string, rooms: seq<string>, counts: seq<nat>)
    requires |counts| == |rooms|
    decreases |rooms|
  {
    if rooms == [] then text == ""
    else exists n, rest :: LineThen(text, rooms[0], n, rest) && ReadsAs(n, counts[0]) && Spells(rest, rooms[1..], counts[1..])
  }

  predicate LineThen(text: string, room: string, n: string, rest: string) {
    text == "\n  " + room + "  (online: " + n + ")" + rest
  }

  /** Digits that `std::stoi` reads as this number, if it is an int. */
  ghost predicate ReadsAs(n: string, k: nat) {
    && n != "" && (forall i | 0 <= i < |n| :: '0' <= n[i] <= '9')
    && Stoi(n) == if k < 0x8000_0000 then Some(k) else None
  }

  function Counts(clients: seq<ClientInfo>, rooms: seq<string>): (counts: seq<nat>)
    ensures |counts| == |rooms| && forall i | 0 <= i < |rooms| :: counts[i] == |Places(clients, rooms[i])|
  {
    seq(|rooms|, i requires 0 <= i < |rooms| => |Places(clients, rooms[i])|)
  }

  lemma {:induction false} LinesFromFront(clients: seq<ClientInfo>, rooms: seq<string>)
    requires rooms != []
    ensures RoomLines(clients, rooms) == RoomLine(clients, rooms[0]) + RoomLines(clients, rooms[1..])
  {
    var front, last := rooms[..|rooms| - 1], rooms[|rooms| - 1];
    if front == [] {
      assert RoomLines(clients, front) == "" && RoomLines(clients, rooms[1..]) == "";
    } else {
      LinesFromFront(clients, front);
      assert rooms[1..][..|rooms[1..]| - 1] == front[1..];
      Associative(RoomLine(clients, rooms[0]), RoomLines(clients, front[1..]), RoomLine(clients, last));
    }
  }

  lemma {:induction false} LinesSpell(clients: seq<ClientInfo>, rooms: seq<string>)
    ensures Spells(RoomLines(clients, rooms), rooms, Counts(clients, rooms))
  {
    if rooms != [] {
      var n, rest := Decimal(Online(clients, rooms[0])), RoomLines(clients, rooms[1..]);
      LinesFromFront(clients, rooms);
      LinesSpell(clients, rooms[1..]);
      UsersInAt(clients, rooms[0]);
      StoiOfDecimal(Online(clients, rooms[0]));
      assert Counts(clients, rooms)[1..] == Counts(clients, rooms[1..]);
      assert LineThen(RoomLines(clients, rooms), rooms[0], n, rest);
      assert ReadsAs(n, Counts(clients, rooms)[0]);
    }
  }

  /** The text of `/rooms`: a heading, and for each room in order a line with the number of entries that
      the registry has for it. */
  lemma ListingSpells(clients: seq<ClientInfo>, known: seq<string>)
    ensures var rooms := ListedRooms(clients, known);
            exists lines :: RoomList(clients, known) == "Known rooms:" + (if rooms == [] then "\n  (none yet)" else "") + lines
                            && Spells(lines, rooms, Counts(clients, rooms))
  {
    var rooms := ListedRooms(clients, known);
    LinesSpell(clients, rooms);
    assert RoomList(clients, known) == Heading(rooms) + RoomLines(clients, rooms);
  }
}
