/** What the invariant means for the accounts and their connections. */
module Guarantees {
  import opened Text
  import opened Names
  import opened Messages
  import opened Registry
  import opened Store
  import opened RoomListing
  import opened Server
  import opened Invariant
  import opened Reachable
  import opened Admission

  // ----- The registry -----

  /** In every reachable state: a socket has at most one entry; it has one exactly while its thread
      is between `push_back` and `erase`; the entry says what the thread's locals say; its account
      exists; and this connection has logged in or registered under that name. */
  lemma RegistryIsExact(env: Env, run: seq<Step>, st: State, s: Sock)
    requires After(env, run) == Some(st) && s in st.threads
    ensures var local := st.threads[s].local;
            && Unique(st.shared.clients)
            && (local.phase == Chatting <==> Listed(st.shared.clients, s))
            && (local.phase == Chatting ==>
                  && ClientInfo(s, local.username, local.room) in st.shared.clients
                  && Admitted(env, run, s, local.username)
                  && ValidUsername(CStr(local.username))
                  && UserOf(st.shared.db.users, CStr(local.username)).Some?)
  {
    AlwaysInv(env, run);
    EntryIsExact(env, st, s);
    if st.threads[s].local.phase == Chatting {
      ChattersWereAdmitted(env, run, st, s);
    }
  }

  lemma EntryIsExact(env: Env, st: State, s: Sock)
    requires Inv(env, st) && s in st.threads
    ensures var local := st.threads[s].local;
            && (local.phase == Chatting <==> Listed(st.shared.clients, s))
            && (local.phase == Chatting ==> LocalOk(st.shared, local) && ClientInfo(s, local.username, local.room) in st.shared.clients)
  {
    assert ThreadOk(env, st.shared, st.threads[s]);
    if Listed(st.shared.clients, s) {
      var i :| 0 <= i < |st.shared.clients| && st.shared.clients[i].socket == s;
      assert Agrees(st.threads, st.shared.clients[i]);
      assert st.shared.clients[i] == ClientInfo(s, st.threads[s].local.username, st.threads[s].local.room);
    }
  }

  /** Whoever is in the chat has a valid name exactly if the name has no NUL. */
  lemma ChattersNamed(env: Env, run: seq<Step>, st: State, s: Sock)
    requires After(env, run) == Some(st) && s in st.threads && st.threads[s].local.phase == Chatting
    ensures ValidUsername(st.threads[s].local.username) <==> NUL !in st.threads[s].local.username
  {
    RegistryIsExact(env, run, st, s);
    if ValidUsername(st.threads[s].local.username) {
      NameHasNoNul(st.threads[s].local.username);
    }
  }

  // ----- What the list of rooms names -----

  lemma ClientRoom(env: Env, st: State, i: nat)
    requires Inv(env, st) && i < |st.shared.clients|
    ensures ChatRoom(st.shared.clients[i].room)
  {
    assert Agrees(st.threads, st.shared.clients[i]);
    assert ThreadOk(env, st.shared, st.threads[st.shared.clients[i].socket]);
  }

  function Listing(st: State): seq<string> {
    ListedRooms(st.shared.clients, ListRooms(st.shared.db, LISTED_ROOMS))
  }

  lemma StoredRoomIs(sh: Shared, room: string)
    requires DbOk(sh) && room in RoomNames(sh.db.messages)
    ensures ChatRoom(room) || exists d :: d in sh.routed && room == StoredKey(d.from, d.to)
  {
    var names := RoomNames(sh.db.messages);
    var i :| 0 <= i < |names| && names[i] == room;
    assert Keepable(sh.routed, sh.db.messages[i].message);
  }

  /** The list of rooms names chat rooms, and also the keys under which direct messages were
      kept: the query behind it does not tell them apart. */
  lemma ListedRoomIs(env: Env, run: seq<Step>, st: State, room: string)
    requires After(env, run) == Some(st) && room in Listing(st)
    ensures ChatRoom(room) || exists d :: d in st.shared.routed && room == StoredKey(d.from, d.to)
  {
    AlwaysInv(env, run);
    ListedIff(env, st, room);
    if !exists i :: 0 <= i < |st.shared.clients| && st.shared.clients[i].room == room {
      StoredRoomIs(st.shared, room);
    }
  }

  lemma ListedIff(env: Env, st: State, room: string)
    requires Inv(env, st)
    ensures room in Listing(st) <==>
            StoredFirst(st.shared.db, room) || exists i :: 0 <= i < |st.shared.clients| && st.shared.clients[i].room == room
    ensures (exists i :: 0 <= i < |st.shared.clients| && st.shared.clients[i].room == room) ==> ChatRoom(room)
  {
    ListingIsComplete(st.shared.clients, st.shared.db);
    if exists i :: 0 <= i < |st.shared.clients| && st.shared.clients[i].room == room {
      var i :| 0 <= i < |st.shared.clients| && st.shared.clients[i].room == room;
      ClientRoom(env, st, i);
    }
  }

  /** In every reachable state a key of direct messages is listed exactly if a message is kept under
      it and fewer than 200 stored rooms come before it. */
  lemma KeyListedIff(env: Env, run: seq<Step>, st: State, a: string, b: string)
    requires After(env, run) == Some(st)
    ensures StoredKey(a, b) in Listing(st) <==> StoredFirst(st.shared.db, StoredKey(a, b))
  {
    AlwaysInv(env, run);
    StoredKeyIsNoRoom(a, b);
    ListedIff(env, st, StoredKey(a, b));
  }

  // ----- Where a direct message goes -----

  /** The thread of a live session under a name. */
  predicate Session(threads: map<Sock, Thread>, s: Sock, username: string) {
    s in threads && threads[s].local.phase == Chatting && threads[s].local.username == username
  }

  /** A live session under the name, which entered before all others. */
  ghost predicate OldestSession(st: State, found: Sock, username: string) {
    && Session(st.threads, found, username)
    && found in st.shared.stamps
    && forall s :: Session(st.threads, s, username) && s != found ==>
         s in st.shared.stamps && st.shared.stamps[found] < st.shared.stamps[s]
  }

  lemma FirstIsOldest(st: State, username: string, i: nat)
    requires RegistryOk(st.shared.clients, st.threads) && OrderOk(st.shared)
    requires i < |st.shared.clients| && st.shared.clients[i].username == username
    requires forall j | 0 <= j < i :: st.shared.clients[j].username != username
    ensures OldestSession(st, st.shared.clients[i].socket, username)
  {
    var clients, found := st.shared.clients, st.shared.clients[i].socket;
    assert Agrees(st.threads, clients[i]);
    forall s | Session(st.threads, s, username) && s != found
      ensures s in st.shared.stamps && st.shared.stamps[found] < st.shared.stamps[s]
    {
      var k := EntryOf(st, s);
    }
  }

  /** A direct message is routed to a chatting thread under the target name, and among those to the
      one that entered first; it is refused only if there is none. */
  lemma RoutedToOldest(env: Env, run: seq<Step>, st: State, username: string)
    requires After(env, run) == Some(st)
    ensures match FindUser(st.shared.clients, username)
            case None => forall s :: !Session(st.threads, s, username)
            case Some(found) => OldestSession(st, found, username)
  {
    var clients := st.shared.clients;
    AlwaysInv(env, run);
    FindUserFirst(clients, username);
    match FindUser(clients, username)
    case None =>
      forall s ensures !Session(st.threads, s, username) {
        if Session(st.threads, s, username) {
          var k := EntryOf(st, s);
        }
      }
    case Some(found) =>
      var i :| 0 <= i < |clients| && clients[i].username == username && found == clients[i].socket
               && forall j | 0 <= j < i :: clients[j].username != username;
      FirstIsOldest(st, username, i);
  }

  lemma EntryOf(st: State, s: Sock) returns (k: nat)
    requires RegistryOk(st.shared.clients, st.threads) && s in st.threads && st.threads[s].local.phase == Chatting
    ensures k < |st.shared.clients| && st.shared.clients[k].socket == s
    ensures st.shared.clients[k].username == st.threads[s].local.username
  {
    assert Listed(st.shared.clients, s);
    k :| 0 <= k < |st.shared.clients| && st.shared.clients[k].socket == s;
    assert Agrees(st.threads, st.shared.clients[k]);
  }
}
