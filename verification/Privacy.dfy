/** Who reads what: the replies to history requests, and what a replay contains. */
module Privacy {
  import opened Text
  import opened Codec
  import opened Names
  import opened Requests
  import opened Messages
  import opened Registry
  import opened Store
  import opened Server
  import opened Invariant
  import opened Reachable

  // ----- Privacy of direct messages -----

  lemma ReplayableFits(sh: Shared, user: string, ms: seq<ChatMessage>)
    requires Replayable(sh, user, ms)
    ensures |ms| < 0x1_0000 && forall i | 0 <= i < |ms| :: ChatFields(ms[i]).Fit()
  {
    forall i | 0 <= i < |ms| ensures ChatFields(ms[i]).Fit() {
      assert Fits(ms[i]);
    }
  }

  /** `encode_history` is the printer in use. */
  ghost predicate PrintsHistories(env: Env) {
    forall ms :: env.history(ms) == HistoryCodec().write(ms)
  }

  lemma DeployedPrints()
    ensures PrintsHistories(Deployed())
  {
  }

  /** What a client makes of a history payload. */
  function Decoded(payload: string): Parsed<seq<ChatMessage>> {
    HistoryCodec().read(payload)
  }

  /** A payload decodes completely, to messages that may be replayed to `user`. */
  ghost predicate DecodesFor(sh: Shared, user: string, payload: string) {
    Decoded(payload).Parsed? && Decoded(payload).rest == "" && Replayable(sh, user, Decoded(payload).value)
  }

  lemma PrintedReads(env: Env, payload: string, ms: seq<ChatMessage>)
    requires PrintsHistories(env) && payload == env.history(ms)
    requires |ms| < 0x1_0000 && forall i | 0 <= i < |ms| :: ChatFields(ms[i]).Fit()
    ensures Decoded(payload) == Parsed(ms, "")
  {
    HistoryComesBackIff(ms, "");
    var printed := HistoryCodec().write(ms);
    assert payload == printed == printed + "";
  }

  lemma WrittenDecodes(env: Env, sh: Shared, user: string, payload: string, ms: seq<ChatMessage>)
    requires PrintsHistories(env) && payload == env.history(ms) && Replayable(sh, user, ms)
    ensures Decoded(payload) == Parsed(ms, "")
  {
    ReplayableFits(sh, user, ms);
    PrintedReads(env, payload, ms);
  }

  lemma ReadsBack(env: Env, sh: Shared, user: string, m: Msg)
    requires PrintsHistories(env) && m.kind == History && MayReceive(env, sh, user, m)
    ensures DecodesFor(sh, user, m.payload)
  {
    var ms :| m.payload == env.history(ms) && Replayable(sh, user, ms);
    WrittenDecodes(env, sh, user, m.payload, ms);
  }

  /** Someone logged in as `user` has asked for a text inside which the key is cut. */
  ghost predicate AskedCut(sh: Shared, user: string) {
    exists t :: (user, t) in sh.asked && CutInside(user, t)
  }

  /** Said in one chat room, or all direct messages between the account of `user` and one other, or,
      for a name that is itself cut, all direct messages of its account. */
  ghost predicate PrivateTo(sh: Shared, user: string, ms: seq<ChatMessage>) {
    || (exists room :: SaidIn(room, ms))
    || (exists peer :: AllBetween(sh.routed, user, peer, ms))
    || (NUL in user && AllOwn(sh.routed, user, ms))
  }

  lemma KeptForOwn(sh: Shared, user: string, t: string, ms: seq<ChatMessage>)
    requires Account(user) && KeptFor(user, t, ms) && !CutInside(user, t)
    requires forall i | 0 <= i < |ms| :: Keepable(sh.routed, ms[i])
    ensures AllOwn(sh.routed, user, ms)
    ensures NUL !in user || Less(t, user) ==> AllBetween(sh.routed, user, t, ms)
  {
    forall i | 0 <= i < |ms| ensures Own(sh.routed, user, ms[i]) && (NUL !in user || Less(t, user) ==> Between(sh.routed, user, t, ms[i])) {
      ThreadRow(sh.routed, user, t, ms[i]);
    }
  }

  lemma UncutIsPrivate(sh: Shared, user: string, ms: seq<ChatMessage>)
    requires Replayable(sh, user, ms) && !AskedCut(sh, user)
    ensures PrivateTo(sh, user, ms)
  {
    if !exists room :: SaidIn(room, ms) {
      var t :| (user, t) in sh.asked && KeptFor(user, t, ms);
      KeptForOwn(sh, user, t, ms);
    }
  }

  /** Every history frame that any connection ever receives decodes, in full, to stored messages that
      were all said in one chat room, or are all kept under the key of its own name and a text it
      asked for.  Unless such a text has cut the key short, the latter are direct messages of its
      own account. */
  lemma HistoryIsPrivate(env: Env, run: seq<Step>, st: State, s: Sock, i: nat)
    requires PrintsHistories(env) && After(env, run) == Some(st) && s in st.threads
    requires i < |st.threads[s].outbox| && st.threads[s].outbox[i].kind == History
    ensures DecodesFor(st.shared, st.threads[s].local.username, st.threads[s].outbox[i].payload)
    ensures !AskedCut(st.shared, st.threads[s].local.username) ==>
              PrivateTo(st.shared, st.threads[s].local.username, Decoded(st.threads[s].outbox[i].payload).value)
  {
    AlwaysInv(env, run);
    HistoryAt(env, st, s, i);
  }

  lemma HistoryAt(env: Env, st: State, s: Sock, i: nat)
    requires PrintsHistories(env) && Inv(env, st) && s in st.threads
    requires i < |st.threads[s].outbox| && st.threads[s].outbox[i].kind == History
    ensures DecodesFor(st.shared, st.threads[s].local.username, st.threads[s].outbox[i].payload)
    ensures !AskedCut(st.shared, st.threads[s].local.username) ==>
              PrivateTo(st.shared, st.threads[s].local.username, Decoded(st.threads[s].outbox[i].payload).value)
  {
    var t := st.threads[s];
    assert ThreadOk(env, st.shared, t);
    ReadsBack(env, st.shared, t.local.username, t.outbox[i]);
    DecodedIsPrivate(st.shared, t.local.username, t.outbox[i].payload);
  }

  lemma DecodedIsPrivate(sh: Shared, user: string, payload: string)
    requires DecodesFor(sh, user, payload)
    ensures !AskedCut(sh, user) ==> PrivateTo(sh, user, Decoded(payload).value)
  {
    if !AskedCut(sh, user) {
      UncutIsPrivate(sh, user, Decoded(payload).value);
    }
  }

  // ----- What is asked for -----

  /** What a request for the direct messages with `t` is answered with. */
  ghost predicate ThreadAnswer(sh: Shared, user: string, t: string, ms: seq<ChatMessage>) {
    && KeptFor(user, t, ms)
    && (!CutInside(user, t) ==> AllOwn(sh.routed, user, ms))
    && (!CutInside(user, t) && (NUL !in user || Less(t, user)) ==> AllBetween(sh.routed, user, t, ms))
  }

  /** What one frame asks for decides what it gets, in whatever state its query runs: `@t` the rows
      under the key of the requester and `t`, anything else only what was said in the requester's
      room.  For every text `t`, unless the key is cut inside it, those rows are direct messages of
      the requester's account, and with `t` if the requester's own name is not cut. */
  lemma AnswerFitsRequest(env: Env, run: seq<Step>, st: State, s: Sock, payload: string,
                          run': seq<Step>, st': State, limit: int)
    requires After(env, run) == Some(st) && s in st.threads && After(env, run') == Some(st')
    requires st.threads[s].local.phase == Chatting
    ensures var local := st.threads[s].local;
            match ReadHistoryRequest(payload)
            case Usage => true
            case OfRoom(n) =>
              && HandleHistory(local.username, local.room, payload) == [Replay(local.room, n)]
              && SaidIn(local.room, RecentMessages(st'.shared.db, local.room, limit))
            case OfThread(t, n) =>
              && HandleHistory(local.username, local.room, payload) == [Replay(DmKey(local.username, t), n)]
              && ThreadAnswer(st'.shared, local.username, t, RecentMessages(st'.shared.db, DmKey(local.username, t), limit))
  {
    var local := st.threads[s].local;
    AlwaysInv(env, run);
    AlwaysInv(env, run');
    assert ThreadOk(env, st.shared, st.threads[s]);
    match ReadHistoryRequest(payload)
    case Usage =>
    case OfRoom(_) => RoomQuery(st'.shared, local.room, limit);
    case OfThread(t, _) => ThreadQuery(st'.shared, local.username, t, limit);
  }

  /** A join replays only what was said in the room that is joined. */
  lemma JoinReplaysRoom(env: Env, run: seq<Step>, st: State, payload: string, limit: int)
    requires After(env, run) == Some(st) && SanitizeRoom(payload) != ""
    ensures SaidIn(SanitizeRoom(payload), RecentMessages(st.shared.db, SanitizeRoom(payload), limit))
  {
    AlwaysInv(env, run);
    SanitizedIsChatRoom(payload);
    RoomQuery(st.shared, SanitizeRoom(payload), limit);
  }

  lemma RoomQuery(sh: Shared, room: string, limit: int)
    requires DbOk(sh) && ChatRoom(room)
    ensures SaidIn(room, RecentMessages(sh.db, room, limit))
  {
    RecentIsStored(sh.db, room, limit);
    RoomHasNoNul(room);
  }

  lemma ThreadQuery(sh: Shared, user: string, t: string, limit: int)
    requires DbOk(sh) && Account(user)
    ensures ThreadAnswer(sh, user, t, RecentMessages(sh.db, DmKey(user, t), limit))
  {
    var ms := RecentMessages(sh.db, DmKey(user, t), limit);
    RecentIsStored(sh.db, DmKey(user, t), limit);
    forall i | 0 <= i < |ms| ensures Keepable(sh.routed, ms[i]) && ms[i].room == StoredKey(user, t) {
      RecentRow(sh, ms, DmKey(user, t), i);
    }
    if !CutInside(user, t) {
      KeptForOwn(sh, user, t, ms);
    }
  }

  /** In every database, the query for one pair of names gets what the query for another gets. */
  ghost predicate SameAnswers(a: string, b: string, x: string, y: string) {
    forall db, limit :: RecentMessages(db, DmKey(a, b), limit) == RecentMessages(db, DmKey(x, y), limit)
  }

  lemma SameAnswersIff(a: string, b: string, x: string, y: string)
    ensures SameAnswers(a, b, x, y) <==> StoredKey(a, b) == StoredKey(x, y)
  {
    if StoredKey(a, b) != StoredKey(x, y) {
      KeysApart(a, b, x, y);
    }
  }

  /** Two names, logged in or not, of other accounts than that of `me`. */
  ghost predicate Others(me: string, x: string, y: string) {
    LoginName(x) && LoginName(y) && CStr(x) != CStr(me) && CStr(y) != CStr(me)
  }

  lemma OthersAnswerCuts(me: string, t: string, x: string, y: string)
    requires Account(me) && Others(me, x, y) && SameAnswers(me, t, x, y)
    ensures CutInside(me, t) && NamesOthers(CStr(me), CStr(t))
  {
    SameAnswersIff(me, t, x, y);
    OthersKeyIff(me, t, x, y);
    BodyNamesOthers(CStr(me), x, y);
  }

  lemma CutAnswersOthers(me: string, t: string) returns (x: string, y: string)
    requires Account(me) && CutInside(me, t) && NamesOthers(CStr(me), CStr(t))
    ensures Others(me, x, y) && SameAnswers(me, t, x, y)
  {
    x, y := OthersOfText(CStr(me), CStr(t));
    OthersKeyIff(me, t, x, y);
    SameAnswersIff(me, t, x, y);
  }

  /** When the answer to `me` is what is kept for names of other accounts: exactly if the text asked for
      comes before `me` and has a NUL, and what is before the NUL is another account's name, or two in
      order with a colon between. */
  lemma OthersAnswerIff(me: string, t: string)
    requires Account(me)
    ensures (exists x, y :: Others(me, x, y) && SameAnswers(me, t, x, y))
            <==> CutInside(me, t) && NamesOthers(CStr(me), CStr(t))
  {
    if exists x, y :: Others(me, x, y) && SameAnswers(me, t, x, y) {
      var x, y :| Others(me, x, y) && SameAnswers(me, t, x, y);
      OthersAnswerCuts(me, t, x, y);
    }
    if CutInside(me, t) && NamesOthers(CStr(me), CStr(t)) {
      var x, y := CutAnswersOthers(me, t);
    }
  }

  lemma KeyUncut(a: string, b: string)
    requires NUL !in a && NUL !in b
    ensures StoredKey(a, b) == DmKey(a, b)
  {
    StoredKeyIs(a, b);
  }

  /** Two different keys: a database in which one query finds a message and the other none. */
  lemma KeysApart(me: string, t: string, a: string, b: string)
    requires StoredKey(me, t) != StoredKey(a, b)
    ensures exists db, limit :: RecentMessages(db, DmKey(me, t), limit) != RecentMessages(db, DmKey(a, b), limit)
  {
    var m := Stored(ChatMessage(DmKey(a, b), a, "", 0));
    var row := MessageRow(1, m);
    var db := Db([], [row]);
    assert RowsOf([row][..0], StoredKey(a, b)) == [] && RowsOf([row][..0], StoredKey(me, t)) == [];
    assert RowsOf(db.messages, StoredKey(me, t)) == [];
    assert RowsOf(db.messages, StoredKey(a, b)) == [row];
    assert Sort([row][1..]) == [];
    assert Sort([row]) == [row];
    assert RecentMessages(db, DmKey(me, t), 1) == [];
    assert |RecentMessages(db, DmKey(a, b), 1)| == 1;
  }

  lemma CutRequest(room: string, names: string)
    requires NUL !in names && ' ' !in names && names != "" && names[0] == 'a'
    ensures HandleHistory(ASKER, room, "@" + CutText(names)) == [Replay(DmKey(ASKER, CutText(names)), DEFAULT_LIMIT)]
  {
    CutTextIs(names);
    DmHistoryRoundTrip(CutText(names));
  }

  lemma CutAnswer(names: string, x: string, y: string)
    requires NUL !in names && ' ' !in names && names != "" && names[0] == 'a'
    requires Account(x) && Account(y) && CStr(x) != ASKER && CStr(y) != ASKER
    requires CutBody(Ordered(x, y).0, Ordered(x, y).1) == names
    ensures SameAnswers(ASKER, CutText(names), x, y)
  {
    CutTextIs(names);
    AskerIs();
    OthersKeyIff(ASKER, CutText(names), x, y);
    SameAnswersIff(ASKER, CutText(names), x, y);
  }

  /** A request of `zed`, and whose messages it is answered with: those of two others. */
  lemma CutNameReadsOthers(room: string)
    ensures HandleHistory(ASKER, room, "@" + CutText(Body("aaa", "bbb"))) ==
            [Replay(DmKey(ASKER, CutText(Body("aaa", "bbb"))), DEFAULT_LIMIT)]
    ensures SameAnswers(ASKER, CutText(Body("aaa", "bbb")), "aaa", "bbb")
  {
    TwoNamesBody("aaa", "bbb");
    CutRequest(room, Body("aaa", "bbb"));
    CutAnswer(Body("aaa", "bbb"), "aaa", "bbb");
  }

  /** Another: what one other has sent to itself. */
  lemma CutNameReadsSelf(room: string)
    ensures HandleHistory(ASKER, room, "@" + CutText(Body("aaa", "aaa"))) ==
            [Replay(DmKey(ASKER, CutText(Body("aaa", "aaa"))), DEFAULT_LIMIT)]
    ensures SameAnswers(ASKER, CutText(Body("aaa", "aaa")), "aaa", "aaa")
  {
    LessTotal("aaa", "aaa");
    TwoNamesBody("aaa", "aaa");
    CutRequest(room, Body("aaa", "aaa"));
    CutAnswer(Body("aaa", "aaa"), "aaa", "aaa");
  }

  /** And one more: what is kept for a session of one other under a name with a NUL. */
  lemma CutNameReadsSession(room: string)
    ensures HandleHistory(ASKER, room, "@" + CutText("aaa")) == [Replay(DmKey(ASKER, CutText("aaa")), DEFAULT_LIMIT)]
    ensures SameAnswers(ASKER, CutText("aaa"), CutText("aaa"), "bbb")
  {
    CutTextIs("aaa");
    UsernameChars("bbb", NUL);
    CutRequest(room, "aaa");
    CutAnswer("aaa", CutText("aaa"), "bbb");
  }
}
