/** Usernames, rooms and the room keys of direct messages (chat_server.cpp), and how the client
    takes such a key apart (chat_client.cpp). */
module Names {
  import opened Seqs
  import opened Text

  const DEFAULT_ROOM: string := "general"

  // ----- valid_username -----

  predicate Alnum(c: char) {
    '0' <= c <= '9' || 'A' <= c <= 'Z' || 'a' <= c <= 'z'
  }

  predicate NameChar(c: char) {
    Alnum(c) || c == '_' || c == '-'
  }

  predicate ValidUsername(u: string) {
    3 <= |u| <= 20 && forall i | 0 <= i < |u| :: NameChar(u[i])
  }

  method CheckUsername(username: string) returns (ok: bool)
    ensures ok == ValidUsername(username)
    ensures ok <==>
              && 3 <= |username| <= 20
              && forall i | 0 <= i < |username| ::
                   || 'a' <= username[i] <= 'z' || 'A' <= username[i] <= 'Z' || '0' <= username[i] <= '9'
                   || username[i] == '_' || username[i] == '-'
  {
    if |username| < 3 || |username| > 20 {
      return false;
    }
    for i := 0 to |username|
      invariant forall j | 0 <= j < i :: NameChar(username[j])
    {
      if !Alnum(username[i]) && username[i] != '_' && username[i] != '-' {
        return false;
      }
    }
    ok := true;
  }

  lemma UsernameChars(u: string, c: char)
    requires ValidUsername(u) && !NameChar(c)
    ensures c !in u
  {
  }

  // ----- sanitize_room -----

  predicate RoomChar(c: char) {
    NameChar(c) || c == ' '
  }

  function Cleaned(s: string): (t: string)
    ensures |t| == |s|
    ensures forall i | 0 <= i < |s| :: t[i] == if RoomChar(s[i]) then s[i] else '_'
  {
    if s == "" then "" else [if RoomChar(s[0]) then s[0] else '_'] + Cleaned(s[1..])
  }

  const MAX_ROOM := 32

  function SanitizeRoom(raw: string): string {
    var room := Trim(raw);
    Cleaned(if |room| > MAX_ROOM then room[..MAX_ROOM] else room)
  }

  method Sanitize(rawRoom: string) returns (room: string)
    ensures room == SanitizeRoom(rawRoom)
  {
    room := TrimText(rawRoom);
    if |room| > MAX_ROOM {
      room := room[..MAX_ROOM];
    }
    ghost var cut := room;
    for i := 0 to |room|
      invariant |room| == |cut|
      invariant forall j | 0 <= j < i :: room[j] == Cleaned(cut)[j]
      invariant forall j | i <= j < |cut| :: room[j] == cut[j]
    {
      if !Alnum(room[i]) && room[i] != '_' && room[i] != '-' && room[i] != ' ' {
        room := room[i := '_'];
      }
    }
  }

  /** The first 32 characters of the trimmed name, each letter, digit, `_`, `-` and space as it is, and
      `_` for anything else. */
  lemma SanitizedAt(raw: string)
    ensures var t, room := Trim(raw), SanitizeRoom(raw);
            && |room| == (if |t| > 32 then 32 else |t|)
            && forall i | 0 <= i < |room| ::
                 room[i] == if || 'a' <= t[i] <= 'z' || 'A' <= t[i] <= 'Z' || '0' <= t[i] <= '9'
                               || t[i] == '_' || t[i] == '-' || t[i] == ' '
                            then t[i] else '_'
  {
  }

  /** A name that chat rooms can have. */
  predicate ChatRoom(room: string) {
    0 < |room| <= MAX_ROOM && forall i | 0 <= i < |room| :: RoomChar(room[i])
  }

  lemma SanitizedIsChatRoom(raw: string)
    ensures SanitizeRoom(raw) == "" || ChatRoom(SanitizeRoom(raw))
  {
  }

  lemma GeneralIsChatRoom()
    ensures ChatRoom(DEFAULT_ROOM)
  {
  }

  lemma CleanedKeeps(s: string)
    requires forall i | 0 <= i < |s| :: RoomChar(s[i])
    ensures Cleaned(s) == s
  {
  }

  lemma CutAtSpace(raw: string)
    requires |Trim(raw)| > MAX_ROOM && Trim(raw)[MAX_ROOM - 1] == ' '
    ensures SanitizeRoom(SanitizeRoom(raw)) != SanitizeRoom(raw)
  {
    var s := SanitizeRoom(raw);
    TrimIdempotent(s);
    assert s[|s| - 1] == ' ';
    assert !Tight(s);
    assert |Trim(s)| < |s| by {
      var l, r := TrimSplits(s);
      assert Trim(s) != s;
      assert |Trim(s)| == |s| ==> l == "" && r == "" && s == Trim(s);
    }
  }

  lemma SanitizedTight(raw: string)
    requires !(|Trim(raw)| > MAX_ROOM && Trim(raw)[MAX_ROOM - 1] == ' ')
    ensures Tight(SanitizeRoom(raw))
  {
    var t, s := Trim(raw), SanitizeRoom(raw);
    TrimIdempotent(raw);
    if t != "" {
      assert !Blank(t[0]);
      assert |t| <= MAX_ROOM ==> !Blank(t[|t| - 1]);
      assert |s| == if |t| > MAX_ROOM then MAX_ROOM else |t|;
    }
  }

  lemma TightStays(s: string)
    requires Tight(s) && |s| <= MAX_ROOM && forall i | 0 <= i < |s| :: RoomChar(s[i])
    ensures SanitizeRoom(s) == s
  {
    TrimOfTight(s);
    CleanedKeeps(s);
  }

  /** Sanitizing twice is sanitizing once, except when the cut at 32 characters left a space at
      the end. */
  lemma SanitizeIdempotentIff(raw: string)
    ensures SanitizeRoom(SanitizeRoom(raw)) == SanitizeRoom(raw)
            <==> !(|Trim(raw)| > MAX_ROOM && Trim(raw)[MAX_ROOM - 1] == ' ')
  {
    var t := Trim(raw);
    if |t| > MAX_ROOM && t[MAX_ROOM - 1] == ' ' {
      CutAtSpace(raw);
    } else {
      SanitizedTight(raw);
      TightStays(SanitizeRoom(raw));
    }
  }

  /** A name with a space in the thirty-second place changes when it is sanitized again. */
  lemma SanitizeNotIdempotent()
    ensures exists raw :: SanitizeRoom(SanitizeRoom(raw)) != SanitizeRoom(raw)
  {
    var raw := seq(31, i => 'a') + " b";
    TrimOfTight(raw);
    SanitizeIdempotentIff(raw);
  }

  // ----- dm_room_key -----

  function Body(a: string, b: string): string {
    a + [':'] + b
  }

  function DmKey(a: string, b: string): string {
    "dm:" + if Less(a, b) then Body(a, b) else Body(b, a)
  }

  /** The smaller name comes first. */
  lemma DmKeyIs(a: string, b: string)
    requires Less(a, b)
    ensures DmKey(a, b) == DmKey(b, a) == "dm:" + (a + ":" + b)
  {
    LessTotal(a, b);
  }

  lemma DmKeySymmetric(a: string, b: string)
    ensures DmKey(a, b) == DmKey(b, a)
  {
    LessTotal(a, b);
  }

  /** No room that a client can join or that a message is stored under is a direct-message key. */
  lemma DmKeyIsNoRoom(a: string, b: string, room: string)
    requires ChatRoom(room)
    ensures room != DmKey(a, b) && ':' !in room
  {
    assert DmKey(a, b)[2] == ':';
  }

  lemma BodyOfKey(a: string, b: string)
    ensures DmKey(a, b)[..3] == "dm:" && DmKey(a, b)[3..] == if Less(a, b) then Body(a, b) else Body(b, a)
  {
  }

  lemma BodyInjective(a: string, b: string, x: string, y: string)
    requires ':' !in a && ':' !in b && (':' !in x || ':' !in y) && Body(a, b) == Body(x, y)
    ensures a == x && b == y
  {
    if ':' !in x {
      FirstCut(a, b, x, y, ':');
    } else {
      LastCut(a, b, x, y, ':');
    }
  }

  /** The key of two accounts equals the key of an account `me` and any text `t` only if the two
      accounts are `me` and `t`. */
  lemma DmKeyDetermines(a: string, b: string, me: string, t: string)
    requires ValidUsername(a) && ValidUsername(b) && ValidUsername(me) && DmKey(a, b) == DmKey(me, t)
    ensures (a == me && b == t) || (a == t && b == me)
  {
    BodyOfKey(a, b);
    BodyOfKey(me, t);
    UsernameChars(a, ':');
    UsernameChars(b, ':');
    UsernameChars(me, ':');
    var (p, q) := if Less(a, b) then (a, b) else (b, a);
    var (x, y) := if Less(me, t) then (me, t) else (t, me);
    BodyInjective(p, q, x, y);
  }

  // ----- The key as the database sees it -----

  /** A key that is bound as a C string ends at its first NUL. */
  function StoredKey(a: string, b: string): string {
    CStr(DmKey(a, b))
  }

  /** The name that comes first in the key of two, and the other one. */
  function Ordered(a: string, b: string): (string, string) {
    if Less(a, b) then (a, b) else (b, a)
  }

  /** The body of a key, as far as the database reads it. */
  function CutBody(p: string, q: string): string {
    if NUL in p then CStr(p) else Body(p, CStr(q))
  }

  lemma StoredKeyIs(a: string, b: string)
    ensures var (p, q) := Ordered(a, b);
            StoredKey(a, b) == "dm:" + CutBody(p, q)
  {
    var (p, q) := Ordered(a, b);
    BodyCut(p, q);
    CStrOfConcat("dm:", Body(p, q));
  }

  lemma BodyCut(p: string, q: string)
    ensures CStr(Body(p, q)) == CutBody(p, q)
  {
    CStrOfConcat(p, [':'] + q);
    CStrOfConcat([':'], q);
    Associative(p, [':'], q);
    Associative(p, [':'], CStr(q));
  }

  /** The account that a name logs in to: the database is given the name up to its first NUL. */
  predicate Account(name: string) {
    ValidUsername(CStr(name))
  }

  predicate SamePair(a: string, b: string, x: string, y: string) {
    (a == x && b == y) || (a == y && b == x)
  }

  /** Stored keys are equal only if their bodies are. */
  lemma StoredBodies(a: string, b: string, x: string, y: string)
    requires StoredKey(a, b) == StoredKey(x, y)
    ensures var (p, q), (v, w) := Ordered(a, b), Ordered(x, y);
            CutBody(p, q) == CutBody(v, w)
  {
    var (p, q) := Ordered(a, b);
    var (v, w) := Ordered(x, y);
    StoredKeyIs(a, b);
    StoredKeyIs(x, y);
    var k := StoredKey(a, b);
    assert k[3..] == CutBody(p, q);
    assert k[3..] == CutBody(v, w);
  }

  /** The request of `me` for `t` is cut short inside `t`. */
  predicate CutInside(me: string, t: string) {
    NUL in t && Less(t, me)
  }

  lemma CutBodyDetermines(p: string, q: string, v: string, w: string)
    requires ':' !in CStr(p) && ':' !in CStr(q) && CutBody(p, q) == CutBody(v, w)
    requires if NUL in v then ':' !in CStr(v) else ':' !in v || ':' !in CStr(w)
    ensures if NUL in v then NUL in p && CStr(p) == CStr(v) else NUL !in p && p == v && CStr(q) == CStr(w)
  {
    BodyHasColon(p, CStr(q));
    BodyHasColon(v, CStr(w));
    if NUL !in v {
      BodyInjective(p, CStr(q), v, CStr(w));
    }
  }

  lemma BodyHasColon(a: string, b: string)
    ensures ':' in Body(a, b)
  {
    assert Body(a, b)[|a|] == ':';
  }

  lemma OrderedPairs(a: string, b: string, x: string, y: string)
    requires CStr(Ordered(a, b).0) == CStr(Ordered(x, y).0) && CStr(Ordered(a, b).1) == CStr(Ordered(x, y).1)
    ensures SamePair(CStr(a), CStr(b), CStr(x), CStr(y))
  {
  }

  lemma AccountHasNoColon(name: string)
    requires Account(name)
    ensures ':' !in CStr(name) && (NUL !in name ==> ':' !in name)
  {
    UsernameChars(CStr(name), ':');
  }

  lemma OrderedAccounts(a: string, b: string)
    requires Account(a) && Account(b)
    ensures ':' !in CStr(Ordered(a, b).0) && ':' !in CStr(Ordered(a, b).1)
  {
    AccountHasNoColon(a);
    AccountHasNoColon(b);
  }

  /** Unless the key is cut inside the text asked for, what is kept under it are direct messages of
      the account that asks: with the text asked for, or, if the name of the one who asks is itself
      cut, with anyone. */
  lemma StoredKeyDetermines(a: string, b: string, me: string, t: string)
    requires Account(a) && Account(b) && Account(me) && StoredKey(a, b) == StoredKey(me, t) && !CutInside(me, t)
    ensures if NUL in me && !Less(t, me) then CStr(a) == CStr(me) || CStr(b) == CStr(me)
            else SamePair(CStr(a), CStr(b), CStr(me), CStr(t))
  {
    var (p, q) := Ordered(a, b);
    var (v, w) := Ordered(me, t);
    StoredBodies(a, b, me, t);
    LessTotal(me, t);
    OrderedAccounts(a, b);
    AccountHasNoColon(me);
    CutBodyDetermines(p, q, v, w);
    if NUL !in v {
      OrderedPairs(a, b, me, t);
    }
  }

  /** What is kept for two names that are not of the account of `me` is what `me` asks for exactly if
      the key is cut inside the text asked for, and the text up to the cut is the body of their key. */
  lemma OthersKeyIff(me: string, t: string, x: string, y: string)
    requires Account(me) && Account(x) && Account(y) && CStr(x) != CStr(me) && CStr(y) != CStr(me)
    ensures StoredKey(x, y) == StoredKey(me, t) <==>
            CutInside(me, t) && CStr(t) == CutBody(Ordered(x, y).0, Ordered(x, y).1)
  {
    StoredKeyIs(x, y);
    StoredKeyIs(me, t);
    LessTotal(me, t);
    if StoredKey(x, y) == StoredKey(me, t) {
      if !CutInside(me, t) {
        StoredKeyDetermines(x, y, me, t);
      }
      StoredBodies(x, y, me, t);
    }
  }

  /** A text that is one account name other than `me`, or two in order with a colon between. */
  predicate NamesOthers(me: string, text: string) {
    var colon := Find(text, ':');
    if colon == NPOS then ValidUsername(text) && text != me
    else
      var (a, b) := (text[..colon], text[colon + 1..]);
      ValidUsername(a) && ValidUsername(b) && !Less(b, a) && a != me && b != me
  }

  /** A name that is cut comes before everything that it comes before without what is cut off. */
  lemma {:induction false} LessCut(c: string, tail: string, p: string)
    requires NUL !in p && Less(c, p)
    ensures Less(c + [NUL] + tail, p)
  {
    if c == "" {
      assert (c + [NUL] + tail)[0] == NUL;
    } else if c[0] == p[0] {
      LessCut(c[1..], tail, p[1..]);
      assert (c + [NUL] + tail)[1..] == c[1..] + [NUL] + tail;
    } else {
      assert (c + [NUL] + tail)[0] == c[0];
    }
  }

  /** The second name, cut, still does not come before the first. */
  lemma CutKeepsOrder(p: string, q: string)
    requires NUL !in p && !Less(q, p)
    ensures !Less(CStr(q), p)
  {
    if NUL in q && Less(CStr(q), p) {
      var i := Find(q, NUL);
      assert q == q[..i] + [NUL] + q[i + 1..];
      LessCut(CStr(q), q[i + 1..], p);
    }
  }

  /** The bodies of the keys of names of other accounts name others. */
  lemma BodyNamesOthers(me: string, x: string, y: string)
    requires Account(x) && Account(y) && CStr(x) != me && CStr(y) != me
    ensures NamesOthers(me, CutBody(Ordered(x, y).0, Ordered(x, y).1))
  {
    var (p, q) := Ordered(x, y);
    OrderedAccounts(x, y);
    LessTotal(x, y);
    if NUL !in p {
      CutKeepsOrder(p, q);
      FindBehind(p, ':', CStr(q));
      SlicesOfThree(p, [':'], CStr(q));
    }
  }

  lemma OneNameBody(text: string)
    requires ValidUsername(text)
    ensures var x, y := text + [NUL], text + [NUL] + "a";
            && CStr(x) == text && CStr(y) == text && '\n' !in x && '\n' !in y
            && CutBody(Ordered(x, y).0, Ordered(x, y).1) == text
  {
    var x := text + [NUL];
    UsernameChars(text, NUL);
    UsernameChars(text, '\n');
    CStrOfConcat(text, [NUL]);
    CStrOfConcat(x, "a");
    assert CStr([NUL]) == "";
    LessLonger(x, "a");
  }

  lemma TwoNamesBody(a: string, b: string)
    requires ValidUsername(a) && ValidUsername(b) && !Less(b, a)
    ensures CStr(a) == a && CStr(b) == b && '\n' !in a && '\n' !in b
    ensures CutBody(Ordered(a, b).0, Ordered(a, b).1) == Body(a, b)
  {
    UsernameChars(a, NUL);
    UsernameChars(b, NUL);
    UsernameChars(a, '\n');
    UsernameChars(b, '\n');
    LessTotal(a, b);
  }

  /** And every text that names others is the body of such a key. */
  lemma OthersOfText(me: string, text: string) returns (x: string, y: string)
    requires NamesOthers(me, text)
    ensures Account(x) && Account(y) && CStr(x) != me && CStr(y) != me && '\n' !in x && '\n' !in y && |x| <= 22 && |y| <= 22
    ensures CutBody(Ordered(x, y).0, Ordered(x, y).1) == text
  {
    var colon := Find(text, ':');
    if colon == NPOS {
      x, y := text + [NUL], text + [NUL] + "a";
      OneNameBody(text);
    } else {
      x, y := text[..colon], text[colon + 1..];
      TwoNamesBody(x, y);
      assert text == Body(x, y);
    }
  }

  lemma {:induction false} LessLonger(s: string, t: string)
    requires t != ""
    ensures Less(s, s + t)
  {
    if s == "" {
      assert s + t == t;
    } else {
      assert (s + t)[1..] == s[1..] + t;
      LessLonger(s[1..], t);
    }
  }

  const ASKER: string := "zed"

  /** Texts that cut the key of `ASKER`: two names, one name twice, and one name alone. */
  function CutText(names: string): string {
    names + [NUL]
  }

  lemma CutTextIs(names: string)
    requires NUL !in names && ' ' !in names && names != "" && names[0] == 'a'
    ensures CutInside(ASKER, CutText(names)) && CStr(CutText(names)) == names
    ensures Tight(CutText(names)) && CutText(names) != "" && ' ' !in CutText(names)
  {
    CStrOfConcat(names, [NUL]);
    assert CStr([NUL]) == "";
    assert CutText(names)[0] == 'a';
  }

  lemma AskerIs()
    ensures Account(ASKER) && CStr(ASKER) == ASKER
  {
    UsernameChars(ASKER, NUL);
  }

  // ----- print_chat_message -----

  /** `message.room.rfind("dm:", 0) == 0`. */
  predicate StartsDm(room: string) {
    "dm:" <= room
  }

  /** The two names in a key, and whom the local user talks to. */
  function KeyNames(room: string): (string, string)
    requires StartsDm(room)
  {
    var split := FindFrom(room, ':', 3);
    if split == NPOS then (room[3..], "") else (room[3..split], room[split + 1..])
  }

  function OtherParticipant(room: string, me: string): string
    requires StartsDm(room)
  {
    var (a, b) := KeyNames(room);
    if a == me then b else a
  }

  lemma KeyNamesOfBody(a: string, b: string)
    requires ':' !in a
    ensures KeyNames("dm:" + Body(a, b)) == (a, b)
  {
    var room := "dm:" + Body(a, b);
    var i := 3 + |a|;
    assert room[i] == ':';
    assert room[3..i] == a;
    assert room[i + 1..] == b;
    assert room[3..][i - 3] == ':';
    assert forall j | 3 <= j < i :: room[j] == a[j - 3];
  }

  /** The client recovers the participants of a direct message, and shows each of them the other. */
  lemma ClientReadsKey(a: string, b: string)
    requires ValidUsername(a) && ValidUsername(b)
    ensures StartsDm(DmKey(a, b))
    ensures KeyNames(DmKey(a, b)) == (a, b) || KeyNames(DmKey(a, b)) == (b, a)
    ensures OtherParticipant(DmKey(a, b), a) == b && OtherParticipant(DmKey(a, b), b) == a
  {
    UsernameChars(a, ':');
    UsernameChars(b, ':');
    KeyNamesOfBody(a, b);
    KeyNamesOfBody(b, a);
  }

  /** What the client takes for a direct message is never a chat room. */
  lemma RoomNotTakenForKey(room: string)
    requires ChatRoom(room)
    ensures !StartsDm(room)
  {
    assert "dm:"[2] == ':';
  }
}
