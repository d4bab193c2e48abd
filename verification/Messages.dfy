/** The messages of protocol.hpp: typed frames, and the binary records they carry.  The methods
    are `append_*`, `take_*`, `encode_*` and `decode_*` as they run; the codecs say what they
    mean, and `Codec` gives those their laws. */
module Messages {
  import opened Bytes
  import opened Seqs
  import opened Codec

  datatype ChatMessage = ChatMessage(room: string, username: string, content: string, timestamp: Int64)

  datatype DirectMessage = DirectMessage(from: string, to: string, content: string, timestamp: Int64)

  // ----- Typed frames -----

  datatype MsgType =
    | Login | Register | AuthOk | AuthFail | System | Chat | ChatMsg | Join | History | Quit
    | HistoryReq | RoomsReq | Joined | Direct | DirectMsg | UsersReq | UsersList
    | Other(code: nat)  // an enum class holds any byte

  datatype Msg = Msg(kind: MsgType, payload: string)

  datatype Option<+T> = None | Some(value: T)

  function Code(kind: MsgType): nat {
    match kind
    case Login => 0x01 case Register => 0x02 case AuthOk => 0x03 case AuthFail => 0x04
    case System => 0x05 case Chat => 0x06 case ChatMsg => 0x07 case Join => 0x08
    case History => 0x09 case Quit => 0x0A case HistoryReq => 0x0B case RoomsReq => 0x0C
    case Joined => 0x0D case Direct => 0x0E case DirectMsg => 0x0F case UsersReq => 0x10
    case UsersList => 0x11 case Other(code) => code
  }

  function KindOf(code: nat): MsgType {
    match code
    case 0x01 => Login case 0x02 => Register case 0x03 => AuthOk case 0x04 => AuthFail
    case 0x05 => System case 0x06 => Chat case 0x07 => ChatMsg case 0x08 => Join
    case 0x09 => History case 0x0A => Quit case 0x0B => HistoryReq case 0x0C => RoomsReq
    case 0x0D => Joined case 0x0E => Direct case 0x0F => DirectMsg case 0x10 => UsersReq
    case 0x11 => UsersList case other => Other(other)
  }

  /** A byte that is the code of its kind. */
  predicate Proper(kind: MsgType) {
    Code(kind) < 256 && KindOf(Code(kind)) == kind
  }

  function EncodeMessage(m: Msg): string {
    [(Code(m.kind) % 256) as char] + m.payload
  }

  function DecodeMessage(frame: string): Option<Msg> {
    if frame == "" then None else Some(Msg(KindOf(Octet(frame[0])), frame[1..]))
  }

  /** Typed frames carry type and payload without loss, and only the empty frame is malformed. */
  lemma MessageRoundTrip(m: Msg, frame: string)
    ensures Proper(m.kind) ==> DecodeMessage(EncodeMessage(m)) == Some(m)
    ensures DecodeMessage(frame).None? <==> frame == ""
    ensures IsBytes(frame) && frame != "" ==>
              Proper(DecodeMessage(frame).value.kind) && EncodeMessage(DecodeMessage(frame).value) == frame
  {
  }

  // ----- Records -----

  /** What both record types hold: two names, a timestamp, a text. */
  datatype Fields = Fields(first: string, second: string, stamp: Int64, text: string) {
    function Nested(): ((string, string), (Int64, string)) {
      ((first, second), (stamp, text))
    }

    function Chat(): ChatMessage {
      ChatMessage(first, second, text, stamp)
    }

    function Direct(): DirectMessage {
      DirectMessage(first, second, text, stamp)
    }

    predicate Fit() {
      |first| < 0x1_0000 && |second| < 0x1_0000 && |text| < 0x1_0000_0000
    }
  }

  function ChatFields(m: ChatMessage): Fields {
    Fields(m.room, m.username, m.timestamp, m.content)
  }

  function DirectFields(m: DirectMessage): Fields {
    Fields(m.from, m.to, m.timestamp, m.content)
  }

  /** `[u16][text][u16][text][i64][u32][text]`, the layout of both record types. */
  function WriteRecord(f: Fields): string {
    (WriteText(2, f.first) + WriteText(2, f.second)) + (BigEndian(8, ToUnsigned(f.stamp)) + WriteText(4, f.text))
  }

  function ReadRecord(s: string): Parsed<Fields> {
    var first := ReadText(2, s);
    if first.Malformed? then Malformed else
    var second := ReadText(2, first.rest);
    if second.Malformed? then Malformed else
    var stamp := ReadStamp(second.rest);
    if stamp.Malformed? then Malformed else
    var text := ReadText(4, stamp.rest);
    if text.Malformed? then Malformed else
    Parsed(Fields(first.value, second.value, stamp.value, text.value), text.rest)
  }

  function ReadChat(s: string): Parsed<ChatMessage> {
    var r := ReadRecord(s);
    if r.Malformed? then Malformed else Parsed(r.value.Chat(), r.rest)
  }

  function ReadDirect(s: string): Parsed<DirectMessage> {
    var r := ReadRecord(s);
    if r.Malformed? then Malformed else Parsed(r.value.Direct(), r.rest)
  }

  function RecordCodec(): Codec<Fields> {
    Codec((f: Fields) => WriteRecord(f), s => ReadRecord(s), (f: Fields) => f.Fit())
  }

  function ChatCodec(): Codec<ChatMessage> {
    Codec((m: ChatMessage) => WriteRecord(ChatFields(m)), s => ReadChat(s), (m: ChatMessage) => ChatFields(m).Fit())
  }

  function DirectCodec(): Codec<DirectMessage> {
    Codec((m: DirectMessage) => WriteRecord(DirectFields(m)), s => ReadDirect(s), (m: DirectMessage) => DirectFields(m).Fit())
  }

  function HistoryCodec(): Codec<seq<ChatMessage>> {
    List(ChatCodec())
  }

  function UsersCodec(): Codec<seq<string>> {
    List(Sized(2))
  }

  lemma RecordLawful()
    ensures Lawful(RecordCodec())
  {
    var names, body := Pair(Sized(2), Sized(2)), Pair(Stamp(), Sized(4));
    SizedLawful(2);
    SizedLawful(4);
    StampLawful();
    PairLawful(Sized(2), Sized(2));
    PairLawful(Stamp(), Sized(4));
    PairLawful(names, body);
    var to := (p: ((string, string), (Int64, string))) => Fields(p.0.0, p.0.1, p.1.0, p.1.1);
    var from := (f: Fields) => f.Nested();
    forall s ensures RecordCodec().read(s) == Retyped(Pair(names, body).read(s), to) {
      RecordReads(s);
    }
    forall f ensures RecordCodec().fits(f) == Pair(names, body).fits(from(f)) {
      Widths();
    }
    RenamedLawful(Pair(names, body), RecordCodec(), to, from);
  }

  lemma RecordReads(s: string)
    ensures var r := Pair(Pair(Sized(2), Sized(2)), Pair(Stamp(), Sized(4))).read(s);
            ReadRecord(s) == if r.Malformed? then Malformed
                             else Parsed(Fields(r.value.0.0, r.value.0.1, r.value.1.0, r.value.1.1), r.rest)
  {
    var names, body := Pair(Sized(2), Sized(2)), Pair(Stamp(), Sized(4));
    var n := names.read(s);
    assert n == ReadPair(Sized(2).read, Sized(2).read, s);
    if n.Parsed? {
      assert body.read(n.rest) == ReadPair(Stamp().read, Sized(4).read, n.rest);
    }
  }

  lemma ChatLawful()
    ensures Lawful(ChatCodec())
  {
    RecordLawful();
    RenamedLawful(RecordCodec(), ChatCodec(), (f: Fields) => f.Chat(), m => ChatFields(m));
  }

  lemma HistoryLawful()
    ensures Lawful(HistoryCodec())
  {
    ChatLawful();
    ListLawful(ChatCodec());
  }

  lemma DirectLawful()
    ensures Lawful(DirectCodec())
  {
    RecordLawful();
    RenamedLawful(RecordCodec(), DirectCodec(), (f: Fields) => f.Direct(), m => DirectFields(m));
  }

  lemma UsersLawful()
    ensures Lawful(UsersCodec())
  {
    SizedLawful(2);
    ListLawful(Sized(2));
  }

  /** Chat, direct, history and user-list records round-trip with anything behind them, are
      canonical, and cannot be read from a truncation. */
  lemma RecordsLawful()
    ensures Lawful(ChatCodec()) && Lawful(DirectCodec()) && Lawful(HistoryCodec()) && Lawful(UsersCodec())
  {
    ChatLawful();
    HistoryLawful();
    DirectLawful();
    UsersLawful();
  }

  /** A history comes back from its encoding, whatever is behind it, exactly when there are fewer
      than 2^16 messages whose names are shorter than 2^16 and whose texts are shorter than 2^32. */
  lemma HistoryComesBackIff(ms: seq<ChatMessage>, tail: string)
    ensures HistoryCodec().read(HistoryCodec().write(ms) + tail) == Parsed(ms, tail) <==>
            |ms| < 0x1_0000 && forall i | 0 <= i < |ms| :: ChatFields(ms[i]).Fit()
  {
    RecordsLawful();
    ComesBackIff(HistoryCodec(), ms, tail);
    Widths();
  }

  /** The same for single records, over all timestamps. */
  lemma RecordComesBackIff(m: ChatMessage, d: DirectMessage, tail: string)
    ensures ChatCodec().read(ChatCodec().write(m) + tail) == Parsed(m, tail) <==> ChatFields(m).Fit()
    ensures DirectCodec().read(DirectCodec().write(d) + tail) == Parsed(d, tail) <==> DirectFields(d).Fit()
  {
    RecordsLawful();
    ComesBackIff(ChatCodec(), m, tail);
    ComesBackIff(DirectCodec(), d, tail);
  }

  /** The same for user lists. */
  lemma UsersComeBackIff(names: seq<string>, tail: string)
    ensures UsersCodec().read(UsersCodec().write(names) + tail) == Parsed(names, tail) <==>
            |names| < 0x1_0000 && forall i | 0 <= i < |names| :: |names[i]| < 0x1_0000
  {
    RecordsLawful();
    ComesBackIff(UsersCodec(), names, tail);
    Widths();
  }

  /** Truncated records are rejected, and accepted bytes are the encoding of what was decoded. */
  lemma HistoryIsExact(ms: seq<ChatMessage>, k: nat, bytes: string)
    requires HistoryCodec().fits(ms)
    ensures k < |HistoryCodec().write(ms)| ==> HistoryCodec().read(HistoryCodec().write(ms)[..k]).Malformed?
    ensures IsBytes(bytes) && HistoryCodec().read(bytes).Parsed? ==>
              bytes == HistoryCodec().write(HistoryCodec().read(bytes).value) + HistoryCodec().read(bytes).rest
  {
    RecordsLawful();
    if k < |HistoryCodec().write(ms)| {
      TruncationRejected(HistoryCodec(), ms, k);
    }
    assert HistoryCodec().CanonicalOn(bytes);
  }

  // ----- Which bytes hold what -----

  /** A number in two's complement. */
  ghost predicate HoldsStamp(s: string, x: Int64) {
    |s| == 8 && Value(s) == if x < 0 then 0x1_0000_0000_0000_0000 + x else x
  }

  /** Two texts with their lengths in two bytes each, a timestamp, and a text with its length in four. */
  ghost predicate LaidOut(s: string, first: string, second: string, stamp: Int64, text: string) {
    var a := 2 + |first|;
    var b := a + 2 + |second|;
    && |s| == b + 12 + |text|
    && Value(s[..2]) == |first| && s[2..a] == first
    && Value(s[a..a + 2]) == |second| && s[a + 2..b] == second
    && HoldsStamp(s[b..b + 8], stamp)
    && Value(s[b + 8..b + 12]) == |text| && s[b + 12..] == text
  }

  lemma SixParts(a: string, first: string, b: string, second: string, c: string, d: string, text: string, s: string)
    requires s == ((a + first) + (b + second)) + (c + (d + text))
    requires |a| == 2 && |b| == 2 && |c| == 8 && |d| == 4
    ensures var m := 2 + |first|;
            var n := m + 2 + |second|;
            && |s| == n + 12 + |text| && s[..2] == a && s[2..m] == first && s[m..m + 2] == b && s[m + 2..n] == second
            && s[n..n + 8] == c && s[n + 8..n + 12] == d && s[n + 12..] == text
  {
    var names, body := (a + first) + (b + second), c + (d + text);
    assert s[..|names|] == names && s[|names|..] == body;
    assert names[..2 + |first|] == a + first && names[2 + |first|..] == b + second;
    assert body[8..] == d + text;
  }

  lemma ValuesLaidOut(s: string, a: string, first: string, b: string, second: string, c: string, stamp: Int64, d: string, text: string)
    requires s == ((a + first) + (b + second)) + (c + (d + text))
    requires |a| == 2 && |b| == 2 && |d| == 4 && HoldsStamp(c, stamp)
    requires Value(a) == |first| && Value(b) == |second| && Value(d) == |text|
    ensures LaidOut(s, first, second, stamp, text)
  {
    SixParts(a, first, b, second, c, d, text, s);
  }

  lemma RecordLayout(f: Fields)
    requires f.Fit()
    ensures LaidOut(WriteRecord(f), f.first, f.second, f.stamp, f.text)
  {
    var a, b, c, d := BigEndian(2, |f.first|), BigEndian(2, |f.second|), BigEndian(8, ToUnsigned(f.stamp)), BigEndian(4, |f.text|);
    PrefixValues(f);
    StampIsTwosComplement(f.stamp);
    ValuesLaidOut(WriteRecord(f), a, f.first, b, f.second, c, f.stamp, d, f.text);
  }

  lemma PrefixValues(f: Fields)
    requires f.Fit()
    ensures Value(BigEndian(2, |f.first|)) == |f.first| && Value(BigEndian(2, |f.second|)) == |f.second|
    ensures Value(BigEndian(4, |f.text|)) == |f.text|
  {
    Widths();
    ValueOfFitting(2, |f.first|);
    ValueOfFitting(2, |f.second|);
    ValueOfFitting(4, |f.text|);
  }

  /** Where a chat and a direct message have their fields. */
  lemma RecordsLaidOut(m: ChatMessage, d: DirectMessage)
    ensures ChatFields(m).Fit() ==> LaidOut(ChatCodec().write(m), m.room, m.username, m.timestamp, m.content)
    ensures DirectFields(d).Fit() ==> LaidOut(DirectCodec().write(d), d.from, d.to, d.timestamp, d.content)
  {
    if ChatFields(m).Fit() {
      RecordLayout(ChatFields(m));
    }
    if DirectFields(d).Fit() {
      RecordLayout(DirectFields(d));
    }
  }

  /** Where the records of a list begin: behind the count, each behind the ones before it. */
  lemma {:induction false} ListLaidOut<T>(write: T -> string, xs: seq<T>, i: nat)
    requires i < |xs|
    ensures WriteAll(write, xs) == WriteAll(write, xs[..i]) + write(xs[i]) + WriteAll(write, xs[i + 1..])
  {
    if i > 0 {
      ListLaidOut(write, xs[1..], i - 1);
      assert xs[1..][..i - 1] == xs[..i][1..] && xs[1..][i - 1 + 1..] == xs[i + 1..];
      var a, b, c := WriteAll(write, xs[..i][1..]), write(xs[i]), WriteAll(write, xs[i + 1..]);
      Associative(write(xs[0]), a + b, c);
      Associative(write(xs[0]), a, b);
    } else {
      assert xs[..0] == [];
    }
  }

  /** The message types in the order of their numbers. */
  const KINDS := [Login, Register, AuthOk, AuthFail, System, Chat, ChatMsg, Join] +
                 [History, Quit, HistoryReq, RoomsReq, Joined, Direct, DirectMsg, UsersReq, UsersList]

  /** The types are numbered from one; a typed frame is that byte, and the payload. */
  lemma TypeByte(i: nat, payload: string)
    requires i < |KINDS|
    ensures |KINDS| == 17
    ensures var frame := EncodeMessage(Msg(KINDS[i], payload));
            frame != "" && frame[0] as int == i + 1 && frame[1..] == payload
  {
  }

  // ----- append_* -----

  method AppendU16(out: string, value: nat) returns (out': string)
    requires value < 0x1_0000
    ensures out' == out + BigEndian(2, value)
  {
    assert BigEndian(1, value / 256) == BigEndian(0, value / 256 / 256) + [(value / 256 % 256) as char];
    assert BigEndian(2, value) == [(value / 256 % 256) as char, (value % 256) as char];
    out' := out + [(value / 0x100 % 0x100) as char];
    out' := out' + [(value % 0x100) as char];
  }

  /** `append_u32` and `append_u64`: the bytes of `value` from the highest of `width` down. */
  method AppendWide(out: string, width: nat, value: nat) returns (out': string)
    requires value < Pow256(width)
    ensures out' == out + BigEndian(width, value)
  {
    out' := out;
    assert out == out + BigEndian(0, Shift(value, width));
    var k := width;  // the shift, in bytes
    while k > 0
      invariant 0 <= k <= width
      invariant out' == out + BigEndian(width - k, Shift(value, k))
    {
      k := k - 1;
      var high := Shift(value, k);
      Associative(out, BigEndian(width - k - 1, high / 256), [(high % 0x100) as char]);
      out' := out' + [(high % 0x100) as char];
    }
  }

  // ----- take_* -----

  method TakeBytes(data: string, offset: nat, length: nat) returns (ok: bool, offset': nat, out: string)
    ensures ok <==> offset + length <= |data|
    ensures ok ==> offset' == offset + length && out == data[offset..offset']
    ensures !ok ==> offset' == offset
  {
    if offset > |data| || |data| - offset < length {
      return false, offset, "";
    }
    return true, offset + length, data[offset..offset + length];
  }

  /** `take_u16`, `take_u32` and `take_u64`: `width` bytes, shifted in one after the other. */
  method TakeUint(data: string, offset: nat, width: nat) returns (ok: bool, offset': nat, out: nat)
    ensures ok <==> offset + width <= |data|
    ensures ok ==> offset' == offset + width && out == Value(data[offset..offset'])
    ensures !ok ==> offset' == offset
  {
    if offset > |data| || |data| - offset < width {
      return false, offset, 0;
    }
    out := 0;
    var i := 0;
    while i < width
      invariant 0 <= i <= width
      invariant out == Value(data[offset..offset + i])
    {
      ghost var longer := data[offset..offset + i + 1];
      assert longer[..|longer| - 1] == data[offset..offset + i];
      out := out * 256 + Octet(data[offset + i]);
      i := i + 1;
    }
    return true, offset + width, out;
  }

  // ----- encode_* -----

  lemma {:induction false} BigEndianWraps(n: nat, v: nat)
    ensures BigEndian(n, v % Pow256(n)) == BigEndian(n, v)
  {
    ValueOfBigEndian(n, v);
    BigEndianOfValue(BigEndian(n, v));
  }

  /** A length prefix is the length cast to its width, then the text. */
  method AppendText(out: string, width: nat, text: string) returns (out': string)
    ensures out' == out + WriteText(width, text)
  {
    BigEndianWraps(width, |text|);
    out' := AppendWide(out, width, |text| % Pow256(width));
    Associative(out, BigEndian(width, |text|), text);
    out' := out' + text;
  }

  method EncodeRecord(fields: Fields) returns (payload: string)
    ensures payload == WriteRecord(fields)
  {
    ghost var a, b, c, d := WriteText(2, fields.first), WriteText(2, fields.second),
                            BigEndian(8, ToUnsigned(fields.stamp)), WriteText(4, fields.text);
    payload := AppendText("", 2, fields.first);
    assert payload == a;
    payload := AppendText(payload, 2, fields.second);
    Widths();
    payload := AppendWide(payload, 8, ToUnsigned(fields.stamp));
    payload := AppendText(payload, 4, fields.text);
    Associative(a + b, c, d);
  }

  method EncodeChatMessage(message: ChatMessage) returns (payload: string)
    ensures payload == ChatCodec().write(message)
  {
    payload := EncodeRecord(ChatFields(message));
  }

  method EncodeDirectMessage(message: DirectMessage) returns (payload: string)
    ensures payload == DirectCodec().write(message)
  {
    payload := EncodeRecord(DirectFields(message));
  }

  lemma {:induction false} WriteAllAppend<T>(write: T -> string, xs: seq<T>, x: T)
    ensures WriteAll(write, xs + [x]) == WriteAll(write, xs) + write(x)
  {
    if xs == [] {
      assert xs + [x] == [x];
      assert WriteAll(write, [x]) == write(x) + "";
    } else {
      WriteAllAppend(write, xs[1..], x);
      assert (xs + [x])[1..] == xs[1..] + [x];
      Associative(write(xs[0]), WriteAll(write, xs[1..]), write(x));
    }
  }

  lemma WriteAllStep<T>(write: T -> string, xs: seq<T>, i: nat, header: string)
    requires i < |xs|
    ensures header + WriteAll(write, xs[..i + 1]) == (header + WriteAll(write, xs[..i])) + write(xs[i])
  {
    assert xs[..i + 1] == xs[..i] + [xs[i]];
    WriteAllAppend(write, xs[..i], xs[i]);
    Associative(header, WriteAll(write, xs[..i]), write(xs[i]));
  }

  lemma WriteAllEnds<T>(write: T -> string, xs: seq<T>, header: string)
    ensures header + WriteAll(write, xs[..0]) == header
    ensures xs[..|xs|] == xs
  {
  }

  /** A list starts with its size cast to sixteen bits. */
  method AppendCount(size: nat) returns (payload: string)
    ensures payload == BigEndian(2, size)
  {
    BigEndianWraps(2, size);
    Widths();
    payload := AppendU16("", size % 0x1_0000);
    assert "" + BigEndian(2, size) == BigEndian(2, size);
  }

  method EncodeHistory(messages: seq<ChatMessage>) returns (payload: string)
    ensures payload == HistoryCodec().write(messages)
  {
    payload := AppendCount(|messages|);
    ghost var header, write := payload, ChatCodec().write;
    WriteAllEnds(write, messages, header);
    var i := 0;
    while i < |messages|
      invariant 0 <= i <= |messages|
      invariant payload == header + WriteAll(write, messages[..i])
    {
      WriteAllStep(write, messages, i, header);
      var next := EncodeChatMessage(messages[i]);
      payload := payload + next;
      i := i + 1;
    }
  }

  method EncodeUserList(usernames: seq<string>) returns (payload: string)
    ensures payload == UsersCodec().write(usernames)
  {
    payload := AppendCount(|usernames|);
    ghost var header, write := payload, Sized(2).write;
    WriteAllEnds(write, usernames, header);
    var i := 0;
    while i < |usernames|
      invariant 0 <= i <= |usernames|
      invariant payload == header + WriteAll(write, usernames[..i])
    {
      WriteAllStep(write, usernames, i, header);
      payload := AppendText(payload, 2, usernames[i]);
      i := i + 1;
    }
  }

  // ----- decode_* -----

  method TakeText(data: string, offset: nat, width: nat) returns (ok: bool, offset': nat, out: string)
    requires offset <= |data|
    ensures ok == ReadText(width, data[offset..]).Parsed?
    ensures ok ==> offset' <= |data| && ReadText(width, data[offset..]) == Parsed(out, data[offset'..])
  {
    ghost var here := data[offset..];
    var length;
    ok, offset', length := TakeUint(data, offset, width);
    if !ok {
      return false, offset, "";
    }
    assert data[offset..offset'] == here[..width] && data[offset'..] == here[width..];
    ghost var body := data[offset'..];
    ghost var start := offset';
    ok, offset', out := TakeBytes(data, offset', length);
    if ok {
      assert out == body[..length] && data[offset'..] == body[length..];
    }
  }

  method TakeStamp(data: string, offset: nat) returns (ok: bool, offset': nat, stamp: Int64)
    requires offset <= |data|
    ensures ok == ReadStamp(data[offset..]).Parsed?
    ensures ok ==> offset' <= |data| && ReadStamp(data[offset..]) == Parsed(stamp, data[offset'..])
  {
    var bits;
    ok, offset', bits := TakeUint(data, offset, 8);
    stamp := 0;
    if ok {
      ghost var here := data[offset..];
      assert data[offset..offset'] == here[..8] && data[offset'..] == here[8..];
      StampRange(here);
      stamp := ToSigned(bits);
    }
  }

  /** The chain of `take_*` calls shared by every record decoder. */
  method TakeRecord(data: string, offset: nat) returns (ok: bool, offset': nat, fields: Fields)
    requires offset <= |data|
    ensures ok == ReadRecord(data[offset..]).Parsed?
    ensures ok ==> offset' <= |data| && ReadRecord(data[offset..]) == Parsed(fields, data[offset'..])
  {
    fields := Fields("", "", 0, "");
    var first, second, stamp, content;
    ok, offset', first := TakeText(data, offset, 2);
    if !ok {
      return;
    }
    ok, offset', second := TakeText(data, offset', 2);
    if !ok {
      return;
    }
    ok, offset', stamp := TakeStamp(data, offset');
    if !ok {
      return;
    }
    ok, offset', content := TakeText(data, offset', 4);
    fields := Fields(first, second, stamp, content);
  }

  method DecodeChatMessage(payload: string) returns (ok: bool, message: ChatMessage)
    ensures ok == ChatCodec().read(payload).Parsed?
    ensures ok ==> message == ChatCodec().read(payload).value
  {
    var offset, fields;
    assert payload[0..] == payload;
    ok, offset, fields := TakeRecord(payload, 0);
    message := fields.Chat();
  }

  method DecodeDirectMessage(payload: string) returns (ok: bool, message: DirectMessage)
    ensures ok == DirectCodec().read(payload).Parsed?
    ensures ok ==> message == DirectCodec().read(payload).value
  {
    var offset, fields;
    assert payload[0..] == payload;
    ok, offset, fields := TakeRecord(payload, 0);
    message := fields.Direct();
  }

  /** What is still to be read, and how it extends what has been read. */
  function Onto<T>(done: seq<T>, r: Parsed<seq<T>>): Parsed<seq<T>> {
    if r.Malformed? then Malformed else Parsed(done + r.value, r.rest)
  }

  lemma OntoNothing<T>(r: Parsed<seq<T>>)
    ensures Onto([], r) == r
  {
    if r.Parsed? {
      assert [] + r.value == r.value;
    }
  }

  lemma OneMore<T>(read: string -> Parsed<T>, n: nat, s: string, done: seq<T>, x: T, rest: string)
    requires n > 0 && read(s) == Parsed(x, rest)
    ensures Onto(done, ReadAll(read, n, s)) == Onto(done + [x], ReadAll(read, n - 1, rest))
  {
    if ReadAll(read, n - 1, rest).Parsed? {
      Associative(done, [x], ReadAll(read, n - 1, rest).value);
    }
  }

  lemma NoMore<T>(read: string -> Parsed<T>, n: nat, s: string, done: seq<T>)
    requires n > 0 ==> read(s).Malformed?
    ensures Onto(done, ReadAll(read, n, s)) == if n > 0 then Malformed else Parsed(done, s)
  {
    assert done + [] == done;
  }

  /** `read` is the parser named on the right, seen only where that name is written. */
  ghost predicate ReadsChats(read: string -> Parsed<ChatMessage>) {
    forall s {:trigger ReadChat(s)} :: read(s) == ReadChat(s)
  }

  ghost predicate ReadsNames(read: string -> Parsed<string>) {
    forall s {:trigger ReadText(2, s)} :: read(s) == ReadText(2, s)
  }

  method TakeChat(data: string, offset: nat, ghost read: string -> Parsed<ChatMessage>)
    returns (ok: bool, offset': nat, message: ChatMessage)
    requires offset <= |data| && ReadsChats(read)
    ensures ok == read(data[offset..]).Parsed?
    ensures ok ==> offset' <= |data| && read(data[offset..]) == Parsed(message, data[offset'..])
  {
    var fields;
    ok, offset', fields := TakeRecord(data, offset);
    assert read(data[offset..]) == ReadChat(data[offset..]);
    message := fields.Chat();
  }

  method TakeName(data: string, offset: nat, ghost read: string -> Parsed<string>)
    returns (ok: bool, offset': nat, name: string)
    requires offset <= |data| && ReadsNames(read)
    ensures ok == read(data[offset..]).Parsed?
    ensures ok ==> offset' <= |data| && read(data[offset..]) == Parsed(name, data[offset'..])
  {
    ok, offset', name := TakeText(data, offset, 2);
    assert read(data[offset..]) == ReadText(2, data[offset..]);
  }

  /** The loop of `decode_history`. */
  method TakeChats(data: string, start: nat, count: nat, ghost read: string -> Parsed<ChatMessage>)
    returns (ok: bool, messages: seq<ChatMessage>)
    requires start <= |data| && ReadsChats(read)
    ensures ok == ReadAll(read, count, data[start..]).Parsed?
    ensures ok ==> messages == ReadAll(read, count, data[start..]).value
  {
    messages := [];
    ghost var whole := ReadAll(read, count, data[start..]);
    OntoNothing(whole);
    var i, offset: nat := 0, start;
    while i < count
      invariant 0 <= i <= count && offset <= |data|
      invariant whole == Onto(messages, ReadAll(read, count - i, data[offset..]))
    {
      ghost var here := data[offset..];
      var message;
      ok, offset, message := TakeChat(data, offset, read);
      if !ok {
        NoMore(read, count - i, here, messages);
        return;
      }
      OneMore(read, count - i, here, messages, message, data[offset..]);
      messages := messages + [message];
      i := i + 1;
    }
    NoMore(read, 0, data[offset..], messages);
    ok := true;
  }

  /** The loop of `decode_user_list`. */
  method TakeNames(data: string, start: nat, count: nat, ghost read: string -> Parsed<string>)
    returns (ok: bool, names: seq<string>)
    requires start <= |data| && ReadsNames(read)
    ensures ok == ReadAll(read, count, data[start..]).Parsed?
    ensures ok ==> names == ReadAll(read, count, data[start..]).value
  {
    names := [];
    ghost var whole := ReadAll(read, count, data[start..]);
    OntoNothing(whole);
    var i, offset: nat := 0, start;
    while i < count
      invariant 0 <= i <= count && offset <= |data|
      invariant whole == Onto(names, ReadAll(read, count - i, data[offset..]))
    {
      ghost var here := data[offset..];
      var name;
      ok, offset, name := TakeName(data, offset, read);
      if !ok {
        NoMore(read, count - i, here, names);
        return;
      }
      OneMore(read, count - i, here, names, name, data[offset..]);
      names := names + [name];
      i := i + 1;
    }
    NoMore(read, 0, data[offset..], names);
    ok := true;
  }

  method DecodeHistory(payload: string) returns (ok: bool, messages: seq<ChatMessage>)
    ensures ok == HistoryCodec().read(payload).Parsed?
    ensures ok ==> messages == HistoryCodec().read(payload).value
  {
    var offset, count;
    ok, offset, count := TakeUint(payload, 0, 2);
    messages := [];
    if ok {
      assert payload[0..2] == payload[..2];
      ok, messages := TakeChats(payload, offset, count, ChatCodec().read);
    }
  }

  method DecodeUserList(payload: string) returns (ok: bool, usernames: seq<string>)
    ensures ok == UsersCodec().read(payload).Parsed?
    ensures ok ==> usernames == UsersCodec().read(payload).value
  {
    var offset, count;
    ok, offset, count := TakeUint(payload, 0, 2);
    usernames := [];
    if ok {
      assert payload[0..2] == payload[..2];
      ok, usernames := TakeNames(payload, offset, count, Sized(2).read);
    }
  }
}
