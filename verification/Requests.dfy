/** The text of requests: what the client types into a payload (chat_client.cpp) and what the
    server reads out of it (chat_server.cpp). */
module Requests {
  import opened Seqs
  import opened Text
  import opened Messages

  const DEFAULT_LIMIT := 50
  const MAX_LIMIT := 200

  // ----- std::stoi -----

  predicate IsSpace(c: char) {
    c == ' ' || c == '\t' || c == '\n' || c == '\U{000B}' || c == '\U{000C}' || c == '\r'
  }

  function SkipSpace(s: string): string {
    if s != "" && IsSpace(s[0]) then SkipSpace(s[1..]) else s
  }

  /** The number written by the digits `s` starts with, behind `acc`. */
  function Digits(s: string, acc: nat): nat {
    if s != "" && Digit(s[0]) then Digits(s[1..], 10 * acc + (s[0] as int - '0' as int)) else acc
  }

  /** Throws without a digit, and when the value is no 32-bit int. */
  function Stoi(s: string): Option<int> {
    var t := SkipSpace(s);
    var negative := t != "" && t[0] == '-';
    var digits := if t != "" && (t[0] == '-' || t[0] == '+') then t[1..] else t;
    if digits == "" || !Digit(digits[0]) then None
    else
      var magnitude: int := Digits(digits, 0);
      var value := if negative then -magnitude else magnitude;
      if -0x8000_0000 <= value < 0x8000_0000 then Some(value) else None
  }

  lemma {:induction false} DigitsAppend(s: string, t: string, acc: nat)
    requires forall i | 0 <= i < |s| :: Digit(s[i])
    ensures Digits(s + t, acc) == Digits(t, Digits(s, acc))
  {
    if s == "" {
      assert s + t == t;
    } else {
      assert (s + t)[1..] == s[1..] + t;
      DigitsAppend(s[1..], t, 10 * acc + (s[0] as int - '0' as int));
    }
  }

  lemma {:induction false} DigitsOfDecimal(n: nat)
    ensures Digits(Decimal(n), 0) == n
  {
    var last := [('0' as int + n % 10) as char];
    var front := if n < 10 then "" else Decimal(n / 10);
    if n >= 10 {
      DigitsOfDecimal(n / 10);
    }
    DigitsAppend(front, last, 0);
    assert last[1..] == "";
  }

  /** A printed number is read back, unless it is too large for an int. */
  lemma StoiOfDecimal(n: nat)
    ensures Stoi(Decimal(n)) == if n < 0x8000_0000 then Some(n) else None
  {
    var s := Decimal(n);
    DigitsOfDecimal(n);
    assert Digit(s[0]);
    assert SkipSpace(s) == s;
  }

  predicate StartsNumber(c: char) {
    c == '+' || c == '-' || '0' <= c <= '9'
  }

  lemma {:induction false} SkipDrops(spaces: string, s: string)
    requires forall i | 0 <= i < |spaces| :: spaces[i] in [' ', '\t', '\n', '\U{000B}', '\U{000C}', '\r']
    requires s != "" && StartsNumber(s[0])
    ensures SkipSpace(spaces + s) == s
  {
    if spaces == "" {
      assert spaces + s == s;
    } else {
      assert (spaces + s)[1..] == spaces[1..] + s;
      SkipDrops(spaces[1..], s);
    }
  }

  lemma DigitsStop(n: nat, rest: string)
    requires rest == "" || !('0' <= rest[0] <= '9')
    ensures Digits(Decimal(n) + rest, 0) == n
  {
    DigitsAppend(Decimal(n), rest, 0);
    DigitsOfDecimal(n);
  }

  lemma StoiSkips(spaces: string, t: string)
    requires forall i | 0 <= i < |spaces| :: spaces[i] in [' ', '\t', '\n', '\U{000B}', '\U{000C}', '\r']
    requires t != "" && StartsNumber(t[0])
    ensures Stoi(spaces + t) == Stoi(t)
  {
    SkipDrops(spaces, t);
    SkipDrops("", t);
    assert "" + t == t;
  }

  lemma StoiSigned(sign: string, digits: string, n: nat)
    requires sign in ["", "+", "-"] && digits != "" && Digit(digits[0]) && Digits(digits, 0) == n
    ensures var v: int := if sign == "-" then 0 - n else n;
            Stoi(sign + digits) == if -0x8000_0000 <= v < 0x8000_0000 then Some(v) else None
  {
    var t := sign + digits;
    SkipDrops("", t);
    assert "" + t == t;
    if sign == "" {
      assert t == digits;
    } else {
      assert t[0] == sign[0] && t[1..] == digits;
    }
  }

  /** White space, a sign, and digits up to the first character that is none: the number they write, if
      it is an int. */
  lemma StoiReads(spaces: string, sign: string, n: nat, rest: string)
    requires forall i | 0 <= i < |spaces| :: spaces[i] in [' ', '\t', '\n', '\U{000B}', '\U{000C}', '\r']
    requires sign in ["", "+", "-"] && (rest == "" || !('0' <= rest[0] <= '9'))
    ensures var v: int := if sign == "-" then 0 - n else n;
            Stoi(spaces + (sign + (Decimal(n) + rest))) == if -0x8000_0000 <= v < 0x8000_0000 then Some(v) else None
  {
    var digits := Decimal(n) + rest;
    var t := sign + digits;
    assert digits[0] == Decimal(n)[0];
    DigitsStop(n, rest);
    StoiSigned(sign, digits, n);
    assert t[0] == if sign == "" then digits[0] else sign[0];
    StoiSkips(spaces, t);
  }

  /** Without a digit, behind a sign or not, there is no number. */
  lemma StoiRefuses(sign: string, rest: string)
    requires sign in ["", "+", "-"] && (rest == "" || (!StartsNumber(rest[0]) && !IsSpace(rest[0])))
    ensures Stoi(sign + rest).None?
  {
    if sign == "" {
      assert sign + rest == rest;
    } else {
      assert (sign + rest)[1..] == rest;
    }
  }

  // ----- handle_history_request -----

  /** The number of messages asked for, whatever the text says. */
  function Limit(text: string): (n: int)
    ensures 1 <= n <= MAX_LIMIT
  {
    if text == "" then DEFAULT_LIMIT
    else
      var parsed := Stoi(text);
      var limit := if parsed.Some? then parsed.value else DEFAULT_LIMIT;
      if limit <= 0 then 1 else if limit > MAX_LIMIT then MAX_LIMIT else limit
  }

  /** `/history N` asks for N messages, but for at least 1 and at most 200; a number that is no int
      counts as the default. */
  lemma LimitOfDecimal(n: nat)
    ensures Limit(Decimal(n)) ==
            if n >= 0x8000_0000 then 50 else if n == 0 then 1 else if n > 200 then 200 else n
  {
    StoiOfDecimal(n);
  }

  datatype HistoryRequest = Usage | OfRoom(limit: int) | OfThread(user: string, limit: int)

  function ReadHistoryRequest(raw: string): HistoryRequest {
    var text := Trim(raw);
    if text != "" && text[0] == '@' then
      var space := Find(text, ' ');
      var user := if space == NPOS then text[1..] else text[1..space];
      if user == "" then Usage
      else OfThread(user, Limit(if space == NPOS then "" else Trim(text[space + 1..])))
    else OfRoom(Limit(text))
  }

  lemma TightNumber(sign: string, n: nat)
    requires sign in ["", "-"]
    ensures Trim(sign + Decimal(n)) == sign + Decimal(n) && (sign + Decimal(n))[0] != '@'
  {
    var text, last := sign + Decimal(n), Decimal(n)[|Decimal(n)| - 1];
    assert text[|text| - 1] == last && Digit(last);
    TrimOfTight(text);
  }

  /** `/history`, `/history N` and `/history -N`, in numbers. */
  lemma HistoryRequestIs(n: nat)
    ensures ReadHistoryRequest("") == OfRoom(50)
    ensures ReadHistoryRequest(Decimal(n)) ==
            OfRoom(if n >= 0x8000_0000 then 50 else if n == 0 then 1 else if n > 200 then 200 else n)
    ensures ReadHistoryRequest("-" + Decimal(n)) == OfRoom(if n > 0x8000_0000 then 50 else 1)
  {
    TrimOfTight("");
    TightNumber("", n);
    TightNumber("-", n);
    assert "" + Decimal(n) == Decimal(n);
    LimitOfDecimal(n);
    StoiReads("", "-", n, "");
    assert "" + ("-" + (Decimal(n) + "")) == "-" + Decimal(n);
  }

  // ----- MsgType::Direct -----

  function ReadDirectRequest(payload: string): Option<(string, string)> {
    var separator := Find(payload, '\n');
    if separator == NPOS then None
    else
      var target, content := Trim(payload[..separator]), Trim(payload[separator + 1..]);
      if target == "" || content == "" then None else Some((target, content))
  }

  // ----- handle_auth -----

  function ReadCredentials(payload: string): Option<(string, string)> {
    var separator := Find(payload, '\n');
    if separator == NPOS then None else Some((Trim(payload[..separator]), payload[separator + 1..]))
  }

  /** The client's login payload for a trimmed name is read back as typed, whatever the password
      contains. */
  lemma CredentialsRoundTrip(username: string, password: string)
    requires '\n' !in username
    ensures ReadCredentials(username + "\n" + password) == Some((Trim(username), password))
  {
    FindBehind(username, '\n', password);
    SlicesOfThree(username, ['\n'], password);
  }

  // ----- The chat commands of the client -----

  /** `/msg`, from the trimmed text behind the command. */
  function DirectPayload(rest: string): Option<string> {
    var space := Find(rest, ' ');
    if space == NPOS || space == 0 || Trim(rest[space + 1..]) == "" then None
    else Some(rest[..space] + "\n" + Trim(rest[space + 1..]))
  }

  /** A line the client accepts as `/msg user text` reaches the server as that user and text. */
  lemma DirectRoundTrip(rest: string)
    requires Tight(rest) && '\n' !in rest && DirectPayload(rest).Some?
    ensures var space := Find(rest, ' ');
            ReadDirectRequest(DirectPayload(rest).value) == Some((Trim(rest[..space]), Trim(rest[space + 1..])))
  {
    var space := Find(rest, ' ');
    var target, content := rest[..space], Trim(rest[space + 1..]);
    assert '\n' !in target;
    FindBehind(target, '\n', content);
    SlicesOfThree(target, ['\n'], content);
    TrimIdempotent(rest[space + 1..]);
    TrimNonEmpty(target, 0);
  }

  lemma TrimNonEmpty(s: string, i: nat)
    requires i < |s| && !Blank(s[i])
    ensures Trim(s) != ""
  {
    var l, r := TrimSplits(s);
    assert Trim(s) == "" ==> s == l + r;
  }

  /** `/dmhistory user [N]` asks for the thread with that user. */
  lemma DmHistoryRoundTrip(rest: string)
    requires Tight(rest) && rest != ""
    ensures var space := Find(rest, ' ');
            ReadHistoryRequest("@" + rest) ==
            if space == NPOS then OfThread(rest, 50)
            else OfThread(rest[..space], Limit(Trim(rest[space + 1..])))
  {
    var text, space := "@" + rest, Find(rest, ' ');
    assert text[|text| - 1] == rest[|rest| - 1];
    TrimOfTight(text);
    if space == NPOS {
      assert ' ' !in text;
      assert text[1..] == rest;
    } else {
      assert !Blank(rest[0]);
      FirstWord(rest, space);
    }
  }

  lemma FirstWord(rest: string, space: nat)
    requires space < |rest| && rest[space] == ' ' && ' ' !in rest[..space]
    ensures var text := "@" + rest;
            Find(text, ' ') == space + 1 && text[1..space + 1] == rest[..space] && text[space + 2..] == rest[space + 1..]
  {
    var word, behind := "@" + rest[..space], rest[space + 1..];
    assert "@" + rest == word + [' '] + behind;
    FindBehind(word, ' ', behind);
  }
}
