/** The string operations the server and the client share: `trim`, `std::string::find`, the
    order of `std::string`, and the C-string view that SQLite is given. */
module Text {
  import opened Seqs

  // ----- trim -----

  predicate Blank(c: char) {
    c == ' ' || c == '\t' || c == '\r' || c == '\n'
  }

  ghost predicate AllBlank(s: string) {
    forall i | 0 <= i < |s| :: Blank(s[i])
  }

  predicate Tight(s: string) {
    s == "" || (!Blank(s[0]) && !Blank(s[|s| - 1]))
  }

  function TrimLeft(s: string): string {
    if s != "" && Blank(s[0]) then TrimLeft(s[1..]) else s
  }

  function TrimRight(s: string): string {
    if s != "" && Blank(s[|s| - 1]) then TrimRight(s[..|s| - 1]) else s
  }

  function Trim(s: string): string {
    TrimRight(TrimLeft(s))
  }

  lemma {:induction false} TrimLeftDrops(l: string, s: string)
    requires AllBlank(l) && (s == "" || !Blank(s[0]))
    ensures TrimLeft(l + s) == s
  {
    if l == "" {
      assert l + s == s;
    } else {
      assert (l + s)[1..] == l[1..] + s;
      TrimLeftDrops(l[1..], s);
    }
  }

  lemma {:induction false} TrimRightDrops(s: string, r: string)
    requires AllBlank(r) && (s == "" || !Blank(s[|s| - 1]))
    ensures TrimRight(s + r) == s
  {
    if r == "" {
      assert s + r == s;
    } else {
      assert (s + r)[..|s + r| - 1] == s + r[..|r| - 1];
      TrimRightDrops(s, r[..|r| - 1]);
    }
  }

  /** `Trim(s)` is the one tight string that leaves only blanks on both sides of it. */
  lemma TrimIs(l: string, t: string, r: string)
    requires AllBlank(l) && AllBlank(r) && Tight(t)
    ensures Trim(l + t + r) == t
  {
    if t == "" {
      assert l + t + r == (l + r) + "";
      TrimLeftDrops(l + r, "");
    } else {
      Associative(l, t, r);
      TrimLeftDrops(l, t + r);
      TrimRightDrops(t, r);
    }
  }

  /** In characters: what is between two runs of spaces, tabs, returns and newlines. */
  lemma TrimReads(l: string, t: string, r: string)
    requires (forall i | 0 <= i < |l| :: l[i] in " \t\r\n") && (forall i | 0 <= i < |r| :: r[i] in " \t\r\n")
    requires t == "" || (t[0] !in " \t\r\n" && t[|t| - 1] !in " \t\r\n")
    ensures Trim(l + t + r) == t
  {
    TrimIs(l, t, r);
  }

  lemma {:induction false} TrimLeftSplits(s: string) returns (l: string)
    ensures AllBlank(l) && s == l + TrimLeft(s)
    ensures TrimLeft(s) == "" || !Blank(TrimLeft(s)[0])
  {
    l := "";
    if s != "" && Blank(s[0]) {
      var m := TrimLeftSplits(s[1..]);
      l := [s[0]] + m;
      Associative([s[0]], m, TrimLeft(s[1..]));
    }
  }

  lemma {:induction false} TrimRightSplits(s: string) returns (r: string)
    ensures AllBlank(r) && s == TrimRight(s) + r
    ensures TrimRight(s) == "" || !Blank(TrimRight(s)[|TrimRight(s)| - 1])
  {
    r := "";
    if s != "" && Blank(s[|s| - 1]) {
      var m := TrimRightSplits(s[..|s| - 1]);
      r := m + [s[|s| - 1]];
      FrontAndLast(s);
      Associative(TrimRight(s[..|s| - 1]), m, [s[|s| - 1]]);
    }
  }

  lemma TrimSplits(s: string) returns (l: string, r: string)
    ensures AllBlank(l) && AllBlank(r) && Tight(Trim(s)) && s == l + Trim(s) + r
  {
    l := TrimLeftSplits(s);
    r := TrimRightSplits(TrimLeft(s));
    Associative(l, Trim(s), r);
    if Trim(s) != "" {
      assert Trim(s)[0] == TrimLeft(s)[0];
    }
  }

  lemma TrimOfTight(s: string)
    requires Tight(s)
    ensures Trim(s) == s
  {
    TrimIs("", s, "");
    assert "" + s + "" == s;
  }

  lemma TrimIdempotent(s: string)
    ensures Tight(Trim(s)) && Trim(Trim(s)) == Trim(s) && |Trim(s)| <= |s|
  {
    var l, r := TrimSplits(s);
    TrimOfTight(Trim(s));
  }

  /** Every character of the trimmed text comes from the text. */
  lemma TrimKeeps(s: string, c: char)
    requires c in Trim(s)
    ensures c in s
  {
    var l, r := TrimSplits(s);
  }

  method TrimText(text: string) returns (t: string)
    ensures t == Trim(text)
  {
    var begin := 0;
    while begin < |text| && Blank(text[begin])
      invariant 0 <= begin <= |text|
      invariant AllBlank(text[..begin])
    {
      begin := begin + 1;
    }
    if begin == |text| {
      TrimIs(text, "", "");
      assert text + "" + "" == text && text[..begin] == text;
      return "";
    }
    var end := |text| - 1;
    while Blank(text[end])
      invariant begin <= end < |text|
      invariant AllBlank(text[end + 1..])
      decreases end
    {
      end := end - 1;
    }
    t := text[begin..end + 1];
    TrimIs(text[..begin], t, text[end + 1..]);
    assert text[..begin] + t + text[end + 1..] == text;
  }

  // ----- find -----

  const NPOS := -1

  /** The first position of `c` at or behind `from`. */
  function FindFrom(s: string, c: char, from: nat): (i: int)
    ensures i == NPOS || from <= i < |s|
    ensures i != NPOS ==> s[i] == c && c !in s[from..i]
    ensures i == NPOS && from <= |s| ==> c !in s[from..]
    decreases |s| - from
  {
    if from >= |s| then NPOS
    else if s[from] == c then from
    else FindFrom(s, c, from + 1)
  }

  function Find(s: string, c: char): (i: int)
    ensures i == NPOS || 0 <= i < |s|
    ensures i != NPOS ==> s[i] == c && c !in s[..i]
    ensures i == NPOS <==> c !in s
  {
    FindFrom(s, c, 0)
  }

  /** Text without `c`, then `c`: `find` stops at the end of the text. */
  lemma FindBehind(head: string, c: char, tail: string)
    requires c !in head
    ensures Find(head + [c] + tail, c) == |head|
  {
    var s := head + [c] + tail;
    assert s[|head|] == c;
    assert s[..|head|] == head;
  }

  /** A separator that the left parts do not contain cuts two equal texts at the same place. */
  lemma FirstCut(a: string, b: string, a': string, b': string, c: char)
    requires c !in a && c !in a' && a + [c] + b == a' + [c] + b'
    ensures a == a' && b == b'
  {
    FindBehind(a, c, b);
    FindBehind(a', c, b');
    SlicesOfThree(a, [c], b);
    SlicesOfThree(a', [c], b');
  }

  /** The same from the right. */
  lemma LastCut(a: string, b: string, a': string, b': string, c: char)
    requires c !in b && c !in b' && a + [c] + b == a' + [c] + b'
    ensures a == a' && b == b'
  {
    var s := a + [c] + b;
    assert s[|a|] == c && s[|a'|] == c;
    assert forall i | |a| < i < |s| :: s[i] == b[i - |a| - 1];
    assert forall i | |a'| < i < |s| :: s[i] == b'[i - |a'| - 1];
    assert |a| == |a'|;
    SlicesOfThree(a, [c], b);
    SlicesOfThree(a', [c], b');
  }

  // ----- Order -----

  function Less(a: string, b: string): bool {
    b != "" && (a == "" || a[0] < b[0] || (a[0] == b[0] && Less(a[1..], b[1..])))
  }

  lemma {:induction false} LessTotal(a: string, b: string)
    ensures a == b || Less(a, b) || Less(b, a)
    ensures !(Less(a, b) && Less(b, a))
    ensures !Less(a, a)
  {
    if a != "" {
      LessTotal(a[1..], if b == "" then "" else b[1..]);
      if b != "" && a[0] == b[0] && a[1..] == b[1..] {
        assert a == [a[0]] + a[1..] == b;
      }
    }
  }

  /** The order of a dictionary: a proper prefix comes first, and otherwise the first difference decides. */
  lemma {:induction false} LessIff(a: string, b: string)
    ensures Less(a, b) <==> a < b || exists i :: 0 <= i < |a| && i < |b| && a[..i] == b[..i] && a[i] < b[i]
  {
    if a != "" && b != "" && a[0] == b[0] {
      LessIff(a[1..], b[1..]);
      assert a == [a[0]] + a[1..] && b == [b[0]] + b[1..];
      if exists i :: 0 <= i < |a| && i < |b| && a[..i] == b[..i] && a[i] < b[i] {
        var i :| 0 <= i < |a| && i < |b| && a[..i] == b[..i] && a[i] < b[i];
        DifferenceInTail(a, b, i);
      }
      if exists i :: 0 <= i < |a[1..]| && i < |b[1..]| && a[1..][..i] == b[1..][..i] && a[1..][i] < b[1..][i] {
        var i :| 0 <= i < |a[1..]| && i < |b[1..]| && a[1..][..i] == b[1..][..i] && a[1..][i] < b[1..][i];
        DifferenceInWhole(a, b, i);
      }
    } else if a != "" && b != "" && a[0] < b[0] {
      assert a[..0] == b[..0];
    } else if a != "" && b != "" && a[0] > b[0] {
      forall i | 0 <= i < |a| && i < |b| && a[..i] == b[..i] ensures i == 0 || a[0] == b[0] {
        FirstSame(a, b, i);
      }
    }
  }

  lemma FirstSame(a: string, b: string, i: nat)
    requires i < |a| && i < |b| && a[..i] == b[..i]
    ensures i == 0 || a[0] == b[0]
  {
    assert i > 0 ==> a[..i][0] == a[0] && b[..i][0] == b[0];
  }

  lemma DifferenceInTail(a: string, b: string, i: nat)
    requires i < |a| && i < |b| && a[..i] == b[..i] && a[i] < b[i] && a[0] == b[0]
    ensures var j := i - 1; 0 <= j < |a[1..]| && j < |b[1..]| && a[1..][..j] == b[1..][..j] && a[1..][j] < b[1..][j]
  {
    assert a[1..][..i - 1] == a[..i][1..] && b[1..][..i - 1] == b[..i][1..];
  }

  lemma DifferenceInWhole(a: string, b: string, i: nat)
    requires a != "" && b != "" && a[0] == b[0]
    requires i < |a[1..]| && i < |b[1..]| && a[1..][..i] == b[1..][..i] && a[1..][i] < b[1..][i]
    ensures i + 1 < |a| && i + 1 < |b| && a[..i + 1] == b[..i + 1] && a[i + 1] < b[i + 1]
  {
    assert a[..i + 1] == [a[0]] + a[1..][..i] && b[..i + 1] == [b[0]] + b[1..][..i];
  }

  lemma {:induction false} LessTransitive(a: string, b: string, c: string)
    requires Less(a, b) && Less(b, c)
    ensures Less(a, c)
  {
    if a != "" && a[0] == b[0] == c[0] {
      LessTransitive(a[1..], b[1..], c[1..]);
    }
  }

  // ----- C strings -----

  const NUL: char := '\0'

  /** `c_str()` bound with length -1: the text up to the first NUL. */
  function CStr(s: string): (t: string)
    ensures t <= s && NUL !in t
    ensures NUL !in s ==> t == s
  {
    var i := Find(s, NUL);
    if i == NPOS then s else s[..i]
  }

  lemma CStrOfConcat(a: string, b: string)
    ensures CStr(a + b) == if NUL in a then CStr(a) else a + CStr(b)
  {
    var s := a + b;
    if NUL in a {
      var i := Find(a, NUL);
      assert s == a[..i] + [NUL] + (a[i + 1..] + b);
      FindBehind(a[..i], NUL, a[i + 1..] + b);
    } else if NUL in b {
      var i := Find(b, NUL);
      assert s == (a + b[..i]) + [NUL] + b[i + 1..];
      FindBehind(a + b[..i], NUL, b[i + 1..]);
    }
  }

  // ----- Decimal numbers -----

  predicate Digit(c: char) {
    '0' <= c <= '9'
  }

  function Decimal(n: nat): (s: string)
    ensures s != "" && forall i | 0 <= i < |s| :: Digit(s[i])
  {
    (if n < 10 then "" else Decimal(n / 10)) + [('0' as int + n % 10) as char]
  }
}
