/** Sorted sets of names: `std::set<std::string>`, and `SELECT DISTINCT ... ORDER BY`. */
module NameSet {
  import opened Text

  ghost predicate Sorted(names: seq<string>) {
    forall i, j | 0 <= i < j < |names| :: Less(names[i], names[j])
  }

  function InsertName(names: seq<string>, x: string): seq<string> {
    if names == [] || Less(x, names[0]) then [x] + names
    else if names[0] == x then names
    else [names[0]] + InsertName(names[1..], x)
  }

  /** Inserts `xs` in order into the empty set. */
  function SetOf(xs: seq<string>): seq<string> {
    if xs == [] then [] else InsertName(SetOf(xs[..|xs| - 1]), xs[|xs| - 1])
  }

  lemma {:induction false} InsertNameSorted(names: seq<string>, x: string)
    requires Sorted(names)
    ensures Sorted(InsertName(names, x))
    ensures forall n :: n in InsertName(names, x) <==> n in names || n == x
  {
    if names == [] {
    } else if Less(x, names[0]) {
      forall j | 0 < j < |names| ensures Less(x, names[j]) {
        LessTransitive(x, names[0], names[j]);
      }
    } else if names[0] != x {
      LessTotal(x, names[0]);
      InsertNameSorted(names[1..], x);
      assert names == [names[0]] + names[1..];
      var later := InsertName(names[1..], x);
      forall j | 0 <= j < |later| ensures Less(names[0], later[j]) {
        assert later[j] in names[1..] || later[j] == x;
      }
    }
  }

  /** Each name once, in order, and exactly the names given. */
  lemma {:induction false} SetOfSorted(xs: seq<string>)
    ensures Sorted(SetOf(xs))
    ensures forall n :: n in SetOf(xs) <==> n in xs
  {
    if xs != [] {
      SetOfSorted(xs[..|xs| - 1]);
      InsertNameSorted(SetOf(xs[..|xs| - 1]), xs[|xs| - 1]);
      assert xs == xs[..|xs| - 1] + [xs[|xs| - 1]];
    }
  }

  /** How many different names come before `n`. */
  function Preceding(names: seq<string>, n: string): nat {
    |set x | x in names && Less(x, n)|
  }

  lemma PrecedingSame(a: seq<string>, b: seq<string>, n: string)
    requires forall x :: x in a <==> x in b
    ensures Preceding(a, n) == Preceding(b, n)
  {
    assert (set x | x in a && Less(x, n)) == (set x | x in b && Less(x, n));
  }

  lemma {:induction false} SortedCount(names: seq<string>)
    requires Sorted(names)
    ensures |set x | x in names| == |names|
  {
    if names == [] {
      assert (set x | x in names) == {};
    } else {
      var front, last := names[..|names| - 1], names[|names| - 1];
      SortedCount(front);
      forall i | 0 <= i < |front| ensures front[i] != last {
        LessTotal(front[i], last);
      }
      assert (set x | x in names) == (set x | x in front) + {last};
    }
  }

  /** In a sorted set the names before one are those at the places before it. */
  lemma PrecedingOfSorted(names: seq<string>, k: nat)
    requires Sorted(names) && k < |names|
    ensures Preceding(names, names[k]) == k
  {
    var front := names[..k];
    SortedCount(front);
    forall x | x in names && Less(x, names[k]) ensures x in front {
      var i :| 0 <= i < |names| && names[i] == x;
      LessTotal(names[i], names[k]);
      assert front[i] == x;
    }
    assert (set x | x in names && Less(x, names[k])) == (set x | x in front);
  }

  /** The first `limit` names of a set are those that fewer than `limit` come before. */
  lemma FirstOfSet(names: seq<string>, limit: nat, n: string)
    ensures var all := SetOf(names);
            var first := if limit > |all| then all else all[..limit];
            n in first <==> n in names && Preceding(names, n) < limit
  {
    var all := SetOf(names);
    var first := if limit > |all| then all else all[..limit];
    SetOfSorted(names);
    PrecedingSame(names, all, n);
    if n in names {
      var k :| 0 <= k < |all| && all[k] == n;
      PrecedingOfSorted(all, k);
      if k < |first| {
        assert first[k] == n;
      }
      if n in first {
        var i :| 0 <= i < |first| && first[i] == n;
        PrecedingOfSorted(all, i);
      }
    }
  }

  /** A sorted set is determined by its elements. */
  lemma {:induction false} SortedUnique(a: seq<string>, b: seq<string>)
    requires Sorted(a) && Sorted(b) && forall n :: n in a <==> n in b
    ensures a == b
  {
    assert a != [] ==> a[0] in a;
    assert b != [] ==> b[0] in b;
    if a != [] && b != [] {
      HeadsEqual(a, b);
      forall n ensures n in a[1..] <==> n in b[1..] {
        InTail(a, n);
        InTail(b, n);
      }
      SortedUnique(a[1..], b[1..]);
      assert a == [a[0]] + a[1..] && b == [b[0]] + b[1..];
    }
  }

  lemma HeadsEqual(a: seq<string>, b: seq<string>)
    requires a != [] && b != [] && Sorted(a) && Sorted(b) && forall n :: n in a <==> n in b
    ensures a[0] == b[0]
  {
    assert a[0] in b && b[0] in a;
    var i :| 0 <= i < |b| && b[i] == a[0];
    var j :| 0 <= j < |a| && a[j] == b[0];
    LessTotal(a[0], b[0]);
  }

  lemma InTail(a: seq<string>, n: string)
    requires a != [] && Sorted(a)
    ensures n in a[1..] <==> n in a && n != a[0]
  {
    assert a == [a[0]] + a[1..];
    if n in a[1..] {
      LessTotal(a[0], n);
    }
  }

  /** Inserting further names, one by one. */
  function InsertAll(names: seq<string>, xs: seq<string>): seq<string> {
    if xs == [] then names else InsertName(InsertAll(names, xs[..|xs| - 1]), xs[|xs| - 1])
  }

  lemma {:induction false} InsertAllSorted(names: seq<string>, xs: seq<string>)
    requires Sorted(names)
    ensures Sorted(InsertAll(names, xs))
    ensures forall n :: n in InsertAll(names, xs) <==> n in names || n in xs
  {
    if xs != [] {
      InsertAllSorted(names, xs[..|xs| - 1]);
      InsertNameSorted(InsertAll(names, xs[..|xs| - 1]), xs[|xs| - 1]);
      assert xs == xs[..|xs| - 1] + [xs[|xs| - 1]];
    }
  }
}
