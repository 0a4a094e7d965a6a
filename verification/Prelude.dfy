/** Shared data types and the two facts about Python's own library the model leans on:
    string order (`<` on `str`) and the stable `sorted`. */
module Wrappers {
  datatype Option<+T> = None | Some(value: T) {
    function GetOr(default: T): T {
      match this
      case Some(v) => v
      case None => default
    }
  }

  datatype Result<+T, +E> = Ok(value: T) | Err(error: E)
}

/** `str` as the source uses it: lexicographic order, `strip`, `lower` (ASCII). */
module Text {
  predicate AtMost(a: string, b: string) {
    a == [] || (b != [] && (a[0] < b[0] || (a[0] == b[0] && AtMost(a[1..], b[1..]))))
  }

  lemma {:induction false} AtMostTotal(a: string, b: string)
    ensures AtMost(a, b) || AtMost(b, a)
  {
    if a != [] && b != [] {
      AtMostTotal(a[1..], b[1..]);
    }
  }

  lemma {:induction false} AtMostAntisymmetric(a: string, b: string)
    requires AtMost(a, b) && AtMost(b, a)
    ensures a == b
  {
    if a != [] && b != [] {
      AtMostAntisymmetric(a[1..], b[1..]);
      assert a == [a[0]] + a[1..] && b == [b[0]] + b[1..];
    }
  }

  lemma {:induction false} AtMostTransitive(a: string, b: string, c: string)
    requires AtMost(a, b) && AtMost(b, c)
    ensures AtMost(a, c)
  {
    if a != [] && b != [] && c != [] && a[0] == b[0] && b[0] == c[0] {
      AtMostTransitive(a[1..], b[1..], c[1..]);
    }
  }

  predicate IsSpace(c: char) { c == ' ' || '\t' <= c <= '\r' || '\U{1C}' <= c <= '\U{1F}' }

  function TrimStart(s: string): string { if s != [] && IsSpace(s[0]) then TrimStart(s[1..]) else s }

  function TrimEnd(s: string): string {
    if s != [] && IsSpace(s[|s| - 1]) then TrimEnd(s[..|s| - 1]) else s
  }

  function Strip(s: string): string { TrimEnd(TrimStart(s)) }

  function LowerChar(c: char): char {
    if 'A' <= c <= 'Z' then ((c as int) - ('A' as int) + ('a' as int)) as char else c
  }

  function Lower(s: string): string { seq(|s|, i requires 0 <= i < |s| => LowerChar(s[i])) }

  /** The first place where two strings part. */
  predicate PartAt(a: string, b: string, i: nat) {
    i < |a| && i < |b| && a[i] < b[i] && a[..i] == b[..i]
  }

  /** Dictionary order: a beginning comes before what it begins, else the first difference decides. */
  lemma {:induction false} AtMostMeaning(a: string, b: string)
    ensures AtMost(a, b) <==> a <= b || exists i: nat :: PartAt(a, b, i)
  {
    if a != [] && b != [] {
      AtMostMeaning(a[1..], b[1..]);
      assert a == [a[0]] + a[1..] && b == [b[0]] + b[1..];
      if a[0] == b[0] {
        if i: nat :| PartAt(a[1..], b[1..], i) {
          assert a[..i + 1] == [a[0]] + a[1..][..i] && b[..i + 1] == [b[0]] + b[1..][..i];
          assert PartAt(a, b, i + 1);
        }
        if i: nat :| PartAt(a, b, i) {
          assert a[1..][..i - 1] == a[..i][1..] && b[1..][..i - 1] == b[..i][1..];
          assert PartAt(a[1..], b[1..], i - 1);
        }
      } else if a[0] < b[0] {
        assert PartAt(a, b, 0);
      }
    }
  }

  /** ASCII capitals by their small letters, everything else as it is. */
  lemma {:induction false} LowerMeaning(s: string)
    ensures |Lower(s)| == |s|
    ensures forall i :: 0 <= i < |s| ==>
      if 'A' <= s[i] <= 'Z' then Lower(s)[i] as int == s[i] as int + 32 else Lower(s)[i] == s[i]
  {
  }

  /** Blanks: the space, the tab to the carriage return, the four separators. */
  predicate Blank(s: string) {
    forall c :: c in s ==> c as int == 32 || 9 <= c as int <= 13 || 28 <= c as int <= 31
  }

  predicate Bare(s: string) { s == "" || (!Blank([s[0]]) && !Blank([s[|s| - 1]])) }

  lemma {:induction false} TrimStartMeaning(s: string) returns (a: string)
    ensures s == a + TrimStart(s) && Blank(a)
    ensures TrimStart(s) == "" || !Blank([TrimStart(s)[0]])
  {
    if s != [] && IsSpace(s[0]) {
      var b := TrimStartMeaning(s[1..]);
      a := [s[0]] + b;
      assert s == [s[0]] + s[1..];
    } else {
      a := "";
      assert s != "" ==> s[0] in [s[0]];
    }
  }

  lemma {:induction false} TrimEndMeaning(s: string) returns (b: string)
    ensures s == TrimEnd(s) + b && Blank(b) && TrimEnd(s) <= s
    ensures TrimEnd(s) == "" || !Blank([TrimEnd(s)[|TrimEnd(s)| - 1]])
  {
    if s != [] && IsSpace(s[|s| - 1]) {
      var c := TrimEndMeaning(s[..|s| - 1]);
      b := c + [s[|s| - 1]];
      assert s == s[..|s| - 1] + [s[|s| - 1]];
    } else {
      b := "";
      assert s != "" ==> s[|s| - 1] in [s[|s| - 1]];
    }
  }

  /** What is between the blanks at both ends. */
  lemma {:induction false} StripMeaning(s: string) returns (a: string, b: string)
    ensures s == a + Strip(s) + b && Blank(a) && Blank(b) && Bare(Strip(s))
  {
    a := TrimStartMeaning(s);
    b := TrimEndMeaning(TrimStart(s));
    hide TrimStart, TrimEnd, Blank;
    assert Strip(s) != "" ==> Strip(s)[0] == TrimStart(s)[0];
  }
}

/** Python's `sorted(xs, key=...)`: stable, as an insertion sort. */
module Sorting {
  function Insert<T>(x: T, s: seq<T>, key: T -> int): seq<T> {
    if s == [] || key(x) <= key(s[0]) then [x] + s else [s[0]] + Insert(x, s[1..], key)
  }

  function SortBy<T>(s: seq<T>, key: T -> int): seq<T> {
    if s == [] then [] else Insert(s[0], SortBy(s[1..], key), key)
  }

  ghost predicate Ordered<T>(s: seq<T>, key: T -> int) {
    forall i, j :: 0 <= i < j < |s| ==> key(s[i]) <= key(s[j])
  }

  predicate Ascends<T>(s: seq<T>, key: T -> int) {
    |s| < 2 || (key(s[0]) <= key(s[1]) && Ascends(s[1..], key))
  }

  lemma {:induction false} AscendsIsOrdered<T>(s: seq<T>, key: T -> int)
    requires Ascends(s, key)
    ensures Ordered(s, key)
  {
    if |s| >= 2 {
      AscendsIsOrdered(s[1..], key);
      forall i, j | 0 <= i < j < |s| ensures key(s[i]) <= key(s[j]) {
        assert s[j] == s[1..][j - 1];
        if i == 0 {
          assert j > 1 ==> key(s[1..][0]) <= key(s[1..][j - 1]);
        } else {
          assert s[i] == s[1..][i - 1];
        }
      }
    }
  }

  lemma {:induction false} InsertAscends<T>(x: T, s: seq<T>, key: T -> int)
    requires Ascends(s, key)
    ensures Ascends(Insert(x, s, key), key)
  {
    if s != [] && key(x) > key(s[0]) {
      InsertAscends(x, s[1..], key);
      assert Insert(x, s, key)[1..] == Insert(x, s[1..], key);
    } else {
      assert ([x] + s)[1..] == s;
    }
  }

  lemma {:induction false} InsertCounts<T>(x: T, s: seq<T>, key: T -> int)
    ensures multiset(Insert(x, s, key)) == multiset{x} + multiset(s)
  {
    if s != [] && key(x) > key(s[0]) {
      InsertCounts(x, s[1..], key);
      assert s == [s[0]] + s[1..];
    }
  }

  lemma {:induction false} SortByAscends<T>(s: seq<T>, key: T -> int)
    ensures Ascends(SortBy(s, key), key)
    ensures multiset(SortBy(s, key)) == multiset(s)
  {
    if s != [] {
      SortByAscends(s[1..], key);
      InsertAscends(s[0], SortBy(s[1..], key), key);
      InsertCounts(s[0], SortBy(s[1..], key), key);
      assert s == [s[0]] + s[1..];
    }
  }

  lemma {:induction false} SortByMeaning<T>(s: seq<T>, key: T -> int)
    ensures Ordered(SortBy(s, key), key)
    ensures multiset(SortBy(s, key)) == multiset(s)
    ensures |SortBy(s, key)| == |s|
    ensures forall x :: x in SortBy(s, key) <==> x in s
  {
    SortByAscends(s, key);
    AscendsIsOrdered(SortBy(s, key), key);
    assert |multiset(SortBy(s, key))| == |multiset(s)|;
    forall x ensures x in SortBy(s, key) <==> x in s {
      assert x in multiset(SortBy(s, key)) <==> x in multiset(s);
    }
  }

  lemma {:induction false} SortByMember<T>(s: seq<T>, key: T -> int, x: T)
    ensures x in SortBy(s, key) <==> x in s
  {
    SortByMeaning(s, key);
  }

  /** A least element that arrives first stays first. */
  lemma {:induction false} SmallestStaysFirst<T>(s: seq<T>, key: T -> int)
    requires s != [] && forall i :: 0 <= i < |s| ==> key(s[0]) <= key(s[i])
    ensures SortBy(s, key) != [] && SortBy(s, key)[0] == s[0]
  {
    var rest := s[1..];
    var sorted := SortBy(rest, key);
    if sorted != [] {
      SortByMember(rest, key, sorted[0]);
      assert sorted[0] in sorted;
      var i :| 0 <= i < |rest| && rest[i] == sorted[0];
      assert rest[i] == s[i + 1];
    }
  }

  /** An element standing in two places is counted twice. */
  lemma {:induction false} CountedTwice<T>(s: seq<T>, i: nat, j: nat)
    requires i < j < |s| && s[i] == s[j]
    ensures multiset(s)[s[i]] >= 2
  {
    assert s == s[..j] + [s[j]] + s[j + 1..];
    assert s[..j][i] == s[i];
    assert s[i] in multiset(s[..j]);
  }

  function Keep<T>(s: seq<T>, key: T -> int, k: int): seq<T> {
    if s == [] then [] else (if key(s[0]) == k then [s[0]] else []) + Keep(s[1..], key, k)
  }

  lemma {:induction false} KeepHead<T>(x: T, s: seq<T>, key: T -> int, k: int)
    ensures Keep([x] + s, key, k) == (if key(x) == k then [x] else []) + Keep(s, key, k)
  {
    assert ([x] + s)[1..] == s;
  }

  lemma {:induction false} InsertIsStable<T>(x: T, s: seq<T>, key: T -> int, k: int)
    ensures Keep(Insert(x, s, key), key, k) == (if key(x) == k then [x] else []) + Keep(s, key, k)
  {
    if s != [] && key(x) > key(s[0]) {
      InsertIsStable(x, s[1..], key, k);
      KeepHead(s[0], Insert(x, s[1..], key), key, k);
    } else {
      KeepHead(x, s, key, k);
    }
  }

  /** Equal keys keep their arrival order: what makes "first arrival wins a tie" true. */
  lemma {:induction false} SortIsStable<T>(s: seq<T>, key: T -> int, k: int)
    ensures Keep(SortBy(s, key), key, k) == Keep(s, key, k)
  {
    if s != [] {
      SortIsStable(s[1..], key, k);
      InsertIsStable(s[0], SortBy(s[1..], key), key, k);
    }
  }
}
