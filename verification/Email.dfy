/** `console/demo.py:60-102`: the e-mail redaction, found from each `@` in linear time, against the
    regular expression it stands for, scanned from the left. */
module Email {
  import opened Wrappers

  predicate IsLocal(c: char) {
    'A' <= c <= 'Z' || 'a' <= c <= 'z' || '0' <= c <= '9' || c in "._%+-"
  }

  /** Where a domain matched right after position `p` ends, if one is there. */
  type Domain = nat -> Option<nat>

  ghost predicate Moves(text: string, domain: Domain) {
    forall p: nat | p <= |text| && domain(p).Some? :: p <= domain(p).value <= |text|
  }

  // -------------------------------------------------------------- the regular expression

  /** The end of the run of local-part characters at `s`. */
  function RunEnd(text: string, s: nat): (e: nat)
    requires s <= |text|
    ensures s <= e <= |text|
    ensures forall i :: s <= i < e ==> IsLocal(text[i])
    ensures e < |text| ==> !IsLocal(text[e])
    decreases |text| - s
  {
    if s < |text| && IsLocal(text[s]) then RunEnd(text, s + 1) else s
  }

  /** A match of `<local>+@<domain>` that starts at `s`. The run is greedy, and giving characters
      back cannot help: no local-part character is an `@`. */
  function MatchAt(text: string, s: nat, domain: Domain): Option<nat>
    requires s <= |text|
  {
    var a := RunEnd(text, s);
    if s < a < |text| && text[a] == '@' then domain(a + 1) else None
  }

  /** `re.sub` from `s`, with the text since `last` still to be written out: the leftmost match
      is replaced, and the scan resumes where it ended. */
  function Scan(text: string, last: nat, s: nat, repl: string, domain: Domain): string
    requires Moves(text, domain) && last <= s <= |text|
    decreases |text| - s
  {
    if s == |text| then text[last..] else
    match MatchAt(text, s, domain)
    case None => Scan(text, last, s + 1, repl, domain)
    case Some(e) => text[last..s] + repl + Scan(text, e, e, repl, domain)
  }

  // ------------------------------------------------------- and what a substitution comes to

  /** A letter, a digit, or one of `. _ % + -`, by its code. */
  predicate LocalCode(n: int) {
    65 <= n <= 90 || 97 <= n <= 122 || 48 <= n <= 57 || n == 46 || n == 95 || n == 37 || n == 43 || n == 45
  }

  lemma {:induction false} LocalMeaning(c: char)
    ensures IsLocal(c) <==> LocalCode(c as int)
  {
  }

  /** An address in `text[s..e]`: local-part characters, as many as there are, an `@`, and a domain. */
  ghost predicate Address(text: string, s: nat, e: nat, domain: Domain) {
    exists a: nat :: s < a < |text| && text[a] == '@' && domain(a + 1) == Some(e)
      && forall i :: s <= i < a ==> LocalCode(text[i] as int)
  }

  lemma {:induction false} MatchAtIff(text: string, s: nat, e: nat, domain: Domain)
    requires s <= |text|
    ensures MatchAt(text, s, domain) == Some(e) <==> Address(text, s, e, domain)
  {
    forall c ensures IsLocal(c) <==> LocalCode(c as int) {
      LocalMeaning(c);
    }
    assert !IsLocal('@');
    hide IsLocal;
    if MatchAt(text, s, domain) == Some(e) {
      assert text[RunEnd(text, s)] == '@';
    }
    if Address(text, s, e, domain) {
      var a: nat :| s < a < |text| && text[a] == '@' && domain(a + 1) == Some(e)
        && forall i :: s <= i < a ==> LocalCode(text[i] as int);
      assert RunEnd(text, s) == a;
    }
  }

  /** `result` is the text from `last` on, its addresses replaced from left to right: the first one at or
      after `s`, then those after its end. */
  ghost predicate Replaced(text: string, last: nat, s: nat, repl: string, domain: Domain, result: string)
    requires last <= s <= |text|
    decreases |text| - s
  {
    || ((forall x: nat, e: nat :: s <= x < |text| ==> !Address(text, x, e, domain)) && result == text[last..])
    || exists x: nat, e: nat, rest: string ::
         s <= x < e <= |text| && FirstAddress(text, s, x, e, domain)
         && Replaced(text, e, e, repl, domain, rest) && result == text[last..x] + repl + rest
  }

  ghost predicate FirstAddress(text: string, s: nat, x: nat, e: nat, domain: Domain) {
    Address(text, x, e, domain) && forall y: nat, f: nat :: s <= y < x ==> !Address(text, y, f, domain)
  }

  /** The scan replaces every address, leftmost first, and nothing else. */
  lemma {:induction false} ScanReplaces(text: string, last: nat, s: nat, repl: string, domain: Domain)
    requires Moves(text, domain) && last <= s <= |text|
    ensures Replaced(text, last, s, repl, domain, Scan(text, last, s, repl, domain))
    decreases |text| - s
  {
    hide Address, MatchAt;
    if s < |text| {
      forall e: nat ensures MatchAt(text, s, domain) == Some(e) <==> Address(text, s, e, domain) {
        MatchAtIff(text, s, e, domain);
      }
      match MatchAt(text, s, domain)
      case Some(e) =>
        MatchMoves(text, s, domain);
        ScanReplaces(text, e, e, repl, domain);
        assert FirstAddress(text, s, s, e, domain);
      case None =>
        ScanReplaces(text, last, s + 1, repl, domain);
        var result := Scan(text, last, s, repl, domain);
        if x: nat, e: nat, rest: string :|
          s + 1 <= x < e <= |text| && FirstAddress(text, s + 1, x, e, domain)
          && Replaced(text, e, e, repl, domain, rest) && result == text[last..x] + repl + rest
        {
          assert FirstAddress(text, s, x, e, domain);
        }
    }
  }

  lemma {:induction false} MatchMoves(text: string, s: nat, domain: Domain)
    requires Moves(text, domain) && s <= |text|
    ensures MatchAt(text, s, domain).Some? ==> s < MatchAt(text, s, domain).value <= |text|
  {
  }

  // ------------------------------------------------------------------------- the fast form

  /** The first `@` at or after `from`, or past the end. */
  method Find(text: string, from: nat) returns (at: nat)
    requires from <= |text|
    ensures from <= at <= |text| && (at < |text| ==> text[at] == '@')
    ensures forall i :: from <= i < at ==> text[i] != '@'
  {
    at := from;
    while at < |text| && text[at] != '@'
      invariant from <= at <= |text|
      invariant forall i :: from <= i < at ==> text[i] != '@'
    {
      at := at + 1;
    }
  }

  /** The start of the run that ends just left of `at`, no further left than `last`. */
  method WalkLeft(text: string, last: nat, at: nat) returns (start: nat)
    requires last <= at <= |text|
    ensures last <= start <= at && (forall i :: start <= i < at ==> IsLocal(text[i]))
    ensures start > last ==> !IsLocal(text[start - 1])
  {
    start := at;
    while start > last && IsLocal(text[start - 1])
      invariant last <= start <= at && forall i :: start <= i < at ==> IsLocal(text[i])
    {
      start := start - 1;
    }
  }

  /** No match starts in `[last, at)`, save one whose `@` is not yet reached. */
  ghost predicate Tried(text: string, last: nat, at: nat, domain: Domain)
    requires at <= |text|
  {
    forall s: nat :: last <= s < at && RunEnd(text, s) < at ==> MatchAt(text, s, domain).None?
  }

  lemma {:induction false} SkipFailures(text: string, last: nat, s: nat, t: nat, repl: string, domain: Domain)
    requires Moves(text, domain) && last <= s <= t <= |text|
    requires forall x: nat :: s <= x < t ==> MatchAt(text, x, domain).None?
    ensures Scan(text, last, s, repl, domain) == Scan(text, last, t, repl, domain)
    decreases t - s
  {
    if s < t {
      hide MatchAt, RunEnd;
      SkipFailures(text, last, s + 1, t, repl, domain);
    }
  }

  lemma {:induction false} RunEndAt(text: string, s: nat, e: nat)
    requires s <= e <= |text| && (forall i :: s <= i < e ==> IsLocal(text[i])) && (e < |text| ==> !IsLocal(text[e]))
    ensures RunEnd(text, s) == e
  {
    hide RunEnd, IsLocal;
  }

  /** Nothing that starts left of the run found from `at` can match. */
  lemma {:induction false} LeftOfRun(text: string, last: nat, start: nat, at: nat, domain: Domain)
    requires last <= start <= at < |text| && Tried(text, last, at, domain)
    requires start > last ==> !IsLocal(text[start - 1])
    ensures forall x: nat :: last <= x < start ==> MatchAt(text, x, domain).None?
  {
    hide MatchAt;
    forall x: nat | last <= x < start ensures MatchAt(text, x, domain).None? {
      assert RunEnd(text, x) <= start - 1;
    }
  }

  /** Every start that reaches this `@` lies in the run found from it, and all of them match alike. */
  lemma {:induction false} TriedThis(text: string, last: nat, start: nat, at: nat, next: nat, domain: Domain)
    requires last <= start <= at < next <= |text| && Tried(text, last, at, domain) && text[at] == '@'
    requires forall i :: start <= i < at ==> IsLocal(text[i])
    requires start < at ==> domain(at + 1).None?
    requires start > last ==> !IsLocal(text[start - 1])
    requires forall i :: at < i < next ==> text[i] != '@'
    ensures Tried(text, last, next, domain)
  {
    forall s: nat | last <= s < next && RunEnd(text, s) < next ensures MatchAt(text, s, domain).None? {
      var a := RunEnd(text, s);
      if s < a && text[a] == '@' {
        assert a <= at;
        assert a == at ==> start <= s;
      }
    }
  }

  lemma {:induction false} NothingTriedYet(text: string, last: nat, next: nat, domain: Domain)
    requires last <= next <= |text| && forall i :: last <= i < next ==> text[i] != '@'
    ensures Tried(text, last, next, domain)
  {
  }

  /** Where the scan would match, the walk does, and both resume at the same place. */
  lemma {:induction false} MatchHere(text: string, last: nat, start: nat, at: nat, repl: string, domain: Domain)
    requires Moves(text, domain) && last <= start < at < |text| && text[at] == '@' && Tried(text, last, at, domain)
    requires forall i :: start <= i < at ==> IsLocal(text[i])
    requires start > last ==> !IsLocal(text[start - 1])
    requires domain(at + 1).Some?
    ensures Scan(text, last, last, repl, domain)
      == text[last..start] + repl + Scan(text, domain(at + 1).value, domain(at + 1).value, repl, domain)
  {
    assert !IsLocal('@');
    RunEndAt(text, start, at);
    LeftOfRun(text, last, start, at, domain);
    assert MatchAt(text, start, domain) == domain(at + 1);
    hide MatchAt, RunEnd, Tried, IsLocal;
    SkipFailures(text, last, last, start, repl, domain);
  }

  lemma {:induction false} NoneLeft(text: string, last: nat, repl: string, domain: Domain)
    requires Moves(text, domain) && last <= |text| && Tried(text, last, |text|, domain)
    ensures Scan(text, last, last, repl, domain) == text[last..]
  {
    hide Tried;
    forall x: nat | last <= x < |text| ensures MatchAt(text, x, domain).None? {
      assert RunEnd(text, x) < |text| ==> MatchAt(text, x, domain).None? by {
        TriedAt(text, last, x, domain);
      }
    }
    hide MatchAt;
    SkipFailures(text, last, last, |text|, repl, domain);
  }

  lemma {:induction false} TriedAt(text: string, last: nat, x: nat, domain: Domain)
    requires Tried(text, last, |text|, domain) && last <= x < |text|
    ensures RunEnd(text, x) < |text| ==> MatchAt(text, x, domain).None?
  {
  }

  lemma {:induction false} Reassociate(a: string, b: string, c: string, d: string)
    ensures a + (b + c + d) == a + b + c + d
  {
  }

  /** The `@`-driven substitution is the leftmost greedy one, for every text and every domain
      matcher, and walks left over no more characters than the text has. */
  method Sub(text: string, repl: string, domain: Domain) returns (result: string, ghost walked: nat)
    requires Moves(text, domain)
    ensures result == Scan(text, 0, 0, repl, domain)
    ensures walked <= |text|
  {
    assert !IsLocal('@');
    hide Scan, MatchAt, RunEnd, IsLocal, Tried;
    var out: string, last: nat := "", 0;
    ghost var edge: nat := 0;
    walked := 0;
    var at := Find(text, 0);
    NothingTriedYet(text, 0, at, domain);
    while at < |text|
      invariant last <= at <= |text| && (at < |text| ==> text[at] == '@')
      invariant Tried(text, last, at, domain)
      invariant out + Scan(text, last, last, repl, domain) == Scan(text, 0, 0, repl, domain)
      invariant walked <= edge && Unwalked(text, last, edge, at)
      decreases |text| - at
    {
      var start := WalkLeft(text, last, at);
      WalkStops(text, last, edge, start, at);
      walked := walked + (at - start);
      var found := if start < at then domain(at + 1) else None;
      if found.Some? {
        MatchHere(text, last, start, at, repl, domain);
        Reassociate(out, text[last..start], repl, Scan(text, found.value, found.value, repl, domain));
        out := out + text[last..start] + repl;
        last := found.value;
        at := Find(text, last);
        edge := last;
        NothingTriedYet(text, last, at, domain);
      } else {
        var next := Find(text, at + 1);
        TriedThis(text, last, start, at, next, domain);
        edge := at + 1;
        at := next;
      }
    }
    NoneLeft(text, last, repl, domain);
    result := out + text[last..];
  }

  /** The next walk from `at` cannot pass `from`. */
  ghost predicate Unwalked(text: string, last: nat, from: nat, at: nat) {
    last <= from <= at <= |text| && (from == last || !IsLocal(text[from - 1]))
  }

  lemma {:induction false} WalkStops(text: string, last: nat, from: nat, start: nat, at: nat)
    requires Unwalked(text, last, from, at) && last <= start <= at
    requires forall i :: start <= i < at ==> IsLocal(text[i])
    ensures from <= start
  {
  }
}
