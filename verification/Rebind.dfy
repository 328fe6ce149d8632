/**
 The rewriting of '?' placeholders into PostgreSQL's numbered ones, outside
 quoted strings.
 */
module Rebind {

  datatype Dialect = SQLite | Postgres

  const QUOTE: char := '\''

  /** Decimal notation. */
  function Decimal(n: nat): (s: string)
    ensures |s| > 0
    ensures forall i :: 0 <= i < |s| ==> '0' <= s[i] <= '9'
  {
    if n < 10 then ["0123456789"[n]] else Decimal(n / 10) + ["0123456789"[n % 10]]
  }

  /** The number a string of digits denotes. */
  function Value(s: string): int {
    if s == "" then 0 else Value(s[..|s| - 1]) * 10 + s[|s| - 1] as int - '0' as int
  }

  lemma {:induction false} DecimalDenotes(n: nat)
    ensures Value(Decimal(n)) == n
    ensures n > 0 ==> Decimal(n)[0] != '0'
  {
    if n >= 10 {
      DecimalDenotes(n / 10);
      var s := Decimal(n);
      assert s[..|s| - 1] == Decimal(n / 10);
    }
  }

  // ----- The rule -----

  /** The number of single quotes before position n. */
  function Quotes(q: string, n: nat): nat
    requires n <= |q|
  {
    if n == 0 then 0 else Quotes(q, n - 1) + if q[n - 1] == QUOTE then 1 else 0
  }

  /** A '?' preceded by an even number of single quotes. */
  predicate Placeholder(q: string, i: nat)
    requires i < |q|
  {
    q[i] == '?' && Quotes(q, i) % 2 == 0
  }

  function Placeholders(q: string, n: nat): nat
    requires n <= |q|
  {
    if n == 0 then 0 else Placeholders(q, n - 1) + if Placeholder(q, n - 1) then 1 else 0
  }

  /** The k-th placeholder becomes $k; every other character stays. */
  function Piece(q: string, i: nat): string
    requires i < |q|
  {
    if Placeholder(q, i) then "$" + Decimal(Placeholders(q, i) + 1) else [q[i]]
  }

  function Numbered(q: string, n: nat): string
    requires n <= |q|
  {
    if n == 0 then "" else Numbered(q, n - 1) + Piece(q, n - 1)
  }

  // ----- The scanner -----

  lemma {:induction false} NothingToNumber(q: string, n: nat)
    requires n <= |q| && '?' !in q
    ensures Numbered(q, n) == q[..n]
  {
    if n > 0 {
      NothingToNumber(q, n - 1);
      assert q[n - 1] in q;
      assert q[..n] == q[..n - 1] + [q[n - 1]];
    }
  }

  lemma Beginning(q: string)
    ensures Quotes(q, 0) == 0 && Placeholders(q, 0) == 0 && Numbered(q, 0) == ""
  {
  }

  /** One character further. */
  lemma Advance(q: string, n: nat)
    requires n < |q|
    ensures Quotes(q, n + 1) == Quotes(q, n) + if q[n] == QUOTE then 1 else 0
    ensures Placeholders(q, n + 1) == Placeholders(q, n) + if Placeholder(q, n) then 1 else 0
    ensures Numbered(q, n + 1) == Numbered(q, n) + Piece(q, n)
  {
  }

  method Rewrite(dialect: Dialect, query: string) returns (out: string)
    ensures out == if dialect == Postgres then Numbered(query, |query|) else query
  {
    hide Decimal, Quotes, Placeholders, Numbered;
    if dialect != Postgres || '?' !in query {
      if dialect == Postgres {
        NothingToNumber(query, |query|);
        assert query[..|query|] == query;
      }
      return query;
    }
    Beginning(query);
    out := "";
    var parameter := 1;
    var inSingleQuote := false;
    var index := 0;
    while index < |query|
      invariant 0 <= index <= |query|
      invariant inSingleQuote <==> Quotes(query, index) % 2 == 1
      invariant parameter == Placeholders(query, index) + 1
      invariant out == Numbered(query, index)
    {
      var character := query[index];
      Advance(query, index);
      if character == QUOTE {
        out := out + [character];
        if inSingleQuote && index + 1 < |query| && query[index + 1] == QUOTE {
          out := out + [query[index + 1]];
          Advance(query, index + 1);
          index := index + 2;
        } else {
          inSingleQuote := !inSingleQuote;
          index := index + 1;
        }
      } else if character == '?' && !inSingleQuote {
        out := out + ("$" + Decimal(parameter));
        parameter := parameter + 1;
        index := index + 1;
      } else {
        out := out + [character];
        index := index + 1;
      }
    }
  }

  // ----- The inverse -----

  /** Read $k back as '?' outside quotes, k counting up. */
  function Restore(s: string, inQuote: bool, k: nat): string
    decreases |s|
  {
    if s == "" then ""
    else if s[0] == '$' && !inQuote && Decimal(k) <= s[1..] then "?" + Restore(s[1 + |Decimal(k)|..], inQuote, k + 1)
    else [s[0]] + Restore(s[1..], if s[0] == QUOTE then !inQuote else inQuote, k)
  }

  /** No '$' stands outside quotes. */
  ghost predicate NoDollar(q: string) {
    forall i :: 0 <= i < |q| && q[i] == '$' ==> Quotes(q, i) % 2 == 1
  }

  /** The rewriting of what is left of the query at position n. */
  function Tail(q: string, n: nat): string
    requires n <= |q|
    decreases |q| - n
  {
    if n == |q| then "" else Piece(q, n) + Tail(q, n + 1)
  }

  lemma {:induction false} NumberedSplits(q: string, n: nat)
    requires n <= |q|
    ensures Numbered(q, |q|) == Numbered(q, n) + Tail(q, n)
    decreases |q| - n
  {
    hide Piece, Numbered;
    if n < |q| {
      Advance(q, n);
      assert Tail(q, n) == Piece(q, n) + Tail(q, n + 1);
      NumberedSplits(q, n + 1);
    }
  }

  lemma RestoreNumber(rest: string, k: nat)
    ensures Restore("$" + Decimal(k) + rest, false, k) == "?" + Restore(rest, false, k + 1)
  {
    hide Decimal;
    var s := "$" + Decimal(k) + rest;
    assert s[1..] == Decimal(k) + rest;
    assert s[1 + |Decimal(k)|..] == rest;
  }

  lemma RestoreCharacter(c: char, rest: string, inQuote: bool, k: nat)
    requires c == '$' ==> inQuote
    ensures Restore([c] + rest, inQuote, k) == [c] + Restore(rest, if c == QUOTE then !inQuote else inQuote, k)
  {
    hide Decimal;
    assert ([c] + rest)[1..] == rest;
  }

  lemma {:induction false} TailRestores(q: string, n: nat)
    requires n <= |q| && NoDollar(q)
    ensures Restore(Tail(q, n), Quotes(q, n) % 2 == 1, Placeholders(q, n) + 1) == q[n..]
    decreases |q| - n
  {
    hide Decimal, Quotes, Placeholders, Numbered, Restore;
    if n == |q| {
      RestoreNothing(Quotes(q, n) % 2 == 1, Placeholders(q, n) + 1);
    } else {
      Advance(q, n);
      TailRestores(q, n + 1);
      var rest, k := Tail(q, n + 1), Placeholders(q, n) + 1;
      assert q[n..] == [q[n]] + q[n + 1..];
      if Placeholder(q, n) {
        RestoreNumber(rest, k);
      } else {
        RestoreCharacter(q[n], rest, Quotes(q, n) % 2 == 1, k);
      }
    }
  }

  lemma RestoreNothing(inQuote: bool, k: nat)
    ensures Restore("", inQuote, k) == ""
  {
  }

  /** The numbering loses nothing: every query without '$' outside quotes comes back. */
  lemma RewriteRoundTrip(q: string)
    requires NoDollar(q)
    ensures Restore(Numbered(q, |q|), false, 1) == q
  {
    hide Numbered, Tail, Restore, Quotes, Placeholders, NoDollar;
    Beginning(q);
    NumberedSplits(q, 0);
    TailRestores(q, 0);
    assert "" + Tail(q, 0) == Tail(q, 0) && q[0..] == q;
  }
}
