/**
 * `generate_tournament_id`: the name is lower-cased, reduced to letters,
 * digits and underscores, cut to 20 characters, and given the smallest
 * suffix `_1`, `_2`, ... that is not yet a tournament id.
 * Only ASCII letters and digits are recognised.
 */
module Naming {

  const MaxBaseLength := 20

  /** `str.lower` on one character (ASCII). */
  function Lower(c: char): char {
    if 'A' <= c <= 'Z' then (c as int + 32) as char else c
  }

  /** `ch.isalnum() or ch == '_'` (ASCII). */
  predicate Kept(c: char) {
    'a' <= c <= 'z' || 'A' <= c <= 'Z' || '0' <= c <= '9' || c == '_'
  }

  /** The characters an id base is made of. */
  predicate IdChar(c: char) {
    'a' <= c <= 'z' || '0' <= c <= '9' || c == '_'
  }

  /** The lower-cased name with every other character dropped. */
  function Normalize(name: string): string {
    if name == [] then []
    else (if Kept(Lower(name[0])) then [Lower(name[0])] else []) + Normalize(name[1..])
  }

  /** The id base: the normalised name, cut to `MaxBaseLength` characters. */
  function Base(name: string): string {
    var n := Normalize(name);
    if |n| <= MaxBaseLength then n else n[..MaxBaseLength]
  }

  function DigitChar(d: int): char
    requires 0 <= d < 10
  {
    ('0' as int + d) as char
  }

  /** `str(n)` for a natural number. */
  function NatToString(n: nat): string
    decreases n
  {
    if n < 10 then [DigitChar(n)] else NatToString(n / 10) + [DigitChar(n % 10)]
  }

  /** `int(s)` for a string of decimal digits. */
  function ParseNat(s: string): int {
    if s == [] then 0 else ParseNat(s[..|s| - 1]) * 10 + (s[|s| - 1] as int - '0' as int)
  }

  /** The candidate id `f"{base}_{i}"`. */
  function IdFor(base: string, i: nat): string {
    base + "_" + NatToString(i)
  }

  /** The suffix number of an id built from `base`. */
  function SuffixOf(base: string, id: string): int {
    if |id| <= |base| then 0 else ParseNat(id[|base| + 1..])
  }

  /** Every id base consists of at most 20 lower-case letters, digits and underscores. */
  lemma {:induction false} BaseShape(name: string)
    ensures |Base(name)| <= MaxBaseLength
    ensures forall k :: 0 <= k < |Base(name)| ==> IdChar(Base(name)[k])
  {
    NormalizeShape(name);
  }

  lemma {:induction false} NormalizeShape(name: string)
    ensures forall k :: 0 <= k < |Normalize(name)| ==> IdChar(Normalize(name)[k])
  {
    if name != [] {
      NormalizeShape(name[1..]);
    }
  }

  /** A name already made of id characters is its own normal form; in particular normalising is idempotent. */
  lemma {:induction false} NormalizeKeepsIdChars(name: string)
    requires forall k :: 0 <= k < |name| ==> IdChar(name[k])
    ensures Normalize(name) == name
  {
    if name != [] {
      assert name == [name[0]] + name[1..];
      NormalizeKeepsIdChars(name[1..]);
    }
  }

  lemma NormalizeIdempotent(name: string)
    ensures Normalize(Normalize(name)) == Normalize(name)
  {
    NormalizeShape(name);
    NormalizeKeepsIdChars(Normalize(name));
  }

  /** Reading back the decimal representation gives the number. */
  lemma {:induction false} ParseNatToString(n: nat)
    ensures ParseNat(NatToString(n)) == n
    decreases n
  {
    if n >= 10 {
      var s := NatToString(n);
      assert s[..|s| - 1] == NatToString(n / 10);
      ParseNatToString(n / 10);
    }
  }

  /** The suffix of `IdFor(base, i)` reads back as `i`. */
  lemma SuffixOfIdFor(base: string, i: nat)
    ensures SuffixOf(base, IdFor(base, i)) == i
  {
    assert IdFor(base, i)[|base| + 1..] == NatToString(i);
    ParseNatToString(i);
  }

  /** Distinct suffixes give distinct ids. */
  lemma IdForInjective(base: string, i: nat, j: nat)
    requires IdFor(base, i) == IdFor(base, j)
    ensures i == j
  {
    SuffixOfIdFor(base, i);
    SuffixOfIdFor(base, j);
  }

  /** The loop of `generate_tournament_id` over the ids already `taken`. */
  method GenerateTournamentId(name: string, taken: set<string>) returns (tid: string)
    ensures tid !in taken
    ensures exists i: nat ::
      (1 <= i && tid == IdFor(Base(name), i) && forall j: nat :: 1 <= j < i ==> IdFor(Base(name), j) in taken)
  {
    var base := Base(name);
    var i: nat := 1;
    tid := IdFor(base, i);
    ghost var seen: set<string> := {};
    while tid in taken
      invariant 1 <= i && tid == IdFor(base, i)
      invariant forall j: nat :: 1 <= j < i ==> IdFor(base, j) in taken
      invariant seen <= taken && |seen| == i - 1
      invariant forall s :: s in seen ==> SuffixOf(base, s) < i
      decreases |taken| - |seen|
    {
      SuffixOfIdFor(base, i);
      seen := seen + {tid};
      SubsetSize(seen, taken);
      i := i + 1;
      tid := IdFor(base, i);
    }
  }

  lemma SubsetSize<T>(a: set<T>, b: set<T>)
    requires a <= b
    ensures |a| <= |b|
  {
    assert b == a + (b - a);
  }
}
