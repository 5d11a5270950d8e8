/** Shared vocabulary of the marketplace model: optional values, the outcome of an
    operation that may throw, the JavaScript truthiness and `slice` rules the code
    relies on, and the abstract clock. */
module Common {

  /** A point in time, as the milliseconds since the epoch that `Date.getTime()` returns.
      The `new Date()` calls of one operation share one `now: Time` parameter of the
      model, so two of them in one call read the same instant. */
  type Time = nat

  const MS_PER_DAY: nat := 86_400_000
  /** `new Date("2024-01-01")`: midnight UTC, 19723 days after the epoch. */
  const JAN_01_2024: Time := 1_704_067_200_000

  /** `new Date("2024-01-<day>")`. */
  function Jan2024(day: nat): (t: Time)
    requires 1 <= day <= 31
    ensures t == JAN_01_2024 + (day - 1) * MS_PER_DAY
  {
    JAN_01_2024 + (day - 1) * MS_PER_DAY
  }

  /** A value that may be absent: JavaScript's `undefined`/`null`. */
  datatype Option<+T> = None | Some(value: T) {
    /** The `??` operator: the value when present, the default otherwise. */
    function GetOr(default: T): (r: T)
      ensures Some? ==> r == value
      ensures None? ==> r == default
    {
      match this
      case Some(v) => v
      case None => default
    }
  }

  /** Completion of an operation that returns a value or throws `new Error(message)`. */
  datatype Result<+T> = Ok(value: T) | Err(message: string)

  /** Completion of an operation that returns nothing or throws `new Error(message)`. */
  datatype Outcome = Pass | Fail(message: string)

  /** The owner of a product or a stamp card: the `{ value: string }` user id object. */
  datatype UserId = UserId(value: string)

  /** JavaScript truthiness of a string: only the empty string is falsy. */
  predicate Truthy(s: string) {
    s != ""
  }

  /** JavaScript truthiness of a number (an integer here): only 0 is falsy. */
  predicate TruthyNumber(n: int) {
    n != 0
  }

  function Min(a: int, b: int): int { if a <= b then a else b }
  function Max(a: int, b: int): int { if a >= b then a else b }

  /** The number of leading elements `Array.prototype.slice(0, limit)` keeps of an
      array of length `n`: a negative `limit` counts back from the end. */
  function SliceLength(n: nat, limit: int): nat {
    if limit >= 0 then Min(limit, n) else Max(0, n + limit)
  }

  /** `s.slice(0, limit)`. */
  function Slice<T>(s: seq<T>, limit: int): (r: seq<T>)
    ensures |r| == SliceLength(|s|, limit)
    ensures r <= s
    ensures 0 <= limit ==> |r| == Min(limit, |s|)
    ensures limit >= |s| ==> r == s
  {
    s[..SliceLength(|s|, limit)]
  }

  /** No element occurs twice. */
  predicate NoDuplicates<T(==)>(s: seq<T>) {
    forall i, j | 0 <= i < j < |s| :: s[i] != s[j]
  }

  /** `a` is `b` with some elements left out, the rest kept in order. */
  predicate IsSubsequence<T(==)>(a: seq<T>, b: seq<T>)
    decreases |b|
  {
    if a == [] then true
    else if b == [] then false
    else if a[0] == b[0] then IsSubsequence(a[1..], b[1..])
    else IsSubsequence(a, b[1..])
  }

  /** Every sequence is a subsequence of itself. */
  lemma {:induction false} SubsequenceReflexive<T>(s: seq<T>)
    ensures IsSubsequence(s, s)
  {
    if s != [] {
      SubsequenceReflexive(s[1..]);
    }
  }

  /** Whatever a subsequence holds, the sequence holds. */
  lemma {:induction false} SubsequenceMembers<T>(a: seq<T>, b: seq<T>, x: T)
    requires IsSubsequence(a, b)
    requires x in a
    ensures x in b
    decreases |b|
  {
    if a[0] == b[0] {
      if x != a[0] {
        SubsequenceMembers(a[1..], b[1..], x);
      }
    } else {
      SubsequenceMembers(a, b[1..], x);
    }
  }

  /** A subsequence of `b` is a subsequence of `b` with one more element in front. */
  lemma {:induction false} SubsequenceCons<T>(a: seq<T>, b: seq<T>, x: T)
    requires IsSubsequence(a, b)
    ensures IsSubsequence(a, [x] + b)
    decreases |b|, 1
  {
    if a != [] && a[0] == x {
      SubsequenceDropHead(a, b);
      assert ([x] + b)[1..] == b;
    } else if a != [] {
      assert ([x] + b)[1..] == b;
    }
  }

  /** Leaving out the first element of a subsequence leaves a subsequence. */
  lemma {:induction false} SubsequenceDropHead<T>(a: seq<T>, b: seq<T>)
    requires a != [] && IsSubsequence(a, b)
    ensures IsSubsequence(a[1..], b)
    decreases |b|, 0
  {
    assert b == [b[0]] + b[1..];
    if a[0] == b[0] {
      SubsequenceCons(a[1..], b[1..], b[0]);
    } else {
      SubsequenceDropHead(a, b[1..]);
      SubsequenceCons(a[1..], b[1..], b[0]);
    }
  }

  /** The keys `s` without every occurrence of `x`, the rest in order. */
  function Without(s: seq<string>, x: string): (r: seq<string>)
    ensures forall y :: y in r <==> y in s && y != x
    ensures |r| <= |s|
    ensures x !in s ==> r == s
  {
    if s == [] then []
    else if s[0] == x then Without(s[1..], x)
    else [s[0]] + Without(s[1..], x)
  }

  /** Removing an element keeps a duplicate-free sequence duplicate-free. */
  lemma {:induction false} WithoutNoDuplicates(s: seq<string>, x: string)
    requires NoDuplicates(s)
    ensures NoDuplicates(Without(s, x))
  {
    if s != [] {
      assert NoDuplicates(s[1..]) by {
        forall i, j | 0 <= i < j < |s[1..]| ensures s[1..][i] != s[1..][j] {
          assert s[1..][i] == s[i + 1] && s[1..][j] == s[j + 1];
        }
      }
      WithoutNoDuplicates(s[1..], x);
      if s[0] != x {
        var t := Without(s[1..], x);
        assert s[0] !in t;
        var r := [s[0]] + t;
        forall i, j | 0 <= i < j < |r| ensures r[i] != r[j] {
          if i == 0 {
            assert r[j] == t[j - 1] && r[j] in t;
          } else {
            assert r[i] == t[i - 1] && r[j] == t[j - 1];
          }
        }
      }
    }
  }

  /** ASCII letters: `A`–`Z` lowered, every other character unchanged. */
  function LowerChar(c: char): (r: char)
    ensures 'A' <= c <= 'Z' ==> 'a' <= r <= 'z' && r as int == c as int + 32
    ensures !('A' <= c <= 'Z') ==> r == c
  {
    if 'A' <= c <= 'Z' then (c as int - 'A' as int + 'a' as int) as char else c
  }

  /** `String.prototype.toLowerCase`, restricted to ASCII letters. */
  function ToLowerCase(s: string): (r: string)
    ensures |r| == |s|
    ensures forall i | 0 <= i < |s| :: r[i] == LowerChar(s[i])
  {
    if s == [] then [] else [LowerChar(s[0])] + ToLowerCase(s[1..])
  }

  /** `sub` occurs in `s` starting at position `i`. */
  predicate OccursAt(s: string, sub: string, i: nat) {
    i + |sub| <= |s| && s[i..i + |sub|] == sub
  }

  /** `s.includes(sub)`: `sub` occurs in `s` at some position. */
  predicate Includes(s: string, sub: string) {
    exists i: nat | i <= |s| :: OccursAt(s, sub, i)
  }

  /** Storing twice under one key keeps only the second value. */
  lemma OverwriteTwice<K, V>(m: map<K, V>, k: K, a: V, b: V)
    ensures m[k := a][k := b] == m[k := b]
  {
  }

  /** The values `m` holds under the keys `ks`, in that order: `Array.from(map.values())`
      when `ks` is the map's insertion order. */
  function ValuesAt<V>(m: map<string, V>, ks: seq<string>): (r: seq<V>)
    requires forall k | k in ks :: k in m
    ensures |r| == |ks|
    ensures forall i | 0 <= i < |ks| :: r[i] == m[ks[i]]
  {
    if ks == [] then [] else [m[ks[0]]] + ValuesAt(m, ks[1..])
  }

  /** Setting a new key and appending it to the order appends its value. */
  lemma ValuesAtExtend<V>(m: map<string, V>, ks: seq<string>, k: string, v: V)
    requires forall j | j in ks :: j in m
    requires k !in ks
    ensures ValuesAt(m[k := v], ks + [k]) == ValuesAt(m, ks) + [v]
  {
    var r := ValuesAt(m[k := v], ks + [k]);
    forall i | 0 <= i < |ks| ensures r[i] == ValuesAt(m, ks)[i] {
      assert (ks + [k])[i] == ks[i];
    }
  }

  /** An element that occurs once is counted once. */
  lemma {:induction false} NoDuplicatesCountsOnce<T>(s: seq<T>, x: T)
    requires NoDuplicates(s)
    ensures multiset(s)[x] <= 1
  {
    if s != [] {
      assert s == [s[0]] + s[1..];
      assert NoDuplicates(s[1..]) by {
        forall i, j | 0 <= i < j < |s[1..]| ensures s[1..][i] != s[1..][j] {
          assert s[1..][i] == s[i + 1] && s[1..][j] == s[j + 1];
        }
      }
      NoDuplicatesCountsOnce(s[1..], x);
      if x == s[0] {
        assert x !in s[1..] by {
          forall j | 0 <= j < |s[1..]| ensures s[1..][j] != x {
            assert s[1..][j] == s[j + 1];
          }
        }
      }
    }
  }

  /** Rearranging a duplicate-free sequence, or keeping part of it, leaves it
      duplicate-free. */
  lemma NoDuplicatesSubMultiset<T>(a: seq<T>, b: seq<T>)
    requires NoDuplicates(a)
    requires multiset(b) <= multiset(a)
    ensures NoDuplicates(b)
  {
    forall i, j | 0 <= i < j < |b| ensures b[i] != b[j] {
      if b[i] == b[j] {
        assert b == b[..i] + [b[i]] + b[i + 1..j] + [b[j]] + b[j + 1..];
        assert multiset(b)[b[i]] >= 2;
        NoDuplicatesCountsOnce(a, b[i]);
        assert false;
      }
    }
  }

  /** What a prefix leaves of a sequence, as a multiset, is the rest of it. */
  lemma MultisetOfSplit<T>(s: seq<T>, k: nat)
    requires k <= |s|
    ensures multiset(s) - multiset(s[..k]) == multiset(s[k..])
    ensures multiset(s[..k]) <= multiset(s)
  {
    assert s == s[..k] + s[k..];
  }

  /** One more element of a prefix. */
  lemma TakeOneMore<T>(s: seq<T>, i: nat)
    requires i < |s|
    ensures s[..i + 1] == s[..i] + [s[i]]
  {
  }
}
