/**
 The shared key-value table (store/kv.go). Each SQL statement is one atomic step on a map from key
 to value and write second; the class runs the statements on its `table` field, and the functions
 beside it say what each statement does to a table.
 */
module Kv {
  import opened Wrappers
  import opened Time

  /** A stored row; `updated` is SQLite's second-resolution `updated_at`. */
  datatype Row<+V> = Row(value: V, updated: int)

  type Table<V> = map<string, Row<V>>

  /** How a statement can go wrong: the driver reports an error, either before the statement took
      effect or after it did (a cancelled context on the way back). */
  datatype Fault = NoFault | FailedBefore | FailedAfter

  datatype KvError = KvError

  function Lookup<V>(t: Table<V>, key: string): (r: Option<V>)
    ensures r.Some? <==> key in t
    ensures r.Some? ==> r.value == t[key].value
  {
    if key in t then Some(t[key].value) else None
  }

  /** `t` and `t'` have the same row, or none, under `key`. */
  predicate SameRow<V(==)>(t: Table<V>, t': Table<V>, key: string) {
    (key in t <==> key in t') && (key in t ==> t'[key] == t[key])
  }

  function Put<V>(t: Table<V>, key: string, value: V, second: int): Table<V> {
    t[key := Row(value, second)]
  }

  function Remove<V>(t: Table<V>, key: string): Table<V> {
    t - {key}
  }

  // ---------------------------------------------------------------------------------------------
  // SQLite's LIKE
  // ---------------------------------------------------------------------------------------------

  /** LIKE folds ASCII letters, and only those. */
  function Fold(c: char): char {
    if 'A' <= c <= 'Z' then c + ' ' else c
  }

  /** SQLite's `s LIKE p`: `%` matches any run, `_` any one character. */
  predicate Like(p: string, s: string)
    decreases |p| + |s|
  {
    if p == "" then s == ""
    else if p[0] == '%' then Like(p[1..], s) || (s != "" && Like(p, s[1..]))
    else s != "" && (p[0] == '_' || Fold(p[0]) == Fold(s[0])) && Like(p[1..], s[1..])
  }

  predicate NoWildcards(p: string) {
    '%' !in p && '_' !in p
  }

  /** The keys `LIKE prefix || '%'` reaches when the prefix is literal: those starting with it
      up to ASCII case. */
  predicate StartsWithFolded(prefix: string, s: string) {
    |prefix| <= |s| && forall i :: 0 <= i < |prefix| ==> Fold(prefix[i]) == Fold(s[i])
  }

  lemma {:induction false} PercentMatchesAll(s: string)
    ensures Like("%", s)
  {
    if s != "" {
      PercentMatchesAll(s[1..]);
    }
  }

  /** The statement documented as "every key under prefix" reaches exactly the keys that start with
      the prefix up to ASCII case, provided the prefix has no wildcard of its own. */
  lemma {:induction false} LikePrefix(prefix: string, s: string)
    requires NoWildcards(prefix)
    ensures Like(prefix + "%", s) <==> StartsWithFolded(prefix, s)
  {
    if prefix == "" {
      assert prefix + "%" == "%";
      PercentMatchesAll(s);
    } else {
      assert (prefix + "%")[1..] == prefix[1..] + "%";
      if s != "" {
        LikePrefix(prefix[1..], s[1..]);
        if StartsWithFolded(prefix, s) {
          forall i | 0 <= i < |prefix[1..]| ensures Fold(prefix[1..][i]) == Fold(s[1..][i]) {
            assert prefix[1..][i] == prefix[i + 1] && s[1..][i] == s[i + 1];
          }
        }
        if Fold(prefix[0]) == Fold(s[0]) && StartsWithFolded(prefix[1..], s[1..]) {
          forall i | 0 <= i < |prefix| ensures Fold(prefix[i]) == Fold(s[i]) {
            assert i > 0 ==> prefix[i] == prefix[1..][i - 1] && s[i] == s[1..][i - 1];
          }
        }
      }
    }
  }

  predicate Letter(c: char) {
    'A' <= c <= 'Z' || 'a' <= c <= 'z'
  }

  function SwapCase(c: char): char
    requires Letter(c)
  {
    if c <= 'Z' then c + ' ' else c - ' '
  }

  /** The pattern with each wildcard replaced by an ordinary character. */
  function Tamed(p: string): (s: string)
    ensures |s| == |p|
    ensures forall i :: 0 <= i < |p| ==> s[i] == if p[i] == '%' || p[i] == '_' then 'x' else p[i]
  {
    if p == "" then "" else [if p[0] == '%' || p[0] == '_' then 'x' else p[0]] + Tamed(p[1..])
  }

  lemma {:induction false} WildcardsMatchTheTamed(p: string)
    ensures Like(p + "%", Tamed(p))
  {
    if p != "" {
      var s := Tamed(p);
      assert (p + "%")[1..] == p[1..] + "%" && s[1..] == Tamed(p[1..]);
      WildcardsMatchTheTamed(p[1..]);
      if p[0] == '%' {
        PercentTakesOne(p + "%", s);
      }
    } else {
      assert p + "%" == "%";
    }
  }

  lemma PercentTakesOne(p: string, s: string)
    requires p != "" && p[0] == '%' && s != "" && Like(p[1..], s[1..])
    ensures Like(p, s)
  {
    assert Like(p, s[1..]);
  }

  predicate NoLetters(p: string) {
    forall i :: 0 <= i < |p| ==> !Letter(p[i])
  }

  /** The statement for `prefix` reaches `s`, which does not start with it. */
  predicate Strays(prefix: string, s: string) {
    Like(prefix + "%", s) && !(prefix <= s)
  }

  lemma WildcardStrays(prefix: string)
    requires !NoWildcards(prefix)
    ensures Strays(prefix, Tamed(prefix))
  {
    WildcardsMatchTheTamed(prefix);
    var i :| 0 <= i < |prefix| && (prefix[i] == '%' || prefix[i] == '_');
    assert Tamed(prefix)[i] != prefix[i];
  }

  lemma LetterStrays(prefix: string, i: nat)
    requires NoWildcards(prefix) && i < |prefix| && Letter(prefix[i])
    ensures Strays(prefix, prefix[i := SwapCase(prefix[i])])
  {
    var s := prefix[i := SwapCase(prefix[i])];
    assert s[i] != prefix[i];
    assert StartsWithFolded(prefix, s);
    LikePrefix(prefix, s);
  }

  lemma OtherwiseNoneStrays(prefix: string, s: string)
    requires NoWildcards(prefix) && NoLetters(prefix)
    ensures !Strays(prefix, s)
  {
    LikePrefix(prefix, s);
    if StartsWithFolded(prefix, s) {
      forall i | 0 <= i < |prefix| ensures prefix[i] == s[i] {
        assert !Letter(prefix[i]) && Fold(prefix[i]) == Fold(s[i]);
      }
    }
  }

  /** Whatever the prefix, the statement reaches only keys that really start with it exactly when the
      prefix has no wildcard, which the statement does not escape, and no ASCII letter. "webauth:nonce:"
      has letters, so a sweep of it would also take a key "WEBAUTH:NONCE:x". */
  lemma SweepReachesOnlyThePrefix(prefix: string)
    ensures (forall s: string :: !Strays(prefix, s)) <==> NoWildcards(prefix) && NoLetters(prefix)
  {
    if !NoWildcards(prefix) {
      WildcardStrays(prefix);
    } else if i: nat :| i < |prefix| && Letter(prefix[i]) {
      LetterStrays(prefix, i);
    } else {
      forall s: string ensures !Strays(prefix, s) {
        OtherwiseNoneStrays(prefix, s);
      }
    }
  }

  // ---------------------------------------------------------------------------------------------
  // The sweep
  // ---------------------------------------------------------------------------------------------

  /** `int64(age.Seconds())`: truncated toward zero. */
  function AgeSeconds(age: int): int {
    if age >= 0 then age / SECOND else -((-age) / SECOND)
  }

  /** `updated_at < datetime('now', '-age seconds')`, compared in whole seconds. A negative age makes
      the modifier "--n seconds", for which datetime is NULL and the comparison never true. */
  predicate Stale(updated: int, age: int, second: int) {
    AgeSeconds(age) >= 0 && updated < second - AgeSeconds(age)
  }

  /** What the statement removes, in its own terms: rows it reaches that were written more than `age` ago,
      in whole seconds; nothing at all for an age of minus a second or less. */
  predicate Swept<V>(t: Table<V>, prefix: string, age: int, second: int, key: string) {
    key in t && Like(prefix + "%", key)
    && age > -1_000_000_000 && t[key].updated < second - (if age >= 0 then age / 1_000_000_000 else 0)
  }

  function Sweep<V>(t: Table<V>, prefix: string, age: int, second: int): Table<V> {
    map k | k in t && !(Like(prefix + "%", k) && Stale(t[k].updated, age, second)) :: t[k]
  }

  /** The shared store. `second` is SQLite's `now` when the statement runs. */
  class KV {
    var table: Table<string>

    constructor ()
      ensures table == map[]
    {
      table := map[];
    }

    method Get(key: string, fault: Fault) returns (r: Result<Option<string>, KvError>)
      ensures fault == NoFault ==> r == Ok(Lookup(table, key))
      ensures fault != NoFault ==> r.Err?
    {
      if fault != NoFault {
        return Err(KvError);
      }
      r := Ok(Lookup(table, key));
    }

    method Set(key: string, value: string, second: int, fault: Fault) returns (r: Result<(), KvError>)
      modifies this
      ensures table == if fault == FailedBefore then old(table) else Put(old(table), key, value, second)
      ensures forall k :: k != key ==> SameRow(old(table), table, k)
      ensures fault != FailedBefore ==> key in table && table[key] == Row(value, second)
      ensures r.Ok? <==> fault == NoFault
    {
      if fault == FailedBefore {
        return Err(KvError);
      }
      table := table[key := Row(value, second)];
      r := if fault == NoFault then Ok(()) else Err(KvError);
    }

    /** Reads and removes in one statement: when it reports a value the key is gone. */
    method Consume(key: string, fault: Fault) returns (r: Result<Option<string>, KvError>)
      modifies this
      ensures table == if fault == FailedBefore then old(table) else Remove(old(table), key)
      ensures forall k :: k != key ==> SameRow(old(table), table, k)
      ensures fault != FailedBefore ==> key !in table
      ensures fault == NoFault ==> r == Ok(Lookup(old(table), key))
      ensures fault != NoFault ==> r.Err?
    {
      if fault == FailedBefore {
        return Err(KvError);
      }
      var found := Lookup(table, key);
      table := table - {key};
      r := if fault == NoFault then Ok(found) else Err(KvError);
    }

    method Delete(key: string, fault: Fault) returns (r: Result<(), KvError>)
      modifies this
      ensures table == if fault == FailedBefore then old(table) else Remove(old(table), key)
      ensures forall k :: k != key ==> SameRow(old(table), table, k)
      ensures fault != FailedBefore ==> key !in table
      ensures r.Ok? <==> fault == NoFault
    {
      if fault == FailedBefore {
        return Err(KvError);
      }
      table := table - {key};
      r := if fault == NoFault then Ok(()) else Err(KvError);
    }

    /** Removes stale rows and reports how many went; a failed count after a successful delete is
        reported as zero, not as an error. */
    method DeleteExpired(prefix: string, age: int, second: int, fault: Fault, countFails: bool)
      returns (r: Result<int, KvError>)
      modifies this
      ensures table == if fault == FailedBefore then old(table) else Sweep(old(table), prefix, age, second)
      ensures fault != FailedBefore ==> forall k :: Swept(old(table), prefix, age, second, k) ==> k !in table
      ensures forall k :: !Swept(old(table), prefix, age, second, k) ==> SameRow(old(table), table, k)
      ensures fault != NoFault ==> r.Err?
      ensures fault == NoFault ==> r == Ok(if countFails then 0 else |old(table)| - |table|)
    {
      if fault == FailedBefore {
        return Err(KvError);
      }
      var before := |table|;
      table := Sweep(table, prefix, age, second);
      if fault == FailedAfter {
        return Err(KvError);
      }
      r := Ok(if countFails then 0 else before - |table|);
    }
  }
}
