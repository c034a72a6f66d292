/** A vote table: a sequence of records, each filed under the
    (question, author) pair that `keyOf` reads from it. The two vote handlers
    (survey/views.py) write to such a table with the same get-or-create
    pattern, modelled once here as `Upsert`. */
module Votes {
  import opened Results
  import opened Models

  /** The (question, author) pair a vote is filed under. */
  type VoteKey = (QuestionId, UserId)

  /** At most one record per (question, author) pair. */
  predicate UniqueKeys<T>(s: seq<T>, keyOf: T -> VoteKey) {
    forall i, j :: 0 <= i < j < |s| ==> keyOf(s[i]) != keyOf(s[j])
  }

  /** Overwriting a record's value leaves its (question, author) pair alone. */
  ghost predicate KeepsKey<T(!new)>(keyOf: T -> VoteKey, overwrite: T -> T) {
    forall t :: keyOf(overwrite(t)) == keyOf(t)
  }

  /** The position of the first record filed under `k`, if any
      (the lookup `objects.get(question=..., author=...)`). */
  function FindIndex<T>(s: seq<T>, keyOf: T -> VoteKey, k: VoteKey): (r: Option<nat>)
    ensures r.Some? ==> r.value < |s| && keyOf(s[r.value]) == k
    ensures r.Some? ==> forall j :: 0 <= j < r.value ==> keyOf(s[j]) != k
    ensures r.None? <==> forall j :: 0 <= j < |s| ==> keyOf(s[j]) != k
  {
    if |s| == 0 then None
    else if keyOf(s[0]) == k then Some(0)
    else match FindIndex(s[1..], keyOf, k)
      case None => None
      case Some(i) => Some(i + 1)
  }

  /** The records filed under `k`, in table order
      (the query `objects.filter(question=..., author=...)`). */
  function RecordsFor<T>(s: seq<T>, keyOf: T -> VoteKey, k: VoteKey): (r: seq<T>)
    ensures |r| <= |s|
    ensures forall i :: 0 <= i < |r| ==> keyOf(r[i]) == k
    decreases |s|
  {
    if |s| == 0 then []
    else RecordsFor(s[..|s| - 1], keyOf, k) + (if keyOf(s[|s| - 1]) == k then [s[|s| - 1]] else [])
  }

  /** Overwrite the record filed under `k`, or add `created` at the end when
      there is none. */
  function Upsert<T>(s: seq<T>, keyOf: T -> VoteKey, k: VoteKey, overwrite: T -> T, created: T): seq<T> {
    match FindIndex(s, keyOf, k)
    case Some(i) => s[i := overwrite(s[i])]
    case None => s + [created]
  }

  /** The record `Upsert` leaves filed under `k`. */
  function Written<T>(s: seq<T>, keyOf: T -> VoteKey, k: VoteKey, overwrite: T -> T, created: T): T {
    match FindIndex(s, keyOf, k)
    case Some(i) => overwrite(s[i])
    case None => created
  }

  /** The first record filed under `k` is the one `FindIndex` finds. */
  lemma FindIndexIsFirst<T>(s: seq<T>, keyOf: T -> VoteKey, k: VoteKey, i: nat)
    requires i < |s| && keyOf(s[i]) == k
    requires forall j :: 0 <= j < i ==> keyOf(s[j]) != k
    ensures FindIndex(s, keyOf, k) == Some(i)
  {
  }

  lemma {:induction false} RecordsForNone<T>(s: seq<T>, keyOf: T -> VoteKey, k: VoteKey)
    requires forall j :: 0 <= j < |s| ==> keyOf(s[j]) != k
    ensures RecordsFor(s, keyOf, k) == []
    decreases |s|
  {
    if |s| > 0 {
      RecordsForNone(s[..|s| - 1], keyOf, k);
    }
  }

  /** Replacing a record by one with the same key leaves the records of every
      other key as they were. */
  lemma {:induction false} RecordsForUpdate<T>(s: seq<T>, keyOf: T -> VoteKey, i: nat, t: T, k: VoteKey)
    requires i < |s| && keyOf(t) == keyOf(s[i]) && keyOf(s[i]) != k
    ensures RecordsFor(s[i := t], keyOf, k) == RecordsFor(s, keyOf, k)
    decreases |s|
  {
    var n := |s|;
    if i < n - 1 {
      assert s[i := t][..n - 1] == s[..n - 1][i := t];
      RecordsForUpdate(s[..n - 1], keyOf, i, t, k);
    } else {
      assert s[i := t][..n - 1] == s[..n - 1];
    }
  }

  /** In a table with unique keys, the records filed under a present key are
      that one record. */
  lemma {:induction false} RecordsForUnique<T>(s: seq<T>, keyOf: T -> VoteKey, i: nat)
    requires UniqueKeys(s, keyOf) && i < |s|
    ensures RecordsFor(s, keyOf, keyOf(s[i])) == [s[i]]
    decreases |s|
  {
    var n := |s|;
    var p := s[..n - 1];
    if i == n - 1 {
      RecordsForNone(p, keyOf, keyOf(s[i]));
    } else {
      RecordsForUnique(p, keyOf, i);
    }
  }

  /** After an upsert there is exactly one record filed under `k`: the
      overwritten one, or the created one. */
  lemma UpsertSingleRecord<T(!new)>(s: seq<T>, keyOf: T -> VoteKey, k: VoteKey, overwrite: T -> T, created: T)
    requires UniqueKeys(s, keyOf) && KeepsKey(keyOf, overwrite) && keyOf(created) == k
    ensures RecordsFor(Upsert(s, keyOf, k, overwrite, created), keyOf, k) == [Written(s, keyOf, k, overwrite, created)]
  {
    UpsertPreservesUnique(s, keyOf, k, overwrite, created);
    var r := Upsert(s, keyOf, k, overwrite, created);
    match FindIndex(s, keyOf, k)
    case Some(i) =>
      RecordsForUnique(r, keyOf, i);
    case None =>
      assert r[..|r| - 1] == s;
      RecordsForNone(s, keyOf, k);
  }

  /** An upsert under `k` leaves the records of every other key unchanged. */
  lemma UpsertKeepsOtherKeys<T(!new)>(s: seq<T>, keyOf: T -> VoteKey, k: VoteKey, overwrite: T -> T, created: T, other: VoteKey)
    requires KeepsKey(keyOf, overwrite) && keyOf(created) == k && other != k
    ensures RecordsFor(Upsert(s, keyOf, k, overwrite, created), keyOf, other) == RecordsFor(s, keyOf, other)
  {
    var r := Upsert(s, keyOf, k, overwrite, created);
    match FindIndex(s, keyOf, k)
    case Some(i) =>
      RecordsForUpdate(s, keyOf, i, overwrite(s[i]), other);
    case None =>
      assert r[..|r| - 1] == s;
  }

  /** An upsert keeps the table free of duplicate (question, author) pairs. */
  lemma UpsertPreservesUnique<T(!new)>(s: seq<T>, keyOf: T -> VoteKey, k: VoteKey, overwrite: T -> T, created: T)
    requires UniqueKeys(s, keyOf) && KeepsKey(keyOf, overwrite) && keyOf(created) == k
    ensures UniqueKeys(Upsert(s, keyOf, k, overwrite, created), keyOf)
  {
    var r := Upsert(s, keyOf, k, overwrite, created);
    match FindIndex(s, keyOf, k)
    case Some(i) =>
      assert forall j :: 0 <= j < |r| ==> keyOf(r[j]) == keyOf(s[j]);
    case None =>
      assert forall j :: 0 <= j < |s| ==> r[j] == s[j];
  }

  /** A second upsert under the same key replaces what the first one wrote,
      so re-submitting a vote overwrites it and never adds a record. */
  lemma UpsertTwice<T(!new)>(s: seq<T>, keyOf: T -> VoteKey, k: VoteKey,
                       first: T -> T, firstCreated: T, second: T -> T, secondCreated: T)
    requires KeepsKey(keyOf, first) && keyOf(firstCreated) == k
    requires forall t :: second(first(t)) == second(t)
    requires second(firstCreated) == secondCreated
    ensures Upsert(Upsert(s, keyOf, k, first, firstCreated), keyOf, k, second, secondCreated)
         == Upsert(s, keyOf, k, second, secondCreated)
  {
    var s1 := Upsert(s, keyOf, k, first, firstCreated);
    match FindIndex(s, keyOf, k)
    case Some(i) =>
      assert forall j :: 0 <= j < i ==> s1[j] == s[j];
      assert keyOf(s1[i]) == keyOf(first(s[i]));
      FindIndexIsFirst(s1, keyOf, k, i);
      assert s1[i := second(s1[i])] == s[i := second(s[i])];
    case None =>
      assert forall j :: 0 <= j < |s| ==> s1[j] == s[j];
      FindIndexIsFirst(s1, keyOf, k, |s|);
  }
}
