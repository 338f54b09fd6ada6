/**
 * The client's plain records (clients, documents, tasks, calendar events,
 * spreadsheets as the store keeps them) and the list operations the store
 * and the mock API build from `find`, `findIndex`, `filter`, `map`, object
 * spread and `sort`. A record is a JavaScript object: a map from property
 * names to values, so `{ ...r, ...updates }` is a map union in which the
 * updates win.
 */
module Records {
  import opened Wrappers

  /** A property value; `Time` is a `Date` as its millisecond timestamp. */
  datatype Value =
    | Null
    | Str(s: string)
    | Number(n: real)
    | Flag(b: bool)
    | Time(ms: int)
    | Items(items: seq<Value>)

  type Record = map<string, Value>

  /** `r.id === id`. */
  predicate HasId(r: Record, id: string) {
    "id" in r && r["id"] == Str(id)
  }

  /** `r.key === s`. */
  predicate HasStr(r: Record, key: string, s: string) {
    key in r && r[key] == Str(s)
  }

  /** JavaScript truthiness of a property; a missing one is `undefined`. */
  predicate Truthy(r: Record, key: string) {
    key in r &&
    match r[key]
    case Null => false
    case Str(s) => s != []
    case Number(n) => n != 0.0
    case Flag(b) => b
    case Time(_) => true
    case Items(_) => true
  }

  /** `{ ...r, ...updates }`. */
  function Merge(r: Record, updates: Record): (m: Record)
    ensures m.Keys == r.Keys + updates.Keys
    ensures forall k :: k in updates ==> m[k] == updates[k]
    ensures forall k :: k in r && k !in updates ==> m[k] == r[k]
  {
    r + updates
  }

  /** Merging the same updates twice is merging them once. */
  lemma MergeIdempotent(r: Record, updates: Record)
    ensures Merge(Merge(r, updates), updates) == Merge(r, updates)
  {
  }

  /** The record with `updates` merged in and, when given, `updatedAt` stamped. */
  function Revise(r: Record, updates: Record, stamp: Option<int>): (v: Record)
    ensures v.Keys == r.Keys + updates.Keys + (if stamp.Some? then {"updatedAt"} else {})
    ensures forall k :: k in updates && (stamp.None? || k != "updatedAt") ==> v[k] == updates[k]
    ensures forall k :: k in r && k !in updates && (stamp.None? || k != "updatedAt") ==> v[k] == r[k]
    ensures stamp.Some? ==> UpdatedTime(v) == stamp.value
  {
    var merged := Merge(r, updates);
    if stamp.Some? then merged["updatedAt" := Time(stamp.value)] else merged
  }

  /** `xs.filter(x => x.id !== id)`. */
  function WithoutId(xs: seq<Record>, id: string): (r: seq<Record>)
    ensures |r| <= |xs|
    ensures forall x :: x in r <==> x in xs && !HasId(x, id)
  {
    if xs == [] then []
    else
      var rest := WithoutId(xs[1..], id);
      assert xs == [xs[0]] + xs[1..];
      if HasId(xs[0], id) then rest else [xs[0]] + rest
  }

  /** `a` is `b` with some entries left out, the others in their order. */
  predicate Subsequence(a: seq<Record>, b: seq<Record>)
    decreases |b|
  {
    if a == [] then true
    else if b == [] then false
    else if a[0] == b[0] then Subsequence(a[1..], b[1..])
    else Subsequence(a, b[1..])
  }

  /**
   * Filtering by id keeps every other entry exactly as often as before and
   * in the same order, and no entry with that id.
   */
  lemma {:induction false} WithoutIdKeepsOthers(xs: seq<Record>, id: string)
    ensures Subsequence(WithoutId(xs, id), xs)
    ensures forall x :: !HasId(x, id) ==> multiset(WithoutId(xs, id))[x] == multiset(xs)[x]
    ensures forall x :: HasId(x, id) ==> multiset(WithoutId(xs, id))[x] == 0
    decreases |xs|
  {
    if xs != [] {
      WithoutIdKeepsOthers(xs[1..], id);
      assert xs == [xs[0]] + xs[1..];
      var rest := WithoutId(xs[1..], id);
      if !HasId(xs[0], id) {
        assert ([xs[0]] + rest)[1..] == rest;
      }
    }
  }

  /** Filtering changes the list exactly when some entry has the id. */
  lemma {:induction false} WithoutIdUnchanged(xs: seq<Record>, id: string)
    ensures WithoutId(xs, id) == xs <==> forall x :: x in xs ==> !HasId(x, id)
    decreases |xs|
  {
    if xs != [] {
      WithoutIdUnchanged(xs[1..], id);
      assert xs == [xs[0]] + xs[1..];
      if HasId(xs[0], id) {
        assert |WithoutId(xs, id)| < |xs| by {
          assert |WithoutId(xs[1..], id)| <= |xs[1..]|;
        }
      }
    }
  }

  /** `xs.map(x => x.id === id ? revised(x) : x)`. */
  function UpdateId(xs: seq<Record>, id: string, updates: Record, stamp: Option<int>): (r: seq<Record>)
    ensures |r| == |xs|
    ensures forall i :: 0 <= i < |xs| && HasId(xs[i], id) ==> r[i] == Revise(xs[i], updates, stamp)
    ensures forall i :: 0 <= i < |xs| && !HasId(xs[i], id) ==> r[i] == xs[i]
  {
    if xs == [] then []
    else
      var head := if HasId(xs[0], id) then Revise(xs[0], updates, stamp) else xs[0];
      var rest := UpdateId(xs[1..], id, updates, stamp);
      var r := [head] + rest;
      assert forall i :: 1 <= i < |xs| ==> xs[i] == xs[1..][i - 1] && r[i] == rest[i - 1];
      assert forall i :: 0 <= i < |xs| && HasId(xs[i], id) ==> r[i] == Revise(xs[i], updates, stamp);
      r
  }

  /** An id that no entry has leaves the list as it is. */
  lemma UpdateIdAbsent(xs: seq<Record>, id: string, updates: Record, stamp: Option<int>)
    requires forall x :: x in xs ==> !HasId(x, id)
    ensures UpdateId(xs, id, updates, stamp) == xs
  {
    var r := UpdateId(xs, id, updates, stamp);
    assert forall i :: 0 <= i < |xs| ==> r[i] == xs[i] by {
      forall i | 0 <= i < |xs| ensures r[i] == xs[i] {
        assert xs[i] in xs;
      }
    }
  }

  /** Applying the same update twice is applying it once. */
  lemma UpdateIdIdempotent(xs: seq<Record>, id: string, updates: Record, stamp: Option<int>)
    ensures UpdateId(UpdateId(xs, id, updates, stamp), id, updates, stamp) == UpdateId(xs, id, updates, stamp)
  {
    var once := UpdateId(xs, id, updates, stamp);
    var twice := UpdateId(once, id, updates, stamp);
    forall i | 0 <= i < |xs| ensures twice[i] == once[i] {
      if HasId(xs[i], id) {
        ReviseTwice(xs[i], updates, stamp);
      }
    }
  }

  /** Revising a record twice with the same updates and stamp is revising it once. */
  lemma ReviseTwice(r: Record, updates: Record, stamp: Option<int>)
    ensures Revise(Revise(r, updates, stamp), updates, stamp) == Revise(r, updates, stamp)
  {
    var m := Merge(r, updates);
    if stamp.Some? {
      var t := Time(stamp.value);
      var once := m["updatedAt" := t];
      assert Merge(once, updates)["updatedAt" := t] == once;
    } else {
      MergeIdempotent(r, updates);
    }
  }

  /** `xs.findIndex(x => x.id === id)`, `None` for -1. */
  function FirstIndex(xs: seq<Record>, id: string): (r: Option<nat>)
    ensures r.Some? ==> r.value < |xs| && HasId(xs[r.value], id)
    ensures r.Some? ==> forall j :: 0 <= j < r.value ==> !HasId(xs[j], id)
    ensures r.None? <==> forall x :: x in xs ==> !HasId(x, id)
  {
    if xs == [] then None
    else if HasId(xs[0], id) then Some(0)
    else
      assert xs == [xs[0]] + xs[1..];
      match FirstIndex(xs[1..], id)
      case None => None
      case Some(i) => Some(i + 1)
  }

  /** `xs.find(x => x.id === id)`. */
  function FindById(xs: seq<Record>, id: string): (r: Option<Record>)
    ensures r.Some? <==> exists x :: x in xs && HasId(x, id)
    ensures r.Some? ==> HasId(r.value, id)
    ensures r.Some? ==>
      exists i :: 0 <= i < |xs| && xs[i] == r.value && forall j :: 0 <= j < i ==> !HasId(xs[j], id)
  {
    match FirstIndex(xs, id)
    case None => None
    case Some(i) => Some(xs[i])
  }

  /** `xs.splice(i, 1)`. */
  function RemoveAt(xs: seq<Record>, i: nat): (r: seq<Record>)
    requires i < |xs|
    ensures |r| == |xs| - 1
    ensures multiset(r) == multiset(xs) - multiset{xs[i]}
  {
    assert xs == xs[..i] + [xs[i]] + xs[i + 1..];
    xs[..i] + xs[i + 1..]
  }

  /** The conditions the counts are taken over. */
  datatype Criterion =
    | StatusIs(status: string)
    | StatusIsNot(status: string)
    | Falsy(key: string)
    | DueWithin(now: int, span: int)
    | IdIs(id: string)

  predicate Meets(r: Record, c: Criterion) {
    match c
    case StatusIs(s) => HasStr(r, "status", s)
    case StatusIsNot(s) => !HasStr(r, "status", s)
    case Falsy(key) => !Truthy(r, key)
    case DueWithin(now, span) =>
      Truthy(r, "dueDate") && r["dueDate"].Time? && now < r["dueDate"].ms < now + span
    case IdIs(id) => HasId(r, id)
  }

  /** A due date that is a `Date` is truthy, so a record is due within the span exactly when its date lies in it. */
  lemma DueWithinMeets(r: Record, now: int, span: int)
    ensures Meets(r, DueWithin(now, span)) <==>
      "dueDate" in r && r["dueDate"].Time? && now < r["dueDate"].ms < now + span
  {
  }

  /** `xs.filter(x => meets(x)).length`. */
  function Count(xs: seq<Record>, c: Criterion): (n: nat)
    ensures n <= |xs|
    ensures n == 0 <==> forall x :: x in xs ==> !Meets(x, c)
    ensures n == |xs| <==> forall x :: x in xs ==> Meets(x, c)
  {
    if xs == [] then 0
    else
      assert xs == [xs[0]] + xs[1..];
      (if Meets(xs[0], c) then 1 else 0) + Count(xs[1..], c)
  }

  /** Counting over a concatenation adds the counts. */
  lemma {:induction false} CountAppend(xs: seq<Record>, ys: seq<Record>, c: Criterion)
    ensures Count(xs + ys, c) == Count(xs, c) + Count(ys, c)
    decreases |xs|
  {
    if xs == [] {
      assert xs + ys == ys;
    } else {
      assert (xs + ys)[0] == xs[0];
      assert (xs + ys)[1..] == xs[1..] + ys;
      CountAppend(xs[1..], ys, c);
    }
  }

  /** Every record has a status equal to `s` or not: the two counts partition the list. */
  lemma {:induction false} StatusCountsPartition(xs: seq<Record>, s: string)
    ensures Count(xs, StatusIs(s)) + Count(xs, StatusIsNot(s)) == |xs|
    decreases |xs|
  {
    if xs != [] {
      StatusCountsPartition(xs[1..], s);
    }
  }

  /** `new Date(r.updatedAt).getTime()` for a record whose `updatedAt` is a `Date`, 0 otherwise. */
  function UpdatedTime(r: Record): int {
    if "updatedAt" in r && r["updatedAt"].Time? then r["updatedAt"].ms else 0
  }

  /** Most recently updated first. */
  predicate NewestFirst(xs: seq<Record>) {
    forall i, j :: 0 <= i < j < |xs| ==> UpdatedTime(xs[i]) >= UpdatedTime(xs[j])
  }

  /** Puts `x` before the first entry that is not newer; ties keep `x` first, as a stable sort does. */
  function InsertByRecency(x: Record, sorted: seq<Record>): (r: seq<Record>)
    ensures multiset(r) == multiset(sorted) + multiset{x}
    ensures |r| == |sorted| + 1
  {
    if sorted == [] || UpdatedTime(sorted[0]) <= UpdatedTime(x) then
      [x] + sorted
    else
      assert sorted == [sorted[0]] + sorted[1..];
      [sorted[0]] + InsertByRecency(x, sorted[1..])
  }

  /** No entry is newer than `t`. */
  predicate NoneNewer(xs: seq<Record>, t: int) {
    forall k :: 0 <= k < |xs| ==> UpdatedTime(xs[k]) <= t
  }

  /** Entries are entries whatever their order. */
  lemma NoneNewerPermuted(a: seq<Record>, b: seq<Record>, t: int)
    requires multiset(a) == multiset(b) && NoneNewer(b, t)
    ensures NoneNewer(a, t)
  {
    forall k | 0 <= k < |a| ensures UpdatedTime(a[k]) <= t {
      assert a[k] in multiset(b);
      var j :| 0 <= j < |b| && b[j] == a[k];
    }
  }

  /** A newest-first list stays so with an entry in front that none is newer than. */
  lemma ConsNewestFirst(h: Record, rest: seq<Record>)
    requires NewestFirst(rest) && NoneNewer(rest, UpdatedTime(h))
    ensures NewestFirst([h] + rest)
  {
    var r := [h] + rest;
    forall i, j | 0 <= i < j < |r| ensures UpdatedTime(r[i]) >= UpdatedTime(r[j]) {
      assert r[j] == rest[j - 1];
      if i > 0 {
        assert r[i] == rest[i - 1];
      }
    }
  }

  /** The entries after the head of a newest-first list, and `x` when it is older, are none newer than the head. */
  lemma TailNoneNewer(sorted: seq<Record>, x: Record)
    requires sorted != [] && NewestFirst(sorted) && UpdatedTime(x) < UpdatedTime(sorted[0])
    ensures NoneNewer(sorted[1..] + [x], UpdatedTime(sorted[0]))
  {
    var a := sorted[1..] + [x];
    forall k | 0 <= k < |a| ensures UpdatedTime(a[k]) <= UpdatedTime(sorted[0]) {
      if k < |sorted| - 1 {
        assert a[k] == sorted[k + 1];
      }
    }
  }

  /** Inserting into a list sorted newest first keeps it sorted. */
  lemma {:induction false} InsertKeepsOrder(x: Record, sorted: seq<Record>)
    requires NewestFirst(sorted)
    ensures NewestFirst(InsertByRecency(x, sorted))
    decreases |sorted|
  {
    if !(sorted == [] || UpdatedTime(sorted[0]) <= UpdatedTime(x)) {
      var tail := sorted[1..];
      var rest := InsertByRecency(x, tail);
      assert NewestFirst(tail);
      InsertKeepsOrder(x, tail);
      var t := UpdatedTime(sorted[0]);
      TailNoneNewer(sorted, x);
      assert multiset(tail + [x]) == multiset(tail) + multiset{x};
      NoneNewerPermuted(rest, tail + [x], t);
      ConsNewestFirst(sorted[0], rest);
    }
  }

  /**
   * `[...xs].sort((a, b) => time(b) - time(a))`: a stable sort, newest first,
   * of a copy.
   */
  function SortByRecency(xs: seq<Record>): (r: seq<Record>)
    ensures multiset(r) == multiset(xs)
    ensures |r| == |xs|
    ensures NewestFirst(r)
  {
    if xs == [] then []
    else
      assert xs == [xs[0]] + xs[1..];
      var sorted := SortByRecency(xs[1..]);
      InsertKeepsOrder(xs[0], sorted);
      InsertByRecency(xs[0], sorted)
  }

  /** The end index of `slice(0, limit)` on `n` entries: a negative limit counts from the end. */
  function SliceEnd(n: nat, limit: int): (e: nat)
    ensures e <= n
    ensures limit >= 0 ==> e == if limit < n then limit else n
    ensures limit < 0 ==> e == if n + limit > 0 then n + limit else 0
  {
    if limit >= 0 then (if limit < n then limit else n)
    else if n + limit > 0 then n + limit else 0
  }
}
