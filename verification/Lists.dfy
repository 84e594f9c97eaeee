/**
 The id lists of a session: order-preserving union and removal, and Python's
 `sorted({...})` over strings, which the activity log uses as a canonical form.
 */
module Lists {

  predicate NoDup<T(==)>(s: seq<T>) {
    forall i, j :: 0 <= i < j < |s| ==> s[i] != s[j]
  }

  /** In the order of their first occurrence in `ids`, each once. */
  ghost predicate FirstCome(found: seq<string>, ids: seq<string>) {
    NoDup(found) && forall i, j :: 0 <= i < j < |found| ==> Before(found[i], found[j], ids)
  }

  /** `x` occurs before the first `y`. */
  ghost predicate Before(x: string, y: string, ids: seq<string>) {
    exists k :: 0 <= k < |ids| && ids[k] == x && y !in ids[..k + 1]
  }

  /** `now` is `was` at the increasing places `at`. */
  ghost predicate PickedAt<T>(now: seq<T>, was: seq<T>, at: seq<nat>) {
    && |at| == |now|
    && (forall i :: 0 <= i < |at| ==> at[i] < |was| && now[i] == was[at[i]])
    && (forall i, j :: 0 <= i < j < |at| ==> at[i] < at[j])
  }

  /** Exactly the items that `keep` holds of, each as often as before and in order. */
  ghost predicate Kept<T>(now: seq<T>, was: seq<T>, keep: T -> bool) {
    exists at :: PickedAt(now, was, at) && forall k :: 0 <= k < |was| ==> (k in at <==> keep(was[k]))
  }

  /** Appends the items of `incoming` that are not there yet, in order. */
  function Union(existing: seq<string>, incoming: seq<string>): seq<string>
    decreases |incoming|
  {
    if incoming == [] then existing
    else if incoming[0] in existing then Union(existing, incoming[1..])
    else Union(existing + [incoming[0]], incoming[1..])
  }

  lemma {:induction false} UnionFacts(existing: seq<string>, incoming: seq<string>)
    ensures forall x :: x in Union(existing, incoming) <==> x in existing || x in incoming
    ensures existing <= Union(existing, incoming)
    ensures NoDup(existing) ==> NoDup(Union(existing, incoming))
    decreases |incoming|
  {
    if incoming != [] {
      UnionFacts(if incoming[0] in existing then existing else existing + [incoming[0]], incoming[1..]);
    }
  }

  /** The items of `existing` that are not to be removed, in order. */
  function RemoveAll(existing: seq<string>, removals: seq<string>): seq<string> {
    Select(existing, Outside(removals))
  }

  function Outside(drop: seq<string>): string -> bool {
    x => x !in drop
  }

  lemma RemoveAllFacts(existing: seq<string>, removals: seq<string>)
    ensures forall x :: x in RemoveAll(existing, removals) <==> x in existing && x !in removals
    ensures NoDup(existing) ==> NoDup(RemoveAll(existing, removals))
  {
    SelectFacts(existing, Outside(removals));
  }

  function Select<T>(s: seq<T>, keep: T -> bool): seq<T> {
    if s == [] then []
    else if keep(s[0]) then [s[0]] + Select(s[1..], keep)
    else Select(s[1..], keep)
  }

  lemma {:induction false} SelectFacts<T>(s: seq<T>, keep: T -> bool)
    ensures forall x :: x in Select(s, keep) <==> x in s && keep(x)
    ensures NoDup(s) ==> NoDup(Select(s, keep))
    ensures |Select(s, keep)| <= |s|
  {
    if s != [] {
      SelectFacts(s[1..], keep);
      assert forall x :: x in s <==> x == s[0] || x in s[1..];
    }
  }

  /** What is selected keeps its order: the places it has in the list. */
  lemma {:induction false} SelectIndices<T>(s: seq<T>, keep: T -> bool) returns (at: seq<nat>)
    ensures PickedAt(Select(s, keep), s, at)
    ensures forall k :: 0 <= k < |s| ==> (k in at <==> keep(s[k]))
  {
    if s == [] {
      return [];
    }
    var n := |s| - 1;
    var before := SelectIndices(s[..n], keep);
    SelectPush(s[..n], s[n], keep);
    assert s == s[..n] + [s[n]];
    at := if keep(s[n]) then before + [n] else before;
    var selected := Select(s[..n], keep);
    hide Select;
    PickOneMore(selected, s, before, keep);
  }

  lemma PickOneMore<T>(now: seq<T>, s: seq<T>, before: seq<nat>, keep: T -> bool)
    requires s != [] && PickedAt(now, s[..|s| - 1], before)
    requires forall k :: 0 <= k < |s| - 1 ==> (k in before <==> keep(s[..|s| - 1][k]))
    ensures var n := |s| - 1;
            var at := if keep(s[n]) then before + [n] else before;
            && PickedAt(now + if keep(s[n]) then [s[n]] else [], s, at)
            && forall k :: 0 <= k < |s| ==> (k in at <==> keep(s[k]))
  {
    var n := |s| - 1;
    var at := if keep(s[n]) then before + [n] else before;
    forall i | 0 <= i < |before| ensures before[i] < n && now[i] == s[before[i]] {
      assert s[..n][before[i]] == s[before[i]];
    }
    forall k | 0 <= k < |s| ensures k in at <==> keep(s[k]) {
      assert k < n ==> s[..n][k] == s[k];
      assert n !in before;
    }
  }

  lemma SelectKeeps<T>(s: seq<T>, keep: T -> bool)
    ensures Kept(Select(s, keep), s, keep)
  {
    var at := SelectIndices(s, keep);
  }

  /** What a union adds: the new items, in the order they come, each once. */
  lemma {:induction false} UnionAppends(existing: seq<string>, incoming: seq<string>)
    ensures existing <= Union(existing, incoming)
    ensures FirstCome(Union(existing, incoming)[|existing|..], incoming)
    ensures forall x :: x in Union(existing, incoming)[|existing|..] <==> x in incoming && x !in existing
    decreases |incoming|
  {
    if incoming != [] {
      var head := incoming[0];
      assert forall x :: x in incoming <==> x == head || x in incoming[1..];
      if head in existing {
        UnionAppends(existing, incoming[1..]);
        FirstComeLater(Union(existing, incoming[1..])[|existing|..], incoming);
      } else {
        var base := existing + [head];
        UnionAppends(base, incoming[1..]);
        var rest := Union(base, incoming[1..])[|base|..];
        assert Union(existing, incoming)[|existing|..] == [head] + rest;
        FirstComeLater(rest, incoming);
        FirstComeHead(rest, incoming);
      }
    }
  }

  lemma FirstComeLater(rest: seq<string>, incoming: seq<string>)
    requires incoming != [] && FirstCome(rest, incoming[1..]) && incoming[0] !in rest
    ensures FirstCome(rest, incoming)
  {
    forall i, j | 0 <= i < j < |rest| ensures Before(rest[i], rest[j], incoming) {
      assert Before(rest[i], rest[j], incoming[1..]);
      var k :| 0 <= k < |incoming[1..]| && incoming[1..][k] == rest[i] && rest[j] !in incoming[1..][..k + 1];
      assert incoming[..k + 2] == [incoming[0]] + incoming[1..][..k + 1];
      assert incoming[k + 1] == rest[i];
    }
  }

  lemma FirstComeHead(rest: seq<string>, incoming: seq<string>)
    requires incoming != [] && FirstCome(rest, incoming) && incoming[0] !in rest
    ensures FirstCome([incoming[0]] + rest, incoming)
  {
    var all := [incoming[0]] + rest;
    forall i, j | 0 <= i < j < |all| ensures Before(all[i], all[j], incoming) {
      if i == 0 {
        assert incoming[..1] == [incoming[0]];
      } else {
        assert Before(rest[i - 1], rest[j - 1], incoming);
      }
    }
  }

  lemma {:induction false} SelectAll<T>(s: seq<T>, keep: T -> bool)
    requires forall x :: x in s ==> keep(x)
    ensures Select(s, keep) == s
  {
    if s != [] {
      SelectAll(s[1..], keep);
    }
  }

  lemma {:induction false} SelectNone<T>(s: seq<T>, keep: T -> bool)
    requires forall x :: x in s ==> !keep(x)
    ensures Select(s, keep) == []
  {
    if s != [] {
      SelectNone(s[1..], keep);
    }
  }

  lemma {:induction false} SelectSame<T>(s: seq<T>, f: T -> bool, g: T -> bool)
    requires forall x :: x in s ==> f(x) == g(x)
    ensures Select(s, f) == Select(s, g)
  {
    if s != [] {
      SelectSame(s[1..], f, g);
    }
  }

  lemma {:induction false} SelectAppend<T>(s: seq<T>, t: seq<T>, keep: T -> bool)
    ensures Select(s + t, keep) == Select(s, keep) + Select(t, keep)
  {
    if s == [] {
      assert s + t == t;
    } else {
      assert (s + t)[1..] == s[1..] + t;
      SelectAppend(s[1..], t, keep);
    }
  }

  lemma SelectPush<T>(s: seq<T>, x: T, keep: T -> bool)
    ensures Select([], keep) == []
    ensures Select(s + [x], keep) == Select(s, keep) + if keep(x) then [x] else []
  {
    SelectAppend(s, [x], keep);
    assert [x][1..] == [];
  }

  /** Code-point order on strings. */
  predicate StrLe(a: string, b: string) {
    a == [] || (b != [] && (a[0] < b[0] || (a[0] == b[0] && StrLe(a[1..], b[1..]))))
  }

  lemma {:induction false} StrLeTotal(a: string, b: string)
    ensures StrLe(a, b) || StrLe(b, a)
  {
    if a != [] && b != [] && a[0] == b[0] {
      StrLeTotal(a[1..], b[1..]);
    }
  }

  /** Puts one string into an ascending list without repeating it. */
  function Insert(x: string, s: seq<string>): seq<string> {
    if s == [] then [x]
    else if x == s[0] then s
    else if StrLe(x, s[0]) then [x] + s
    else [s[0]] + Insert(x, s[1..])
  }

  /** `sorted(set(s))`. */
  function SortedSet(s: seq<string>): seq<string> {
    if s == [] then [] else Insert(s[0], SortedSet(s[1..]))
  }

  predicate Ascending(s: seq<string>) {
    forall i :: 0 < i < |s| ==> StrLe(s[i - 1], s[i]) && s[i - 1] != s[i]
  }

  lemma {:induction false} InsertFacts(x: string, s: seq<string>)
    requires Ascending(s)
    ensures Ascending(Insert(x, s))
    ensures forall y :: y in Insert(x, s) <==> y == x || y in s
    ensures Insert(x, s)[0] == x || (s != [] && Insert(x, s)[0] == s[0])
  {
    if s != [] && x != s[0] && !StrLe(x, s[0]) {
      StrLeTotal(x, s[0]);
      assert Ascending(s[1..]) by {
        assert forall i :: 0 < i < |s[1..]| ==> s[1..][i - 1] == s[i] && s[1..][i] == s[i + 1];
      }
      InsertFacts(x, s[1..]);
      assert forall y :: y in s <==> y == s[0] || y in s[1..];
    }
  }

  lemma {:induction false} SortedSetFacts(s: seq<string>)
    ensures Ascending(SortedSet(s))
    ensures forall x :: x in SortedSet(s) <==> x in s
  {
    if s != [] {
      SortedSetFacts(s[1..]);
      InsertFacts(s[0], SortedSet(s[1..]));
      assert forall x :: x in s <==> x == s[0] || x in s[1..];
    }
  }

  lemma SortedSetNonempty(s: seq<string>)
    requires s != []
    ensures SortedSet(s) != []
  {
    SortedSetFacts(s);
    assert s[0] in SortedSet(s);
  }

  /** A list that is already canonical is its own canonical form. */
  lemma {:induction false} SortedSetOfAscending(s: seq<string>)
    requires Ascending(s)
    ensures SortedSet(s) == s
  {
    if s != [] {
      assert forall i :: 0 < i < |s[1..]| ==> s[1..][i - 1] == s[i] && s[1..][i] == s[i + 1];
      SortedSetOfAscending(s[1..]);
      assert s == [s[0]] + s[1..];
    }
  }
}
