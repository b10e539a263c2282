/**
 * The order the default `Array.prototype.sort` puts strings in, taken
 * character by character, and an insertion sort that produces it.
 */
module StringOrder {

  /** Lexicographic "comes strictly before", a proper prefix coming first. */
  predicate Less(a: string, b: string)
  {
    |b| > 0 && (|a| == 0 || a[0] < b[0] || (a[0] == b[0] && Less(a[1..], b[1..])))
  }

  lemma {:induction false} LessIrreflexive(a: string)
    ensures !Less(a, a)
  {
    if |a| > 0 {
      LessIrreflexive(a[1..]);
    }
  }

  lemma {:induction false} LessTransitive(a: string, b: string, c: string)
    requires Less(a, b) && Less(b, c)
    ensures Less(a, c)
  {
    if |a| > 0 && a[0] == b[0] && b[0] == c[0] {
      LessTransitive(a[1..], b[1..], c[1..]);
    }
  }

  lemma {:induction false} LessTotal(a: string, b: string)
    requires a != b
    ensures Less(a, b) || Less(b, a)
  {
    if |a| > 0 && |b| > 0 && a[0] == b[0] {
      assert a == [a[0]] + a[1..] && b == [b[0]] + b[1..];
      LessTotal(a[1..], b[1..]);
    }
  }

  /** Each element comes strictly before the next. */
  predicate StrictlySorted(s: seq<string>)
  {
    forall k :: 0 < k < |s| ==> Less(s[k - 1], s[k])
  }

  /** Each element comes before the next or equals it. */
  predicate Sorted(s: seq<string>)
  {
    forall k :: 0 < k < |s| ==> Less(s[k - 1], s[k]) || s[k - 1] == s[k]
  }

  predicate NoDuplicates(s: seq<string>)
  {
    forall i, j :: 0 <= i < j < |s| ==> s[i] != s[j]
  }

  /** In a strictly sorted sequence every earlier element comes before every later one, so none repeats. */
  lemma {:induction false} StrictlySortedPairs(s: seq<string>, i: nat, j: nat)
    requires StrictlySorted(s) && i < j < |s|
    ensures Less(s[i], s[j]) && s[i] != s[j]
  {
    if i + 1 < j {
      StrictlySortedPairs(s, i, j - 1);
      LessTransitive(s[i], s[j - 1], s[j]);
    }
    LessIrreflexive(s[i]);
  }

  lemma StrictlySortedHasNoDuplicates(s: seq<string>)
    requires StrictlySorted(s)
    ensures NoDuplicates(s)
  {
    forall i, j | 0 <= i < j < |s|
      ensures s[i] != s[j]
    {
      StrictlySortedPairs(s, i, j);
    }
  }

  /** Insert `x` in front of the first element it does not come after. */
  function Insert(x: string, s: seq<string>): (r: seq<string>)
    ensures multiset(r) == multiset(s) + multiset{x}
    ensures |r| == |s| + 1 && (r[0] == x || (|s| > 0 && r[0] == s[0]))
  {
    if |s| == 0 || !Less(s[0], x) then [x] + s
    else
      assert s == [s[0]] + s[1..];
      [s[0]] + Insert(x, s[1..])
  }

  /** Inserting into a sorted sequence keeps it sorted. */
  lemma {:induction false} InsertSorted(x: string, s: seq<string>)
    requires Sorted(s)
    ensures Sorted(Insert(x, s))
  {
    var r := Insert(x, s);
    if |s| == 0 || !Less(s[0], x) {
      if |s| > 0 && s[0] != x {
        LessTotal(x, s[0]);
      }
      assert r == [x] + s;
      assert forall k :: 1 <= k < |r| ==> r[k] == s[k - 1];
    } else {
      var tail := s[1..];
      assert forall k :: 0 <= k < |tail| ==> tail[k] == s[k + 1];
      InsertSorted(x, tail);
      var rest := Insert(x, tail);
      assert r == [s[0]] + rest;
      assert Less(s[0], rest[0]) || s[0] == rest[0];
      assert forall k :: 1 <= k < |r| ==> r[k] == rest[k - 1];
    }
  }

  /** Inserting a new element into a strictly sorted sequence keeps it strictly sorted. */
  lemma {:induction false} InsertStrictlySorted(x: string, s: seq<string>)
    requires StrictlySorted(s) && x !in s
    ensures StrictlySorted(Insert(x, s))
  {
    var r := Insert(x, s);
    if |s| == 0 || !Less(s[0], x) {
      if |s| > 0 {
        LessTotal(x, s[0]);
      }
      assert r == [x] + s;
      assert forall k :: 1 <= k < |r| ==> r[k] == s[k - 1];
    } else {
      var tail := s[1..];
      assert forall k :: 0 <= k < |tail| ==> tail[k] == s[k + 1];
      InsertStrictlySorted(x, tail);
      var rest := Insert(x, tail);
      assert r == [s[0]] + rest;
      assert Less(s[0], rest[0]);
      assert forall k :: 1 <= k < |r| ==> r[k] == rest[k - 1];
    }
  }

  /** Insertion sort: the default string sort's result. */
  function Sort(s: seq<string>): (r: seq<string>)
    ensures Sorted(r)
    ensures multiset(r) == multiset(s)
    ensures NoDuplicates(s) ==> StrictlySorted(r)
  {
    if |s| == 0 then []
    else
      var rest := Sort(s[1..]);
      assert s == [s[0]] + s[1..];
      assert NoDuplicates(s) ==> s[0] !in s[1..] && NoDuplicates(s[1..]);
      assert s[0] !in s[1..] ==> s[0] !in multiset(rest);
      InsertSorted(s[0], rest);
      if NoDuplicates(s) then
        InsertStrictlySorted(s[0], rest);
        Insert(s[0], rest)
      else
        Insert(s[0], rest)
  }
}
