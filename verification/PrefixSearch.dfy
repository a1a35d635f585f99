/** Completion of a URI prefix over a sorted list: a binary search and one comparison stand for
    filtering the whole list. */
module PrefixSearch {
  import opened Options

  /** The order of strcmp. */
  predicate AtMost(a: string, b: string) {
    a == [] || (b != [] && (a[0] < b[0] || (a[0] == b[0] && AtMost(a[1..], b[1..]))))
  }

  predicate StartsWith(prefix: string, s: string) {
    prefix <= s
  }

  ghost predicate Sorted(list: seq<string>) {
    forall i, j :: 0 <= i <= j < |list| ==> AtMost(list[i], list[j])
  }

  function Matches(list: seq<string>, prefix: string): seq<string> {
    if list == [] then []
    else (if StartsWith(prefix, list[0]) then [list[0]] else []) + Matches(list[1..], prefix)
  }

  function Nth(list: seq<string>, n: int): Option<string> {
    if 0 <= n < |list| then Some(list[n]) else None
  }

  // ---- Order and prefixes -----------------------------------------------------------

  /** The strings differ first at this place, where the one has the smaller character. */
  predicate BelowAt(a: string, b: string, i: nat) {
    i < |a| && i < |b| && a[..i] == b[..i] && a[i] < b[i]
  }

  lemma OneOn(a: string, b: string, i: nat)
    requires a != [] && b != [] && a[0] == b[0]
    ensures BelowAt(a, b, i + 1) <==> BelowAt(a[1..], b[1..], i)
  {
    if BelowAt(a, b, i + 1) {
      assert a[1..][..i] == a[..i + 1][1..] && b[1..][..i] == b[..i + 1][1..];
    }
    if BelowAt(a[1..], b[1..], i) {
      assert a[..i + 1] == [a[0]] + a[1..][..i] && b[..i + 1] == [b[0]] + b[1..][..i];
    }
  }

  /** The order is that of strcmp: a string is at most those it begins and those that have a larger
      character where the two first differ. */
  lemma {:induction false} OrderExactly(a: string, b: string)
    ensures AtMost(a, b) <==> a <= b || exists i: nat :: BelowAt(a, b, i)
    decreases |a|
  {
    if a != [] && b != [] {
      if a[0] == b[0] {
        OrderExactly(a[1..], b[1..]);
        StartsAtTail(a, b);
        if i: nat :| BelowAt(a, b, i) {
          OneOn(a, b, i - 1);
        }
        if i: nat :| BelowAt(a[1..], b[1..], i) {
          OneOn(a, b, i);
        }
      } else {
        assert a[0] < b[0] ==> BelowAt(a, b, 0);
        if i: nat :| BelowAt(a, b, i) {
          assert i > 0 ==> a[..i][0] == b[..i][0];
        }
      }
    }
  }

  /** One more string is one more match exactly when it begins with the prefix. */
  lemma {:induction false} MatchesOneMore(list: seq<string>, prefix: string, s: string)
    ensures Matches([], prefix) == []
    ensures Matches(list + [s], prefix) == Matches(list, prefix) + if prefix <= s then [s] else []
  {
    var first, hit := if list == [] then s else list[0], if prefix <= s then [s] else [];
    assert (list + [s])[0] == first;
    if list == [] {
      assert (list + [s])[1..] == [];
      assert Matches(list + [s], prefix) == hit + [];
    } else {
      assert (list + [s])[1..] == list[1..] + [s];
      MatchesOneMore(list[1..], prefix, s);
      var here := if prefix <= first then [first] else [];
      assert here + (Matches(list[1..], prefix) + hit) == (here + Matches(list[1..], prefix)) + hit;
    }
  }

  lemma {:induction false} StartsAtTail(prefix: string, s: string)
    requires prefix != []
    ensures StartsWith(prefix, s) <==> s != [] && s[0] == prefix[0] && StartsWith(prefix[1..], s[1..])
  {
    if s != [] && s[0] == prefix[0] && prefix[1..] <= s[1..] {
      assert prefix == [prefix[0]] + prefix[1..] && s == [s[0]] + s[1..];
    }
  }

  /** Strings with a prefix are at least the prefix. */
  lemma {:induction false} PrefixAtMost(prefix: string, s: string)
    requires StartsWith(prefix, s)
    ensures AtMost(prefix, s)
    decreases |prefix|
  {
    if prefix != [] {
      StartsAtTail(prefix, s);
      PrefixAtMost(prefix[1..], s[1..]);
    }
  }

  /** Past the strings with a prefix, none has it any more. */
  lemma {:induction false} PastPrefix(prefix: string, x: string, y: string)
    requires AtMost(prefix, x) && AtMost(x, y) && !StartsWith(prefix, x)
    ensures !StartsWith(prefix, y)
    decreases |prefix|
  {
    if prefix != [] {
      StartsAtTail(prefix, x);
      StartsAtTail(prefix, y);
      if x[0] == prefix[0] && y != [] && y[0] == x[0] {
        PastPrefix(prefix[1..], x[1..], y[1..]);
      }
    }
  }

  lemma {:induction false} Transitive(a: string, b: string, c: string)
    requires AtMost(a, b) && AtMost(b, c)
    ensures AtMost(a, c)
  {
    if a != [] && a[0] == b[0] && b[0] == c[0] {
      Transitive(a[1..], b[1..], c[1..]);
    }
  }

  // ---- The search -------------------------------------------------------------------

  /** `low` is the first place at which a string could be put without breaking the order. */
  ghost predicate IsLowerBound(list: seq<string>, needle: string, low: nat) {
    && low <= |list|
    && (forall i :: 0 <= i < low ==> !AtMost(needle, list[i]))
    && (forall i :: low <= i < |list| ==> AtMost(needle, list[i]))
  }

  method LowerBound(list: seq<string>, needle: string) returns (low: nat)
    requires Sorted(list)
    ensures IsLowerBound(list, needle, low)
  {
    low := 0;
    var high := |list|;
    while low < high
      invariant low <= high <= |list|
      invariant forall i :: 0 <= i < low ==> !AtMost(needle, list[i])
      invariant forall i :: high <= i < |list| ==> AtMost(needle, list[i])
    {
      var mid := low + (high - low) / 2;
      if AtMost(needle, list[mid]) {
        forall i | mid <= i < |list|
          ensures AtMost(needle, list[i])
        {
          Transitive(needle, list[mid], list[i]);
        }
        high := mid;
      } else {
        forall i | 0 <= i <= mid
          ensures !AtMost(needle, list[i])
        {
          if AtMost(needle, list[i]) {
            Transitive(needle, list[i], list[mid]);
          }
        }
        low := mid + 1;
      }
    }
  }

  lemma {:induction false} NoMatches(list: seq<string>, prefix: string)
    requires forall i :: 0 <= i < |list| ==> !StartsWith(prefix, list[i])
    ensures Matches(list, prefix) == []
  {
    if list != [] {
      NoMatches(list[1..], prefix);
    }
  }

  /** What comes before the lower bound has no match. */
  lemma {:induction false} SkipBelow(list: seq<string>, prefix: string, low: nat)
    requires low <= |list| && forall i :: 0 <= i < low ==> !StartsWith(prefix, list[i])
    ensures Matches(list, prefix) == Matches(list[low..], prefix)
    decreases low
  {
    if low == 0 {
      assert list[0..] == list;
    } else {
      SkipBelow(list[1..], prefix, low - 1);
      assert list[1..][low - 1..] == list[low..];
    }
  }

  /** From the lower bound on the matches come first: the n-th is the n-th of all. */
  lemma {:induction false} MatchesFirst(list: seq<string>, prefix: string, n: nat)
    requires Sorted(list) && forall i :: 0 <= i < |list| ==> AtMost(prefix, list[i])
    ensures Nth(Matches(list, prefix), n) == if n < |list| && StartsWith(prefix, list[n]) then Some(list[n]) else None
    decreases |list|
  {
    if list != [] {
      if StartsWith(prefix, list[0]) {
        assert Matches(list, prefix)[1..] == Matches(list[1..], prefix);
        if n > 0 {
          MatchesFirst(list[1..], prefix, n - 1);
        }
      } else {
        forall i | 0 <= i < |list|
          ensures !StartsWith(prefix, list[i])
        {
          PastPrefix(prefix, list[0], list[i]);
        }
        NoMatches(list, prefix);
      }
    }
  }

  /** The n-th string of a sorted list that starts with a prefix, as if the list had been filtered. */
  method PickNthMatch(list: seq<string>, prefix: string, n: int) returns (result: Option<string>)
    requires Sorted(list)
    ensures result == Nth(Matches(list, prefix), n)
  {
    var low := LowerBound(list, prefix);
    forall i | 0 <= i < low
      ensures !StartsWith(prefix, list[i])
    {
      if StartsWith(prefix, list[i]) {
        PrefixAtMost(prefix, list[i]);
      }
    }
    SkipBelow(list, prefix, low);
    // The sum is unsigned: a negative one is larger than any size.
    var pos := low + n;
    if pos < 0 || pos >= |list| {
      if n >= 0 {
        MatchesFirst(list[low..], prefix, n);
      }
      return None;
    }
    if n >= 0 {
      MatchesFirst(list[low..], prefix, n);
    }
    result := if StartsWith(prefix, list[pos]) then Some(list[pos]) else None;
  }
}
