/** Python's ordering of `str` values (lexicographic by code point) and what
    `sorted` returns for a set of strings. */
module KeyOrder {

  /** `a < b` on Python strings. */
  predicate Below(a: string, b: string)
    decreases |a|
  {
    if a == [] then b != []
    else if b == [] then false
    else if a[0] != b[0] then a[0] < b[0]
    else Below(a[1..], b[1..])
  }

  lemma {:induction false} BelowIrreflexive(a: string)
    ensures !Below(a, a)
    decreases |a|
  {
    if a != [] {
      BelowIrreflexive(a[1..]);
    }
  }

  lemma {:induction false} BelowTransitive(a: string, b: string, c: string)
    requires Below(a, b) && Below(b, c)
    ensures Below(a, c)
    decreases |a|
  {
    if a != [] && b != [] && c != [] && a[0] == b[0] == c[0] {
      BelowTransitive(a[1..], b[1..], c[1..]);
    }
  }

  /** Two strings that agree up to position `k` and differ there are ordered by that position. */
  lemma {:induction false} BelowAt(a: string, b: string, k: nat)
    requires k < |a| && k < |b| && a[..k] == b[..k] && a[k] < b[k]
    ensures Below(a, b)
    decreases k
  {
    if k > 0 {
      assert a[0] == a[..k][0] == b[..k][0] == b[0];
      assert a[1..][..k - 1] == a[1..k] == a[..k][1..];
      assert b[1..][..k - 1] == b[1..k] == b[..k][1..];
      BelowAt(a[1..], b[1..], k - 1);
    }
  }

  /** Every element comes before every later one: sorted, without repeats. */
  predicate StrictlySorted(s: seq<string>)
  {
    forall i, j :: 0 <= i < j < |s| ==> Below(s[i], s[j])
  }

  /** Four strings each below the next form a sorted list. */
  lemma SortedChain(a: string, b: string, c: string, d: string)
    requires Below(a, b) && Below(b, c) && Below(c, d)
    ensures StrictlySorted([a, b, c, d])
  {
    BelowTransitive(a, b, c);
    BelowTransitive(a, c, d);
    BelowTransitive(b, c, d);
  }

  function Elements(s: seq<string>): set<string>
  {
    set x | x in s
  }

  /** `s` is what Python's `sorted(keys)` returns for the set `keys`. */
  predicate IsSortedListOf(s: seq<string>, keys: set<string>)
  {
    StrictlySorted(s) && Elements(s) == keys
  }

  /** A set has only one sorted list, so `IsSortedListOf` pins down `sorted(keys)`. */
  lemma {:induction false} SortedListUnique(s: seq<string>, t: seq<string>, keys: set<string>)
    requires IsSortedListOf(s, keys) && IsSortedListOf(t, keys)
    ensures s == t
    decreases |s|
  {
    ElementsEmpty(s);
    ElementsEmpty(t);
    if s != [] {
      assert s[0] in Elements(s);
      assert t[0] in Elements(t);
      if s[0] != t[0] {
        var j :| 0 <= j < |t| && t[j] == s[0];
        var i :| 0 <= i < |s| && s[i] == t[0];
        assert Below(t[0], s[0]);
        assert Below(s[0], t[0]);
        BelowTransitive(s[0], t[0], s[0]);
        BelowIrreflexive(s[0]);
        assert false;
      }
      HeadNotInTail(s);
      HeadNotInTail(t);
      assert Elements(s[1..]) == keys - {s[0]} by {
        assert s == [s[0]] + s[1..];
      }
      assert Elements(t[1..]) == keys - {t[0]} by {
        assert t == [t[0]] + t[1..];
      }
      SortedListUnique(s[1..], t[1..], keys - {s[0]});
      assert s == [s[0]] + s[1..] && t == [t[0]] + t[1..];
    }
  }

  lemma ElementsEmpty(s: seq<string>)
    ensures Elements(s) == {} <==> s == []
  {
    if s != [] {
      assert s[0] in Elements(s);
    }
  }

  lemma HeadNotInTail(s: seq<string>)
    requires StrictlySorted(s) && s != []
    ensures s[0] !in Elements(s[1..])
  {
    if s[0] in Elements(s[1..]) {
      var k :| 0 <= k < |s[1..]| && s[1..][k] == s[0];
      assert Below(s[0], s[k + 1]);
      BelowIrreflexive(s[0]);
    }
  }

  /** The elements of `s` that are not in `drop`, in their order in `s`. */
  function Without(s: seq<string>, drop: set<string>): (r: seq<string>)
    ensures Elements(r) == Elements(s) - drop
    ensures StrictlySorted(s) ==> StrictlySorted(r)
  {
    if s == [] then []
    else
      var rest := Without(s[1..], drop);
      assert Elements(s) == {s[0]} + Elements(s[1..]) by {
        assert s == [s[0]] + s[1..];
      }
      assert Elements([s[0]] + rest) == {s[0]} + Elements(rest);
      assert StrictlySorted(s) ==> forall x :: x in rest ==> Below(s[0], x) by {
        if StrictlySorted(s) {
          forall x | x in rest ensures Below(s[0], x) {
            assert x in Elements(s[1..]);
            var k :| 0 <= k < |s[1..]| && s[1..][k] == x;
            assert s[k + 1] == x;
          }
        }
      }
      if s[0] in drop then rest else [s[0]] + rest
  }

  /** Dropping keys from `sorted(keys)` gives `sorted` of what is left. */
  lemma WithoutSortedList(s: seq<string>, keys: set<string>, drop: set<string>)
    requires IsSortedListOf(s, keys)
    ensures IsSortedListOf(Without(s, drop), keys - drop)
    ensures Without(s, drop) == [] <==> keys <= drop
  {
    ElementsEmpty(Without(s, drop));
    if keys - drop == {} {
      forall k | k in keys ensures k in drop {
        assert k !in keys - drop;
      }
    }
  }
}
