/** Python's string order and the sorted, de-duplicated key lists that pandas
    produces for a group-by index (pivot_table rows and columns, and
    value_counts followed by sort_index). */
module Keys {

  /** Python's `a < b` on str: lexicographic by code point, a proper prefix first. */
  predicate StrLess(a: string, b: string)
    decreases |a|
  {
    if |a| == 0 then |b| > 0
    else if |b| == 0 then false
    else if a[0] != b[0] then a[0] < b[0]
    else StrLess(a[1..], b[1..])
  }

  lemma {:induction false} StrLessIrreflexive(a: string)
    ensures !StrLess(a, a)
    decreases |a|
  {
    if |a| > 0 {
      StrLessIrreflexive(a[1..]);
    }
  }

  lemma {:induction false} StrLessTransitive(a: string, b: string, c: string)
    requires StrLess(a, b) && StrLess(b, c)
    ensures StrLess(a, c)
    decreases |a|
  {
    if |a| > 0 && a[0] == b[0] && b[0] == c[0] {
      StrLessTransitive(a[1..], b[1..], c[1..]);
    }
  }

  lemma {:induction false} StrLessTotal(a: string, b: string)
    requires a != b
    ensures StrLess(a, b) || StrLess(b, a)
    decreases |a|
  {
    if |a| > 0 && |b| > 0 && a[0] == b[0] {
      assert a == [a[0]] + a[1..] && b == [b[0]] + b[1..];
      StrLessTotal(a[1..], b[1..]);
    }
  }

  /** Keys in strictly ascending order: sorted and without repetition. */
  predicate Ascending(s: seq<string>) {
    forall i, j :: 0 <= i < j < |s| ==> StrLess(s[i], s[j])
  }

  lemma AscendingIsDistinct(s: seq<string>)
    requires Ascending(s)
    ensures forall i, j :: 0 <= i < j < |s| ==> s[i] != s[j]
  {
    forall i, j | 0 <= i < j < |s| ensures s[i] != s[j] {
      if s[i] == s[j] {
        StrLessIrreflexive(s[i]);
      }
    }
  }

  function Elements(s: seq<string>): set<string> {
    set x | x in s
  }

  lemma ElementsCons(h: string, s: seq<string>)
    ensures Elements([h] + s) == {h} + Elements(s)
  {
    assert forall x :: x in [h] + s <==> x == h || x in s;
  }

  /** A key below every key of an ascending list can go in front of it. */
  lemma PrependAscending(h: string, s: seq<string>)
    requires Ascending(s)
    requires forall x :: x in Elements(s) ==> StrLess(h, x)
    ensures Ascending([h] + s)
  {
    forall j | 0 <= j < |s| ensures StrLess(h, s[j]) {
      assert s[j] in Elements(s);
    }
  }

  /** Puts `k` at its place in an ascending key list, unless it is already there. */
  function InsertKey(k: string, s: seq<string>): (r: seq<string>)
    requires Ascending(s)
    ensures Ascending(r)
    ensures Elements(r) == Elements(s) + {k}
    decreases |s|
  {
    if s == [] then [k]
    else if k == s[0] then s
    else if StrLess(k, s[0]) then
      assert s == [s[0]] + s[1..];
      ElementsCons(s[0], s[1..]);
      assert forall x :: x in Elements(s) ==> StrLess(k, x) by {
        forall x | x in Elements(s) ensures StrLess(k, x) {
          if x != s[0] {
            StrLessTransitive(k, s[0], x);
          }
        }
      }
      PrependAscending(k, s);
      ElementsCons(k, s);
      [k] + s
    else
      var rest := InsertKey(k, s[1..]);
      StrLessTotal(k, s[0]);
      assert s == [s[0]] + s[1..];
      ElementsCons(s[0], s[1..]);
      ElementsCons(s[0], rest);
      PrependAscending(s[0], rest);
      [s[0]] + rest
  }

  /** The distinct values of `xs`, ascending: the index that grouping on `xs` builds. */
  function SortedKeys(xs: seq<string>): (r: seq<string>)
    ensures Ascending(r)
    ensures Elements(r) == Elements(xs)
    decreases |xs|
  {
    if xs == [] then []
    else
      assert Elements(xs) == Elements(xs[..|xs| - 1]) + {xs[|xs| - 1]} by {
        assert xs == xs[..|xs| - 1] + [xs[|xs| - 1]];
      }
      InsertKey(xs[|xs| - 1], SortedKeys(xs[..|xs| - 1]))
  }

  /** Number of occurrences of `k` in `xs`. */
  function Count(xs: seq<string>, k: string): nat {
    if xs == [] then 0 else (if xs[0] == k then 1 else 0) + Count(xs[1..], k)
  }

  lemma {:induction false} CountPositive(xs: seq<string>, k: string)
    ensures Count(xs, k) > 0 <==> k in xs
    decreases |xs|
  {
    if xs != [] {
      CountPositive(xs[1..], k);
      assert k in xs <==> k == xs[0] || k in xs[1..] by {
        assert xs == [xs[0]] + xs[1..];
      }
    }
  }

  lemma {:induction false} CountAppend(xs: seq<string>, ys: seq<string>, k: string)
    ensures Count(xs + ys, k) == Count(xs, k) + Count(ys, k)
    decreases |xs|
  {
    if xs == [] {
      assert xs + ys == ys;
    } else {
      assert (xs + ys)[0] == xs[0] && (xs + ys)[1..] == xs[1..] + ys;
      CountAppend(xs[1..], ys, k);
    }
  }

  /** Sum of the occurrence counts of the given keys. */
  function CountOver(xs: seq<string>, keys: seq<string>): nat {
    if keys == [] then 0 else Count(xs, keys[0]) + CountOver(xs, keys[1..])
  }

  lemma {:induction false} CountOverCons(x: string, xs: seq<string>, keys: seq<string>)
    requires forall i, j :: 0 <= i < j < |keys| ==> keys[i] != keys[j]
    ensures CountOver([x] + xs, keys) == CountOver(xs, keys) + (if x in keys then 1 else 0)
    decreases |keys|
  {
    if keys != [] {
      assert ([x] + xs)[1..] == xs;
      CountOverCons(x, xs, keys[1..]);
      assert x in keys <==> x == keys[0] || x in keys[1..] by {
        assert keys == [keys[0]] + keys[1..];
      }
      assert x == keys[0] ==> x !in keys[1..];
    }
  }

  /** Counting every distinct key once accounts for every element exactly once. */
  lemma {:induction false} CountOverCovers(xs: seq<string>, keys: seq<string>)
    requires forall i, j :: 0 <= i < j < |keys| ==> keys[i] != keys[j]
    requires forall x :: x in xs ==> x in keys
    ensures CountOver(xs, keys) == |xs|
    decreases |xs|
  {
    if xs == [] {
      CountOverEmpty(keys);
    } else {
      assert xs == [xs[0]] + xs[1..];
      CountOverCovers(xs[1..], keys);
      CountOverCons(xs[0], xs[1..], keys);
    }
  }

  lemma {:induction false} CountOverEmpty(keys: seq<string>)
    ensures CountOver([], keys) == 0
    decreases |keys|
  {
    if keys != [] {
      CountOverEmpty(keys[1..]);
    }
  }
}
