/** Small value-level helpers shared by the backend and the two front-ends:
    optional values, results, order-preserving filtering, ASCII lower-casing
    and substring search. */
module Common {

  datatype Option<+T> = None | Some(value: T)

  datatype Result<+T, +E> = Ok(value: T) | Err(error: E)

  /** `Array.prototype.filter` / a queryset `.filter(...)`: the elements of `s`
      that satisfy `p`, in their original order. */
  function Filter<T(!new)>(s: seq<T>, p: T -> bool): (r: seq<T>)
    ensures |r| <= |s|
    ensures forall x :: x in r <==> x in s && p(x)
    ensures forall x :: p(x) ==> multiset(r)[x] == multiset(s)[x]
    ensures forall x :: !p(x) ==> multiset(r)[x] == 0
    decreases |s|
  {
    if s == [] then []
    else
      var rest := Filter(s[1..], p);
      assert s == [s[0]] + s[1..];
      if p(s[0]) then [s[0]] + rest else rest
  }

  /** One step of `Filter`. */
  lemma FilterCons<T(!new)>(s: seq<T>, p: T -> bool)
    requires s != []
    ensures Filter(s, p) == (if p(s[0]) then [s[0]] else []) + Filter(s[1..], p)
  {
    if !p(s[0]) {
      assert [] + Filter(s[1..], p) == Filter(s[1..], p);
    }
  }

  /** Filtering distributes over concatenation, which is what "order preserving"
      means for a filter. */
  lemma {:induction false} FilterAppend<T(!new)>(a: seq<T>, b: seq<T>, p: T -> bool)
    ensures Filter(a + b, p) == Filter(a, p) + Filter(b, p)
    decreases |a|
  {
    if a == [] {
      assert a + b == b;
    } else {
      var t := a + b;
      assert t[0] == a[0] && t[1..] == a[1..] + b;
      var head := if p(a[0]) then [a[0]] else [];
      var rest, tail := Filter(a[1..], p), Filter(b, p);
      calc {
        Filter(t, p);
      == { FilterCons(t, p); }
        head + Filter(a[1..] + b, p);
      == { FilterAppend(a[1..], b, p); }
        head + (rest + tail);
      == { assert head + (rest + tail) == (head + rest) + tail; }
        (head + rest) + tail;
      == { FilterCons(a, p); }
        Filter(a, p) + tail;
      }
    }
  }

  /** `xs.filter(y => y !== x)`: every occurrence of `x` removed. */
  function Without<T(==,!new)>(s: seq<T>, x: T): (r: seq<T>)
    ensures x !in r
    ensures forall y :: y in r <==> y in s && y != x
    ensures forall y :: y != x ==> multiset(r)[y] == multiset(s)[y]
    ensures x !in s ==> r == s
    decreases |s|
  {
    if s == [] then []
    else
      assert s == [s[0]] + s[1..];
      (if s[0] == x then [] else [s[0]]) + Without(s[1..], x)
  }

  /** One step of `Without`. */
  lemma WithoutCons<T(!new)>(t: seq<T>, x: T)
    requires t != []
    ensures Without(t, x) == (if t[0] == x then [] else [t[0]]) + Without(t[1..], x)
  {
  }

  /** Removing `x` from a sequence with one more element at its end. */
  lemma {:induction false} WithoutAppend<T(!new)>(s: seq<T>, y: T, x: T)
    ensures Without(s + [y], x) == Without(s, x) + (if y == x then [] else [y])
    decreases |s|
  {
    if s == [] {
      assert s + [y] == [y] && [y][1..] == [];
      WithoutCons([y], x);
    } else {
      var t := s + [y];
      assert t[0] == s[0] && t[1..] == s[1..] + [y];
      WithoutCons(t, x);
      WithoutCons(s, x);
      WithoutAppend(s[1..], y, x);
    }
  }

  /** Filtering with a predicate every element satisfies gives back the input. */
  lemma {:induction false} FilterAll<T(!new)>(s: seq<T>, p: T -> bool)
    requires forall x :: x in s ==> p(x)
    ensures Filter(s, p) == s
    decreases |s|
  {
    if s != [] {
      assert s == [s[0]] + s[1..];
      FilterAll(s[1..], p);
    }
  }

  /** String.prototype.toLowerCase / SQL lower() restricted to ASCII letters. */
  function LowerChar(c: char): char
  {
    if 'A' <= c <= 'Z' then (c as int + 32) as char else c
  }

  function Lower(s: string): (r: string)
    ensures |r| == |s|
    ensures forall i :: 0 <= i < |s| ==> r[i] == LowerChar(s[i])
  {
    seq(|s|, i requires 0 <= i < |s| => LowerChar(s[i]))
  }

  /** Case-insensitive equality, the `__iexact` lookup. */
  predicate EqualsIgnoringCase(a: string, b: string)
  {
    Lower(a) == Lower(b)
  }

  predicate StartsWith(h: string, n: string)
  {
    |n| <= |h| && h[..|n|] == n
  }

  /** String.prototype.includes: `n` occurs somewhere in `h`. */
  predicate Includes(h: string, n: string)
    decreases |h|
  {
    StartsWith(h, n) || (h != [] && Includes(h[1..], n))
  }

  /** `n` occurs in `h` starting at position `i`. */
  ghost predicate OccursAt(h: string, n: string, i: int)
  {
    0 <= i <= |h| - |n| && h[i..i + |n|] == n
  }

  /** `Includes` agrees with the positional definition of a substring. */
  lemma {:induction false} IncludesIffSubstring(h: string, n: string)
    ensures Includes(h, n) <==> exists i :: OccursAt(h, n, i)
    decreases |h|
  {
    if StartsWith(h, n) {
      assert OccursAt(h, n, 0);
    } else if h != [] {
      IncludesIffSubstring(h[1..], n);
      if Includes(h[1..], n) {
        var i :| OccursAt(h[1..], n, i);
        assert h[1..][i..i + |n|] == h[i + 1..i + 1 + |n|];
        assert OccursAt(h, n, i + 1);
      }
      if exists i :: OccursAt(h, n, i) {
        var i :| OccursAt(h, n, i) && i > 0;
        assert h[1..][i - 1..i - 1 + |n|] == h[i..i + |n|];
        assert OccursAt(h[1..], n, i - 1);
      }
    }
  }

  /** Every string includes the empty string. */
  lemma IncludesEmpty(h: string)
    ensures Includes(h, "")
  {
    assert StartsWith(h, "");
  }

  /** A string in which the first character of `n` never appears does not
      include `n`. */
  lemma {:induction false} MissingFirstNotIncluded(h: string, n: string)
    requires n != []
    requires forall i :: 0 <= i < |h| ==> h[i] != n[0]
    ensures !Includes(h, n)
    decreases |h|
  {
    if h != [] {
      MissingFirstNotIncluded(h[1..], n);
    }
  }
}
