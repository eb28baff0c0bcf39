/** Generic values and sequence operations shared by every part of the model:
    the Option type, filtering and first-match search over table rows (the
    store's WHERE and LIMIT 1), pairwise constraints (unique keys), and the
    substring test behind SQL `LIKE '%x%'`. */
module Common {

  datatype Option<+T> = None | Some(value: T)

  datatype Result<+T, +E> = Success(value: T) | Failure(error: E)

  /** The rows of `s` that satisfy `p`, in table order. */
  function Filter<T>(s: seq<T>, p: T -> bool): (r: seq<T>)
    ensures |r| <= |s|
    ensures forall k :: 0 <= k < |r| ==> r[k] in s && p(r[k])
    ensures forall k :: 0 <= k < |s| && p(s[k]) ==> s[k] in r
  {
    if s == [] then []
    else if p(s[0]) then [s[0]] + Filter(s[1..], p)
    else Filter(s[1..], p)
  }

  /** Filtering distributes over concatenation. */
  lemma {:induction false} FilterAppend<T>(a: seq<T>, b: seq<T>, p: T -> bool)
    ensures Filter(a + b, p) == Filter(a, p) + Filter(b, p)
  {
    if a == [] {
      assert a + b == b;
    } else {
      assert (a + b)[0] == a[0];
      assert (a + b)[1..] == a[1..] + b;
      FilterAppend(a[1..], b, p);
    }
  }

  /** Filtering with a predicate that every row satisfies keeps the whole table. */
  lemma {:induction false} FilterAll<T>(s: seq<T>, p: T -> bool)
    requires forall k :: 0 <= k < |s| ==> p(s[k])
    ensures Filter(s, p) == s
  {
    if s != [] {
      FilterAll(s[1..], p);
    }
  }

  /** Filtering with a predicate no row satisfies keeps nothing. */
  lemma {:induction false} FilterNone<T>(s: seq<T>, p: T -> bool)
    requires forall k :: 0 <= k < |s| ==> !p(s[k])
    ensures Filter(s, p) == []
  {
    if s != [] {
      FilterNone(s[1..], p);
    }
  }

  /** Filtering depends only on the values of the predicate on the rows. */
  lemma {:induction false} FilterExt<T>(s: seq<T>, p: T -> bool, q: T -> bool)
    requires forall k :: 0 <= k < |s| ==> p(s[k]) == q(s[k])
    ensures Filter(s, p) == Filter(s, q)
  {
    if s != [] {
      FilterExt(s[1..], p, q);
    }
  }

  /** Every row-pair (earlier, later) of `s` is related by `R`: the shape of a
      unique-key or increasing-key constraint. */
  ghost predicate Pairwise<T>(s: seq<T>, R: (T, T) -> bool) {
    forall i, j :: 0 <= i < j < |s| ==> R(s[i], s[j])
  }

  /** A subsequence of a table keeps every pairwise constraint of the table. */
  lemma {:induction false} FilterPairwise<T>(s: seq<T>, p: T -> bool, R: (T, T) -> bool)
    requires Pairwise(s, R)
    ensures Pairwise(Filter(s, p), R)
  {
    if s != [] {
      assert Pairwise(s[1..], R) by {
        forall i, j | 0 <= i < j < |s[1..]| ensures R(s[1..][i], s[1..][j]) {
          assert s[1..][i] == s[i + 1] && s[1..][j] == s[j + 1];
        }
      }
      FilterPairwise(s[1..], p, R);
      var rest := Filter(s[1..], p);
      if p(s[0]) {
        var r := [s[0]] + rest;
        forall i, j | 0 <= i < j < |r| ensures R(r[i], r[j]) {
          if i == 0 {
            assert r[j] == rest[j - 1];
            assert rest[j - 1] in s[1..];
            var m :| 0 <= m < |s[1..]| && s[1..][m] == rest[j - 1];
            assert s[1..][m] == s[m + 1];
          } else {
            assert r[i] == rest[i - 1] && r[j] == rest[j - 1];
          }
        }
      }
    }
  }

  /** Appending a row that is related to every existing row keeps a pairwise constraint. */
  lemma PairwiseAppend<T>(s: seq<T>, x: T, R: (T, T) -> bool)
    requires Pairwise(s, R)
    requires forall i :: 0 <= i < |s| ==> R(s[i], x)
    ensures Pairwise(s + [x], R)
  {
    var r := s + [x];
    forall i, j | 0 <= i < j < |r| ensures R(r[i], r[j]) {
      assert r[i] == s[i];
      if j < |s| { assert r[j] == s[j]; } else { assert r[j] == x; }
    }
  }

  /** Index of the first row satisfying `p`: the row a `.one()` query returns. */
  function FindIndex<T>(s: seq<T>, p: T -> bool): (r: Option<nat>)
    ensures r.Some? ==> r.value < |s| && p(s[r.value])
    ensures r.Some? ==> forall i :: 0 <= i < r.value ==> !p(s[i])
    ensures r.None? <==> forall i :: 0 <= i < |s| ==> !p(s[i])
  {
    if s == [] then None
    else if p(s[0]) then Some(0)
    else
      match FindIndex(s[1..], p)
      case None => None
      case Some(k) => Some(k + 1)
  }

  /** The first row satisfying `p`, if any. */
  function FindFirst<T>(s: seq<T>, p: T -> bool): (r: Option<T>)
    ensures r.Some? ==> r.value in s && p(r.value)
    ensures r.None? <==> forall i :: 0 <= i < |s| ==> !p(s[i])
  {
    match FindIndex(s, p)
    case None => None
    case Some(k) => Some(s[k])
  }

  /** A first-match search passes over a prefix in which nothing matches. */
  lemma {:induction false} FindFirstSkip<T>(a: seq<T>, b: seq<T>, p: T -> bool)
    requires forall k :: 0 <= k < |a| ==> !p(a[k])
    ensures FindFirst(a + b, p) == FindFirst(b, p)
  {
    if a != [] {
      assert (a + b)[1..] == a[1..] + b;
      FindFirstSkip(a[1..], b, p);
      if FindFirst(b, p).Some? {
        var i :| 0 <= i < |b| && b[i] == FindFirst(b, p).value;
      }
    } else {
      assert a + b == b;
    }
  }

  /** `hay` begins with `prefix` (Rust `str::starts_with`). */
  predicate StartsWith(hay: string, prefix: string) {
    |prefix| <= |hay| && hay[..|prefix|] == prefix
  }

  /** `needle` occurs in `hay` as a contiguous substring, decided by scanning
      every starting position (SQL `LIKE '%needle%'` without wildcards). */
  predicate Contains(hay: string, needle: string)
    decreases |hay|
  {
    StartsWith(hay, needle) || (|hay| > 0 && Contains(hay[1..], needle))
  }

  /** `needle` starts at position `i` of `hay`. */
  predicate OccursAt(hay: string, needle: string, i: int) {
    0 <= i <= |hay| - |needle| && hay[i..i + |needle|] == needle
  }

  /** The scan agrees with the textbook definition: some position of `hay`
      starts an occurrence of `needle`. */
  lemma {:induction false} ContainsIffOccurrence(hay: string, needle: string)
    ensures Contains(hay, needle) <==> exists i :: OccursAt(hay, needle, i)
  {
    if |hay| == 0 {
      if Contains(hay, needle) {
        assert OccursAt(hay, needle, 0);
      }
    } else {
      ContainsIffOccurrence(hay[1..], needle);
      if Contains(hay, needle) {
        if StartsWith(hay, needle) {
          assert OccursAt(hay, needle, 0);
        } else {
          var i :| OccursAt(hay[1..], needle, i);
          assert hay[i + 1..i + 1 + |needle|] == hay[1..][i..i + |needle|];
          assert OccursAt(hay, needle, i + 1);
        }
      } else {
        forall i | 0 <= i <= |hay| - |needle| ensures !OccursAt(hay, needle, i) {
          if i == 0 {
            assert hay[..|needle|] == hay[0..0 + |needle|];
          } else {
            assert hay[i..i + |needle|] == hay[1..][i - 1..i - 1 + |needle|];
            assert !OccursAt(hay[1..], needle, i - 1);
          }
        }
      }
    }
  }

  /** Every string contains the empty string and itself. */
  lemma ContainsTrivial(hay: string)
    ensures Contains(hay, "")
    ensures Contains(hay, hay)
  {
    assert hay[..0] == "";
    assert hay[..|hay|] == hay;
  }

  /** A substring of the tail is a substring of the whole. */
  lemma ContainsSuffix(a: string, b: string, needle: string)
    requires Contains(b, needle)
    ensures Contains(a + b, needle)
  {
    ContainsIffOccurrence(b, needle);
    var i :| OccursAt(b, needle, i);
    assert (a + b)[|a| + i..|a| + i + |needle|] == b[i..i + |needle|];
    assert OccursAt(a + b, needle, |a| + i);
    ContainsIffOccurrence(a + b, needle);
  }
}
