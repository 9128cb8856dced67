/** Helpers shared by the guard layer and the gallery document store:
    optional values, results, the "push at the head, keep the newest N"
    list update used by both logs, and the string tests the validators and
    the gallery filter rely on. */
module Common {

  datatype Option<T> = None | Some(value: T) {
    function GetOr(default: T): T {
      match this
      case Some(v) => v
      case None => default
    }
  }

  datatype Result<T, E> = Success(value: T) | Failure(error: E)

  datatype Outcome<E> = Pass | Fail(error: E)

  function Min(a: int, b: int): int { if a <= b then a else b }

  // ---------------------------------------------------------------------
  // Bounded logs kept newest first
  // ---------------------------------------------------------------------

  /** Insert at the head, then cut back to the first `cap` entries: the new
      entry goes to the head, and only the first `cap` entries stay. */
  function PushCapped<T>(s: seq<T>, x: T, cap: nat): (r: seq<T>)
    requires cap > 0
    ensures |r| == Min(|s| + 1, cap)
    ensures r[0] == x
    ensures r[1..] == s[..|r| - 1]
  {
    var pushed := [x] + s;
    if |pushed| > cap then pushed[..cap] else pushed
  }

  /** The log after the entries `xs` arrived one after another, oldest first. */
  function PushAll<T>(s: seq<T>, xs: seq<T>, cap: nat): seq<T>
    requires cap > 0
    decreases |xs|
  {
    if xs == [] then s else PushAll(PushCapped(s, xs[0], cap), xs[1..], cap)
  }

  function Reversed<T>(s: seq<T>): (r: seq<T>)
    ensures |r| == |s|
    ensures forall i :: 0 <= i < |s| ==> r[i] == s[|s| - 1 - i]
  {
    if s == [] then [] else Reversed(s[1..]) + [s[0]]
  }

  /** A capped log always holds the newest `cap` entries, newest first,
      with the oldest ones dropped silently. */
  lemma {:induction false} PushAllKeepsNewest<T>(s: seq<T>, xs: seq<T>, cap: nat)
    requires cap > 0 && |s| <= cap
    ensures PushAll(s, xs, cap) == (Reversed(xs) + s)[..Min(|xs| + |s|, cap)]
    decreases |xs|
  {
    if xs != [] {
      var p := PushCapped(s, xs[0], cap);
      var m := Min(|xs| + |s|, cap);
      PushAllKeepsNewest(p, xs[1..], cap);
      assert Min(|xs[1..]| + |p|, cap) == m;
      var rest := Reversed(xs[1..]);
      assert Reversed(xs) == rest + [xs[0]];
      assert p == ([xs[0]] + s)[..|p|];
      forall i | 0 <= i < m
        ensures (rest + p)[i] == (Reversed(xs) + s)[i]
      {
        if i >= |rest| {
          assert (rest + p)[i] == p[i - |rest|] == ([xs[0]] + s)[i - |rest|];
          assert (Reversed(xs) + s)[i] == (rest + ([xs[0]] + s))[i];
        }
      }
    }
  }

  // ---------------------------------------------------------------------
  // Strings
  // ---------------------------------------------------------------------

  /** JavaScript's `startsWith`. */
  predicate StartsWith(s: string, prefix: string) {
    |prefix| <= |s| && s[..|prefix|] == prefix
  }

  /** JavaScript's `endsWith`. */
  predicate EndsWith(s: string, suffix: string) {
    |suffix| <= |s| && s[|s| - |suffix|..] == suffix
  }

  /** `t` occurs in `s` starting at position `i`. */
  predicate OccursAt(s: string, t: string, i: int) {
    0 <= i && i + |t| <= |s| && s[i..i + |t|] == t
  }

  /** JavaScript's `includes`, scanning start positions left to right. */
  predicate Contains(s: string, t: string)
    decreases |s|
  {
    StartsWith(s, t) || (s != [] && Contains(s[1..], t))
  }

  /** The scan agrees with the positional definition of a substring. */
  lemma {:induction false} ContainsIffOccurs(s: string, t: string)
    ensures Contains(s, t) <==> exists i :: OccursAt(s, t, i)
    decreases |s|
  {
    if s != [] {
      ContainsIffOccurs(s[1..], t);
      if Contains(s[1..], t) {
        var i :| OccursAt(s[1..], t, i);
        assert s[i + 1..i + 1 + |t|] == s[1..][i..i + |t|];
        assert OccursAt(s, t, i + 1);
      }
      if StartsWith(s, t) {
        assert OccursAt(s, t, 0);
      }
      if i :| OccursAt(s, t, i) {
        if i == 0 {
          assert StartsWith(s, t);
        } else {
          assert s[1..][i - 1..i - 1 + |t|] == s[i..i + |t|];
          assert OccursAt(s[1..], t, i - 1);
        }
      }
    } else if Contains(s, t) {
      assert OccursAt(s, t, 0);
    } else {
      if i :| OccursAt(s, t, i) {
        assert StartsWith(s, t);
      }
    }
  }
}
