/**
 * Levenshtein edit distance (insertions, deletions and substitutions of one
 * character, each costing 1), the metric `textdistance.levenshtein.distance`
 * computes, together with a linear test for "at most one edit apart", the
 * only question the plate reader ever asks of it.
 */
module Levenshtein {

  function Min3(a: nat, b: nat, c: nat): nat {
    if a <= b && a <= c then a else if b <= c then b else c
  }

  /** The textbook recurrence: drop the first character of `a` (deletion),
      of `b` (insertion), or of both (substitution, free when they agree). */
  function Distance(a: string, b: string): nat
    decreases |a| + |b|
  {
    if |a| == 0 then |b|
    else if |b| == 0 then |a|
    else Min3(Distance(a[1..], b) + 1,
              Distance(a, b[1..]) + 1,
              Distance(a[1..], b[1..]) + (if a[0] == b[0] then 0 else 1))
  }

  /** Linear-time test: walk the common prefix, then at the first mismatch
      the rests must agree after one deletion, insertion or substitution. */
  predicate WithinOneEdit(a: string, b: string)
    decreases |a| + |b|
  {
    if |a| == 0 then |b| <= 1
    else if |b| == 0 then |a| <= 1
    else if a[0] == b[0] then WithinOneEdit(a[1..], b[1..])
    else a[1..] == b || a == b[1..] || a[1..] == b[1..]
  }

  lemma {:induction false} DistanceToSelf(a: string)
    ensures Distance(a, a) == 0
  {
    if |a| > 0 {
      DistanceToSelf(a[1..]);
    }
  }

  lemma {:induction false} DistanceZeroOnlyToSelf(a: string, b: string)
    requires Distance(a, b) == 0
    ensures a == b
    decreases |a| + |b|
  {
    if |a| > 0 && |b| > 0 {
      assert Distance(a[1..], b[1..]) + (if a[0] == b[0] then 0 else 1) == 0;
      DistanceZeroOnlyToSelf(a[1..], b[1..]);
      assert a == [a[0]] + a[1..] && b == [b[0]] + b[1..];
    }
  }

  /** The distance is zero exactly between equal strings. */
  lemma DistanceZeroIff(a: string, b: string)
    ensures Distance(a, b) == 0 <==> a == b
  {
    if a == b {
      DistanceToSelf(a);
    } else if Distance(a, b) == 0 {
      DistanceZeroOnlyToSelf(a, b);
    }
  }

  /** Removing the first character is one deletion (or one insertion). */
  lemma DropFirstIsOneEdit(s: string)
    requires |s| > 0
    ensures Distance(s, s[1..]) <= 1 && Distance(s[1..], s) <= 1
  {
    DistanceToSelf(s[1..]);
  }

  /** The linear test decides `Distance(a, b) <= 1` exactly. */
  lemma {:induction false} WithinOneEditIffDistanceAtMostOne(a: string, b: string)
    ensures WithinOneEdit(a, b) <==> Distance(a, b) <= 1
    decreases |a| + |b|
  {
    if |a| == 0 || |b| == 0 {
      return;
    }
    var del, ins, sub := Distance(a[1..], b), Distance(a, b[1..]), Distance(a[1..], b[1..]);
    DistanceZeroIff(a[1..], b);
    DistanceZeroIff(a, b[1..]);
    DistanceZeroIff(a[1..], b[1..]);
    if a[0] == b[0] {
      WithinOneEditIffDistanceAtMostOne(a[1..], b[1..]);
      if Distance(a, b) <= 1 {
        // Whichever branch of the minimum is at most one, the tails are
        // at most one apart.
        if del == 0 {
          assert a[1..] == b;
          DropFirstIsOneEdit(b);
        } else if ins == 0 {
          assert a == b[1..];
          DropFirstIsOneEdit(a);
        }
      }
    } else {
      if a[1..] == b {
        DistanceToSelf(b);
      } else if a == b[1..] {
        DistanceToSelf(a);
      } else if a[1..] == b[1..] {
        DistanceToSelf(b[1..]);
      }
    }
  }

  /** A common prefix does not change whether two strings are one edit apart. */
  lemma {:induction false} WithinOneEditCommonPrefix(u: string, v: string, w: string)
    ensures WithinOneEdit(u + v, u + w) <==> WithinOneEdit(v, w)
  {
    if u != [] {
      assert (u + v)[1..] == u[1..] + v && (u + w)[1..] == u[1..] + w;
      WithinOneEditCommonPrefix(u[1..], v, w);
    } else {
      assert u + v == v && u + w == w;
    }
  }
}
