/**
 * File-name sanitising (components/cloud/code/utils/misc.py): every
 * character that is neither alphanumeric nor explicitly allowed becomes
 * an underscore, and runs of underscores can be collapsed.
 */
module Misc {
  import opened Chars

  /** A character kept as it is. */
  predicate Allowed(c: char, valid: string) {
    IsAlnum(c) || c in valid
  }

  /** The comprehension of `safe_string`: each character kept or replaced by `_`. */
  function SafeChars(s: string, valid: string): (r: string)
    ensures |r| == |s|
  {
    seq(|s|, i requires 0 <= i < |s| => if Allowed(s[i], valid) then s[i] else '_')
  }

  /** The leading underscores of s removed. */
  function DropUnderscores(s: string): (r: string)
    ensures |r| <= |s| && (r == [] || r[0] != '_')
    ensures r == s[|s| - |r|..]
  {
    if s != [] && s[0] == '_' then DropUnderscores(s[1..]) else s
  }

  /** `re.sub(r"_+", "_", s)`: every maximal run of underscores becomes one. */
  function CollapseUnderscores(s: string): string
    decreases |s|
  {
    if s == [] then []
    else if s[0] == '_' then ['_'] + CollapseUnderscores(DropUnderscores(s))
    else [s[0]] + CollapseUnderscores(s[1..])
  }

  /** safe_string. */
  function SafeString(s: string, valid: string, noRepeat: bool): string {
    var safe := SafeChars(s, valid);
    if noRepeat then CollapseUnderscores(safe) else safe
  }

  /** safe_name: letters, digits, `-`, `_` and `.` survive. */
  function SafeName(s: string): string {
    SafeString(s, "-_.", false)
  }

  // ---------------------------------------------------------------------
  // Properties
  // ---------------------------------------------------------------------

  /** Every character is allowed or an underscore. */
  predicate Sanitised(s: string, valid: string) {
    forall i :: 0 <= i < |s| ==> Allowed(s[i], valid) || s[i] == '_'
  }

  predicate NoDoubleUnderscore(s: string) {
    forall i :: 0 <= i < |s| - 1 ==> !(s[i] == '_' && s[i + 1] == '_')
  }

  /** The characters of s other than underscores, in order. */
  function Skeleton(s: string): string {
    if s == [] then [] else (if s[0] == '_' then [] else [s[0]]) + Skeleton(s[1..])
  }

  /** Without `no_repeat` the length is kept, and each character is the
      input's when allowed and `_` otherwise. */
  lemma SafeCharsSpec(s: string, valid: string)
    ensures |SafeString(s, valid, false)| == |s|
    ensures forall i :: 0 <= i < |s| ==>
      (Allowed(s[i], valid) ==> SafeString(s, valid, false)[i] == s[i])
      && (!Allowed(s[i], valid) ==> SafeString(s, valid, false)[i] == '_')
    ensures Sanitised(SafeString(s, valid, false), valid)
  {
  }

  /** Collapsing leaves no two underscores in a row; it starts with an
      underscore exactly when the input does. */
  lemma {:induction false} CollapseNoDouble(s: string)
    ensures NoDoubleUnderscore(CollapseUnderscores(s))
    ensures CollapseUnderscores(s) == [] <==> s == []
    ensures s != [] ==> (CollapseUnderscores(s)[0] == '_' <==> s[0] == '_')
    decreases |s|
  {
    if s != [] {
      if s[0] == '_' {
        CollapseNoDouble(DropUnderscores(s));
      } else {
        CollapseNoDouble(s[1..]);
      }
    }
  }

  /** Collapsing keeps every character other than an underscore, in order. */
  lemma {:induction false} CollapseSkeleton(s: string)
    ensures Skeleton(CollapseUnderscores(s)) == Skeleton(s)
    decreases |s|
  {
    if s != [] {
      if s[0] == '_' {
        CollapseSkeleton(DropUnderscores(s));
        DropSkeleton(s);
        assert Skeleton(['_'] + CollapseUnderscores(DropUnderscores(s))) == Skeleton(CollapseUnderscores(DropUnderscores(s)));
      } else {
        CollapseSkeleton(s[1..]);
        assert Skeleton([s[0]] + CollapseUnderscores(s[1..])) == [s[0]] + Skeleton(CollapseUnderscores(s[1..]));
      }
    }
  }

  /** A string without two underscores in a row is left as it is. */
  lemma {:induction false} CollapseFixed(s: string)
    requires NoDoubleUnderscore(s)
    ensures CollapseUnderscores(s) == s
    decreases |s|
  {
    if s != [] {
      assert NoDoubleUnderscore(s[1..]);
      CollapseFixed(s[1..]);
      if s[0] == '_' {
        assert DropUnderscores(s) == s[1..];
      }
    }
  }

  /** Leading underscores do not show in the skeleton. */
  lemma {:induction false} DropSkeleton(s: string)
    ensures Skeleton(DropUnderscores(s)) == Skeleton(s)
    decreases |s|
  {
    if s != [] && s[0] == '_' {
      DropSkeleton(s[1..]);
    }
  }

  /** Collapsing only removes underscores, so a sanitised string stays so. */
  lemma {:induction false} CollapseSanitised(s: string, valid: string)
    requires Sanitised(s, valid)
    ensures Sanitised(CollapseUnderscores(s), valid)
    decreases |s|
  {
    if s != [] {
      if s[0] == '_' {
        var rest := DropUnderscores(s);
        assert Sanitised(rest, valid) by {
          forall i | 0 <= i < |rest| ensures Allowed(rest[i], valid) || rest[i] == '_' {
            assert rest[i] == s[|s| - |rest| + i];
          }
        }
        CollapseSanitised(rest, valid);
      } else {
        CollapseSanitised(s[1..], valid);
      }
    }
  }

  /** A sanitised string goes through the comprehension unchanged. */
  lemma SafeCharsFixed(s: string, valid: string)
    requires Sanitised(s, valid)
    ensures SafeChars(s, valid) == s
  {
  }

  /** With `no_repeat`, the output has no two underscores in a row. */
  lemma SafeStringNoRepeat(s: string, valid: string)
    ensures NoDoubleUnderscore(SafeString(s, valid, true))
  {
    CollapseNoDouble(SafeChars(s, valid));
  }

  /** safe_string is idempotent for fixed `valid` and `no_repeat`. */
  lemma SafeStringIdempotent(s: string, valid: string, noRepeat: bool)
    ensures SafeString(SafeString(s, valid, noRepeat), valid, noRepeat) == SafeString(s, valid, noRepeat)
  {
    var safe := SafeChars(s, valid);
    SafeCharsSpec(s, valid);
    if noRepeat {
      var once := CollapseUnderscores(safe);
      CollapseSanitised(safe, valid);
      SafeCharsFixed(once, valid);
      CollapseNoDouble(safe);
      CollapseFixed(once);
    } else {
      SafeCharsFixed(safe, valid);
    }
  }

  /** A safe name holds only alphanumerics, `-`, `_` and `.`; in
      particular no path separator. */
  lemma SafeNameChars(s: string)
    ensures |SafeName(s)| == |s|
    ensures forall i :: 0 <= i < |SafeName(s)| ==>
      IsAlnum(SafeName(s)[i]) || SafeName(s)[i] in "-_."
    ensures '/' !in SafeName(s)
  {
    SafeCharsSpec(s, "-_.");
  }
}
