/** The string operations the loader relies on: Python's `in` test on strings
    (substring containment) and `str.upper()` restricted to ASCII letters. */
module Text {

  /** `p` is a prefix of `s`. */
  predicate IsPrefix(p: string, s: string) {
    |p| <= |s| && s[..|p|] == p
  }

  /** Python's `sub in s` for strings: `sub` occurs somewhere in `s` (the empty string
      occurs in every string). Scans `s` from the front. */
  predicate Contains(s: string, sub: string)
    decreases |s|
  {
    |sub| <= |s| && (IsPrefix(sub, s) || Contains(s[1..], sub))
  }

  /** An occurrence of `sub` at position `i` of `s` makes `s` contain it. */
  lemma {:induction false} OccurrenceIsContained(s: string, sub: string, i: nat)
    requires i <= |s| && IsPrefix(sub, s[i..])
    ensures Contains(s, sub)
    decreases i
  {
    if i > 0 {
      assert s[1..][i - 1..] == s[i..];
      OccurrenceIsContained(s[1..], sub, i - 1);
    } else {
      assert s[0..] == s;
    }
  }

  /** The scan agrees with the reference definition: `s` contains `sub` exactly when
      `sub` occurs at some position of `s`. */
  lemma {:induction false} ContainsIffOccurs(s: string, sub: string)
    ensures Contains(s, sub) <==> exists i :: 0 <= i <= |s| && IsPrefix(sub, s[i..])
    decreases |s|
  {
    if exists i :: 0 <= i <= |s| && IsPrefix(sub, s[i..]) {
      var i :| 0 <= i <= |s| && IsPrefix(sub, s[i..]);
      OccurrenceIsContained(s, sub, i);
    }
    if Contains(s, sub) {
      if IsPrefix(sub, s) {
        assert s[0..] == s;
      } else {
        ContainsIffOccurs(s[1..], sub);
        var i :| 0 <= i <= |s[1..]| && IsPrefix(sub, s[1..][i..]);
        assert s[1..][i..] == s[i + 1..];
      }
    }
  }

  /** A string cannot contain a non-empty string whose first character it lacks. */
  lemma {:induction false} FirstCharAbsent(s: string, sub: string)
    requires |sub| > 0 && sub[0] !in s
    ensures !Contains(s, sub)
    decreases |s|
  {
    if |sub| <= |s| {
      assert s[0] != sub[0];
      assert s[1..] <= s[1..];
      assert forall c :: c in s[1..] ==> c in s;
      FirstCharAbsent(s[1..], sub);
    }
  }

  lemma PrefixIsContained(s: string, p: string)
    requires IsPrefix(p, s)
    ensures Contains(s, p)
  {
  }

  lemma ContainedIsNoLonger(s: string, sub: string)
    requires Contains(s, sub)
    ensures |sub| <= |s|
  {
  }

  /** Python's `s[n:]`: the characters from position `n` on, and the empty string when
      `n` is past the end. */
  function DropFront(s: string, n: nat): (r: string)
    ensures |r| == if n <= |s| then |s| - n else 0
    ensures n <= |s| ==> s == s[..n] + r
    ensures forall i :: 0 <= i < |r| ==> r[i] == s[n + i]
  {
    if n <= |s| then s[n..] else []
  }

  function UpperChar(c: char): char {
    if 'a' <= c <= 'z' then (c as int - 32) as char else c
  }

  /** `str.upper()` on ASCII letters; every other character is kept as it is. */
  function Upper(s: string): (r: string)
    ensures |r| == |s|
    ensures forall i :: 0 <= i < |r| ==> !('a' <= r[i] <= 'z')
    ensures forall i :: 0 <= i < |s| && 'a' <= s[i] <= 'z' ==> r[i] as int == s[i] as int - 32
    ensures forall i :: 0 <= i < |s| && !('a' <= s[i] <= 'z') ==> r[i] == s[i]
  {
    seq(|s|, i requires 0 <= i < |s| => UpperChar(s[i]))
  }

  lemma UpperIdempotent(s: string)
    ensures Upper(Upper(s)) == Upper(s)
  {
    var u := Upper(s);
    forall i | 0 <= i < |s|
      ensures Upper(u)[i] == u[i]
    {
      assert UpperChar(UpperChar(s[i])) == UpperChar(s[i]);
    }
  }
}
