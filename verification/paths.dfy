/** POSIX path handling as Python's `os.path.basename` and `os.path.join` do it on a
    POSIX system: the separator is '/', and nothing is normalised. */
module Paths {

  /** Where the basename of `p` starts: just after the last '/' of `p`, or 0 when `p`
      holds no '/'. */
  function BasenameStart(p: string): (s: nat)
    ensures s <= |p|
    ensures forall k :: s <= k < |p| ==> p[k] != '/'
    ensures s > 0 ==> p[s - 1] == '/'
    decreases |p|
  {
    if |p| == 0 then 0
    else if p[|p| - 1] == '/' then |p|
    else BasenameStart(p[..|p| - 1])
  }

  /** `os.path.basename`: the part of `p` after its last '/' (all of `p` when it holds
      no '/'). The three ensures clauses pin the result down: it is the longest suffix
      of `p` without a '/'. */
  function Basename(p: string): (r: string)
    ensures '/' !in r
    ensures |r| <= |p| && p[|p| - |r|..] == r
    ensures |r| < |p| ==> p[|p| - |r| - 1] == '/'
  {
    var s := BasenameStart(p);
    assert forall k :: 0 <= k < |p| - s ==> p[s..][k] == p[s + k];
    p[s..]
  }

  /** `os.path.join(a, b)` for two components: an absolute `b` replaces `a`; otherwise
      a '/' is inserted unless `a` is empty or already ends with one. */
  function Join(a: string, b: string): (r: string)
    ensures |b| <= |r| && r[|r| - |b|..] == b
    ensures (|b| > 0 && b[0] == '/') || |a| == 0 ==> r == b
    ensures !(|b| > 0 && b[0] == '/') && |a| > 0 ==>
              && |a| <= |r| - |b| && r[..|a|] == a
              && r[|r| - |b| - 1] == '/'
              && |r| - |b| - |a| <= 1
    ensures !(|b| > 0 && b[0] == '/') && |a| > 0 ==>
              |r| == |a| + |b| + (if a[|a| - 1] == '/' then 0 else 1)
  {
    if |b| > 0 && b[0] == '/' then b
    else if |a| == 0 || a[|a| - 1] == '/' then a + b
    else a + "/" + b
  }

  /** The positions a slash-free suffix occupies hold no '/'. */
  lemma SuffixHasNoSlash(p: string, r: string)
    requires '/' !in r
    requires |r| <= |p| && p[|p| - |r|..] == r
    ensures forall k :: |p| - |r| <= k < |p| ==> p[k] != '/'
  {
    forall k | |p| - |r| <= k < |p|
      ensures p[k] != '/'
    {
      assert p[k] == r[k - (|p| - |r|)];
    }
  }

  /** A slash-free suffix that is all of `p` or follows a '/' is as long as the
      basename: neither can reach past the other's delimiting '/'. */
  lemma BasenameLength(p: string, r: string)
    requires '/' !in r
    requires |r| <= |p| && p[|p| - |r|..] == r
    requires |r| < |p| ==> p[|p| - |r| - 1] == '/'
    ensures |Basename(p)| == |r|
  {
    var b := Basename(p);
    SuffixHasNoSlash(p, r);
    SuffixHasNoSlash(p, b);
    assert |b| >= |r| by {
      if |b| < |p| {
        assert p[|p| - |b| - 1] == '/';
      }
    }
    assert |r| >= |b| by {
      if |r| < |p| {
        assert p[|p| - |r| - 1] == '/';
      }
    }
  }

  /** A slash-free suffix that is all of `p` or follows a '/' is the basename. */
  lemma BasenameUnique(p: string, r: string)
    requires '/' !in r
    requires |r| <= |p| && p[|p| - |r|..] == r
    requires |r| < |p| ==> p[|p| - |r| - 1] == '/'
    ensures Basename(p) == r
  {
    BasenameLength(p, r);
    var b := Basename(p);
    var n := |p| - |r|;
    assert b == p[n..];
  }

  /** Joining a directory with a slash-free name gives back that name as basename. */
  lemma BasenameOfJoin(dir: string, name: string)
    requires '/' !in name
    ensures Basename(Join(dir, name)) == name
  {
    var p := Join(dir, name);
    if |name| > 0 {
      assert name[0] in name;
    }
    if |dir| == 0 {
      assert p == name;
    } else if dir[|dir| - 1] == '/' {
      assert p == dir + name;
      assert p[|p| - |name| - 1] == dir[|dir| - 1];
    } else {
      assert p == dir + "/" + name;
    }
    assert p[|p| - |name|..] == name;
    BasenameUnique(p, name);
  }

  /** A name holding a '/' is not its own basename after a join: the join keeps it,
      the basename cuts it. */
  lemma JoinedNameWithSlash()
    ensures Join("data", "session/rec.edf") == "data/session/rec.edf"
    ensures Basename(Join("data", "session/rec.edf")) == "rec.edf"
  {
    var p := Join("data", "session/rec.edf");
    assert p == "data/session/rec.edf";
    BasenameUnique(p, "rec.edf");
  }
}
