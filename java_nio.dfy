/** The part of java.nio.file.Path (Unix file system) that the hash lookup uses. */
module JavaNio {
  import opened Wrappers
  import opened JavaLang

  /** True when `s` has a character other than '/', i.e. names something other than a root. */
  predicate HasNonSlash(s: string) {
    exists k :: 0 <= k < |s| && s[k] != '/'
  }

  /** `s` without its run of trailing '/' characters (a Unix path drops them when parsed). */
  function TrimTrailingSlashes(s: string): (r: string)
    ensures |r| <= |s| && r == s[..|r|]
    ensures forall k :: |r| <= k < |s| ==> s[k] == '/'
    ensures r == [] || r[|r| - 1] != '/'
  {
    if |s| > 0 && s[|s| - 1] == '/' then TrimTrailingSlashes(s[..|s| - 1]) else s
  }

  /** `n` is a suffix of `t` that is all of `t` or comes right after a '/'. */
  predicate IsLastSegment(t: string, n: string) {
    && |n| <= |t|
    && t[|t| - |n|..] == n
    && (|n| == |t| || t[|t| - |n| - 1] == '/')
  }

  /**
   * Path.of(p).getFileName().toString(): the last non-empty segment of `p`; the
   * empty path names itself. `None` stands for the two failures: a NUL character
   * (InvalidPathException) and a path made only of '/' (the root has no file name,
   * so getFileName() is null).
   */
  function FileName(p: string): (name: Option<string>)
    ensures name.None? <==> '\0' in p || (p != [] && !HasNonSlash(p))
    ensures name.Some? ==> '/' !in name.value
    ensures name.Some? ==> IsLastSegment(TrimTrailingSlashes(p), name.value)
  {
    if '\0' in p then None
    else
      var t := TrimTrailingSlashes(p);
      if t == [] then (if p == [] then Some([]) else None)
      else
        assert t[|t| - 1] == p[|t| - 1];
        Some(t[LastIndexOf(t, '/') + 1..])
  }

  /** Adding trailing slashes only to a part before a named segment does not move the trim. */
  lemma {:induction false} TrimTrailingSlashesConcat(x: string, q: string)
    requires HasNonSlash(q)
    ensures TrimTrailingSlashes(x + q) == x + TrimTrailingSlashes(q)
  {
    var n := |q|;
    if q[n - 1] == '/' {
      assert (x + q)[..|x + q| - 1] == x + q[..n - 1];
      var k :| 0 <= k < n && q[k] != '/';
      assert q[..n - 1][k] != '/';
      TrimTrailingSlashesConcat(x, q[..n - 1]);
    }
  }

  /** Behind a folder, the text after the last '/' is the same as without the folder. */
  lemma AfterLastSlashBehindFolder(folder: string, t: string)
    requires |folder| > 0 && folder[|folder| - 1] == '/'
    ensures (folder + t)[LastIndexOf(folder + t, '/') + 1..] == t[LastIndexOf(t, '/') + 1..]
  {
    LastIndexOfConcat(folder, t, '/');
    var s := LastIndexOf(t, '/');
    if s == -1 {
      assert '/' !in t;
      assert LastIndexOf(folder, '/') == |folder| - 1;
      assert (folder + t)[|folder|..] == t;
    } else {
      assert t[s] == '/';
      assert (folder + t)[|folder| + s + 1..] == t[s + 1..];
    }
  }

  /** Whatever folder comes before `q`, the file name is that of `q`. */
  lemma FileNameAfterFolder(folder: string, q: string)
    requires |folder| > 0 && folder[|folder| - 1] == '/'
    requires '\0' !in folder && HasNonSlash(q)
    ensures FileName(folder + q) == FileName(q)
  {
    if '\0' in q {
      var k :| 0 <= k < |q| && q[k] == '\0';
      assert (folder + q)[|folder| + k] == '\0';
    } else {
      FileNameOfNamedBehindFolder(folder, q);
    }
  }

  /** The NUL-free case of FileNameAfterFolder. */
  lemma FileNameOfNamedBehindFolder(folder: string, q: string)
    requires |folder| > 0 && folder[|folder| - 1] == '/'
    requires '\0' !in folder && '\0' !in q && HasNonSlash(q)
    ensures FileName(folder + q) == FileName(q)
  {
    var t := TrimTrailingSlashes(q);
    assert FileName(q).Some? && FileName(folder + q).Some? by {
      var k :| 0 <= k < |q| && q[k] != '/';
      assert (folder + q)[|folder| + k] != '/';
      assert '\0' !in folder + q;
    }
    var n, m := FileName(q).value, FileName(folder + q).value;
    assert IsLastSegment(folder + t, m) by {
      TrimTrailingSlashesConcat(folder, q);
    }
    LastSegmentBehindFolder(folder, t, n);
    LastSegmentUnique(folder + t, m, n);
  }

  /** The last segment of `t` is still the last segment with a folder in front. */
  lemma LastSegmentBehindFolder(folder: string, t: string, n: string)
    requires |folder| > 0 && folder[|folder| - 1] == '/'
    requires IsLastSegment(t, n)
    ensures IsLastSegment(folder + t, n)
  {
    var ft := folder + t;
    assert ft[|ft| - |n|..] == t[|t| - |n|..];
    if |n| == |t| {
      assert ft[|ft| - |n| - 1] == folder[|folder| - 1];
    } else {
      assert ft[|ft| - |n| - 1] == t[|t| - |n| - 1];
    }
  }

  /** For a path that names something, the file name is exactly its slash-free last segment. */
  lemma FileNameIsLastSegment(p: string, n: string)
    requires '\0' !in p && HasNonSlash(p)
    ensures FileName(p) == Some(n) <==> IsLastSegment(TrimTrailingSlashes(p), n) && '/' !in n
  {
    if IsLastSegment(TrimTrailingSlashes(p), n) && '/' !in n {
      LastSegmentUnique(TrimTrailingSlashes(p), FileName(p).value, n);
    }
  }

  /**
   * At most one slash-free last segment: FileName's contract determines the name.
   */
  lemma LastSegmentUnique(t: string, a: string, b: string)
    requires IsLastSegment(t, a) && '/' !in a
    requires IsLastSegment(t, b) && '/' !in b
    ensures a == b
  {
    NoLongerSegment(t, a, b);
    NoLongerSegment(t, b, a);
  }

  /** A slash-free suffix cannot reach past the '/' in front of a last segment. */
  lemma NoLongerSegment(t: string, a: string, b: string)
    requires IsLastSegment(t, a)
    requires IsLastSegment(t, b) && '/' !in b
    ensures |b| <= |a|
  {
  }
}
