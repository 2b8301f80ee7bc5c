/** The helpers of Spring's org.springframework.util.StringUtils that the resolver calls. */
module StringUtils {
  import opened Wrappers
  import opened JavaLang

  /** hasText: not null, and at least one character that is not whitespace. */
  predicate HasText(s: Option<string>) {
    s.Some? && exists k :: 0 <= k < |s.value| && !IsWhitespace(s.value[k])
  }

  /**
   * getFilenameExtension: the text after the last '.', unless a '/' follows that
   * dot (or there is no dot), in which case there is no extension.
   */
  function GetFilenameExtension(path: string): (ext: Option<string>)
    ensures ext.Some? ==> '.' !in ext.value && '/' !in ext.value
  {
    var extIndex := LastIndexOf(path, '.');
    if extIndex == -1 then None
    else if LastIndexOf(path, '/') > extIndex then None
    else Some(path[extIndex + 1..])
  }

  /** A path has an extension exactly when its last segment (the text after the last '/') has a dot. */
  lemma ExtensionIffDotInLastSegment(path: string)
    ensures GetFilenameExtension(path).Some? <==> '.' in path[LastIndexOf(path, '/') + 1..]
  {
    var d, f := LastIndexOf(path, '.'), LastIndexOf(path, '/');
    ExtensionAt(path, d, f);
    if d >= 0 && f <= d {
      DotInSegment(path, d, f);
    } else {
      NoCharInTail(path, '.', f + 1);
    }
  }

  /** A dot at `d` after the slash at `f` lies in the segment after `f`. */
  lemma DotInSegment(path: string, d: int, f: int)
    requires -1 <= f < d < |path| && path[d] == '.'
    ensures '.' in path[f + 1..]
  {
    assert path[f + 1..][d - f - 1] == '.';
  }

  /** A character absent from every position from `from` on is absent from that tail. */
  lemma NoCharInTail(s: string, c: char, from: int)
    requires 0 <= from <= |s|
    requires forall j :: from <= j < |s| ==> s[j] != c
    ensures c !in s[from..]
  {
    assert forall k :: 0 <= k < |s[from..]| ==> s[from..][k] == s[from + k];
  }

  /** stripFilenameExtension: the path without its extension and the dot before it. */
  function StripFilenameExtension(path: string): (base: string)
    ensures GetFilenameExtension(path).None? ==> base == path
    ensures GetFilenameExtension(path).Some? ==> base + "." + GetFilenameExtension(path).value == path
  {
    var extIndex := LastIndexOf(path, '.');
    if extIndex == -1 then path
    else if LastIndexOf(path, '/') > extIndex then path
    else
      assert path[..extIndex] + "." + path[extIndex + 1..] == path;
      path[..extIndex]
  }

  /** `".ext"` when the path has an extension, the empty string otherwise. */
  function ExtensionSuffix(path: string): string {
    match GetFilenameExtension(path)
    case Some(ext) => "." + ext
    case None => ""
  }

  /** Splitting at the extension loses nothing. */
  lemma SplitAtExtension(path: string)
    ensures StripFilenameExtension(path) + ExtensionSuffix(path) == path
  {
  }

  /**
   * getFilenameExtension in terms of the last dot `d` and the last slash `f`: an unfolding
   * step for the proofs below, stating no more than the function's body.
   */
  lemma ExtensionAt(path: string, d: int, f: int)
    requires d == LastIndexOf(path, '.') && f == LastIndexOf(path, '/')
    ensures GetFilenameExtension(path) == if d == -1 || f > d then None else Some(path[d + 1..])
  {
  }

  /** The extension of a path depends only on its last segment: a folder in front of `q` leaves it alone. */
  lemma ExtensionAfterFolder(folder: string, q: string)
    requires |folder| > 0 && folder[|folder| - 1] == '/'
    ensures GetFilenameExtension(folder + q) == GetFilenameExtension(q)
  {
    var d, f := LastIndexOf(q, '.'), LastIndexOf(q, '/');
    var dr, fr := LastIndexOf(folder + q, '.'), LastIndexOf(folder + q, '/');
    ExtensionAt(folder + q, dr, fr);
    ExtensionAt(q, d, f);
    assert LastIndexOf(folder, '/') == |folder| - 1;
    if d == -1 {
      assert dr == -1 || fr > dr by {
        assert '.' !in q;
        LastIndexOfConcat(folder, q, '.');
        LastIndexOfConcat(folder, q, '/');
        assert dr < |folder| - 1;
      }
    } else {
      assert dr == |folder| + d && (fr > dr <==> f > d) by {
        assert q[d] == '.';
        LastIndexOfConcat(folder, q, '.');
        LastIndexOfConcat(folder, q, '/');
      }
      assert (folder + q)[dr + 1..] == q[d + 1..];
    }
  }

  /** Two strings followed by the same ".e", one of them behind `folder`, split the same way. */
  lemma SameBeforeDotSuffix(folder: string, q: string, e: string, sr: string, sq: string)
    requires sr + "." + e == folder + q && sq + "." + e == q
    ensures sr == folder + sq
  {
    var tail := "." + e;
    assert sr + tail == folder + q;
    assert (folder + sq) + tail == folder + q;
    assert |sr| == |folder + sq|;
    assert sr == (sr + tail)[..|sr|];
    assert folder + sq == ((folder + sq) + tail)[..|sr|];
  }

  /** ... and strips it from the same place. */
  lemma StripAfterFolder(folder: string, q: string)
    requires |folder| > 0 && folder[|folder| - 1] == '/'
    ensures StripFilenameExtension(folder + q) == folder + StripFilenameExtension(q)
  {
    ExtensionAfterFolder(folder, q);
    match GetFilenameExtension(q)
    case None =>
    case Some(e) =>
      SameBeforeDotSuffix(folder, q, e, StripFilenameExtension(folder + q), StripFilenameExtension(q));
  }

  /** A dot followed by text with no dot and no slash is the extension, whatever comes before. */
  lemma ExtensionOfDotSuffix(head: string, e: string)
    requires '.' !in e && '/' !in e
    ensures GetFilenameExtension(head + "." + e) == Some(e)
    ensures StripFilenameExtension(head + "." + e) == head
  {
    var tail := "." + e;
    var s := head + "." + e;
    assert s == head + tail;
    assert tail[0] == '.';
    assert LastIndexOf(tail, '.') == 0;
    assert '/' !in tail;
    LastIndexOfConcat(head, tail, '.');
    LastIndexOfConcat(head, tail, '/');
    assert s[|head| + 1..] == e;
    ExtensionAt(s, |head|, LastIndexOf(head, '/'));
    var base := StripFilenameExtension(s);
    assert |base| == |head|;
    assert base == (base + "." + e)[..|head|];
  }
}
