/**
 * What DefaultAssetResolver promises: the master switch, the choice between the
 * local prefix and the CDNs, the slash handling of the join, and where and how the
 * version token is spliced in.
 */
module ResolverProperties {
  import opened Wrappers
  import opened JavaLang
  import opened JavaNio
  import opened StringUtils
  import opened DefaultAssetResolver

  // ---- Master switch ----

  /** A disabled resolver hands back the path it was given, whatever the CDN name or override. */
  lemma DisabledReturnsPath(props: AssetProperties, host: Host, path: string, cdn: Option<string>, forceLocal: bool)
    requires !props.enabled
    ensures Resolve(props, host, path, cdn, forceLocal) == path
  {
  }

  // ---- Local or CDN ----

  /** Forcing local resolution takes the local branch, and the CDN name plays no part in it. */
  lemma ForcedLocalIgnoresCdn(props: AssetProperties, host: Host, path: string, cdn: Option<string>, other: Option<string>)
    requires props.enabled
    ensures Resolve(props, host, path, cdn, true) == ResolveLocal(props, host, path)
    ensures Resolve(props, host, path, cdn, true) == Resolve(props, host, path, other, true)
  {
  }

  /** "dev" and "development" match exactly the names that spell them in any mix of case. */
  lemma DevProfileSpellings(profile: string)
    ensures IsDevProfile(profile) <==> LowerAscii(profile) == "dev" || LowerAscii(profile) == "development"
  {
    EqualsIgnoreCaseIsLowerEquality(profile, "dev");
    EqualsIgnoreCaseIsLowerEquality(profile, "development");
    assert LowerAscii("dev") == "dev";
    assert LowerAscii("development") == "development";
  }

  /**
   * Without the override, the local branch is taken exactly when local-in-dev is
   * configured and the profiles are empty or include "dev"/"development" in any case;
   * otherwise the CDN branch is.
   */
  lemma LocalWhenDevelopment(props: AssetProperties, host: Host, path: string, cdn: Option<string>)
    requires props.enabled
    ensures var ps := host.activeProfiles;
            Resolve(props, host, path, cdn, false) ==
              if props.useLocalInDev &&
                 (|ps| == 0 || exists k :: 0 <= k < |ps| && LowerAscii(ps[k]) in {"dev", "development"})
              then ResolveLocal(props, host, path)
              else ResolveCdn(props, host, path, cdn)
  {
    var ps := host.activeProfiles;
    forall k | 0 <= k < |ps|
      ensures IsDevProfile(ps[k]) <==> LowerAscii(ps[k]) in {"dev", "development"}
    {
      DevProfileSpellings(ps[k]);
    }
  }

  // ---- CDN choice ----

  /** A named CDN that is not configured yields the bare path: there is no fallback to the default CDN. */
  lemma UnknownCdnNameHasNoFallback(props: AssetProperties, host: Host, path: string, name: string, forceLocal: bool)
    requires props.enabled && !ShouldUseLocal(props, host.activeProfiles, forceLocal)
    requires HasText(Some(name)) && name !in props.cdns
    ensures Resolve(props, host, path, Some(name), forceLocal) == path
  {
  }

  /** A named CDN that is configured with a URL is the origin the versioned path is joined to. */
  lemma KnownCdnNameIsUsed(props: AssetProperties, host: Host, path: string, name: string, forceLocal: bool)
    requires props.enabled && !ShouldUseLocal(props, host.activeProfiles, forceLocal)
    requires HasText(Some(name)) && name in props.cdns && HasText(Some(props.cdns[name]))
    ensures Resolve(props, host, path, Some(name), forceLocal)
            == CombinePaths(props.cdns[name], AddVersionIfNeeded(props, host, path))
  {
  }

  /** A blank CDN name is the same as none: both go to the default CDN. */
  lemma BlankCdnNameIsNoName(props: AssetProperties, host: Host, path: string, cdn: Option<string>, forceLocal: bool)
    requires !HasText(cdn)
    ensures ResolveCdnUrl(props, cdn) == props.defaultCdn
    ensures Resolve(props, host, path, cdn, forceLocal) == Resolve(props, host, path, None, forceLocal)
  {
  }

  /** resolve(path) joins the versioned path to the default CDN, or returns the path when there is none. */
  lemma SimpleResolveUsesDefaultCdn(props: AssetProperties, host: Host, path: string)
    requires props.enabled && !(props.useLocalInDev && DevelopmentEnvironment(host.activeProfiles))
    ensures HasText(props.defaultCdn) ==>
              ResolveSimple(props, host, path) == CombinePaths(props.defaultCdn.value, AddVersionIfNeeded(props, host, path))
    ensures !HasText(props.defaultCdn) ==> ResolveSimple(props, host, path) == path
  {
  }

  /** With no usable CDN URL the CDN branch returns the original path, unversioned even when versioning is on. */
  lemma NoCdnUrlLeavesPathUnversioned(props: AssetProperties, host: Host, path: string, cdn: Option<string>, forceLocal: bool)
    requires props.enabled && !ShouldUseLocal(props, host.activeProfiles, forceLocal)
    requires !HasText(ResolveCdnUrl(props, cdn))
    ensures Resolve(props, host, path, cdn, forceLocal) == path
  {
  }

  // ---- Join ----

  /**
   * The join puts exactly one '/' between a base and a path that carry none at the
   * join point, and a trailing slash on the base or a leading slash on the path
   * changes nothing.
   */
  lemma CombinePathsNormalisesSlashes(base: string, path: string)
    requires base == [] || base[|base| - 1] != '/'
    requires path == [] || path[0] != '/'
    ensures CombinePaths(base + "/", "/" + path) == base + "/" + path
    ensures CombinePaths(base + "/", path) == base + "/" + path
    ensures CombinePaths(base, "/" + path) == base + "/" + path
    ensures CombinePaths(base, path) == base + "/" + path
  {
    assert (base + "/")[..|base + "/"| - 1] == base;
  }

  // ---- Version token ----

  /** Versioning is the identity when it is switched off or no token is available. */
  lemma NoTokenMeansNoVersion(props: AssetProperties, host: Host, path: string)
    requires !props.versionAssets || VersionToken(props, host, path).None?
    ensures AddVersionIfNeeded(props, host, path) == path
  {
  }

  /**
   * Only the exact strategy "hash" asks for the file hash; anything else, null
   * included, uses the clock, which always gives a token: the decimal digits of the
   * current time, read back as that time.
   */
  lemma TokenByStrategy(props: AssetProperties, host: Host, path: string)
    ensures props.versionStrategy == Some("hash") ==>
              VersionToken(props, host, path) == CalculateFileHash(host.staticFileMd5, path)
    ensures props.versionStrategy != Some("hash") ==>
              && VersionToken(props, host, path).Some?
              && var t := VersionToken(props, host, path).value;
                 (forall k :: 0 <= k < |t| ==> '0' <= t[k] <= '9') && ParseLong(t) == host.currentTimeMillis
  {
    ValueOfRoundTrip(host.currentTimeMillis);
  }

  /**
   * The versioned path is the extension-stripped path, a dot and the token, then the
   * original extension; taking the dot and token back out gives the path again.
   */
  lemma WithVersionRoundTrip(path: string, version: string)
    ensures var r, base := WithVersion(path, version), StripFilenameExtension(path);
            && r[..|base|] == base
            && r[|base|..|base| + 1 + |version|] == "." + version
            && r[..|base|] + r[|base| + 1 + |version|..] == path
  {
    SplitAtExtension(path);
    SpliceParts(StripFilenameExtension(path), version, ExtensionSuffix(path));
  }

  /** The three parts of a spliced string, read back by position. */
  lemma SpliceParts(base: string, version: string, suffix: string)
    ensures var r := base + "." + version + suffix;
            && r[..|base|] == base
            && r[|base|..|base| + 1 + |version|] == "." + version
            && r[..|base|] + r[|base| + 1 + |version|..] == base + suffix
  {
    var r := base + "." + version + suffix;
    assert r == base + ("." + version) + suffix;
    assert r[|base| + 1 + |version|..] == suffix;
  }

  /** Versioning a path that has an extension keeps that extension. */
  lemma WithVersionKeepsExtension(path: string, version: string)
    requires GetFilenameExtension(path).Some?
    ensures GetFilenameExtension(WithVersion(path, version)) == GetFilenameExtension(path)
    ensures StripFilenameExtension(WithVersion(path, version)) == StripFilenameExtension(path) + "." + version
  {
    var e := GetFilenameExtension(path).value;
    var head := StripFilenameExtension(path) + "." + version;
    assert ExtensionSuffix(path) == "." + e;
    assert WithVersion(path, version) == head + "." + e;
    ExtensionOfDotSuffix(head, e);
  }

  /** A path without an extension gets the token as its extension, when the token has no dot or slash. */
  lemma WithVersionOfExtensionless(path: string, version: string)
    requires GetFilenameExtension(path).None? && '.' !in version && '/' !in version
    ensures GetFilenameExtension(WithVersion(path, version)) == Some(version)
    ensures StripFilenameExtension(WithVersion(path, version)) == path
  {
    assert WithVersion(path, version) == path + "." + version;
    ExtensionOfDotSuffix(path, version);
  }

  /** Versioning a path behind a folder versions the part after the folder. */
  lemma WithVersionAfterFolder(folder: string, path: string, version: string)
    requires |folder| > 0 && folder[|folder| - 1] == '/'
    ensures WithVersion(folder + path, version) == folder + WithVersion(path, version)
  {
    var sw, xw := StripFilenameExtension(folder + path), ExtensionSuffix(folder + path);
    var sp, xp := StripFilenameExtension(path), ExtensionSuffix(path);
    StripAfterFolder(folder, path);
    ExtensionAfterFolder(folder, path);
    FolderInFront(folder, sp, version, xp, sw, xw);
  }

  /** A splice whose head is `folder + sp` is `folder` in front of the splice with head `sp`. */
  lemma FolderInFront(folder: string, sp: string, version: string, xp: string, sw: string, xw: string)
    requires sw == folder + sp && xw == xp
    ensures sw + "." + version + xw == folder + (sp + "." + version + xp)
  {
  }

  /** A versioned path starts with '/' exactly when the path does. */
  lemma WithVersionKeepsLeadingSlash(path: string, version: string)
    ensures var r := WithVersion(path, version);
            (|r| > 0 && r[0] == '/') <==> (|path| > 0 && path[0] == '/')
  {
    var base := StripFilenameExtension(path);
    SplitAtExtension(path);
    if |base| > 0 {
      assert base[0] == (base + ExtensionSuffix(path))[0];
      assert WithVersion(path, version)[0] == base[0];
    } else {
      assert WithVersion(path, version)[0] == '.';
      if |path| > 0 {
        assert path == ExtensionSuffix(path);
        assert path[0] == '.';
      }
    }
  }

  /** combinePaths adds nothing between the cleaned base and a path that starts with '/' ... */
  lemma CombineRooted(base: string, path: string)
    ensures CombinePaths(base, "/" + path) == (CleanBase(base) + "/") + path
  {
  }

  /** ... and adds one to a path without it. */
  lemma CombineRelative(base: string, path: string)
    requires path == [] || path[0] != '/'
    ensures CombinePaths(base, path) == (CleanBase(base) + "/") + path
  {
  }

  /** A leading folder and the version token commute: versioning a prefixed path prefixes the versioned path. */
  lemma WithVersionAfterPrefix(base: string, path: string, version: string)
    ensures WithVersion(CombinePaths(base, path), version) == CombinePaths(base, WithVersion(path, version))
  {
    var folder := CleanBase(base) + "/";
    if |path| > 0 && path[0] == '/' {
      var q := path[1..];
      assert path == "/" + q;
      CombineRooted(base, q);
      WithVersionAfterFolder(folder, q, version);
      WithVersionAfterFolder("/", q, version);
      CombineRooted(base, WithVersion(q, version));
    } else {
      CombineRelative(base, path);
      WithVersionAfterFolder(folder, path, version);
      WithVersionKeepsLeadingSlash(path, version);
      CombineRelative(base, WithVersion(path, version));
    }
  }

  /**
   * The hash lookup sees only the file name, so a local prefix in front of a path that
   * names a file does not change the token.
   */
  lemma PrefixKeepsFileHash(staticFileMd5: string -> Option<string>, base: string, path: string)
    requires '\0' !in base && HasNonSlash(path)
    ensures CalculateFileHash(staticFileMd5, CombinePaths(base, path)) == CalculateFileHash(staticFileMd5, path)
  {
    var q := if |path| > 0 && path[0] == '/' then path[1..] else path;
    JoinWithoutLeadingSlash(base, path, q);
    FileNameBehindBase(base, q);
  }

  /** combinePaths is the cleaned base, one '/', then the path without its own leading '/'. */
  lemma JoinWithoutLeadingSlash(base: string, path: string, q: string)
    requires HasNonSlash(path) && q == if |path| > 0 && path[0] == '/' then path[1..] else path
    ensures HasNonSlash(q)
    ensures CombinePaths(base, path) == (CleanBase(base) + "/") + q
  {
    var k :| 0 <= k < |path| && path[k] != '/';
    if |path| > 0 && path[0] == '/' {
      assert q[k - 1] == path[k];
      assert path == "/" + q;
      CombineRooted(base, q);
    } else {
      CombineRelative(base, path);
    }
  }

  /** After the hash lookup drops one leading '/', the file name behind the cleaned base is that of `q`. */
  lemma FileNameBehindBase(base: string, q: string)
    requires '\0' !in base && HasNonSlash(q)
    ensures var combined := (CleanBase(base) + "/") + q;
            FileName(if combined[0] == '/' then combined[1..] else combined) == FileName(q)
  {
    var cleanBase := CleanBase(base);
    var combined := (cleanBase + "/") + q;
    if cleanBase == [] {
      assert combined[1..] == q;
    } else {
      var folder := (if cleanBase[0] == '/' then cleanBase[1..] else cleanBase) + "/";
      assert '\0' !in folder by {
        assert forall k :: 0 <= k < |folder| - 1 ==> folder[k] in base;
      }
      assert (if combined[0] == '/' then combined[1..] else combined) == folder + q;
      FileNameAfterFolder(folder, q);
    }
  }

  /** Prefixing a named file keeps its version token, under either strategy. */
  lemma PrefixKeepsToken(props: AssetProperties, host: Host, base: string, path: string)
    requires '\0' !in base && HasNonSlash(path)
    ensures VersionToken(props, host, CombinePaths(base, path)) == VersionToken(props, host, path)
  {
    PrefixKeepsFileHash(host.staticFileMd5, base, path);
  }

  // ---- Which path gets the version ----

  /** The CDN branch versions the bare path and then joins it to the CDN URL. */
  lemma CdnBranchJoinsVersionedPath(props: AssetProperties, host: Host, path: string, cdn: Option<string>, forceLocal: bool)
    requires props.enabled && !ShouldUseLocal(props, host.activeProfiles, forceLocal)
    requires HasText(ResolveCdnUrl(props, cdn))
    ensures Resolve(props, host, path, cdn, forceLocal)
            == CombinePaths(ResolveCdnUrl(props, cdn).value, AddVersionIfNeeded(props, host, path))
  {
  }

  /**
   * The local branch versions the prefixed path, yet for a path that names a file the
   * result is the local prefix joined to the versioned bare path: the same shape as
   * the CDN branch, with the same token.
   */
  lemma LocalBranchJoinsVersionedPath(props: AssetProperties, host: Host, path: string, forceLocal: bool)
    requires props.enabled && ShouldUseLocal(props, host.activeProfiles, forceLocal)
    requires HasText(props.localPath) && '\0' !in props.localPath.value && HasNonSlash(path)
    ensures Resolve(props, host, path, None, forceLocal)
            == AddVersionIfNeeded(props, host, CombinePaths(props.localPath.value, path))
    ensures Resolve(props, host, path, None, forceLocal)
            == CombinePaths(props.localPath.value, AddVersionIfNeeded(props, host, path))
  {
    var prefix := props.localPath.value;
    PrefixKeepsToken(props, host, prefix, path);
    if props.versionAssets {
      match VersionToken(props, host, path)
      case None =>
      case Some(version) => WithVersionAfterPrefix(prefix, path, version);
    }
  }

  /** Without a local path with text, the local branch versions the bare path and adds nothing else. */
  lemma LocalBranchWithoutPrefix(props: AssetProperties, host: Host, path: string, cdn: Option<string>, forceLocal: bool)
    requires props.enabled && ShouldUseLocal(props, host.activeProfiles, forceLocal)
    requires !HasText(props.localPath)
    ensures Resolve(props, host, path, cdn, forceLocal) == AddVersionIfNeeded(props, host, path)
  {
  }

  // ---- Defaults and examples ----

  /**
   * With the default properties and no active profile, resolution is local with an
   * empty prefix and versions by file hash: the path gets the hash spliced in when the
   * file is found and stays as it is otherwise.
   */
  lemma DefaultsVersionLocallyByHash(host: Host, path: string, cdn: Option<string>, forceLocal: bool)
    requires host.activeProfiles == []
    ensures var r := Resolve(DefaultProperties, host, path, cdn, forceLocal);
            match CalculateFileHash(host.staticFileMd5, path)
            case Some(hash) => r == WithVersion(path, hash)
            case None => r == path
  {
    assert !HasText(Some(""));
  }

  /** A configured CDN and a non-development profile: "logo.svg" becomes the CDN URL with the path appended. */
  lemma NamedCdnExample(host: Host)
    requires host.activeProfiles == ["prod"]
    ensures var props := DefaultProperties.(versionAssets := false, cdns := map["cdn1" := "https://cdn1.example.com"]);
            Resolve(props, host, "logo.svg", Some("cdn1"), false) == "https://cdn1.example.com/logo.svg"
  {
    var props := DefaultProperties.(versionAssets := false, cdns := map["cdn1" := "https://cdn1.example.com"]);
    var url, path := "https://cdn1.example.com", "logo.svg";
    assert !IsDevProfile("prod");
    assert HasText(Some("cdn1")) by { assert !IsWhitespace("cdn1"[0]); }
    assert HasText(Some(url)) by { assert !IsWhitespace(url[0]); }
    assert Resolve(props, host, path, Some("cdn1"), false) == CombinePaths(url, path);
    assert CleanBase(url) == url;
    CombineRelative(url, path);
  }

  /** No path is rejected: a traversal sequence goes through to the CDN URL untouched. */
  lemma TraversalIsNotRejected(host: Host)
    requires host.activeProfiles == ["prod"]
    ensures var props := DefaultProperties.(versionAssets := false, defaultCdn := Some("https://cdn.example.com"));
            ResolveSimple(props, host, "../../../etc/passwd") == "https://cdn.example.com/../../../etc/passwd"
  {
    var props := DefaultProperties.(versionAssets := false, defaultCdn := Some("https://cdn.example.com"));
    var url, path := "https://cdn.example.com", "../../../etc/passwd";
    assert !IsDevProfile("prod");
    assert HasText(Some(url)) by { assert !IsWhitespace(url[0]); }
    assert ResolveSimple(props, host, path) == CombinePaths(url, path);
    assert CleanBase(url) == url;
    CombineRelative(url, path);
  }
}
