/**
 * DefaultAssetResolver: rewrites a static-asset path into the URL a page should use,
 * choosing a local prefix or a CDN origin and optionally splicing a version token
 * (a content hash or a timestamp) into the file name.
 *
 * The resolver's fields are final and its methods only read them, so every operation
 * is a function of the configuration snapshot, the host (active profiles, static files
 * and clock) and the call's arguments.
 */
module DefaultAssetResolver {
  import opened Wrappers
  import opened JavaLang
  import opened JavaNio
  import opened StringUtils

  /** The `tad.*` configuration properties; `None` is a property left null. */
  datatype AssetProperties = AssetProperties(
    enabled: bool,
    defaultCdn: Option<string>,
    cdns: map<string, string>,
    localPath: Option<string>,
    useLocalInDev: bool,
    versionAssets: bool,
    versionStrategy: Option<string>)

  /** The values a freshly constructed AssetProperties holds. */
  const DefaultProperties := AssetProperties(
    enabled := true,
    defaultCdn := None,
    cdns := map[],
    localPath := Some(""),
    useLocalInDev := true,
    versionAssets := true,
    versionStrategy := Some("hash"))

  /**
   * What the resolver reads from outside itself during one call: the Spring
   * environment's active profiles; the static-resource directory, as the MD5 hex
   * digest of the file with a given name there (`None` when it is missing or cannot
   * be read); and the wall clock in milliseconds since the epoch.
   */
  datatype Host = Host(
    activeProfiles: seq<string>,
    staticFileMd5: string -> Option<string>,
    currentTimeMillis: nat)

  /** A profile name that counts as development. */
  predicate IsDevProfile(profile: string) {
    EqualsIgnoreCase(profile, "dev") || EqualsIgnoreCase(profile, "development")
  }

  /** isDevelopmentEnvironment: some active profile is a development one, or none is active. */
  predicate DevelopmentEnvironment(activeProfiles: seq<string>) {
    || (exists k :: 0 <= k < |activeProfiles| && IsDevProfile(activeProfiles[k]))
    || |activeProfiles| == 0
  }

  /** isDevelopmentEnvironment as the early-return search the resolver runs over the profiles. */
  method IsDevelopmentEnvironment(activeProfiles: seq<string>) returns (dev: bool)
    ensures dev == DevelopmentEnvironment(activeProfiles)
  {
    var i := 0;
    while i < |activeProfiles|
      invariant 0 <= i <= |activeProfiles|
      invariant forall k :: 0 <= k < i ==> !IsDevProfile(activeProfiles[k])
    {
      if IsDevProfile(activeProfiles[i]) {
        return true;
      }
      i := i + 1;
    }
    return |activeProfiles| == 0;
  }

  /** shouldUseLocal */
  predicate ShouldUseLocal(props: AssetProperties, activeProfiles: seq<string>, forceLocal: bool) {
    forceLocal || (props.useLocalInDev && DevelopmentEnvironment(activeProfiles))
  }

  /** The base as combinePaths uses it: without one trailing '/'. */
  function CleanBase(base: string): string {
    if |base| > 0 && base[|base| - 1] == '/' then base[..|base| - 1] else base
  }

  /** combinePaths: drop one trailing '/' from the base, make sure the path starts with '/'. */
  function CombinePaths(base: string, path: string): string {
    var cleanPath := if |path| > 0 && path[0] == '/' then path else "/" + path;
    CleanBase(base) + cleanPath
  }

  /** resolveCdnUrl: a named CDN is looked up in `cdns` only; no name means the default CDN. */
  function ResolveCdnUrl(props: AssetProperties, cdnName: Option<string>): Option<string> {
    if HasText(cdnName) then
      if cdnName.value in props.cdns then Some(props.cdns[cdnName.value]) else None
    else props.defaultCdn
  }

  /**
   * calculateFileHash: the MD5 digest of the static file whose name is the last
   * segment of `path` (after dropping one leading '/'), or `None` when the path has
   * no usable file name or the file cannot be read.
   */
  function CalculateFileHash(staticFileMd5: string -> Option<string>, path: string): Option<string> {
    var normalizedPath := if |path| > 0 && path[0] == '/' then path[1..] else path;
    match FileName(normalizedPath)
    case None => None
    case Some(fileName) => staticFileMd5(fileName)
  }

  /** The version token: the file's hash for the strategy "hash", the clock for any other. */
  function VersionToken(props: AssetProperties, host: Host, path: string): Option<string> {
    if props.versionStrategy == Some("hash") then CalculateFileHash(host.staticFileMd5, path)
    else Some(ValueOf(host.currentTimeMillis))
  }

  /** `path` with `"." + version` put in front of its extension (or at its end when it has none). */
  function WithVersion(path: string, version: string): string {
    StripFilenameExtension(path) + "." + version + ExtensionSuffix(path)
  }

  /** addVersionIfNeeded */
  function AddVersionIfNeeded(props: AssetProperties, host: Host, path: string): string {
    if !props.versionAssets then path
    else
      match VersionToken(props, host, path)
      case None => path
      case Some(version) => WithVersion(path, version)
  }

  /** resolveLocal: prefix the local path when it has text, then version the result. */
  function ResolveLocal(props: AssetProperties, host: Host, path: string): string {
    var resolvedPath := if HasText(props.localPath) then CombinePaths(props.localPath.value, path) else path;
    AddVersionIfNeeded(props, host, resolvedPath)
  }

  /** The CDN branch of resolve: no CDN URL leaves the path as it is; otherwise version, then join. */
  function ResolveCdn(props: AssetProperties, host: Host, path: string, cdn: Option<string>): string {
    var cdnUrl := ResolveCdnUrl(props, cdn);
    if !HasText(cdnUrl) then path
    else CombinePaths(cdnUrl.value, AddVersionIfNeeded(props, host, path))
  }

  /** resolve(path, cdn, forceLocal) */
  function Resolve(props: AssetProperties, host: Host, path: string, cdn: Option<string>, forceLocal: bool): string {
    if !props.enabled then path
    else if ShouldUseLocal(props, host.activeProfiles, forceLocal) then ResolveLocal(props, host, path)
    else ResolveCdn(props, host, path, cdn)
  }

  /** resolve(path): the interface's shorthand, with no CDN name and no forced local resolution. */
  function ResolveSimple(props: AssetProperties, host: Host, path: string): string {
    Resolve(props, host, path, None, false)
  }
}
