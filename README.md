# Thymeleaf asset dialect: the asset resolver in Dafny

This project models `DefaultAssetResolver`, the component of the Thymeleaf asset dialect that
rewrites a static-asset path (`css/site.css`, `logo.svg`) into the URL a page should reference.
One call of `resolve(path, cdn, forceLocal)`:

- returns the path untouched when the dialect is disabled;
- otherwise picks the local branch, when the caller forces it or when local-in-dev is
  configured and the active Spring profiles look like development (none active, or one named
  `dev`/`development` in any case);
- or else picks a CDN: a named one from the `cdns` table, or the default one when no name
  (or a blank one) is given. When that gives no URL, it returns the path untouched;
- can splice a version token into the file name, in front of the extension. The token is the
  MD5 digest of the static file with the same file name for the strategy `hash`, and the
  current time in milliseconds for any other strategy;
- joins origin and path with `combinePaths`. That helper drops one trailing `/` from the
  origin and adds a leading `/` to the path when it has none.

The resolver's fields are final and nothing in it changes state, so the model is a set of
pure functions over an immutable configuration value (`AssetProperties`) and a `Host` value.
The `Host` holds the three things the resolver reads from outside:

- the active profiles;
- the static-resource directory, seen as a map from file name to MD5 digest;
- the clock.

The early-return loop over the profiles is also given as a method with a `while` loop. That
method is proved to compute the predicate the resolver's functions use.

Files:

- `wrappers.dfy`: `Option`, standing for Java's `null`.
- `java_lang.dfy`: the JDK pieces the resolver uses. These are `Character.isWhitespace`,
  `String.lastIndexOf`, `String.equalsIgnoreCase`, `String.valueOf(long)` and, as its
  partner, `Long.parseLong`.
- `string_utils.dfy`: Spring's `StringUtils.hasText`, `getFilenameExtension` and
  `stripFilenameExtension`.
- `java_nio.dfy`: `Path.of(p).getFileName()` on a Unix file system.
- `default_asset_resolver.dfy`: the resolver: configuration, branch choice, CDN lookup, hash
  lookup, version splicing, path joining, `resolve` and the `resolve(path)` shorthand.
- `resolver_properties.dfy`: the properties the resolver promises, as lemmas.

## Model

| member | source | states |
|---|---|---|
| `JavaLang.LastIndexOf` | core/src/main/java/io/github/thymeleaf/assetdialect/tad/DefaultAssetResolver.java:93-94 | the result is -1 or a position holding the character, and no later position holds it |
| `JavaLang.EqualsIgnoreCaseIsLowerEquality` | core/src/main/java/io/github/thymeleaf/assetdialect/tad/DefaultAssetResolver.java:59 | two profile names are equal ignoring case exactly when their lower-case forms are equal |
| `JavaLang.ValueOf` | core/src/main/java/io/github/thymeleaf/assetdialect/tad/DefaultAssetResolver.java:89 | the timestamp token is a non-empty string of decimal digits with no leading zero (only 0 renders as "0") |
| `JavaLang.ValueOfRoundTrip` | core/src/main/java/io/github/thymeleaf/assetdialect/tad/DefaultAssetResolver.java:89 | parsing the timestamp token gives back the clock value it was made from |
| `StringUtils.GetFilenameExtension` | core/src/main/java/io/github/thymeleaf/assetdialect/tad/DefaultAssetResolver.java:93 | an extension, when there is one, contains no '.' and no '/' |
| `StringUtils.ExtensionIffDotInLastSegment` | core/src/main/java/io/github/thymeleaf/assetdialect/tad/DefaultAssetResolver.java:93 | a path has an extension exactly when the text after its last '/' contains a dot |
| `StringUtils.StripFilenameExtension` | core/src/main/java/io/github/thymeleaf/assetdialect/tad/DefaultAssetResolver.java:94 | the stripped path followed by "." and the extension is the original path; without an extension nothing is stripped |
| `StringUtils.SplitAtExtension` | core/src/main/java/io/github/thymeleaf/assetdialect/tad/DefaultAssetResolver.java:93-95 | the stripped path followed by the optional ".ext" is the original path |
| `StringUtils.ExtensionAfterFolder` | core/src/main/java/io/github/thymeleaf/assetdialect/tad/DefaultAssetResolver.java:93 | a folder ending in '/' put in front of a path does not change its extension |
| `StringUtils.StripAfterFolder` | core/src/main/java/io/github/thymeleaf/assetdialect/tad/DefaultAssetResolver.java:94 | stripping the extension of a path behind a folder strips it from the part after the folder |
| `StringUtils.ExtensionOfDotSuffix` | core/src/main/java/io/github/thymeleaf/assetdialect/tad/DefaultAssetResolver.java:93-94 | a final dot followed by text with no dot or slash is the extension, and stripping removes exactly that |
| `JavaNio.TrimTrailingSlashes` | core/src/main/java/io/github/thymeleaf/assetdialect/tad/DefaultAssetResolver.java:108 | the result is a prefix of the path, everything cut off is '/', and it does not end in '/' |
| `JavaNio.FileName` | core/src/main/java/io/github/thymeleaf/assetdialect/tad/DefaultAssetResolver.java:106-108 | there is no file name exactly when the path has a NUL or is made only of '/'; otherwise the name is a slash-free suffix of the path without its trailing '/', and it is either that whole trimmed path or comes right after a '/' |
| `JavaNio.TrimTrailingSlashesConcat` | core/src/main/java/io/github/thymeleaf/assetdialect/tad/DefaultAssetResolver.java:108 | trailing slashes are trimmed from the part that names something, whatever comes before it |
| `JavaNio.FileNameIsLastSegment` | core/src/main/java/io/github/thymeleaf/assetdialect/tad/DefaultAssetResolver.java:108 | for a NUL-free path with a character other than '/', a string is its file name exactly when it is the slash-free last segment of the trimmed path |
| `JavaNio.LastSegmentUnique` | core/src/main/java/io/github/thymeleaf/assetdialect/tad/DefaultAssetResolver.java:108 | a trimmed path has at most one slash-free last segment, so the file name is determined |
| `JavaNio.FileNameAfterFolder` | core/src/main/java/io/github/thymeleaf/assetdialect/tad/DefaultAssetResolver.java:108 | a folder in front of a path that names something does not change its file name |
| `JavaLang.IsWhitespace` | core/src/main/java/io/github/thymeleaf/assetdialect/tad/DefaultAssetResolver.java:73 | Character.isWhitespace, the test inside hasText; blank names behave as absent by `ResolverProperties.BlankCdnNameIsNoName` |
| `JavaLang.EqualsIgnoreCase` | core/src/main/java/io/github/thymeleaf/assetdialect/tad/DefaultAssetResolver.java:59 | equalsIgnoreCase on ASCII letters; `JavaLang.EqualsIgnoreCaseIsLowerEquality` states it as equality of lower-case forms |
| `StringUtils.HasText` | core/src/main/java/io/github/thymeleaf/assetdialect/tad/DefaultAssetResolver.java:38 | Spring's hasText; what it means for the CDN branch is stated by `ResolverProperties.NoCdnUrlLeavesPathUnversioned` and `ResolverProperties.BlankCdnNameIsNoName` |
| `DefaultAssetResolver.DefaultProperties` | core/src/main/java/io/github/thymeleaf/assetdialect/tad/AssetProperties.java:15-21 | the bean's initial values; `ResolverProperties.DefaultsVersionLocallyByHash` states what resolve does with them |
| `DefaultAssetResolver.IsDevProfile` | core/src/main/java/io/github/thymeleaf/assetdialect/tad/DefaultAssetResolver.java:59 | a profile named "dev" or "development" in any case; `ResolverProperties.DevProfileSpellings` states it through lower-case forms |
| `DefaultAssetResolver.DevelopmentEnvironment` | core/src/main/java/io/github/thymeleaf/assetdialect/tad/DefaultAssetResolver.java:57-64 | some profile is a development one, or none is active; `DefaultAssetResolver.IsDevelopmentEnvironment` is the loop proved to compute it |
| `DefaultAssetResolver.ShouldUseLocal` | core/src/main/java/io/github/thymeleaf/assetdialect/tad/DefaultAssetResolver.java:49-55 | the override, or local-in-dev in a development environment; stated by `ResolverProperties.ForcedLocalIgnoresCdn` and `ResolverProperties.LocalWhenDevelopment` |
| `DefaultAssetResolver.CombinePaths` | core/src/main/java/io/github/thymeleaf/assetdialect/tad/DefaultAssetResolver.java:122-126 | the join; stated by `ResolverProperties.CombinePathsNormalisesSlashes`, `ResolverProperties.CombineRooted` and `ResolverProperties.CombineRelative` |
| `DefaultAssetResolver.ResolveCdnUrl` | core/src/main/java/io/github/thymeleaf/assetdialect/tad/DefaultAssetResolver.java:72-77 | the CDN lookup; stated by `ResolverProperties.UnknownCdnNameHasNoFallback`, `ResolverProperties.KnownCdnNameIsUsed` and `ResolverProperties.BlankCdnNameIsNoName` |
| `DefaultAssetResolver.CalculateFileHash` | core/src/main/java/io/github/thymeleaf/assetdialect/tad/DefaultAssetResolver.java:104-120 | the hash lookup by file name; `ResolverProperties.PrefixKeepsFileHash` states that a local prefix does not change it |
| `DefaultAssetResolver.VersionToken` | core/src/main/java/io/github/thymeleaf/assetdialect/tad/DefaultAssetResolver.java:85-90 | the token by strategy; stated by `ResolverProperties.TokenByStrategy` and `ResolverProperties.PrefixKeepsToken` |
| `DefaultAssetResolver.WithVersion` | core/src/main/java/io/github/thymeleaf/assetdialect/tad/DefaultAssetResolver.java:92-96 | the splice; stated by `ResolverProperties.WithVersionRoundTrip`, `ResolverProperties.WithVersionKeepsExtension`, `ResolverProperties.WithVersionOfExtensionless` and `ResolverProperties.WithVersionAfterPrefix` |
| `DefaultAssetResolver.AddVersionIfNeeded` | core/src/main/java/io/github/thymeleaf/assetdialect/tad/DefaultAssetResolver.java:79-102 | versioning; stated by `ResolverProperties.NoTokenMeansNoVersion` and `ResolverProperties.TokenByStrategy` |
| `DefaultAssetResolver.ResolveLocal` | core/src/main/java/io/github/thymeleaf/assetdialect/tad/DefaultAssetResolver.java:66-70 | the local branch; stated by `ResolverProperties.LocalBranchJoinsVersionedPath` and `ResolverProperties.LocalBranchWithoutPrefix` |
| `DefaultAssetResolver.ResolveCdn` | core/src/main/java/io/github/thymeleaf/assetdialect/tad/DefaultAssetResolver.java:36-46 | the CDN branch; stated by `ResolverProperties.NoCdnUrlLeavesPathUnversioned` and `ResolverProperties.CdnBranchJoinsVersionedPath` |
| `DefaultAssetResolver.Resolve` | core/src/main/java/io/github/thymeleaf/assetdialect/tad/DefaultAssetResolver.java:26-47 | resolve; stated by `ResolverProperties.DisabledReturnsPath`, `ResolverProperties.LocalWhenDevelopment`, `ResolverProperties.CdnBranchJoinsVersionedPath` and `ResolverProperties.TraversalIsNotRejected` |
| `DefaultAssetResolver.ResolveSimple` | core/src/main/java/io/github/thymeleaf/assetdialect/tad/AssetResolver.java:23-25 | resolve(path); stated by `ResolverProperties.SimpleResolveUsesDefaultCdn` |
| `DefaultAssetResolver.IsDevelopmentEnvironment` | core/src/main/java/io/github/thymeleaf/assetdialect/tad/DefaultAssetResolver.java:57-64 | the loop answers true exactly when some profile is "dev"/"development" ignoring case, or no profile is active |
| `ResolverProperties.DisabledReturnsPath` | core/src/main/java/io/github/thymeleaf/assetdialect/tad/DefaultAssetResolver.java:27-29 | a disabled resolver returns the path unchanged for every CDN name and override |
| `ResolverProperties.ForcedLocalIgnoresCdn` | core/src/main/java/io/github/thymeleaf/assetdialect/tad/DefaultAssetResolver.java:32-52 | with the override the result is the local-branch result and is the same for any two CDN names |
| `ResolverProperties.DevProfileSpellings` | core/src/main/java/io/github/thymeleaf/assetdialect/tad/DefaultAssetResolver.java:59 | a profile counts as development exactly when its lower-case form is "dev" or "development" |
| `ResolverProperties.LocalWhenDevelopment` | core/src/main/java/io/github/thymeleaf/assetdialect/tad/DefaultAssetResolver.java:49-64 | without the override the local branch is taken iff local-in-dev is set and the profiles are empty or contain a development name; otherwise the CDN branch |
| `ResolverProperties.UnknownCdnNameHasNoFallback` | core/src/main/java/io/github/thymeleaf/assetdialect/tad/DefaultAssetResolver.java:72-77 | a non-blank CDN name missing from the table yields the bare path, whatever the default CDN is |
| `ResolverProperties.KnownCdnNameIsUsed` | core/src/main/java/io/github/thymeleaf/assetdialect/tad/DefaultAssetResolver.java:72-77 | a configured CDN name makes its URL the origin of the versioned path |
| `ResolverProperties.BlankCdnNameIsNoName` | core/src/main/java/io/github/thymeleaf/assetdialect/tad/DefaultAssetResolver.java:72-77 | a null or blank CDN name selects the default CDN and resolves like no name at all |
| `ResolverProperties.SimpleResolveUsesDefaultCdn` | core/src/main/java/io/github/thymeleaf/assetdialect/tad/AssetResolver.java:23-25 | outside development, resolve(path) joins the versioned path to the default CDN, or returns the path when there is none |
| `ResolverProperties.NoCdnUrlLeavesPathUnversioned` | core/src/main/java/io/github/thymeleaf/assetdialect/tad/DefaultAssetResolver.java:37-40 | on the CDN branch, an absent or blank CDN URL returns the original path, unversioned |
| `ResolverProperties.CombinePathsNormalisesSlashes` | core/src/main/java/io/github/thymeleaf/assetdialect/tad/DefaultAssetResolver.java:122-126 | with or without a trailing '/' on the base and a leading '/' on the path, the join is base + "/" + path |
| `ResolverProperties.CombineRooted` | core/src/main/java/io/github/thymeleaf/assetdialect/tad/DefaultAssetResolver.java:122-126 | nothing is added between the cleaned base (the base without one trailing '/') and a path that starts with '/' |
| `ResolverProperties.CombineRelative` | core/src/main/java/io/github/thymeleaf/assetdialect/tad/DefaultAssetResolver.java:122-126 | a path without a leading '/' gets exactly one |
| `ResolverProperties.NoTokenMeansNoVersion` | core/src/main/java/io/github/thymeleaf/assetdialect/tad/DefaultAssetResolver.java:79-101 | versioning is the identity when it is off or the token is null |
| `ResolverProperties.TokenByStrategy` | core/src/main/java/io/github/thymeleaf/assetdialect/tad/DefaultAssetResolver.java:86-90 | only the exact strategy "hash" uses the file hash; any other value, null included, always gives the decimal current time |
| `ResolverProperties.WithVersionRoundTrip` | core/src/main/java/io/github/thymeleaf/assetdialect/tad/DefaultAssetResolver.java:92-96 | the versioned path begins with the stripped path, then "." and the token; removing that gives back the original path |
| `ResolverProperties.WithVersionKeepsExtension` | core/src/main/java/io/github/thymeleaf/assetdialect/tad/DefaultAssetResolver.java:93-95 | a path with an extension keeps it after versioning, and its stripped form gains ".token" |
| `ResolverProperties.WithVersionOfExtensionless` | core/src/main/java/io/github/thymeleaf/assetdialect/tad/DefaultAssetResolver.java:93-95 | a path without an extension ends in ".token", which then reads as its extension |
| `ResolverProperties.WithVersionAfterFolder` | core/src/main/java/io/github/thymeleaf/assetdialect/tad/DefaultAssetResolver.java:93-95 | versioning a path behind a folder versions only the part after the folder |
| `ResolverProperties.WithVersionKeepsLeadingSlash` | core/src/main/java/io/github/thymeleaf/assetdialect/tad/DefaultAssetResolver.java:95 | a versioned path starts with '/' exactly when the original does |
| `ResolverProperties.WithVersionAfterPrefix` | core/src/main/java/io/github/thymeleaf/assetdialect/tad/DefaultAssetResolver.java:66-70 | versioning the joined path equals joining the versioned path |
| `ResolverProperties.PrefixKeepsFileHash` | core/src/main/java/io/github/thymeleaf/assetdialect/tad/DefaultAssetResolver.java:104-120 | the hash lookup uses only the file name, so a local prefix does not change which file is hashed |
| `ResolverProperties.PrefixKeepsToken` | core/src/main/java/io/github/thymeleaf/assetdialect/tad/DefaultAssetResolver.java:86-90 | a local prefix in front of a path that names a file keeps its version token under either strategy |
| `ResolverProperties.CdnBranchJoinsVersionedPath` | core/src/main/java/io/github/thymeleaf/assetdialect/tad/DefaultAssetResolver.java:42-46 | the CDN branch versions the bare path, then joins it to the CDN URL |
| `ResolverProperties.LocalBranchJoinsVersionedPath` | core/src/main/java/io/github/thymeleaf/assetdialect/tad/DefaultAssetResolver.java:66-70 | the local branch versions the prefixed path, which equals the local path joined to the versioned bare path |
| `ResolverProperties.LocalBranchWithoutPrefix` | core/src/main/java/io/github/thymeleaf/assetdialect/tad/DefaultAssetResolver.java:66-69 | with a null or blank local path, the local branch is just the versioned path |
| `ResolverProperties.DefaultsVersionLocallyByHash` | core/src/main/java/io/github/thymeleaf/assetdialect/tad/AssetProperties.java:15-21 | with the default properties and no active profile, the result is the path with the file's hash spliced in, or the path when the file is not found |
| `ResolverProperties.NamedCdnExample` | core/src/main/java/io/github/thymeleaf/assetdialect/tad/DefaultAssetResolver.java:36-46 | "logo.svg" with CDN "cdn1" and no versioning resolves to "https://cdn1.example.com/logo.svg" |
| `ResolverProperties.TraversalIsNotRejected` | core/src/main/java/io/github/thymeleaf/assetdialect/tad/DefaultAssetResolver.java:26-47 | an enabled resolver passes "../../../etc/passwd" through to the CDN URL: nothing rejects it |

## Where the tests and the code disagree

The model follows the code:

- **No path validation.** `DefaultAssetResolver.java:26-47` checks nothing about the path, so
  every path resolves to a string. `TraversalIsNotRejected` shows a traversal path going
  through. The tests in `DefaultAssetResolverSecurityTest.java:43-169` expect an
  "Invalid asset path" rejection that the code never makes.
- **Where the hash comes from.** The hash is read by file name from the fixed directory
  `src/test/resources/static` (`DefaultAssetResolver.java:106-111`). Nothing checks where the
  path points.
- **`versionStrategy` is a free string.** Only the exact string `"hash"` selects hashing.
  Anything else, including `null` and misspellings, selects the timestamp.
- **Test expectations.** `DefaultAssetResolverTest.java:50` expects `/local/test.css`, but the
  code gives `/local/static/test.css`. Line 62 expects `https://cdn.example.com/test.css`, but the
  code gives `https://cdn.example.com/static/test.css`. Line 82 expects the local prefix to be
  absent, but the code keeps it.

## Left out

- Null `path`: the model's path is always a string. In Java, a null path comes back as null
  whenever no join happens:
  - when the resolver is disabled (lines 27-29);
  - on the CDN branch when no CDN URL has text (lines 38-39);
  - on the local branch without a local path, when versioning is off (lines 66-69, 80-81)
    or ends in a catch or a null hash (lines 97-101, 116-119).
  A join with a null path fails with a NullPointerException at line 124. With the timestamp
  strategy, the result also depends on how the Spring version's `stripFilenameExtension`
  treats null.
- A null `cdns` table and null values inside it are not modelled. The table is a map from
  names to strings.
- File I/O and MD5: `calculateFileHash` reads `src/test/resources/static/<file name>` and
  digests it. The model replaces this with the oracle `Host.staticFileMd5`. It still models
  the path handling before the read: one leading '/' dropped, Unix `getFileName`, and a NUL
  character giving no token.
- `Path.of` on non-Unix file systems (backslash separators, drive letters) is not modelled.
  Nor are characters that the platform charset cannot encode.
- The clock: `System.currentTimeMillis()` is the parameter `Host.currentTimeMillis`, a
  natural number. Negative clock values, which would render with a '-', are not modelled.
- The `catch (Exception e)` in `addVersionIfNeeded`: with a non-null path nothing inside the
  `try` throws (`calculateFileHash` catches its own failures), so the model has no exception
  path.
- `DefaultAssetResolver.IsDevProfile`: case-insensitive comparison folds ASCII letters only.
  Java's full Unicode case mapping is not modelled.
- `JavaLang.IsWhitespace` works on Unicode scalar values. Java's handling of UTF-16
  surrogate pairs is not modelled.
- `ResolverProperties.LocalBranchJoinsVersionedPath`: stated for paths with a character other
  than '/' and for local paths without NUL. For other paths, the hash lookup on the prefixed
  path can see a different file name.
- Template-engine adaptation (`AssetProcessor`, `AssetDialect`): attribute extraction and
  handler calls.
- Spring wiring (`ThymeleafConfig`) and the configuration beans (`AssetProperties` getters
  and setters, `DefaultAssetDialectConfiguration`, `AssetDialectConfiguration`). They are
  represented by the immutable `AssetProperties` value, with the bean's initial values in
  `DefaultProperties`.
- Concurrent changes to the configuration during a call: each call reads one snapshot.
