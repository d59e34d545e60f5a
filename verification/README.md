# Central page resolver

A Dafny model of `CentralHelper` from JBoss Tools Central. This class turns the configured location of the central web page into the `index.html` that the Central editor opens:

- A location that does not end in `.zip` is used as given. It gains `/index.html`, or just `index.html` when it already ends in `/`, unless it already ends in `index.html`.
- A location ending in `.zip` is an archive. When it cannot be parsed as a URI, the call fails with "Central page has an invalid URL". A location without a URI scheme is a local path. A `file:` URI is a local file. Any other scheme goes through the download cache, with the cache-forever policy.
- The archive is unpacked into `<cache root>/<first 6 hex digits of its SHA-1>`, and the page is `index.html` in that folder.
  - A folder that already exists is reused without extraction.
  - If a reused folder lacks `index.html`, it is deleted and extracted once more. This is a recursive call with `overwrite` set.
  - If a freshly extracted folder lacks `index.html`, the call fails with an I/O error and there is no retry.

Modules:

- `Wrappers`: `Option` and `Result`. `Err` stands for a thrown exception.
- `Strings`: Java's `endsWith`.
- `FileSystem`: the folders below the cache root as a `Disk`, which maps each folder path, nested folders included, to its entries and their kinds. Deleting a folder removes every folder below it too. Paths are strings, and `Path.resolve` joins a child name with `/`.
- `Collaborators`: the code the resolver calls but which is not modelled. Each piece is an uninterpreted function field of `Env`:
  - the URI parser;
  - `Paths.get(..).toAbsolutePath()`;
  - the download cache;
  - `DigestUtils.sha1`;
  - `UnArchiver`.

  Side effects are recorded as a log of `Effect`s: `Download`, `Delete` and `Extract`.
- `EntryPoint`: the `index.html` normalisation.
- `Extraction`: `extractIfNeeded` as written, which is recursive and uses the `overwrite` flag as its termination measure. Next to it is `ExtractWithOneRetry`, an explicit bounded-retry loop that takes the digest only once. It is proved to compute the same run. Because the digest is modelled as a deterministic function of the archive path, the second hash in the recursive call gives the same folder, so the path that call returns can be discarded without loss.
- `CentralHelper`: classification of the location, choice of the archive source, and `getCentralUrl`.

All paths below are relative to the repository root.

## Model

| member | source | states |
|---|---|---|
| EntryPoint.AsFolder | central/plugins/org.jboss.tools.central/src/org/jboss/tools/central/internal/CentralHelper.java:81-83 | the folder form ends in `/`; it is the location itself exactly when that already ends in `/`, and otherwise the location plus `/` |
| EntryPoint.WithIndexHtml | central/plugins/org.jboss.tools.central/src/org/jboss/tools/central/internal/CentralHelper.java:79-86 | the page always ends in `index.html`; it equals the location exactly when the location already ends in `index.html`; otherwise it is the location's folder form followed by `index.html` |
| EntryPoint.WithIndexHtmlIdempotent | central/plugins/org.jboss.tools.central/src/org/jboss/tools/central/internal/CentralHelper.java:79-86 | normalising an already normalised page changes nothing |
| EntryPoint.WithIndexHtmlExtends | central/plugins/org.jboss.tools.central/src/org/jboss/tools/central/internal/CentralHelper.java:79-86 | the location is a prefix of the page, and at most `/index.html` is added |
| EntryPoint.FolderPathExample | central/plugins/org.jboss.tools.central/src/org/jboss/tools/central/internal/CentralHelper.java:76-86 | `/local/dir/page` becomes `/local/dir/page/index.html` |
| EntryPoint.SlashUrlExample | central/plugins/org.jboss.tools.central/src/org/jboss/tools/central/internal/CentralHelper.java:80-84 | a URL ending in `/` gains only `index.html` |
| EntryPoint.SuffixTestIsTextual | central/plugins/org.jboss.tools.central/src/org/jboss/tools/central/internal/CentralHelper.java:80 | the suffix test is textual: a location ending in `myindex.html` is returned unchanged |
| FileSystem.NestedFolderIsDeleted | central/plugins/org.jboss.tools.central/src/org/jboss/tools/central/internal/CentralHelper.java:107-109 | deleting the destination folder also deletes every folder nested inside it |
| Extraction.Unpacking | central/plugins/org.jboss.tools.central/src/org/jboss/tools/central/internal/CentralHelper.java:111-114 | an extraction changes nothing outside the tree of its destination folder; after a successful one, the folder holds exactly the archive's entries |
| Extraction.ExtractIfNeeded | central/plugins/org.jboss.tools.central/src/org/jboss/tools/central/internal/CentralHelper.java:103-124 | a digest failure throws with no effect; otherwise nothing outside the digest-named folder's tree changes, and a returned page is that folder's `index.html`, present as a regular file; the effects are nothing, one extraction, or one deletion followed by one extraction; with `overwrite` set, the effects are exactly delete-then-extract |
| Extraction.CompleteFolderIsReused | central/plugins/org.jboss.tools.central/src/org/jboss/tools/central/internal/CentralHelper.java:110-116 | a folder that already holds `index.html` is returned as is: no deletion, no extraction, disk unchanged |
| Extraction.IncompleteFolderIsRebuiltOnce | central/plugins/org.jboss.tools.central/src/org/jboss/tools/central/internal/CentralHelper.java:107-121 | an existing folder without `index.html` is deleted and extracted exactly once; that single extraction decides success, a missing page or an extraction error |
| Extraction.FreshFolderIsNotRetried | central/plugins/org.jboss.tools.central/src/org/jboss/tools/central/internal/CentralHelper.java:110-121 | a folder that did not exist is extracted once and never deleted; if `index.html` is missing afterwards, the call fails at once |
| Extraction.ExtractWithOneRetry | central/plugins/org.jboss.tools.central/src/org/jboss/tools/central/internal/CentralHelper.java:103-124 | a loop of at most two attempts that hashes once computes exactly the same result, disk and effects as the recursive definition |
| CentralHelper.Classify | central/plugins/org.jboss.tools.central/src/org/jboss/tools/central/internal/CentralHelper.java:48-66 | a location is a page exactly when it does not end in `.zip`; a `.zip` location is invalid exactly when it does not parse; a parsed archive is a local path exactly when it has no scheme, and a `file` URI exactly when its scheme is `file` |
| CentralHelper.FetchArchive | central/plugins/org.jboss.tools.central/src/org/jboss/tools/central/internal/CentralHelper.java:57-66 | only a remote archive causes a download, and only a download can fail |
| CentralHelper.DownloadIfNeeded | central/plugins/org.jboss.tools.central/src/org/jboss/tools/central/internal/CentralHelper.java:96-101 | the download cache is asked once, with the cache-forever policy, and its file is the archive |
| CentralHelper.GetCentralUrl | central/plugins/org.jboss.tools.central/src/org/jboss/tools/central/internal/CentralHelper.java:46-87 | a returned page ends in `index.html`; a non-archive location is normalised with no effect on disk or network; an unparsable archive URL fails with the invalid-URL error and no effect; every download uses the cache-forever policy |
| CentralHelper.ArchiveSourceSelection | central/plugins/org.jboss.tools.central/src/org/jboss/tools/central/internal/CentralHelper.java:57-66 | no scheme gives the absolute local path, scheme `file` gives the URI's file, and neither downloads; any other scheme downloads first, and a failed download ends the call with the disk untouched |
| CentralHelper.ArchiveBranchIsExtraction | central/plugins/org.jboss.tools.central/src/org/jboss/tools/central/internal/CentralHelper.java:67-75 | for an archive location, the call extracts the archive the location names: it leaves the disk the extraction leaves, returns the extracted page, and turns an I/O error of the extraction into "Unable to open <zip>" |
| CentralHelper.ArchivePageIsDigestFolder | central/plugins/org.jboss.tools.central/src/org/jboss/tools/central/internal/CentralHelper.java:103-123 | a successful archive call returns `<cache root>/<digest prefix>/index.html`, whichever branch ran, and that file is then present |
| CentralHelper.OnlyDestinationChanges | central/plugins/org.jboss.tools.central/src/org/jboss/tools/central/internal/CentralHelper.java:103-124 | on disk, nothing outside the tree of the archive's digest-named folder can change |
| CentralHelper.AtMostOneExtraction | central/plugins/org.jboss.tools.central/src/org/jboss/tools/central/internal/CentralHelper.java:107-121 | a call extracts at most once, and every deletion is immediately followed by an extraction |
| CentralHelper.SecondCallReusesExtraction | central/plugins/org.jboss.tools.central/src/org/jboss/tools/central/internal/CentralHelper.java:110-116 | resolving the same location again, on the disk the first successful call left, gives the same page with no deletion or extraction and an unchanged disk |
| CentralHelper.FreshDownloadScenario | central/plugins/org.jboss.tools.central/src/org/jboss/tools/central/internal/CentralHelper.java:57-75 | a remote archive in an empty cache is downloaded, extracted once, and yields `<cache root>/<digest prefix>/index.html` |

## Left out

- `getCentralUrl(IProgressMonitor)` and `getCentralFolder` read a system property, a properties provider and the plug-in's state location. The cache root is a parameter of `GetCentralUrl` instead.
- The progress monitor is only passed through, so it is not modelled. Cancellation is not modelled either.
- The download cache (`URLTransportUtility`), `DigestUtils.sha1`, `UnArchiver` and the URI parser are not part of this model. They are uninterpreted, deterministic functions of `Env`. The digest is only assumed to have at least the six characters the folder name takes; a shorter one, which would throw an index exception, is not modelled.
- The retry hashes the archive a second time. Since the digest is a deterministic function, the model cannot express that second read failing or giving a different digest because the file changed in between.
- An extraction records only the entries of the extraction folder itself. Folders the archive creates below it are not added to the disk as folders of their own.
- A failing extraction is modelled as throwing an I/O error. It may first leave a partial folder behind.
- `Paths.get` and `toAbsolutePath` are opaque functions. Path joining uses `/`. The runtime exceptions `Paths.get` can throw are not modelled.
- `FileUtils.deleteDirectory` always succeeds and removes the folder. Its own I/O failures are not modelled.
- A regular file at the destination path is not modelled. The disk holds folders only, so `Files.isDirectory` means the folder is present.
- Concurrent calls for the same archive are not modelled. The resolver is modelled as one sequential call.
