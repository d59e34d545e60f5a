/**
 * `CentralHelper.getCentralUrl(remoteUrl, monitor)`: turns the configured
 * central page location into the `index.html` to open. A location ending in
 * `.zip` is an archive, taken from the local disk or the download cache and
 * unpacked into the extraction cache; any other location is used as given.
 */
module CentralHelper {
  import opened Wrappers
  import opened Strings
  import opened FileSystem
  import opened Collaborators
  import opened EntryPoint
  import opened Extraction

  const ZipSuffix: string := ".zip"
  const FileScheme: string := "file"

  /** The `CoreException`s of `getCentralUrl`. */
  datatype CentralError =
    | InvalidUrl                                   // "Central page has an invalid URL"
    | DownloadFailed(message: string)              // thrown by the download cache
    | UnableToOpen(zip: Path, cause: IoError)      // "Unable to open <zip>"

  /** Where an archive comes from. */
  datatype ArchiveSource =
    | LocalPath(path: string)    // no URI scheme
    | FileUri(uri: Uri)          // scheme `file`
    | RemoteUri(uri: Uri)        // any other scheme

  /** How a configured location is handled. */
  datatype Location =
    | Page(url: string)
    | Archive(source: ArchiveSource)
    | InvalidArchiveUrl

  /** The classification of a configured location. */
  function Classify(parseUri: string -> Option<Uri>, remoteUrl: string): (loc: Location)
    ensures loc.Page? <==> !EndsWith(remoteUrl, ZipSuffix)
    ensures loc.Page? ==> loc.url == remoteUrl
    ensures loc.InvalidArchiveUrl? <==> EndsWith(remoteUrl, ZipSuffix) && parseUri(remoteUrl).None?
    ensures loc.Archive? ==> parseUri(remoteUrl).Some?
    ensures loc.Archive? && loc.source.LocalPath? <==>
      loc.Archive? && parseUri(remoteUrl).value.scheme.None?
    ensures loc.Archive? && loc.source.LocalPath? ==> loc.source.path == remoteUrl
    ensures loc.Archive? && loc.source.FileUri? <==>
      loc.Archive? && parseUri(remoteUrl).value.scheme == Some(FileScheme)
    ensures loc.Archive? && !loc.source.LocalPath? ==> loc.source.uri == parseUri(remoteUrl).value
  {
    if !EndsWith(remoteUrl, ZipSuffix) then Page(remoteUrl)
    else match parseUri(remoteUrl)
      case None => InvalidArchiveUrl
      case Some(uri) =>
        if uri.scheme.None? then Archive(LocalPath(remoteUrl))
        else if uri.scheme.value == FileScheme then Archive(FileUri(uri))
        else Archive(RemoteUri(uri))
  }

  /** The retention policy `downloadIfNeeded` asks the download cache for. */
  const DownloadLifespan: Lifespan := CacheForever

  /** A local archive or the failure to obtain one, with the side effects of obtaining it. */
  datatype Fetched = Fetched(zip: Result<Path, CentralError>, effects: seq<Effect>)

  /**
   * The local archive: the absolute path for a path or `file:` URI, the
   * download cache's copy (kept forever) for any other scheme.
   */
  function FetchArchive(env: Env, source: ArchiveSource): (f: Fetched)
    ensures !source.RemoteUri? <==> f.effects == []
    ensures source.RemoteUri? ==> f.effects == [Download(source.uri, CacheForever)]
    ensures f.zip.Err? ==> source.RemoteUri? && f.zip.error.DownloadFailed?
  {
    match source
    case LocalPath(path) => Fetched(Ok(env.absolutePath(path)), [])
    case FileUri(uri) => Fetched(Ok(env.fileUriPath(uri)), [])
    case RemoteUri(uri) => DownloadIfNeeded(env, uri)
  }

  /** `downloadIfNeeded(uri, monitor)`: the copy is asked for with the cache-forever policy. */
  function DownloadIfNeeded(env: Env, uri: Uri): (f: Fetched)
    ensures f.effects == [Download(uri, CacheForever)]
    ensures f.zip.Ok? <==> env.download(uri, CacheForever).Ok?
    ensures f.zip.Ok? ==> f.zip.value == env.download(uri, CacheForever).value
  {
    match env.download(uri, DownloadLifespan)
    case Ok(file) => Fetched(Ok(file), [Download(uri, DownloadLifespan)])
    case Err(message) => Fetched(Err(DownloadFailed(message)), [Download(uri, DownloadLifespan)])
  }

  /** The outcome of one call: the page or the exception, the disk after it, and its side effects. */
  datatype Resolution = Resolution(result: Result<string, CentralError>, disk: Disk, effects: seq<Effect>)

  /**
   * `getCentralUrl(remoteUrl, monitor)` with the cache root `centralFolder`
   * (the plug-in's state location plus `versions`) as a parameter.
   */
  function GetCentralUrl(env: Env, remoteUrl: string, centralFolder: Path, disk: Disk): (r: Resolution)
    ensures r.result.Ok? ==> EndsWith(r.result.value, IndexHtml)
    ensures !EndsWith(remoteUrl, ZipSuffix) ==> r == Resolution(Ok(WithIndexHtml(remoteUrl)), disk, [])
    ensures EndsWith(remoteUrl, ZipSuffix) && env.parseUri(remoteUrl).None? ==>
      r == Resolution(Err(InvalidUrl), disk, [])
    ensures forall e | e in r.effects :: e.Download? ==> e.lifespan == CacheForever
  {
    match Classify(env.parseUri, remoteUrl)
    case Page(url) => Resolution(Ok(WithIndexHtml(url)), disk, [])
    case InvalidArchiveUrl => Resolution(Err(InvalidUrl), disk, [])
    case Archive(source) =>
      var fetched := FetchArchive(env, source);
      match fetched.zip
      case Err(e) => Resolution(Err(e), disk, fetched.effects)
      case Ok(zip) =>
        var run := ExtractIfNeeded(env, zip, centralFolder, false, disk);
        match run.result
        case Err(cause) => Resolution(Err(UnableToOpen(zip, cause)), run.disk, fetched.effects + run.effects)
        case Ok(page) => Resolution(Ok(WithIndexHtml(page)), run.disk, fetched.effects + run.effects)
  }

  /** The local archive a location names, when it names one that can be obtained. */
  function ArchiveOf(env: Env, remoteUrl: string): Option<Path> {
    match Classify(env.parseUri, remoteUrl)
    case Archive(source) =>
      var fetched := FetchArchive(env, source);
      if fetched.zip.Ok? then Some(fetched.zip.value) else None
    case _ => None
  }

  /**
   * The archive branch is the extraction of the archive the location names:
   * the call leaves the disk the extraction leaves, returns the extracted page,
   * and turns an I/O error of the extraction into "Unable to open <zip>".
   */
  lemma ArchiveBranchIsExtraction(env: Env, remoteUrl: string, centralFolder: Path, disk: Disk, zip: Path)
    requires ArchiveOf(env, remoteUrl) == Some(zip)
    ensures var r := GetCentralUrl(env, remoteUrl, centralFolder, disk);
      var run := ExtractIfNeeded(env, zip, centralFolder, false, disk);
      && r.disk == run.disk
      && (run.result.Err? ==> r.result == Err(UnableToOpen(zip, run.result.error)))
      && (run.result.Ok? ==> r.result == Ok(run.result.value))
      && r.effects == FetchArchive(env, Classify(env.parseUri, remoteUrl).source).effects + run.effects
  {
  }

  /**
   * The page of an archive is `index.html` in the folder named after the
   * archive's digest, whether the folder was reused, extracted or rebuilt:
   * it depends only on the digest and the cache root.
   */
  lemma ArchivePageIsDigestFolder(env: Env, remoteUrl: string, centralFolder: Path, disk: Disk)
    requires EndsWith(remoteUrl, ZipSuffix)
    requires GetCentralUrl(env, remoteUrl, centralFolder, disk).result.Ok?
    ensures ArchiveOf(env, remoteUrl).Some?
    ensures var zip := ArchiveOf(env, remoteUrl).value;
      && env.sha1(zip).Ok?
      && GetCentralUrl(env, remoteUrl, centralFolder, disk).result.value
         == EntryFile(DestinationFolder(centralFolder, env.sha1(zip).value))
      && Complete(GetCentralUrl(env, remoteUrl, centralFolder, disk).disk,
                  DestinationFolder(centralFolder, env.sha1(zip).value))
  {
  }

  /**
   * Which archive is opened: a location without a scheme is a local path made
   * absolute, a `file:` URI is a local file, and only the other schemes go
   * through the download cache; a failed download ends the call untouched.
   */
  lemma ArchiveSourceSelection(env: Env, remoteUrl: string, uri: Uri, centralFolder: Path, disk: Disk)
    requires EndsWith(remoteUrl, ZipSuffix)
    requires env.parseUri(remoteUrl) == Some(uri)
    ensures var r := GetCentralUrl(env, remoteUrl, centralFolder, disk);
      && (uri.scheme.None? ==>
            ArchiveOf(env, remoteUrl) == Some(env.absolutePath(remoteUrl))
            && forall e | e in r.effects :: !e.Download?)
      && (uri.scheme == Some(FileScheme) ==>
            ArchiveOf(env, remoteUrl) == Some(env.fileUriPath(uri))
            && forall e | e in r.effects :: !e.Download?)
      && (uri.scheme.Some? && uri.scheme != Some(FileScheme) ==>
            && r.effects[0] == Download(uri, CacheForever)
            && (env.download(uri, CacheForever).Ok? ==>
                  ArchiveOf(env, remoteUrl) == Some(env.download(uri, CacheForever).value))
            && (env.download(uri, CacheForever).Err? ==>
                  r == Resolution(Err(DownloadFailed(env.download(uri, CacheForever).error)), disk,
                                  [Download(uri, CacheForever)])))
  {
  }

  /**
   * Only the archive's own extraction folder is ever changed on disk; a
   * location that is not an archive, or an archive whose digest cannot be
   * taken, leaves the disk as it was.
   */
  lemma OnlyDestinationChanges(env: Env, remoteUrl: string, centralFolder: Path, disk: Disk)
    ensures var r := GetCentralUrl(env, remoteUrl, centralFolder, disk);
      match ArchiveOf(env, remoteUrl)
      case None => r.disk == disk
      case Some(zip) =>
        match env.sha1(zip)
        case Err(_) => r.disk == disk
        case Ok(digest) =>
          r.disk.Outside(DestinationFolder(centralFolder, digest))
          == disk.Outside(DestinationFolder(centralFolder, digest))
  {
  }

  /**
   * A call never extracts more than once, and deletes a folder only on the
   * way to extracting it again.
   */
  lemma AtMostOneExtraction(env: Env, remoteUrl: string, centralFolder: Path, disk: Disk)
    ensures var effects := GetCentralUrl(env, remoteUrl, centralFolder, disk).effects;
      && (forall i, j | 0 <= i < j < |effects| :: !(effects[i].Extract? && effects[j].Extract?))
      && forall i | 0 <= i < |effects| && effects[i].Delete? :: i + 1 < |effects| && effects[i + 1].Extract?
  {
  }

  /**
   * Resolving an archive location a second time, on the disk the first
   * successful call left behind, gives the same page without deleting or
   * extracting anything.
   */
  lemma SecondCallReusesExtraction(env: Env, remoteUrl: string, centralFolder: Path, disk: Disk)
    requires GetCentralUrl(env, remoteUrl, centralFolder, disk).result.Ok?
    ensures var first := GetCentralUrl(env, remoteUrl, centralFolder, disk);
      var second := GetCentralUrl(env, remoteUrl, centralFolder, first.disk);
      && second.result == first.result
      && second.disk == first.disk
      && forall e | e in second.effects :: e.Download?
  {
  }

  /** The scenario of a downloaded archive resolved into a fresh cache. */
  lemma FreshDownloadScenario(env: Env, remoteUrl: string, uri: Uri, file: Path,
                              centralFolder: Path, disk: Disk, entries: Entries)
    requires remoteUrl == "http://example.org/bundle-1.0.zip"
    requires env.parseUri(remoteUrl) == Some(uri) && uri.scheme == Some("http")
    requires env.download(uri, CacheForever) == Ok(file)
    requires env.sha1(file).Ok?
    requires !disk.IsDirectory(DestinationFolder(centralFolder, env.sha1(file).value))
    requires var dest := DestinationFolder(centralFolder, env.sha1(file).value);
      env.unpack(file, dest) == Unpacked(entries)
    requires IndexHtml in entries && entries[IndexHtml] == RegularFile
    ensures var dest := DestinationFolder(centralFolder, env.sha1(file).value);
      GetCentralUrl(env, remoteUrl, centralFolder, disk)
      == Resolution(Ok(EntryFile(dest)), disk.WithFolder(dest, entries),
                    [Download(uri, CacheForever), Extract(file, dest)])
  {
  }
}
