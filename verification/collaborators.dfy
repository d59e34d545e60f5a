/**
 * The code the central page resolver calls but that is not part of this
 * model: the URI parser, the download cache, the SHA-1 digest and the
 * archive extractor. Each is an uninterpreted, deterministic function of its
 * inputs, gathered in `Env`. Every side effect on the outside world is
 * recorded as an `Effect`.
 */
module Collaborators {
  import opened Wrappers
  import opened FileSystem

  /** A parsed `java.net.URI`: its scheme (null when absent) and its text. */
  datatype Uri = Uri(scheme: Option<string>, text: string)

  /** The retention policies of the download cache. */
  datatype Lifespan = CacheForever | CacheUntilExit | NoCache

  /**
   * The text of a SHA-1 digest. The resolver only takes its first six
   * characters, so all that is assumed of it is that it has that many.
   */
  type Sha1Hex = s: string | |s| >= 6 witness "000000"

  /**
   * What one extraction of an archive into a folder leaves behind: either the
   * folder with the archive's entries (possibly without the page), or an
   * I/O failure, possibly after a partial folder was written.
   */
  datatype Unpack =
    | Unpacked(entries: Entries)
    | UnpackFailed(leftover: Option<Entries>, message: string)

  datatype Env = Env(
    /** `new URI(s)`; `None` is a `URISyntaxException`. */
    parseUri: string -> Option<Uri>,
    /** `Paths.get(s).toAbsolutePath()`. */
    absolutePath: string -> Path,
    /** `Paths.get(uri).toAbsolutePath()` for a `file:` URI. */
    fileUriPath: Uri -> Path,
    /** The URL download cache: the local copy of a URL, or a failure. */
    download: (Uri, Lifespan) -> Result<Path, string>,
    /** `DigestUtils.sha1(zip)`, or the I/O failure reading the file. */
    sha1: Path -> Result<Sha1Hex, string>,
    /** `UnArchiver.create(zip, folder).extract(monitor)`. */
    unpack: (Path, Path) -> Unpack
  )

  /** Side effects on the network and the file system, in the order they happen. */
  datatype Effect =
    | Download(uri: Uri, lifespan: Lifespan)
    | Delete(folder: Path)
    | Extract(zip: Path, folder: Path)
}
