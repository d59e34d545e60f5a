/**
 * The extraction cache of the central page (`extractIfNeeded`): an archive is
 * unpacked into a folder of the cache root named after the first six
 * characters of its SHA-1 digest. A folder that is already there is reused; a
 * reused folder without `index.html` is deleted and extracted once more; a
 * freshly extracted folder without `index.html` is an error.
 */
module Extraction {
  import opened Wrappers
  import opened FileSystem
  import opened Collaborators
  import opened EntryPoint

  /** How many digest characters name an extraction folder. */
  const FolderNameLength: nat := 6

  /** The `IOException`s of `extractIfNeeded`. */
  datatype IoError =
    | DigestFailed(message: string)
    | ExtractFailed(message: string)
    | EntryPointMissing(file: Path)

  /** The outcome of one call: the page or the exception, the disk after it, and its side effects. */
  datatype Run = Run(result: Result<Path, IoError>, disk: Disk, effects: seq<Effect>)

  /** The folder of the cache root that holds the archive with this digest. */
  function DestinationFolder(centralFolder: Path, digest: Sha1Hex): Path {
    Resolve(centralFolder, digest[..FolderNameLength])
  }

  /** The page inside an extraction folder. */
  function EntryFile(folder: Path): Path {
    Resolve(folder, IndexHtml)
  }

  /** The folder holds its page as a regular file. */
  predicate Complete(disk: Disk, folder: Path) {
    disk.IsRegularFile(folder, IndexHtml)
  }

  /** The same run, after side effects that happened before it. */
  function After(prior: seq<Effect>, run: Run): Run {
    Run(run.result, run.disk, prior + run.effects)
  }

  /** The disk once an extraction into `folder` has finished or failed. */
  function Unpacking(disk: Disk, folder: Path, outcome: Unpack): (d: Disk)
    ensures d.Outside(folder) == disk.Outside(folder)
    ensures outcome.Unpacked? ==> d.IsDirectory(folder) && d.folders[folder] == outcome.entries
  {
    match outcome
    case Unpacked(entries) => disk.WithFolder(folder, entries)
    case UnpackFailed(leftover, _) =>
      if leftover.Some? then disk.WithFolder(folder, leftover.value) else disk
  }

  /**
   * What a single extraction decides: the page when it wrote `index.html` as
   * a regular file, otherwise the exception that is thrown.
   */
  function Verdict(folder: Path, outcome: Unpack): Result<Path, IoError> {
    match outcome
    case UnpackFailed(_, message) => Err(ExtractFailed(message))
    case Unpacked(entries) =>
      if IndexHtml in entries && entries[IndexHtml] == RegularFile then Ok(EntryFile(folder))
      else Err(EntryPointMissing(EntryFile(folder)))
  }

  /**
   * `extractIfNeeded(zip, centralFolder, overwrite, monitor)` as written:
   * the retry is a recursive call with `overwrite` set, whose returned path is
   * discarded in favour of the caller's own.
   */
  function ExtractIfNeeded(env: Env, zip: Path, centralFolder: Path, overwrite: bool, disk: Disk): (run: Run)
    decreases if overwrite then 0 else 1
    ensures env.sha1(zip).Err? ==> run == Run(Err(DigestFailed(env.sha1(zip).error)), disk, [])
    ensures env.sha1(zip).Ok? ==>
      var dest := DestinationFolder(centralFolder, env.sha1(zip).value);
      && run.disk.Outside(dest) == disk.Outside(dest)
      && (run.result.Ok? ==> run.result.value == EntryFile(dest) && Complete(run.disk, dest))
      && (run.effects == [] || run.effects == [Extract(zip, dest)] || run.effects == [Delete(dest), Extract(zip, dest)])
      && (overwrite ==> run.effects == [Delete(dest), Extract(zip, dest)])
  {
    match env.sha1(zip)
    case Err(message) => Run(Err(DigestFailed(message)), disk, [])
    case Ok(digest) =>
      var dest := DestinationFolder(centralFolder, digest);
      var cleared := if overwrite then disk.DeleteDirectory(dest) else disk;
      var deletions := if overwrite then [Delete(dest)] else [];
      var extracted := cleared.IsDirectory(dest);
      var outcome := env.unpack(zip, dest);
      var current := if extracted then cleared else Unpacking(cleared, dest, outcome);
      var effects := if extracted then deletions else deletions + [Extract(zip, dest)];
      var extractedFile := EntryFile(dest);
      if !extracted && outcome.UnpackFailed? then
        Run(Err(ExtractFailed(outcome.message)), current, effects)
      else if Complete(current, dest) then
        Run(Ok(extractedFile), current, effects)
      else if extracted && !overwrite then
        var retry := ExtractIfNeeded(env, zip, centralFolder, true, current);
        if retry.result.Err? then After(effects, retry)
        else Run(Ok(extractedFile), retry.disk, effects + retry.effects)
      else
        Run(Err(EntryPointMissing(extractedFile)), current, effects)
  }

  /** A folder that already holds its page is reused: no deletion, no extraction. */
  lemma CompleteFolderIsReused(env: Env, zip: Path, centralFolder: Path, disk: Disk)
    requires env.sha1(zip).Ok?
    requires Complete(disk, DestinationFolder(centralFolder, env.sha1(zip).value))
    ensures ExtractIfNeeded(env, zip, centralFolder, false, disk)
         == Run(Ok(EntryFile(DestinationFolder(centralFolder, env.sha1(zip).value))), disk, [])
  {
  }

  /**
   * A folder that exists without its page is deleted and extracted again,
   * exactly once; that single extraction decides the outcome.
   */
  lemma IncompleteFolderIsRebuiltOnce(env: Env, zip: Path, centralFolder: Path, disk: Disk)
    requires env.sha1(zip).Ok?
    requires var dest := DestinationFolder(centralFolder, env.sha1(zip).value);
      disk.IsDirectory(dest) && !Complete(disk, dest)
    ensures var dest := DestinationFolder(centralFolder, env.sha1(zip).value);
      var run := ExtractIfNeeded(env, zip, centralFolder, false, disk);
      && run.effects == [Delete(dest), Extract(zip, dest)]
      && run.result == Verdict(dest, env.unpack(zip, dest))
      && run.disk == Unpacking(disk.DeleteDirectory(dest), dest, env.unpack(zip, dest))
  {
  }

  /**
   * A folder that did not exist is extracted once; when that extraction does
   * not produce the page there is no second attempt.
   */
  lemma FreshFolderIsNotRetried(env: Env, zip: Path, centralFolder: Path, disk: Disk)
    requires env.sha1(zip).Ok?
    requires !disk.IsDirectory(DestinationFolder(centralFolder, env.sha1(zip).value))
    ensures var dest := DestinationFolder(centralFolder, env.sha1(zip).value);
      var run := ExtractIfNeeded(env, zip, centralFolder, false, disk);
      && run.effects == [Extract(zip, dest)]
      && run.result == Verdict(dest, env.unpack(zip, dest))
      && run.disk == Unpacking(disk, dest, env.unpack(zip, dest))
  {
  }

  /**
   * The bounded-retry state machine: the digest is taken once and the folder
   * goes through at most two attempts, the second one only after a reused
   * folder failed verification. It computes exactly what the recursive
   * `ExtractIfNeeded` computes: with the digest a deterministic function of
   * the archive, the recursive call's second hash names the same folder, and
   * the path it returns can be discarded without loss.
   */
  method ExtractWithOneRetry(env: Env, zip: Path, centralFolder: Path, disk: Disk) returns (run: Run)
    ensures run == ExtractIfNeeded(env, zip, centralFolder, false, disk)
  {
    if env.sha1(zip).Err? {
      return Run(Err(DigestFailed(env.sha1(zip).error)), disk, []);
    }
    var dest := DestinationFolder(centralFolder, env.sha1(zip).value);
    var entryFile := EntryFile(dest);
    var current := disk;
    var effects: seq<Effect> := [];
    var retrying := false;
    while true
      invariant ExtractIfNeeded(env, zip, centralFolder, false, disk)
             == After(effects, ExtractIfNeeded(env, zip, centralFolder, retrying, current))
      decreases if retrying then 0 else 1
    {
      var start := current;
      if retrying {
        current := current.DeleteDirectory(dest);
        effects := effects + [Delete(dest)];
      }
      var existed := current.IsDirectory(dest);
      if !existed {
        var outcome := env.unpack(zip, dest);
        current := Unpacking(current, dest, outcome);
        effects := effects + [Extract(zip, dest)];
        if outcome.UnpackFailed? {
          return Run(Err(ExtractFailed(outcome.message)), current, effects);
        }
      }
      if Complete(current, dest) {
        return Run(Ok(entryFile), current, effects);
      }
      if !existed || retrying {
        return Run(Err(EntryPointMissing(entryFile)), current, effects);
      }
      retrying := true;
    }
  }
}
