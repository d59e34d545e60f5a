/**
 * The part of the file system the central page cache touches: the folders
 * below the cache root, each with the names and kinds of its entries.
 * Paths are opaque strings; `Resolve` joins a child name with the POSIX
 * separator.
 */
module FileSystem {

  type Path = string

  const Separator: string := "/"

  /** `dir.resolve(name)` for a relative, non-empty `name`. */
  function Resolve(dir: Path, name: string): Path {
    dir + Separator + name
  }

  datatype Kind = RegularFile | Directory

  /** The entries of one folder, by name. */
  type Entries = map<string, Kind>

  /** `q` is the folder `p` itself or a folder somewhere below it. */
  predicate Within(q: Path, p: Path) {
    q == p || p + Separator <= q
  }

  /**
   * A disk holds every folder by its full path, nested folders included; the
   * entries of a folder list its files and sub-folders by name.
   */
  datatype Disk = Disk(folders: map<Path, Entries>) {

    /** The folders outside the tree rooted at `p`. */
    function Outside(p: Path): map<Path, Entries> {
      map q | q in folders && !Within(q, p) :: folders[q]
    }

    /** `Files.isDirectory(p)`. */
    predicate IsDirectory(p: Path) {
      p in folders
    }

    /** `Files.isRegularFile(dir.resolve(name))`. */
    predicate IsRegularFile(dir: Path, name: string) {
      dir in folders && name in folders[dir] && folders[dir][name] == RegularFile
    }

    /**
     * `FileUtils.deleteDirectory(p)`: the folder and everything below it are
     * gone; a missing folder is left alone.
     */
    function DeleteDirectory(p: Path): (d: Disk)
      ensures forall q | q in d.folders :: !Within(q, p)
      ensures d.Outside(p) == Outside(p)
    {
      Disk(map q | q in folders && !Within(q, p) :: folders[q])
    }

    /** The folder `p` now holds exactly `entries`; no other folder changes. */
    function WithFolder(p: Path, entries: Entries): (d: Disk)
      ensures d.IsDirectory(p) && d.folders[p] == entries
      ensures d.Outside(p) == Outside(p)
    {
      Disk(folders[p := entries])
    }
  }

  /** Deleting a folder deletes the folders nested inside it as well. */
  lemma NestedFolderIsDeleted(disk: Disk, p: Path, name: string)
    ensures !disk.DeleteDirectory(p).IsDirectory(Resolve(p, name))
  {
  }
}
