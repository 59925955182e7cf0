/**
 * The in-memory stand-in for the file system the synchronizer walks, and the
 * events it dispatches to its listeners.
 */
module FileTree {

  /**
   * A directory entry as the directory lister yields it.
   * `File` is every entry that is not a directory (the walk does not look
   * further at its type); `Broken` is an entry whose metadata cannot be read
   * (stat fails, as for a dangling link).
   */
  datatype Entry =
    | File(name: string)
    | Dir(name: string, listing: Listing)
    | Broken(name: string)

  /** What opening a directory yields: its entries in order, or an I/O error. */
  datatype Listing = Readable(entries: seq<Entry>) | Unreadable

  /**
   * What a listener learns about a file: its path below the root, as a
   * sequence of names, and its bare name.
   */
  datatype FileInfo = FileInfo(relativePath: seq<string>, filename: string)

  /** The three events: `file`, `excluded-file` and `end`. */
  datatype Event = Included(info: FileInfo) | Excluded(info: FileInfo) | End
}
