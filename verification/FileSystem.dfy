/** The part of a POSIX filesystem the tool relies on: names are links to inodes. */
module FileSystem {
  import opened Basics

  datatype Path = Path(dir: string, name: string)

  datatype FS = FS(names: map<Path, nat>, data: seq<Bytes>) {
    predicate Valid() {
      forall p :: p in names ==> names[p] < |data|
    }

    predicate Exists(p: Path) {
      p in names
    }

    function Read(p: Path): Bytes
      requires Valid() && Exists(p)
    {
      data[names[p]]
    }

    /** `open` with `create_new`: a fresh, empty inode under a name that must be absent. */
    function CreateNew(p: Path): FS
      requires !Exists(p)
    {
      FS(names[p := |data|], data + [[]])
    }

    function Append(inode: nat, bytes: Bytes): FS
      requires inode < |data|
    {
      FS(names, data[inode := data[inode] + bytes])
    }

    /** `hard_link`: a second name for the inode of `source`; never replaces `target`. */
    function Link(source: Path, target: Path): FS
      requires Exists(source) && !Exists(target)
    {
      FS(names[target := names[source]], data)
    }

    function Remove(p: Path): FS {
      FS(names - {p}, data)
    }

    /** The name is bound in both states, to the same inode with the same bytes. */
    predicate Keeps(after: FS, p: Path) {
      && p in names && names[p] < |data|
      && p in after.names && after.names[p] == names[p]
      && names[p] < |after.data| && after.data[names[p]] == data[names[p]]
    }
  }
}
