/** Directory entries as the walker delivers them, and scan results (`src/storepaths/mod.rs`). */
module StorePaths {
  import opened Wrappers
  import opened StoreRegex

  type Name = Bytes

  /** A path as a sequence of components; the empty sequence is the root directory. */
  type Path = seq<Name>

  datatype ScannedPath = Absolute(comps: Path) | Relative(comps: Path)

  datatype IoKind = PermissionDenied | NotFound | OtherIo

  /** What can go wrong with a single entry. */
  datatype Failure =
    | Io(kind: IoKind)      // std::io::Error
    | Traversal             // ignore::Error
    | BadZip                // UErr::ZIP
    | FiletypeUnknown       // UErr::FiletypeUnknown
    | NoMetadata            // UErr::DentNoMetadata
    | WalkAbort             // UErr::WalkAbort
    | CacheFull             // UErr::CacheFull

  datatype Meta = Meta(dev: nat, ctime: int, ctimeNsec: int)

  datatype EntryError = NoError | PartialError | HardError

  /** What stops the reading of an archive or of one of its members. */
  datatype ArchiveFault = Unreadable(kind: IoKind) | Damaged

  /** What the file type and the contents of an entry let the scanner see. `fault` is the error that opening or
      reading the file hits, if any. `Archive` is a regular file selected by the unzip globs; `damage` is what
      keeps it from being opened as one. */
  datatype Body =
    | Directory
    | Regular(data: Bytes, fault: Option<IoKind>)
    | Archive(damage: Option<ArchiveFault>, members: seq<Result<Bytes, ArchiveFault>>)
    | Symlink(target: Result<Bytes, IoKind>)
    | Unknown

  datatype Entry = Entry(path: ScannedPath, ino: Option<nat>, meta: Option<Meta>, error: EntryError, body: Body)

  datatype StorePaths = StorePaths(entry: Entry, refs: seq<Bytes>, cached: bool)

  datatype Lookup = Dir(sp: StorePaths) | Hit(sp: StorePaths) | Miss(entry: Entry)
}
