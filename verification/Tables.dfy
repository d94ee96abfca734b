// The server's tables and its blob directory, as values: `paths` under its unique key
// (user, path), `files` under its primary key, blobs under their hash.
module Tables {
  import opened Wrappers
  import opened VirtualPath

  newtype Byte = b: int | 0 <= b < 256
  type Bytes = seq<Byte>

  const MAX_PATH_COLUMN: nat := 255

  datatype Key = Key(user: int, path: string)
  datatype PathRow = PathRow(id: int, fileId: Option<int>, parentId: int, name: string, isDir: bool)
  datatype FileRow = FileRow(sha: string, size: nat, count: int)
  datatype Db = Db(paths: map<Key, PathRow>, files: map<int, FileRow>, blobs: map<string, Bytes>,
                   nextNode: int, nextFile: int)

  // What one path is to its user.
  datatype Entry = Dir | File(bytes: Bytes)

  // dao_get_node_by_path: the root has no row, its id is 0.
  function GetNode(db: Db, k: Key): Option<(int, bool)>
  {
    if k.path == "/" then Some((0, true))
    else if k in db.paths then Some((db.paths[k].id, db.paths[k].isDir))
    else None
  }

  // dao_file_find_by_sha256
  ghost function FindSha(db: Db, sha: string): Option<int>
  {
    ShaIn(db.files, sha)
  }

  ghost function ShaIn(files: map<int, FileRow>, sha: string): Option<int>
  {
    if id :| id in files && files[id].sha == sha then Some(id) else None
  }

  // The rows that name file `f`.
  ghost function Refs(paths: map<Key, PathRow>, f: int): set<Key>
  {
    set k | k in paths && paths[k].fileId == Some(f)
  }

  // What gets would deliver for a path, and what cd would find there.
  function Look(db: Db, k: Key): Option<Entry>
  {
    if k !in db.paths then None
    else match db.paths[k].fileId
      case None => Some(Dir)
      case Some(f) =>
        if f in db.files && db.files[f].sha in db.blobs then Some(File(db.blobs[db.files[f].sha])) else None
  }

  // INSERT INTO paths: refused when the key is taken or a value is too long for its column.
  function InsertNode(db: Db, k: Key, fileId: Option<int>, parentId: int, name: string, isDir: bool): Option<Db>
  {
    if k in db.paths || |k.path| > MAX_PATH_COLUMN || |name| > MAX_VFS_NAME_LEN then None
    else Some(db.(paths := db.paths[k := PathRow(db.nextNode, fileId, parentId, name, isDir)],
                  nextNode := db.nextNode + 1))
  }

  // dao_file_add_ref_count
  function AddRef(db: Db, f: int): Db
  {
    if f in db.files then db.(files := db.files[f := db.files[f].(count := db.files[f].count + 1)]) else db
  }

  // dao_file_insert, for a hash that has no row yet
  function InsertFile(db: Db, sha: string, size: nat): Db
  {
    db.(files := db.files[db.nextFile := FileRow(sha, size, 1)], nextFile := db.nextFile + 1)
  }

  // release_file_entity_if_unused: one reference less; the last one takes the blob along.
  function Release(db: Db, f: int): Db
  {
    if f !in db.files then db
    else
      var row := db.files[f];
      var count := if row.count > 0 then row.count - 1 else row.count;
      if count > 0 then db.(files := db.files[f := row.(count := count)])
      else db.(files := db.files - {f}, blobs := db.blobs - {row.sha})
  }
}
