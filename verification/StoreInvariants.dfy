// What every command keeps true of the tables and the blobs.
module StoreInvariants {
  import opened Wrappers
  import opened VirtualPath
  import opened Tables
  import opened Commands

  // The content that a hash stands for; hashing itself is not modelled.
  type Content = string -> Bytes

  ghost predicate IdsOk(db: Db)
  {
    && db.nextNode > 0 && db.nextFile > 0
    && (forall k :: k in db.paths ==> 0 < db.paths[k].id < db.nextNode)
    && (forall k, l :: k in db.paths && l in db.paths && db.paths[k].id == db.paths[l].id ==> k == l)
    && (forall f :: f in db.files ==> 0 < f < db.nextFile)
    && (forall f, g :: f in db.files && g in db.files && db.files[f].sha == db.files[g].sha ==> f == g)
  }

  // `q` is the row of the directory that row `k` lies in.
  ghost predicate IsParent(paths: map<Key, PathRow>, q: Key, k: Key)
  {
    && q in paths && k in paths && q.user == k.user
    && paths[q].id == paths[k].parentId && paths[q].isDir
    && k.path == q.path + "/" + paths[k].name
  }

  ghost predicate RowOk(paths: map<Key, PathRow>, k: Key)
    requires k in paths
  {
    && ValidName(paths[k].name) && '/' !in paths[k].name
    && if paths[k].parentId == 0 then k.path == "/" + paths[k].name
       else exists q :: IsParent(paths, q, k)
  }

  ghost predicate TreeOk(paths: map<Key, PathRow>)
  {
    forall k :: k in paths ==> RowOk(paths, k)
  }

  // Directories have no file, files name a row of `files`.
  ghost predicate LinksOk(db: Db)
  {
    forall k :: k in db.paths ==>
      if db.paths[k].isDir then db.paths[k].fileId == None
      else db.paths[k].fileId.Some? && db.paths[k].fileId.value in db.files
  }

  // Every count is the number of path rows naming the file, and no row is kept at zero.
  ghost predicate CountsOk(db: Db)
  {
    forall f :: f in db.files ==> db.files[f].count == |Refs(db.paths, f)| && db.files[f].count > 0
  }

  // A file row has its whole blob; any other blob is the beginning of its content.
  ghost predicate BlobsOk(db: Db, content: Content)
  {
    && (forall f :: f in db.files ==>
          && db.files[f].sha in db.blobs
          && db.blobs[db.files[f].sha] == content(db.files[f].sha)
          && db.files[f].size == |content(db.files[f].sha)|)
    && (forall h :: h in db.blobs ==> db.blobs[h] <= content(h))
  }

  ghost predicate StoreOk(db: Db, content: Content)
  {
    IdsOk(db) && TreeOk(db.paths) && LinksOk(db) && CountsOk(db) && BlobsOk(db, content)
  }

  // The session stands in an existing directory and knows its id.
  ghost predicate SessionOk(db: Db, user: int, s: Session)
  {
    if s.dirId == 0 then s.path == "/"
    else
      var k := Key(user, s.path);
      k in db.paths && db.paths[k].isDir && db.paths[k].id == s.dirId
  }

  // ---------------------------------------------------------------- the tree

  lemma RowPathStarts(paths: map<Key, PathRow>, k: Key)
    requires TreeOk(paths) && k in paths
    ensures |k.path| > 1 && k.path[0] == '/' && k.path != "/"
    decreases |k.path|
  {
    assert RowOk(paths, k);
    if paths[k].parentId != 0 {
      var q :| IsParent(paths, q, k);
      RowPathStarts(paths, q);
    }
  }

  // The parent row sits under the parent path.
  lemma ParentKey(paths: map<Key, PathRow>, k: Key)
    requires TreeOk(paths) && k in paths
    ensures LastName(k.path) == paths[k].name
    ensures var q := Key(k.user, ParentPath(k.path));
            if paths[k].parentId == 0 then q.path == "/" else IsParent(paths, q, k)
  {
    assert RowOk(paths, k);
    if paths[k].parentId == 0 {
      JoinSplits("/", paths[k].name);
    } else {
      var q :| IsParent(paths, q, k);
      RowPathStarts(paths, q);
      JoinSplits(q.path, paths[k].name);
    }
  }

  // A path lies strictly below a directory.
  predicate Below(path: string, dir: string)
  {
    dir + "/" <= path
  }

  // The test rmdir makes, by parent id, is the test a user means: nothing lies below.
  lemma {:induction false} EmptyMeansNothingBelow(db: Db, d: Key)
    requires IdsOk(db) && TreeOk(db.paths) && d in db.paths
    ensures IsDirEmpty(db, d.user, db.paths[d].id) <==>
            forall k :: k in db.paths && k.user == d.user ==> !Below(k.path, d.path)
  {
    if !IsDirEmpty(db, d.user, db.paths[d].id) {
      var k :| k in db.paths && k.user == d.user && db.paths[k].parentId == db.paths[d].id;
      ParentKey(db.paths, k);
      assert Below(k.path, d.path);
    }
    forall k | k in db.paths && k.user == d.user && Below(k.path, d.path)
      ensures !IsDirEmpty(db, d.user, db.paths[d].id)
    {
      ChildOnTheWay(db, d, k);
    }
  }

  lemma BelowSplits(dir: string, parent: string, name: string)
    requires '/' !in name && Below(parent + "/" + name, dir)
    ensures parent == dir || Below(parent, dir)
  {
    var path := parent + "/" + name;
    assert path[|dir|] == '/';
    assert forall i :: 0 <= i < |name| ==> path[|parent| + 1 + i] == name[i];
    assert |dir| <= |parent|;
    assert dir == path[..|dir|] == parent[..|dir|];
  }

  // Walking up from a row below `d` meets a child of `d`.
  lemma {:induction false} ChildOnTheWay(db: Db, d: Key, k: Key)
    requires IdsOk(db) && TreeOk(db.paths) && d in db.paths && k in db.paths
    requires k.user == d.user && Below(k.path, d.path)
    ensures exists c :: c in db.paths && c.user == d.user && db.paths[c].parentId == db.paths[d].id
    decreases |k.path|
  {
    ParentKey(db.paths, k);
    RowPathStarts(db.paths, d);
    assert RowOk(db.paths, k);
    var parent := if db.paths[k].parentId == 0 then "" else ParentPath(k.path);
    assert k.path == parent + "/" + db.paths[k].name;
    BelowSplits(d.path, parent, db.paths[k].name);
    if parent != d.path {
      ChildOnTheWay(db, d, Key(k.user, parent));
    }
  }
}
