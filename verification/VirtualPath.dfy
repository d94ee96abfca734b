// Virtual paths are plain strings: "/" is the root, every other path is "/a/b/c".
module VirtualPath {

  const MAX_VFS_NAME_LEN: nat := 30

  // strrchr(p, '/') as an index, -1 when there is none.
  function LastSlash(p: string): (k: int)
    ensures -1 <= k < |p|
    ensures k >= 0 ==> p[k] == '/'
    ensures forall i :: k < i < |p| ==> p[i] != '/'
  {
    if p == "" then -1
    else if p[|p| - 1] == '/' then |p| - 1
    else LastSlash(p[..|p| - 1])
  }

  // extract_file_name
  function LastName(p: string): string
  {
    p[LastSlash(p) + 1..]
  }

  // get_parent_path
  function ParentPath(p: string): string
  {
    if p == "/" then "/"
    else
      var k := LastSlash(p);
      if k == 0 then "/" else if k > 0 then p[..k] else p
  }

  // A name below a directory, as mkdir, touch, puts and gets build it.
  function Join(dir: string, name: string): string
  {
    if dir == "/" then "/" + name else dir + "/" + name
  }

  // build_abs_path
  function BuildAbsPath(current: string, arg: string): string
    requires arg != ""
  {
    if arg[0] == '/' then arg else Join(current, arg)
  }

  // is_valid_vfs_name
  predicate ValidName(name: string)
  {
    0 < |name| <= MAX_VFS_NAME_LEN
  }

  // A name without a slash can be taken off again, whatever directory it was put under.
  lemma JoinSplits(dir: string, name: string)
    requires dir != "" && name != "" && '/' !in name
    ensures ParentPath(Join(dir, name)) == dir && LastName(Join(dir, name)) == name
  {
    var p := Join(dir, name);
    var k := if dir == "/" then 0 else |dir|;
    assert p[k] == '/' && p[k + 1..] == name;
    assert forall i :: k < i < |p| ==> p[i] == name[i - k - 1];
    assert LastSlash(p) == k;
  }
}
