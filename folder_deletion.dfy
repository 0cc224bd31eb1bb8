/** The second answer of test_day07 (test_ex14.py): the smallest folder
    whose deletion frees enough space for an update. */
module FolderDeletion {
  import opened Wrappers
  import opened FileSystem

  /** `_get_directories_to_delete_sizes`: in pre-order, the sizes of the
      folders of at least `minFileSize`. */
  function DirectoriesToDeleteSizes(tree: Folder, minFileSize: int): seq<int>
    decreases tree, 1
  {
    (if Size(tree) >= minFileSize then [Size(tree)] else []) + SubfoldersToDelete(tree.folders, minFileSize)
  }

  /** The loop over `tree.folders.values()`. */
  function SubfoldersToDelete(folders: seq<Entry<Folder>>, minFileSize: int): seq<int>
    decreases folders, 0
  {
    if folders == [] then []
    else DirectoriesToDeleteSizes(folders[0].value, minFileSize) + SubfoldersToDelete(folders[1..], minFileSize)
  }

  /** The sizes in `sizes` of at least `minFileSize`, in order. */
  function AtLeast(sizes: seq<int>, minFileSize: int): (r: seq<int>)
    ensures forall v :: v in r <==> v in sizes && v >= minFileSize
  {
    if sizes == [] then []
    else (if sizes[0] >= minFileSize then [sizes[0]] else []) + AtLeast(sizes[1..], minFileSize)
  }

  lemma {:induction false} AtLeastAppend(a: seq<int>, b: seq<int>, minFileSize: int)
    ensures AtLeast(a + b, minFileSize) == AtLeast(a, minFileSize) + AtLeast(b, minFileSize)
    decreases |a|
  {
    if a == [] {
      assert a + b == b;
    } else {
      var ab := a + b;
      var head := if a[0] >= minFileSize then [a[0]] else [];
      assert ab[0] == a[0] && ab[1..] == a[1..] + b;
      AtLeastAppend(a[1..], b, minFileSize);
      assert AtLeast(ab, minFileSize) == head + AtLeast(ab[1..], minFileSize);
      assert AtLeast(a, minFileSize) == head + AtLeast(a[1..], minFileSize);
      assert head + (AtLeast(a[1..], minFileSize) + AtLeast(b, minFileSize))
          == (head + AtLeast(a[1..], minFileSize)) + AtLeast(b, minFileSize);
    }
  }

  /** The candidates are exactly the folders, root first and in pre-order,
      whose size is at least `minFileSize`. */
  lemma {:induction false} CandidatesOfAllFolders(tree: Folder, minFileSize: int)
    ensures DirectoriesToDeleteSizes(tree, minFileSize) == AtLeast(AllSizes(tree), minFileSize)
    decreases tree, 1
  {
    SubfolderCandidates(tree.folders, minFileSize);
    assert AllSizes(tree) == [Size(tree)] + AllSizesOf(tree.folders);
    AtLeastAppend([Size(tree)], AllSizesOf(tree.folders), minFileSize);
  }

  lemma {:induction false} SubfolderCandidates(folders: seq<Entry<Folder>>, minFileSize: int)
    ensures SubfoldersToDelete(folders, minFileSize) == AtLeast(AllSizesOf(folders), minFileSize)
    decreases folders, 0
  {
    if folders != [] {
      CandidatesOfAllFolders(folders[0].value, minFileSize);
      SubfolderCandidates(folders[1..], minFileSize);
      AtLeastAppend(AllSizes(folders[0].value), AllSizesOf(folders[1..]), minFileSize);
    }
  }

  /** `min`; `None` where the list is empty and Python raises `ValueError`. */
  function Min(s: seq<int>): (r: Option<int>)
    ensures r == None <==> s == []
    ensures r.Some? ==> r.value in s
    ensures r.Some? ==> forall v :: v in s ==> r.value <= v
  {
    if s == [] then None
    else
      match Min(s[1..])
      case None => Some(s[0])
      case Some(m) =>
        assert forall v :: v in s ==> v == s[0] || v in s[1..];
        if m < s[0] then Some(m) else Some(s[0])
  }

  /** The space the update still needs once the current free space is
      used: `min_unused_space - (fs_size - tree.size)`. */
  function NeededSize(tree: Folder, fsSize: int, minUnusedSpace: int): int {
    minUnusedSpace - (fsSize - Size(tree))
  }

  /** `get_directory_to_delete_size`: the smallest candidate. */
  function GetDirectoryToDeleteSize(tree: Folder, fsSize: int, minUnusedSpace: int): Option<int> {
    Min(DirectoriesToDeleteSizes(tree, NeededSize(tree, fsSize, minUnusedSpace)))
  }

  /** The answer is there exactly when some folder is large enough, and then
      it is the size of a folder large enough, with no folder large enough
      smaller than it. */
  lemma SmallestLargeEnough(tree: Folder, fsSize: int, minUnusedSpace: int)
    ensures var needed := NeededSize(tree, fsSize, minUnusedSpace);
            var r := GetDirectoryToDeleteSize(tree, fsSize, minUnusedSpace);
            (r.Some? <==> exists v :: v in AllSizes(tree) && v >= needed) &&
            (r.Some? ==> r.value in AllSizes(tree) && r.value >= needed &&
                         forall v :: v in AllSizes(tree) && v >= needed ==> r.value <= v)
  {
    CandidatesOfAllFolders(tree, NeededSize(tree, fsSize, minUnusedSpace));
  }

  /** When the disk is at least as large as the space the update needs,
      deleting the root is always enough, so there is an answer, and it is
      at most the root's size. */
  lemma RootIsCandidate(tree: Folder, fsSize: int, minUnusedSpace: int)
    requires fsSize >= minUnusedSpace
    ensures var r := GetDirectoryToDeleteSize(tree, fsSize, minUnusedSpace);
            r.Some? && r.value <= Size(tree)
  {
    var needed := NeededSize(tree, fsSize, minUnusedSpace);
    assert DirectoriesToDeleteSizes(tree, needed)[0] == Size(tree);
  }

  /** The disk size `get_directory_to_delete_size` assumes when none is passed. */
  const DefaultFsSize := 70000000

  /** The free space the update needs when none is passed. */
  const DefaultMinUnusedSpace := 30000000

  /** `get_directory_to_delete_size(tree)` with its default sizes: there is
      always an answer, and it is the smallest folder size of at least the
      tree's size less 40000000. */
  function GetDirectoryToDeleteSizeWithDefaults(tree: Folder): (r: Option<int>)
    ensures r.Some? && r.value <= Size(tree)
    ensures r.value in AllSizes(tree) && r.value >= Size(tree) - 40000000
    ensures forall v :: v in AllSizes(tree) && v >= Size(tree) - 40000000 ==> r.value <= v
  {
    SmallestLargeEnough(tree, DefaultFsSize, DefaultMinUnusedSpace);
    RootIsCandidate(tree, DefaultFsSize, DefaultMinUnusedSpace);
    GetDirectoryToDeleteSize(tree, DefaultFsSize, DefaultMinUnusedSpace)
  }
}
