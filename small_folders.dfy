/** The first answer of test_day07 (test_ex13.py): the total size of the
    folders of at most a given size, counting nested folders again inside
    the folders that hold them. */
module SmallFolders {
  import opened FileSystem

  /** `get_sum_of_sizes_with_max_size`: the folder's size where it is at most
      `maxSize`, plus the same sum for each subfolder. */
  function SumOfSizesWithMaxSize(tree: Folder, maxSize: int): int
    decreases tree, 1
  {
    (if Size(tree) <= maxSize then Size(tree) else 0) + SumOfSubfolders(tree.folders, maxSize)
  }

  /** The loop over `tree.folders.values()`. */
  function SumOfSubfolders(folders: seq<Entry<Folder>>, maxSize: int): int
    decreases folders, 0
  {
    if folders == [] then 0
    else SumOfSizesWithMaxSize(folders[0].value, maxSize) + SumOfSubfolders(folders[1..], maxSize)
  }

  /** The sum of the sizes in `sizes` that are at most `maxSize`. */
  function SumAtMost(sizes: seq<int>, maxSize: int): int {
    if sizes == [] then 0
    else (if sizes[0] <= maxSize then sizes[0] else 0) + SumAtMost(sizes[1..], maxSize)
  }

  lemma {:induction false} SumAtMostAppend(a: seq<int>, b: seq<int>, maxSize: int)
    ensures SumAtMost(a + b, maxSize) == SumAtMost(a, maxSize) + SumAtMost(b, maxSize)
    decreases |a|
  {
    if a == [] {
      assert a + b == b;
    } else {
      assert (a + b)[1..] == a[1..] + b;
      SumAtMostAppend(a[1..], b, maxSize);
    }
  }

  /** The answer is the sum, over every folder of the tree, root included,
      of the sizes that are at most `maxSize`. */
  lemma {:induction false} SumOfSizesOfAllFolders(tree: Folder, maxSize: int)
    ensures SumOfSizesWithMaxSize(tree, maxSize) == SumAtMost(AllSizes(tree), maxSize)
    decreases tree, 1
  {
    SumOfSubfoldersOfAll(tree.folders, maxSize);
    assert AllSizes(tree)[1..] == AllSizesOf(tree.folders);
  }

  lemma {:induction false} SumOfSubfoldersOfAll(folders: seq<Entry<Folder>>, maxSize: int)
    ensures SumOfSubfolders(folders, maxSize) == SumAtMost(AllSizesOf(folders), maxSize)
    decreases folders, 0
  {
    if folders != [] {
      SumOfSizesOfAllFolders(folders[0].value, maxSize);
      SumOfSubfoldersOfAll(folders[1..], maxSize);
      SumAtMostAppend(AllSizes(folders[0].value), AllSizesOf(folders[1..]), maxSize);
    }
  }

  /** The limit `get_sum_of_sizes_with_max_size` uses when none is passed. */
  const DefaultMaxSize := 100000

  /** `get_sum_of_sizes_with_max_size(tree)` with its default limit: the sum,
      over every folder of the tree, of the sizes of at most 100000. */
  function SumOfSizesWithDefaultMaxSize(tree: Folder): (r: int)
    ensures r == SumAtMost(AllSizes(tree), DefaultMaxSize)
  {
    SumOfSizesOfAllFolders(tree, DefaultMaxSize);
    SumOfSizesWithMaxSize(tree, DefaultMaxSize)
  }
}
