/** The sample sessions of test_day07, replayed on the model of the shared
    directory tree. */
module FileSystemSamples {
  import opened Wrappers
  import opened FileSystem
  import Text

  /** An `ls` line "N name" stores a file of size N. */
  lemma FileLine(folder: Folder, size: nat, name: string)
    requires name != [] && ' ' !in name
    ensures ListItem(folder, Text.NatToString(size) + " " + name)
         == Some(folder.(files := Put(folder.files, name, size)))
  {
    var numeral := Text.NatToString(size);
    var item := numeral + " " + name;
    Text.NumeralHasNoSeparator(size);
    Text.TwoWords(numeral, name);
    assert Text.Words(item) == [numeral, name];
    assert item[0] == numeral[0] && Text.IsDigit(numeral[0]);
    assert |item| >= 3 ==> item[..3][0] == item[0];
    assert Text.ParseInt(numeral) == Some(size) by {
      Text.ParseNatToString(size);
    }
  }

  /** An `ls` line "dir name" stores an empty folder. */
  lemma DirLine(folder: Folder, name: string)
    requires name != [] && ' ' !in name
    ensures ListItem(folder, "dir " + name)
         == Some(folder.(folders := Put(folder.folders, name, Empty(name))))
  {
    Text.TwoWords("dir", name);
    assert "dir " + name == "dir" + " " + name;
    assert ("dir " + name)[..3] == "dir";
  }

  /** `cd name` into a folder that is there. */
  lemma CdStep(tree: Folder, path: seq<string>, name: string)
    requires name != [] && ' ' !in name && name != ".."
    requires AtPath(tree, path).Some? && Get(AtPath(tree, path).value.folders, name).Some?
    ensures Step(State(tree, Some(path)), Command("cd " + name, [])) == Some(State(tree, Some(path + [name])))
  {
    Text.TwoWords("cd", name);
    assert "cd " + name == "cd" + " " + name;
    assert ("cd " + name)[0] == 'c';
  }

  /** `cd ..` below the root. */
  lemma CdUpStep(tree: Folder, path: seq<string>)
    requires path != []
    ensures Step(State(tree, Some(path)), Command("cd ..", [])) == Some(State(tree, Some(path[..|path| - 1])))
  {
    Text.TwoWords("cd", "..");
    assert "cd .." == "cd" + " " + "..";
  }

  /** An `ls` whose lines all apply. */
  lemma LsStep(tree: Folder, path: seq<string>, output: seq<string>, listed: Folder)
    requires output != [] && AtPath(tree, path).Some?
    requires ListAll(AtPath(tree, path).value, output) == Some(listed)
    ensures Step(State(tree, Some(path)), Command("ls", output)) == Some(State(ReplaceAt(tree, path, listed), Some(path)))
  {
  }

  /** Listing a line, then the rest. */
  lemma ListCons(folder: Folder, item: string, items: seq<string>, listed: Folder)
    requires ListItem(folder, item) == Some(listed)
    ensures ListAll(folder, [item] + items) == ListAll(listed, items)
  {
    assert ([item] + items)[0] == item && ([item] + items)[1..] == items;
  }

  /** The listing of the root in the test of `execute_commands`, for any
      names and size. */
  lemma SmallRootListingOf(a: string, b: string, c: string, size: nat)
    requires a != [] && ' ' !in a && b != [] && ' ' !in b && c != [] && ' ' !in c && a != c
    ensures ListAll(Empty("/"), ["dir " + a, Text.NatToString(size) + " " + b, "dir " + c])
         == Some(Folder("/", [Entry(b, size)], [Entry(a, Empty(a)), Entry(c, Empty(c))]))
  {
    var f1 := Folder("/", [], [Entry(a, Empty(a))]);
    var f2 := Folder("/", [Entry(b, size)], [Entry(a, Empty(a))]);
    var f3 := Folder("/", [Entry(b, size)], [Entry(a, Empty(a)), Entry(c, Empty(c))]);
    DirLine(Empty("/"), a);
    assert Put([], a, Empty(a)) == [Entry(a, Empty(a))];
    FileLine(f1, size, b);
    assert Put([], b, size) == [Entry(b, size)];
    DirLine(f2, c);
    assert Put(f2.folders, c, Empty(c)) == f3.folders by {
      assert Find(f2.folders, c) == None;
    }
    ListCons(f2, "dir " + c, [], f3);
    ListCons(f1, Text.NatToString(size) + " " + b, ["dir " + c], f2);
    ListCons(Empty("/"), "dir " + a, [Text.NatToString(size) + " " + b, "dir " + c], f1);
  }

  /** Running a command, then the rest. */
  lemma RunCons(state: State, command: Command, commands: seq<Command>, next: State)
    requires Step(state, command) == Some(next)
    ensures Run(state, [command] + commands) == Run(next, commands)
  {
    assert ([command] + commands)[0] == command && ([command] + commands)[1..] == commands;
  }

  /** A folder holding one file and no folder. */
  function OneFile(name: string, file: string, size: int): Folder {
    Folder(name, [Entry(file, size)], [])
  }

  /** Listing one file into an empty folder. */
  lemma OneFileListing(name: string, file: string, size: nat)
    requires file != [] && ' ' !in file
    ensures ListAll(Empty(name), [Text.NatToString(size) + " " + file]) == Some(OneFile(name, file, size))
  {
    FileLine(Empty(name), size, file);
    assert Put([], file, size) == [Entry(file, size)];
    ListCons(Empty(name), Text.NatToString(size) + " " + file, [], OneFile(name, file, size));
  }

  /** Six commands that each apply run one after the other. */
  lemma RunSix(s0: State, s1: State, s2: State, s3: State, s4: State, s5: State, s6: State,
               c1: Command, c2: Command, c3: Command, c4: Command, c5: Command, c6: Command)
    requires Step(s0, c1) == Some(s1) && Step(s1, c2) == Some(s2) && Step(s2, c3) == Some(s3)
    requires Step(s3, c4) == Some(s4) && Step(s4, c5) == Some(s5) && Step(s5, c6) == Some(s6)
    ensures Run(s0, [c1, c2, c3, c4, c5, c6]) == Some(s6)
  {
    RunCons(s5, c6, [], s6);
    RunCons(s4, c5, [c6], s5);
    RunCons(s3, c4, [c5, c6], s4);
    RunCons(s2, c3, [c4, c5, c6], s3);
    RunCons(s1, c2, [c3, c4, c5, c6], s2);
    RunCons(s0, c1, [c2, c3, c4, c5, c6], s1);
  }

  /** An `ls` of one file in a folder of the root that is still empty. */
  lemma OneFileStep(tree: Folder, k: nat, name: string, file: string, size: nat)
    requires file != [] && ' ' !in file
    requires k < |tree.folders| && tree.folders[k] == Entry(name, Empty(name)) && Find(tree.folders, name) == Some(k)
    ensures Step(State(tree, Some([name])), Command("ls", [Text.NatToString(size) + " " + file]))
         == Some(State(tree.(folders := tree.folders[k := Entry(name, OneFile(name, file, size))]), Some([name])))
  {
    assert AtPath(tree, [name]) == Some(Empty(name));
    OneFileListing(name, file, size);
    LsStep(tree, [name], [Text.NatToString(size) + " " + file], OneFile(name, file, size));
  }

  /** The tree of the test of `execute_commands` after its first `ls`, its
      second one and its last one. */
  function SmallTreeOne(a: string, b: string, c: string, n1: nat): Folder {
    Folder("/", [Entry(b, n1)], [Entry(a, Empty(a)), Entry(c, Empty(c))])
  }

  function SmallTreeTwo(a: string, b: string, c: string, d: string, n1: nat, n2: nat): Folder {
    Folder("/", [Entry(b, n1)], [Entry(a, OneFile(a, d, n2)), Entry(c, Empty(c))])
  }

  function SmallTree(a: string, b: string, c: string, d: string, e: string, n1: nat, n2: nat, n3: nat): Folder {
    Folder("/", [Entry(b, n1)], [Entry(a, OneFile(a, d, n2)), Entry(c, OneFile(c, e, n3))])
  }

  /** The first `ls` fills the root. */
  lemma SmallStepOne(a: string, b: string, c: string, n1: nat)
    requires a != [] && ' ' !in a && b != [] && ' ' !in b && c != [] && ' ' !in c && a != c
    ensures Step(Start(), Command("ls", ["dir " + a, Text.NatToString(n1) + " " + b, "dir " + c]))
         == Some(State(SmallTreeOne(a, b, c, n1), Some([])))
  {
    SmallRootListingOf(a, b, c, n1);
    LsStep(Empty("/"), [], ["dir " + a, Text.NatToString(n1) + " " + b, "dir " + c], SmallTreeOne(a, b, c, n1));
  }

  /** `cd a`, then `ls` there. */
  lemma SmallStepThree(a: string, b: string, c: string, d: string, n1: nat, n2: nat)
    requires d != [] && ' ' !in d
    ensures Step(State(SmallTreeOne(a, b, c, n1), Some([a])), Command("ls", [Text.NatToString(n2) + " " + d]))
         == Some(State(SmallTreeTwo(a, b, c, d, n1, n2), Some([a])))
  {
    var t1 := SmallTreeOne(a, b, c, n1);
    OneFileStep(t1, 0, a, d, n2);
    assert t1.folders[0 := Entry(a, OneFile(a, d, n2))] == SmallTreeTwo(a, b, c, d, n1, n2).folders;
  }

  /** `ls` in c. */
  lemma SmallStepSix(a: string, b: string, c: string, d: string, e: string, n1: nat, n2: nat, n3: nat)
    requires e != [] && ' ' !in e && a != c
    ensures Step(State(SmallTreeTwo(a, b, c, d, n1, n2), Some([c])), Command("ls", [Text.NatToString(n3) + " " + e]))
         == Some(State(SmallTree(a, b, c, d, e, n1, n2, n3), Some([c])))
  {
    var t2 := SmallTreeTwo(a, b, c, d, n1, n2);
    assert t2.folders[1..] == [Entry(c, Empty(c))];
    assert Find(t2.folders[1..], c) == Some(0);
    assert Find(t2.folders, c) == Some(1);
    OneFileStep(t2, 1, c, e, n3);
    assert t2.folders[1 := Entry(c, OneFile(c, e, n3))] == SmallTree(a, b, c, d, e, n1, n2, n3).folders;
  }

  /** `cd c` from the root. */
  lemma SmallStepFive(a: string, b: string, c: string, d: string, n1: nat, n2: nat)
    requires c != [] && ' ' !in c && a != c && c != ".."
    ensures Step(State(SmallTreeTwo(a, b, c, d, n1, n2), Some([])), Command("cd " + c, []))
         == Some(State(SmallTreeTwo(a, b, c, d, n1, n2), Some([c])))
  {
    var t2 := SmallTreeTwo(a, b, c, d, n1, n2);
    assert t2.folders[1..] == [Entry(c, Empty(c))];
    assert Find(t2.folders[1..], c) == Some(0);
    assert Find(t2.folders, c) == Some(1);
    CdStep(t2, [], c);
    assert [] + [c] == [c];
  }

  /** `cd a` from the root. */
  lemma SmallStepTwo(a: string, b: string, c: string, n1: nat)
    requires a != [] && ' ' !in a && a != ".."
    ensures Step(State(SmallTreeOne(a, b, c, n1), Some([])), Command("cd " + a, []))
         == Some(State(SmallTreeOne(a, b, c, n1), Some([a])))
  {
    CdStep(SmallTreeOne(a, b, c, n1), [], a);
    assert [] + [a] == [a];
  }

  /** `cd ..` from a. */
  lemma SmallStepFour(a: string, b: string, c: string, d: string, n1: nat, n2: nat)
    ensures Step(State(SmallTreeTwo(a, b, c, d, n1, n2), Some([a])), Command("cd ..", []))
         == Some(State(SmallTreeTwo(a, b, c, d, n1, n2), Some([])))
  {
    CdUpStep(SmallTreeTwo(a, b, c, d, n1, n2), [a]);
    assert [a][..0] == [];
  }

  /** The session of the test of `execute_commands`, for any names and
      sizes: two folders listed, entered and left. */
  lemma SmallSessionOf(a: string, b: string, c: string, d: string, e: string, n1: nat, n2: nat, n3: nat)
    requires a != [] && ' ' !in a && b != [] && ' ' !in b && c != [] && ' ' !in c
    requires d != [] && ' ' !in d && e != [] && ' ' !in e
    requires a != c && a != ".." && c != ".."
    ensures Execute([Command("cd /", []),
                     Command("ls", ["dir " + a, Text.NatToString(n1) + " " + b, "dir " + c]),
                     Command("cd " + a, []),
                     Command("ls", [Text.NatToString(n2) + " " + d]),
                     Command("cd ..", []),
                     Command("cd " + c, []),
                     Command("ls", [Text.NatToString(n3) + " " + e])])
         == Some(SmallTree(a, b, c, d, e, n1, n2, n3))
  {
    var t1 := SmallTreeOne(a, b, c, n1);
    var t2 := SmallTreeTwo(a, b, c, d, n1, n2);
    SmallStepOne(a, b, c, n1);
    SmallStepTwo(a, b, c, n1);
    SmallStepThree(a, b, c, d, n1, n2);
    SmallStepFour(a, b, c, d, n1, n2);
    SmallStepFive(a, b, c, d, n1, n2);
    SmallStepSix(a, b, c, d, e, n1, n2, n3);
    RunSix(Start(), State(t1, Some([])), State(t1, Some([a])), State(t2, Some([a])),
           State(t2, Some([])), State(t2, Some([c])), State(SmallTree(a, b, c, d, e, n1, n2, n3), Some([c])),
           Command("ls", ["dir " + a, Text.NatToString(n1) + " " + b, "dir " + c]),
           Command("cd " + a, []),
           Command("ls", [Text.NatToString(n2) + " " + d]),
           Command("cd ..", []),
           Command("cd " + c, []),
           Command("ls", [Text.NatToString(n3) + " " + e]));
  }

  /** The commands of the test of `execute_commands`. */
  const SmallCommands: seq<Command> :=
    [Command("cd /", []),
     Command("ls", ["dir a", "123 b.txt", "dir c"]),
     Command("cd a", []),
     Command("ls", ["456 d.txt"]),
     Command("cd ..", []),
     Command("cd c", []),
     Command("ls", ["789 e.txt"])]

  /** The sample's numerals are the decimal numerals of their sizes. */
  lemma SmallNumerals()
    ensures Text.NatToString(123) == "123" && Text.NatToString(456) == "456" && Text.NatToString(789) == "789"
  {
  }

  /** The sample's commands, written as the session of `SmallSessionOf`. */
  lemma SmallCommandsShape()
    ensures SmallCommands
         == [Command("cd /", []),
             Command("ls", ["dir " + "a", Text.NatToString(123) + " " + "b.txt", "dir " + "c"]),
             Command("cd " + "a", []),
             Command("ls", [Text.NatToString(456) + " " + "d.txt"]),
             Command("cd ..", []),
             Command("cd " + "c", []),
             Command("ls", [Text.NatToString(789) + " " + "e.txt"])]
  {
    SmallNumerals();
    assert "123 b.txt" == "123" + " " + "b.txt";
    assert "456 d.txt" == "456" + " " + "d.txt";
    assert "789 e.txt" == "789" + " " + "e.txt";
    assert "dir a" == "dir " + "a" && "dir c" == "dir " + "c";
    assert "cd a" == "cd " + "a" && "cd c" == "cd " + "c";
  }

  lemma SmallCommandsTree()
    ensures Execute(SmallCommands) == Some(SmallTree("a", "b.txt", "c", "d.txt", "e.txt", 123, 456, 789))
  {
    SmallCommandsShape();
    SmallSessionOf("a", "b.txt", "c", "d.txt", "e.txt", 123, 456, 789);
  }

  /** The test of `execute_commands`: the tree is "/", its folder "c" is
      called "c", and file "d.txt" of its folder "a" has size 456. */
  lemma SampleExecuteCommands()
    ensures var tree := Execute(SmallCommands);
            tree.Some? && tree.value.name == "/" &&
            Get(tree.value.folders, "c").Some? && Get(tree.value.folders, "c").value.name == "c" &&
            Get(tree.value.folders, "a").Some? && Get(Get(tree.value.folders, "a").value.files, "d.txt") == Some(456)
  {
    SmallCommandsTree();
    var tree := SmallTree("a", "b.txt", "c", "d.txt", "e.txt", 123, 456, 789);
    assert Find(tree.folders, "c") == Some(1);
    assert Find(tree.folders, "a") == Some(0);
    assert Find(OneFile("a", "d.txt", 456).files, "d.txt") == Some(0);
  }

  /** Five commands that each apply run one after the other. */
  lemma RunFive(s0: State, s1: State, s2: State, s3: State, s4: State, s5: State,
                c1: Command, c2: Command, c3: Command, c4: Command, c5: Command)
    requires Step(s0, c1) == Some(s1) && Step(s1, c2) == Some(s2) && Step(s2, c3) == Some(s3)
    requires Step(s3, c4) == Some(s4) && Step(s4, c5) == Some(s5)
    ensures Run(s0, [c1, c2, c3, c4, c5]) == Some(s5)
  {
    RunCons(s4, c5, [], s5);
    RunCons(s3, c4, [c5], s4);
    RunCons(s2, c3, [c4, c5], s3);
    RunCons(s1, c2, [c3, c4, c5], s2);
    RunCons(s0, c1, [c2, c3, c4, c5], s1);
  }

  /** The trees of the test of `Folder.size`: after listing the root, after
      listing folder a, and after listing folder c inside a. */
  function NestedTreeOne(a: string): Folder {
    Folder("/", [], [Entry(a, Empty(a))])
  }

  function NestedFolderA(a: string, b: string, c: string, n1: nat): Folder {
    Folder(a, [Entry(b, n1)], [Entry(c, Empty(c))])
  }

  function NestedTreeTwo(a: string, b: string, c: string, n1: nat): Folder {
    Folder("/", [], [Entry(a, NestedFolderA(a, b, c, n1))])
  }

  function NestedFolderC(c: string, d: string, e: string, n2: nat, n3: nat): Folder {
    Folder(c, [Entry(d, n2), Entry(e, n3)], [])
  }

  function NestedTree(a: string, b: string, c: string, d: string, e: string, n1: nat, n2: nat, n3: nat): Folder {
    Folder("/", [], [Entry(a, Folder(a, [Entry(b, n1)], [Entry(c, NestedFolderC(c, d, e, n2, n3))]))])
  }

  /** The first `ls` lists folder a in the root. */
  lemma NestedStepOne(a: string)
    requires a != [] && ' ' !in a
    ensures Step(Start(), Command("ls", ["dir " + a])) == Some(State(NestedTreeOne(a), Some([])))
  {
    DirLine(Empty("/"), a);
    assert Put([], a, Empty(a)) == [Entry(a, Empty(a))];
    ListCons(Empty("/"), "dir " + a, [], NestedTreeOne(a));
    LsStep(Empty("/"), [], ["dir " + a], NestedTreeOne(a));
  }

  /** `cd a` from the root. */
  lemma NestedStepTwo(a: string)
    requires a != [] && ' ' !in a && a != ".."
    ensures Step(State(NestedTreeOne(a), Some([])), Command("cd " + a, [])) == Some(State(NestedTreeOne(a), Some([a])))
  {
    CdStep(NestedTreeOne(a), [], a);
    assert [] + [a] == [a];
  }

  /** The `ls` in a lists a file and folder c. */
  lemma NestedStepThree(a: string, b: string, c: string, n1: nat)
    requires b != [] && ' ' !in b && c != [] && ' ' !in c
    ensures Step(State(NestedTreeOne(a), Some([a])), Command("ls", [Text.NatToString(n1) + " " + b, "dir " + c]))
         == Some(State(NestedTreeTwo(a, b, c, n1), Some([a])))
  {
    var t1 := NestedTreeOne(a);
    var withFile := Folder(a, [Entry(b, n1)], []);
    var listed := NestedFolderA(a, b, c, n1);
    assert AtPath(t1, [a]) == Some(Empty(a));
    FileLine(Empty(a), n1, b);
    assert Put([], b, n1) == [Entry(b, n1)];
    DirLine(withFile, c);
    assert Put([], c, Empty(c)) == [Entry(c, Empty(c))];
    ListCons(withFile, "dir " + c, [], listed);
    ListCons(Empty(a), Text.NatToString(n1) + " " + b, ["dir " + c], withFile);
    LsStep(t1, [a], [Text.NatToString(n1) + " " + b, "dir " + c], listed);
    assert ReplaceAt(Empty(a), [a][1..], listed) == listed;
    assert Put(t1.folders, a, listed) == [Entry(a, listed)];
  }

  /** `cd c` from folder a. */
  lemma NestedStepFour(a: string, b: string, c: string, n1: nat)
    requires c != [] && ' ' !in c && c != ".."
    ensures Step(State(NestedTreeTwo(a, b, c, n1), Some([a])), Command("cd " + c, []))
         == Some(State(NestedTreeTwo(a, b, c, n1), Some([a, c])))
  {
    var t2 := NestedTreeTwo(a, b, c, n1);
    assert AtPath(t2, [a]) == Some(NestedFolderA(a, b, c, n1));
    CdStep(t2, [a], c);
    assert [a] + [c] == [a, c];
  }

  /** Listing two files into an empty folder. */
  lemma TwoFilesListing(c: string, d: string, e: string, n2: nat, n3: nat)
    requires d != [] && ' ' !in d && e != [] && ' ' !in e && d != e
    ensures ListAll(Empty(c), [Text.NatToString(n2) + " " + d, Text.NatToString(n3) + " " + e])
         == Some(NestedFolderC(c, d, e, n2, n3))
  {
    var withFile := Folder(c, [Entry(d, n2)], []);
    FileLine(Empty(c), n2, d);
    assert Put([], d, n2) == [Entry(d, n2)];
    FileLine(withFile, n3, e);
    assert Put([Entry(d, n2)], e, n3) == [Entry(d, n2), Entry(e, n3)] by {
      assert Find([Entry(d, n2)], e) == None;
    }
    ListCons(withFile, Text.NatToString(n3) + " " + e, [], NestedFolderC(c, d, e, n2, n3));
    ListCons(Empty(c), Text.NatToString(n2) + " " + d, [Text.NatToString(n3) + " " + e], withFile);
  }

  /** Replacing folder c inside folder a of the second tree. */
  lemma NestedReplace(a: string, b: string, c: string, n1: nat, listed: Folder)
    ensures AtPath(NestedTreeTwo(a, b, c, n1), [a, c]) == Some(Empty(c))
    ensures ReplaceAt(NestedTreeTwo(a, b, c, n1), [a, c], listed)
         == Folder("/", [], [Entry(a, Folder(a, [Entry(b, n1)], [Entry(c, listed)]))])
  {
    var t2 := NestedTreeTwo(a, b, c, n1);
    var folderA := NestedFolderA(a, b, c, n1);
    var newA := Folder(a, [Entry(b, n1)], [Entry(c, listed)]);
    assert [a, c][1..] == [c];
    assert AtPath(folderA, [c]) == Some(Empty(c));
    assert ReplaceAt(folderA, [c], listed) == newA by {
      assert ReplaceAt(Empty(c), [c][1..], listed) == listed;
      assert Put(folderA.folders, c, listed) == [Entry(c, listed)];
    }
    assert Put(t2.folders, a, newA) == [Entry(a, newA)];
  }

  /** The `ls` in c lists two files. */
  lemma NestedStepFive(a: string, b: string, c: string, d: string, e: string, n1: nat, n2: nat, n3: nat)
    requires d != [] && ' ' !in d && e != [] && ' ' !in e && d != e
    ensures Step(State(NestedTreeTwo(a, b, c, n1), Some([a, c])),
                 Command("ls", [Text.NatToString(n2) + " " + d, Text.NatToString(n3) + " " + e]))
         == Some(State(NestedTree(a, b, c, d, e, n1, n2, n3), Some([a, c])))
  {
    var listed := NestedFolderC(c, d, e, n2, n3);
    NestedReplace(a, b, c, n1, listed);
    TwoFilesListing(c, d, e, n2, n3);
    LsStep(NestedTreeTwo(a, b, c, n1), [a, c], [Text.NatToString(n2) + " " + d, Text.NatToString(n3) + " " + e], listed);
  }

  /** The session of the test of `Folder.size`, for any names and sizes: a
      folder inside a folder, each listed after entering it. */
  lemma NestedSessionOf(a: string, b: string, c: string, d: string, e: string, n1: nat, n2: nat, n3: nat)
    requires a != [] && ' ' !in a && b != [] && ' ' !in b && c != [] && ' ' !in c
    requires d != [] && ' ' !in d && e != [] && ' ' !in e
    requires a != ".." && c != ".." && d != e
    ensures Execute([Command("cd /", []),
                     Command("ls", ["dir " + a]),
                     Command("cd " + a, []),
                     Command("ls", [Text.NatToString(n1) + " " + b, "dir " + c]),
                     Command("cd " + c, []),
                     Command("ls", [Text.NatToString(n2) + " " + d, Text.NatToString(n3) + " " + e])])
         == Some(NestedTree(a, b, c, d, e, n1, n2, n3))
  {
    var t1 := NestedTreeOne(a);
    var t2 := NestedTreeTwo(a, b, c, n1);
    NestedStepOne(a);
    NestedStepTwo(a);
    NestedStepThree(a, b, c, n1);
    NestedStepFour(a, b, c, n1);
    NestedStepFive(a, b, c, d, e, n1, n2, n3);
    RunFive(Start(), State(t1, Some([])), State(t1, Some([a])), State(t2, Some([a])),
            State(t2, Some([a, c])), State(NestedTree(a, b, c, d, e, n1, n2, n3), Some([a, c])),
            Command("ls", ["dir " + a]),
            Command("cd " + a, []),
            Command("ls", [Text.NatToString(n1) + " " + b, "dir " + c]),
            Command("cd " + c, []),
            Command("ls", [Text.NatToString(n2) + " " + d, Text.NatToString(n3) + " " + e]));
  }

  /** The size of folder a of the nested session: its file and both files
      of its folder c. */
  lemma NestedFolderSize(a: string, b: string, c: string, d: string, e: string, n1: nat, n2: nat, n3: nat)
    ensures var tree := NestedTree(a, b, c, d, e, n1, n2, n3);
            Get(tree.folders, a).Some? && Size(Get(tree.folders, a).value) == n1 + n2 + n3
  {
    var folderC := NestedFolderC(c, d, e, n2, n3);
    assert Size(folderC) == n2 + n3 by {
      assert FilesSize(folderC.files[1..]) == n3;
    }
    var folderA := Folder(a, [Entry(b, n1)], [Entry(c, folderC)]);
    assert FilesSize(folderA.files) == n1 by {
      assert folderA.files[1..] == [];
    }
    assert FoldersSize(folderA.folders) == Size(folderC) by {
      assert folderA.folders[1..] == [];
    }
    assert Find(NestedTree(a, b, c, d, e, n1, n2, n3).folders, a) == Some(0);
  }

  /** The commands of the test of `Folder.size`. */
  const NestedCommands: seq<Command> :=
    [Command("cd /", []),
     Command("ls", ["dir a"]),
     Command("cd a", []),
     Command("ls", ["100 b.txt", "dir c"]),
     Command("cd c", []),
     Command("ls", ["100 d.txt", "100 e.txt"])]

  /** The test's commands, written as the session of `NestedSessionOf`. */
  lemma NestedCommandsShape()
    ensures NestedCommands
         == [Command("cd /", []),
             Command("ls", ["dir " + "a"]),
             Command("cd " + "a", []),
             Command("ls", [Text.NatToString(100) + " " + "b.txt", "dir " + "c"]),
             Command("cd " + "c", []),
             Command("ls", [Text.NatToString(100) + " " + "d.txt", Text.NatToString(100) + " " + "e.txt"])]
  {
    assert Text.NatToString(100) == "100";
    assert "100 b.txt" == "100" + " " + "b.txt";
    assert "100 d.txt" == "100" + " " + "d.txt";
    assert "100 e.txt" == "100" + " " + "e.txt";
    assert "dir a" == "dir " + "a" && "dir c" == "dir " + "c";
    assert "cd a" == "cd " + "a" && "cd c" == "cd " + "c";
  }

  /** The test of `Folder.size`: the tree is "/", and its folder "a", holding
      a file of 100 and a folder of two files of 100, has size 300. */
  lemma SampleFolderSize()
    ensures var tree := Execute(NestedCommands);
            tree.Some? && tree.value.name == "/" &&
            Get(tree.value.folders, "a").Some? && Size(Get(tree.value.folders, "a").value) == 300
  {
    NestedCommandsShape();
    NestedSessionOf("a", "b.txt", "c", "d.txt", "e.txt", 100, 100, 100);
    NestedFolderSize("a", "b.txt", "c", "d.txt", "e.txt", 100, 100, 100);
  }
}
