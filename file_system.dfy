/** The directory tree of test_day07, whose two solvers (test_ex13.py and
    test_ex14.py) share it word for word: a terminal log is cut into
    commands, and replaying the `cd` and `ls` commands from the root builds
    folders that hold files and subfolders. */
module FileSystem {
  import opened Wrappers
  import Text

  /** An entry of a Python dict; the order of a sequence of entries is the
      dict's insertion order. */
  datatype Entry<V> = Entry(key: string, value: V)

  /** The keys of a dict, in order. */
  function Keys<V>(entries: seq<Entry<V>>): (keys: seq<string>)
    ensures |keys| == |entries|
    ensures forall k :: 0 <= k < |entries| ==> keys[k] == entries[k].key
  {
    seq(|entries|, k requires 0 <= k < |entries| => entries[k].key)
  }

  /** The position of `key`: the first entry that carries it. */
  function Find<V>(entries: seq<Entry<V>>, key: string): (r: Option<nat>)
    ensures r.Some? ==> r.value < |entries| && entries[r.value].key == key
    ensures r.Some? ==> forall k :: 0 <= k < r.value ==> entries[k].key != key
    ensures r.None? <==> key !in Keys(entries)
    decreases |entries|
  {
    if entries == [] then None
    else if entries[0].key == key then Some(0)
    else
      assert forall k :: 1 <= k < |entries| ==> entries[k] == entries[1..][k - 1];
      assert Keys(entries) == [entries[0].key] + Keys(entries[1..]);
      match Find(entries[1..], key)
      case None => None
      case Some(k) => Some(k + 1)
  }

  /** `d[key]`; `None` where the key is missing and Python raises `KeyError`. */
  function Get<V>(entries: seq<Entry<V>>, key: string): (r: Option<V>)
    ensures r.Some? <==> key in Keys(entries)
  {
    match Find(entries, key)
    case None => None
    case Some(k) => Some(entries[k].value)
  }

  /** Two dicts with the same keys in the same places find every key at the
      same position. */
  lemma FindSameKeys<V>(a: seq<Entry<V>>, b: seq<Entry<V>>, key: string)
    requires |a| == |b| && forall k :: 0 <= k < |a| ==> a[k].key == b[k].key
    ensures Find(a, key) == Find(b, key)
  {
    assert Keys(a) == Keys(b);
    var fa, fb := Find(a, key), Find(b, key);
    if fa.Some? && fb.Some? {
      assert !(fa.value < fb.value) && !(fb.value < fa.value);
    }
  }

  /** `d[key] = value`: a key already there keeps its place and takes the new
      value, a new key goes last; every other key keeps its value. */
  function Put<V>(entries: seq<Entry<V>>, key: string, value: V): seq<Entry<V>> {
    match Find(entries, key)
    case Some(k) => entries[k := Entry(key, value)]
    case None => entries + [Entry(key, value)]
  }

  /** After `d[key] = value`, `d[key]` is `value`, every other key keeps its
      value, and the keys are the old ones, with `key` last if it is new. */
  lemma PutGet<V>(entries: seq<Entry<V>>, key: string, value: V)
    ensures var r := Put(entries, key, value);
            Get(r, key) == Some(value) &&
            (forall other :: other != key ==> Get(r, other) == Get(entries, other)) &&
            Keys(r) == if key in Keys(entries) then Keys(entries) else Keys(entries) + [key]
  {
    match Find(entries, key)
    case Some(k) => PutExisting(entries, k, key, value);
    case None => PutNew(entries, key, value);
  }

  /** Overwriting the entry of a key that is there. */
  lemma PutExisting<V>(entries: seq<Entry<V>>, k: nat, key: string, value: V)
    requires Find(entries, key) == Some(k)
    ensures var r := entries[k := Entry(key, value)];
            Get(r, key) == Some(value) && Keys(r) == Keys(entries) &&
            forall other :: other != key ==> Get(r, other) == Get(entries, other)
  {
    var r := entries[k := Entry(key, value)];
    FindSameKeys(r, entries, key);
    forall other | other != key
      ensures Get(r, other) == Get(entries, other)
    {
      FindSameKeys(r, entries, other);
    }
    assert Keys(r) == Keys(entries);
  }

  /** Appending the entry of a key that is not there. */
  lemma PutNew<V>(entries: seq<Entry<V>>, key: string, value: V)
    requires Find(entries, key).None?
    ensures var r := entries + [Entry(key, value)];
            Get(r, key) == Some(value) && Keys(r) == Keys(entries) + [key] &&
            forall other :: other != key ==> Get(r, other) == Get(entries, other)
  {
    var r := entries + [Entry(key, value)];
    assert Keys(r) == Keys(entries) + [key];
    assert forall k :: 0 <= k < |entries| ==> r[k] == entries[k];
    assert Find(r, key) == Some(|entries|);
    forall other | other != key
      ensures Get(r, other) == Get(entries, other)
    {
      PutNewOther(entries, key, value, other);
    }
  }

  /** Appending a new key leaves the other keys where they were. */
  lemma PutNewOther<V>(entries: seq<Entry<V>>, key: string, value: V, other: string)
    requires other != key
    ensures Get(entries + [Entry(key, value)], other) == Get(entries, other)
  {
    var r := entries + [Entry(key, value)];
    assert forall k :: 0 <= k < |entries| ==> r[k] == entries[k];
    assert Keys(r) == Keys(entries) + [key];
    var fr, fe := Find(r, other), Find(entries, other);
    if fe.Some? {
      assert fr.Some? && !(fr.value < fe.value) && !(fe.value < fr.value);
    }
  }

  /** A file is an entry of the `files` dict: name and size. */
  datatype Folder = Folder(name: string, files: seq<Entry<int>>, folders: seq<Entry<Folder>>)

  /** `Folder.create_empty`. */
  function Empty(name: string): Folder {
    Folder(name, [], [])
  }

  /** The sum of the sizes of a `files` dict. */
  function FilesSize(files: seq<Entry<int>>): int
    decreases |files|
  {
    if files == [] then 0 else files[0].value + FilesSize(files[1..])
  }

  /** `Folder.size`: its files' sizes plus its subfolders' sizes. */
  function Size(folder: Folder): int
    decreases folder, 1
  {
    FilesSize(folder.files) + FoldersSize(folder.folders)
  }

  /** The sum of the sizes of a `folders` dict. */
  function FoldersSize(folders: seq<Entry<Folder>>): int
    decreases folders, 0
  {
    if folders == [] then 0 else Size(folders[0].value) + FoldersSize(folders[1..])
  }

  lemma {:induction false} FilesSizeUpdate(files: seq<Entry<int>>, k: nat, e: Entry<int>)
    requires k < |files|
    ensures FilesSize(files[k := e]) == FilesSize(files) - files[k].value + e.value
    decreases |files|
  {
    if k > 0 {
      assert files[k := e][1..] == files[1..][k - 1 := e];
      FilesSizeUpdate(files[1..], k - 1, e);
    }
  }

  lemma {:induction false} FilesSizeAppend(files: seq<Entry<int>>, e: Entry<int>)
    ensures FilesSize(files + [e]) == FilesSize(files) + e.value
    decreases |files|
  {
    if files != [] {
      assert (files + [e])[1..] == files[1..] + [e];
      FilesSizeAppend(files[1..], e);
    }
  }

  lemma {:induction false} FoldersSizeUpdate(folders: seq<Entry<Folder>>, k: nat, e: Entry<Folder>)
    requires k < |folders|
    ensures FoldersSize(folders[k := e]) == FoldersSize(folders) - Size(folders[k].value) + Size(e.value)
    decreases |folders|
  {
    if k > 0 {
      assert folders[k := e][1..] == folders[1..][k - 1 := e];
      FoldersSizeUpdate(folders[1..], k - 1, e);
    }
  }

  lemma {:induction false} FoldersSizeAppend(folders: seq<Entry<Folder>>, e: Entry<Folder>)
    ensures FoldersSize(folders + [e]) == FoldersSize(folders) + Size(e.value)
    decreases |folders|
  {
    if folders != [] {
      assert (folders + [e])[1..] == folders[1..] + [e];
      FoldersSizeAppend(folders[1..], e);
    }
  }

  /** Storing a file replaces the size of a file of the same name, or adds
      to the total. */
  lemma PutFileSize(files: seq<Entry<int>>, name: string, size: int)
    ensures FilesSize(Put(files, name, size))
         == FilesSize(files) - (match Get(files, name) case Some(previous) => previous case None => 0) + size
  {
    match Find(files, name)
    case Some(k) => FilesSizeUpdate(files, k, Entry(name, size));
    case None => FilesSizeAppend(files, Entry(name, size));
  }

  /** Storing a folder replaces the size of a folder of the same name, or
      adds to the total. */
  lemma PutFolderSize(folders: seq<Entry<Folder>>, name: string, folder: Folder)
    ensures FoldersSize(Put(folders, name, folder))
         == FoldersSize(folders) - (match Get(folders, name) case Some(previous) => Size(previous) case None => 0) + Size(folder)
  {
    match Find(folders, name)
    case Some(k) => FoldersSizeUpdate(folders, k, Entry(name, folder));
    case None => FoldersSizeAppend(folders, Entry(name, folder));
  }

  /** The folder reached from `folder` by taking, name after name, the
      subfolder of that name (`actual.folders[name]`); `None` where a name is
      missing. */
  function AtPath(folder: Folder, path: seq<string>): Option<Folder>
    decreases |path|
  {
    if path == [] then Some(folder)
    else
      match Get(folder.folders, path[0])
      case None => None
      case Some(child) => AtPath(child, path[1..])
  }

  /** `folder` with the folder at `path` replaced by `sub`; unchanged where
      the path leads nowhere. */
  function ReplaceAt(folder: Folder, path: seq<string>, sub: Folder): Folder
    decreases |path|
  {
    if path == [] then sub
    else
      match Get(folder.folders, path[0])
      case None => folder
      case Some(child) => folder.(folders := Put(folder.folders, path[0], ReplaceAt(child, path[1..], sub)))
  }

  /** Replacing the folder at a path puts the new folder there, keeps the
      root's name when the path is not empty, and changes the size of the
      whole tree by the change in size of the replaced folder, as the sizes
      of all the folders on the path are sums that include it. */
  lemma {:induction false} ReplaceAtPath(folder: Folder, path: seq<string>, sub: Folder)
    requires AtPath(folder, path).Some?
    ensures AtPath(ReplaceAt(folder, path, sub), path) == Some(sub)
    ensures path != [] ==> ReplaceAt(folder, path, sub).name == folder.name
    ensures Size(ReplaceAt(folder, path, sub)) == Size(folder) - Size(AtPath(folder, path).value) + Size(sub)
    decreases |path|
  {
    if path != [] {
      var child := Get(folder.folders, path[0]).value;
      var replaced := ReplaceAt(child, path[1..], sub);
      ReplaceAtPath(child, path[1..], sub);
      PutGet(folder.folders, path[0], replaced);
      PutFolderSize(folder.folders, path[0], replaced);
    }
  }

  /** Following a path one name further. */
  lemma {:induction false} AtPathAppend(folder: Folder, path: seq<string>, name: string)
    ensures AtPath(folder, path + [name])
         == match AtPath(folder, path)
            case None => None
            case Some(actual) => Get(actual.folders, name)
    decreases |path|
  {
    if path == [] {
      assert [name][1..] == [];
    } else {
      assert (path + [name])[0] == path[0] && (path + [name])[1..] == path[1..] + [name];
      match Get(folder.folders, path[0])
      case None =>
      case Some(child) => AtPathAppend(child, path[1..], name);
    }
  }

  /** The folder at a path has a folder at every shorter path above it, its
      parent first of all. */
  lemma ParentExists(folder: Folder, path: seq<string>)
    requires path != [] && AtPath(folder, path).Some?
    ensures AtPath(folder, path[..|path| - 1]).Some?
  {
    var parent := path[..|path| - 1];
    assert parent + [path[|path| - 1]] == path;
    AtPathAppend(folder, parent, path[|path| - 1]);
  }

  /** A `Command`: the instruction without its "$ " and the lines it
      printed. */
  datatype Command = Command(instruction: string, output: seq<string>)

  /** One line of `ls` output applied to the folder it lists: a line starting
      with "dir" stores an empty folder under its second word (replacing a
      folder of that name), any other line must be a size and a name and
      stores a file of that size; `None` where the indexing, the unpacking
      or `int` raises. */
  function ListItem(folder: Folder, item: string): (r: Option<Folder>)
    ensures r.Some? ==> r.value.name == folder.name
  {
    var words := Text.Words(item);
    if |item| >= 3 && item[..3] == "dir" then
      if |words| < 2 then None
      else Some(folder.(folders := Put(folder.folders, words[1], Empty(words[1]))))
    else if |words| != 2 then None
    else
      match Text.ParseInt(words[0])
      case None => None
      case Some(size) => Some(folder.(files := Put(folder.files, words[1], size)))
  }

  /** A "dir x" line leaves the files as they were and makes x an empty
      folder; any other line that applies leaves the folders as they were
      and gives file x the size its line starts with. */
  lemma ListItemEffect(folder: Folder, item: string)
    requires ListItem(folder, item).Some?
    ensures var r := ListItem(folder, item).value;
            var words := Text.Words(item);
            if |item| >= 3 && item[..3] == "dir" then
              |words| >= 2 && Get(r.folders, words[1]) == Some(Empty(words[1])) && r.files == folder.files
            else
              |words| == 2 && Text.ParseInt(words[0]).Some? &&
              Get(r.files, words[1]) == Text.ParseInt(words[0]) && r.folders == folder.folders
  {
    var words := Text.Words(item);
    if |item| >= 3 && item[..3] == "dir" {
      PutGet(folder.folders, words[1], Empty(words[1]));
    } else {
      PutGet(folder.files, words[1], Text.ParseInt(words[0]).value);
    }
  }

  /** The lines of an `ls` applied one after the other. */
  function ListAll(folder: Folder, items: seq<string>): (r: Option<Folder>)
    ensures r.Some? ==> r.value.name == folder.name
    decreases |items|
  {
    if items == [] then Some(folder)
    else
      match ListItem(folder, items[0])
      case None => None
      case Some(listed) => ListAll(listed, items[1..])
  }

  /** What `execute_commands` keeps between commands: the tree and the
      `actual` cursor, as the path of names from the root, or `None` once a
      `cd ..` at the root has set it to the root's parent `None`. */
  datatype State = State(tree: Folder, cursor: Option<seq<string>>)

  /** The cursor, where there is one, names a folder of the tree. */
  predicate Valid(state: State) {
    state.cursor.Some? ==> AtPath(state.tree, state.cursor.value).Some?
  }

  /** One command of `execute_commands`' loop; `None` where Python raises:
      an `ls` that lists a line while the cursor is `None`, an instruction
      other than "ls" with fewer than two words, any `cd` while the cursor
      is `None`, or a `cd` into a folder that is not there. */
  function Step(state: State, command: Command): Option<State> {
    if command.instruction == "ls" then
      if command.output == [] then Some(state)
      else
        match state.cursor
        case None => None
        case Some(path) =>
          match AtPath(state.tree, path)
          case None => None
          case Some(actual) =>
            match ListAll(actual, command.output)
            case None => None
            case Some(listed) => Some(State(ReplaceAt(state.tree, path, listed), state.cursor))
    else
      var words := Text.Words(command.instruction);
      if |words| < 2 then None
      else
        match state.cursor
        case None => None
        case Some(path) =>
          if words[1] == ".." then
            Some(state.(cursor := if path == [] then None else Some(path[..|path| - 1])))
          else
            match AtPath(state.tree, path)
            case None => None
            case Some(actual) =>
              if Get(actual.folders, words[1]).None? then None
              else Some(state.(cursor := Some(path + [words[1]])))
  }

  /** A step from a valid state reaches a valid state, where `cd x` points
      the cursor at folder x of the folder it was at, `cd ..` at its parent,
      and `ls` leaves the cursor where it was and keeps the root's name. */
  lemma StepValid(state: State, command: Command)
    requires Valid(state)
    requires Step(state, command).Some?
    ensures Valid(Step(state, command).value)
    ensures Step(state, command).value.tree.name == state.tree.name
  {
    var next := Step(state, command).value;
    if command.instruction == "ls" {
      if command.output != [] {
        var path := state.cursor.value;
        var listed := ListAll(AtPath(state.tree, path).value, command.output).value;
        ReplaceAtPath(state.tree, path, listed);
      }
    } else {
      var path := state.cursor.value;
      var name := Text.Words(command.instruction)[1];
      if name == ".." {
        if path != [] {
          ParentExists(state.tree, path);
        }
      } else {
        AtPathAppend(state.tree, path, name);
      }
    }
  }

  /** The commands one after the other; `None` as soon as one raises. */
  function Run(state: State, commands: seq<Command>): Option<State>
    decreases |commands|
  {
    if commands == [] then Some(state)
    else
      match Step(state, commands[0])
      case None => None
      case Some(next) => Run(next, commands[1..])
  }

  /** The state `execute_commands` starts from: the empty root "/", with the
      cursor on it. */
  function Start(): State {
    State(Empty("/"), Some([]))
  }

  /** `execute_commands`: the tree built by every command but the first. */
  function Execute(commands: seq<Command>): Option<Folder> {
    match Run(Start(), if commands == [] then [] else commands[1..])
    case None => None
    case Some(state) => Some(state.tree)
  }

  /** A run from a valid state goes through valid states and keeps the name
      of the root. */
  lemma {:induction false} RunValid(state: State, commands: seq<Command>)
    requires Valid(state)
    requires Run(state, commands).Some?
    ensures Valid(Run(state, commands).value)
    ensures Run(state, commands).value.tree.name == state.tree.name
    decreases |commands|
  {
    if commands != [] {
      StepValid(state, commands[0]);
      RunValid(Step(state, commands[0]).value, commands[1..]);
    }
  }

  /** The tree is called "/", and the first command plays no part. */
  lemma ExecuteRoot(first: Command, other: Command, rest: seq<Command>)
    ensures Execute([first] + rest) == Execute([other] + rest)
    ensures Execute([first] + rest).Some? ==> Execute([first] + rest).value.name == "/"
  {
    assert ([first] + rest)[1..] == rest && ([other] + rest)[1..] == rest;
    if Run(Start(), rest).Some? {
      RunValid(Start(), rest);
    }
  }

  /** The inner loop of `execute_commands`: every line an `ls` printed is
      added to the folder the cursor is at, or `None` at the first line that
      makes Python raise. */
  method ListOutput(folder: Folder, output: seq<string>) returns (result: Option<Folder>)
    ensures result == ListAll(folder, output)
  {
    var current := folder;
    var j := 0;
    while j < |output|
      invariant 0 <= j <= |output|
      invariant ListAll(folder, output) == ListAll(current, output[j..])
    {
      var item := output[j];
      assert output[j..][0] == item && output[j..][1..] == output[j + 1..];
      var listed := ListItem(current, item);
      if listed.None? {
        return None;
      }
      current := listed.value;
      j := j + 1;
    }
    result := Some(current);
  }

  /** One pass of `execute_commands`' loop body: an `ls` lists its lines
      into the folder the cursor is at, a `cd` moves the cursor; `None`
      where Python raises. */
  method ExecuteCommand(state: State, command: Command) returns (next: Option<State>)
    requires Valid(state)
    ensures next == Step(state, command)
  {
    var tree, actual := state.tree, state.cursor;
    if command.instruction == "ls" {
      if command.output != [] {
        if actual.None? {
          return None;
        }
        var path := actual.value;
        var listed := ListOutput(AtPath(tree, path).value, command.output);
        if listed.None? {
          return None;
        }
        tree := ReplaceAt(tree, path, listed.value);
      }
    } else {
      var words := Text.Words(command.instruction);
      if |words| < 2 || actual.None? {
        return None;
      }
      var path := actual.value;
      var folderName := words[1];
      if folderName == ".." {
        actual := if path == [] then None else Some(path[..|path| - 1]);
      } else {
        if Get(AtPath(tree, path).value.folders, folderName).None? {
          return None;
        }
        actual := Some(path + [folderName]);
      }
    }
    next := Some(State(tree, actual));
  }

  /** `execute_commands` as the loop it is, over the commands, with each
      command run by `ExecuteCommand`; `None` where Python raises. */
  method ExecuteCommands(commands: seq<Command>) returns (result: Option<Folder>)
    ensures result == Execute(commands)
  {
    var state := Start();
    var rest := if commands == [] then [] else commands[1..];
    var i := 0;
    while i < |rest|
      invariant 0 <= i <= |rest|
      invariant Valid(state)
      invariant Run(Start(), rest) == Run(state, rest[i..])
    {
      assert rest[i..][0] == rest[i] && rest[i..][1..] == rest[i + 1..];
      var next := ExecuteCommand(state, rest[i]);
      if next.None? {
        return None;
      }
      StepValid(state, rest[i]);
      state := next.value;
      i := i + 1;
    }
    result := Some(state.tree);
  }

  /** `line[0] == "$"`: the line of a command the user typed. */
  predicate IsPrompt(line: string) {
    line != [] && line[0] == '$'
  }

  /** The number of lines before the next prompt. */
  function OutputLength(lines: seq<string>): (n: nat)
    ensures n <= |lines|
    ensures forall k :: 0 <= k < n ==> !IsPrompt(lines[k])
    ensures n < |lines| ==> IsPrompt(lines[n])
    decreases |lines|
  {
    if lines == [] || IsPrompt(lines[0]) then 0
    else
      assert forall k :: 1 <= k < |lines| ==> lines[k] == lines[1..][k - 1];
      1 + OutputLength(lines[1..])
  }

  /** A group as `split_before` yields it: one line, then lines that are not
      prompts. */
  predicate IsGroup(group: seq<string>) {
    group != [] && forall k :: 1 <= k < |group| ==> !IsPrompt(group[k])
  }

  /** The groups of `split_before(lines, lambda line: line[0] == "$")`
      where no line is empty: a new group before every prompt but at the
      very start. Every group but the first starts with a prompt. */
  function SplitBefore(lines: seq<string>): (groups: seq<seq<string>>)
    ensures forall k :: 0 <= k < |groups| ==> IsGroup(groups[k]) && (k > 0 ==> IsPrompt(groups[k][0]))
    ensures lines != [] ==> groups != [] && IsGroup(groups[0]) && groups[0][0] == lines[0]
    decreases |lines|
  {
    if lines == [] then []
    else
      var n := 1 + OutputLength(lines[1..]);
      assert forall k :: 1 <= k < n ==> lines[k] == lines[1..][k - 1];
      var rest := SplitBefore(lines[n..]);
      assert n < |lines| ==> IsPrompt(lines[n]);
      [lines[..n]] + rest
  }

  function Flatten(groups: seq<seq<string>>): seq<string> {
    if groups == [] then [] else groups[0] + Flatten(groups[1..])
  }

  /** Splitting loses no line and reorders none. */
  lemma {:induction false} FlattenSplitBefore(lines: seq<string>)
    ensures Flatten(SplitBefore(lines)) == lines
    decreases |lines|
  {
    if lines != [] {
      var n := 1 + OutputLength(lines[1..]);
      FlattenSplitBefore(lines[n..]);
      assert lines[..n] + lines[n..] == lines;
    }
  }

  /** Lines made of groups, every one after the first opening with a
      prompt, split back into those groups. */
  lemma {:induction false} SplitBeforeFlatten(groups: seq<seq<string>>)
    requires forall k :: 0 <= k < |groups| ==> IsGroup(groups[k]) && (k > 0 ==> IsPrompt(groups[k][0]))
    ensures SplitBefore(Flatten(groups)) == groups
    decreases |groups|
  {
    if groups != [] {
      var lines := Flatten(groups);
      var first := groups[0];
      var later := Flatten(groups[1..]);
      assert lines == first + later;
      var tail := groups[1..];
      assert forall k :: 0 <= k < |tail| ==> tail[k] == groups[k + 1];
      SplitBeforeFlatten(tail);
      OutputLengthOfGroup(first, later, tail);
      SplitBeforeGroup(first, later);
      assert groups == [first] + tail;
    }
  }

  /** A group whose output runs to the end of the group splits off first. */
  lemma SplitBeforeGroup(first: seq<string>, later: seq<string>)
    requires first != [] && OutputLength((first + later)[1..]) == |first| - 1
    ensures SplitBefore(first + later) == [first] + SplitBefore(later)
  {
    var lines := first + later;
    var n := 1 + OutputLength(lines[1..]);
    assert lines[..n] == first && lines[n..] == later;
  }

  /** The output of a group ends where the next group's prompt starts. */
  lemma {:induction false} OutputLengthOfGroup(first: seq<string>, later: seq<string>, groups: seq<seq<string>>)
    requires IsGroup(first) && later == Flatten(groups)
    requires forall k :: 0 <= k < |groups| ==> IsGroup(groups[k]) && IsPrompt(groups[k][0])
    ensures OutputLength((first + later)[1..]) == |first| - 1
  {
    var lines := (first + later)[1..];
    var n := OutputLength(lines);
    assert forall k :: 0 <= k < |first| - 1 ==> lines[k] == first[k + 1];
    if groups != [] {
      assert later[0] == groups[0][0];
      assert lines[|first| - 1] == later[0];
    } else {
      assert later == [];
    }
  }

  /** `parse_lines_to_commands`: one command per group, its instruction the
      first line stripped of '$' and ' ' at both ends, its output the other
      lines; `None` where some line is empty and `line[0]` raises. */
  function ParseLinesToCommands(lines: seq<string>): (r: Option<seq<Command>>)
    ensures r.Some? <==> forall k :: 0 <= k < |lines| ==> lines[k] != []
    ensures r.Some? ==> |r.value| == |SplitBefore(lines)|
    ensures r.Some? ==> forall k :: 0 <= k < |r.value| ==>
              r.value[k].output == SplitBefore(lines)[k][1..] &&
              r.value[k].instruction == Text.Strip(SplitBefore(lines)[k][0], {'$', ' '})
  {
    if exists k :: 0 <= k < |lines| && lines[k] == [] then None
    else
      var groups := SplitBefore(lines);
      Some(seq(|groups|, k requires 0 <= k < |groups| => Command(Text.Strip(groups[k][0], {'$', ' '}), groups[k][1..])))
  }

  /** The sizes of a folder and of every folder inside it, in the order the
      recursions of both solvers visit them: the folder first, then its
      subfolders in insertion order, each with everything inside it. */
  function AllSizes(folder: Folder): (sizes: seq<int>)
    ensures sizes != [] && sizes[0] == Size(folder)
    decreases folder, 1
  {
    [Size(folder)] + AllSizesOf(folder.folders)
  }

  function AllSizesOf(folders: seq<Entry<Folder>>): seq<int>
    decreases folders, 0
  {
    if folders == [] then [] else AllSizes(folders[0].value) + AllSizesOf(folders[1..])
  }
}
