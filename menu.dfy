/** The top-level menu and the list registry: the paths of the known todo
    lists, loaded from the index file at start, extended by `add`, listed by
    `list`, used by `open` to start a session, and written back to the index
    file on `exit` and on an interrupt signal. */
module Menu {
  import opened Text
  import opened FileStore
  import opened Tokenizer
  import opened Session

  /** The directory of the list files and the index file of the registry. */
  const ListDir: string := "todo_lists/"
  const IndexPath: string := "data/paths.txt"

  /** The path addNewTodoList derives for a list: the directory, then the
      name and ".txt". A '/' is inserted only when the directory ends with a
      backslash (the condition is the reverse of a separator check), so a
      directory without a trailing separator is glued to the name. */
  function DerivePath(dir: string, name: string): (p: string)
    ensures |p| == |dir| + |name| + 4 + (if EndsWith(dir, '\\') then 1 else 0)
    ensures p[..|dir|] == dir
    ensures p[|p| - |name| - 4..] == name + ".txt"
    ensures EndsWith(dir, '\\') ==> p == dir + "/" + name + ".txt"
    ensures !EndsWith(dir, '\\') ==> p == dir + name + ".txt"
  {
    var base := if !EndsWith(dir, '/') && EndsWith(dir, '\\') then dir + "/" else dir;
    base + name + ".txt"
  }

  /** The path `open` reads: the directory, the name and ".txt", with no
      separator handling. */
  function OpenPath(name: string): (p: string)
    ensures |p| == |ListDir| + |name| + 4
    ensures p[..|ListDir|] == ListDir && p[|ListDir|..|p| - 4] == name && p[|p| - 4..] == ".txt"
  {
    ListDir + name + ".txt"
  }

  /** std::filesystem::path::filename on a POSIX path: the text after the
      last '/'. */
  function FileName(p: string): (r: string)
    ensures '/' !in r
    ensures |r| <= |p| && r == p[|p| - |r|..]
    ensures |r| < |p| ==> p[|p| - |r| - 1] == '/'
  {
    if p == [] || p[|p| - 1] == '/' then []
    else
      var init := p[..|p| - 1];
      var f := FileName(init);
      assert p[|init| - |f|..] == f + [p[|p| - 1]];
      assert |f| < |init| ==> p[|init| - |f| - 1] == '/';
      f + [p[|p| - 1]]
  }

  /** Every path has a file name of at least 4 characters, so `list` can cut
      off the extension. */
  predicate Listable(paths: seq<string>)
  {
    forall k :: 0 <= k < |paths| ==> |FileName(paths[k])| >= 4
  }

  /** The name `list` shows for a path: its file name without the last four
      characters (the ".txt"). */
  function DisplayName(p: string): (r: string)
    requires |FileName(p)| >= 4
    ensures '/' !in r
    ensures |r| + 4 == |FileName(p)| && FileName(p) == r + p[|p| - 4..]
  {
    var f := FileName(p);
    CutExtension(p, f);
    f[..|f| - 4]
  }

  // Splits a file name into its stem and extension; stated apart so the
  // proofs using it stay stable.
  lemma CutExtension(p: string, f: string)
    requires 4 <= |f| <= |p| && f == p[|p| - |f|..] && '/' !in f
    ensures f == f[..|f| - 4] + p[|p| - 4..] && '/' !in f[..|f| - 4]
  {
    assert f[|f| - 4..] == p[|p| - 4..];
  }

  lemma {:induction false} FileNameAfterSlash(dir: string, name: string)
    requires EndsWith(dir, '/') && '/' !in name
    ensures FileName(dir + name) == name
    decreases |name|
  {
    if name == [] {
      assert dir + name == dir;
    } else {
      var init := name[..|name| - 1];
      SplitLast(dir, name);
      FileNameAfterSlash(dir, init);
    }
  }

  // Regroups a concatenation; stated apart so the proofs using it stay stable.
  lemma SplitLast(dir: string, name: string)
    requires name != []
    ensures var p := dir + name;
      && p[..|p| - 1] == dir + name[..|name| - 1]
      && p[|p| - 1] == name[|name| - 1]
      && name == name[..|name| - 1] + [name[|name| - 1]]
  {
  }

  /** A list added under a name without '/' is shown by `list` under that
      same name. */
  lemma ListedNameOfAdded(name: string)
    requires '/' !in name
    ensures |FileName(DerivePath(ListDir, name))| >= 4
    ensures DisplayName(DerivePath(ListDir, name)) == name
  {
    var p := DerivePath(ListDir, name);
    assert p == ListDir + (name + ".txt");
    assert '/' !in name + ".txt";
    FileNameAfterSlash(ListDir, name + ".txt");
    assert (name + ".txt")[..|name|] == name;
  }

  /** `open` looks for a list exactly where `add` created it. */
  lemma OpenFindsAddedList(name: string)
    ensures OpenPath(name) == DerivePath(ListDir, name)
  {
    assert !EndsWith(ListDir, '\\');
  }

  /** The serialisation loop that runs on exit and in the signal handler:
      every path followed by "\n". */
  method SerializePaths(paths: seq<string>) returns (out: string)
    ensures out == JoinLines(paths)
  {
    out := [];
    for i := 0 to |paths|
      invariant out == JoinLines(paths[..i])
    {
      assert paths[..i + 1][..i] == paths[..i];
      out := out + paths[i] + "\n";
    }
    assert paths[..|paths|] == paths;
  }

  /** addNewTodoList: refuses a name whose file already exists (returning
      the empty path), otherwise creates the file and returns its path. */
  method AddNewTodoList(fs: FileSystem, dir: string, name: string) returns (path: string)
    modifies fs
    ensures DerivePath(dir, name) in old(fs.files) ==> path == [] && fs.files == old(fs.files)
    ensures DerivePath(dir, name) !in old(fs.files) ==>
      path == DerivePath(dir, name) && fs.files == old(fs.files)[path := ""]
  {
    var candidate := DerivePath(dir, name);
    if candidate in fs.files {
      return [];
    }
    fs.CreateFile(candidate);
    path := candidate;
  }

  /** A prefix of a sequence is a prefix of that sequence extended at its end;
      stated apart so the proofs using it stay stable. */
  lemma PrefixOfExtended(a: seq<string>, b: seq<string>, x: string)
    requires a <= b
    ensures a <= b + [x]
  {
  }

  /** How the program ends: `exit` (after saving the registry), an uncaught
      exception, undefined behaviour (in `list`, or a blank `done` argument), or still waiting for input. */
  datatype RunResult = Exited | Crashed | Undefined | AwaitingInput

  class TodoApp {
    const fs: FileSystem
    var paths: seq<string>

    /** Every known path is one line of the index file. */
    ghost predicate Valid()
      reads this
    {
      forall k :: 0 <= k < |paths| ==> '\n' !in paths[k]
    }

    /** Start-up: the index file is created if missing and every line of it
        becomes a known path, empty lines included. */
    constructor Start(fs: FileSystem)
      modifies fs
      ensures this.fs == fs
      ensures fs.files == Created(old(fs.files), IndexPath)
      ensures paths == Lines(fs.files[IndexPath])
      ensures Valid()
    {
      this.fs := fs;
      paths := [];
      new;
      fs.CreateFile(IndexPath);
      var ok, lines := fs.GetLinesFromFile(IndexPath, []);
      paths := lines;
    }

    /** Menu `add <name>`: the name is the next word; an empty name or one
        whose file exists is refused with nothing changed; otherwise the
        file is created and its path appended to the registry. */
    method AddList(argument: string) returns (added: bool)
      requires Valid() && '\n' !in argument
      modifies this, fs
      ensures Valid()
      ensures var name := GetNext(argument).command;
        var p := DerivePath(ListDir, name);
        && added == (name != [] && p !in old(fs.files))
        && paths == (if added then old(paths) + [p] else old(paths))
        && fs.files == (if added then old(fs.files)[p := ""] else old(fs.files))
    {
      var name := GetNext(argument).command;
      GetNextKeepsLine(argument);
      if name == [] {
        return false;
      }
      var newPath := AddNewTodoList(fs, ListDir, name);
      if newPath == [] {
        return false;
      }
      paths := paths + [newPath];
      added := true;
    }

    /** Menu `list`: the display name of every known path, in order. */
    method ListNames() returns (names: seq<string>)
      requires Listable(paths)
      ensures |names| == |paths|
      ensures forall k :: 0 <= k < |paths| ==> names[k] == DisplayName(paths[k])
    {
      names := [];
      for k := 0 to |paths|
        invariant |names| == k
        invariant forall j :: 0 <= j < k ==> names[j] == DisplayName(paths[j])
      {
        var name := FileName(paths[k]);
        names := names + [name[..|name| - 4]];
      }
    }

    /** Menu `open <name>`: the name is the next word; an empty name or a
        missing file starts no session; otherwise the session starts with
        the file's lines. */
    method Open(argument: string) returns (session: ListSession?)
      requires '\n' !in argument
      ensures var name := GetNext(argument).command;
        && (name == [] ==> session == null)
        && (name != [] ==> (session != null <==> OpenPath(name) in fs.files))
        && (session != null ==>
              && fresh(session)
              && session.fs == fs && session.path == OpenPath(name)
              && session.entries == Lines(fs.files[session.path])
              && session.Valid()
              && (Canonical(fs.files[session.path]) ==> session.Synced()))
    {
      var name := GetNext(argument).command;
      if name == [] {
        return null;
      }
      var path := OpenPath(name);
      var ok, entries := fs.GetLinesFromFile(path, []);
      if !ok {
        return null;
      }
      session := new ListSession(fs, path, entries);
      if Canonical(fs.files[path]) {
        assert StripAll(entries) == entries;
      }
    }

    /** Exit: every known path and a "\n" after it, written over the index file. */
    method SaveRegistry()
      modifies fs
      ensures fs.files == Written(old(fs.files), IndexPath, JoinLines(paths), Truncate)
    {
      var out := SerializePaths(paths);
      fs.WriteToFile(IndexPath, out, Truncate);
    }

    /** The interrupt handler writes the same text as a normal exit; ending
        the process is not modelled. */
    method OnSignal()
      modifies fs
      ensures fs.files == Written(old(fs.files), IndexPath, JoinLines(paths), Truncate)
    {
      SaveRegistry();
    }

    /** Saving the registry and starting the program again gives back the
        same known paths, in the same order. */
    method SaveAndRestart() returns (again: TodoApp)
      requires Valid()
      modifies fs
      ensures again.fs == fs && again.paths == paths
    {
      SaveRegistry();
      LinesOfJoin(paths);
      again := new TodoApp.Start(fs);
    }

    /** Menu `open <name>` and the session loop that follows: list commands
        are read from `input`, starting at `start`, until one of them ends the
        session or the input runs out; `next` is the position after the last
        line read. When no list is opened the menu resumes at once (`Close`).
        Only the opened list's file is written, each line read doing to it
        what `StepState` says, starting from the entries the file held; every
        line before the last one read continued the session, and the last one
        is what ended it. */
    method EditList(argument: string, input: seq<string>, start: nat) returns (outcome: SessionOutcome, next: nat)
      requires '\n' !in argument && start <= |input|
      requires forall k :: 0 <= k < |input| ==> '\n' !in input[k]
      modifies fs
      ensures start <= next <= |input|
      ensures outcome == Continue ==> next == |input|
      ensures var name := GetNext(argument).command;
        name == [] || OpenPath(name) !in old(fs.files) ==>
        outcome == Close && next == start && fs.files == old(fs.files)
      ensures forall p :: p in old(fs.files) && p != OpenPath(GetNext(argument).command) ==>
        p in fs.files && fs.files[p] == old(fs.files)[p]
      ensures forall k :: start <= k < next - 1 ==>
        FirstWord(input[k]) != "close" && FirstWord(input[k]) != "exit"
      ensures outcome == Exit ==> start < next && FirstWord(input[next - 1]) == "exit"
      ensures outcome == Close && next > start ==> FirstWord(input[next - 1]) == "close"
      ensures outcome == Abort || outcome == UnsetIndex ==>
        start < next && FirstWord(input[next - 1]) == "done"
      ensures var p := OpenPath(GetNext(argument).command);
        GetNext(argument).command != [] && p in old(fs.files) ==>
        fs.files == RunState(Lines(old(fs.files)[p]), old(fs.files), p, input, start, next).1
    {
      var session := Open(argument);
      if session == null {
        return Close, start;
      }
      outcome, next := session.Serve(input, start);
    }

    /** The program's main loop over the lines read from standard input:
        menu commands, with a session loop inside `open`. The registry is
        saved when `exit` is reached, in the menu or in a session. */
    method Run(input: seq<string>) returns (result: RunResult)
      requires Valid()
      requires forall k :: 0 <= k < |input| ==> '\n' !in input[k]
      modifies this, fs
      ensures Valid()
      ensures old(paths) <= paths
      ensures result == Exited ==> IndexPath in fs.files && fs.files[IndexPath] == JoinLines(paths)
    {
      var i := 0;
      while i < |input|
        invariant 0 <= i <= |input|
        invariant Valid()
        invariant old(paths) <= paths
        decreases |input| - i
      {
        var cmd := GetNext(input[i]);
        GetNextKeepsLine(input[i]);
        i := i + 1;
        if cmd.command == "exit" {
          SaveRegistry();
          return Exited;
        } else if cmd.command == "list" {
          if !Listable(paths) {
            return Undefined;
          }
          var names := ListNames();
        } else if cmd.command == "add" {
          ghost var before := paths;
          var added := AddList(cmd.rest);
          if added {
            PrefixOfExtended(old(paths), before, DerivePath(ListDir, GetNext(cmd.rest).command));
          }
        } else if cmd.command == "open" {
          var outcome;
          outcome, i := EditList(cmd.rest, input, i);
          if outcome == Exit {
            SaveRegistry();
            return Exited;
          } else if outcome == Abort {
            return Crashed;
          } else if outcome == UnsetIndex {
            return Undefined;
          } else if outcome == Continue {
            return AwaitingInput;
          }
        }
      }
      return AwaitingInput;
    }
  }
}
