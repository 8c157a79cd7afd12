/** The two file operations the todo-list program uses, over a file system
    seen as a map from path to text: WriteToFile, which truncates or appends,
    and GetLinesFromFile, which reads a file line by line. */
module FileStore {
  import opened Text

  /** std::ios::out (the default: truncate) or std::ios::app (append). */
  datatype OpenMode = Truncate | Append

  /** The text at `path`, or "" when there is no file. */
  function Content(files: map<string, string>, path: string): string
  {
    if path in files then files[path] else ""
  }

  /** The files after CreateFile: an empty file appears at `path` unless one exists. */
  function Created(files: map<string, string>, path: string): (r: map<string, string>)
    ensures r.Keys == files.Keys + {path}
    ensures forall p :: p in files ==> r[p] == files[p]
    ensures path !in files ==> r[path] == ""
  {
    if path in files then files else files[path := ""]
  }

  /** The files after writing `buffer` to `path` in the given mode. */
  function Written(files: map<string, string>, path: string, buffer: string, mode: OpenMode): (r: map<string, string>)
    ensures r.Keys == files.Keys + {path}
    ensures forall p :: p in files && p != path ==> r[p] == files[p]
    ensures mode == Truncate ==> r[path] == buffer
    ensures mode == Append ==> r[path] == Content(files, path) + buffer
  {
    files[path := if mode == Append then Content(files, path) + buffer else buffer]
  }

  class FileSystem {
    var files: map<string, string>

    constructor (initial: map<string, string>)
      ensures files == initial
    {
      files := initial;
    }

    /** CreateFile: leaves an existing file alone, otherwise creates it empty. */
    method CreateFile(path: string)
      modifies this
      ensures files == Created(old(files), path)
    {
      if path !in files {
        files := files[path := ""];
      }
    }

    /** WriteToFile: creates the file if needed, then writes `buffer`,
        replacing the old text (Truncate) or after it (Append). */
    method WriteToFile(path: string, buffer: string, mode: OpenMode)
      modifies this
      ensures files == Written(old(files), path, buffer, mode)
    {
      CreateFile(path);
      if mode == Append {
        files := files[path := files[path] + buffer];
      } else {
        files := files[path := buffer];
      }
    }

    /** GetLinesFromFile: fails when there is no file at `path`; otherwise
        appends every line std::getline reads from it to `buffer`. */
    method GetLinesFromFile(path: string, buffer: seq<string>) returns (ok: bool, lines: seq<string>)
      ensures ok <==> path in files
      ensures ok ==> lines == buffer + Lines(files[path])
      ensures !ok ==> lines == buffer
    {
      if path !in files {
        return false, buffer;
      }
      var text := files[path];
      var read: seq<string> := [];
      var line: string := [];
      var j := 0;
      assert line + text[j..] == text;
      while j < |text|
        invariant 0 <= j <= |text|
        invariant '\n' !in line
        invariant Lines(text) == read + Lines(line + text[j..])
      {
        ReadStep(text, j, read, line);
        if text[j] == '\n' {
          read, line := read + [line], [];
        } else {
          line := line + [text[j]];
        }
        j := j + 1;
      }
      LinesStep(line, text[j..]);
      if line != [] {
        read := read + [line];
      }
      return true, buffer + read;
    }
  }
}
