# TodoApp interpreter model

A Dafny model of the command interpreter of TodoApp, a terminal todo-list
manager. The program keeps a registry of list files (`todo_lists/<name>.txt`)
in an index file (`data/paths.txt`). Its main loop reads menu commands
(`exit`, `list`, `add <name>`, `open <name>`). Inside `open` a nested session
loop reads list commands (`add <description>`, `done <index>`, `close`,
`exit`). Every change to a list goes to its file straight away. The registry
is written back to the index file on `exit` and on an interrupt signal.

Modules, one per component:

- `Text` (text.dfy): the first-occurrence search behind `find_first_of`, the
  line splitting of `std::getline` (`Lines`), the newline-terminated join the
  program writes (`JoinLines`), decimal formatting of the entry counter, and
  `std::istringstream >> int` (`ParseInt`). Both round trips between
  `Lines` and `JoinLines` are proved, and so is decimal formatting followed
  by parsing.
- `FileStore` (filestore.dfy): the file system as a map from path to text,
  with `CreateFile`, `WriteToFile` (truncate or append) and
  `GetLinesFromFile` (a character-by-character line reader proved equal to
  `Lines`).
- `Tokenizer` (tokenizer.dfy): `getNext`. It takes the line by reference.
  Dafny strings are values, so the rewritten line is returned as the `rest`
  half of a pair.
- `Session` (session.dfy): entry formatting, the `[X]` splice of `done`, the
  rewrite serialisation, and the `ListSession` class. The class holds the
  entries, the counter and the list's path, and shares the `FileSystem`
  object. Its invariant says the counter is always one more than the number
  of entries. `Synced()` says the file, read back line by line, is exactly
  the entries; `add` keeps that and `done` restores it. `StepState` says what
  one line of session input does to the entries and the files, and
  `RunState` applies it to each line a session reads; the session loop is
  proved to end in the state `RunState` gives.
- `Menu` (menu.dfy): path derivation, `list` display names, the `TodoApp`
  class that holds the registry, and `Run`, the main loop over a sequence of
  input lines.

Behaviour that is modelled as written:

- The `done` bounds check admits an index one past the last entry. There,
  `entries.at` throws `std::out_of_range` and the program ends (`Aborted`,
  see `DoneOnePastLastAborts`).
- An entry with no `[` makes `replace(npos, …)` throw, which also ends the
  program.
- An argument that starts with anything other than white space, a sign or
  a digit reads as 0, so the index is -1 and the argument is refused. The
  file is still rewritten (`DoneNonNumericRefused`).
- An argument of white space only, such as `done  `, makes the stream's
  sentry fail before any conversion. Nothing is stored, the uninitialised
  index is then read, and the behaviour is undefined: `DoneEntries` gives
  `Unset`, the session stops with `UnsetIndex` without writing, and `Run`
  returns `Undefined` (`DoneBlankUndefined`).
- `addNewTodoList` adds a `/` only when the directory ends with a backslash.
  For the program's own directory (`todo_lists/`) this gives the same path
  that `open` reads (`OpenFindsAddedList`).
- Appending an entry to a file whose last line lacks a `\n` merges the two
  lines (`AppendAfterUnterminatedLineMerges`). Files written by the program
  itself always end with `\n`.

Behaviour of the code that is easy to misread:

- Every line of the index file becomes a registry path, empty lines
  included.
- `done` with an out-of-range index still overwrites the list file. The
  text stays byte for byte the same exactly when the file already held the
  entries, each newline-terminated (`RewriteUnchangedIff`).
- The bounds check of `done` is `index <= size` (main.cpp:228), which lets
  the index one past the last entry through.
- `open` builds its path by plain concatenation (main.cpp:172-174), without
  the separator rule of `addNewTodoList`.

## Model

| member | source | states |
|---|---|---|
| Text.FirstIndex | main.cpp:51-52 | none exactly when the character is absent; otherwise the index holds the character and no earlier index does |
| Text.Lines | dependencies/FileHandler.hpp:516-518 | no line read from a file contains '\n' |
| Text.LinesOfJoin | main.cpp:105-110 | reading back paths written one per line gives the same sequence, provided no path contains '\n' |
| Text.JoinOfLines | main.cpp:273-277 | writing back the lines read from a newline-terminated text reproduces that text |
| Text.NatToDecimal | main.cpp:207 | the counter is formatted as a non-empty string of decimal digits |
| Text.ParseInt | main.cpp:223-225 | nothing is extracted exactly when the argument is empty or white space only; an extracted value always lies in the 32-bit int range |
| Text.BlankExtractsNothing | main.cpp:223-225 | an argument of white space only extracts nothing, so the int keeps its previous value |
| Text.DecimalParses | main.cpp:223-226 | the number printed for an entry (up to INT_MAX) is read back as that number |
| Text.NonNumericParsesToZero | main.cpp:223-226 | an argument that starts with anything other than white space, a sign or a digit reads as 0 |
| FileStore.Created | dependencies/FileHandler.hpp:39-59 | creating adds an empty file only where none exists and leaves every other file as it was |
| FileStore.Written | dependencies/FileHandler.hpp:163-186 | a write leaves every other file alone; truncate leaves exactly the buffer, append leaves the old text followed by the buffer |
| FileStore.FileSystem.CreateFile | dependencies/FileHandler.hpp:39-59 | the file system afterwards is Created of the one before |
| FileStore.FileSystem.WriteToFile | dependencies/FileHandler.hpp:163-186 | the file system afterwards is Written of the one before, in the requested mode |
| FileStore.FileSystem.GetLinesFromFile | dependencies/FileHandler.hpp:502-519 | fails exactly when the file is missing; otherwise appends to the buffer the lines std::getline yields |
| Tokenizer.GetNext | main.cpp:48-63 | the command has no space; without a space the command is the whole input and the rest is empty; otherwise command, a space and the rest rebuild the input, and the rest is a suffix of it |
| Tokenizer.FirstWordIsCommand | main.cpp:48-63 | for every line, the command getNext splits off is the line's first word, read character by character up to the first space |
| Tokenizer.ArgumentIsRest | main.cpp:48-63 | for every line, the text getNext leaves in the line is everything after its first space, or nothing when it has none |
| Tokenizer.WordThenArgument | main.cpp:48-63 | a word without spaces, a space and an argument split back into that word as the command and that argument |
| Session.Terminated | main.cpp:65-72 | an entry is emitted as its text without the trailing '\n', followed by exactly one '\n' |
| Session.SerializeEntries | main.cpp:235-242 | the rewrite loop builds Render of the entries |
| Session.RenderIsJoin | main.cpp:235-242 | the rewrite text is the entries, each stripped of its '\n', joined one per line |
| Session.RenderReloads | main.cpp:235-244 | the rewritten file is newline-terminated and reads back as the entries without their trailing '\n' |
| Session.RewriteOfSyncedFile | main.cpp:228-244 | when the file already holds exactly the entries, the rewrite reproduces its text byte for byte |
| Session.RewriteUnchangedIff | main.cpp:228-244 | the rewrite reproduces a file's text byte for byte if and only if the file is newline-terminated and reads back as the entries without their '\n' |
| Session.AppendKeepsSync | main.cpp:207-208 | appending a formatted entry to a file that holds exactly the entries keeps file and entries in step |
| Session.LinesAppend | main.cpp:207-208 | appending a line and its '\n' to a newline-terminated file adds exactly that line to the lines read back |
| Session.AppendAfterUnterminatedLineMerges | main.cpp:207-208 | for any file whose last line has no '\n', the lines read back after the append are the earlier lines followed by one line made of that last line and the new entry |
| Session.FormatEntryLayout | main.cpp:207 | an entry made by add is the counter in decimal, a tab, the "[ ]" marker holding its first '[', " - ", the description and a closing '\n' |
| Session.FormattedIsOneLine | main.cpp:207 | a formatted entry has its only '\n' at the end |
| Session.MarkDone | main.cpp:230 | fails exactly when there is no '['; otherwise keeps the text before the first '[', writes "[X]" there and keeps what follows the three replaced characters |
| Session.MarkDoneAt | main.cpp:230 | an entry whose first '[' follows a prefix has that '[' and the two characters after it replaced by "[X]" |
| Session.MarkDoneIdempotent | main.cpp:230 | marking an entry twice gives the same text as marking it once |
| Session.MarkDoneKeepsOneLine | main.cpp:230 | marking keeps an entry a single line |
| Session.MarkDoneOfFormatted | main.cpp:207-230 | marking an entry made by add turns its "[ ]" into "[X]" and changes nothing else |
| Session.DoneEntries | main.cpp:223-231 | unset exactly when nothing is extracted from the argument; for an extracted number, refused exactly when it is outside 1 to count, aborts exactly at count or on an entry without '['; otherwise only entry number-1 changes, to its marked text |
| Session.DoneBlankUndefined | main.cpp:223-226 | done followed by white space only reads an index that was never set |
| Session.DoneIdempotent | main.cpp:223-231 | done with the same argument a second time changes nothing more |
| Session.DoneMarksShownEntry | main.cpp:223-231 | done with the number shown for entry k marks exactly entry k |
| Session.DoneOnePastLastAborts | main.cpp:228-230 | done with one more than the number of entries passes the bounds check and ends the program |
| Session.DoneNonNumericRefused | main.cpp:223-233 | a non-numeric argument is refused as out of range |
| Session.DoneOfAddedEntry | main.cpp:199-231 | after add, done with the new entry's number turns exactly that entry's "[ ]" into "[X]" |
| Session.ListSession.constructor | main.cpp:176-189 | a session starts with the file's lines and the counter one past them |
| Session.ListSession.Add | main.cpp:199-214 | an empty description changes nothing; otherwise exactly one entry numbered by its 1-based position is appended in memory and appended to the file, the counter invariant holds and a synced file stays synced |
| Session.ListSession.Done | main.cpp:215-250 | an empty argument changes nothing; it aborts exactly when DoneEntries aborts and stops on an unset index exactly when DoneEntries is unset, writing nothing in either case; otherwise the entries become those of DoneEntries, the whole list overwrites the file, and the file is synced |
| Session.ListSession.Rewrite | main.cpp:235-244 | the file is overwritten with Render of the entries, is synced afterwards, and is unchanged if it was synced before |
| Session.ListSession.Step | main.cpp:192-260 | close and exit end the session and change nothing; done ends it on an abort or an unset index; only the list's own file can change; add with an empty description changes nothing, otherwise appends the formatted entry in memory and to the file; done with an empty argument or one that aborts changes neither entries nor file, otherwise the entries follow DoneEntries and the file is overwritten with them and synced; a refused done leaves a synced file as it was; any other command changes nothing; together, the entries and files afterwards are StepState of those before and the line |
| Session.ListSession.Advance | main.cpp:192-260 | one step as the session loop sees it: the outcome is close or exit exactly for those commands, an abort or unset index comes from done, only the list's own file changes, a synced file stays synced, and the entries and files afterwards are StepState of those before and the line |
| Session.ListSession.Serve | main.cpp:192-260 | lines are read until one ends the session or the input runs out; every line before the last one read neither closes nor exits, exit, close, an abort or an unset index come from the last line's command, only the list's own file changes, a synced file stays synced, and the entries and files at the end are RunState of those at the start over the lines read, so every add and done read is applied in order |
| Session.StepStateKeeps | main.cpp:199-250 | one line of session input keeps every entry a single line, writes no file but the list's, and leaves a file that held the entries holding them |
| Session.RunStateKeeps | main.cpp:192-260 | the same holds after any number of lines |
| Session.SessionKeepsListInStep | main.cpp:176-260 | a session over a newline-terminated list file, starting from its lines, leaves the file reading back as the entries it ends with |
| Session.StepStateOfAdd | main.cpp:199-208 | the line `add d` with d non-empty appends the entry numbered one past the others in memory and to the file |
| Session.StepStateOfDone | main.cpp:215-244 | the line `done a` with a non-empty marks as DoneEntries says and overwrites the file with the whole list, and changes nothing when it ends the program |
| Session.SessionAddThenDone | main.cpp:199-244 | a session reading `add d` and then `done n`, with n the new entry's number, ends with that entry marked "[X]" and the file overwritten with the marked list |
| Session.SessionRunLines | main.cpp:192-260 | a session run, read line by line: the lines before the last continued the session and the last one ended it as the outcome says |
| Menu.DerivePath | main.cpp:22-28 | the path is the directory, "/", the name and ".txt" exactly when the directory ends with a backslash, and the directory, the name and ".txt" otherwise |
| Menu.OpenPath | main.cpp:172-174 | open reads the directory, then the name, then ".txt", with nothing inserted between them |
| Menu.FileName | main.cpp:140 | the file name is a suffix of the path without '/', and it is the whole path or the character before it is '/', so it starts right after the last '/' |
| Menu.DisplayName | main.cpp:140-141 | the name list shows has no '/' and is the file name with its last four characters (those of the path) cut off |
| Menu.ListedNameOfAdded | main.cpp:137-143 | a list added under a name without '/' is listed under that same name |
| Menu.OpenFindsAddedList | main.cpp:172-174 | open reads the file at the path add created for the same name |
| Menu.SerializePaths | main.cpp:273-275 | the save loop builds every path followed by "\n", in order |
| Menu.AddNewTodoList | main.cpp:22-39 | an existing path is refused with the empty path and no change; otherwise the empty file is created and its path returned |
| Menu.TodoApp.Start | main.cpp:97-111 | the index file is created if missing and the registry is exactly its lines |
| Menu.TodoApp.AddList | main.cpp:145-161 | the registry gains the derived path exactly when the name is non-empty and no file exists there, and the file is then created; otherwise nothing changes |
| Menu.TodoApp.ListNames | main.cpp:137-143 | list shows, in order, each path's file name without its last four characters |
| Menu.TodoApp.Open | main.cpp:162-187 | no session for an empty name or a missing file; otherwise a fresh session over the file's lines, synced when the file is newline-terminated |
| Menu.TodoApp.EditList | main.cpp:162-262 | open with an empty name or a missing file returns to the menu at once, reading no further input and writing nothing; otherwise session commands are read until one ends the session or the input runs out; no file other than the opened list's changes; every line read before the last neither closes nor exits; exit, close, an abort or an unset index come from the last line's command; the list's file at the end is what RunState gives, starting from the file's lines |
| Menu.TodoApp.SaveRegistry | main.cpp:273-277 | the index file is overwritten with the paths one per line, nothing else changes |
| Menu.TodoApp.OnSignal | main.cpp:82-91 | the interrupt handler writes the same index text as a normal exit |
| Menu.TodoApp.SaveAndRestart | main.cpp:105-110 | saving then starting again gives back the same registry |
| Menu.TodoApp.Run | main.cpp:125-280 | the registry only grows at its end; when exit is reached the index file holds the registry one path per line |

## Left out

- Console output is not modelled: clearConsole, the command help text, the messages on standard error, and the text printEntries and list print. Only the newline rule of printEntries (`Terminated`) and the names list shows (`ListNames`) are kept.
- getUserInput is not modelled. Standard input is the `input` parameter of `Run`. On end of input the program would keep reading empty lines for ever; `Run` stops with `AwaitingInput` and saves nothing.
- Registering the signal handler and `exit(signum)` are not modelled. `OnSignal` is only the index write the handler performs.
- File-system failures are not modelled: failing to create directories or to open a stream. `CreateFile` and `WriteToFile` always succeed, and `fs::exists` is membership in the map, so directories and permissions are not represented. Paths are compared as strings: two different strings that name one file (`todo_lists/x.txt` and `todo_lists/./x.txt`, or `Foo` and `foo` on a case-insensitive file system) are two files in the model. So `open ./x` after `add x` opens the list in the program but finds no file in the model, `open ../data/paths` makes session `add` append to the index file while the model keeps that file apart from the registry, and the claims that no other file changes hold for files named by distinct paths.
- Undefined behaviour is not modelled beyond the point where it starts. `list` on a path whose file name is shorter than 4 characters erases before the start of the string, and `done` with an argument of white space only reads an uninitialised index; `Run` returns `Undefined` in both cases. Subtracting 1 from INT_MIN in `done` overflows; the model uses unbounded integers, which still refuse the index.
- A Dafny `char` stands for one byte of a `std::string`. `replace(pos, 3, "[X]")` (main.cpp:230) and `erase(end() - 4, end())` (main.cpp:141) count bytes, so they differ from the model on multi-byte UTF-8 text: `[é] x` becomes `[X]] x` in the program but `[X] x` in the model. Entries made by `add` ("[ ]") and the ".txt" suffix of the paths it derives are plain ASCII, so the proved properties about them are unaffected.
- The loop that copies the index lines into `fs::path` values (main.cpp:108-110) is a plain copy. `Start` assigns the lines directly.
- Process termination after an uncaught exception is the `Abort`/`Crashed` outcome. Files written before it stay as they are, and the registry is not saved.
- The encryption, backup, binary and copy/move/rename helpers of dependencies/FileHandler.hpp are not part of this model, and neither is dependencies/TimeHandler.hpp (wall-clock time).
- Menu.FileName: only '/' is treated as a path separator. The program registers SIGBREAK (main.cpp:94), which exists only on Windows, and there `std::filesystem::path::filename` also splits at '\\' and after a root name such as `C:`. So after `add a\b`, `list` shows `b` on Windows and `a\b` in the model. `ListedNameOfAdded` covers names without '/' under the same POSIX assumption.
- Menu.TodoApp.Run: states only registry growth and the index text on exit. The session files it changes are described by the contracts of `ListSession.Step` and the methods it calls, not restated for the whole run.
