/** The session over one open todo list: the entries held in memory, the
    running entry counter and the list's file, with the commands add, done,
    close and exit. */
module Session {
  import opened Text
  import opened FileStore
  import opened Tokenizer

  /** An entry as `add` formats it: std::format("{}\t[ ] - {}\n", count, description). */
  function FormatEntry(number: nat, description: string): string
  {
    NatToDecimal(number) + "\t[ ] - " + description + "\n"
  }

  /** The same entry once `done` has marked it. */
  function DoneEntry(number: nat, description: string): string
  {
    NatToDecimal(number) + "\t[X] - " + description + "\n"
  }

  /** An entry holds no '\n' except possibly as its last character: lines read
      from the file hold none, entries formatted by `add` end with one. */
  predicate OneLine(e: string)
  {
    forall i :: 0 <= i < |e| - 1 ==> e[i] != '\n'
  }

  predicate AllOneLine(entries: seq<string>)
  {
    forall i :: 0 <= i < |entries| ==> OneLine(entries[i])
  }

  /** An entry without its trailing '\n', if it has one. */
  function Stripped(e: string): string
  {
    if EndsWith(e, '\n') then e[..|e| - 1] else e
  }

  function StripAll(entries: seq<string>): (r: seq<string>)
    ensures |r| == |entries|
    ensures forall i :: 0 <= i < |entries| ==> r[i] == Stripped(entries[i])
  {
    seq(|entries|, i requires 0 <= i < |entries| => Stripped(entries[i]))
  }

  /** The rule of printEntries and of the `done` rewrite: an entry that ends
      with '\n' is emitted as it is, any other with a '\n' appended. */
  function Terminated(e: string): (r: string)
    ensures r == Stripped(e) + "\n"
  {
    if EndsWith(e, '\n') then e else e + "\n"
  }

  /** The text `done` writes over the list's file: every entry, terminated. */
  function Render(entries: seq<string>): string
  {
    if entries == [] then []
    else Render(entries[..|entries| - 1]) + Terminated(entries[|entries| - 1])
  }

  /** The serialisation loop of `done`. */
  method SerializeEntries(entries: seq<string>) returns (out: string)
    ensures out == Render(entries)
  {
    out := [];
    for i := 0 to |entries|
      invariant out == Render(entries[..i])
    {
      assert entries[..i + 1][..i] == entries[..i];
      if EndsWith(entries[i], '\n') {
        out := out + entries[i];
      } else {
        out := out + entries[i] + "\n";
      }
    }
    assert entries[..|entries|] == entries;
  }

  lemma {:induction false} RenderIsJoin(entries: seq<string>)
    ensures Render(entries) == JoinLines(StripAll(entries))
    decreases |entries|
  {
    if entries != [] {
      var init := entries[..|entries| - 1];
      var s := StripAll(entries);
      assert s[..|s| - 1] == StripAll(init);
      RenderIsJoin(init);
    }
  }

  lemma StrippedIsLine(e: string)
    requires OneLine(e)
    ensures '\n' !in Stripped(e)
  {
  }

  /** The file `done` writes reads back, line by line, as the entries without
      their trailing '\n', and is newline-terminated. */
  lemma RenderReloads(entries: seq<string>)
    requires AllOneLine(entries)
    ensures Canonical(Render(entries))
    ensures Lines(Render(entries)) == StripAll(entries)
  {
    RenderIsJoin(entries);
    var s := StripAll(entries);
    forall i | 0 <= i < |s|
      ensures '\n' !in s[i]
    {
      StrippedIsLine(entries[i]);
    }
    LinesOfJoin(s);
  }

  /** When the file already holds exactly the entries, the `done` rewrite
      leaves its text byte for byte as it was. */
  lemma RewriteOfSyncedFile(text: string, entries: seq<string>)
    requires Canonical(text) && Lines(text) == StripAll(entries)
    ensures Render(entries) == text
  {
    RenderIsJoin(entries);
    JoinOfLines(text);
  }

  /** Rewriting leaves a file byte for byte as it was exactly when the file
      already held the entries, newline-terminated. */
  lemma RewriteUnchangedIff(text: string, entries: seq<string>)
    requires AllOneLine(entries)
    ensures Render(entries) == text <==> Canonical(text) && Lines(text) == StripAll(entries)
  {
    RenderReloads(entries);
    if Canonical(text) && Lines(text) == StripAll(entries) {
      RewriteOfSyncedFile(text, entries);
    }
  }

  /** Appending one line and its '\n' to a newline-terminated text adds
      exactly that line to what the text reads back as. */
  lemma LinesAppend(text: string, line: string)
    requires Canonical(text) && '\n' !in line
    ensures Lines(text + line + "\n") == Lines(text) + [line]
  {
    var lines := Lines(text);
    var all := lines + [line];
    assert forall i :: 0 <= i < |all| ==> '\n' !in all[i];
    assert all[..|all| - 1] == lines;
    JoinOfLines(text);
    assert JoinLines(all) == text + line + "\n";
    LinesOfJoin(all);
  }

  /** Appending one formatted entry to a file that holds exactly the entries
      keeps the two in step. */
  lemma AppendKeepsSync(text: string, entries: seq<string>, line: string)
    requires Canonical(text) && Lines(text) == StripAll(entries)
    requires '\n' !in line
    ensures Canonical(text + line + "\n")
    ensures Lines(text + line + "\n") == StripAll(entries + [line + "\n"])
  {
    LinesAppend(text, line);
    assert Stripped(line + "\n") == line;
    assert StripAll(entries + [line + "\n"]) == StripAll(entries) + [line];
  }

  /** Appending to a file whose last line `last` has no '\n' (one not
      written by this program) glues the new entry onto that line: read back,
      the file holds one line where two entries were meant. `pre` is the
      newline-terminated text before that last line. */
  lemma AppendAfterUnterminatedLineMerges(pre: string, last: string, line: string)
    requires Canonical(pre) && '\n' !in last && '\n' !in line
    ensures Lines(pre + last + line + "\n") == Lines(pre) + [last + line]
  {
    Regroup(pre, last, line);
    LinesAppend(pre, last + line);
  }

  // Regroups a concatenation; stated apart so the proofs using it stay stable.
  lemma Regroup(pre: string, last: string, line: string)
    ensures pre + last + line + "\n" == pre + (last + line) + "\n"
  {
  }

  /** No '[' among the counter's digits and the tab after them, so the first
      '[' of an entry made by `add` is the one of its marker. */
  lemma FirstBracketAfterNumber(d: string, post: string)
    requires forall i :: 0 <= i < |d| ==> IsDigit(d[i])
    ensures FirstIndex(d + "\t" + ['['] + post, '[') == Some(|d| + 1)
  {
    var pre := d + "\t";
    forall j | 0 <= j < |pre|
      ensures pre[j] != '['
    {
      if j < |d| {
        assert IsDigit(d[j]);
      }
    }
    FirstIndexAfter(pre, '[', post);
  }

  /** The layout of an entry made by `add`: the counter in decimal, a tab,
      the "[ ]" marker holding the entry's first '[', " - ", the description
      and a closing '\n'. */
  lemma FormatEntryLayout(number: nat, description: string)
    ensures var e := FormatEntry(number, description);
      var d := NatToDecimal(number);
      && |e| == |d| + 7 + |description| + 1
      && e[..|d|] == d && e[|d|] == '\t'
      && FirstIndex(e, '[') == Some(|d| + 1)
      && e[|d| + 1..|d| + 4] == "[ ]"
      && e[|d| + 4..|d| + 7] == " - "
      && e[|e| - |description| - 1..] == description + "\n"
  {
    EntryLayout(NatToDecimal(number), description);
  }

  lemma EntryLayout(d: string, description: string)
    requires forall i :: 0 <= i < |d| ==> IsDigit(d[i])
    ensures var e := d + "\t[ ] - " + description + "\n";
      && |e| == |d| + 7 + |description| + 1
      && e[..|d|] == d && e[|d|] == '\t'
      && FirstIndex(e, '[') == Some(|d| + 1)
      && e[|d| + 1..|d| + 4] == "[ ]"
      && e[|d| + 4..|d| + 7] == " - "
      && e[|e| - |description| - 1..] == description + "\n"
  {
    EntryShape(d, description);
    FirstBracketAfterNumber(d, " ] - " + description + "\n");
    EntrySlices(d, description);
  }

  // Regroups a concatenation; stated apart so the proofs using it stay stable.
  lemma EntryShape(d: string, description: string)
    ensures d + "\t[ ] - " + description + "\n" == d + "\t" + ['['] + (" ] - " + description + "\n")
  {
  }

  lemma EntrySlices(d: string, description: string)
    ensures var e := d + "\t[ ] - " + description + "\n";
      && |e| == |d| + 7 + |description| + 1
      && e[..|d|] == d && e[|d|] == '\t'
      && e[|d| + 1..|d| + 4] == "[ ]"
      && e[|d| + 4..|d| + 7] == " - "
      && e[|e| - |description| - 1..] == description + "\n"
  {
    var e := d + "\t[ ] - " + description + "\n";
    assert e[..|d|] == d;
    assert e[|d| + 1..|d| + 4] == "[ ]";
    assert e[|d| + 4..|d| + 7] == " - ";
    assert e[|e| - |description| - 1..] == description + "\n";
  }

  lemma FormattedIsOneLine(number: nat, description: string)
    requires '\n' !in description
    ensures OneLine(FormatEntry(number, description))
  {
    var e := FormatEntry(number, description);
    var d := NatToDecimal(number);
    forall i | 0 <= i < |e| - 1
      ensures e[i] != '\n'
    {
      if i < |d| {
        assert e[i] == d[i] && IsDigit(d[i]);
      } else if i >= |d| + 7 {
        assert e[i] == description[i - |d| - 7];
      }
    }
  }

  /** An entry formatted by `add` is one line followed by its '\n'. */
  lemma FormattedLine(number: nat, description: string) returns (line: string)
    requires '\n' !in description
    ensures FormatEntry(number, description) == line + "\n" && '\n' !in line
  {
    var e := FormatEntry(number, description);
    FormattedIsOneLine(number, description);
    line := e[..|e| - 1];
    assert e == line + [e[|e| - 1]];
  }

  // Regroups a concatenation; stated apart so the proofs using it stay stable.
  lemma AppendRegroup(text: string, line: string)
    ensures text + (line + "\n") == text + line + "\n"
  {
  }

  // ---------------------------------------------------------------------------
  // Marking an entry done

  /** `e.replace(e.find_first_of('['), 3, "[X]")`: the three characters from
      the first '[' on (fewer at the end of the entry) become "[X]". None when
      there is no '[': find_first_of gives npos and replace throws
      std::out_of_range. */
  function MarkDone(e: string): (r: Option<string>)
    ensures r.None? <==> '[' !in e
    ensures r.Some? ==>
      var i := FirstIndex(e, '[').value;
      && |r.value| == (if i + 3 <= |e| then |e| else i + 3)
      && r.value[..i] == e[..i]
      && r.value[i..i + 3] == "[X]"
      && r.value[i + 3..] == (if i + 3 <= |e| then e[i + 3..] else [])
  {
    match FirstIndex(e, '[')
    case None => None
    case Some(i) =>
      var r := e[..i] + "[X]" + e[if i + 3 <= |e| then i + 3 else |e|..];
      assert r[..i] == e[..i] && r[i..i + 3] == "[X]";
      Some(r)
  }

  /** A marked entry is the text before the first '[', then "[X]", then
      what followed the replaced characters. */
  lemma MarkedParts(e: string) returns (pre: string, post: string)
    requires '[' in e
    ensures '[' !in pre && MarkDone(e) == Some(pre + "[X]" + post)
  {
    var i := FirstIndex(e, '[').value;
    var m := MarkDone(e).value;
    pre, post := e[..i], m[i + 3..];
    assert m == m[..i] + m[i..i + 3] + m[i + 3..];
  }

  /** Marking an entry twice gives what marking it once gives. */
  lemma MarkDoneIdempotent(e: string)
    requires '[' in e
    ensures MarkDone(MarkDone(e).value) == MarkDone(e)
  {
    var pre, post := MarkedParts(e);
    MarkDoneOfMarked(pre, post);
  }

  /** An entry already marked at its first '[' is marked again to itself. */
  lemma MarkDoneOfMarked(pre: string, post: string)
    requires '[' !in pre
    ensures MarkDone(pre + "[X]" + post) == Some(pre + "[X]" + post)
  {
    assert pre + ['['] + "X]" + post == pre + "[X]" + post;
    MarkDoneAt(pre, "X]", post);
  }

  /** Marking keeps an entry a single line. */
  lemma MarkDoneKeepsOneLine(e: string)
    requires OneLine(e) && '[' in e
    ensures OneLine(MarkDone(e).value)
  {
    var i := FirstIndex(e, '[').value;
    var m := MarkDone(e).value;
    var post := if i + 3 <= |e| then e[i + 3..] else [];
    ThreeParts(m, i, i + 3);
    OneLineHead(e, i);
    if i + 3 <= |e| {
      OneLineTail(e, i + 3);
    }
    OneLineJoin(e[..i], "[X]", post);
  }

  // Regroups a concatenation; stated apart so the proofs using it stay stable.
  lemma ThreeParts(s: string, i: nat, j: nat)
    requires i <= j <= |s|
    ensures s == s[..i] + s[i..j] + s[j..]
  {
  }

  lemma OneLineHead(e: string, k: nat)
    requires OneLine(e) && k < |e|
    ensures '\n' !in e[..k]
  {
  }

  lemma OneLineTail(e: string, k: nat)
    requires OneLine(e) && k <= |e|
    ensures OneLine(e[k..])
  {
  }

  lemma OneLineJoin(pre: string, mid: string, post: string)
    requires '\n' !in pre && '\n' !in mid && OneLine(post)
    ensures OneLine(pre + mid + post)
  {
    var s := pre + mid + post;
    forall j | 0 <= j < |s| - 1
      ensures s[j] != '\n'
    {
      if j < |pre| {
        assert s[j] == pre[j];
      } else if j < |pre| + |mid| {
        assert s[j] == mid[j - |pre|];
      } else {
        assert s[j] == post[j - |pre| - |mid|];
      }
    }
  }

  /** Marking an entry whose first '[' follows `pre` replaces that '[' and
      the two characters after it. */
  lemma MarkDoneAt(pre: string, marker: string, post: string)
    requires '[' !in pre && |marker| == 2
    ensures MarkDone(pre + ['['] + marker + post) == Some(pre + "[X]" + post)
  {
    var e := pre + ['['] + marker + post;
    assert e == pre + ['['] + (marker + post);
    FirstIndexAfter(pre, '[', marker + post);
    assert e[..|pre|] == pre;
    assert e[|pre| + 3..] == post;
  }

  /** Marking an entry as `add` formatted it flips its marker and nothing else. */
  lemma MarkDoneOfFormatted(number: nat, description: string)
    ensures MarkDone(FormatEntry(number, description)) == Some(DoneEntry(number, description))
  {
    var d := NatToDecimal(number);
    var pre := d + "\t";
    var post := " - " + description + "\n";
    assert '[' !in pre by {
      forall j | 0 <= j < |pre|
        ensures pre[j] != '['
      {
        if j < |d| {
          assert IsDigit(d[j]);
        }
      }
    }
    assert FormatEntry(number, description) == pre + ['['] + " ]" + post;
    assert DoneEntry(number, description) == pre + "[X]" + post;
    MarkDoneAt(pre, " ]", post);
  }

  /** What `done <argument>` does to the entries: the argument is read as a
      1-based number; the bounds check admits 1 up to one past the last
      entry, where `entries.at` throws std::out_of_range, and an entry with
      no '[' makes `replace` throw; both end the program. An argument of
      white space only stores nothing in the uninitialised index, whose
      value is then read: undefined behaviour (`Unset`). */
  datatype DoneOutcome = Marked(entries: seq<string>) | OutOfRange | Aborted | Unset

  function DoneEntries(entries: seq<string>, argument: string): (r: DoneOutcome)
    ensures r.Unset? <==> ParseInt(argument).None?
    ensures ParseInt(argument).Some? ==>
      var n := ParseInt(argument).value;
      && (r.OutOfRange? <==> !(1 <= n <= |entries| + 1))
      && (r.Aborted? <==> n == |entries| + 1 || (1 <= n <= |entries| && '[' !in entries[n - 1]))
    ensures r.Marked? ==>
      && ParseInt(argument).Some?
      && var k := ParseInt(argument).value - 1;
      && 0 <= k < |entries|
      && |r.entries| == |entries|
      && Some(r.entries[k]) == MarkDone(entries[k])
      && forall j :: 0 <= j < |entries| && j != k ==> r.entries[j] == entries[j]
  {
    match ParseInt(argument)
    case None => Unset
    case Some(n) =>
      var index := n - 1;
      if 0 <= index && index <= |entries| then
        if index == |entries| then Aborted
        else match MarkDone(entries[index])
          case None => Aborted
          case Some(e) => Marked(entries[index := e])
      else OutOfRange
  }

  /** `done` with the same argument a second time changes nothing more. */
  lemma DoneIdempotent(entries: seq<string>, argument: string)
    requires DoneEntries(entries, argument).Marked?
    ensures DoneEntries(DoneEntries(entries, argument).entries, argument) == DoneEntries(entries, argument)
  {
    var k := ParseInt(argument).value - 1;
    MarkDoneIdempotent(entries[k]);
    var once := DoneEntries(entries, argument).entries;
    assert once == entries[k := MarkDone(entries[k]).value];
    assert '[' in once[k];
  }

  /** `done k` with the number k shown for entry k marks that entry. */
  lemma DoneMarksShownEntry(entries: seq<string>, k: nat)
    requires 1 <= k <= |entries| && k <= IntMax && '[' in entries[k - 1]
    ensures DoneEntries(entries, NatToDecimal(k)) == Marked(entries[k - 1 := MarkDone(entries[k - 1]).value])
  {
    DecimalParses(k);
    DoneAtIndex(entries, NatToDecimal(k), k - 1, MarkDone(entries[k - 1]).value);
  }

  /** `done n` with n one more than the number of entries passes the bounds
      check and ends the program, rather than being refused. */
  lemma DoneOnePastLastAborts(entries: seq<string>)
    requires |entries| + 1 <= IntMax
    ensures DoneEntries(entries, NatToDecimal(|entries| + 1)) == Aborted
  {
    DecimalParses(|entries| + 1);
  }

  /** A non-numeric argument reads as 0, so the index is -1 and nothing is marked. */
  lemma DoneNonNumericRefused(entries: seq<string>, argument: string)
    requires argument != [] && !IsSpace(argument[0]) && !IsDigit(argument[0])
    requires argument[0] != '-' && argument[0] != '+'
    ensures DoneEntries(entries, argument) == OutOfRange
  {
    NonNumericParsesToZero(argument);
  }

  /** `done` followed by white space only reads an index that was never set. */
  lemma DoneBlankUndefined(entries: seq<string>, argument: string)
    requires forall i :: 0 <= i < |argument| ==> IsSpace(argument[i])
    ensures DoneEntries(entries, argument) == Unset
  {
    BlankExtractsNothing(argument);
  }

  /** `done` whose argument reads as a number between 1 and the number of
      entries, on an entry with a '[', marks exactly that entry. */
  lemma DoneAtIndex(entries: seq<string>, argument: string, k: nat, marked: string)
    requires ParseInt(argument) == Some(k + 1) && k < |entries|
    requires MarkDone(entries[k]) == Some(marked)
    ensures DoneEntries(entries, argument) == Marked(entries[k := marked])
  {
  }

  /** After `add`, `done` with the number the new entry was given marks
      exactly that entry: "[ ]" becomes "[X]". */
  lemma DoneOfAddedEntry(entries: seq<string>, n: nat, description: string)
    requires n == |entries| + 1 && n <= IntMax
    ensures DoneEntries(entries + [FormatEntry(n, description)], NatToDecimal(n))
         == Marked(entries + [DoneEntry(n, description)])
  {
    var e := FormatEntry(n, description);
    var marked := DoneEntry(n, description);
    MarkDoneOfFormatted(n, description);
    DecimalParses(n);
    ReplaceLast(entries, e, marked);
    DoneAtIndex(entries + [e], NatToDecimal(n), n - 1, marked);
  }

  // Regroups a concatenation; stated apart so the proofs using it stay stable.
  lemma ReplaceLast(entries: seq<string>, e: string, marked: string)
    ensures (entries + [e])[|entries|] == e
    ensures (entries + [e])[|entries| := marked] == entries + [marked]
  {
  }

  // ---------------------------------------------------------------------------
  // The session

  /** No line of `input` from `start` up to `end` closes or exits a session. */
  ghost predicate Continued(input: seq<string>, start: nat, end: int)
    requires end <= |input|
    decreases end
  {
    || end <= start
    || (&& Continued(input, start, end - 1)
        && FirstWord(input[end - 1]) != "close"
        && FirstWord(input[end - 1]) != "exit")
  }

  /** Line by line: each line of a continued stretch neither closes nor exits. */
  lemma {:induction false} ContinuedLines(input: seq<string>, start: nat, end: int)
    requires end <= |input| && Continued(input, start, end)
    ensures forall k :: start <= k < end ==>
      FirstWord(input[k]) != "close" && FirstWord(input[k]) != "exit"
    decreases end
  {
    if end > start {
      ContinuedLines(input, start, end - 1);
    }
  }

  /** The lines of `input` from `start` up to `next` were read by one
      session, the last of them with the given outcome: every line before
      the last one continued the session, and a session that ended was
      ended by its last line's command. */
  ghost predicate SessionRun(input: seq<string>, start: nat, next: nat, outcome: SessionOutcome)
    requires start <= next <= |input|
  {
    && Continued(input, start, if outcome == Continue then next else next - 1)
    && (outcome != Continue ==> start < next)
    && (outcome == Exit ==> FirstWord(input[next - 1]) == "exit")
    && (outcome == Close ==> FirstWord(input[next - 1]) == "close")
    && (outcome == Abort || outcome == UnsetIndex ==> FirstWord(input[next - 1]) == "done")
  }

  /** Reading one more line, whose command decides the outcome as a session
      step does, extends a run that had not ended. */
  lemma SessionRunStep(input: seq<string>, start: nat, next: nat, outcome: SessionOutcome)
    requires start <= next < |input| && SessionRun(input, start, next, Continue)
    requires outcome == Close <==> FirstWord(input[next]) == "close"
    requires outcome == Exit <==> FirstWord(input[next]) == "exit"
    requires outcome == Abort || outcome == UnsetIndex ==> FirstWord(input[next]) == "done"
    ensures SessionRun(input, start, next + 1, outcome)
  {
    assert Continued(input, start, next);
    if outcome == Continue {
      assert Continued(input, start, next + 1);
    }
  }

  /** Every file other than `path` is still there, with the same text. */
  ghost predicate KeepsOthers(before: map<string, string>, after: map<string, string>, path: string)
  {
    forall p :: p in before && p != path ==> p in after && after[p] == before[p]
  }

  /** What a session run says line by line: the lines before the last one
      read continued the session, and the last one ended it as the outcome
      says. */
  lemma SessionRunLines(input: seq<string>, start: nat, next: nat, outcome: SessionOutcome)
    requires start <= next <= |input| && SessionRun(input, start, next, outcome)
    ensures forall k :: start <= k < next - 1 ==>
      FirstWord(input[k]) != "close" && FirstWord(input[k]) != "exit"
    ensures outcome != Continue ==> start < next
    ensures outcome == Exit ==> FirstWord(input[next - 1]) == "exit"
    ensures outcome == Close ==> FirstWord(input[next - 1]) == "close"
    ensures outcome == Abort || outcome == UnsetIndex ==> FirstWord(input[next - 1]) == "done"
  {
    var end := if outcome == Continue then next else next - 1;
    assert Continued(input, start, end);
    ContinuedLines(input, start, end);
  }

  /** A file system in which the list's file holds exactly the entries:
      newline-terminated, and read back line by line it gives the entries
      without their '\n'. */
  ghost predicate SyncedAt(files: map<string, string>, path: string, entries: seq<string>)
  {
    path in files && Canonical(files[path]) && Lines(files[path]) == StripAll(entries)
  }

  /** What one line of session input does to the entries and the files:
      `add` with a description appends the next numbered entry in memory and
      to the file; `done` with an argument marks as `DoneEntries` says and
      writes the whole list over the file, unless it ends the program; every
      other line leaves both alone. */
  function StepState(entries: seq<string>, files: map<string, string>, path: string, line: string)
    : (seq<string>, map<string, string>)
  {
    var command, argument := FirstWord(line), Argument(line);
    if command == "add" && argument != [] then
      var e := FormatEntry(|entries| + 1, argument);
      (entries + [e], Written(files, path, e, Append))
    else if command == "done" && argument != [] then
      match DoneEntries(entries, argument)
      case Marked(es) => (es, Written(files, path, Render(es), Truncate))
      case OutOfRange => (entries, Written(files, path, Render(entries), Truncate))
      case _ => (entries, files)
    else (entries, files)
  }

  /** `StepState` in terms of the split `getNext` makes of the line. */
  lemma StepStateByCommand(entries: seq<string>, files: map<string, string>, path: string, line: string)
    ensures var cmd := GetNext(line);
      StepState(entries, files, path, line) ==
        if cmd.command == "add" && cmd.rest != [] then
          (entries + [FormatEntry(|entries| + 1, cmd.rest)],
           Written(files, path, FormatEntry(|entries| + 1, cmd.rest), Append))
        else if cmd.command == "done" && cmd.rest != [] then
          match DoneEntries(entries, cmd.rest)
          case Marked(es) => (es, Written(files, path, Render(es), Truncate))
          case OutOfRange => (entries, Written(files, path, Render(entries), Truncate))
          case _ => (entries, files)
        else (entries, files)
  {
    FirstWordIsCommand(line);
    ArgumentIsRest(line);
  }

  /** The entries and files after the session has read the lines of `input`
      from `start` up to `next`, one step each. */
  function RunState(entries: seq<string>, files: map<string, string>, path: string,
                    input: seq<string>, start: nat, next: nat): (seq<string>, map<string, string>)
    requires start <= next <= |input|
    decreases next
  {
    if next == start then (entries, files)
    else
      var before := RunState(entries, files, path, input, start, next - 1);
      StepState(before.0, before.1, path, input[next - 1])
  }

  /** One line of input keeps every entry a single line, writes no file but
      the list's, and leaves a file that held the entries holding them. */
  lemma StepStateKeeps(entries: seq<string>, files: map<string, string>, path: string, line: string)
    requires AllOneLine(entries) && '\n' !in line
    ensures var after := StepState(entries, files, path, line);
      && AllOneLine(after.0)
      && KeepsOthers(files, after.1, path)
      && (SyncedAt(files, path, entries) ==> SyncedAt(after.1, path, after.0))
  {
    var command, argument := FirstWord(line), Argument(line);
    ArgumentIsRest(line);
    GetNextKeepsLine(line);
    if command == "add" && argument != [] {
      AddStateKeeps(entries, files, path, argument);
    } else if command == "done" && argument != [] {
      DoneStateKeeps(entries, files, path, argument);
    }
  }

  lemma AddStateKeeps(entries: seq<string>, files: map<string, string>, path: string, description: string)
    requires AllOneLine(entries) && '\n' !in description
    ensures var e := FormatEntry(|entries| + 1, description);
      && AllOneLine(entries + [e])
      && KeepsOthers(files, Written(files, path, e, Append), path)
      && (SyncedAt(files, path, entries) ==> SyncedAt(Written(files, path, e, Append), path, entries + [e]))
  {
    var e := FormatEntry(|entries| + 1, description);
    FormattedIsOneLine(|entries| + 1, description);
    assert (entries + [e])[|entries|] == e;
    if SyncedAt(files, path, entries) {
      var l := FormattedLine(|entries| + 1, description);
      AppendRegroup(files[path], l);
      AppendKeepsSync(files[path], entries, l);
    }
  }

  lemma DoneStateKeeps(entries: seq<string>, files: map<string, string>, path: string, argument: string)
    requires AllOneLine(entries)
    ensures match DoneEntries(entries, argument)
      case Marked(es) =>
        && AllOneLine(es)
        && KeepsOthers(files, Written(files, path, Render(es), Truncate), path)
        && SyncedAt(Written(files, path, Render(es), Truncate), path, es)
      case _ =>
        && KeepsOthers(files, Written(files, path, Render(entries), Truncate), path)
        && SyncedAt(Written(files, path, Render(entries), Truncate), path, entries)
  {
    match DoneEntries(entries, argument)
    case Marked(es) =>
      var k := ParseInt(argument).value - 1;
      MarkDoneKeepsOneLine(entries[k]);
      assert AllOneLine(es);
      RenderReloads(es);
    case _ =>
      RenderReloads(entries);
  }

  /** However many lines a session reads, every entry stays a single line,
      no file but the list's is written, and a list file that held the
      entries when the session began holds them at its end. */
  lemma {:induction false} RunStateKeeps(entries: seq<string>, files: map<string, string>, path: string,
                                         input: seq<string>, start: nat, next: nat)
    requires start <= next <= |input| && AllOneLine(entries)
    requires forall k :: 0 <= k < |input| ==> '\n' !in input[k]
    ensures var after := RunState(entries, files, path, input, start, next);
      && AllOneLine(after.0)
      && KeepsOthers(files, after.1, path)
      && (SyncedAt(files, path, entries) ==> SyncedAt(after.1, path, after.0))
    decreases next
  {
    if next > start {
      RunStateKeeps(entries, files, path, input, start, next - 1);
      var before := RunState(entries, files, path, input, start, next - 1);
      StepStateKeeps(before.0, before.1, path, input[next - 1]);
    }
  }

  /** A session over a newline-terminated list file, whose entries are the
      file's lines, leaves the file reading back as the entries it ends with,
      whatever lines it reads. */
  lemma SessionKeepsListInStep(files: map<string, string>, path: string, input: seq<string>, start: nat, next: nat)
    requires start <= next <= |input| && path in files && Canonical(files[path])
    requires forall k :: 0 <= k < |input| ==> '\n' !in input[k]
    ensures var after := RunState(Lines(files[path]), files, path, input, start, next);
      && path in after.1
      && Canonical(after.1[path])
      && Lines(after.1[path]) == StripAll(after.0)
  {
    var lines := Lines(files[path]);
    assert StripAll(lines) == lines;
    assert AllOneLine(lines);
    RunStateKeeps(lines, files, path, input, start, next);
  }

  /** The line `add d`, for a non-empty description d, appends the next
      numbered entry in memory and to the list's file. */
  lemma StepStateOfAdd(entries: seq<string>, files: map<string, string>, path: string, d: string)
    requires d != []
    ensures var e := FormatEntry(|entries| + 1, d);
      StepState(entries, files, path, "add " + d) == (entries + [e], Written(files, path, e, Append))
  {
    assert "add " == "add" + " ";
    WordThenArgument("add", d);
  }

  /** The line `done a`, for a non-empty argument a, marks as `DoneEntries`
      says and writes the list over its file, unless it ends the program. */
  lemma StepStateOfDone(entries: seq<string>, files: map<string, string>, path: string, a: string)
    requires a != []
    ensures StepState(entries, files, path, "done " + a) ==
      match DoneEntries(entries, a)
      case Marked(es) => (es, Written(files, path, Render(es), Truncate))
      case OutOfRange => (entries, Written(files, path, Render(entries), Truncate))
      case _ => (entries, files)
  {
    assert "done " == "done" + " ";
    WordThenArgument("done", a);
  }

  /** A session that reads `add d` and then `done n`, with n the number the
      new entry was given, ends with that entry marked "[X]" in memory and
      the list written over its file with it. */
  lemma SessionAddThenDone(entries: seq<string>, files: map<string, string>, path: string, d: string)
    requires d != [] && |entries| + 1 <= IntMax
    ensures var n := |entries| + 1;
      var input := ["add " + d, "done " + NatToDecimal(n)];
      var marked := entries + [DoneEntry(n, d)];
      RunState(entries, files, path, input, 0, 2) ==
        (marked, Written(Written(files, path, FormatEntry(n, d), Append), path, Render(marked), Truncate))
  {
    var n := |entries| + 1;
    var input := ["add " + d, "done " + NatToDecimal(n)];
    var e := FormatEntry(n, d);
    var added := (entries + [e], Written(files, path, e, Append));
    StepStateOfAdd(entries, files, path, d);
    assert RunState(entries, files, path, input, 0, 1) == StepState(entries, files, path, input[0]) == added;
    var marked := entries + [DoneEntry(n, d)];
    DoneOfAddedEntry(entries, n, d);
    assert DoneEntries(added.0, NatToDecimal(n)) == Marked(marked);
    StepStateOfDone(added.0, added.1, path, NatToDecimal(n));
    assert StepState(added.0, added.1, path, input[1]) == (marked, Written(added.1, path, Render(marked), Truncate));
  }

  /** How one line of session input ends: the session goes on, `close`
      returns to the menu, `exit` leaves the program, an exception ends it
      (`Abort`), or a blank `done` argument reads an index that was never
      set (`UnsetIndex`, undefined behaviour). */
  datatype SessionOutcome = Continue | Close | Exit | Abort | UnsetIndex

  class ListSession {
    const fs: FileSystem
    const path: string
    var entries: seq<string>
    var count: nat

    /** The counter is always one past the number of entries, and every
        entry is a single line. */
    ghost predicate Valid()
      reads this
    {
      count == |entries| + 1 && AllOneLine(entries)
    }

    /** The list's file holds exactly the entries. */
    ghost predicate Synced()
      reads this, fs
    {
      SyncedAt(fs.files, path, entries)
    }

    /** A session starts with the lines read from the list's file; the
        counter starts one past them. */
    constructor (fs: FileSystem, path: string, lines: seq<string>)
      requires forall i :: 0 <= i < |lines| ==> '\n' !in lines[i]
      ensures this.fs == fs && this.path == path && entries == lines
      ensures Valid()
    {
      this.fs := fs;
      this.path := path;
      entries := lines;
      count := |lines| + 1;
    }

    /** `add <description>`: an empty description is refused; otherwise the
        next numbered entry is appended in memory and to the file. */
    method Add(description: string)
      requires Valid() && '\n' !in description
      modifies this, fs
      ensures Valid()
      ensures description == [] ==> entries == old(entries) && fs.files == old(fs.files)
      ensures description != [] ==> entries == old(entries) + [FormatEntry(|entries|, description)]
      ensures description != [] ==>
        fs.files == Written(old(fs.files), path, FormatEntry(|entries|, description), Append)
      ensures old(Synced()) ==> Synced()
    {
      if description == [] {
        return;
      }
      var number := count;
      var entry := FormatEntry(number, description);
      FormattedIsOneLine(number, description);
      entries := entries + [entry];
      count := count + 1;
      fs.WriteToFile(path, entry, Append);
      if old(Synced()) {
        var line := FormattedLine(number, description);
        AppendRegroup(old(fs.files[path]), line);
        AppendKeepsSync(old(fs.files[path]), old(entries), line);
      }
    }

    /** `done <argument>`: an empty argument is refused without a write;
        otherwise the entry is marked if the bounds check and the '[' search
        allow it, and the whole list is written over the file, marked or not.
        An exception (`Abort`) or an unset index (`UnsetIndex`) stops before
        any write. */
    method Done(argument: string) returns (outcome: SessionOutcome)
      requires Valid()
      modifies this, fs
      ensures Valid()
      ensures outcome == Continue || outcome == Abort || outcome == UnsetIndex
      ensures argument == [] ==> outcome == Continue && entries == old(entries) && fs.files == old(fs.files)
      ensures argument != [] ==>
        && (outcome == Abort <==> DoneEntries(old(entries), argument).Aborted?)
        && (outcome == UnsetIndex <==> DoneEntries(old(entries), argument).Unset?)
      ensures outcome != Continue ==> entries == old(entries) && fs.files == old(fs.files)
      ensures argument != [] && outcome == Continue ==>
        && entries == (match DoneEntries(old(entries), argument)
                       case Marked(es) => es
                       case _ => old(entries))
        && fs.files == Written(old(fs.files), path, Render(entries), Truncate)
        && Synced()
      ensures argument != [] && DoneEntries(old(entries), argument).OutOfRange? && old(Synced()) ==>
        fs.files == old(fs.files)
    {
      if argument == [] {
        return Continue;
      }
      ghost var done := DoneEntries(entries, argument);
      var parsed := ParseInt(argument);
      if parsed.None? {
        assert done == Unset;
        return UnsetIndex;
      }
      var index := parsed.value - 1;
      if 0 <= index && index <= |entries| {
        if index == |entries| {
          assert done == Aborted;
          return Abort;
        }
        match MarkDone(entries[index])
        case None =>
          assert done == Aborted;
          return Abort;
        case Some(e) =>
          MarkDoneKeepsOneLine(entries[index]);
          entries := entries[index := e];
          assert done == Marked(entries);
      } else {
        assert done == OutOfRange;
      }
      assert entries == (match done case Marked(es) => es case _ => old(entries));
      Rewrite();
      outcome := Continue;
    }

    /** The end of `done`: the whole list, each entry newline-terminated, is
        written over the file; the file then holds exactly the entries, and
        a file that already did is left as it was. */
    method Rewrite()
      requires Valid()
      modifies fs
      ensures fs.files == Written(old(fs.files), path, Render(entries), Truncate)
      ensures Synced()
      ensures old(Synced()) ==> fs.files == old(fs.files)
    {
      if Synced() {
        RewriteOfSyncedFile(fs.files[path], entries);
        assert fs.files[path := Render(entries)] == fs.files;
      }
      var out := SerializeEntries(entries);
      fs.WriteToFile(path, out, Truncate);
      RenderReloads(entries);
    }

    /** One line of input inside the session: the first word picks the
        command and the rest of the line is its argument. */
    method Step(line: string) returns (outcome: SessionOutcome)
      requires Valid() && '\n' !in line
      modifies this, fs
      ensures Valid()
      ensures var cmd := GetNext(line);
        outcome == (if cmd.command == "close" then Close
                    else if cmd.command == "exit" then Exit
                    else if cmd.command == "done" && cmd.rest != [] && DoneEntries(old(entries), cmd.rest).Aborted? then Abort
                    else if cmd.command == "done" && cmd.rest != [] && DoneEntries(old(entries), cmd.rest).Unset? then UnsetIndex
                    else Continue)
      ensures outcome == Close <==> GetNext(line).command == "close"
      ensures outcome == Exit <==> GetNext(line).command == "exit"
      ensures outcome == Abort || outcome == UnsetIndex ==> GetNext(line).command == "done"
      ensures forall p :: p in old(fs.files) && p != path ==> p in fs.files && fs.files[p] == old(fs.files)[p]
      ensures GetNext(line).command != "add" && GetNext(line).command != "done" ==>
        entries == old(entries) && fs.files == old(fs.files)
      ensures var cmd := GetNext(line);
        cmd.command == "add" ==>
          && (cmd.rest == [] ==> entries == old(entries) && fs.files == old(fs.files))
          && (cmd.rest != [] ==>
                && entries == old(entries) + [FormatEntry(|entries|, cmd.rest)]
                && fs.files == Written(old(fs.files), path, FormatEntry(|entries|, cmd.rest), Append))
      ensures var cmd := GetNext(line);
        cmd.command == "done" ==>
          && (cmd.rest == [] || outcome != Continue ==> entries == old(entries) && fs.files == old(fs.files))
          && (cmd.rest != [] && outcome == Continue ==>
                && entries == (match DoneEntries(old(entries), cmd.rest)
                               case Marked(es) => es
                               case _ => old(entries))
                && fs.files == Written(old(fs.files), path, Render(entries), Truncate)
                && Synced())
          && (cmd.rest != [] && DoneEntries(old(entries), cmd.rest).OutOfRange? && old(Synced()) ==>
                fs.files == old(fs.files))
      ensures old(Synced()) ==> Synced()
      ensures (entries, fs.files) == StepState(old(entries), old(fs.files), path, line)
    {
      var cmd := GetNext(line);
      GetNextKeepsLine(line);
      StepStateByCommand(old(entries), old(fs.files), path, line);
      if cmd.command == "close" {
        outcome := Close;
      } else if cmd.command == "add" {
        Add(cmd.rest);
        outcome := Continue;
      } else if cmd.command == "done" {
        outcome := Done(cmd.rest);
      } else if cmd.command == "exit" {
        outcome := Exit;
      } else {
        outcome := Continue;
      }
    }

    /** One step as the session loop sees it: how the line's command decides
        the outcome, and the entries and files `StepState` gives for it. */
    method Advance(line: string) returns (outcome: SessionOutcome)
      requires Valid() && '\n' !in line
      modifies this, fs
      ensures Valid()
      ensures outcome == Close <==> FirstWord(line) == "close"
      ensures outcome == Exit <==> FirstWord(line) == "exit"
      ensures outcome == Abort || outcome == UnsetIndex ==> FirstWord(line) == "done"
      ensures forall p :: p in old(fs.files) && p != path ==> p in fs.files && fs.files[p] == old(fs.files)[p]
      ensures old(Synced()) ==> Synced()
      ensures (entries, fs.files) == StepState(old(entries), old(fs.files), path, line)
    {
      outcome := Step(line);
      FirstWordIsCommand(line);
    }

    /** The session loop: list commands are read from `input`, starting at
        `start`, until one of them ends the session or the input runs out;
        `next` is the position after the last line read. Only the list's own
        file is written; every line before the last one read continued the
        session, and the last one is what ended it. */
    method Serve(input: seq<string>, start: nat) returns (outcome: SessionOutcome, next: nat)
      requires Valid() && start <= |input|
      requires forall k :: 0 <= k < |input| ==> '\n' !in input[k]
      modifies this, fs
      ensures Valid()
      ensures start <= next <= |input|
      ensures outcome == Continue ==> next == |input|
      ensures outcome != Continue ==> start < next
      ensures forall p :: p in old(fs.files) && p != path ==> p in fs.files && fs.files[p] == old(fs.files)[p]
      ensures forall k :: start <= k < next - 1 ==>
        FirstWord(input[k]) != "close" && FirstWord(input[k]) != "exit"
      ensures outcome == Exit ==> start < next && FirstWord(input[next - 1]) == "exit"
      ensures outcome == Close && next > start ==> FirstWord(input[next - 1]) == "close"
      ensures outcome == Abort || outcome == UnsetIndex ==>
        start < next && FirstWord(input[next - 1]) == "done"
      ensures old(Synced()) ==> Synced()
      ensures (entries, fs.files) == RunState(old(entries), old(fs.files), path, input, start, next)
    {
      outcome, next := Continue, start;
      while next < |input| && outcome == Continue
        invariant start <= next <= |input|
        invariant Valid()
        invariant SessionRun(input, start, next, outcome)
        invariant (entries, fs.files) == RunState(old(entries), old(fs.files), path, input, start, next)
        decreases |input| - next
      {
        outcome := Advance(input[next]);
        SessionRunStep(input, start, next, outcome);
        next := next + 1;
      }
      SessionRunLines(input, start, next, outcome);
      RunStateKeeps(old(entries), old(fs.files), path, input, start, next);
    }
  }
}
