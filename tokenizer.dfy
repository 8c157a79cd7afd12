/** The command tokenizer `getNext`: it takes the input line by reference,
    returns the text before the first space and leaves the text after that
    space in the line. Dafny strings are values, so the updated line is the
    `rest` half of the result. */
module Tokenizer {
  import opened Text

  datatype Split = Split(command: string, rest: string)

  function GetNext(input: string): (r: Split)
    ensures ' ' !in r.command
    ensures ' ' !in input ==> r.command == input && r.rest == []
    ensures ' ' in input ==> r.command + " " + r.rest == input
    ensures |r.rest| <= |input| && r.rest == input[|input| - |r.rest|..]
  {
    match FirstIndex(input, ' ')
    case None => Split(input, [])
    case Some(k) =>
      assert input == input[..k] + " " + input[k + 1..];
      Split(input[..k], input[k + 1..])
  }

  /** The first word of a line, read character by character: everything
      before the first space, or the whole line when it has none. */
  function FirstWord(line: string): string
  {
    if line == [] || line[0] == ' ' then [] else [line[0]] + FirstWord(line[1..])
  }

  /** The command `getNext` splits off is the line's first word. */
  lemma {:induction false} FirstWordIsCommand(line: string)
    ensures FirstWord(line) == GetNext(line).command
    decreases |line|
  {
    if line != [] && line[0] != ' ' {
      FirstWordIsCommand(line[1..]);
      CommandStep(line);
    }
  }

  /** The argument of a line, read character by character: everything after
      the first space, or nothing when the line has none. */
  function Argument(line: string): string
  {
    if line == [] then [] else if line[0] == ' ' then line[1..] else Argument(line[1..])
  }

  /** The text `getNext` leaves in the line is the line's argument. */
  lemma {:induction false} ArgumentIsRest(line: string)
    ensures Argument(line) == GetNext(line).rest
    decreases |line|
  {
    if line != [] && line[0] != ' ' {
      ArgumentIsRest(line[1..]);
      CommandStep(line);
    }
  }

  /** A line made of a word without spaces, a space and an argument splits
      back into that word and that argument. */
  lemma {:induction false} WordThenArgument(word: string, argument: string)
    requires ' ' !in word
    ensures FirstWord(word + " " + argument) == word
    ensures Argument(word + " " + argument) == argument
    decreases |word|
  {
    var line := word + " " + argument;
    if word == [] {
      assert line == [' '] + argument;
    } else {
      assert line[1..] == word[1..] + " " + argument;
      WordThenArgument(word[1..], argument);
      assert line[0] == word[0];
    }
  }

  /** A line that starts with a character other than a space: its command is
      that character followed by the command of the rest of the line, and
      what is left after it is the same. */
  lemma CommandStep(line: string)
    requires line != [] && line[0] != ' '
    ensures GetNext(line).command == [line[0]] + GetNext(line[1..]).command
    ensures GetNext(line).rest == GetNext(line[1..]).rest
  {
    var tail := line[1..];
    match FirstIndex(tail, ' ')
    case None =>
      assert FirstIndex(line, ' ') == None;
      assert line == [line[0]] + tail;
    case Some(k) =>
      assert FirstIndex(line, ' ') == Some(k + 1);
      assert line[..k + 1] == [line[0]] + tail[..k];
  }

  /** Neither part of a line read by std::getline holds a '\n'. */
  lemma GetNextKeepsLine(input: string)
    requires '\n' !in input
    ensures '\n' !in GetNext(input).command && '\n' !in GetNext(input).rest
  {
  }
}
