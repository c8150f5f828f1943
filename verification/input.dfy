/** Recognising a move typed on the console. A line is accepted only when it
    is exactly a digit, one space, a digit and the newline `read_line` keeps;
    the first digit is the column `x` and the second the row `y`. */
module MoveInput {
  import opened Field

  /** A recognised line carries its two coordinates; anything else is a format
      error. */
  datatype Parsed = Move(x: int32, y: int32) | BadFormat

  predicate IsDigit(c: char) {
    '0' <= c <= '9'
  }

  /** The whole line is `d d\n` with ASCII digits `d`. */
  predicate Matches(line: string) {
    |line| == 4 && IsDigit(line[0]) && line[1] == ' ' && IsDigit(line[2]) && line[3] == '\n'
  }

  function DigitValue(c: char): (d: int)
    requires IsDigit(c)
    ensures 0 <= d <= 9
  {
    c as int - '0' as int
  }

  function DigitChar(d: int): (c: char)
    requires 0 <= d <= 9
    ensures IsDigit(c) && DigitValue(c) == d
  {
    ('0' as int + d) as char
  }

  /** Characters 0 and 2 of a matching line, read as decimal digits. */
  function ParseMove(line: string): (p: Parsed)
    ensures p.Move? <==> Matches(line)
    ensures p.Move? ==> 0 <= p.x <= 9 && 0 <= p.y <= 9
    ensures p.Move? ==> p.x == DigitValue(line[0]) && p.y == DigitValue(line[2])
  {
    if Matches(line) then Move(DigitValue(line[0]), DigitValue(line[2])) else BadFormat
  }

  /** The line a player types to play column `x`, row `y`. */
  function FormatMove(x: int, y: int): (line: string)
    requires 0 <= x <= 9 && 0 <= y <= 9
    ensures Matches(line)
  {
    [DigitChar(x), ' ', DigitChar(y), '\n']
  }

  /** Every pair of digits typed as a line reads back as itself. */
  lemma ParseFormat(x: int, y: int)
    requires 0 <= x <= 9 && 0 <= y <= 9
    ensures ParseMove(FormatMove(x, y)) == Move(x, y)
  {
  }

  /** A recognised line is exactly the line its coordinates format to: the
      recogniser accepts nothing beyond `d d\n`. */
  lemma FormatParse(line: string)
    requires ParseMove(line).Move?
    ensures FormatMove(ParseMove(line).x, ParseMove(line).y) == line
  {
    var p := ParseMove(line);
    assert DigitChar(p.x) == line[0] && DigitChar(p.y) == line[2];
  }
}
