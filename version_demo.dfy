/** The version block of the library's own example, read rule by rule. */
module VersionDemo {
  import opened Wrappers
  import opened Combinators
  import opened Lexer
  import opened Decimal
  import opened Parse
  import opened Slices
  import opened ParseProps

  /** The version block of the example protocol in the parser's tests. */
  const Block: string := "version\n  major 1\n  minor 3\n"

  /** The literal `version` line. */
  lemma BlockHead()
    ensures Tag("version", Cursor(Block, 0)) == Some(Parsed("version", Cursor(Block, 7)))
    ensures Eol(Cursor(Block, 7)) == Some(Parsed('\n', Cursor(Block, 8)))
  {
    assert Block[0..7] == "version";
    TagAt("version", Block, 0);
  }

  /** The `major` line: its indent, key, digit run and line feed. */
  lemma MajorIndent()
    ensures Indent(Cursor(Block, 8)) == Some(Parsed("  ", Cursor(Block, 10)))
  {
    assert Block[8..10] == "  ";
    IndentAt(Block, 8, "  ");
  }

  lemma MajorKey()
    ensures Tag("major", Cursor(Block, 10)) == Some(Parsed("major", Cursor(Block, 15)))
    ensures Char(' ', Cursor(Block, 15)) == Some(Parsed(' ', Cursor(Block, 16)))
  {
    assert Block[10..15] == "major";
    TagAt("major", Block, 10);
  }

  lemma MajorDigits()
    ensures TakeWhile(IsDigit, Cursor(Block, 16)) == Some(Parsed("1", Cursor(Block, 17)))
    ensures Eol(Cursor(Block, 17)) == Some(Parsed('\n', Cursor(Block, 18)))
  {
    assert Block[16..17] == "1";
    TakeWhileAt(IsDigit, Block, 16, "1");
  }

  /** The `major` line reads as 1. */
  lemma MajorLine()
    ensures VersionLine("major", Cursor(Block, 8)) == Some(Parsed(1, Cursor(Block, 18)))
  {
    MajorIndent();
    MajorKey();
    MajorDigits();
    assert DigitsValue("1") == 1 by { assert "1"[..0] == []; }
    VersionLineSteps("major", Cursor(Block, 8), Parsed("  ", Cursor(Block, 10)), Parsed("major", Cursor(Block, 15)),
                     Parsed(' ', Cursor(Block, 16)), Parsed("1", Cursor(Block, 17)), Parsed('\n', Cursor(Block, 18)));
  }
  /** The `minor` line: its indent, key, digit run and line feed. */
  lemma MinorIndent()
    ensures Indent(Cursor(Block, 18)) == Some(Parsed("  ", Cursor(Block, 20)))
  {
    assert Block[18..20] == "  ";
    IndentAt(Block, 18, "  ");
  }

  lemma MinorKey()
    ensures Tag("minor", Cursor(Block, 20)) == Some(Parsed("minor", Cursor(Block, 25)))
    ensures Char(' ', Cursor(Block, 25)) == Some(Parsed(' ', Cursor(Block, 26)))
  {
    assert Block[20..25] == "minor";
    TagAt("minor", Block, 20);
  }

  lemma MinorDigits()
    ensures TakeWhile(IsDigit, Cursor(Block, 26)) == Some(Parsed("3", Cursor(Block, 27)))
    ensures Eol(Cursor(Block, 27)) == Some(Parsed('\n', Cursor(Block, 28)))
  {
    assert Block[26..27] == "3";
    TakeWhileAt(IsDigit, Block, 26, "3");
  }

  /** The `minor` line reads as 3. */
  lemma MinorLine()
    ensures VersionLine("minor", Cursor(Block, 18)) == Some(Parsed(3, Cursor(Block, 28)))
  {
    MinorIndent();
    MinorKey();
    MinorDigits();
    assert DigitsValue("3") == 3 by { assert "3"[..0] == []; }
    VersionLineSteps("minor", Cursor(Block, 18), Parsed("  ", Cursor(Block, 20)), Parsed("minor", Cursor(Block, 25)),
                     Parsed(' ', Cursor(Block, 26)), Parsed("3", Cursor(Block, 27)), Parsed('\n', Cursor(Block, 28)));
  }

  /** The example block reads as version 1.3 and leaves nothing behind. */
  lemma VersionExample()
    ensures ParseVersion(Cursor(Block, 0)) == Some(Parsed((1, 3), Cursor(Block, 28)))
    ensures Remaining(Cursor(Block, 28)) == []
  {
    BlockHead();
    MajorLine();
    MinorLine();
    VersionSteps(Cursor(Block, 0), Parsed("version", Cursor(Block, 7)), Parsed('\n', Cursor(Block, 8)),
                 Parsed(1, Cursor(Block, 18)), Parsed(3, Cursor(Block, 28)));
  }

  /** A version line with no digits after its key. */
  const NoDigits: string := "  major \n"

  /** The pieces of the line without digits, up to its empty digit run. */
  lemma NoDigitsPieces()
    ensures Indent(Cursor(NoDigits, 0)) == Some(Parsed("  ", Cursor(NoDigits, 2)))
    ensures Tag("major", Cursor(NoDigits, 2)) == Some(Parsed("major", Cursor(NoDigits, 7)))
    ensures TakeWhile(IsDigit, Cursor(NoDigits, 8)) == Some(Parsed([], Cursor(NoDigits, 8)))
  {
    assert NoDigits[0..2] == "  ";
    IndentAt(NoDigits, 0, "  ");
    assert NoDigits[2..7] == "major";
    TagAt("major", NoDigits, 2);
    TakeWhileAt(IsDigit, NoDigits, 8, []);
  }

  /** An empty digit run makes the line fail, even though a line feed
      follows it. */
  lemma NoDigitsFails()
    ensures VersionLine("major", Cursor(NoDigits, 0)).None?
  {
    NoDigitsPieces();
    VersionLineSteps("major", Cursor(NoDigits, 0), Parsed("  ", Cursor(NoDigits, 2)), Parsed("major", Cursor(NoDigits, 7)),
                     Parsed(' ', Cursor(NoDigits, 8)), Parsed([], Cursor(NoDigits, 8)), Parsed('\n', Cursor(NoDigits, 9)));
  }
}
