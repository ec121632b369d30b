/** The messages of the stream DSL (XDDSLMessages.java): each has a kind and a
    code, and formats as "XD<code><kind letter>:" followed by the position
    when it is known and the text with the inserts filled in. */
module Messages {
  import opened Wrappers
  import opened Text
  import opened MessageFormat

  datatype Kind = Info | Warning | Error

  datatype Message =
    | UnexpectedDataAfterModule
    | NoWhitespaceBeforeArgName
    | NoWhitespaceBeforeArgEquals
    | NoWhitespaceBeforeArgValue
    | MoreInput
    | ExpectedArgumentValue
    | NonTerminatingDoubleQuotedString
    | NonTerminatingQuotedString
    | MissingCharacter
    | NotAnInteger
    | NotALong
    | NotExpectedToken
    | Ood
    | RealCannotBeLong
    | UnexpectedEscapeChar

  function MessageKind(m: Message): Kind {
    Error
  }

  function Code(m: Message): int {
    match m
    case UnexpectedDataAfterModule => 100
    case NoWhitespaceBeforeArgName => 101
    case NoWhitespaceBeforeArgEquals => 102
    case NoWhitespaceBeforeArgValue => 103
    case MoreInput => 104
    case ExpectedArgumentValue => 105
    case NonTerminatingDoubleQuotedString => 106
    case NonTerminatingQuotedString => 107
    case MissingCharacter => 1069
    case NotAnInteger => 1035
    case NotALong => 1036
    case NotExpectedToken => 1043
    case Ood => 1044
    case RealCannotBeLong => 1048
    case UnexpectedEscapeChar => 1065
  }

  /** The message with a given code, if any. */
  function MessageOfCode(code: int): Option<Message> {
    match code
    case 100 => Some(UnexpectedDataAfterModule)
    case 101 => Some(NoWhitespaceBeforeArgName)
    case 102 => Some(NoWhitespaceBeforeArgEquals)
    case 103 => Some(NoWhitespaceBeforeArgValue)
    case 104 => Some(MoreInput)
    case 105 => Some(ExpectedArgumentValue)
    case 106 => Some(NonTerminatingDoubleQuotedString)
    case 107 => Some(NonTerminatingQuotedString)
    case 1069 => Some(MissingCharacter)
    case 1035 => Some(NotAnInteger)
    case 1036 => Some(NotALong)
    case 1043 => Some(NotExpectedToken)
    case 1044 => Some(Ood)
    case 1048 => Some(RealCannotBeLong)
    case 1065 => Some(UnexpectedEscapeChar)
    case _ => None
  }

  /** The MessageFormat patterns as they appear in the enum. */
  function Template(m: Message): (r: string)
    ensures r != []
  {
    match m
    case UnexpectedDataAfterModule => "Unexpected data after module definition: ''{0}''"
    case NoWhitespaceBeforeArgName => "No whitespace allowed between " + "'--'" + " and option name"
    case NoWhitespaceBeforeArgEquals => "No whitespace allowed after argument name and before " + "'='"
    case NoWhitespaceBeforeArgValue => "No whitespace allowed after " + "'='" + " and before option value"
    case MoreInput => "After parsing a valid stream, there is still more data: ''{0}''"
    case ExpectedArgumentValue => "Expected an argument value but was ''{0}''"
    case NonTerminatingDoubleQuotedString => "Cannot find terminating \" for string"
    case NonTerminatingQuotedString => "Cannot find terminating ' for string"
    case MissingCharacter => "missing expected character ''{0}''"
    case NotAnInteger => "The value ''{0}'' cannot be parsed as an int"
    case NotALong => "The value ''{0}'' cannot be parsed as a long"
    case NotExpectedToken => "Unexpected token.  Expected ''{0}'' but was ''{1}''"
    case Ood => "Unexpectedly ran out of input"
    case RealCannotBeLong => "Real number cannot be suffixed with a long (L or l) suffix"
    case UnexpectedEscapeChar => "unexpected escape character."
  }

  /** The patterns with the apostrophes that should appear in the text
      doubled, as the patterns with inserts already do: those of the three
      whitespace messages and of NON_TERMINATING_QUOTED_STRING. */
  function CorrectedTemplate(m: Message): string {
    match m
    case NoWhitespaceBeforeArgName => "No whitespace allowed between " + "''--''" + " and option name"
    case NoWhitespaceBeforeArgEquals => "No whitespace allowed after argument name and before " + "''=''"
    case NoWhitespaceBeforeArgValue => "No whitespace allowed after " + "''=''" + " and before option value"
    case NonTerminatingQuotedString => "Cannot find terminating '' for string"
    case _ => Template(m)
  }

  /** The messages whose enum pattern holds a lone apostrophe. */
  predicate HasLoneApostrophes(m: Message) {
    || m == NoWhitespaceBeforeArgName
    || m == NoWhitespaceBeforeArgEquals
    || m == NoWhitespaceBeforeArgValue
    || m == NonTerminatingQuotedString
  }

  /** The letter after the code: only ERROR appends one. */
  function KindLetter(k: Kind): string {
    match k
    case Error => "E"
    case Info => ""
    case Warning => ""
  }

  function Prefix(m: Message): string {
    "XD" + IntToString(Code(m)) + KindLetter(MessageKind(m)) + ":"
  }

  /** The position segment: present for every position other than -1. */
  function PositionText(pos: int): string {
    if pos != -1 then "(pos " + IntToString(pos) + "): " else ""
  }

  /** formatMessage(pos, inserts) with the enum's own pattern; None where
      MessageFormat would reject the pattern. The text always begins with the
      prefix and the position segment. */
  function FormatMessage(m: Message, pos: int, inserts: seq<Option<string>>): (r: Option<string>)
    ensures r.Some? <==> Format(Template(m), inserts).Some?
    ensures r.Some? ==> Prefix(m) + PositionText(pos) <= r.value
  {
    Then(Prefix(m) + PositionText(pos), Format(Template(m), inserts))
  }

  /** formatMessage as it evidently was meant: with the corrected pattern. */
  function CorrectedFormatMessage(m: Message, pos: int, inserts: seq<Option<string>>): (r: Option<string>)
    ensures r.Some? <==> Format(CorrectedTemplate(m), inserts).Some?
    ensures r.Some? ==> Prefix(m) + PositionText(pos) <= r.value
  {
    Then(Prefix(m) + PositionText(pos), Format(CorrectedTemplate(m), inserts))
  }

  // ---------------------------------------------------------------------------
  // The table

  /** Every DSL message is an error, so every prefix ends in "E:". */
  lemma AllMessagesAreErrors(m: Message)
    ensures MessageKind(m) == Error
    ensures Prefix(m) == "XD" + IntToString(Code(m)) + "E:"
  {
  }

  /** The code identifies the message: MessageOfCode inverts Code. */
  lemma CodesIdentifyMessages(m: Message, code: int)
    ensures MessageOfCode(Code(m)) == Some(m)
    ensures MessageOfCode(code) == Some(m) ==> Code(m) == code
  {
  }

  /** No two messages share a code. */
  lemma CodesAreDistinct(a: Message, b: Message)
    ensures Code(a) == Code(b) ==> a == b
  {
    CodesIdentifyMessages(a, Code(b));
  }

  /** The corrected patterns differ from the enum's exactly in the four
      messages with lone apostrophes. */
  lemma CorrectionOnlyTouchesLoneApostrophes(m: Message)
    ensures CorrectedTemplate(m) != Template(m) <==> HasLoneApostrophes(m)
  {
    if HasLoneApostrophes(m) {
      CorrectionLengthens(m);
    }
  }

  /** Local helper: each correction doubles the apostrophes, so the pattern
      grows. */
  lemma CorrectionLengthens(m: Message)
    requires HasLoneApostrophes(m)
    ensures |CorrectedTemplate(m)| > |Template(m)|
  {
    match m
    case NoWhitespaceBeforeArgName =>
    case NoWhitespaceBeforeArgEquals =>
    case NoWhitespaceBeforeArgValue =>
    case NonTerminatingQuotedString =>
      assert |Template(m)| == 36;
      assert |CorrectedTemplate(m)| == 37;
  }

  // ---------------------------------------------------------------------------
  // The position segment

  /** Only -1 hides the position; every other position, negative or not, is
      shown and can be told apart from any other. */
  lemma PositionTextIdentifiesPosition(p: int, q: int)
    ensures PositionText(p) == "" <==> p == -1
    ensures PositionText(p) == PositionText(q) ==> p == q
  {
    if p != -1 && q != -1 && PositionText(p) == PositionText(q) {
      var sp := IntToString(p);
      var sq := IntToString(q);
      assert |sp| == |sq|;
      assert sp == PositionText(p)[5..5 + |sp|];
      assert sq == PositionText(q)[5..5 + |sq|];
      IntToStringRoundTrip(p);
      IntToStringRoundTrip(q);
    }
  }

  /** Two formattings of the same message with the same inserts are equal
      exactly when the positions are. */
  lemma FormattedMessageIdentifiesPosition(m: Message, p: int, q: int, inserts: seq<Option<string>>)
    requires Format(Template(m), inserts).Some?
    ensures FormatMessage(m, p, inserts) == FormatMessage(m, q, inserts) <==> p == q
  {
    PrefixedTextIdentifiesPosition(m, p, q, Format(Template(m), inserts).value);
  }

  /** The same for the corrected patterns. */
  lemma CorrectedFormattedMessageIdentifiesPosition(m: Message, p: int, q: int, inserts: seq<Option<string>>)
    requires Format(CorrectedTemplate(m), inserts).Some?
    ensures CorrectedFormatMessage(m, p, inserts) == CorrectedFormatMessage(m, q, inserts) <==> p == q
  {
    PrefixedTextIdentifiesPosition(m, p, q, Format(CorrectedTemplate(m), inserts).value);
  }

  /** Local helper: a prefix and position segment before a fixed text tell
      the position apart. */
  lemma PrefixedTextIdentifiesPosition(m: Message, p: int, q: int, body: string)
    ensures Prefix(m) + PositionText(p) + body == Prefix(m) + PositionText(q) + body <==> p == q
  {
    var a := Prefix(m) + PositionText(p);
    var b := Prefix(m) + PositionText(q);
    if a + body == b + body {
      assert |a| == |b|;
      assert a == (a + body)[..|a|];
      assert b == (b + body)[..|b|];
      assert PositionText(p) == a[|Prefix(m)|..];
      assert PositionText(q) == b[|Prefix(m)|..];
      PositionTextIdentifiesPosition(p, q);
    }
  }

  /** The message the program formats is the intended one exactly for the
      patterns without lone apostrophes. */
  lemma FormatMessageIsCorrectedExactlyOffLoneApostrophes(m: Message, pos: int, inserts: seq<Option<string>>)
    ensures FormatMessage(m, pos, inserts) == CorrectedFormatMessage(m, pos, inserts) <==> !HasLoneApostrophes(m)
  {
    CorrectionOnlyTouchesLoneApostrophes(m);
    if m == NoWhitespaceBeforeArgName {
      ArgNameGapMessageDiffers(pos, inserts);
    } else if m == NoWhitespaceBeforeArgEquals {
      ArgEqualsGapMessageDiffers(pos, inserts);
    } else if m == NoWhitespaceBeforeArgValue {
      ArgValueGapMessageDiffers(pos, inserts);
    } else if m == NonTerminatingQuotedString {
      QuotedStringMessageDiffers(pos, inserts);
    }
  }

  /** Local helper: message 101 as written differs from the corrected one. */
  lemma ArgNameGapMessageDiffers(pos: int, inserts: seq<Option<string>>)
    ensures FormatMessage(NoWhitespaceBeforeArgName, pos, inserts) != CorrectedFormatMessage(NoWhitespaceBeforeArgName, pos, inserts)
  {
    ArgNameGapTextAsWritten(inserts);
    ArgNameGapText(inserts);
    LongerTextDiffers(Prefix(NoWhitespaceBeforeArgName) + PositionText(pos),
      "No whitespace allowed between " + "--" + " and option name",
      "No whitespace allowed between " + "'" + "--" + "'" + " and option name");
  }

  /** Local helper: message 102 as written differs from the corrected one. */
  lemma ArgEqualsGapMessageDiffers(pos: int, inserts: seq<Option<string>>)
    ensures FormatMessage(NoWhitespaceBeforeArgEquals, pos, inserts) != CorrectedFormatMessage(NoWhitespaceBeforeArgEquals, pos, inserts)
  {
    ArgEqualsGapTextAsWritten(inserts);
    ArgEqualsGapText(inserts);
    LongerTextDiffers(Prefix(NoWhitespaceBeforeArgEquals) + PositionText(pos),
      "No whitespace allowed after argument name and before " + "=" + "",
      "No whitespace allowed after argument name and before " + "'" + "=" + "'" + "");
  }

  /** Local helper: message 103 as written differs from the corrected one. */
  lemma ArgValueGapMessageDiffers(pos: int, inserts: seq<Option<string>>)
    ensures FormatMessage(NoWhitespaceBeforeArgValue, pos, inserts) != CorrectedFormatMessage(NoWhitespaceBeforeArgValue, pos, inserts)
  {
    ArgValueGapTextAsWritten(inserts);
    ArgValueGapText(inserts);
    LongerTextDiffers(Prefix(NoWhitespaceBeforeArgValue) + PositionText(pos),
      "No whitespace allowed after " + "=" + " and before option value",
      "No whitespace allowed after " + "'" + "=" + "'" + " and before option value");
  }

  /** Local helper: message 107 as written differs from the corrected one. */
  lemma QuotedStringMessageDiffers(pos: int, inserts: seq<Option<string>>)
    ensures FormatMessage(NonTerminatingQuotedString, pos, inserts) != CorrectedFormatMessage(NonTerminatingQuotedString, pos, inserts)
  {
    QuotedStringTextAsWritten(inserts);
    QuotedStringText(inserts);
    LongerTextDiffers(Prefix(NonTerminatingQuotedString) + PositionText(pos),
      "Cannot find terminating " + " for string",
      "Cannot find terminating " + "'" + " for string");
  }

  /** Local helper: texts of different lengths stay different after a prefix. */
  lemma LongerTextDiffers(a: string, x: string, y: string)
    requires |x| < |y|
    ensures Then(a, Some(x)) != Then(a, Some(y))
  {
    assert |a + x| < |a + y|;
  }

  // ---------------------------------------------------------------------------
  // The texts the parser produces
  //
  // The *Pieces, *Layout and *Join lemmas below are local helpers: each states
  // one fact about a literal, so that a text lemma needs only associativity.

  /** UNEXPECTED_DATA_AFTER_MODULE shows the insert between apostrophes. */
  lemma UnexpectedDataText(x: string)
    ensures Format(Template(UnexpectedDataAfterModule), [Some(x)])
      == Some("Unexpected data after module definition: '" + x + "'")
  {
    var pre := "Unexpected data after module definition: ";
    UnexpectedDataPieces();
    UnexpectedDataLayout();
    QuotedArgument(pre, "", [Some(x)]);
    UnexpectedDataJoin();
    assert pre + "'" + x + "'" + "" == "Unexpected data after module definition: '" + x + "'";
  }

  lemma UnexpectedDataPieces()
    ensures Plain("Unexpected data after module definition: ") && Plain("")
  {
  }

  lemma UnexpectedDataLayout()
    ensures Template(UnexpectedDataAfterModule)
      == "Unexpected data after module definition: " + ("''" + ("{0}" + ("''" + "")))
  {
  }

  lemma UnexpectedDataJoin()
    ensures "Unexpected data after module definition: " + "'" == "Unexpected data after module definition: '"
  {
  }

  /** EXPECTED_ARGUMENT_VALUE shows the insert between apostrophes, and a
      null insert as 'null'. */
  lemma ExpectedArgumentValueText(a: Option<string>)
    ensures Format(Template(ExpectedArgumentValue), [a])
      == Some("Expected an argument value but was '" + (if a.Some? then a.value else "null") + "'")
  {
    var pre := "Expected an argument value but was ";
    ExpectedArgumentValuePieces();
    ExpectedArgumentValueLayout();
    QuotedArgument(pre, "", [a]);
    ExpectedArgumentValueJoin();
    var x := if a.Some? then a.value else "null";
    assert Argument(0, [a]) == x;
    assert pre + "'" + x + "'" + "" == "Expected an argument value but was '" + x + "'";
  }

  lemma ExpectedArgumentValuePieces()
    ensures Plain("Expected an argument value but was ") && Plain("")
  {
  }

  lemma ExpectedArgumentValueLayout()
    ensures Template(ExpectedArgumentValue)
      == "Expected an argument value but was " + ("''" + ("{0}" + ("''" + "")))
  {
  }

  lemma ExpectedArgumentValueJoin()
    ensures "Expected an argument value but was " + "'" == "Expected an argument value but was '"
  {
  }

  /** NOT_EXPECTED_TOKEN shows the expected and the actual token, each
      between apostrophes. */
  lemma NotExpectedTokenText(x: string, y: string)
    ensures Format(Template(NotExpectedToken), [Some(x), Some(y)])
      == Some("Unexpected token.  Expected '" + x + "' but was '" + y + "'")
  {
    var pre := "Unexpected token.  Expected ";
    var mid := " but was ";
    NotExpectedTokenPieces();
    NotExpectedTokenLayout();
    QuotedArguments(pre, mid, "", [Some(x), Some(y)]);
    NotExpectedTokenJoin();
    assert pre + "'" + x + "'" + mid + "'" + y + "'" + ""
      == "Unexpected token.  Expected '" + x + "' but was '" + y + "'";
  }

  lemma NotExpectedTokenPieces()
    ensures Plain("Unexpected token.  Expected ") && Plain(" but was ") && Plain("")
  {
  }

  lemma NotExpectedTokenLayout()
    ensures Template(NotExpectedToken)
      == "Unexpected token.  Expected " + ("''" + ("{0}" + ("''" + (" but was " + ("''" + ("{1}" + ("''" + "")))))))
  {
  }

  lemma NotExpectedTokenJoin()
    ensures "Unexpected token.  Expected " + "'" == "Unexpected token.  Expected '"
    ensures "'" + " but was " + "'" == "' but was '"
  {
  }

  /** OOD has no inserts and no apostrophes: its text is the pattern. */
  lemma OodText(inserts: seq<Option<string>>)
    ensures Format(Template(Ood), inserts) == Some("Unexpectedly ran out of input")
  {
    assert Plain("Unexpectedly ran out of input");
    PlainPatternIsItself("Unexpectedly ran out of input", inserts);
  }

  // ---------------------------------------------------------------------------
  // A lone apostrophe: the enum's pattern, and the corrected one

  /** As written, the apostrophe the message is about opens a quoted section
      that is never closed: it vanishes and the text names no character. */
  lemma QuotedStringTextAsWritten(inserts: seq<Option<string>>)
    ensures Format(Template(NonTerminatingQuotedString), inserts)
      == Some("Cannot find terminating " + " for string")
  {
    QuotedStringPieces();
    QuotedStringLayoutAsWritten();
    UnclosedQuote("Cannot find terminating ", " for string", inserts);
  }

  lemma QuotedStringText(inserts: seq<Option<string>>)
    ensures Format(CorrectedTemplate(NonTerminatingQuotedString), inserts)
      == Some("Cannot find terminating " + "'" + " for string")
  {
    QuotedStringPieces();
    QuotedStringLayout();
    DoubledQuote1("Cannot find terminating ", " for string", inserts);
  }

  lemma QuotedStringPieces()
    ensures Plain("Cannot find terminating ") && Plain(" for string")
  {
  }

  lemma QuotedStringLayoutAsWritten()
    ensures Template(NonTerminatingQuotedString) == "Cannot find terminating " + ("'" + " for string")
  {
  }

  lemma QuotedStringLayout()
    ensures CorrectedTemplate(NonTerminatingQuotedString) == "Cannot find terminating " + ("''" + " for string")
  {
  }

  // ---------------------------------------------------------------------------
  // The whitespace messages: quoted text as written, and corrected

  /** As written, the apostrophes around "--" quote it: they vanish. */
  lemma ArgNameGapTextAsWritten(inserts: seq<Option<string>>)
    ensures Format(Template(NoWhitespaceBeforeArgName), inserts)
      == Some("No whitespace allowed between " + "--" + " and option name")
  {
    ArgNameGapPieces();
    ArgNameGapLayoutAsWritten();
    QuotedText("No whitespace allowed between ", "--", " and option name", inserts);
  }

  lemma ArgNameGapText(inserts: seq<Option<string>>)
    ensures Format(CorrectedTemplate(NoWhitespaceBeforeArgName), inserts)
      == Some("No whitespace allowed between " + "'" + "--" + "'" + " and option name")
  {
    ArgNameGapPieces();
    ArgNameGapLayout();
    DoubledQuotes("No whitespace allowed between ", "--", " and option name", inserts);
  }

  lemma ArgNameGapPieces()
    ensures Plain("No whitespace allowed between ") && Plain("--") && Plain(" and option name")
  {
  }

  lemma ArgNameGapLayoutAsWritten()
    ensures Template(NoWhitespaceBeforeArgName)
      == "No whitespace allowed between " + ("'" + ("--" + ("'" + " and option name")))
  {
  }

  lemma ArgNameGapLayout()
    ensures CorrectedTemplate(NoWhitespaceBeforeArgName)
      == "No whitespace allowed between " + ("''" + ("--" + ("''" + " and option name")))
  {
  }

  /** As written, the apostrophes around "=" after the name vanish. */
  lemma ArgEqualsGapTextAsWritten(inserts: seq<Option<string>>)
    ensures Format(Template(NoWhitespaceBeforeArgEquals), inserts)
      == Some("No whitespace allowed after argument name and before " + "=" + "")
  {
    ArgEqualsGapPieces();
    ArgEqualsGapLayoutAsWritten();
    QuotedText("No whitespace allowed after argument name and before ", "=", "", inserts);
  }

  lemma ArgEqualsGapText(inserts: seq<Option<string>>)
    ensures Format(CorrectedTemplate(NoWhitespaceBeforeArgEquals), inserts)
      == Some("No whitespace allowed after argument name and before " + "'" + "=" + "'" + "")
  {
    ArgEqualsGapPieces();
    ArgEqualsGapLayout();
    DoubledQuotes("No whitespace allowed after argument name and before ", "=", "", inserts);
  }

  lemma ArgEqualsGapPieces()
    ensures Plain("No whitespace allowed after argument name and before ") && Plain("=") && Plain("")
  {
    PlainJoin("No whitespace allowed after ", "argument name and before ");
    assert "No whitespace allowed after " + "argument name and before "
      == "No whitespace allowed after argument name and before ";
  }

  lemma ArgEqualsGapLayoutAsWritten()
    ensures Template(NoWhitespaceBeforeArgEquals)
      == "No whitespace allowed after argument name and before " + ("'" + ("=" + ("'" + "")))
  {
  }

  lemma ArgEqualsGapLayout()
    ensures CorrectedTemplate(NoWhitespaceBeforeArgEquals)
      == "No whitespace allowed after argument name and before " + ("''" + ("=" + ("''" + "")))
  {
  }

  /** As written, the apostrophes around "=" before the value vanish. */
  lemma ArgValueGapTextAsWritten(inserts: seq<Option<string>>)
    ensures Format(Template(NoWhitespaceBeforeArgValue), inserts)
      == Some("No whitespace allowed after " + "=" + " and before option value")
  {
    ArgValueGapPieces();
    ArgValueGapLayoutAsWritten();
    QuotedText("No whitespace allowed after ", "=", " and before option value", inserts);
  }

  lemma ArgValueGapText(inserts: seq<Option<string>>)
    ensures Format(CorrectedTemplate(NoWhitespaceBeforeArgValue), inserts)
      == Some("No whitespace allowed after " + "'" + "=" + "'" + " and before option value")
  {
    ArgValueGapPieces();
    ArgValueGapLayout();
    DoubledQuotes("No whitespace allowed after ", "=", " and before option value", inserts);
  }

  lemma ArgValueGapPieces()
    ensures Plain("No whitespace allowed after ") && Plain("=") && Plain(" and before option value")
  {
  }

  lemma ArgValueGapLayoutAsWritten()
    ensures Template(NoWhitespaceBeforeArgValue)
      == "No whitespace allowed after " + ("'" + ("=" + ("'" + " and before option value")))
  {
  }

  lemma ArgValueGapLayout()
    ensures CorrectedTemplate(NoWhitespaceBeforeArgValue)
      == "No whitespace allowed after " + ("''" + ("=" + ("''" + " and before option value")))
  {
  }
}
