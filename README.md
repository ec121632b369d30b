# Spring XD stream definition parser, in Dafny

Spring XD describes a stream as a pipeline of modules, each with optional
arguments, for example `http --port=9000 | filter --expression=x | log`.
`StreamConfigParser` turns the tokens of such a definition into a
`StreamNode`: the definition text and its non-empty list of modules, in
order. Each module has a name, a span and, when any `--name=value` follows
it, its arguments in order. The parser reads the grammar

    stream   : module ('|' module)*
    module   : identifier ('--' identifier '=' value)*
    value    : identifier | string literal

It looks one token ahead and keeps a pointer into the token list. It also
checks that `--`, the name, `=` and an identifier value touch each other
(one message for each kind of gap). A quoted value loses its delimiters and
has `''` and `""` collapsed. Errors are `SpelParseException`s carrying an
`XDDSLMessages` entry, a position and inserts. An entry formats as
`XD<code>E:(pos <p>): <text>`.

The project has one file per unit of the source:
- `TokenKind.dfy`: the token kinds, their spellings, payload flag, ordinals and `toString`.
- `Token.dfy`: the token record with `equals`, `hashCode`, `toString` and the re-kinding helpers.
- `Messages.dfy` and `MessageFormat.dfy`: the message table, `formatMessage`, and the part of `java.text.MessageFormat` the patterns use.
- `StreamNode.dfy`: the AST records and `StreamNode`'s constructor, `stringify` and `getModule`.
- `StreamConfigParser.dfy`: the parser.

The parser comes in two layers:
- functions that say, for a token list and a pointer, what each grammar step returns and where it leaves the pointer, also when it fails;
- a class `StreamConfigParser` with the four fields of the Java class. Each of its methods, loops included, is proved to do what its function says.

The remaining files hold the proofs about those functions:
- `ParserProperties.dfy` holds an independent, declarative grammar. It proves that the parser accepts exactly the streams of that grammar and builds the nodes it describes. It also proves:
  - the module count;
  - where every error is reported;
  - the individual error cases;
  - the quote round trips.
- `ParserExamples.dfy` replays the parser tests on token lists written out by hand.
- `Text.dfy` and `Wrappers.dfy` are helpers: decimal rendering, ASCII lower case, and `Option`/`Result`.

The token list is the parser's input, because the tokenizer is not part of
this model. The model demands only what the code relies on
(`Parser.TokensCarryData`):
- identifiers and string literals carry their text;
- a string literal's text includes both of its quotes.

Two behaviours follow the code where one might expect otherwise:
- A quoted argument value has both `''` and `""` collapsed, whichever quote
  delimits it (`ParserProperties.BothPairsCollapse`).
- The position segment of a message is left out only for position -1. Other
  negative positions are printed, although the method's comment says they
  are ignored (`Messages.PositionTextIdentifiesPosition`).

The `MORE_INPUT` check after `eatStream` is kept in `Parse`.
`ParserProperties.ParseSyntax` proves that it can never fire, because
`eatStream` loops until the tokens run out. When the input ends right after
`--name=`, the code dereferences a missing token. The model reports that as
`ParseError.NullPointer`.

## Model

| member | source | states |
|---|---|---|
| TokenKinds.HasPayload | spring-xd-dirt/src/main/java/org/springframework/xd/dirt/stream/dsl/TokenKind.java:44-53 | hasPayload is set exactly when the spelling is empty; IDENTIFIER has a payload, and DOUBLE_MINUS, EQUALS and PIPE, which the parser matches, have none |
| TokenKinds.ToString | spring-xd-dirt/src/main/java/org/springframework/xd/dirt/stream/dsl/TokenKind.java:55-58 | toString() is the enum name, followed by the spelling in parentheses exactly when the kind has one: it begins with the name, and is no longer than the name exactly for the payload kinds |
| TokenKinds.Length | spring-xd-dirt/src/main/java/org/springframework/xd/dirt/stream/dsl/TokenKind.java:64-66 | getLength() is the spelling's length, and it is 0 exactly for the payload kinds |
| TokenKinds.PayloadKinds | spring-xd-dirt/src/main/java/org/springframework/xd/dirt/stream/dsl/TokenKind.java:26-32 | the kinds with a payload (empty spelling) are exactly IDENTIFIER and the seven LITERAL_* kinds |
| TokenKinds.GrammarTokenLengths | spring-xd-dirt/src/main/java/org/springframework/xd/dirt/stream/dsl/TokenKind.java:27-29 | DOUBLE_MINUS has length 2, EQUALS and PIPE length 1 |
| TokenKinds.OrdinalIsDeclarationOrder | spring-xd-dirt/src/main/java/org/springframework/xd/dirt/stream/dsl/TokenKind.java:26-40 | every kind's ordinal is below the kind count and maps back to that kind |
| TokenKinds.DeclarationOrderIsOrdinal | spring-xd-dirt/src/main/java/org/springframework/xd/dirt/stream/dsl/TokenKind.java:26-40 | exactly the numbers below the kind count are ordinals, each of the kind it names |
| TokenKinds.OperatorRangeIsTextualOperators | spring-xd-dirt/src/main/java/org/springframework/xd/dirt/stream/dsl/TokenKind.java:37-38 | the ordinal range DIV..NOT holds exactly DIV, GE, GT, LE, LT, EQ, NE, MOD and NOT, nine kinds, none with a payload |
| TokenKinds.SpellingsIdentifyKinds | spring-xd-dirt/src/main/java/org/springframework/xd/dirt/stream/dsl/TokenKind.java:26-40 | each fixed spelling is read back as its own kind; payload kinds have no spelling to read |
| TokenKinds.SpellingsDistinct | spring-xd-dirt/src/main/java/org/springframework/xd/dirt/stream/dsl/TokenKind.java:26-40 | no two fixed-spelling kinds share a spelling |
| TokenKinds.ToStringIdentifiesKind | spring-xd-dirt/src/main/java/org/springframework/xd/dirt/stream/dsl/TokenKind.java:55-58 | toString() starts with the kind's name, as a whole word, and that name identifies the kind |
| TokenKinds.NamesIdentifyKinds | spring-xd-dirt/src/main/java/org/springframework/xd/dirt/stream/dsl/TokenKind.java:26-40 | each enum name is read back as its kind |
| TokenKinds.NamesAreWords | spring-xd-dirt/src/main/java/org/springframework/xd/dirt/stream/dsl/TokenKind.java:26-40 | every enum name is made of capital letters and underscores |
| TokenKinds.ToStringInjective | spring-xd-dirt/src/main/java/org/springframework/xd/dirt/stream/dsl/TokenKind.java:55-58 | two kinds with the same toString() are the same kind |
| TokenKinds.TakeWordOfWord | spring-xd-dirt/src/main/java/org/springframework/xd/dirt/stream/dsl/TokenKind.java:55-58 | the leading word of a name followed by a non-word character is that name |
| Tokens.ConstructorsKeepTheirArguments | spring-xd-dirt/src/main/java/org/springframework/xd/dirt/stream/dsl/Token.java:36-45 | the data-less constructor leaves data null, the payload constructor stores the characters, stringValue() returns them, and both keep kind and offsets |
| Tokens.IdentifierIsPayloadKind | spring-xd-dirt/src/main/java/org/springframework/xd/dirt/stream/dsl/Token.java:64-66 | isIdentifier() holds exactly for kind IDENTIFIER, a payload kind |
| Tokens.RelationalOperatorsAreTextualOperators | spring-xd-dirt/src/main/java/org/springframework/xd/dirt/stream/dsl/Token.java:68-70 | isNumericRelationalOperator() holds exactly for GT, GE, LT, LE, EQ and NE: the textual operators other than DIV, MOD and NOT |
| Tokens.RekindedTokens | spring-xd-dirt/src/main/java/org/springframework/xd/dirt/stream/dsl/Token.java:76-86 | asInstanceOfToken, asMatchesToken and asBetweenToken keep the offsets, set the named kind, carry no data, and are equal exactly when the offsets are |
| Tokens.Equals | spring-xd-dirt/src/main/java/org/springframework/xd/dirt/stream/dsl/Token.java:92-105 | equals compares kind and both offsets, and the data only for payload kinds; a token equals itself, and a token equal to a well-formed one is well-formed |
| Tokens.HashCode | spring-xd-dirt/src/main/java/org/springframework/xd/dirt/stream/dsl/Token.java:88-90 | hashCode is ordinal*37 + (startpos+endpos)*37 plus the data hash for payload kinds, so apart from the data hash it is a multiple of 37 |
| Tokens.ToString | spring-xd-dirt/src/main/java/org/springframework/xd/dirt/stream/dsl/Token.java:52-62 | toString() is "[" + kind text, ":" + data for payload kinds, "]" and "(s,e)": it begins with "[" and the kind text and ends with ")" |
| Tokens.EqualsIsEquivalence | spring-xd-dirt/src/main/java/org/springframework/xd/dirt/stream/dsl/Token.java:92-105 | equals is reflexive, symmetric and transitive |
| Tokens.EqualsOnCanonicalTokens | spring-xd-dirt/src/main/java/org/springframework/xd/dirt/stream/dsl/Token.java:92-105 | on tokens whose data is present exactly for payload kinds, equals is equality of all four fields |
| Tokens.EqualsIgnoresOperatorText | spring-xd-dirt/src/main/java/org/springframework/xd/dirt/stream/dsl/Token.java:97-103 | for every kind without payload, tokens that differ only in data (such as a textual "ne" and the symbolic NE) are equal, although the records differ |
| Tokens.EqualsImpliesEqualHash | spring-xd-dirt/src/main/java/org/springframework/xd/dirt/stream/dsl/Token.java:88-105 | equal tokens have equal hashCode() |
| Tokens.HashSeesOffsetSumOnly | spring-xd-dirt/src/main/java/org/springframework/xd/dirt/stream/dsl/Token.java:88-90 | shifting the offsets in opposite directions keeps hashCode() but breaks equals |
| Tokens.ToStringRoundTrip | spring-xd-dirt/src/main/java/org/springframework/xd/dirt/stream/dsl/Token.java:52-62 | "[KIND:data](s,e)" or "[KIND(spelling)](s,e)" can be read back to the token it came from |
| Tokens.ReadOffsetsOf | spring-xd-dirt/src/main/java/org/springframework/xd/dirt/stream/dsl/Token.java:60 | the "(s,e)" suffix gives back both offsets, negative ones included |
| Text.NatToStringRoundTrip | spring-xd-dirt/src/main/java/org/springframework/xd/dirt/stream/dsl/Token.java:60 | the decimal digits of a natural number read back to that number |
| Text.IntToStringRoundTrip | spring-xd-dirt/src/main/java/org/springframework/xd/dirt/stream/dsl/Token.java:60 | the decimal rendering of any int (with "-" for negatives) reads back to it |
| Text.ToLower | spring-xd-dirt/src/main/java/org/springframework/xd/dirt/stream/dsl/StreamConfigParser.java:118 | toLowerCase() keeps the length and lowers each character |
| Text.ToLowerIdempotent | spring-xd-dirt/src/main/java/org/springframework/xd/dirt/stream/dsl/StreamConfigParser.java:185 | lowering twice gives the same text as lowering once |
| Messages.Template | spring-xd-dirt/src/main/java/org/springframework/xd/dirt/stream/dsl/XDDSLMessages.java:38-52 | the pattern of each of the 15 messages, character for character as in the enum; none is empty |
| Messages.AllMessagesAreErrors | spring-xd-dirt/src/main/java/org/springframework/xd/dirt/stream/dsl/XDDSLMessages.java:38-52 | every message has kind ERROR, so its prefix is "XD" + code + "E:" |
| Messages.CodesIdentifyMessages | spring-xd-dirt/src/main/java/org/springframework/xd/dirt/stream/dsl/XDDSLMessages.java:38-52 | each message is found by its code, and only by it |
| Messages.CodesAreDistinct | spring-xd-dirt/src/main/java/org/springframework/xd/dirt/stream/dsl/XDDSLMessages.java:38-52 | no two messages share a code |
| Messages.PositionTextIdentifiesPosition | spring-xd-dirt/src/main/java/org/springframework/xd/dirt/stream/dsl/XDDSLMessages.java:90-92 | the "(pos p): " segment is missing exactly for -1, and different positions (negative ones too) give different segments |
| Messages.FormatMessage | spring-xd-dirt/src/main/java/org/springframework/xd/dirt/stream/dsl/XDDSLMessages.java:75-94 | formatMessage with the enum's own pattern: it yields a text exactly when MessageFormat accepts the pattern with the inserts, and the text begins with the "XD" code and kind prefix and the position segment |
| Messages.FormattedMessageIdentifiesPosition | spring-xd-dirt/src/main/java/org/springframework/xd/dirt/stream/dsl/XDDSLMessages.java:75-94 | for a message whose pattern, as written, formats, two formatted messages agree exactly when their positions do: prefix, position segment and text, nothing else |
| Messages.CorrectedFormatMessage | spring-xd-dirt/src/main/java/org/springframework/xd/dirt/stream/dsl/XDDSLMessages.java:75-94 | formatMessage with the corrected pattern: text exactly when that pattern formats, beginning with prefix and position segment |
| Messages.CorrectedFormattedMessageIdentifiesPosition | spring-xd-dirt/src/main/java/org/springframework/xd/dirt/stream/dsl/XDDSLMessages.java:75-94 | the same position property for the corrected formatter |
| Messages.FormatMessageIsCorrectedExactlyOffLoneApostrophes | spring-xd-dirt/src/main/java/org/springframework/xd/dirt/stream/dsl/XDDSLMessages.java:38-52 | for every position and insert list, formatMessage as written gives the intended message exactly for the messages other than 101, 102, 103 and 107 |
| Messages.UnexpectedDataText | spring-xd-dirt/src/main/java/org/springframework/xd/dirt/stream/dsl/XDDSLMessages.java:38 | message 100 reads "Unexpected data after module definition: 'x'" for insert x |
| Messages.ExpectedArgumentValueText | spring-xd-dirt/src/main/java/org/springframework/xd/dirt/stream/dsl/XDDSLMessages.java:43 | message 105 shows the insert in apostrophes, or "null" for a null insert |
| Messages.NotExpectedTokenText | spring-xd-dirt/src/main/java/org/springframework/xd/dirt/stream/dsl/XDDSLMessages.java:49 | message 1043 shows the expected and the found kind, each in apostrophes |
| Messages.OodText | spring-xd-dirt/src/main/java/org/springframework/xd/dirt/stream/dsl/XDDSLMessages.java:50 | message 1044 is its text whatever the inserts |
| Messages.ArgNameGapTextAsWritten | spring-xd-dirt/src/main/java/org/springframework/xd/dirt/stream/dsl/XDDSLMessages.java:39 | pattern 101 as written renders without its apostrophes: "between -- and" |
| Messages.ArgNameGapText | spring-xd-dirt/src/main/java/org/springframework/xd/dirt/stream/dsl/XDDSLMessages.java:39 | pattern 101 with doubled apostrophes renders "between '--' and option name" |
| Messages.ArgEqualsGapTextAsWritten | spring-xd-dirt/src/main/java/org/springframework/xd/dirt/stream/dsl/XDDSLMessages.java:40 | pattern 102 as written renders "before =" without apostrophes |
| Messages.ArgEqualsGapText | spring-xd-dirt/src/main/java/org/springframework/xd/dirt/stream/dsl/XDDSLMessages.java:40 | pattern 102 with doubled apostrophes renders "before '='" |
| Messages.ArgValueGapTextAsWritten | spring-xd-dirt/src/main/java/org/springframework/xd/dirt/stream/dsl/XDDSLMessages.java:41 | pattern 103 as written renders "after = and" without apostrophes |
| Messages.ArgValueGapText | spring-xd-dirt/src/main/java/org/springframework/xd/dirt/stream/dsl/XDDSLMessages.java:41 | pattern 103 with doubled apostrophes renders "after '=' and before option value" |
| Messages.QuotedStringTextAsWritten | spring-xd-dirt/src/main/java/org/springframework/xd/dirt/stream/dsl/XDDSLMessages.java:45 | pattern 107 as written loses its apostrophe: "Cannot find terminating  for string" |
| Messages.QuotedStringText | spring-xd-dirt/src/main/java/org/springframework/xd/dirt/stream/dsl/XDDSLMessages.java:45 | pattern 107 with a doubled apostrophe renders "Cannot find terminating ' for string" |
| Messages.CorrectionOnlyTouchesLoneApostrophes | spring-xd-dirt/src/main/java/org/springframework/xd/dirt/stream/dsl/XDDSLMessages.java:38-52 | the corrected patterns differ from the enum's exactly for 101, 102, 103 and 107 |
| MessageFormat.Format | spring-xd-dirt/src/main/java/org/springframework/xd/dirt/stream/dsl/XDDSLMessages.java:93 | MessageFormat.format on apostrophe quoting and {n} elements, None for the IllegalArgumentException; a pattern without "{" is never rejected |
| MessageFormat.PlainPatternIsItself | spring-xd-dirt/src/main/java/org/springframework/xd/dirt/stream/dsl/XDDSLMessages.java:93 | a pattern without apostrophes and braces formats as itself |
| MessageFormat.UnclosedBraceIsRejected | spring-xd-dirt/src/main/java/org/springframework/xd/dirt/stream/dsl/XDDSLMessages.java:93 | a pattern with an unclosed "{" is rejected |
| MessageFormat.QuotedArgument | spring-xd-dirt/src/main/java/org/springframework/xd/dirt/stream/dsl/XDDSLMessages.java:93 | text around ''{0}'' renders the argument between apostrophes |
| MessageFormat.QuotedArguments | spring-xd-dirt/src/main/java/org/springframework/xd/dirt/stream/dsl/XDDSLMessages.java:93 | the same for two arguments with text between them |
| MessageFormat.QuotedText | spring-xd-dirt/src/main/java/org/springframework/xd/dirt/stream/dsl/XDDSLMessages.java:93 | text between lone apostrophes is kept and the apostrophes vanish |
| MessageFormat.UnclosedQuote | spring-xd-dirt/src/main/java/org/springframework/xd/dirt/stream/dsl/XDDSLMessages.java:93 | a single lone apostrophe vanishes and the text after it is kept |
| MessageFormat.DoubledQuotes | spring-xd-dirt/src/main/java/org/springframework/xd/dirt/stream/dsl/XDDSLMessages.java:93 | doubled apostrophes around text render as single ones |
| MessageFormat.DoubledQuote1 | spring-xd-dirt/src/main/java/org/springframework/xd/dirt/stream/dsl/XDDSLMessages.java:93 | one doubled apostrophe renders as one apostrophe |
| MessageFormat.FormatShift | spring-xd-dirt/src/main/java/org/springframework/xd/dirt/stream/dsl/XDDSLMessages.java:93 | formatting from an offset into a longer pattern depends only on what lies after the prefix |
| Ast.MakeStreamNode | spring-xd-dirt/src/main/java/org/springframework/xd/dirt/stream/dsl/ast/StreamNode.java:28-32 | needs a non-empty module list; keeps the text and the list, and spans from the first module's start to the last one's end |
| Ast.Stringify | spring-xd-dirt/src/main/java/org/springframework/xd/dirt/stream/dsl/ast/StreamNode.java:34-42 | the loop builds "Stream[" + stream + "]" followed by every module's rendering, in order |
| Ast.ConcatAppend | spring-xd-dirt/src/main/java/org/springframework/xd/dirt/stream/dsl/ast/StreamNode.java:38-40 | rendering a concatenated module list is rendering each part |
| Ast.StringifyAppendsModule | spring-xd-dirt/src/main/java/org/springframework/xd/dirt/stream/dsl/ast/StreamNode.java:38-40 | one more module appends exactly its rendering |
| Ast.StringifyHeader | spring-xd-dirt/src/main/java/org/springframework/xd/dirt/stream/dsl/ast/StreamNode.java:37 | the rendering starts with "Stream[" + stream + "]" |
| Ast.FirstNamed | spring-xd-dirt/src/main/java/org/springframework/xd/dirt/stream/dsl/ast/StreamNode.java:52-59 | the index of the first module with the name, or the list length when none has it |
| Ast.GetModule | spring-xd-dirt/src/main/java/org/springframework/xd/dirt/stream/dsl/ast/StreamNode.java:52-59 | the search returns the first module with the name, or null |
| Ast.FirstNamedIs | spring-xd-dirt/src/main/java/org/springframework/xd/dirt/stream/dsl/ast/StreamNode.java:52-59 | an index holding the name with no earlier match is the one found |
| Ast.GetModuleFindsFirst | spring-xd-dirt/src/main/java/org/springframework/xd/dirt/stream/dsl/ast/StreamNode.java:52-59 | a module is found exactly when some module has the name |
| Parser.TokenText | spring-xd-dirt/src/main/java/org/springframework/xd/dirt/stream/dsl/StreamConfigParser.java:181-187 | toString(Token): the data of a payload token, else the kind text lower-cased; never null for a token with its data, and as long as the kind text for non-payload kinds |
| Parser.ParseTokens | spring-xd-dirt/src/main/java/org/springframework/xd/dirt/stream/dsl/StreamConfigParser.java:36-51 | parse on the tokenizer's tokens: eatStream from token 0, then MORE_INPUT on a leftover token; on success every token has been consumed |
| Parser.EatTokenAt | spring-xd-dirt/src/main/java/org/springframework/xd/dirt/stream/dsl/StreamConfigParser.java:112-121 | succeeds exactly on a token of the expected kind, returning it and advancing by one |
| Parser.ArgNameAt | spring-xd-dirt/src/main/java/org/springframework/xd/dirt/stream/dsl/StreamConfigParser.java:81-85 | skips the "--"; on success the name is the identifier after it |
| Parser.ArgEqualsAt | spring-xd-dirt/src/main/java/org/springframework/xd/dirt/stream/dsl/StreamConfigParser.java:86-89 | on success the token at the pointer is "=" and the pointer advances by one |
| Parser.ArgValueAt | spring-xd-dirt/src/main/java/org/springframework/xd/dirt/stream/dsl/StreamConfigParser.java:90-103 | on success the value token is consumed and the argument ends at its end |
| Parser.PipedModuleAt | spring-xd-dirt/src/main/java/org/springframework/xd/dirt/stream/dsl/StreamConfigParser.java:58-63 | a PIPE is consumed before the module; any other token stops the stream with the pointer left on it |
| Parser.StreamFrom | spring-xd-dirt/src/main/java/org/springframework/xd/dirt/stream/dsl/StreamConfigParser.java:57-65 | on success the modules read before are kept as a prefix of the result |
| Parser.CollapsePairs | spring-xd-dirt/src/main/java/org/springframework/xd/dirt/stream/dsl/StreamConfigParser.java:99 | collapsing pairs never lengthens the text |
| Parser.Unescape | spring-xd-dirt/src/main/java/org/springframework/xd/dirt/stream/dsl/StreamConfigParser.java:99 | the string value: the text inside the quotes with '' then "" collapsed; never longer than that inner text |
| Parser.StreamConfigParser.constructor | spring-xd-dirt/src/main/java/org/springframework/xd/dirt/stream/dsl/StreamConfigParser.java:29-34 | a new parser has no text, no tokens and the pointer at 0 |
| Parser.StreamConfigParser.MoreTokens | spring-xd-dirt/src/main/java/org/springframework/xd/dirt/stream/dsl/StreamConfigParser.java:150-152 | true exactly when the pointer is before the end of the token list |
| Parser.StreamConfigParser.NextToken | spring-xd-dirt/src/main/java/org/springframework/xd/dirt/stream/dsl/StreamConfigParser.java:154-159 | null at the end without moving; otherwise the current token, advancing by one |
| Parser.StreamConfigParser.PeekToken | spring-xd-dirt/src/main/java/org/springframework/xd/dirt/stream/dsl/StreamConfigParser.java:170-175 | the current token, or null at the end |
| Parser.StreamConfigParser.PeekTokenKindAndConsume | spring-xd-dirt/src/main/java/org/springframework/xd/dirt/stream/dsl/StreamConfigParser.java:127-148 | true for a token of the kind, or for IDENTIFIER a DIV..NOT token with data; advances by one only on an exact match when asked to consume |
| Parser.StreamConfigParser.PeekTokenKind | spring-xd-dirt/src/main/java/org/springframework/xd/dirt/stream/dsl/StreamConfigParser.java:123-125 | the same test, never moving the pointer |
| Parser.StreamConfigParser.IsNextTokenAdjacent | spring-xd-dirt/src/main/java/org/springframework/xd/dirt/stream/dsl/StreamConfigParser.java:161-168 | false at the end, else whether the next token starts where the last one ends |
| Parser.StreamConfigParser.EatToken | spring-xd-dirt/src/main/java/org/springframework/xd/dirt/stream/dsl/StreamConfigParser.java:112-121 | result and new pointer are those of EatTokenAt |
| Parser.StreamConfigParser.EatArgumentName | spring-xd-dirt/src/main/java/org/springframework/xd/dirt/stream/dsl/StreamConfigParser.java:81-85 | result and new pointer are those of ArgNameAt |
| Parser.StreamConfigParser.EatArgumentEquals | spring-xd-dirt/src/main/java/org/springframework/xd/dirt/stream/dsl/StreamConfigParser.java:86-89 | result and new pointer are those of ArgEqualsAt |
| Parser.StreamConfigParser.EatArgumentValue | spring-xd-dirt/src/main/java/org/springframework/xd/dirt/stream/dsl/StreamConfigParser.java:90-103 | result and new pointer are those of ArgValueAt |
| Parser.StreamConfigParser.EatArgument | spring-xd-dirt/src/main/java/org/springframework/xd/dirt/stream/dsl/StreamConfigParser.java:81-107 | result and new pointer are those of ArgAt |
| Parser.StreamConfigParser.MaybeEatModuleArgs | spring-xd-dirt/src/main/java/org/springframework/xd/dirt/stream/dsl/StreamConfigParser.java:78-110 | the loop's result and new pointer are those of ArgsFrom from no arguments |
| Parser.StreamConfigParser.EatModule | spring-xd-dirt/src/main/java/org/springframework/xd/dirt/stream/dsl/StreamConfigParser.java:71-75 | result and new pointer are those of ModuleAt |
| Parser.StreamConfigParser.EatPipedModule | spring-xd-dirt/src/main/java/org/springframework/xd/dirt/stream/dsl/StreamConfigParser.java:58-63 | result and new pointer are those of PipedModuleAt |
| Parser.StreamConfigParser.EatModuleAfterPipe | spring-xd-dirt/src/main/java/org/springframework/xd/dirt/stream/dsl/StreamConfigParser.java:60-61 | on a PIPE token, result and new pointer are those of PipedModuleAt |
| Parser.StreamConfigParser.EatStream | spring-xd-dirt/src/main/java/org/springframework/xd/dirt/stream/dsl/StreamConfigParser.java:54-68 | the loop's result and new pointer are those of EatStreamAt |
| Parser.StreamConfigParser.Parse | spring-xd-dirt/src/main/java/org/springframework/xd/dirt/stream/dsl/StreamConfigParser.java:36-51 | loads the text and tokens; result and final pointer are those of ParseTokens |
| ParserProperties.ArgumentSyntax | spring-xd-dirt/src/main/java/org/springframework/xd/dirt/stream/dsl/StreamConfigParser.java:80-107 | one argument parses exactly when "--", an adjacent identifier, an adjacent "=" and a value (adjacent identifier, or string) follow; it then spans four tokens and is the node the grammar gives |
| ParserProperties.ArgumentsSyntax | spring-xd-dirt/src/main/java/org/springframework/xd/dirt/stream/dsl/StreamConfigParser.java:78-110 | the argument loop reads the longest run of well-formed arguments, fails exactly when a "--" follows that run, and otherwise appends the run to the arguments read so far (null when none, one node per "--", in order) |
| ParserProperties.ModuleSyntax | spring-xd-dirt/src/main/java/org/springframework/xd/dirt/stream/dsl/StreamConfigParser.java:71-75 | a module parses exactly when an identifier and its arguments are not followed by a bad "--"; the node takes name and offsets from the identifier |
| ParserProperties.PipedModuleSyntax | spring-xd-dirt/src/main/java/org/springframework/xd/dirt/stream/dsl/StreamConfigParser.java:58-63 | a piped module parses exactly when a PIPE and a module follow |
| ParserProperties.StreamSyntax | spring-xd-dirt/src/main/java/org/springframework/xd/dirt/stream/dsl/StreamConfigParser.java:57-65 | the stream loop succeeds exactly on a sequence of piped modules up to the end, appending them in order |
| ParserProperties.EatStreamSyntax | spring-xd-dirt/src/main/java/org/springframework/xd/dirt/stream/dsl/StreamConfigParser.java:54-68 | eatStream succeeds exactly on a module followed by piped modules, consuming every token |
| ParserProperties.ParseSyntax | spring-xd-dirt/src/main/java/org/springframework/xd/dirt/stream/dsl/StreamConfigParser.java:36-51 | parse is eatStream (the MORE_INPUT branch is dead); it succeeds exactly on a well-formed stream, consumes all tokens and returns its modules in order |
| ParserProperties.ModuleCount | spring-xd-dirt/src/main/java/org/springframework/xd/dirt/stream/dsl/StreamConfigParser.java:54-68 | a parsed stream has one more module than the token list has PIPE tokens |
| ParserProperties.PipesSeparateModules | spring-xd-dirt/src/main/java/org/springframework/xd/dirt/stream/dsl/StreamConfigParser.java:57-65 | after the first module there are as many PIPE tokens as further modules |
| ParserProperties.ArgumentsHaveNoPipe | spring-xd-dirt/src/main/java/org/springframework/xd/dirt/stream/dsl/StreamConfigParser.java:78-110 | no PIPE inside a run of arguments |
| ParserProperties.ParseErrors | spring-xd-dirt/src/main/java/org/springframework/xd/dirt/stream/dsl/StreamConfigParser.java:36-51 | every failure is an exception on the expression at a token's start (at the text's length for OOD), or the null dereference of input ending after "=" |
| ParserProperties.StreamErrors | spring-xd-dirt/src/main/java/org/springframework/xd/dirt/stream/dsl/StreamConfigParser.java:54-68 | the same for the stream loop, at a token from its start on |
| ParserProperties.ArgumentsErrors | spring-xd-dirt/src/main/java/org/springframework/xd/dirt/stream/dsl/StreamConfigParser.java:78-110 | the same for the argument loop |
| ParserProperties.ModuleErrors | spring-xd-dirt/src/main/java/org/springframework/xd/dirt/stream/dsl/StreamConfigParser.java:71-75 | the same for one module |
| ParserProperties.EatTokenErrors | spring-xd-dirt/src/main/java/org/springframework/xd/dirt/stream/dsl/StreamConfigParser.java:112-121 | the same for eatToken |
| ParserProperties.EatTokenFailures | spring-xd-dirt/src/main/java/org/springframework/xd/dirt/stream/dsl/StreamConfigParser.java:112-121 | at the end eatToken fails with OOD at the text's length without moving; on another kind with NOT_EXPECTED_TOKEN at that token, naming both kinds in lower case, after consuming it |
| ParserProperties.NonPipeAfterModule | spring-xd-dirt/src/main/java/org/springframework/xd/dirt/stream/dsl/StreamConfigParser.java:57-64 | any token other than PIPE after a module fails with UNEXPECTED_DATA_AFTER_MODULE at its start, showing its text |
| ParserProperties.FirstModuleThenUnexpectedData | spring-xd-dirt/src/main/java/org/springframework/xd/dirt/stream/dsl/StreamConfigParser.java:54-64 | so parse fails that way when the first module is followed by anything but PIPE |
| ParserProperties.EmptyStreamIsOod | spring-xd-dirt/src/main/java/org/springframework/xd/dirt/stream/dsl/StreamConfigParser.java:112-116 | no tokens at all fails with OOD at the text's length |
| ParserProperties.StreamStartsWithIdentifier | spring-xd-dirt/src/main/java/org/springframework/xd/dirt/stream/dsl/StreamConfigParser.java:71-72 | a stream whose first token is not an identifier fails there with NOT_EXPECTED_TOKEN |
| Parser.ArgNameGapFails | spring-xd-dirt/src/main/java/org/springframework/xd/dirt/stream/dsl/StreamConfigParser.java:82-84 | an identifier, or a textual operator with data, not adjacent to "--" fails with NO_WHITESPACE_BEFORE_ARG_NAME at its start |
| ParserProperties.ArgEqualsGapFails | spring-xd-dirt/src/main/java/org/springframework/xd/dirt/stream/dsl/StreamConfigParser.java:86-88 | after "--" and an adjacent name, an "=" after a gap fails the argument with NO_WHITESPACE_BEFORE_ARG_EQUALS at the "=", the pointer on it |
| ParserProperties.ArgValueGapFails | spring-xd-dirt/src/main/java/org/springframework/xd/dirt/stream/dsl/StreamConfigParser.java:90-92 | after "--", an adjacent name and an adjacent "=", an identifier or textual operator after a gap fails the argument with NO_WHITESPACE_BEFORE_ARG_VALUE at it, the pointer on it |
| ParserProperties.TextualOperatorIsNoArgumentName | spring-xd-dirt/src/main/java/org/springframework/xd/dirt/stream/dsl/StreamConfigParser.java:85 | an adjacent textual operator passes the gap check but is refused as a name |
| ParserProperties.QuotedValueNeedsNoAdjacency | spring-xd-dirt/src/main/java/org/springframework/xd/dirt/stream/dsl/StreamConfigParser.java:90-99 | a string value is taken whether or not a gap precedes it |
| ParserProperties.OperatorWordIsNoValue | spring-xd-dirt/src/main/java/org/springframework/xd/dirt/stream/dsl/StreamConfigParser.java:90-101 | a textual operator as value fails with NO_WHITESPACE_BEFORE_ARG_VALUE after a gap, else with EXPECTED_ARGUMENT_VALUE showing its text |
| ParserProperties.ValueMissingIsNullPointer | spring-xd-dirt/src/main/java/org/springframework/xd/dirt/stream/dsl/StreamConfigParser.java:94-96 | input ending right after "=" fails with the null dereference |
| ParserProperties.ArgumentStartsAtDashes | spring-xd-dirt/src/main/java/org/springframework/xd/dirt/stream/dsl/StreamConfigParser.java:107 | with a two-character "--", an argument starts at the "--" and ends at its value |
| ParserProperties.CollapseUndoesDoubling | spring-xd-dirt/src/main/java/org/springframework/xd/dirt/stream/dsl/StreamConfigParser.java:99 | collapsing pairs undoes doubling a character |
| ParserProperties.CollapseWithoutPairs | spring-xd-dirt/src/main/java/org/springframework/xd/dirt/stream/dsl/StreamConfigParser.java:99 | text without the character is left alone |
| ParserProperties.UnescapeInside | spring-xd-dirt/src/main/java/org/springframework/xd/dirt/stream/dsl/StreamConfigParser.java:99 | the value is the text between the delimiters with '' and then "" collapsed |
| ParserProperties.SingleQuotedRoundTrip | spring-xd-dirt/src/main/java/org/springframework/xd/dirt/stream/dsl/StreamConfigParser.java:99 | doubling the apostrophes of a text without double quotes and quoting it reads back to the text |
| ParserProperties.DoubleQuotedRoundTrip | spring-xd-dirt/src/main/java/org/springframework/xd/dirt/stream/dsl/StreamConfigParser.java:99 | the same for double quotes |
| ParserProperties.BothPairsCollapse | spring-xd-dirt/src/main/java/org/springframework/xd/dirt/stream/dsl/StreamConfigParser.java:99 | for every value without apostrophes, doubling its double quotes and delimiting it with apostrophes reads back as the value: doubled double quotes collapse whatever the delimiter |
| ParserProperties.DoubledAppend | spring-xd-dirt/src/main/java/org/springframework/xd/dirt/stream/dsl/StreamConfigParser.java:99 | doubling distributes over concatenation |
| ParserExamples.OneModule | spring-xd-dirt/src/test/java/org/springframework/xd/dirt/stream/dsl/ParserTests.java:36-39 | "foo" is one module foo spanning 0..3 |
| ParserExamples.TwoModules | spring-xd-dirt/src/test/java/org/springframework/xd/dirt/stream/dsl/ParserTests.java:42-45 | the stream foo PIPE bar is foo at 0..3 and bar at 6..9 |
| ParserExamples.GapBeforeArgumentName | spring-xd-dirt/src/test/java/org/springframework/xd/dirt/stream/dsl/ParserTests.java:55 | "foo -- name=value" fails with code 101 at 7 |
| ParserExamples.GapBeforeArgumentEquals | spring-xd-dirt/src/test/java/org/springframework/xd/dirt/stream/dsl/ParserTests.java:56 | "foo --name =value" fails with code 102 at 11 |
| ParserExamples.GapBeforeArgumentValue | spring-xd-dirt/src/test/java/org/springframework/xd/dirt/stream/dsl/ParserTests.java:57 | "foo --name= value" fails with code 103 at 12 |
| ParserExamples.TwoArguments | spring-xd-dirt/src/test/java/org/springframework/xd/dirt/stream/dsl/ParserTests.java:61-79 | "foo --name=value --x=y" is one module foo with arguments name=value and x=y, in order |
| ParserExamples.TwoArgumentList | spring-xd-dirt/src/test/java/org/springframework/xd/dirt/stream/dsl/ParserTests.java:70-76 | the two arguments, their spans, and where the module ends |
| ParserExamples.StartsWithArgument | spring-xd-dirt/src/test/java/org/springframework/xd/dirt/stream/dsl/ParserTests.java:114-120 | "--foo = bar" fails at 0, expecting an identifier |
| ParserExamples.EndsAfterEquals | spring-xd-dirt/src/main/java/org/springframework/xd/dirt/stream/dsl/StreamConfigParser.java:94-96 | "foo --x=" fails with the null dereference |
| ParserExamples.QuotedWordValue | spring-xd-dirt/src/test/java/org/springframework/xd/dirt/stream/dsl/ParserTests.java:83-89 | a quoted value with a doubled-apostrophe word collapses to the word in apostrophes |
| ParserExamples.QueryValue | spring-xd-dirt/src/test/java/org/springframework/xd/dirt/stream/dsl/ParserTests.java:83-89 | the query value of the test reads back as Select * from /Stocks where symbol='VMW' |

## Left out

- Tokenizer: Tokenizer.java is not part of this model. The token list is a parameter of `Parse`, and `Parser.TokensCarryData` states what the parser needs of it. Offsets are not required to be ordered, because no step depends on that.
- Numeric argument values (`--x=1`, `--x=1a2b` in ParserTests.java:97-112) depend on how the tokenizer splits them, so they are not replayed.
- `EnhancedStreamParser` and the `test | foo--x=13` case: that class is not part of this model.
- ModuleNode.java, ArgumentNode.java, AstNode.java: not part of this model. The nodes are records with the constructor arguments used at StreamConfigParser.java:74 and :107. A module's rendering is a parameter of `Ast.Stringify`. The widened module span that the tests print and `getArgumentsAsProperties` are left out. Because the module span is not widened, `Ast.MakeStreamNode` and `Parser.EatStreamAt` end a stream at the end of its last module's name, where Java's stream ends at the last argument: ParserTests.java:49 and :79 print 0>16 and 0>22, while the stream of "foo --name=value --x=y" in `ParserExamples.TwoArguments` ends at 3.
- SpelParseException and InternalParseException: not part of this model. The exception the parser throws is `Parser.ParseError`, and the wrapping and unwrapping at StreamConfigParser.java:48-49 is the early return of a `Result`.
- `LauncherApplication`: application start-up, unrelated to parsing.
- MessageFormat.Format: models only apostrophe quoting and plain `{n}` elements with string or null arguments. Format types such as `{0,number}` and argument types other than strings are rejected or left out, because no DSL pattern uses them.
- Tokens.HashCode: uses unbounded integers and does not model Java's 32-bit wrap-around, because equal tokens hash equally either way. It also requires a payload token to have data, where Token.java:89 would throw a NullPointerException on a payload token with null data.
- Tokens.Equals: compares two tokens only (`instanceof` against other objects is left out). It requires the receiver to have data when its kind has a payload, where Java would throw a NullPointerException.
- Text.ToLower: lowers ASCII letters only, because every kind name is ASCII and because the model assumes a default locale whose lower-casing of ASCII letters is the plain one (a Turkish locale, for example, lowers 'I' to a dotless 'ı'; `toLowerCase()` at StreamConfigParser.java:118 and :185 depends on the locale).
- `Kind` letters for INFO and WARNING are commented out in the source. Every message is an ERROR, so these letters never appear.

## Findings

| source | as written | input that shows it | evidently intended | confidence | as-written member | corrected member |
|---|---|---|---|---|---|---|
| spring-xd-dirt/src/main/java/org/springframework/xd/dirt/stream/dsl/XDDSLMessages.java:39 | pattern `'--'` uses lone apostrophes, which MessageFormat treats as quoting | message 101: renders "No whitespace allowed between -- and option name" | two apostrophes, so that "'--'" is shown | not executed; follows from the MessageFormat quoting rules | Messages.ArgNameGapTextAsWritten | Messages.ArgNameGapText |
| spring-xd-dirt/src/main/java/org/springframework/xd/dirt/stream/dsl/XDDSLMessages.java:40 | pattern `'='` at the end uses lone apostrophes | message 102: renders "... and before =" | "... and before '='" | not executed; follows from the MessageFormat quoting rules | Messages.ArgEqualsGapTextAsWritten | Messages.ArgEqualsGapText |
| spring-xd-dirt/src/main/java/org/springframework/xd/dirt/stream/dsl/XDDSLMessages.java:41 | pattern `'='` uses lone apostrophes | message 103: renders "No whitespace allowed after = and before option value" | "after '=' and" | not executed; follows from the MessageFormat quoting rules | Messages.ArgValueGapTextAsWritten | Messages.ArgValueGapText |
| spring-xd-dirt/src/main/java/org/springframework/xd/dirt/stream/dsl/XDDSLMessages.java:45 | a single lone apostrophe opens a quote that never closes and is dropped | message 107: renders "Cannot find terminating  for string" | "Cannot find terminating ' for string" | not executed; follows from the MessageFormat quoting rules | Messages.QuotedStringTextAsWritten | Messages.QuotedStringText |

The patterns with inserts (100, 104, 105, 1043 and others) already double
their apostrophes. `Messages.FormatMessage` formats the enum's patterns as
written, so it yields the texts in the "input" column above.
`Messages.CorrectedTemplate` doubles the apostrophes of the four patterns, and
`Messages.CorrectedFormatMessage` formats with those corrected patterns.
`Messages.CorrectionOnlyTouchesLoneApostrophes` proves that no other pattern
changes, and `Messages.FormatMessageIsCorrectedExactlyOffLoneApostrophes`
proves that the two formatters agree on every position and insert list
exactly for the other messages.
