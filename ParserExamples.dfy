/** The parser's own test cases, on the tokens the tokenizer makes of each
    stream (written out here, since the tokenizer is not part of this model). */
module ParserExamples {
  import opened Wrappers
  import opened TokenKinds
  import opened Tokens
  import opened Messages
  import opened Ast
  import opened Parser
  import opened ParserProperties

  function Id(s: string, start: int, end: int): Token {
    Token(Identifier, Some(s), start, end)
  }

  function Sym(k: TokenKind, start: int, end: int): Token {
    Token(k, None, start, end)
  }

  /** "foo" */
  lemma OneModule()
    ensures ParseTokens("foo", [Id("foo", 0, 3)]).result
      == Success(StreamNode("foo", [ModuleNode("foo", 0, 3, None)], 0, 3))
  {
    var ts := [Id("foo", 0, 3)];
    assert IsStream(ts);
    ParseSyntax("foo", ts);
  }

  /** "foo | bar" */
  lemma TwoModules()
    ensures ParseTokens("foo | bar", [Id("foo", 0, 3), Sym(Pipe, 4, 5), Id("bar", 6, 9)]).result
      == Success(StreamNode("foo | bar", [ModuleNode("foo", 0, 3, None), ModuleNode("bar", 6, 9, None)], 0, 9))
  {
    var ts := [Id("foo", 0, 3), Sym(Pipe, 4, 5), Id("bar", 6, 9)];
    assert ModuleEnd(ts, 0) == 1;
    assert ModuleEnd(ts, 2) == 3;
    assert IsStreamRest(ts, 3);
    assert IsStreamRest(ts, 1);
    assert IsStream(ts);
    assert ArgumentList(ts, 1) == [] && ArgumentList(ts, 3) == [];
    assert ModuleList(ts, 3) == [];
    assert ModuleList(ts, 1) == [ModuleNode("bar", 6, 9, None)];
    assert StreamModules(ts) == [ModuleNode("foo", 0, 3, None), ModuleNode("bar", 6, 9, None)];
    ParseSyntax("foo | bar", ts);
  }

  /** "foo -- name=value": the name does not follow the "--". */
  lemma GapBeforeArgumentName()
    ensures ParseTokens("foo -- name=value",
      [Id("foo", 0, 3), Sym(DoubleMinus, 4, 6), Id("name", 7, 11), Sym(Equals, 11, 12), Id("value", 12, 17)]).result
      == Failure(Raise("foo -- name=value", 7, NoWhitespaceBeforeArgName, []))
  {
  }
  /** "foo --name =value": the "=" does not follow the name. */
  lemma GapBeforeArgumentEquals()
    ensures ParseTokens("foo --name =value",
      [Id("foo", 0, 3), Sym(DoubleMinus, 4, 6), Id("name", 6, 10), Sym(Equals, 11, 12), Id("value", 12, 17)]).result
      == Failure(Raise("foo --name =value", 11, NoWhitespaceBeforeArgEquals, []))
  {
    ArgEqualsGapFails("foo --name =value",
      [Id("foo", 0, 3), Sym(DoubleMinus, 4, 6), Id("name", 6, 10), Sym(Equals, 11, 12), Id("value", 12, 17)], 1);
  }

  /** "foo --name= value": the value does not follow the "=". */
  lemma GapBeforeArgumentValue()
    ensures ParseTokens("foo --name= value",
      [Id("foo", 0, 3), Sym(DoubleMinus, 4, 6), Id("name", 6, 10), Sym(Equals, 10, 11), Id("value", 12, 17)]).result
      == Failure(Raise("foo --name= value", 12, NoWhitespaceBeforeArgValue, []))
  {
    ArgValueGapFails("foo --name= value",
      [Id("foo", 0, 3), Sym(DoubleMinus, 4, 6), Id("name", 6, 10), Sym(Equals, 10, 11), Id("value", 12, 17)], 1);
  }

  /** "foo --x=": the input ends where the value should be. */
  lemma EndsAfterEquals()
    ensures ParseTokens("foo --x=",
      [Id("foo", 0, 3), Sym(DoubleMinus, 4, 6), Id("x", 6, 7), Sym(Equals, 7, 8)]).result
      == Failure(NullPointer)
  {
  }

  /** The tokens of "foo --name=value --x=y". */
  function TwoArgumentTokens(): seq<Token> {
    [ Id("foo", 0, 3),
      Sym(DoubleMinus, 4, 6), Id("name", 6, 10), Sym(Equals, 10, 11), Id("value", 11, 16),
      Sym(DoubleMinus, 17, 19), Id("x", 19, 20), Sym(Equals, 20, 21), Id("y", 21, 22)]
  }

  /** Its arguments: two, in order, each spanning from its "--". */
  lemma TwoArgumentList()
    ensures ModuleEnd(TwoArgumentTokens(), 0) == 9
    ensures ArgumentList(TwoArgumentTokens(), 1) == [ArgumentNode("name", "value", 4, 16), ArgumentNode("x", "y", 17, 22)]
  {
    var ts := TwoArgumentTokens();
    assert IsArgument(ts, 1) && IsArgument(ts, 5) && !IsArgument(ts, 9);
    assert ArgumentList(ts, 9) == [];
    assert ArgumentList(ts, 5) == [ArgumentNode("x", "y", 17, 22)];
  }

  /** "foo --name=value --x=y": one module with two arguments. The module's
      own span is its name's. */
  lemma TwoArguments()
    ensures ParseTokens("foo --name=value --x=y", TwoArgumentTokens()).result
      == Success(StreamNode("foo --name=value --x=y",
           [ModuleNode("foo", 0, 3, Some([ArgumentNode("name", "value", 4, 16), ArgumentNode("x", "y", 17, 22)]))], 0, 3))
  {
    var ts := TwoArgumentTokens();
    TwoArgumentList();
    assert IsStreamRest(ts, 9) && ModuleList(ts, 9) == [];
    assert IsStream(ts);
    ParseSyntax("foo --name=value --x=y", ts);
  }

  /** "--foo = bar": a stream cannot start with an argument. */
  lemma StartsWithArgument()
    ensures ParseTokens("--foo = bar",
      [Sym(DoubleMinus, 0, 2), Id("foo", 2, 5), Sym(Equals, 6, 7), Id("bar", 8, 11)]).result
      == Failure(Raise("--foo = bar", 0, NotExpectedToken, [Some(KindText(Identifier)), Some(KindText(DoubleMinus))]))
  {
    StreamStartsWithIdentifier("--foo = bar", [Sym(DoubleMinus, 0, 2), Id("foo", 2, 5), Sym(Equals, 6, 7), Id("bar", 8, 11)]);
  }

  /** A value of plain text and one word in apostrophes, written in
      apostrophes with its own apostrophes doubled, reads back as itself. */
  lemma QuotedWordValue(a: string, w: string)
    requires Lacks(a, '\'') && Lacks(a, '"') && Lacks(w, '\'') && Lacks(w, '"')
    ensures Unescape("'" + a + "''" + w + "''" + "'") == a + "'" + w + "'"
  {
    var v := a + "'" + w + "'";
    DoubledWord(a, w);
    LacksJoin(a, "'", '"');
    LacksJoin(a + "'", w, '"');
    LacksJoin(a + "'" + w, "'", '"');
    SingleQuotedRoundTrip(v);
    assert "'" + a + "''" + w + "''" + "'" == ['\''] + (a + "''" + w + "''") + ['\''];
  }

  /** Doubling the apostrophes of such a value doubles just the two around
      the word. */
  lemma DoubledWord(a: string, w: string)
    requires Lacks(a, '\'') && Lacks(w, '\'')
    ensures Doubled(a + "'" + w + "'", '\'') == a + "''" + w + "''"
  {
    var q := "'";
    DoubledWithout(a, '\'');
    DoubledWithout(w, '\'');
    assert Doubled(q, '\'') == "''";
    DoubledAppend(a, q, '\'');
    DoubledAppend(a + q, w, '\'');
    DoubledAppend(a + q + w, q, '\'');
  }

  lemma QueryTextHasNoQuotes()
    ensures Lacks("Select * from /Stocks where symbol=", '\'')
    ensures Lacks("Select * from /Stocks where symbol=", '"')
  {
  }

  /** The query of the gemfire-cq module in the parameter test: the doubled
      apostrophes around VMW become single ones. */
  lemma QueryValue()
    ensures Unescape("'" + "Select * from /Stocks where symbol=" + "''" + "VMW" + "''" + "'")
      == "Select * from /Stocks where symbol=" + "'" + "VMW" + "'"
  {
    QueryTextHasNoQuotes();
    assert Lacks("VMW", '\'') && Lacks("VMW", '"');
    QuotedWordValue("Select * from /Stocks where symbol=", "VMW");
  }
}
