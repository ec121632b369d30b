/** The stream parser (StreamConfigParser.java): a recursive-descent parser
    over the token list, with a pointer into it, for
        stream   : module ('|' module)*
        module   : identifier ('--' identifier '=' value)*
    The functions below say what each parsing step computes and where it
    leaves the pointer, also when it fails; the class holds the parser's four
    fields and its methods, each proved to do what the matching function says. */
module Parser {
  import opened Wrappers
  import opened Text
  import opened TokenKinds
  import opened Tokens
  import opened Messages
  import opened Ast

  /** What parse(String) throws: a SpelParseException carrying the expression
      (null for MORE_INPUT, whose constructor takes none), the position, the
      message and its inserts; or the NullPointerException of a stream that
      ends right after "--name=". */
  datatype ParseError =
    | SpelParseException(expression: Option<string>, position: int, message: Message, inserts: seq<Option<string>>)
    | NullPointer

  /** The outcome of a parsing step and the pointer it leaves behind. */
  datatype Step<T> = Step(result: Result<T, ParseError>, next: nat)

  /** What the tokenizer guarantees and the parser relies on: identifiers and
      string literals carry their text, and a string literal's text includes
      its two quotes. */
  predicate TokensCarryData(ts: seq<Token>) {
    forall i | 0 <= i < |ts| ::
      && (ts[i].kind == Identifier ==> ts[i].data.Some?)
      && (ts[i].kind == LiteralString ==> ts[i].data.Some? && |ts[i].data.value| >= 2)
  }

  /** raiseInternalException(pos, message, inserts). */
  function Raise(expr: string, pos: int, m: Message, inserts: seq<Option<string>>): ParseError {
    SpelParseException(Some(expr), pos, m, inserts)
  }

  /** A kind as the messages show it: its toString() in lower case. */
  function KindText(k: TokenKind): string {
    ToLower(TokenKinds.ToString(k))
  }

  /** toString(Token): the data of a payload token, else the kind's text. */
  function TokenText(t: Token): (r: Option<string>)
    ensures HasData(t) ==> r.Some?
    ensures !HasPayload(t.kind) ==> r.Some? && |r.value| == |TokenKinds.ToString(t.kind)|
  {
    if HasPayload(t.kind) then t.data else Some(KindText(t.kind))
  }

  // ---------------------------------------------------------------------------
  // The steps, as functions of the token list and the pointer

  /** peekToken(kind): there is a token, and it has that kind; an identifier is
      also accepted in the textual form of an operator (DIV through NOT with
      data, such as "ne"). */
  predicate PeekIs(ts: seq<Token>, p: nat, kind: TokenKind) {
    p < |ts| && (ts[p].kind == kind || (kind == Identifier && InOperatorRange(ts[p].kind) && ts[p].data.Some?))
  }

  /** isNextTokenAdjacent(): there is a token and it starts where the previous
      one ends. */
  predicate Adjacent(ts: seq<Token>, p: nat)
    requires 1 <= p <= |ts|
  {
    p < |ts| && ts[p].startpos == ts[p - 1].endpos
  }

  /** eatToken(kind): the next token, which must have exactly that kind. */
  function EatTokenAt(expr: string, ts: seq<Token>, p: nat, kind: TokenKind): (r: Step<Token>)
    requires p <= |ts|
    ensures r.next <= |ts|
    ensures r.result.Success? <==> p < |ts| && ts[p].kind == kind
    ensures r.result.Success? ==> r.result.value == ts[p] && r.next == p + 1
  {
    if p >= |ts| then Step(Failure(Raise(expr, |expr|, Ood, [])), p)
    else if ts[p].kind != kind then
      Step(Failure(Raise(expr, ts[p].startpos, NotExpectedToken, [Some(KindText(kind)), Some(KindText(ts[p].kind))])), p + 1)
    else Step(Success(ts[p]), p + 1)
  }

  /** The argument's name (lines 81-85): skip the "--", then an identifier
      that must follow it without a gap. */
  function ArgNameAt(expr: string, ts: seq<Token>, p: nat): (r: Step<Token>)
    requires p < |ts|
    ensures p < r.next <= |ts|
    ensures r.result.Success? ==> r.next - 1 > p && r.result.value == ts[r.next - 1] && r.result.value.kind == Identifier
  {
    var q := p + 1;
    if PeekIs(ts, q, Identifier) && !Adjacent(ts, q) then
      Step(Failure(Raise(expr, ts[q].startpos, NoWhitespaceBeforeArgName, [])), q)
    else EatTokenAt(expr, ts, q, Identifier)
  }

  /** After "--" the name is checked for a gap first: an identifier, or a
      textual operator such as "ne", that does not follow the "--" directly
      is reported at its start, and the pointer stays on it. */
  lemma ArgNameGapFails(expr: string, ts: seq<Token>, p: nat)
    requires p + 1 < |ts| && PeekIs(ts, p + 1, Identifier) && !Adjacent(ts, p + 1)
    ensures ArgNameAt(expr, ts, p) == Step(Failure(Raise(expr, ts[p + 1].startpos, NoWhitespaceBeforeArgName, [])), p + 1)
  {
  }

  /** The "=" (lines 86-89), which must follow the name without a gap. */
  function ArgEqualsAt(expr: string, ts: seq<Token>, p: nat): (r: Step<Token>)
    requires 1 <= p <= |ts|
    ensures p <= r.next <= |ts|
    ensures r.result.Success? ==> r.next == p + 1 && ts[p].kind == Equals
  {
    if PeekIs(ts, p, Equals) && !Adjacent(ts, p) then
      Step(Failure(Raise(expr, ts[p].startpos, NoWhitespaceBeforeArgEquals, [])), p)
    else EatTokenAt(expr, ts, p, Equals)
  }

  /** The value (lines 90-103), which must follow the "=" without a gap when
      it is identifier-like: an identifier's text, or a string literal's text
      unescaped; paired with the value token's end. */
  function ArgValueAt(expr: string, ts: seq<Token>, p: nat): (r: Step<(string, int)>)
    requires 1 <= p <= |ts| && TokensCarryData(ts)
    ensures p <= r.next <= |ts|
    ensures r.result.Success? ==> r.next == p + 1 && r.result.value.1 == ts[p].endpos
  {
    if PeekIs(ts, p, Identifier) && !Adjacent(ts, p) then
      Step(Failure(Raise(expr, ts[p].startpos, NoWhitespaceBeforeArgValue, [])), p)
    else if p == |ts| then Step(Failure(NullPointer), p)
    else if ts[p].kind == Identifier then Step(Success((ts[p].data.value, ts[p].endpos)), p + 1)
    else if ts[p].kind == LiteralString then Step(Success((Unescape(ts[p].data.value), ts[p].endpos)), p + 1)
    else Step(Failure(Raise(expr, ts[p].startpos, ExpectedArgumentValue, [ts[p].data])), p)
  }

  /** One argument: the loop body of maybeEatModuleArgs(), entered with the
      pointer at the "--". The argument starts two characters before its name. */
  function ArgAt(expr: string, ts: seq<Token>, p: nat): (r: Step<ArgumentNode>)
    requires p < |ts| && TokensCarryData(ts)
    ensures p < r.next <= |ts|
  {
    var name := ArgNameAt(expr, ts, p);
    match name.result
    case Failure(e) => Step(Failure(e), name.next)
    case Success(argName) =>
      var eq := ArgEqualsAt(expr, ts, name.next);
      match eq.result
      case Failure(e) => Step(Failure(e), eq.next)
      case Success(_) =>
        var v := ArgValueAt(expr, ts, eq.next);
        match v.result
        case Failure(e) => Step(Failure(e), v.next)
        case Success(value) =>
          Step(Success(ArgumentNode(argName.data.value, value.0, argName.startpos - 2, value.1)), v.next)
  }

  /** The argument list so far: null until the first argument. */
  function Added(acc: Option<seq<ArgumentNode>>, a: ArgumentNode): seq<ArgumentNode> {
    match acc
    case None => [a]
    case Some(xs) => xs + [a]
  }

  /** maybeEatModuleArgs(), with the arguments read so far in acc. */
  function ArgsFrom(expr: string, ts: seq<Token>, p: nat, acc: Option<seq<ArgumentNode>>): (r: Step<Option<seq<ArgumentNode>>>)
    requires p <= |ts| && TokensCarryData(ts)
    ensures p <= r.next <= |ts|
    decreases |ts| - p
  {
    if PeekIs(ts, p, DoubleMinus) then
      var a := ArgAt(expr, ts, p);
      match a.result
      case Failure(e) => Step(Failure(e), a.next)
      case Success(arg) => ArgsFrom(expr, ts, a.next, Some(Added(acc, arg)))
    else Step(Success(acc), p)
  }

  /** eatModule(): a name and its arguments. */
  function ModuleAt(expr: string, ts: seq<Token>, p: nat): (r: Step<ModuleNode>)
    requires p <= |ts| && TokensCarryData(ts)
    ensures r.next <= |ts|
    ensures r.result.Success? ==> p < r.next
  {
    var name := EatTokenAt(expr, ts, p, Identifier);
    match name.result
    case Failure(e) => Step(Failure(e), name.next)
    case Success(t) =>
      var args := ArgsFrom(expr, ts, name.next, None);
      match args.result
      case Failure(e) => Step(Failure(e), args.next)
      case Success(a) => Step(Success(ModuleNode(t.data.value, t.startpos, t.endpos, a)), args.next)
  }

  /** One turn of the loop of eatStream(): a "|" and the module after it;
      any other token is unexpected there. */
  function PipedModuleAt(expr: string, ts: seq<Token>, p: nat): (r: Step<ModuleNode>)
    requires p < |ts| && TokensCarryData(ts)
    ensures r.next <= |ts|
    ensures r.result.Success? ==> p + 1 < r.next
    ensures ts[p].kind != Pipe ==> r.next == p
  {
    if ts[p].kind == Pipe then ModuleAt(expr, ts, p + 1)
    else Step(Failure(Raise(expr, ts[p].startpos, UnexpectedDataAfterModule, [TokenText(ts[p])])), p)
  }

  /** The loop of eatStream(), with the modules read so far in acc. */
  function StreamFrom(expr: string, ts: seq<Token>, p: nat, acc: seq<ModuleNode>): (r: Step<seq<ModuleNode>>)
    requires p <= |ts| && TokensCarryData(ts)
    ensures r.next <= |ts|
    ensures r.result.Success? ==> |r.result.value| >= |acc| && r.result.value[..|acc|] == acc
    decreases |ts| - p
  {
    if p == |ts| then Step(Success(acc), p)
    else
      var m := PipedModuleAt(expr, ts, p);
      match m.result
      case Failure(e) => Step(Failure(e), m.next)
      case Success(mod) =>
        var r := StreamFrom(expr, ts, m.next, acc + [mod]);
        assert r.result.Success? ==> r.result.value[..|acc|] == (acc + [mod])[..|acc|];
        r
  }

  /** eatStream(): the first module, then the loop. */
  function EatStreamAt(expr: string, ts: seq<Token>, p: nat): (r: Step<StreamNode>)
    requires p <= |ts| && TokensCarryData(ts)
    ensures r.next <= |ts|
  {
    var first := ModuleAt(expr, ts, p);
    match first.result
    case Failure(e) => Step(Failure(e), first.next)
    case Success(m) =>
      var rest := StreamFrom(expr, ts, first.next, [m]);
      match rest.result
      case Failure(e) => Step(Failure(e), rest.next)
      case Success(ms) => Step(Success(MakeStreamNode(expr, ms)), rest.next)
  }

  /** parse(stream), given the tokens the tokenizer makes of it. */
  function ParseTokens(expr: string, ts: seq<Token>): (r: Step<StreamNode>)
    requires TokensCarryData(ts)
    ensures r.next <= |ts| + 1
    ensures r.result.Success? ==> r.next == |ts|
  {
    var st := EatStreamAt(expr, ts, 0);
    match st.result
    case Failure(_) => st
    case Success(_) =>
      if st.next < |ts| then
        Step(Failure(SpelParseException(None, ts[st.next].startpos, MoreInput, [TokenText(ts[st.next])])), st.next + 1)
      else st
  }

  // ---------------------------------------------------------------------------
  // The value of a quoted argument

  /** String.replaceAll of a doubled character c by a single one: scans left
      to right and replaces non-overlapping pairs. */
  function CollapsePairs(s: string, c: char): (r: string)
    ensures |r| <= |s|
  {
    if |s| < 2 then s
    else if s[0] == c && s[1] == c then [c] + CollapsePairs(s[2..], c)
    else [s[0]] + CollapsePairs(s[1..], c)
  }

  /** The value of a LITERAL_STRING argument: the text inside the quotes, with
      '' and then "" collapsed, whichever quote delimits it. */
  function Unescape(data: string): (r: string)
    requires |data| >= 2
    ensures |r| <= |data| - 2
  {
    CollapsePairs(CollapsePairs(data[1..|data| - 1], '\''), '"')
  }

  // ---------------------------------------------------------------------------
  // The parser object

  class StreamConfigParser {
    var expressionString: string
    var tokenStream: seq<Token>
    var tokenStreamLength: int
    var tokenStreamPointer: int

    /** A parser that has parsed nothing yet. */
    constructor ()
      ensures expressionString == [] && tokenStream == []
      ensures tokenStreamLength == 0 && tokenStreamPointer == 0
    {
      expressionString := [];
      tokenStream := [];
      tokenStreamLength := 0;
      tokenStreamPointer := 0;
    }

    /** The length field agrees with the list, the pointer is within it, and
        the tokens carry their data. */
    predicate Valid()
      reads this
    {
      tokenStreamLength == |tokenStream| && 0 <= tokenStreamPointer <= tokenStreamLength
      && TokensCarryData(tokenStream)
    }

    /** Everything but the pointer; the steps never change it. */
    function Input(): (string, seq<Token>, int)
      reads this
    {
      (expressionString, tokenStream, tokenStreamLength)
    }

    method MoreTokens() returns (b: bool)
      requires Valid()
      ensures b <==> tokenStreamPointer < |tokenStream|
    {
      return tokenStreamPointer < |tokenStream|;
    }

    /** nextToken(): the token at the pointer, which then moves on; null at the
        end, where the pointer stays. */
    method NextToken() returns (t: Option<Token>)
      requires Valid()
      modifies this
      ensures Valid() && Input() == old(Input())
      ensures old(tokenStreamPointer) == tokenStreamLength ==>
        t == None && tokenStreamPointer == old(tokenStreamPointer)
      ensures old(tokenStreamPointer) < tokenStreamLength ==>
        t == Some(tokenStream[old(tokenStreamPointer)]) && tokenStreamPointer == old(tokenStreamPointer) + 1
    {
      if tokenStreamPointer >= tokenStreamLength {
        return None;
      }
      t := Some(tokenStream[tokenStreamPointer]);
      tokenStreamPointer := tokenStreamPointer + 1;
    }

    /** peekToken(): the token at the pointer, null at the end. */
    method PeekToken() returns (t: Option<Token>)
      requires Valid()
      ensures t == if tokenStreamPointer < tokenStreamLength then Some(tokenStream[tokenStreamPointer]) else None
    {
      if tokenStreamPointer >= tokenStreamLength {
        return None;
      }
      return Some(tokenStream[tokenStreamPointer]);
    }

    /** peekToken(kind, consumeIfMatched): whether the next token is of that
        kind (see PeekIs); only an exact match is consumed, and only when asked. */
    method PeekTokenKindAndConsume(desiredTokenKind: TokenKind, consumeIfMatched: bool) returns (b: bool)
      requires Valid()
      modifies this
      ensures Valid() && Input() == old(Input())
      ensures b == PeekIs(tokenStream, old(tokenStreamPointer), desiredTokenKind)
      ensures tokenStreamPointer == old(tokenStreamPointer) +
        (if consumeIfMatched && old(tokenStreamPointer) < |tokenStream|
            && tokenStream[old(tokenStreamPointer)].kind == desiredTokenKind then 1 else 0)
    {
      var more := MoreTokens();
      if !more {
        return false;
      }
      var peeked := PeekToken();
      var t := peeked.value;
      if t.kind == desiredTokenKind {
        if consumeIfMatched {
          tokenStreamPointer := tokenStreamPointer + 1;
        }
        return true;
      } else {
        if desiredTokenKind == Identifier {
          if Ordinal(t.kind) >= Ordinal(Div) && Ordinal(t.kind) <= Ordinal(Not) && t.data.Some? {
            return true;
          }
        }
        return false;
      }
    }

    /** peekToken(kind): the same without consuming. */
    method PeekTokenKind(desiredTokenKind: TokenKind) returns (b: bool)
      requires Valid()
      modifies this
      ensures Valid() && Input() == old(Input()) && tokenStreamPointer == old(tokenStreamPointer)
      ensures b == PeekIs(tokenStream, tokenStreamPointer, desiredTokenKind)
    {
      b := PeekTokenKindAndConsume(desiredTokenKind, false);
    }

    /** isNextTokenAdjacent(); only called once a token has been consumed. */
    method IsNextTokenAdjacent() returns (b: bool)
      requires Valid() && tokenStreamPointer >= 1
      ensures b == Adjacent(tokenStream, tokenStreamPointer)
    {
      if tokenStreamPointer >= tokenStreamLength {
        return false;
      }
      var last := tokenStream[tokenStreamPointer - 1];
      var next := tokenStream[tokenStreamPointer];
      return next.startpos == last.endpos;
    }

    /** eatToken(expectedKind). */
    method EatToken(expectedKind: TokenKind) returns (r: Result<Token, ParseError>)
      requires Valid()
      modifies this
      ensures Valid() && Input() == old(Input())
      ensures var s := EatTokenAt(expressionString, tokenStream, old(tokenStreamPointer), expectedKind);
        r == s.result && tokenStreamPointer == s.next
    {
      var t := NextToken();
      if t.None? {
        return Failure(Raise(expressionString, |expressionString|, Ood, []));
      }
      if t.value.kind != expectedKind {
        return Failure(Raise(expressionString, t.value.startpos, NotExpectedToken,
          [Some(KindText(expectedKind)), Some(KindText(t.value.kind))]));
      }
      return Success(t.value);
    }

    /** The body of the loop in maybeEatModuleArgs(), entered at a "--". */
    method EatArgument() returns (r: Result<ArgumentNode, ParseError>)
      requires Valid() && tokenStreamPointer < tokenStreamLength
      modifies this
      ensures Valid() && Input() == old(Input())
      ensures var s := ArgAt(expressionString, tokenStream, old(tokenStreamPointer));
        r == s.result && tokenStreamPointer == s.next
    {
      var argName := EatArgumentName();
      if argName.Failure? {
        return Failure(argName.error);
      }
      var eq := EatArgumentEquals();
      if eq.Failure? {
        return Failure(eq.error);
      }
      var argValue := EatArgumentValue();
      if argValue.Failure? {
        return Failure(argValue.error);
      }
      var name := argName.value;
      return Success(ArgumentNode(name.data.value, argValue.value.0, name.startpos - 2, argValue.value.1));
    }

    /** Lines 81-85 of the loop body. */
    method EatArgumentName() returns (r: Result<Token, ParseError>)
      requires Valid() && tokenStreamPointer < tokenStreamLength
      modifies this
      ensures Valid() && Input() == old(Input())
      ensures var s := ArgNameAt(expressionString, tokenStream, old(tokenStreamPointer));
        r == s.result && tokenStreamPointer == s.next
    {
      ghost var e, ts, p := expressionString, tokenStream, tokenStreamPointer;
      var dashes := NextToken();
      var named := PeekTokenKind(Identifier);
      assert expressionString == e && tokenStream == ts && tokenStreamPointer == p + 1;
      assert named == PeekIs(ts, p + 1, Identifier);
      if named {
        var adjacent := IsNextTokenAdjacent();
        assert adjacent == Adjacent(ts, p + 1);
        if !adjacent {
          var t := PeekToken();
          ArgNameGapFails(e, ts, p);
          return Failure(Raise(expressionString, t.value.startpos, NoWhitespaceBeforeArgName, []));
        }
      }
      assert !(PeekIs(ts, p + 1, Identifier) && !Adjacent(ts, p + 1));
      assert ArgNameAt(e, ts, p) == EatTokenAt(e, ts, p + 1, Identifier);
      r := EatToken(Identifier);
    }

    /** Lines 86-89 of the loop body. */
    method EatArgumentEquals() returns (r: Result<Token, ParseError>)
      requires Valid() && tokenStreamPointer >= 1
      modifies this
      ensures Valid() && Input() == old(Input())
      ensures var s := ArgEqualsAt(expressionString, tokenStream, old(tokenStreamPointer));
        r == s.result && tokenStreamPointer == s.next
    {
      ghost var e, ts, p := expressionString, tokenStream, tokenStreamPointer;
      var equals := PeekTokenKind(Equals);
      if equals {
        var adjacent := IsNextTokenAdjacent();
        if !adjacent {
          var t := PeekToken();
          assert ArgEqualsAt(e, ts, p) == Step(Failure(Raise(e, ts[p].startpos, NoWhitespaceBeforeArgEquals, [])), p);
          return Failure(Raise(expressionString, t.value.startpos, NoWhitespaceBeforeArgEquals, []));
        }
      }
      assert ArgEqualsAt(e, ts, p) == EatTokenAt(e, ts, p, Equals);
      r := EatToken(Equals);
      assert expressionString == e && tokenStream == ts;
    }

    /** Lines 90-103 of the loop body. */
    method EatArgumentValue() returns (r: Result<(string, int), ParseError>)
      requires Valid() && tokenStreamPointer >= 1
      modifies this
      ensures Valid() && Input() == old(Input())
      ensures var s := ArgValueAt(expressionString, tokenStream, old(tokenStreamPointer));
        r == s.result && tokenStreamPointer == s.next
    {
      var valued := PeekTokenKind(Identifier);
      if valued {
        var adjacent := IsNextTokenAdjacent();
        if !adjacent {
          var t := PeekToken();
          return Failure(Raise(expressionString, t.value.startpos, NoWhitespaceBeforeArgValue, []));
        }
      }
      var peeked := PeekToken();
      if peeked.None? {
        return Failure(NullPointer);
      }
      var t := peeked.value;
      var argValue;
      if t.kind == Identifier {
        argValue := t.data.value;
      } else if t.kind == LiteralString {
        argValue := Unescape(t.data.value);
      } else {
        return Failure(Raise(expressionString, t.startpos, ExpectedArgumentValue, [t.data]));
      }
      var consumed := NextToken();
      return Success((argValue, t.endpos));
    }

    /** maybeEatModuleArgs(): arguments while the next token is "--"; null
        when there are none. */
    method MaybeEatModuleArgs() returns (r: Result<Option<seq<ArgumentNode>>, ParseError>)
      requires Valid()
      modifies this
      ensures Valid() && Input() == old(Input())
      ensures var s := ArgsFrom(expressionString, tokenStream, old(tokenStreamPointer), None);
        r == s.result && tokenStreamPointer == s.next
    {
      var args: Option<seq<ArgumentNode>> := None;
      var more := PeekTokenKind(DoubleMinus);
      while more
        invariant Valid() && Input() == old(Input())
        invariant more == PeekIs(tokenStream, tokenStreamPointer, DoubleMinus)
        invariant ArgsFrom(expressionString, tokenStream, tokenStreamPointer, args)
          == ArgsFrom(expressionString, tokenStream, old(tokenStreamPointer), None)
        decreases tokenStreamLength - tokenStreamPointer
      {
        var arg := EatArgument();
        if arg.Failure? {
          return Failure(arg.error);
        }
        args := Some(Added(args, arg.value));
        more := PeekTokenKind(DoubleMinus);
      }
      return Success(args);
    }

    /** eatModule(). */
    method EatModule() returns (r: Result<ModuleNode, ParseError>)
      requires Valid()
      modifies this
      ensures Valid() && Input() == old(Input())
      ensures var s := ModuleAt(expressionString, tokenStream, old(tokenStreamPointer));
        r == s.result && tokenStreamPointer == s.next
    {
      var moduleName := EatToken(Identifier);
      if moduleName.Failure? {
        return Failure(moduleName.error);
      }
      var args := MaybeEatModuleArgs();
      if args.Failure? {
        return Failure(args.error);
      }
      var t := moduleName.value;
      return Success(ModuleNode(t.data.value, t.startpos, t.endpos, args.value));
    }

    /** eatStream(). */
    method EatStream() returns (r: Result<StreamNode, ParseError>)
      requires Valid()
      modifies this
      ensures Valid() && Input() == old(Input())
      ensures var s := EatStreamAt(expressionString, tokenStream, old(tokenStreamPointer));
        r == s.result && tokenStreamPointer == s.next
    {
      ghost var e, ts := expressionString, tokenStream;
      var first := EatModule();
      if first.Failure? {
        return Failure(first.error);
      }
      ghost var spec := StreamFrom(e, ts, tokenStreamPointer, [first.value]);
      var moduleNodes := [first.value];
      var more := MoreTokens();
      while more
        invariant Valid() && Input() == old(Input())
        invariant more == (tokenStreamPointer < tokenStreamLength)
        invariant StreamFrom(e, ts, tokenStreamPointer, moduleNodes) == spec
        decreases tokenStreamLength - tokenStreamPointer
      {
        var m := EatPipedModule();
        if m.Failure? {
          return Failure(m.error);
        }
        moduleNodes := moduleNodes + [m.value];
        more := MoreTokens();
      }
      return Success(MakeStreamNode(expressionString, moduleNodes));
    }

    /** One turn of the loop of eatStream(). */
    method EatPipedModule() returns (r: Result<ModuleNode, ParseError>)
      requires Valid() && tokenStreamPointer < tokenStreamLength
      modifies this
      ensures Valid() && Input() == old(Input())
      ensures var s := PipedModuleAt(expressionString, tokenStream, old(tokenStreamPointer));
        r == s.result && tokenStreamPointer == s.next
    {
      ghost var e, ts, p := expressionString, tokenStream, tokenStreamPointer;
      var peeked := PeekToken();
      var t := peeked.value;
      if t.kind != Pipe {
        assert PipedModuleAt(e, ts, p) == Step(Failure(Raise(e, ts[p].startpos, UnexpectedDataAfterModule, [TokenText(ts[p])])), p);
        return Failure(Raise(expressionString, t.startpos, UnexpectedDataAfterModule, [TokenText(t)]));
      }
      r := EatModuleAfterPipe();
    }

    /** The "|" is skipped, then a module follows. */
    method EatModuleAfterPipe() returns (r: Result<ModuleNode, ParseError>)
      requires Valid() && tokenStreamPointer < tokenStreamLength && tokenStream[tokenStreamPointer].kind == Pipe
      modifies this
      ensures Valid() && Input() == old(Input())
      ensures var s := PipedModuleAt(expressionString, tokenStream, old(tokenStreamPointer));
        r == s.result && tokenStreamPointer == s.next
    {
      ghost var e, ts, p := expressionString, tokenStream, tokenStreamPointer;
      assert PipedModuleAt(e, ts, p) == ModuleAt(e, ts, p + 1);
      var pipe := NextToken();
      r := EatModule();
    }

    /** parse(stream), with the tokenizer's output passed in. */
    method Parse(stream: string, tokens: seq<Token>) returns (r: Result<StreamNode, ParseError>)
      requires TokensCarryData(tokens)
      modifies this
      ensures Valid() && expressionString == stream && tokenStream == tokens
      ensures r == ParseTokens(stream, tokens).result && tokenStreamPointer == ParseTokens(stream, tokens).next
    {
      expressionString := stream;
      tokenStream := tokens;
      tokenStreamLength := |tokens|;
      tokenStreamPointer := 0;
      var ast := EatStream();
      if ast.Failure? {
        return ast;
      }
      var more := MoreTokens();
      if more {
        var peeked := PeekToken();
        var next := NextToken();
        return Failure(SpelParseException(None, peeked.value.startpos, MoreInput, [TokenText(next.value)]));
      }
      return ast;
    }
  }
}
