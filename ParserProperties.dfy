/** Properties of the stream parser: what it accepts, that it reads every
    token of what it accepts (so MORE_INPUT is never raised), how many modules
    it makes, and where its errors point. */
module ParserProperties {
  import opened Wrappers
  import opened TokenKinds
  import opened Tokens
  import opened Messages
  import opened Ast
  import opened Parser

  // ---------------------------------------------------------------------------
  // The syntax of one argument, stated on the tokens

  /** Four tokens "--", name, "=", value from p on: the name an identifier
      directly after the "--", the "=" directly after the name, and the value
      an identifier directly after the "=" or a quoted string anywhere after it. */
  predicate IsArgument(ts: seq<Token>, p: nat) {
    && p + 4 <= |ts|
    && ts[p].kind == DoubleMinus
    && ts[p + 1].kind == Identifier && ts[p + 1].startpos == ts[p].endpos
    && ts[p + 2].kind == Equals && ts[p + 2].startpos == ts[p + 1].endpos
    && (|| (ts[p + 3].kind == Identifier && ts[p + 3].startpos == ts[p + 2].endpos)
        || ts[p + 3].kind == LiteralString)
  }

  /** The value an argument's value token stands for. */
  function ValueOf(t: Token): string
    requires t.kind == Identifier || t.kind == LiteralString
    requires t.data.Some? && (t.kind == LiteralString ==> |t.data.value| >= 2)
  {
    if t.kind == Identifier then t.data.value else Unescape(t.data.value)
  }

  /** The argument those four tokens make. */
  function ArgumentOf(ts: seq<Token>, p: nat): ArgumentNode
    requires TokensCarryData(ts) && IsArgument(ts, p)
  {
    ArgumentNode(ts[p + 1].data.value, ValueOf(ts[p + 3]), ts[p + 1].startpos - 2, ts[p + 3].endpos)
  }

  /** With the pointer at a "--", the argument is read exactly when the four
      tokens have the argument syntax; it then spans from two characters
      before the name to the end of the value, and the pointer moves past it. */
  lemma ArgumentSyntax(expr: string, ts: seq<Token>, p: nat)
    requires p < |ts| && TokensCarryData(ts) && ts[p].kind == DoubleMinus
    ensures ArgAt(expr, ts, p).result.Success? <==> IsArgument(ts, p)
    ensures IsArgument(ts, p) ==>
      ArgAt(expr, ts, p).next == p + 4 && ArgAt(expr, ts, p).result.value == ArgumentOf(ts, p)
  {
    var name := ArgNameAt(expr, ts, p);
    if name.result.Success? {
      assert name.next == p + 2;
      var eq := ArgEqualsAt(expr, ts, name.next);
      if eq.result.Success? {
        var v := ArgValueAt(expr, ts, eq.next);
      }
    }
  }

  // ---------------------------------------------------------------------------
  // The syntax of a module and of a stream

  /** Where the run of arguments starting at p ends. */
  function ArgumentsEnd(ts: seq<Token>, p: nat): (q: nat)
    requires p <= |ts|
    ensures p <= q <= |ts|
    decreases |ts| - p
  {
    if IsArgument(ts, p) then ArgumentsEnd(ts, p + 4) else p
  }

  /** The arguments of that run, in order. */
  function ArgumentList(ts: seq<Token>, p: nat): seq<ArgumentNode>
    requires p <= |ts| && TokensCarryData(ts)
    decreases |ts| - p
  {
    if IsArgument(ts, p) then [ArgumentOf(ts, p)] + ArgumentList(ts, p + 4) else []
  }

  /** The arguments read so far followed by more; still null when there are
      none at all. */
  function Elements(acc: Option<seq<ArgumentNode>>): seq<ArgumentNode> {
    if acc.Some? then acc.value else []
  }

  function Joined(acc: Option<seq<ArgumentNode>>, xs: seq<ArgumentNode>): Option<seq<ArgumentNode>> {
    if xs == [] then acc else Some(Elements(acc) + xs)
  }

  /** A module from p: an identifier and its arguments, and no "--" right
      after them that failed to start another argument. */
  predicate IsModule(ts: seq<Token>, p: nat) {
    && p < |ts| && ts[p].kind == Identifier
    && var q := ArgumentsEnd(ts, p + 1); q == |ts| || ts[q].kind != DoubleMinus
  }

  /** Where a module from p ends. */
  function ModuleEnd(ts: seq<Token>, p: nat): (q: nat)
    requires p < |ts|
    ensures p < q <= |ts|
  {
    ArgumentsEnd(ts, p + 1)
  }

  /** The node of a module from p: its name token's text and span (the
      arguments do not widen it), and its arguments, null when it has none. */
  function ModuleOf(ts: seq<Token>, p: nat): ModuleNode
    requires TokensCarryData(ts) && IsModule(ts, p)
  {
    var xs := ArgumentList(ts, p + 1);
    ModuleNode(ts[p].data.value, ts[p].startpos, ts[p].endpos, if xs == [] then None else Some(xs))
  }

  /** The rest of a stream from p: nothing, or "|" and a module and the rest. */
  predicate IsStreamRest(ts: seq<Token>, p: nat)
    requires p <= |ts|
    decreases |ts| - p
  {
    p == |ts| || (ts[p].kind == Pipe && IsModule(ts, p + 1) && IsStreamRest(ts, ModuleEnd(ts, p + 1)))
  }

  /** The modules of that rest, in order. */
  function ModuleList(ts: seq<Token>, p: nat): seq<ModuleNode>
    requires p <= |ts| && TokensCarryData(ts) && IsStreamRest(ts, p)
    decreases |ts| - p
  {
    if p == |ts| then [] else [ModuleOf(ts, p + 1)] + ModuleList(ts, ModuleEnd(ts, p + 1))
  }

  /** A whole stream: a module from the first token and the rest after it. */
  predicate IsStream(ts: seq<Token>) {
    IsModule(ts, 0) && IsStreamRest(ts, ModuleEnd(ts, 0))
  }

  /** What the loop of maybeEatModuleArgs() does from p: it reads exactly
      the run of arguments and fails exactly when a "--" follows that run; it
      appends the run's arguments to those read so far. */
  predicate ArgumentsAgree(expr: string, ts: seq<Token>, p: nat, acc: Option<seq<ArgumentNode>>)
    requires p <= |ts| && TokensCarryData(ts)
  {
    var r := ArgsFrom(expr, ts, p, acc);
    var q := ArgumentsEnd(ts, p);
    && (r.result.Success? <==> (q == |ts| || ts[q].kind != DoubleMinus))
    && (r.result.Success? ==> r.next == q && r.result.value == Joined(acc, ArgumentList(ts, p)))
  }

  lemma {:induction false} ArgumentsSyntax(expr: string, ts: seq<Token>, p: nat, acc: Option<seq<ArgumentNode>>)
    requires p <= |ts| && TokensCarryData(ts)
    ensures ArgumentsAgree(expr, ts, p, acc)
    decreases |ts| - p, 1
  {
    if !PeekIs(ts, p, DoubleMinus) {
      ArgumentsStop(expr, ts, p, acc);
    } else if IsArgument(ts, p) {
      ArgumentsMore(expr, ts, p, acc);
    } else {
      ArgumentsBad(expr, ts, p, acc);
    }
  }

  /** No "--": the loop stops with what it has. */
  lemma ArgumentsStop(expr: string, ts: seq<Token>, p: nat, acc: Option<seq<ArgumentNode>>)
    requires p <= |ts| && TokensCarryData(ts) && !PeekIs(ts, p, DoubleMinus)
    ensures ArgumentsAgree(expr, ts, p, acc)
  {
  }

  /** A "--" that does not start a well-formed argument makes the loop fail. */
  lemma ArgumentsBad(expr: string, ts: seq<Token>, p: nat, acc: Option<seq<ArgumentNode>>)
    requires p <= |ts| && TokensCarryData(ts) && PeekIs(ts, p, DoubleMinus) && !IsArgument(ts, p)
    ensures ArgumentsAgree(expr, ts, p, acc)
  {
    ArgumentSyntax(expr, ts, p);
  }

  /** A well-formed argument at a "--" is read and the loop goes on after it. */
  lemma {:induction false} ArgumentsMore(expr: string, ts: seq<Token>, p: nat, acc: Option<seq<ArgumentNode>>)
    requires p <= |ts| && TokensCarryData(ts) && PeekIs(ts, p, DoubleMinus) && IsArgument(ts, p)
    ensures ArgumentsAgree(expr, ts, p, acc)
    decreases |ts| - p, 0
  {
    var a := ArgumentOf(ts, p);
    ArgumentSyntax(expr, ts, p);
    assert ArgsFrom(expr, ts, p, acc) == ArgsFrom(expr, ts, p + 4, Some(Added(acc, a)));
    ArgumentsSyntax(expr, ts, p + 4, Some(Added(acc, a)));
    JoinedAdded(acc, a, ArgumentList(ts, p + 4));
  }

  /** Appending one argument and then more is appending both. */
  lemma JoinedAdded(acc: Option<seq<ArgumentNode>>, a: ArgumentNode, xs: seq<ArgumentNode>)
    ensures Joined(Some(Added(acc, a)), xs) == Joined(acc, [a] + xs)
  {
    assert Added(acc, a) == Elements(acc) + [a];
    if xs == [] {
      assert [a] + xs == [a];
    } else {
      assert (Elements(acc) + [a]) + xs == Elements(acc) + ([a] + xs);
    }
  }

  /** eatModule() succeeds exactly on the module syntax, reads the whole
      module and makes its node. */
  lemma ModuleSyntax(expr: string, ts: seq<Token>, p: nat)
    requires p <= |ts| && TokensCarryData(ts)
    ensures ModuleAt(expr, ts, p).result.Success? <==> IsModule(ts, p)
    ensures IsModule(ts, p) ==>
      ModuleAt(expr, ts, p).next == ModuleEnd(ts, p) && ModuleAt(expr, ts, p).result.value == ModuleOf(ts, p)
  {
    if p < |ts| && ts[p].kind == Identifier {
      ArgumentsSyntax(expr, ts, p + 1, None);
      assert Elements(None) + ArgumentList(ts, p + 1) == ArgumentList(ts, p + 1);
    }
  }

  /** One turn of the loop of eatStream() succeeds exactly on a "|" followed
      by a module, and reads both. */
  lemma PipedModuleSyntax(expr: string, ts: seq<Token>, p: nat)
    requires p < |ts| && TokensCarryData(ts)
    ensures PipedModuleAt(expr, ts, p).result.Success? <==> ts[p].kind == Pipe && IsModule(ts, p + 1)
    ensures ts[p].kind == Pipe && IsModule(ts, p + 1) ==>
      PipedModuleAt(expr, ts, p).next == ModuleEnd(ts, p + 1)
      && PipedModuleAt(expr, ts, p).result.value == ModuleOf(ts, p + 1)
  {
    if ts[p].kind == Pipe {
      ModuleSyntax(expr, ts, p + 1);
    }
  }

  /** What the loop of eatStream() does from p: it succeeds exactly on the
      rest of a stream, then reads all tokens and appends the rest's modules
      to those read so far. */
  predicate StreamAgrees(expr: string, ts: seq<Token>, p: nat, acc: seq<ModuleNode>)
    requires p <= |ts| && TokensCarryData(ts)
  {
    var r := StreamFrom(expr, ts, p, acc);
    && (r.result.Success? <==> IsStreamRest(ts, p))
    && (IsStreamRest(ts, p) ==> r.next == |ts| && r.result.value == acc + ModuleList(ts, p))
  }

  lemma {:induction false} StreamSyntax(expr: string, ts: seq<Token>, p: nat, acc: seq<ModuleNode>)
    requires p <= |ts| && TokensCarryData(ts)
    ensures StreamAgrees(expr, ts, p, acc)
    decreases |ts| - p, 1
  {
    if p == |ts| {
      assert acc + [] == acc;
    } else if ts[p].kind == Pipe && IsModule(ts, p + 1) {
      StreamMore(expr, ts, p, acc);
    } else {
      StreamBad(expr, ts, p, acc);
    }
  }

  /** Anything but "|" and a module stops the loop with an error. */
  lemma StreamBad(expr: string, ts: seq<Token>, p: nat, acc: seq<ModuleNode>)
    requires p < |ts| && TokensCarryData(ts) && !(ts[p].kind == Pipe && IsModule(ts, p + 1))
    ensures StreamAgrees(expr, ts, p, acc)
  {
    PipedModuleSyntax(expr, ts, p);
  }

  /** A "|" and a module: the loop goes on after them. */
  lemma {:induction false} StreamMore(expr: string, ts: seq<Token>, p: nat, acc: seq<ModuleNode>)
    requires p < |ts| && TokensCarryData(ts) && ts[p].kind == Pipe && IsModule(ts, p + 1)
    ensures StreamAgrees(expr, ts, p, acc)
    decreases |ts| - p, 0
  {
    var m := ModuleOf(ts, p + 1);
    var q := ModuleEnd(ts, p + 1);
    PipedModuleSyntax(expr, ts, p);
    StreamFromStep(expr, ts, p, acc);
    StreamSyntax(expr, ts, q, acc + [m]);
    StreamRestStep(ts, p);
    if IsStreamRest(ts, q) {
      assert (acc + [m]) + ModuleList(ts, q) == acc + ([m] + ModuleList(ts, q));
    }
  }

  /** A "|" and a module begin the rest of a stream exactly when the rest
      goes on after them, and they add that module in front. */
  lemma StreamRestStep(ts: seq<Token>, p: nat)
    requires p < |ts| && TokensCarryData(ts) && ts[p].kind == Pipe && IsModule(ts, p + 1)
    ensures IsStreamRest(ts, p) <==> IsStreamRest(ts, ModuleEnd(ts, p + 1))
    ensures IsStreamRest(ts, p) ==> ModuleList(ts, p) == [ModuleOf(ts, p + 1)] + ModuleList(ts, ModuleEnd(ts, p + 1))
  {
  }

  /** One turn of the stream loop after a piped module. */
  lemma StreamFromStep(expr: string, ts: seq<Token>, p: nat, acc: seq<ModuleNode>)
    requires p < |ts| && TokensCarryData(ts) && PipedModuleAt(expr, ts, p).result.Success?
    ensures var m := PipedModuleAt(expr, ts, p);
      StreamFrom(expr, ts, p, acc) == StreamFrom(expr, ts, m.next, acc + [m.result.value])
  {
  }

  /** The modules of a whole stream, in order. */
  function StreamModules(ts: seq<Token>): seq<ModuleNode>
    requires TokensCarryData(ts) && IsStream(ts)
  {
    [ModuleOf(ts, 0)] + ModuleList(ts, ModuleEnd(ts, 0))
  }

  /** eatStream() from p succeeds exactly on a stream, reads all its tokens
      and makes the stream node of its modules. */
  lemma EatStreamSyntax(expr: string, ts: seq<Token>, p: nat)
    requires p <= |ts| && TokensCarryData(ts)
    ensures EatStreamAt(expr, ts, p).result.Success? <==> IsModule(ts, p) && IsStreamRest(ts, ModuleEnd(ts, p))
    ensures IsModule(ts, p) && IsStreamRest(ts, ModuleEnd(ts, p)) ==>
      && EatStreamAt(expr, ts, p).next == |ts|
      && EatStreamAt(expr, ts, p).result.value
         == MakeStreamNode(expr, [ModuleOf(ts, p)] + ModuleList(ts, ModuleEnd(ts, p)))
  {
    ModuleSyntax(expr, ts, p);
    if IsModule(ts, p) {
      StreamSyntax(expr, ts, ModuleEnd(ts, p), [ModuleOf(ts, p)]);
    }
  }

  /** parse(stream): MORE_INPUT is never raised, since eatStream() only
      succeeds having read every token; so parse succeeds exactly on the
      token lists that form a stream, with the stream node of its modules. */
  lemma ParseSyntax(expr: string, ts: seq<Token>)
    requires TokensCarryData(ts)
    ensures ParseTokens(expr, ts) == EatStreamAt(expr, ts, 0)
    ensures ParseTokens(expr, ts).result.Success? <==> IsStream(ts)
    ensures IsStream(ts) ==>
      ParseTokens(expr, ts).next == |ts|
      && ParseTokens(expr, ts).result.value == MakeStreamNode(expr, StreamModules(ts))
  {
    EatStreamSyntax(expr, ts, 0);
  }

  // ---------------------------------------------------------------------------
  // One module per "|", plus one

  /** The number of "|" tokens from lo to hi. */
  function PipeCount(ts: seq<Token>, lo: nat, hi: nat): nat
    requires lo <= hi <= |ts|
    decreases hi - lo
  {
    if lo == hi then 0 else (if ts[lo].kind == Pipe then 1 else 0) + PipeCount(ts, lo + 1, hi)
  }

  lemma {:induction false} PipeCountSplit(ts: seq<Token>, lo: nat, mid: nat, hi: nat)
    requires lo <= mid <= hi <= |ts|
    ensures PipeCount(ts, lo, hi) == PipeCount(ts, lo, mid) + PipeCount(ts, mid, hi)
    decreases mid - lo
  {
    if lo < mid {
      PipeCountSplit(ts, lo + 1, mid, hi);
    }
  }

  /** Arguments hold no "|". */
  lemma {:induction false} ArgumentsHaveNoPipe(ts: seq<Token>, p: nat)
    requires p <= |ts|
    ensures PipeCount(ts, p, ArgumentsEnd(ts, p)) == 0
    decreases |ts| - p
  {
    if IsArgument(ts, p) {
      assert PipeCount(ts, p + 4, p + 4) == 0;
      assert PipeCount(ts, p + 3, p + 4) == 0;
      assert PipeCount(ts, p + 1, p + 4) == 0;
      assert PipeCount(ts, p, p + 4) == 0;
      PipeCountSplit(ts, p, p + 4, ArgumentsEnd(ts, p + 4));
      ArgumentsHaveNoPipe(ts, p + 4);
    }
  }

  /** A module holds no "|", so a "|" and a module hold one. */
  lemma ModuleHasNoPipe(ts: seq<Token>, p: nat)
    requires 1 <= p < |ts| && ts[p].kind == Identifier
    ensures PipeCount(ts, p - 1, ModuleEnd(ts, p)) == if ts[p - 1].kind == Pipe then 1 else 0
  {
    PipeCountSplit(ts, p - 1, p + 1, ModuleEnd(ts, p));
    ArgumentsHaveNoPipe(ts, p + 1);
  }

  /** The rest of a stream holds one "|" per module. */
  lemma {:induction false} PipesSeparateModules(ts: seq<Token>, p: nat)
    requires p <= |ts| && TokensCarryData(ts) && IsStreamRest(ts, p)
    ensures PipeCount(ts, p, |ts|) == |ModuleList(ts, p)|
    decreases |ts| - p
  {
    if p < |ts| {
      var q := ModuleEnd(ts, p + 1);
      ModuleHasNoPipe(ts, p + 1);
      PipeCountSplit(ts, p, q, |ts|);
      PipesSeparateModules(ts, q);
    }
  }

  /** A parsed stream has one module more than it has "|" tokens. */
  lemma ModuleCount(ts: seq<Token>)
    requires TokensCarryData(ts) && IsStream(ts)
    ensures |StreamModules(ts)| == PipeCount(ts, 0, |ts|) + 1
  {
    var q := ModuleEnd(ts, 0);
    PipeCountSplit(ts, 0, 1, q);
    PipeCountSplit(ts, 0, q, |ts|);
    ArgumentsHaveNoPipe(ts, 1);
    PipesSeparateModules(ts, q);
  }

  // ---------------------------------------------------------------------------
  // Where errors point

  /** An error of a step that started at p: it names the expression and points
      at its end (when the tokens ran out) or at the start of a token at or
      after p; a NullPointerException only comes when the tokens end right
      after an "=". */
  predicate Locates(expr: string, ts: seq<Token>, p: nat, e: ParseError) {
    match e
    case NullPointer => 0 < |ts| && ts[|ts| - 1].kind == Equals
    case SpelParseException(x, pos, m, _) =>
      && x == Some(expr)
      && if m == Ood then pos == |expr| else exists i | p <= i < |ts| :: ts[i].startpos == pos
  }

  predicate FailsWithin<T>(expr: string, ts: seq<Token>, p: nat, r: Result<T, ParseError>) {
    r.Failure? ==> Locates(expr, ts, p, r.error)
  }

  /** What an error points at from q, it points at from any p before q. */
  lemma LocatesFromEarlier(expr: string, ts: seq<Token>, p: nat, q: nat, e: ParseError)
    requires p <= q && Locates(expr, ts, q, e)
    ensures Locates(expr, ts, p, e)
  {
    if e.SpelParseException? && e.message != Ood {
      var i :| q <= i < |ts| && ts[i].startpos == e.position;
      assert p <= i;
    }
  }

  lemma EatTokenErrors(expr: string, ts: seq<Token>, p: nat, kind: TokenKind)
    requires p <= |ts|
    ensures FailsWithin(expr, ts, p, EatTokenAt(expr, ts, p, kind).result)
  {
    if p < |ts| && ts[p].kind != kind {
      assert ts[p].startpos == EatTokenAt(expr, ts, p, kind).result.error.position;
    }
  }

  lemma ArgumentErrors(expr: string, ts: seq<Token>, p: nat)
    requires p < |ts| && TokensCarryData(ts)
    ensures FailsWithin(expr, ts, p, ArgAt(expr, ts, p).result)
  {
    var name := ArgNameAt(expr, ts, p);
    ArgNameErrors(expr, ts, p);
    if name.result.Success? {
      var eq := ArgEqualsAt(expr, ts, name.next);
      ArgEqualsErrors(expr, ts, name.next);
      LocatesFromEarlierResult(expr, ts, p, name.next, eq.result);
      if eq.result.Success? {
        ArgValueErrors(expr, ts, eq.next);
        LocatesFromEarlierResult(expr, ts, p, eq.next, ArgValueAt(expr, ts, eq.next).result);
      }
    }
  }

  lemma LocatesFromEarlierResult<T>(expr: string, ts: seq<Token>, p: nat, q: nat, r: Result<T, ParseError>)
    requires p <= q && FailsWithin(expr, ts, q, r)
    ensures FailsWithin(expr, ts, p, r)
  {
    if r.Failure? {
      LocatesFromEarlier(expr, ts, p, q, r.error);
    }
  }

  lemma ArgNameErrors(expr: string, ts: seq<Token>, p: nat)
    requires p < |ts|
    ensures FailsWithin(expr, ts, p, ArgNameAt(expr, ts, p).result)
  {
    var q := p + 1;
    if PeekIs(ts, q, Identifier) && !Adjacent(ts, q) {
      assert ts[q].startpos == ArgNameAt(expr, ts, p).result.error.position;
    } else {
      EatTokenErrors(expr, ts, q, Identifier);
      LocatesFromEarlierResult(expr, ts, p, q, EatTokenAt(expr, ts, q, Identifier).result);
    }
  }

  lemma ArgEqualsErrors(expr: string, ts: seq<Token>, p: nat)
    requires 1 <= p <= |ts|
    ensures FailsWithin(expr, ts, p, ArgEqualsAt(expr, ts, p).result)
  {
    if PeekIs(ts, p, Equals) && !Adjacent(ts, p) {
      assert ts[p].startpos == ArgEqualsAt(expr, ts, p).result.error.position;
    } else {
      EatTokenErrors(expr, ts, p, Equals);
    }
  }

  lemma ArgValueErrors(expr: string, ts: seq<Token>, p: nat)
    requires 1 <= p <= |ts| && TokensCarryData(ts) && ts[p - 1].kind == Equals
    ensures FailsWithin(expr, ts, p, ArgValueAt(expr, ts, p).result)
  {
    if p < |ts| {
      assert ArgValueAt(expr, ts, p).result.Failure? ==> ts[p].startpos == ArgValueAt(expr, ts, p).result.error.position;
    }
  }

  lemma {:induction false} ArgumentsErrors(expr: string, ts: seq<Token>, p: nat, acc: Option<seq<ArgumentNode>>)
    requires p <= |ts| && TokensCarryData(ts)
    ensures FailsWithin(expr, ts, p, ArgsFrom(expr, ts, p, acc).result)
    decreases |ts| - p
  {
    if PeekIs(ts, p, DoubleMinus) {
      var a := ArgAt(expr, ts, p);
      ArgumentErrors(expr, ts, p);
      if a.result.Success? {
        ArgumentsErrors(expr, ts, a.next, Some(Added(acc, a.result.value)));
        LocatesFromEarlierResult(expr, ts, p, a.next, ArgsFrom(expr, ts, a.next, Some(Added(acc, a.result.value))).result);
      }
    }
  }

  lemma ModuleErrors(expr: string, ts: seq<Token>, p: nat)
    requires p <= |ts| && TokensCarryData(ts)
    ensures FailsWithin(expr, ts, p, ModuleAt(expr, ts, p).result)
  {
    EatTokenErrors(expr, ts, p, Identifier);
    if p < |ts| && ts[p].kind == Identifier {
      ArgumentsErrors(expr, ts, p + 1, None);
      LocatesFromEarlierResult(expr, ts, p, p + 1, ArgsFrom(expr, ts, p + 1, None).result);
    }
  }

  lemma PipedModuleErrors(expr: string, ts: seq<Token>, p: nat)
    requires p < |ts| && TokensCarryData(ts)
    ensures FailsWithin(expr, ts, p, PipedModuleAt(expr, ts, p).result)
  {
    if ts[p].kind == Pipe {
      ModuleErrors(expr, ts, p + 1);
      LocatesFromEarlierResult(expr, ts, p, p + 1, ModuleAt(expr, ts, p + 1).result);
    } else {
      assert ts[p].startpos == PipedModuleAt(expr, ts, p).result.error.position;
    }
  }

  lemma {:induction false} StreamErrors(expr: string, ts: seq<Token>, p: nat, acc: seq<ModuleNode>)
    requires p <= |ts| && TokensCarryData(ts)
    ensures FailsWithin(expr, ts, p, StreamFrom(expr, ts, p, acc).result)
    decreases |ts| - p
  {
    if p < |ts| {
      var m := PipedModuleAt(expr, ts, p);
      PipedModuleErrors(expr, ts, p);
      if m.result.Success? {
        StreamErrors(expr, ts, m.next, acc + [m.result.value]);
        LocatesFromEarlierResult(expr, ts, p, m.next, StreamFrom(expr, ts, m.next, acc + [m.result.value]).result);
      }
    }
  }

  /** Every error of parse(stream) names the stream and points at its end
      (OOD) or at the start of one of its tokens. */
  lemma ParseErrors(expr: string, ts: seq<Token>)
    requires TokensCarryData(ts)
    ensures FailsWithin(expr, ts, 0, ParseTokens(expr, ts).result)
  {
    ParseSyntax(expr, ts);
    var first := ModuleAt(expr, ts, 0);
    ModuleErrors(expr, ts, 0);
    if first.result.Success? {
      StreamErrors(expr, ts, first.next, [first.result.value]);
      LocatesFromEarlierResult(expr, ts, 0, first.next, StreamFrom(expr, ts, first.next, [first.result.value]).result);
    }
  }

  // ---------------------------------------------------------------------------
  // Error cases the grammar singles out

  /** No tokens at all: the module name is missing, reported at the end. */
  lemma EmptyStreamIsOod(expr: string)
    ensures ParseTokens(expr, []) == Step(Failure(Raise(expr, |expr|, Ood, [])), 0)
  {
  }

  /** A stream must start with an identifier; anything else is reported at
      that token, naming the kind expected and the kind found. */
  lemma StreamStartsWithIdentifier(expr: string, ts: seq<Token>)
    requires TokensCarryData(ts) && 0 < |ts| && ts[0].kind != Identifier
    ensures ParseTokens(expr, ts).result
      == Failure(Raise(expr, ts[0].startpos, NotExpectedToken, [Some(KindText(Identifier)), Some(KindText(ts[0].kind))]))
  {
  }

  /** Then the name must be an identifier: a textual operator that passed the
      gap check is still refused, as the operator kind it is. */
  lemma TextualOperatorIsNoArgumentName(expr: string, ts: seq<Token>, p: nat)
    requires p + 1 < |ts| && IsTextualOperator(ts[p + 1].kind) && ts[p + 1].data.Some?
    requires ts[p + 1].startpos == ts[p].endpos
    ensures ArgNameAt(expr, ts, p).result
      == Failure(Raise(expr, ts[p + 1].startpos, NotExpectedToken, [Some(KindText(Identifier)), Some(KindText(ts[p + 1].kind))]))
  {
    var t := ts[p + 1];
    assert t.kind != Identifier;
    assert EatTokenAt(expr, ts, p + 1, Identifier).result
      == Failure(Raise(expr, t.startpos, NotExpectedToken, [Some(KindText(Identifier)), Some(KindText(t.kind))]));
  }

  /** eatToken's two failures: out of input, reported at the end of the
      text without moving, and a token of another kind, reported at that
      token after consuming it. */
  lemma EatTokenFailures(expr: string, ts: seq<Token>, p: nat, kind: TokenKind)
    requires p <= |ts|
    ensures p == |ts| ==> EatTokenAt(expr, ts, p, kind) == Step(Failure(Raise(expr, |expr|, Ood, [])), p)
    ensures p < |ts| && ts[p].kind != kind ==>
      EatTokenAt(expr, ts, p, kind)
      == Step(Failure(Raise(expr, ts[p].startpos, NotExpectedToken, [Some(KindText(kind)), Some(KindText(ts[p].kind))])), p + 1)
  {
  }

  /** Any token other than "|" after a complete module stops the stream, at
      that token, whatever modules were read before it. */
  lemma NonPipeAfterModule(expr: string, ts: seq<Token>, p: nat, acc: seq<ModuleNode>)
    requires p < |ts| && TokensCarryData(ts) && ts[p].kind != Pipe
    ensures StreamFrom(expr, ts, p, acc)
      == Step(Failure(Raise(expr, ts[p].startpos, Messages.UnexpectedDataAfterModule, [TokenText(ts[p])])), p)
  {
  }

  /** So a stream whose first module is followed by anything but "|" fails
      there. */
  lemma FirstModuleThenUnexpectedData(expr: string, ts: seq<Token>)
    requires TokensCarryData(ts) && IsModule(ts, 0)
    requires ModuleEnd(ts, 0) < |ts| && ts[ModuleEnd(ts, 0)].kind != Pipe
    ensures ParseTokens(expr, ts).result
      == Failure(Raise(expr, ts[ModuleEnd(ts, 0)].startpos, Messages.UnexpectedDataAfterModule, [TokenText(ts[ModuleEnd(ts, 0)])]))
  {
    ParseSyntax(expr, ts);
    ModuleSyntax(expr, ts, 0);
    NonPipeAfterModule(expr, ts, ModuleEnd(ts, 0), [ModuleOf(ts, 0)]);
  }

  /** A quoted value is taken whether or not a gap precedes it: the gap check
      only looks at identifiers. */
  lemma QuotedValueNeedsNoAdjacency(expr: string, ts: seq<Token>, p: nat)
    requires 1 <= p < |ts| && TokensCarryData(ts) && ts[p].kind == LiteralString
    ensures ArgValueAt(expr, ts, p) == Step(Success((Unescape(ts[p].data.value), ts[p].endpos)), p + 1)
  {
  }

  /** A textual operator such as "ne" in value position passes for an
      identifier in the gap check only: with a gap it is reported as the gap,
      without one as no value at all, with its text as the insert. */
  lemma OperatorWordIsNoValue(expr: string, ts: seq<Token>, p: nat)
    requires 1 <= p < |ts| && TokensCarryData(ts) && IsTextualOperator(ts[p].kind) && ts[p].data.Some?
    ensures !Adjacent(ts, p) ==>
      ArgValueAt(expr, ts, p).result == Failure(Raise(expr, ts[p].startpos, NoWhitespaceBeforeArgValue, []))
    ensures Adjacent(ts, p) ==>
      ArgValueAt(expr, ts, p).result == Failure(Raise(expr, ts[p].startpos, ExpectedArgumentValue, [ts[p].data]))
  {
    OperatorRangeIsTextualOperators(ts[p].kind);
    PayloadKinds(ts[p].kind);
  }

  /** Input that ends right after "=" makes the code dereference a missing
      token. */
  lemma ValueMissingIsNullPointer(expr: string, ts: seq<Token>)
    requires 1 <= |ts| && TokensCarryData(ts)
    ensures ArgValueAt(expr, ts, |ts|) == Step(Failure(NullPointer), |ts|)
  {
  }

  /** A name directly after "--" and an "=" after a gap: the argument fails
      with NO_WHITESPACE_BEFORE_ARG_EQUALS at the "=", and the pointer stays
      on it. */
  lemma ArgEqualsGapFails(expr: string, ts: seq<Token>, p: nat)
    requires p + 2 < |ts| && TokensCarryData(ts)
    requires ts[p + 1].kind == Identifier && Adjacent(ts, p + 1)
    requires ts[p + 2].kind == Equals && !Adjacent(ts, p + 2)
    ensures ArgAt(expr, ts, p) == Step(Failure(Raise(expr, ts[p + 2].startpos, NoWhitespaceBeforeArgEquals, [])), p + 2)
  {
  }

  /** A name and an "=" directly after "--", then an identifier, or a textual
      operator such as "ne", after a gap: the argument fails with
      NO_WHITESPACE_BEFORE_ARG_VALUE at the value, and the pointer stays on
      it. */
  lemma ArgValueGapFails(expr: string, ts: seq<Token>, p: nat)
    requires p + 3 < |ts| && TokensCarryData(ts)
    requires ts[p + 1].kind == Identifier && Adjacent(ts, p + 1)
    requires ts[p + 2].kind == Equals && Adjacent(ts, p + 2)
    requires PeekIs(ts, p + 3, Identifier) && !Adjacent(ts, p + 3)
    ensures ArgAt(expr, ts, p) == Step(Failure(Raise(expr, ts[p + 3].startpos, NoWhitespaceBeforeArgValue, [])), p + 3)
  {
  }

  /** With a "--" two characters long, an argument's span starts at it. */
  lemma ArgumentStartsAtDashes(ts: seq<Token>, p: nat)
    requires TokensCarryData(ts) && IsArgument(ts, p) && ts[p].endpos == ts[p].startpos + 2
    ensures ArgumentOf(ts, p).startpos == ts[p].startpos
    ensures ArgumentOf(ts, p).endpos == ts[p + 3].endpos
  {
  }

  // ---------------------------------------------------------------------------
  // Quoted values

  /** s with every c written twice, as inside a quoted string. */
  function Doubled(s: string, c: char): (r: string)
    ensures |r| >= |s|
  {
    if s == [] then []
    else if s[0] == c then [c, c] + Doubled(s[1..], c)
    else [s[0]] + Doubled(s[1..], c)
  }

  /** s holds no c. */
  predicate Lacks(s: string, c: char) {
    forall i | 0 <= i < |s| :: s[i] != c
  }

  /** Two texts without a character joined still lack it. */
  lemma LacksJoin(x: string, y: string, c: char)
    requires Lacks(x, c) && Lacks(y, c)
    ensures Lacks(x + y, c)
  {
    forall i | 0 <= i < |x + y| ensures (x + y)[i] != c {
      if i >= |x| { assert (x + y)[i] == y[i - |x|]; }
    }
  }

  /** Doubling works piece by piece. */
  lemma {:induction false} DoubledAppend(x: string, y: string, c: char)
    ensures Doubled(x + y, c) == Doubled(x, c) + Doubled(y, c)
  {
    if x == [] {
      assert x + y == y;
    } else {
      var rest := x[1..];
      assert (x + y)[0] == x[0];
      assert (x + y)[1..] == rest + y;
      DoubledAppend(rest, y, c);
      var h := if x[0] == c then [c, c] else [x[0]];
      assert Doubled(x, c) == h + Doubled(rest, c);
      assert Doubled(x + y, c) == h + (Doubled(rest, c) + Doubled(y, c));
      assert h + (Doubled(rest, c) + Doubled(y, c)) == (h + Doubled(rest, c)) + Doubled(y, c);
    }
  }

  /** Text without c is its own doubling. */
  lemma {:induction false} DoubledWithout(s: string, c: char)
    requires Lacks(s, c)
    ensures Doubled(s, c) == s
  {
    if s != [] {
      DoubledWithout(s[1..], c);
      assert [s[0]] + s[1..] == s;
    }
  }

  /** Collapsing the pairs undoes the doubling. */
  lemma {:induction false} CollapseUndoesDoubling(s: string, c: char)
    ensures CollapsePairs(Doubled(s, c), c) == s
  {
    if s != [] {
      CollapseUndoesDoubling(s[1..], c);
      var d := Doubled(s[1..], c);
      if s[0] == c {
        assert ([c, c] + d)[2..] == d;
      } else if |d| > 0 {
        assert ([s[0]] + d)[1..] == d;
        assert ([s[0]] + d)[0] != c;
      }
      assert [s[0]] + s[1..] == s;
    }
  }

  /** Text without c has no pairs to collapse. */
  lemma {:induction false} CollapseWithoutPairs(s: string, c: char)
    requires Lacks(s, c)
    ensures CollapsePairs(s, c) == s
  {
    if |s| >= 2 {
      CollapseWithoutPairs(s[1..], c);
      assert [s[0]] + s[1..] == s;
    }
  }

  /** The value of a quoted string is the text between its quotes with the
      pairs collapsed. */
  lemma UnescapeInside(q: char, x: string)
    ensures Unescape([q] + x + [q]) == CollapsePairs(CollapsePairs(x, '\''), '"')
  {
    assert ([q] + x + [q])[1..|x| + 1] == x;
  }

  /** A value written in single quotes with its apostrophes doubled reads
      back as itself, provided it holds no double quote. */
  lemma SingleQuotedRoundTrip(s: string)
    requires Lacks(s, '"')
    ensures Unescape(['\''] + Doubled(s, '\'') + ['\'']) == s
  {
    UnescapeInside('\'', Doubled(s, '\''));
    CollapseUndoesDoubling(s, '\'');
    CollapseWithoutPairs(s, '"');
  }

  /** A value written in double quotes with its double quotes doubled reads
      back as itself, provided it holds no apostrophe. */
  lemma DoubleQuotedRoundTrip(s: string)
    requires Lacks(s, '\'')
    ensures Unescape(['"'] + Doubled(s, '"') + ['"']) == s
  {
    UnescapeInside('"', Doubled(s, '"'));
    DoubledKeepsOthers(s, '"', '\'');
    CollapseWithoutPairs(Doubled(s, '"'), '\'');
    CollapseUndoesDoubling(s, '"');
  }

  /** Doubling c adds no other character. */
  lemma {:induction false} DoubledKeepsOthers(s: string, c: char, d: char)
    requires c != d && Lacks(s, d)
    ensures Lacks(Doubled(s, c), d)
  {
    if s != [] {
      DoubledKeepsOthers(s[1..], c, d);
    }
  }

  /** Both kinds of pair are collapsed whatever the delimiting quote: a value
      with its double quotes doubled reads back inside apostrophes just as
      inside double quotes. */
  lemma BothPairsCollapse(s: string)
    requires Lacks(s, '\'')
    ensures Unescape(['\''] + Doubled(s, '"') + ['\'']) == s
  {
    UnescapeInside('\'', Doubled(s, '"'));
    DoubleQuotedRoundTrip(s);
  }
}
