/** The part of java.text.MessageFormat.format(String, Object...) that the DSL
    messages use: quoting with apostrophes and plain argument elements {n}
    filled with string (or null) arguments. */
module MessageFormat {
  import opened Wrappers
  import opened Text

  /** Appends to a result that may be an IllegalArgumentException (None). */
  function Then(s: string, r: Option<string>): Option<string> {
    match r
    case None => None
    case Some(x) => Some(s + x)
  }

  /** How argument n is rendered: a missing argument as "{n}", null as "null",
      a string as itself. */
  function Argument(n: nat, args: seq<Option<string>>): string {
    if n >= |args| then "{" + NatToString(n) + "}"
    else match args[n]
      case None => "null"
      case Some(s) => s
  }

  /** The index of the first '}' at or after i, or |p| when there is none. */
  function CloseFrom(p: string, i: nat): (j: nat)
    requires i <= |p|
    ensures i <= j <= |p|
    ensures j < |p| ==> p[j] == '}'
    ensures forall k | i <= k < j :: p[k] != '}'
    decreases |p| - i
  {
    if i == |p| || p[i] == '}' then i else CloseFrom(p, i + 1)
  }

  /** No '{' from position i on: nothing that could start an element. */
  predicate BraceFree(p: string, i: nat)
    requires i <= |p|
  {
    forall k | i <= k < |p| :: p[k] != '{'
  }

  /** Formats the pattern from position i on. Outside quotes an apostrophe
      opens a quoted section and inside one it closes it; two apostrophes stand
      for one in either state; an unclosed quoted section runs to the end. An
      unquoted '{' starts an argument element, which here must be a decimal
      index followed by '}'; anything else is rejected (None). */
  function FormatAt(p: string, i: nat, args: seq<Option<string>>, inQuote: bool): Option<string>
    requires i <= |p|
    decreases |p| - i
  {
    if i == |p| then Some([])
    else if p[i] == '\'' then
      if i + 1 < |p| && p[i + 1] == '\'' then Then("'", FormatAt(p, i + 2, args, inQuote))
      else FormatAt(p, i + 1, args, !inQuote)
    else if p[i] == '{' && !inQuote then
      var close := CloseFrom(p, i + 1);
      if close == |p| || close == i + 1 || !AllDigits(p[i + 1..close]) then None
      else Then(Argument(DigitsValue(p[i + 1..close]), args), FormatAt(p, close + 1, args, false))
    else Then([p[i]], FormatAt(p, i + 1, args, inQuote))
  }

  /** MessageFormat.format(pattern, arguments). */
  function Format(pattern: string, args: seq<Option<string>>): (r: Option<string>)
    ensures BraceFree(pattern, 0) ==> r.Some?
  {
    BraceFreeFormats(pattern, 0, args, false);
    FormatAt(pattern, 0, args, false)
  }

  /** Only an element can make formatting fail. */
  lemma {:induction false} BraceFreeFormats(p: string, i: nat, args: seq<Option<string>>, inQuote: bool)
    requires i <= |p|
    ensures BraceFree(p, i) ==> FormatAt(p, i, args, inQuote).Some?
    decreases |p| - i
  {
    if i < |p| && BraceFree(p, i) {
      if p[i] == '\'' && i + 1 < |p| && p[i + 1] == '\'' {
        BraceFreeFormats(p, i + 2, args, inQuote);
      } else if p[i] == '\'' {
        BraceFreeFormats(p, i + 1, args, !inQuote);
      } else {
        BraceFreeFormats(p, i + 1, args, inQuote);
      }
    }
  }

  /** Text without apostrophes and braces. */
  predicate Plain(s: string) {
    forall k | 0 <= k < |s| :: s[k] != '\'' && s[k] != '{'
  }

  /** Plain text joined to plain text is plain. */
  lemma PlainJoin(a: string, b: string)
    requires Plain(a) && Plain(b)
    ensures Plain(a + b)
  {
    forall k | 0 <= k < |a + b| ensures (a + b)[k] != '\'' && (a + b)[k] != '{' {
      if k < |a| {
        assert (a + b)[k] == a[k];
      } else {
        assert (a + b)[k] == b[k - |a|];
      }
    }
  }

  // ---------------------------------------------------------------------------
  // One element at a time

  /** Plain text is copied, quoted or not. */
  lemma {:induction false} PlainRange(p: string, i: nat, j: nat, args: seq<Option<string>>, q: bool)
    requires i <= j <= |p|
    requires forall k | i <= k < j :: p[k] != '\'' && p[k] != '{'
    ensures FormatAt(p, i, args, q) == Then(p[i..j], FormatAt(p, j, args, q))
    decreases j - i
  {
    if i < j {
      PlainRange(p, i + 1, j, args, q);
      assert p[i..j] == [p[i]] + p[i + 1..j];
      match FormatAt(p, j, args, q)
      case None =>
      case Some(x) => assert [p[i]] + (p[i + 1..j] + x) == p[i..j] + x;
    } else {
      match FormatAt(p, j, args, q)
      case None =>
      case Some(x) => assert p[i..j] + x == x;
    }
  }

  /** A plain piece of the pattern is copied. */
  lemma PlainPiece(p: string, i: nat, piece: string, args: seq<Option<string>>, q: bool)
    requires i + |piece| <= |p| && p[i..i + |piece|] == piece && Plain(piece)
    ensures FormatAt(p, i, args, q) == Then(piece, FormatAt(p, i + |piece|, args, q))
  {
    forall k | i <= k < i + |piece| ensures p[k] != '\'' && p[k] != '{' {
      assert p[k] == piece[k - i];
    }
    PlainRange(p, i, i + |piece|, args, q);
  }

  /** A lone apostrophe switches quoting and produces nothing. */
  lemma LoneQuote(p: string, i: nat, args: seq<Option<string>>, q: bool)
    requires i < |p| && p[i] == '\'' && (i + 1 == |p| || p[i + 1] != '\'')
    ensures FormatAt(p, i, args, q) == FormatAt(p, i + 1, args, !q)
  {
  }

  /** Two apostrophes produce one and leave quoting as it was. */
  lemma DoubledQuote(p: string, i: nat, args: seq<Option<string>>, q: bool)
    requires i + 1 < |p| && p[i] == '\'' && p[i + 1] == '\''
    ensures FormatAt(p, i, args, q) == Then("'", FormatAt(p, i + 2, args, q))
  {
  }

  /** An unquoted one-digit argument element {n} produces argument n. */
  lemma DigitElement(p: string, i: nat, n: nat, args: seq<Option<string>>)
    requires n < 10 && i + 2 < |p|
    requires p[i] == '{' && p[i + 1] == DigitChar(n) && p[i + 2] == '}'
    ensures FormatAt(p, i, args, false) == Then(Argument(n, args), FormatAt(p, i + 3, args, false))
  {
    assert CloseFrom(p, i + 2) == i + 2;
    assert CloseFrom(p, i + 1) == i + 2;
    assert p[i + 1..i + 2] == [DigitChar(n)];
    assert DigitsValue([DigitChar(n)]) == n by {
      assert [DigitChar(n)][..0] == [];
    }
  }

  /** The end of the pattern. */
  lemma AtEnd(p: string, args: seq<Option<string>>, q: bool)
    ensures FormatAt(p, |p|, args, q) == Some([])
  {
  }

  // ---------------------------------------------------------------------------
  // Patterns put together

  /** Searching for '}' in b is the same inside a + b. */
  lemma {:induction false} CloseFromShift(a: string, b: string, i: nat)
    requires i <= |b|
    ensures CloseFrom(a + b, |a| + i) == |a| + CloseFrom(b, i)
    decreases |b| - i
  {
    if i < |b| {
      assert (a + b)[|a| + i] == b[i];
      if b[i] != '}' {
        CloseFromShift(a, b, i + 1);
      }
    }
  }

  /** Formatting the b part of a + b does not depend on a. */
  lemma {:induction false} FormatShift(a: string, b: string, i: nat, args: seq<Option<string>>, q: bool)
    requires i <= |b|
    ensures FormatAt(a + b, |a| + i, args, q) == FormatAt(b, i, args, q)
    decreases |b| - i, 1
  {
    if i < |b| {
      assert (a + b)[|a| + i] == b[i];
      if b[i] == '\'' {
        QuoteShift(a, b, i, args, q);
      } else if b[i] == '{' && !q {
        ElementShift(a, b, i, args);
      } else {
        FormatShift(a, b, i + 1, args, q);
      }
    }
  }

  lemma {:induction false} QuoteShift(a: string, b: string, i: nat, args: seq<Option<string>>, q: bool)
    requires i < |b| && b[i] == '\''
    ensures FormatAt(a + b, |a| + i, args, q) == FormatAt(b, i, args, q)
    decreases |b| - i, 0
  {
    var p := a + b;
    assert p[|a| + i] == b[i];
    if i + 1 < |b| {
      assert p[|a| + i + 1] == b[i + 1];
    }
    if i + 1 < |b| && b[i + 1] == '\'' {
      FormatShift(a, b, i + 2, args, q);
    } else {
      FormatShift(a, b, i + 1, args, !q);
    }
  }

  lemma {:induction false} ElementShift(a: string, b: string, i: nat, args: seq<Option<string>>)
    requires i < |b| && b[i] == '{'
    ensures FormatAt(a + b, |a| + i, args, false) == FormatAt(b, i, args, false)
    decreases |b| - i, 0
  {
    var p := a + b;
    assert p[|a| + i] == b[i];
    CloseFromShift(a, b, i + 1);
    var close := CloseFrom(b, i + 1);
    if close < |b| && close != i + 1 {
      assert p[|a| + i + 1..|a| + close] == b[i + 1..close];
      FormatShift(a, b, close + 1, args, false);
    }
  }

  /** A plain beginning is copied and the rest formatted on its own. */
  lemma PlainThen(pre: string, rest: string, args: seq<Option<string>>, q: bool)
    requires Plain(pre)
    ensures FormatAt(pre + rest, 0, args, q) == Then(pre, FormatAt(rest, 0, args, q))
  {
    var p := pre + rest;
    forall k | 0 <= k < |pre| ensures p[k] != '\'' && p[k] != '{' {
      assert p[k] == pre[k];
    }
    PlainRange(p, 0, |pre|, args, q);
    assert p[0..|pre|] == pre;
    FormatShift(pre, rest, 0, args, q);
  }

  /** "''" at the beginning gives one apostrophe. */
  lemma DoubledQuoteThen(rest: string, args: seq<Option<string>>, q: bool)
    ensures FormatAt("''" + rest, 0, args, q) == Then("'", FormatAt(rest, 0, args, q))
  {
    var p := "''" + rest;
    DoubledQuote(p, 0, args, q);
    FormatShift("''", rest, 0, args, q);
  }

  /** A lone apostrophe at the beginning gives nothing and switches quoting. */
  lemma LoneQuoteThen(rest: string, args: seq<Option<string>>, q: bool)
    requires rest == [] || rest[0] != '\''
    ensures FormatAt("'" + rest, 0, args, q) == FormatAt(rest, 0, args, !q)
  {
    var p := "'" + rest;
    if rest != [] {
      assert p[1] == rest[0];
    }
    LoneQuote(p, 0, args, q);
    FormatShift("'", rest, 0, args, !q);
  }

  /** An unquoted "{n}" at the beginning gives argument n. */
  lemma ElementThen(n: nat, rest: string, args: seq<Option<string>>)
    requires n < 10
    ensures FormatAt("{" + [DigitChar(n)] + "}" + rest, 0, args, false) == Then(Argument(n, args), FormatAt(rest, 0, args, false))
  {
    var e := "{" + [DigitChar(n)] + "}";
    var p := e + rest;
    assert p[0] == '{' && p[1] == DigitChar(n) && p[2] == '}';
    DigitElement(p, 0, n, args);
    FormatShift(e, rest, 0, args, false);
  }

  // ---------------------------------------------------------------------------
  // Properties

  /** A pattern of plain text formats to itself, whatever the arguments. */
  lemma PlainPatternIsItself(p: string, args: seq<Option<string>>)
    requires Plain(p)
    ensures Format(p, args) == Some(p)
  {
    PlainRange(p, 0, |p|, args, false);
    assert p[0..|p|] == p;
    assert p + [] == p;
  }

  /** An unquoted '{' that does not open a decimal index element rejects the
      pattern. */
  lemma UnclosedBraceIsRejected(p: string, args: seq<Option<string>>)
    requires |p| >= 1 && p[0] == '{' && forall k | 1 <= k < |p| :: p[k] != '}'
    ensures Format(p, args) == None
  {
    assert CloseFrom(p, 1) == |p|;
  }

  /** An argument element between doubled apostrophes, amid plain text,
      renders as the argument between apostrophes. */
  lemma QuotedArgument(pre: string, post: string, args: seq<Option<string>>)
    requires Plain(pre) && Plain(post)
    ensures Format(pre + ("''" + ("{0}" + ("''" + post))), args)
      == Some(pre + "'" + Argument(0, args) + "'" + post)
  {
    assert "{0}" == "{" + [DigitChar(0)] + "}";
    PlainThen(pre, "''" + ("{0}" + ("''" + post)), args, false);
    DoubledQuoteThen("{0}" + ("''" + post), args, false);
    ElementThen(0, "''" + post, args);
    DoubledQuoteThen(post, args, false);
    PlainThen(post, [], args, false);
    assert post + [] == post;
    var x := Argument(0, args);
    assert pre + ("'" + (x + ("'" + post))) == pre + "'" + x + "'" + post;
  }

  /** Two such elements, for arguments 0 and 1. */
  lemma QuotedArguments(pre: string, mid: string, post: string, args: seq<Option<string>>)
    requires Plain(pre) && Plain(mid) && Plain(post)
    ensures Format(pre + ("''" + ("{0}" + ("''" + (mid + ("''" + ("{1}" + ("''" + post))))))), args)
      == Some(pre + "'" + Argument(0, args) + "'" + mid + "'" + Argument(1, args) + "'" + post)
  {
    assert "{0}" == "{" + [DigitChar(0)] + "}";
    assert "{1}" == "{" + [DigitChar(1)] + "}";
    var tail := mid + ("''" + ("{1}" + ("''" + post)));
    PlainThen(pre, "''" + ("{0}" + ("''" + tail)), args, false);
    DoubledQuoteThen("{0}" + ("''" + tail), args, false);
    ElementThen(0, "''" + tail, args);
    DoubledQuoteThen(tail, args, false);
    PlainThen(mid, "''" + ("{1}" + ("''" + post)), args, false);
    DoubledQuoteThen("{1}" + ("''" + post), args, false);
    ElementThen(1, "''" + post, args);
    DoubledQuoteThen(post, args, false);
    PlainThen(post, [], args, false);
    assert post + [] == post;
    var x := Argument(0, args);
    var y := Argument(1, args);
    assert pre + ("'" + (x + ("'" + (mid + ("'" + (y + ("'" + post)))))))
      == pre + "'" + x + "'" + mid + "'" + y + "'" + post;
  }

  /** Text between two lone apostrophes is quoted: the apostrophes vanish. */
  lemma QuotedText(pre: string, mid: string, post: string, args: seq<Option<string>>)
    requires Plain(pre) && Plain(mid) && Plain(post) && |mid| > 0
    ensures Format(pre + ("'" + (mid + ("'" + post))), args) == Some(pre + mid + post)
  {
    PlainThen(pre, "'" + (mid + ("'" + post)), args, false);
    assert (mid + ("'" + post))[0] == mid[0];
    LoneQuoteThen(mid + ("'" + post), args, false);
    PlainThen(mid, "'" + post, args, true);
    if post != [] {
      assert post[0] != '\'';
    }
    LoneQuoteThen(post, args, true);
    PlainThen(post, [], args, false);
    assert post + [] == post;
    assert pre + (mid + post) == pre + mid + post;
  }

  /** A lone apostrophe that is never closed quotes the rest: it vanishes. */
  lemma UnclosedQuote(pre: string, post: string, args: seq<Option<string>>)
    requires Plain(pre) && Plain(post)
    ensures Format(pre + ("'" + post), args) == Some(pre + post)
  {
    PlainThen(pre, "'" + post, args, false);
    if post != [] {
      assert post[0] != '\'';
    }
    LoneQuoteThen(post, args, false);
    PlainThen(post, [], args, true);
    assert post + [] == post;
  }

  /** Doubled apostrophes around plain text are kept, one each. */
  lemma DoubledQuotes(pre: string, mid: string, post: string, args: seq<Option<string>>)
    requires Plain(pre) && Plain(mid) && Plain(post)
    ensures Format(pre + ("''" + (mid + ("''" + post))), args) == Some(pre + "'" + mid + "'" + post)
  {
    PlainThen(pre, "''" + (mid + ("''" + post)), args, false);
    DoubledQuoteThen(mid + ("''" + post), args, false);
    PlainThen(mid, "''" + post, args, false);
    DoubledQuoteThen(post, args, false);
    PlainThen(post, [], args, false);
    assert post + [] == post;
    assert pre + ("'" + (mid + ("'" + post))) == pre + "'" + mid + "'" + post;
  }

  /** One doubled apostrophe in plain text is kept as one. */
  lemma DoubledQuote1(pre: string, post: string, args: seq<Option<string>>)
    requires Plain(pre) && Plain(post)
    ensures Format(pre + ("''" + post), args) == Some(pre + "'" + post)
  {
    PlainThen(pre, "''" + post, args, false);
    DoubledQuoteThen(post, args, false);
    PlainThen(post, [], args, false);
    assert post + [] == post;
    assert pre + ("'" + post) == pre + "'" + post;
  }
}
