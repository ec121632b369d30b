/** The closed table of token kinds (TokenKind.java): each kind's Java name, its
    fixed spelling (empty for the kinds whose tokens carry text) and its position in
    the enum declaration, which the parser's identifier rule depends on. */
module TokenKinds {
  import opened Wrappers

  datatype TokenKind =
    | Identifier
    | DoubleMinus
    | Equals
    | Pipe
    | LiteralInt
    | LiteralLong
    | LiteralHexInt
    | LiteralHexLong
    | LiteralString
    | LiteralReal
    | LiteralRealFloat
    | LParen
    | RParen
    | Comma
    | Colon
    | Hash
    | RSquare
    | LSquare
    | LCurly
    | RCurly
    | Dot
    | Plus
    | Star
    | Minus
    | SelectFirst
    | SelectLast
    | QMark
    | Project
    | Div
    | Ge
    | Gt
    | Le
    | Lt
    | Eq
    | Ne
    | Mod
    | Not
    | InstanceOf
    | Matches
    | Between
    | Select
    | Power
    | Elvis
    | SafeNavi
    | BeanRef
    | SymbolicOr
    | SymbolicAnd
    | Inc

  /** The spelling given to the kind's enum constructor; "" when it has none. */
  function Spelling(k: TokenKind): string {
    match k
    case Identifier => ""
    case DoubleMinus => "--"
    case Equals => "="
    case Pipe => "|"
    case LiteralInt => ""
    case LiteralLong => ""
    case LiteralHexInt => ""
    case LiteralHexLong => ""
    case LiteralString => ""
    case LiteralReal => ""
    case LiteralRealFloat => ""
    case LParen => "("
    case RParen => ")"
    case Comma => ","
    case Colon => ":"
    case Hash => "#"
    case RSquare => "]"
    case LSquare => "["
    case LCurly => "{"
    case RCurly => "}"
    case Dot => "."
    case Plus => "+"
    case Star => "*"
    case Minus => "-"
    case SelectFirst => "^["
    case SelectLast => "$["
    case QMark => "?"
    case Project => "!["
    case Div => "/"
    case Ge => ">="
    case Gt => ">"
    case Le => "<="
    case Lt => "<"
    case Eq => "=="
    case Ne => "!="
    case Mod => "%"
    case Not => "!"
    case InstanceOf => "instanceof"
    case Matches => "matches"
    case Between => "between"
    case Select => "?["
    case Power => "^"
    case Elvis => "?:"
    case SafeNavi => "?."
    case BeanRef => "@"
    case SymbolicOr => "||"
    case SymbolicAnd => "&&"
    case Inc => "++"
  }

  /** The enum constant's name, Enum.name(). */
  function Name(k: TokenKind): string {
    match k
    case Identifier => "IDENTIFIER"
    case DoubleMinus => "DOUBLE_MINUS"
    case Equals => "EQUALS"
    case Pipe => "PIPE"
    case LiteralInt => "LITERAL_INT"
    case LiteralLong => "LITERAL_LONG"
    case LiteralHexInt => "LITERAL_HEXINT"
    case LiteralHexLong => "LITERAL_HEXLONG"
    case LiteralString => "LITERAL_STRING"
    case LiteralReal => "LITERAL_REAL"
    case LiteralRealFloat => "LITERAL_REAL_FLOAT"
    case LParen => "LPAREN"
    case RParen => "RPAREN"
    case Comma => "COMMA"
    case Colon => "COLON"
    case Hash => "HASH"
    case RSquare => "RSQUARE"
    case LSquare => "LSQUARE"
    case LCurly => "LCURLY"
    case RCurly => "RCURLY"
    case Dot => "DOT"
    case Plus => "PLUS"
    case Star => "STAR"
    case Minus => "MINUS"
    case SelectFirst => "SELECT_FIRST"
    case SelectLast => "SELECT_LAST"
    case QMark => "QMARK"
    case Project => "PROJECT"
    case Div => "DIV"
    case Ge => "GE"
    case Gt => "GT"
    case Le => "LE"
    case Lt => "LT"
    case Eq => "EQ"
    case Ne => "NE"
    case Mod => "MOD"
    case Not => "NOT"
    case InstanceOf => "INSTANCEOF"
    case Matches => "MATCHES"
    case Between => "BETWEEN"
    case Select => "SELECT"
    case Power => "POWER"
    case Elvis => "ELVIS"
    case SafeNavi => "SAFE_NAVI"
    case BeanRef => "BEAN_REF"
    case SymbolicOr => "SYMBOLIC_OR"
    case SymbolicAnd => "SYMBOLIC_AND"
    case Inc => "INC"
  }

  /** Enum.ordinal(): the kind's place in the declaration order. */
  function Ordinal(k: TokenKind): nat {
    match k
    case Identifier => 0
    case DoubleMinus => 1
    case Equals => 2
    case Pipe => 3
    case LiteralInt => 4
    case LiteralLong => 5
    case LiteralHexInt => 6
    case LiteralHexLong => 7
    case LiteralString => 8
    case LiteralReal => 9
    case LiteralRealFloat => 10
    case LParen => 11
    case RParen => 12
    case Comma => 13
    case Colon => 14
    case Hash => 15
    case RSquare => 16
    case LSquare => 17
    case LCurly => 18
    case RCurly => 19
    case Dot => 20
    case Plus => 21
    case Star => 22
    case Minus => 23
    case SelectFirst => 24
    case SelectLast => 25
    case QMark => 26
    case Project => 27
    case Div => 28
    case Ge => 29
    case Gt => 30
    case Le => 31
    case Lt => 32
    case Eq => 33
    case Ne => 34
    case Mod => 35
    case Not => 36
    case InstanceOf => 37
    case Matches => 38
    case Between => 39
    case Select => 40
    case Power => 41
    case Elvis => 42
    case SafeNavi => 43
    case BeanRef => 44
    case SymbolicOr => 45
    case SymbolicAnd => 46
    case Inc => 47
  }

  /** The number of kinds, TokenKind.values().length. */
  const KindCount: nat := 48

  /** The reverse of Ordinal: the kind declared at position n, TokenKind.values()[n]. */
  function KindOfOrdinal(n: nat): Option<TokenKind> {
    match n
    case 0 => Some(Identifier)
    case 1 => Some(DoubleMinus)
    case 2 => Some(Equals)
    case 3 => Some(Pipe)
    case 4 => Some(LiteralInt)
    case 5 => Some(LiteralLong)
    case 6 => Some(LiteralHexInt)
    case 7 => Some(LiteralHexLong)
    case 8 => Some(LiteralString)
    case 9 => Some(LiteralReal)
    case 10 => Some(LiteralRealFloat)
    case 11 => Some(LParen)
    case 12 => Some(RParen)
    case 13 => Some(Comma)
    case 14 => Some(Colon)
    case 15 => Some(Hash)
    case 16 => Some(RSquare)
    case 17 => Some(LSquare)
    case 18 => Some(LCurly)
    case 19 => Some(RCurly)
    case 20 => Some(Dot)
    case 21 => Some(Plus)
    case 22 => Some(Star)
    case 23 => Some(Minus)
    case 24 => Some(SelectFirst)
    case 25 => Some(SelectLast)
    case 26 => Some(QMark)
    case 27 => Some(Project)
    case 28 => Some(Div)
    case 29 => Some(Ge)
    case 30 => Some(Gt)
    case 31 => Some(Le)
    case 32 => Some(Lt)
    case 33 => Some(Eq)
    case 34 => Some(Ne)
    case 35 => Some(Mod)
    case 36 => Some(Not)
    case 37 => Some(InstanceOf)
    case 38 => Some(Matches)
    case 39 => Some(Between)
    case 40 => Some(Select)
    case 41 => Some(Power)
    case 42 => Some(Elvis)
    case 43 => Some(SafeNavi)
    case 44 => Some(BeanRef)
    case 45 => Some(SymbolicOr)
    case 46 => Some(SymbolicAnd)
    case 47 => Some(Inc)
    case _ => None
  }

  /** The reverse of Name: the kind whose name is s, found by looking at the
      characters that tell the names of one length apart. */
  function KindOfName(s: string): Option<TokenKind> {
    match |s|
    case 2 => (
      match s[0]
      case 'E' => if s == Name(Eq) then Some(Eq) else None
      case 'G' => (
          match s[1]
          case 'E' => if s == Name(Ge) then Some(Ge) else None
          case 'T' => if s == Name(Gt) then Some(Gt) else None
          case _ => None
        )
      case 'L' => (
          match s[1]
          case 'E' => if s == Name(Le) then Some(Le) else None
          case 'T' => if s == Name(Lt) then Some(Lt) else None
          case _ => None
        )
      case 'N' => if s == Name(Ne) then Some(Ne) else None
      case _ => None
      )
    case 3 => (
      match s[0]
      case 'D' => (
          match s[1]
          case 'I' => if s == Name(Div) then Some(Div) else None
          case 'O' => if s == Name(Dot) then Some(Dot) else None
          case _ => None
        )
      case 'I' => if s == Name(Inc) then Some(Inc) else None
      case 'M' => if s == Name(Mod) then Some(Mod) else None
      case 'N' => if s == Name(Not) then Some(Not) else None
      case _ => None
      )
    case 4 => (
      match s[1]
      case 'A' => if s == Name(Hash) then Some(Hash) else None
      case 'I' => if s == Name(Pipe) then Some(Pipe) else None
      case 'L' => if s == Name(Plus) then Some(Plus) else None
      case 'T' => if s == Name(Star) then Some(Star) else None
      case _ => None
      )
    case 5 => (
      match s[2]
      case 'A' => if s == Name(QMark) then Some(QMark) else None
      case 'L' => if s == Name(Colon) then Some(Colon) else None
      case 'M' => if s == Name(Comma) then Some(Comma) else None
      case 'N' => if s == Name(Minus) then Some(Minus) else None
      case 'V' => if s == Name(Elvis) then Some(Elvis) else None
      case 'W' => if s == Name(Power) then Some(Power) else None
      case _ => None
      )
    case 6 => (
      match s[0]
      case 'E' => if s == Name(Equals) then Some(Equals) else None
      case 'L' => (
          match s[1]
          case 'C' => if s == Name(LCurly) then Some(LCurly) else None
          case 'P' => if s == Name(LParen) then Some(LParen) else None
          case _ => None
        )
      case 'R' => (
          match s[1]
          case 'C' => if s == Name(RCurly) then Some(RCurly) else None
          case 'P' => if s == Name(RParen) then Some(RParen) else None
          case _ => None
        )
      case 'S' => if s == Name(Select) then Some(Select) else None
      case _ => None
      )
    case 7 => (
      match s[0]
      case 'B' => if s == Name(Between) then Some(Between) else None
      case 'L' => if s == Name(LSquare) then Some(LSquare) else None
      case 'M' => if s == Name(Matches) then Some(Matches) else None
      case 'P' => if s == Name(Project) then Some(Project) else None
      case 'R' => if s == Name(RSquare) then Some(RSquare) else None
      case _ => None
      )
    case 8 => if s == Name(BeanRef) then Some(BeanRef) else None
    case 9 => if s == Name(SafeNavi) then Some(SafeNavi) else None
    case 10 => (
      match s[1]
      case 'D' => if s == Name(Identifier) then Some(Identifier) else None
      case 'N' => if s == Name(InstanceOf) then Some(InstanceOf) else None
      case _ => None
      )
    case 11 => (
      match s[1]
      case 'E' => if s == Name(SelectLast) then Some(SelectLast) else None
      case 'I' => if s == Name(LiteralInt) then Some(LiteralInt) else None
      case 'Y' => if s == Name(SymbolicOr) then Some(SymbolicOr) else None
      case _ => None
      )
    case 12 => (
      match s[9]
      case 'A' => if s == Name(SymbolicAnd) then Some(SymbolicAnd) else None
      case 'E' => if s == Name(LiteralReal) then Some(LiteralReal) else None
      case 'N' => if s == Name(DoubleMinus) then Some(DoubleMinus) else None
      case 'O' => if s == Name(LiteralLong) then Some(LiteralLong) else None
      case 'R' => if s == Name(SelectFirst) then Some(SelectFirst) else None
      case _ => None
      )
    case 14 => (
      match s[8]
      case 'H' => if s == Name(LiteralHexInt) then Some(LiteralHexInt) else None
      case 'S' => if s == Name(LiteralString) then Some(LiteralString) else None
      case _ => None
      )
    case 15 => if s == Name(LiteralHexLong) then Some(LiteralHexLong) else None
    case 18 => if s == Name(LiteralRealFloat) then Some(LiteralRealFloat) else None
    case _ => None
  }

  /** The reverse of Spelling on the fixed-spelling kinds. */
  function KindOfSpelling(s: string): Option<TokenKind> {
    if |s| == 1 then KindOfChar(s[0])
    else if |s| == 2 then KindOfPair(s[0], s[1])
    else if s == "instanceof" then Some(InstanceOf)
    else if s == "matches" then Some(Matches)
    else if s == "between" then Some(Between)
    else None
  }

  function KindOfChar(c: char): Option<TokenKind> {
    match c
    case '=' => Some(Equals)
    case '|' => Some(Pipe)
    case '(' => Some(LParen)
    case ')' => Some(RParen)
    case ',' => Some(Comma)
    case ':' => Some(Colon)
    case '#' => Some(Hash)
    case ']' => Some(RSquare)
    case '[' => Some(LSquare)
    case '{' => Some(LCurly)
    case '}' => Some(RCurly)
    case '.' => Some(Dot)
    case '+' => Some(Plus)
    case '*' => Some(Star)
    case '-' => Some(Minus)
    case '?' => Some(QMark)
    case '/' => Some(Div)
    case '>' => Some(Gt)
    case '<' => Some(Lt)
    case '%' => Some(Mod)
    case '!' => Some(Not)
    case '^' => Some(Power)
    case '@' => Some(BeanRef)
    case _ => None
  }

  function KindOfPair(c: char, d: char): Option<TokenKind> {
    match c
    case '!' =>
      (match d
       case '[' => Some(Project)
       case '=' => Some(Ne)
       case _ => None)
    case '$' =>
      (match d
       case '[' => Some(SelectLast)
       case _ => None)
    case '&' =>
      (match d
       case '&' => Some(SymbolicAnd)
       case _ => None)
    case '+' =>
      (match d
       case '+' => Some(Inc)
       case _ => None)
    case '-' =>
      (match d
       case '-' => Some(DoubleMinus)
       case _ => None)
    case '<' =>
      (match d
       case '=' => Some(Le)
       case _ => None)
    case '=' =>
      (match d
       case '=' => Some(Eq)
       case _ => None)
    case '>' =>
      (match d
       case '=' => Some(Ge)
       case _ => None)
    case '?' =>
      (match d
       case '[' => Some(Select)
       case ':' => Some(Elvis)
       case '.' => Some(SafeNavi)
       case _ => None)
    case '^' =>
      (match d
       case '[' => Some(SelectFirst)
       case _ => None)
    case '|' =>
      (match d
       case '|' => Some(SymbolicOr)
       case _ => None)
    case _ => None
  }

  /** A kind has a payload exactly when it has no fixed spelling. */
  predicate HasPayload(k: TokenKind)
    ensures k == Identifier ==> HasPayload(k)
    ensures k == DoubleMinus || k == Equals || k == Pipe ==> !HasPayload(k)
  {
    |Spelling(k)| == 0
  }

  /** getLength(): the number of characters of the fixed spelling. */
  function Length(k: TokenKind): (n: nat)
    ensures n == 0 <==> HasPayload(k)
  {
    |Spelling(k)|
  }

  /** toString(): the name, then the spelling in parentheses when there is one. */
  function ToString(k: TokenKind): (r: string)
    ensures Name(k) <= r
    ensures |r| == |Name(k)| <==> HasPayload(k)
  {
    Name(k) + (if |Spelling(k)| != 0 then "(" + Spelling(k) + ")" else "")
  }

  /** The range DIV..NOT of the declaration order, which the parser tests with
      ordinal comparisons. */
  predicate InOperatorRange(k: TokenKind) {
    Ordinal(Div) <= Ordinal(k) <= Ordinal(Not)
  }

  /** The operators that also have a textual form (div, ge, gt, le, lt, eq, ne,
      mod, not), listed explicitly rather than by position. */
  predicate IsTextualOperator(k: TokenKind) {
    k in {Div, Ge, Gt, Le, Lt, Eq, Ne, Mod, Not}
  }

  predicate IsWordChar(c: char) {
    'A' <= c <= 'Z' || c == '_'
  }

  /** Enum names are made of capital letters and underscores. */
  predicate IsWord(s: string) {
    forall c :: c in s ==> IsWordChar(c)
  }

  /** The longest prefix of s that is a word. */
  function TakeWord(s: string): (r: string)
    ensures |r| <= |s| && r == s[..|r|] && IsWord(r)
  {
    if s == [] || !IsWordChar(s[0]) then [] else [s[0]] + TakeWord(s[1..])
  }

  lemma {:induction false} TakeWordOfWord(n: string, rest: string)
    requires IsWord(n)
    requires rest == [] || !IsWordChar(rest[0])
    ensures TakeWord(n + rest) == n
  {
    var s := n + rest;
    forall k | 0 <= k < |n| ensures IsWordChar(s[k]) {
      assert s[k] == n[k];
    }
    TakeWordUpTo(s, |n|);
    assert s[..|n|] == n;
  }

  /** TakeWord stops at the first character that is not a word character. */
  lemma {:induction false} TakeWordUpTo(s: string, j: nat)
    requires j <= |s|
    requires forall k :: 0 <= k < j ==> IsWordChar(s[k])
    requires j == |s| || !IsWordChar(s[j])
    ensures TakeWord(s) == s[..j]
    decreases j
  {
    if j > 0 {
      TakeWordUpTo(s[1..], j - 1);
      assert s[..j] == [s[0]] + s[1..][..j - 1];
    }
  }

  // ---------------------------------------------------------------------------
  // Properties of the table

  /** Ordinal and KindOfOrdinal are inverse: the declaration order is a
      bijection between the kinds and 0..47. */
  lemma OrdinalIsDeclarationOrder(k: TokenKind)
    ensures Ordinal(k) < KindCount && KindOfOrdinal(Ordinal(k)) == Some(k)
  {
    if Ordinal(k) < 8 {
      OrdinalIsDeclarationOrderPart0(k);
    } else if Ordinal(k) < 16 {
      OrdinalIsDeclarationOrderPart1(k);
    } else if Ordinal(k) < 24 {
      OrdinalIsDeclarationOrderPart2(k);
    } else if Ordinal(k) < 32 {
      OrdinalIsDeclarationOrderPart3(k);
    } else if Ordinal(k) < 40 {
      OrdinalIsDeclarationOrderPart4(k);
    } else {
      OrdinalIsDeclarationOrderPart5(k);
    }
  }

  // Local helpers of OrdinalIsDeclarationOrder: its cases in ranges of eight ordinals, one
  // range per lemma, so each stays small for the solver.
  lemma OrdinalIsDeclarationOrderPart0(k: TokenKind)
    requires Ordinal(k) < 8
    ensures Ordinal(k) < KindCount && KindOfOrdinal(Ordinal(k)) == Some(k)
  {
  }

  lemma OrdinalIsDeclarationOrderPart1(k: TokenKind)
    requires 8 <= Ordinal(k) < 16
    ensures Ordinal(k) < KindCount && KindOfOrdinal(Ordinal(k)) == Some(k)
  {
  }

  lemma OrdinalIsDeclarationOrderPart2(k: TokenKind)
    requires 16 <= Ordinal(k) < 24
    ensures Ordinal(k) < KindCount && KindOfOrdinal(Ordinal(k)) == Some(k)
  {
  }

  lemma OrdinalIsDeclarationOrderPart3(k: TokenKind)
    requires 24 <= Ordinal(k) < 32
    ensures Ordinal(k) < KindCount && KindOfOrdinal(Ordinal(k)) == Some(k)
  {
  }

  lemma OrdinalIsDeclarationOrderPart4(k: TokenKind)
    requires 32 <= Ordinal(k) < 40
    ensures Ordinal(k) < KindCount && KindOfOrdinal(Ordinal(k)) == Some(k)
  {
  }

  lemma OrdinalIsDeclarationOrderPart5(k: TokenKind)
    requires 40 <= Ordinal(k)
    ensures Ordinal(k) < KindCount && KindOfOrdinal(Ordinal(k)) == Some(k)
  {
  }

  lemma DeclarationOrderIsOrdinal(n: nat)
    ensures KindOfOrdinal(n).Some? <==> n < KindCount
    ensures KindOfOrdinal(n).Some? ==> Ordinal(KindOfOrdinal(n).value) == n
  {
    if n < 8 {
      DeclarationOrderIsOrdinalPart0(n);
    } else if n < 16 {
      DeclarationOrderIsOrdinalPart1(n);
    } else if n < 24 {
      DeclarationOrderIsOrdinalPart2(n);
    } else if n < 32 {
      DeclarationOrderIsOrdinalPart3(n);
    } else if n < 40 {
      DeclarationOrderIsOrdinalPart4(n);
    } else {
      DeclarationOrderIsOrdinalPart5(n);
    }
  }

  // Local helpers of DeclarationOrderIsOrdinal: its cases in ranges of eight ordinals, one
  // range per lemma, so each stays small for the solver.
  lemma DeclarationOrderIsOrdinalPart0(n: nat)
    requires n < 8
    ensures KindOfOrdinal(n).Some? <==> n < KindCount
    ensures KindOfOrdinal(n).Some? ==> Ordinal(KindOfOrdinal(n).value) == n
  {
  }

  lemma DeclarationOrderIsOrdinalPart1(n: nat)
    requires 8 <= n < 16
    ensures KindOfOrdinal(n).Some? <==> n < KindCount
    ensures KindOfOrdinal(n).Some? ==> Ordinal(KindOfOrdinal(n).value) == n
  {
  }

  lemma DeclarationOrderIsOrdinalPart2(n: nat)
    requires 16 <= n < 24
    ensures KindOfOrdinal(n).Some? <==> n < KindCount
    ensures KindOfOrdinal(n).Some? ==> Ordinal(KindOfOrdinal(n).value) == n
  {
  }

  lemma DeclarationOrderIsOrdinalPart3(n: nat)
    requires 24 <= n < 32
    ensures KindOfOrdinal(n).Some? <==> n < KindCount
    ensures KindOfOrdinal(n).Some? ==> Ordinal(KindOfOrdinal(n).value) == n
  {
  }

  lemma DeclarationOrderIsOrdinalPart4(n: nat)
    requires 32 <= n < 40
    ensures KindOfOrdinal(n).Some? <==> n < KindCount
    ensures KindOfOrdinal(n).Some? ==> Ordinal(KindOfOrdinal(n).value) == n
  {
  }

  lemma DeclarationOrderIsOrdinalPart5(n: nat)
    requires 40 <= n
    ensures KindOfOrdinal(n).Some? <==> n < KindCount
    ensures KindOfOrdinal(n).Some? ==> Ordinal(KindOfOrdinal(n).value) == n
  {
  }

  /** The payload kinds are exactly IDENTIFIER and the seven literal kinds. */
  lemma PayloadKinds(k: TokenKind)
    ensures HasPayload(k) <==>
      k in {Identifier, LiteralInt, LiteralLong, LiteralHexInt, LiteralHexLong,
            LiteralString, LiteralReal, LiteralRealFloat}
  {
  }

  /** The kinds DOUBLE_MINUS, EQUALS and PIPE the stream grammar uses span
      2, 1 and 1 characters; the parser's startpos-2 relies on the first. */
  lemma GrammarTokenLengths()
    ensures Length(DoubleMinus) == 2 && Length(Equals) == 1 && Length(Pipe) == 1
  {
  }

  /** The ordinal range DIV..NOT is the explicit list of textual operators,
      nine contiguous positions, none of them a payload kind. */
  lemma OperatorRangeIsTextualOperators(k: TokenKind)
    ensures InOperatorRange(k) <==> IsTextualOperator(k)
    ensures InOperatorRange(k) ==> !HasPayload(k)
    ensures Ordinal(Not) - Ordinal(Div) + 1 == 9
  {
    if Ordinal(k) < 8 {
      OperatorRangeIsTextualOperatorsPart0(k);
    } else if Ordinal(k) < 16 {
      OperatorRangeIsTextualOperatorsPart1(k);
    } else if Ordinal(k) < 24 {
      OperatorRangeIsTextualOperatorsPart2(k);
    } else if Ordinal(k) < 32 {
      OperatorRangeIsTextualOperatorsPart3(k);
    } else if Ordinal(k) < 40 {
      OperatorRangeIsTextualOperatorsPart4(k);
    } else {
      OperatorRangeIsTextualOperatorsPart5(k);
    }
  }

  // Local helpers of OperatorRangeIsTextualOperators: its cases in ranges of eight ordinals, one
  // range per lemma, so each stays small for the solver.
  lemma OperatorRangeIsTextualOperatorsPart0(k: TokenKind)
    requires Ordinal(k) < 8
    ensures InOperatorRange(k) <==> IsTextualOperator(k)
    ensures InOperatorRange(k) ==> !HasPayload(k)
  {
  }

  lemma OperatorRangeIsTextualOperatorsPart1(k: TokenKind)
    requires 8 <= Ordinal(k) < 16
    ensures InOperatorRange(k) <==> IsTextualOperator(k)
    ensures InOperatorRange(k) ==> !HasPayload(k)
  {
  }

  lemma OperatorRangeIsTextualOperatorsPart2(k: TokenKind)
    requires 16 <= Ordinal(k) < 24
    ensures InOperatorRange(k) <==> IsTextualOperator(k)
    ensures InOperatorRange(k) ==> !HasPayload(k)
  {
  }

  lemma OperatorRangeIsTextualOperatorsPart3(k: TokenKind)
    requires 24 <= Ordinal(k) < 32
    ensures InOperatorRange(k) <==> IsTextualOperator(k)
    ensures InOperatorRange(k) ==> !HasPayload(k)
  {
  }

  lemma OperatorRangeIsTextualOperatorsPart4(k: TokenKind)
    requires 32 <= Ordinal(k) < 40
    ensures InOperatorRange(k) <==> IsTextualOperator(k)
    ensures InOperatorRange(k) ==> !HasPayload(k)
  {
  }

  lemma OperatorRangeIsTextualOperatorsPart5(k: TokenKind)
    requires 40 <= Ordinal(k)
    ensures InOperatorRange(k) <==> IsTextualOperator(k)
    ensures InOperatorRange(k) ==> !HasPayload(k)
  {
  }

  /** No two fixed-spelling kinds share a spelling. */
  lemma SpellingsIdentifyKinds(k: TokenKind)
    ensures !HasPayload(k) ==> KindOfSpelling(Spelling(k)) == Some(k)
    ensures HasPayload(k) ==> KindOfSpelling(Spelling(k)) == None
  {
    if Ordinal(k) < 8 {
      SpellingsIdentifyKindsPart0(k);
    } else if Ordinal(k) < 16 {
      SpellingsIdentifyKindsPart1(k);
    } else if Ordinal(k) < 24 {
      SpellingsIdentifyKindsPart2(k);
    } else if Ordinal(k) < 32 {
      SpellingsIdentifyKindsPart3(k);
    } else if Ordinal(k) < 40 {
      SpellingsIdentifyKindsPart4(k);
    } else {
      SpellingsIdentifyKindsPart5(k);
    }
  }

  // Local helpers of SpellingsIdentifyKinds: its cases in ranges of eight ordinals, one
  // range per lemma, so each stays small for the solver.
  lemma SpellingsIdentifyKindsPart0(k: TokenKind)
    requires Ordinal(k) < 8
    ensures !HasPayload(k) ==> KindOfSpelling(Spelling(k)) == Some(k)
    ensures HasPayload(k) ==> KindOfSpelling(Spelling(k)) == None
  {
  }

  lemma SpellingsIdentifyKindsPart1(k: TokenKind)
    requires 8 <= Ordinal(k) < 16
    ensures !HasPayload(k) ==> KindOfSpelling(Spelling(k)) == Some(k)
    ensures HasPayload(k) ==> KindOfSpelling(Spelling(k)) == None
  {
  }

  lemma SpellingsIdentifyKindsPart2(k: TokenKind)
    requires 16 <= Ordinal(k) < 24
    ensures !HasPayload(k) ==> KindOfSpelling(Spelling(k)) == Some(k)
    ensures HasPayload(k) ==> KindOfSpelling(Spelling(k)) == None
  {
  }

  lemma SpellingsIdentifyKindsPart3(k: TokenKind)
    requires 24 <= Ordinal(k) < 32
    ensures !HasPayload(k) ==> KindOfSpelling(Spelling(k)) == Some(k)
    ensures HasPayload(k) ==> KindOfSpelling(Spelling(k)) == None
  {
  }

  lemma SpellingsIdentifyKindsPart4(k: TokenKind)
    requires 32 <= Ordinal(k) < 40
    ensures !HasPayload(k) ==> KindOfSpelling(Spelling(k)) == Some(k)
    ensures HasPayload(k) ==> KindOfSpelling(Spelling(k)) == None
  {
  }

  lemma SpellingsIdentifyKindsPart5(k: TokenKind)
    requires 40 <= Ordinal(k)
    ensures !HasPayload(k) ==> KindOfSpelling(Spelling(k)) == Some(k)
    ensures HasPayload(k) ==> KindOfSpelling(Spelling(k)) == None
  {
  }

  lemma SpellingsDistinct(a: TokenKind, b: TokenKind)
    requires !HasPayload(a) && Spelling(a) == Spelling(b)
    ensures a == b
  {
    SpellingsIdentifyKinds(a);
    SpellingsIdentifyKinds(b);
  }

  /** The name is recovered from toString() as its leading word, and the name
      determines the kind. */
  lemma ToStringIdentifiesKind(k: TokenKind)
    ensures TakeWord(ToString(k)) == Name(k)
    ensures KindOfName(Name(k)) == Some(k)
  {
    NamesAreWords(k);
    TakeWordOfWord(Name(k), if |Spelling(k)| != 0 then "(" + Spelling(k) + ")" else "");
    NamesIdentifyKinds(k);
  }

  lemma NamesAreWords(k: TokenKind)
    ensures IsWord(Name(k))
  {
    if Ordinal(k) < 8 {
      NamesAreWordsPart0(k);
    } else if Ordinal(k) < 16 {
      NamesAreWordsPart1(k);
    } else if Ordinal(k) < 24 {
      NamesAreWordsPart2(k);
    } else if Ordinal(k) < 32 {
      NamesAreWordsPart3(k);
    } else if Ordinal(k) < 40 {
      NamesAreWordsPart4(k);
    } else {
      NamesAreWordsPart5(k);
    }
  }

  // Local helpers of NamesAreWords: its cases in ranges of eight ordinals, one
  // range per lemma, so each stays small for the solver.
  lemma NamesAreWordsPart0(k: TokenKind)
    requires Ordinal(k) < 8
    ensures IsWord(Name(k))
  {
  }

  lemma NamesAreWordsPart1(k: TokenKind)
    requires 8 <= Ordinal(k) < 16
    ensures IsWord(Name(k))
  {
  }

  lemma NamesAreWordsPart2(k: TokenKind)
    requires 16 <= Ordinal(k) < 24
    ensures IsWord(Name(k))
  {
  }

  lemma NamesAreWordsPart3(k: TokenKind)
    requires 24 <= Ordinal(k) < 32
    ensures IsWord(Name(k))
  {
  }

  lemma NamesAreWordsPart4(k: TokenKind)
    requires 32 <= Ordinal(k) < 40
    ensures IsWord(Name(k))
  {
  }

  lemma NamesAreWordsPart5(k: TokenKind)
    requires 40 <= Ordinal(k)
    ensures IsWord(Name(k))
  {
  }

  lemma NamesIdentifyKinds(k: TokenKind)
    ensures KindOfName(Name(k)) == Some(k)
  {
    if Ordinal(k) < 8 {
      NamesIdentifyKindsPart0(k);
    } else if Ordinal(k) < 16 {
      NamesIdentifyKindsPart1(k);
    } else if Ordinal(k) < 24 {
      NamesIdentifyKindsPart2(k);
    } else if Ordinal(k) < 32 {
      NamesIdentifyKindsPart3(k);
    } else if Ordinal(k) < 40 {
      NamesIdentifyKindsPart4(k);
    } else {
      NamesIdentifyKindsPart5(k);
    }
  }

  // Local helpers of NamesIdentifyKinds: its cases in ranges of eight ordinals, one
  // range per lemma, so each stays small for the solver.
  lemma NamesIdentifyKindsPart0(k: TokenKind)
    requires Ordinal(k) < 8
    ensures KindOfName(Name(k)) == Some(k)
  {
  }

  lemma NamesIdentifyKindsPart1(k: TokenKind)
    requires 8 <= Ordinal(k) < 16
    ensures KindOfName(Name(k)) == Some(k)
  {
  }

  lemma NamesIdentifyKindsPart2(k: TokenKind)
    requires 16 <= Ordinal(k) < 24
    ensures KindOfName(Name(k)) == Some(k)
  {
  }

  lemma NamesIdentifyKindsPart3(k: TokenKind)
    requires 24 <= Ordinal(k) < 32
    ensures KindOfName(Name(k)) == Some(k)
  {
  }

  lemma NamesIdentifyKindsPart4(k: TokenKind)
    requires 32 <= Ordinal(k) < 40
    ensures KindOfName(Name(k)) == Some(k)
  {
  }

  lemma NamesIdentifyKindsPart5(k: TokenKind)
    requires 40 <= Ordinal(k)
    ensures KindOfName(Name(k)) == Some(k)
  {
  }

  lemma ToStringInjective(a: TokenKind, b: TokenKind)
    requires ToString(a) == ToString(b)
    ensures a == b
  {
    ToStringIdentifiesKind(a);
    ToStringIdentifiesKind(b);
  }
}
