/** Tokens (Token.java): a kind, an optional text, and the offsets of the first
    character and of the character after the last. Tokens are created once and
    never changed, so they are values here. */
module Tokens {
  import opened Wrappers
  import opened TokenKinds
  import opened Text

  /** `data` is None where Java holds null: tokens made with the data-less
      constructor. */
  datatype Token = Token(kind: TokenKind, data: Option<string>, startpos: int, endpos: int)

  /** Token(TokenKind, int, int): a token without data. */
  function MakeToken(kind: TokenKind, startpos: int, endpos: int): Token {
    Token(kind, None, startpos, endpos)
  }

  /** Token(TokenKind, char[], int, int): a token holding a copy of the characters. */
  function MakePayloadToken(kind: TokenKind, tokenData: seq<char>, pos: int, endpos: int): Token {
    Token(kind, Some(tokenData), pos, endpos)
  }

  /** stringValue(): the token's data, null when it has none. */
  function StringValue(t: Token): Option<string> {
    t.data
  }

  predicate IsIdentifier(t: Token) {
    t.kind == Identifier
  }

  predicate IsNumericRelationalOperator(t: Token) {
    t.kind == Gt || t.kind == Ge || t.kind == Lt || t.kind == Le || t.kind == Eq || t.kind == Ne
  }

  function AsInstanceOfToken(t: Token): Token {
    MakeToken(InstanceOf, t.startpos, t.endpos)
  }

  function AsMatchesToken(t: Token): Token {
    MakeToken(Matches, t.startpos, t.endpos)
  }

  function AsBetweenToken(t: Token): Token {
    MakeToken(Between, t.startpos, t.endpos)
  }

  /** A token of a payload kind holds data; equals and hashCode dereference it. */
  predicate HasData(t: Token) {
    HasPayload(t.kind) ==> t.data.Some?
  }

  /** A token whose data is present exactly when its kind has a payload. Textual
      operators (kind NE with data "ne", say) are not canonical. */
  predicate IsCanonical(t: Token) {
    HasPayload(t.kind) <==> t.data.Some?
  }

  /** equals(Object) for another token: same kind and offsets, and the same data
      when the kind has a payload. */
  function Equals(t: Token, o: Token): (r: bool)
    requires HasData(t)
    ensures t == o ==> r
    ensures r ==> HasData(o)
  {
    && t.kind == o.kind && t.startpos == o.startpos && t.endpos == o.endpos
    && (HasPayload(t.kind) ==> o.data == t.data)
  }

  /** String.hashCode on unbounded integers: s[0]*31^(n-1) + ... + s[n-1]. */
  function StringHash(s: string): int {
    if s == [] then 0 else StringHash(s[..|s| - 1]) * 31 + s[|s| - 1] as int
  }

  /** hashCode(), on unbounded integers. */
  function HashCode(t: Token): (r: int)
    requires HasData(t)
    ensures !HasPayload(t.kind) ==> r % 37 == 0
    ensures HasPayload(t.kind) ==> (r - StringHash(t.data.value)) % 37 == 0
  {
    Ordinal(t.kind) * 37 + (t.startpos + t.endpos) * 37
      + (if HasPayload(t.kind) then StringHash(t.data.value) else 0)
  }

  /** How StringBuilder.append renders a possibly-null string. */
  function DataText(d: Option<string>): string {
    match d
    case Some(s) => s
    case None => "null"
  }

  /** toString(): [KIND:data](start,end) for payload kinds, [KIND](start,end)
      otherwise, where KIND is the kind's own toString(). */
  function ToString(t: Token): (r: string)
    ensures "[" + TokenKinds.ToString(t.kind) <= r
    ensures r[|r| - 1] == ')'
  {
    "[" + TokenKinds.ToString(t.kind) + (if HasPayload(t.kind) then ":" + DataText(t.data) else "") + "]"
      + ("(" + IntToString(t.startpos) + "," + IntToString(t.endpos) + ")")
  }

  /** Reads a token back from its toString(): the kind from the leading name,
      the offsets from the last parenthesised pair, the data from what lies
      between the ':' and the closing ']'. */
  function ReadToken(s: string): Option<Token> {
    if |s| < 2 || s[0] != '[' then None
    else
      var kind := KindOfName(TakeWord(s[1..]));
      var open := LastIndexOf(s, '(');
      var offsets := ReadOffsets(s);
      if kind.None? || offsets.None? || open < 3 + |TakeWord(s[1..])| then None
      else
        var data := if HasPayload(kind.value) then Some(s[2 + |TakeWord(s[1..])|..open - 1]) else None;
        Some(Token(kind.value, data, offsets.value.0, offsets.value.1))
  }

  // ---------------------------------------------------------------------------
  // Properties

  /** The data-less constructor leaves data null; the payload constructor keeps
      the characters, and stringValue() gives them back; both keep kind and
      offsets. */
  lemma ConstructorsKeepTheirArguments(kind: TokenKind, chars: seq<char>, s: int, e: int)
    ensures StringValue(MakeToken(kind, s, e)) == None
    ensures StringValue(MakePayloadToken(kind, chars, s, e)) == Some(chars)
    ensures MakeToken(kind, s, e).kind == kind && MakePayloadToken(kind, chars, s, e).kind == kind
    ensures MakeToken(kind, s, e).startpos == s && MakeToken(kind, s, e).endpos == e
    ensures MakePayloadToken(kind, chars, s, e).startpos == s && MakePayloadToken(kind, chars, s, e).endpos == e
  {
  }

  /** A token is an identifier exactly when it has kind IDENTIFIER, and such a
      token is of a payload kind. */
  lemma IdentifierIsPayloadKind(t: Token)
    ensures IsIdentifier(t) <==> t.kind == Identifier
    ensures IsIdentifier(t) ==> HasPayload(t.kind)
  {
  }

  /** The numeric relational operators are the textual operators other than
      DIV, MOD and NOT. */
  lemma RelationalOperatorsAreTextualOperators(t: Token)
    ensures IsNumericRelationalOperator(t) <==> IsTextualOperator(t.kind) && t.kind !in {Div, Mod, Not}
  {
  }

  /** The re-kinded tokens carry the named kind and no data, keep the offsets,
      and two of them are equal exactly when the offsets are. */
  lemma RekindedTokens(t: Token, u: Token)
    ensures AsInstanceOfToken(t) == Token(InstanceOf, None, t.startpos, t.endpos)
    ensures AsMatchesToken(t) == Token(Matches, None, t.startpos, t.endpos)
    ensures AsBetweenToken(t) == Token(Between, None, t.startpos, t.endpos)
    ensures HasData(AsInstanceOfToken(t)) && HasData(AsMatchesToken(t)) && HasData(AsBetweenToken(t))
    ensures Equals(AsInstanceOfToken(t), AsInstanceOfToken(u)) <==> t.startpos == u.startpos && t.endpos == u.endpos
    ensures Equals(AsMatchesToken(t), AsMatchesToken(u)) <==> t.startpos == u.startpos && t.endpos == u.endpos
    ensures Equals(AsBetweenToken(t), AsBetweenToken(u)) <==> t.startpos == u.startpos && t.endpos == u.endpos
  {
  }

  /** equals is an equivalence relation on the tokens it is defined for. */
  lemma EqualsIsEquivalence(t: Token, u: Token, v: Token)
    requires HasData(t)
    ensures Equals(t, t)
    ensures Equals(t, u) ==> HasData(u) && Equals(u, t)
    ensures Equals(t, u) && Equals(u, v) ==> Equals(t, v)
  {
  }

  /** On canonical tokens equals is structural equality. */
  lemma EqualsOnCanonicalTokens(t: Token, u: Token)
    requires IsCanonical(t) && IsCanonical(u)
    ensures HasData(t) && (Equals(t, u) <==> t == u)
  {
  }

  /** equals ignores the data of a non-payload token: a textual "ne" and a
      symbolic "!=" at the same offsets are equal, although the records are
      not. */
  lemma EqualsIgnoresOperatorText(k: TokenKind, d: Option<string>, e: Option<string>, s: int, f: int)
    requires !HasPayload(k)
    ensures HasData(Token(k, d, s, f)) && Equals(Token(k, d, s, f), Token(k, e, s, f))
    ensures d != e ==> Token(k, d, s, f) != Token(k, e, s, f)
  {
  }

  /** Equal tokens have equal hash codes. */
  lemma EqualsImpliesEqualHash(t: Token, u: Token)
    requires HasData(t) && Equals(t, u)
    ensures HasData(u) && HashCode(t) == HashCode(u)
  {
  }

  /** The hash sees the offsets only through their sum: two tokens that differ
      only in how the sum splits hash alike yet are not equal. */
  lemma HashSeesOffsetSumOnly(t: Token, d: int)
    requires HasData(t)
    ensures HashCode(Token(t.kind, t.data, t.startpos + d, t.endpos - d)) == HashCode(t)
    ensures d != 0 ==> !Equals(t, Token(t.kind, t.data, t.startpos + d, t.endpos - d))
  {
  }

  /** toString() can be read back: the kind, both offsets and, for canonical
      tokens, the data are recovered from the text. */
  lemma ToStringRoundTrip(t: Token)
    requires IsCanonical(t)
    ensures ReadToken(ToString(t)) == Some(t)
  {
    var mid := if HasPayload(t.kind) then ":" + DataText(t.data) else "";
    NamesIdentifyKinds(t.kind);
    NamesAreWords(t.kind);
    KindTextStartsWithName(t.kind);
    ReadTokenOfParts(Name(t.kind), t.kind, TokenKinds.ToString(t.kind), mid, t.startpos, t.endpos);
  }

  /** A kind's toString() is its name, followed by "(" and more for kinds
      with a fixed spelling. */
  lemma KindTextStartsWithName(k: TokenKind)
    ensures var kt := TokenKinds.ToString(k);
      |Name(k)| <= |kt| && kt[..|Name(k)|] == Name(k)
      && (HasPayload(k) <==> |kt| == |Name(k)|)
      && (|kt| > |Name(k)| ==> kt[|Name(k)|] == '(')
  {
  }

  /** The generic shape of a rendering, read back piece by piece: kt is the
      kind's text, the name followed either by nothing or by "(...". */
  lemma ReadTokenOfParts(name: string, kind: TokenKind, kt: string, mid: string, sp: int, ep: int)
    requires IsWord(name) && KindOfName(name) == Some(kind)
    requires |name| <= |kt| && kt[..|name|] == name
    requires |kt| > |name| ==> kt[|name|] == '('
    requires |kt| == |name| ==> mid == [] || mid[0] == ':'
    requires HasPayload(kind) ==> |kt| == |name| && |mid| >= 1 && mid[0] == ':'
    requires !HasPayload(kind) ==> |kt| > |name| && mid == []
    ensures var s := "[" + kt + mid + "]" + ("(" + IntToString(sp) + "," + IntToString(ep) + ")");
      ReadToken(s) == Some(Token(kind, if HasPayload(kind) then Some(mid[1..]) else None, sp, ep))
  {
    var prefix := "[" + kt + mid + "]";
    var w := "(" + IntToString(sp) + "," + IntToString(ep) + ")";
    LeadingName(name, kt, mid, w);
    ReadOffsetsOf(prefix, sp, ep);
    if HasPayload(kind) {
      DataSlice(kt, mid, w);
    }
  }

  /** The word after the opening '[' is the kind's name. */
  lemma LeadingName(name: string, kt: string, mid: string, w: string)
    requires IsWord(name)
    requires |name| <= |kt| && kt[..|name|] == name
    requires |kt| > |name| ==> kt[|name|] == '('
    requires |kt| == |name| ==> mid == [] || mid[0] == ':'
    ensures TakeWord(("[" + kt + mid + "]" + w)[1..]) == name
  {
    var s := "[" + kt + mid + "]" + w;
    var t := s[1..];
    forall k | 0 <= k < |name| ensures IsWordChar(t[k]) {
      assert t[k] == kt[k] == kt[..|name|][k];
    }
    assert |name| < |t| && !IsWordChar(t[|name|]) by {
      assert t[|name|] == s[|name| + 1];
      if |kt| > |name| {
        assert s[|name| + 1] == kt[|name|];
      } else if mid != [] {
        assert s[|name| + 1] == mid[0];
      } else {
        assert s[|name| + 1] == ']';
      }
    }
    TakeWordUpTo(t, |name|);
    assert t[..|name|] == name by {
      forall k | 0 <= k < |name| ensures t[k] == name[k] {
        assert t[k] == kt[k] == kt[..|name|][k];
      }
    }
  }

  /** Between the ':' after the kind's text and the closing ']' lies the data. */
  lemma DataSlice(kt: string, mid: string, w: string)
    requires |mid| >= 1
    ensures var s := "[" + kt + mid + "]" + w;
      s[2 + |kt|..|"[" + kt + mid + "]"| - 1] == mid[1..]
  {
  }

  /** The trailing "(start,end)" after any prefix reads back as the two offsets. */
  lemma ReadOffsetsOf(prefix: string, sp: int, ep: int)
    ensures var s := prefix + ("(" + IntToString(sp) + "," + IntToString(ep) + ")");
      LastIndexOf(s, '(') == |prefix| && ReadOffsets(s) == Some((sp, ep))
  {
    IntToStringAlphabet(sp);
    IntToStringAlphabet(ep);
    IntToStringRoundTrip(sp);
    IntToStringRoundTrip(ep);
    ReadOffsetsAfter(prefix, IntToString(sp), IntToString(ep), sp, ep);
  }
}
