/** Tenant scoping of SQL text: a common table expression that sets the tenant is put in front of a statement, as
    text. The reference is what the same rewriting means on the tokens that PostgreSQL reads (section 4.1 of its
    manual).

    Text is a sequence of characters. The source works on bytes; every byte it looks for is ASCII, which UTF-8 uses
    for nothing else.
 */
module TenantSql {
  import opened Text

  predicate StartsWith(s: string, prefix: string) {
    |prefix| <= |s| && s[..|prefix|] == prefix
  }

  // ---------------------------------------------------------------------------------------------
  // The scanner of the source

  predicate IsSqlSpace(c: char) {
    c == ' ' || c == '\t' || c == '\n' || c == '\r' || c == '\U{0C}'
  }

  predicate IsSqlIdentifierChar(c: char) {
    'a' <= c <= 'z' || 'A' <= c <= 'Z' || '0' <= c <= '9' || c == '_'
  }

  /** How far a line comment goes: up to the line feed, which is left. */
  function LineLength(s: string): (n: nat)
    ensures n <= |s| && '\n' !in s[..n] && (n < |s| ==> s[n] == '\n')
  {
    if s == "" || s[0] == '\n' then 0 else
      var n := 1 + LineLength(s[1..]);
      assert s[..n] == [s[0]] + s[1..][..n - 1];
      n
  }

  /** How far a block comment goes after its opening: through the first closing, or to the last character if there is
      none. */
  function BlockLength(s: string): (n: nat)
    ensures n <= |s|
  {
    if |s| < 2 then 0 else if s[..2] == "*/" then 2 else 1 + BlockLength(s[1..])
  }

  /** Place `k` of the text starts a closing mark. */
  predicate ClosesAt(s: string, k: nat) {
    k + 2 <= |s| && s[k] == '*' && s[k + 1] == '/'
  }

  /** It ends behind the first closing mark; without one it stops before the last character. */
  lemma {:induction false} BlockEnd(s: string)
    ensures var n := BlockLength(s);
            if exists k: nat :: ClosesAt(s, k)
            then n >= 2 && ClosesAt(s, n - 2) && forall k: nat :: k < n - 2 ==> !ClosesAt(s, k)
            else n == if s == "" then 0 else |s| - 1
  {
    hide BlockLength;
    BlockUnfolds(s);
    if |s| >= 2 {
      assert ClosesAt(s, 0) <==> s[..2] == "*/";
      if !ClosesAt(s, 0) {
        BlockEnd(s[1..]);
        assert forall k: nat :: ClosesAt(s[1..], k) <==> ClosesAt(s, k + 1);
        assert forall k: nat :: ClosesAt(s, k) ==> k > 0 && ClosesAt(s[1..], k - 1);
      }
    }
  }

  lemma BlockUnfolds(s: string)
    ensures BlockLength(s) == if |s| < 2 then 0 else if s[..2] == "*/" then 2 else 1 + BlockLength(s[1..])
  {
  }

  /** The length of the white space character or comment in front; 0 if there is none. */
  function Unit(s: string): (n: nat)
    ensures n <= |s|
  {
    if s == "" then 0
    else if IsSqlSpace(s[0]) then 1
    else if StartsWith(s, "--") then 2 + LineLength(s[2..])
    else if StartsWith(s, "/*") then 2 + BlockLength(s[2..])
    else 0
  }

  /** How much leading white space and comment the source skips. */
  function Trivia(s: string): (n: nat)
    ensures n <= |s|
    decreases |s|
  {
    if Unit(s) == 0 then 0 else Unit(s) + Trivia(s[Unit(s)..])
  }

  lemma LineAt(query: string, i: nat)
    requires i <= |query|
    ensures LineLength(query[i..]) == if i < |query| && query[i] != '\n' then 1 + LineLength(query[i + 1..]) else 0
  {
    if i < |query| {
      assert query[i..][1..] == query[i + 1..];
    }
  }

  lemma BlockAt(query: string, i: nat)
    requires i <= |query|
    ensures BlockLength(query[i..]) ==
            if i + 1 >= |query| then 0 else if query[i..i + 2] == "*/" then 2 else 1 + BlockLength(query[i + 1..])
  {
    if i + 1 < |query| {
      assert query[i..][1..] == query[i + 1..];
      assert query[i..][..2] == query[i..i + 2];
    }
  }

  lemma TriviaAt(query: string, i: nat)
    requires i < |query|
    ensures var n := if IsSqlSpace(query[i]) then 1
                     else if StartsWith(query[i..], "--") then 2 + LineLength(query[i + 2..])
                     else if StartsWith(query[i..], "/*") then 2 + BlockLength(query[i + 2..])
                     else 0;
            Trivia(query[i..]) == if n == 0 then 0 else n + Trivia(query[i + n..])
    ensures StartsWith(query[i..], "--") || StartsWith(query[i..], "/*") ==> i + 2 <= |query|
  {
    hide LineLength, BlockLength;
    var s := query[i..];
    if |s| >= 2 {
      assert s[2..] == query[i + 2..];
    }
    var n := Unit(s);
    assert s[n..] == query[i + n..];
  }

  /** To the end of a line comment, from behind its opening. */
  method SkipLine(query: string, start: nat) returns (index: nat)
    requires start <= |query|
    ensures index <= |query| && index == start + LineLength(query[start..])
  {
    hide LineLength;
    index := start;
    while index < |query| && query[index] != '\n'
      invariant start <= index <= |query|
      invariant start + LineLength(query[start..]) == index + LineLength(query[index..])
    {
      LineAt(query, index);
      index := index + 1;
    }
    LineAt(query, index);
  }

  /** To the end of a block comment, from behind its opening. */
  method SkipBlock(query: string, start: nat) returns (index: nat)
    requires start <= |query|
    ensures index <= |query| && index == start + BlockLength(query[start..])
    ensures if exists k: nat :: ClosesAt(query[start..], k)
            then index >= start + 2 && ClosesAt(query[start..], index - start - 2)
                 && forall k: nat :: k < index - start - 2 ==> !ClosesAt(query[start..], k)
            else index == if start == |query| then start else |query| - 1
  {
    BlockEnd(query[start..]);
    hide BlockLength;
    index := start;
    while index + 1 < |query| && query[index..index + 2] != "*/"
      invariant start <= index <= |query|
      invariant start + BlockLength(query[start..]) == index + BlockLength(query[index..])
    {
      BlockAt(query, index);
      index := index + 1;
    }
    BlockAt(query, index);
    if index + 1 < |query| {
      index := index + 2;
    }
  }

  /** The scan as the source runs it, with one index: it ends, stays in bounds and computes `Trivia`, on every input. */
  method SkipLeadingTrivia(query: string, start: nat) returns (index: nat)
    ensures start <= |query| ==> index <= |query| && index == start + Trivia(query[start..])
    ensures start > |query| ==> index == start
  {
    hide Trivia, LineLength, BlockLength, StartsWith, IsSqlSpace;
    index := start;
    while index < |query|
      invariant start <= |query| ==>
                index <= |query| && start + Trivia(query[start..]) == index + Trivia(query[index..])
      invariant start > |query| ==> index == start
    {
      TriviaAt(query, index);
      if IsSqlSpace(query[index]) {
        index := index + 1;
      } else if StartsWith(query[index..], "--") {
        index := SkipLine(query, index + 2);
      } else if StartsWith(query[index..], "/*") {
        index := SkipBlock(query, index + 2);
      } else {
        return;
      }
    }
    if start <= |query| {
      NoTrivia(query[index..]);
    }
  }

  lemma NoTrivia(s: string)
    requires s == ""
    ensures Trivia(s) == 0
  {
  }

  /** A keyword at the front of the text, in any case, not followed by an identifier character. */
  predicate MatchesKeyword(s: string, keyword: string) {
    && |keyword| <= |s|
    && ToLower(s[..|keyword|]) == ToLower(keyword)
    && (|keyword| < |s| ==> !IsSqlIdentifierChar(s[|keyword|]))
  }

  const WITH := "WITH"
  const RECURSIVE := "RECURSIVE"

  datatype Place = Front | After(index: nat)

  /** Where the tenant clause goes: after the leading `WITH` or `WITH RECURSIVE`, or in front if there is none. */
  function InsertPlace(query: string): (p: Place)
    ensures p.After? ==> p.index <= |query|
  {
    var i := Trivia(query);
    if !MatchesKeyword(query[i..], WITH) then Front
    else
      var rest := query[i + |WITH|..];
      var next := Trivia(rest);
      if MatchesKeyword(rest[next..], RECURSIVE) then After(i + |WITH| + next + |RECURSIVE|) else After(i + |WITH|)
  }

  function Double(s: string): string {
    if s == "" then "" else (if s[0] == '\'' then "''" else [s[0]]) + Double(s[1..])
  }

  function EscapeLiteral(value: string): string {
    Double(Trim(value))
  }

  const SETTING := "app.current_tenant_id"

  function TenantCall(tenant: string): string {
    "set_config('" + SETTING + "', '" + EscapeLiteral(tenant) + "', true)"
  }

  function TenantClause(tenant: string): string {
    "_tenant_scope AS (SELECT " + TenantCall(tenant) + ")"
  }

  function TenantStatement(tenant: string): string {
    "SELECT " + TenantCall(tenant)
  }

  function Inject(query: string, tenant: string): string {
    match InsertPlace(query)
    case Front => "WITH " + TenantClause(tenant) + " " + query
    case After(i) => query[..i] + " " + TenantClause(tenant) + "," + query[i..]
  }

  // ---------------------------------------------------------------------------------------------
  // The reference: what PostgreSQL reads

  datatype Token = Word(text: string) | Name(value: string) | Constant(value: string) | Symbol(c: char) | Unclosed

  predicate IsSpaceToServer(c: char) {
    c == ' ' || '\t' <= c <= '\r'
  }

  /** Characters of words: letters, digits, underscores, dollar signs and everything outside ASCII. */
  predicate WordChar(c: char) {
    || 'a' <= c <= 'z' || 'A' <= c <= 'Z' || '0' <= c <= '9'
    || c == '_' || c == '$' || c >= '\U{80}'
  }

  function WordLength(s: string): (n: nat)
    ensures n <= |s| && (forall i :: 0 <= i < n ==> WordChar(s[i])) && (n < |s| ==> !WordChar(s[n]))
  {
    if s == "" || !WordChar(s[0]) then 0 else 1 + WordLength(s[1..])
  }

  /** A line comment ends before a line feed or a carriage return. */
  function LineRest(s: string): (r: string)
    ensures |r| <= |s|
  {
    if s == "" || s[0] == '\n' || s[0] == '\r' then s else LineRest(s[1..])
  }

  datatype Reading = NotClosed | Closed(value: string, rest: string)

  /** What follows a block comment; block comments nest. */
  function BlockRest(s: string, depth: nat): (r: Reading)
    ensures r.Closed? ==> |r.rest| <= |s|
  {
    if depth == 0 then Closed("", s)
    else if |s| < 2 then NotClosed
    else if s[..2] == "*/" then BlockRest(s[2..], depth - 1)
    else if s[..2] == "/*" then BlockRest(s[2..], depth + 1)
    else BlockRest(s[1..], depth)
  }

  /** Reads to the closing quote; a doubled quote stands for one quote in the value (section 4.1.2.1). */
  function ReadQuoted(s: string, quote: char): (r: Reading)
    ensures r.Closed? ==> |r.rest| < |s|
  {
    if s == "" then NotClosed
    else if s[0] != quote then
      match ReadQuoted(s[1..], quote)
      case NotClosed => NotClosed
      case Closed(value, rest) => Closed([s[0]] + value, rest)
    else if |s| > 1 && s[1] == quote then
      match ReadQuoted(s[2..], quote)
      case NotClosed => NotClosed
      case Closed(value, rest) => Closed([quote] + value, rest)
    else Closed("", s[1..])
  }

  /** What is read first: at most one token, and the text after it. */
  datatype Chunk = Chunk(tokens: seq<Token>, rest: string)

  function First(s: string): (c: Chunk)
    requires s != ""
    ensures |c.rest| < |s|
  {
    if IsSpaceToServer(s[0]) then Chunk([], s[1..])
    else if StartsWith(s, "--") then Chunk([], LineRest(s[2..]))
    else if StartsWith(s, "/*") then
      match BlockRest(s[2..], 1)
      case NotClosed => Chunk([Unclosed], "")
      case Closed(_, rest) => Chunk([], rest)
    else if WordChar(s[0]) then
      var n := WordLength(s);
      Chunk([Word(ToLower(s[..n]))], s[n..])
    else if s[0] == '\'' || s[0] == '"' then
      match ReadQuoted(s[1..], s[0])
      case NotClosed => Chunk([Unclosed], "")
      case Closed(value, rest) => Chunk([if s[0] == '"' then Name(value) else Constant(value)], rest)
    else Chunk([Symbol(s[0])], s[1..])
  }

  function Lex(s: string): seq<Token>
    decreases |s|
  {
    if s == "" then [] else First(s).tokens + Lex(First(s).rest)
  }

  function CallTokens(tenant: string): seq<Token> {
    [Word("set_config"), Symbol('('), Constant("app.current_tenant_id"), Symbol(','), Constant(tenant), Symbol(','),
        Word("true"),
     Symbol(')')]
  }

  function ClauseTokens(tenant: string): seq<Token> {
    [Word("_tenant_scope"), Word("as"), Symbol('('), Word("select")] + CallTokens(tenant) + [Symbol(')')]
  }

  predicate Leads(tokens: seq<Token>, word: string) {
    tokens != [] && tokens[0] == Word(word)
  }

  /** The rewriting on tokens: the tenant clause becomes the first of the statement's common table expressions; what
      the statement had, its recursive flag included, stays. */
  function Scoped(tokens: seq<Token>, tenant: string): seq<Token> {
    if !Leads(tokens, "with") then [Word("with")] + ClauseTokens(tenant) + tokens
    else if !Leads(tokens[1..], "recursive") then [Word("with")] + ClauseTokens(tenant) + [Symbol(',')] + tokens[1..]
    else [Word("with"), Word("recursive")] + ClauseTokens(tenant) + [Symbol(',')] + tokens[2..]
  }

  // ---------------------------------------------------------------------------------------------
  // Reading one piece of text

  lemma LexFirst(s: string, tokens: seq<Token>, rest: string)
    requires s != "" && First(s) == Chunk(tokens, rest)
    ensures Lex(s) == tokens + Lex(rest)
  {
    hide First;
  }

  lemma LexSpace(rest: string)
    ensures Lex(" " + rest) == Lex(rest)
  {
    hide Lex;
    assert (" " + rest)[1..] == rest;
    LexFirst(" " + rest, [], rest);
  }

  lemma LexSymbol(c: char, rest: string)
    requires !IsSpaceToServer(c) && !WordChar(c) && c != '-' && c != '/' && c != '\'' && c != '"'
    ensures Lex([c] + rest) == [Symbol(c)] + Lex(rest)
  {
    hide Lex;
    assert ([c] + rest)[1..] == rest;
    LexFirst([c] + rest, [Symbol(c)], rest);
  }

  predicate AllWord(s: string) {
    forall i :: 0 <= i < |s| ==> WordChar(s[i])
  }

  lemma {:induction false} WordLengthIs(word: string, rest: string)
    requires AllWord(word) && (rest == "" || !WordChar(rest[0]))
    ensures WordLength(word + rest) == |word|
  {
    if word != "" {
      assert (word + rest)[1..] == word[1..] + rest;
      WordLengthIs(word[1..], rest);
    } else {
      assert word + rest == rest;
    }
  }

  lemma LexWord(word: string, rest: string)
    requires word != "" && AllWord(word) && (rest == "" || !WordChar(rest[0]))
    ensures Lex(word + rest) == [Word(ToLower(word))] + Lex(rest)
  {
    hide Lex, WordLength, LineRest, BlockRest, ReadQuoted, ToLower;
    var s := word + rest;
    WordLengthIs(word, rest);
    assert WordChar(s[0]) && s[..|word|] == word && s[|word|..] == rest;
    LexFirst(s, [Word(ToLower(word))], rest);
  }

  /** Doubling is undone by reading, and the reading stops at the quote that closes it. */
  lemma {:induction false} ReadsBack(value: string, rest: string)
    requires rest == "" || rest[0] != '\''
    ensures ReadQuoted(Double(value) + "'" + rest, '\'') == Closed(value, rest)
  {
    hide ReadQuoted;
    var s := Double(value) + "'" + rest;
    if value == "" {
      assert s == "'" + rest;
      ReadsNone(rest);
    } else {
      ReadsBack(value[1..], rest);
      var tail := Double(value[1..]) + "'" + rest;
      ReadsOne(value[0], tail);
      assert s == (if value[0] == '\'' then "''" else [value[0]]) + tail;
    }
  }

  lemma ReadsNone(rest: string)
    requires rest == "" || rest[0] != '\''
    ensures ReadQuoted("'" + rest, '\'') == Closed("", rest)
  {
    var s := "'" + rest;
    assert s[1..] == rest;
  }

  lemma ReadsOne(c: char, tail: string)
    requires ReadQuoted(tail, '\'').Closed?
    ensures ReadQuoted((if c == '\'' then "''" else [c]) + tail, '\'') ==
            Closed([c] + ReadQuoted(tail, '\'').value, ReadQuoted(tail, '\'').rest)
  {
    if c == '\'' {
      assert ("''" + tail)[2..] == tail;
    } else {
      assert ([c] + tail)[1..] == tail;
    }
  }

  lemma LexConstant(value: string, rest: string)
    requires rest == "" || rest[0] != '\''
    ensures Lex("'" + Double(value) + "'" + rest) == [Constant(value)] + Lex(rest)
  {
    hide Lex, ReadQuoted, Double;
    var s := "'" + Double(value) + "'" + rest;
    assert s[1..] == Double(value) + "'" + rest;
    ReadsBack(value, rest);
    LexFirst(s, [Constant(value)], rest);
  }

  // ---------------------------------------------------------------------------------------------
  // Reading the inserted text

  lemma LexWordSpace(word: string, rest: string)
    requires word != "" && AllWord(word)
    ensures Lex(word + (" " + rest)) == [Word(ToLower(word))] + Lex(rest)
  {
    hide Lex, WordLength;
    LexWord(word, " " + rest);
    LexSpace(rest);
  }

  lemma PlainWord(word: string)
    requires AllWord(word) && LowerCase(word)
    ensures ToLower(word) == word
  {
  }

  lemma Spaced(c: char, rest: string)
    requires c == ',' || c == ')'
    ensures Lex([c] + (" " + rest)) == [Symbol(c)] + Lex(rest)
  {
    hide Lex;
    LexSymbol(c, " " + rest);
    LexSpace(rest);
  }

  lemma LexFlag(rest: string)
    ensures Lex("," + (" " + ("true" + (")" + rest)))) == [Symbol(','), Word("true"), Symbol(')')] + Lex(rest)
  {
    hide Lex, ToLower;
    LexSymbol(')', rest);
    LexWord("true", ")" + rest);
    PlainWord("true");
    Spaced(',', "true" + (")" + rest));
  }

  function Quoted(value: string): string {
    "'" + Double(value) + "'"
  }

  lemma LexArguments(setting: string, tenant: string, rest: string)
    ensures Lex(Quoted(setting) + ("," + (" " + (Quoted(tenant) + ("," + rest))))) ==
            [Constant(setting), Symbol(','), Constant(tenant)] + Lex("," + rest)
  {
    hide Lex, Double;
    var tail := "," + rest;
    LexConstant(tenant, tail);
    var second := Quoted(tenant) + tail;
    assert second == "'" + Double(tenant) + "'" + tail;
    Spaced(',', second);
    var third := "," + (" " + second);
    LexConstant(setting, third);
    assert Quoted(setting) + third == "'" + Double(setting) + "'" + third;
  }

  lemma LexName(rest: string)
    ensures Lex("set_config" + ("(" + rest)) == [Word("set_config"), Symbol('(')] + Lex(rest)
  {
    hide Lex, ToLower;
    LexSymbol('(', rest);
    LexWord("set_config", "(" + rest);
    PlainWord("set_config");
  }

  lemma CallText(setting: string, value: string, rest: string)
    ensures "set_config('" + setting + "', '" + value + "', true)" + rest ==
            "set_config" + ("(" + (("'" + setting + "'") + ("," + (" " + (("'" + value + "'") +
              ("," + (" " + ("true" + (")" + rest)))))))))
  {
    assert "set_config('" == "set_config" + "(" + "'";
    assert "', '" == "'" + "," + " " + "'";
    assert "', true)" == "'" + "," + " " + "true" + ")";
  }

  /** The call reads as a call with two string constants, the second of them the trimmed tenant. */
  lemma LexCall(tenant: string, rest: string)
    ensures Lex(TenantCall(tenant) + rest) == CallTokens(Trim(tenant)) + Lex(rest)
  {
    hide Lex, Double, Trim, ToLower, SETTING;
    SettingIsPlain();
    CallText(SETTING, Double(Trim(tenant)), rest);
    var tail := " " + ("true" + (")" + rest));
    LexFlag(rest);
    LexArguments(SETTING, Trim(tenant), tail);
    LexName(Quoted(SETTING) + ("," + (" " + (Quoted(Trim(tenant)) + ("," + tail)))));
  }

  lemma SettingIsPlain()
    ensures Double(SETTING) == SETTING == "app.current_tenant_id"
  {
    hide Double;
    DoublePlain(SETTING);
  }

  lemma {:induction false} DoublePlain(s: string)
    requires '\'' !in s
    ensures Double(s) == s
  {
    if s != "" {
      DoublePlain(s[1..]);
    }
  }

  lemma LexSelect(rest: string)
    ensures Lex("SELECT" + (" " + rest)) == [Word("select")] + Lex(rest)
  {
    hide Lex;
    LexWordSpace("SELECT", rest);
    assert ToLower("SELECT") == "select";
  }

  lemma LexAs(rest: string)
    ensures Lex("AS" + (" " + rest)) == [Word("as")] + Lex(rest)
  {
    hide Lex;
    LexWordSpace("AS", rest);
    assert ToLower("AS") == "as";
  }

  lemma LexHeader(rest: string)
    ensures Lex("_tenant_scope" + (" " + ("AS" + (" " + ("(" + ("SELECT" + (" " + rest))))))) ==
            [Word("_tenant_scope"), Word("as"), Symbol('('), Word("select")] + Lex(rest)
  {
    hide Lex, ToLower;
    LexSelect(rest);
    var s4 := "SELECT" + (" " + rest);
    LexSymbol('(', s4);
    LexAs("(" + s4);
    LexWordSpace("_tenant_scope", "AS" + (" " + ("(" + s4)));
    PlainWord("_tenant_scope");
  }

  lemma ClauseText(call: string, rest: string)
    ensures "_tenant_scope AS (SELECT " + call + ")" + rest ==
            "_tenant_scope" + (" " + ("AS" + (" " + ("(" + ("SELECT" + (" " + (call + (")" + rest))))))))
  {
    assert "_tenant_scope AS (SELECT " == "_tenant_scope" + " " + "AS" + " " + "(" + "SELECT" + " ";
  }

  lemma LexClause(tenant: string, rest: string)
    ensures Lex(TenantClause(tenant) + rest) == ClauseTokens(Trim(tenant)) + Lex(rest)
  {
    hide Lex, TenantCall, CallTokens, Trim;
    LexSymbol(')', rest);
    LexCall(tenant, ")" + rest);
    LexHeader(TenantCall(tenant) + (")" + rest));
    ClauseText(TenantCall(tenant), rest);
  }

  // ---------------------------------------------------------------------------------------------
  // Reading the skipped text

  /** The inside of a block comment that is closed before another is opened. */
  predicate PlainBlock(s: string) {
    |s| >= 2 && s[..2] != "/*" && (s[..2] == "*/" || PlainBlock(s[1..]))
  }

  /** What is in front is read alike by the source and the server: a block comment is closed and not nested, a line
      comment holds no carriage return, and no vertical tab, white space to the server only, stops the source. */
  predicate PlainUnit(s: string)
    requires s != ""
  {
    if IsSqlSpace(s[0]) then true
    else if StartsWith(s, "--") then '\r' !in s[2..][..LineLength(s[2..])]
    else if StartsWith(s, "/*") then PlainBlock(s[2..])
    else s[0] != '\U{0B}'
  }

  predicate PlainTrivia(s: string)
    decreases |s|
  {
    s == "" || (PlainUnit(s) && (Unit(s) == 0 || PlainTrivia(s[Unit(s)..])))
  }

  lemma {:induction false} LineVanishes(body: string, z: string)
    requires '\n' !in body && '\r' !in body && (z == "" || z[0] == '\n')
    ensures LineRest(body + z) == z
  {
    if body == "" {
      assert body + z == z;
    } else {
      assert (body + z)[1..] == body[1..] + z;
      LineVanishes(body[1..], z);
    }
  }

  lemma {:induction false} BlockVanishes(s: string, z: string)
    requires PlainBlock(s)
    ensures 2 <= BlockLength(s) && BlockRest(s[..BlockLength(s)] + z, 1) == Closed("", z)
  {
    var n := BlockLength(s);
    var t := s[..n] + z;
    if s[..2] == "*/" {
      assert t[..2] == "*/" && t[2..] == z;
      assert BlockRest(z, 0) == Closed("", z);
    } else {
      BlockVanishes(s[1..], z);
      assert t[..2] == s[..2];
      assert t[1..] == s[1..][..n - 1] + z;
    }
  }

  lemma UnitVanishes(s: string, z: string)
    requires s != "" && PlainUnit(s) && Unit(s) > 0
    requires Unit(s) < |s| && StartsWith(s, "--") ==> z != "" && z[0] == '\n'
    requires Unit(s) == |s| ==> z == ""
    ensures First(s[..Unit(s)] + z) == Chunk([], z)
  {
    hide BlockRest, LineRest, PlainBlock, ReadQuoted, WordLength;
    var n := Unit(s);
    var t := s[..n] + z;
    if IsSqlSpace(s[0]) {
      assert t[1..] == z;
    } else {
      var body := s[2..][..n - 2];
      CutText(s, n, z);
      if StartsWith(s, "--") {
        LineVanishes(body, z);
      } else {
        BlockVanishes(s[2..], z);
      }
    }
  }

  /** The text behind the first two characters of a text cut at `n` and continued with `z`. */
  lemma CutText(s: string, n: nat, z: string)
    requires 2 <= n <= |s|
    ensures (s[..n] + z)[..2] == s[..2] && (s[..n] + z)[2..] == s[2..][..n - 2] + z
  {
  }

  /** Plain trivia in front of any text makes no difference to what is read. */
  lemma {:induction false} TriviaVanishes(s: string, y: string)
    requires PlainTrivia(s) && (Trivia(s) < |s| || y == "")
    ensures Lex(s[..Trivia(s)] + y) == Lex(y)
    decreases |s|
  {
    hide Lex, First, PlainUnit, Unit;
    var n, k := Trivia(s), Unit(s);
    var t := s[..n] + y;
    if k == 0 {
      assert t == y;
    } else {
      var z := s[k..][..n - k] + y;
      TriviaVanishes(s[k..], y);
      assert t == s[..k] + z;
      LineFeedStays(s);
      UnitVanishes(s, z);
      LexFirst(t, [], z);
    }
  }

  lemma LineFeedStays(s: string)
    requires s != ""
    ensures StartsWith(s, "--") && Unit(s) < |s| ==> s[Unit(s)] == '\n' && Trivia(s) > Unit(s)
  {
    if StartsWith(s, "--") && Unit(s) < |s| {
      var k := Unit(s);
      assert s[k..][0] == '\n';
      assert Unit(s[k..]) == 1;
    }
  }

  /** The scan stops where a token starts. */
  lemma {:induction false} TriviaStops(s: string)
    ensures Unit(s[Trivia(s)..]) == 0
    ensures PlainTrivia(s) && Trivia(s) < |s| ==> PlainUnit(s[Trivia(s)..])
    decreases |s|
  {
    hide Unit, PlainUnit;
    if Unit(s) == 0 {
      assert s[0..] == s;
    } else {
      var k := Unit(s);
      TriviaStops(s[k..]);
      assert s[k..][Trivia(s[k..])..] == s[Trivia(s)..];
    }
  }

  // ---------------------------------------------------------------------------------------------
  // Keywords

  /** Characters that continue a word for the server, but not for the source. */
  predicate Odd(s: string) {
    s != "" && (s[0] == '$' || s[0] >= '\U{80}')
  }

  lemma CaseKeepsWord(word: string, keyword: string)
    requires ToLower(word) == ToLower(keyword) && AllWord(keyword)
    ensures |word| == |keyword| && AllWord(word)
  {
    forall i | 0 <= i < |word|
      ensures WordChar(word[i])
    {
      assert LowerChar(word[i]) == ToLower(word)[i] == LowerChar(keyword[i]);
      assert WordChar(keyword[i]);
    }
  }

  lemma LexKeyword(word: string, keyword: string, rest: string)
    requires keyword != "" && AllWord(keyword) && ToLower(word) == ToLower(keyword)
    requires rest == "" || !WordChar(rest[0])
    ensures Lex(word + rest) == [Word(ToLower(keyword))] + Lex(rest)
  {
    hide Lex, ToLower;
    CaseKeepsWord(word, keyword);
    LexWord(word, rest);
  }

  /** Where a token starts, the source and the server agree on whether it is the keyword. */
  lemma KeywordLeads(s: string, keyword: string)
    requires Unit(s) == 0 && (s != "" ==> PlainUnit(s)) && keyword != "" && AllWord(keyword)
    requires MatchesKeyword(s, keyword) ==> !Odd(s[|keyword|..])
    ensures MatchesKeyword(s, keyword) <==> Leads(Lex(s), ToLower(keyword))
    ensures MatchesKeyword(s, keyword) ==> Lex(s) == [Word(ToLower(keyword))] + Lex(s[|keyword|..])
  {
    hide Lex, ToLower;
    if MatchesKeyword(s, keyword) {
      var word, rest := s[..|keyword|], s[|keyword|..];
      assert s == word + rest;
      LexKeyword(word, keyword, rest);
    } else if s == "" {
      LexNothing();
    } else {
      NotTheKeyword(s, keyword);
    }
  }

  lemma LexNothing()
    ensures Lex("") == []
  {
  }

  lemma NotTheKeyword(s: string, keyword: string)
    requires s != "" && Unit(s) == 0 && PlainUnit(s) && keyword != "" && AllWord(keyword) && !MatchesKeyword(s, keyword)
    ensures !Leads(Lex(s), ToLower(keyword))
  {
    hide Lex, ToLower;
    LexFirst(s, First(s).tokens, First(s).rest);
    if WordChar(s[0]) {
      var n := WordLength(s);
      assert First(s).tokens == [Word(ToLower(s[..n]))];
      if ToLower(s[..n]) == ToLower(keyword) {
        CaseKeepsWord(s[..n], keyword);
        assert false;
      }
    }
  }

  // ---------------------------------------------------------------------------------------------
  // The rewriting

  /** Statements whose leading text the source and the server read alike. */
  predicate PlainQuery(query: string) {
    var i := Trivia(query);
    && PlainTrivia(query)
    && (MatchesKeyword(query[i..], WITH) ==>
          var rest := query[i + |WITH|..];
          var next := Trivia(rest);
          && !Odd(rest)
          && PlainTrivia(rest)
          && (MatchesKeyword(rest[next..], RECURSIVE) ==> !Odd(rest[next + |RECURSIVE|..])))
  }

  lemma LexInserted(tenant: string, rest: string)
    ensures Lex(" " + TenantClause(tenant) + "," + rest) == ClauseTokens(Trim(tenant)) + [Symbol(',')] + Lex(rest)
  {
    hide Lex, TenantClause, ClauseTokens, Trim;
    LexSymbol(',', rest);
    LexClause(tenant, "," + rest);
    LexSpace(TenantClause(tenant) + ("," + rest));
    assert " " + TenantClause(tenant) + "," + rest == " " + (TenantClause(tenant) + ("," + rest));
  }

  /** In front of a statement the clause reads as a `WITH` clause of its own. */
  lemma LexInFront(tenant: string, query: string)
    ensures Lex("WITH " + TenantClause(tenant) + " " + query) ==
              [Word("with")] + ClauseTokens(Trim(tenant)) + Lex(query)
  {
    hide Lex, TenantClause, ClauseTokens, Trim;
    LexSpace(query);
    LexClause(tenant, " " + query);
    var rest := TenantClause(tenant) + (" " + query);
    LexWordSpace("WITH", rest);
    assert ToLower("WITH") == "with";
    assert "WITH " + TenantClause(tenant) + " " + query == "WITH" + (" " + rest);
  }

  lemma LexLeading(query: string)
    requires PlainTrivia(query)
    ensures Lex(query) == Lex(query[Trivia(query)..])
  {
    hide Lex, Trivia, PlainTrivia;
    var i := Trivia(query);
    TriviaVanishes(query, query[i..]);
    assert query[..i] + query[i..] == query;
  }

  lemma Keywords()
    ensures WITH != "" && AllWord(WITH) && ToLower(WITH) == "with"
    ensures RECURSIVE != "" && AllWord(RECURSIVE) && ToLower(RECURSIVE) == "recursive"
  {
  }

  /** After plain trivia the source finds a keyword exactly if the server reads it. */
  lemma FindsKeyword(s: string, keyword: string)
    requires PlainTrivia(s) && keyword != "" && AllWord(keyword)
    requires MatchesKeyword(s[Trivia(s)..], keyword) ==> !Odd(s[Trivia(s) + |keyword|..])
    ensures MatchesKeyword(s[Trivia(s)..], keyword) <==> Leads(Lex(s), ToLower(keyword))
    ensures MatchesKeyword(s[Trivia(s)..], keyword) ==>
              Lex(s) == [Word(ToLower(keyword))] + Lex(s[Trivia(s) + |keyword|..])
  {
    hide Lex, ToLower, Trivia, PlainTrivia, PlainUnit, Unit;
    var i := Trivia(s);
    LexLeading(s);
    TriviaStops(s);
    if |keyword| <= |s[i..]| {
      assert s[i..][|keyword|..] == s[i + |keyword|..];
    }
    KeywordLeads(s[i..], keyword);
  }

  /** Text put after a keyword that the source found is read after it. */
  lemma ReadsThen(s: string, keyword: string, y: string)
    requires PlainTrivia(s) && keyword != "" && AllWord(keyword) && MatchesKeyword(s[Trivia(s)..], keyword)
    requires y == "" || !WordChar(y[0])
    ensures Lex(s[..Trivia(s) + |keyword|] + y) == [Word(ToLower(keyword))] + Lex(y)
  {
    hide Lex, ToLower, Trivia, PlainTrivia;
    var i := Trivia(s);
    var word := s[i..][..|keyword|];
    assert s[..i + |keyword|] + y == s[..i] + (word + y);
    TriviaVanishes(s, word + y);
    LexKeyword(word, keyword, y);
  }

  lemma ScopesFront(query: string, tenant: string)
    requires PlainQuery(query) && InsertPlace(query).Front?
    ensures Lex(Inject(query, tenant)) == Scoped(Lex(query), Trim(tenant))
  {
    hide Lex, ToLower, Trivia, PlainTrivia, TenantClause, ClauseTokens, Trim;
    Keywords();
    FindsKeyword(query, WITH);
    LexInFront(tenant, query);
  }

  lemma ScopedTokens(tail: seq<Token>, tenant: string)
    ensures !Leads(tail, "recursive") ==>
              Scoped([Word("with")] + tail, tenant) == [Word("with")] + (ClauseTokens(tenant) + [Symbol(',')] + tail)
    ensures Scoped([Word("with")] + ([Word("recursive")] + tail), tenant) ==
            [Word("with")] + ([Word("recursive")] + (ClauseTokens(tenant) + [Symbol(',')] + tail))
  {
    hide ClauseTokens;
    var plain, tokens := [Word("with")] + tail, [Word("with")] + ([Word("recursive")] + tail);
    var clause := ClauseTokens(tenant) + [Symbol(',')];
    assert plain[1..] == tail && tokens[1..] == [Word("recursive")] + tail && tokens[2..] == tail;
    if !Leads(tail, "recursive") {
      assert Scoped(plain, tenant) == [Word("with")] + (clause + tail);
    }
    assert [Word("with"), Word("recursive")] + ClauseTokens(tenant) + [Symbol(',')] + tail ==
           [Word("with")] + ([Word("recursive")] + (clause + tail));
  }

  lemma ReadsWith(query: string, y: string)
    requires PlainQuery(query) && InsertPlace(query) == After(Trivia(query) + |WITH|)
    requires y == "" || !WordChar(y[0])
    ensures var i := Trivia(query) + |WITH|;
            && Lex(query) == [Word("with")] + Lex(query[i..])
            && !Leads(Lex(query[i..]), "recursive")
            && Lex(query[..i] + y) == [Word("with")] + Lex(y)
  {
    hide Lex, ToLower, Trivia, PlainTrivia, Leads, AllWord, WordChar, MatchesKeyword;
    Keywords();
    PlaceParts(query);
    FindsKeyword(query, WITH);
    FindsKeyword(query[Trivia(query) + |WITH|..], RECURSIVE);
    ReadsThen(query, WITH, y);
  }

  lemma ScopesWith(query: string, tenant: string)
    requires PlainQuery(query)
    requires InsertPlace(query) == After(Trivia(query) + |WITH|)
    ensures Lex(Inject(query, tenant)) == Scoped(Lex(query), Trim(tenant))
  {
    hide Lex, PlainQuery, InsertPlace, TenantClause, ClauseTokens, Trim, Scoped, Trivia, Leads;
    var i := Trivia(query) + |WITH|;
    var rest := query[i..];
    var y := " " + TenantClause(tenant) + "," + rest;
    ReadsWith(query, y);
    LexInserted(tenant, rest);
    ScopedTokens(Lex(rest), Trim(tenant));
    assert Inject(query, tenant) == query[..i] + y;
  }

  lemma InsertsText(query: string, i: nat, j: nat, tenant: string)
    requires InsertPlace(query) == After(i + j) && i + j <= |query|
    ensures Inject(query, tenant) ==
              query[..i] + (query[i..][..j] + (" " + TenantClause(tenant) + "," + query[i..][j..]))
  {
    hide InsertPlace, TenantClause;
    assert query[i..][j..] == query[i + j..];
    assert query[..i] + query[i..][..j] == query[..i + j];
  }

  lemma ReadsRecursive(query: string, y: string)
    requires PlainQuery(query) && InsertPlace(query).After? && InsertPlace(query).index > Trivia(query) + |WITH|
    requires y == "" || !WordChar(y[0])
    ensures var i := Trivia(query) + |WITH|;
            var rest := query[i..];
            var j := Trivia(rest) + |RECURSIVE|;
            && InsertPlace(query) == After(i + j)
            && j <= |rest|
            && Lex(query) == [Word("with")] + ([Word("recursive")] + Lex(rest[j..]))
            && Lex(query[..i] + (rest[..j] + y)) == [Word("with")] + ([Word("recursive")] + Lex(y))
  {
    hide Lex, ToLower, Trivia, PlainTrivia, Leads, AllWord, WordChar, MatchesKeyword;
    Keywords();
    PlaceParts(query);
    FindsKeyword(query, WITH);
    var rest := query[Trivia(query) + |WITH|..];
    FindsKeyword(rest, RECURSIVE);
    var j := Trivia(rest) + |RECURSIVE|;
    ReadsThen(rest, RECURSIVE, y);
    EndsWord(query, Trivia(query));
    KeywordText(rest, j, y);
    ReadsThen(query, WITH, rest[..j] + y);
  }

  /** What the place of insertion says about the text before it. */
  lemma PlaceParts(query: string)
    requires InsertPlace(query).After?
    ensures var i := Trivia(query);
            && MatchesKeyword(query[i..], WITH) && i + |WITH| <= |query|
            && var rest := query[i + |WITH|..];
               var j := Trivia(rest);
               && (InsertPlace(query).index > i + |WITH| <==> MatchesKeyword(rest[j..], RECURSIVE))
               && (MatchesKeyword(rest[j..], RECURSIVE) ==>
                     j + |RECURSIVE| <= |rest| && InsertPlace(query) == After(i + |WITH| + j + |RECURSIVE|))
  {
    hide ToLower, Trivia;
  }

  lemma KeywordText(rest: string, j: nat, y: string)
    requires 0 < j <= |rest|
    ensures rest[..j] + y != "" && (rest[..j] + y)[0] == rest[0]
  {
  }

  lemma EndsWord(query: string, i: nat)
    requires i <= |query| && MatchesKeyword(query[i..], WITH) && !Odd(query[i + |WITH|..])
    ensures var rest := query[i + |WITH|..];
            rest == "" || !WordChar(rest[0])
  {
    hide ToLower;
  }

  lemma ScopesRecursive(query: string, tenant: string)
    requires PlainQuery(query)
    requires InsertPlace(query).After? && InsertPlace(query).index > Trivia(query) + |WITH|
    ensures Lex(Inject(query, tenant)) == Scoped(Lex(query), Trim(tenant))
  {
    hide Lex, PlainQuery, InsertPlace, Inject, TenantClause, ClauseTokens, Trim, Scoped, Trivia;
    ReadsRecursive(query, "");
    var i := Trivia(query) + |WITH|;
    var rest := query[i..];
    var j := Trivia(rest) + |RECURSIVE|;
    var y := " " + TenantClause(tenant) + "," + rest[j..];
    ReadsRecursive(query, y);
    LexInserted(tenant, rest[j..]);
    ScopedTokens(Lex(rest[j..]), Trim(tenant));
    InsertsText(query, i, j, tenant);
  }

  /** The rewriting refines the rewriting on tokens: what the server reads of the output is the token rewriting of
      what it reads of the input, with the trimmed tenant as the constant, whatever characters the tenant holds. */
  lemma InjectMeansScoped(query: string, tenant: string)
    requires PlainQuery(query)
    ensures Lex(Inject(query, tenant)) == Scoped(Lex(query), Trim(tenant))
  {
    hide Lex, Inject, Scoped, PlainQuery, ToLower;
    match InsertPlace(query)
    case Front => ScopesFront(query, tenant);
    case After(i) =>
      if i == Trivia(query) + |WITH| {
        ScopesWith(query, tenant);
      } else {
        ScopesRecursive(query, tenant);
      }
  }

  /** When the source finds no `WITH`, the output is right exactly if the server reads none either, on every input. */
  lemma FrontIsRightIff(query: string, tenant: string)
    requires InsertPlace(query).Front?
    ensures Lex(Inject(query, tenant)) == Scoped(Lex(query), Trim(tenant)) <==> !Leads(Lex(query), "with")
  {
    hide Lex, InsertPlace, TenantClause, Trim, Leads;
    LexInFront(tenant, query);
    var tokens, clause := Lex(query), ClauseTokens(Trim(tenant));
    if Leads(tokens, "with") {
      WithIsNotComma(tokens, clause);
    }
  }

  lemma WithIsNotComma(tokens: seq<Token>, clause: seq<Token>)
    requires Leads(tokens, "with") && |clause| > 1 && clause[0] != Word("recursive")
    ensures [Word("with")] + clause + tokens != [Word("with")] + clause + [Symbol(',')] + tokens[1..]
    ensures |tokens| > 1 ==>
              [Word("with")] + clause + tokens != [Word("with"), Word("recursive")] + clause + [Symbol(',')] +
              tokens[2..]
  {
    var left := [Word("with")] + clause + tokens;
    assert left[1 + |clause|] == Word("with") && left[1] == clause[0];
    assert ([Word("with")] + clause + [Symbol(',')] + tokens[1..])[1 + |clause|] == Symbol(',');
    if |tokens| > 1 {
      assert ([Word("with"), Word("recursive")] + clause + [Symbol(',')] + tokens[2..])[1] == Word("recursive");
    }
  }

  /** Nested comments do break it: the source stops inside the comment and misses the `WITH` behind it. */
  lemma NestedCommentBreaks(rest: string, tenant: string)
    requires rest == "" || !WordChar(rest[0])
    ensures Lex(Inject("/*/**/*/WITH" + rest, tenant)) != Scoped(Lex("/*/**/*/WITH" + rest), Trim(tenant))
  {
    hide Lex, Inject, Scoped, ToLower;
    var query := "/*/**/*/WITH" + rest;
    NestedMissed(rest);
    NestedRead(rest);
    Keywords();
    LexWord("WITH", rest);
    LexFirst(query, [], "WITH" + rest);
    FrontIsRightIff(query, tenant);
  }

  lemma NestedMissed(rest: string)
    ensures InsertPlace("/*/**/*/WITH" + rest).Front?
  {
    hide ToLower;
    hide BlockLength, LineLength, MatchesKeyword;
    var query := "/*/**/*/WITH" + rest;
    var s := query[2..];
    NestedLength(s);
    assert Unit(query) == 6;
    assert query[6..][0] == '*';
    assert Trivia(query[6..]) == 0;
    assert Trivia(query) == 6;
    CaseKeepsFirst(query[6..]);
  }

  lemma NestedLength(s: string)
    requires |s| >= 4 && s[..4] == "/**/"
    ensures BlockLength(s) == 4
  {
    hide BlockLength;
    BlockAt(s, 0);
    BlockAt(s, 1);
    BlockAt(s, 2);
    assert s[0..] == s;
    assert s[0..2][0] == s[..4][0] == '/';
    assert s[1..3][1] == s[..4][2] == '*';
    assert s[2..4][0] == s[..4][2] == '*' && s[2..4][1] == s[..4][3] == '/';
    assert s[2..4] == "*/";
  }

  lemma CaseKeepsFirst(s: string)
    requires s != "" && s[0] == '*'
    ensures !MatchesKeyword(s, WITH)
  {
    if |s| >= 4 {
      assert ToLower(s[..4])[0] == LowerChar('*');
    }
  }

  lemma BlockMore(mark: string, s: string, depth: nat)
    ensures mark == "" && depth == 0 ==> BlockRest(s, depth) == Closed("", s)
    ensures mark == "*/" && depth > 0 ==> BlockRest(mark + s, depth) == BlockRest(s, depth - 1)
    ensures mark == "/*" && depth > 0 ==> BlockRest(mark + s, depth) == BlockRest(s, depth + 1)
  {
    if |mark| == 2 {
      assert (mark + s)[..2] == mark && (mark + s)[2..] == s;
    }
  }

  lemma NestedRead(rest: string)
    ensures First("/*/**/*/WITH" + rest) == Chunk([], "WITH" + rest)
  {
    hide LineRest, WordLength, ReadQuoted, ToLower;
    hide BlockRest;
    var with := "WITH" + rest;
    BlockMore("", with, 0);
    BlockMore("*/", with, 1);
    BlockMore("*/", "*/" + with, 2);
    BlockMore("/*", "*/" + ("*/" + with), 1);
    var query := "/*/**/*/WITH" + rest;
    assert query[2..] == "/*" + ("*/" + ("*/" + with));
  }

  /** Taking the inserted text out again gives back the statement. */
  lemma RemovingGivesBack(query: string, tenant: string)
    ensures var out := Inject(query, tenant);
            match InsertPlace(query)
            case Front => "WITH " + TenantClause(tenant) + " " <= out && out[|TenantClause(tenant)| + 6..] == query
            case After(i) => i + |TenantClause(tenant)| + 2 <= |out|
                             && out[i..i + |TenantClause(tenant)| + 2] == " " + TenantClause(tenant) + ","
                             && out[..i] + out[i + |TenantClause(tenant)| + 2..] == query
  {
    hide TenantClause, Trivia, MatchesKeyword;
    var out := Inject(query, tenant);
    match InsertPlace(query)
    case Front =>
    case After(i) =>
      assert query[..i] + query[i..] == query;
  }

  /** The statement that opens a transaction reads as a call with the trimmed tenant as its constant. */
  lemma StatementReads(tenant: string)
    ensures Lex(TenantStatement(tenant)) == [Word("select")] + CallTokens(Trim(tenant))
  {
    hide Lex, TenantCall, CallTokens, Trim;
    var call := TenantCall(tenant);
    LexCall(tenant, "");
    LexNothing();
    assert call + "" == call;
    LexSelect(call);
    assert "SELECT " + call == "SELECT" + (" " + call);
  }
}
