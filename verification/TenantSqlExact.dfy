/** Exactly when the tenant rewriting of SQL text is right, for every statement whatever its leading text.

    The clause is inserted at one place. Reading the output chunk by chunk, everything before the chunk with that
    place is read as before; what happens there decides.
 */
module TenantSqlExact {
  import opened Text
  import opened TenantSql

  // ---------------------------------------------------------------------------------------------
  // Chunks are suffix by suffix

  lemma {:induction false} LineSuffix(s: string)
    ensures LineRest(s) == s[|s| - |LineRest(s)|..]
  {
    if s != "" && s[0] != '\n' && s[0] != '\r' {
      LineSuffix(s[1..]);
    }
  }

  lemma {:induction false} BlockSuffix(s: string, depth: nat)
    ensures BlockRest(s, depth).Closed? ==> BlockRest(s, depth) == Closed("", s[|s| - |BlockRest(s, depth).rest|..])
    decreases |s|
  {
    if depth > 0 && |s| >= 2 {
      if s[..2] == "*/" {
        BlockSuffix(s[2..], depth - 1);
      } else if s[..2] == "/*" {
        BlockSuffix(s[2..], depth + 1);
      } else {
        BlockSuffix(s[1..], depth);
      }
    }
  }

  lemma {:induction false} QuotedSuffix(s: string, quote: char)
    ensures var r := ReadQuoted(s, quote);
            r.Closed? ==> r.rest == s[|s| - |r.rest|..]
    decreases |s|
  {
    if s != "" {
      if s[0] != quote {
        QuotedSuffix(s[1..], quote);
      } else if |s| > 1 && s[1] == quote {
        QuotedSuffix(s[2..], quote);
      }
    }
  }

  /** How much text the first chunk takes. */
  function Width(s: string): (n: nat)
    requires s != ""
    ensures 0 < n <= |s|
  {
    |s| - |First(s).rest|
  }

  lemma ChunkSuffix(s: string)
    requires s != ""
    ensures First(s).rest == s[Width(s)..]
  {
    hide LineRest, BlockRest, ReadQuoted, WordLength, ToLower;
    if StartsWith(s, "--") {
      LineSuffix(s[2..]);
    } else if StartsWith(s, "/*") {
      BlockSuffix(s[2..], 1);
    } else if s[0] == '\'' || s[0] == '"' {
      QuotedSuffix(s[1..], s[0]);
    }
  }

  // ---------------------------------------------------------------------------------------------
  // What was read stays read: text after a chunk and the character behind it cannot change it

  lemma {:induction false} LineStable(s: string, p: nat, z: string)
    requires |s| - |LineRest(s)| < p <= |s|
    ensures LineRest(s[..p] + z) == s[|s| - |LineRest(s)|..p] + z
  {
    var t := s[..p] + z;
    if s[0] != '\n' && s[0] != '\r' {
      LineStable(s[1..], p - 1, z);
      assert t[1..] == s[1..][..p - 1] + z;
    }
  }

  lemma {:induction false} BlockStable(s: string, depth: nat, p: nat, z: string)
    requires BlockRest(s, depth).Closed? && |s| - |BlockRest(s, depth).rest| <= p <= |s|
    ensures BlockRest(s[..p] + z, depth) == Closed("", s[|s| - |BlockRest(s, depth).rest|..p] + z)
    decreases |s|
  {
    hide BlockRest;
    var t := s[..p] + z;
    BlockEnds(s, depth);
    if depth > 0 {
      ClosingIsTwo(s, depth);
      InsertedTail(s, 2, p, z);
      BlockUnfold(s, depth);
      BlockUnfold(t, depth);
      var k, d := MarkWidth(s), NextDepth(s, depth);
      BlockStable(s[k..], d, p - k, z);
      InsertedTail(s, k, p, z);
      SubText(s, k, |s| - |BlockRest(s, depth).rest|, p);
    } else {
      BlockEnds(t, depth);
    }
  }

  function MarkWidth(s: string): nat
    requires |s| >= 2
  {
    if s[..2] == "*/" || s[..2] == "/*" then 2 else 1
  }

  function NextDepth(s: string, depth: nat): nat
    requires |s| >= 2 && depth > 0
  {
    if s[..2] == "*/" then depth - 1 else if s[..2] == "/*" then depth + 1 else depth
  }

  lemma BlockUnfold(s: string, depth: nat)
    requires |s| >= 2 && depth > 0
    ensures BlockRest(s, depth) == BlockRest(s[MarkWidth(s)..], NextDepth(s, depth))
  {
  }

  lemma BlockEnds(s: string, depth: nat)
    ensures depth == 0 ==> BlockRest(s, depth) == Closed("", s)
    ensures depth > 0 && |s| < 2 ==> BlockRest(s, depth).NotClosed?
  {
  }

  lemma {:induction false} ClosingIsTwo(s: string, depth: nat)
    ensures BlockRest(s, depth).Closed? && depth > 0 ==> |s| - |BlockRest(s, depth).rest| >= 2
    decreases |s|
  {
    if depth > 0 && |s| >= 2 && s[..2] != "*/" && s[..2] != "/*" {
      ClosingIsTwo(s[1..], depth);
    }
  }

  lemma {:induction false} WordStable(s: string, p: nat, z: string)
    requires WordLength(s) < p <= |s|
    ensures WordLength(s[..p] + z) == WordLength(s)
  {
    var t := s[..p] + z;
    if WordChar(s[0]) {
      WordStable(s[1..], p - 1, z);
      assert t[1..] == s[1..][..p - 1] + z;
    }
  }

  function Cons(c: char, r: Reading): Reading {
    if r.NotClosed? then r else Closed([c] + r.value, r.rest)
  }

  lemma QuotedUnfold(s: string, quote: char)
    requires s != ""
    ensures s[0] != quote ==> ReadQuoted(s, quote) == Cons(s[0], ReadQuoted(s[1..], quote))
    ensures s[0] == quote && |s| > 1 && s[1] == quote ==> ReadQuoted(s, quote) == Cons(quote, ReadQuoted(s[2..], quote))
    ensures s[0] == quote && !(|s| > 1 && s[1] == quote) ==> ReadQuoted(s, quote) == Closed("", s[1..])
  {
  }

  lemma {:induction false} QuotedStable(s: string, quote: char, p: nat, z: string)
    requires ReadQuoted(s, quote).Closed? && |s| - |ReadQuoted(s, quote).rest| < p <= |s|
    ensures ReadQuoted(s[..p] + z, quote) ==
            Closed(ReadQuoted(s, quote).value, s[|s| - |ReadQuoted(s, quote).rest|..p] + z)
    decreases |s|
  {
    hide ReadQuoted;
    var t := s[..p] + z;
    QuotedUnfold(s, quote);
    QuotedUnfold(t, quote);
    var k := if s[0] == quote && |s| > 1 && s[1] == quote then 2 else 1;
    assert p >= 2 ==> t[..2] == s[..2];
    InsertedTail(s, k, p, z);
    if s[0] != quote || k == 2 {
      QuotedStable(s[k..], quote, p - k, z);
      SubText(s, k, |s| - |ReadQuoted(s, quote).rest|, p);
    } else {
      assert t[1..] == s[1..p] + z;
    }
  }

  lemma StableLine(s: string, p: nat, z: string)
    requires StartsWith(s, "--") && Width(s) < p <= |s|
    ensures First(s[..p] + z) == Chunk([], s[Width(s)..p] + z)
  {
    hide LineRest;
    var t := s[..p] + z;
    assert t[..2] == s[..2] && t[2..] == s[2..][..p - 2] + z;
    LineStable(s[2..], p - 2, z);
  }

  lemma StableBlock(s: string, p: nat, z: string)
    requires StartsWith(s, "/*") && Width(s) < p <= |s|
    ensures First(s).tokens == [] && First(s[..p] + z) == Chunk([], s[Width(s)..p] + z)
  {
    hide BlockRest;
    var t := s[..p] + z;
    assert t[..2] == s[..2] && t[2..] == s[2..][..p - 2] + z;
    BlockStable(s[2..], 1, p - 2, z);
  }

  lemma StableWord(s: string, p: nat, z: string)
    requires s != "" && WordChar(s[0]) && Width(s) < p <= |s|
    ensures First(s[..p] + z) == Chunk(First(s).tokens, s[Width(s)..p] + z)
  {
    hide First, WordLength, ToLower;
    var t := s[..p] + z;
    WordFirst(s);
    WordFirst(t);
    WordStable(s, p, z);
    var n := WordLength(s);
    assert t[..n] == s[..n] && t[n..] == s[n..p] + z;
  }

  lemma StableQuote(s: string, p: nat, z: string)
    requires s != "" && (s[0] == '\'' || s[0] == '"') && Width(s) < p <= |s|
    ensures First(s[..p] + z) == Chunk(First(s).tokens, s[Width(s)..p] + z)
  {
    hide First, ReadQuoted;
    var t := s[..p] + z;
    QuoteFirst(s);
    QuoteFirst(t);
    QuotedStable(s[1..], s[0], p - 1, z);
    InsertedTail(s, 1, p, z);
    SubText(s, 1, |s| - |First(s).rest|, p);
  }

  /** What follows the first `k` characters of a text cut at `p` and continued with `z`. */
  lemma InsertedTail(s: string, k: nat, p: nat, z: string)
    requires k <= p <= |s|
    ensures (s[..p] + z)[k..] == s[k..][..p - k] + z && (s[..p] + z)[..k] == s[..k]
  {
  }

  lemma SubText(s: string, k: nat, n: nat, p: nat)
    requires k <= n <= p <= |s|
    ensures s[k..][n - k..p - k] == s[n..p]
  {
  }

  lemma QuoteFirst(s: string)
    requires s != "" && (s[0] == '\'' || s[0] == '"')
    ensures First(s) == match ReadQuoted(s[1..], s[0])
                        case NotClosed => Chunk([Unclosed], "")
                        case Closed(value, rest) => Chunk([if s[0] == '"' then Name(value) else Constant(value)], rest)
  {
    hide ReadQuoted, LineRest, BlockRest, WordLength, ToLower;
    assert |s| >= 2 ==> s[..2][0] == s[0];
    assert !StartsWith(s, "--") && !StartsWith(s, "/*") && !IsSpaceToServer(s[0]) && !WordChar(s[0]);
  }

  lemma StableOther(s: string, p: nat, z: string)
    requires s != "" && !StartsWith(s, "--") && !StartsWith(s, "/*") && !WordChar(s[0]) && s[0] != '\''
              && s[0] != '"' && 1 < p <= |s|
    ensures First(s[..p] + z) == Chunk(First(s).tokens, s[Width(s)..p] + z)
  {
    var t := s[..p] + z;
    assert t[..2] == s[..2] && t[1..] == s[1..p] + z;
  }

  lemma FirstStable(s: string, p: nat, z: string)
    requires s != "" && Width(s) < p <= |s|
    ensures First(s[..p] + z) == Chunk(First(s).tokens, s[Width(s)..p] + z)
  {
    hide First;
    if StartsWith(s, "--") {
      StableLine(s, p, z);
      CommentSilent(s);
    } else if StartsWith(s, "/*") {
      StableBlock(s, p, z);
    } else if WordChar(s[0]) {
      StableWord(s, p, z);
    } else if s[0] == '\'' || s[0] == '"' {
      StableQuote(s, p, z);
    } else {
      StableOther(s, p, z);
    }
  }

  lemma CommentSilent(s: string)
    requires StartsWith(s, "--")
    ensures First(s).tokens == []
  {
  }

  // ---------------------------------------------------------------------------------------------
  // Places behind a word

  datatype Prefix = Nowhere | Read(tokens: seq<Token>)

  /** What has been read at place `p` if a word ends there. */
  function ReadTo(s: string, p: nat): Prefix
    requires 0 < p <= |s|
    decreases |s|
  {
    var n := Width(s);
    if p > n then
      match ReadTo(First(s).rest, p - n)
      case Nowhere => Nowhere
      case Read(tokens) => Read(First(s).tokens + tokens)
    else if p == n && WordChar(s[0]) then Read(First(s).tokens)
    else Nowhere
  }

  lemma WordChunk(s: string)
    requires s != "" && WordChar(s[0])
    ensures var n := Width(s);
            n == WordLength(s) && First(s).tokens == [Word(ToLower(s[..n]))] && (n < |s| ==> !WordChar(s[n]))
            && AllWord(s[..n]) && First(s).rest == s[n..]
  {
    hide ToLower, WordLength, First;
    var n := WordLength(s);
    WordFirst(s);
    assert Width(s) == |s| - |s[n..]| == n;
    assert forall i :: 0 <= i < n ==> s[..n][i] == s[i];
  }

  lemma WordFirst(s: string)
    requires s != "" && WordChar(s[0])
    ensures First(s) == Chunk([Word(ToLower(s[..WordLength(s)]))], s[WordLength(s)..])
  {
    hide ToLower, WordLength, LineRest, BlockRest, ReadQuoted;
    assert |s| >= 2 ==> s[..2][0] == s[0];
    assert !StartsWith(s, "--") && !StartsWith(s, "/*") && !IsSpaceToServer(s[0]);
  }

  /** Behind a word anything that does not go on with it may follow. */
  lemma {:induction false} ReadToReads(s: string, p: nat, y: string)
    requires 0 < p <= |s| && ReadTo(s, p).Read? && (y == "" || !WordChar(y[0]))
    ensures var tokens := ReadTo(s, p).tokens;
            && Lex(s[..p] + y) == tokens + Lex(y)
            && Lex(s) == tokens + Lex(s[p..])
            && tokens != [] && tokens[|tokens| - 1].Word?
    decreases |s|
  {
    hide Lex, First;
    var n := Width(s);
    LexFirst(s, First(s).tokens, First(s).rest);
    ChunkSuffix(s);
    if p > n {
      var rest := First(s).rest;
      ReadToReads(rest, p - n, y);
      FirstStable(s, p, y);
      LexFirst(s[..p] + y, First(s).tokens, s[n..p] + y);
      hide ReadTo;
      assert s[n..p] == rest[..p - n] && rest[p - n..] == s[p..];
    } else {
      WordChunk(s);
      LexWord(s[..p], y);
    }
  }

  // ---------------------------------------------------------------------------------------------
  // Places inside a chunk

  predicate Letter(c: char) {
    'a' <= c <= 'z' || 'A' <= c <= 'Z'
  }

  function InsertAt(s: string, p: nat, x: string): string
    requires p <= |s|
  {
    s[..p] + x + s[p..]
  }

  /** Text that ends no comment and opens or closes no quoted name. */
  predicate Calm(x: string) {
    forall i :: 0 <= i < |x| ==> x[i] != '\n' && x[i] != '\r' && x[i] != '*' && x[i] != '/' && x[i] != '"'
  }

  lemma {:induction false} LineSkips(x: string, s: string)
    requires Calm(x)
    ensures LineRest(x + s) == LineRest(s)
  {
    if x == "" {
      assert x + s == s;
    } else {
      assert (x + s)[1..] == x[1..] + s;
      LineSkips(x[1..], s);
    }
  }

  lemma {:induction false} LineAbsorbs(s: string, p: nat, x: string)
    requires p <= |s| - |LineRest(s)| && Calm(x)
    ensures LineRest(InsertAt(s, p, x)) == LineRest(s)
  {
    var t := InsertAt(s, p, x);
    if p == 0 {
      assert t == x + s;
      LineSkips(x, s);
    } else {
      assert t[1..] == InsertAt(s[1..], p - 1, x);
      LineAbsorbs(s[1..], p - 1, x);
    }
  }

  lemma {:induction false} BlockSkips(x: string, s: string, depth: nat)
    requires Calm(x) && depth > 0
    ensures BlockRest(x + s, depth) == BlockRest(s, depth)
    decreases |x|
  {
    var t := x + s;
    if x == "" {
      assert t == s;
    } else if |t| < 2 {
      assert s == "";
    } else {
      assert t[..2][0] == x[0];
      assert t[1..] == x[1..] + s;
      BlockSkips(x[1..], s, depth);
    }
  }

  /** The comment is not over before place `p`. */
  ghost predicate StillOpen(s: string, depth: nat, p: nat) {
    depth > 0 && p <= |s| && (BlockRest(s, depth).Closed? ==> p <= |s| - |BlockRest(s, depth).rest|)
  }

  lemma {:induction false} BlockAbsorbs(s: string, depth: nat, p: nat, x: string)
    requires StillOpen(s, depth, p) && Calm(x) && (p > 0 ==> Letter(s[p - 1]))
    ensures BlockRest(InsertAt(s, p, x), depth) == BlockRest(s, depth)
    decreases |s|
  {
    var t := InsertAt(s, p, x);
    if p == 0 {
      assert t == x + s;
      BlockSkips(x, s, depth);
    } else if |s| < 2 {
      assert t == (s + x) + "";
      BlockSkips(s + x, "", depth);
    } else {
      BlockAbsorbsMore(s, depth, p, x);
      BlockAbsorbs(s[MarkWidth(s)..], NextDepth(s, depth), p - MarkWidth(s), x);
    }
  }

  lemma BlockAbsorbsMore(s: string, depth: nat, p: nat, x: string)
    requires StillOpen(s, depth, p) && Calm(x) && 0 < p <= |s| && |s| >= 2 && Letter(s[p - 1])
    ensures var k, d := MarkWidth(s), NextDepth(s, depth);
            && k <= p && StillOpen(s[k..], d, p - k)
            && BlockRest(s, depth) == BlockRest(s[k..], d)
            && BlockRest(InsertAt(s, p, x), depth) == BlockRest(InsertAt(s[k..], p - k, x), d)
  {
    hide BlockRest, InsertAt;
    var t, k := InsertAt(s, p, x), MarkWidth(s);
    assert s[0] == s[..2][0] && s[1] == s[..2][1];
    InsertTail(s, p, x, if p == 1 then 1 else 2);
    InsertTail(s, p, x, k);
    assert p == 1 ==> t[..2][0] == s[0];
    BlockUnfold(s, depth);
    BlockUnfold(t, depth);
    BlockEnds(s[k..], NextDepth(s, depth));
  }

  lemma InsertTail(s: string, p: nat, x: string, k: nat)
    requires k <= p <= |s|
    ensures |InsertAt(s, p, x)| == |s| + |x|
    ensures InsertAt(s, p, x)[..k] == s[..k]
    ensures InsertAt(s, p, x)[k..] == InsertAt(s[k..], p - k, x)
  {
  }

  // ---------------------------------------------------------------------------------------------
  // Places inside quotes

  /** Two readings that close together and leave the same text. */
  predicate SameRest(a: Reading, b: Reading) {
    a.Closed? == b.Closed? && (a.Closed? ==> a.rest == b.rest)
  }

  /** A quoted text that is still open at `p` goes on with whatever follows. */
  lemma {:induction false} QuoteOpen(s: string, quote: char, p: nat, y: string)
    requires p <= |s| && !Letter(quote) && (p > 0 ==> Letter(s[p - 1]))
    requires ReadQuoted(s, quote).Closed? ==> p <= |s| - |ReadQuoted(s, quote).rest|
    ensures SameRest(ReadQuoted(s[..p] + y, quote), ReadQuoted(y, quote))
    decreases |s|
  {
    hide ReadQuoted;
    var t := s[..p] + y;
    if p == 0 {
      assert t == y;
    } else {
      QuotedUnfold(s, quote);
      QuotedUnfold(t, quote);
      var k := if s[0] == quote then 2 else 1;
      assert p >= 2 ==> t[..2] == s[..2];
      assert t[k..] == s[k..][..p - k] + y;
      QuoteOpen(s[k..], quote, p - k, y);
    }
  }

  lemma {:induction false} QuoteSkips(x: string, s: string, quote: char)
    requires quote !in x
    ensures SameRest(ReadQuoted(x + s, quote), ReadQuoted(s, quote))
  {
    hide ReadQuoted;
    if x == "" {
      assert x + s == s;
    } else {
      QuotedUnfold(x + s, quote);
      assert (x + s)[1..] == x[1..] + s;
      assert x[0] in x;
      QuoteSkips(x[1..], s, quote);
    }
  }

  /** The number of tokens that the text behind a quote yields, the quoted one included. */
  ghost function QuotedCount(r: Reading): nat {
    if r.Closed? then 1 + |Lex(r.rest)| else 1
  }

  lemma LexQuote(s: string)
    requires s != "" && (s[0] == '\'' || s[0] == '"')
    ensures |Lex(s)| == QuotedCount(ReadQuoted(s[1..], s[0]))
  {
    hide Lex, ReadQuoted;
    LexFirst(s, First(s).tokens, First(s).rest);
    LexNothing();
  }

  /** Calm text inside a quoted name changes the name only. */
  lemma NameAbsorbs(s: string, p: nat, x: string)
    requires s != "" && s[0] == '"' && 0 < p <= Width(s) && Letter(s[p - 1]) && Calm(x)
    ensures |Lex(InsertAt(s, p, x))| == |Lex(s)|
  {
    hide Lex, ReadQuoted, First, InsertAt;
    var t := InsertAt(s, p, x);
    QuoteWidth(s);
    InsertTail(s, p, x, 1);
    assert t[..1][0] == s[..1][0];
    LexQuote(s);
    LexQuote(t);
    QuoteInsert(s[1..], '"', p - 1, x);
  }

  lemma QuoteInsert(s: string, quote: char, p: nat, x: string)
    requires p <= |s| && !Letter(quote) && (p > 0 ==> Letter(s[p - 1])) && quote !in x
    requires ReadQuoted(s, quote).Closed? ==> p <= |s| - |ReadQuoted(s, quote).rest|
    ensures SameRest(ReadQuoted(InsertAt(s, p, x), quote), ReadQuoted(s, quote))
  {
    hide ReadQuoted;
    assert InsertAt(s, p, x) == s[..p] + (x + s[p..]);
    QuoteOpen(s, quote, p, x + s[p..]);
    QuoteSkips(x, s[p..], quote);
    QuoteOpen(s, quote, p, s[p..]);
    assert s[..p] + s[p..] == s;
  }

  lemma QuoteWidth(s: string)
    requires s != "" && (s[0] == '\'' || s[0] == '"')
    ensures ReadQuoted(s[1..], s[0]).Closed? ==> Width(s) == |s| - |ReadQuoted(s[1..], s[0]).rest|
  {
    hide ReadQuoted;
  }

  // ---------------------------------------------------------------------------------------------
  // The clause of the empty tenant, inserted anywhere

  function Probe(): string {
    " " + TenantClause("") + ","
  }

  const OPENING := " _tenant_scope AS (SELECT set_config("
  const CLOSING := ", true)),"

  lemma EmptyLiteral()
    ensures EscapeLiteral("") == ""
  {
    hide Trim;
    NothingIsTrimmed();
  }

  lemma ProbeMarks()
    ensures " " + "_tenant_scope AS (SELECT " + "set_config('" == OPENING + "'"
    ensures "', '" + "', true)" + ")" + "," == "'" + ", " + "''" + CLOSING
  {
  }

  /** The text of the clause around its quotes. */
  function Around(setting: string, rest: string): string {
    OPENING + ("'" + (setting + ("'" + (", " + ("''" + (CLOSING + rest))))))
  }

  lemma ProbeShape(setting: string, rest: string)
    ensures " " + ("_tenant_scope AS (SELECT " + ("set_config('" + setting + "', '" + "" + "', true)") + ")") + "," +
              rest == Around(setting, rest)
  {
    hide OPENING, CLOSING;
    ProbeMarks();
    var front, back := " " + "_tenant_scope AS (SELECT " + "set_config('", "', '" + "', true)" + ")" + ",";
    assert " " + ("_tenant_scope AS (SELECT " + ("set_config('" + setting + "', '" + "" + "', true)") + ")") + "," ==
           front + setting + back;
    assert Around(setting, rest) == (OPENING + "'") + setting + ("'" + ", " + "''" + CLOSING) + rest;
  }

  lemma ProbeText(rest: string)
    ensures Probe() + rest == Around(SETTING, rest)
  {
    hide SETTING, Around, EscapeLiteral;
    EmptyLiteral();
    ProbeShape(SETTING, rest);
  }

  lemma CalmAppend(a: string, b: string)
    requires Calm(a) && Calm(b)
    ensures Calm(a + b)
  {
  }

  lemma ProbeIsCalm()
    ensures Calm(Probe()) && Probe() != "" && Probe()[0] == ' '
  {
    hide TenantClause, Calm;
    CalmText();
    EmptyLiteral();
    ClauseIsCalm();
    CalmAppend(" ", TenantClause(""));
    CalmAppend(" " + TenantClause(""), ",");
  }

  lemma CalmText()
    ensures Calm(" ") && Calm(",") && Calm(")") && Calm("set_config('") && Calm(SETTING) && Calm("', '")
              && Calm("', true)")
    ensures Calm("_tenant_scope AS (SELECT ") && Calm("")
  {
  }

  lemma ClauseIsCalm()
    ensures Calm(TenantClause(""))
  {
    hide Calm, EscapeLiteral, SETTING;
    CalmText();
    EmptyLiteral();
    var call := TenantCall("");
    CalmAppend("set_config('", SETTING);
    CalmAppend("set_config('" + SETTING, "', '");
    CalmAppend("set_config('" + SETTING + "', '", "");
    CalmAppend("set_config('" + SETTING + "', '" + "", "', true)");
    CalmAppend("_tenant_scope AS (SELECT ", call);
    CalmAppend("_tenant_scope AS (SELECT " + call, ")");
  }

  lemma LexDotted(first: string, second: string, n: string)
    requires first != "" && second != "" && AllWord(first) && AllWord(second) && n != "" && n[0] == '\''
    ensures |Lex(first + "." + second + n)| == 3 + |Lex(n)|
  {
    hide Lex, ToLower, AllWord;
    LexWord(second, n);
    LexSymbol('.', second + n);
    LexWord(first, "." + (second + n));
    assert first + "." + second + n == first + ("." + (second + n));
  }

  lemma SettingText()
    ensures SETTING == "app" + "." + "current_tenant_id"
  {
  }

  lemma SettingWords()
    ensures AllWord("app") && AllWord("current_tenant_id")
  {
  }

  lemma LexSettingWords(n: string)
    requires n != "" && n[0] == '\''
    ensures |Lex(SETTING + n)| == 3 + |Lex(n)|
  {
    hide Lex, AllWord, SETTING;
    SettingText();
    SettingWords();
    LexDotted("app", "current_tenant_id", n);
  }

  lemma NoQuotes()
    ensures '\'' !in OPENING && '\'' !in CLOSING && '\'' !in ", " && SETTING != "" && SETTING[0] == 'a'
  {
  }

  /** Behind the name of the setting the clause opens a quoted text that goes on with what follows. */
  lemma QuotedGoesOn(b: string)
    ensures SameRest(ReadQuoted(", " + ("''" + (CLOSING + b)), '\''), ReadQuoted(b, '\''))
  {
    hide ReadQuoted, CLOSING;
    NoQuotes();
    var tail := CLOSING + b;
    QuoteSkips(", ", "''" + tail, '\'');
    QuotedUnfold("''" + tail, '\'');
    assert ("''" + tail)[2..] == tail;
    QuoteSkips(CLOSING, b, '\'');
  }

  lemma ProbeTail(b: string)
    ensures |Lex(SETTING + ("'" + (", " + ("''" + (CLOSING + b)))))| == 3 + QuotedCount(ReadQuoted(b, '\''))
  {
    hide Lex, ReadQuoted, SETTING, CLOSING;
    var tail := ", " + ("''" + (CLOSING + b));
    LexSettingWords("'" + tail);
    LexQuote("'" + tail);
    assert ("'" + tail)[1..] == tail;
    QuotedGoesOn(b);
  }

  /** Inside a string constant the clause's own quotes close it and open another: four tokens more. */
  lemma ProbeInQuotes(b: string)
    ensures QuotedCount(ReadQuoted(Probe() + b, '\'')) == QuotedCount(ReadQuoted(b, '\'')) + 4
  {
    hide Lex, ReadQuoted, Probe, OPENING, CLOSING, SETTING;
    ProbeText(b);
    var tail := SETTING + ("'" + (", " + ("''" + (CLOSING + b))));
    NoQuotes();
    QuoteSkips(OPENING, "'" + tail, '\'');
    QuotedUnfold("'" + tail, '\'');
    assert ("'" + tail)[1..] == tail && tail[0] == SETTING[0];
    ProbeTail(b);
  }

  lemma ConstantBreaks(s: string, p: nat)
    requires s != "" && s[0] == '\'' && 0 < p <= Width(s) && Letter(s[p - 1])
    ensures |Lex(InsertAt(s, p, Probe()))| == |Lex(s)| + 4
  {
    hide Lex, ReadQuoted, Probe, First;
    var t, rest := InsertAt(s, p, Probe()), s[1..];
    var b := rest[p - 1..];
    QuoteWidth(s);
    LexQuote(s);
    LexQuote(t);
    QuoteOpen(rest, '\'', p - 1, b);
    assert rest[..p - 1] + b == rest;
    assert t[1..] == rest[..p - 1] + (Probe() + b);
    QuoteOpen(rest, '\'', p - 1, Probe() + b);
    ProbeInQuotes(b);
  }

  lemma CommentAbsorbs(s: string, p: nat, x: string)
    requires (StartsWith(s, "--") || StartsWith(s, "/*")) && 0 < p <= Width(s) && Letter(s[p - 1]) && Calm(x)
    ensures Lex(InsertAt(s, p, x)) == Lex(s)
  {
    hide Lex, LineRest, BlockRest;
    var t := InsertAt(s, p, x);
    assert s[0] == s[..2][0] && s[1] == s[..2][1];
    assert t[..2] == s[..2] && t[2..] == InsertAt(s[2..], p - 2, x);
    LexFirst(s, First(s).tokens, First(s).rest);
    LexFirst(t, First(t).tokens, First(t).rest);
    if StartsWith(s, "--") {
      LineAbsorbs(s[2..], p - 2, x);
    } else {
      assert StillOpen(s[2..], 1, p - 2);
      BlockAbsorbs(s[2..], 1, p - 2, x);
    }
  }

  lemma WordHalves(s: string, p: nat, n: nat)
    requires p <= n <= |s| && AllWord(s[..n])
    ensures AllWord(s[..p]) && AllWord(s[p..n])
  {
    assert forall i :: 0 <= i < n ==> s[..n][i] == s[i];
  }

  lemma SpaceEndsWord()
    ensures Probe() != "" && !WordChar(Probe()[0])
  {
    hide TenantClause;
  }

  lemma ProbeReads(b: string)
    ensures |Lex(Probe() + b)| == 14 + |Lex(b)|
  {
    hide Lex, TenantClause;
    LexInserted("", b);
  }

  /** Inside a word the clause splits it: one token more than the clause has. */
  lemma WordSplits(s: string, p: nat)
    requires s != "" && WordChar(s[0]) && 0 < p < Width(s)
    ensures |Lex(InsertAt(s, p, Probe()))| == |Lex(s)| + 15
  {
    hide Lex, First, ToLower, TenantClause;
    var n := Width(s);
    WordChunk(s);
    LexFirst(s, First(s).tokens, First(s).rest);
    var t, b := InsertAt(s, p, Probe()), s[p..];
    assert b == s[p..n] + s[n..];
    WordHalves(s, p, n);
    hide AllWord, WordChar;
    LexWord(s[p..n], s[n..]);
    SpaceEndsWord();
    LexWord(s[..p], Probe() + b);
    assert t == s[..p] + (Probe() + b);
    hide Probe;
    ProbeReads(b);
  }

  /** Inserted behind a letter, the clause adds its own tokens and nothing else only if a word ends there. */
  lemma {:induction false} Effect(s: string, p: nat)
    requires 0 < p <= |s| && Letter(s[p - 1])
    ensures ReadTo(s, p).Read? || |Lex(InsertAt(s, p, Probe()))| != |Lex(s)| + 14
    decreases |s|
  {
    hide Lex, First, Probe;
    var n := Width(s);
    if p > n {
      var rest := First(s).rest;
      ChunkSuffix(s);
      Effect(rest, p - n);
      var z := Probe() + s[p..];
      FirstStable(s, p, z);
      LexFirst(s, First(s).tokens, rest);
      LexFirst(s[..p] + z, First(s).tokens, s[n..p] + z);
      assert InsertAt(s, p, Probe()) == s[..p] + z;
      assert InsertAt(rest, p - n, Probe()) == s[n..p] + z;
    } else {
      ProbeIsCalm();
      InsideOne(s, p);
    }
  }

  lemma InsideOne(s: string, p: nat)
    requires 0 < p <= |s| && Letter(s[p - 1]) && p <= Width(s)
    ensures ReadTo(s, p).Read? || |Lex(InsertAt(s, p, Probe()))| != |Lex(s)| + 14
  {
    hide Lex, First, Probe;
    ProbeIsCalm();
    if StartsWith(s, "--") || StartsWith(s, "/*") {
      CommentAbsorbs(s, p, Probe());
    } else if WordChar(s[0]) {
      if p < Width(s) {
        WordSplits(s, p);
      }
    } else if s[0] == '"' {
      NameAbsorbs(s, p, Probe());
    } else if s[0] == '\'' {
      ConstantBreaks(s, p);
    } else {
      OneWide(s);
    }
  }

  lemma OneWide(s: string)
    requires s != "" && !StartsWith(s, "--") && !StartsWith(s, "/*") && !WordChar(s[0]) && s[0] != '\'' && s[0] != '"'
    ensures Width(s) == 1 && !Letter(s[0])
  {
  }

  // ---------------------------------------------------------------------------------------------
  // Exactly when

  /** The place is the one behind what the server reads as the leading `WITH` or `WITH RECURSIVE`; in front, if it
      reads none. */
  predicate RightPlace(query: string) {
    match InsertPlace(query)
    case Front => !Leads(Lex(query), "with")
    case After(p) =>
      0 < p && match ReadTo(query, p)
               case Nowhere => false
               case Read(tokens) =>
                 || (tokens == [Word("with")] && !Leads(Lex(query[p..]), "recursive"))
                 || tokens == [Word("with"), Word("recursive")]
  }

  lemma RightPlaceScopes(query: string, tenant: string)
    requires RightPlace(query)
    ensures Lex(Inject(query, tenant)) == Scoped(Lex(query), Trim(tenant))
  {
    hide Lex, InsertPlace, ReadTo, TenantClause, ClauseTokens, Trim, Scoped, Leads, Inject;
    match InsertPlace(query)
    case Front =>
      FrontIsRightIff(query, tenant);
    case After(p) =>
      var y := " " + TenantClause(tenant) + "," + query[p..];
      ReadToReads(query, p, y);
      LexInserted(tenant, query[p..]);
      InjectAfter(query, p, tenant);
      ScopedTokens(Lex(query[p..]), Trim(tenant));
      Nested(Lex(query[p..]));
      Nested(Lex(y));
  }

  lemma InjectAfter(query: string, p: nat, tenant: string)
    requires InsertPlace(query) == After(p) && p <= |query|
    ensures Inject(query, tenant) == query[..p] + (" " + TenantClause(tenant) + "," + query[p..])
  {
    hide InsertPlace, TenantClause;
  }

  lemma Nested(tail: seq<Token>)
    ensures [Word("with"), Word("recursive")] + tail == [Word("with")] + ([Word("recursive")] + tail)
  {
  }

  lemma ScopedLength(tokens: seq<Token>, tenant: string)
    ensures |Scoped(tokens, tenant)| == |tokens| + 14
  {
  }

  lemma PlaceBehindLetter(query: string)
    requires InsertPlace(query).After?
    ensures 0 < InsertPlace(query).index && Letter(query[InsertPlace(query).index - 1])
  {
    hide Trivia, ToLower;
    var i := Trivia(query);
    LastLetter(query[i..], WITH);
    var rest := query[i + |WITH|..];
    if MatchesKeyword(rest[Trivia(rest)..], RECURSIVE) {
      LastLetter(rest[Trivia(rest)..], RECURSIVE);
    }
  }

  lemma LastLetter(s: string, keyword: string)
    requires keyword != "" && MatchesKeyword(s, keyword) && Letter(keyword[|keyword| - 1])
    ensures Letter(s[|keyword| - 1])
  {
    var k := |keyword| - 1;
    assert ToLower(s[..|keyword|])[k] == LowerChar(s[k]);
    assert ToLower(keyword)[k] == LowerChar(keyword[k]);
  }

  /** A nonempty run of tokens that ends in a word cannot change places with one that ends in a comma. */
  lemma NoExchange(v: seq<Token>, c: seq<Token>, r: seq<Token>)
    requires v != [] && v[|v| - 1].Word? && c != [] && !c[|c| - 1].Word?
    ensures v + (c + r) != c + (v + r)
  {
    var n := |v| + |c| - 1;
    assert (v + (c + r))[n] == c[|c| - 1];
    assert (c + (v + r))[n] == v[|v| - 1];
  }

  lemma ClauseEnds(tenant: string)
    ensures var c := ClauseTokens(tenant) + [Symbol(',')];
            c != [] && c[0] == Word("_tenant_scope") && !c[|c| - 1].Word?
  {
  }

  lemma ScopedSplit(tokens: seq<Token>, tenant: string)
    ensures var scoped, c := Scoped(tokens, tenant), ClauseTokens(tenant) + [Symbol(',')];
            && scoped != [] && scoped[0] == Word("with")
            && (Leads(tokens, "with") ==>
                  scoped[1..] ==
                  if Leads(tokens[1..], "recursive") then [Word("recursive")] + (c + tokens[1..][1..])
                  else c + tokens[1..])
  {
    hide ClauseTokens;
    var c := ClauseTokens(tenant) + [Symbol(',')];
    if Leads(tokens, "with") {
      if Leads(tokens[1..], "recursive") {
        assert tokens[1..][1..] == tokens[2..];
        assert [Word("with"), Word("recursive")] + ClauseTokens(tenant) + [Symbol(',')] + tokens[2..] ==
               [Word("with")] + ([Word("recursive")] + (c + tokens[2..]));
      } else {
        assert [Word("with")] + ClauseTokens(tenant) + [Symbol(',')] + tokens[1..] ==
               [Word("with")] + (c + tokens[1..]);
      }
    }
  }

  lemma OnlyBehindKeywords(u: seq<Token>, r: seq<Token>, tenant: string)
    requires u != [] && u[|u| - 1].Word?
    requires u + (ClauseTokens(tenant) + [Symbol(',')] + r) == Scoped(u + r, tenant)
    ensures (u == [Word("with")] && !Leads(r, "recursive")) || u == [Word("with"), Word("recursive")]
  {
    hide ClauseTokens, Scoped;
    var c, v := ClauseTokens(tenant) + [Symbol(',')], u[1..];
    ClauseEnds(tenant);
    assert (u + r)[0] == u[0] && (u + r)[1..] == v + r;
    assert (u + (c + r))[0] == u[0] && (u + (c + r))[1..] == v + (c + r);
    ScopedSplit(u + r, tenant);
    if !Leads(v + r, "recursive") {
      if v != [] {
        NoExchange(v, c, r);
      } else {
        assert u == [Word("with")] && v + r == r;
      }
    } else {
      AfterRecursive(v, c, r);
      assert u == [u[0]] + v;
    }
  }

  lemma Heads(v: seq<Token>, c: seq<Token>, r: seq<Token>)
    requires c != []
    ensures v + (c + r) != [] && (v + (c + r))[0] == if v == [] then c[0] else v[0]
  {
  }

  lemma AfterRecursive(v: seq<Token>, c: seq<Token>, r: seq<Token>)
    requires (v != [] ==> v[|v| - 1].Word?) && Leads(v + r, "recursive")
    requires c != [] && c[0] != Word("recursive") && !c[|c| - 1].Word?
    requires v + (c + r) == [Word("recursive")] + (c + (v + r)[1..])
    ensures v == [Word("recursive")]
  {
    Heads(v, c, r);
    assert (v + (c + r))[0] == Word("recursive");
    var w := v[1..];
    assert (v + r)[0] == v[0] && (v + r)[1..] == w + r;
    assert (v + (c + r))[1..] == w + (c + r);
    assert ([Word("recursive")] + (c + (w + r)))[1..] == c + (w + r);
    if w != [] {
      NoExchange(w, c, r);
    }
    assert v == [v[0]] + w;
  }

  lemma OnlyRightPlace(query: string)
    requires Lex(Inject(query, "")) == Scoped(Lex(query), "")
    ensures RightPlace(query)
  {
    hide Lex, InsertPlace, ReadTo, TenantClause, ClauseTokens, Scoped, Leads, Trim;
    NothingIsTrimmed();
    match InsertPlace(query)
    case Front =>
      FrontIsRightIff(query, "");
    case After(p) =>
      PlaceBehindLetter(query);
      assert Inject(query, "") == InsertAt(query, p, Probe());
      ScopedLength(Lex(query), "");
      Effect(query, p);
      var y := Probe() + query[p..];
      ReadToReads(query, p, y);
      assert InsertAt(query, p, Probe()) == query[..p] + y;
      LexInserted("", query[p..]);
      OnlyBehindKeywords(ReadTo(query, p).tokens, Lex(query[p..]), "");
  }

  /** The rewriting of a statement is right for every tenant exactly if its place is: if the source finds the leading
      keywords where the server reads them. */
  lemma InjectIsRightIff(query: string)
    ensures (forall tenant: string :: Lex(Inject(query, tenant)) == Scoped(Lex(query), Trim(tenant))) <==>
              RightPlace(query)
  {
    hide Lex, Inject, Scoped, RightPlace, Trim;
    if RightPlace(query) {
      forall tenant: string
        ensures Lex(Inject(query, tenant)) == Scoped(Lex(query), Trim(tenant))
      {
        RightPlaceScopes(query, tenant);
      }
    }
    if forall tenant: string :: Lex(Inject(query, tenant)) == Scoped(Lex(query), Trim(tenant)) {
      NothingIsTrimmed();
      assert Lex(Inject(query, "")) == Scoped(Lex(query), Trim(""));
      OnlyRightPlace(query);
    }
  }

  /** Plain statements have their place right. */
  lemma PlainIsRight(query: string)
    requires PlainQuery(query)
    ensures RightPlace(query)
  {
    hide Lex, Inject, Scoped, RightPlace, Trim, PlainQuery;
    NothingIsTrimmed();
    InjectMeansScoped(query, "");
    OnlyRightPlace(query);
  }
}
