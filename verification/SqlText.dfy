/** SQL text and its tokens: a lexer for the fragment the debug queries use, and the quoting of
    delimited identifiers (ISO/IEC 9075-2, section 5.2). */
module SqlText {
  import opened Wrappers
  import opened Decimal

  datatype Token =
    | Ident(name: string)
    | Word(word: string)
    | Number(n: nat)
    | Param(index: nat)
    | Sym(symbol: string)

  // ── Quoting ────────────────────────────────────────────────────────────────

  /** strings.ReplaceAll(name, `"`, `""`). */
  function DoubleQuotes(name: string): string {
    if name == "" then "" else (if name[0] == '"' then "\"\"" else [name[0]]) + DoubleQuotes(name[1..])
  }

  function PgQuoteIdent(name: string): string {
    "\"" + DoubleQuotes(name) + "\""
  }

  /** The name and the rest after the closing quote, given the text after the opening one. Two
      quotes stand for one; a single quote ends the identifier. */
  function LexIdent(s: string): (r: Option<(string, string)>)
    ensures r.Some? ==> |r.value.1| < |s|
  {
    if s == "" then None
    else if s[0] != '"' then Prefix(s[0], LexIdent(s[1..]))
    else if |s| > 1 && s[1] == '"' then Prefix('"', LexIdent(s[2..]))
    else Some(("", s[1..]))
  }

  function Prefix(c: char, r: Option<(string, string)>): (p: Option<(string, string)>)
    ensures p.Some? <==> r.Some?
    ensures p.Some? ==> p.value.1 == r.value.1
  {
    if r.None? then None else Some(([c] + r.value.0, r.value.1))
  }

  /** Quoting round-trips: for every name and every rest that does not start with a double
      quote, reading the quoted name back yields exactly the name and the rest. */
  lemma {:induction false} QuoteRoundTrip(name: string, rest: string)
    requires rest == "" || rest[0] != '"'
    ensures LexIdent((PgQuoteIdent(name) + rest)[1..]) == Some((name, rest))
  {
    assert (PgQuoteIdent(name) + rest)[1..] == DoubleQuotes(name) + "\"" + rest;
    DoubledRoundTrip(name, rest);
  }

  lemma {:induction false} DoubledRoundTrip(name: string, rest: string)
    requires rest == "" || rest[0] != '"'
    ensures LexIdent(DoubleQuotes(name) + "\"" + rest) == Some((name, rest))
    decreases |name|
  {
    var s := DoubleQuotes(name) + "\"" + rest;
    if name == "" {
      assert s[1..] == rest;
    } else {
      DoubledRoundTrip(name[1..], rest);
      var tail := DoubleQuotes(name[1..]) + "\"" + rest;
      if name[0] == '"' {
        assert s == "\"\"" + tail && s[2..] == tail;
      } else {
        assert s == [name[0]] + tail && s[1..] == tail;
      }
      assert [name[0]] + name[1..] == name;
    }
  }

  // ── The lexer ──────────────────────────────────────────────────────────────

  predicate IsLetter(c: char) {
    'a' <= c <= 'z' || 'A' <= c <= 'Z' || c == '_'
  }

  /** The length of the longest digit or letter prefix. */
  function DigitRun(s: string): (n: nat)
    ensures n <= |s| && forall c :: c in s[..n] ==> IsDigit(c)
  {
    if s == "" || !IsDigit(s[0]) then 0
    else
      var n := 1 + DigitRun(s[1..]);
      assert s[..n] == [s[0]] + s[1..][..n - 1];
      n
  }

  function LetterRun(s: string): (n: nat)
    ensures n <= |s|
  {
    if s == "" || !IsLetter(s[0]) then 0 else 1 + LetterRun(s[1..])
  }

  const ONE_CHAR_SYMBOLS := {"(", ")", "*", "."}
  const TWO_CHAR_SYMBOLS := {"::", ">=", "<="}

  /** The first token of a text that starts with no space, and the text after it. */
  function LexOne(s: string): (r: Option<(Token, string)>)
    requires s != ""
    ensures r.Some? ==> |r.value.1| < |s|
  {
    if s[0] == '"' then
      var r := LexIdent(s[1..]);
      if r.None? then None else Some((Ident(r.value.0), r.value.1))
    else if s[0] == '$' then
      var n := DigitRun(s[1..]);
      if n == 0 then None else Some((Param(NatOf(s[1..][..n])), s[1..][n..]))
    else if IsDigit(s[0]) then
      var n := DigitRun(s);
      Some((Number(NatOf(s[..n])), s[n..]))
    else if IsLetter(s[0]) then
      var n := LetterRun(s);
      Some((Word(s[..n]), s[n..]))
    else if s[..1] in ONE_CHAR_SYMBOLS then Some((Sym(s[..1]), s[1..]))
    else if |s| > 1 && s[..2] in TWO_CHAR_SYMBOLS then Some((Sym(s[..2]), s[2..]))
    else None
  }

  function Lex(s: string): Option<seq<Token>>
    decreases |s|
  {
    if s == "" then Some([])
    else if s[0] == ' ' then Lex(s[1..])
    else
      var r := LexOne(s);
      if r.None? then None
      else
        var rest := Lex(r.value.1);
        if rest.None? then None else Some([r.value.0] + rest.value)
  }

  // ── Spelling tokens ────────────────────────────────────────────────────────

  /** A text as the pieces it is put together from. */
  datatype Piece = Tok(token: Token) | Space

  function SpellToken(t: Token): string {
    match t
    case Ident(name) => PgQuoteIdent(name)
    case Word(word) => word
    case Number(n) => PrintNat(n)
    case Param(index) => "$" + PrintNat(index)
    case Sym(symbol) => symbol
  }

  function SpellPiece(p: Piece): string {
    if p.Space? then " " else SpellToken(p.token)
  }

  function Spell(ps: seq<Piece>): string {
    if ps == [] then "" else SpellPiece(ps[0]) + Spell(ps[1..])
  }

  function Tokens(ps: seq<Piece>): seq<Token> {
    if ps == [] then []
    else if ps[0].Space? then Tokens(ps[1..])
    else [ps[0].token] + Tokens(ps[1..])
  }

  predicate ProperToken(t: Token) {
    match t
    case Word(word) => word != "" && forall c :: c in word ==> IsLetter(c)
    case Sym(symbol) => symbol in ONE_CHAR_SYMBOLS || symbol in TWO_CHAR_SYMBOLS
    case _ => true
  }

  /** Tokens may touch only where one of them is a symbol; otherwise a space separates them. */
  predicate Separated(ps: seq<Piece>) {
    && (forall p :: p in ps && p.Tok? ==> ProperToken(p.token))
    && (forall i :: 0 <= i < |ps| - 1 && ps[i].Tok? && ps[i + 1].Tok? ==>
          ps[i].token.Sym? || ps[i + 1].token.Sym?)
  }

  /** A text that cannot continue a token other than a symbol. */
  predicate Breaks(s: string) {
    s == "" || (s[0] != '"' && !IsDigit(s[0]) && !IsLetter(s[0]))
  }

  lemma {:induction false} DigitRunOf(d: string, rest: string)
    requires AllDigits(d) && Breaks(rest)
    ensures DigitRun(d + rest) == |d|
  {
    if d == "" {
      assert d + rest == rest;
    } else {
      DigitRunOf(d[1..], rest);
      assert (d + rest)[1..] == d[1..] + rest;
      assert d[0] in d;
    }
  }

  lemma {:induction false} LetterRunOf(w: string, rest: string)
    requires (forall c :: c in w ==> IsLetter(c)) && Breaks(rest)
    ensures LetterRun(w + rest) == |w|
  {
    if w == "" {
      assert w + rest == rest;
    } else {
      LetterRunOf(w[1..], rest);
      assert (w + rest)[1..] == w[1..] + rest;
      assert w[0] in w;
    }
  }

  lemma LexSpelledIdent(name: string, rest: string)
    requires Breaks(rest)
    ensures LexOne(PgQuoteIdent(name) + rest) == Some((Ident(name), rest))
  {
    QuoteRoundTrip(name, rest);
  }

  lemma DigitsSplit(n: nat, rest: string)
    requires Breaks(rest)
    ensures var s := PrintNat(n) + rest;
      var k := DigitRun(s);
      k > 0 && IsDigit(s[0]) && NatOf(s[..k]) == n && s[k..] == rest
  {
    var d := PrintNat(n);
    assert d[0] in d;
    DigitRunOf(d, rest);
    NatRoundTrip(n);
    hide PrintNat, DigitRun, NatOf;
    assert (d + rest)[..|d|] == d && (d + rest)[|d|..] == rest;
  }

  lemma LexSpelledNumber(n: nat, rest: string)
    requires Breaks(rest)
    ensures LexOne(PrintNat(n) + rest) == Some((Number(n), rest))
  {
    DigitsSplit(n, rest);
    hide PrintNat, DigitRun, NatOf, LexIdent;
  }

  lemma LexSpelledParam(n: nat, rest: string)
    requires Breaks(rest)
    ensures LexOne("$" + PrintNat(n) + rest) == Some((Param(n), rest))
  {
    DigitsSplit(n, rest);
    hide PrintNat, DigitRun, NatOf, LexIdent;
    var s := "$" + PrintNat(n) + rest;
    assert s[1..] == PrintNat(n) + rest && s[0] == '$';
  }

  lemma LexSpelledWord(word: string, rest: string)
    requires ProperToken(Word(word)) && Breaks(rest)
    ensures LexOne(word + rest) == Some((Word(word), rest))
  {
    assert word[0] in word;
    LetterRunOf(word, rest);
    hide LetterRun;
    assert (word + rest)[..|word|] == word && (word + rest)[|word|..] == rest;
  }

  lemma LexSpelledSymbol(symbol: string, rest: string)
    requires ProperToken(Sym(symbol))
    ensures LexOne(symbol + rest) == Some((Sym(symbol), rest))
  {
    assert (symbol + rest)[..|symbol|] == symbol && (symbol + rest)[|symbol|..] == rest;
    assert symbol in TWO_CHAR_SYMBOLS ==> (symbol + rest)[..1] == [symbol[0]];
  }

  lemma LexSpelled(t: Token, rest: string)
    requires ProperToken(t) && (t.Sym? || Breaks(rest))
    ensures SpellToken(t) != "" && SpellToken(t)[0] != ' '
    ensures LexOne(SpellToken(t) + rest) == Some((t, rest))
  {
    match t
    case Ident(name) => LexSpelledIdent(name, rest);
    case Word(word) =>
      assert word[0] in word;
      LexSpelledWord(word, rest);
    case Number(n) =>
      assert PrintNat(n)[0] in PrintNat(n);
      LexSpelledNumber(n, rest);
    case Param(n) => LexSpelledParam(n, rest);
    case Sym(symbol) => LexSpelledSymbol(symbol, rest);
  }

  lemma SeparatedTail(ps: seq<Piece>)
    requires Separated(ps) && ps != []
    ensures Separated(ps[1..])
  {
    forall i | 0 <= i < |ps[1..]| - 1 && ps[1..][i].Tok? && ps[1..][i + 1].Tok?
      ensures ps[1..][i].token.Sym? || ps[1..][i + 1].token.Sym?
    {
      assert ps[i + 1] == ps[1..][i] && ps[i + 2] == ps[1..][i + 1];
    }
  }

  /** Every separated text is read back as the tokens it was put together from. */
  lemma {:induction false} LexSpell(ps: seq<Piece>)
    requires Separated(ps)
    ensures Lex(Spell(ps)) == Some(Tokens(ps))
    decreases |ps|
  {
    if ps != [] {
      var rest := Spell(ps[1..]);
      SeparatedTail(ps);
      LexSpell(ps[1..]);
      if ps[0].Space? {
        hide LexOne;
        assert (" " + rest)[1..] == rest;
      } else {
        assert ps[0] in ps;
        if !ps[0].token.Sym? {
          RestBreaks(ps);
        }
        LexSpelled(ps[0].token, rest);
        hide LexOne, SpellToken, Separated;
        assert (SpellToken(ps[0].token) + rest)[0] == SpellToken(ps[0].token)[0];
      }
    }
  }

  lemma RestBreaks(ps: seq<Piece>)
    requires Separated(ps) && ps != [] && ps[0].Tok? && !ps[0].token.Sym?
    ensures Breaks(Spell(ps[1..]))
  {
    if |ps| > 1 {
      var p := ps[1];
      assert p in ps && ps[1..][0] == p;
      assert Spell(ps[1..]) == SpellPiece(p) + Spell(ps[1..][1..]);
      if p.Tok? {
        SymbolBreaks(p.token.symbol, Spell(ps[1..][1..]));
      } else {
        assert Spell(ps[1..])[0] == ' ';
      }
    } else {
      assert ps[1..] == [];
    }
  }

  lemma SymbolBreaks(symbol: string, rest: string)
    requires ProperToken(Sym(symbol))
    ensures Breaks(symbol + rest)
  {
    assert symbol[0] in "()*.:><";
  }
}
