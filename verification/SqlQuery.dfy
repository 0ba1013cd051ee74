/** The statements the debug queries are: a parser for their tokens and the meaning of their
    WHERE clause in SQL's three-valued logic. */
module SqlQuery {
  import opened Wrappers
  import opened GoTime
  import opened SqlText

  datatype Expr =
    | ILike(column: string, param: nat)
    | AtLeast(column: string, param: nat)
    | AtMost(column: string, param: nat)
    | Or(left: Expr, right: Expr)
    | And(left: Expr, right: Expr)

  datatype Projection = CountRows | AllColumns

  datatype SortKey = ByPosition(n: nat) | ByColumn(name: string)

  datatype Page = Page(key: SortKey, descending: bool, limit: nat, offset: nat)

  datatype Statement =
    Statement(projection: Projection, schema: string, table: string, where: Option<Expr>, page: Option<Page>)

  // ── Parsing ────────────────────────────────────────────────────────────────

  function ParseAtom(ts: seq<Token>): (r: Option<(Expr, seq<Token>)>)
    ensures r.Some? ==> |r.value.1| < |ts|
    decreases |ts|, 0
  {
    if |ts| >= 1 && ts[0] == Sym("(") then
      var inner := ParseOr(ts[1..]);
      if inner.Some? && inner.value.1 != [] && inner.value.1[0] == Sym(")") then
        Some((inner.value.0, inner.value.1[1..]))
      else None
    else if |ts| >= 5 && ts[0].Ident? && ts[1..4] == [Sym("::"), Word("text"), Word("ILIKE")] && ts[4].Param? then
      Some((ILike(ts[0].name, ts[4].index), ts[5..]))
    else if |ts| >= 3 && ts[0].Ident? && ts[1] == Sym(">=") && ts[2].Param? then
      Some((AtLeast(ts[0].name, ts[2].index), ts[3..]))
    else if |ts| >= 3 && ts[0].Ident? && ts[1] == Sym("<=") && ts[2].Param? then
      Some((AtMost(ts[0].name, ts[2].index), ts[3..]))
    else None
  }

  function ParseAnd(ts: seq<Token>): (r: Option<(Expr, seq<Token>)>)
    ensures r.Some? ==> |r.value.1| < |ts|
    decreases |ts|, 1
  {
    var l := ParseAtom(ts);
    if l.Some? && l.value.1 != [] && l.value.1[0] == Word("AND") then
      var r := ParseAnd(l.value.1[1..]);
      if r.Some? then Some((And(l.value.0, r.value.0), r.value.1)) else None
    else l
  }

  function ParseOr(ts: seq<Token>): (r: Option<(Expr, seq<Token>)>)
    ensures r.Some? ==> |r.value.1| < |ts|
    decreases |ts|, 2
  {
    var l := ParseAnd(ts);
    if l.Some? && l.value.1 != [] && l.value.1[0] == Word("OR") then
      var r := ParseOr(l.value.1[1..]);
      if r.Some? then Some((Or(l.value.0, r.value.0), r.value.1)) else None
    else l
  }

  function ParsePage(ts: seq<Token>): Option<Page> {
    if |ts| == 8 && ts[0] == Word("ORDER") && ts[1] == Word("BY") && (ts[2].Number? || ts[2].Ident?)
      && (ts[3] == Word("ASC") || ts[3] == Word("DESC"))
      && ts[4] == Word("LIMIT") && ts[5].Number? && ts[6] == Word("OFFSET") && ts[7].Number? then
      Some(Page(if ts[2].Number? then ByPosition(ts[2].n) else ByColumn(ts[2].name),
                ts[3] == Word("DESC"), ts[5].n, ts[7].n))
    else None
  }

  function ParseProjection(ts: seq<Token>): Option<(Projection, seq<Token>)> {
    if |ts| >= 6 && ts[..6] == COUNT_HEAD then Some((CountRows, ts[6..]))
    else if |ts| >= 3 && ts[..3] == DATA_HEAD then Some((AllColumns, ts[3..]))
    else None
  }

  const COUNT_HEAD := [Word("SELECT"), Word("COUNT"), Sym("("), Sym("*"), Sym(")"), Word("FROM")]
  const DATA_HEAD := [Word("SELECT"), Sym("*"), Word("FROM")]

  /** What follows the table name: an optional condition, then an optional page. */
  function ParseTail(ts: seq<Token>): Option<(Option<Expr>, Option<Page>)> {
    var w := if ts != [] && ts[0] == Word("WHERE") then ParseOr(ts[1..]) else None;
    if ts != [] && ts[0] == Word("WHERE") && w.None? then None
    else
      var rest := if w.Some? then w.value.1 else ts;
      var where := if w.Some? then Some(w.value.0) else None;
      if rest == [] then Some((where, None))
      else if ParsePage(rest).Some? then Some((where, ParsePage(rest)))
      else None
  }

  function ParseStatement(ts: seq<Token>): Option<Statement> {
    var head := ParseProjection(ts);
    if head.None? then None
    else
      var rest := head.value.1;
      if |rest| >= 3 && rest[0].Ident? && rest[1] == Sym(".") && rest[2].Ident? && ParseTail(rest[3..]).Some? then
        var (where, page) := ParseTail(rest[3..]).value;
        Some(Statement(head.value.0, rest[0].name, rest[2].name, where, page))
      else None
  }

  // ── Meaning ────────────────────────────────────────────────────────────────

  /** SQL truth values, and Fault for an expression that does not type-check. */
  datatype Truth = True | False | Unknown | Fault

  datatype Arg = Pattern(pattern: string) | Moment(instant: Instant)

  /** A column value: its text form and, for dates and timestamps, the instant it stands for. */
  datatype Value = Null | Datum(text: string, instant: Instant)

  type Row = map<string, Value>

  function TruthOf(b: bool): Truth {
    if b then True else False
  }

  function OrOf(a: Truth, b: Truth): Truth {
    if a.Fault? || b.Fault? then Fault
    else if a.True? || b.True? then True
    else if a.Unknown? || b.Unknown? then Unknown
    else False
  }

  function AndOf(a: Truth, b: Truth): Truth {
    if a.Fault? || b.Fault? then Fault
    else if a.False? || b.False? then False
    else if a.Unknown? || b.Unknown? then Unknown
    else True
  }

  /** `ilike` is the case-insensitive pattern match of a text against a pattern. */
  function Eval(e: Expr, args: seq<Arg>, row: Row, ilike: (string, string) -> bool): Truth {
    match e
    case Or(l, r) => OrOf(Eval(l, args, row, ilike), Eval(r, args, row, ilike))
    case And(l, r) => AndOf(Eval(l, args, row, ilike), Eval(r, args, row, ilike))
    case ILike(column, n) =>
      if !(1 <= n <= |args|) || args[n - 1].Moment? || column !in row then Fault
      else if row[column].Null? then Unknown
      else TruthOf(ilike(row[column].text, args[n - 1].pattern))
    case AtLeast(column, n) =>
      if !(1 <= n <= |args|) || args[n - 1].Pattern? || column !in row then Fault
      else if row[column].Null? then Unknown
      else TruthOf(row[column].instant >= args[n - 1].instant)
    case AtMost(column, n) =>
      if !(1 <= n <= |args|) || args[n - 1].Pattern? || column !in row then Fault
      else if row[column].Null? then Unknown
      else TruthOf(row[column].instant <= args[n - 1].instant)
  }

  /** A WHERE clause keeps a row only if it evaluates to true. */
  function Keeps(where: Option<Expr>, args: seq<Arg>, row: Row, ilike: (string, string) -> bool): Truth {
    if where.None? then True else Eval(where.value, args, row, ilike)
  }

  // ── Conditions and their text ──────────────────────────────────────────────

  /** The conditions the builder puts together, each with its placeholder number. */
  datatype Cond =
    | AnyLike(columns: seq<string>, param: nat)
    | From(column: string, param: nat)
    | To(column: string, param: nat)

  function Join(parts: seq<string>, sep: string): string {
    if parts == [] then "" else if |parts| == 1 then parts[0] else parts[0] + sep + Join(parts[1..], sep)
  }

  function JoinPieces(parts: seq<seq<Piece>>, sep: seq<Piece>): seq<Piece> {
    if parts == [] then [] else if |parts| == 1 then parts[0] else parts[0] + sep + JoinPieces(parts[1..], sep)
  }

  function Keyword(word: string): seq<Piece> {
    [Space, Tok(Word(word)), Space]
  }

  function LikePieces(column: string, n: nat): seq<Piece> {
    [Tok(Ident(column)), Tok(Sym("::")), Tok(Word("text"))] + Led([Word("ILIKE"), Param(n)])
  }

  function LikeList(columns: seq<string>, n: nat): seq<seq<Piece>> {
    if columns == [] then [] else [LikePieces(columns[0], n)] + LikeList(columns[1..], n)
  }

  function BoundPieces(column: string, symbol: string, n: nat): seq<Piece> {
    [Tok(Ident(column))] + Led([Sym(symbol), Param(n)])
  }

  function CondPieces(c: Cond): seq<Piece> {
    match c
    case AnyLike(columns, n) => [Tok(Sym("("))] + JoinPieces(LikeList(columns, n), Keyword("OR")) + [Tok(Sym(")"))]
    case From(column, n) => BoundPieces(column, ">=", n)
    case To(column, n) => BoundPieces(column, "<=", n)
  }

  function CondList(conds: seq<Cond>): seq<seq<Piece>> {
    if conds == [] then [] else [CondPieces(conds[0])] + CondList(conds[1..])
  }

  function WherePieces(conds: seq<Cond>): seq<Piece> {
    if conds == [] then [] else Keyword("WHERE") + JoinPieces(CondList(conds), Keyword("AND"))
  }

  function TablePieces(schema: string, table: string): seq<Piece> {
    [Tok(Ident(schema)), Tok(Sym(".")), Tok(Ident(table))]
  }

  function CountPieces(schema: string, table: string, conds: seq<Cond>): seq<Piece> {
    CountHead() + TablePieces(schema, table) + WherePieces(conds)
  }

  function CountHead(): seq<Piece> {
    [Tok(Word("SELECT")), Space, Tok(Word("COUNT"))] + [Tok(Sym("(")), Tok(Sym("*")), Tok(Sym(")"))] + Keyword("FROM")
  }

  function DataHead(): seq<Piece> {
    [Tok(Word("SELECT")), Space, Tok(Sym("*"))] + Keyword("FROM")
  }

  function SortToken(key: SortKey): Token {
    match key
    case ByPosition(n) => Number(n)
    case ByColumn(name) => Ident(name)
  }

  function SortTokens(page: Page): seq<Token> {
    [Word("ORDER"), Word("BY"), SortToken(page.key), Word(if page.descending then "DESC" else "ASC")]
  }

  function LimitTokens(page: Page): seq<Token> {
    [Word("LIMIT"), Number(page.limit), Word("OFFSET"), Number(page.offset)]
  }

  /** Each token after a space. */
  function Led(ts: seq<Token>): seq<Piece> {
    if ts == [] then [] else [Space, Tok(ts[0])] + Led(ts[1..])
  }

  function PagePieces(page: Page): seq<Piece> {
    Led(SortTokens(page)) + Led(LimitTokens(page))
  }

  function DataPieces(schema: string, table: string, conds: seq<Cond>, page: Page): seq<Piece> {
    DataHead() + TablePieces(schema, table) + WherePieces(conds) + PagePieces(page)
  }

  // ── The expressions the conditions stand for ───────────────────────────────

  function OrAll(columns: seq<string>, n: nat): Expr
    requires columns != []
  {
    if |columns| == 1 then ILike(columns[0], n) else Or(ILike(columns[0], n), OrAll(columns[1..], n))
  }

  function CondExpr(c: Cond): Expr
    requires c.AnyLike? ==> c.columns != []
  {
    match c
    case AnyLike(columns, n) => OrAll(columns, n)
    case From(column, n) => AtLeast(column, n)
    case To(column, n) => AtMost(column, n)
  }

  predicate ProperConds(conds: seq<Cond>) {
    forall c :: c in conds && c.AnyLike? ==> c.columns != []
  }

  function AndAll(conds: seq<Cond>): Expr
    requires conds != [] && ProperConds(conds)
  {
    assert conds[0] in conds;
    if |conds| == 1 then CondExpr(conds[0])
    else
      assert forall c :: c in conds[1..] ==> c in conds;
      And(CondExpr(conds[0]), AndAll(conds[1..]))
  }

  function WhereExpr(conds: seq<Cond>): Option<Expr>
    requires ProperConds(conds)
  {
    if conds == [] then None else Some(AndAll(conds))
  }

  // ── Text, tokens and parse agree ───────────────────────────────────────────

  lemma {:induction false} SpellConcat(a: seq<Piece>, b: seq<Piece>)
    ensures Spell(a + b) == Spell(a) + Spell(b)
    decreases |a|
  {
    hide SpellPiece;
    if a == [] {
      assert a + b == b;
    } else {
      SpellConcat(a[1..], b);
      assert (a + b)[1..] == a[1..] + b;
      assert SpellPiece(a[0]) + (Spell(a[1..]) + Spell(b)) == (SpellPiece(a[0]) + Spell(a[1..])) + Spell(b);
    }
  }

  lemma {:induction false} TokensConcat(a: seq<Piece>, b: seq<Piece>)
    ensures Tokens(a + b) == Tokens(a) + Tokens(b)
    decreases |a|
  {
    if a == [] {
      assert a + b == b;
    } else {
      TokensConcat(a[1..], b);
      assert (a + b)[1..] == a[1..] + b;
    }
  }

  lemma TokensFrom(ps: seq<Piece>, i: nat)
    requires i < |ps|
    ensures Tokens(ps[i..])
         == if ps[i].Space? then Tokens(ps[i + 1..]) else [ps[i].token] + Tokens(ps[i + 1..])
  {
    assert ps[i..][1..] == ps[i + 1..];
  }

  lemma {:induction false} SpellJoin(parts: seq<string>, ps: seq<seq<Piece>>, sep: seq<Piece>)
    requires |parts| == |ps| && forall i :: 0 <= i < |parts| ==> parts[i] == Spell(ps[i])
    ensures Join(parts, Spell(sep)) == Spell(JoinPieces(ps, sep))
    decreases |parts|
  {
    if |parts| > 1 {
      SpellJoin(parts[1..], ps[1..], sep);
      SpellConcat(ps[0] + sep, JoinPieces(ps[1..], sep));
      SpellConcat(ps[0], sep);
    }
  }

  /** Tokens after which an expression has ended. */
  predicate Ends(rest: seq<Token>) {
    rest != [] ==> rest[0] != Word("AND") && rest[0] != Word("OR")
  }

  lemma ParseLike(column: string, n: nat, rest: seq<Token>)
    ensures ParseAtom(Tokens(LikePieces(column, n)) + rest) == Some((ILike(column, n), rest))
  {
    var ts := [Ident(column), Sym("::"), Word("text"), Word("ILIKE"), Param(n)];
    TokensOfLike(column, n);
    assert (ts + rest)[1..4] == [Sym("::"), Word("text"), Word("ILIKE")] && (ts + rest)[5..] == rest;
  }

  lemma TokensOfLike(column: string, n: nat)
    ensures Tokens(LikePieces(column, n)) == [Ident(column), Sym("::"), Word("text"), Word("ILIKE"), Param(n)]
  {
    var p := [Tok(Ident(column)), Tok(Sym("::")), Tok(Word("text"))];
    TokensConcat(p, Led([Word("ILIKE"), Param(n)]));
    TokensOfLed([Word("ILIKE"), Param(n)]);
    forall i: nat | i < |p| {
      TokensFrom(p, i);
    }
    hide Tokens;
    assert p[0..] == p;
    assert Tokens(p[3..]) == [] by { assert p[3..] == []; NoTokens(); }
  }

  lemma NoTokens()
    ensures Tokens([]) == []
  {
  }

  lemma TokensOfJoin(part: seq<Piece>, word: string, parts: seq<seq<Piece>>)
    requires parts != []
    ensures Tokens(JoinPieces([part] + parts, Keyword(word)))
         == Tokens(part) + [Word(word)] + Tokens(JoinPieces(parts, Keyword(word)))
  {
    assert ([part] + parts)[1..] == parts;
    TokensConcat(part + Keyword(word), JoinPieces(parts, Keyword(word)));
    TokensConcat(part, Keyword(word));
    TokensOfKeyword(word);
  }

  lemma TokensOfKeyword(word: string)
    ensures Tokens(Keyword(word)) == [Word(word)]
  {
    var k := Keyword(word);
    forall i: nat | i < |k| {
      TokensFrom(k, i);
    }
    hide Tokens;
    assert k[0..] == k;
    assert Tokens(k[3..]) == [] by { assert k[3..] == []; NoTokens(); }
  }

  lemma {:induction false} ParseLikes(columns: seq<string>, n: nat, rest: seq<Token>)
    requires columns != [] && Ends(rest)
    ensures ParseOr(Tokens(JoinPieces(LikeList(columns, n), Keyword("OR"))) + rest) == Some((OrAll(columns, n), rest))
    decreases |columns|
  {
    hide ParseAtom, Tokens, LikePieces, JoinPieces;
    var like := Tokens(LikePieces(columns[0], n));
    if |columns| == 1 {
      assert LikeList(columns, n) == [LikePieces(columns[0], n)];
      JoinOne(LikePieces(columns[0], n), Keyword("OR"));
      ParseLike(columns[0], n, rest);
    } else {
      var more := Tokens(JoinPieces(LikeList(columns[1..], n), Keyword("OR")));
      TokensOfJoin(LikePieces(columns[0], n), "OR", LikeList(columns[1..], n));
      ParseLikes(columns[1..], n, rest);
      var after := [Word("OR")] + more + rest;
      ParseLike(columns[0], n, after);
      assert like + [Word("OR")] + more + rest == like + after;
      assert after[1..] == more + rest;
    }
  }

  lemma JoinOne(part: seq<Piece>, sep: seq<Piece>)
    ensures JoinPieces([part], sep) == part
  {
  }

  lemma ParseCond(c: Cond, rest: seq<Token>)
    requires c.AnyLike? ==> c.columns != []
    ensures ParseAtom(Tokens(CondPieces(c)) + rest) == Some((CondExpr(c), rest))
  {
    match c
    case AnyLike(columns, n) =>
      var likes := JoinPieces(LikeList(columns, n), Keyword("OR"));
      var after := [Sym(")")] + rest;
      ParseLikes(columns, n, after);
      TokensConcat([Tok(Sym("("))] + likes, [Tok(Sym(")"))]);
      TokensConcat([Tok(Sym("("))], likes);
      TokensOfOne(Sym("("));
      TokensOfOne(Sym(")"));
      hide ParseOr, Tokens, JoinPieces, LikeList, OrAll;
      var ts := Tokens(CondPieces(c)) + rest;
      assert ts == [Sym("(")] + (Tokens(likes) + after);
      assert ts[1..] == Tokens(likes) + after;
      assert after[1..] == rest;
    case From(column, n) =>
      ParseBound(column, ">=", n, rest);
    case To(column, n) =>
      ParseBound(column, "<=", n, rest);
  }

  lemma TokensOfOne(t: Token)
    ensures Tokens([Tok(t)]) == [t]
  {
    assert [Tok(t)][1..] == [];
  }

  lemma ParseBound(column: string, symbol: string, n: nat, rest: seq<Token>)
    requires symbol == ">=" || symbol == "<="
    ensures ParseAtom(Tokens(BoundPieces(column, symbol, n)) + rest)
         == Some((if symbol == ">=" then AtLeast(column, n) else AtMost(column, n), rest))
  {
    TokensOfBound(column, symbol, n);
    hide Tokens;
    var ts := [Ident(column), Sym(symbol), Param(n)] + rest;
    assert ts[1] == Sym(symbol) && symbol[0] != ':';
    assert |ts| >= 4 ==> ts[1..4][0] == ts[1];
    assert ts[3..] == rest;
  }

  lemma TokensOfBound(column: string, symbol: string, n: nat)
    ensures Tokens(BoundPieces(column, symbol, n)) == [Ident(column), Sym(symbol), Param(n)]
  {
    TokensConcat([Tok(Ident(column))], Led([Sym(symbol), Param(n)]));
    TokensOfLed([Sym(symbol), Param(n)]);
    TokensOfOne(Ident(column));
  }

  lemma {:induction false} ParseConds(conds: seq<Cond>, rest: seq<Token>)
    requires conds != [] && ProperConds(conds) && Ends(rest)
    ensures ParseAnd(Tokens(JoinPieces(CondList(conds), Keyword("AND"))) + rest) == Some((AndAll(conds), rest))
    decreases |conds|
  {
    hide ParseAtom, Tokens, CondPieces, JoinPieces, CondExpr;
    assert conds[0] in conds;
    var first := Tokens(CondPieces(conds[0]));
    if |conds| == 1 {
      assert CondList(conds) == [CondPieces(conds[0])];
      JoinOne(CondPieces(conds[0]), Keyword("AND"));
      ParseCond(conds[0], rest);
    } else {
      assert forall c :: c in conds[1..] ==> c in conds;
      var more := Tokens(JoinPieces(CondList(conds[1..]), Keyword("AND")));
      TokensOfJoin(CondPieces(conds[0]), "AND", CondList(conds[1..]));
      ParseConds(conds[1..], rest);
      var after := [Word("AND")] + more + rest;
      ParseCond(conds[0], after);
      assert first + [Word("AND")] + more + rest == first + after;
      assert after[1..] == more + rest;
    }
  }

  /** What may follow the conditions: nothing, or a page. */
  predicate EndsStatement(rest: seq<Token>) {
    rest == [] || (rest[0] == Word("ORDER") && ParsePage(rest).Some?)
  }

  lemma ParseTailAfter(condition: seq<Token>, e: Expr, rest: seq<Token>)
    requires ParseAnd(condition + rest) == Some((e, rest)) && EndsStatement(rest)
    ensures ParseTail([Word("WHERE")] + (condition + rest))
         == Some((Some(e), if rest == [] then None else ParsePage(rest)))
  {
    hide ParsePage, ParseAnd;
    var ts := [Word("WHERE")] + (condition + rest);
    assert ts[1..] == condition + rest;
  }

  lemma TokensOfWhere(conds: seq<Cond>)
    requires conds != []
    ensures Tokens(WherePieces(conds)) == [Word("WHERE")] + Tokens(JoinPieces(CondList(conds), Keyword("AND")))
  {
    TokensConcat(Keyword("WHERE"), JoinPieces(CondList(conds), Keyword("AND")));
    TokensOfKeyword("WHERE");
    hide Tokens, JoinPieces, CondList, Keyword;
  }

  lemma ParseNoWhere(rest: seq<Token>)
    requires EndsStatement(rest)
    ensures ParseTail(rest) == Some((None, if rest == [] then None else ParsePage(rest)))
  {
    hide ParsePage, ParseOr;
  }

  lemma EndsEither(rest: seq<Token>)
    requires EndsStatement(rest)
    ensures Ends(rest)
  {
  }

  lemma ParseSomeWhere(conds: seq<Cond>, rest: seq<Token>)
    requires conds != [] && ProperConds(conds) && EndsStatement(rest)
    ensures ParseTail(Tokens(WherePieces(conds)) + rest)
         == Some((Some(AndAll(conds)), if rest == [] then None else ParsePage(rest)))
  {
    hide ParsePage, ParseAnd, ParseTail, Tokens, JoinPieces, CondList, AndAll, Keyword, WherePieces;
    hide EndsStatement, Ends;
    var list := Tokens(JoinPieces(CondList(conds), Keyword("AND")));
    EndsEither(rest);
    ParseConds(conds, rest);
    TokensOfWhere(conds);
    ParseTailAfter(list, AndAll(conds), rest);
    assert [Word("WHERE")] + list + rest == [Word("WHERE")] + (list + rest);
  }

  lemma ParseWhere(conds: seq<Cond>, rest: seq<Token>)
    requires ProperConds(conds) && EndsStatement(rest)
    ensures ParseTail(Tokens(WherePieces(conds)) + rest)
         == Some((WhereExpr(conds), if rest == [] then None else ParsePage(rest)))
  {
    hide ParsePage, ParseAnd, ParseOr, ParseTail, AndAll, EndsStatement, ProperConds, JoinPieces, CondList;
    if conds == [] {
      ParseNoWhere(rest);
      assert Tokens(WherePieces(conds)) + rest == rest;
    } else {
      hide Tokens, WherePieces;
      ParseSomeWhere(conds, rest);
    }
  }

  lemma TokensOfThree(a: Piece, b: Piece, c: Piece)
    ensures Tokens([a, b, c])
         == (if a.Tok? then [a.token] else []) + (if b.Tok? then [b.token] else []) + (if c.Tok? then [c.token] else [])
  {
    assert [a, b, c][1..] == [b, c] && [b, c][1..] == [c] && [c][1..] == [];
    assert Tokens([c]) == if c.Tok? then [c.token] else [];
    assert Tokens([b, c]) == (if b.Tok? then [b.token] else []) + Tokens([c]);
  }

  lemma TokensOfHeads()
    ensures Tokens(CountHead()) == COUNT_HEAD
    ensures Tokens(DataHead()) == DATA_HEAD
  {
    var a, b, c := [Tok(Word("SELECT")), Space, Tok(Word("COUNT"))], [Tok(Sym("(")), Tok(Sym("*")), Tok(Sym(")"))],
      [Tok(Word("SELECT")), Space, Tok(Sym("*"))];
    TokensConcat(a + b, Keyword("FROM"));
    TokensConcat(a, b);
    TokensConcat(c, Keyword("FROM"));
    TokensOfKeyword("FROM");
    TokensOfThree(a[0], a[1], a[2]);
    TokensOfThree(b[0], b[1], b[2]);
    TokensOfThree(c[0], c[1], c[2]);
    hide Tokens, Keyword;
  }

  lemma TokensOfTable(schema: string, table: string)
    ensures Tokens(TablePieces(schema, table)) == [Ident(schema), Sym("."), Ident(table)]
  {
    TokensOfThree(Tok(Ident(schema)), Tok(Sym(".")), Tok(Ident(table)));
  }

  lemma {:induction false} TokensOfLed(ts: seq<Token>)
    ensures Tokens(Led(ts)) == ts
  {
    if ts != [] {
      TokensOfLed(ts[1..]);
      var p := Led(ts);
      TokensFrom(p, 0);
      TokensFrom(p, 1);
      assert p[0..] == p && p[2..] == Led(ts[1..]);
    }
  }

  lemma PageParses(page: Page)
    ensures ParsePage(Tokens(PagePieces(page))) == Some(page)
    ensures Tokens(PagePieces(page)) != [] && Tokens(PagePieces(page))[0] == Word("ORDER")
  {
    TokensConcat(Led(SortTokens(page)), Led(LimitTokens(page)));
    TokensOfLed(SortTokens(page));
    TokensOfLed(LimitTokens(page));
  }

  lemma StatementParses(head: seq<Token>, projection: Projection, schema: string, table: string, conds: seq<Cond>,
                        rest: seq<Token>, page: Option<Page>)
    requires head == if projection.CountRows? then COUNT_HEAD else DATA_HEAD
    requires ProperConds(conds)
    requires if rest == [] then page == None else rest[0] == Word("ORDER") && ParsePage(rest) == page && page.Some?
    ensures ParseStatement(head + Tokens(TablePieces(schema, table)) + (Tokens(WherePieces(conds)) + rest))
         == Some(Statement(projection, schema, table, WhereExpr(conds), page))
  {
    hide Tokens, ParseTail, ParsePage, WherePieces, TablePieces;
    var tail := Tokens(WherePieces(conds)) + rest;
    ParseWhere(conds, rest);
    TokensOfTable(schema, table);
    var t := [Ident(schema), Sym("."), Ident(table)] + tail;
    assert t[3..] == tail;
    var ts := head + [Ident(schema), Sym("."), Ident(table)] + tail;
    assert ts == head + t;
    assert ts[..|head|] == head && ts[|head|..] == t;
    if projection.AllColumns? {
      assert |ts| >= 6 ==> ts[..6][1] == Sym("*") && COUNT_HEAD[1] == Word("COUNT");
    }
  }

  lemma CountParses(schema: string, table: string, conds: seq<Cond>)
    requires ProperConds(conds)
    ensures ParseStatement(Tokens(CountPieces(schema, table, conds)))
         == Some(Statement(CountRows, schema, table, WhereExpr(conds), None))
  {
    StatementParses(COUNT_HEAD, CountRows, schema, table, conds, [], None);
    TokensConcat(CountHead() + TablePieces(schema, table), WherePieces(conds));
    TokensConcat(CountHead(), TablePieces(schema, table));
    TokensOfHeads();
    assert Tokens(WherePieces(conds)) + [] == Tokens(WherePieces(conds));
  }

  lemma TokensOfData(schema: string, table: string, conds: seq<Cond>, page: Page)
    ensures Tokens(DataPieces(schema, table, conds, page))
         == DATA_HEAD + Tokens(TablePieces(schema, table)) + (Tokens(WherePieces(conds)) + Tokens(PagePieces(page)))
  {
    var front := DataHead() + TablePieces(schema, table);
    TokensConcat(front + WherePieces(conds), PagePieces(page));
    TokensConcat(front, WherePieces(conds));
    TokensConcat(DataHead(), TablePieces(schema, table));
    TokensOfHeads();
    hide Tokens, PagePieces, WherePieces, TablePieces, DataHead;
  }

  lemma DataParses(schema: string, table: string, conds: seq<Cond>, page: Page)
    requires ProperConds(conds)
    ensures ParseStatement(Tokens(DataPieces(schema, table, conds, page)))
         == Some(Statement(AllColumns, schema, table, WhereExpr(conds), Some(page)))
  {
    var rest := Tokens(PagePieces(page));
    PageParses(page);
    hide Tokens, ParseStatement, ParsePage, PagePieces, WherePieces, TablePieces, DataPieces;
    StatementParses(DATA_HEAD, AllColumns, schema, table, conds, rest, Some(page));
    TokensOfData(schema, table, conds, page);
  }

  // ── The text is separated ──────────────────────────────────────────────────

  predicate Soft(p: Piece) {
    p.Space? || p.token.Sym?
  }

  lemma SeparatedConcat(a: seq<Piece>, b: seq<Piece>)
    requires Separated(a) && Separated(b)
    requires a == [] || b == [] || Soft(a[|a| - 1]) || Soft(b[0])
    ensures Separated(a + b)
  {
    var ps := a + b;
    forall i | 0 <= i < |ps| - 1 && ps[i].Tok? && ps[i + 1].Tok? ensures ps[i].token.Sym? || ps[i + 1].token.Sym? {
      if i + 1 < |a| {
        assert ps[i] == a[i] && ps[i + 1] == a[i + 1];
      } else if i >= |a| {
        assert ps[i] == b[i - |a|] && ps[i + 1] == b[i - |a| + 1];
      }
    }
  }

  lemma {:induction false} SeparatedJoin(parts: seq<seq<Piece>>, word: string)
    requires forall p :: p in parts ==> Separated(p)
    requires ProperToken(Word(word))
    ensures Separated(JoinPieces(parts, Keyword(word)))
    decreases |parts|
  {
    if parts != [] {
      assert parts[0] in parts;
      if |parts| > 1 {
        assert forall p :: p in parts[1..] ==> p in parts;
        SeparatedJoin(parts[1..], word);
        SeparatedConcat(parts[0], Keyword(word));
        SeparatedConcat(parts[0] + Keyword(word), JoinPieces(parts[1..], Keyword(word)));
      }
    }
  }

  lemma {:induction false} SeparatedLikes(columns: seq<string>, n: nat)
    ensures forall p :: p in LikeList(columns, n) ==> Separated(p)
  {
    if columns != [] {
      SeparatedLikes(columns[1..], n);
      SeparatedLed([Word("ILIKE"), Param(n)]);
      SeparatedConcat([Tok(Ident(columns[0])), Tok(Sym("::")), Tok(Word("text"))], Led([Word("ILIKE"), Param(n)]));
    }
  }

  lemma SeparatedCond(c: Cond)
    ensures Separated(CondPieces(c))
  {
    if c.AnyLike? {
      var likes := JoinPieces(LikeList(c.columns, c.param), Keyword("OR"));
      SeparatedLikes(c.columns, c.param);
      SeparatedJoin(LikeList(c.columns, c.param), "OR");
      SeparatedConcat([Tok(Sym("("))], likes);
      SeparatedConcat([Tok(Sym("("))] + likes, [Tok(Sym(")"))]);
    } else {
      var ts := [Sym(if c.From? then ">=" else "<="), Param(c.param)];
      SeparatedLed(ts);
      SeparatedConcat([Tok(Ident(c.column))], Led(ts));
    }
  }

  lemma {:induction false} SeparatedConds(conds: seq<Cond>)
    ensures forall p :: p in CondList(conds) ==> Separated(p)
  {
    if conds != [] {
      SeparatedCond(conds[0]);
      SeparatedConds(conds[1..]);
    }
  }

  lemma SeparatedWhere(conds: seq<Cond>)
    ensures Separated(WherePieces(conds))
    ensures if conds == [] then WherePieces(conds) == [] else WherePieces(conds) != [] && WherePieces(conds)[0] == Space
  {
    if conds != [] {
      SeparatedConds(conds);
      SeparatedJoin(CondList(conds), "AND");
      SeparatedConcat(Keyword("WHERE"), JoinPieces(CondList(conds), Keyword("AND")));
    }
  }

  lemma SeparatedThree(a: Piece, b: Piece, c: Piece)
    requires (a.Tok? ==> ProperToken(a.token)) && (b.Tok? ==> ProperToken(b.token)) && (c.Tok? ==> ProperToken(c.token))
    requires Soft(a) || Soft(b)
    requires Soft(b) || Soft(c)
    ensures Separated([a, b, c])
  {
    hide ProperToken;
  }

  lemma SeparatedHeads(schema: string, table: string)
    ensures Separated(CountHead()) && Separated(DataHead()) && Separated(TablePieces(schema, table))
    ensures CountHead()[|CountHead()| - 1] == DataHead()[|DataHead()| - 1] == Space
  {
    var a, b, c := [Tok(Word("SELECT")), Space, Tok(Word("COUNT"))], [Tok(Sym("(")), Tok(Sym("*")), Tok(Sym(")"))],
      [Tok(Word("SELECT")), Space, Tok(Sym("*"))];
    assert Separated(a) by { SeparatedThree(a[0], a[1], a[2]); }
    assert Separated(b) by { SeparatedThree(b[0], b[1], b[2]); }
    assert Separated(c) by { SeparatedThree(c[0], c[1], c[2]); }
    assert Separated(Keyword("FROM")) by { SeparatedThree(Space, Tok(Word("FROM")), Space); }
    assert Separated(TablePieces(schema, table)) by {
      SeparatedThree(Tok(Ident(schema)), Tok(Sym(".")), Tok(Ident(table)));
    }
    hide Separated;
    SeparatedConcat(a, b);
    SeparatedConcat(a + b, Keyword("FROM"));
    SeparatedConcat(c, Keyword("FROM"));
  }

  lemma {:induction false} SeparatedLed(ts: seq<Token>)
    requires forall t :: t in ts ==> ProperToken(t)
    ensures Separated(Led(ts)) && (ts != [] ==> Led(ts) != [] && Led(ts)[0] == Space)
  {
    if ts != [] {
      assert ts[0] in ts && forall t :: t in ts[1..] ==> t in ts;
      SeparatedLed(ts[1..]);
      SeparatedConcat([Space, Tok(ts[0])], Led(ts[1..]));
    }
  }

  lemma SeparatedPage(page: Page)
    ensures Separated(PagePieces(page)) && PagePieces(page) != [] && PagePieces(page)[0] == Space
  {
    hide Separated, Led;
    SeparatedLed(SortTokens(page));
    SeparatedLed(LimitTokens(page));
    SeparatedConcat(Led(SortTokens(page)), Led(LimitTokens(page)));
  }

  lemma SeparatedQueries(schema: string, table: string, conds: seq<Cond>, page: Page)
    ensures Separated(CountPieces(schema, table, conds))
    ensures Separated(DataPieces(schema, table, conds, page))
  {
    hide Separated, WherePieces, PagePieces;
    SeparatedWhere(conds);
    SeparatedHeads(schema, table);
    SeparatedPage(page);
    var t, w, p := TablePieces(schema, table), WherePieces(conds), PagePieces(page);
    SeparatedConcat(CountHead(), t);
    SeparatedConcat(DataHead(), t);
    hide TablePieces, CountHead, DataHead;
    SeparatedConcat(CountHead() + t, w);
    SeparatedConcat(DataHead() + t, w);
    SeparatedConcat(DataHead() + t + w, p);
  }
}
