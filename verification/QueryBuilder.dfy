/** Building the count and data queries of the debug row browser. */
module QueryBuilder {
  import opened Wrappers
  import opened GoTime
  import opened Strings
  import opened Decimal
  import opened SqlText
  import opened SqlQuery

  /** Library calls the builder relies on: case conversion and folding, the two accepted date
      formats, and the database's ILIKE match. */
  datatype Library = Library(
    lower: string -> string,
    upper: string -> string,
    equalFold: (string, string) -> bool,
    parseRfc3339: string -> Option<Instant>,
    parseDate: string -> Option<Instant>,
    ilike: (string, string) -> bool)

  datatype Column = Column(name: string, dataType: string)

  /** The request parameters with their defaults filled in; absent ones are empty. */
  datatype Request = Request(schema: string, table: string, q: string, fromDate: string, toDate: string,
                             column: string, sort: string, order: string, limit: string, offset: string)

  // ── What the request asks for ──────────────────────────────────────────────

  predicate IsText(lib: Library, c: Column) {
    var t := lib.lower(c.dataType);
    Contains(t, "char") || Contains(t, "text") || Contains(t, "jsonb") || Contains(t, "json")
  }

  predicate IsTime(lib: Library, c: Column) {
    var t := lib.lower(c.dataType);
    !IsText(lib, c) && (Contains(t, "timestamp") || Contains(t, "date"))
  }

  function TextColumns(lib: Library, columns: seq<Column>): seq<string> {
    if columns == [] then []
    else
      var front, last := TextColumns(lib, columns[..|columns| - 1]), columns[|columns| - 1];
      if IsText(lib, last) then front + [last.name] else front
  }

  function TimeColumns(lib: Library, columns: seq<Column>): seq<string> {
    if columns == [] then []
    else
      var front, last := TimeColumns(lib, columns[..|columns| - 1]), columns[|columns| - 1];
      if IsTime(lib, last) then front + [last.name] else front
  }

  /** The first of `names` that equals `name` under case folding. */
  function FirstFold(lib: Library, names: seq<string>, name: string): Option<string> {
    if names == [] then None
    else if lib.equalFold(names[0], name) then Some(names[0])
    else FirstFold(lib, names[1..], name)
  }

  /** The column the documentation applies the date bounds to: the named one, or the first time
      column if none is named. */
  function DateColumn(lib: Library, times: seq<string>, requested: string): Option<string> {
    if requested != "" then FirstFold(lib, times, requested)
    else if times == [] then None
    else Some(times[0])
  }

  /** The column the builder applies them to, where the empty name stands for no column: it
      falls back on the first time column if the named one is not found. */
  function DateTarget(lib: Library, times: seq<string>, requested: string): string {
    var found := if requested == "" then None else FirstFold(lib, times, requested);
    var target := if found.Some? then found.value else "";
    if target == "" && times != [] then times[0] else target
  }

  function LowerBound(lib: Library, s: string): Option<Instant> {
    if s == "" then None
    else if lib.parseRfc3339(s).Some? then lib.parseRfc3339(s)
    else lib.parseDate(s)
  }

  /** A plain date includes its whole day. */
  function UpperBound(lib: Library, s: string): Option<Instant> {
    if s == "" then None
    else if lib.parseRfc3339(s).Some? then lib.parseRfc3339(s)
    else if lib.parseDate(s).Some? then Some(lib.parseDate(s).value + DAY - 1)
    else None
  }

  function LikePattern(q: string): string {
    "%" + q + "%"
  }

  /** Some text column matches. */
  predicate AnyMatches(lib: Library, names: seq<string>, q: string, row: Row)
    requires forall c :: c in names ==> c in row
  {
    exists c :: c in names && row[c].Datum? && lib.ilike(row[c].text, LikePattern(q))
  }

  /** The rows the documentation promises: some text column matches a given q, and the date
      column's value lies within the given bounds. A null matches nothing, and a filter that
      cannot be applied accepts no row. */
  predicate Meant(lib: Library, r: Request, columns: seq<Column>, row: Row)
    requires forall c :: c in columns ==> c.name in row
  {
    ColumnsInRow(lib, columns, row);
    var texts, times := TextColumns(lib, columns), TimeColumns(lib, columns);
    var target, lo, hi := DateColumn(lib, times, r.column), LowerBound(lib, r.fromDate), UpperBound(lib, r.toDate);
    DateColumnIsTime(lib, times, r.column);
    && (r.q != "" ==> AnyMatches(lib, texts, r.q, row))
    && (r.fromDate != "" ==>
          target.Some? && lo.Some? && row[target.value].Datum? && lo.value <= row[target.value].instant)
    && (r.toDate != "" ==>
          target.Some? && hi.Some? && row[target.value].Datum? && row[target.value].instant <= hi.value)
  }

  /** Every filter of the request can be applied: there is a text column to search, the date
      column exists, and the given bounds are in an accepted format. */
  predicate Applicable(lib: Library, r: Request, columns: seq<Column>) {
    && (r.q != "" ==> TextColumns(lib, columns) != [])
    && (r.fromDate != "" || r.toDate != "" ==> DateColumn(lib, TimeColumns(lib, columns), r.column).Some?)
    && (r.fromDate != "" ==> LowerBound(lib, r.fromDate).Some?)
    && (r.toDate != "" ==> UpperBound(lib, r.toDate).Some?)
  }

  lemma {:induction false} ColumnsInRow(lib: Library, columns: seq<Column>, row: Row)
    requires forall c :: c in columns ==> c.name in row
    ensures forall c :: c in TextColumns(lib, columns) ==> c in row
    ensures forall c :: c in TimeColumns(lib, columns) ==> c in row
    decreases |columns|
  {
    if columns != [] {
      assert columns[|columns| - 1] in columns;
      ColumnsInRow(lib, columns[..|columns| - 1], row);
    }
  }

  lemma {:induction false} FirstFoldIsMember(lib: Library, names: seq<string>, name: string)
    ensures FirstFold(lib, names, name).Some? ==> FirstFold(lib, names, name).value in names
  {
    if names != [] {
      FirstFoldIsMember(lib, names[1..], name);
    }
  }

  lemma DateColumnIsTime(lib: Library, times: seq<string>, requested: string)
    ensures DateColumn(lib, times, requested).Some? ==> DateColumn(lib, times, requested).value in times
  {
    FirstFoldIsMember(lib, times, requested);
  }

  // ── The conditions and arguments that are built ────────────────────────────

  datatype Plan = Plan(conds: seq<Cond>, args: seq<Arg>)

  function LikePlan(lib: Library, r: Request, columns: seq<Column>): Plan {
    var texts := TextColumns(lib, columns);
    if r.q != "" && texts != [] then Plan([AnyLike(texts, 1)], [Pattern(LikePattern(r.q))]) else Plan([], [])
  }

  function FromPlan(p: Plan, target: string, lo: Option<Instant>): Plan {
    if target != "" && lo.Some? then Plan(p.conds + [From(target, |p.args| + 1)], p.args + [Moment(lo.value)]) else p
  }

  function ToPlan(p: Plan, target: string, hi: Option<Instant>): Plan {
    if target != "" && hi.Some? then Plan(p.conds + [To(target, |p.args| + 1)], p.args + [Moment(hi.value)]) else p
  }

  function BuildPlan(lib: Library, r: Request, columns: seq<Column>): Plan {
    var target := DateTarget(lib, TimeColumns(lib, columns), r.column);
    ToPlan(FromPlan(LikePlan(lib, r, columns), target, LowerBound(lib, r.fromDate)), target, UpperBound(lib, r.toDate))
  }

  function SortBy(lib: Library, columns: seq<Column>, sort: string): SortKey {
    if columns == [] then ByPosition(1)
    else if lib.equalFold(columns[0].name, sort) then ByColumn(columns[0].name)
    else SortBy(lib, columns[1..], sort)
  }

  function PageOf(lib: Library, r: Request, columns: seq<Column>): (p: Page)
    ensures 1 <= p.limit <= 500 && p.offset <= 1_000_000
  {
    Page(if r.sort == "" then ByPosition(1) else SortBy(lib, columns, r.sort),
         lib.upper(r.order) == "DESC", ClampInt(r.limit, 1, 500), ClampInt(r.offset, 0, 1_000_000))
  }

  // ── The builder ────────────────────────────────────────────────────────────

  lemma Assoc(a: string, b: string, c: string)
    ensures a + (b + c) == (a + b) + c
  {
  }

  /** A single piece, and a piece before others. */
  lemma SpellCons(p: Piece, ps: seq<Piece>)
    ensures Spell([p] + ps) == SpellPiece(p) + Spell(ps)
    ensures Spell([p]) == SpellPiece(p)
  {
    assert ([p] + ps)[1..] == ps && [p][1..] == [];
    hide SpellPiece;
    assert SpellPiece(p) + Spell([]) == SpellPiece(p);
  }

  lemma SpellLed(ts: seq<Token>)
    requires ts != []
    ensures Spell(Led(ts)) == " " + (SpellToken(ts[0]) + Spell(Led(ts[1..])))
  {
    hide SpellToken;
    SpellCons(Space, [Tok(ts[0])] + Led(ts[1..]));
    SpellCons(Tok(ts[0]), Led(ts[1..]));
    assert Led(ts) == [Space] + ([Tok(ts[0])] + Led(ts[1..]));
    hide Spell, Led;
  }

  lemma SpellLedOne(t: Token)
    ensures Spell(Led([t])) == " " + SpellToken(t)
  {
    SpellLed([t]);
    assert Led([t][1..]) == [];
    hide SpellToken;
    assert SpellToken(t) + "" == SpellToken(t);
  }

  lemma SpellLedTwo(a: Token, b: Token)
    ensures Spell(Led([a, b])) == " " + (SpellToken(a) + (" " + SpellToken(b)))
  {
    SpellLed([a, b]);
    assert [a, b][1..] == [b];
    SpellLedOne(b);
  }

  lemma SpellLike(column: string, n: nat)
    ensures Spell(LikePieces(column, n)) == PgQuoteIdent(column) + ("::text ILIKE $" + PrintInt(n))
  {
    hide PrintNat, PgQuoteIdent, Spell, Led;
    var like, d := Led([Word("ILIKE"), Param(n)]), PrintInt(n);
    var a, b, c := Tok(Ident(column)), Tok(Sym("::")), Tok(Word("text"));
    SpellLedTwo(Word("ILIKE"), Param(n));
    SpellCons(c, like);
    SpellCons(b, [c] + like);
    SpellCons(a, [b] + ([c] + like));
    assert LikePieces(column, n) == [a] + ([b] + ([c] + like));
    hide PrintInt, LikePieces;
    assert Spell(like) == " " + ("ILIKE" + (" " + ("$" + d)));
    Assoc(" ", "$", d);
    Assoc("ILIKE", " $", d);
    Assoc(" ", "ILIKE $", d);
    Assoc("text", " ILIKE $", d);
    Assoc("::", "text ILIKE $", d);
  }

  lemma SpellBound(column: string, symbol: string, n: nat)
    ensures Spell(BoundPieces(column, symbol, n)) == PgQuoteIdent(column) + (" " + (symbol + (" $" + PrintInt(n))))
  {
    SpellLedTwo(Sym(symbol), Param(n));
    SpellCons(Tok(Ident(column)), Led([Sym(symbol), Param(n)]));
    hide PrintNat, PgQuoteIdent, Spell;
    Assoc(" ", "$", PrintNat(n));
  }

  lemma SpellKeyword(word: string)
    ensures Spell(Keyword(word)) == " " + word + " "
  {
    SpellCons(Tok(Word(word)), [Space]);
    SpellCons(Space, [Tok(Word(word)), Space]);
    SpellCons(Space, []);
    assert Keyword(word) == [Space] + [Tok(Word(word)), Space];
    assert [Tok(Word(word)), Space] == [Tok(Word(word))] + [Space];
    hide Spell;
    Assoc(" ", word, " ");
  }

  lemma SpellConnectives()
    ensures Spell(Keyword("OR")) == " OR "
    ensures Spell(Keyword("AND")) == " AND "
    ensures Spell(Keyword("WHERE")) == " WHERE "
    ensures Spell(Keyword("FROM")) == " FROM "
  {
    hide Spell, Keyword;
    SpellKeyword("OR");
    SpellKeyword("AND");
    SpellKeyword("WHERE");
    SpellKeyword("FROM");
  }

  lemma SpellTable(schema: string, table: string)
    ensures Spell(TablePieces(schema, table)) == PgQuoteIdent(schema) + ("." + PgQuoteIdent(table))
  {
    var a, b, c := Tok(Ident(schema)), Tok(Sym(".")), Tok(Ident(table));
    SpellCons(c, []);
    SpellCons(b, [c]);
    SpellCons(a, [b] + [c]);
    assert TablePieces(schema, table) == [a] + ([b] + [c]);
  }

  lemma SpellThree(a: Piece, b: Piece, c: Piece)
    ensures Spell([a, b, c]) == SpellPiece(a) + (SpellPiece(b) + SpellPiece(c))
  {
    SpellCons(c, []);
    SpellCons(b, [c]);
    SpellCons(a, [b] + [c]);
    assert [a, b, c] == [a] + ([b] + [c]);
  }

  lemma SpellHeads()
    ensures Spell(CountHead()) == "SELECT COUNT(*) FROM "
    ensures Spell(DataHead()) == "SELECT * FROM "
  {
    var a, b, c := [Tok(Word("SELECT")), Space, Tok(Word("COUNT"))], [Tok(Sym("(")), Tok(Sym("*")), Tok(Sym(")"))],
      [Tok(Word("SELECT")), Space, Tok(Sym("*"))];
    SpellConcat(a + b, Keyword("FROM"));
    SpellConcat(a, b);
    SpellConcat(c, Keyword("FROM"));
    SpellConnectives();
    hide Spell, Keyword;
    assert Spell(a) == "SELECT COUNT" by { SpellThree(a[0], a[1], a[2]); }
    assert Spell(b) == "(*)" by { SpellThree(b[0], b[1], b[2]); }
    assert Spell(c) == "SELECT *" by { SpellThree(c[0], c[1], c[2]); }
  }

  lemma SpellLedFour(a: Token, b: Token, c: Token, d: Token)
    ensures Spell(Led([a, b, c, d]))
         == " " + (SpellToken(a) + (" " + (SpellToken(b) + (" " + (SpellToken(c) + (" " + SpellToken(d)))))))
  {
    assert [a, b, c, d][1..] == [b, c, d] && [b, c, d][1..] == [c, d];
    SpellLedTwo(c, d);
    SpellLed([b, c, d]);
    SpellLed([a, b, c, d]);
  }

  lemma Lead(word: string, rest: string)
    ensures " " + (word + (" " + rest)) == (" " + word + " ") + rest
  {
  }

  function SortText(page: Page): string {
    " ORDER BY " + (SpellToken(SortToken(page.key)) + (" " + if page.descending then "DESC" else "ASC"))
  }

  function LimitText(page: Page): string {
    " LIMIT " + (PrintInt(page.limit) + (" OFFSET " + PrintInt(page.offset)))
  }

  lemma SpellSort(page: Page)
    ensures Spell(Led(SortTokens(page))) == SortText(page)
  {
    var key, dir := SpellToken(SortToken(page.key)), if page.descending then "DESC" else "ASC";
    hide Spell, Led;
    var s := SortTokens(page);
    SpellLedFour(s[0], s[1], s[2], s[3]);
    Lead("ORDER", "BY" + (" " + (key + (" " + dir))));
    Assoc("BY", " ", key + (" " + dir));
    Assoc(" ORDER ", "BY ", key + (" " + dir));
  }

  lemma SpellLimit(page: Page)
    ensures Spell(Led(LimitTokens(page))) == LimitText(page)
  {
    hide Spell, Led, PrintNat;
    var lim, off := PrintInt(page.limit), PrintInt(page.offset);
    var l := LimitTokens(page);
    SpellLedFour(l[0], l[1], l[2], l[3]);
    Lead("OFFSET", off);
    Lead("LIMIT", lim + (" OFFSET " + off));
  }

  lemma SpellPage(page: Page)
    ensures Spell(PagePieces(page)) == SortText(page) + LimitText(page)
  {
    SpellConcat(Led(SortTokens(page)), Led(LimitTokens(page)));
    SpellSort(page);
    SpellLimit(page);
  }

  // ── The builder ────────────────────────────────────────────────────────────

  function BoundText(column: string, symbol: string, argN: nat): string {
    PgQuoteIdent(column) + (" " + (symbol + (" $" + PrintInt(argN))))
  }

  /** `texts` are the conditions `conds` as they appear in the query. */
  ghost predicate Spelled(texts: seq<string>, conds: seq<Cond>) {
    |texts| == |conds| && forall i :: 0 <= i < |texts| ==> texts[i] == Spell(CondPieces(conds[i]))
  }

  method Classify(lib: Library, columns: seq<Column>) returns (texts: seq<string>, times: seq<string>)
    ensures texts == TextColumns(lib, columns) && times == TimeColumns(lib, columns)
  {
    texts, times := [], [];
    for i := 0 to |columns|
      invariant texts == TextColumns(lib, columns[..i]) && times == TimeColumns(lib, columns[..i])
    {
      assert columns[..i + 1][..i] == columns[..i];
      var dt := lib.lower(columns[i].dataType);
      if Contains(dt, "char") || Contains(dt, "text") || Contains(dt, "jsonb") || Contains(dt, "json") {
        texts := texts + [columns[i].name];
      } else if Contains(dt, "timestamp") || Contains(dt, "date") {
        times := times + [columns[i].name];
      }
    }
    assert columns[..|columns|] == columns;
  }

  /** The search condition over all text columns, sharing one placeholder. */
  method LikeCondition(texts: seq<string>, argN: nat) returns (condition: string)
    ensures condition == Spell(CondPieces(AnyLike(texts, argN)))
  {
    var ors := [];
    for i := 0 to |texts|
      invariant |ors| == i
      invariant forall j :: 0 <= j < i ==> ors[j] == Spell(LikePieces(texts[j], argN))
    {
      SpellLike(texts[i], argN);
      ors := ors + [PgQuoteIdent(texts[i]) + ("::text ILIKE $" + PrintInt(argN))];
    }
    LikesInParens(ors, texts, argN);
    condition := "(" + Join(ors, " OR ") + ")";
  }

  lemma LikesInParens(ors: seq<string>, columns: seq<string>, n: nat)
    requires |ors| == |columns| && forall j :: 0 <= j < |ors| ==> ors[j] == Spell(LikePieces(columns[j], n))
    ensures "(" + Join(ors, " OR ") + ")" == Spell(CondPieces(AnyLike(columns, n)))
  {
    LikeListAt(columns, n);
    SpellConnectives();
    SpellInParens(JoinPieces(LikeList(columns, n), Keyword("OR")));
    hide Spell, LikePieces, JoinPieces, LikeList, Join, Keyword;
    SpellJoin(ors, LikeList(columns, n), Keyword("OR"));
  }

  lemma {:induction false} LikeListAt(columns: seq<string>, n: nat)
    ensures |LikeList(columns, n)| == |columns|
    ensures forall i :: 0 <= i < |columns| ==> LikeList(columns, n)[i] == LikePieces(columns[i], n)
  {
    if columns != [] {
      LikeListAt(columns[1..], n);
    }
  }

  lemma {:induction false} CondListAt(conds: seq<Cond>)
    ensures |CondList(conds)| == |conds|
    ensures forall i :: 0 <= i < |conds| ==> CondList(conds)[i] == CondPieces(conds[i])
  {
    if conds != [] {
      CondListAt(conds[1..]);
    }
  }

  lemma SpellInParens(ps: seq<Piece>)
    ensures Spell([Tok(Sym("("))] + ps + [Tok(Sym(")"))]) == "(" + Spell(ps) + ")"
  {
    SpellConcat([Tok(Sym("("))] + ps, [Tok(Sym(")"))]);
    SpellCons(Tok(Sym("(")), ps);
    SpellCons(Tok(Sym(")")), []);
  }

  /** The date target: the first time column equal to the requested one, else the first one. */
  method FindTarget(lib: Library, times: seq<string>, requested: string) returns (target: string)
    ensures target == DateTarget(lib, times, requested)
  {
    target := "";
    if requested != "" {
      var i := 0;
      while i < |times|
        invariant 0 <= i <= |times| && target == ""
        invariant FirstFold(lib, times, requested) == FirstFold(lib, times[i..], requested)
      {
        if lib.equalFold(times[i], requested) {
          target := times[i];
          break;
        }
        assert times[i..][1..] == times[i + 1..];
        i := i + 1;
      }
    }
    if target == "" && |times| > 0 {
      target := times[0];
    }
  }

  method ParseFrom(lib: Library, from: string) returns (t: Option<Instant>)
    ensures t == LowerBound(lib, from)
  {
    t := None;
    if from != "" {
      t := lib.parseRfc3339(from);
      if t.None? {
        t := lib.parseDate(from);
      }
    }
  }

  method ParseTo(lib: Library, until: string) returns (t: Option<Instant>)
    ensures t == UpperBound(lib, until)
  {
    t := None;
    if until != "" {
      t := lib.parseRfc3339(until);
      if t.None? {
        t := lib.parseDate(until);
        if t.Some? {
          t := Some(t.value + (DAY - 1));
        }
      }
    }
  }

  /** The WHERE text and its arguments. */
  method BuildWhere(lib: Library, r: Request, texts: seq<string>, times: seq<string>, ghost columns: seq<Column>)
    returns (where: string, args: seq<Arg>)
    requires texts == TextColumns(lib, columns) && times == TimeColumns(lib, columns)
    ensures args == BuildPlan(lib, r, columns).args
    ensures where == Spell(WherePieces(BuildPlan(lib, r, columns).conds))
  {
    var conditions: seq<string> := [];
    args := [];
    var argN := 1;
    ghost var plan := LikePlan(lib, r, columns);
    hide TextColumns, TimeColumns, Spell, CondPieces, DateTarget, Contains;
    if r.q != "" && |texts| > 0 {
      var like := LikeCondition(texts, argN);
      conditions := conditions + [like];
      args := args + [Pattern("%" + r.q + "%")];
      argN := argN + 1;
    }
    assert Spelled(conditions, plan.conds) && args == plan.args && argN == |args| + 1;
    var target := FindTarget(lib, times, r.column);
    var lo := ParseFrom(lib, r.fromDate);
    var hi := ParseTo(lib, r.toDate);
    if target != "" && lo.Some? {
      SpellBound(target, ">=", argN);
      SpellFromCond(target, argN);
      conditions := conditions + [BoundText(target, ">=", argN)];
      args := args + [Moment(lo.value)];
      argN := argN + 1;
    }
    plan := FromPlan(plan, target, lo);
    assert Spelled(conditions, plan.conds) && args == plan.args && argN == |args| + 1;
    if target != "" && hi.Some? {
      SpellBound(target, "<=", argN);
      SpellToCond(target, argN);
      conditions := conditions + [BoundText(target, "<=", argN)];
      args := args + [Moment(hi.value)];
    }
    plan := ToPlan(plan, target, hi);
    assert Spelled(conditions, plan.conds);
    where := "";
    SpellWhere(conditions, plan.conds);
    if |conditions| > 0 {
      where := " WHERE " + Join(conditions, " AND ");
    }
  }

  lemma SpellFromCond(column: string, n: nat)
    ensures CondPieces(From(column, n)) == BoundPieces(column, ">=", n)
  {
  }

  lemma SpellToCond(column: string, n: nat)
    ensures CondPieces(To(column, n)) == BoundPieces(column, "<=", n)
  {
  }

  lemma SpellWhere(texts: seq<string>, conds: seq<Cond>)
    requires Spelled(texts, conds)
    ensures Spell(WherePieces(conds)) == if texts == [] then "" else " WHERE " + Join(texts, " AND ")
  {
    CondListAt(conds);
    SpellConnectives();
    hide Spell, CondPieces, JoinPieces, CondList, Join, Keyword;
    SpellJoin(texts, CondList(conds), Keyword("AND"));
    SpellConcat(Keyword("WHERE"), JoinPieces(CondList(conds), Keyword("AND")));
    if conds == [] {
      SpellNothing();
    }
  }

  lemma SpellNothing()
    ensures Spell([]) == ""
  {
  }

  /** The ORDER BY key: the first column equal to the requested one, else the first column. */
  method FindSort(lib: Library, columns: seq<Column>, sort: string) returns (sortExpr: string)
    ensures sortExpr == SpellToken(SortToken(if sort == "" then ByPosition(1) else SortBy(lib, columns, sort)))
  {
    sortExpr := "1";
    assert PrintNat(1) == "1";
    if sort != "" {
      for i := 0 to |columns|
        invariant SortBy(lib, columns, sort) == SortBy(lib, columns[i..], sort) && sortExpr == "1"
      {
        if lib.equalFold(columns[i].name, sort) {
          sortExpr := PgQuoteIdent(columns[i].name);
          return;
        }
        assert columns[i..][1..] == columns[i + 1..];
      }
    }
  }

  lemma PlanIsProper(lib: Library, r: Request, columns: seq<Column>)
    ensures ProperConds(BuildPlan(lib, r, columns).conds)
    ensures |BuildPlan(lib, r, columns).conds| == |BuildPlan(lib, r, columns).args| <= 3
    ensures forall i {:trigger BuildPlan(lib, r, columns).conds[i]} :: 0 <= i < |BuildPlan(lib, r, columns).conds| ==>
              BuildPlan(lib, r, columns).conds[i].param == i + 1
  {
  }

  /** The statement a text is understood as by a database: lexed, then parsed. */
  function Understood(text: string): Option<Statement> {
    var ts := Lex(text);
    if ts.None? then None else ParseStatement(ts.value)
  }

  /** Whatever names, conditions and page the queries are put together from, their texts are
      understood as statements with exactly those. */
  lemma TextsAreUnderstood(schema: string, table: string, conds: seq<Cond>, page: Page)
    requires ProperConds(conds)
    ensures Understood(Spell(CountPieces(schema, table, conds)))
         == Some(Statement(CountRows, schema, table, WhereExpr(conds), None))
    ensures Understood(Spell(DataPieces(schema, table, conds, page)))
         == Some(Statement(AllColumns, schema, table, WhereExpr(conds), Some(page)))
  {
    SeparatedQueries(schema, table, conds, page);
    LexSpell(CountPieces(schema, table, conds));
    LexSpell(DataPieces(schema, table, conds, page));
    hide Lex, Spell, Separated, CountPieces, DataPieces, ParseStatement, Tokens;
    CountParses(schema, table, conds);
    DataParses(schema, table, conds, page);
  }

  datatype Queries = Queries(count: string, data: string, args: seq<Arg>)

  /** Builds both queries, or none for a table without columns. Their texts are understood as
      statements over the table, with the conditions and the page that the request asks for. */
  method BuildQueries(lib: Library, r: Request, columns: seq<Column>) returns (queries: Option<Queries>)
    ensures queries.None? <==> columns == []
    ensures ProperConds(BuildPlan(lib, r, columns).conds)
    ensures queries.Some? ==>
      var plan, page := BuildPlan(lib, r, columns), PageOf(lib, r, columns);
      && queries.value.args == plan.args
      && queries.value.count == Spell(CountPieces(r.schema, r.table, plan.conds))
      && queries.value.data == Spell(DataPieces(r.schema, r.table, plan.conds, page))
      && Understood(queries.value.count) == Some(Statement(CountRows, r.schema, r.table, WhereExpr(plan.conds), None))
      && Understood(queries.value.data)
         == Some(Statement(AllColumns, r.schema, r.table, WhereExpr(plan.conds), Some(page)))
  {
    PlanIsProper(lib, r, columns);
    var order := lib.upper(r.order);
    if order != "ASC" && order != "DESC" {
      order := "ASC";
    }
    var limit, offset := ClampInt(r.limit, 1, 500), ClampInt(r.offset, 0, 1_000_000);
    if |columns| == 0 {
      return None;
    }
    var texts, times := Classify(lib, columns);
    var quotedTable := PgQuoteIdent(r.schema) + ("." + PgQuoteIdent(r.table));
    var where, args := BuildWhere(lib, r, texts, times, columns);
    var sortExpr := FindSort(lib, columns, r.sort);
    var countQuery := "SELECT COUNT(*) FROM " + quotedTable + where;
    var dataQuery := "SELECT * FROM " + quotedTable + where
      + ((" ORDER BY " + (sortExpr + (" " + order)))
         + (" LIMIT " + (PrintInt(limit) + (" OFFSET " + PrintInt(offset)))));
    ghost var conds, page := BuildPlan(lib, r, columns).conds, PageOf(lib, r, columns);
    assert order == if page.descending then "DESC" else "ASC";
    SpellQueries(r.schema, r.table, conds, page);
    hide Understood, BuildPlan, Spell, CountPieces, DataPieces, WhereExpr;
    TextsAreUnderstood(r.schema, r.table, conds, page);
    queries := Some(Queries(countQuery, dataQuery, args));
  }

  lemma SpellQueries(schema: string, table: string, conds: seq<Cond>, page: Page)
    ensures var quotedTable := PgQuoteIdent(schema) + ("." + PgQuoteIdent(table));
      && Spell(CountPieces(schema, table, conds)) == "SELECT COUNT(*) FROM " + quotedTable + Spell(WherePieces(conds))
      && Spell(DataPieces(schema, table, conds, page))
         == "SELECT * FROM " + quotedTable + Spell(WherePieces(conds)) + (SortText(page) + LimitText(page))
  {
    var t, w := TablePieces(schema, table), WherePieces(conds);
    SpellHeads();
    SpellTable(schema, table);
    SpellPage(page);
    SpellConcat(CountHead() + t, w);
    SpellConcat(CountHead(), t);
    SpellConcat(DataHead() + t + w, PagePieces(page));
    SpellConcat(DataHead() + t, w);
    SpellConcat(DataHead(), t);
  }
}
