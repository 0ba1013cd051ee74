/** What the generated queries mean: which rows they keep, and exactly when those are the rows the
    request asks for. */
module QueryMeaning {
  import opened Wrappers
  import opened GoTime
  import opened Strings
  import opened Decimal
  import opened SqlText
  import opened SqlQuery
  import opened QueryBuilder

  // ── The WHERE clause under three-valued logic ──────────────────────────────

  type Match = (string, string) -> bool

  /** The condition type-checks against the arguments and the row's columns. */
  predicate Fits(c: Cond, args: seq<Arg>, row: Row) {
    && 1 <= c.param <= |args|
    && match c
       case AnyLike(columns, n) =>
         columns != [] && args[n - 1].Pattern? && forall name :: name in columns ==> name in row
       case From(column, n) => args[n - 1].Moment? && column in row
       case To(column, n) => args[n - 1].Moment? && column in row
  }

  /** What the condition says about a row, in two-valued terms. */
  predicate Accepts(c: Cond, args: seq<Arg>, row: Row, ilike: Match)
    requires Fits(c, args, row)
  {
    match c
    case AnyLike(columns, n) =>
      exists name :: name in columns && row[name].Datum? && ilike(row[name].text, args[n - 1].pattern)
    case From(column, n) => row[column].Datum? && args[n - 1].instant <= row[column].instant
    case To(column, n) => row[column].Datum? && row[column].instant <= args[n - 1].instant
  }

  lemma {:induction false} EvalOrAll(columns: seq<string>, n: nat, args: seq<Arg>, row: Row, ilike: Match)
    requires Fits(AnyLike(columns, n), args, row)
    ensures !Eval(OrAll(columns, n), args, row, ilike).Fault?
    ensures Eval(OrAll(columns, n), args, row, ilike).True? <==> Accepts(AnyLike(columns, n), args, row, ilike)
    decreases |columns|
  {
    assert columns[0] in columns;
    if |columns| == 1 {
      assert forall name :: name in columns ==> name == columns[0];
    } else {
      assert forall name :: name in columns[1..] ==> name in columns;
      assert forall name :: name in columns ==> name == columns[0] || name in columns[1..];
      EvalOrAll(columns[1..], n, args, row, ilike);
    }
  }

  lemma EvalCond(c: Cond, args: seq<Arg>, row: Row, ilike: Match)
    requires Fits(c, args, row)
    ensures !Eval(CondExpr(c), args, row, ilike).Fault?
    ensures Eval(CondExpr(c), args, row, ilike).True? <==> Accepts(c, args, row, ilike)
  {
    if c.AnyLike? {
      EvalOrAll(c.columns, c.param, args, row, ilike);
    }
  }

  /** A null makes a condition unknown, yet the clause keeps a row exactly if every condition accepts it. */
  lemma {:induction false} KeepsIfAllAccept(conds: seq<Cond>, args: seq<Arg>, row: Row, ilike: Match)
    requires ProperConds(conds) && forall c :: c in conds ==> Fits(c, args, row)
    ensures !Keeps(WhereExpr(conds), args, row, ilike).Fault?
    ensures Keeps(WhereExpr(conds), args, row, ilike).True?
       <==> forall c :: c in conds ==> Accepts(c, args, row, ilike)
    decreases |conds|
  {
    if conds != [] {
      assert conds[0] in conds;
      EvalCond(conds[0], args, row, ilike);
      assert forall c :: c in conds[1..] ==> c in conds;
      assert forall c :: c in conds ==> c == conds[0] || c in conds[1..];
      KeepsIfAllAccept(conds[1..], args, row, ilike);
      hide CondExpr, Fits, Accepts;
    }
  }

  // ── Against the request ────────────────────────────────────────────────────

  ghost predicate Covers(columns: seq<Column>, row: Row) {
    forall c :: c in columns ==> c.name in row
  }

  /** The request's search and bounds, with the builder's own date target. */
  predicate SearchAccepts(lib: Library, r: Request, texts: seq<string>, row: Row)
    requires forall c :: c in texts ==> c in row
  {
    r.q != "" && texts != [] ==> AnyMatches(lib, texts, r.q, row)
  }

  predicate BoundsAccept(target: string, lo: Option<Instant>, hi: Option<Instant>, row: Row)
    requires target in row
  {
    && (lo.Some? ==> row[target].Datum? && lo.value <= row[target].instant)
    && (hi.Some? ==> row[target].Datum? && row[target].instant <= hi.value)
  }

  lemma TargetInRow(lib: Library, times: seq<string>, requested: string, row: Row)
    requires forall c :: c in times ==> c in row
    ensures DateTarget(lib, times, requested) != "" ==> DateTarget(lib, times, requested) in row
  {
    FirstFoldIsMember(lib, times, requested);
  }

  ghost predicate FitsAll(p: Plan, row: Row) {
    forall c :: c in p.conds ==> Fits(c, p.args, row)
  }

  ghost predicate AcceptsAll(p: Plan, row: Row, ilike: Match)
    requires FitsAll(p, row)
  {
    forall c :: c in p.conds ==> Accepts(c, p.args, row, ilike)
  }

  /** A further condition with its own argument leaves the earlier ones as they were. */
  lemma Extended(p: Plan, c: Cond, a: Arg, row: Row, ilike: Match)
    requires FitsAll(p, row) && Fits(c, p.args + [a], row)
    ensures var q := Plan(p.conds + [c], p.args + [a]);
      FitsAll(q, row) && (AcceptsAll(q, row, ilike) <==> AcceptsAll(p, row, ilike) && Accepts(c, q.args, row, ilike))
  {
    var q := Plan(p.conds + [c], p.args + [a]);
    forall d | d in p.conds
      ensures Fits(d, q.args, row) && (Accepts(d, q.args, row, ilike) <==> Accepts(d, p.args, row, ilike))
    {
      assert q.args[d.param - 1] == p.args[d.param - 1];
    }
    assert c in q.conds && forall d :: d in q.conds ==> d == c || d in p.conds;
    assert forall d :: d in p.conds ==> d in q.conds;
    hide Fits, Accepts;
  }

  lemma LikePlanAccepts(lib: Library, r: Request, columns: seq<Column>, row: Row)
    requires forall c :: c in TextColumns(lib, columns) ==> c in row
    ensures var p := LikePlan(lib, r, columns);
      FitsAll(p, row) && (AcceptsAll(p, row, lib.ilike) <==> SearchAccepts(lib, r, TextColumns(lib, columns), row))
  {
    var p, texts := LikePlan(lib, r, columns), TextColumns(lib, columns);
    hide TextColumns;
    if r.q != "" && texts != [] {
      var c := AnyLike(texts, 1);
      assert p == Plan([c], [Pattern(LikePattern(r.q))]);
      assert c in p.conds && forall d :: d in p.conds ==> d == c;
      assert Accepts(c, p.args, row, lib.ilike) <==> AnyMatches(lib, texts, r.q, row);
    }
  }

  lemma BoundPlansAccept(p: Plan, target: string, lo: Option<Instant>, hi: Option<Instant>, row: Row, ilike: Match)
    requires FitsAll(p, row) && (target != "" ==> target in row)
    ensures var q := ToPlan(FromPlan(p, target, lo), target, hi);
      FitsAll(q, row)
      && (AcceptsAll(q, row, ilike)
          <==> AcceptsAll(p, row, ilike) && (target != "" ==> BoundsAccept(target, lo, hi, row)))
  {
    hide FitsAll, AcceptsAll;
    var p1 := FromPlan(p, target, lo);
    if target != "" && lo.Some? {
      Extended(p, From(target, |p.args| + 1), Moment(lo.value), row, ilike);
    }
    if target != "" && hi.Some? {
      Extended(p1, To(target, |p1.args| + 1), Moment(hi.value), row, ilike);
    }
  }

  /** Exactly which rows the built clause keeps. */
  lemma PlanKeeps(lib: Library, r: Request, columns: seq<Column>, row: Row)
    requires Covers(columns, row)
    ensures var p, target := BuildPlan(lib, r, columns), DateTarget(lib, TimeColumns(lib, columns), r.column);
      && (forall c :: c in TextColumns(lib, columns) ==> c in row)
      && (target != "" ==> target in row)
      && ProperConds(p.conds)
      && !Keeps(WhereExpr(p.conds), p.args, row, lib.ilike).Fault?
      && (Keeps(WhereExpr(p.conds), p.args, row, lib.ilike).True?
          <==> && SearchAccepts(lib, r, TextColumns(lib, columns), row)
               && (target != "" ==>
                     BoundsAccept(target, LowerBound(lib, r.fromDate), UpperBound(lib, r.toDate), row)))
  {
    var p := BuildPlan(lib, r, columns);
    var times := TimeColumns(lib, columns);
    ColumnsInRow(lib, columns, row);
    TargetInRow(lib, times, r.column, row);
    PlanIsProper(lib, r, columns);
    LikePlanAccepts(lib, r, columns, row);
    hide LikePlan, FromPlan, ToPlan, TextColumns, TimeColumns, DateTarget, LowerBound, UpperBound, Keeps, WhereExpr,
         SearchAccepts, BoundsAccept;
    BoundPlansAccept(LikePlan(lib, r, columns), DateTarget(lib, times, r.column), LowerBound(lib, r.fromDate),
                     UpperBound(lib, r.toDate), row, lib.ilike);
    KeepsIfAllAccept(p.conds, p.args, row, lib.ilike);
  }

  /** No SQL identifier is empty. */
  ghost predicate Named(columns: seq<Column>) {
    forall c :: c in columns ==> c.name != ""
  }

  lemma {:induction false} TimesAreNamed(lib: Library, columns: seq<Column>)
    requires Named(columns)
    ensures "" !in TimeColumns(lib, columns)
  {
    hide IsTime;
    if columns != [] {
      assert columns[|columns| - 1] in columns;
      TimesAreNamed(lib, columns[..|columns| - 1]);
    }
  }

  /** The builder's target is the documented date column whenever there is one. */
  lemma TargetIsDateColumn(lib: Library, times: seq<string>, requested: string)
    requires "" !in times && DateColumn(lib, times, requested).Some?
    ensures DateTarget(lib, times, requested) == DateColumn(lib, times, requested).value != ""
  {
    FirstFoldIsMember(lib, times, requested);
  }

  /** For every request, columns and row: the clause type-checks, and the row is one of those
      meant exactly if all filters can be applied and the clause keeps it. */
  lemma KeepsWhatIsMeant(lib: Library, r: Request, columns: seq<Column>, row: Row)
    requires Covers(columns, row) && Named(columns)
    ensures var p := BuildPlan(lib, r, columns);
      && ProperConds(p.conds)
      && Keeps(WhereExpr(p.conds), p.args, row, lib.ilike) != Fault
      && (Meant(lib, r, columns, row)
          <==> Applicable(lib, r, columns) && Keeps(WhereExpr(p.conds), p.args, row, lib.ilike) == True)
  {
    var times := TimeColumns(lib, columns);
    PlanKeeps(lib, r, columns, row);
    TimesAreNamed(lib, columns);
    BoundsOfEmpty(lib);
    if DateColumn(lib, times, r.column).Some? {
      TargetIsDateColumn(lib, times, r.column);
    }
    hide TextColumns, TimeColumns, DateTarget, DateColumn, LowerBound, UpperBound, Keeps, WhereExpr, BuildPlan;
  }

  lemma BoundsOfEmpty(lib: Library)
    ensures LowerBound(lib, "").None? && UpperBound(lib, "").None?
  {
  }

  /** The clause keeps the rows meant, whatever the table holds. */
  ghost predicate FiltersAsMeant(lib: Library, r: Request, columns: seq<Column>) {
    var p := BuildPlan(lib, r, columns);
    ProperConds(p.conds)
    && forall row: Row :: Covers(columns, row) ==>
         (Keeps(WhereExpr(p.conds), p.args, row, lib.ilike) == True <==> Meant(lib, r, columns, row))
  }

  /** Both bounds are applied, to whichever column, and leave nothing between them. */
  predicate Crossed(lib: Library, r: Request, columns: seq<Column>) {
    var lo, hi := LowerBound(lib, r.fromDate), UpperBound(lib, r.toDate);
    TimeColumns(lib, columns) != [] && lo.Some? && hi.Some? && lo.value > hi.value
  }

  lemma CrossedKeepsNothing(lib: Library, r: Request, columns: seq<Column>, row: Row)
    requires Covers(columns, row) && Named(columns) && Crossed(lib, r, columns)
    ensures var p := BuildPlan(lib, r, columns);
      ProperConds(p.conds) && Keeps(WhereExpr(p.conds), p.args, row, lib.ilike) != True
  {
    PlanKeeps(lib, r, columns, row);
    TimesAreNamed(lib, columns);
    TargetIsNamed(lib, TimeColumns(lib, columns), r.column);
    hide TextColumns, TimeColumns, DateTarget, LowerBound, UpperBound, Keeps, WhereExpr, BuildPlan;
  }

  lemma TargetIsNamed(lib: Library, times: seq<string>, requested: string)
    requires "" !in times
    ensures DateTarget(lib, times, requested) != "" <==> times != []
  {
    FirstFoldIsMember(lib, times, requested);
  }

  /** A row with the same value in every column. */
  function Uniform(columns: seq<Column>, v: Value): (row: Row)
    ensures Covers(columns, row) && forall name :: name in row ==> row[name] == v
  {
    map c | c in columns :: c.name := v
  }

  /** A text that the search finds, at an instant between the bounds, is kept in every column. */
  lemma KeepsUniform(lib: Library, r: Request, columns: seq<Column>, t: string)
    requires Named(columns) && !Crossed(lib, r, columns)
    requires r.q != "" ==> lib.ilike(t, LikePattern(r.q))
    ensures ProperConds(BuildPlan(lib, r, columns).conds)
    ensures var p := BuildPlan(lib, r, columns);
      exists row :: Covers(columns, row) && Keeps(WhereExpr(p.conds), p.args, row, lib.ilike) == True
  {
    var lo, hi := LowerBound(lib, r.fromDate), UpperBound(lib, r.toDate);
    var row := Uniform(columns, Datum(t, if lo.Some? then lo.value else if hi.Some? then hi.value else 0));
    var texts := TextColumns(lib, columns);
    ColumnsInRow(lib, columns, row);
    if texts != [] {
      assert texts[0] in texts;
    }
    TimesAreNamed(lib, columns);
    TargetIsNamed(lib, TimeColumns(lib, columns), r.column);
    PlanKeeps(lib, r, columns, row);
    hide TextColumns, TimeColumns, DateTarget, LowerBound, UpperBound, Keeps, WhereExpr, BuildPlan, Uniform;
  }

  /** The exact condition for every table content: all filters can be applied. If one cannot, it
      is dropped or moved to another column, which only crossed bounds hide: then nothing is
      kept either way. The text `t` is one that the search finds. */
  lemma FiltersAsMeantExactly(lib: Library, r: Request, columns: seq<Column>, t: string)
    requires Named(columns)
    requires r.q != "" ==> lib.ilike(t, LikePattern(r.q))
    ensures FiltersAsMeant(lib, r, columns) <==> Applicable(lib, r, columns) || Crossed(lib, r, columns)
  {
    var p := BuildPlan(lib, r, columns);
    PlanIsProper(lib, r, columns);
    hide BuildPlan, Keeps, WhereExpr, Meant, Applicable, Crossed;
    forall row: Row | Covers(columns, row)
      ensures Keeps(WhereExpr(p.conds), p.args, row, lib.ilike) == True && Applicable(lib, r, columns)
              <==> Meant(lib, r, columns, row)
    {
      KeepsWhatIsMeant(lib, r, columns, row);
    }
    if Crossed(lib, r, columns) {
      forall row: Row | Covers(columns, row) ensures Keeps(WhereExpr(p.conds), p.args, row, lib.ilike) != True {
        CrossedKeepsNothing(lib, r, columns, row);
      }
    } else if !Applicable(lib, r, columns) {
      KeepsUniform(lib, r, columns, t);
    }
  }

  /** Failing inputs: a search of a table without text columns keeps every row, a bound in no
      accepted format is as if it had not been given, and one on an unknown column is applied
      to the first time column. None of these rows is meant. */
  lemma InapplicableFilters(lib: Library, r: Request, columns: seq<Column>, row: Row)
    requires Covers(columns, row) && Named(columns)
    ensures var p, times := BuildPlan(lib, r, columns), TimeColumns(lib, columns);
      var lo, hi := LowerBound(lib, r.fromDate), UpperBound(lib, r.toDate);
      && ProperConds(p.conds)
      && (forall c :: c in times ==> c in row)
      && (r.q != "" && TextColumns(lib, columns) == [] && r.fromDate == r.toDate == "" ==>
            Keeps(WhereExpr(p.conds), p.args, row, lib.ilike) == True && !Meant(lib, r, columns, row))
      && (r.q == "" && (r.fromDate != "" || r.toDate != "") && lo.None? && hi.None? ==>
            Keeps(WhereExpr(p.conds), p.args, row, lib.ilike) == True && !Meant(lib, r, columns, row))
      && (r.q == "" && (r.fromDate != "" || r.toDate != "") && r.column != "" && times != []
          && FirstFold(lib, times, r.column).None? ==>
            && (Keeps(WhereExpr(p.conds), p.args, row, lib.ilike) == True <==> BoundsAccept(times[0], lo, hi, row))
            && !Meant(lib, r, columns, row))
  {
    ColumnsInRow(lib, columns, row);
    PlanKeeps(lib, r, columns, row);
    KeepsWhatIsMeant(lib, r, columns, row);
    BoundsOfEmpty(lib);
    TimesAreNamed(lib, columns);
    hide TextColumns, TimeColumns, LowerBound, UpperBound, Keeps, WhereExpr, BuildPlan, Meant;
  }

  // ── Single filters, in terms of the request alone ─────────────────────────

  /** A given end date alone: an RFC 3339 instant is the last one kept, and a plain date keeps
      every instant of the 24 hours that begin with it. */
  lemma EndDateKeeps(lib: Library, r: Request, columns: seq<Column>, row: Row, name: string)
    requires Covers(columns, row) && Named(columns)
    requires r.q == r.fromDate == "" && r.toDate != ""
    requires var times := TimeColumns(lib, columns);
      if r.column != "" then FirstFold(lib, times, r.column) == Some(name) else times != [] && times[0] == name
    ensures var p := BuildPlan(lib, r, columns);
      && ProperConds(p.conds) && name in row
      && (lib.parseRfc3339(r.toDate).Some? ==>
            (Keeps(WhereExpr(p.conds), p.args, row, lib.ilike) == True
             <==> row[name].Datum? && row[name].instant <= lib.parseRfc3339(r.toDate).value))
      && (lib.parseRfc3339(r.toDate).None? && lib.parseDate(r.toDate).Some? ==>
            (Keeps(WhereExpr(p.conds), p.args, row, lib.ilike) == True
             <==> row[name].Datum? && row[name].instant < lib.parseDate(r.toDate).value + 24 * 3600 * SECOND))
  {
    TimesAreNamed(lib, columns);
    TargetIsDateColumn(lib, TimeColumns(lib, columns), r.column);
    PlanKeeps(lib, r, columns, row);
    hide TextColumns, TimeColumns, DateTarget, DateColumn, Keeps, WhereExpr, BuildPlan;
  }

  /** A given start date alone: an RFC 3339 instant, or the first of a plain date, is the first kept. */
  lemma StartDateKeeps(lib: Library, r: Request, columns: seq<Column>, row: Row, name: string)
    requires Covers(columns, row) && Named(columns)
    requires r.q == r.toDate == "" && r.fromDate != ""
    requires var times := TimeColumns(lib, columns);
      if r.column != "" then FirstFold(lib, times, r.column) == Some(name) else times != [] && times[0] == name
    ensures var p := BuildPlan(lib, r, columns);
      && ProperConds(p.conds) && name in row
      && (lib.parseRfc3339(r.fromDate).Some? ==>
            (Keeps(WhereExpr(p.conds), p.args, row, lib.ilike) == True
             <==> row[name].Datum? && lib.parseRfc3339(r.fromDate).value <= row[name].instant))
      && (lib.parseRfc3339(r.fromDate).None? && lib.parseDate(r.fromDate).Some? ==>
            (Keeps(WhereExpr(p.conds), p.args, row, lib.ilike) == True
             <==> row[name].Datum? && lib.parseDate(r.fromDate).value <= row[name].instant))
  {
    TimesAreNamed(lib, columns);
    TargetIsDateColumn(lib, TimeColumns(lib, columns), r.column);
    PlanKeeps(lib, r, columns, row);
    hide TextColumns, TimeColumns, DateTarget, DateColumn, Keeps, WhereExpr, BuildPlan;
  }

  /** The type names that make a text column, and those that make a time column otherwise. */
  predicate TextType(t: string) {
    Contains(t, "char") || Contains(t, "text") || Contains(t, "json")
  }

  predicate TimeType(t: string) {
    !TextType(t) && (Contains(t, "timestamp") || Contains(t, "date"))
  }

  lemma JsonbIsJson(t: string)
    ensures Contains(t, "jsonb") ==> Contains(t, "json")
  {
    if Contains(t, "jsonb") {
      var i :| 0 <= i <= |t| && OccursAt(t, "jsonb", i);
      assert t[i..i + 4] == t[i..i + 5][..4];
      assert OccursAt(t, "json", i);
    }
  }

  /** The text columns are exactly those of a character, text or JSON type, the time columns the
      others of a timestamp or date type. */
  lemma {:induction false} ColumnsByType(lib: Library, columns: seq<Column>, name: string)
    ensures name in TextColumns(lib, columns)
       <==> exists c :: c in columns && c.name == name && TextType(lib.lower(c.dataType))
    ensures name in TimeColumns(lib, columns)
       <==> exists c :: c in columns && c.name == name && TimeType(lib.lower(c.dataType))
    decreases |columns|
  {
    if columns != [] {
      var front, last := columns[..|columns| - 1], columns[|columns| - 1];
      ColumnsByType(lib, front, name);
      JsonbIsJson(lib.lower(last.dataType));
      assert columns == front + [last];
      hide Contains;
    }
  }

  /** Both lists keep the order of the table. */
  lemma {:induction false} ColumnsInOrder(lib: Library, a: seq<Column>, b: seq<Column>)
    ensures TextColumns(lib, a + b) == TextColumns(lib, a) + TextColumns(lib, b)
    ensures TimeColumns(lib, a + b) == TimeColumns(lib, a) + TimeColumns(lib, b)
    decreases |b|
  {
    hide IsText, IsTime;
    if b == [] {
      assert a + b == a;
    } else {
      ColumnsInOrder(lib, a, b[..|b| - 1]);
      assert (a + b)[..|a + b| - 1] == a + b[..|b| - 1];
    }
  }

  /** A given search alone, of a table with a text column: a row is kept exactly if some column of
      a text type matches the text between two wildcards. */
  lemma SearchKeeps(lib: Library, r: Request, columns: seq<Column>, row: Row)
    requires Covers(columns, row) && Named(columns)
    requires r.q != "" && r.fromDate == r.toDate == ""
    requires exists c :: c in columns && TextType(lib.lower(c.dataType))
    ensures var p := BuildPlan(lib, r, columns);
      && ProperConds(p.conds)
      && (Keeps(WhereExpr(p.conds), p.args, row, lib.ilike) == True
          <==> exists c :: && c in columns && TextType(lib.lower(c.dataType))
                           && row[c.name].Datum? && lib.ilike(row[c.name].text, "%" + r.q + "%"))
  {
    hide TextColumns, TimeColumns, TextType, DateTarget, LowerBound, UpperBound, Keeps, WhereExpr, BuildPlan;
    var texts := TextColumns(lib, columns);
    forall name: string
      ensures name in texts <==> exists c :: c in columns && c.name == name && TextType(lib.lower(c.dataType))
    {
      ColumnsByType(lib, columns, name);
    }
    var c :| c in columns && TextType(lib.lower(c.dataType));
    assert c.name in texts;
    BoundsOfEmpty(lib);
    PlanKeeps(lib, r, columns, row);
  }

  /** The named column is the first of the list that equals it under case folding. */
  lemma {:induction false} FirstFoldIsFirst(lib: Library, names: seq<string>, name: string)
    ensures if FirstFold(lib, names, name).None? then forall i :: 0 <= i < |names| ==> !lib.equalFold(names[i], name)
            else exists i :: && 0 <= i < |names| && lib.equalFold(names[i], name)
                             && FirstFold(lib, names, name).value == names[i]
                             && forall j :: 0 <= j < i ==> !lib.equalFold(names[j], name)
  {
    if names != [] {
      var rest := names[1..];
      FirstFoldIsFirst(lib, rest, name);
      if !lib.equalFold(names[0], name) && FirstFold(lib, rest, name).Some? {
        var i :| && 0 <= i < |rest| && lib.equalFold(rest[i], name) && FirstFold(lib, rest, name).value == rest[i]
                 && forall j :: 0 <= j < i ==> !lib.equalFold(rest[j], name);
        assert names[i + 1] == rest[i];
        assert forall j :: 0 < j < i + 1 ==> names[j] == rest[j - 1];
      }
    }
  }

  // ── The page, in terms of the request alone ────────────────────────────────

  /** The sort key is the first column that equals the requested one under case folding, else the
      first column by position. */
  lemma {:induction false} SortByIsFirst(lib: Library, columns: seq<Column>, sort: string)
    ensures match SortBy(lib, columns, sort)
      case ByPosition(n) => n == 1 && forall c :: c in columns ==> !lib.equalFold(c.name, sort)
      case ByColumn(name) =>
        exists i :: && 0 <= i < |columns| && columns[i].name == name && lib.equalFold(name, sort)
                    && forall j :: 0 <= j < i ==> !lib.equalFold(columns[j].name, sort)
  {
    if columns != [] {
      var rest := columns[1..];
      SortByIsFirst(lib, rest, sort);
      if !lib.equalFold(columns[0].name, sort) && SortBy(lib, rest, sort).ByColumn? {
        var i :| && 0 <= i < |rest| && rest[i].name == SortBy(lib, rest, sort).name
                 && lib.equalFold(rest[i].name, sort)
                 && forall j :: 0 <= j < i ==> !lib.equalFold(rest[j].name, sort);
        assert columns[i + 1] == rest[i];
        assert forall j :: 0 < j < i + 1 ==> columns[j] == rest[j - 1];
      }
    }
  }

  /** Each part of the page comes from its own parameter: printed numbers within the ranges are
      taken as they are, the direction is descending exactly if the order is DESC in upper case,
      and without a sort column the first one by position is the key. */
  lemma PageByParameter(lib: Library, r: Request, columns: seq<Column>, limit: int, offset: int)
    requires r.limit == PrintInt(limit) && r.offset == PrintInt(offset)
    ensures var page := PageOf(lib, r, columns);
      && (1 <= limit <= 500 ==> page.limit == limit) && (limit < 1 ==> page.limit == 1)
      && (500 < limit <= MAX_INT ==> page.limit == 500)
      && (0 <= offset <= 1_000_000 ==> page.offset == offset) && (offset < 0 ==> page.offset == 0)
      && (1_000_000 < offset <= MAX_INT ==> page.offset == 1_000_000)
      && (page.descending <==> lib.upper(r.order) == "DESC")
      && (if r.sort == "" then page.key == ByPosition(1) else page.key == SortBy(lib, columns, r.sort))
  {
    hide PrintInt, ClampInt, SortBy;
    ClampPrinted(limit, 1, 500);
    ClampPrinted(offset, 0, 1_000_000);
  }

  // ── Placeholders ───────────────────────────────────────────────────────────

  lemma {:induction false} TokenIffPiece(ps: seq<Piece>, t: Token)
    ensures t in Tokens(ps) <==> Tok(t) in ps
  {
    if ps != [] {
      TokenIffPiece(ps[1..], t);
      assert Tok(t) in ps <==> Tok(t) == ps[0] || Tok(t) in ps[1..];
    }
  }

  lemma {:induction false} MarkInJoin(parts: seq<seq<Piece>>, word: string, n: nat)
    ensures Tok(Param(n)) in JoinPieces(parts, Keyword(word)) <==> exists part :: part in parts && Tok(Param(n)) in part
    decreases |parts|
  {
    if |parts| > 1 {
      MarkInJoin(parts[1..], word, n);
      assert Tok(Param(n)) !in Keyword(word);
      assert forall part :: part in parts <==> part == parts[0] || part in parts[1..];
    } else if |parts| == 1 {
      assert parts[0] in parts;
    }
  }

  lemma MarkInLed(a: Token, b: Token, n: nat)
    ensures Tok(Param(n)) in Led([a, b]) <==> Param(n) == a || Param(n) == b
  {
    assert [a, b][1..] == [b] && [b][1..] == [];
    assert Led([b]) == [Space, Tok(b)] + Led([]);
  }

  lemma MarkInCond(c: Cond, n: nat)
    requires c.AnyLike? ==> c.columns != []
    ensures Tok(Param(n)) in CondPieces(c) <==> n == c.param
  {
    match c
    case AnyLike(columns, m) =>
      LikeListAt(columns, m);
      MarkInJoin(LikeList(columns, m), "OR", n);
      MarkInLed(Word("ILIKE"), Param(m), n);
      hide JoinPieces, LikeList;
      assert LikeList(columns, m)[0] in LikeList(columns, m);
      forall part | part in LikeList(columns, m) ensures Tok(Param(n)) in part <==> n == m {
        var i :| 0 <= i < |columns| && part == LikeList(columns, m)[i];
      }
    case From(column, m) =>
      MarkInLed(Sym(">="), Param(m), n);
    case To(column, m) =>
      MarkInLed(Sym("<="), Param(m), n);
  }

  lemma MarkInWhere(conds: seq<Cond>, n: nat)
    requires ProperConds(conds)
    ensures Tok(Param(n)) in WherePieces(conds) <==> exists i :: 0 <= i < |conds| && conds[i].param == n
  {
    CondListAt(conds);
    MarkInJoin(CondList(conds), "AND", n);
    forall i | 0 <= i < |conds|
      ensures CondList(conds)[i] in CondList(conds)
      ensures Tok(Param(n)) in CondList(conds)[i] <==> conds[i].param == n
    {
      assert conds[i] in conds;
      MarkInCond(conds[i], n);
    }
    hide JoinPieces, CondList, CondPieces;
  }

  lemma NoMarkElsewhere(schema: string, table: string, page: Page, n: nat)
    ensures Tok(Param(n)) !in CountHead() + TablePieces(schema, table)
    ensures Tok(Param(n)) !in DataHead() + TablePieces(schema, table)
    ensures Tok(Param(n)) !in PagePieces(page)
  {
    TokensOfLed(SortTokens(page));
    TokensOfLed(LimitTokens(page));
    TokenIffPiece(Led(SortTokens(page)), Param(n));
    TokenIffPiece(Led(LimitTokens(page)), Param(n));
    hide Led;
  }

  /** In the tokens of both queries the placeholders are exactly $1 to $n for n arguments: none is
      out of range, and every argument is referenced. A `$` inside a name is no placeholder. */
  lemma PlaceholdersMatchArguments(lib: Library, r: Request, columns: seq<Column>, n: nat)
    ensures var p, page := BuildPlan(lib, r, columns), PageOf(lib, r, columns);
      var count := Lex(Spell(CountPieces(r.schema, r.table, p.conds)));
      var data := Lex(Spell(DataPieces(r.schema, r.table, p.conds, page)));
      && count.Some? && (Param(n) in count.value <==> 1 <= n <= |p.args|)
      && data.Some? && (Param(n) in data.value <==> 1 <= n <= |p.args|)
  {
    var p, page := BuildPlan(lib, r, columns), PageOf(lib, r, columns);
    PlanIsProper(lib, r, columns);
    MarkInWhere(p.conds, n);
    NoMarkElsewhere(r.schema, r.table, page, n);
    assert (exists i :: 0 <= i < |p.conds| && p.conds[i].param == n) <==> 1 <= n <= |p.args| by {
      if 1 <= n <= |p.args| {
        assert p.conds[n - 1].param == n;
      }
    }
    SeparatedQueries(r.schema, r.table, p.conds, page);
    hide BuildPlan, PageOf, Lex, Spell, Separated, Tokens, WherePieces, PagePieces;
    LexSpell(CountPieces(r.schema, r.table, p.conds));
    LexSpell(DataPieces(r.schema, r.table, p.conds, page));
    TokenIffPiece(CountPieces(r.schema, r.table, p.conds), Param(n));
    TokenIffPiece(DataPieces(r.schema, r.table, p.conds, page), Param(n));
  }
}
