/** Compilation of search filters into numbered SQL conditions and a parallel argument list. */
module SearchQuery {
  import opened Common

  type Embedding = seq<real>

  datatype DateRange = DateRange(start: Option<int>, end: Option<int>)

  datatype SearchFilters = SearchFilters(
    sourceType: string,
    categories: seq<string>,
    dateRange: DateRange,
    standardNumber: string,
    documentIds: seq<string>)

  datatype Query = Query(embedding: Embedding, topK: int, minScore: real, filters: SearchFilters)

  datatype KeywordOptions = KeywordOptions(topK: int, sourceType: string, categories: seq<string>)

  // ----- the generated statement -----

  datatype Arg = VectorArg(v: Embedding) | NumberArg(x: real) | TextArg(s: string) | DateArg(d: int) | LimitArg(n: int)

  /** One conjunct of the WHERE clause; the numbers are placeholder positions, counted from 1. */
  datatype Condition =
    | IsActive
    | HasEmbedding
    | Similarity(vector: nat, threshold: nat)
    | SourceTypeIs(p: nat)
    | CategoryIn(ps: seq<nat>)
    | StandardNumberIs(p: nat)
    | EffectiveFrom(p: nat)
    | EffectiveUntil(p: nat)
    | DocumentIn(ps: seq<nat>)
    | ContentMatches(p: nat)

  /** WHERE conjuncts, arguments, and the placeholders used by ORDER BY and LIMIT. */
  datatype Statement = Statement(conditions: seq<Condition>, args: seq<Arg>, orderBy: nat, limit: nat)

  // ----- how the database reads it -----

  /** A joined chunk/document row; nullable columns are options. */
  datatype Row = Row(
    isActive: Option<bool>,
    embedding: Option<Embedding>,
    sourceType: Option<string>,
    category: Option<string>,
    standardNumber: Option<string>,
    effectiveDate: Option<int>,
    documentId: string,
    content: string)

  /** Operators the database supplies: vector distance and full-text match. */
  datatype Database = Database(distance: (Embedding, Embedding) -> real, matches: (string, string) -> bool)

  datatype Truth = Yes | No | Unknown

  function FromBool(b: bool): Truth {
    if b then Yes else No
  }

  function Conjunction(s: Truth, t: Truth): Truth {
    if s == No || t == No then No else if s == Unknown || t == Unknown then Unknown else Yes
  }

  function Disjunction(s: Truth, t: Truth): Truth {
    if s == Yes || t == Yes then Yes else if s == Unknown || t == Unknown then Unknown else No
  }

  function ArgAt(args: seq<Arg>, p: nat): Option<Arg> {
    if 1 <= p <= |args| then Some(args[p - 1]) else None
  }

  /** `column = $p`; a NULL column or an argument of another type gives no answer. */
  function TextEquals(column: Option<string>, args: seq<Arg>, p: nat): Truth {
    match (column, ArgAt(args, p))
    case (Some(c), Some(TextArg(s))) => FromBool(c == s)
    case _ => Unknown
  }

  function TextIn(column: Option<string>, args: seq<Arg>, ps: seq<nat>): Truth {
    if ps == [] then No
    else Disjunction(TextIn(column, args, ps[..|ps| - 1]), TextEquals(column, args, ps[|ps| - 1]))
  }

  function Evaluate(db: Database, c: Condition, args: seq<Arg>, row: Row): Truth {
    match c
    case IsActive => if row.isActive.Some? then FromBool(row.isActive.value) else Unknown
    case HasEmbedding => FromBool(row.embedding.Some?)
    case Similarity(v, t) => (
      match (row.embedding, ArgAt(args, v), ArgAt(args, t))
      case (Some(e), Some(VectorArg(q)), Some(NumberArg(m))) => FromBool(1.0 - db.distance(e, q) > m)
      case _ => Unknown)
    case SourceTypeIs(p) => TextEquals(row.sourceType, args, p)
    case CategoryIn(ps) => TextIn(row.category, args, ps)
    case StandardNumberIs(p) => TextEquals(row.standardNumber, args, p)
    case EffectiveFrom(p) => (
      match (row.effectiveDate, ArgAt(args, p))
      case (Some(d), Some(DateArg(bound))) => FromBool(d >= bound)
      case _ => Unknown)
    case EffectiveUntil(p) => (
      match (row.effectiveDate, ArgAt(args, p))
      case (Some(d), Some(DateArg(bound))) => FromBool(d <= bound)
      case _ => Unknown)
    case DocumentIn(ps) => TextIn(Some(row.documentId), args, ps)
    case ContentMatches(p) => (
      match ArgAt(args, p)
      case Some(TextArg(s)) => FromBool(db.matches(row.content, s))
      case _ => Unknown)
  }

  function EvaluateAll(db: Database, cs: seq<Condition>, args: seq<Arg>, row: Row): Truth {
    if cs == [] then Yes
    else Conjunction(EvaluateAll(db, cs[..|cs| - 1], args, row), Evaluate(db, cs[|cs| - 1], args, row))
  }

  // ----- what the filters mean -----

  predicate AllowsText(wanted: string, column: Option<string>) {
    wanted != "" ==> column == Some(wanted)
  }

  predicate AllowsAny(wanted: seq<string>, column: Option<string>) {
    wanted != [] ==> column.Some? && column.value in wanted
  }

  predicate AllowsDate(range: DateRange, date: Option<int>) {
    && (range.start.Some? ==> date.Some? && range.start.value <= date.value)
    && (range.end.Some? ==> date.Some? && date.value <= range.end.value)
  }

  predicate Satisfies(db: Database, q: Query, row: Row) {
    && row.isActive == Some(true)
    && row.embedding.Some?
    && 1.0 - db.distance(row.embedding.value, q.embedding) > (if q.minScore <= 0.0 then 0.5 else q.minScore)
    && AllowsText(q.filters.sourceType, row.sourceType)
    && AllowsAny(q.filters.categories, row.category)
    && AllowsText(q.filters.standardNumber, row.standardNumber)
    && AllowsDate(q.filters.dateRange, row.effectiveDate)
    && AllowsAny(q.filters.documentIds, Some(row.documentId))
  }

  predicate SatisfiesKeyword(db: Database, text: string, opts: KeywordOptions, row: Row) {
    && db.matches(row.content, text)
    && row.isActive == Some(true)
    && AllowsText(opts.sourceType, row.sourceType)
    && AllowsAny(opts.categories, row.category)
  }

  // ----- placeholders -----

  function Placeholders(c: Condition): seq<nat> {
    match c
    case IsActive => []
    case HasEmbedding => []
    case Similarity(v, t) => [v, t]
    case SourceTypeIs(p) => [p]
    case CategoryIn(ps) => ps
    case StandardNumberIs(p) => [p]
    case EffectiveFrom(p) => [p]
    case EffectiveUntil(p) => [p]
    case DocumentIn(ps) => ps
    case ContentMatches(p) => [p]
  }

  function AllPlaceholders(cs: seq<Condition>): seq<nat> {
    if cs == [] then [] else AllPlaceholders(cs[..|cs| - 1]) + Placeholders(cs[|cs| - 1])
  }

  /** from, from + 1, ..., from + count - 1 */
  function Numbers(from: nat, count: nat): (r: seq<nat>)
    ensures |r| == count
  {
    seq(count, i requires 0 <= i < count => from + i)
  }

  /** The clause so far: its placeholders, read left to right, are exactly 1, 2, ..., |args|. */
  ghost predicate InStep(cs: seq<Condition>, args: seq<Arg>) {
    AllPlaceholders(cs) == Numbers(1, |args|)
  }

  // ----- arguments appended later do not disturb earlier conditions -----

  predicate InRange(ps: seq<nat>, n: nat) {
    forall i :: 0 <= i < |ps| ==> 1 <= ps[i] <= n
  }

  lemma {:induction false} TextInStable(column: Option<string>, args: seq<Arg>, more: seq<Arg>, ps: seq<nat>)
    requires InRange(ps, |args|)
    ensures TextIn(column, args + more, ps) == TextIn(column, args, ps)
  {
    if ps != [] {
      TextInStable(column, args, more, ps[..|ps| - 1]);
    }
  }

  lemma EvaluateStable(db: Database, c: Condition, args: seq<Arg>, more: seq<Arg>, row: Row)
    requires InRange(Placeholders(c), |args|)
    ensures Evaluate(db, c, args + more, row) == Evaluate(db, c, args, row)
  {
    match c
    case IsActive =>
    case HasEmbedding =>
    case Similarity(v, t) => assert InRange([v, t], |args|) && [v, t][0] == v && [v, t][1] == t;
    case SourceTypeIs(p) => assert InRange([p], |args|) && [p][0] == p;
    case CategoryIn(ps) => TextInStable(row.category, args, more, ps);
    case StandardNumberIs(p) => assert InRange([p], |args|) && [p][0] == p;
    case EffectiveFrom(p) => assert InRange([p], |args|) && [p][0] == p;
    case EffectiveUntil(p) => assert InRange([p], |args|) && [p][0] == p;
    case DocumentIn(ps) => TextInStable(Some(row.documentId), args, more, ps);
    case ContentMatches(p) => assert InRange([p], |args|) && [p][0] == p;
  }

  lemma {:induction false} EvaluateAllStable(db: Database, cs: seq<Condition>, args: seq<Arg>, more: seq<Arg>, row: Row)
    requires InRange(AllPlaceholders(cs), |args|)
    ensures EvaluateAll(db, cs, args + more, row) == EvaluateAll(db, cs, args, row)
  {
    if cs != [] {
      var front, c := cs[..|cs| - 1], cs[|cs| - 1];
      var ps := AllPlaceholders(front) + Placeholders(c);
      assert InRange(AllPlaceholders(front), |args|) by {
        assert forall i :: 0 <= i < |AllPlaceholders(front)| ==> AllPlaceholders(front)[i] == ps[i];
      }
      assert InRange(Placeholders(c), |args|) by {
        assert forall i :: 0 <= i < |Placeholders(c)| ==> Placeholders(c)[i] == ps[|AllPlaceholders(front)| + i];
      }
      EvaluateAllStable(db, front, args, more, row);
      EvaluateStable(db, c, args, more, row);
    }
  }

  type Meaning = (Database, Row) -> bool

  /** The clause passes exactly the rows of which `meaning` holds, on every database. */
  ghost predicate Means(cs: seq<Condition>, args: seq<Arg>, meaning: Meaning) {
    forall db, row :: EvaluateAll(db, cs, args, row) == Yes <==> meaning(db, row)
  }

  ghost predicate Refines(c: Condition, args: seq<Arg>, before: Meaning, after: Meaning) {
    forall db, row :: after(db, row) <==> before(db, row) && Evaluate(db, c, args, row) == Yes
  }

  lemma AppendInStep(cs: seq<Condition>, args: seq<Arg>, c: Condition, more: seq<Arg>)
    requires InStep(cs, args) && Placeholders(c) == Numbers(|args| + 1, |more|)
    ensures InStep(cs + [c], args + more)
  {
    assert (cs + [c])[..|cs|] == cs;
    assert Numbers(1, |args|) + Numbers(|args| + 1, |more|) == Numbers(1, |args + more|);
  }

  /** Adding a conjunct with fresh arguments: the clause means "what it meant before, and the new conjunct". */
  lemma AppendMeans(cs: seq<Condition>, args: seq<Arg>, c: Condition, more: seq<Arg>, before: Meaning, after: Meaning)
    requires InStep(cs, args) && Means(cs, args, before) && Refines(c, args + more, before, after)
    ensures Means(cs + [c], args + more, after)
  {
    assert (cs + [c])[..|cs|] == cs;
    forall db, row
      ensures EvaluateAll(db, cs + [c], args + more, row) == Yes <==> after(db, row)
    {
      EvaluateAllStable(db, cs, args, more, row);
      assert EvaluateAll(db, cs + [c], args + more, row) ==
        Conjunction(EvaluateAll(db, cs, args, row), Evaluate(db, c, args + more, row));
      assert EvaluateAll(db, cs, args, row) == Yes <==> before(db, row);
    }
  }

  function TextArgs(texts: seq<string>): (r: seq<Arg>)
    ensures |r| == |texts|
  {
    seq(|texts|, i requires 0 <= i < |texts| => TextArg(texts[i]))
  }

  /** IN over freshly appended text arguments is membership; a NULL column never passes. */
  lemma {:induction false} FreshIn(column: Option<string>, args: seq<Arg>, texts: seq<string>, n: nat)
    requires n <= |texts|
    ensures TextIn(column, args + TextArgs(texts), Numbers(|args| + 1, n)) == Yes <==>
            column.Some? && column.value in texts[..n]
  {
    if n > 0 {
      FreshIn(column, args, texts, n - 1);
      var ps := Numbers(|args| + 1, n);
      assert ps[..n - 1] == Numbers(|args| + 1, n - 1);
      assert ArgAt(args + TextArgs(texts), ps[n - 1]) == Some(TextArg(texts[n - 1]));
      assert texts[..n] == texts[..n - 1] + [texts[n - 1]];
    }
  }

  lemma FreshInAll(args: seq<Arg>, texts: seq<string>)
    ensures forall column :: TextIn(column, args + TextArgs(texts), Numbers(|args| + 1, |texts|)) == Yes <==>
                               column.Some? && column.value in texts
  {
    forall column
      ensures TextIn(column, args + TextArgs(texts), Numbers(|args| + 1, |texts|)) == Yes <==>
                column.Some? && column.value in texts
    {
      FreshIn(column, args, texts, |texts|);
      assert texts[..|texts|] == texts;
    }
  }

  // ----- the compilers -----

  /** A statement being built: conjuncts, arguments and the next placeholder number. */
  datatype Draft = Draft(conditions: seq<Condition>, args: seq<Arg>, argIdx: nat) {
    ghost predicate Valid(meaning: Meaning) {
      InStep(conditions, args) && argIdx == |args| + 1 && Means(conditions, args, meaning)
    }
  }

  /** Appends one conjunct and its arguments, moving the placeholder counter past them. */
  method AddCondition(d: Draft, c: Condition, more: seq<Arg>, ghost before: Meaning, ghost after: Meaning)
    returns (d': Draft)
    requires d.Valid(before) && Placeholders(c) == Numbers(d.argIdx, |more|) && Refines(c, d.args + more, before, after)
    ensures d' == Draft(d.conditions + [c], d.args + more, d.argIdx + |more|) && d'.Valid(after)
  {
    AppendInStep(d.conditions, d.args, c, more);
    AppendMeans(d.conditions, d.args, c, more, before, after);
    d' := Draft(d.conditions + [c], d.args + more, d.argIdx + |more|);
  }

  /** The loop of an IN list: each text takes the next placeholder and becomes the next argument. */
  method NumberTexts(texts: seq<string>, argIdx: nat) returns (placeholders: seq<nat>, more: seq<Arg>)
    ensures placeholders == Numbers(argIdx, |texts|) && more == TextArgs(texts)
  {
    placeholders, more := [], [];
    var next := argIdx;
    for i := 0 to |texts|
      invariant next == argIdx + i
      invariant placeholders == Numbers(argIdx, i) && more == TextArgs(texts[..i])
    {
      placeholders := placeholders + [next];
      more := more + [TextArg(texts[i])];
      next := next + 1;
    }
    assert texts[..|texts|] == texts;
  }

  lemma SearchBase(query: Query, minScore: real, base: Meaning)
    requires forall db, row :: base(db, row) <==>
               row.isActive == Some(true) && row.embedding.Some? &&
               1.0 - db.distance(row.embedding.value, query.embedding) > minScore
    ensures
      var conditions := [IsActive, HasEmbedding, Similarity(1, 2)];
      var args := [VectorArg(query.embedding), NumberArg(minScore)];
      InStep(conditions, args) && Means(conditions, args, base)
  {
    var conditions := [IsActive, HasEmbedding, Similarity(1, 2)];
    var args := [VectorArg(query.embedding), NumberArg(minScore)];
    assert conditions[..2] == [IsActive, HasEmbedding] && [IsActive][..0] == [];
    assert [IsActive, HasEmbedding][..1] == [IsActive];
    assert AllPlaceholders(conditions) == [] + [] + [] + [1, 2];
    forall db, row
      ensures EvaluateAll(db, conditions, args, row) == Yes <==> base(db, row)
    {
      assert EvaluateAll(db, [IsActive], args, row) == Evaluate(db, IsActive, args, row);
      assert EvaluateAll(db, [IsActive, HasEmbedding], args, row) ==
        Conjunction(Evaluate(db, IsActive, args, row), Evaluate(db, HasEmbedding, args, row));
      assert ArgAt(args, 1) == Some(VectorArg(query.embedding)) && ArgAt(args, 2) == Some(NumberArg(minScore));
    }
  }

  lemma SameMeaning(d: Draft, before: Meaning, after: Meaning)
    requires d.Valid(before) && forall db, row :: after(db, row) <==> before(db, row)
    ensures d.Valid(after)
  {
  }

  /** The LIMIT argument, appended last, leaves the clause as it was. */
  lemma ClosingArgument(d: Draft, last: Arg, meaning: Meaning)
    requires d.Valid(meaning)
    ensures Means(d.conditions, d.args + [last], meaning)
  {
    forall db, row
      ensures EvaluateAll(db, d.conditions, d.args + [last], row) == Yes <==> meaning(db, row)
    {
      EvaluateAllStable(db, d.conditions, d.args, [last], row);
      assert EvaluateAll(db, d.conditions, d.args, row) == Yes <==> meaning(db, row);
    }
  }

  lemma MeansOnRows(d: Draft, last: Arg, meaning: Meaning)
    requires d.Valid(meaning) && Means(d.conditions, d.args + [last], meaning)
    ensures AllPlaceholders(d.conditions) == Numbers(1, |d.args|)
    ensures forall db, row :: EvaluateAll(db, d.conditions, d.args + [last], row) == Yes <==> meaning(db, row)
  {
    hide EvaluateAll, AllPlaceholders;
  }

  method AddSourceFilter(d: Draft, wanted: string, ghost before: Meaning) returns (d': Draft, ghost after: Meaning)
    requires d.Valid(before)
    ensures d'.Valid(after) && d.args <= d'.args
    ensures forall db, row :: after(db, row) <==> before(db, row) && AllowsText(wanted, row.sourceType)
  {
    after := (db: Database, row: Row) => before(db, row) && AllowsText(wanted, row.sourceType);
    d' := d;
    if wanted != "" {
      d' := AddCondition(d, SourceTypeIs(d.argIdx), [TextArg(wanted)], before, after);
    } else {
      SameMeaning(d, before, after);
    }
  }

  method AddCategoryFilter(d: Draft, wanted: seq<string>, ghost before: Meaning)
    returns (d': Draft, ghost after: Meaning)
    requires d.Valid(before)
    ensures d'.Valid(after) && d.args <= d'.args
    ensures forall db, row :: after(db, row) <==> before(db, row) && AllowsAny(wanted, row.category)
  {
    after := (db: Database, row: Row) => before(db, row) && AllowsAny(wanted, row.category);
    d' := d;
    if |wanted| > 0 {
      var placeholders, more := NumberTexts(wanted, d.argIdx);
      FreshInAll(d.args, wanted);
      d' := AddCondition(d, CategoryIn(placeholders), more, before, after);
    } else {
      SameMeaning(d, before, after);
    }
  }

  method AddNumberFilter(d: Draft, wanted: string, ghost before: Meaning) returns (d': Draft, ghost after: Meaning)
    requires d.Valid(before)
    ensures d'.Valid(after) && d.args <= d'.args
    ensures forall db, row :: after(db, row) <==> before(db, row) && AllowsText(wanted, row.standardNumber)
  {
    after := (db: Database, row: Row) => before(db, row) && AllowsText(wanted, row.standardNumber);
    d' := d;
    if wanted != "" {
      d' := AddCondition(d, StandardNumberIs(d.argIdx), [TextArg(wanted)], before, after);
    } else {
      SameMeaning(d, before, after);
    }
  }

  method AddStartFilter(d: Draft, wanted: Option<int>, ghost before: Meaning) returns (d': Draft, ghost after: Meaning)
    requires d.Valid(before)
    ensures d'.Valid(after) && d.args <= d'.args
    ensures forall db, row :: after(db, row) <==>
                              before(db, row) && AllowsDate(DateRange(wanted, None), row.effectiveDate)
  {
    after := (db: Database, row: Row) => before(db, row) && AllowsDate(DateRange(wanted, None), row.effectiveDate);
    d' := d;
    if wanted.Some? {
      d' := AddCondition(d, EffectiveFrom(d.argIdx), [DateArg(wanted.value)], before, after);
    } else {
      SameMeaning(d, before, after);
    }
  }

  method AddEndFilter(d: Draft, wanted: Option<int>, ghost before: Meaning) returns (d': Draft, ghost after: Meaning)
    requires d.Valid(before)
    ensures d'.Valid(after) && d.args <= d'.args
    ensures forall db, row :: after(db, row) <==>
                              before(db, row) && AllowsDate(DateRange(None, wanted), row.effectiveDate)
  {
    after := (db: Database, row: Row) => before(db, row) && AllowsDate(DateRange(None, wanted), row.effectiveDate);
    d' := d;
    if wanted.Some? {
      d' := AddCondition(d, EffectiveUntil(d.argIdx), [DateArg(wanted.value)], before, after);
    } else {
      SameMeaning(d, before, after);
    }
  }

  method AddDocumentFilter(d: Draft, wanted: seq<string>, ghost before: Meaning)
    returns (d': Draft, ghost after: Meaning)
    requires d.Valid(before)
    ensures d'.Valid(after) && d.args <= d'.args
    ensures forall db, row :: after(db, row) <==> before(db, row) && AllowsAny(wanted, Some(row.documentId))
  {
    after := (db: Database, row: Row) => before(db, row) && AllowsAny(wanted, Some(row.documentId));
    d' := d;
    if |wanted| > 0 {
      var placeholders, more := NumberTexts(wanted, d.argIdx);
      FreshInAll(d.args, wanted);
      d' := AddCondition(d, DocumentIn(placeholders), more, before, after);
    } else {
      SameMeaning(d, before, after);
    }
  }

  /** The statement for a vector search selects exactly the rows the filters describe. */
  method Search(query: Query) returns (st: Statement)
    ensures forall db, row :: EvaluateAll(db, st.conditions, st.args, row) == Yes <==> Satisfies(db, query, row)
    // Read left to right the WHERE placeholders are 1, 2, ..., one per argument but the last; LIMIT takes the last.
    ensures |st.args| >= 3 && AllPlaceholders(st.conditions) == Numbers(1, |st.args| - 1)
    ensures st.limit == |st.args| && st.args[st.limit - 1] == LimitArg(if query.topK <= 0 then 10 else query.topK)
    ensures st.orderBy == 1 && st.args[0] == VectorArg(query.embedding)
  {
    hide Evaluate, EvaluateAll, AllPlaceholders, AllowsText, AllowsAny, Means, InStep;
    var topK := if query.topK <= 0 then 10 else query.topK;
    var minScore := if query.minScore <= 0.0 then 0.5 else query.minScore;
    var f := query.filters;
    ghost var base: Meaning := (db: Database, row: Row) =>
      row.isActive == Some(true) && row.embedding.Some? &&
      1.0 - db.distance(row.embedding.value, query.embedding) > minScore;
    SearchBase(query, minScore, base);
    var d := Draft([IsActive, HasEmbedding, Similarity(1, 2)], [VectorArg(query.embedding), NumberArg(minScore)], 3);
    ghost var bySource, byCategory, byNumber, byStart, byEnd, byDocument;
    d, bySource := AddSourceFilter(d, f.sourceType, base);
    d, byCategory := AddCategoryFilter(d, f.categories, bySource);
    d, byNumber := AddNumberFilter(d, f.standardNumber, byCategory);
    d, byStart := AddStartFilter(d, f.dateRange.start, byNumber);
    d, byEnd := AddEndFilter(d, f.dateRange.end, byStart);
    d, byDocument := AddDocumentFilter(d, f.documentIds, byEnd);
    forall db, row
      ensures byDocument(db, row) <==> Satisfies(db, query, row)
    {
      assert byEnd(db, row) <==> byStart(db, row) && AllowsDate(DateRange(None, f.dateRange.end), row.effectiveDate);
    }
    ClosingArgument(d, LimitArg(topK), byDocument);
    MeansOnRows(d, LimitArg(topK), byDocument);
    st := Statement(d.conditions, d.args + [LimitArg(topK)], 1, d.argIdx);
  }

  /** A search narrowed to one source is the search whose source filter is overwritten. */
  method SearchBySource(query: Query, sourceType: string) returns (st: Statement)
    ensures forall db, row :: EvaluateAll(db, st.conditions, st.args, row) == Yes <==>
              Satisfies(db, query.(filters := query.filters.(sourceType := "")), row) &&
                AllowsText(sourceType, row.sourceType)
  {
    st := Search(query.(filters := query.filters.(sourceType := sourceType)));
  }

  lemma KeywordBase(text: string, base: Meaning)
    requires forall db, row :: base(db, row) <==> db.matches(row.content, text) && row.isActive == Some(true)
    ensures
      var conditions := [ContentMatches(1), IsActive];
      InStep(conditions, [TextArg(text)]) && Means(conditions, [TextArg(text)], base)
  {
    var conditions, args := [ContentMatches(1), IsActive], [TextArg(text)];
    assert conditions[..1] == [ContentMatches(1)] && [ContentMatches(1)][..0] == [];
    assert AllPlaceholders(conditions) == [] + [1] + [];
    forall db, row
      ensures EvaluateAll(db, conditions, args, row) == Yes <==> base(db, row)
    {
      assert EvaluateAll(db, [ContentMatches(1)], args, row) == Evaluate(db, ContentMatches(1), args, row);
      assert ArgAt(args, 1) == Some(TextArg(text));
    }
  }

  method KeywordSearch(text: string, opts: KeywordOptions) returns (st: Statement)
    ensures forall db, row :: EvaluateAll(db, st.conditions, st.args, row) == Yes <==>
            SatisfiesKeyword(db, text, opts, row)
    ensures |st.args| >= 2 && AllPlaceholders(st.conditions) == Numbers(1, |st.args| - 1)
    ensures st.limit == |st.args| && st.args[st.limit - 1] == LimitArg(if opts.topK <= 0 then 10 else opts.topK)
    ensures st.orderBy == 1 && st.args[0] == TextArg(text)
  {
    var topK := if opts.topK <= 0 then 10 else opts.topK;
    ghost var base: Meaning := (db: Database, row: Row) => db.matches(row.content, text) && row.isActive == Some(true);
    KeywordBase(text, base);
    hide Evaluate, EvaluateAll, AllPlaceholders, AllowsText, AllowsAny;
    var d := Draft([ContentMatches(1), IsActive], [TextArg(text)], 2);
    ghost var bySource, byCategory;
    d, bySource := AddSourceFilter(d, opts.sourceType, base);
    d, byCategory := AddCategoryFilter(d, opts.categories, bySource);
    assert forall db, row :: byCategory(db, row) <==> SatisfiesKeyword(db, text, opts, row);
    ClosingArgument(d, LimitArg(topK), byCategory);
    st := Statement(d.conditions, d.args + [LimitArg(topK)], 1, d.argIdx);
  }
}
