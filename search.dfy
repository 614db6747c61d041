/** The statement builder of the search endpoint: up to three optional
    filters become a SELECT over the songs table with one case-insensitive
    LIKE predicate per present filter, and a list of values to bind to its
    `?` placeholders, position by position. */
module Search {
  import opened Songs

  datatype Column = Title | Artist | Genre

  function ColumnName(c: Column): string
  {
    match c
    case Title => "title"
    case Artist => "artist"
    case Genre => "genre"
  }

  /** The value a search request gives for a column, if any. */
  function Field(q: SongInput, c: Column): Option<string>
  {
    match c
    case Title => q.title
    case Artist => q.artist
    case Genre => q.genre
  }

  /** Position of a column in the fixed emission order title, artist, genre. */
  function Rank(c: Column): nat
  {
    match c
    case Title => 0
    case Artist => 1
    case Genre => 2
  }

  /** A present search field: the column it filters and the text supplied. */
  datatype Filter = Filter(column: Column, value: string)

  /** `LOWER(column) LIKE LOWER(?)`: a case-insensitive match of the column
      against the value bound to the placeholder. */
  datatype Predicate = Like(column: Column)

  /** A statement before rendering: its predicates, and the values bound to
      their placeholders. */
  datatype SearchPlan = SearchPlan(predicates: seq<Predicate>, binds: seq<string>)

  function Present(c: Column, v: Option<string>): seq<Filter>
  {
    if v.Some? then [Filter(c, v.value)] else []
  }

  /** The present fields of a request, in emission order. An empty string is
      present: only a missing field is skipped. */
  function Filters(q: SongInput): seq<Filter>
  {
    Present(Title, q.title) + Present(Artist, q.artist) + Present(Genre, q.genre)
  }

  function PresentCount(q: SongInput): nat
  {
    (if q.title.Some? then 1 else 0) + (if q.artist.Some? then 1 else 0) + (if q.genre.Some? then 1 else 0)
  }

  /** The value bound for a field: the text wrapped in `%` wildcards, so the
      LIKE matches any column value containing it. */
  function Pattern(v: string): (p: string)
    ensures |p| == |v| + 2 && p[0] == '%' && p[|p| - 1] == '%' && p[1..|p| - 1] == v
  {
    "%" + v + "%"
  }

  function PredicatesOf(fs: seq<Filter>): seq<Predicate>
  {
    seq(|fs|, i requires 0 <= i < |fs| => Like(fs[i].column))
  }

  function BindsOf(fs: seq<Filter>): seq<string>
  {
    seq(|fs|, i requires 0 <= i < |fs| => Pattern(fs[i].value))
  }

  /** The search plan of a request: one predicate and one bind per filter. */
  function Plan(q: SongInput): (plan: SearchPlan)
    ensures |plan.predicates| == |plan.binds| == PresentCount(q)
  {
    FiltersExact(q);
    SearchPlan(PredicatesOf(Filters(q)), BindsOf(Filters(q)))
  }

  // ---------------------------------------------------------------------
  // Rendering to SQL text

  const NoFilterStatement: string := "SELECT * FROM songs "
  const WherePrefix: string := "\n        SELECT * FROM songs\n        WHERE "
  const Conjunction: string := " AND "

  function PredicateText(p: Predicate): string
  {
    "LOWER(" + ColumnName(p.column) + ") LIKE LOWER(?)"
  }

  function Texts(preds: seq<Predicate>): (ts: seq<string>)
    ensures |ts| == |preds|
    ensures forall i :: 0 <= i < |preds| ==> ts[i] == PredicateText(preds[i])
  {
    seq(|preds|, i requires 0 <= i < |preds| => PredicateText(preds[i]))
  }

  /** The parts, with `sep` between each two neighbours. */
  function Join(parts: seq<string>, sep: string): string
  {
    if |parts| == 0 then ""
    else if |parts| == 1 then parts[0]
    else parts[0] + sep + Join(parts[1..], sep)
  }

  /** The SQL text for a list of predicates: the whole table when there is
      none, otherwise a WHERE clause conjoining them. */
  function Render(preds: seq<Predicate>): (sql: string)
    ensures sql == NoFilterStatement <==> preds == []
    ensures preds != [] ==> StartsWith(sql, WherePrefix)
  {
    if preds == [] then NoFilterStatement
    else WherePrefix + Join(Texts(preds), Conjunction)
  }

  // ---------------------------------------------------------------------
  // The builder as the handler runs it

  /** The predicate texts the handler writes out literally are the rendered
      predicates of their columns, one lemma per column. */
  lemma TitleLiteral()
    ensures PredicateText(Like(Title)) == "LOWER(title) LIKE LOWER(?)"
  {
  }

  lemma ArtistLiteral()
    ensures PredicateText(Like(Artist)) == "LOWER(artist) LIKE LOWER(?)"
  {
  }

  lemma GenreLiteral()
    ensures PredicateText(Like(Genre)) == "LOWER(genre) LIKE LOWER(?)"
  {
  }

  /** Extending the fields seen so far by one more adds its predicate text,
      if the field is present. */
  lemma TextsStep(seen: seq<Filter>, c: Column, v: Option<string>)
    ensures Texts(PredicatesOf(seen + Present(c, v)))
         == Texts(PredicatesOf(seen)) + (if v.Some? then [PredicateText(Like(c))] else [])
  {
  }

  /** Extending the fields seen so far by one more adds its bind, if the
      field is present. */
  lemma BindsStep(seen: seq<Filter>, c: Column, v: Option<string>)
    ensures BindsOf(seen + Present(c, v))
         == BindsOf(seen) + (if v.Some? then [Pattern(v.value)] else [])
  {
  }

  /** The first pass of the handler: one predicate text pushed per present
      field, in the order title, artist, genre. */
  method WhereExpressions(q: SongInput) returns (whereExprs: seq<string>)
    ensures whereExprs == Texts(Plan(q).predicates)
  {
    whereExprs := [];
    ghost var seen: seq<Filter> := [];
    TitleLiteral();
    ArtistLiteral();
    GenreLiteral();
    if q.title.Some? {
      whereExprs := whereExprs + ["LOWER(title) LIKE LOWER(?)"];
    }
    TextsStep(seen, Title, q.title);
    seen := seen + Present(Title, q.title);
    if q.artist.Some? {
      whereExprs := whereExprs + ["LOWER(artist) LIKE LOWER(?)"];
    }
    TextsStep(seen, Artist, q.artist);
    seen := seen + Present(Artist, q.artist);
    if q.genre.Some? {
      whereExprs := whereExprs + ["LOWER(genre) LIKE LOWER(?)"];
    }
    TextsStep(seen, Genre, q.genre);
    seen := seen + Present(Genre, q.genre);
    assert seen == Filters(q);
  }

  /** The second, separate pass of the handler: one wildcard pattern bound
      per present field, again in the order title, artist, genre. */
  method BindValues(q: SongInput) returns (binds: seq<string>)
    ensures binds == Plan(q).binds
  {
    binds := [];
    ghost var seen: seq<Filter> := [];
    if q.title.Some? {
      binds := binds + ["%" + q.title.value + "%"];
    }
    BindsStep(seen, Title, q.title);
    seen := seen + Present(Title, q.title);
    if q.artist.Some? {
      binds := binds + ["%" + q.artist.value + "%"];
    }
    BindsStep(seen, Artist, q.artist);
    seen := seen + Present(Artist, q.artist);
    if q.genre.Some? {
      binds := binds + ["%" + q.genre.value + "%"];
    }
    BindsStep(seen, Genre, q.genre);
    seen := seen + Present(Genre, q.genre);
    assert seen == Filters(q);
  }

  /** The statement and binds the search handler hands to the store: the
      predicate texts of the first pass become the whole-table statement
      when there are none and a WHERE clause otherwise; the binds come from
      the second pass. The two passes agree with one plan, so each `?`
      receives the value of the field its predicate tests. */
  method BuildSearchStatement(q: SongInput) returns (sql: string, binds: seq<string>)
    ensures sql == Render(Plan(q).predicates)
    ensures binds == Plan(q).binds
  {
    var whereExprs := WhereExpressions(q);
    if |whereExprs| == 0 {
      sql := "SELECT * FROM songs ";
    } else {
      sql := "\n        SELECT * FROM songs\n        WHERE " + Join(whereExprs, " AND ");
    }
    binds := BindValues(q);
  }

  // ---------------------------------------------------------------------
  // Reading a statement back

  predicate StartsWith(s: string, prefix: string)
  {
    |prefix| <= |s| && s[..|prefix|] == prefix
  }

  /** The predicate whose text begins `s`, if any. */
  function ParsePredicate(s: string): (r: Option<Predicate>)
    ensures r.Some? ==> StartsWith(s, PredicateText(r.value))
  {
    if StartsWith(s, PredicateText(Like(Title))) then Some(Like(Title))
    else if StartsWith(s, PredicateText(Like(Artist))) then Some(Like(Artist))
    else if StartsWith(s, PredicateText(Like(Genre))) then Some(Like(Genre))
    else None
  }

  /** The predicates of a conjunction `p1 AND p2 AND ...`, if `s` is one. */
  function ParseConjunction(s: string): Option<seq<Predicate>>
    decreases |s|
  {
    match ParsePredicate(s)
    case None => None
    case Some(p) =>
      var rest := s[|PredicateText(p)|..];
      if rest == [] then Some([p])
      else if StartsWith(rest, Conjunction) then
        match ParseConjunction(rest[|Conjunction|..])
        case None => None
        case Some(ps) => Some([p] + ps)
      else None
  }

  /** The predicates of a search statement, if `sql` is one. */
  function ParseStatement(sql: string): Option<seq<Predicate>>
  {
    if sql == NoFilterStatement then Some([])
    else if StartsWith(sql, WherePrefix) then ParseConjunction(sql[|WherePrefix|..])
    else None
  }

  lemma ParsePredicateText(p: Predicate, rest: string)
    ensures ParsePredicate(PredicateText(p) + rest) == Some(p)
  {
    var s := PredicateText(p) + rest;
    assert s[6] == ColumnName(p.column)[0];
    assert PredicateText(Like(Title))[6] == 't';
    assert PredicateText(Like(Artist))[6] == 'a';
    assert PredicateText(Like(Genre))[6] == 'g';
    assert StartsWith(s, PredicateText(p));
  }

  lemma ParseSingle(p: Predicate)
    ensures ParseConjunction(PredicateText(p)) == Some([p])
  {
    var t := PredicateText(p);
    assert t == t + [];
    ParsePredicateText(p, []);
    assert t[|t|..] == [];
  }

  lemma ParseFollowed(p: Predicate, tail: string)
    ensures ParseConjunction(PredicateText(p) + (Conjunction + tail)) ==
              match ParseConjunction(tail)
              case None => None
              case Some(ps) => Some([p] + ps)
  {
    var t := PredicateText(p);
    var s := t + (Conjunction + tail);
    ParsePredicateText(p, Conjunction + tail);
    assert s[|t|..] == Conjunction + tail;
    assert (Conjunction + tail)[|Conjunction|..] == tail;
  }

  lemma {:induction false} ParseJoin(preds: seq<Predicate>)
    requires preds != []
    ensures ParseConjunction(Join(Texts(preds), Conjunction)) == Some(preds)
    decreases |preds|
  {
    var p := preds[0];
    if |preds| == 1 {
      ParseSingle(p);
      assert preds == [p];
    } else {
      var tail := Join(Texts(preds[1..]), Conjunction);
      assert Texts(preds)[1..] == Texts(preds[1..]);
      assert Join(Texts(preds), Conjunction) == PredicateText(p) + (Conjunction + tail);
      ParseFollowed(p, tail);
      ParseJoin(preds[1..]);
      assert [p] + preds[1..] == preds;
    }
  }

  lemma ConjunctionStep(s: string, ps: seq<Predicate>)
    requires ParseConjunction(s) == Some(ps)
    ensures ParsePredicate(s).Some? && ps != [] && ps[0] == ParsePredicate(s).value
    ensures var t := PredicateText(ps[0]);
            && s == t + s[|t|..]
            && (s[|t|..] == [] ==> ps == [ps[0]])
            && (s[|t|..] != [] ==>
                  && s[|t|..] == Conjunction + s[|t| + |Conjunction|..]
                  && ParseConjunction(s[|t| + |Conjunction|..]) == Some(ps[1..]))
  {
    var t := PredicateText(ParsePredicate(s).value);
    var rest := s[|t|..];
    if rest != [] {
      assert rest[|Conjunction|..] == s[|t| + |Conjunction|..];
    }
  }

  lemma JoinStep(parts: seq<string>, sep: string, rest: string)
    requires |parts| >= 2 && Join(parts[1..], sep) == rest
    ensures Join(parts, sep) == parts[0] + (sep + rest)
  {
    assert parts[0] + sep + rest == parts[0] + (sep + rest);
  }

  lemma {:induction false} JoinParse(s: string, ps: seq<Predicate>)
    requires ParseConjunction(s) == Some(ps)
    ensures ps != [] && Join(Texts(ps), Conjunction) == s
    decreases |s|
  {
    ConjunctionStep(s, ps);
    var t := PredicateText(ps[0]);
    if s[|t|..] == [] {
      assert Join(Texts(ps), Conjunction) == t;
    } else {
      var tail := s[|t| + |Conjunction|..];
      JoinParse(tail, ps[1..]);
      assert Texts(ps)[1..] == Texts(ps[1..]);
      JoinStep(Texts(ps), Conjunction, tail);
    }
  }

  /** Rendering loses nothing: the statement text determines its
      predicates, in order. */
  lemma ParseRender(preds: seq<Predicate>)
    ensures ParseStatement(Render(preds)) == Some(preds)
  {
    if preds != [] {
      var sql := Render(preds);
      assert |sql| > |NoFilterStatement|;
      assert sql[|WherePrefix|..] == Join(Texts(preds), Conjunction);
      ParseJoin(preds);
    }
  }

  /** Every text the parser accepts is the rendering of what it returns. */
  lemma RenderParse(sql: string)
    ensures ParseStatement(sql).Some? ==> Render(ParseStatement(sql).value) == sql
  {
    if sql != NoFilterStatement && StartsWith(sql, WherePrefix) {
      var body := sql[|WherePrefix|..];
      if ParseConjunction(body).Some? {
        JoinParse(body, ParseConjunction(body).value);
        assert sql == WherePrefix + body;
      }
    }
  }

  // ---------------------------------------------------------------------
  // Properties of the plan and its statement

  /** Filters lists exactly the present fields, each with its value, in the
      order title, artist, genre. */
  lemma FiltersExact(q: SongInput)
    ensures |Filters(q)| == PresentCount(q) <= 3
    ensures forall i :: 0 <= i < |Filters(q)| ==>
              Field(q, Filters(q)[i].column) == Some(Filters(q)[i].value)
    ensures forall i, j :: 0 <= i < j < |Filters(q)| ==>
              Rank(Filters(q)[i].column) < Rank(Filters(q)[j].column)
    ensures forall c :: Field(q, c).Some? ==>
              exists i :: 0 <= i < |Filters(q)| && Filters(q)[i].column == c
  {
    var fs := Filters(q);
    forall c | Field(q, c).Some?
      ensures exists i :: 0 <= i < |fs| && fs[i].column == c
    {
      var i := match c
        case Title => 0
        case Artist => |Present(Title, q.title)|
        case Genre => |Present(Title, q.title)| + |Present(Artist, q.artist)|;
      assert fs[i].column == c;
    }
  }

  /** Positional correspondence: there are as many binds as predicates, one
      per present field, and the i-th bind is the wildcard pattern of the
      value of the very field the i-th predicate tests. Predicates follow
      the order title, artist, genre and leave no present field out. */
  lemma PlanMatchesFields(q: SongInput)
    ensures |Plan(q).predicates| == |Plan(q).binds| == PresentCount(q)
    ensures forall i :: 0 <= i < |Plan(q).binds| ==>
              Field(q, Plan(q).predicates[i].column).Some? &&
              Plan(q).binds[i] == Pattern(Field(q, Plan(q).predicates[i].column).value)
    ensures forall i, j :: 0 <= i < j < |Plan(q).predicates| ==>
              Rank(Plan(q).predicates[i].column) < Rank(Plan(q).predicates[j].column)
    ensures forall c :: Field(q, c).Some? ==>
              exists i :: 0 <= i < |Plan(q).predicates| && Plan(q).predicates[i] == Like(c)
  {
    FiltersExact(q);
    var fs := Filters(q);
    var ps := Plan(q).predicates;
    forall c | Field(q, c).Some?
      ensures exists i :: 0 <= i < |ps| && ps[i] == Like(c)
    {
      var i :| 0 <= i < |fs| && fs[i].column == c;
      assert ps[i] == Like(c);
    }
  }

  /** With no field given the statement selects the whole table and nothing
      is bound. */
  lemma NoFieldsSelectAll(q: SongInput)
    requires q.title.None? && q.artist.None? && q.genre.None?
    ensures Render(Plan(q).predicates) == "SELECT * FROM songs "
    ensures Plan(q).binds == []
  {
  }

  predicate ContainsText(s: string, t: string)
  {
    exists i :: 0 <= i <= |s| && t <= s[i..]
  }

  /** The statement has a WHERE clause exactly when some field is present. */
  lemma WhereIffFiltered(q: SongInput)
    ensures ContainsText(Render(Plan(q).predicates), "WHERE") <==> PresentCount(q) > 0
  {
    PlanMatchesFields(q);
    var sql := Render(Plan(q).predicates);
    if PresentCount(q) == 0 {
      assert 'W' !in NoFilterStatement;
      forall i | 0 <= i <= |sql|
        ensures !("WHERE" <= sql[i..])
      {
        if i < |sql| {
          assert sql[i] != 'W';
        }
      }
    } else {
      assert sql[|WherePrefix| - 6..][..5] == "WHERE";
    }
  }

  function Count(s: string, c: char): nat
  {
    if s == [] then 0 else (if s[0] == c then 1 else 0) + Count(s[1..], c)
  }

  lemma {:induction false} CountAbsent(s: string, c: char)
    requires c !in s
    ensures Count(s, c) == 0
    decreases |s|
  {
    if s != [] {
      CountAbsent(s[1..], c);
    }
  }

  lemma {:induction false} CountAppend(a: string, b: string, c: char)
    ensures Count(a + b, c) == Count(a, c) + Count(b, c)
    decreases |a|
  {
    if a == [] {
      assert a + b == b;
    } else {
      assert (a + b)[1..] == a[1..] + b;
      CountAppend(a[1..], b, c);
    }
  }

  /** The number of `?` placeholders in a text. */
  function Placeholders(s: string): nat
  {
    Count(s, '?')
  }

  lemma CountSingle(before: string, c: char, after: string)
    requires c !in before && c !in after
    ensures Count(before + [c] + after, c) == 1
  {
    CountAbsent(before, c);
    CountAbsent(after, c);
    CountAppend(before, [c], c);
    CountAppend(before + [c], after, c);
  }

  lemma PredicatePlaceholder(p: Predicate)
    ensures Placeholders(PredicateText(p)) == 1
  {
    var before := "LOWER(" + ColumnName(p.column) + ") LIKE LOWER(";
    assert '?' !in before;
    assert PredicateText(p) == before + ['?'] + ")";
    CountSingle(before, '?', ")");
  }

  lemma {:induction false} JoinPlaceholders(preds: seq<Predicate>)
    ensures Placeholders(Join(Texts(preds), Conjunction)) == |preds|
    decreases |preds|
  {
    if preds != [] {
      var t := PredicateText(preds[0]);
      PredicatePlaceholder(preds[0]);
      if |preds| > 1 {
        var tail := Join(Texts(preds[1..]), Conjunction);
        assert Texts(preds)[1..] == Texts(preds[1..]);
        JoinPlaceholders(preds[1..]);
        CountAbsent(Conjunction, '?');
        CountAppend(t, Conjunction, '?');
        CountAppend(t + Conjunction, tail, '?');
      }
    }
  }

  lemma NoFilterPlaceholders()
    ensures Placeholders(NoFilterStatement) == 0
  {
    CountAbsent(NoFilterStatement, '?');
  }

  lemma WherePrefixPlaceholders()
    ensures Placeholders(WherePrefix) == 0
  {
    CountAbsent(WherePrefix, '?');
  }

  lemma PrefixedPlaceholders(prefix: string, body: string)
    requires Placeholders(prefix) == 0
    ensures Placeholders(prefix + body) == Placeholders(body)
  {
    CountAppend(prefix, body, '?');
  }

  /** A rendered statement has exactly one placeholder per predicate. */
  lemma StatementPlaceholders(preds: seq<Predicate>)
    ensures Placeholders(Render(preds)) == |preds|
  {
    if preds == [] {
      NoFilterPlaceholders();
    } else {
      JoinPlaceholders(preds);
      WherePrefixPlaceholders();
      PrefixedPlaceholders(WherePrefix, Join(Texts(preds), Conjunction));
    }
  }

  /** The position of the `k`-th occurrence of `c` in `s`, counting from 0
      and from the left, which is how anonymous `?` parameters are
      numbered. */
  function NthIndex(s: string, c: char, k: nat): (j: nat)
    requires k < Count(s, c)
    ensures j < |s| && s[j] == c && Count(s[..j], c) == k
    decreases |s|
  {
    if s[0] == c && k == 0 then 0
    else
      var j' := NthIndex(s[1..], c, if s[0] == c then k - 1 else k);
      assert s[..j' + 1][1..] == s[1..][..j'];
      j' + 1
  }

  /** The `k`-th `?` of a text, where `k` is the number of `?` before it,
      is found after all of those. */
  lemma {:induction false} NthIndexAppend(a: string, b: string, c: char)
    requires Count(b, c) > 0
    ensures Count(a + b, c) > Count(a, c)
    ensures NthIndex(a + b, c, Count(a, c)) == |a| + NthIndex(b, c, 0)
    decreases |a|
  {
    CountAppend(a, b, c);
    if a == [] {
      assert a + b == b;
    } else {
      assert (a + b)[1..] == a[1..] + b;
      NthIndexAppend(a[1..], b, c);
    }
  }

  /** The first `i` parts, each followed by the separator: the text a join
      puts before its part `i`. */
  function Before(parts: seq<string>, sep: string, i: nat): string
    requires i <= |parts|
    decreases i
  {
    if i == 0 then "" else parts[0] + sep + Before(parts[1..], sep, i - 1)
  }

  lemma {:induction false} JoinAt(parts: seq<string>, sep: string, i: nat)
    requires i < |parts|
    ensures Join(parts, sep) == Before(parts, sep, i) + Join(parts[i..], sep)
    decreases i
  {
    if i == 0 {
      assert parts[i..] == parts;
    } else {
      JoinAt(parts[1..], sep, i - 1);
      assert parts[1..][i - 1..] == parts[i..];
    }
  }

  lemma {:induction false} BeforePlaceholders(preds: seq<Predicate>, i: nat)
    requires i <= |preds|
    ensures Placeholders(Before(Texts(preds), Conjunction, i)) == i
    decreases i
  {
    if i > 0 {
      var t := PredicateText(preds[0]);
      assert Texts(preds)[1..] == Texts(preds[1..]);
      BeforePlaceholders(preds[1..], i - 1);
      PredicatePlaceholder(preds[0]);
      CountAbsent(Conjunction, '?');
      CountAppend(t, Conjunction, '?');
      CountAppend(t + Conjunction, Before(Texts(preds[1..]), Conjunction, i - 1), '?');
    }
  }

  /** Where the text of predicate `i` starts in a rendered WHERE clause. */
  function PredicateStart(preds: seq<Predicate>, i: nat): nat
    requires i <= |preds|
  {
    |WherePrefix| + |Before(Texts(preds), Conjunction, i)|
  }

  /** Placeholder `k` of `sql` lies inside a copy of the text of `p` that
      starts at `start`. */
  predicate PlaceholderWithin(sql: string, k: nat, p: Predicate, start: nat)
  {
    && k < Placeholders(sql)
    && start + |PredicateText(p)| <= |sql|
    && sql[start..start + |PredicateText(p)|] == PredicateText(p)
    && start <= NthIndex(sql, '?', k) < start + |PredicateText(p)|
  }

  /** A predicate text is a `?`-free opening, its one `?`, and `)`. */
  lemma PredicateTextShape(p: Predicate)
    ensures var t := PredicateText(p);
            && |t| >= 2 && t == t[..|t| - 2] + ['?'] + ")" && '?' !in t[..|t| - 2]
  {
    var t := PredicateText(p);
    var before := "LOWER(" + ColumnName(p.column) + ") LIKE LOWER(";
    assert '?' !in before;
    assert t == before + ['?'] + ")";
    assert t[..|t| - 2] == before;
  }

  /** A predicate text found at `start` holds the placeholder numbered by
      the count of `?` before `start`. */
  lemma PlaceholderAt(sql: string, p: Predicate, start: nat)
    requires start + |PredicateText(p)| <= |sql|
    requires sql[start..start + |PredicateText(p)|] == PredicateText(p)
    ensures PlaceholderWithin(sql, Placeholders(sql[..start]), p, start)
  {
    var t := PredicateText(p);
    PredicateTextShape(p);
    var head := sql[..start];
    var before := t[..|t| - 2];
    CountAbsent(before, '?');
    CountAppend(head, before, '?');
    var rest := ['?'] + (")" + sql[start + |t|..]);
    assert sql == (head + before) + rest;
    NthIndexAppend(head + before, rest, '?');
  }

  /** A join is the text before part `i`, then part `i`, then the rest. */
  lemma JoinSplit(parts: seq<string>, sep: string, i: nat)
    requires i < |parts|
    ensures var head := Before(parts, sep, i);
            && |head| + |parts[i]| <= |Join(parts, sep)|
            && Join(parts, sep)[..|head|] == head
            && Join(parts, sep)[|head|..|head| + |parts[i]|] == parts[i]
  {
    var tail := Join(parts[i..], sep);
    JoinAt(parts, sep, i);
    if |parts[i..]| > 1 {
      assert parts[i..][1..] == parts[i + 1..];
    }
    assert tail[..|parts[i]|] == parts[i];
  }

  /** After a prefix, a join still shows part `i` right after the text
      before it. */
  lemma PrefixedJoinSplit(prefix: string, parts: seq<string>, sep: string, i: nat, s: string)
    requires i < |parts| && s == prefix + Join(parts, sep)
    ensures var start := |prefix| + |Before(parts, sep, i)|;
            && start + |parts[i]| <= |s|
            && s[..start] == prefix + Before(parts, sep, i)
            && s[start..start + |parts[i]|] == parts[i]
  {
    var body := Join(parts, sep);
    JoinSplit(parts, sep, i);
    var start := |prefix| + |Before(parts, sep, i)|;
    assert s[..start] == prefix + body[..start - |prefix|];
    assert s[start..start + |parts[i]|] == body[start - |prefix|..start - |prefix| + |parts[i]|];
  }

  /** In a rendered statement, predicate `i` starts at its start position,
      after the text before it. */
  lemma RenderAt(preds: seq<Predicate>, i: nat, sql: string)
    requires i < |preds| && sql == Render(preds)
    ensures var start := PredicateStart(preds, i);
            && start + |PredicateText(preds[i])| <= |sql|
            && sql[..start] == WherePrefix + Before(Texts(preds), Conjunction, i)
            && sql[start..start + |PredicateText(preds[i])|] == PredicateText(preds[i])
  {
    assert sql == WherePrefix + Join(Texts(preds), Conjunction);
    PrefixedJoinSplit(WherePrefix, Texts(preds), Conjunction, i, sql);
  }

  /** In a rendered statement the `?` numbered `i` belongs to predicate `i`:
      predicate `i` sits at its start position and the placeholder numbered
      `i` is inside it. */
  lemma PlaceholderOfPredicate(preds: seq<Predicate>, i: nat)
    requires i < |preds|
    ensures PlaceholderWithin(Render(preds), i, preds[i], PredicateStart(preds, i))
  {
    var sql := Render(preds);
    var start := PredicateStart(preds, i);
    RenderAt(preds, i, sql);
    HeadPlaceholders(preds, i);
    PlaceholderAt(sql, preds[i], start);
  }

  /** The text before predicate `i` holds exactly `i` placeholders. */
  lemma HeadPlaceholders(preds: seq<Predicate>, i: nat)
    requires i <= |preds|
    ensures Placeholders(WherePrefix + Before(Texts(preds), Conjunction, i)) == i
  {
    BeforePlaceholders(preds, i);
    WherePrefixPlaceholders();
    PrefixedPlaceholders(WherePrefix, Before(Texts(preds), Conjunction, i));
  }

  function TotalLength(parts: seq<string>): nat
  {
    if parts == [] then 0 else |parts[0]| + TotalLength(parts[1..])
  }

  /** Joining k parts inserts exactly k - 1 separators. */
  lemma {:induction false} JoinLength(parts: seq<string>, sep: string)
    requires parts != []
    ensures |Join(parts, sep)| == TotalLength(parts) + (|parts| - 1) * |sep|
    decreases |parts|
  {
    if |parts| > 1 {
      JoinLength(parts[1..], sep);
    }
  }

  /** What the handler sends to the store: the statement's placeholders, its
      predicates and its binds are equally many, one per present field.
      Reading the predicates back out of the text, the `?` numbered `i`
      from the left lies inside predicate `i`, which tests the column of the
      field whose pattern is bind `i`. */
  lemma SearchStatementBinding(q: SongInput)
    ensures ParseStatement(Render(Plan(q).predicates)).Some?
    ensures var sql := Render(Plan(q).predicates);
            var tested := ParseStatement(sql).value;
            && Placeholders(sql) == |tested| == |Plan(q).binds| == PresentCount(q)
            && forall i :: 0 <= i < |tested| ==>
                 && PlaceholderWithin(sql, i, tested[i], PredicateStart(tested, i))
                 && Field(q, tested[i].column).Some?
                 && Plan(q).binds[i] == Pattern(Field(q, tested[i].column).value)
  {
    var preds := Plan(q).predicates;
    PlanMatchesFields(q);
    ParseRender(preds);
    StatementPlaceholders(preds);
    forall i | 0 <= i < |preds|
      ensures PlaceholderWithin(Render(preds), i, preds[i], PredicateStart(preds, i))
    {
      PlaceholderOfPredicate(preds, i);
    }
  }

  function Without(q: SongInput, c: Column): SongInput
  {
    match c
    case Title => q.(title := None)
    case Artist => q.(artist := None)
    case Genre => q.(genre := None)
  }

  /** A field given as the empty string is not the same as a missing one: it
      adds a predicate, bound to the pattern "%%". */
  lemma EmptyFieldStillFilters(q: SongInput, c: Column)
    requires Field(q, c) == Some("")
    ensures "%%" in Plan(q).binds
    ensures Like(c) in Plan(q).predicates
    ensures |Plan(q).binds| == |Plan(Without(q, c)).binds| + 1
  {
    FiltersExact(q);
    FiltersExact(Without(q, c));
    var fs := Filters(q);
    var i :| 0 <= i < |fs| && fs[i].column == c;
    assert fs[i].value == "";
    assert Plan(q).predicates[i] == Like(c);
    assert Plan(q).binds[i] == Pattern("") == "%%";
  }
}
