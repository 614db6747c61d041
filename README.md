# Music web server: a verified model of its request logic

The service keeps songs (title, artist, genre, play count) in one SQLite table. It answers five HTTP routes and counts visits to `/count`. Almost everything it does is done by libraries: routing, JSON and the database itself. This project models the logic the service adds on top of them:

- **Search statement builder** (module `Search`). The search handler takes three optional filters: title, artist and genre. It makes two sequences from them:
  - an SQL text, which is either `SELECT * FROM songs ` or a WHERE clause of `LOWER(col) LIKE LOWER(?)` predicates joined by ` AND `;
  - a list of bind values `%v%`.

  It builds them in two separate passes over the fields. The model has a plan function `Plan` from the request to predicates and binds, and a rendering `Render` to the exact text the handler produces, including its line break and indentation. A parser `ParseStatement` inverts the rendering. The handler's two passes (`WhereExpressions`, `BindValues`) and the assembled statement (`BuildSearchStatement`) are imperative methods proved equal to the plan. Counting the `?` placeholders from the left, as SQLite numbers anonymous parameters, the `?` numbered i is proved to lie inside predicate i. Bind i is the pattern of the field that this predicate tests.
- **Visit counter** (module `Visits`). A class with one `nat` field. `Increment` adds one and reports `"Visit count: " + n`, with `n` in decimal (module `Decimal`, with its inverse).
- **Response selection** (module `Responses`). The add, play and search handlers map the store's answer to a body. The store's answer is an input: a row or no row, or an error.
- **Client input** (module `Songs`). What a client sends becomes a `SongInput` with three optional fields, or is rejected when a song field holds a value that is neither a string nor `null`. A key sent with JSON `null` counts as absent, like a missing key. Values under any other key are accepted and dropped. The store-assigned `id` and `play_count` are never read from client input.

Two details of the code are easy to miss, and the model keeps both as written:
- The filtered statement text starts with a newline and indentation. It is not a bare `SELECT ... WHERE`.
- The search handler's failure body reuses the add handler's text `Failed to add song: ` followed by the error.

## Model

| member | source | states |
|---|---|---|
| Songs.FromFields | src/main.rs:21-33 | the input is rejected exactly when a value under title, artist or genre is neither a string nor `null`; otherwise each of those fields is present exactly when its key was sent with a string, and then carries that string; a missing key and a `null` both leave it absent |
| Songs.NullLikeMissing | src/main.rs:25-30 | sending `null` for title, artist or genre gives the same input as leaving the key out |
| Songs.OtherKeysIgnored | src/main.rs:21-33 | a value of any kind under a key other than title, artist and genre is accepted and does not change the deserialised input |
| Songs.StoreFieldsIgnored | src/main.rs:23-32 | values of any kind sent under `id` and `play_count`, as in a song the service returned, do not change the deserialised input (those fields skip deserialisation) |
| Decimal.NatToString | src/main.rs:108 | the count is printed as a well-formed numeral: non-empty, digits only, no leading zero, and it starts with `0` only for zero |
| Decimal.ParseNatToString | src/main.rs:108 | reading the printed count back as a decimal numeral gives the count |
| Decimal.NatToStringParse | src/main.rs:108 | every well-formed numeral is the printed form of the number it denotes, so printing is a bijection onto numerals |
| Decimal.NatToStringInjective | src/main.rs:108 | different counts print differently |
| Visits.VisitMessage | src/main.rs:108 | the reply is `Visit count: ` followed by a numeral that reads back as the count |
| Visits.VisitMessageInjective | src/main.rs:108 | different counts never give the same reply |
| Visits.VisitCounter.constructor | src/main.rs:61 | the counter starts at zero |
| Visits.VisitCounter.Increment | src/main.rs:103-109 | the counter becomes one more than before; the call returns the new value and the reply text for it |
| Visits.VisitsFromStart | src/main.rs:103-109 | a client of the counter: k calls on a fresh counter report 1, 2, ..., k, with pairwise different replies; the last reply is for k |
| Search.Pattern | src/main.rs:188 | the bound value is the field text with one `%` before and one after, and nothing else |
| Search.FiltersExact | src/main.rs:161-171 | the present fields are listed exactly once each, with their values, in strictly increasing title, artist, genre order; their number is the count of present fields |
| Search.Plan | src/main.rs:161-195 | the plan of a request has one predicate and one bind per present field |
| Search.PlanMatchesFields | src/main.rs:161-195 | predicates and binds are equally many, one per present field; the i-th bind is the pattern of the value of the field the i-th predicate tests; predicates follow title, artist, genre order and miss no present field |
| Search.TitleLiteral | src/main.rs:164 | the title predicate the handler pushes is the rendered `LOWER(title) LIKE LOWER(?)` |
| Search.ArtistLiteral | src/main.rs:167 | the artist predicate the handler pushes is the rendered `LOWER(artist) LIKE LOWER(?)` |
| Search.GenreLiteral | src/main.rs:170 | the genre predicate the handler pushes is the rendered `LOWER(genre) LIKE LOWER(?)` |
| Search.WhereExpressions | src/main.rs:161-171 | the first pass yields exactly the predicate texts of the plan, in order |
| Search.BindValues | src/main.rs:186-195 | the second pass yields exactly the binds of the plan, in order |
| Search.BuildSearchStatement | src/main.rs:157-195 | the handler's statement is the rendering of the plan's predicates, and its bind list is the plan's bind list |
| Search.Render | src/main.rs:173-182 | the statement is the whole-table text exactly when there are no predicates; otherwise it starts with the WHERE prefix, line break and indentation included |
| Search.NoFieldsSelectAll | src/main.rs:173-174 | with no field given the statement is exactly `SELECT * FROM songs ` and nothing is bound |
| Search.WhereIffFiltered | src/main.rs:173-182 | the statement contains `WHERE` if and only if at least one field is present |
| Search.StatementPlaceholders | src/main.rs:164-181 | a rendered statement holds exactly one `?` per predicate |
| Search.PlaceholderOfPredicate | src/main.rs:164-182 | in a rendered statement, predicate i's text sits right after the text before it, and the `?` numbered i from the left (numbering from 0) lies inside it |
| Search.JoinLength | src/main.rs:180 | joining k predicates adds exactly k - 1 separators' worth of text |
| Search.ParseRender | src/main.rs:173-182 | reading a rendered statement back gives its predicates, in order |
| Search.RenderParse | src/main.rs:173-182 | every text the statement reader accepts is the rendering of what it returns |
| Search.SearchStatementBinding | src/main.rs:157-195 | the predicates read back from the statement text, the `?` count and the binds all number the present fields; the `?` numbered i from the left lies inside predicate i, which tests a present field, and bind i is that field's pattern |
| Search.EmptyFieldStillFilters | src/main.rs:186-195 | a field given as the empty string still adds a predicate, bound to `%%`, so there is one more bind than when the field is missing |
| Responses.AddSongResponse | src/main.rs:137-145 | success exactly when a row came back, and the body is that row; no row gives `Failed to add song`; an error gives `Failed to add song: ` followed by its message |
| Responses.AddFailuresDistinct | src/main.rs:137-145 | the add handler's "no row" body differs from every error body, and different errors give different bodies |
| Responses.PlaySongResponse | src/main.rs:226-234 | success exactly when a row came back, and the body is that row; otherwise the body is the `{"error":"Song not found"}` object |
| Responses.PlayFailuresCollapse | src/main.rs:226-234 | any two failed outcomes of play, whether no row or any error, give the same body |
| Responses.AddPlayAgreeOnSuccess | src/main.rs:137-139 | add and play (whose success arm is src/main.rs:226-228) succeed on the same outcomes and then both return the row unchanged |
| Responses.SearchSongResponse | src/main.rs:197-201 | success exactly when the query succeeded, and the body is its rows in order; a failure gives the same body as an add failure with that error |

## Left out

- `main`: the async runtime, the SQLite connection options and pool, the `CREATE TABLE` statement, the TCP listener and the server loop. These are I/O and library setup.
- `welcome`: it returns a constant string and has nothing to state.
- The meaning of the SQL: LIKE matching and case folding, `INSERT ... RETURNING`, the play-count `UPDATE`, id assignment, column defaults and NOT NULL constraints. SQLite carries these out. The store's answers are inputs to `Responses`, and no database is modelled.
- The bind lists of the INSERT and UPDATE statements in `add_song` and `play_song`. They are fixed-position binds whose effect is only visible in the database.
- The mutex around the visit counter. Only the sequential effect of one increment is modelled, not concurrent callers.
- Routing, extractors and JSON rendering. `Body` stands for the JSON value a handler returns. Client input is modelled as a map from keys to JSON values, where a number, boolean, array or object is one undistinguished value. Malformed JSON, duplicate keys and the extractor's error responses are not modelled; only whether the input is rejected is.
- Visits.VisitCounter.Increment: the counter is an unbounded `nat`. The source's `u128` would overflow after 2^128 - 1 visits (a panic in debug builds, wrap-around in release builds), and this is not modelled.
- Responses.AddSongResponse: a database error is represented only by its rendered message. Other details of the error value are not modelled.
