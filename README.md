# NeonSecurityTask message server, modelled in Dafny

`Docker/dockerfiles/NeonSecurityTask/app.py` is a small HTTPS server over one
PostgreSQL table of messages. Each request to the home page stores the
configured message and shows the 20 newest rows as HTML. `/messages` lists
those rows as JSON. `/healthz` answers `ok`. Any failure turns into a 500 with
body `internal error`.

This project models the decision logic of that file, with the database
replaced by an abstract table:

- `Config` (`config.dfy`): `get_env`, the parameters `get_connection` reads,
  and the text `insert_message` stores.
- `Store` (`store.dfy`): the table as a class `Database`. It holds whether the
  table exists, the rows in insertion order and the next value of the `SERIAL`
  id sequence. `EnsureTable`, `Insert` and `Fetch` model `ensure_table`,
  `insert_message` and `fetch_messages`. `Newest` is `ORDER BY id DESC LIMIT n`
  over that table.
- `Render` (`render.dfy`): `render_html` as functions from rows to text. The
  timestamp formatter is a parameter. The page escapes nothing, and the model
  does not either.
- `Decimal` (`decimal.dfy`): `str(int)`, for the `#<id>` of an entry and the
  `Content-Length` value, with a reader for the round trip.
- `Utf8` (`utf8.dfy`): `str.encode("utf-8")`, with a decoder for the round trip.
- `Handler` (`handler.dfy`): routing on the path without its query string.
  The class `RequestHandler` holds the database and what has been written to
  the connection. It models `_respond` (`Respond`) and `do_GET` (`DoGet`, whose
  database statements are in `RunStatements`).

Inputs from outside the program are parameters of `DoGet`:
- the environment, as a map;
- the current time, which becomes `created_at`;
- a `Fault` naming the database step that raises, if any;
- the timestamp formatter;
- the JSON encoder.

What the model proves:
- `/healthz` leaves the database untouched.
- `/messages` never adds a row.
- Any other path adds exactly one row, with the next serial id, when the
  connection, table creation and insert succeed. When the fetch also succeeds,
  the page shows that row first.
- The fetch returns at most the limit, highest id first, and skips no newer row.
- Every response's `Content-Length` reads back as the byte length of its payload.

One more consequence: after a successful insert the page always lists at least
one row. So on the home route the fallback banner `Your last acccess is
logged!` (without a timestamp) never appears.

Some consequences of the code that are easy to miss:
- A missing `POSTGRES_*` variable is not fatal at startup. `main` never reads
  those variables. `get_connection` reads them on every request inside the
  `try`, so each request gets a 500 and `/healthz` still answers `ok`.
- The stored message can be empty. A `NEONSECURITYTASK_MESSAGE` set to the
  empty string is inserted as is.
- The JSON rows carry the column name `message` as the key.

## Model

| member | source | states |
|---|---|---|
| `Config.GetEnv` | Docker/dockerfiles/NeonSecurityTask/app.py:13-17 | succeeds exactly when the variable is set or a default is given; yields the environment value when set, else the default; otherwise fails with an error carrying the variable's name |
| `Config.MissingMessageNamesVariable` | Docker/dockerfiles/NeonSecurityTask/app.py:16 | the RuntimeError message contains the missing variable's name |
| `Config.ResolveConnectionSucceeds` | Docker/dockerfiles/NeonSecurityTask/app.py:20-28 | the connection parameters resolve exactly when host, database, user and password are all set; port defaults to `5432`, sslmode to `require` |
| `Config.ResolveConnectionNamesFirstMissing` | Docker/dockerfiles/NeonSecurityTask/app.py:21-26 | a failed resolution names the first unset required variable in the order the keyword arguments are evaluated |
| `Config.MessageText` | Docker/dockerfiles/NeonSecurityTask/app.py:46 | the inserted text is `NEONSECURITYTASK_MESSAGE` when set, else `Fallback message` |
| `Decimal.ParseNatToString` | Docker/dockerfiles/NeonSecurityTask/app.py:136 | the decimal text written for a length reads back as that length |
| `Decimal.IntToStringRoundTrip` | Docker/dockerfiles/NeonSecurityTask/app.py:68 | the decimal text written for a row id reads back as that id |
| `Utf8.EncodeLength` | Docker/dockerfiles/NeonSecurityTask/app.py:96 | UTF-8 takes one to four bytes per character, one per character for ASCII text |
| `Utf8.DecodeEncode` | Docker/dockerfiles/NeonSecurityTask/app.py:96 | decoding the UTF-8 bytes of any text gives the text back |
| `Store.Newest` | Docker/dockerfiles/NeonSecurityTask/app.py:58 | `ORDER BY id DESC LIMIT n` returns min(n, row count) rows, the j-th being the j-th newest row of the table |
| `Store.NewestAreTop` | Docker/dockerfiles/NeonSecurityTask/app.py:56-62 | every fetched row is in the table, and every row not fetched has a lower id than every fetched row |
| `Store.NewestAfterInsert` | Docker/dockerfiles/NeonSecurityTask/app.py:114-117 | a fetch after an insert returns the inserted row first, then the previous fetch result with one fewer row |
| `Store.Database.constructor` | Docker/dockerfiles/NeonSecurityTask/app.py:34-35 | before the table exists there are no rows and the serial sequence is at 1; the class invariant keeps both for as long as the table does not exist |
| `Store.Database.EnsureTable` | Docker/dockerfiles/NeonSecurityTask/app.py:31-40 | `CREATE TABLE IF NOT EXISTS` leaves the table existing, its rows and the id sequence unchanged, and keeps the table invariant |
| `Store.Database.Insert` | Docker/dockerfiles/NeonSecurityTask/app.py:43-48 | fails without a table; otherwise appends exactly one row with the next serial id, the given text and the current time, and that id exceeds every existing id |
| `Store.Database.Fetch` | Docker/dockerfiles/NeonSecurityTask/app.py:56-62 | fails exactly when the table is missing; otherwise returns at most `limit` rows (10 by default) of the table, strictly descending by id, with no newer row skipped |
| `Render.Banner` | Docker/dockerfiles/NeonSecurityTask/app.py:72-76 | the banner is exactly `Your last acccess is logged!` if and only if there are no rows; otherwise it is that text, then ` @ `, then the first row's formatted timestamp |
| `Render.ItemHasOneTag` | Docker/dockerfiles/NeonSecurityTask/app.py:68-69 | an entry holds exactly one `<li>` when its message and timestamp hold no `<` |
| `Render.OneItemPerRow` | Docker/dockerfiles/NeonSecurityTask/app.py:67-71 | the list section holds exactly one `<li>` per row when no message or timestamp holds `<` |
| `Render.RenderHtmlOneItemPerRow` | Docker/dockerfiles/NeonSecurityTask/app.py:65-96 | the whole page holds exactly one `<li>` per row, and none when there are no rows, when no message or timestamp holds `<`: the template around the entries and the banner adds none |
| `Render.ItemsInOrder` | Docker/dockerfiles/NeonSecurityTask/app.py:67-71 | the entries appear in input order: cut the rows anywhere and the list is the first part's entries, a newline, then the second part's |
| `Handler.StripQuery` | Docker/dockerfiles/NeonSecurityTask/app.py:104 | the routed path is the longest prefix of the request path without `?`: the whole path, or the part before its first `?` |
| `Handler.StripQueryAppend` | Docker/dockerfiles/NeonSecurityTask/app.py:104 | a query string appended after `?` is cut off again |
| `Handler.RouteIgnoresQuery` | Docker/dockerfiles/NeonSecurityTask/app.py:104-119 | a path with a query string routes exactly as the path alone (`/healthz?x=1` as `/healthz`) |
| `Handler.ReadFrame` | Docker/dockerfiles/NeonSecurityTask/app.py:133-138 | reading a framed response by its `Content-Length` gives back exactly the status, content type and payload |
| `Handler.HomePageListsNewRowFirst` | Docker/dockerfiles/NeonSecurityTask/app.py:114-123 | after an insert, the page's first entry is the inserted row's, followed by the rows fetched before it |
| `Handler.HomeBannerShowsNewRow` | Docker/dockerfiles/NeonSecurityTask/app.py:114-123 | after an insert, the banner shows the inserted row's timestamp, never the fallback |
| `Handler.RequestHandler.Respond` | Docker/dockerfiles/NeonSecurityTask/app.py:133-138 | appends status, `Content-Type`, `Content-Length` equal to the payload's byte count, end of headers, then the payload |
| `Handler.RequestHandler.RunStatements` | Docker/dockerfiles/NeonSecurityTask/app.py:109-117 | creates the table when connected; inserts one row only on the home route and only when connect and create succeeded; succeeds exactly when no statement raised; returns the newest 20 rows of the resulting table |
| `Handler.RequestHandler.DoGet` | Docker/dockerfiles/NeonSecurityTask/app.py:102-127 | health: 200 `ok` text/plain, database unchanged; listing: no row added, 200 JSON of the newest 20 rows; home: exactly one row added, 200 HTML whose first row is the new one; any failure: 500 `internal error` text/plain |

## Left out

- The PostgreSQL driver. Connections, cursors and SQL text are not modelled. A store failure is the `Fault` input, and the table is abstract.
- The commit or rollback of the `with get_connection()` block (app.py:109). If the fetch fails after a successful insert, the model keeps the inserted row; the driver would roll it back.
- `http.server` internals. Request parsing, the status line text, the `Server` and `Date` headers added by `send_response`, socket writes, and errors raised while writing a response are not modelled.
- Server bootstrap (`main`, app.py:141-164). The listening port, the TLS context, the certificate file checks and the accept loop are I/O.
- The `%Y-%m-%d %H:%M:%S%z` timestamp formatting and `json.dumps(..., default=str)`. Both are opaque function parameters.
- Logging through `print` and `log_message`. It is side output only.
- Concurrent requests. Requests are modelled as sequential `DoGet` calls on one database.
- Store.Database.Insert: ids are unbounded integers. The 32-bit limit of `SERIAL` is not modelled.
- Store.Database.Fetch: the limit is a natural number. The database error for a negative `LIMIT` is not modelled; the handler always passes 20.
- Utf8.Encode: characters are Unicode scalar values. The encode error Python raises on lone surrogates is not modelled.
- Render.OneItemPerRow: counts `<li>` only when messages and timestamps contain no `<`. The page escapes nothing, so a message containing `<li>` adds more.
- Render.RenderHtmlOneItemPerRow: the same condition on messages and timestamps, for the same reason.
