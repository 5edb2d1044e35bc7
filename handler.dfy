/**
 * The request handler (app.py, `NeonSecurityTaskHandler.do_GET` and
 * `_respond`): routing on the path without its query string, the store
 * operations each route performs, and the framed response written to the
 * connection. Store failures are an input naming the statement that raises.
 */
module Handler {
  import opened Wrappers
  import opened Config
  import opened Decimal
  import opened Utf8
  import opened Store
  import opened Render

  datatype Route = Health | ListMessages | Home

  /** `path.split("?", 1)[0]`: the path up to its first `?`. */
  function StripQuery(path: string): (p: string)
    ensures '?' !in p
    ensures p <= path
    ensures p == path || path[|p|] == '?'
  {
    if path == [] || path[0] == '?' then [] else [path[0]] + StripQuery(path[1..])
  }

  /** A query string appended after `?` is cut off again. */
  lemma StripQueryAppend(path: string, query: string)
    requires '?' !in path
    ensures StripQuery(path + "?" + query) == path
  {
    var full := path + "?" + query;
    var p := StripQuery(full);
    assert full[|path|] == '?';
    assert forall i :: 0 <= i < |path| ==> full[i] == path[i] && full[i] != '?';
    assert forall i :: 0 <= i < |p| ==> full[i] == p[i] && p[i] != '?';
    assert |p| == |path|;
    assert p == full[..|p|];
    assert path == full[..|path|];
  }

  /** The route `do_GET` takes for a request path. */
  function RouteOf(path: string): Route {
    var p := StripQuery(path);
    if p == "/healthz" then Health else if p == "/messages" then ListMessages else Home
  }

  /** Routing ignores the query string: `/healthz?x=1` routes as `/healthz` does. */
  lemma RouteIgnoresQuery(path: string, query: string)
    requires '?' !in path
    ensures RouteOf(path + "?" + query) == RouteOf(path)
  {
    StripQueryAppend(path, query);
    assert StripQuery(path) == path;
  }

  /** The store statement that raises during a request, if any (the database is outside this model). */
  datatype Fault = NoFault | ConnectFails | EnsureTableFails | InsertFails | FetchFails

  /** `get_connection` succeeds: every required variable is set and the store accepts the connection. */
  predicate Connects(env: Environment, fault: Fault) {
    ResolveConnection(env).Ok? && fault != ConnectFails
  }

  /** The request reaches `ensure_table` and it succeeds. */
  predicate CreatesTable(route: Route, env: Environment, fault: Fault) {
    route != Health && Connects(env, fault) && fault != EnsureTableFails
  }

  /** The request inserts its message. */
  predicate InsertsRow(route: Route, env: Environment, fault: Fault) {
    route == Home && CreatesTable(route, env, fault) && fault != InsertFails
  }

  /** The request ends in a 200 response. */
  predicate Succeeds(route: Route, env: Environment, fault: Fault) {
    || route == Health
    || (CreatesTable(route, env, fault) && fault != FetchFails && (route == Home ==> fault != InsertFails))
  }

  /** One write to the connection: the status line, a header, the end of the headers, or the body. */
  datatype Event = StatusLine(code: int) | Header(name: string, value: string) | EndHeaders | Body(bytes: seq<byte>)

  /** What `_respond` writes, in order. */
  function Frame(status: int, payload: seq<byte>, contentType: string): seq<Event> {
    [StatusLine(status), Header("Content-Type", contentType), Header("Content-Length", NatToString(|payload|)),
     EndHeaders, Body(payload)]
  }

  const PlainText := "text/plain"
  const JsonType := "application/json"
  const HtmlType := "text/html; charset=utf-8"
  /** `b"ok"` */
  const HealthPayload: seq<byte> := [0x6F, 0x6B]
  /** `b"internal error"` */
  const ErrorPayload: seq<byte> := [0x69, 0x6E, 0x74, 0x65, 0x72, 0x6E, 0x61, 0x6C, 0x20, 0x65, 0x72, 0x72, 0x6F, 0x72]

  /** A response as a client sees it. */
  datatype Response = Response(status: int, contentType: string, payload: seq<byte>)

  predicate IsDecimalText(s: string) {
    |s| > 0 && forall i :: 0 <= i < |s| ==> IsDigit(s[i])
  }

  /** How a client reads one framed response: the payload is the first `Content-Length` bytes of the body. */
  function ReadResponse(events: seq<Event>): Option<Response> {
    if && |events| == 5
       && events[0].StatusLine?
       && events[1].Header? && events[1].name == "Content-Type"
       && events[2].Header? && events[2].name == "Content-Length" && IsDecimalText(events[2].value)
       && events[3] == EndHeaders
       && events[4].Body? && ParseDecimal(events[2].value) <= |events[4].bytes|
    then Some(Response(events[0].code, events[1].value, events[4].bytes[..ParseDecimal(events[2].value)]))
    else None
  }

  /** `Content-Length` is the payload's byte length, so a client reads back exactly the payload. */
  lemma ReadFrame(status: int, payload: seq<byte>, contentType: string)
    ensures ReadResponse(Frame(status, payload, contentType)) == Some(Response(status, contentType, payload))
  {
    ParseNatToString(|payload|);
    assert payload[..|payload|] == payload;
  }

  /** After an insert, the home page's first entry is the inserted row's, and the entries fetched before it follow. */
  lemma HomePageListsNewRowFirst(rows: seq<Row>, row: Row, fmt: Timestamp -> string)
    ensures Items(Newest(rows + [row], HandlerFetchLimit), fmt) ==
      Item(row, fmt) + (if rows == [] then "" else "\n" + Items(Newest(rows, HandlerFetchLimit - 1), fmt))
  {
    NewestAfterInsert(rows, row, HandlerFetchLimit);
    var older := Newest(rows, HandlerFetchLimit - 1);
    var shown := [row] + older;
    assert shown[0] == row && shown[1..] == older;
    if rows == [] {
      assert older == [];
    } else {
      assert |older| >= 1;
      assert Items(shown, fmt) == Item(row, fmt) + "\n" + Items(older, fmt);
    }
  }

  /** After an insert, the home page's banner shows the inserted row's timestamp. */
  lemma HomeBannerShowsNewRow(rows: seq<Row>, row: Row, fmt: Timestamp -> string)
    ensures Banner(Newest(rows + [row], HandlerFetchLimit), fmt) == BannerText + " @ " + fmt(row.createdAt)
  {
    NewestAfterInsert(rows, row, HandlerFetchLimit);
  }

  class RequestHandler {
    /** The database every request of this handler talks to. */
    const db: Database
    /** Everything written to the connection so far. */
    var wfile: seq<Event>

    constructor (db: Database)
      ensures this.db == db && wfile == []
    {
      this.db := db;
      wfile := [];
    }

    /** `_respond`: status, `Content-Type`, `Content-Length` of the payload in bytes, then the payload. */
    method Respond(status: int, payload: seq<byte>, contentType: string)
      modifies this
      ensures wfile == old(wfile) + Frame(status, payload, contentType)
    {
      wfile := wfile + [StatusLine(status)];
      wfile := wfile + [Header("Content-Type", contentType)];
      wfile := wfile + [Header("Content-Length", NatToString(|payload|))];
      wfile := wfile + [EndHeaders];
      wfile := wfile + [Body(payload)];
    }

    /**
     * The statements of the `with get_connection()` block of `do_GET`, for a
     * route other than health: connect, create the table if absent, insert the
     * message unless listing, fetch the newest rows. `None` when any of them raises.
     */
    method RunStatements(route: Route, env: Environment, now: Timestamp, fault: Fault)
      returns (fetched: Option<seq<Row>>)
      requires db.Valid() && route != Health
      modifies db
      ensures db.Valid()
      ensures db.created == (old(db.created) || CreatesTable(route, env, fault))
      ensures db.rows == old(db.rows) +
        (if InsertsRow(route, env, fault) then [Row(old(db.nextId), MessageText(env), now)] else [])
      ensures db.nextId == old(db.nextId) + (if InsertsRow(route, env, fault) then 1 else 0)
      ensures fetched.Some? <==> Succeeds(route, env, fault)
      ensures fetched.Some? ==> fetched.value == Newest(db.rows, HandlerFetchLimit)
    {
      if ResolveConnection(env).Err? || fault == ConnectFails {
        return None;
      }
      if fault == EnsureTableFails {
        return None;
      }
      db.EnsureTable();
      if route != ListMessages {
        if fault == InsertFails {
          return None;
        }
        var inserted := db.Insert(MessageText(env), now);
        if inserted.Err? {
          // the table exists once EnsureTable has run
          assert false;
        }
      }
      if fault == FetchFails {
        return None;
      }
      var rows := db.Fetch(HandlerFetchLimit);
      if rows.Err? {
        assert false;
      }
      fetched := Some(rows.value);
    }

    /**
     * `do_GET`: the health route answers without the store; the listing route
     * creates the table if absent and fetches; any other route also inserts the
     * configured message before fetching. Any failure gives a 500.
     */
    method DoGet(path: string, env: Environment, now: Timestamp, fault: Fault,
                 fmt: Timestamp -> string, toJson: seq<Row> -> string)
      requires db.Valid()
      modifies this, db
      ensures db.Valid()
      ensures RouteOf(path) == Health ==> unchanged(db)
      ensures db.created == (old(db.created) || CreatesTable(RouteOf(path), env, fault))
      ensures db.rows == old(db.rows) +
        (if InsertsRow(RouteOf(path), env, fault) then [Row(old(db.nextId), MessageText(env), now)] else [])
      ensures db.nextId == old(db.nextId) + (if InsertsRow(RouteOf(path), env, fault) then 1 else 0)
      ensures Succeeds(RouteOf(path), env, fault) && RouteOf(path) == Health ==>
        wfile == old(wfile) + Frame(200, HealthPayload, PlainText)
      ensures Succeeds(RouteOf(path), env, fault) && RouteOf(path) == ListMessages ==>
        wfile == old(wfile) + Frame(200, Encode(toJson(Newest(db.rows, HandlerFetchLimit))), JsonType)
      ensures Succeeds(RouteOf(path), env, fault) && RouteOf(path) == Home ==>
        && wfile == old(wfile) + Frame(200, Encode(RenderHtml(Newest(db.rows, HandlerFetchLimit), fmt)), HtmlType)
        && Newest(db.rows, HandlerFetchLimit)[0] == Row(old(db.nextId), MessageText(env), now)
      ensures !Succeeds(RouteOf(path), env, fault) ==>
        wfile == old(wfile) + Frame(500, ErrorPayload, PlainText)
    {
      var route := RouteOf(path);
      if route == Health {
        Respond(200, HealthPayload, PlainText);
        return;
      }
      var fetched := RunStatements(route, env, now, fault);
      if fetched.None? {
        Respond(500, ErrorPayload, PlainText);
      } else if route == ListMessages {
        Respond(200, Encode(toJson(fetched.value)), JsonType);
      } else {
        Respond(200, Encode(RenderHtml(fetched.value, fmt)), HtmlType);
      }
    }
  }
}
