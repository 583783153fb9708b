/** `GET /api/v0/channels/{channel_id}/messages`: normalise the paging parameters, run one
    ordered and bounded query, and turn the returned rows into messages with their authors. */
module MessageHistory {
  import opened RustCore
  import opened Decimal

  /** `edited_at`; the handler only copies it. */
  datatype Timestamp = Timestamp(micros: int)

  /** `UserFlags::from_bits_truncate(bits)`. Which bits it keeps is decided by flag
      definitions that are not part of this model, so the value records its argument. */
  datatype UserFlags = FromBitsTruncate(bits: int)

  datatype Guild = Guild(id: U128)
  datatype Embed = Embed(json: string)

  datatype User = User(
    id: U128,
    name: string,
    avatar: Option<string>,
    guilds: Option<seq<Guild>>,
    flags: UserFlags,
    discriminator: int)

  datatype Message = Message(
    id: U128,
    content: string,
    channelId: U128,
    authorId: U128,
    author: Option<User>,
    editedAt: Option<Timestamp>,
    embeds: seq<Embed>,
    nonce: Option<string>)

  datatype MessageHistoryJson = MessageHistory(messages: seq<Message>)
  datatype BadRequestJson = BadRequestJson(reason: string, location: Option<string>)

  /** The handler's responses. The 500 body is built with its `reason` alone. */
  datatype Response =
    | Ok(body: MessageHistoryJson)
    | BadRequest(error: BadRequestJson)
    | InternalServerError(reason: string)

  /** The query string `?limit=&oldest_first=&offset=`. */
  datatype GetMessageHistoryParams = GetMessageHistoryParams(limit: Option<I64>, oldestFirst: Option<bool>, offset: Option<I64>)

  /** One row of the joined query: the message's columns plus its author's name, flags and discriminator. */
  datatype Row = Row(
    id: BigDecimal,
    content: string,
    channelId: BigDecimal,
    authorId: BigDecimal,
    editedAt: Option<Timestamp>,
    authorName: string,
    authorFlags: int,
    authorDiscriminator: int)

  datatype Order = Ascending | Descending

  /** The one query the handler sends: its direction and its three bound parameters `$1`, `$2`, `$3`. */
  datatype QueryPlan = QueryPlan(order: Order, channelId: U128, limit: Option<I64>, offset: Option<I64>)

  datatype Planned = Rejected(error: BadRequestJson) | Query(plan: QueryPlan)

  const LIMIT_REASON: string := "limit must be > 0"
  const DB_ERROR_PREFIX: string := "database returned a error: "

  const SELECT_IN_CHANNEL: string := "SELECT m.*, a.name AS author_name, a.flags AS author_flags, a.discriminator AS author_discriminator FROM messages m CROSS JOIN LATERAL (SELECT * FROM users WHERE id = m.author_id) as a WHERE channel_id = $1"

  const ORDER_BY_ID: string := " ORDER BY id "
  const PAGE_WINDOW: string := " LIMIT $2 OFFSET $3"

  /** The SQL text sent for a plan's order: `ORDER BY id ASC` when ascending, `DESC` otherwise. */
  function Sql(order: Order): string
  {
    SELECT_IN_CHANNEL + ORDER_BY_ID + (if order == Ascending then "ASC" else "DESC") + PAGE_WINDOW
  }

  /** The two query texts are identical except for the direction keyword: they share the text
      before it and the text after it. */
  lemma QueriesDifferOnlyInDirection()
    ensures var n := |SELECT_IN_CHANNEL + ORDER_BY_ID|;
      |Sql(Ascending)| == n + 3 + |PAGE_WINDOW| && |Sql(Descending)| == n + 4 + |PAGE_WINDOW| &&
      Sql(Ascending)[..n] == Sql(Descending)[..n] &&
      Sql(Ascending)[n..n + 3] == "ASC" && Sql(Descending)[n..n + 4] == "DESC" &&
      Sql(Ascending)[n + 3..] == Sql(Descending)[n + 4..] == PAGE_WINDOW
  {
    var head := SELECT_IN_CHANNEL + ORDER_BY_ID;
    var n := |head|;
    assert Sql(Ascending) == head + "ASC" + PAGE_WINDOW;
    assert Sql(Descending) == head + "DESC" + PAGE_WINDOW;
    assert (head + "ASC" + PAGE_WINDOW)[..n] == head;
    assert (head + "DESC" + PAGE_WINDOW)[..n] == head;
    assert (head + "ASC" + PAGE_WINDOW)[n..n + 3] == "ASC";
    assert (head + "DESC" + PAGE_WINDOW)[n..n + 4] == "DESC";
    assert (head + "ASC" + PAGE_WINDOW)[n + 3..] == PAGE_WINDOW;
    assert (head + "DESC" + PAGE_WINDOW)[n + 4..] == PAGE_WINDOW;
  }

  // ---------------------------------------------------------------------------------------
  // Parameter normalisation and the query plan

  /** The plan for a request, stated with plain integer comparisons: an absent or negative
      limit is refused, the largest `i64` limit means no limit, and an absent, negative or
      largest-`i64` offset becomes 0. */
  function Plan(channelId: U128, params: GetMessageHistoryParams): (p: Planned)
    ensures p.Query? ==> p.plan.offset.Some? && 0 <= p.plan.offset.value < I64_MAX
    ensures p.Query? ==> p.plan.limit == None || 0 <= p.plan.limit.value < I64_MAX
  {
    match params.limit
    case None => Rejected(BadRequestJson(LIMIT_REASON, None))
    case Some(n) =>
      if n < 0 then Rejected(BadRequestJson(LIMIT_REASON, None))
      else
        var order := if params.oldestFirst == Some(true) then Ascending else Descending;
        var limit := if n == I64_MAX then None else Some(n);
        var offset := match params.offset
          case Some(k) => if 0 <= k < I64_MAX then Some(k) else Some(0)
          case None => Some(0);
        Query(QueryPlan(order, channelId, limit, offset))
  }

  /** The handler's checks on its `mut limit` and `mut offset` locals, made with Rust's
      `Option` ordering (where `None < Some(0)`), and the choice of query. */
  method PlanQuery(channelId: U128, params: GetMessageHistoryParams) returns (outcome: Planned)
    ensures outcome == Plan(channelId, params)
  {
    var limit, oldestFirst, offset := params.limit, params.oldestFirst, params.offset;

    if Lt(limit, Some(0)) {
      return Rejected(BadRequestJson(LIMIT_REASON, None));
    }

    if Ge(limit, Some(I64_MAX)) {
      limit := None;
    }

    if Ge(offset, Some(I64_MAX)) || Lt(offset, Some(0)) {
      offset := Some(0);
    }

    var order := if oldestFirst == Some(true) then Ascending else Descending;
    outcome := Query(QueryPlan(order, channelId, limit, offset));
  }

  /** An absent limit is refused like a negative one, since `None < Some(0)`. */
  lemma AbsentLimitRejected(channelId: U128, oldestFirst: Option<bool>, offset: Option<I64>)
    ensures Plan(channelId, GetMessageHistoryParams(None, oldestFirst, offset)) == Rejected(BadRequestJson(LIMIT_REASON, None))
  {
  }

  // ---------------------------------------------------------------------------------------
  // Row assembly

  /** The three identifiers of a row have integer parts that fit in a `u128`. */
  predicate Survives(row: Row)
  {
    0 <= WithScaleZero(row.id) < U128_BOUND &&
    0 <= WithScaleZero(row.channelId) < U128_BOUND &&
    0 <= WithScaleZero(row.authorId) < U128_BOUND
  }

  /** What the history promises about the message built from a row: the identifiers are the
      integer parts of the stored decimals, content and `edited_at` are the row's, no embeds
      and no nonce, and the author is the joined user with avatar and guilds not fetched. */
  ghost predicate Depicts(m: Message, row: Row)
  {
    m.id == WithScaleZero(row.id) &&
    m.channelId == WithScaleZero(row.channelId) &&
    m.authorId == WithScaleZero(row.authorId) &&
    m.content == row.content &&
    m.editedAt == row.editedAt &&
    m.embeds == [] &&
    m.nonce == None &&
    m.author == Some(User(m.authorId, row.authorName, None, None, FromBitsTruncate(row.authorFlags), row.authorDiscriminator))
  }

  /** The `filter_map` closure's result for a row, read before its fields are taken; each
      `:-` is one of the closure's `?`s. */
  function MessageOf(row: Row): (m: Option<Message>)
    ensures m.Some? <==> Survives(row)
    ensures m.Some? ==> Depicts(m.value, row)
  {
    var authorId :- Narrow(row.authorId);
    var id :- Narrow(row.id);
    var channelId :- Narrow(row.channelId);
    var author := User(authorId, row.authorName, None, None, FromBitsTruncate(row.authorFlags), row.authorDiscriminator);
    Some(Message(id, row.content, channelId, authorId, Some(author), row.editedAt, [], None))
  }

  /** The collected output of the closure over `rows`, in the store's order. */
  function Assemble(rows: seq<Row>): (ms: seq<Message>)
    ensures |ms| <= |rows|
  {
    if rows == [] then []
    else
      var prefix := Assemble(rows[..|rows| - 1]);
      match MessageOf(rows[|rows| - 1])
      case Some(m) => prefix + [m]
      case None => prefix
  }

  /** A row as the closure leaves it in the buffer: its content always taken, its author's
      name taken only when the message was built. */
  function Visited(row: Row): Row
  {
    row.(content := "", authorName := if Survives(row) then "" else row.authorName)
  }

  /** The `iter_mut().filter_map(..).collect()` walk over the fetched rows, in place. */
  method AssembleRows(rows: array<Row>) returns (messages: seq<Message>)
    modifies rows
    ensures messages == Assemble(old(rows[..]))
    ensures forall i :: 0 <= i < rows.Length ==> rows[i].content == ""
    ensures forall i :: 0 <= i < rows.Length ==>
      rows[i].authorName == if Survives(old(rows[i])) then "" else old(rows[i]).authorName
    ensures forall i :: 0 <= i < rows.Length ==>
      rows[i] == old(rows[i]).(content := rows[i].content, authorName := rows[i].authorName)
  {
    ghost var s := rows[..];
    messages := [];
    for i := 0 to rows.Length
      invariant messages == Assemble(s[..i])
      invariant forall j :: 0 <= j < i ==> rows[j] == Visited(s[j])
      invariant forall j :: i <= j < rows.Length ==> rows[j] == s[j]
    {
      AssembleStep(s, i);
      var x := rows[i];
      var content := x.content;
      rows[i] := x.(content := "");

      var authorId := Narrow(x.authorId);
      if authorId.None? {
        continue;
      }
      var id := Narrow(x.id);
      if id.None? {
        continue;
      }
      var channelId := Narrow(x.channelId);
      if channelId.None? {
        continue;
      }

      var name := rows[i].authorName;
      rows[i] := rows[i].(authorName := "");
      var author := User(authorId.value, name, None, None, FromBitsTruncate(x.authorFlags), x.authorDiscriminator);
      var message := Message(id.value, content, channelId.value, authorId.value, Some(author), x.editedAt, [], None);
      assert MessageOf(x) == Some(message);
      messages := messages + [message];
    }
    assert s[..rows.Length] == s;
  }

  /** One more row extends the output by that row's message, if it has one. */
  lemma AssembleStep(s: seq<Row>, i: nat)
    requires i < |s|
    ensures Assemble(s[..i + 1]) == Assemble(s[..i]) + (if Survives(s[i]) then [MessageOf(s[i]).value] else [])
  {
    assert s[..i + 1][..i] == s[..i];
  }

  /** The output keeps every row that narrows and only those, in the order of the rows:
      `idx` lists the source row of each message. */
  lemma {:induction false} AssembleSubsequence(rows: seq<Row>) returns (idx: seq<nat>)
    ensures |idx| == |Assemble(rows)|
    ensures forall k :: 0 <= k < |idx| ==> idx[k] < |rows| && MessageOf(rows[idx[k]]) == Some(Assemble(rows)[k])
    ensures forall k, l :: 0 <= k < l < |idx| ==> idx[k] < idx[l]
    ensures forall i :: 0 <= i < |rows| && Survives(rows[i]) ==> i in idx
  {
    if rows == [] {
      idx := [];
    } else {
      var n := |rows| - 1;
      var prefix := rows[..n];
      var prev := AssembleSubsequence(prefix);
      assert forall i :: 0 <= i < n ==> prefix[i] == rows[i];
      AssembleStep(rows, n);
      assert rows[..n + 1] == rows;
      if Survives(rows[n]) {
        idx := prev + [n];
        assert Assemble(rows) == Assemble(prefix) + [MessageOf(rows[n]).value];
        assert forall k :: 0 <= k < |prev| ==> idx[k] == prev[k] && Assemble(rows)[k] == Assemble(prefix)[k];
      } else {
        idx := prev;
        assert Assemble(rows) == Assemble(prefix);
      }
    }
  }

  /** No row is lost without cause: the output is as long as the input exactly when every row narrows. */
  lemma {:induction false} AssembleKeepsAll(rows: seq<Row>)
    ensures |Assemble(rows)| == |rows| <==> forall i :: 0 <= i < |rows| ==> Survives(rows[i])
  {
    if rows != [] {
      var n := |rows| - 1;
      var prefix := rows[..n];
      AssembleKeepsAll(prefix);
      assert forall i :: 0 <= i < n ==> prefix[i] == rows[i];
    }
  }

  /** Assembly works row by row: it distributes over concatenation. */
  lemma {:induction false} AssembleAppend(a: seq<Row>, b: seq<Row>)
    ensures Assemble(a + b) == Assemble(a) + Assemble(b)
  {
    if b == [] {
      assert a + b == a;
    } else {
      var n := |b| - 1;
      assert (a + b)[..|a + b| - 1] == a + b[..n];
      assert (a + b)[|a + b| - 1] == b[n];
      AssembleAppend(a, b[..n]);
    }
  }

  /** A row whose identifiers do not narrow is dropped alone: the rows around it come through as if it were not there. */
  lemma DroppedRowIsolated(before: seq<Row>, bad: Row, after: seq<Row>)
    requires !Survives(bad)
    ensures Assemble(before + [bad] + after) == Assemble(before) + Assemble(after)
  {
    AssembleAppend(before + [bad], after);
    AssembleAppend(before, [bad]);
    assert [bad][..0] == [];
  }

  /** The rows are in the plan's order of message id, compared as decimals. */
  ghost predicate OrderedBy(rows: seq<Row>, order: Order)
  {
    forall i, j :: 0 <= i < j < |rows| ==>
      if order == Ascending then DecimalLe(rows[i].id, rows[j].id) else DecimalLe(rows[j].id, rows[i].id)
  }

  ghost predicate MessagesOrdered(ms: seq<Message>, order: Order)
  {
    forall k, l :: 0 <= k < l < |ms| ==>
      if order == Ascending then ms[k].id <= ms[l].id else ms[k].id >= ms[l].id
  }

  /** Assembly performs no re-sorting: rows in id order give messages in id order. */
  lemma AssemblePreservesOrder(rows: seq<Row>, order: Order)
    requires OrderedBy(rows, order)
    ensures MessagesOrdered(Assemble(rows), order)
  {
    var ms := Assemble(rows);
    var idx := AssembleSubsequence(rows);
    forall k, l | 0 <= k < l < |ms|
      ensures if order == Ascending then ms[k].id <= ms[l].id else ms[k].id >= ms[l].id
    {
      var i, j := idx[k], idx[l];
      assert ms[k].id == WithScaleZero(rows[i].id);
      assert ms[l].id == WithScaleZero(rows[j].id);
      if order == Ascending {
        WithScaleZeroMono(rows[i].id, rows[j].id);
      } else {
        WithScaleZeroMono(rows[j].id, rows[i].id);
      }
    }
  }

  // ---------------------------------------------------------------------------------------
  // The store and the handler

  datatype StoreReply = Fetched(rows: seq<Row>) | Failed(error: string)

  /** The connection pool and the store behind it: `answer` is the store's reply to a plan,
      `issued` the plans sent so far. */
  class Database {
    const answer: QueryPlan -> StoreReply
    var issued: seq<QueryPlan>

    constructor (answer: QueryPlan -> StoreReply)
      ensures this.answer == answer && issued == []
    {
      this.answer := answer;
      issued := [];
    }

    /** `sqlx::query!(Sql(plan.order), plan.channelId, plan.limit, plan.offset).fetch_all(db)`. */
    method FetchAll(plan: QueryPlan) returns (reply: StoreReply)
      modifies this`issued
      ensures issued == old(issued) + [plan]
      ensures reply == answer(plan)
    {
      issued := issued + [plan];
      reply := answer(plan);
    }
  }

  /** The response to a request when the store replies with `answer`. */
  function HistoryResponse(channelId: U128, params: GetMessageHistoryParams, answer: QueryPlan -> StoreReply): (r: Response)
    ensures r.BadRequest? <==> params.limit == None || params.limit.value < 0
    ensures r.BadRequest? ==> r.error == BadRequestJson(LIMIT_REASON, None)
    ensures r.InternalServerError? ==> exists e :: answer(Plan(channelId, params).plan) == Failed(e) && r.reason == DB_ERROR_PREFIX + e
    ensures r.Ok? ==> answer(Plan(channelId, params).plan).Fetched?
    ensures r.Ok? ==> |r.body.messages| <= |answer(Plan(channelId, params).plan).rows|
  {
    match Plan(channelId, params)
    case Rejected(error) => BadRequest(error)
    case Query(plan) =>
      match answer(plan)
      case Failed(e) => InternalServerError(DB_ERROR_PREFIX + e)
      case Fetched(rows) => Ok(MessageHistory(Assemble(rows)))
  }

  /** `get_message_history` once the channel id has been read from the path. */
  method GetMessageHistory(db: Database, channelId: U128, params: GetMessageHistoryParams) returns (resp: Response)
    modifies db`issued
    ensures resp == HistoryResponse(channelId, params, db.answer)
    ensures resp.BadRequest? ==> db.issued == old(db.issued)
    ensures !resp.BadRequest? ==> db.issued == old(db.issued) + [Plan(channelId, params).plan]
  {
    var outcome := PlanQuery(channelId, params);
    match outcome
    case Rejected(error) =>
      resp := BadRequest(error);
    case Query(plan) =>
      var reply := db.FetchAll(plan);
      match reply
      case Failed(e) =>
        resp := InternalServerError(DB_ERROR_PREFIX + e);
      case Fetched(rows) =>
        var buffer := new Row[|rows|](i requires 0 <= i < |rows| => rows[i]);
        assert buffer[..] == rows;
        var messages := AssembleRows(buffer);
        resp := Ok(MessageHistory(messages));
  }

  /** What the store is taken to do with a plan (not verified here): reply with rows in the
      plan's id order and, when the plan has a limit, no more rows than it. */
  ghost predicate HonoursPlans(answer: QueryPlan -> StoreReply)
  {
    forall plan :: answer(plan).Fetched? ==>
      OrderedBy(answer(plan).rows, plan.order) &&
      (plan.limit.Some? ==> |answer(plan).rows| <= plan.limit.value)
  }

  /** With such a store, a successful history is in id order (oldest first only when
      `oldest_first=true`) and no longer than the requested limit. */
  lemma HistoryOrderedAndBounded(channelId: U128, params: GetMessageHistoryParams, answer: QueryPlan -> StoreReply)
    requires HonoursPlans(answer)
    ensures var r := HistoryResponse(channelId, params, answer);
      r.Ok? ==>
        MessagesOrdered(r.body.messages, if params.oldestFirst == Some(true) then Ascending else Descending) &&
        (params.limit.value < I64_MAX ==> |r.body.messages| <= params.limit.value)
  {
    var r := HistoryResponse(channelId, params, answer);
    if r.Ok? {
      var plan := Plan(channelId, params).plan;
      AssemblePreservesOrder(answer(plan).rows, plan.order);
    }
  }
}
