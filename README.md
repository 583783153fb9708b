# FerrisChat message history and node-id guard, in Dafny

This project models two pieces of the FerrisChat chat server.

**Message history** (`GET /api/v0/channels/{channel_id}/messages`, module `MessageHistory`).
The handler works in three stages:

- It checks and clamps the optional `limit` and `offset` query parameters, using Rust's
  ordering on `Option`, and picks the sort direction from `oldest_first`.
- It sends one query, `... ORDER BY id ASC|DESC LIMIT $2 OFFSET $3`.
- It walks the returned rows in place. It takes each row's content (and, for kept rows, the
  author's name) out of the buffer. It narrows the three decimal identifiers to `u128` and
  drops a row when any of them does not fit. It builds a `Message` with an embedded author
  `User` for every row it keeps.

**Node-id guard** (`get_node_id!`, module `NodeIdGuard`). The macro reads the process-wide
write-once cell `NODE_ID`. It either yields the held id or makes the enclosing handler
return HTTP 500 with a fixed body.

Supporting modules:

- `RustCore`: `Option` with Rust's derived ordering (`None` is below every `Some`), and the
  `i64` and `u128` integer types.
- `Decimal`: `BigDecimal`, truncation toward zero by `with_scale(0)`, and `to_u128`.

How the model is built:

- Parameter normalisation is a method, `PlanQuery`. It reassigns its `limit` and `offset`
  locals the way the handler does and is proved equal to a plain-integer specification,
  `Plan`.
- Row assembly is a method over an `array<Row>`, `AssembleRows`. A `Vec` stores its rows
  inline, so the array holds row values. The method is proved against the function
  `Assemble`, and the order, completeness and isolation lemmas are proved about `Assemble`.
- The store is a `Database` object. Its reply to each query plan is a fixed function, and
  it records every plan it is sent. That record shows that a refused request sends no query.

Where the code and the design description of this service disagree, the model follows the code:

- **Absent limit.** A request with no `limit` is refused with 400 `"limit must be > 0"`.
  The check `limit < Some(0)` is also true for `None`. The design describes only a present,
  negative limit as refused. `AbsentLimitRejected` and `PlanQuery` state the code's behaviour.
- **`limit = 0`.** It is accepted, although the refusal message says `> 0`.
- **The largest limit.** `limit` and `offset` are `i64`, so `>= 9223372036854775807` holds
  only for that one value. Only that value means "no limit" (or becomes offset 0).
- **The two 500 bodies.** The history handler's 500 body sets only `reason`. The macro's
  body sets `reason`, `is_bug: true` and `link`. The two modules use separate response types.
- **The node-id failure.** It is reported as HTTP 500 with `is_bug: true`, not as a
  distinct "service unavailable" status.

## Model

| member | source | states |
|---|---|---|
| `RustCore.LtSome` | ferrischat_webserver/src/messages/message_history.rs:26-39 | Comparing with `Some(k)` in Rust's `Option` order: an absent value is below it, and a present one compares by value; `>=` is the negation. |
| `Decimal.TruncDiv` | ferrischat_webserver/src/messages/message_history.rs:58-62 | `BigInt` division yields the integer part of the quotient, rounded toward zero, for either sign of the dividend. |
| `Decimal.TruncatesToUnique` | ferrischat_webserver/src/messages/message_history.rs:58-62 | That description of the integer part pins down a single integer, so it can serve as the definition of truncating division. |
| `Decimal.WithScaleZero` | ferrischat_webserver/src/messages/message_history.rs:58-62 | `with_scale(0)` with a positive scale gives the integer part toward zero. With a zero or negative scale it gives the exact value `unscaled * 10^-scale`. |
| `Decimal.NarrowScaled` | ferrischat_webserver/src/messages/message_history.rs:58-63 | Round trip: a `u128` stored as a decimal with any non-negative scale narrows back to itself. |
| `Decimal.NarrowEncode` | ferrischat_webserver/src/messages/message_history.rs:58-63 | Round trip: a `u128` stored as a scale-0 decimal narrows back to `Some` of itself. |
| `Decimal.NarrowEdgeCases` | ferrischat_webserver/src/messages/message_history.rs:58-63 | `-0.5` narrows to `0` because truncation goes toward zero. `-1.0` and `2^128` are refused. `2^128 - 0.1` narrows to `2^128 - 1`. |
| `Decimal.WithScaleZeroMono` | ferrischat_webserver/src/messages/message_history.rs:58-62 | Numerically ordered decimals, whatever their scales, have ordered integer parts. |
| `Decimal.NarrowMono` | ferrischat_webserver/src/messages/message_history.rs:58-63 | Two decimals that both narrow keep their numeric order as `u128`s. |
| `MessageHistory.QueriesDifferOnlyInDirection` | ferrischat_webserver/src/messages/message_history.rs:42-101 | The ascending and descending query texts share everything before and after the direction keyword; only `ASC` versus `DESC` differs. |
| `MessageHistory.Plan` | ferrischat_webserver/src/messages/message_history.rs:26-48 | Every accepted plan has an offset in `0 .. i64::MAX - 1`, and either no limit or a limit in `0 .. i64::MAX - 1`. |
| `MessageHistory.PlanQuery` | ferrischat_webserver/src/messages/message_history.rs:20-48 | The handler's checks, written with Rust's `Option` order, match the plain rules. An absent or negative limit gives 400 with reason `"limit must be > 0"` and no location. A limit of `i64::MAX` becomes no limit; any other limit is passed unchanged. An absent, negative or `i64::MAX` offset becomes `Some(0)`; any other offset is passed unchanged. The order is ascending exactly when `oldest_first == Some(true)`. |
| `MessageHistory.AbsentLimitRejected` | ferrischat_webserver/src/messages/message_history.rs:26-31 | A request without `limit` is refused with the 400 body, whatever its other parameters. |
| `MessageHistory.MessageOf` | ferrischat_webserver/src/messages/message_history.rs:55-87 | A row yields a message exactly when its three identifiers narrow to `u128`. The message's ids are the integer parts of the stored decimals, and its content and `edited_at` are the row's. It has no embeds and no nonce. Its author is `Some(User)` with the author id, the row's name, discriminator and `from_bits_truncate(author_flags)`, and with avatar and guilds absent. The descending branch's closure (lines 108-139) behaves the same way. |
| `MessageHistory.Assemble` | ferrischat_webserver/src/messages/message_history.rs:53-88 | The collected output is never longer than the rows returned. |
| `MessageHistory.AssembleRows` | ferrischat_webserver/src/messages/message_history.rs:53-88 | The in-place walk returns exactly `Assemble` of the original rows. Afterwards every row's content is empty, including dropped rows. A kept row has its author name emptied; a dropped row keeps its author name unchanged. No other field changes. |
| `MessageHistory.AssembleSubsequence` | ferrischat_webserver/src/messages/message_history.rs:53-88 | The output is an order-preserving subsequence of the rows. Each message comes from a distinct row, at increasing positions, and every row whose ids narrow is represented. |
| `MessageHistory.AssembleKeepsAll` | ferrischat_webserver/src/messages/message_history.rs:55-73 | The output is as long as the input exactly when every row's three ids narrow. |
| `MessageHistory.AssembleAppend` | ferrischat_webserver/src/messages/message_history.rs:53-88 | Assembly handles each row independently: it distributes over concatenation of row sequences. |
| `MessageHistory.DroppedRowIsolated` | ferrischat_webserver/src/messages/message_history.rs:58-73 | A row with an id that does not narrow is dropped without affecting the request. The rows before and after it produce the same messages as if it were absent. |
| `MessageHistory.AssemblePreservesOrder` | ferrischat_webserver/src/messages/message_history.rs:53-88 | Assembly does no re-sorting. Rows in ascending (or descending) decimal id order give messages in ascending (or descending) `u128` id order. |
| `MessageHistory.Database.FetchAll` | ferrischat_webserver/src/messages/message_history.rs:43-50 | Sending a plan records it as issued and returns the store's reply to that plan. |
| `MessageHistory.HistoryResponse` | ferrischat_webserver/src/messages/message_history.rs:26-150 | The response is 400 exactly when the limit is absent or negative, with the fixed body. A 500 carries `"database returned a error: "` followed by the store's error text. A 200 comes from a fetched reply and has no more messages than the reply has rows. |
| `MessageHistory.GetMessageHistory` | ferrischat_webserver/src/messages/message_history.rs:11-151 | The handler returns `HistoryResponse`. A refused request sends no query. Any other request sends exactly one query, with the normalised plan. |
| `MessageHistory.HistoryOrderedAndBounded` | ferrischat_webserver/src/messages/message_history.rs:42-48 | Suppose the store returns rows in the plan's id order and within its limit. Then a 200 history is in ascending id order when `oldest_first=true` and in descending order otherwise, and it is no longer than any limit below `i64::MAX`. |
| `NodeIdGuard.SkipLeadingWhitespace` | ferrischat_macros/src/get_node_id.rs:15-16 | A `\` line continuation in a Rust string drops the leading whitespace and nothing else: the removed prefix is all whitespace, and what remains is a suffix of the text that is empty or starts with a non-whitespace character. |
| `NodeIdGuard.SkipWhitespaceRun` | ferrischat_macros/src/get_node_id.rs:15-16 | Skipping whitespace before non-whitespace text leaves exactly that text. |
| `NodeIdGuard.IssueLinkText` | ferrischat_macros/src/get_node_id.rs:14-17 | The link is the first line's text followed directly by the second line's text. It contains no whitespace. |
| `NodeIdGuard.GetNodeId` | ferrischat_macros/src/get_node_id.rs:8-18 | With the cell set, the macro yields exactly the held id. With the cell unset, it returns HTTP 500 with reason `"Redis has not been set up yet"`, `is_bug: true` and the fixed issue link. |
| `NodeIdGuard.ProceedsWithHeldId` | ferrischat_macros/src/get_node_id.rs:8-9 | A handler that starts with the guard continues with the held id when the cell is set. |
| `NodeIdGuard.UnsetCellStopsHandler` | ferrischat_macros/src/get_node_id.rs:10-18 | When the cell is unset, the handler returns early, and its result does not depend on anything after the guard. |
| `NodeIdGuard.ExpandGetNodeId` | ferrischat_macros/src/get_node_id.rs:8 | Running the guard against the cell gives `GetNodeId` of its contents and leaves the cell unchanged. |

## Left out

- Lines 16-18 use `get_item_id!`, `u128_to_bigdecimal!` and `get_db_or_fail!`, which are not
  part of this model. The channel id is a parameter. The 500 answers these macros can produce
  themselves are not modelled.
- The authorization extractor and actix-web request extraction are left out. Query-string
  parsing, JSON serialisation, async execution and the connection pool are left out too.
- SQL execution is not modelled: the store's reply to a plan is an input function. Its
  ordering, `LIMIT` and `OFFSET`, and the `CROSS JOIN LATERAL` join are not verified. Ordering
  and the limit enter only as the stated assumption `HonoursPlans`. `OFFSET` is not modelled
  beyond being passed on.
- The sqlx error's `Display` text is a string input.
- `UserFlags` and its bit definitions are not part of this model. `from_bits_truncate` is kept
  as an uninterpreted record of its argument.
- `edited_at`'s timestamp type, `Guild` and `Embed` are placeholders. The handler only copies
  `edited_at` and never fills guilds or embeds.
- `author_flags` and `author_discriminator` are unbounded integers because they are only copied.
- `GetMessageHistoryParams` is not part of this model. `limit` and `offset` are taken to be
  `i64`, which the literal `9223372036854775807` and the `bigint` query parameters require.
- The initialisation of `NODE_ID`, which sets it once in the Redis setup code, is not part of
  this model. Neither is any concurrent access to it. Only the read done by the guard is modelled.
- `ferrischat_webserver/src/users/delete_user.rs` is an ownership check followed by one
  `DELETE` whose outcome the database decides, so it is not modelled.
