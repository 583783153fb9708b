/** The `get_node_id!` guard: read the process-wide node id, or make the enclosing
    handler answer HTTP 500 because the coordination store is not set up yet. */
module NodeIdGuard {
  import opened RustCore

  /** The body of an HTTP 500 response. */
  datatype InternalServerErrorJson = InternalServerErrorJson(reason: string, isBug: bool, link: Option<string>)

  /** A response the guard makes the enclosing handler return. */
  datatype ErrorResponse = ErrorResponse(status: nat, body: InternalServerErrorJson)

  /** What the macro's block does: evaluate to the id, or `return` from the enclosing handler. */
  datatype Flow<T> = Proceed(id: T) | ReturnEarly(response: ErrorResponse)

  /** The outcome of a handler that starts with `get_node_id!()`. */
  datatype HandlerResult<R> = Completed(value: R) | Returned(response: ErrorResponse)

  predicate IsRustWhitespace(c: char)
  {
    c == ' ' || c == '\t' || c == '\n' || c == '\r'
  }

  /** What a `\` at the end of a line inside a Rust string literal does to the text after
      it: the line break and the next line's leading whitespace disappear. */
  function SkipLeadingWhitespace(s: string): (r: string)
    ensures |r| <= |s| && r == s[|s| - |r|..]
    ensures r == [] || !IsRustWhitespace(r[0])
    ensures forall i :: 0 <= i < |s| - |r| ==> IsRustWhitespace(s[i])
  {
    if s != [] && IsRustWhitespace(s[0]) then
      var t := s[1..];
      var r := SkipLeadingWhitespace(t);
      assert forall i :: 1 <= i < |s| - |r| ==> s[i] == t[i - 1];
      r
    else s
  }

  /** The link literal spans two source lines joined by a `\` continuation. The text of each
      line is written here in short pieces, which the verifier can index into. */
  const LINK_LINE1: string := "https://github.com/FerrisChat/Server" + "/issues/new?assignees=tazz4843" + "&labels=bug&"
  const LINK_LINE2_TEXT: string := "template=api_bug_report.yml" + "&title=%5B500%5D%3A+redis+not+set+up"
  const LINK_INDENT: string := "                    "
  /** Everything after the `\`: the line break, the indentation, then the text of the second line. */
  const LINK_LINE2: string := "\n" + LINK_INDENT + LINK_LINE2_TEXT

  /** The issue-tracker link carried by the 500 body. */
  const ISSUE_LINK: string := LINK_LINE1 + SkipLeadingWhitespace(LINK_LINE2)

  const NOT_SET_UP_REASON: string := "Redis has not been set up yet"

  predicate NoWhitespace(s: string)
  {
    forall i :: 0 <= i < |s| ==> !IsRustWhitespace(s[i])
  }

  /** Skipping a run of whitespace that is followed by a non-whitespace character leaves exactly the rest. */
  lemma {:induction false} SkipWhitespaceRun(ws: string, rest: string)
    requires forall i :: 0 <= i < |ws| ==> IsRustWhitespace(ws[i])
    requires rest != [] && !IsRustWhitespace(rest[0])
    ensures SkipLeadingWhitespace(ws + rest) == rest
  {
    if ws != [] {
      assert (ws + rest)[1..] == ws[1..] + rest;
      SkipWhitespaceRun(ws[1..], rest);
    } else {
      assert ws + rest == rest;
    }
  }

  lemma NoWhitespaceConcat(a: string, b: string)
    requires NoWhitespace(a) && NoWhitespace(b)
    ensures NoWhitespace(a + b)
  {
    assert forall i :: 0 <= i < |a + b| ==> (a + b)[i] == if i < |a| then a[i] else b[i - |a|];
  }

  /** The link is the first line's text followed directly by the second line's text: one URL
      with no whitespace in it. */
  lemma IssueLinkText()
    ensures ISSUE_LINK == LINK_LINE1 + LINK_LINE2_TEXT
    ensures NoWhitespace(ISSUE_LINK)
  {
    var ws := "\n" + LINK_INDENT;
    assert LINK_LINE2 == ws + LINK_LINE2_TEXT;
    assert LINK_LINE2_TEXT[0] == 't';
    SkipWhitespaceRun(ws, LINK_LINE2_TEXT);
    var a, b, c := "https://github.com/FerrisChat/Server", "/issues/new?assignees=tazz4843", "&labels=bug&";
    var d, e := "template=api_bug_report.yml", "&title=%5B500%5D%3A+redis+not+set+up";
    assert NoWhitespace(a) && NoWhitespace(b) && NoWhitespace(c) && NoWhitespace(d) && NoWhitespace(e);
    NoWhitespaceConcat(a, b);
    NoWhitespaceConcat(a + b, c);
    NoWhitespaceConcat(d, e);
    NoWhitespaceConcat(LINK_LINE1, LINK_LINE2_TEXT);
  }

  /** The expansion of `get_node_id!()` applied to the current contents of `NODE_ID`. */
  function GetNodeId<T>(cell: Option<T>): (r: Flow<T>)
    ensures r.Proceed? <==> cell.Some?
    ensures cell.Some? ==> r.id == cell.value
    ensures cell.None? ==> r.response.status == 500
    ensures cell.None? ==> r.response.body.reason == NOT_SET_UP_REASON && r.response.body.isBug
    ensures cell.None? ==> r.response.body.link == Some(ISSUE_LINK)
  {
    match cell
    case Some(id) => Proceed(id)
    case None =>
      ReturnEarly(ErrorResponse(500, InternalServerErrorJson(NOT_SET_UP_REASON, true, Some(ISSUE_LINK))))
  }

  /** A handler whose body is `let id = get_node_id!(); rest(id)`. */
  function RunHandler<T, R>(cell: Option<T>, rest: T -> R): HandlerResult<R>
  {
    match GetNodeId(cell)
    case Proceed(id) => Completed(rest(id))
    case ReturnEarly(response) => Returned(response)
  }

  /** With the cell set, the handler goes on with exactly the held id. */
  lemma ProceedsWithHeldId<T, R>(id: T, rest: T -> R)
    ensures RunHandler(Some(id), rest) == Completed(rest(id))
  {
  }

  /** With the cell unset, nothing after the guard runs: the outcome does not depend on the rest of the handler. */
  lemma UnsetCellStopsHandler<T, R>(rest1: T -> R, rest2: T -> R)
    ensures RunHandler(None, rest1) == RunHandler(None, rest2)
    ensures RunHandler(None, rest1).Returned?
  {
  }

  /** The process-wide write-once cell `NODE_ID`; only its read side belongs to this model. */
  class NodeIdCell<T> {
    var slot: Option<T>

    constructor (initial: Option<T>)
      ensures slot == initial
    {
      slot := initial;
    }

    /** `NODE_ID.get()`. */
    function Get(): (r: Option<T>)
      reads this
      ensures r == slot
    {
      slot
    }
  }

  /** `get_node_id!()` evaluated against the cell: it only reads it and leaves it as it was. */
  method ExpandGetNodeId<T>(cell: NodeIdCell<T>) returns (r: Flow<T>)
    ensures r == GetNodeId(cell.slot)
    ensures unchanged(cell)
  {
    r := GetNodeId(cell.Get());
  }
}
