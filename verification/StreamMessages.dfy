/** What travels through the response channel of a stream, and what each message writes. */
module StreamMessages {
  import opened Text
  import opened Grouping

  /** `Ready` is a whole answer; `Raw` is a chunk of a backend's own event stream, together with the
      status read when it was forwarded. `group` is the index of the group it comes from. */
  datatype Msg =
    | Ready(group: nat, id: ReqIdent, data: string)
    | Raw(group: nat, id: ReqIdent, data: string, status: int)
    | Ping(ts: int)

  predicate IsSuccess(status: int) {
    200 <= status < 300
  }

  /** An event with a type and one line of data. */
  function EventText(kind: string, data: string): string {
    "event: " + kind + "\n" + ("data: " + data + "\n" + "\n")
  }

  /** Written once the channel is closed and drained: `event: close` with empty data. */
  const CLOSE_EVENT: string := EventText("close", "")

  const ERROR_START: string := "{\"error\":\"" + "received error response" + " from backend "

  function ErrorJson(status: int): string {
    ERROR_START + "(status: " + Itoa(status) + ")\"}"
  }

  /** The bytes the reader loop writes for a message. */
  function Render(m: Msg): string {
    match m
    case Ready(_, id, data) => EventText(EventLabel(id), data)
    case Raw(_, id, data, status) =>
      if IsSuccess(status) then data else EventText(EventLabel(id), ErrorJson(status))
    case Ping(ts) => "data: " + Itoa(ts) + "\n" + "\n"
  }

  function RenderAll(log: seq<Msg>): string {
    if log == [] then "" else RenderAll(log[..|log| - 1]) + Render(log[|log| - 1])
  }

  /** The statuses of success are those of three digits that begin with 2. */
  lemma SuccessIff(status: int)
    ensures IsSuccess(status) <==> status / 100 == 2
  {}

  /** How a page finds out from an error event's data which status was received. */
  function ParseError(json: string): Option<int> {
    var i, j := IndexOf(json, '('), IndexOf(json, ')');
    if !HasPrefix(json, "{\"error\":\"") || i + 9 > j || j == |json| || json[j..] != ")\"}"
       || json[i..i + 9] != "(status: "
    then None
    else Some(ParseInt(json[i + 9..j]))
  }

  lemma ErrorRoundTrip(status: int)
    ensures ParseError(ErrorJson(status)) == Some(status)
  {
    ParseIntRoundTrip(status);
    ErrorParts(Itoa(status));
  }

  lemma NoBrackets()
    ensures '(' !in ERROR_START && ')' !in ERROR_START && HasPrefix(ERROR_START, "{\"error\":\"")
  {}

  lemma ErrorParts(n: string)
    requires '(' !in n && ')' !in n
    ensures ParseError(ERROR_START + "(status: " + n + ")\"}") == Some(ParseInt(n))
  {
    NoBrackets();
    var json := ERROR_START + "(status: " + n + ")\"}";
    var rest := "(status: " + n + ")\"}";
    assert json == ERROR_START + rest;
    IndexOfNone(ERROR_START, rest, '(');
    var upTo := ERROR_START + "(status: " + n;
    assert json == upTo + ")\"}";
    IndexOfNone(upTo, ")\"}", ')');
    var i, j := |ERROR_START|, |upTo|;
    assert json[i..i + 9] == "(status: " && json[i + 9..j] == n && json[j..] == ")\"}";
  }

  predicate From(m: Msg, g: nat) {
    !m.Ping? && m.group == g
  }

  /** The messages of one group, in order. */
  function OfGroup(log: seq<Msg>, g: nat): seq<Msg> {
    if log == [] then []
    else
      var rest, m := OfGroup(log[..|log| - 1], g), log[|log| - 1];
      if From(m, g) then rest + [m] else rest
  }

  /** The payloads a group has put into the log, in order. */
  function Seen(log: seq<Msg>, g: nat): seq<string> {
    if log == [] then []
    else
      var rest, m := Seen(log[..|log| - 1], g), log[|log| - 1];
      if From(m, g) then rest + [m.data] else rest
  }

  lemma SeenStep(log: seq<Msg>, m: Msg, g: nat)
    ensures Seen(log + [m], g) == if From(m, g) then Seen(log, g) + [m.data] else Seen(log, g)
    ensures OfGroup(log + [m], g) == if From(m, g) then OfGroup(log, g) + [m] else OfGroup(log, g)
  {
    assert (log + [m])[..|log|] == log;
  }

  lemma RenderStep(log: seq<Msg>, m: Msg)
    ensures RenderAll(log + [m]) == RenderAll(log) + Render(m)
  {
    assert (log + [m])[..|log|] == log;
  }
}
