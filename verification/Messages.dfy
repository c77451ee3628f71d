/** DAP messages as the multiplexer sees them: JSON objects of which it reads only a few fields
    (src/dap_mux/protocol.py), and the decisions it takes on them (src/dap_mux/compat.py). */
module Messages {

  datatype Option<+T> = None | Some(value: T)

  /** 0 for "client-1", 1 for "client-2", and so on. */
  type ClientId = nat

  datatype Json =
    | Null
    | Bool(b: bool)
    | Number(n: int)
    | String(s: string)
    | Array(items: seq<Json>)
    | Object(fields: map<string, Json>)

  /** The keys of a message. The named ones are those the multiplexer inspects or writes. */
  datatype Field =
    | Seq | Type | Command | Arguments
    | RequestSeq | Success | ErrorText | Body | EventName
    | Extra(name: string)

  type Message = map<Field, Json>

  /** Python's `msg.get(field)`: an absent field and an explicit null look alike. */
  function Get(m: Message, f: Field): Json {
    if f in m then m[f] else Null
  }

  function GetOr(m: Message, f: Field, default: Json): Json {
    if f in m then m[f] else default
  }

  /** The text of a field; anything but a string compares equal to none of the names tested for. */
  function Text(m: Message, f: Field): string {
    match Get(m, f)
    case String(s) => s
    case _ => ""
  }

  /** Python truth of a JSON value. */
  predicate Truthy(j: Json) {
    match j
    case Null => false
    case Bool(b) => b
    case Number(n) => n != 0
    case String(s) => s != ""
    case Array(items) => items != []
    case Object(fields) => fields != map[]
  }

  /** Values usable as keys of a Python dict or frozenset. */
  predicate Hashable(j: Json) {
    !j.Array? && !j.Object?
  }

  /** The integer key a value equals in a Python dict: True is 1 and False is 0. */
  function KeyOf(j: Json): Option<int> {
    match j
    case Number(n) => Some(n)
    case Bool(b) => Some(if b then 1 else 0)
    case _ => None
  }

  // ---------------------------------------------------------------- classification

  predicate IsRequest(m: Message) { Text(m, Type) == "request" }
  predicate IsResponse(m: Message) { Text(m, Type) == "response" }
  predicate IsEvent(m: Message) { Text(m, Type) == "event" }

  /** The commands of client requests that the multiplexer treats specially. */
  datatype Kind = Initialize | Start | ConfigurationDone | Ending | Ordinary

  function KindOf(m: Message): Kind {
    var command := Text(m, Command);
    if command == "initialize" then Initialize
    else if command == "attach" || command == "launch" then Start
    else if command == "configurationDone" then ConfigurationDone
    else if command == "disconnect" || command == "terminate" || command == "restart" then Ending
    else Ordinary
  }

  // ---------------------------------------------------------------- compatibility decisions

  predicate ShouldFilterEvent(m: Message) {
    Text(m, EventName) == "debugpySockets" || Text(m, EventName) == "debugpyAttach"
    || Text(m, EventName) == "startDebugging"
  }

  /** An adapter message that is sent to every client. */
  predicate IsBroadcast(m: Message) {
    IsEvent(m) && !ShouldFilterEvent(m)
  }

  predicate IsKnownReverseRequest(m: Message) {
    IsRequest(m) && (IsRunInTerminal(m) || Text(m, Command) == "startDebugging")
  }

  predicate IsRunInTerminal(m: Message) {
    Text(m, Command) == "runInTerminal"
  }

  /** Whether the arguments of an initialize opt in to running commands in a terminal. */
  predicate OptsIn(arguments: Json) {
    arguments.Object? && "supportsRunInTerminalRequest" in arguments.fields
    && Truthy(arguments.fields["supportsRunInTerminalRequest"])
  }

  predicate OptedIn<C(==)>(arguments: map<C, Json>, c: C) {
    c in arguments && OptsIn(arguments[c])
  }

  /** The position at or after `from` of the first client that opted in, or |order|. */
  function FirstOptedIn<C(==)>(order: seq<C>, arguments: map<C, Json>, from: nat): (i: nat)
    requires from <= |order|
    ensures from <= i <= |order|
    ensures forall j :: from <= j < i ==> !OptedIn(arguments, order[j])
    ensures i < |order| ==> OptedIn(arguments, order[i])
    decreases |order| - from
  {
    if from == |order| || OptedIn(arguments, order[from]) then from
    else FirstOptedIn(order, arguments, from + 1)
  }

  /** `pick_reverse_request_target`: the dict of initialize arguments in insertion order. */
  function PickReverseRequestTarget<C(==)>(order: seq<C>, arguments: map<C, Json>, m: Message): Option<C> {
    var preferred := if IsRunInTerminal(m) then FirstOptedIn(order, arguments, 0) else |order|;
    if preferred < |order| then Some(order[preferred])
    else if order != [] then Some(order[0])
    else None
  }

  /** The search for a client that opted in meets no arguments that are not an object. */
  predicate TargetSearchFinishes<C(==)>(order: seq<C>, arguments: map<C, Json>, m: Message) {
    IsKnownReverseRequest(m) && IsRunInTerminal(m) ==>
      forall i :: 0 <= i < FirstOptedIn(order, arguments, 0) && order[i] in arguments ==> arguments[order[i]].Object?
  }

  // ---------------------------------------------------------------- stale variable errors

  function Lower(s: string): string {
    seq(|s|, i requires 0 <= i < |s| => if 'A' <= s[i] <= 'Z' then s[i] + ('a' - 'A') else s[i])
  }

  predicate Contains(s: string, word: string) {
    |word| <= |s| && (word <= s || Contains(s[1..], word))
  }

  const STALE_HINT := " (variable references are invalidated when execution resumes)"

  /** A failed request for variables. */
  predicate IsVariableFailure(m: Message) {
    IsResponse(m) && !Truthy(Get(m, Success)) && Text(m, Command) in ["variables", "scopes", "evaluate"]
  }

  predicate IsStaleVariableError(m: Message) {
    && IsVariableFailure(m)
    && (Contains(Lower(Text(m, ErrorText)), "invalid") || Contains(Lower(Text(m, ErrorText)), "not found"))
  }

  function RewriteStaleVariableError(m: Message): (r: Message)
    ensures forall f :: f != ErrorText ==> (f in r <==> f in m) && Get(r, f) == Get(m, f)
  {
    if IsStaleVariableError(m) then m[ErrorText := String(Text(m, ErrorText) + STALE_HINT)] else m
  }
}
