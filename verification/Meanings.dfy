/** What the tests on messages mean, in terms of the names that the protocol gives to types, commands and events and
    of the values of single fields. */
module Meanings {
  import opened Messages
  import opened MuxModel
  import opened MuxProtocol

  /** The field is there and holds this text. */
  predicate Says(m: Message, f: Field, text: string) {
    f in m && m[f] == String(text)
  }

  /** The values that count as false: null, false, zero, and what is empty. */
  predicate Falsy(j: Json) {
    j == Null || j == Bool(false) || j == Number(0) || j == String("") || j == Array([]) || j == Object(map[])
  }

  predicate Holds(m: Message, f: Field) {
    f in m && !Falsy(m[f])
  }

  // ---------------------------------------------------------------- types, commands and events

  lemma TypesByText(m: Message)
    ensures IsRequest(m) <==> Says(m, Type, "request")
    ensures IsResponse(m) <==> Says(m, Type, "response")
    ensures IsEvent(m) <==> Says(m, Type, "event")
  {
  }

  lemma TextIs(m: Message, f: Field, text: string)
    requires text != ""
    ensures Text(m, f) == text <==> Says(m, f, text)
  {
  }

  predicate SaysEnding(m: Message) {
    Says(m, Command, "disconnect") || Says(m, Command, "terminate") || Says(m, Command, "restart")
  }

  predicate SaysStart(m: Message) {
    Says(m, Command, "attach") || Says(m, Command, "launch")
  }

  /** The five kinds of client requests, told by their commands. */
  lemma KindsByCommand(m: Message)
    ensures KindOf(m).Initialize? <==> Says(m, Command, "initialize")
    ensures KindOf(m).ConfigurationDone? <==> Says(m, Command, "configurationDone")
    ensures KindOf(m).Start? <==> SaysStart(m)
    ensures KindOf(m).Ending? <==> SaysEnding(m)
  {
    TextIs(m, Command, "initialize");
    TextIs(m, Command, "attach");
    TextIs(m, Command, "launch");
    TextIs(m, Command, "configurationDone");
    TextIs(m, Command, "disconnect");
    TextIs(m, Command, "terminate");
    TextIs(m, Command, "restart");
    assert "initialize"[0] == 'i' && "disconnect"[0] == 'd';
    assert "attach"[0] == 'a' && "launch"[0] == 'l' && "restart"[0] == 'r' && "terminate"[0] == 't';
  }

  /** An event of this name. */
  predicate IsEventNamed(m: Message, name: string) {
    Says(m, Type, "event") && Says(m, EventName, name)
  }

  predicate SaysUnwanted(m: Message) {
    Says(m, EventName, "debugpySockets") || Says(m, EventName, "debugpyAttach") || Says(m, EventName, "startDebugging")
  }

  lemma BroadcastsByName(m: Message)
    ensures IsBroadcast(m) <==> Says(m, Type, "event") && !SaysUnwanted(m)
  {
    TypesByText(m);
    TextIs(m, EventName, "debugpySockets");
    TextIs(m, EventName, "debugpyAttach");
    TextIs(m, EventName, "startDebugging");
  }

  lemma ReverseRequestsByCommand(m: Message)
    ensures IsKnownReverseRequest(m) <==>
      Says(m, Type, "request") && (Says(m, Command, "runInTerminal") || Says(m, Command, "startDebugging"))
    ensures IsRunInTerminal(m) <==> Says(m, Command, "runInTerminal")
  {
    TypesByText(m);
    TextIs(m, Command, "runInTerminal");
    TextIs(m, Command, "startDebugging");
  }

  // ---------------------------------------------------------------- values

  lemma TruthOfValues(j: Json)
    ensures Truthy(j) <==> !Falsy(j)
  {
  }

  lemma TruthOfFields(m: Message, f: Field)
    ensures Truthy(Get(m, f)) <==> Holds(m, f)
  {
  }

  lemma OptInByField(arguments: Json)
    ensures OptsIn(arguments) <==>
      exists fields :: arguments == Object(fields) && "supportsRunInTerminalRequest" in fields
                       && !Falsy(fields["supportsRunInTerminalRequest"])
  {
    if arguments.Object? { assert arguments == Object(arguments.fields); }
  }

  /** A successful initialize response. */
  lemma InitializeSuccessByFields(m: Message)
    ensures IsInitializeSuccess(m) <==> Says(m, Command, "initialize") && Holds(m, Success)
  {
    TextIs(m, Command, "initialize");
    TruthOfFields(m, Success);
  }

  /** A response bears number n if its request_seq is n, or True for 1 or False for 0. */
  lemma RespondsByNumber(m: Message, n: int)
    ensures Responds(m, n) <==>
      && Says(m, Type, "response") && RequestSeq in m
      && (m[RequestSeq] == Number(n) || (n == 1 && m[RequestSeq] == Bool(true))
          || (n == 0 && m[RequestSeq] == Bool(false)))
  {
    TypesByText(m);
  }

  // ---------------------------------------------------------------- stale variable errors

  predicate OccursAt(s: string, word: string, i: nat) {
    i + |word| <= |s| && s[i..i + |word|] == word
  }

  lemma {:induction false} ContainsFinds(s: string, word: string)
    ensures Contains(s, word) <==> exists i: nat :: OccursAt(s, word, i)
  {
    if |word| <= |s| {
      if word <= s {
        assert OccursAt(s, word, 0);
      } else {
        ContainsFinds(s[1..], word);
        if Contains(s[1..], word) {
          var i: nat :| OccursAt(s[1..], word, i);
          assert OccursAt(s, word, i + 1);
        }
        forall i: nat | OccursAt(s, word, i) ensures Contains(s[1..], word) {
          assert i > 0 && s[1..][i - 1..i - 1 + |word|] == s[i..i + |word|];
          assert OccursAt(s[1..], word, i - 1);
        }
      }
    }
  }

  /** Lower case changes each of the 26 letters to its counterpart, and nothing else. */
  lemma LowerByLetter(s: string, i: nat)
    requires i < |s|
    ensures |Lower(s)| == |s|
    ensures 'A' <= s[i] <= 'Z' ==>
              'a' <= Lower(s)[i] <= 'z' && Lower(s)[i] as int - 'a' as int == s[i] as int - 'A' as int
    ensures s[i] < 'A' || s[i] > 'Z' ==> Lower(s)[i] == s[i]
  {
  }

  /** The text contains the word, in whatever case. */
  ghost predicate Mentions(text: string, word: string) {
    exists i: nat :: OccursAt(Lower(text), word, i)
  }

  /** A failed response to variables, scopes or evaluate, whose error text says "invalid" or "not found". */
  ghost predicate SaysStale(m: Message, text: string) {
    && Says(m, Type, "response") && !Holds(m, Success) && Says(m, ErrorText, text)
    && (Says(m, Command, "variables") || Says(m, Command, "scopes") || Says(m, Command, "evaluate"))
    && (Mentions(text, "invalid") || Mentions(text, "not found"))
  }

  lemma NothingInEmpty(word: string)
    requires word != ""
    ensures !Contains(Lower(""), word)
  {
  }

  lemma StaleErrorsByText(m: Message)
    ensures IsStaleVariableError(m) <==> exists text :: SaysStale(m, text)
  {
    TypesByText(m);
    TruthOfFields(m, Success);
    TextIs(m, Command, "variables");
    TextIs(m, Command, "scopes");
    TextIs(m, Command, "evaluate");
    var text := Text(m, ErrorText);
    ContainsFinds(Lower(text), "invalid");
    ContainsFinds(Lower(text), "not found");
    NothingInEmpty("invalid");
    NothingInEmpty("not found");
    if IsStaleVariableError(m) { assert SaysStale(m, text); }
  }

  /** The rewrite adds its hint to such a text, and leaves every other message as it is. */
  lemma RewrittenText(m: Message)
    ensures forall text :: SaysStale(m, text) ==>
      RewriteStaleVariableError(m)
      == m[ErrorText := String(text + " (variable references are invalidated when execution resumes)")]
    ensures (forall text :: !SaysStale(m, text)) ==> RewriteStaleVariableError(m) == m
  {
    StaleErrorsByText(m);
  }
}
