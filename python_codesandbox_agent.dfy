/** A PythonSandboxAgent: a ConversableAgent whose reply list runs the code
    found in recent messages, with a pool of named sandboxes that are evicted
    after an idle timeout; and the variable map of a CodeSandbox. */
module PythonSandbox {
  import opened Wrappers
  import opened Util
  import opened Messages
  import opened ConversableAgents

  /** The idle time, in seconds, after which `check_sandbox_timeout` evicts a
      sandbox by default (`60*60`). */
  const SandboxTimeout := 3600

  /** The triggers the sandbox agent registers its handlers with:
      `[Agent, ClientActorHandle, str]`. */
  const SandboxTriggers := AnyOf([AgentClass, ActorHandleClass, StrClass])

  /** `code_execution_config`: False, or a dict of which only the
      "last_n_messages" key is read and written. */
  datatype ExecConfig = ExecutionDisabled | ExecutionEnabled(lastNMessages: Option<int>)

  /** One block found by code extraction: its language and its code. */
  datatype CodeBlock = CodeBlock(lang: string, code: string)

  /** What running code in a sandbox returns: `(exitcode, output, variables)`. */
  datatype ExecResult = ExecResult(exitcode: int, output: string, variables: map<string, string>)

  /** The response of the code handler. */
  datatype ChatResponse = ChatResponse(
    status: int,
    output: string,
    code: string,
    prompt: Message,
    variables: map<string, string>)

  /** What the code handler returns: `(final, response)`, None when not final. */
  datatype CodeReply = CodeReply(final: bool, response: Option<ChatResponse>)

  // ---------------------------------------------------------------------------
  // Numbers in the execution report

  function DigitChar(d: nat): char
    requires d < 10
  {
    ('0' as int + d) as char
  }

  predicate IsDigit(c: char) {
    '0' <= c <= '9'
  }

  /** The decimal digits of `n`, as `str(n)` prints them. */
  function NatToString(n: nat): (s: string)
    ensures |s| >= 1
    ensures forall i :: 0 <= i < |s| ==> IsDigit(s[i])
  {
    if n < 10 then [DigitChar(n)] else NatToString(n / 10) + [DigitChar(n % 10)]
  }

  /** `str(n)` for any integer: a minus sign before the digits of a negative one. */
  function IntToString(n: int): string {
    if n < 0 then "-" + NatToString(-n) else NatToString(n)
  }

  function DigitValue(c: char): nat
    requires IsDigit(c)
  {
    c as int - '0' as int
  }

  /** The value of a string of decimal digits. */
  function ParseNat(s: string): nat
    requires forall i :: 0 <= i < |s| ==> IsDigit(s[i])
  {
    if |s| == 0 then 0 else ParseNat(s[..|s| - 1]) * 10 + DigitValue(s[|s| - 1])
  }

  /** A decimal integer with an optional minus sign. */
  predicate IsDecimal(s: string) {
    |s| >= 1 && (s[0] == '-' || IsDigit(s[0])) && (forall i :: 1 <= i < |s| ==> IsDigit(s[i]))
  }

  /** The value of a decimal integer with an optional minus sign. */
  function ParseInt(s: string): int
    requires IsDecimal(s)
  {
    if s[0] == '-' then -(ParseNat(s[1..]) as int) else ParseNat(s)
  }

  lemma {:induction false} ParseNatToString(n: nat)
    ensures ParseNat(NatToString(n)) == n
  {
    if n >= 10 {
      var s := NatToString(n);
      assert s[..|s| - 1] == NatToString(n / 10);
      ParseNatToString(n / 10);
    }
  }

  /** The exit code printed in a report reads back as that exit code. */
  lemma ParseIntToString(n: int)
    ensures IsDecimal(IntToString(n)) && ParseInt(IntToString(n)) == n
  {
    if n < 0 {
      var s := IntToString(n);
      assert s[1..] == NatToString(-n);
      ParseNatToString(-n);
    } else {
      ParseNatToString(n);
    }
  }

  /** The status word of a report. */
  function StatusText(exitcode: int): string {
    if exitcode == 0 then "execution succeeded" else "execution failed"
  }

  /** The output of the code handler's response:
      `exitcode: N (execution succeeded|failed)\nCode output: ...`. */
  function ExecutionOutput(exitcode: int, output: string): (s: string)
    ensures "exitcode: " <= s
    ensures |s| >= |output| && s[|s| - |output|..] == output
  {
    var rest := ")\nCode output: " + output;
    var s := "exitcode: " + IntToString(exitcode) + " (" + StatusText(exitcode) + rest;
    assert s[..10] == "exitcode: ";
    assert s[|s| - |rest|..] == rest;
    assert rest[|rest| - |output|..] == output;
    s
  }

  /** In `head + digits + sep + status + rest`, the digits and the status are
      found at their offsets. */
  lemma FieldsAt(head: string, digits: string, sep: string, status: string, rest: string)
    ensures var s := head + digits + sep + status + rest;
      var at := |head| + |digits| + |sep|;
      && s[|head|..|head| + |digits|] == digits
      && s[at..at + |status|] == status
  {
    var s := head + digits + sep + status + rest;
    assert s == head + digits + (sep + status + rest);
    MiddleOf(head, digits, sep + status + rest);
    assert s == (head + digits + sep) + status + rest;
    MiddleOf(head + digits + sep, status, rest);
  }

  /** A report states its exit code after the 10-character prefix `exitcode: `,
      followed by ` (` and the status word, which says success exactly for exit
      code 0; and it ends with the output. */
  lemma ExecutionOutputReadsBack(exitcode: int, output: string)
    ensures var s := ExecutionOutput(exitcode, output);
      var n := |IntToString(exitcode)|;
      && |s| >= 10 + n + 2 + |StatusText(exitcode)|
      && s[..10] == "exitcode: "
      && IsDecimal(s[10..10 + n]) && ParseInt(s[10..10 + n]) == exitcode
      && (s[10 + n + 2..10 + n + 2 + |StatusText(exitcode)|] == "execution succeeded" <==> exitcode == 0)
      && s[|s| - |output|..] == output
  {
    var digits := IntToString(exitcode);
    var status := StatusText(exitcode);
    var rest := ")\nCode output: " + output;
    ParseIntToString(exitcode);
    FieldsAt("exitcode: ", digits, " (", status, rest);
    if exitcode != 0 {
      assert |status| != |"execution succeeded"|;
    }
  }

  // ---------------------------------------------------------------------------
  // The code found in a message

  /** The Python blocks' code, in order. */
  function PythonCodes(blocks: seq<CodeBlock>): (r: seq<string>)
    ensures |blocks| == 0 ==> r == []
    ensures |r| <= |blocks|
    ensures forall i :: 0 <= i < |blocks| && blocks[i].lang == "python" ==> blocks[i].code in r
    ensures forall c :: c in r ==> exists i :: 0 <= i < |blocks| && blocks[i].lang == "python" && blocks[i].code == c
  {
    if blocks == [] then []
    else
      var rest := PythonCodes(blocks[1..]);
      assert forall i :: 1 <= i < |blocks| ==> blocks[i] == blocks[1..][i - 1];
      (if blocks[0].lang == "python" then [blocks[0].code] else []) + rest
  }

  /** One more block extends the codes at the end, by its code when it is a
      Python block: together with the empty case this fixes the order. */
  lemma {:induction false} PythonCodesSnoc(blocks: seq<CodeBlock>, b: CodeBlock)
    ensures PythonCodes(blocks + [b]) == PythonCodes(blocks) + (if b.lang == "python" then [b.code] else [])
  {
    if blocks == [] {
      assert [b][1..] == [];
    } else {
      assert (blocks + [b])[1..] == blocks[1..] + [b];
      PythonCodesSnoc(blocks[1..], b);
    }
  }

  /** The summed length of the codes. */
  function TotalLength(codes: seq<string>): nat {
    if |codes| == 0 then 0 else |codes[0]| + TotalLength(codes[1..])
  }

  /** `"\n".join(codes)`: the codes and one newline between each two. */
  function JoinLines(codes: seq<string>): (r: string)
    ensures |codes| == 0 ==> r == ""
    ensures |codes| >= 1 ==> codes[0] <= r && |r| == TotalLength(codes) + |codes| - 1
  {
    if |codes| == 0 then "" else if |codes| == 1 then codes[0] else codes[0] + "\n" + JoinLines(codes[1..])
  }

  /** Joining one more code adds a newline and that code at the end. */
  lemma {:induction false} JoinLinesSnoc(codes: seq<string>, c: string)
    requires |codes| >= 1
    ensures JoinLines(codes + [c]) == JoinLines(codes) + "\n" + c
  {
    if |codes| > 1 {
      assert (codes + [c])[1..] == codes[1..] + [c];
      JoinLinesSnoc(codes[1..], c);
    }
  }

  /** A message's content is truthy: present, not None and not empty. */
  predicate Truthy(content: Field<string>) {
    content.Present? && content.value != ""
  }

  /** Extraction found nothing but one block of unknown language. */
  predicate OnlyUnknown(blocks: seq<CodeBlock>) {
    |blocks| == 1 && blocks[0].lang == "unknown"
  }

  /** The scan stops at a message: it has no "content" key (KeyError), or it
      has code to run. */
  predicate Stops(m: Message, extract: string -> seq<CodeBlock>) {
    m.content.Absent? || (Truthy(m.content) && !OnlyUnknown(extract(m.content.value)))
  }

  /** How many messages the scan looks at: `range(min(len(messages), last_n))`. */
  function Window(count: nat, lastN: int): (w: nat)
    ensures w <= count
    ensures lastN >= 0 ==> w == Min(count, lastN)
    ensures lastN < 0 ==> w == 0
  {
    if lastN <= 0 then 0 else if lastN <= count then lastN else count
  }

  /** The `i`-th newest message, `messages[-(i + 1)]`. */
  function Newest(hist: seq<Message>, i: nat): Message
    requires i < |hist|
  {
    hist[|hist| - 1 - i]
  }

  /** The offset, newest first, at which the scan stops, or the window size
      when it does not stop. */
  function FirstStop(hist: seq<Message>, lastN: int, extract: string -> seq<CodeBlock>): (k: nat)
    ensures k <= Window(|hist|, lastN)
    ensures forall j :: 0 <= j < k ==> !Stops(Newest(hist, j), extract)
    ensures k < Window(|hist|, lastN) ==> Stops(Newest(hist, k), extract)
  {
    var w := Window(|hist|, lastN);
    var p := (j: nat) => j < w && Stops(hist[|hist| - 1 - j], extract);
    assert forall j: nat :: p(j) <==> j < w && Stops(Newest(hist, j), extract);
    FirstWhere(p, 0, w)
  }

  /** The response for code found in message `m`: its Python blocks joined and
      run, with the report of the run. */
  function CodeResponse(m: Message, extract: string -> seq<CodeBlock>, exec: string -> ExecResult): ChatResponse
    requires m.content.Present?
  {
    var code := JoinLines(PythonCodes(extract(m.content.value)));
    var res := exec(code);
    ChatResponse(res.exitcode, ExecutionOutput(res.exitcode, res.output), code, m, res.variables)
  }

  // ---------------------------------------------------------------------------
  // The dispatch loop of the sandbox agent's `generate_reply`

  /** The override calls every entry that is not excluded (coroutines too). */
  predicate Called(e: ReplyEntry, exclude: set<Handler>) {
    e.handler !in exclude
  }

  /** Whether a handler has a `raw_message` parameter, which the override passes
      by keyword: the code and retrieval handlers have one, `generate_llm_reply`
      does not. */
  predicate TakesRawMessage(h: Handler) {
    !h.GenerateLlmReply?
  }

  /** Calling the entry in the override raises TypeError before a reply is
      unpacked: a coroutine handler returns a coroutine object, which cannot be
      unpacked into `final, reply`, and a handler without a `raw_message`
      parameter rejects the keyword. */
  predicate CallRaises(e: ReplyEntry) {
    e.isCoroutine || !TakesRawMessage(e.handler)
  }

  /** The override stops at an entry it calls whose call raises or whose
      handler answers with `final` true. */
  predicate Ends(e: ReplyEntry, exclude: set<Handler>, msgs: seq<Message>,
                 sender: Option<ConversableAgent>, call: ReplyOracle)
  {
    Called(e, exclude) && (CallRaises(e) || call(e.handler, msgs, sender, e.config).final)
  }

  /** The indices, in order, of the entries among the first `n` that the
      override calls. */
  function CalledIndices(list: seq<ReplyEntry>, exclude: set<Handler>, n: nat): seq<nat>
    requires n <= |list|
  {
    if n == 0 then []
    else CalledIndices(list, exclude, n - 1) + (if Called(list[n - 1], exclude) then [n - 1] else [])
  }

  /** The called indices are exactly the entries among the first `n` that are
      not excluded, each once, in increasing order. */
  lemma {:induction false} CalledIndicesIff(list: seq<ReplyEntry>, exclude: set<Handler>, n: nat)
    requires n <= |list|
    ensures var r := CalledIndices(list, exclude, n);
      && (forall j :: 0 <= j < |r| ==> r[j] < n && Called(list[r[j]], exclude))
      && (forall i :: 0 <= i < n && Called(list[i], exclude) ==> i in r)
      && (forall j, k :: 0 <= j < k < |r| ==> r[j] < r[k])
  {
    if n > 0 {
      CalledIndicesIff(list, exclude, n - 1);
    }
  }

  /** The index of the entry at which the override stops, or `|list|` when it
      runs through the list. */
  function FirstAnswer(list: seq<ReplyEntry>, msgs: seq<Message>, sender: Option<ConversableAgent>,
                       exclude: set<Handler>, call: ReplyOracle): (i: nat)
    ensures i <= |list|
    ensures forall j :: 0 <= j < i ==> !Ends(list[j], exclude, msgs, sender, call)
    ensures i < |list| ==> Ends(list[i], exclude, msgs, sender, call)
  {
    var p := (j: nat) => j < |list| && Ends(list[j], exclude, msgs, sender, call);
    assert forall j: nat :: p(j) <==> j < |list| && Ends(list[j], exclude, msgs, sender, call);
    FirstWhere(p, 0, |list|)
  }

  /** What the override gives when it stops at `i`: TypeError when that call
      raises, the handler's reply when it answers, the default when it ran
      through the list. */
  function OverrideReply(list: seq<ReplyEntry>, msgs: seq<Message>, sender: Option<ConversableAgent>,
                         call: ReplyOracle, default: Reply, i: nat): Result<Reply>
  {
    if i >= |list| then Ok(default)
    else if CallRaises(list[i]) then Err(TypeError)
    else Ok(call(list[i].handler, msgs, sender, list[i].config).reply)
  }

  /** One more entry extends the called indices by its own index exactly when
      it is not excluded. */
  lemma CalledStep(list: seq<ReplyEntry>, exclude: set<Handler>, i: nat)
    requires i < |list|
    ensures CalledIndices(list, exclude, i + 1) ==
            CalledIndices(list, exclude, i) + (if Called(list[i], exclude) then [i] else [])
  {
  }

  /** An index no later than the stopping entry, at which an entry ends the
      loop or the list ends, is the stopping entry; the calls made up to it are
      the called indices through it. */
  lemma OverrideStopsAt(list: seq<ReplyEntry>, msgs: seq<Message>, sender: Option<ConversableAgent>,
                        exclude: set<Handler>, call: ReplyOracle, i: nat)
    requires i <= |list| && i <= FirstAnswer(list, msgs, sender, exclude, call)
    requires i < |list| ==> Ends(list[i], exclude, msgs, sender, call)
    ensures FirstAnswer(list, msgs, sender, exclude, call) == i
    ensures CalledIndices(list, exclude, Min(i + 1, |list|)) ==
            if i < |list| then CalledIndices(list, exclude, i) + [i] else CalledIndices(list, exclude, i)
  {
  }

  /** The loop of the override: walk the reply list in order, skipping only
      excluded handlers; stop with TypeError at the first called entry whose
      call raises, or with the reply of the first handler that answers with
      `final` true; otherwise give `default`. `invoked` lists the entries the
      loop called, in order. */
  method DispatchOverride(list: seq<ReplyEntry>, msgs: seq<Message>, sender: Option<ConversableAgent>,
                          exclude: set<Handler>, call: ReplyOracle, default: Reply)
    returns (reply: Result<Reply>, invoked: seq<nat>)
    ensures reply == OverrideReply(list, msgs, sender, call, default, FirstAnswer(list, msgs, sender, exclude, call))
    ensures invoked == CalledIndices(list, exclude, Min(FirstAnswer(list, msgs, sender, exclude, call) + 1, |list|))
  {
    ghost var stop := FirstAnswer(list, msgs, sender, exclude, call);
    invoked := [];
    var i := 0;
    while i < |list|
      invariant i <= stop
      invariant invoked == CalledIndices(list, exclude, i)
    {
      var entry := list[i];
      CalledStep(list, exclude, i);
      if entry.handler !in exclude {
        invoked := invoked + [i];
        if entry.isCoroutine || !TakesRawMessage(entry.handler) {
          OverrideStopsAt(list, msgs, sender, exclude, call, i);
          return Err(TypeError), invoked;
        }
        var result := call(entry.handler, msgs, sender, entry.config);
        if result.final {
          OverrideStopsAt(list, msgs, sender, exclude, call, i);
          return Ok(result.reply), invoked;
        }
      }
      i := i + 1;
    }
    OverrideStopsAt(list, msgs, sender, exclude, call, i);
    reply := Ok(default);
  }

  /** A called coroutine entry, or a `generate_llm_reply` entry, that the loop
      reaches makes the override raise TypeError, whatever its handler would
      answer. */
  lemma OverrideRaisesAt(list: seq<ReplyEntry>, msgs: seq<Message>, sender: Option<ConversableAgent>,
                         exclude: set<Handler>, call: ReplyOracle, default: Reply, i: nat)
    requires i < |list| && Called(list[i], exclude) && CallRaises(list[i])
    requires forall k :: 0 <= k < i ==> !Ends(list[k], exclude, msgs, sender, call)
    ensures OverrideReply(list, msgs, sender, call, default, FirstAnswer(list, msgs, sender, exclude, call)) ==
            Err(TypeError)
  {
  }

  /** Without coroutine entries the override calls the same entries as the
      base dispatch loop. */
  lemma {:induction false} OverrideCallsAsBase(list: seq<ReplyEntry>, exclude: set<Handler>, n: nat)
    requires n <= |list|
    requires forall j :: 0 <= j < |list| ==> !list[j].isCoroutine
    ensures CalledIndices(list, exclude, n) == EligibleIndices(list, exclude, n)
  {
    if n > 0 {
      OverrideCallsAsBase(list, exclude, n - 1);
      assert Called(list[n - 1], exclude) == Eligible(list[n - 1], exclude);
    }
  }

  /** Without coroutine entries and without `generate_llm_reply` entries the
      override stops at the same entry as the base dispatch loop and returns
      its reply. */
  lemma OverrideAnswersAsBase(list: seq<ReplyEntry>, msgs: seq<Message>, sender: Option<ConversableAgent>,
                              exclude: set<Handler>, call: ReplyOracle, default: Reply)
    requires forall j :: 0 <= j < |list| ==> !CallRaises(list[j])
    ensures FirstAnswer(list, msgs, sender, exclude, call) == FirstConclusive(list, msgs, sender, exclude, call)
    ensures OverrideReply(list, msgs, sender, call, default, FirstAnswer(list, msgs, sender, exclude, call)) ==
            Ok(DispatchReply(list, msgs, sender, exclude, call, default))
  {
  }

  // ---------------------------------------------------------------------------
  // Sandboxes

  /** The names whose last update is more than `timeout` seconds before `now`. */
  function Stale(lastUpdated: map<string, int>, now: int, timeout: int): set<string> {
    set n | n in lastUpdated && now - lastUpdated[n] > timeout
  }

  /** A CodeSandbox: a map of session variables. */
  class CodeSandbox {
    const filePath: Option<string>
    const fileRef: Option<string>
    var sessionVariables: map<string, string>

    constructor (filePath: Option<string>, fileRef: Option<string>)
      ensures this.filePath == filePath && this.fileRef == fileRef
      ensures sessionVariables == map[]
    {
      this.filePath := filePath;
      this.fileRef := fileRef;
      sessionVariables := map[];
    }

    /** `get_value`: None for a name never set. */
    function GetValue(name: string): (r: Option<string>)
      reads this
      ensures r.None? <==> name !in sessionVariables
      ensures r.Some? ==> r.value == sessionVariables[name]
    {
      if name in sessionVariables then Some(sessionVariables[name]) else None
    }

    /** `set_value`: afterwards `name` reads back `value` and every other name
        reads as before; returns the sandbox itself. */
    method SetValue(name: string, value: string) returns (r: CodeSandbox)
      modifies this`sessionVariables
      ensures r == this
      ensures sessionVariables == old(sessionVariables)[name := value]
      ensures GetValue(name) == Some(value)
      ensures forall n :: n != name ==> GetValue(n) == old(GetValue(n))
    {
      sessionVariables := sessionVariables[name := value];
      r := this;
    }
  }

  // ---------------------------------------------------------------------------
  // The base-class constructor call

  /** An argument of the constructor call, as far as its binding goes: the
      agent's name, or the LLM or retrieval client. */
  datatype CtorArg = NameText(text: string) | LlmClient | RetrievalClient

  /** What the base constructor's first three parameters, `(llm, retrieval,
      name)`, are bound to. */
  datatype BaseBinding = BaseBinding(llm: CtorArg, retrieval: CtorArg, name: CtorArg)

  /** Positional binding of three arguments to `(llm, retrieval, name)`. */
  function BindPositional(args: seq<CtorArg>): BaseBinding
    requires |args| == 3
  {
    BaseBinding(args[0], args[1], args[2])
  }

  /** The arguments as written: `super().__init__(name, llm, retrieval, ...)`. */
  function SuperArgsAsWritten(name: string): seq<CtorArg> {
    [NameText(name), LlmClient, RetrievalClient]
  }

  /** The arguments in the base class's order: `(llm, retrieval, name)`. */
  function SuperArgsIntended(name: string): seq<CtorArg> {
    [LlmClient, RetrievalClient, NameText(name)]
  }

  /** As written, the agent's name is the retrieval client and its LLM is the
      name string; nothing in the base constructor uses either, so the
      construction itself succeeds. */
  lemma SuperCallAsWrittenMisbinds(name: string)
    ensures var b := BindPositional(SuperArgsAsWritten(name));
      && b.name == RetrievalClient && b.llm == NameText(name) && b.retrieval == LlmClient
      && b.name != NameText(name)
  {
  }

  /** In the base class's order every argument reaches the parameter of its
      own kind, and the agent's name is the name string. */
  lemma SuperCallIntendedBinds(name: string)
    ensures BindPositional(SuperArgsIntended(name)) == BaseBinding(LlmClient, RetrievalClient, NameText(name))
  {
  }

  class PythonSandboxAgent {
    /** The ConversableAgent part of the agent. */
    const base: ConversableAgent
    var sandboxes: map<string, CodeSandbox>
    var lastedUpdated: map<string, int>
    var codeExecutionConfig: ExecConfig

    /** Every sandbox has a timestamp and every timestamp a sandbox. */
    ghost predicate Valid()
      reads this
    {
      sandboxes.Keys == lastedUpdated.Keys
    }

    /** The reply list is replaced by the code handler and then the
        termination handler, both inserted at the front. `codeExecutionConfig`
        None stands for the default `{}`. */
    constructor (name: string, maxConsecutiveAutoReply: Option<int>, defaultAutoReply: Reply,
                 classMaxConsecutiveAutoReply: int, codeExecutionConfig: Option<ExecConfig>)
      ensures Valid() && sandboxes == map[] && lastedUpdated == map[]
      ensures fresh(base) && base.Valid() && base.name == name && base.messages == map[]
      ensures this.codeExecutionConfig == codeExecutionConfig.GetOr(ExecutionEnabled(None))
      ensures base.replyFuncList == [
                ReplyEntry(SandboxTriggers, CheckTerminationAndHumanReply, NoConfig, NoConfig, None, false),
                ReplyEntry(SandboxTriggers, Handler.GenerateExecuteCodeReply, NoConfig, NoConfig, None, false)]
    {
      var agent := new ConversableAgent(name, maxConsecutiveAutoReply, defaultAutoReply, classMaxConsecutiveAutoReply);
      base := agent;
      sandboxes := map[];
      lastedUpdated := map[];
      this.codeExecutionConfig := codeExecutionConfig.GetOr(ExecutionEnabled(None));
      new;
      agent.replyFuncList := [];
      agent.RegisterReply(SandboxTriggers, Handler.GenerateExecuteCodeReply, 0, NoConfig, None, false);
      agent.RegisterReply(SandboxTriggers, CheckTerminationAndHumanReply, 0, NoConfig, None, false);
      InsertAtFrontTwice([], ReplyEntry(SandboxTriggers, Handler.GenerateExecuteCodeReply, NoConfig, NoConfig, None, false),
                         ReplyEntry(SandboxTriggers, CheckTerminationAndHumanReply, NoConfig, NoConfig, None, false));
    }

    /** `check_sandbox_exists`. */
    function CheckSandboxExists(name: string): (b: bool)
      reads this
      ensures Valid() ==> (b <==> name in lastedUpdated)
    {
      name in sandboxes
    }

    /** `check_sandbox_timeout`: remove exactly the stale names from both maps.
        Deleting a stale name that has no sandbox would raise KeyError. */
    method CheckSandboxTimeout(now: int, timeout: int)
      requires Stale(lastedUpdated, now, timeout) <= sandboxes.Keys
      modifies this`sandboxes, this`lastedUpdated
      ensures sandboxes == old(sandboxes) - Stale(old(lastedUpdated), now, timeout)
      ensures lastedUpdated == old(lastedUpdated) - Stale(old(lastedUpdated), now, timeout)
      ensures old(Valid()) ==> Valid()
    {
      var stale := Stale(lastedUpdated, now, timeout);
      var removeNames: seq<string> := [];
      var pending := lastedUpdated.Keys;
      while pending != {}
        invariant pending <= lastedUpdated.Keys
        invariant forall n :: n in removeNames <==> n in stale && n !in pending
        decreases |pending|
      {
        var name :| name in pending;
        if now - lastedUpdated[name] > timeout {
          removeNames := removeNames + [name];
        }
        pending := pending - {name};
      }
      ghost var removed: set<string> := {};
      var i := 0;
      while i < |removeNames|
        invariant 0 <= i <= |removeNames|
        invariant forall n :: n in removed <==> n in removeNames[..i]
        invariant sandboxes == old(sandboxes) - removed
        invariant lastedUpdated == old(lastedUpdated) - removed
      {
        assert removeNames[..i + 1] == removeNames[..i] + [removeNames[i]];
        RemoveOneMore(old(sandboxes), removed, removeNames[i]);
        RemoveOneMore(old(lastedUpdated), removed, removeNames[i]);
        sandboxes := sandboxes - {removeNames[i]};
        lastedUpdated := lastedUpdated - {removeNames[i]};
        removed := removed + {removeNames[i]};
        i := i + 1;
      }
      assert removeNames[..i] == removeNames;
      assert removed == stale;
    }

    /** `get_sandbox`: evict stale sandboxes, then look `name` up (KeyError
        when it has none). */
    method GetSandbox(name: string, now: int) returns (r: Result<CodeSandbox>)
      requires Valid()
      modifies this`sandboxes, this`lastedUpdated
      ensures Valid()
      ensures sandboxes == old(sandboxes) - Stale(old(lastedUpdated), now, SandboxTimeout)
      ensures lastedUpdated == old(lastedUpdated) - Stale(old(lastedUpdated), now, SandboxTimeout)
      ensures r.Ok? <==> name in sandboxes
      ensures r.Ok? ==> r.value == sandboxes[name]
      ensures r.Err? ==> r.error == KeyError
    {
      CheckSandboxTimeout(now, SandboxTimeout);
      if name !in sandboxes {
        return Err(KeyError);
      }
      r := Ok(sandboxes[name]);
    }

    /** `force_clear`. */
    method ForceClear()
      modifies this`sandboxes, this`lastedUpdated
      ensures Valid()
      ensures sandboxes == map[] && lastedUpdated == map[]
    {
      sandboxes := map[];
      lastedUpdated := map[];
    }

    /** `get_or_create_sandbox`: stamp `name` with `now` before evicting, so the
        requested sandbox survives the eviction; return the existing sandbox, or
        create and store a new one. */
    method GetOrCreateSandbox(name: string, filePath: Option<string>, fileRef: Option<string>, now: int)
      returns (r: CodeSandbox)
      requires Valid()
      modifies this`sandboxes, this`lastedUpdated
      ensures Valid()
      ensures name in sandboxes && sandboxes[name] == r
      ensures name in lastedUpdated && lastedUpdated[name] == now
      ensures name in old(sandboxes) ==> r == old(sandboxes)[name]
      ensures name !in old(sandboxes) ==> fresh(r) && r.sessionVariables == map[] && r.filePath == filePath && r.fileRef == fileRef
      ensures var stale := Stale(old(lastedUpdated)[name := now], now, SandboxTimeout);
        && name !in stale
        && sandboxes == (old(sandboxes) - stale)[name := r]
        && lastedUpdated == old(lastedUpdated)[name := now] - stale
    {
      lastedUpdated := lastedUpdated[name := now];
      CheckSandboxTimeout(now, SandboxTimeout);
      if name in sandboxes {
        return sandboxes[name];
      }
      r := new CodeSandbox(filePath, fileRef);
      sandboxes := sandboxes[name := r];
    }

    /** `generate_execute_code_reply`, run with the entry's `config` (None: the
        agent's own `code_execution_config`). `configAfter` is that dict after
        the call: "last_n_messages" is popped and put back on the paths that
        return. With no messages given, the history is read under the sender's
        name: the defaultdict read opens an empty history under that name, since
        histories are kept per counterpart and nothing is stored under a name. */
    method GenerateExecuteCodeReply(msgs: Option<seq<Message>>, sender: Option<ConversableAgent>,
                                    config: Option<ExecConfig>, extract: string -> seq<CodeBlock>,
                                    exec: string -> ExecResult, now: int)
      returns (r: Result<CodeReply>, configAfter: ExecConfig)
      requires Valid()
      modifies this`sandboxes, this`lastedUpdated, this`codeExecutionConfig, base`nameKeys
      ensures Valid()
      ensures var cfg := config.GetOr(old(codeExecutionConfig));
        base.nameKeys == if cfg.ExecutionEnabled? && msgs.None? && sender.Some?
                         then old(base.nameKeys) + {sender.value.name} else old(base.nameKeys)
      ensures config.None? ==> codeExecutionConfig == configAfter
      ensures config.Some? ==> codeExecutionConfig == old(codeExecutionConfig)
      ensures var cfg := config.GetOr(old(codeExecutionConfig));
        cfg.ExecutionDisabled? || (msgs.None? && sender.None?) ==>
          && r == (if cfg.ExecutionDisabled? then Ok(CodeReply(false, None)) else Err(AttributeError))
          && configAfter == cfg
          && sandboxes == old(sandboxes) && lastedUpdated == old(lastedUpdated)
      ensures var cfg := config.GetOr(old(codeExecutionConfig));
        cfg.ExecutionEnabled? && (msgs.Some? || sender.Some?) ==>
          var hist := msgs.GetOr([]);
          var lastN := cfg.lastNMessages.GetOr(1);
          var k := FirstStop(hist, lastN, extract);
          if k == Window(|hist|, lastN) then
            && r == Ok(CodeReply(false, None))
            && configAfter == ExecutionEnabled(Some(lastN))
            && sandboxes == old(sandboxes) && lastedUpdated == old(lastedUpdated)
          else if Newest(hist, k).content.Absent? || sender.None? then
            && r == Err(if Newest(hist, k).content.Absent? then KeyError else AttributeError)
            && configAfter == ExecutionEnabled(None)
            && sandboxes == old(sandboxes) && lastedUpdated == old(lastedUpdated)
          else
            var name := sender.value.name;
            var stale := Stale(old(lastedUpdated)[name := now], now, SandboxTimeout);
            && r == Ok(CodeReply(true, Some(CodeResponse(Newest(hist, k), extract, exec))))
            && configAfter == ExecutionEnabled(Some(lastN))
            && name in sandboxes
            && lastedUpdated == old(lastedUpdated)[name := now] - stale
            && sandboxes == (old(sandboxes) - stale)[name := sandboxes[name]]
            && (name in old(sandboxes) ==> sandboxes[name] == old(sandboxes)[name])
            && (name !in old(sandboxes) ==> fresh(sandboxes[name]) && sandboxes[name].sessionVariables == map[])
    {
      var cfg := if config.Some? then config.value else codeExecutionConfig;
      if cfg.ExecutionDisabled? {
        return Ok(CodeReply(false, None)), cfg;
      }
      var hist: seq<Message> := [];
      if msgs.None? {
        if sender.None? {
          return Err(AttributeError), cfg;
        }
        base.nameKeys := base.nameKeys + {sender.value.name};
      } else {
        hist := msgs.value;
      }
      var lastN := cfg.lastNMessages.GetOr(1);
      configAfter := ExecutionEnabled(None);
      if config.None? {
        codeExecutionConfig := configAfter;
      }
      var w := Window(|hist|, lastN);
      var i := 0;
      while i < w
        invariant 0 <= i <= w
        invariant forall j :: 0 <= j < i ==> !Stops(Newest(hist, j), extract)
        invariant sandboxes == old(sandboxes) && lastedUpdated == old(lastedUpdated)
        invariant base.nameKeys == if msgs.None? then old(base.nameKeys) + {sender.value.name} else old(base.nameKeys)
        invariant config.None? ==> codeExecutionConfig == configAfter
        invariant config.Some? ==> codeExecutionConfig == old(codeExecutionConfig)
      {
        var message := hist[|hist| - 1 - i];
        assert message == Newest(hist, i);
        if message.content.Absent? {
          assert FirstStop(hist, lastN, extract) == i;
          return Err(KeyError), configAfter;
        }
        if !Truthy(message.content) {
          i := i + 1;
          continue;
        }
        var blocks := extract(message.content.value);
        if OnlyUnknown(blocks) {
          i := i + 1;
          continue;
        }
        var code := JoinLines(PythonCodes(blocks));
        assert FirstStop(hist, lastN, extract) == i;
        if sender.None? {
          return Err(AttributeError), configAfter;
        }
        var sandbox := GetOrCreateSandbox(sender.value.name, None, None, now);
        var res := exec(code);
        configAfter := ExecutionEnabled(Some(lastN));
        if config.None? {
          codeExecutionConfig := configAfter;
        }
        return Ok(CodeReply(true, Some(ChatResponse(res.exitcode, ExecutionOutput(res.exitcode, res.output),
                                                    code, message, res.variables)))), configAfter;
      }
      configAfter := ExecutionEnabled(Some(lastN));
      if config.None? {
        codeExecutionConfig := configAfter;
      }
      r := Ok(CodeReply(false, None));
    }

    /** The sandbox agent's `generate_reply`: like the base loop, but it does not
        skip coroutine handlers (their call raises TypeError), it passes
        `raw_message` to every handler, and with no messages given it reads the history
        under the sender's name, which the defaultdict read opens empty.
        `invoked` lists the entries whose handler was called, in order. */
    method GenerateReply(msgs: Option<seq<Message>>, sender: Option<ConversableAgent>,
                         exclude: set<Handler>, call: ReplyOracle)
      returns (r: Result<Reply>, invoked: seq<nat>)
      modifies base`nameKeys
      ensures base.nameKeys == if msgs.None? && sender.Some? then old(base.nameKeys) + {sender.value.name}
                               else old(base.nameKeys)
      ensures msgs.None? && sender.None? ==> r == Err(AssertionError) && invoked == []
      ensures msgs.Some? || sender.Some? ==>
        var hist := msgs.GetOr([]);
        var list := base.replyFuncList;
        var i := FirstAnswer(list, hist, sender, exclude, call);
        && r == OverrideReply(list, hist, sender, call, base.defaultAutoReply, i)
        && invoked == CalledIndices(list, exclude, Min(i + 1, |list|))
    {
      if msgs.None? && sender.None? {
        return Err(AssertionError), [];
      }
      var hist := if msgs.Some? then msgs.value else [];
      if msgs.None? {
        base.nameKeys := base.nameKeys + {sender.value.name};
      }
      r, invoked := DispatchOverride(base.replyFuncList, hist, sender, exclude, call, base.defaultAutoReply);
    }
  }
}
