/** The conversation and reply-dispatch core of a ConversableAgent: the
    per-counterpart message store, the reply-function list, the per-counterpart
    counters and flags, the dispatch loop and the send/receive protocol. */
module ConversableAgents {
  import opened Wrappers
  import opened Util
  import opened Messages

  /** The stored trigger of a reply entry. Triggers are kept but never evaluated
      by the dispatch loop. */
  datatype Trigger =
    | AgentClass
    | ActorHandleClass
    | StrClass
    | NoSender
    | NameIs(name: string)
    | PredicateTrigger(id: nat)
    | AnyOf(triggers: seq<Trigger>)

  /** Reply functions, by identity. */
  datatype Handler =
    | GenerateLlmReply
    | CheckTerminationAndHumanReply
    | GenerateExecuteCodeReply
    | GenerateRetrievalBasedReply
    | CustomHandler(id: nat)

  /** A handler's private config value; `NoConfig` is Python's None. */
  datatype Config = NoConfig | ConfigValue(id: nat)

  /** One entry of the reply-function list. `resetConfig` names the reset hook,
      if any; `isCoroutine` says whether the handler is a coroutine function. */
  datatype ReplyEntry = ReplyEntry(
    trigger: Trigger,
    handler: Handler,
    config: Config,
    initConfig: Config,
    resetConfig: Option<nat>,
    isCoroutine: bool)

  /** A reply: None, a string or a message dict. */
  datatype Reply = NoReply | TextReply(text: string) | MessageReply(message: Message)

  /** What a handler returns: `(final, reply)`. */
  datatype HandlerResult = HandlerResult(final: bool, reply: Reply)

  /** How a send or a receive ended. */
  datatype Outcome = Completed | Raised(error: Error) | DepthExhausted

  /** The handlers: given a handler, the messages, the sender and the entry's
      config, the result that handler returns. */
  type ReplyOracle = (Handler, seq<Message>, Option<ConversableAgent>, Config) -> HandlerResult

  /** The triggers the base agent registers its LLM reply with: `[Agent, None]`. */
  const BaseTriggers := AnyOf([AgentClass, NoSender])

  /** A reply as the message `send` is called with. */
  function ReplyToRaw(r: Reply): RawMessage
    requires !r.NoReply?
  {
    match r
    case TextReply(s) => Text(s)
    case MessageReply(m) => Dict(m)
  }

  /** The entry after `reset`: the hook's result when the entry has a hook,
      otherwise a copy of its initial config. */
  function ResetEntry(e: ReplyEntry, resetHook: (nat, Config) -> Config): ReplyEntry {
    e.(config := if e.resetConfig.Some? then resetHook(e.resetConfig.value, e.config) else e.initConfig)
  }

  /** The dispatch loop calls an entry unless it is excluded or a coroutine. */
  predicate Eligible(e: ReplyEntry, exclude: set<Handler>) {
    e.handler !in exclude && !e.isCoroutine
  }

  /** An entry is called and its handler answers with `final` true. */
  predicate Concludes(e: ReplyEntry, exclude: set<Handler>, msgs: seq<Message>,
                      sender: Option<ConversableAgent>, call: ReplyOracle)
  {
    Eligible(e, exclude) && call(e.handler, msgs, sender, e.config).final
  }

  /** The indices, in order, of the entries among the first `n` that the
      dispatch loop calls. */
  function EligibleIndices(list: seq<ReplyEntry>, exclude: set<Handler>, n: nat): (r: seq<nat>)
    requires n <= |list|
    ensures forall j :: 0 <= j < |r| ==> r[j] < n && Eligible(list[r[j]], exclude)
    ensures forall i :: 0 <= i < n && Eligible(list[i], exclude) ==> i in r
    ensures forall j, k :: 0 <= j < k < |r| ==> r[j] < r[k]
  {
    if n == 0 then []
    else EligibleIndices(list, exclude, n - 1) + (if Eligible(list[n - 1], exclude) then [n - 1] else [])
  }

  /** The index of the entry whose reply `generate_reply` returns, or `|list|`
      when no entry concludes. */
  function FirstConclusive(list: seq<ReplyEntry>, msgs: seq<Message>, sender: Option<ConversableAgent>,
                           exclude: set<Handler>, call: ReplyOracle): (i: nat)
    ensures i <= |list|
    ensures forall j :: 0 <= j < i ==> !Concludes(list[j], exclude, msgs, sender, call)
    ensures i < |list| ==> Concludes(list[i], exclude, msgs, sender, call)
  {
    var p := (j: nat) => j < |list| && Concludes(list[j], exclude, msgs, sender, call);
    assert forall j: nat :: p(j) <==> j < |list| && Concludes(list[j], exclude, msgs, sender, call);
    FirstWhere(p, 0, |list|)
  }

  /** The reply `generate_reply` returns: that of the first entry that is
      called and answers final, or the default auto-reply when none does. */
  function DispatchReply(list: seq<ReplyEntry>, msgs: seq<Message>, sender: Option<ConversableAgent>,
                         exclude: set<Handler>, call: ReplyOracle, default: Reply): (r: Reply)
    ensures (forall j :: 0 <= j < |list| ==> !Concludes(list[j], exclude, msgs, sender, call)) ==> r == default
    ensures r == default ||
      exists j :: 0 <= j < |list| && Concludes(list[j], exclude, msgs, sender, call) &&
                  r == call(list[j].handler, msgs, sender, list[j].config).reply
  {
    var i := FirstConclusive(list, msgs, sender, exclude, call);
    if i < |list| then call(list[i].handler, msgs, sender, list[i].config).reply else default
  }

  /** Any index before which no entry concludes, and at which one concludes or
      the list ends, is the first conclusive one. */
  lemma FirstConclusiveIs(list: seq<ReplyEntry>, msgs: seq<Message>, sender: Option<ConversableAgent>,
                          exclude: set<Handler>, call: ReplyOracle, i: nat)
    requires i <= |list|
    requires forall k :: 0 <= k < i ==> !Concludes(list[k], exclude, msgs, sender, call)
    requires i < |list| ==> Concludes(list[i], exclude, msgs, sender, call)
    ensures FirstConclusive(list, msgs, sender, exclude, call) == i
  {
  }

  /** When some entry concludes, the reply is that of the first one that does. */
  lemma DispatchReplyIsFirst(list: seq<ReplyEntry>, msgs: seq<Message>, sender: Option<ConversableAgent>,
                             exclude: set<Handler>, call: ReplyOracle, default: Reply, j: nat)
    requires j < |list| && Concludes(list[j], exclude, msgs, sender, call)
    requires forall k :: 0 <= k < j ==> !Concludes(list[k], exclude, msgs, sender, call)
    ensures DispatchReply(list, msgs, sender, exclude, call, default) == call(list[j].handler, msgs, sender, list[j].config).reply
  {
    FirstConclusiveIs(list, msgs, sender, exclude, call, j);
  }

  /** One more entry extends the eligible indices by its own index exactly when
      it is eligible. */
  lemma EligibleStep(list: seq<ReplyEntry>, exclude: set<Handler>, i: nat)
    requires i < |list|
    ensures EligibleIndices(list, exclude, i + 1) ==
            EligibleIndices(list, exclude, i) + (if Eligible(list[i], exclude) then [i] else [])
  {
  }

  /** The dispatch loop stopping at the first conclusive index returns what
      `DispatchReply` gives and has called the eligible entries up to and
      including that index. */
  lemma StopsAt(list: seq<ReplyEntry>, msgs: seq<Message>, sender: Option<ConversableAgent>,
                exclude: set<Handler>, call: ReplyOracle, default: Reply, i: nat)
    requires i == FirstConclusive(list, msgs, sender, exclude, call)
    ensures DispatchReply(list, msgs, sender, exclude, call, default) ==
            if i < |list| then call(list[i].handler, msgs, sender, list[i].config).reply else default
    ensures EligibleIndices(list, exclude, Min(i + 1, |list|)) ==
            if i < |list| then EligibleIndices(list, exclude, i) + [i] else EligibleIndices(list, exclude, i)
  {
  }

  /** The loop of `generate_reply`: walk the reply list in order, skipping
      excluded and coroutine handlers, and return the reply of the first
      handler that answers with `final` true, or `default`. `invoked` lists the
      entries whose handler was called, in order. */
  method Dispatch(list: seq<ReplyEntry>, msgs: seq<Message>, sender: Option<ConversableAgent>,
                  exclude: set<Handler>, call: ReplyOracle, default: Reply)
    returns (reply: Reply, invoked: seq<nat>)
    ensures reply == DispatchReply(list, msgs, sender, exclude, call, default)
    ensures invoked == EligibleIndices(list, exclude, Min(FirstConclusive(list, msgs, sender, exclude, call) + 1, |list|))
  {
    invoked := [];
    var i := 0;
    while i < |list|
      invariant 0 <= i <= |list|
      invariant i <= FirstConclusive(list, msgs, sender, exclude, call)
      invariant invoked == EligibleIndices(list, exclude, i)
    {
      var entry := list[i];
      EligibleStep(list, exclude, i);
      if entry.handler !in exclude && !entry.isCoroutine {
        invoked := invoked + [i];
        var result := call(entry.handler, msgs, sender, entry.config);
        if result.final {
          StopsAt(list, msgs, sender, exclude, call, default, i);
          return result.reply, invoked;
        }
      }
      i := i + 1;
    }
    StopsAt(list, msgs, sender, exclude, call, default, i);
    reply := default;
  }

  /** A `reply_at_receive` flag read through the defaultdict: false when missing. */
  function FlagOf(flags: map<ConversableAgent, bool>, k: ConversableAgent): bool {
    k in flags && flags[k]
  }

  /** The reply gate of `receive`, which returns early when `request_reply is
      False or request_reply is None and reply_at_receive[sender] is False`: a
      reply is generated for True, and for None exactly when the sender's flag
      is set. */
  function ReplyGateOpen(requestReply: Option<bool>, replyAtReceive: map<ConversableAgent, bool>,
                         sender: ConversableAgent): (open: bool)
    ensures requestReply.Some? ==> (open <==> requestReply.value)
    ensures requestReply.None? ==> (open <==> sender in replyAtReceive && replyAtReceive[sender])
  {
    !(requestReply == Some(false) || (requestReply.None? && !FlagOf(replyAtReceive, sender)))
  }

  /** The reply flags after the gate is read: the defaultdict read stores a
      false flag for a sender without one. Python's `and` reads the flag only
      when `request_reply` is None. */
  function FlagsAfterGate(flags: map<ConversableAgent, bool>, requestReply: Option<bool>,
                          sender: ConversableAgent): map<ConversableAgent, bool>
  {
    if requestReply.None? && sender !in flags then flags[sender := false] else flags
  }

  /** The exception `send` and `receive` raise for a message that
      `_append_message` does not store: ValueError when it returns False, and
      what it raised otherwise. */
  function AppendError(a: Appended): Error
    requires !a.Stored?
  {
    if a.Rejected? then ValueError else a.error
  }

  /** The histories after `clear_history(k)` when `clear` holds. */
  function ClearedFor(h: map<ConversableAgent, seq<Message>>, clear: bool, k: ConversableAgent)
    : map<ConversableAgent, seq<Message>>
  {
    if clear then h[k := []] else h
  }

  /** IndexError for a conversation with no message (`conversation[-1]`), or the
      last message. */
  function LastOf(conversation: seq<Message>): Result<Option<Message>> {
    if |conversation| == 0 then Err(IndexError) else Ok(Some(conversation[|conversation| - 1]))
  }

  /** The part of an agent's state that a conversation may change: its
      histories and its reply flags. The other fields are outside the frames
      of `send` and `receive`. */
  datatype AgentState = AgentState(
    messages: map<ConversableAgent, seq<Message>>,
    replyAtReceive: map<ConversableAgent, bool>)

  /** Flags that were set keep their value; flags that appear are false (the
      defaultdict read of `reply_at_receive`). */
  ghost predicate DefaultsAdded(a: map<ConversableAgent, bool>, b: map<ConversableAgent, bool>) {
    && (forall k :: k in a ==> k in b && b[k] == a[k])
    && (forall k :: k in b && k !in a ==> !b[k])
  }

  /** What a conversation (send and receive, recursively) may do to an agent:
      append to histories, open histories and default reply flags. */
  ghost predicate Follows(a: AgentState, b: AgentState) {
    && AppendOnly(a.messages, b.messages)
    && DefaultsAdded(a.replyAtReceive, b.replyAtReceive)
  }

  lemma FollowsTransitive(a: AgentState, b: AgentState, c: AgentState)
    requires Follows(a, b) && Follows(b, c)
    ensures Follows(a, c)
  {
    AppendOnlyTransitive(a.messages, b.messages, c.messages);
  }

  /** `h` holds a history with `k` that begins with `prefix`. */
  ghost predicate StartsWith(h: map<ConversableAgent, seq<Message>>, k: ConversableAgent, prefix: seq<Message>) {
    k in h && prefix <= h[k]
  }

  lemma SingleKey<K, V>(m: map<K, V>, k: K, k': K)
    requires |m| == 1 && k in m && k' in m
    ensures k == k'
  {
    if k != k' {
      var pair := {k, k'};
      assert |pair| == 2;
      SubsetCardinality(pair, m.Keys);
    }
  }

  lemma SubsetCardinality<K>(a: set<K>, b: set<K>)
    requires a <= b
    ensures |a| <= |b|
  {
    assert b == a + (b - a);
  }

  class ConversableAgent {
    const name: string
    const defaultAutoReply: Reply
    var messages: map<ConversableAgent, seq<Message>>
    var replyFuncList: seq<ReplyEntry>
    var consecutiveAutoReplyCounter: map<ConversableAgent, int>
    var maxConsecutiveAutoReply: int
    var maxConsecutiveAutoReplyDict: map<ConversableAgent, int>
    var replyAtReceive: map<ConversableAgent, bool>
    /** The histories that reads keyed by a counterpart's name string opened in
        the defaultdict of histories. Nothing appends under a name, so each of
        them is an empty list. */
    var nameKeys: set<string>

    /** Every stored message is well formed. */
    ghost predicate Valid()
      reads this
    {
      WellFormedHistories(messages)
    }

    ghost function State(): AgentState
      reads this
    {
      AgentState(messages, replyAtReceive)
    }

    /** The maximum number of consecutive auto replies that applies to `k`. */
    function EffectiveMax(k: ConversableAgent): int
      reads this
    {
      if k in maxConsecutiveAutoReplyDict then maxConsecutiveAutoReplyDict[k] else maxConsecutiveAutoReply
    }

    /** `maxConsecutiveAutoReply` None stands for the class default, given as
        `classMaxConsecutiveAutoReply`. */
    constructor (name: string, maxConsecutiveAutoReply: Option<int>, defaultAutoReply: Reply,
                 classMaxConsecutiveAutoReply: int)
      ensures Valid()
      ensures this.name == name && this.defaultAutoReply == defaultAutoReply
      ensures messages == map[] && consecutiveAutoReplyCounter == map[]
      ensures maxConsecutiveAutoReplyDict == map[] && replyAtReceive == map[] && nameKeys == {}
      ensures this.maxConsecutiveAutoReply == maxConsecutiveAutoReply.GetOr(classMaxConsecutiveAutoReply)
      ensures replyFuncList == [ReplyEntry(BaseTriggers, GenerateLlmReply, NoConfig, NoConfig, None, false)]
    {
      this.name := name;
      this.defaultAutoReply := defaultAutoReply;
      messages := map[];
      this.maxConsecutiveAutoReply := maxConsecutiveAutoReply.GetOr(classMaxConsecutiveAutoReply);
      consecutiveAutoReplyCounter := map[];
      maxConsecutiveAutoReplyDict := map[];
      replyFuncList := [];
      replyAtReceive := map[];
      nameKeys := {};
      new;
      RegisterReply(BaseTriggers, GenerateLlmReply, 0, NoConfig, None, false);
    }

    /** `register_reply`: insert an entry at `position` (Python's `list.insert`);
        the entry's config is a copy of `config`, which is also its initial config. */
    method RegisterReply(trigger: Trigger, handler: Handler, position: int, config: Config,
                         resetConfig: Option<nat>, isCoroutine: bool)
      modifies this`replyFuncList
      ensures replyFuncList ==
        InsertAt(old(replyFuncList), position, ReplyEntry(trigger, handler, config, config, resetConfig, isCoroutine))
    {
      replyFuncList := InsertAt(replyFuncList, position,
                                ReplyEntry(trigger, handler, config, config, resetConfig, isCoroutine));
    }

    /** `update_max_consecutive_auto_reply`: without a sender, the default and
        every per-counterpart maximum become `value`; with one, only its own. */
    method UpdateMaxConsecutiveAutoReply(value: int, sender: Option<ConversableAgent>)
      modifies this`maxConsecutiveAutoReply, this`maxConsecutiveAutoReplyDict
      ensures sender.None? ==> maxConsecutiveAutoReply == value
      ensures sender.None? ==> maxConsecutiveAutoReplyDict.Keys == old(maxConsecutiveAutoReplyDict).Keys
      ensures sender.None? ==> forall k :: EffectiveMax(k) == value
      ensures sender.Some? ==> maxConsecutiveAutoReply == old(maxConsecutiveAutoReply)
      ensures sender.Some? ==>
        maxConsecutiveAutoReplyDict == old(maxConsecutiveAutoReplyDict)[sender.value := value]
      ensures sender.Some? ==> EffectiveMax(sender.value) == value
    {
      if sender.None? {
        maxConsecutiveAutoReply := value;
        var pending := maxConsecutiveAutoReplyDict.Keys;
        while pending != {}
          invariant pending <= maxConsecutiveAutoReplyDict.Keys
          invariant maxConsecutiveAutoReplyDict.Keys == old(maxConsecutiveAutoReplyDict).Keys
          invariant forall k :: k in maxConsecutiveAutoReplyDict && k !in pending ==>
            maxConsecutiveAutoReplyDict[k] == value
          invariant maxConsecutiveAutoReply == value
          decreases pending
        {
          var k :| k in pending;
          maxConsecutiveAutoReplyDict := maxConsecutiveAutoReplyDict[k := value];
          pending := pending - {k};
        }
      } else {
        maxConsecutiveAutoReplyDict := maxConsecutiveAutoReplyDict[sender.value := value];
      }
    }

    /** `max_consecutive_auto_reply`: the default, or the sender's maximum; a
        sender without one gets the default stored for it (defaultdict). */
    method MaxConsecutiveAutoReply(sender: Option<ConversableAgent>) returns (r: int)
      modifies this`maxConsecutiveAutoReplyDict
      ensures sender.None? ==> r == maxConsecutiveAutoReply && unchanged(this)
      ensures sender.Some? ==> r == old(EffectiveMax(sender.value))
      ensures sender.Some? ==> maxConsecutiveAutoReplyDict == old(maxConsecutiveAutoReplyDict)[sender.value := r]
    {
      if sender.None? {
        r := maxConsecutiveAutoReply;
      } else {
        if sender.value !in maxConsecutiveAutoReplyDict {
          maxConsecutiveAutoReplyDict := maxConsecutiveAutoReplyDict[sender.value := maxConsecutiveAutoReply];
        }
        r := maxConsecutiveAutoReplyDict[sender.value];
      }
    }

    /** `last_message`. Without an agent it counts every conversation, those
        opened under a name string included. */
    method LastMessage(agent: Option<ConversableAgent>) returns (r: Result<Option<Message>>)
      ensures agent.None? && |messages| + |nameKeys| == 0 ==> r == Ok(None)
      ensures agent.None? && |messages| == 1 && |nameKeys| == 0 ==> forall k :: k in messages ==> r == LastOf(messages[k])
      ensures agent.None? && |messages| == 0 && |nameKeys| == 1 ==> r == Err(IndexError)
      ensures agent.None? && |messages| + |nameKeys| > 1 ==> r == Err(ValueError)
      ensures agent.Some? && agent.value !in messages ==> r == Err(KeyError)
      ensures agent.Some? && agent.value in messages ==> r == LastOf(messages[agent.value])
    {
      if agent.None? {
        var n := |messages| + |nameKeys|;
        if n == 0 {
          return Ok(None);
        }
        if n == 1 && |nameKeys| == 1 {
          return Err(IndexError);
        }
        if n == 1 {
          var k :| k in messages;
          forall k' | k' in messages ensures k' == k {
            SingleKey(messages, k, k');
          }
          var conversation := messages[k];
          if |conversation| == 0 {
            return Err(IndexError);
          }
          return Ok(Some(conversation[|conversation| - 1]));
        }
        return Err(ValueError);
      }
      if agent.value !in messages {
        return Err(KeyError);
      }
      var conversation := messages[agent.value];
      if |conversation| == 0 {
        return Err(IndexError);
      }
      r := Ok(Some(conversation[|conversation| - 1]));
    }

    /** `_append_message`: store the normalised message at the end of the
        history with `conversation` and return true, or return false or raise,
        storing nothing. */
    method AppendMessage(message: RawMessage, role: string, conversation: ConversableAgent) returns (r: Result<bool>)
      requires Valid()
      modifies this`messages
      ensures Valid()
      ensures r == Ok(true) <==> Normalize(message, role).Stored?
      ensures r == Ok(false) <==> Normalize(message, role).Rejected?
      ensures r.Err? ==> Normalize(message, role) == Raises(r.error)
      ensures !Normalize(message, role).Stored? ==> messages == old(messages)
      ensures Normalize(message, role).Stored? ==>
        messages == old(messages)[conversation := History(old(messages), conversation) + [Normalize(message, role).value]]
    {
      var stored := Normalize(message, role);
      if stored.Rejected? {
        return Ok(false);
      }
      if stored.Raises? {
        return Err(stored.error);
      }
      messages := messages[conversation := History(messages, conversation) + [stored.value]];
      r := Ok(true);
    }

    /** `clear_history`: all histories, those opened under a name included, or
        the one with `agent` (which is then present and empty). */
    method ClearHistory(agent: Option<ConversableAgent>)
      requires Valid()
      modifies this`messages, this`nameKeys
      ensures Valid()
      ensures agent.None? ==> messages == map[] && nameKeys == {}
      ensures agent.Some? ==> messages == old(messages)[agent.value := []] && nameKeys == old(nameKeys)
    {
      if agent.None? {
        messages := map[];
        nameKeys := {};
      } else {
        messages := messages[agent.value := []];
      }
    }

    /** `reset_consecutive_auto_reply_counter`. */
    method ResetConsecutiveAutoReplyCounter(sender: Option<ConversableAgent>)
      modifies this`consecutiveAutoReplyCounter
      ensures sender.None? ==> consecutiveAutoReplyCounter == map[]
      ensures sender.Some? ==> consecutiveAutoReplyCounter == old(consecutiveAutoReplyCounter)[sender.value := 0]
    {
      if sender.None? {
        consecutiveAutoReplyCounter := map[];
      } else {
        consecutiveAutoReplyCounter := consecutiveAutoReplyCounter[sender.value := 0];
      }
    }

    /** `stop_reply_at_receive`. */
    method StopReplyAtReceive(sender: Option<ConversableAgent>)
      modifies this`replyAtReceive
      ensures sender.None? ==> replyAtReceive == map[]
      ensures sender.Some? ==> replyAtReceive == old(replyAtReceive)[sender.value := false]
    {
      if sender.None? {
        replyAtReceive := map[];
      } else {
        replyAtReceive := replyAtReceive[sender.value := false];
      }
    }

    /** `reset`: clear histories, counters and reply flags, and restore every
        entry's config through its hook, or from its initial config. */
    method Reset(resetHook: (nat, Config) -> Config)
      requires Valid()
      modifies this`messages, this`nameKeys, this`consecutiveAutoReplyCounter, this`replyAtReceive, this`replyFuncList
      ensures Valid()
      ensures messages == map[] && nameKeys == {} && consecutiveAutoReplyCounter == map[] && replyAtReceive == map[]
      ensures |replyFuncList| == |old(replyFuncList)|
      ensures forall i :: 0 <= i < |replyFuncList| ==> replyFuncList[i] == ResetEntry(old(replyFuncList)[i], resetHook)
    {
      ClearHistory(None);
      ResetConsecutiveAutoReplyCounter(None);
      StopReplyAtReceive(None);
      var i := 0;
      while i < |replyFuncList|
        invariant 0 <= i <= |replyFuncList| == |old(replyFuncList)|
        invariant forall j :: 0 <= j < i ==> replyFuncList[j] == ResetEntry(old(replyFuncList)[j], resetHook)
        invariant forall j :: i <= j < |replyFuncList| ==> replyFuncList[j] == old(replyFuncList)[j]
        invariant messages == map[] && nameKeys == {} && consecutiveAutoReplyCounter == map[] && replyAtReceive == map[]
      {
        var entry := replyFuncList[i];
        if entry.resetConfig.Some? {
          replyFuncList := replyFuncList[i := entry.(config := resetHook(entry.resetConfig.value, entry.config))];
        } else {
          replyFuncList := replyFuncList[i := entry.(config := entry.initConfig)];
        }
        i := i + 1;
      }
    }

    /** `_prepare_chat`: both sides reset their counter for the other, set their
        reply flag for the other and, if asked, clear their history with it. */
    method PrepareChat(recipient: ConversableAgent, clearHistory: bool)
      requires Valid() && recipient.Valid()
      modifies this`consecutiveAutoReplyCounter, this`replyAtReceive, this`messages, this`nameKeys
      modifies recipient`consecutiveAutoReplyCounter, recipient`replyAtReceive, recipient`messages, recipient`nameKeys
      ensures Valid() && recipient.Valid()
      ensures nameKeys == old(nameKeys) && recipient.nameKeys == old(recipient.nameKeys)
      ensures consecutiveAutoReplyCounter == old(consecutiveAutoReplyCounter)[recipient := 0]
      ensures recipient.consecutiveAutoReplyCounter == old(recipient.consecutiveAutoReplyCounter)[this := 0]
      ensures replyAtReceive == old(replyAtReceive)[recipient := true]
      ensures recipient.replyAtReceive == old(recipient.replyAtReceive)[this := true]
      ensures clearHistory ==> messages == old(messages)[recipient := []]
      ensures clearHistory ==> recipient.messages == old(recipient.messages)[this := []]
      ensures !clearHistory ==> messages == old(messages) && recipient.messages == old(recipient.messages)
    {
      PrepareSide(recipient, clearHistory);
      recipient.PrepareSide(this, clearHistory);
    }

    /** One side of `_prepare_chat`: reset the counter for `other`, set the
        reply flag for `other` and, if asked, clear the history with `other`. */
    method PrepareSide(other: ConversableAgent, clearHistory: bool)
      requires Valid()
      modifies this`consecutiveAutoReplyCounter, this`replyAtReceive, this`messages, this`nameKeys
      ensures Valid()
      ensures nameKeys == old(nameKeys)
      ensures consecutiveAutoReplyCounter == old(consecutiveAutoReplyCounter)[other := 0]
      ensures replyAtReceive == old(replyAtReceive)[other := true]
      ensures messages == if clearHistory then old(messages)[other := []] else old(messages)
    {
      ResetConsecutiveAutoReplyCounter(Some(other));
      replyAtReceive := replyAtReceive[other := true];
      if clearHistory {
        ClearHistory(Some(other));
      }
    }

    /** `generate_reply`: dispatch over the given messages, or over the
        sender's history, which the defaultdict read opens when it is missing.
        `invoked` lists the entries whose handler was called, in order. */
    method GenerateReply(msgs: Option<seq<Message>>, sender: Option<ConversableAgent>,
                         exclude: set<Handler>, call: ReplyOracle)
      returns (r: Result<Reply>, invoked: seq<nat>)
      requires Valid()
      modifies this`messages
      ensures Valid()
      ensures msgs.None? && sender.None? ==> r == Err(AssertionError) && messages == old(messages) && invoked == []
      ensures msgs.Some? ==> messages == old(messages)
      ensures msgs.None? && sender.Some? ==>
        messages == old(messages)[sender.value := History(old(messages), sender.value)]
      ensures msgs.Some? || sender.Some? ==>
        var hist := if msgs.Some? then msgs.value else History(old(messages), sender.value);
        var i := FirstConclusive(replyFuncList, hist, sender, exclude, call);
        && r == Ok(DispatchReply(replyFuncList, hist, sender, exclude, call, defaultAutoReply))
        && invoked == EligibleIndices(replyFuncList, exclude, Min(i + 1, |replyFuncList|))
    {
      if msgs.None? && sender.None? {
        return Err(AssertionError), [];
      }
      var hist: seq<Message>;
      if msgs.None? {
        hist := History(messages, sender.value);
        messages := messages[sender.value := hist];
      } else {
        hist := msgs.value;
      }
      var reply;
      reply, invoked := Dispatch(replyFuncList, hist, sender, exclude, call, defaultAutoReply);
      r := Ok(reply);
    }

    /** `send`: store the message as "assistant" in the history with
        `recipient`, then have the recipient receive it. A message that is not
        stored raises and changes nothing. `generated` is the reply the
        recipient generated, if it generated one. */
    method Send(message: RawMessage, recipient: ConversableAgent, requestReply: Option<bool>,
                call: ReplyOracle, depth: nat)
      returns (outcome: Outcome, generated: Option<Reply>)
      requires Valid() && recipient.Valid()
      modifies this`messages, this`replyAtReceive, recipient`messages, recipient`replyAtReceive
      decreases depth, 3
      ensures Valid() && recipient.Valid()
      ensures Follows(old(State()), State()) && Follows(old(recipient.State()), recipient.State())
      ensures !Normalize(message, Assistant).Stored? ==>
        && outcome == Raised(AppendError(Normalize(message, Assistant))) && generated.None?
        && State() == old(State()) && recipient.State() == old(recipient.State())
      ensures Normalize(message, Assistant).Stored? ==>
        var sent, received := Normalize(message, Assistant).value, Normalize(message, User).value;
        var before := if recipient == this then old(History(messages, this)) + [sent]
                      else old(History(recipient.messages, this));
        && StartsWith(messages, recipient, old(History(messages, recipient)) + [sent])
        && StartsWith(recipient.messages, this, before + [received])
        && (generated.Some? <==> ReplyGateOpen(requestReply, old(recipient.replyAtReceive), this))
        && (generated.Some? ==>
              generated.value == DispatchReply(recipient.replyFuncList, before + [received], Some(this), {}, call,
                                               recipient.defaultAutoReply))
      ensures Normalize(message, Assistant).Stored? && (generated.None? || generated == Some(NoReply) || depth == 0) ==>
        var sent, received := Normalize(message, Assistant).value, Normalize(message, User).value;
        var before := if recipient == this then old(History(messages, this)) + [sent]
                      else old(History(recipient.messages, this));
        var delivered := if recipient == this then old(messages)[this := before] else old(recipient.messages);
        && outcome == (if generated.None? || generated == Some(NoReply) then Completed else DepthExhausted)
        && recipient.messages == delivered[this := before + [received]]
        && recipient.replyAtReceive == FlagsAfterGate(old(recipient.replyAtReceive), requestReply, this)
        && (recipient != this ==>
              messages == old(messages)[recipient := old(History(messages, recipient)) + [sent]]
              && replyAtReceive == old(replyAtReceive))
      ensures Normalize(message, Assistant).Stored? && generated.Some? && generated.value != NoReply && depth > 0 ==>
        var sent, received := Normalize(message, Assistant).value, Normalize(message, User).value;
        var before := if recipient == this then old(History(messages, this)) + [sent]
                      else old(History(recipient.messages, this));
        var reply := Normalize(ReplyToRaw(generated.value), Assistant);
        && (!reply.Stored? ==> outcome == Raised(AppendError(reply)))
        && (reply.Stored? ==> StartsWith(recipient.messages, this, before + [received, reply.value]))
    {
      ghost var s0, r0 := State(), recipient.State();
      var appended := AppendMessage(message, Assistant, recipient);
      if appended.Err? {
        return Raised(appended.error), None;
      }
      if !appended.value {
        return Raised(ValueError), None;
      }
      ghost var s1 := State();
      assert Follows(s0, s1);
      ghost var sent := Normalize(message, Assistant).value;
      ghost var before := if recipient == this then old(History(messages, this)) + [sent]
                          else old(History(recipient.messages, this));
      assert History(recipient.messages, this) == before;
      assert recipient.replyAtReceive == old(recipient.replyAtReceive);
      ValidityIgnoresRole(message, Assistant, User);
      outcome, generated := recipient.Receive(message, this, requestReply, call, depth);
      FollowsTransitive(s0, s1, State());
      assert StartsWith(s1.messages, recipient, old(History(messages, recipient)) + [sent]);
    }

    /** `_process_received_message` followed by the reply gate of `receive`:
        store the message as "user" in the history with `sender`, then read the
        gate. A message that is not stored raises (ValueError when the append
        returns False) and changes nothing. On success the result says whether
        the gate is open. */
    method Admit(message: RawMessage, sender: ConversableAgent, requestReply: Option<bool>)
      returns (r: Result<bool>)
      requires Valid()
      modifies this`messages, this`replyAtReceive
      ensures Valid()
      ensures !Normalize(message, User).Stored? ==>
        && r == Err(AppendError(Normalize(message, User)))
        && messages == old(messages) && replyAtReceive == old(replyAtReceive)
      ensures Normalize(message, User).Stored? ==>
        && r == Ok(ReplyGateOpen(requestReply, old(replyAtReceive), sender))
        && messages == old(messages)[sender := History(old(messages), sender) + [Normalize(message, User).value]]
        && replyAtReceive == FlagsAfterGate(old(replyAtReceive), requestReply, sender)
    {
      var appended := AppendMessage(message, User, sender);
      if appended.Err? {
        return Err(appended.error);
      }
      if !appended.value {
        return Err(ValueError);
      }
      var open := requestReply == Some(true);
      if requestReply.None? {
        if sender !in replyAtReceive {
          replyAtReceive := replyAtReceive[sender := false];
        }
        open := replyAtReceive[sender];
      }
      r := Ok(open);
    }

    /** `receive`: store the message as "user" in the history with `sender`;
        unless the reply gate is closed, generate a reply from the whole history
        and send any reply other than None back. `generated` is the reply that
        was generated, if one was. The recursion is cut after `depth` round trips. */
    method Receive(message: RawMessage, sender: ConversableAgent, requestReply: Option<bool>,
                   call: ReplyOracle, depth: nat)
      returns (outcome: Outcome, generated: Option<Reply>)
      requires Valid() && sender.Valid()
      modifies this`messages, this`replyAtReceive, sender`messages, sender`replyAtReceive
      decreases depth, 2
      ensures Valid() && sender.Valid()
      ensures Follows(old(State()), State()) && Follows(old(sender.State()), sender.State())
      ensures !Normalize(message, User).Stored? ==>
        && outcome == Raised(AppendError(Normalize(message, User))) && generated.None?
        && State() == old(State()) && sender.State() == old(sender.State())
      ensures Normalize(message, User).Stored? ==>
        var n := Normalize(message, User).value;
        && StartsWith(messages, sender, old(History(messages, sender)) + [n])
        && (generated.Some? <==> ReplyGateOpen(requestReply, old(replyAtReceive), sender))
        && (generated.Some? ==>
              generated.value == DispatchReply(old(replyFuncList), old(History(messages, sender)) + [n],
                                               Some(sender), {}, call, defaultAutoReply))
      ensures Normalize(message, User).Stored? && (generated.None? || generated == Some(NoReply) || depth == 0) ==>
        && outcome == (if generated.None? || generated == Some(NoReply) then Completed else DepthExhausted)
        && messages == old(messages)[sender := old(History(messages, sender)) + [Normalize(message, User).value]]
        && replyAtReceive == FlagsAfterGate(old(replyAtReceive), requestReply, sender)
        && (sender != this ==> sender.State() == old(sender.State()))
      ensures Normalize(message, User).Stored? && generated.Some? && generated.value != NoReply && depth > 0 ==>
        var reply := Normalize(ReplyToRaw(generated.value), Assistant);
        && (!reply.Stored? ==> outcome == Raised(AppendError(reply)))
        && (reply.Stored? ==>
              StartsWith(messages, sender, old(History(messages, sender)) + [Normalize(message, User).value, reply.value]))
    {
      ghost var s0 := State();
      ghost var h0 := History(messages, sender);
      var admitted := Admit(message, sender, requestReply);
      if admitted.Err? {
        return Raised(admitted.error), None;
      }
      ghost var n := Normalize(message, User).value;
      ghost var s1 := State();
      assert Follows(s0, s1);
      outcome, generated := Respond(admitted.value, sender, call, depth);
      FollowsTransitive(s0, s1, State());
      if generated.Some? && generated.value != NoReply && Normalize(ReplyToRaw(generated.value), Assistant).Stored? {
        ghost var back := Normalize(ReplyToRaw(generated.value), Assistant).value;
        assert (h0 + [n]) + [back] == h0 + [n, back];
      }
    }

    /** The tail of `receive`, once the message is stored: if the reply gate
        is `open`, generate a reply from the whole history with `recipient` and
        send any reply other than None back, unless the round trips allowed are
        used up. */
    method Respond(open: bool, recipient: ConversableAgent, call: ReplyOracle, depth: nat)
      returns (outcome: Outcome, generated: Option<Reply>)
      requires Valid() && recipient.Valid() && recipient in messages
      modifies this`messages, this`replyAtReceive, recipient`messages, recipient`replyAtReceive
      decreases depth, 1
      ensures Valid() && recipient.Valid()
      ensures Follows(old(State()), State()) && Follows(old(recipient.State()), recipient.State())
      ensures generated.Some? <==> open
      ensures generated.Some? ==>
        generated.value == DispatchReply(replyFuncList, old(messages[recipient]), Some(recipient), {}, call, defaultAutoReply)
      ensures generated.None? || generated == Some(NoReply) || depth == 0 ==>
        && outcome == (if generated.None? || generated == Some(NoReply) then Completed else DepthExhausted)
        && State() == old(State()) && recipient.State() == old(recipient.State())
      ensures generated.Some? && generated.value != NoReply && depth > 0 ==>
        var reply := Normalize(ReplyToRaw(generated.value), Assistant);
        && (!reply.Stored? ==> outcome == Raised(AppendError(reply)))
        && (reply.Stored? ==> StartsWith(messages, recipient, old(messages[recipient]) + [reply.value]))
    {
      if !open {
        return Completed, None;
      }
      var r, _ := GenerateReply(Some(messages[recipient]), Some(recipient), {}, call);
      var reply := r.value;
      generated := Some(reply);
      if reply == NoReply {
        return Completed, generated;
      }
      if depth == 0 {
        return DepthExhausted, generated;
      }
      var answered;
      outcome, answered := Send(ReplyToRaw(reply), recipient, None, call, depth - 1);
    }

    /** `initiate_chat` with the base `generate_init_message`: prepare both
        sides, then send `context["message"]` (KeyError when the context has
        none). Preparing sets the recipient's reply flag, so a stored message
        is always answered. `generated` is the recipient's reply, if any. */
    method InitiateChat(recipient: ConversableAgent, clearHistory: bool, contextMessage: Option<RawMessage>,
                        call: ReplyOracle, depth: nat)
      returns (outcome: Outcome, generated: Option<Reply>)
      requires Valid() && recipient.Valid()
      modifies this`consecutiveAutoReplyCounter, this`replyAtReceive, this`messages, this`nameKeys
      modifies recipient`consecutiveAutoReplyCounter, recipient`replyAtReceive, recipient`messages, recipient`nameKeys
      ensures Valid() && recipient.Valid()
      ensures replyFuncList == old(replyFuncList) && recipient.replyFuncList == old(recipient.replyFuncList)
      ensures nameKeys == old(nameKeys) && recipient.nameKeys == old(recipient.nameKeys)
      ensures consecutiveAutoReplyCounter == old(consecutiveAutoReplyCounter)[recipient := 0]
      ensures recipient.consecutiveAutoReplyCounter == old(recipient.consecutiveAutoReplyCounter)[this := 0]
      ensures FlagOf(replyAtReceive, recipient) && FlagOf(recipient.replyAtReceive, this)
      ensures contextMessage.None? || !Normalize(contextMessage.value, Assistant).Stored? ==>
        && outcome == Raised(if contextMessage.None? then KeyError else AppendError(Normalize(contextMessage.value, Assistant)))
        && generated.None?
        && messages == ClearedFor(old(messages), clearHistory, recipient)
        && (recipient != this ==> recipient.messages == ClearedFor(old(recipient.messages), clearHistory, this))
      ensures contextMessage.Some? && Normalize(contextMessage.value, Assistant).Stored? ==>
        var sent, received := Normalize(contextMessage.value, Assistant).value, Normalize(contextMessage.value, User).value;
        var prepared := ClearedFor(old(messages), clearHistory, recipient);
        var before := if recipient == this then History(prepared, this) + [sent]
                      else History(ClearedFor(old(recipient.messages), clearHistory, this), this);
        && StartsWith(messages, recipient, History(prepared, recipient) + [sent])
        && StartsWith(recipient.messages, this, before + [received])
        && generated == Some(DispatchReply(recipient.replyFuncList, before + [received], Some(this), {}, call,
                                           recipient.defaultAutoReply))
      ensures contextMessage.Some? && Normalize(contextMessage.value, Assistant).Stored? &&
              (generated == Some(NoReply) || depth == 0) ==>
        var sent, received := Normalize(contextMessage.value, Assistant).value, Normalize(contextMessage.value, User).value;
        var prepared := ClearedFor(old(messages), clearHistory, recipient);
        var recipientPrepared := if recipient == this then prepared[this := History(prepared, this) + [sent]]
                                 else ClearedFor(old(recipient.messages), clearHistory, this);
        && outcome == (if generated == Some(NoReply) then Completed else DepthExhausted)
        && recipient.messages == recipientPrepared[this := History(recipientPrepared, this) + [received]]
        && (recipient != this ==> messages == prepared[recipient := History(prepared, recipient) + [sent]])
      ensures contextMessage.Some? && Normalize(contextMessage.value, Assistant).Stored? &&
              generated.Some? && generated.value != NoReply && depth > 0 ==>
        var sent, received := Normalize(contextMessage.value, Assistant).value, Normalize(contextMessage.value, User).value;
        var prepared := ClearedFor(old(messages), clearHistory, recipient);
        var before := if recipient == this then History(prepared, this) + [sent]
                      else History(ClearedFor(old(recipient.messages), clearHistory, this), this);
        var reply := Normalize(ReplyToRaw(generated.value), Assistant);
        && (!reply.Stored? ==> outcome == Raised(AppendError(reply)))
        && (reply.Stored? ==> StartsWith(recipient.messages, this, before + [received, reply.value]))
    {
      PrepareChat(recipient, clearHistory);
      if contextMessage.None? {
        return Raised(KeyError), None;
      }
      ghost var s1, r1 := State(), recipient.State();
      assert messages == ClearedFor(old(messages), clearHistory, recipient);
      assert recipient != this ==> recipient.messages == ClearedFor(old(recipient.messages), clearHistory, this);
      assert ReplyGateOpen(None, recipient.replyAtReceive, this);
      assert FlagsAfterGate(recipient.replyAtReceive, None, this) == recipient.replyAtReceive;
      outcome, generated := Send(contextMessage.value, recipient, None, call, depth);
      assert FlagOf(replyAtReceive, recipient) by { assert recipient in s1.replyAtReceive; }
      assert FlagOf(recipient.replyAtReceive, this) by { assert this in r1.replyAtReceive; }
    }
  }
}
