# byzer-llm agents: conversation, code sandbox and retrieval core in Dafny

This project models three parts of the byzer-llm agent framework (Python) and
proves properties of the model.

- **ConversableAgent** (`conversable_agent.dfy`, `messages.dfy`). An agent keeps:
  - one message history per counterpart;
  - an ordered list of reply functions;
  - per-counterpart auto-reply counters, maxima and `reply_at_receive` flags.

  Messages are normalised before they are stored. `generate_reply` walks the
  reply list and returns the reply of the first handler that answers with
  `final` true. `send` and `receive` store a message on both sides and, when the
  reply gate is open, answer it. The agent is a Dafny class whose map and
  sequence fields the methods update in place. `send` and `receive` call each
  other across two agent objects. The handlers are an oracle that returns
  `(final, reply)`.
- **PythonSandboxAgent** (`python_codesandbox_agent.dfy`). This agent keeps a
  pool of named sandboxes with last-use timestamps. Sandboxes idle for more than
  the timeout are evicted. Its code handler scans the newest messages for Python
  blocks and runs the first ones it finds. Its own `generate_reply` loop does not
  skip coroutine handlers. `CodeSandbox` holds a variable map.
- **RetrievalAgent** (`retrieval_agent.dfy`, `retrieval_memory.dfy`). The
  retrieval reply asks the LLM about the latest message with one retrieved chunk
  after another. It stops at the first response without the "UPDATE CONTEXT"
  marker in its first or last 20 characters, or when the retry or chunk bound is
  reached. The post-processing of memory queries is also modelled: cut and
  stable sort (`get_conversations`), and filter and cut (`search_memory`).

Shared pieces:
- `wrappers.dfy` holds Option, Result and the Python exceptions raised.
- `util.dfy` holds first-match search and Python's slice and `list.insert`
  index rules.

The clock, the LLM, code extraction and code execution are parameters:
- the current time is an `int`;
- the LLM is a function from prompt to response;
- `extract_code` and the sandbox run are functions.

Counterparts are agent objects, used as map keys.

## Model

| member | source | states |
|---|---|---|
| `Messages.Normalize` | src/byzerllm/apps/agent/conversable_agent.py:227-240 | Rejects the message exactly when it has neither content nor function_call. It raises TypeError exactly when the message is accepted but its function_call is None, because `dict(None)` fails. Otherwise the stored message keeps function_call, name and context, and a missing content becomes None. Its role is "assistant" with a function call, "function" when the message says so, and the role argument otherwise. The result is well formed. |
| `Messages.MessageToDict` | src/byzerllm/apps/agent/conversable_agent.py:198-207 | A dict is returned as it is. A string becomes a message whose content is that string and which has no function_call, so it is always accepted. |
| `Messages.ConvertedTwice` | src/byzerllm/apps/agent/conversable_agent.py:325-328 | Converting a message to a dict before the append, as `_process_received_message` does, gives the same outcome as appending it directly. |
| `Messages.ValidityIgnoresRole` | src/byzerllm/apps/agent/conversable_agent.py:229-234 | Whether a message is accepted does not depend on the role argument, so `send` and `receive` accept the same messages. |
| `Messages.TextIsStoredAsContent` | src/byzerllm/apps/agent/conversable_agent.py:204-205 | A plain string is stored as `{"content": s, "role": role}`. |
| `Messages.NormalizeIdempotent` | src/byzerllm/apps/agent/conversable_agent.py:229-239 | Normalising an already stored message again, with the same role argument, gives the same message. |
| `ConversableAgents.ConversableAgent.constructor` | src/byzerllm/apps/agent/conversable_agent.py:44-63 | Histories, counters, maxima and flags start empty, and no history is open under a name. The default maximum is the argument, or else `MAX_CONSECUTIVE_AUTO_REPLY`. That attribute is not defined in the modelled files, so the model takes it as a parameter. The reply list holds exactly the LLM handler with triggers `[Agent, None]`. |
| `ConversableAgents.ConversableAgent.RegisterReply` | src/byzerllm/apps/agent/conversable_agent.py:126-135 | The new list is the old one with the entry inserted at `position` by Python's `list.insert` rule. The entry's config and initial config are both the given config. |
| `Util.InsertAt` | src/byzerllm/apps/agent/conversable_agent.py:126 | `list.insert`: the list grows by one and the element lands at the clamped or end-relative index. The elements before it are unchanged and the rest shift by one. The multiset grows by the element. |
| `Util.InsertAtFrontTwice` | src/byzerllm/apps/agent/conversable_agent.py:126-135 | Two registrations at the default position 0 leave the later one first. |
| `ConversableAgents.ConversableAgent.UpdateMaxConsecutiveAutoReply` | src/byzerllm/apps/agent/conversable_agent.py:150-162 | Without a sender, the default and every stored per-counterpart maximum become the value, so every counterpart's effective maximum is the value. With a sender, only that counterpart's maximum changes. |
| `ConversableAgents.ConversableAgent.MaxConsecutiveAutoReply` | src/byzerllm/apps/agent/conversable_agent.py:164-166 | Returns the default, or the sender's effective maximum. A sender without a maximum gets the default stored for it, as the defaultdict read does. |
| `ConversableAgents.ConversableAgent.LastMessage` | src/byzerllm/apps/agent/conversable_agent.py:184-196 | Without an agent, counting the histories opened under a name too: None with no history, ValueError with more than one, and with exactly one its last message. That last case raises IndexError when the one history is empty, which a history opened under a name always is. With an agent: KeyError when it has no history, IndexError when its history is empty, otherwise its last message. |
| `ConversableAgents.ConversableAgent.AppendMessage` | src/byzerllm/apps/agent/conversable_agent.py:211-241 | Returns True exactly when the message normalises and False exactly when it is rejected. It raises exactly the error the normalisation raises. Unless it returns True, the histories are unchanged. On True exactly one message, the normalised one, is appended to that counterpart's history, and every other history is unchanged. |
| `ConversableAgents.ConversableAgent.ClearHistory` | src/byzerllm/apps/agent/conversable_agent.py:269-279 | Clears all histories, including those opened under a name. Or it leaves the given counterpart with an empty history, every other history unchanged. |
| `ConversableAgents.ConversableAgent.ResetConsecutiveAutoReplyCounter` | src/byzerllm/apps/agent/conversable_agent.py:262-267 | Empties all counters, or sets the sender's counter to 0. |
| `ConversableAgents.ConversableAgent.StopReplyAtReceive` | src/byzerllm/apps/agent/conversable_agent.py:255-260 | Empties all reply flags, or sets the sender's flag to false. |
| `ConversableAgents.ConversableAgent.Reset` | src/byzerllm/apps/agent/conversable_agent.py:244-253 | Histories, counters and reply flags are empty afterwards. Each reply entry's config comes from its reset hook if it has one, otherwise it is a copy of the initial config. The list keeps its length and order. |
| `ConversableAgents.ConversableAgent.PrepareChat` | src/byzerllm/apps/agent/conversable_agent.py:281-287 | Both sides reset their counter for the other and set their reply flag for the other to true. When asked, both clear their history with the other. |
| `ConversableAgents.ConversableAgent.PrepareSide` | src/byzerllm/apps/agent/conversable_agent.py:282-287 | One side of `_prepare_chat`: the counter and the flag for the other side, and the optional clearing, each stated as the exact new map. |
| `ConversableAgents.EligibleIndices` | src/byzerllm/apps/agent/conversable_agent.py:365-371 | Lists, in increasing order, exactly the entries that are neither excluded nor coroutines. |
| `ConversableAgents.FirstConclusive` | src/byzerllm/apps/agent/conversable_agent.py:365-373 | The first entry that is called and answers with `final` true. No earlier entry does. |
| `ConversableAgents.DispatchReply` | src/byzerllm/apps/agent/conversable_agent.py:365-375 | When no entry concludes, the result is the default auto-reply. Otherwise it is the reply that some concluding entry returns. |
| `ConversableAgents.DispatchReplyIsFirst` | src/byzerllm/apps/agent/conversable_agent.py:365-373 | When entry `j` concludes and no earlier entry does, the dispatch returns entry `j`'s reply. |
| `ConversableAgents.Dispatch` | src/byzerllm/apps/agent/conversable_agent.py:365-375 | The dispatch loop returns the dispatch result. The handlers it calls are exactly the eligible entries up to and including the first concluding one, in order. |
| `ConversableAgents.ReplyGateOpen` | src/byzerllm/apps/agent/conversable_agent.py:345 | With request_reply given, the gate is open exactly when it is True. With None, the gate is open exactly when the sender's flag is present and set. |
| `ConversableAgents.ConversableAgent.GenerateReply` | src/byzerllm/apps/agent/conversable_agent.py:357-375 | Raises AssertionError without messages and sender. Otherwise it uses the given messages or the sender's history, which the defaultdict read opens. It returns the first conclusive handler's reply, or the default auto-reply. The handlers called are exactly the eligible ones up to and including that handler, in order. |
| `ConversableAgents.ConversableAgent.Send` | src/byzerllm/apps/agent/conversable_agent.py:307-323 | A message that is rejected raises ValueError, and one whose function_call is None raises TypeError. Either way nothing changes. A stored message goes as "assistant" at the end of the history with the recipient, and as "user" at the end of the recipient's history. A reply is generated exactly when the recipient's gate is open, and it is the dispatch result over the recipient's history including the message. After a closed gate or a None reply, both histories and the recipient's flags are stated exactly. Any other reply is sent back and follows the message. Both agents' histories only grow, and their reply flags only gain false defaults. |
| `ConversableAgents.ConversableAgent.Admit` | src/byzerllm/apps/agent/conversable_agent.py:325-346 | Stores the message as "user" and reports whether the gate is open. Or it raises (ValueError when the append returns False), and then nothing changes. The new histories are stated exactly. The reply flags gain a false flag for the sender exactly when request_reply is None and the sender had none. |
| `ConversableAgents.ConversableAgent.Receive` | src/byzerllm/apps/agent/conversable_agent.py:336-349 | A message that is rejected raises ValueError, and one whose function_call is None raises TypeError. Either way nothing changes. A stored message is appended to the sender's history. A reply is generated exactly when the gate is open, and it is the dispatch result over the history including the new message. A None reply or a closed gate ends the exchange, with the histories and flags stated exactly. Any other reply is sent back and follows the message in the history. |
| `ConversableAgents.ConversableAgent.Respond` | src/byzerllm/apps/agent/conversable_agent.py:347-349 | With the gate open it generates the dispatch reply from the stored history and sends back any reply other than None. Otherwise it changes nothing. |
| `ConversableAgents.ConversableAgent.InitiateChat` | src/byzerllm/apps/agent/conversable_agent.py:281-305 | Both counters for the other side become 0, both reply flags for the other side end set, and the reply lists are unchanged. A context without "message" raises KeyError after the preparation. A message that is not stored raises, leaving the prepared histories. Otherwise the message follows the prepared history on both sides (empty when cleared, kept otherwise). The recipient always answers with the dispatch result over its history. When the exchange ends there, both histories are stated exactly. |
| `PythonSandbox.CodeSandbox.constructor` | src/byzerllm/apps/agent/extensions/python_codesandbox_agent.py:18-21 | A new sandbox has the given file path and reference and no variables. |
| `PythonSandbox.CodeSandbox.GetValue` | src/byzerllm/apps/agent/extensions/python_codesandbox_agent.py:34-37 | None exactly for a name never set, otherwise the stored value. |
| `PythonSandbox.CodeSandbox.SetValue` | src/byzerllm/apps/agent/extensions/python_codesandbox_agent.py:30-32 | Afterwards the name reads back the value and every other name reads as before. Returns the sandbox itself. |
| `PythonSandbox.PythonSandboxAgent.constructor` | src/byzerllm/apps/agent/extensions/python_codesandbox_agent.py:86-104 | Models the intended binding of the base-constructor call, in which the agent's name is the name argument. Both pool maps start empty. The reply list is exactly [termination handler, code handler], because both are inserted at the front. A missing execution config is the default `{}`. |
| `PythonSandbox.SuperCallAsWrittenMisbinds` | src/byzerllm/apps/agent/extensions/python_codesandbox_agent.py:86-95 | As written, the positional call binds the base class's `llm` to the name string, `retrieval` to the LLM client and `name` to the retrieval client. |
| `PythonSandbox.SuperCallIntendedBinds` | src/byzerllm/apps/agent/extensions/python_codesandbox_agent.py:86-95 | In the base class's order `(llm, retrieval, name)`, each argument reaches the parameter of its own kind. |
| `PythonSandbox.PythonSandboxAgent.CheckSandboxExists` | src/byzerllm/apps/agent/extensions/python_codesandbox_agent.py:190-191 | While the pool invariant holds, a name has a sandbox exactly when it has a timestamp. |
| `PythonSandbox.PythonSandboxAgent.CheckSandboxTimeout` | src/byzerllm/apps/agent/extensions/python_codesandbox_agent.py:181-188 | Removes exactly the names whose age is strictly greater than the timeout, from both maps. The other entries keep their values, and the same-keys invariant is preserved. |
| `PythonSandbox.PythonSandboxAgent.GetSandbox` | src/byzerllm/apps/agent/extensions/python_codesandbox_agent.py:193-195 | Evicts the stale sandboxes with the default timeout, then returns the named sandbox, or KeyError when it has none. |
| `PythonSandbox.PythonSandboxAgent.ForceClear` | src/byzerllm/apps/agent/extensions/python_codesandbox_agent.py:197-199 | Both maps become empty. |
| `PythonSandbox.PythonSandboxAgent.GetOrCreateSandbox` | src/byzerllm/apps/agent/extensions/python_codesandbox_agent.py:201-215 | The name is stamped before eviction, so it is never evicted by this call. Returns the existing sandbox, or a fresh empty one that it stores. Both maps are stated exactly, and the invariant is kept. |
| `PythonSandbox.Window` | src/byzerllm/apps/agent/extensions/python_codesandbox_agent.py:153 | The scan looks at `min(len(messages), last_n_messages)` messages, and at none for a negative count. |
| `PythonSandbox.FirstStop` | src/byzerllm/apps/agent/extensions/python_codesandbox_agent.py:153-159 | The newest-first offset of the first message that has no content key or has code. Every newer message in the window is skipped, being empty or a single unknown block. |
| `PythonSandbox.PythonCodes` | src/byzerllm/apps/agent/extensions/python_codesandbox_agent.py:163 | Holds the code of every Python block, and only such code, with none for no blocks. |
| `PythonSandbox.PythonCodesSnoc` | src/byzerllm/apps/agent/extensions/python_codesandbox_agent.py:163 | One more block extends the result at the end, by its code exactly when it is a Python block. With the empty case, this fixes the result as the Python codes in block order. |
| `PythonSandbox.JoinLines` | src/byzerllm/apps/agent/extensions/python_codesandbox_agent.py:164 | `"\n".join`: empty for no codes. Otherwise it starts with the first code, and its length is the codes' total length plus one newline between each two. |
| `PythonSandbox.JoinLinesSnoc` | src/byzerllm/apps/agent/extensions/python_codesandbox_agent.py:164 | Joining one more code appends a newline and that code. |
| `PythonSandbox.ExecutionOutputReadsBack` | src/byzerllm/apps/agent/extensions/python_codesandbox_agent.py:168-171 | The report starts with "exitcode: " followed by the exit code, which parses back to its value. Its status word says "execution succeeded" exactly for exit code 0, and it ends with the output. |
| `PythonSandbox.ExecutionOutput` | src/byzerllm/apps/agent/extensions/python_codesandbox_agent.py:168-171 | The report starts with "exitcode: " and ends with the output. |
| `PythonSandbox.ParseIntToString` | src/byzerllm/apps/agent/extensions/python_codesandbox_agent.py:171 | The printed exit code is a signed decimal that reads back as the exit code. |
| `PythonSandbox.PythonSandboxAgent.GenerateExecuteCodeReply` | src/byzerllm/apps/agent/extensions/python_codesandbox_agent.py:133-179 | With execution disabled it returns (False, None). Without messages and sender it raises AttributeError. With no messages, the read under the sender's name opens an empty history there, so nothing is found. When no message in the window stops the scan it returns (False, None). A stopping message without content raises KeyError, and a missing sender raises AttributeError. Otherwise it returns (True, response) for that message's Python blocks, joined with "\n" and run, with status equal to the exit code. Both pool maps are stated exactly: the sender's name is stamped, stale names are evicted, and the sender's sandbox is reused or fresh and empty. "last_n_messages" is put back (1 when absent) on the two returning paths and stays popped on the raising ones. |
| `PythonSandbox.CalledIndicesIff` | src/byzerllm/apps/agent/extensions/python_codesandbox_agent.py:121-126 | The entries the override calls among the first `n` are exactly those not excluded, coroutines included, each once and in list order. |
| `PythonSandbox.FirstAnswer` | src/byzerllm/apps/agent/extensions/python_codesandbox_agent.py:121-128 | The first entry that is not excluded and whose call raises or answers with `final` true. Every earlier entry is excluded or answers non-final without raising. |
| `PythonSandbox.DispatchOverride` | src/byzerllm/apps/agent/extensions/python_codesandbox_agent.py:121-130 | The override's loop stops at the first entry that is not excluded and either raises or answers final. It raises TypeError when that entry is a coroutine, whose coroutine object cannot be unpacked into `final, reply`. It also raises TypeError when that entry is `generate_llm_reply`, which has no `raw_message` parameter. Otherwise it returns that entry's reply, or the default when it runs through the list. The handlers it calls are exactly the non-excluded entries up to and including the one where it stops, in order. |
| `PythonSandbox.PythonSandboxAgent.GenerateReply` | src/byzerllm/apps/agent/extensions/python_codesandbox_agent.py:105-130 | Raises AssertionError without messages and sender. Otherwise the result and the calls are those of the override's loop: TypeError at a reached coroutine or `generate_llm_reply` entry, else the first final reply or the default. With no messages, the read under the sender's name opens an empty history there, and that history is used. |
| `PythonSandbox.OverrideCallsAsBase` | src/byzerllm/apps/agent/extensions/python_codesandbox_agent.py:121-126 | Without coroutine handlers the override calls exactly the entries the base loop calls. |
| `PythonSandbox.OverrideAnswersAsBase` | src/byzerllm/apps/agent/extensions/python_codesandbox_agent.py:121-128 | When no entry is a coroutine or `generate_llm_reply`, the override stops at the same entry as the base loop and returns the base loop's reply without raising. |
| `PythonSandbox.OverrideRaisesAt` | src/byzerllm/apps/agent/extensions/python_codesandbox_agent.py:121-127 | A reached, non-excluded coroutine or `generate_llm_reply` entry makes the override raise TypeError, whatever any handler would answer. |
| `RetrievalAgents.Upper` | src/byzerllm/apps/agent/extensions/retrieval_agent.py:192 | `.upper()` keeps the length and upper-cases each character. |
| `RetrievalAgents.ContainsIff` | src/byzerllm/apps/agent/extensions/retrieval_agent.py:192 | Python's `in` on strings holds exactly when the pattern occurs at some offset. |
| `RetrievalAgents.WindowContainsIff` | src/byzerllm/apps/agent/extensions/retrieval_agent.py:192 | A pattern occurs in an upper-cased slice exactly when it occurs, ignoring case, wholly inside that range of the string. |
| `RetrievalAgents.InWindowsIff` | src/byzerllm/apps/agent/extensions/retrieval_agent.py:202 | The two-window test finds a pattern exactly when it occurs, ignoring case, wholly inside the first 20 or the last 20 characters. |
| `RetrievalAgents.HasMarkerIff` | src/byzerllm/apps/agent/extensions/retrieval_agent.py:192 | A response has the marker exactly when "UPDATE CONTEXT" occurs in it, ignoring case, wholly inside its first 20 or its last 20 characters. |
| `RetrievalAgents.HasMarker` | src/byzerllm/apps/agent/extensions/retrieval_agent.py:192 | A response of at most 20 characters has the marker exactly when its upper-cased text contains "UPDATE CONTEXT". |
| `RetrievalAgents.AttemptBound` | src/byzerllm/apps/agent/extensions/retrieval_agent.py:193-196 | The loop asks at least once and at most once per chunk. With a positive retry count it asks at most `min(update_context_retry, len(contents))` times. |
| `RetrievalAgents.Prompt` | src/byzerllm/apps/agent/extensions/retrieval_agent.py:184-187 | The prompt reads back the question and the chunk at fixed offsets, each after its lead text, and it ends with a newline. |
| `RetrievalAgents.FirstAnswered` | src/byzerllm/apps/agent/extensions/retrieval_agent.py:190-202 | The first chunk, within the bound, whose response has no marker. Every earlier response has the marker. |
| `RetrievalAgents.GenerateRetrievalBasedReply` | src/byzerllm/apps/agent/extensions/retrieval_agent.py:168-207 | It raises AttributeError without messages and sender. With no messages, the read under the sender's name opens an empty history there, and the history is that empty one. It raises IndexError for an empty history or an empty search result, and KeyError for a latest message without content. Otherwise the prompts go to chunks 0, 1, 2, … in order, each once, each embedding the question and that chunk. It stops after the first marker-free response or at the bound. The result is always final: that response, or "FAIL TO ANSWER". |
| `RetrievalAgents.AskUntilAnswered` | src/byzerllm/apps/agent/extensions/retrieval_agent.py:190-202 | The retry loop for any marker test: prompts go to chunks 0, 1, … in order, one per attempt, until the first unmarked response or the bound. It returns that response, or "FAIL TO ANSWER" when every attempt was marked. |
| `RetrievalAgents.InstallRetrievalReplies` | src/byzerllm/apps/agent/extensions/retrieval_agent.py:100-103 | The reply list becomes exactly [termination handler, retrieval handler]. |
| `RetrievalAgents.LoopStepAsWrittenRaises` | src/byzerllm/apps/agent/extensions/retrieval_agent.py:190 | As written, each LLM step of the loop raises TypeError, with or without a model. |
| `RetrievalAgents.PromptAsMessagesReachesModel` | src/byzerllm/apps/agent/conversable_agent.py:76-83 | Passing the prompt as the messages gives a final reply: the model's answer to the system messages followed by the prompt. |
| `Util.PyPrefix` | src/byzerllm/apps/agent/extensions/retrieval_agent.py:243 | `s[0:limit]`: the first `min(limit, len)` elements, with a negative limit counting from the end. |
| `RetrievalMemory.Insert` | src/byzerllm/apps/agent/extensions/retrieval_agent.py:243 | Inserting adds exactly the record to the multiset. |
| `RetrievalMemory.InsertSorted` | src/byzerllm/apps/agent/extensions/retrieval_agent.py:243 | Inserting into a sequence sorted by creation time keeps it sorted. |
| `RetrievalMemory.SortByTime` | src/byzerllm/apps/agent/extensions/retrieval_agent.py:243 | The result is sorted ascending by creation time and is a permutation of the input. |
| `RetrievalMemory.InsertKeepsTies` | src/byzerllm/apps/agent/extensions/retrieval_agent.py:243 | The inserted record comes first among the records created at its time. The others created at the same time keep their order. |
| `RetrievalMemory.SortIsStable` | src/byzerllm/apps/agent/extensions/retrieval_agent.py:243 | The sort is stable: at every creation time, the records created then keep their input order. |
| `RetrievalMemory.GetConversations` | src/byzerllm/apps/agent/extensions/retrieval_agent.py:235-244 | The result has the length of `docs[0:limit]`, so at most `limit` records for a non-negative limit. It is sorted ascending by creation time and is a permutation of `docs[0:limit]`. |
| `RetrievalMemory.GetConversationsKeepsTies` | src/byzerllm/apps/agent/extensions/retrieval_agent.py:243 | The result keeps the order of `docs[0:limit]` among records created at the same time. |
| `RetrievalMemory.MatchingRecords` | src/byzerllm/apps/agent/extensions/retrieval_agent.py:327 | Keeps exactly the user messages of the chat, each as often as in the query, as a subsequence of it. |
| `RetrievalMemory.SearchMemoryJsonRaises` | src/byzerllm/apps/agent/extensions/retrieval_agent.py:328-330 | As written, the JSON branch raises KeyError whenever some user message of the chat is kept. |
| `RetrievalMemory.SearchMemorySpec` | src/byzerllm/apps/agent/extensions/retrieval_agent.py:320-332 | Keeps at most `limit` records, all user messages of the chat, in query order, as a prefix of the matches. Below the limit it keeps every match. The corrected JSON branch lists the same records' contents. |
| `RetrievalMemory.SearchMemoryCorrected` | src/byzerllm/apps/agent/extensions/retrieval_agent.py:320-332 | Returns the contents exactly when JSON is asked for. The records are `matches[0:limit]`, and the contents are those records' texts, in order. |
| `RetrievalMemory.SearchMemory` | src/byzerllm/apps/agent/extensions/retrieval_agent.py:320-332 | As written: without JSON it equals the corrected search. With JSON it succeeds exactly when nothing is kept, and then it equals the corrected search. Otherwise it raises KeyError. |

## Left out

- Ray plumbing is not modelled. This covers `ray.get`, `.remote(...)`, the remote branch of `send` and sandboxes created as remote actors. Counterparts are local agent objects, and `recipient.receive` is a method call on another object.
- `get_agent_name` is not modelled. Histories are keyed by agent objects. A read by a counterpart's name (the sandbox agent's handlers, the retrieval handler) opens an empty history under that name, which the agent's `nameKeys` records. With no sender, `get_agent_name` raises AttributeError.
- `generate_llm_reply` and `chat_oai` are not modelled as such. Every handler is an oracle. `RetrievalAgents.LlmReplyWithListSender` models the only call the retry loop makes, with a list as sender, and returns the `(final, reply)` pair; it is a plain definition that `LoopStepAsWrittenRaises` and `PromptAsMessagesReachesModel` state facts about.
- `code_utils.extract_code`, `exec_capture_output` and `execute_code` are function parameters. They use `exec` and redirect process-wide output. The source unpacks a Ray object reference at python_codesandbox_agent.py:166, and the model runs the code directly instead.
- The file write in `CodeSandbox.__init__` is not modelled, because it is file I/O.
- `time.time()` is not modelled. The current time is a parameter. `check_sandbox_timeout` reads the clock once per name, and the model uses one instant per call. The clock and the timestamps in `lasted_updated` are integers, where `time.time()` gives float seconds, so sub-second ages are not modelled. The `> timeout` test is the same comparison on whole numbers.
- `CheckSandboxTimeout` requires that every stale name has a sandbox. Otherwise the source's `del` raises KeyError. The pool invariant always provides this.
- Coroutine detection is a boolean flag on each reply entry.
- Reply triggers are stored but never evaluated, as in the dispatch loops.
- The reset hook mutates the config in place. The model returns the new config as the hook's result.
- The print statements are not modelled.
- `check_termination_and_human_reply` is not defined in the modelled files. It is an opaque handler. Its signature is not known either, so `PythonSandbox.TakesRawMessage` counts it, like any custom handler, as accepting the `raw_message` keyword that the sandbox agent's loop passes.
- `update_system_message` and `system_message` are not modelled.
- `position=None` in `register_reply` is not modelled. Positions are integers.
- A `code_execution_config` that is neither False nor a dict (True, say) is not modelled. The source would fail on `pop`.
- `Upper` upper-cases ASCII letters only, not all of Unicode.
- The mutual recursion of `send` and `receive` is cut after `depth` round trips, with the outcome DepthExhausted. The source recurses until no reply is produced.
- The message text that exceptions carry is not modelled. Only the exception kind is.
- The `ChatResponse` conversion of handler replies is not modelled. The code handler's response is returned as a datatype. For the same reason, the `else: dict(message)` branch of `_message_to_dict` (conversable_agent.py:208-209), which converts any other object such as a `ChatResponse`, is not modelled: `Messages.MessageToDict` takes a message that is either text or a dict.
- `RetrievalAgent.__init__` is not modelled, apart from the reply list it installs. It probes the engine and creates tables. Its base-constructor call passes `name, llm, retrieval` positionally to `(llm, retrieval, name)`, so `self.llm` is the name string and the engine probe `self.llm.apply_sql_func` fails on it. PythonSandboxAgent makes the same call, but nothing in its constructor uses `self.llm`, so it is constructed (see Findings).
- `ConversableAgents.ConversableAgent.Receive` models the base `receive`, whose generation uses the base dispatch loop. A PythonSandboxAgent's `receive` calls its own `generate_reply`, which does not skip coroutine handlers. The model does not tie the two together. `PythonSandbox.OverrideAnswersAsBase` shows that they agree when no handler is a coroutine or `generate_llm_reply`. Otherwise the override raises TypeError at such an entry (`PythonSandbox.OverrideRaisesAt`), where the base loop skips a coroutine.
- `_oai_system_message` is read by `generate_llm_reply` but never assigned in the modelled files (the constructor sets `_system_message`), so as written that read raises AttributeError. `RetrievalAgents.LlmReplyWithListSender` takes the system messages as a parameter instead.
- `save_conversation`, `save_text_content`, `emb`, `search_tokenize`, `search_content_chunks`, `get_doc`, `get_doc_by_url` and `get_conversations_as_history` are not modelled, because they are calls into the retrieval and LLM backends. The query results are parameters: the retrieved chunks as strings, and the memory records. `_owner_filter()` is called without its required argument, so the query paths fail as written.
- The search result's order and the backend's sort and limit are not modelled. The model takes the returned records as given.
- The JSON text of `search_memory` (indentation, escaping) is not modelled. The corrected branch returns the list of contents it would hold.

## Findings

| source | as written | input that shows it | evidently intended | confidence | as-written member | corrected member |
|---|---|---|---|---|---|---|
| src/byzerllm/apps/agent/extensions/retrieval_agent.py:190 | `generate_llm_reply(None, [prompt], sender)` binds `messages` to None and `sender` to the list `[prompt]`. Without a model the call returns `(False, None)` and the marker test then slices None. With a model the history lookup uses a list as a dict key. Both raise TypeError. | Any latest message with at least one retrieved chunk. | The LLM is asked the prompt, as in `generate_llm_reply([prompt], sender)`. | not executed | `RetrievalAgents.LoopStepAsWrittenRaises` | `RetrievalAgents.GenerateRetrievalBasedReply` |
| src/byzerllm/apps/agent/extensions/retrieval_agent.py:328-330 | The JSON branch of `search_memory` reads `x["raw_chunk"]`. Memory records store their text under "raw_content" (the user_memory schema), so this raises KeyError. | `return_json=True`, `limit >= 1`, and one user message of the chat among the results. | Read "raw_content". | not executed | `RetrievalMemory.SearchMemoryJsonRaises` | `RetrievalMemory.SearchMemorySpec` |
| src/byzerllm/apps/agent/extensions/python_codesandbox_agent.py:86-95 | `super().__init__(name, llm, retrieval, ...)` passes three positional arguments to `(llm, retrieval, name, ...)`. The agent's name becomes the retrieval client and `self.llm` the name string. | Any construction of a PythonSandboxAgent. | Pass them in the base class's order, so the agent is named by `name`. | not executed | `PythonSandbox.SuperCallAsWrittenMisbinds` | `PythonSandbox.SuperCallIntendedBinds` |
